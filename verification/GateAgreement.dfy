/**
  The two evidence gates: what accounting proposes, the shadow verification accepts, exactly when the record it looks
  up is itself accepted and names no blank reference.
 */
module GateAgreement {
  import opened Accounting
  import opened AccountingTheorems
  import opened AccountingOrder
  import opened AccountingInventory
  import opened EvidenceGates
  import opened ShadowVerifier
  import Sorting
  import Text

  // ----------------------------------------------------------------- compaction

  lemma InventoryOrder()
    ensures Sorting.WeakOrder(EvidenceLess)
  {
    hide Text.Less;
    forall a, b | EvidenceLess(a, b)
      ensures !EvidenceLess(b, a)
    {
      if a.id != b.id {
        Text.LessAsymmetric(a.id, b.id);
      } else if a.targetUID != b.targetUID {
        Text.LessAsymmetric(a.targetUID, b.targetUID);
      }
    }
    forall a, b, c | !EvidenceLess(b, a) && !EvidenceLess(c, b)
      ensures !EvidenceLess(c, a)
    {
      InventoryChain(a, b, c);
    }
  }

  lemma InventoryChain(a: Evidence, b: Evidence, c: Evidence)
    requires !EvidenceLess(b, a) && !EvidenceLess(c, b)
    ensures !EvidenceLess(c, a)
  {
    hide Text.Less;
    Text.LessIrreflexive(a.id);
    Text.LessIrreflexive(b.id);
    Text.LessIrreflexive(a.targetUID);
    Text.LessIrreflexive(b.targetUID);
    StrictOrEqual(a.id, b.id, c.id);
    if a.id == b.id == c.id {
      StrictOrEqual(a.targetUID, b.targetUID, c.targetUID);
    }
  }

  ghost predicate SortedByID(xs: seq<Evidence>) {
    forall i, j :: 0 <= i < j < |xs| ==> !Text.Less(xs[j].id, xs[i].id)
  }

  lemma SortedMeansByID(xs: seq<Evidence>)
    requires Sorting.SortedBy(xs, EvidenceLess)
    ensures SortedByID(xs)
  {
    hide Text.Less;
    forall i, j | 0 <= i < j < |xs|
      ensures !Text.Less(xs[j].id, xs[i].id)
    {
      Text.LessIrreflexive(xs[i].id);
      assert !EvidenceLess(xs[j], xs[i]);
    }
  }

  lemma {:induction false} CompactedMembers(xs: seq<Evidence>)
    ensures forall e :: e in Compacted(xs) <==> e in xs
    ensures xs != [] ==> Compacted(xs) != [] && Compacted(xs)[|Compacted(xs)| - 1] == xs[|xs| - 1]
  {
    if xs != [] {
      CompactedMembers(xs[..|xs| - 1]);
      assert xs == xs[..|xs| - 1] + [xs[|xs| - 1]];
    }
  }

  function IsID(id: string): Evidence -> bool {
    (e: Evidence) => e.id == id
  }

  /** All entries of one ID are the same entry. */
  ghost predicate OneContent(xs: seq<Evidence>, id: string) {
    forall e, f :: e in xs && f in xs && e.id == id && f.id == id ==> e == f
  }

  /** In a sorted list the entries of an ID stand together. */
  lemma NeighboursShareTheID(xs: seq<Evidence>, i: nat, id: string)
    requires SortedByID(xs) && i + 1 < |xs| && xs[i].id == id && xs[|xs| - 1].id == id
    ensures xs[|xs| - 2].id == id
  {
    hide Text.Less;
    var n := |xs| - 2;
    assert i < n ==> !Text.Less(xs[n].id, xs[i].id);
    assert !Text.Less(xs[n + 1].id, xs[n].id);
    Text.LessTotal(xs[n].id, id);
    Text.LessIrreflexive(id);
  }

  lemma FrontStaysSorted(xs: seq<Evidence>, id: string)
    requires xs != [] && SortedByID(xs) && OneContent(xs, id)
    ensures SortedByID(xs[..|xs| - 1]) && OneContent(xs[..|xs| - 1], id)
  {
    hide Text.Less;
    assert forall e :: e in xs[..|xs| - 1] ==> e in xs;
  }

  lemma CompactedNext(front: seq<Evidence>, last: Evidence)
    ensures Compacted(front + [last])
         == if front != [] && front[|front| - 1] == last then Compacted(front) else Compacted(front) + [last]
  {
    assert (front + [last])[..|front|] == front;
    CompactedMembers(front);
  }

  predicate Has(xs: seq<Evidence>, id: string) {
    exists i :: 0 <= i < |xs| && xs[i].id == id
  }

  lemma HasNext(front: seq<Evidence>, last: Evidence, id: string)
    ensures Has(front + [last], id) <==> Has(front, id) || last.id == id
  {
    assert forall i :: 0 <= i < |front| ==> (front + [last])[i] == front[i];
    assert (front + [last])[|front|] == last;
  }

  lemma KeptNext(front: seq<Evidence>, last: Evidence, id: string)
    ensures Sorting.Count(Compacted(front + [last]), IsID(id))
         == Sorting.Count(Compacted(front), IsID(id))
            + (if last.id != id || (front != [] && front[|front| - 1] == last) then 0 else 1)
  {
    hide Compacted, Sorting.Count;
    CompactedNext(front, last);
    Sorting.CountAppend(Compacted(front), last, IsID(id));
  }

  /** So compaction leaves one of equal ones. */
  lemma {:induction false} OneIsKept(xs: seq<Evidence>, id: string)
    requires SortedByID(xs) && OneContent(xs, id)
    ensures Sorting.Count(Compacted(xs), IsID(id)) == if Has(xs, id) then 1 else 0
  {
    if xs != [] {
      OneIsKept(xs[..|xs| - 1], id) by {
        FrontStaysSorted(xs, id);
      }
      NextIsKeptOnce(xs, xs[..|xs| - 1], xs[|xs| - 1], id);
    }
  }

  lemma NextIsKeptOnce(xs: seq<Evidence>, front: seq<Evidence>, last: Evidence, id: string)
    requires xs == front + [last] && SortedByID(xs) && OneContent(xs, id)
    requires Sorting.Count(Compacted(front), IsID(id)) == if Has(front, id) then 1 else 0
    ensures Sorting.Count(Compacted(xs), IsID(id)) == if Has(xs, id) then 1 else 0
  {
    hide SortedByID, OneContent, Compacted, Has, Sorting.Count, IsID;
    KeptNext(front, last, id);
    HasNext(front, last, id);
    if last.id == id && Has(front, id) {
      assert front == xs[..|xs| - 1];
      LastIsTheSame(xs, id);
    }
    if front != [] && front[|front| - 1] == last && last.id == id {
      LastIsHad(front);
    }
  }

  lemma LastIsHad(xs: seq<Evidence>)
    requires xs != []
    ensures Has(xs, xs[|xs| - 1].id)
  {
  }

  lemma LastIsTheSame(xs: seq<Evidence>, id: string)
    requires xs != [] && SortedByID(xs) && OneContent(xs, id) && xs[|xs| - 1].id == id && Has(xs[..|xs| - 1], id)
    ensures |xs| > 1 && xs[|xs| - 2] == xs[|xs| - 1]
  {
    hide SortedByID;
    var front := xs[..|xs| - 1];
    var i :| 0 <= i < |front| && front[i].id == id;
    NeighboursShareTheID(xs, i, id);
    assert xs[|xs| - 2] in xs && xs[|xs| - 1] in xs;
  }

  // ------------------------------------------------------------------ the inventory

  /** What holds of every entry of an inventory. */
  predicate Tidy(refs: seq<EvidenceRef>, e: Evidence) {
    EvidenceID(e) == e.id && Text.TrimSpace(e.targetUID) == e.targetUID && HoldsRef(refs, e.id)
  }

  lemma {:induction false} NamingsAreTheScope(names: seq<string>, scope: Scope, id: string, s: Scope)
    requires s in Namings(names, scope, id)
    ensures s == scope
  {
    hide Text.TrimSpace;
    if s in Namings(names[..|names| - 1], scope, id) {
      NamingsAreTheScope(names[..|names| - 1], scope, id, s);
    }
  }

  lemma {:induction false} ScopesAreTrimmed(os: seq<Observation>, start: Instant, end: Instant, id: string, s: Scope)
    requires s in Scopes(os, start, end, id)
    ensures Text.TrimSpace(s.targetUID) == s.targetUID
  {
    hide Text.TrimSpace, Namings;
    var o := os[|os| - 1];
    if s in Scopes(os[..|os| - 1], start, end, id) {
      ScopesAreTrimmed(os[..|os| - 1], start, end, id, s);
    } else {
      NamingsAreTheScope(NamesOf(o), ScopeOf(o, start, end), id, s);
      Text.TrimSpaceIdempotent(o.podUID);
    }
  }

  lemma {:induction false} EntriesAreOfScopes(ref: EvidenceRef, scopes: seq<Scope>, e: Evidence)
    requires e in Entries(ref, scopes)
    ensures exists s :: s in scopes && e == Entry(ref, s)
  {
    hide Text.TrimSpace;
    var front := scopes[..|scopes| - 1];
    if e in Entries(ref, front) {
      EntriesAreOfScopes(ref, front, e);
      var s :| s in front && e == Entry(ref, s);
      assert s in scopes;
    } else {
      assert scopes[|scopes| - 1] in scopes;
    }
  }

  lemma {:induction false} EntriesAreTidy(refs: seq<EvidenceRef>, os: seq<Observation>, whole: Scope, e: Evidence)
    requires e in AllEntries(refs, os, whole) && Text.TrimSpace(whole.targetUID) == whole.targetUID
    ensures Tidy(refs, e)
  {
    hide Text.TrimSpace, Scopes, Entries;
    var front, ref := refs[..|refs| - 1], refs[|refs| - 1];
    if e in AllEntries(front, os, whole) {
      EntriesAreTidy(front, os, whole, e);
      var i :| 0 <= i < |front| && Text.TrimSpace(front[i].id) == e.id;
      assert refs[i] == front[i];
    } else {
      var id := Text.TrimSpace(ref.id);
      Text.TrimSpaceIdempotent(ref.id);
      var scopes := Scopes(os, whole.start, whole.end, id);
      if scopes != [] {
        EntriesAreOfScopes(ref, scopes, e);
        var s :| s in scopes && e == Entry(ref, s);
        ScopesAreTrimmed(os, whole.start, whole.end, id, s);
      }
      assert e.id == id && Text.TrimSpace(refs[|refs| - 1].id) == id;
    }
  }

  lemma InventoryFacts(c: Collection, uids: seq<string>, start: Instant, end: Instant)
    ensures forall e :: e in Inventory(c, uids, start, end) ==> Tidy(c.evidenceRefs, e)
    ensures forall id :: OneContent(Inventory(c, uids, start, end), id) ==>
              Sorting.Count(Inventory(c, uids, start, end), IsID(id)) <= 1
  {
    hide Tidy, Compacted, AllEntries, EvidenceLess;
    var whole := WholeScope(uids, start, end);
    WholeIsTrimmed(uids, start, end);
    var entries := AllEntries(c.evidenceRefs, c.scheduling, whole);
    var sorted := Sorting.StableSort(entries, EvidenceLess);
    InventoryOrder();
    Sorting.SortSorts(entries, EvidenceLess);
    Sorting.SameMembers(entries, sorted);
    SortedMeansByID(sorted);
    CompactedMembers(sorted);
    forall e | e in Inventory(c, uids, start, end)
      ensures Tidy(c.evidenceRefs, e)
    {
      EntriesAreTidy(c.evidenceRefs, c.scheduling, whole, e);
    }
    forall id | OneContent(Inventory(c, uids, start, end), id)
      ensures Sorting.Count(Inventory(c, uids, start, end), IsID(id)) <= 1
    {
      OneIsKept(sorted, id);
    }
  }

  lemma WholeIsTrimmed(uids: seq<string>, start: Instant, end: Instant)
    ensures var uid := WholeScope(uids, start, end).targetUID;
            Text.TrimSpace(uid) == uid
  {
    if |uids| == 1 {
      Text.TrimSpaceIdempotent(uids[0]);
    }
  }

  // ---------------------------------------------------------------- one reference

  lemma {:induction false} IdentitiesCount(evidence: seq<Evidence>, refs: seq<EvidenceRef>, id: string)
    requires id != "" && forall e :: e in evidence ==> Tidy(refs, e)
    ensures |IdentitiesOf(evidence, id)| == Sorting.Count(evidence, IsID(id))
    ensures forall e :: e in IdentitiesOf(evidence, id) <==> e in evidence && e.id == id
  {
    hide HoldsRef, Text.TrimSpace;
    if evidence != [] {
      var front, last := evidence[..|evidence| - 1], evidence[|evidence| - 1];
      assert evidence == front + [last];
      assert last in evidence;
      IdentitiesCount(front, refs, id);
      Sorting.CountAppend(front, last, IsID(id));
    }
  }

  lemma UndisputedIsOneContent(d: Digests, evidence: seq<Evidence>, refs: seq<EvidenceRef>, id: string)
    requires Injective(d) && id != "" && !Disputed(d, evidence, id) && forall e :: e in evidence ==> Tidy(refs, e)
    ensures OneContent(evidence, id)
  {
    hide HoldsRef, Injective, CanonicalTime, Text.TrimSpace;
    forall e, f | e in evidence && f in evidence && e.id == id && f.id == id
      ensures e == f
    {
      var i :| 0 <= i < |evidence| && evidence[i] == e;
      var j :| 0 <= j < |evidence| && evidence[j] == f;
      if i != j {
        assert ContentOf(d, evidence[i]) == ContentOf(d, evidence[j]);
        CanonicalTimeIsInjective(d, e.start, f.start);
        CanonicalTimeIsInjective(d, e.end, f.end);
      }
    }
  }

  /** A reference that accounting finds sound has exactly one identity, and the verifier accepts it. */
  lemma SoundRefIsAcceptable(
    d: Digests, c: Collection, uids: seq<string>, start: Instant, end: Instant, record: Record, ref: string)
    requires Injective(d) && multiset(record.evidence) == multiset(Inventory(c, uids, start, end))
    requires Text.TrimSpace(record.candidate.targetUID) == record.candidate.targetUID != ""
    requires Text.TrimSpace(ref) != "" && SoundRef(d, Normalized(record), Text.TrimSpace(ref))
    ensures Acceptable(record, c.evidenceRefs, ref)
  {
    hide Text.TrimSpace, Inventory, FirstIdentity, Disputed, HoldsRef, IdentitiesOf, WindowsCompatible, Injective,
      UniqueStrings, Tidy, OneContent, ShadowWindowsCompatible;
    var id, evidence, inventory := Text.TrimSpace(ref), record.evidence, Inventory(c, uids, start, end);
    Sorting.SameMembers(evidence, inventory);
    InventoryFacts(c, uids, start, end);
    UndisputedIsOneContent(d, evidence, c.evidenceRefs, id);
    OneContentOfMembers(evidence, inventory, id);
    IdentitiesCount(evidence, c.evidenceRefs, id);
    Sorting.CountIgnoresOrder(evidence, inventory, IsID(id));
    var identity := FirstIs(evidence, c.evidenceRefs, id);
    assert identity in IdentitiesOf(evidence, id);
    assert |IdentitiesOf(evidence, id)| == 1;
    assert IdentitiesOf(evidence, id)[0] == identity;
    TidyHolds(c.evidenceRefs, identity);
    ShadowWindowsAgree(record.start, record.end, identity.start, identity.end);
  }

  lemma TidyHolds(refs: seq<EvidenceRef>, e: Evidence)
    requires Tidy(refs, e)
    ensures HoldsRef(refs, e.id)
  {
  }

  lemma OneContentOfMembers(xs: seq<Evidence>, ys: seq<Evidence>, id: string)
    requires OneContent(xs, id) && forall e :: e in xs <==> e in ys
    ensures OneContent(ys, id)
  {
  }

  lemma FirstIs(evidence: seq<Evidence>, refs: seq<EvidenceRef>, id: string) returns (e: Evidence)
    requires FirstIdentity(evidence, id).Some? && forall x :: x in evidence ==> Tidy(refs, x)
    ensures e in evidence && e.id == id && FirstIdentity(evidence, id).value == e
  {
    hide FirstIdentity, HoldsRef, Text.TrimSpace;
    FirstIdentityIsFirst(evidence, id);
    var i :| 0 <= i < |evidence| && EvidenceID(evidence[i]) == id
             && FirstIdentity(evidence, id).value == evidence[i].(id := id);
    e := evidence[i];
    assert e in evidence;
  }

  // ------------------------------------------------------------------ one proposal

  predicate HasBlankRef(record: Record) {
    exists k :: 0 <= k < |record.candidate.evidenceRefs| && Text.TrimSpace(record.candidate.evidenceRefs[k]) == ""
  }

  /** The second gate lets a record through exactly when accounting accepts it and none of its references is blank. */
  lemma AcceptedExactlyWithoutBlanks(
    d: Digests, c: Collection, uids: seq<string>, start: Instant, end: Instant, record: Record)
    requires Injective(d) && multiset(record.evidence) == multiset(Inventory(c, uids, start, end))
    requires Text.TrimSpace(record.candidate.targetUID) == record.candidate.targetUID
    requires HeaderFault(Normalized(record)).None?
    ensures AllAcceptable(record, c.evidenceRefs) <==> Base(d, record).eligible && !HasBlankRef(record)
  {
    hide Text.TrimSpace, Inventory, UniqueStrings, SoundRef, Validated, Acceptable, Injective, Base;
    BaseFacts(d, record);
    EligibleExactlyWhenSound(d, Normalized(record));
    var refs := record.candidate.evidenceRefs;
    UniqueMembers(refs);
    NothingIsUnique();
    if HasBlankRef(record) {
      var k :| 0 <= k < |refs| && Text.TrimSpace(refs[k]) == "";
      BlankIsNotAcceptable(record, c.evidenceRefs, refs[k]);
    } else if Base(d, record).eligible {
      forall k | 0 <= k < |refs|
        ensures Acceptable(record, c.evidenceRefs, refs[k])
      {
        var id := Text.TrimSpace(refs[k]);
        assert Occurs(refs, id);
        assert id in UniqueStrings(refs);
        SoundRefIsAcceptable(d, c, uids, start, end, record, refs[k]);
      }
    } else if AllAcceptable(record, c.evidenceRefs) {
      AcceptableIsSound(d, c, uids, start, end, record);
      assert false;
    }
  }

  lemma AcceptableIsSound(
    d: Digests, c: Collection, uids: seq<string>, start: Instant, end: Instant, record: Record)
    requires multiset(record.evidence) == multiset(Inventory(c, uids, start, end))
    requires Text.TrimSpace(record.candidate.targetUID) == record.candidate.targetUID
    requires AllAcceptable(record, c.evidenceRefs)
    ensures Sound(d, Normalized(record))
  {
    hide Text.TrimSpace, Inventory, UniqueStrings, SoundRef, Acceptable;
    var refs, unique := record.candidate.evidenceRefs, UniqueStrings(record.candidate.evidenceRefs);
    UniqueMembers(refs);
    forall k | 0 <= k < |unique|
      ensures SoundRef(d, Normalized(record), unique[k])
    {
      assert unique[k] in unique;
      var n :| 0 <= n < |refs| && Text.TrimSpace(refs[n]) == unique[k];
      AcceptableRefIsSound(d, c, uids, start, end, record, refs[n]);
    }
    var id := Text.TrimSpace(refs[0]);
    AcceptableIsNotBlank(record, c.evidenceRefs, refs[0]);
    assert Occurs(refs, id);
    assert id in unique;
  }

  lemma AcceptableIsNotBlank(record: Record, refs: seq<EvidenceRef>, ref: string)
    requires Acceptable(record, refs, ref)
    ensures Text.TrimSpace(ref) != ""
  {
  }

  lemma AcceptableRefIsSound(
    d: Digests, c: Collection, uids: seq<string>, start: Instant, end: Instant, record: Record, ref: string)
    requires multiset(record.evidence) == multiset(Inventory(c, uids, start, end))
    requires Text.TrimSpace(record.candidate.targetUID) == record.candidate.targetUID
    requires Acceptable(record, c.evidenceRefs, ref)
    ensures SoundRef(d, Normalized(record), Text.TrimSpace(ref))
  {
    hide Text.TrimSpace, Inventory, HoldsRef, WindowsCompatible, UniqueStrings, Tidy, FirstIdentity, Disputed,
      IdentitiesOf, ShadowWindowsCompatible;
    var id, evidence := Text.TrimSpace(ref), record.evidence;
    Sorting.SameMembers(evidence, Inventory(c, uids, start, end));
    InventoryFacts(c, uids, start, end);
    IdentitiesCount(evidence, c.evidenceRefs, id);
    var identity := IdentitiesOf(evidence, id)[0];
    assert identity in IdentitiesOf(evidence, id);
    KnownEntry(evidence, c.evidenceRefs, identity);
    var first := FirstIs(evidence, c.evidenceRefs, id);
    assert first in IdentitiesOf(evidence, id);
    assert first == identity;
    ShadowWindowsAgree(record.start, record.end, identity.start, identity.end);
    OneEntryIsUndisputed(d, evidence, c.evidenceRefs, id);
  }

  lemma KnownEntry(evidence: seq<Evidence>, refs: seq<EvidenceRef>, e: Evidence)
    requires e in evidence && e.id != "" && forall x :: x in evidence ==> Tidy(refs, x)
    ensures FirstIdentity(evidence, e.id).Some?
  {
    hide HoldsRef, Text.TrimSpace, FirstIdentity;
    FirstIdentityIsFirst(evidence, e.id);
    var i :| 0 <= i < |evidence| && evidence[i] == e;
    assert EvidenceID(evidence[i]) == e.id;
  }

  lemma OneEntryIsUndisputed(d: Digests, evidence: seq<Evidence>, refs: seq<EvidenceRef>, id: string)
    requires id != "" && |IdentitiesOf(evidence, id)| == 1 && forall x :: x in evidence ==> Tidy(refs, x)
    ensures !Disputed(d, evidence, id)
  {
    hide IdentitiesOf, Tidy, Disputed, EvidenceID;
    IdentitiesCount(evidence, refs, id);
    var only := IdentitiesOf(evidence, id)[0];
    forall i | 0 <= i < |evidence| && EvidenceID(evidence[i]) == id
      ensures evidence[i] == only
    {
      assert evidence[i] in evidence;
      TidyID(refs, evidence[i]);
      assert evidence[i] in IdentitiesOf(evidence, id);
    }
    SameIsUndisputed(d, evidence, id, only);
  }

  lemma TidyID(refs: seq<EvidenceRef>, e: Evidence)
    requires Tidy(refs, e)
    ensures EvidenceID(e) == e.id
  {
  }

  lemma SameIsUndisputed(d: Digests, evidence: seq<Evidence>, id: string, only: Evidence)
    requires forall i :: 0 <= i < |evidence| && EvidenceID(evidence[i]) == id ==> evidence[i] == only
    ensures !Disputed(d, evidence, id)
  {
    hide EvidenceID, ContentOf;
  }

  lemma NothingIsUnique()
    ensures UniqueStrings([]) == []
  {
  }

  lemma BlankIsNotAcceptable(record: Record, refs: seq<EvidenceRef>, ref: string)
    requires Text.TrimSpace(ref) == ""
    ensures !Acceptable(record, refs, ref)
  {
  }

  /** A proposal is looked up as a record with its own fingerprint and a complete header. */
  lemma ProposalIsFound(d: Digests, records: seq<Record>, r: Resolution)
    requires Injective(d) && r in Account(d, records) && r.disposition == ProposedClaim
    ensures var found := FirstRecord(records, r.candidateID);
            found.Some? && found.value in records
            && Base(d, found.value).res.candidateFingerprint == r.candidateFingerprint
            && HeaderFault(Normalized(found.value)).None?
  {
    hide Base, ResolutionOf, Account, Conflicting, KeyLess, Text.TrimSpace, FirstRecord, HeaderFault, Injective;
    var i := FromItem(d, records, r);
    ItemsAreWellFormed(d, records);
    ResolutionsByItem(Items(d, records), i);
    var p := records[i];
    assert p in records && Items(d, records)[i] == Checked(Bases(d, records), Base(d, p));
    BaseFacts(d, p);
    FirstRecordIsOne(records, r.candidateID);
    var l := FirstRecord(records, r.candidateID).value;
    var j :| 0 <= j < |records| && records[j] == l;
    BaseFacts(d, l);
    NoConflictMeansOneFingerprint(Bases(d, records), r.candidateID, i, j);
    EligibleExactlyWhenSound(d, Normalized(p));
    SameFingerprintSameHeader(d, p, l);
  }

  lemma SameFingerprintSameHeader(d: Digests, r: Record, s: Record)
    requires Injective(d) && Base(d, r).res.candidateFingerprint == Base(d, s).res.candidateFingerprint
    ensures HeaderFault(Normalized(r)) == HeaderFault(Normalized(s))
  {
    hide Validated, NormalizeStatement, UniqueStrings, DescribeAll, Text.TrimSpace, CanonicalTime;
    var a, b := Normalized(r), Normalized(s);
    assert CandidateContentOf(d, a) == CandidateContentOf(d, b);
    NormalizedIsTrimmed(r);
    NormalizedIsTrimmed(s);
    NormalizeStatementKeepsBlank(a.candidate.statement);
    NormalizeStatementKeepsBlank(b.candidate.statement);
  }

  lemma BaseFacts(d: Digests, record: Record)
    ensures Base(d, record).res.candidateID == Text.TrimSpace(record.candidate.id)
    ensures Base(d, record).eligible == Validated(d, Normalized(record)).eligible
    ensures Base(d, record).eligible ==> Base(d, record).res.candidateID != ""
  {
    hide Text.TrimSpace, UniqueStrings, FirstFault, CandidateContentOf, ClaimContentOf;
  }

  lemma NoConflictMeansOneFingerprint(items: seq<Item>, id: string, i: nat, j: nat)
    requires !Conflicting(items, id) && id != "" && i < |items| && j < |items|
    requires items[i].res.candidateID == id == items[j].res.candidateID
    ensures items[i].res.candidateFingerprint == items[j].res.candidateFingerprint
  {
  }

  // ------------------------------------------------------------------- the theorem

  predicate PlainClaims(diagnostics: seq<DiagnosticResult>) {
    forall i, k, n :: 0 <= i < |diagnostics| && 0 <= k < |diagnostics[i].claims|
                      && 0 <= n < |diagnostics[i].claims[k].evidenceRefs| ==>
                        '|' !in diagnostics[i].claims[k].evidenceRefs[n]
  }

  predicate FromInput(input: Input, record: Record) {
    record.evidence == SortedEvidence(input) && Text.TrimSpace(record.candidate.targetUID) == record.candidate.targetUID
  }

  lemma ClaimIsFromInput(input: Input, result: DiagnosticResult, claim: Candidate)
    ensures FromInput(input, RecordOf(input, result, claim))
    ensures (forall n :: 0 <= n < |claim.evidenceRefs| ==> '|' !in claim.evidenceRefs[n]) ==>
              PlainRefs(RecordOf(input, result, claim))
  {
    hide Text.TrimSpace, SortedEvidence, Text.Less;
    var refs := RecordOf(input, result, claim).candidate.evidenceRefs;
    Text.TrimSpaceIdempotent(claim.targetUID);
    Sorting.SameMembers(claim.evidenceRefs, refs);
    forall n | 0 <= n < |refs|
      ensures exists m :: 0 <= m < |claim.evidenceRefs| && claim.evidenceRefs[m] == refs[n]
    {
      assert refs[n] in claim.evidenceRefs;
    }
  }

  lemma {:induction false} RecordsAreFromInput(input: Input, results: seq<DiagnosticResult>, record: Record)
    requires record in RecordsOf(input, results)
    ensures FromInput(input, record) && (PlainClaims(results) ==> PlainRefs(record))
  {
    hide RecordOf, FromInput, PlainRefs;
    var front, last := results[..|results| - 1], results[|results| - 1];
    if record in RecordsOf(input, front) {
      RecordsAreFromInput(input, front, record);
    } else {
      var own := RecordsOfClaims(input, last, last.claims);
      var k :| 0 <= k < |own| && own[k] == record;
      ClaimIsFromInput(input, last, last.claims[k]);
    }
  }

  function CollectAndReconcile(
    d: Digests, c: Collection, uids: seq<string>, diagnostics: seq<DiagnosticResult>, start: Instant, end: Instant)
    : Reconciliation
  {
    Reconcile(d, Input(diagnostics, Inventory(c, uids, start, end), true, start, end))
  }

  lemma ReconciledRecords(
    d: Digests, c: Collection, uids: seq<string>, diagnostics: seq<DiagnosticResult>, start: Instant, end: Instant)
    requires CollectAndReconcile(d, c, uids, diagnostics, start, end).ReconciliationCompleted?
    ensures var rec := CollectAndReconcile(d, c, uids, diagnostics, start, end);
            var input := Input(diagnostics, Inventory(c, uids, start, end), true, start, end);
            rec.resolutions == Account(d, rec.records)
            && forall r :: r in rec.records ==> FromInput(input, r) && (PlainClaims(diagnostics) ==> PlainRefs(r))
  {
    hide Account, RecordsOf, Inventory, SortedEvidence, PlainClaims, RecordLess, PlainRefs, Nameless, FromInput;
    var input := Input(diagnostics, Inventory(c, uids, start, end), true, start, end);
    var records := RecordsOf(input, diagnostics);
    var sorted := Sorting.StableSort(records, RecordLess);
    Sorting.SameMembers(records, sorted);
    forall record | record in sorted
      ensures FromInput(input, record) && (PlainClaims(diagnostics) ==> PlainRefs(record))
    {
      RecordsAreFromInput(input, diagnostics, record);
    }
  }

  /**
    For the inventory that the collection gives, every proposal is looked up as a record with its own fingerprint, and
    the second gate lets it through exactly when that record is accepted itself and has no blank reference.
   */
  lemma GatesAgree(
    d: Digests, c: Collection, uids: seq<string>, diagnostics: seq<DiagnosticResult>, start: Instant, end: Instant,
    r: Resolution)
    requires Injective(d)
    requires var rec := CollectAndReconcile(d, c, uids, diagnostics, start, end);
             rec.ReconciliationCompleted? && r in rec.resolutions && r.disposition == ProposedClaim
    ensures var rec := CollectAndReconcile(d, c, uids, diagnostics, start, end);
            var found := FirstRecord(rec.records, r.candidateID);
            found.Some? && Base(d, found.value).res.candidateFingerprint == r.candidateFingerprint
            && (Passes(rec.records, c.evidenceRefs, r) <==>
                  Base(d, found.value).eligible && !HasBlankRef(found.value))
  {
    hide Account, Inventory, SortedEvidence, Base, AllAcceptable, HasBlankRef, FirstRecord, Injective, PlainClaims,
      PlainRefs, Normalized, HeaderFault, CollectAndReconcile;
    var input := Input(diagnostics, Inventory(c, uids, start, end), true, start, end);
    var records := CollectAndReconcile(d, c, uids, diagnostics, start, end).records;
    ReconciledRecords(d, c, uids, diagnostics, start, end);
    ProposalIsFound(d, records, r);
    var found := FirstRecord(records, r.candidateID).value;
    assert FromInput(input, found);
    SortedEvidencePermutes(input);
    AcceptedExactlyWithoutBlanks(d, c, uids, start, end, found);
  }

  /** Without separators in the references, or in the inventory, a blank reference is the one thing that can refuse it. */
  lemma GatesAgreeOnPlainIDs(
    d: Digests, c: Collection, uids: seq<string>, diagnostics: seq<DiagnosticResult>, start: Instant, end: Instant,
    r: Resolution)
    requires Injective(d) && (PlainClaims(diagnostics) || PlainInventory(d, Inventory(c, uids, start, end)))
    requires var rec := CollectAndReconcile(d, c, uids, diagnostics, start, end);
             rec.ReconciliationCompleted? && r in rec.resolutions && r.disposition == ProposedClaim
    ensures var rec := CollectAndReconcile(d, c, uids, diagnostics, start, end);
            var found := FirstRecord(rec.records, r.candidateID);
            found.Some? && (Passes(rec.records, c.evidenceRefs, r) <==> !HasBlankRef(found.value))
  {
    hide Account, Inventory, SortedEvidence, Base, Passes, HasBlankRef, FirstRecord, Injective, PlainClaims, PlainRefs,
      PlainInventory, CollectAndReconcile;
    var input := Input(diagnostics, Inventory(c, uids, start, end), true, start, end);
    var records := CollectAndReconcile(d, c, uids, diagnostics, start, end).records;
    ReconciledRecords(d, c, uids, diagnostics, start, end);
    GatesAgree(d, c, uids, diagnostics, start, end, r);
    if PlainInventory(d, input.evidence) {
      SortedStaysPlain(d, input);
    }
    SharedInventoryDetermines(d, records, SortedEvidence(input));
    FoundIsAccepted(d, records, r);
  }

  /** Every proposal is looked up as an accepted record without blank references. */
  predicate ProposalsAreBacked(d: Digests, records: seq<Record>, resolutions: seq<Resolution>) {
    forall k :: 0 <= k < |resolutions| && resolutions[k].disposition == ProposedClaim ==>
      var found := FirstRecord(records, resolutions[k].candidateID);
      found.Some? && Base(d, found.value).eligible && !HasBlankRef(found.value)
  }

  predicate ProposalsNameTheirRefs(records: seq<Record>, resolutions: seq<Resolution>) {
    forall k :: 0 <= k < |resolutions| && resolutions[k].disposition == ProposedClaim ==>
      var found := FirstRecord(records, resolutions[k].candidateID);
      found.Some? && !HasBlankRef(found.value)
  }

  /** Shadow verification completes exactly when no two references clash and each proposal's record stands by itself. */
  lemma ShadowCompletesExactlyWhen(
    d: Digests, c: Collection, uids: seq<string>, diagnostics: seq<DiagnosticResult>, start: Instant, end: Instant)
    requires Injective(d) && CollectAndReconcile(d, c, uids, diagnostics, start, end).ReconciliationCompleted?
    ensures var rec := CollectAndReconcile(d, c, uids, diagnostics, start, end);
            (Completes(rec.records, rec.resolutions, c.evidenceRefs) <==>
               !RefsClash(c.evidenceRefs) && ProposalsAreBacked(d, rec.records, rec.resolutions))
            && (PlainClaims(diagnostics) || PlainInventory(d, Inventory(c, uids, start, end)) ==>
                  (Completes(rec.records, rec.resolutions, c.evidenceRefs) <==>
                     !RefsClash(c.evidenceRefs) && ProposalsNameTheirRefs(rec.records, rec.resolutions)))
  {
    hide CollectAndReconcile, RefsClash, Passes, HasBlankRef, FirstRecord, Base, Injective, PlainClaims, PlainInventory,
      Inventory;
    var rec := CollectAndReconcile(d, c, uids, diagnostics, start, end);
    var refs := c.evidenceRefs;
    forall k | 0 <= k < |rec.resolutions| && rec.resolutions[k].disposition == ProposedClaim
      ensures var found := FirstRecord(rec.records, rec.resolutions[k].candidateID);
              found.Some?
              && (Passes(rec.records, refs, rec.resolutions[k]) <==>
                    Base(d, found.value).eligible && !HasBlankRef(found.value))
              && (PlainClaims(diagnostics) || PlainInventory(d, Inventory(c, uids, start, end)) ==>
                    (Passes(rec.records, refs, rec.resolutions[k]) <==> !HasBlankRef(found.value)))
    {
      var r := rec.resolutions[k];
      assert r in rec.resolutions;
      GatesAgree(d, c, uids, diagnostics, start, end, r);
      if PlainClaims(diagnostics) || PlainInventory(d, Inventory(c, uids, start, end)) {
        GatesAgreeOnPlainIDs(d, c, uids, diagnostics, start, end, r);
      }
    }
  }

  lemma SortedStaysPlain(d: Digests, input: Input)
    requires PlainInventory(d, input.evidence)
    ensures PlainInventory(d, SortedEvidence(input))
  {
    Sorting.SameMembers(input.evidence, SortedEvidence(input));
  }

  lemma FoundIsAccepted(d: Digests, records: seq<Record>, r: Resolution)
    requires Injective(d) && Determined(d, records) && r in Account(d, records) && r.disposition == ProposedClaim
    ensures FirstRecord(records, r.candidateID).Some? && Base(d, FirstRecord(records, r.candidateID).value).eligible
  {
    hide Base, ResolutionOf, Account, Conflicting, KeyLess, Text.TrimSpace, FirstRecord, HeaderFault, Injective,
      Normalized;
    var i := FromItem(d, records, r);
    ItemsAreWellFormed(d, records);
    ResolutionsByItem(Items(d, records), i);
    var p := records[i];
    assert p in records && Items(d, records)[i] == Checked(Bases(d, records), Base(d, p));
    ProposalIsFound(d, records, r);
    var l := FirstRecord(records, r.candidateID).value;
    FirstRecordIsOne(records, r.candidateID);
    BaseFacts(d, l);
    assert SameKey(Base(d, p), Base(d, l));
  }

  lemma SortedEvidencePermutes(input: Input)
    ensures multiset(SortedEvidence(input)) == multiset(input.evidence)
  {
  }
}
