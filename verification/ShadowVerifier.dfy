/** The shadow verification of reconciled candidates: a second check of the same evidence, written differently. */
module ShadowVerifier {
  import opened Wrappers
  import opened Accounting
  import opened EvidenceGates
  import Sorting
  import Text
  import Verdict

  datatype VerifierRef = VerifierRef(id: string, kind: string, source: string, summary: string, reason: string)

  datatype Verification = Skipped | Verified(answer: Verdict.Verification)

  /** One entry per resolution; unavailable marks a proposal whose evidence the verifier does not accept. */
  datatype ShadowClaim = ShadowClaim(resolution: Resolution, verification: Verification, unavailable: bool)

  datatype ShadowStatus = NoEligibleClaims | ShadowFailed | ShadowCompleted
  datatype ShadowResult = ShadowResult(
    status: ShadowStatus, claims: seq<ShadowClaim>, proposed: nat, supported: nat, coverage: real)

  // ------------------------------------------------------------------ trusted evidence

  function Trusted(source: EvidenceRef): VerifierRef {
    VerifierRef(Text.TrimSpace(source.id), source.kind, source.source, source.summary, source.reason)
  }

  predicate Clash(a: EvidenceRef, b: EvidenceRef) {
    Text.TrimSpace(a.id) != "" && Text.TrimSpace(a.id) == Text.TrimSpace(b.id)
    && (a.kind != b.kind || a.source != b.source || a.summary != b.summary || a.reason != b.reason)
  }

  /** Two references use one ID for different contents. */
  predicate RefsClash(refs: seq<EvidenceRef>) {
    exists i, j :: 0 <= i < j < |refs| && Clash(refs[i], refs[j])
  }

  predicate HoldsRef(refs: seq<EvidenceRef>, id: string) {
    id != "" && exists i :: 0 <= i < |refs| && Text.TrimSpace(refs[i].id) == id
  }

  /** Each ID has the contents of the references that use it. */
  ghost predicate TrustedEntries(entries: map<string, VerifierRef>, refs: seq<EvidenceRef>) {
    (forall id :: id in entries <==> HoldsRef(refs, id))
    && forall i :: 0 <= i < |refs| && Text.TrimSpace(refs[i].id) != "" ==>
         entries[Text.TrimSpace(refs[i].id)] == Trusted(refs[i])
  }

  method TrustedVerifierEvidence(refs: seq<EvidenceRef>) returns (entries: map<string, VerifierRef>, ok: bool)
    ensures ok <==> !RefsClash(refs)
    ensures ok ==> forall id :: id in entries <==> HoldsRef(refs, id)
    ensures ok ==> TrustedEntries(entries, refs)
  {
    hide Text.TrimSpace;
    entries := map[];
    for i := 0 to |refs|
      invariant forall id :: id in entries ==>
        id != "" && exists j :: 0 <= j < i && entries[id] == Trusted(refs[j]) && Text.TrimSpace(refs[j].id) == id
      invariant forall j :: 0 <= j < i && Text.TrimSpace(refs[j].id) != "" ==>
        Text.TrimSpace(refs[j].id) in entries && entries[Text.TrimSpace(refs[j].id)] == Trusted(refs[j])
    {
      var source := refs[i];
      var id := Text.TrimSpace(source.id);
      if id == "" {
        continue;
      }
      var candidate := VerifierRef(id, source.kind, source.source, source.summary, source.reason);
      if id in entries {
        var existing := entries[id];
        if existing.kind != candidate.kind || existing.source != candidate.source
           || existing.summary != candidate.summary || existing.reason != candidate.reason {
          var j :| 0 <= j < i && entries[id] == Trusted(refs[j]) && Text.TrimSpace(refs[j].id) == id;
          assert Clash(refs[j], refs[i]);
          return map[], false;
        }
        continue;
      }
      entries := entries[id := candidate];
    }
    ok := true;
  }

  method RecordsByCandidateID(records: seq<Record>) returns (result: map<string, Record>)
    ensures forall id :: (if id in result then Some(result[id]) else None) == FirstRecord(records, id)
  {
    hide Text.TrimSpace;
    result := map[];
    for i := 0 to |records|
      invariant forall id :: (if id in result then Some(result[id]) else None) == FirstRecord(records[..i], id)
    {
      assert records[..i + 1][..i] == records[..i];
      var id := Text.TrimSpace(records[i].candidate.id);
      if id == "" {
        continue;
      }
      if id !in result {
        result := result[id := records[i]];
      }
    }
    assert records[..|records|] == records;
  }

  /** The first record with a candidate ID. */
  function FirstRecord(records: seq<Record>, id: string): (r: Option<Record>) {
    if records == [] then None
    else
      var before := FirstRecord(records[..|records| - 1], id);
      var last := records[|records| - 1];
      if before.Some? || id == "" || Text.TrimSpace(last.candidate.id) != id then before else Some(last)
  }

  lemma {:induction false} FirstRecordIsOne(records: seq<Record>, id: string)
    ensures FirstRecord(records, id).Some? <==>
            id != "" && exists i :: 0 <= i < |records| && Text.TrimSpace(records[i].candidate.id) == id
    ensures FirstRecord(records, id).Some? ==>
              FirstRecord(records, id).value in records && Text.TrimSpace(FirstRecord(records, id).value.candidate.id) == id
    ensures FirstRecord(records, id).Some? ==>
              exists i :: 0 <= i < |records| && records[i] == FirstRecord(records, id).value
                          && forall j :: 0 <= j < i ==> Text.TrimSpace(records[j].candidate.id) != id
  {
    hide Text.TrimSpace;
    if records != [] {
      var front, n := records[..|records| - 1], |records| - 1;
      FirstRecordIsOne(front, id);
      assert forall i :: 0 <= i < n ==> front[i] == records[i];
      assert records[n] in records;
    }
  }

  // -------------------------------------------------------------- evidence of a candidate

  /** The identities recorded for an evidence ID. */
  function IdentitiesOf(evidence: seq<Evidence>, id: string): seq<Evidence> {
    if evidence == [] then []
    else
      IdentitiesOf(evidence[..|evidence| - 1], id)
      + (if id != "" && EvidenceID(evidence[|evidence| - 1]) == id then [evidence[|evidence| - 1]] else [])
  }

  /** The verifier's own test of two windows. */
  predicate ShadowWindowsCompatible(
    candidateStart: Instant, candidateEnd: Instant, evidenceStart: Instant, evidenceEnd: Instant)
  {
    if candidateStart == NO_INSTANT && candidateEnd == NO_INSTANT
       && evidenceStart == NO_INSTANT && evidenceEnd == NO_INSTANT then true
    else if candidateStart == NO_INSTANT || candidateEnd == NO_INSTANT
            || evidenceStart == NO_INSTANT || evidenceEnd == NO_INSTANT then false
    else if candidateEnd < candidateStart || evidenceEnd < evidenceStart then false
    else !(candidateEnd < evidenceStart) && !(evidenceEnd < candidateStart)
  }

  /** It says what accounting's test says: all bounds are unknown, or all known and some instant lies in both windows. */
  lemma ShadowWindowsAgree(start0: Instant, end0: Instant, start1: Instant, end1: Instant)
    ensures ShadowWindowsCompatible(start0, end0, start1, end1) <==> WindowsCompatible(start0, end0, start1, end1)
    ensures ShadowWindowsCompatible(start0, end0, start1, end1) <==>
            (start0 == end0 == start1 == end1 == NO_INSTANT)
            || (NO_INSTANT !in {start0, end0, start1, end1}
                && exists t :: Within(t, start0, end0) && Within(t, start1, end1))
  {
    if NO_INSTANT !in {start0, end0, start1, end1} {
      CompatibleMeansOverlapping(start0, end0, start1, end1);
    }
  }

  /** What the verifier asks of one reference. */
  predicate Acceptable(record: Record, refs: seq<EvidenceRef>, ref: string) {
    AcceptableID(record, refs, Text.TrimSpace(ref))
  }

  predicate AcceptableID(record: Record, refs: seq<EvidenceRef>, id: string) {
    var identities := IdentitiesOf(record.evidence, id);
    id != "" && HoldsRef(refs, id) && |identities| == 1
    && identities[0].authorized && identities[0].valid && !identities[0].incomplete
    && identities[0].targetUID != "" && identities[0].targetUID == record.candidate.targetUID
    && ShadowWindowsCompatible(record.start, record.end, identities[0].start, identities[0].end)
  }

  predicate AllAcceptable(record: Record, refs: seq<EvidenceRef>) {
    record.candidate.evidenceRefs != []
    && forall k :: 0 <= k < |record.candidate.evidenceRefs| ==> Acceptable(record, refs, record.candidate.evidenceRefs[k])
  }

  function AtID(identities: map<string, seq<Evidence>>, id: string): seq<Evidence> {
    if id in identities then identities[id] else []
  }

  method IdentitiesByID(evidence: seq<Evidence>) returns (identities: map<string, seq<Evidence>>)
    ensures forall id :: AtID(identities, id) == IdentitiesOf(evidence, id)
  {
    hide EvidenceID;
    identities := map[];
    for i := 0 to |evidence|
      invariant forall id :: AtID(identities, id) == IdentitiesOf(evidence[..i], id)
    {
      assert evidence[..i + 1][..i] == evidence[..i];
      var id := EvidenceID(evidence[i]);
      if id == "" {
        continue;
      }
      identities := identities[id := AtID(identities, id) + [evidence[i]]];
    }
    assert evidence[..|evidence|] == evidence;
  }

  /** What the verifier is shown: one reference for each ID that the record names, in the order of the IDs. */
  ghost predicate Shown(record: Record, refs: seq<EvidenceRef>, shown: seq<VerifierRef>) {
    (forall i, j :: 0 <= i < j < |shown| ==> Text.Less(shown[i].id, shown[j].id))
    && forall v :: v in shown <==> Occurs(record.candidate.evidenceRefs, v.id) && FromTrusted(refs, v)
  }

  ghost predicate FromTrusted(refs: seq<EvidenceRef>, v: VerifierRef) {
    exists i :: 0 <= i < |refs| && v.id == Text.TrimSpace(refs[i].id) && v.kind == refs[i].kind
                && v.source == refs[i].source && v.summary == refs[i].summary && v.reason == refs[i].reason
  }

  /** The contents behind the IDs named so far, in the order of their first mention. */
  ghost predicate Gathered(entries: map<string, VerifierRef>, named: seq<string>, result: seq<VerifierRef>) {
    |result| == |FirstOccurrences(named)|
    && forall k :: 0 <= k < |result| ==>
         FirstOccurrences(named)[k] in entries && result[k] == entries[FirstOccurrences(named)[k]]
         && result[k].id == FirstOccurrences(named)[k]
  }

  predicate ByID(a: VerifierRef, b: VerifierRef) {
    Text.Less(a.id, b.id)
  }

  lemma ByIDOrders()
    ensures Sorting.WeakOrder(ByID)
  {
    hide Text.Less;
    forall a, b | ByID(a, b)
      ensures !ByID(b, a)
    {
      Text.LessAsymmetric(a.id, b.id);
    }
    forall a, b, c | !ByID(b, a) && !ByID(c, b)
      ensures !ByID(c, a)
    {
      Text.LessIsNegativelyTransitive(a.id, b.id, c.id);
    }
  }

  lemma EntryIsTrusted(entries: map<string, VerifierRef>, refs: seq<EvidenceRef>, id: string)
    requires TrustedEntries(entries, refs) && id in entries
    ensures entries[id].id == id && FromTrusted(refs, entries[id])
  {
    hide Text.TrimSpace;
    assert HoldsRef(refs, id);
    var i :| 0 <= i < |refs| && Text.TrimSpace(refs[i].id) == id;
    assert entries[id] == Trusted(refs[i]);
  }

  lemma TrustedIsEntry(entries: map<string, VerifierRef>, refs: seq<EvidenceRef>, v: VerifierRef)
    requires TrustedEntries(entries, refs) && v.id != "" && FromTrusted(refs, v)
    ensures v.id in entries && entries[v.id] == v
  {
    hide Text.TrimSpace;
    var i :| 0 <= i < |refs| && v.id == Text.TrimSpace(refs[i].id) && v.kind == refs[i].kind
             && v.source == refs[i].source && v.summary == refs[i].summary && v.reason == refs[i].reason;
    assert Trusted(refs[i]) == v && HoldsRef(refs, v.id);
  }

  /** What was gathered is, once sorted, what the verifier is to be shown. */
  lemma GatheredIsShown(
    record: Record, entries: map<string, VerifierRef>, refs: seq<EvidenceRef>, gathered: seq<VerifierRef>)
    requires TrustedEntries(entries, refs) && Gathered(entries, record.candidate.evidenceRefs, gathered)
    ensures Shown(record, refs, Sorting.StableSort(gathered, ByID))
  {
    hide Text.TrimSpace, Text.Less, TrustedEntries, Occurs, FirstOccurrences, FromTrusted, Gathered;
    var named, sorted := record.candidate.evidenceRefs, Sorting.StableSort(gathered, ByID);
    GatheredDiffer(entries, named, gathered);
    ByIDOrders();
    Sorting.SortSorts(gathered, ByID);
    Sorting.SameMembers(gathered, sorted);
    forall v
      ensures v in sorted <==> Occurs(named, v.id) && FromTrusted(refs, v)
    {
      GatheredMembers(entries, refs, named, gathered, v);
    }
    DistinctAfterSorting(gathered, sorted);
  }

  lemma GatheredDiffer(entries: map<string, VerifierRef>, named: seq<string>, gathered: seq<VerifierRef>)
    requires Gathered(entries, named, gathered)
    ensures forall i, j :: 0 <= i < j < |gathered| ==> gathered[i].id != gathered[j].id
  {
    hide FirstOccurrences, Occurs;
    FirstOccurrencesMembers(named);
  }

  lemma GatheredMembers(
    entries: map<string, VerifierRef>, refs: seq<EvidenceRef>, named: seq<string>, gathered: seq<VerifierRef>,
    v: VerifierRef)
    requires TrustedEntries(entries, refs) && Gathered(entries, named, gathered)
    ensures v in gathered <==> Occurs(named, v.id) && FromTrusted(refs, v)
  {
    hide Text.TrimSpace, TrustedEntries, FirstOccurrences, FromTrusted;
    FirstOccurrencesMembers(named);
    var ids := FirstOccurrences(named);
    if v in gathered {
      var k :| 0 <= k < |gathered| && gathered[k] == v;
      assert ids[k] in ids;
      EntryIsTrusted(entries, refs, ids[k]);
    }
    if Occurs(named, v.id) && FromTrusted(refs, v) {
      TrustedIsEntry(entries, refs, v);
      assert v.id in ids;
      var k :| 0 <= k < |ids| && ids[k] == v.id;
      assert gathered[k] == v;
    }
  }

  /** No two gathered references share an ID, so sorting puts them strictly in order. */
  lemma DistinctAfterSorting(gathered: seq<VerifierRef>, sorted: seq<VerifierRef>)
    requires multiset(gathered) == multiset(sorted) && Sorting.SortedBy(sorted, ByID)
    requires forall i, j :: 0 <= i < j < |gathered| ==> gathered[i].id != gathered[j].id
    ensures forall i, j :: 0 <= i < j < |sorted| ==> Text.Less(sorted[i].id, sorted[j].id)
  {
    hide Text.Less;
    forall i, j | 0 <= i < j < |sorted|
      ensures Text.Less(sorted[i].id, sorted[j].id)
    {
      var id := sorted[i].id;
      assert !ByID(sorted[j], sorted[i]);
      Text.LessTotal(id, sorted[j].id);
      if sorted[j].id == id {
        CountOfTwo(sorted, i, j);
        Sorting.CountIgnoresOrder(gathered, sorted, (v: VerifierRef) => v.id == id);
        AtMostOne(gathered, id);
      }
    }
  }

  lemma {:induction false} CountOfTwo(xs: seq<VerifierRef>, i: nat, j: nat)
    requires i < j < |xs| && xs[i].id == xs[j].id
    ensures Sorting.Count(xs, (v: VerifierRef) => v.id == xs[i].id) >= 2
  {
    var p := (v: VerifierRef) => v.id == xs[i].id;
    Sorting.CountSplits(xs, j, p);
    Sorting.CountSplits(xs[..j] + xs[j + 1..], i, p);
  }

  lemma {:induction false} AtMostOne(xs: seq<VerifierRef>, id: string)
    requires forall i, j :: 0 <= i < j < |xs| ==> xs[i].id != xs[j].id
    ensures Sorting.Count(xs, (v: VerifierRef) => v.id == id) <= 1
  {
    var p := (v: VerifierRef) => v.id == id;
    if k :| 0 <= k < |xs| && xs[k].id == id {
      Sorting.CountOfOne(xs, p, k);
    } else {
      Sorting.CountOfNone(xs, p);
    }
  }

  /** There is no other list to show. */
  lemma ShownIsOne(record: Record, refs: seq<EvidenceRef>, a: seq<VerifierRef>, b: seq<VerifierRef>)
    requires Shown(record, refs, a) && Shown(record, refs, b)
    ensures a == b
  {
    hide Text.Less, Occurs, FromTrusted;
    SortedOnce(a);
    SortedOnce(b);
    ByIDOrders();
    forall v
      ensures multiset(a)[v] == multiset(b)[v]
    {
      assert v in a <==> v in b;
      OnceEach(a, v);
      OnceEach(b, v);
    }
    assert multiset(a) == multiset(b);
    assert Sorting.TiesAreEqual(a, ByID) by {
      forall x, y | x in a && y in a && !ByID(x, y) && !ByID(y, x)
        ensures x == y
      {
        var i, j :| 0 <= i < |a| && 0 <= j < |a| && a[i] == x && a[j] == y;
      }
    }
    Sorting.SortedIsUnique(a, b, ByID);
  }

  lemma SortedOnce(xs: seq<VerifierRef>)
    requires forall i, j :: 0 <= i < j < |xs| ==> Text.Less(xs[i].id, xs[j].id)
    ensures Sorting.SortedBy(xs, ByID)
  {
    hide Text.Less;
    forall i, j | 0 <= i < j < |xs|
      ensures !ByID(xs[j], xs[i])
    {
      Text.LessAsymmetric(xs[i].id, xs[j].id);
    }
  }

  lemma {:induction false} OnceEach(xs: seq<VerifierRef>, v: VerifierRef)
    requires forall i, j :: 0 <= i < j < |xs| ==> Text.Less(xs[i].id, xs[j].id)
    ensures multiset(xs)[v] == if v in xs then 1 else 0
  {
    hide Text.Less;
    if xs != [] {
      assert xs == [xs[0]] + xs[1..];
      OnceEach(xs[1..], v);
      Text.LessIrreflexive(v.id);
    }
  }

  lemma AcceptableWhen(record: Record, refs: seq<EvidenceRef>, entries: map<string, VerifierRef>, id: string)
    requires TrustedEntries(entries, refs)
    ensures AcceptableID(record, refs, id) <==>
            id != "" && id in entries && |IdentitiesOf(record.evidence, id)| == 1
            && var identity := IdentitiesOf(record.evidence, id)[0];
               identity.authorized && identity.valid && !identity.incomplete && identity.targetUID != ""
               && identity.targetUID == record.candidate.targetUID
               && ShadowWindowsCompatible(record.start, record.end, identity.start, identity.end)
  {
    hide HoldsRef, IdentitiesOf, ShadowWindowsCompatible;
  }

  method EvidenceForCandidate(record: Record, entries: map<string, VerifierRef>, ghost refs: seq<EvidenceRef>)
    returns (result: seq<VerifierRef>, ok: bool)
    requires TrustedEntries(entries, refs)
    ensures ok <==> AllAcceptable(record, refs)
    ensures ok ==> Shown(record, refs, result)
  {
    hide Text.TrimSpace, ShadowWindowsCompatible, HoldsRef, IdentitiesOf, Shown, Gathered, AcceptableID, FirstOccurrences,
      TrustedEntries;
    NothingIsGathered(entries);
    var identityByID := IdentitiesByID(record.evidence);
    result := [];
    var seen: set<string> := {};
    for k := 0 to |record.candidate.evidenceRefs|
      invariant forall j :: 0 <= j < k ==> Acceptable(record, refs, record.candidate.evidenceRefs[j])
      invariant forall id :: id in seen ==> AcceptableID(record, refs, id)
      invariant k > 0 <==> result != []
      invariant forall id :: id in seen <==> id in FirstOccurrences(record.candidate.evidenceRefs[..k])
      invariant Gathered(entries, record.candidate.evidenceRefs[..k], result)
    {
      var refID := Text.TrimSpace(record.candidate.evidenceRefs[k]);
      AcceptableWhen(record, refs, entries, refID);
      if refID == "" {
        return [], false;
      }
      NextIsGathered(entries, refs, record.candidate.evidenceRefs, k, result);
      if refID in seen {
        continue;
      }
      seen := seen + {refID};
      if refID !in entries {
        return [], false;
      }
      var identities := AtID(identityByID, refID);
      if |identities| != 1 {
        return [], false;
      }
      var identity := identities[0];
      if !identity.authorized || !identity.valid || identity.incomplete || identity.targetUID == ""
         || identity.targetUID != record.candidate.targetUID
         || !ShadowWindowsCompatible(record.start, record.end, identity.start, identity.end) {
        return [], false;
      }
      result := result + [entries[refID]];
    }
    if |result| == 0 {
      return [], false;
    }
    assert record.candidate.evidenceRefs[..|record.candidate.evidenceRefs|] == record.candidate.evidenceRefs;
    GatheredIsShown(record, entries, refs, result);
    result := Sorting.StableSort(result, ByID);
    ok := true;
  }

  lemma NothingIsGathered(entries: map<string, VerifierRef>)
    ensures Gathered(entries, [], [])
  {
  }

  lemma NextIsGathered(
    entries: map<string, VerifierRef>, refs: seq<EvidenceRef>, named: seq<string>, k: nat, result: seq<VerifierRef>)
    requires k < |named| && TrustedEntries(entries, refs) && Gathered(entries, named[..k], result)
    ensures var id, ids := Text.TrimSpace(named[k]), FirstOccurrences(named[..k]);
            FirstOccurrences(named[..k + 1]) == (if id == "" || id in ids then ids else ids + [id])
            && (id == "" || id in ids ==> Gathered(entries, named[..k + 1], result))
            && (id != "" && id !in ids && id in entries ==> Gathered(entries, named[..k + 1], result + [entries[id]]))
  {
    hide Text.TrimSpace, TrustedEntries;
    assert named[..k + 1][..k] == named[..k];
    var id := Text.TrimSpace(named[k]);
    if id in entries {
      EntryIsTrusted(entries, refs, id);
    }
  }

  // ---------------------------------------------------------------- the verification

  predicate ShadowLess(a: Resolution, b: Resolution) {
    if a.candidateFingerprint != b.candidateFingerprint then Text.Less(a.candidateFingerprint, b.candidateFingerprint)
    else Text.Less(a.candidateID, b.candidateID)
  }

  /** A proposal that the second gate lets through. */
  predicate Passes(records: seq<Record>, refs: seq<EvidenceRef>, r: Resolution) {
    var found := FirstRecord(records, r.candidateID);
    found.Some? && AllAcceptable(found.value, refs)
  }

  /** The references agree and every proposal passes the second gate. */
  predicate Completes(records: seq<Record>, resolutions: seq<Resolution>, refs: seq<EvidenceRef>) {
    !RefsClash(refs)
    && forall k :: 0 <= k < |resolutions| && resolutions[k].disposition == ProposedClaim ==>
         Passes(records, refs, resolutions[k])
  }

  /** The answer that the verifier gives for a record, on what it is to be shown. */
  ghost predicate Answers(
    verify: (Record, seq<VerifierRef>) -> Verdict.Verification, refs: seq<EvidenceRef>, record: Record,
    answer: Verdict.Verification)
  {
    exists shown :: Shown(record, refs, shown) && verify(record, shown) == answer
  }

  /** What an entry says about its resolution: skipped, unavailable, or the verifier's own answer. */
  ghost predicate Reflects(
    verify: (Record, seq<VerifierRef>) -> Verdict.Verification, records: seq<Record>, refs: seq<EvidenceRef>,
    c: ShadowClaim)
  {
    (c.verification.Verified? <==> c.resolution.disposition == ProposedClaim && Passes(records, refs, c.resolution))
    && (c.verification.Verified? ==>
          Answers(verify, refs, FirstRecord(records, c.resolution.candidateID).value, c.verification.answer))
    && (c.unavailable <==> Fails(records, refs, c.resolution))
  }

  predicate IsSupported(c: ShadowClaim) {
    c.verification == Verified(Verdict.Supported)
  }

  /** A proposal whose record is found. */
  function IsProposed(records: seq<Record>): ShadowClaim -> bool {
    (c: ShadowClaim) => c.resolution.disposition == ProposedClaim && FirstRecord(records, c.resolution.candidateID).Some?
  }

  function ResolutionsIn(claims: seq<ShadowClaim>): (rs: seq<Resolution>)
    ensures |rs| == |claims| && forall k :: 0 <= k < |rs| ==> rs[k] == claims[k].resolution
  {
    seq(|claims|, k requires 0 <= k < |claims| => claims[k].resolution)
  }

  /** Every resolution has its entry, in the order of fingerprints and IDs, and the counts are those of the entries. */
  ghost predicate Verifies(
    verify: (Record, seq<VerifierRef>) -> Verdict.Verification, records: seq<Record>, resolutions: seq<Resolution>,
    refs: seq<EvidenceRef>, result: ShadowResult)
  {
    ResolutionsIn(result.claims) == Sorting.StableSort(resolutions, ShadowLess)
    && (forall k :: 0 <= k < |result.claims| ==> Reflects(verify, records, refs, result.claims[k]))
    && result.supported == Sorting.Count(result.claims, IsSupported)
    && result.proposed == Sorting.Count(result.claims, IsProposed(records))
    && result.coverage == (if result.proposed == 0 then 0.0 else result.supported as real / result.proposed as real)
  }

  /** Verification completes exactly then, and each verified entry holds what the verifier answered for its record. */
  method VerifyReconciledCandidates(
    r: Reconciliation, refs: seq<EvidenceRef>, verify: (Record, seq<VerifierRef>) -> Verdict.Verification)
    returns (result: ShadowResult)
    ensures r.NoCandidates? ==> result == ShadowResult(NoEligibleClaims, [], 0, 0, 0.0)
    ensures r.ReconciliationFailed? ==> result == ShadowResult(ShadowFailed, [], 0, 0, 0.0)
    ensures r.ReconciliationCompleted? ==>
              (result.status == ShadowCompleted <==> Completes(r.records, r.resolutions, refs))
              && (RefsClash(refs) ==> result == ShadowResult(ShadowFailed, [], 0, 0, 0.0))
              && (!RefsClash(refs) ==> Verifies(verify, r.records, r.resolutions, refs, result))
  {
    hide Verifies;
    if r.NoCandidates? {
      return ShadowResult(NoEligibleClaims, [], 0, 0, 0.0);
    }
    if r.ReconciliationFailed? {
      return ShadowResult(ShadowFailed, [], 0, 0, 0.0);
    }
    var entries, ok := TrustedVerifierEvidence(refs);
    if !ok {
      return ShadowResult(ShadowFailed, [], 0, 0, 0.0);
    }
    result := VerifyAll(r.records, r.resolutions, entries, refs, verify);
  }

  /** One resolution: only a proposal whose record is found and accepted goes to the verifier. */
  method VerifyOne(records: seq<Record>, byID: map<string, Record>, resolution: Resolution,
                   entries: map<string, VerifierRef>, ghost refs: seq<EvidenceRef>,
                   verify: (Record, seq<VerifierRef>) -> Verdict.Verification)
    returns (claim: ShadowClaim)
    requires TrustedEntries(entries, refs)
    requires FirstRecord(records, resolution.candidateID)
          == if resolution.candidateID in byID then Some(byID[resolution.candidateID]) else None
    ensures claim.resolution == resolution && Reflects(verify, records, refs, claim)
  {
    hide AllAcceptable, HoldsRef, FirstRecord, Shown, TrustedEntries;
    if resolution.disposition != ProposedClaim {
      return ShadowClaim(resolution, Skipped, false);
    }
    if resolution.candidateID !in byID {
      return ShadowClaim(resolution, Skipped, true);
    }
    var record := byID[resolution.candidateID];
    var candidateRefs, ok := EvidenceForCandidate(record, entries, refs);
    if !ok {
      return ShadowClaim(resolution, Skipped, true);
    }
    var answer := verify(record, candidateRefs);
    assert Answers(verify, refs, record, answer);
    return ShadowClaim(resolution, Verified(answer), false);
  }

  lemma NothingCounts(records: seq<Record>)
    ensures Sorting.Count([], IsSupported) == 0 == Sorting.Count([], IsProposed(records))
  {
  }

  lemma UnavailableFails(
    verify: (Record, seq<VerifierRef>) -> Verdict.Verification, records: seq<Record>, refs: seq<EvidenceRef>,
    claims: seq<ShadowClaim>)
    requires forall j :: 0 <= j < |claims| ==> Reflects(verify, records, refs, claims[j])
    ensures forall j :: 0 <= j < |claims| ==> (claims[j].unavailable <==> Fails(records, refs, claims[j].resolution))
  {
    hide Fails, Answers, Passes;
  }

  method VerifyAll(records: seq<Record>, all: seq<Resolution>, entries: map<string, VerifierRef>,
                   ghost refs: seq<EvidenceRef>, verify: (Record, seq<VerifierRef>) -> Verdict.Verification)
    returns (result: ShadowResult)
    requires TrustedEntries(entries, refs)
    ensures result.status == ShadowCompleted <==>
            forall k :: 0 <= k < |all| && all[k].disposition == ProposedClaim ==> Passes(records, refs, all[k])
    ensures Verifies(verify, records, all, refs, result)
  {
    hide HoldsRef, ShadowLess, FirstRecord, TrustedEntries, Reflects, Passes, Sorting.Count;
    NothingCounts(records);
    var byID := RecordsByCandidateID(records);
    var resolutions := Sorting.StableSort(all, ShadowLess);
    Sorting.SameMembers(all, resolutions);
    var claims: seq<ShadowClaim>, proposed, supported, failed := [], 0, 0, false;
    for k := 0 to |resolutions|
      invariant |claims| == k && forall j :: 0 <= j < k ==> claims[j].resolution == resolutions[j]
      invariant supported == Sorting.Count(claims, IsSupported) && proposed == Sorting.Count(claims, IsProposed(records))
      invariant forall j :: 0 <= j < k ==> Reflects(verify, records, refs, claims[j])
      invariant failed <==> exists j :: 0 <= j < k && claims[j].unavailable
    {
      var resolution := resolutions[k];
      assert FirstRecord(records, resolution.candidateID)
          == if resolution.candidateID in byID then Some(byID[resolution.candidateID]) else None;
      var claim := VerifyOne(records, byID, resolution, entries, refs, verify);
      if resolution.disposition == ProposedClaim && resolution.candidateID in byID {
        proposed := proposed + 1;
      }
      if claim.verification == Verified(Verdict.Supported) {
        supported := supported + 1;
      }
      failed := failed || claim.unavailable;
      Sorting.CountAppend(claims, claim, IsSupported);
      Sorting.CountAppend(claims, claim, IsProposed(records));
      claims := claims + [claim];
    }
    FailuresAreSorted(records, refs, all, resolutions);
    UnavailableFails(verify, records, refs, claims);
    assert ResolutionsIn(claims) == resolutions;
    var coverage := 0.0;
    if proposed > 0 {
      coverage := supported as real / proposed as real;
    }
    result := ShadowResult(if failed then ShadowFailed else ShadowCompleted, claims, proposed, supported, coverage);
  }

  predicate Fails(records: seq<Record>, refs: seq<EvidenceRef>, r: Resolution) {
    r.disposition == ProposedClaim && !Passes(records, refs, r)
  }

  lemma FailuresAreSorted(records: seq<Record>, refs: seq<EvidenceRef>, all: seq<Resolution>, sorted: seq<Resolution>)
    requires forall r :: r in all <==> r in sorted
    ensures (exists j :: 0 <= j < |sorted| && Fails(records, refs, sorted[j])) <==>
            exists k :: 0 <= k < |all| && Fails(records, refs, all[k])
  {
    hide Fails;
    if j :| 0 <= j < |sorted| && Fails(records, refs, sorted[j]) {
      assert sorted[j] in all;
      var k :| 0 <= k < |all| && all[k] == sorted[j];
    }
    if k :| 0 <= k < |all| && Fails(records, refs, all[k]) {
      assert all[k] in sorted;
      var j :| 0 <= j < |sorted| && sorted[j] == all[k];
    }
  }
}
