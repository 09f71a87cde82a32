/** What the fingerprints identify, and what the account of candidates therefore says about their claims. */
module AccountingIdentity {
  import opened Wrappers
  import opened Accounting
  import opened AccountingTheorems
  import opened AccountingInventory
  import Sorting
  import Text

  // ------------------------------------------------------------------------ claims

  /** The same words in the same order, whatever their case and the blanks around them. */
  predicate SameStatement(a: string, b: string) {
    Text.Fields(Text.ToLower(a)) == Text.Fields(Text.ToLower(b))
  }

  lemma NormalizedExactlyWhen(a: string, b: string)
    ensures NormalizeStatement(a) == NormalizeStatement(b) <==> SameStatement(a, b)
  {
    hide Text.TrimSpace, Text.Fields, Text.ToLower, Text.Join;
    WordsOfNormalized(a);
    WordsOfNormalized(b);
  }

  lemma WordsOfNormalized(a: string)
    ensures Text.Fields(NormalizeStatement(a)) == Text.Fields(Text.ToLower(a))
    ensures NormalizeStatement(a) == Text.Join(Text.Fields(Text.ToLower(a)), " ")
  {
    hide Text.TrimSpace, Text.Fields, Text.ToLower, Text.Join;
    Text.LowerTrims(a);
    Text.FieldsOfTrim(Text.ToLower(a));
    Text.FieldsAreWords(Text.ToLower(a));
    Text.FieldsOfJoin(Text.Fields(Text.ToLower(a)));
  }

  lemma TrimmedSaysTheSame(a: string)
    ensures NormalizeStatement(Text.TrimSpace(a)) == NormalizeStatement(a)
  {
    Text.TrimSpaceIdempotent(a);
  }

  /** Two records make the same claim about the same target and incident. */
  predicate SameClaim(r: Record, s: Record) {
    r.candidate.kind == s.candidate.kind && SameStatement(r.candidate.statement, s.candidate.statement)
    && Text.TrimSpace(r.candidate.targetUID) == Text.TrimSpace(s.candidate.targetUID)
    && r.start == s.start && r.end == s.end
  }

  lemma TimesAgreeExactlyWhen(d: Digests, a: Instant, b: Instant)
    requires Injective(d)
    ensures CanonicalTime(d, a) == CanonicalTime(d, b) <==> a == b
  {
    hide CanonicalTime, Injective;
    if CanonicalTime(d, a) == CanonicalTime(d, b) {
      CanonicalTimeIsInjective(d, a, b);
    }
  }

  /** Claim fingerprints are equal exactly for the same claim. */
  lemma ClaimsAgreeExactlyWhen(d: Digests, r: Record, s: Record)
    requires Injective(d)
    ensures Base(d, r).res.claimFingerprint == Base(d, s).res.claimFingerprint <==> SameClaim(r, s)
  {
    hide Text.TrimSpace, NormalizeStatement, CanonicalTime, Validated, FingerprintCandidate, SameStatement, UniqueStrings;
    Text.TrimSpaceIdempotent(r.candidate.targetUID);
    Text.TrimSpaceIdempotent(s.candidate.targetUID);
    TrimmedSaysTheSame(r.candidate.statement);
    TrimmedSaysTheSame(s.candidate.statement);
    NormalizedExactlyWhen(r.candidate.statement, s.candidate.statement);
    TimesAgreeExactlyWhen(d, r.start, s.start);
    TimesAgreeExactlyWhen(d, r.end, s.end);
  }

  // -------------------------------------------------------------------- candidates

  /** The identity that an ID has in an inventory; an empty one when there is none. */
  function IdentityIn(evidence: seq<Evidence>, id: string): Evidence {
    if FirstIdentity(evidence, id).Some? then FirstIdentity(evidence, id).value else NO_EVIDENCE
  }

  predicate SameIdentity(a: Evidence, b: Evidence) {
    a.targetUID == b.targetUID && a.start == b.start && a.end == b.end
  }

  /** The two records refer to the same IDs, and each ID has the same target and window in both inventories. */
  ghost predicate SameEvidence(r: Record, s: Record) {
    forall id :: (Occurs(r.candidate.evidenceRefs, id) <==> Occurs(s.candidate.evidenceRefs, id))
                 && (Occurs(r.candidate.evidenceRefs, id) ==>
                       SameIdentity(IdentityIn(r.evidence, id), IdentityIn(s.evidence, id)))
  }

  /** The same diagnostic proposes the same claim, under the same ID and on the same evidence. */
  ghost predicate SameCandidate(r: Record, s: Record) {
    SameClaim(r, s) && SameEvidence(r, s)
    && Text.TrimSpace(r.diagnosticID) == Text.TrimSpace(s.diagnosticID)
    && Text.TrimSpace(r.diagnosticVersion) == Text.TrimSpace(s.diagnosticVersion)
    && Text.TrimSpace(r.candidate.id) == Text.TrimSpace(s.candidate.id)
  }

  /** The separator of the descriptions is in none of their parts. */
  ghost predicate Plain(d: Digests, r: Record) {
    PlainInventory(d, r.evidence) && forall id :: Occurs(r.candidate.evidenceRefs, id) ==> '|' !in id
  }

  lemma SplitOnce(a: string, b: string, x: string, y: string)
    requires '|' !in a && '|' !in b && a + "|" + x == b + "|" + y
    ensures a == b && x == y
  {
    hide Text.Before;
    Text.BeforeSeparator(a, '|', x);
    Text.BeforeSeparator(b, '|', y);
    assert (a + "|" + x)[|a| + 1..] == x && (b + "|" + y)[|b| + 1..] == y;
  }

  lemma JoinedFields(a: seq<string>, b: seq<string>)
    requires |a| == 4 == |b| && forall k :: 0 <= k < 4 ==> '|' !in a[k] && '|' !in b[k]
    requires a[0] + "|" + a[1] + "|" + a[2] + "|" + a[3] == b[0] + "|" + b[1] + "|" + b[2] + "|" + b[3]
    ensures a == b
  {
    Regrouped(a);
    Regrouped(b);
    SplitOnce(a[0], b[0], a[1] + "|" + (a[2] + "|" + a[3]), b[1] + "|" + (b[2] + "|" + b[3]));
    SplitOnce(a[1], b[1], a[2] + "|" + a[3], b[2] + "|" + b[3]);
    SplitOnce(a[2], b[2], a[3], b[3]);
  }

  lemma Regrouped(a: seq<string>)
    requires |a| == 4
    ensures a[0] + "|" + a[1] + "|" + a[2] + "|" + a[3] == a[0] + "|" + (a[1] + "|" + (a[2] + "|" + a[3]))
  {
  }

  lemma IdentityIsPlain(d: Digests, evidence: seq<Evidence>, id: string)
    requires PlainInventory(d, evidence)
    ensures var e := IdentityIn(evidence, id);
            '|' !in e.targetUID && '|' !in CanonicalTime(d, e.start) && '|' !in CanonicalTime(d, e.end)
  {
    hide FirstIdentity;
    if FirstIdentity(evidence, id).Some? {
      KnownIsPlain(d, evidence, id);
    }
  }

  /** Over plain inventories, descriptions are equal exactly for one ID with the same identity. */
  lemma DescriptionsAgreeExactlyWhen(d: Digests, es: seq<Evidence>, fs: seq<Evidence>, x: string, y: string)
    requires Injective(d) && PlainInventory(d, es) && PlainInventory(d, fs) && '|' !in x && '|' !in y
    ensures Describe(d, es, x) == Describe(d, fs, y) <==> x == y && SameIdentity(IdentityIn(es, x), IdentityIn(fs, y))
  {
    hide FirstIdentity, CanonicalTime, PlainInventory, Injective;
    var e, f := IdentityIn(es, x), IdentityIn(fs, y);
    IdentityIsPlain(d, es, x);
    IdentityIsPlain(d, fs, y);
    TimesAgreeExactlyWhen(d, e.start, f.start);
    TimesAgreeExactlyWhen(d, e.end, f.end);
    var a := [x, e.targetUID, CanonicalTime(d, e.start), CanonicalTime(d, e.end)];
    var b := [y, f.targetUID, CanonicalTime(d, f.start), CanonicalTime(d, f.end)];
    if Describe(d, es, x) == Describe(d, fs, y) {
      JoinedFields(a, b);
    }
  }

  function Descriptions(d: Digests, r: Record): seq<string> {
    Sorting.StableSort(DescribeAll(d, r.evidence, UniqueStrings(r.candidate.evidenceRefs)), Text.Less)
  }

  lemma DescribedIn(d: Digests, r: Record, s: Record, id: string)
    requires Injective(d) && Plain(d, r) && Plain(d, s) && Descriptions(d, r) == Descriptions(d, s)
    requires Occurs(r.candidate.evidenceRefs, id)
    ensures Occurs(s.candidate.evidenceRefs, id) && SameIdentity(IdentityIn(r.evidence, id), IdentityIn(s.evidence, id))
  {
    hide UniqueStrings, Describe, Text.Less, Occurs, SameIdentity, IdentityIn, Injective, PlainInventory;
    var xs, ys := UniqueStrings(r.candidate.evidenceRefs), UniqueStrings(s.candidate.evidenceRefs);
    UniqueMembers(r.candidate.evidenceRefs);
    UniqueMembers(s.candidate.evidenceRefs);
    var a, b := DescribeAll(d, r.evidence, xs), DescribeAll(d, s.evidence, ys);
    Sorting.SameMembers(a, b);
    var i :| 0 <= i < |xs| && xs[i] == id;
    assert a[i] in b;
    var j :| 0 <= j < |b| && b[j] == a[i];
    assert ys[j] in ys;
    DescriptionsAgreeExactlyWhen(d, r.evidence, s.evidence, id, ys[j]);
  }

  lemma DescriptionsOfTheSame(d: Digests, r: Record, s: Record)
    requires SameEvidence(r, s)
    ensures Descriptions(d, r) == Descriptions(d, s)
  {
    hide UniqueStrings, Text.Less, Occurs, FirstIdentity, CanonicalTime;
    var xs, ys := UniqueStrings(r.candidate.evidenceRefs), UniqueStrings(s.candidate.evidenceRefs);
    UniqueMembers(r.candidate.evidenceRefs);
    UniqueMembers(s.candidate.evidenceRefs);
    SameUniqueStrings(r.candidate.evidenceRefs, s.candidate.evidenceRefs);
    forall i | 0 <= i < |xs|
      ensures Describe(d, r.evidence, xs[i]) == Describe(d, s.evidence, xs[i])
    {
      assert xs[i] in xs;
      assert SameIdentity(IdentityIn(r.evidence, xs[i]), IdentityIn(s.evidence, xs[i]));
    }
    assert DescribeAll(d, r.evidence, xs) == DescribeAll(d, s.evidence, ys);
  }

  lemma EvidenceAgreesExactlyWhen(d: Digests, r: Record, s: Record)
    requires Injective(d) && Plain(d, r) && Plain(d, s)
    ensures Descriptions(d, r) == Descriptions(d, s) <==> SameEvidence(r, s)
  {
    hide Descriptions, Injective, Plain, Occurs, IdentityIn, SameIdentity;
    if Descriptions(d, r) == Descriptions(d, s) {
      forall id
        ensures Occurs(r.candidate.evidenceRefs, id) <==> Occurs(s.candidate.evidenceRefs, id)
        ensures Occurs(r.candidate.evidenceRefs, id) ==> SameIdentity(IdentityIn(r.evidence, id), IdentityIn(s.evidence, id))
      {
        if Occurs(r.candidate.evidenceRefs, id) {
          DescribedIn(d, r, s, id);
        }
        if Occurs(s.candidate.evidenceRefs, id) {
          DescribedIn(d, s, r, id);
        }
      }
    }
    if SameEvidence(r, s) {
      DescriptionsOfTheSame(d, r, s);
    }
  }

  /** Candidate fingerprints are equal exactly for the same candidate, while the separator is in none of its evidence. */
  lemma CandidatesAgreeExactlyWhen(d: Digests, r: Record, s: Record)
    requires Injective(d) && Plain(d, r) && Plain(d, s)
    ensures Base(d, r).res.candidateFingerprint == Base(d, s).res.candidateFingerprint <==> SameCandidate(r, s)
  {
    hide Text.TrimSpace, NormalizeStatement, CanonicalTime, Validated, FingerprintClaim, SameStatement, UniqueStrings,
      DescribeAll, SameEvidence, Plain;
    CandidateContentOfNormalized(d, r);
    CandidateContentOfNormalized(d, s);
    NormalizedExactlyWhen(r.candidate.statement, s.candidate.statement);
    TimesAgreeExactlyWhen(d, r.start, s.start);
    TimesAgreeExactlyWhen(d, r.end, s.end);
    EvidenceAgreesExactlyWhen(d, r, s);
  }

  lemma CandidateContentOfNormalized(d: Digests, r: Record)
    ensures CandidateContentOf(d, Normalized(r)) == CandidateContentOf(d, r)
  {
    hide Text.TrimSpace, NormalizeStatement, CanonicalTime, UniqueStrings, DescribeAll;
    Text.TrimSpaceIdempotent(r.diagnosticID);
    Text.TrimSpaceIdempotent(r.diagnosticVersion);
    Text.TrimSpaceIdempotent(r.candidate.id);
    Text.TrimSpaceIdempotent(r.candidate.targetUID);
    TrimmedSaysTheSame(r.candidate.statement);
    UniqueStringsIdempotent(r.candidate.evidenceRefs);
  }

  /** An evidence ID is in conflict exactly when two of its identities differ in target, window or flags. */
  lemma DisputedExactlyWhen(d: Digests, values: seq<Evidence>, id: string)
    requires Injective(d)
    ensures Disputed(d, values, id) <==>
            id != "" && exists i, j ::
              0 <= i < j < |values| && EvidenceID(values[i]) == id == EvidenceID(values[j])
              && !(Text.TrimSpace(values[i].targetUID) == Text.TrimSpace(values[j].targetUID)
                   && values[i].start == values[j].start && values[i].end == values[j].end
                   && values[i].authorized == values[j].authorized && values[i].valid == values[j].valid
                   && values[i].incomplete == values[j].incomplete)
  {
    hide Text.TrimSpace, Injective, CanonicalTime;
    forall i, j | 0 <= i < j < |values|
      ensures CanonicalTime(d, values[i].start) == CanonicalTime(d, values[j].start) <==> values[i].start == values[j].start
      ensures CanonicalTime(d, values[i].end) == CanonicalTime(d, values[j].end) <==> values[i].end == values[j].end
    {
      TimesAgreeExactlyWhen(d, values[i].start, values[j].start);
      TimesAgreeExactlyWhen(d, values[i].end, values[j].end);
    }
  }

  // ------------------------------------------------------------------ the account

  /** Every field that a candidate must name is named, and its type is one of the three. */
  predicate CompleteHeader(r: Record) {
    "" !in {Text.TrimSpace(r.diagnosticID), Text.TrimSpace(r.diagnosticVersion), Text.TrimSpace(r.candidate.id),
            Text.TrimSpace(r.candidate.targetUID), Text.TrimSpace(r.candidate.statement)}
    && r.candidate.kind in {Observation, FailureMechanism, RootCause}
  }

  /** Another record uses the ID of this one for something else. */
  ghost predicate Misnamed(d: Digests, records: seq<Record>, i: nat)
    requires i < |records|
  {
    Text.TrimSpace(records[i].candidate.id) != ""
    && exists j :: 0 <= j < |records|
                   && Text.TrimSpace(records[j].candidate.id) == Text.TrimSpace(records[i].candidate.id)
                   && Base(d, records[j]).res.candidateFingerprint != Base(d, records[i]).res.candidateFingerprint
  }

  /** Complete, sound, and under an ID of its own. */
  ghost predicate Accepted(d: Digests, records: seq<Record>, i: nat) {
    i < |records| && CompleteHeader(records[i]) && Sound(d, Normalized(records[i])) && !Misnamed(d, records, i)
  }

  lemma HeaderIsComplete(r: Record)
    ensures HeaderFault(Normalized(r)).None? <==> CompleteHeader(r)
  {
    hide Text.TrimSpace, UniqueStrings;
  }

  lemma IDOfBase(d: Digests, r: Record)
    ensures Base(d, r).res.candidateID == Text.TrimSpace(r.candidate.id)
    ensures Base(d, r).eligible <==> CompleteHeader(r) && Sound(d, Normalized(r))
  {
    hide Text.TrimSpace, UniqueStrings, HeaderFault, Validated, Sound, FingerprintCandidate, FingerprintClaim, CompleteHeader;
    HeaderIsComplete(r);
    EligibleExactlyWhenSound(d, Normalized(r));
  }

  lemma AcceptedIsEligible(d: Digests, records: seq<Record>, i: nat)
    requires i < |records|
    ensures Items(d, records)[i].eligible <==> Accepted(d, records, i)
    ensures Items(d, records)[i].res.candidateID == Text.TrimSpace(records[i].candidate.id)
    ensures Items(d, records)[i].res.claimFingerprint == Base(d, records[i]).res.claimFingerprint
    ensures !Accepted(d, records, i) ==> Items(d, records)[i].res.disposition in {Rejected, RetainedHypothesis}
  {
    hide Base, Text.TrimSpace, Sound, CompleteHeader;
    forall j | 0 <= j < |records|
      ensures Base(d, records[j]).res.candidateID == Text.TrimSpace(records[j].candidate.id)
    {
      IDOfBase(d, records[j]);
    }
    IDOfBase(d, records[i]);
    ItemsAreWellFormed(d, records);
    assert Items(d, records)[i] == Checked(Bases(d, records), Base(d, records[i]));
    var id := Text.TrimSpace(records[i].candidate.id);
    assert Bases(d, records)[i].res.candidateID == id;
    if m, n :| 0 <= m < |records| && 0 <= n < |records| && Bases(d, records)[m].res.candidateID == id
               && Bases(d, records)[n].res.candidateID == id
               && Bases(d, records)[m].res.candidateFingerprint != Bases(d, records)[n].res.candidateFingerprint {
      assert Base(d, records[m]).res.candidateFingerprint != Base(d, records[n]).res.candidateFingerprint;
    }
  }

  /** The resolution that the account gives to record i. */
  function ResolutionAt(d: Digests, records: seq<Record>, i: nat): Resolution
    requires i < |records|
  {
    ResolutionOf(Items(d, records), i)
  }

  function ResolutionsByRecord(d: Digests, records: seq<Record>): (rs: seq<Resolution>)
    ensures |rs| == |records| && forall i :: 0 <= i < |rs| ==> rs[i] == ResolutionAt(d, records, i)
  {
    seq(|records|, i requires 0 <= i < |records| => ResolutionAt(d, records, i))
  }

  /** The account holds these resolutions, one for each record. */
  lemma AccountIsOfTheRecords(d: Digests, records: seq<Record>)
    ensures multiset(Account(d, records)) == multiset(ResolutionsByRecord(d, records))
  {
    hide ResolutionOf, Bases, AllChecked;
    assert AllResolutions(Items(d, records)) == ResolutionsByRecord(d, records);
  }

  /** Record j is resolved by the proposal of record k: it is that proposal, or a duplicate that names it. */
  ghost predicate StandsFor(d: Digests, records: seq<Record>, k: nat, j: nat) {
    k < |records| && j < |records|
    && var r := ResolutionAt(d, records, j);
       r.candidateID == Text.TrimSpace(records[j].candidate.id)
       && r.canonicalClaimID == Text.TrimSpace(records[k].candidate.id)
       && r.disposition == (if j == k then ProposedClaim else Deduplicated)
       && r.reason == (if j == k then CandidateAcceptedForVerification else DuplicateClaimFingerprint)
       && (j != k ==> r.duplicateOf == r.canonicalClaimID)
  }

  ghost predicate Makes(d: Digests, records: seq<Record>, j: nat, i: nat) {
    i < |records| && Accepted(d, records, j) && SameClaim(records[j], records[i])
  }

  /**
    Among the accepted records that make one claim exactly one is proposed, and each of the others is a duplicate that
    names it.
   */
  lemma OneProposalPerClaim(d: Digests, records: seq<Record>, i: nat) returns (k: nat)
    requires Injective(d) && Accepted(d, records, i)
    ensures Makes(d, records, k, i) && forall j: nat :: Makes(d, records, j, i) ==> StandsFor(d, records, k, j)
  {
    hide Base, Items, Makes, Accepted, Injective, Text.TrimSpace, Leader, KeyLess, StandsFor;
    var items := Items(d, records);
    AcceptedIsInRange(d, records, i);
    AcceptedIsEligible(d, records, i);
    var claim := items[i].res.claimFingerprint;
    LeaderIsCanonical(items, claim, i);
    k := Leader(items, claim, |items|).value;
    LeaderMakes(d, records, k, i);
    forall j: nat | Makes(d, records, j, i)
      ensures StandsFor(d, records, k, j)
    {
      MakersFollow(d, records, k, j, i);
    }
  }

  lemma LeaderMakes(d: Digests, records: seq<Record>, k: nat, i: nat)
    requires Injective(d) && i < |records| && Competes(Items(d, records), k, Items(d, records)[i].res.claimFingerprint)
    ensures Makes(d, records, k, i)
  {
    hide Base, Items, SameClaim, Accepted, Injective, Text.TrimSpace;
    AcceptedIsEligible(d, records, i);
    AcceptedIsEligible(d, records, k);
    ClaimsAgreeExactlyWhen(d, records[k], records[i]);
  }

  lemma MakersFollow(d: Digests, records: seq<Record>, k: nat, j: nat, i: nat)
    requires Injective(d) && i < |records| && Makes(d, records, j, i)
    requires Leader(Items(d, records), Items(d, records)[i].res.claimFingerprint, |records|) == Some(k)
    ensures StandsFor(d, records, k, j)
  {
    hide Base, Items, SameClaim, Accepted, Injective, Text.TrimSpace, Leader, KeyLess;
    AcceptedIsInRange(d, records, j);
    AcceptedIsEligible(d, records, i);
    AcceptedIsEligible(d, records, j);
    AcceptedIsEligible(d, records, k);
    ClaimsAgreeExactlyWhen(d, records[j], records[i]);
  }

  lemma AcceptedIsInRange(d: Digests, records: seq<Record>, i: nat)
    requires Accepted(d, records, i)
    ensures i < |records|
  {
  }

  /** Every record that is not accepted is rejected or retained, whatever its claim. */
  lemma OthersAreRefused(d: Digests, records: seq<Record>, i: nat)
    requires i < |records| && !Accepted(d, records, i)
    ensures ResolutionAt(d, records, i).disposition in {Rejected, RetainedHypothesis}
  {
    hide Base, Items, Accepted, Leader;
    AcceptedIsEligible(d, records, i);
  }

  /** A duplicate is of an accepted record, and names a proposal about the same target and incident in the same words. */
  lemma DuplicatesMakeTheSameClaim(d: Digests, records: seq<Record>, i: nat) returns (k: nat)
    requires Injective(d) && i < |records| && ResolutionAt(d, records, i).disposition == Deduplicated
    ensures Accepted(d, records, i) && Makes(d, records, k, i) && k != i && StandsFor(d, records, k, k)
            && StandsFor(d, records, k, i)
  {
    hide Base, Items, SameClaim, Accepted, Injective, Text.TrimSpace, Leader, KeyLess, ResolutionOf, SameStatement;
    if !Accepted(d, records, i) {
      OthersAreRefused(d, records, i);
    }
    SameAsItself(records[i]);
    k := OneProposalPerClaim(d, records, i);
    AcceptedIsInRange(d, records, k);
    SameAsItself(records[k]);
    assert Makes(d, records, i, i);
  }

  lemma SameAsItself(r: Record)
    ensures SameClaim(r, r)
  {
  }
}
