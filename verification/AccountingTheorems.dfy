/** What candidate accounting promises: conservation, one proposal per claim, sound proposals, order independence. */
module AccountingTheorems {
  import opened Wrappers
  import opened Accounting
  import Sorting
  import Text

  function Items(d: Digests, records: seq<Record>): (items: seq<Item>)
    ensures |items| == |records|
  {
    AllChecked(Bases(d, records))
  }

  // ------------------------------------------------------------------- soundness

  /** Every reference of a normalized candidate is known, undisputed, permitted, valid, whole, and about its target. */
  predicate Sound(d: Digests, r: Record) {
    r.candidate.evidenceRefs != []
    && forall k :: 0 <= k < |r.candidate.evidenceRefs| ==> SoundRef(d, r, r.candidate.evidenceRefs[k])
  }

  predicate SoundRef(d: Digests, r: Record, ref: string) {
    var found := FirstIdentity(r.evidence, ref);
    found.Some? && !Disputed(d, r.evidence, ref) && found.value.authorized && found.value.valid
    && !found.value.incomplete && found.value.targetUID == r.candidate.targetUID
    && WindowsCompatible(r.start, r.end, found.value.start, found.value.end)
  }

  lemma SoundRefHasNoFault(d: Digests, r: Record, ref: string)
    requires r.candidate.targetUID != ""
    ensures SoundRef(d, r, ref) <==> RefFault(d, r, ref).None? && !RefIncomplete(r, ref)
  {
  }

  /** A candidate is accepted exactly when its header is complete and all its evidence is sound. */
  lemma EligibleExactlyWhenSound(d: Digests, r: Record)
    ensures Validated(d, r).eligible <==> HeaderFault(r).None? && Sound(d, r)
    ensures Validated(d, r).eligible <==> Validated(d, r).disposition == ProposedClaim
    ensures Validated(d, r).disposition != Deduplicated
  {
    hide RefFault, RefIncomplete, SoundRef, FirstFault;
    var refs := r.candidate.evidenceRefs;
    NoFaultAtAll(d, r, |refs|);
    if HeaderFault(r).None? {
      forall k | 0 <= k < |refs|
        ensures SoundRef(d, r, refs[k]) <==> RefFault(d, r, refs[k]).None? && !RefIncomplete(r, refs[k])
      {
        SoundRefHasNoFault(d, r, refs[k]);
      }
    }
  }

  /** Nothing speaks against a reference, incomplete as it may be. */
  predicate PermittedRef(d: Digests, r: Record, ref: string) {
    var found := FirstIdentity(r.evidence, ref);
    found.Some? && !Disputed(d, r.evidence, ref) && found.value.authorized && found.value.valid
    && found.value.targetUID == r.candidate.targetUID
    && WindowsCompatible(r.start, r.end, found.value.start, found.value.end)
  }

  predicate AllPermitted(d: Digests, r: Record) {
    forall k :: 0 <= k < |r.candidate.evidenceRefs| ==> PermittedRef(d, r, r.candidate.evidenceRefs[k])
  }

  lemma PermittedHasNoFault(d: Digests, r: Record, ref: string)
    requires r.candidate.targetUID != ""
    ensures PermittedRef(d, r, ref) <==> RefFault(d, r, ref).None?
  {
  }

  /** A complete candidate is kept as a hypothesis exactly for lack of references or for incomplete permitted evidence. */
  lemma RetainedExactlyWhen(d: Digests, r: Record)
    ensures Validated(d, r).disposition == RetainedHypothesis <==>
            HeaderFault(r).None?
            && (r.candidate.evidenceRefs == []
                || (AllPermitted(d, r)
                    && exists k :: 0 <= k < |r.candidate.evidenceRefs|
                                   && FirstIdentity(r.evidence, r.candidate.evidenceRefs[k]).Some?
                                   && FirstIdentity(r.evidence, r.candidate.evidenceRefs[k]).value.incomplete))
    ensures Validated(d, r).disposition == Rejected <==>
            HeaderFault(r).Some? || (r.candidate.evidenceRefs != [] && !AllPermitted(d, r))
  {
    hide RefFault, PermittedRef, FirstFault, FirstIdentity;
    var refs := r.candidate.evidenceRefs;
    NoFaultAtAll(d, r, |refs|);
    if HeaderFault(r).None? {
      forall k | 0 <= k < |refs|
        ensures PermittedRef(d, r, refs[k]) <==> RefFault(d, r, refs[k]).None?
      {
        PermittedHasNoFault(d, r, refs[k]);
      }
      assert AnyIncomplete(r) <==> exists k :: 0 <= k < |refs| && RefIncomplete(r, refs[k]);
    }
  }

  // --------------------------------------------------------------------- reasons

  /** What a reason says about a reference, in the order in which the tests are made. */
  predicate Explains(d: Digests, r: Record, ref: string, reason: Reason) {
    var found := FirstIdentity(r.evidence, ref);
    if found.None? then reason == EvidenceReferenceNotFound
    else if Disputed(d, r.evidence, ref) then reason == EvidenceIdentityConflict
    else
      var e := found.value;
      match reason
      case EvidenceUnauthorized => !e.authorized
      case EvidenceInvalid => e.authorized && !e.valid
      case EvidenceTargetUIDMissing => e.authorized && e.valid && e.targetUID == ""
      case EvidenceTargetUIDMismatch => e.authorized && e.valid && e.targetUID !in {"", r.candidate.targetUID}
      case EvidenceOutsideIncidentWindow =>
        e.authorized && e.valid && e.targetUID == r.candidate.targetUID != ""
        && !WindowsCompatible(r.start, r.end, e.start, e.end)
      case _ => false
  }

  lemma FaultsExactlyWhen(d: Digests, r: Record, ref: string, reason: Reason)
    ensures RefFault(d, r, ref) == Some(reason) <==> Explains(d, r, ref, reason)
  {
    hide FirstIdentity, Disputed, WindowsCompatible;
  }

  /** Reference k has this fault, and none before it has any. */
  ghost predicate FaultAt(d: Digests, r: Record, k: int, reason: Reason) {
    0 <= k < |r.candidate.evidenceRefs| && RefFault(d, r, r.candidate.evidenceRefs[k]) == Some(reason)
    && forall j :: 0 <= j < k ==> RefFault(d, r, r.candidate.evidenceRefs[j]).None?
  }

  lemma {:induction false} FirstFaultIsFirst(d: Digests, r: Record, n: nat, reason: Reason) returns (k: nat)
    requires n <= |r.candidate.evidenceRefs| && FirstFault(d, r, n) == Some(reason)
    ensures FaultAt(d, r, k, reason)
  {
    hide RefFault;
    if FirstFault(d, r, n - 1).Some? {
      k := FirstFaultIsFirst(d, r, n - 1, reason);
    } else {
      k := n - 1;
      NoFaultAtAll(d, r, n - 1);
    }
  }

  /** Reference k is the first with something against it, and the reason tells what. */
  ghost predicate FirstAgainst(d: Digests, r: Record, k: int, reason: Reason) {
    0 <= k < |r.candidate.evidenceRefs| && Explains(d, r, r.candidate.evidenceRefs[k], reason)
    && forall j, other :: 0 <= j < k ==> !Explains(d, r, r.candidate.evidenceRefs[j], other)
  }

  /** The first missing field of a header, in the order in which they are looked at. */
  function FirstMissing(r: Record): Option<Reason> {
    if r.candidate.id == "" then Some(MissingCandidateID)
    else if "" in {r.diagnosticID, r.diagnosticVersion} then Some(MissingDiagnosticIdentity)
    else if r.candidate.targetUID == "" then Some(MissingTargetUID)
    else if r.candidate.statement == "" then Some(MissingCandidateStatement)
    else if r.candidate.kind !in {Observation, FailureMechanism, RootCause} then Some(InvalidClaimType)
    else None
  }

  /** A rejected candidate names the first missing field of its header, or what speaks against its first bad reference. */
  lemma RejectionsNameTheFault(d: Digests, r: Record)
    ensures Validated(d, r).disposition == Rejected ==>
              if FirstMissing(r).Some? then Validated(d, r).reason == FirstMissing(r).value
              else exists k :: FirstAgainst(d, r, k, Validated(d, r).reason)
    ensures Validated(d, r).disposition == ProposedClaim ==> Validated(d, r).reason == CandidateAcceptedForVerification
    ensures Validated(d, r).disposition == RetainedHypothesis ==>
              Validated(d, r).reason == if r.candidate.evidenceRefs == [] then EvidenceRefsMissing else EvidenceIncomplete
  {
    hide RefFault, FirstFault, Explains, AnyIncomplete;
    var refs, v := r.candidate.evidenceRefs, Validated(d, r);
    if v.disposition == Rejected && HeaderFault(r).None? {
      var k := FirstFaultIsFirst(d, r, |refs|, v.reason);
      FaultsExactlyWhen(d, r, refs[k], v.reason);
      forall j, other | 0 <= j < k
        ensures !Explains(d, r, refs[j], other)
      {
        FaultsExactlyWhen(d, r, refs[j], other);
      }
      assert FirstAgainst(d, r, k, v.reason);
    }
  }

  // ---------------------------------------------------------------- one by one

  predicate Elected(items: seq<Item>, i: int) {
    0 <= i < |items| && items[i].eligible && Leader(items, items[i].res.claimFingerprint, |items|) == Some(i)
  }

  /** Eligible items are the ones that came out of validation as proposals and were not in conflict. */
  predicate WellFormed(items: seq<Item>) {
    forall i :: 0 <= i < |items| ==>
      (items[i].eligible <==> items[i].res.disposition == ProposedClaim)
      && items[i].res.disposition != Deduplicated
      && items[i].res.canonicalClaimID == "" && items[i].res.duplicateOf == ""
  }

  lemma ItemsAreWellFormed(d: Digests, records: seq<Record>)
    ensures WellFormed(Items(d, records))
  {
    hide Conflicting, Normalized, Validated, FingerprintCandidate, FingerprintClaim;
    forall i | 0 <= i < |records|
      ensures (Base(d, records[i]).eligible <==> Base(d, records[i]).res.disposition == ProposedClaim)
              && Base(d, records[i]).res.disposition != Deduplicated
    {
      EligibleExactlyWhenSound(d, Normalized(records[i]));
    }
  }

  /** Item by item: proposed exactly the elected, and every other eligible item points at the one elected. */
  lemma ResolutionsByItem(items: seq<Item>, i: nat)
    requires WellFormed(items) && i < |items|
    ensures var r := ResolutionOf(items, i);
            (r.disposition == ProposedClaim <==> Elected(items, i))
            && (r.disposition == Deduplicated <==> items[i].eligible && !Elected(items, i))
            && (r.disposition == Deduplicated ==>
                  exists k :: Elected(items, k) && r.duplicateOf == r.canonicalClaimID == items[k].res.candidateID
                              && items[k].res.claimFingerprint == r.claimFingerprint
                              && !KeyLess(items[i], items[k]))
            && r.candidateID == items[i].res.candidateID
            && r.candidateFingerprint == items[i].res.candidateFingerprint
            && r.claimFingerprint == items[i].res.claimFingerprint
  {
    hide KeyLess;
    if items[i].eligible {
      var claim := items[i].res.claimFingerprint;
      assert Competes(items, i, claim);
      LeaderIsCanonical(items, claim, i);
      var k := Leader(items, claim, |items|).value;
      assert Elected(items, k);
    }
  }

  // ------------------------------------------------------------------ conservation

  /** What identifies the input of a resolution. */
  datatype Label = Label(candidateID: string, candidateFingerprint: string, claimFingerprint: string)

  function LabelOf(r: Resolution): Label {
    Label(r.candidateID, r.candidateFingerprint, r.claimFingerprint)
  }

  function RecordLabel(d: Digests, record: Record): Label {
    LabelOf(Base(d, record).res)
  }

  /** Each input is resolved as often as it occurs: nothing is dropped, merged or invented. */
  lemma AccountingConserves(d: Digests, records: seq<Record>, tag: Label)
    ensures Sorting.Count(Account(d, records), (r: Resolution) => LabelOf(r) == tag)
         == Sorting.Count(records, (r: Record) => RecordLabel(d, r) == tag)
  {
    hide Base, ResolutionOf, Conflicting, ResolutionLess;
    var items := Items(d, records);
    var rs := AllResolutions(items);
    Sorting.CountIgnoresOrder(rs, Account(d, records), (r: Resolution) => LabelOf(r) == tag);
    forall i | 0 <= i < |records|
      ensures LabelOf(rs[i]) == RecordLabel(d, records[i])
    {
      ItemsAreWellFormed(d, records);
      ResolutionsByItem(items, i);
    }
    CountMatches(rs, records, (r: Resolution) => LabelOf(r) == tag, (r: Record) => RecordLabel(d, r) == tag);
  }

  lemma {:induction false} CountMatches(rs: seq<Resolution>, records: seq<Record>, p: Resolution -> bool, q: Record -> bool)
    requires |rs| == |records| && forall i :: 0 <= i < |rs| ==> p(rs[i]) == q(records[i])
    ensures Sorting.Count(rs, p) == Sorting.Count(records, q)
  {
    if rs != [] {
      CountMatches(rs[1..], records[1..], p, q);
    }
  }

  /** A claim fingerprint that some eligible item has is proposed exactly once; no other is. */
  lemma OneProposalPerFingerprint(d: Digests, records: seq<Record>, claim: string)
    ensures Sorting.Count(Account(d, records),
                          (r: Resolution) => r.disposition == ProposedClaim && r.claimFingerprint == claim)
         == (if exists i :: Competes(Items(d, records), i, claim) then 1 else 0)
  {
    hide Conflicting, ResolutionLess, KeyLess, Bases, AllChecked, ResolutionOf;
    var items := Items(d, records);
    var rs := AllResolutions(items);
    var p := (r: Resolution) => r.disposition == ProposedClaim && r.claimFingerprint == claim;
    Sorting.CountIgnoresOrder(rs, Account(d, records), p);
    ItemsAreWellFormed(d, records);
    forall i | 0 <= i < |rs|
      ensures p(rs[i]) <==> Competes(items, i, claim) && Leader(items, claim, |items|) == Some(i)
    {
      ResolutionsByItem(items, i);
    }
    if i :| Competes(items, i, claim) {
      LeaderIsCanonical(items, claim, i);
      Sorting.CountOfOne(rs, p, Leader(items, claim, |items|).value);
    } else {
      Sorting.CountOfNone(rs, p);
    }
  }

  lemma FromItem(d: Digests, records: seq<Record>, r: Resolution) returns (i: nat)
    requires r in Account(d, records)
    ensures i < |records| && r == ResolutionOf(Items(d, records), i)
  {
    hide ResolutionOf, ResolutionLess, Bases, AllChecked;
    var rs := AllResolutions(Items(d, records));
    Sorting.SameMembers(rs, Account(d, records));
    assert r in rs;
    i :| 0 <= i < |rs| && rs[i] == r;
  }

  lemma ToItem(d: Digests, records: seq<Record>, i: nat)
    requires i < |records|
    ensures ResolutionOf(Items(d, records), i) in Account(d, records)
  {
    hide ResolutionOf, ResolutionLess, Bases, AllChecked;
    var rs := AllResolutions(Items(d, records));
    Sorting.SameMembers(rs, Account(d, records));
    assert rs[i] in rs;
  }

  /** Every duplicate names a proposal of the same claim that is not above it in the order. */
  lemma DuplicatesNameTheProposal(d: Digests, records: seq<Record>, r: Resolution)
    requires r in Account(d, records) && r.disposition == Deduplicated
    ensures exists p :: p in Account(d, records) && p.disposition == ProposedClaim
                        && p.claimFingerprint == r.claimFingerprint
                        && p.candidateID == p.canonicalClaimID == r.duplicateOf == r.canonicalClaimID
                        && (r.candidateFingerprint == p.candidateFingerprint
                            || Text.Less(p.candidateFingerprint, r.candidateFingerprint))
  {
    hide Bases, AllChecked, ResolutionLess;
    var items := Items(d, records);
    ItemsAreWellFormed(d, records);
    var i := FromItem(d, records, r);
    ResolutionsByItem(items, i);
    var k :| Elected(items, k) && r.duplicateOf == r.canonicalClaimID == items[k].res.candidateID
             && items[k].res.claimFingerprint == r.claimFingerprint && !KeyLess(items[i], items[k]);
    ResolutionsByItem(items, k);
    ToItem(d, records, k);
    Text.LessTotal(items[k].res.candidateFingerprint, items[i].res.candidateFingerprint);
    assert ResolutionOf(items, k).disposition == ProposedClaim;
  }

  /** One ID with two contents is rejected wherever it occurs, and nothing else is rejected for that reason. */
  lemma ConflictsAreRejected(d: Digests, records: seq<Record>, r: Resolution)
    requires r in Account(d, records)
    ensures r.reason == CandidateIdentityConflict <==> Conflicting(Bases(d, records), r.candidateID)
    ensures r.reason == CandidateIdentityConflict ==> r.disposition == Rejected
  {
    hide Conflicting, ResolutionLess, KeyLess, Leader, Normalized, FingerprintCandidate, FingerprintClaim;
    var i := FromItem(d, records, r);
    var items := Items(d, records);
    NoVerdictIsAConflict(d, Normalized(records[i]));
    assert items[i] == Checked(Bases(d, records), Base(d, records[i]));
  }

  lemma NoVerdictIsAConflict(d: Digests, r: Record)
    ensures Validated(d, r).reason != CandidateIdentityConflict
    ensures Validated(d, r).eligible ==> Validated(d, r).reason == CandidateAcceptedForVerification
  {
    FaultIsNoConflict(d, r, |r.candidate.evidenceRefs|);
  }

  lemma {:induction false} FaultIsNoConflict(d: Digests, r: Record, n: nat)
    requires n <= |r.candidate.evidenceRefs|
    ensures FirstFault(d, r, n) != Some(CandidateIdentityConflict)
  {
    hide FirstIdentity, Disputed, WindowsCompatible;
    if n > 0 {
      FaultIsNoConflict(d, r, n - 1);
    }
  }

  /** A proposal stands on a record whose whole evidence is sound, under an ID that is not in conflict. */
  lemma ProposalsAreSound(d: Digests, records: seq<Record>, r: Resolution)
    requires r in Account(d, records) && r.disposition == ProposedClaim
    ensures exists i :: 0 <= i < |records| && Base(d, records[i]).res.candidateID == r.candidateID
                        && Base(d, records[i]).res.candidateFingerprint == r.candidateFingerprint
                        && HeaderFault(Normalized(records[i])).None? && Sound(d, Normalized(records[i]))
    ensures !Conflicting(Bases(d, records), r.candidateID)
  {
    hide Conflicting, ResolutionLess, KeyLess, Leader, Normalized, Sound, HeaderFault, Validated;
    var i := FromItem(d, records, r);
    ItemsAreWellFormed(d, records);
    ResolutionsByItem(Items(d, records), i);
    assert Items(d, records)[i] == Checked(Bases(d, records), Base(d, records[i]));
    EligibleExactlyWhenSound(d, Normalized(records[i]));
  }
}
