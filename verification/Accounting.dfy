/**
  Accounting of diagnostic candidates: every candidate is validated, fingerprinted, checked for identity conflicts,
  deduplicated by claim and given exactly one resolution.
 */
module Accounting {
  import opened Wrappers
  import Text
  import Sorting

  /** An instant in nanoseconds; NO_INSTANT is the zero time. */
  type Instant = int
  const NO_INSTANT: Instant := 0

  datatype ClaimType = Observation | FailureMechanism | RootCause | OtherClaim(name: string)

  datatype Candidate = Candidate(
    id: string, kind: ClaimType, statement: string, targetUID: string, evidenceRefs: seq<string>)

  datatype Evidence = Evidence(
    id: string, targetUID: string, start: Instant, end: Instant, authorized: bool, valid: bool, incomplete: bool)

  datatype Record = Record(
    diagnosticID: string, diagnosticVersion: string, start: Instant, end: Instant, candidate: Candidate,
    evidence: seq<Evidence>)

  datatype Disposition = ProposedClaim | RetainedHypothesis | Rejected | Deduplicated

  datatype Reason =
    | MissingCandidateID
    | MissingDiagnosticIdentity
    | MissingTargetUID
    | MissingCandidateStatement
    | InvalidClaimType
    | EvidenceRefsMissing
    | EvidenceReferenceNotFound
    | EvidenceIdentityConflict
    | EvidenceUnauthorized
    | EvidenceInvalid
    | EvidenceTargetUIDMissing
    | EvidenceTargetUIDMismatch
    | EvidenceOutsideIncidentWindow
    | EvidenceIncomplete
    | CandidateAcceptedForVerification
    | CandidateIdentityConflict
    | DuplicateClaimFingerprint

  datatype Resolution = Resolution(
    candidateID: string, candidateFingerprint: string, claimFingerprint: string, disposition: Disposition,
    canonicalClaimID: string, duplicateOf: string, reason: Reason)

  datatype Summary = Summary(
    total: nat, proposed: nat, retained: nat, rejected: nat, deduplicated: nat, coverageKnown: bool)

  datatype AccountingResult = AccountingResult(resolutions: seq<Resolution>, summary: Summary)

  /** A resolution under way, and whether it takes part in deduplication. */
  datatype Item = Item(res: Resolution, eligible: bool)

  // ------------------------------------------------------------------- fingerprints

  datatype CandidateContent = CandidateContent(
    diagnosticID: string, diagnosticVersion: string, candidateID: string, claimType: ClaimType, statement: string,
    targetUID: string, incidentStart: string, incidentEnd: string, evidence: seq<string>)

  datatype ClaimContent = ClaimContent(
    claimType: ClaimType, statement: string, targetUID: string, incidentStart: string, incidentEnd: string)

  /** The two content digests and the text of an instant. */
  datatype Digests = Digests(
    candidate: CandidateContent -> string, claim: ClaimContent -> string, stamp: Instant -> string)

  ghost predicate Injective(d: Digests) {
    && (forall a, b :: d.candidate(a) == d.candidate(b) ==> a == b)
    && (forall a, b :: d.claim(a) == d.claim(b) ==> a == b)
    && (forall a, b :: d.stamp(a) == d.stamp(b) ==> a == b)
    && (forall a :: d.stamp(a) != "")
  }

  function CanonicalTime(d: Digests, t: Instant): string {
    if t == NO_INSTANT then "" else d.stamp(t)
  }

  lemma CanonicalTimeIsInjective(d: Digests, a: Instant, b: Instant)
    requires Injective(d) && CanonicalTime(d, a) == CanonicalTime(d, b)
    ensures a == b
  {
    assert d.stamp(a) != "" && d.stamp(b) != "";
  }

  function NormalizeStatement(value: string): string {
    Text.Join(Text.Fields(Text.ToLower(Text.TrimSpace(value))), " ")
  }

  lemma LowerKeepsTrimmed(s: string)
    requires s == Text.TrimSpace(s)
    ensures Text.TrimSpace(Text.ToLower(s)) == Text.ToLower(s)
  {
    hide Text.TrimSpace, Text.ToLower;
    assert forall c: char {:trigger Text.LowerChar(c)} :: Text.IsSpace(Text.LowerChar(c)) == Text.IsSpace(c);
    Text.TrimSpaceLeaves(s);
    var t := Text.ToLower(s);
    if s != "" {
      assert t[0] == Text.LowerChar(s[0]) && t[|t| - 1] == Text.LowerChar(s[|s| - 1]);
    }
    Text.TrimmedStays(t);
  }

  /** A statement is blank exactly when its normal form is empty. */
  lemma NormalizeStatementKeepsBlank(s: string)
    ensures NormalizeStatement(s) == "" <==> Text.TrimSpace(s) == ""
  {
    hide Text.TrimSpace, Text.Fields, Text.Join;
    var t := Text.TrimSpace(s);
    Text.TrimSpaceIdempotent(s);
    LowerKeepsTrimmed(t);
    Text.FieldsOfTrimmed(Text.ToLower(t));
  }

  /** The non-blank trimmed values in the order of their first occurrence. */
  function FirstOccurrences(values: seq<string>): seq<string> {
    if values == [] then []
    else
      var before := FirstOccurrences(values[..|values| - 1]);
      var value := Text.TrimSpace(values[|values| - 1]);
      if value == "" || value in before then before else before + [value]
  }

  predicate Occurs(values: seq<string>, s: string) {
    s != "" && exists i :: 0 <= i < |values| && Text.TrimSpace(values[i]) == s
  }

  lemma {:induction false} FirstOccurrencesMembers(values: seq<string>)
    ensures forall s :: s in FirstOccurrences(values) <==> Occurs(values, s)
    ensures forall i, j :: 0 <= i < j < |FirstOccurrences(values)| ==>
              FirstOccurrences(values)[i] != FirstOccurrences(values)[j]
  {
    hide Text.TrimSpace;
    if values != [] {
      var front := values[..|values| - 1];
      FirstOccurrencesMembers(front);
      assert forall i :: 0 <= i < |front| ==> front[i] == values[i];
      forall s | Occurs(values, s)
        ensures Occurs(front, s) || Text.TrimSpace(values[|values| - 1]) == s
      {
        var i :| 0 <= i < |values| && Text.TrimSpace(values[i]) == s;
      }
    }
  }

  /** The distinct non-blank trimmed values, sorted. */
  function UniqueStrings(values: seq<string>): seq<string> {
    Sorting.StableSort(FirstOccurrences(values), Text.Less)
  }

  method CollectUniqueStrings(values: seq<string>) returns (result: seq<string>)
    ensures result == UniqueStrings(values)
  {
    hide Text.TrimSpace;
    var seen: set<string> := {};
    result := [];
    for i := 0 to |values|
      invariant result == FirstOccurrences(values[..i])
      invariant seen == set s | s in result
    {
      assert values[..i + 1][..i] == values[..i];
      var value := Text.TrimSpace(values[i]);
      if value == "" {
        continue;
      }
      if value in seen {
        continue;
      }
      seen := seen + {value};
      result := result + [value];
    }
    assert values[..|values|] == values;
    result := Sorting.StableSort(result, Text.Less);
  }

  function EvidenceID(e: Evidence): string {
    Text.TrimSpace(e.id)
  }

  /** The first identity recorded for an evidence ID. */
  function FirstIdentity(values: seq<Evidence>, id: string): Option<Evidence> {
    if values == [] then None
    else
      var before := FirstIdentity(values[..|values| - 1], id);
      var last := values[|values| - 1];
      if before.Some? || id == "" || EvidenceID(last) != id then before else Some(last.(id := id))
  }

  lemma {:induction false} FirstIdentityIsFirst(values: seq<Evidence>, id: string)
    ensures FirstIdentity(values, id).Some? <==> id != "" && exists i :: 0 <= i < |values| && EvidenceID(values[i]) == id
    ensures FirstIdentity(values, id).Some? ==>
              exists i :: 0 <= i < |values| && EvidenceID(values[i]) == id
                          && FirstIdentity(values, id).value == values[i].(id := id)
                          && forall j :: 0 <= j < i ==> EvidenceID(values[j]) != id
  {
    hide EvidenceID;
    if values != [] {
      var front, n := values[..|values| - 1], |values| - 1;
      FirstIdentityIsFirst(front, id);
      assert forall i :: 0 <= i < n ==> front[i] == values[i];
      assert EvidenceID(values[n]) == EvidenceID(values[n]);
    }
  }

  method EvidenceIdentityMap(values: seq<Evidence>) returns (result: map<string, Evidence>)
    ensures forall id :: (if id in result then Some(result[id]) else None) == FirstIdentity(values, id)
  {
    hide EvidenceID;
    result := map[];
    for i := 0 to |values|
      invariant forall id :: (if id in result then Some(result[id]) else None) == FirstIdentity(values[..i], id)
    {
      assert values[..i + 1][..i] == values[..i];
      var id := EvidenceID(values[i]);
      if id == "" {
        continue;
      }
      if id !in result {
        result := result[id := values[i].(id := id)];
      }
    }
    assert values[..|values|] == values;
  }

  /** What is compared to tell whether two identities of one evidence ID agree; its digest is taken as injective. */
  datatype EvidenceContent = EvidenceContent(
    targetUID: string, start: string, end: string, authorized: bool, valid: bool, incomplete: bool)

  function ContentOf(d: Digests, e: Evidence): EvidenceContent {
    EvidenceContent(Text.TrimSpace(e.targetUID), CanonicalTime(d, e.start), CanonicalTime(d, e.end), e.authorized,
                    e.valid, e.incomplete)
  }

  /** An evidence ID is in conflict when two of its identities differ. */
  predicate Disputed(d: Digests, values: seq<Evidence>, id: string) {
    id != "" && exists i, j :: 0 <= i < j < |values| && EvidenceID(values[i]) == id == EvidenceID(values[j])
                               && ContentOf(d, values[i]) != ContentOf(d, values[j])
  }

  method EvidenceIdentityConflicts(d: Digests, values: seq<Evidence>) returns (result: set<string>)
    ensures forall id :: id in result <==> Disputed(d, values, id)
  {
    hide EvidenceID, ContentOf, Disputed;
    result := {};
    var first: map<string, EvidenceContent> := map[];
    for i := 0 to |values|
      invariant forall id :: id in first ==> Recorded(d, values, i, id, first[id])
      invariant forall id :: id in result ==> Disputed(d, values, id)
      invariant forall j :: 0 <= j < i && EvidenceID(values[j]) != "" ==>
        EvidenceID(values[j]) in first
        && (EvidenceID(values[j]) !in result ==> ContentOf(d, values[j]) == first[EvidenceID(values[j])])
    {
      var id := EvidenceID(values[i]);
      if id == "" {
        continue;
      }
      var content := ContentOf(d, values[i]);
      if id in first && first[id] != content {
        RecordedDiffers(d, values, i, id, first[id]);
        result := result + {id};
        continue;
      }
      first := first[id := content];
    }
    forall id | id !in result
      ensures !Disputed(d, values, id)
    {
      AgreesUndisputed(d, values, id, if id in first then first[id] else EvidenceContent("", "", "", false, false, false));
    }
  }

  ghost predicate Recorded(d: Digests, values: seq<Evidence>, n: nat, id: string, content: EvidenceContent)
    requires n <= |values|
  {
    id != "" && exists j :: 0 <= j < n && EvidenceID(values[j]) == id && content == ContentOf(d, values[j])
  }

  lemma RecordedDiffers(d: Digests, values: seq<Evidence>, i: nat, id: string, content: EvidenceContent)
    requires i < |values| && Recorded(d, values, i, id, content)
    requires EvidenceID(values[i]) == id && ContentOf(d, values[i]) != content
    ensures Disputed(d, values, id)
  {
    hide EvidenceID, ContentOf;
  }

  lemma AgreesUndisputed(d: Digests, values: seq<Evidence>, id: string, content: EvidenceContent)
    requires forall j :: 0 <= j < |values| && EvidenceID(values[j]) == id && id != "" ==> ContentOf(d, values[j]) == content
    ensures !Disputed(d, values, id)
  {
    hide EvidenceID, ContentOf;
  }

  const NO_EVIDENCE := Evidence("", "", NO_INSTANT, NO_INSTANT, false, false, false)

  /** The text that stands for one evidence reference in a candidate fingerprint. */
  function Describe(d: Digests, evidence: seq<Evidence>, id: string): string {
    var found := FirstIdentity(evidence, id);
    var identity := if found.Some? then found.value else NO_EVIDENCE;
    id + "|" + identity.targetUID + "|" + CanonicalTime(d, identity.start) + "|" + CanonicalTime(d, identity.end)
  }

  function DescribeAll(d: Digests, evidence: seq<Evidence>, ids: seq<string>): (r: seq<string>)
    ensures |r| == |ids| && forall i :: 0 <= i < |ids| ==> r[i] == Describe(d, evidence, ids[i])
  {
    seq(|ids|, i requires 0 <= i < |ids| => Describe(d, evidence, ids[i]))
  }

  function CandidateContentOf(d: Digests, r: Record): CandidateContent {
    CandidateContent(
      Text.TrimSpace(r.diagnosticID), Text.TrimSpace(r.diagnosticVersion), Text.TrimSpace(r.candidate.id),
      r.candidate.kind, NormalizeStatement(r.candidate.statement), Text.TrimSpace(r.candidate.targetUID),
      CanonicalTime(d, r.start), CanonicalTime(d, r.end),
      Sorting.StableSort(DescribeAll(d, r.evidence, UniqueStrings(r.candidate.evidenceRefs)), Text.Less))
  }

  function FingerprintCandidate(d: Digests, r: Record): string {
    d.candidate(CandidateContentOf(d, r))
  }

  function ClaimContentOf(d: Digests, r: Record): ClaimContent {
    ClaimContent(r.candidate.kind, NormalizeStatement(r.candidate.statement), Text.TrimSpace(r.candidate.targetUID),
                 CanonicalTime(d, r.start), CanonicalTime(d, r.end))
  }

  function FingerprintClaim(d: Digests, r: Record): string {
    d.claim(ClaimContentOf(d, r))
  }

  // --------------------------------------------------------------------- validation

  function Normalized(r: Record): Record {
    r.(diagnosticID := Text.TrimSpace(r.diagnosticID),
       diagnosticVersion := Text.TrimSpace(r.diagnosticVersion),
       candidate := r.candidate.(
         id := Text.TrimSpace(r.candidate.id),
         statement := Text.TrimSpace(r.candidate.statement),
         targetUID := Text.TrimSpace(r.candidate.targetUID),
         evidenceRefs := UniqueStrings(r.candidate.evidenceRefs)))
  }

  predicate WindowsCompatible(start0: Instant, end0: Instant, start1: Instant, end1: Instant) {
    if start0 == NO_INSTANT && end0 == NO_INSTANT && start1 == NO_INSTANT && end1 == NO_INSTANT then true
    else if start0 == NO_INSTANT || end0 == NO_INSTANT || start1 == NO_INSTANT || end1 == NO_INSTANT then false
    else if end0 < start0 || end1 < start1 then false
    else !(end0 < start1) && !(end1 < start0)
  }

  predicate Within(t: Instant, start: Instant, end: Instant) {
    start <= t <= end
  }

  /** Known windows are compatible exactly when some instant lies in both. */
  lemma CompatibleMeansOverlapping(start0: Instant, end0: Instant, start1: Instant, end1: Instant)
    requires start0 != NO_INSTANT && end0 != NO_INSTANT && start1 != NO_INSTANT && end1 != NO_INSTANT
    ensures WindowsCompatible(start0, end0, start1, end1) <==>
            exists t :: Within(t, start0, end0) && Within(t, start1, end1)
  {
    var t := if start0 < start1 then start1 else start0;
    if WindowsCompatible(start0, end0, start1, end1) {
      assert Within(t, start0, end0) && Within(t, start1, end1);
    }
  }

  datatype Verdict = Verdict(disposition: Disposition, reason: Reason, eligible: bool)

  function Rejection(reason: Reason): Verdict {
    Verdict(Rejected, reason, false)
  }

  /** Why one reference disqualifies a candidate, if it does. */
  function RefFault(d: Digests, r: Record, ref: string): Option<Reason> {
    var found := FirstIdentity(r.evidence, ref);
    if found.None? then Some(EvidenceReferenceNotFound)
    else if Disputed(d, r.evidence, ref) then Some(EvidenceIdentityConflict)
    else if !found.value.authorized then Some(EvidenceUnauthorized)
    else if !found.value.valid then Some(EvidenceInvalid)
    else if found.value.targetUID == "" then Some(EvidenceTargetUIDMissing)
    else if found.value.targetUID != r.candidate.targetUID then Some(EvidenceTargetUIDMismatch)
    else if !WindowsCompatible(r.start, r.end, found.value.start, found.value.end) then
      Some(EvidenceOutsideIncidentWindow)
    else None
  }

  predicate RefIncomplete(r: Record, ref: string) {
    FirstIdentity(r.evidence, ref).Some? && FirstIdentity(r.evidence, ref).value.incomplete
  }

  /** The first fault among the first n references. */
  function FirstFault(d: Digests, r: Record, n: nat): Option<Reason>
    requires n <= |r.candidate.evidenceRefs|
  {
    if n == 0 then None
    else
      var before := FirstFault(d, r, n - 1);
      if before.Some? then before else RefFault(d, r, r.candidate.evidenceRefs[n - 1])
  }

  lemma {:induction false} NoFaultAtAll(d: Digests, r: Record, n: nat)
    requires n <= |r.candidate.evidenceRefs|
    ensures FirstFault(d, r, n).None? <==> forall k :: 0 <= k < n ==> RefFault(d, r, r.candidate.evidenceRefs[k]).None?
  {
    hide RefFault;
    if n > 0 {
      NoFaultAtAll(d, r, n - 1);
    }
  }

  predicate AnyIncomplete(r: Record) {
    exists k :: 0 <= k < |r.candidate.evidenceRefs| && RefIncomplete(r, r.candidate.evidenceRefs[k])
  }

  function HeaderFault(r: Record): Option<Reason> {
    if r.candidate.id == "" then Some(MissingCandidateID)
    else if r.diagnosticID == "" || r.diagnosticVersion == "" then Some(MissingDiagnosticIdentity)
    else if r.candidate.targetUID == "" then Some(MissingTargetUID)
    else if r.candidate.statement == "" then Some(MissingCandidateStatement)
    else if r.candidate.kind.OtherClaim? then Some(InvalidClaimType)
    else None
  }

  function Validated(d: Digests, r: Record): Verdict {
    if HeaderFault(r).Some? then Rejection(HeaderFault(r).value)
    else if r.candidate.evidenceRefs == [] then Verdict(RetainedHypothesis, EvidenceRefsMissing, false)
    else
      var fault := FirstFault(d, r, |r.candidate.evidenceRefs|);
      if fault.Some? then Rejection(fault.value)
      else if AnyIncomplete(r) then Verdict(RetainedHypothesis, EvidenceIncomplete, false)
      else Verdict(ProposedClaim, CandidateAcceptedForVerification, true)
  }

  method ValidateCandidate(d: Digests, r: Record) returns (v: Verdict)
    ensures v == Validated(d, r)
  {
    hide FirstIdentity, Disputed, WindowsCompatible;
    var candidate := r.candidate;
    if candidate.id == "" {
      return Rejection(MissingCandidateID);
    }
    if r.diagnosticID == "" || r.diagnosticVersion == "" {
      return Rejection(MissingDiagnosticIdentity);
    }
    if candidate.targetUID == "" {
      return Rejection(MissingTargetUID);
    }
    if candidate.statement == "" {
      return Rejection(MissingCandidateStatement);
    }
    if !candidate.kind.Observation? && !candidate.kind.FailureMechanism? && !candidate.kind.RootCause? {
      return Rejection(InvalidClaimType);
    }
    if |candidate.evidenceRefs| == 0 {
      return Verdict(RetainedHypothesis, EvidenceRefsMissing, false);
    }
    var evidence := EvidenceIdentityMap(r.evidence);
    var conflicts := EvidenceIdentityConflicts(d, r.evidence);
    var incomplete := false;
    for i := 0 to |candidate.evidenceRefs|
      invariant FirstFault(d, r, i).None?
      invariant incomplete <==> exists k :: 0 <= k < i && RefIncomplete(r, candidate.evidenceRefs[k])
    {
      var ref := candidate.evidenceRefs[i];
      FaultIsFirst(d, r, i);
      assert (if ref in evidence then Some(evidence[ref]) else None) == FirstIdentity(r.evidence, ref);
      if ref !in evidence {
        return Rejection(EvidenceReferenceNotFound);
      }
      var identity := evidence[ref];
      if ref in conflicts {
        return Rejection(EvidenceIdentityConflict);
      }
      if !identity.authorized {
        return Rejection(EvidenceUnauthorized);
      }
      if !identity.valid {
        return Rejection(EvidenceInvalid);
      }
      if identity.targetUID == "" {
        return Rejection(EvidenceTargetUIDMissing);
      }
      if identity.targetUID != candidate.targetUID {
        return Rejection(EvidenceTargetUIDMismatch);
      }
      if !WindowsCompatible(r.start, r.end, identity.start, identity.end) {
        return Rejection(EvidenceOutsideIncidentWindow);
      }
      incomplete := incomplete || identity.incomplete;
    }
    if incomplete {
      return Verdict(RetainedHypothesis, EvidenceIncomplete, false);
    }
    return Verdict(ProposedClaim, CandidateAcceptedForVerification, true);
  }

  lemma {:induction false} FaultStays(d: Digests, r: Record, i: nat, n: nat)
    requires i <= n <= |r.candidate.evidenceRefs| && FirstFault(d, r, i).Some?
    ensures FirstFault(d, r, n) == FirstFault(d, r, i)
  {
    hide RefFault;
    if i < n {
      FaultStays(d, r, i, n - 1);
    }
  }

  lemma FaultIsFirst(d: Digests, r: Record, i: nat)
    requires i < |r.candidate.evidenceRefs| && FirstFault(d, r, i).None?
    ensures var fault := RefFault(d, r, r.candidate.evidenceRefs[i]);
            fault.Some? ==> FirstFault(d, r, |r.candidate.evidenceRefs|) == fault
  {
    hide RefFault;
    if RefFault(d, r, r.candidate.evidenceRefs[i]).Some? {
      FaultStays(d, r, i + 1, |r.candidate.evidenceRefs|);
    }
  }

  // --------------------------------------------------------------------- resolution

  function Base(d: Digests, record: Record): Item {
    var r := Normalized(record);
    var verdict := Validated(d, r);
    Item(Resolution(r.candidate.id, FingerprintCandidate(d, r), FingerprintClaim(d, r), verdict.disposition, "", "",
                    verdict.reason),
         verdict.eligible)
  }

  function Bases(d: Digests, records: seq<Record>): (items: seq<Item>)
    ensures |items| == |records| && forall i :: 0 <= i < |records| ==> items[i] == Base(d, records[i])
  {
    seq(|records|, i requires 0 <= i < |records| => Base(d, records[i]))
  }

  /** A candidate ID that is used for two different contents. */
  predicate Conflicting(items: seq<Item>, id: string) {
    id != "" && exists i, j :: 0 <= i < |items| && 0 <= j < |items| && items[i].res.candidateID == id
                               && items[j].res.candidateID == id
                               && items[i].res.candidateFingerprint != items[j].res.candidateFingerprint
  }

  function Checked(items: seq<Item>, item: Item): Item {
    if Conflicting(items, item.res.candidateID)
    then Item(item.res.(disposition := Rejected, reason := CandidateIdentityConflict), false)
    else item
  }

  function AllChecked(items: seq<Item>): (r: seq<Item>)
    ensures |r| == |items| && forall i :: 0 <= i < |items| ==> r[i] == Checked(items, items[i])
  {
    seq(|items|, i requires 0 <= i < |items| => Checked(items, items[i]))
  }

  predicate KeyLess(a: Item, b: Item) {
    if a.res.candidateFingerprint != b.res.candidateFingerprint
    then Text.Less(a.res.candidateFingerprint, b.res.candidateFingerprint)
    else Text.Less(a.res.candidateID, b.res.candidateID)
  }

  predicate Competes(items: seq<Item>, i: int, claim: string) {
    0 <= i < |items| && items[i].eligible && items[i].res.claimFingerprint == claim
  }

  /** The eligible item that stands for a claim: least by fingerprint and ID, the earliest of equals. */
  ghost predicate IsCanonical(items: seq<Item>, claim: string, k: int) {
    Competes(items, k, claim)
    && (forall j :: Competes(items, j, claim) ==> !KeyLess(items[j], items[k]))
    && (forall j :: 0 <= j < k && Competes(items, j, claim) ==> KeyLess(items[k], items[j]))
  }

  /** The least of the first n items that compete for a claim. */
  function Leader(items: seq<Item>, claim: string, n: nat): (k: Option<nat>)
    requires n <= |items|
    ensures k.Some? ==> k.value < n && Competes(items, k.value, claim)
    ensures k.None? ==> forall j :: 0 <= j < n ==> !Competes(items, j, claim)
  {
    if n == 0 then None
    else
      var before := Leader(items, claim, n - 1);
      if Competes(items, n - 1, claim) && (before.None? || KeyLess(items[n - 1], items[before.value])) then Some(n - 1)
      else before
  }

  function Proposed(item: Item): Resolution {
    item.res.(disposition := ProposedClaim, canonicalClaimID := item.res.candidateID,
              reason := CandidateAcceptedForVerification)
  }

  function Duplicate(item: Item, canonical: Item): Resolution {
    item.res.(disposition := Deduplicated, canonicalClaimID := canonical.res.candidateID,
              duplicateOf := canonical.res.candidateID, reason := DuplicateClaimFingerprint)
  }

  function ResolutionOf(items: seq<Item>, i: nat): Resolution
    requires i < |items|
  {
    if !items[i].eligible then items[i].res
    else
      var leader := Leader(items, items[i].res.claimFingerprint, |items|);
      if leader == Some(i) then Proposed(items[i])
      else if leader.Some? then Duplicate(items[i], items[leader.value])
      else items[i].res
  }

  function AllResolutions(items: seq<Item>): (rs: seq<Resolution>)
    ensures |rs| == |items| && forall i :: 0 <= i < |items| ==> rs[i] == ResolutionOf(items, i)
  {
    seq(|items|, i requires 0 <= i < |items| => ResolutionOf(items, i))
  }

  function DispositionRank(disposition: Disposition): int {
    match disposition
    case Deduplicated => 0
    case ProposedClaim => 1
    case Rejected => 2
    case RetainedHypothesis => 3
  }

  predicate ResolutionLess(a: Resolution, b: Resolution) {
    if a.candidateFingerprint != b.candidateFingerprint then Text.Less(a.candidateFingerprint, b.candidateFingerprint)
    else if a.candidateID != b.candidateID then Text.Less(a.candidateID, b.candidateID)
    else DispositionRank(a.disposition) < DispositionRank(b.disposition)
  }

  function CountOf(rs: seq<Resolution>, disposition: Disposition): nat {
    if rs == [] then 0
    else CountOf(rs[..|rs| - 1], disposition) + (if rs[|rs| - 1].disposition == disposition then 1 else 0)
  }

  method SummarizeDispositions(rs: seq<Resolution>) returns (s: Summary)
    ensures s == Summary(|rs|, CountOf(rs, ProposedClaim), CountOf(rs, RetainedHypothesis), CountOf(rs, Rejected),
                         CountOf(rs, Deduplicated), rs != [])
    ensures s.proposed + s.retained + s.rejected + s.deduplicated == s.total
  {
    s := Summary(|rs|, 0, 0, 0, 0, false);
    for i := 0 to |rs|
      invariant s == Summary(|rs|, CountOf(rs[..i], ProposedClaim), CountOf(rs[..i], RetainedHypothesis),
                             CountOf(rs[..i], Rejected), CountOf(rs[..i], Deduplicated), false)
      invariant s.proposed + s.retained + s.rejected + s.deduplicated == i
    {
      assert rs[..i + 1][..i] == rs[..i];
      match rs[i].disposition
      case ProposedClaim => s := s.(proposed := s.proposed + 1);
      case RetainedHypothesis => s := s.(retained := s.retained + 1);
      case Rejected => s := s.(rejected := s.rejected + 1);
      case Deduplicated => s := s.(deduplicated := s.deduplicated + 1);
    }
    assert rs[..|rs|] == rs;
    if s.total > 0 {
      s := s.(coverageKnown := true);
    }
  }

  lemma KeyOrder()
    ensures Sorting.WeakOrder(KeyLess)
  {
    forall a, b | KeyLess(a, b)
      ensures !KeyLess(b, a)
    {
      if a.res.candidateFingerprint != b.res.candidateFingerprint {
        Text.LessAsymmetric(a.res.candidateFingerprint, b.res.candidateFingerprint);
      } else {
        Text.LessAsymmetric(a.res.candidateID, b.res.candidateID);
      }
    }
    forall a, b, c | !KeyLess(b, a) && !KeyLess(c, b)
      ensures !KeyLess(c, a)
    {
      KeyChain(a, b, c);
    }
  }

  lemma KeyChain(a: Item, b: Item, c: Item)
    requires !KeyLess(b, a) && !KeyLess(c, b)
    ensures !KeyLess(c, a)
  {
    var x, y, z := a.res.candidateFingerprint, b.res.candidateFingerprint, c.res.candidateFingerprint;
    Text.LessTotal(x, y);
    Text.LessTotal(y, z);
    if x == y == z {
      Text.LessIsNegativelyTransitive(a.res.candidateID, b.res.candidateID, c.res.candidateID);
    } else if x != y && y != z {
      Text.LessTransitive(x, y, z);
      Text.LessAsymmetric(x, z);
      Text.LessIrreflexive(x);
    } else {
      Text.LessAsymmetric(x, z);
    }
  }

  lemma {:induction false} LeaderIsLeast(items: seq<Item>, claim: string, n: nat)
    requires n <= |items| && Leader(items, claim, n).Some?
    ensures var k := Leader(items, claim, n).value;
            (forall j :: 0 <= j < n && Competes(items, j, claim) ==> !KeyLess(items[j], items[k]))
            && (forall j :: 0 <= j < k && Competes(items, j, claim) ==> KeyLess(items[k], items[j]))
  {
    var k := Leader(items, claim, n).value;
    KeyOrder();
    if Leader(items, claim, n - 1).Some? {
      LeaderIsLeast(items, claim, n - 1);
    }
  }

  lemma LeaderIsCanonical(items: seq<Item>, claim: string, i: int)
    requires Competes(items, i, claim)
    ensures Leader(items, claim, |items|).Some? && IsCanonical(items, claim, Leader(items, claim, |items|).value)
  {
    LeaderIsLeast(items, claim, |items|);
  }

  lemma CanonicalIsTheLeader(items: seq<Item>, claim: string, k: int)
    requires IsCanonical(items, claim, k)
    ensures Leader(items, claim, |items|) == Some(k)
  {
    LeaderIsCanonical(items, claim, k);
    assert Competes(items, Leader(items, claim, |items|).value, claim);
  }

  // ------------------------------------------------------------------ the algorithm

  /** What the account of a list of records is. */
  function Account(d: Digests, records: seq<Record>): seq<Resolution> {
    Sorting.StableSort(AllResolutions(AllChecked(Bases(d, records))), ResolutionLess)
  }

  method AccountCandidates(d: Digests, records: seq<Record>) returns (result: AccountingResult)
    ensures result.resolutions == Account(d, records)
    ensures result.summary == Summary(
              |records|, CountOf(result.resolutions, ProposedClaim), CountOf(result.resolutions, RetainedHypothesis),
              CountOf(result.resolutions, Rejected), CountOf(result.resolutions, Deduplicated), records != [])
    ensures result.summary.proposed + result.summary.retained + result.summary.rejected + result.summary.deduplicated
            == |records|
  {
    hide Base, Checked, ResolutionOf, ResolutionLess;
    ghost var checked := AllChecked(Bases(d, records));
    var items := BuildItems(d, records);
    RejectIdentityConflicts(items);
    assert items[..] == checked;
    DeduplicateClaims(items);
    var resolutions := [];
    for i := 0 to items.Length
      invariant |resolutions| == i
      invariant forall j :: 0 <= j < i ==> resolutions[j] == items[j].res
    {
      resolutions := resolutions + [items[i].res];
    }
    assert resolutions == AllResolutions(checked);
    resolutions := Sorting.StableSort(resolutions, ResolutionLess);
    var summary := SummarizeDispositions(resolutions);
    assert resolutions == [] <==> records == [];
    result := AccountingResult(resolutions, summary);
  }

  method BuildItems(d: Digests, records: seq<Record>) returns (items: array<Item>)
    ensures fresh(items) && items[..] == Bases(d, records)
  {
    hide Base;
    items := new Item[|records|](_ => Item(Resolution("", "", "", Rejected, "", "", MissingCandidateID), false));
    for index := 0 to |records|
      invariant forall i :: 0 <= i < index ==> items[i] == Base(d, records[i])
    {
      items[index] := BuildItem(d, records[index]);
    }
  }

  method BuildItem(d: Digests, record: Record) returns (item: Item)
    ensures item == Base(d, record)
  {
    hide UniqueStrings, CandidateContentOf, ClaimContentOf, Validated;
    var refs := CollectUniqueStrings(record.candidate.evidenceRefs);
    var candidate := record.candidate.(
      id := Text.TrimSpace(record.candidate.id),
      statement := Text.TrimSpace(record.candidate.statement),
      targetUID := Text.TrimSpace(record.candidate.targetUID),
      evidenceRefs := refs);
    var normalized := record.(
      diagnosticID := Text.TrimSpace(record.diagnosticID),
      diagnosticVersion := Text.TrimSpace(record.diagnosticVersion),
      candidate := candidate);
    var verdict := ValidateCandidate(d, normalized);
    item := Item(Resolution(normalized.candidate.id, FingerprintCandidate(d, normalized),
                            FingerprintClaim(d, normalized), verdict.disposition, "", "", verdict.reason),
                 verdict.eligible);
  }

  /** One of the first n items uses this candidate ID for this content. */
  predicate Uses(items: seq<Item>, n: nat, id: string, fingerprint: string)
    requires n <= |items|
  {
    id != "" && exists j :: 0 <= j < n && items[j].res.candidateID == id
                            && items[j].res.candidateFingerprint == fingerprint
  }

  predicate Tallied(fingerprints: map<string, set<string>>, id: string, fingerprint: string) {
    id in fingerprints && fingerprint in fingerprints[id]
  }

  lemma UsesNext(items: seq<Item>, n: nat, id: string, fingerprint: string)
    requires n < |items|
    ensures Uses(items, n + 1, id, fingerprint) <==>
            Uses(items, n, id, fingerprint)
            || (id != "" && items[n].res.candidateID == id && items[n].res.candidateFingerprint == fingerprint)
  {
  }

  /** A candidate ID used for different contents is rejected wherever it occurs. */
  method RejectIdentityConflicts(items: array<Item>)
    modifies items
    ensures items[..] == AllChecked(old(items[..]))
  {
    hide Conflicting;
    ghost var before := items[..];
    var fingerprints: map<string, set<string>> := map[];
    for index := 0 to items.Length
      invariant items[..] == before
      invariant forall id, f :: Tallied(fingerprints, id, f) <==> Uses(before, index, id, f)
    {
      var id, fingerprint := items[index].res.candidateID, items[index].res.candidateFingerprint;
      assert before[index] == items[index];
      ghost var was := fingerprints;
      var known := if id in fingerprints then fingerprints[id] else {};
      if id != "" {
        fingerprints := fingerprints[id := known + {fingerprint}];
      }
      forall other, f
        ensures Tallied(fingerprints, other, f) <==> Uses(before, index + 1, other, f)
      {
        UsesNext(before, index, other, f);
        assert Tallied(was, other, f) <==> Uses(before, index, other, f);
      }
    }
    for index := 0 to items.Length
      invariant forall j :: 0 <= j < index ==> items[j] == Checked(before, before[j])
      invariant forall j :: index <= j < items.Length ==> items[j] == before[j]
    {
      var item := items[index];
      var id := item.res.candidateID;
      if id != "" {
        assert Uses(before, |before|, id, item.res.candidateFingerprint);
        assert forall f :: f in fingerprints[id] <==> Tallied(fingerprints, id, f);
        ManyMeansConflict(before, id, fingerprints[id], item.res.candidateFingerprint);
      }
      NoConflictWithoutID(before);
      if id != "" && |fingerprints[id]| > 1 {
        items[index] := Item(item.res.(disposition := Rejected, reason := CandidateIdentityConflict), false);
      }
    }
  }

  lemma NoConflictWithoutID(items: seq<Item>)
    ensures !Conflicting(items, "")
  {
  }

  lemma ManyMeansConflict(items: seq<Item>, id: string, fs: set<string>, f: string)
    requires id != "" && f in fs
    requires forall g :: g in fs <==> Uses(items, |items|, id, g)
    ensures |fs| > 1 <==> Conflicting(items, id)
  {
    if |fs| > 1 {
      var others := fs - {f};
      assert |others| > 0;
      var g :| g in others;
      assert Uses(items, |items|, id, g) && Uses(items, |items|, id, f);
    } else {
      SingleHasOne(fs, f);
      forall i | 0 <= i < |items| && items[i].res.candidateID == id
        ensures items[i].res.candidateFingerprint == f
      {
        assert Uses(items, |items|, id, items[i].res.candidateFingerprint);
      }
    }
  }

  lemma SingleHasOne(fs: set<string>, f: string)
    requires f in fs && |fs| <= 1
    ensures forall g :: g in fs ==> g == f
  {
    assert |fs - {f}| == 0;
    assert fs == {f} + (fs - {f});
  }

  // ------------------------------------------------------------------ deduplication

  /** The positions of the first n items that compete for a claim. */
  function Competitors(items: seq<Item>, claim: string, n: nat): seq<nat>
    requires n <= |items|
  {
    if n == 0 then []
    else Competitors(items, claim, n - 1) + (if Competes(items, n - 1, claim) then [n - 1] else [])
  }

  lemma {:induction false} CompetitorsMembers(items: seq<Item>, claim: string, n: nat)
    requires n <= |items|
    ensures var r := Competitors(items, claim, n);
            (forall k :: 0 <= k < |r| ==> r[k] < n)
            && (forall k, l :: 0 <= k < l < |r| ==> r[k] < r[l])
            && (forall i: nat :: i in r <==> i < n && Competes(items, i, claim))
  {
    hide Competes;
    if n > 0 {
      CompetitorsMembers(items, claim, n - 1);
    }
  }

  const NO_ITEM := Item(Resolution("", "", "", Rejected, "", "", MissingCandidateID), false)

  function ItemAt(items: seq<Item>, i: nat): Item {
    if i < |items| then items[i] else NO_ITEM
  }

  function IndexLess(items: seq<Item>): (nat, nat) -> bool {
    (i: nat, j: nat) => KeyLess(ItemAt(items, i), ItemAt(items, j))
  }

  lemma IndexOrder(items: seq<Item>)
    ensures Sorting.WeakOrder(IndexLess(items))
  {
    hide KeyLess;
    KeyOrder();
  }

  /** Sorting the competitors puts the canonical one first. */
  lemma SortedCompetitors(items: seq<Item>, claim: string)
    requires Competitors(items, claim, |items|) != []
    ensures var sorted := Sorting.StableSort(Competitors(items, claim, |items|), IndexLess(items));
            sorted != [] && Leader(items, claim, |items|) == Some(sorted[0])
  {
    hide KeyLess;
    var indexes := Competitors(items, claim, |items|);
    CompetitorsMembers(items, claim, |items|);
    IndexOrder(items);
    var k := Sorting.SortStartsWithTheFirst(indexes, IndexLess(items));
    forall j | Competes(items, j, claim)
      ensures !KeyLess(items[j], items[indexes[k]])
      ensures j < indexes[k] ==> KeyLess(items[indexes[k]], items[j])
    {
      assert j in indexes;
      var l :| 0 <= l < |indexes| && indexes[l] == j;
      assert !IndexLess(items)(indexes[l], indexes[k]);
      assert l < k ==> IndexLess(items)(indexes[k], indexes[l]);
    }
    assert indexes[k] in indexes;
    assert IsCanonical(items, claim, indexes[k]);
    CanonicalIsTheLeader(items, claim, indexes[k]);
  }

  lemma DistinctCounts(xs: seq<nat>)
    requires forall k, l :: 0 <= k < l < |xs| ==> xs[k] != xs[l]
    ensures forall x :: multiset(xs)[x] <= 1
  {
    if xs != [] {
      DistinctCounts(xs[1..]);
      assert xs == [xs[0]] + xs[1..];
    }
  }

  lemma CountsDistinct(xs: seq<nat>)
    requires forall x :: multiset(xs)[x] <= 1
    ensures forall k, l :: 0 <= k < l < |xs| ==> xs[k] != xs[l]
  {
    forall k, l | 0 <= k < l < |xs|
      ensures xs[k] != xs[l]
    {
      assert xs == xs[..l] + [xs[l]] + xs[l + 1..];
      assert multiset(xs) == multiset(xs[..l]) + multiset{xs[l]} + multiset(xs[l + 1..]);
      assert xs[k] in xs[..l];
      assert multiset(xs[..l])[xs[k]] > 0;
      assert multiset(xs)[xs[l]] >= multiset(xs[..l])[xs[l]] + 1;
    }
  }

  /** What deduplication leaves of one item. */
  function Deduped(before: seq<Item>, i: nat): Item
    requires i < |before|
  {
    Item(ResolutionOf(before, i), before[i].eligible)
  }

  lemma DedupedItem(before: seq<Item>, i: nat)
    requires i < |before|
    ensures !before[i].eligible ==> Deduped(before, i) == before[i]
    ensures forall c :: before[i].eligible && Leader(before, before[i].res.claimFingerprint, |before|) == Some(c) ==>
              Deduped(before, i) == before[i].(
                res := if c == i then Proposed(before[i]) else Duplicate(before[i], before[c]))
  {
  }

  method GroupByClaim(items: seq<Item>) returns (byClaim: map<string, seq<nat>>)
    ensures forall claim :: claim in byClaim ==>
              byClaim[claim] == Competitors(items, claim, |items|) && byClaim[claim] != []
    ensures forall claim :: claim !in byClaim ==> Competitors(items, claim, |items|) == []
  {
    byClaim := map[];
    for index := 0 to |items|
      invariant forall claim :: claim in byClaim ==>
        byClaim[claim] == Competitors(items, claim, index) && byClaim[claim] != []
      invariant forall claim :: claim !in byClaim ==> Competitors(items, claim, index) == []
    {
      if items[index].eligible {
        var claim := items[index].res.claimFingerprint;
        if claim !in byClaim {
          byClaim := byClaim[claim := []];
        }
        byClaim := byClaim[claim := byClaim[claim] + [index]];
      }
    }
  }

  /** Group the eligible items by claim, then resolve each group; the groups may come in any order. */
  method DeduplicateClaims(items: array<Item>)
    modifies items
    ensures forall i :: 0 <= i < items.Length ==> items[i] == Deduped(old(items[..]), i)
  {
    hide KeyLess, Deduped, Competitors, Competes;
    ghost var before := items[..];
    var byClaim := GroupByClaim(items[..]);
    var pending := byClaim.Keys;
    while pending != {}
      invariant pending <= byClaim.Keys
      invariant forall i :: 0 <= i < items.Length ==>
        items[i] == if before[i].res.claimFingerprint in byClaim && before[i].res.claimFingerprint !in pending
                    then Deduped(before, i) else before[i]
    {
      var claim :| claim in pending;
      ResolveClaim(items, claim, byClaim[claim], before);
      pending := pending - {claim};
    }
    forall i | 0 <= i < items.Length
      ensures items[i] == Deduped(before, i)
    {
      Uncontested(before, i);
    }
  }

  /** An item that competes for no claim is left alone. */
  lemma Uncontested(items: seq<Item>, i: nat)
    requires i < |items|
    ensures Competitors(items, items[i].res.claimFingerprint, |items|) == [] ==> Deduped(items, i) == items[i]
  {
    hide KeyLess;
    CompetitorsMembers(items, items[i].res.claimFingerprint, |items|);
    if Competes(items, i, items[i].res.claimFingerprint) {
      assert i in Competitors(items, items[i].res.claimFingerprint, |items|);
    }
  }

  /** The first of a sorted group is proposed, the others are duplicates of it. */
  method ResolveClaim(items: array<Item>, claim: string, indexes: seq<nat>, ghost before: seq<Item>)
    requires |before| == items.Length && indexes == Competitors(before, claim, |before|) && indexes != []
    requires forall i :: 0 <= i < items.Length && before[i].res.claimFingerprint == claim ==> items[i] == before[i]
    modifies items
    ensures forall i :: 0 <= i < items.Length ==>
              items[i] == if before[i].res.claimFingerprint == claim then Deduped(before, i) else old(items[i])
  {
    hide KeyLess, Leader, Deduped, Competitors, Competes;
    ghost var start := items[..];
    var sorted := SortGroup(items[..], claim, indexes, before);
    var canonical := items[sorted[0]];
    for position := 0 to |sorted|
      invariant forall i :: 0 <= i < items.Length ==>
        items[i] == if i in sorted[..position] then Deduped(before, i) else start[i]
    {
      var index := sorted[position];
      assert index in sorted && index !in sorted[..position];
      assert sorted[..position + 1] == sorted[..position] + [index];
      DedupedItem(before, index);
      if position == 0 {
        items[index] := items[index].(res := items[index].res.(
          disposition := ProposedClaim, canonicalClaimID := canonical.res.candidateID,
          reason := CandidateAcceptedForVerification));
        continue;
      }
      items[index] := items[index].(res := items[index].res.(
        disposition := Deduplicated, canonicalClaimID := canonical.res.candidateID,
        duplicateOf := canonical.res.candidateID, reason := DuplicateClaimFingerprint));
    }
    assert sorted[..|sorted|] == sorted;
    forall i | 0 <= i < items.Length
      ensures (i in sorted <==> before[i].eligible && before[i].res.claimFingerprint == claim)
      ensures items[i] == if before[i].res.claimFingerprint == claim then Deduped(before, i) else start[i]
    {
      DedupedItem(before, i);
    }
  }

  method SortGroup(keys: seq<Item>, claim: string, indexes: seq<nat>, ghost before: seq<Item>) returns (sorted: seq<nat>)
    requires |before| == |keys| && indexes == Competitors(before, claim, |before|) && indexes != []
    requires forall i :: 0 <= i < |keys| && before[i].res.claimFingerprint == claim ==> keys[i] == before[i]
    ensures sorted != [] && Leader(before, claim, |before|) == Some(sorted[0])
    ensures forall i: nat :: i in sorted <==>
              i < |before| && before[i].eligible && before[i].res.claimFingerprint == claim
    ensures forall k, l :: 0 <= k < l < |sorted| ==> sorted[k] != sorted[l]
  {
    hide KeyLess, Leader, Competitors;
    KeysSuffice(before, keys, claim);
    sorted := Sorting.StableSort(indexes, IndexLess(keys));
    GroupIsSorted(before, claim, sorted);
  }

  lemma GroupIsSorted(items: seq<Item>, claim: string, sorted: seq<nat>)
    requires Competitors(items, claim, |items|) != []
    requires sorted == Sorting.StableSort(Competitors(items, claim, |items|), IndexLess(items))
    ensures sorted != [] && Leader(items, claim, |items|) == Some(sorted[0])
    ensures forall i: nat :: i in sorted <==> i < |items| && items[i].eligible && items[i].res.claimFingerprint == claim
    ensures forall k, l :: 0 <= k < l < |sorted| ==> sorted[k] != sorted[l]
  {
    hide KeyLess, Leader;
    var indexes := Competitors(items, claim, |items|);
    CompetitorsMembers(items, claim, |items|);
    SortedCompetitors(items, claim);
    DistinctCounts(indexes);
    CountsDistinct(sorted);
    Sorting.SameMembers(indexes, sorted);
  }

  /** Only the compared fields matter to the sort, and they are still those of before. */
  lemma KeysSuffice(before: seq<Item>, keys: seq<Item>, claim: string)
    requires |keys| == |before|
    requires forall i :: 0 <= i < |before| && before[i].res.claimFingerprint == claim ==> keys[i] == before[i]
    ensures var indexes := Competitors(before, claim, |before|);
            Sorting.StableSort(indexes, IndexLess(keys)) == Sorting.StableSort(indexes, IndexLess(before))
  {
    hide KeyLess;
    CompetitorsMembers(before, claim, |before|);
    SortDependsOnElements(Competitors(before, claim, |before|), IndexLess(keys), IndexLess(before));
  }

  lemma {:induction false} SortDependsOnElements(xs: seq<nat>, less0: (nat, nat) -> bool, less1: (nat, nat) -> bool)
    requires forall a, b :: a in xs && b in xs ==> less0(a, b) == less1(a, b)
    ensures Sorting.StableSort(xs, less0) == Sorting.StableSort(xs, less1)
  {
    if xs != [] {
      SortDependsOnElements(xs[1..], less0, less1);
      Sorting.SameMembers(Sorting.StableSort(xs[1..], less0), xs[1..]);
      InsertDependsOnElements(xs[0], Sorting.StableSort(xs[1..], less0), less0, less1);
    }
  }

  lemma {:induction false} InsertDependsOnElements(x: nat, xs: seq<nat>, less0: (nat, nat) -> bool, less1: (nat, nat) -> bool)
    requires forall a :: a in xs ==> less0(a, x) == less1(a, x)
    ensures Sorting.Insert(x, xs, less0) == Sorting.Insert(x, xs, less1)
  {
    if xs != [] {
      InsertDependsOnElements(x, xs[1..], less0, less1);
    }
  }
}
