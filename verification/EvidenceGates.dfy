/**
  The two evidence gates around candidate accounting: the inventory that accounting checks candidates against, and the
  shadow verification that checks the accepted ones again with code of its own.
 */
module EvidenceGates {
  import opened Accounting
  import Sorting
  import Text

  datatype Observation = Observation(
    id: string, podUID: string, start: Instant, end: Instant, evidenceRefs: seq<string>)

  datatype EvidenceRef = EvidenceRef(
    id: string, kind: string, source: string, summary: string, reason: string, truncated: bool)

  datatype Collection = Collection(evidenceRefs: seq<EvidenceRef>, scheduling: seq<Observation>)

  datatype Scope = Scope(targetUID: string, start: Instant, end: Instant)

  // ------------------------------------------------------------------- the inventory

  function ScopeOf(o: Observation, start: Instant, end: Instant): Scope {
    Scope(Text.TrimSpace(o.podUID), if o.start == NO_INSTANT then start else o.start,
          if o.end == NO_INSTANT then end else o.end)
  }

  /** How often an observation names an evidence ID among its first n names. */
  function Namings(names: seq<string>, scope: Scope, id: string): seq<Scope> {
    if names == [] then []
    else
      Namings(names[..|names| - 1], scope, id)
      + (if id != "" && Text.TrimSpace(names[|names| - 1]) == id then [scope] else [])
  }

  function NamesOf(o: Observation): seq<string> {
    [o.id] + o.evidenceRefs
  }

  /** The scopes that the observations give to an evidence ID. */
  function Scopes(observations: seq<Observation>, start: Instant, end: Instant, id: string): seq<Scope> {
    if observations == [] then []
    else
      var o := observations[|observations| - 1];
      Scopes(observations[..|observations| - 1], start, end, id)
      + (if Text.TrimSpace(o.podUID) == "" then [] else Namings(NamesOf(o), ScopeOf(o, start, end), id))
  }

  function At(scoped: map<string, seq<Scope>>, id: string): seq<Scope> {
    if id in scoped then scoped[id] else []
  }

  method CollectScopes(observations: seq<Observation>, start: Instant, end: Instant)
    returns (scoped: map<string, seq<Scope>>)
    ensures forall id :: At(scoped, id) == Scopes(observations, start, end, id)
  {
    hide Text.TrimSpace;
    scoped := map[];
    for i := 0 to |observations|
      invariant forall id :: At(scoped, id) == Scopes(observations[..i], start, end, id)
    {
      var o := observations[i];
      assert observations[..i + 1][..i] == observations[..i];
      var uid := Text.TrimSpace(o.podUID);
      if uid == "" {
        continue;
      }
      scoped := AddNames(scoped, NamesOf(o), ScopeOf(o, start, end));
    }
    assert observations[..|observations|] == observations;
  }

  method AddNames(scoped: map<string, seq<Scope>>, names: seq<string>, scope: Scope)
    returns (r: map<string, seq<Scope>>)
    ensures forall id :: At(r, id) == At(scoped, id) + Namings(names, scope, id)
  {
    hide Text.TrimSpace, Namings, At;
    NoNamings(scope);
    r := scoped;
    for k := 0 to |names|
      invariant forall id :: At(r, id) == At(scoped, id) + Namings(names[..k], scope, id)
    {
      ghost var was := r;
      var id := Text.TrimSpace(names[k]);
      if id != "" {
        r := r[id := At(r, id) + [scope]];
      }
      forall other
        ensures At(r, other) == At(scoped, other) + Namings(names[..k + 1], scope, other)
      {
        NamingsNext(names, k, scope, other);
        AtUpdated(was, id, At(was, id) + [scope], other);
      }
    }
    assert names[..|names|] == names;
  }

  lemma AtUpdated(scoped: map<string, seq<Scope>>, id: string, scopes: seq<Scope>, other: string)
    ensures At(scoped[id := scopes], other) == if other == id then scopes else At(scoped, other)
  {
  }

  lemma NoNamings(scope: Scope)
    ensures forall id :: Namings([], scope, id) == []
  {
  }

  lemma NamingsNext(names: seq<string>, k: nat, scope: Scope, id: string)
    requires k < |names|
    ensures Namings(names[..k + 1], scope, id)
         == Namings(names[..k], scope, id) + (if id != "" && Text.TrimSpace(names[k]) == id then [scope] else [])
  {
    hide Text.TrimSpace;
    assert names[..k + 1][..k] == names[..k];
  }

  function Entry(ref: EvidenceRef, scope: Scope): Evidence {
    Evidence(Text.TrimSpace(ref.id), scope.targetUID, scope.start, scope.end, true, true, ref.truncated)
  }

  function Entries(ref: EvidenceRef, scopes: seq<Scope>): seq<Evidence> {
    if scopes == [] then [] else Entries(ref, scopes[..|scopes| - 1]) + [Entry(ref, scopes[|scopes| - 1])]
  }

  function EntriesFor(ref: EvidenceRef, observations: seq<Observation>, whole: Scope): seq<Evidence> {
    var id := Text.TrimSpace(ref.id);
    var scopes := Scopes(observations, whole.start, whole.end, id);
    if id == "" then [] else if scopes == [] then [Entry(ref, whole)] else Entries(ref, scopes)
  }

  function AllEntries(refs: seq<EvidenceRef>, observations: seq<Observation>, whole: Scope): seq<Evidence> {
    if refs == [] then []
    else AllEntries(refs[..|refs| - 1], observations, whole) + EntriesFor(refs[|refs| - 1], observations, whole)
  }

  predicate EvidenceLess(a: Evidence, b: Evidence) {
    if a.id != b.id then Text.Less(a.id, b.id)
    else if a.targetUID != b.targetUID then Text.Less(a.targetUID, b.targetUID)
    else a.start < b.start
  }

  /** The sequence without the elements that equal the one kept before them. */
  function Compacted(xs: seq<Evidence>): seq<Evidence> {
    if xs == [] then []
    else
      var before := Compacted(xs[..|xs| - 1]);
      if before != [] && before[|before| - 1] == xs[|xs| - 1] then before else before + [xs[|xs| - 1]]
  }

  function WholeScope(targetUIDs: seq<string>, start: Instant, end: Instant): Scope {
    Scope(if |targetUIDs| == 1 then Text.TrimSpace(targetUIDs[0]) else "", start, end)
  }

  function Inventory(c: Collection, targetUIDs: seq<string>, start: Instant, end: Instant): seq<Evidence> {
    Compacted(Sorting.StableSort(AllEntries(c.evidenceRefs, c.scheduling, WholeScope(targetUIDs, start, end)), EvidenceLess))
  }

  method DiagnosticEvidenceInventory(c: Collection, targetUIDs: seq<string>, start: Instant, end: Instant)
    returns (inventory: seq<Evidence>)
    ensures inventory == Inventory(c, targetUIDs, start, end)
  {
    hide Text.TrimSpace, Scopes, Compacted, EvidenceLess, Entries;
    var scoped := CollectScopes(c.scheduling, start, end);
    var singleTargetUID := "";
    if |targetUIDs| == 1 {
      singleTargetUID := Text.TrimSpace(targetUIDs[0]);
    }
    var whole := Scope(singleTargetUID, start, end);
    inventory := [];
    for i := 0 to |c.evidenceRefs|
      invariant inventory == AllEntries(c.evidenceRefs[..i], c.scheduling, whole)
    {
      assert c.evidenceRefs[..i + 1][..i] == c.evidenceRefs[..i];
      var ref := c.evidenceRefs[i];
      var id := Text.TrimSpace(ref.id);
      if id == "" {
        continue;
      }
      var matches := At(scoped, id);
      if |matches| == 0 {
        inventory := inventory + [Evidence(id, singleTargetUID, start, end, true, true, ref.truncated)];
        continue;
      }
      var entries := ScopedEntries(ref, matches);
      inventory := inventory + entries;
    }
    assert c.evidenceRefs[..|c.evidenceRefs|] == c.evidenceRefs;
    inventory := SortAndCompact(inventory);
  }

  method SortAndCompact(entries: seq<Evidence>) returns (inventory: seq<Evidence>)
    ensures inventory == Compacted(Sorting.StableSort(entries, EvidenceLess))
  {
    hide EvidenceLess, Compacted;
    var sorted := Sorting.StableSort(entries, EvidenceLess);
    var buffer := new Evidence[|sorted|](i requires 0 <= i < |sorted| => sorted[i]);
    assert buffer[..] == sorted;
    var kept := CompactInPlace(buffer);
    inventory := buffer[..kept];
  }

  method ScopedEntries(ref: EvidenceRef, matches: seq<Scope>) returns (entries: seq<Evidence>)
    ensures entries == Entries(ref, matches)
  {
    hide Text.TrimSpace;
    entries := [];
    for k := 0 to |matches|
      invariant entries == Entries(ref, matches[..k])
    {
      assert matches[..k + 1][..k] == matches[..k];
      entries := entries + [Evidence(Text.TrimSpace(ref.id), matches[k].targetUID, matches[k].start, matches[k].end,
                                     true, true, ref.truncated)];
    }
    assert matches[..|matches|] == matches;
  }

  /** Equal neighbours are dropped by moving the kept entries to the front of the same buffer. */
  method CompactInPlace(buffer: array<Evidence>) returns (kept: nat)
    modifies buffer
    ensures kept <= buffer.Length && buffer[..kept] == Compacted(old(buffer[..]))
  {
    ghost var was := buffer[..];
    kept := 0;
    for i := 0 to buffer.Length
      invariant kept <= i
      invariant buffer[..kept] == Compacted(was[..i])
      invariant buffer[i..] == was[i..]
    {
      assert was[..i + 1][..i] == was[..i];
      var identity := buffer[i];
      assert identity == buffer[i..][0] == was[i];
      if kept > 0 {
        assert buffer[..kept][kept - 1] == buffer[kept - 1];
        var previous := buffer[kept - 1];
        if previous == identity {
          assert buffer[i + 1..] == buffer[i..][1..];
          continue;
        }
      }
      ghost var rest := buffer[i + 1..];
      assert rest == buffer[i..][1..];
      buffer[kept] := identity;
      assert buffer[i + 1..] == rest;
      kept := kept + 1;
      assert buffer[..kept] == Compacted(was[..i]) + [identity];
    }
    assert was[..buffer.Length] == was;
  }

  // ------------------------------------------------------------------ reconciliation

  datatype DiagnosticResult = DiagnosticResult(
    diagnosticID: string, diagnosticVersion: string, claims: seq<Candidate>)

  datatype Input = Input(
    diagnostics: seq<DiagnosticResult>, evidence: seq<Evidence>, inventoryReady: bool, start: Instant, end: Instant)

  datatype ReconciliationError = MissingIdentity | InventoryUnavailable

  datatype Reconciliation =
    | NoCandidates
    | ReconciliationFailed(error: ReconciliationError)
    | ReconciliationCompleted(records: seq<Record>, resolutions: seq<Resolution>)

  predicate TrimmedEvidenceLess(a: Evidence, b: Evidence) {
    var id0, id1, uid0, uid1 :=
      Text.TrimSpace(a.id), Text.TrimSpace(b.id), Text.TrimSpace(a.targetUID), Text.TrimSpace(b.targetUID);
    if id0 != id1 then Text.Less(id0, id1) else if uid0 != uid1 then Text.Less(uid0, uid1) else a.start < b.start
  }

  predicate RecordLess(a: Record, b: Record) {
    if a.diagnosticID != b.diagnosticID then Text.Less(a.diagnosticID, b.diagnosticID)
    else if a.diagnosticVersion != b.diagnosticVersion then Text.Less(a.diagnosticVersion, b.diagnosticVersion)
    else if a.candidate.id != b.candidate.id then Text.Less(a.candidate.id, b.candidate.id)
    else Text.Less(a.candidate.statement, b.candidate.statement)
  }

  function SortedEvidence(input: Input): seq<Evidence> {
    Sorting.StableSort(input.evidence, TrimmedEvidenceLess)
  }

  function RecordOf(input: Input, result: DiagnosticResult, c: Candidate): Record {
    Record(Text.TrimSpace(result.diagnosticID), Text.TrimSpace(result.diagnosticVersion), input.start, input.end,
           Candidate(Text.TrimSpace(c.id), c.kind, Text.TrimSpace(c.statement), Text.TrimSpace(c.targetUID),
                     Sorting.StableSort(c.evidenceRefs, Text.Less)),
           SortedEvidence(input))
  }

  function RecordsOfClaims(input: Input, result: DiagnosticResult, claims: seq<Candidate>): (rs: seq<Record>)
    ensures |rs| == |claims| && forall i :: 0 <= i < |rs| ==> rs[i] == RecordOf(input, result, claims[i])
  {
    seq(|claims|, i requires 0 <= i < |claims| => RecordOf(input, result, claims[i]))
  }

  function RecordsOf(input: Input, results: seq<DiagnosticResult>): seq<Record> {
    if results == [] then []
    else
      var last := results[|results| - 1];
      RecordsOf(input, results[..|results| - 1]) + RecordsOfClaims(input, last, last.claims)
  }

  predicate Nameless(result: DiagnosticResult) {
    result.claims != []
    && (Text.TrimSpace(result.diagnosticID) == "" || Text.TrimSpace(result.diagnosticVersion) == "")
  }

  function Reconcile(d: Digests, input: Input): Reconciliation {
    var records := RecordsOf(input, input.diagnostics);
    if exists i :: 0 <= i < |input.diagnostics| && Nameless(input.diagnostics[i]) then ReconciliationFailed(MissingIdentity)
    else if records == [] then NoCandidates
    else if !input.inventoryReady then ReconciliationFailed(InventoryUnavailable)
    else
      var sorted := Sorting.StableSort(records, RecordLess);
      ReconciliationCompleted(sorted, Account(d, sorted))
  }

  method RecordClaims(input: Input, result: DiagnosticResult, evidence: seq<Evidence>) returns (records: seq<Record>)
    requires evidence == SortedEvidence(input)
    ensures records == RecordsOfClaims(input, result, result.claims)
  {
    hide Text.TrimSpace, SortedEvidence;
    records := [];
    for k := 0 to |result.claims|
      invariant |records| == k && forall j :: 0 <= j < k ==> records[j] == RecordOf(input, result, result.claims[j])
    {
      var c := result.claims[k];
      var refs := Sorting.StableSort(c.evidenceRefs, Text.Less);
      records := records + [
        Record(Text.TrimSpace(result.diagnosticID), Text.TrimSpace(result.diagnosticVersion), input.start, input.end,
               Candidate(Text.TrimSpace(c.id), c.kind, Text.TrimSpace(c.statement), Text.TrimSpace(c.targetUID), refs),
               evidence)];
    }
  }

  /** The records of all claims, unless a result with claims does not name its diagnostic. */
  method CollectRecords(input: Input) returns (records: seq<Record>, nameless: bool)
    ensures nameless <==> exists i :: 0 <= i < |input.diagnostics| && Nameless(input.diagnostics[i])
    ensures !nameless ==> records == RecordsOf(input, input.diagnostics)
  {
    hide Text.TrimSpace, SortedEvidence, RecordsOfClaims;
    var evidence := SortEvidence(input);
    records := [];
    for i := 0 to |input.diagnostics|
      invariant records == RecordsOf(input, input.diagnostics[..i])
      invariant forall j :: 0 <= j < i ==> !Nameless(input.diagnostics[j])
    {
      assert input.diagnostics[..i + 1][..i] == input.diagnostics[..i];
      var result := input.diagnostics[i];
      if |result.claims| == 0 {
        assert RecordsOfClaims(input, result, result.claims) == [];
        continue;
      }
      if Text.TrimSpace(result.diagnosticID) == "" || Text.TrimSpace(result.diagnosticVersion) == "" {
        return [], true;
      }
      var claimed := RecordClaims(input, result, evidence);
      records := records + claimed;
    }
    assert input.diagnostics[..|input.diagnostics|] == input.diagnostics;
    nameless := false;
  }

  method SortEvidence(input: Input) returns (evidence: seq<Evidence>)
    ensures evidence == SortedEvidence(input)
  {
    evidence := Sorting.StableSort(input.evidence, TrimmedEvidenceLess);
  }

  method ReconcileDiagnosticCandidates(d: Digests, input: Input) returns (r: Reconciliation)
    ensures r == Reconcile(d, input)
  {
    hide Account, RecordLess, RecordsOf, Nameless;
    var records, nameless := CollectRecords(input);
    if nameless {
      return ReconciliationFailed(MissingIdentity);
    }
    if |records| == 0 {
      return NoCandidates;
    }
    if !input.inventoryReady {
      return ReconciliationFailed(InventoryUnavailable);
    }
    records := Sorting.StableSort(records, RecordLess);
    var account := AccountCandidates(d, records);
    return ReconciliationCompleted(records, account.resolutions);
  }
}
