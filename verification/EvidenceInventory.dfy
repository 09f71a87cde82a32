/** What the evidence inventory and the reconciled records hold, said by the references, observations and claims. */
module EvidenceInventory {
  import opened Wrappers
  import opened Accounting
  import opened EvidenceGates
  import opened GateAgreement
  import Sorting
  import Text

  // ------------------------------------------------------------------- the inventory

  /** The observation is of a known pod, and names the evidence ID as its own or among its references. */
  predicate Observes(o: Observation, id: string) {
    Text.TrimSpace(o.podUID) != "" && id != ""
    && (Text.TrimSpace(o.id) == id
        || exists k :: 0 <= k < |o.evidenceRefs| && Text.TrimSpace(o.evidenceRefs[k]) == id)
  }

  /** The scope is that of the pod; an unknown bound is that of the incident. */
  predicate OfPod(o: Observation, start: Instant, end: Instant, uid: string, from: Instant, to: Instant) {
    uid == Text.TrimSpace(o.podUID) && from == (if o.start == NO_INSTANT then start else o.start)
    && to == (if o.end == NO_INSTANT then end else o.end)
  }

  lemma {:induction false} NamingsExactlyWhen(names: seq<string>, scope: Scope, id: string, s: Scope)
    ensures s in Namings(names, scope, id) <==>
            s == scope && id != "" && exists k :: 0 <= k < |names| && Text.TrimSpace(names[k]) == id
  {
    hide Text.TrimSpace;
    if names != [] {
      var front, n := names[..|names| - 1], |names| - 1;
      NamingsExactlyWhen(front, scope, id, s);
      assert forall k :: 0 <= k < n ==> front[k] == names[k];
    }
  }

  lemma NamesObserve(o: Observation, id: string)
    requires Text.TrimSpace(o.podUID) != "" && id != ""
    ensures Observes(o, id) <==> exists k :: 0 <= k < |NamesOf(o)| && Text.TrimSpace(NamesOf(o)[k]) == id
  {
    hide Text.TrimSpace;
    var names := NamesOf(o);
    assert names[0] == o.id && forall k :: 0 <= k < |o.evidenceRefs| ==> names[k + 1] == o.evidenceRefs[k];
    if k :| 0 <= k < |names| && Text.TrimSpace(names[k]) == id {
      assert k > 0 ==> o.evidenceRefs[k - 1] == names[k];
    }
  }

  predicate ScopedBy(os: seq<Observation>, start: Instant, end: Instant, id: string, s: Scope, j: int) {
    0 <= j < |os| && Observes(os[j], id) && OfPod(os[j], start, end, s.targetUID, s.start, s.end)
  }

  lemma {:induction false} ScopesExactlyWhen(os: seq<Observation>, start: Instant, end: Instant, id: string, s: Scope)
    requires id != ""
    ensures s in Scopes(os, start, end, id) <==> exists j :: ScopedBy(os, start, end, id, s, j)
  {
    hide Text.TrimSpace, Namings, NamesOf;
    if os != [] {
      var front, n := os[..|os| - 1], |os| - 1;
      ScopesExactlyWhen(front, start, end, id, s);
      var o := os[n];
      if Text.TrimSpace(o.podUID) != "" {
        NamingsExactlyWhen(NamesOf(o), ScopeOf(o, start, end), id, s);
        NamesObserve(o, id);
      }
      if j :| ScopedBy(front, start, end, id, s, j) {
        assert ScopedBy(os, start, end, id, s, j);
      }
      if j :| ScopedBy(os, start, end, id, s, j) {
        assert j < n ==> ScopedBy(front, start, end, id, s, j);
      }
      if s == ScopeOf(o, start, end) && Observes(o, id) {
        assert ScopedBy(os, start, end, id, s, n);
      }
    }
  }

  lemma {:induction false} EntriesExactlyWhen(ref: EvidenceRef, scopes: seq<Scope>, e: Evidence)
    ensures e in Entries(ref, scopes) <==> exists s :: s in scopes && e == Entry(ref, s)
  {
    hide Text.TrimSpace;
    if scopes != [] {
      var front := scopes[..|scopes| - 1];
      assert scopes == front + [scopes[|scopes| - 1]];
      EntriesExactlyWhen(ref, front, e);
    }
  }

  /** The entry is a permitted, valid one under the reference's ID, whole unless the reference was truncated. */
  predicate Under(ref: EvidenceRef, e: Evidence) {
    e.id == Text.TrimSpace(ref.id) != "" && e.authorized && e.valid && (e.incomplete <==> ref.truncated)
  }

  /** No observation tells which pod the ID is about, so the entry is about the one target, for the whole incident. */
  predicate OfTheIncident(c: Collection, uids: seq<string>, start: Instant, end: Instant, e: Evidence) {
    (forall j :: 0 <= j < |c.scheduling| ==> !Observes(c.scheduling[j], e.id))
    && e.targetUID == (if |uids| == 1 then Text.TrimSpace(uids[0]) else "") && e.start == start && e.end == end
  }

  predicate OfAnObservation(c: Collection, start: Instant, end: Instant, e: Evidence, j: int) {
    0 <= j < |c.scheduling| && Observes(c.scheduling[j], e.id)
    && OfPod(c.scheduling[j], start, end, e.targetUID, e.start, e.end)
  }

  ghost predicate Stands(c: Collection, uids: seq<string>, start: Instant, end: Instant, ref: EvidenceRef, e: Evidence) {
    Under(ref, e)
    && (OfTheIncident(c, uids, start, end, e) || exists j :: OfAnObservation(c, start, end, e, j))
  }

  lemma EntryOfScope(ref: EvidenceRef, e: Evidence, s: Scope)
    requires Text.TrimSpace(ref.id) != ""
    ensures e == Entry(ref, s) <==> Under(ref, e) && e.targetUID == s.targetUID && e.start == s.start && e.end == s.end
  {
    hide Text.TrimSpace;
  }

  lemma EntriesForExactlyWhen(
    c: Collection, uids: seq<string>, start: Instant, end: Instant, ref: EvidenceRef, e: Evidence)
    ensures e in EntriesFor(ref, c.scheduling, WholeScope(uids, start, end)) <==> Stands(c, uids, start, end, ref, e)
  {
    hide Text.TrimSpace, Scopes, Entries, Observes, OfPod, Entry, Under;
    var id, whole := Text.TrimSpace(ref.id), WholeScope(uids, start, end);
    UnderHasID(ref, e);
    if id == "" {
      return;
    }
    var scopes := Scopes(c.scheduling, start, end, id);
    forall s
      ensures s in scopes <==> exists j :: ScopedBy(c.scheduling, start, end, id, s, j)
    {
      ScopesExactlyWhen(c.scheduling, start, end, id, s);
    }
    forall j | 0 <= j < |c.scheduling| && Observes(c.scheduling[j], id)
      ensures scopes != []
    {
      ScopeOfIsOfPod(c.scheduling[j], start, end);
      assert ScopedBy(c.scheduling, start, end, id, ScopeOf(c.scheduling[j], start, end), j);
      assert ScopeOf(c.scheduling[j], start, end) in scopes;
    }
    if scopes == [] {
      EntryOfScope(ref, e, whole);
    } else {
      assert scopes[0] in scopes;
      EntriesExactlyWhen(ref, scopes, e);
      EntryOfScope(ref, e, Scope(e.targetUID, e.start, e.end));
      forall s
        ensures e == Entry(ref, s) ==> s == Scope(e.targetUID, e.start, e.end)
      {
        EntryOfScope(ref, e, s);
      }
      var s := Scope(e.targetUID, e.start, e.end);
      assert forall j :: Under(ref, e) ==>
        (ScopedBy(c.scheduling, start, end, id, s, j) <==> OfAnObservation(c, start, end, e, j));
    }
  }

  lemma UnderHasID(ref: EvidenceRef, e: Evidence)
    ensures Under(ref, e) ==> e.id == Text.TrimSpace(ref.id) != ""
  {
  }

  lemma ScopeOfIsOfPod(o: Observation, start: Instant, end: Instant)
    ensures var s := ScopeOf(o, start, end);
            OfPod(o, start, end, s.targetUID, s.start, s.end)
  {
  }

  lemma {:induction false} AllEntriesExactlyWhen(refs: seq<EvidenceRef>, os: seq<Observation>, whole: Scope, e: Evidence)
    ensures e in AllEntries(refs, os, whole) <==> exists i :: 0 <= i < |refs| && e in EntriesFor(refs[i], os, whole)
  {
    hide EntriesFor;
    if refs != [] {
      var front, n := refs[..|refs| - 1], |refs| - 1;
      AllEntriesExactlyWhen(front, os, whole, e);
      assert forall i :: 0 <= i < n ==> front[i] == refs[i];
    }
  }

  /**
    The inventory holds exactly: for each reference with an ID an entry for each observation of a pod that names it, or
    one about the single target of the incident if there is none.
   */
  lemma InventoryExactlyWhen(c: Collection, uids: seq<string>, start: Instant, end: Instant, e: Evidence)
    ensures e in Inventory(c, uids, start, end) <==>
            exists i :: 0 <= i < |c.evidenceRefs| && Stands(c, uids, start, end, c.evidenceRefs[i], e)
  {
    hide EntriesFor, AllEntries, Stands, Compacted, EvidenceLess, WholeScope;
    var whole := WholeScope(uids, start, end);
    var entries := AllEntries(c.evidenceRefs, c.scheduling, whole);
    var sorted := Sorting.StableSort(entries, EvidenceLess);
    Sorting.SameMembers(entries, sorted);
    CompactedMembers(sorted);
    AllEntriesExactlyWhen(c.evidenceRefs, c.scheduling, whole, e);
    forall i | 0 <= i < |c.evidenceRefs|
      ensures e in EntriesFor(c.evidenceRefs[i], c.scheduling, whole) <==>
              Stands(c, uids, start, end, c.evidenceRefs[i], e)
    {
      EntriesForExactlyWhen(c, uids, start, end, c.evidenceRefs[i], e);
    }
  }

  // --------------------------------------------------------------------- the records

  /** The record is of claim k of a diagnostic result, trimmed, with the incident and the inventory of the input. */
  predicate OfClaim(input: Input, i: int, k: int, r: Record) {
    0 <= i < |input.diagnostics| && 0 <= k < |input.diagnostics[i].claims|
    && var claim := input.diagnostics[i].claims[k];
       r.diagnosticID == Text.TrimSpace(input.diagnostics[i].diagnosticID)
       && r.diagnosticVersion == Text.TrimSpace(input.diagnostics[i].diagnosticVersion)
       && r.start == input.start && r.end == input.end
       && r.candidate.id == Text.TrimSpace(claim.id) && r.candidate.kind == claim.kind
       && r.candidate.statement == Text.TrimSpace(claim.statement)
       && r.candidate.targetUID == Text.TrimSpace(claim.targetUID)
       && multiset(r.candidate.evidenceRefs) == multiset(claim.evidenceRefs)
       && multiset(r.evidence) == multiset(input.evidence)
  }

  /** How many claims the results make. */
  function ClaimCount(results: seq<DiagnosticResult>): nat {
    if results == [] then 0 else ClaimCount(results[..|results| - 1]) + |results[|results| - 1].claims|
  }

  /** The record is of some claim of the first n results. */
  ghost predicate OfSomeClaim(input: Input, n: nat, r: Record) {
    exists i, k :: i < n && OfClaim(input, i, k, r)
  }

  /** If there is such a claim, one of the records is of it. */
  ghost predicate Has(input: Input, records: seq<Record>, i: nat, k: nat) {
    i < |input.diagnostics| && k < |input.diagnostics[i].claims| ==> exists r :: r in records && OfClaim(input, i, k, r)
  }

  lemma {:induction false} RecordsOfAll(input: Input, n: nat)
    requires n <= |input.diagnostics|
    ensures |RecordsOf(input, input.diagnostics[..n])| == ClaimCount(input.diagnostics[..n])
    ensures forall r :: r in RecordsOf(input, input.diagnostics[..n]) ==> OfSomeClaim(input, n, r)
    ensures forall i: nat, k: nat :: i < n ==> Has(input, RecordsOf(input, input.diagnostics[..n]), i, k)
  {
    hide OfClaim, SortedEvidence, RecordOf;
    if n > 0 {
      RecordsOfAll(input, n - 1);
      var last, records := input.diagnostics[n - 1], RecordsOf(input, input.diagnostics[..n]);
      var before := RecordsOf(input, input.diagnostics[..n - 1]);
      assert input.diagnostics[..n][..n - 1] == input.diagnostics[..n - 1];
      var own := RecordsOfClaims(input, last, last.claims);
      assert records == before + own;
      forall r | r in records
        ensures OfSomeClaim(input, n, r)
      {
        if r in before {
          assert OfSomeClaim(input, n - 1, r);
        } else {
          var k :| 0 <= k < |own| && own[k] == r;
          RecordIsOfClaim(input, n - 1, k);
        }
      }
      forall i: nat, k: nat | i < n
        ensures Has(input, records, i, k)
      {
        if i < n - 1 {
          assert Has(input, before, i, k);
        } else if k < |own| {
          RecordIsOfClaim(input, n - 1, k);
          assert own[k] in records;
        }
      }
    }
  }

  lemma RecordIsOfClaim(input: Input, i: nat, k: nat)
    requires i < |input.diagnostics| && k < |input.diagnostics[i].claims|
    ensures OfClaim(input, i, k, RecordOf(input, input.diagnostics[i], input.diagnostics[i].claims[k]))
  {
    hide Text.TrimSpace, Text.Less, TrimmedEvidenceLess;
  }

  lemma HasAfterSorting(input: Input, records: seq<Record>, sorted: seq<Record>, i: nat, k: nat)
    requires forall r :: r in records <==> r in sorted
    requires i < |input.diagnostics| ==> Has(input, records, i, k)
    ensures Has(input, sorted, i, k)
  {
    hide OfClaim;
  }

  /** Some result with claims does not name its diagnostic. */
  predicate SomeNameless(input: Input) {
    exists i :: 0 <= i < |input.diagnostics| && input.diagnostics[i].claims != []
                && "" in {Text.TrimSpace(input.diagnostics[i].diagnosticID),
                          Text.TrimSpace(input.diagnostics[i].diagnosticVersion)}
  }

  /** Each end of a reconciliation exactly when, and on completion one record for each claim. */
  lemma ReconcilesExactlyWhen(d: Digests, input: Input)
    ensures var r := Reconcile(d, input);
            && (r == ReconciliationFailed(MissingIdentity) <==> SomeNameless(input))
            && (r == NoCandidates <==> !SomeNameless(input) && ClaimCount(input.diagnostics) == 0)
            && (r == ReconciliationFailed(InventoryUnavailable) <==>
                  !SomeNameless(input) && ClaimCount(input.diagnostics) > 0 && !input.inventoryReady)
            && (r.ReconciliationCompleted? ==>
                  |r.records| == ClaimCount(input.diagnostics)
                  && (forall x :: x in r.records ==> OfSomeClaim(input, |input.diagnostics|, x))
                  && forall i: nat, k: nat :: Has(input, r.records, i, k))
  {
    hide Text.TrimSpace, OfClaim, RecordLess, Account, RecordsOf, OfSomeClaim;
    var n := |input.diagnostics|;
    assert input.diagnostics[..n] == input.diagnostics;
    RecordsOfAll(input, n);
    var records := RecordsOf(input, input.diagnostics);
    var sorted := Sorting.StableSort(records, RecordLess);
    Sorting.SameMembers(records, sorted);
    assert |sorted| == |records|;
    forall i: nat, k: nat
      ensures Has(input, sorted, i, k)
    {
      HasAfterSorting(input, records, sorted, i, k);
    }
    assert forall i :: 0 <= i < n ==>
      (Nameless(input.diagnostics[i]) <==>
         input.diagnostics[i].claims != []
         && "" in {Text.TrimSpace(input.diagnostics[i].diagnosticID),
                   Text.TrimSpace(input.diagnostics[i].diagnosticVersion)});
  }
}
