/**
  A separator inside a reference and at the end of a UID, by example: two candidates that the fingerprint cannot tell
  apart and validation can, over an inventory that a collection gives.
 */
module SeparatorExamples {
  import opened Wrappers
  import opened Accounting
  import opened AccountingTheorems
  import opened AccountingOrder
  import opened EvidenceGates
  import opened ShadowVerifier
  import opened GateAgreement
  import Sorting
  import Text

  /** The one piece of evidence, without an incident window: "a" is about "b|", and nothing is known of "a|b". */
  const PIECE := Evidence("a", "b|", NO_INSTANT, NO_INSTANT, true, true, false)

  const COLLECTED := Collection([EvidenceRef("a", "", "", "", "", false)], [])

  function Claim(target: string, ref: string): Candidate {
    Candidate("c", RootCause, "s", target, [ref])
  }

  function Example(target: string, ref: string): Record {
    Record("d", "v", NO_INSTANT, NO_INSTANT, Claim(target, ref), [PIECE])
  }

  lemma ExampleIsTrimmed()
    ensures Text.TrimSpace("a") == "a" && Text.TrimSpace("a|b") == "a|b" && Text.TrimSpace("d") == "d"
    ensures Text.TrimSpace("v") == "v" && Text.TrimSpace("c") == "c" && Text.TrimSpace("s") == "s"
    ensures Text.TrimSpace("t") == "t" && Text.TrimSpace("b|") == "b|"
  {
    hide Text.TrimSpace;
    Text.TrimmedStays("a");
    Text.TrimmedStays("a|b");
    Text.TrimmedStays("d");
    Text.TrimmedStays("v");
    Text.TrimmedStays("c");
    Text.TrimmedStays("s");
    Text.TrimmedStays("t");
    Text.TrimmedStays("b|");
  }

  lemma PieceIsTheEntry()
    ensures EntriesFor(COLLECTED.evidenceRefs[0], [], Scope("b|", NO_INSTANT, NO_INSTANT)) == [PIECE]
  {
    hide Text.TrimSpace;
    ExampleIsTrimmed();
  }

  /** The collection gives exactly that piece. */
  lemma CollectedPiece()
    ensures Inventory(COLLECTED, ["b|"], NO_INSTANT, NO_INSTANT) == [PIECE]
  {
    hide Text.TrimSpace, EvidenceLess, EntriesFor, Compacted, Sorting.StableSort;
    ExampleIsTrimmed();
    PieceIsTheEntry();
    var refs, whole := COLLECTED.evidenceRefs, Scope("b|", NO_INSTANT, NO_INSTANT);
    assert refs[..0] == [] && AllEntries([], [], whole) == [];
    assert AllEntries(refs, [], whole) == [] + [PIECE];
    Sorting.SortOfOne(PIECE, EvidenceLess);
    NothingCompacted();
    CompactedNext([], PIECE);
    assert [] + [PIECE] == [PIECE];
  }

  lemma NothingCompacted()
    ensures Compacted([]) == []
  {
  }

  lemma ExampleVerdict(d: Digests, target: string, ref: string)
    requires (target == "t" || target == "b|") && (ref == "a" || ref == "a|b")
    ensures Validated(d, Example(target, ref)) ==
            if ref == "a|b" then Rejection(EvidenceReferenceNotFound)
            else if target == "t" then Rejection(EvidenceTargetUIDMismatch)
            else Verdict(ProposedClaim, CandidateAcceptedForVerification, true)
    ensures Describe(d, [PIECE], ref) == "a|b|||"
  {
    hide Text.TrimSpace;
    ExampleIsTrimmed();
    assert [PIECE][..0] == [];
    assert FirstIdentity([PIECE], ref) == if ref == "a" then Some(PIECE) else None;
    assert FirstFault(d, Example(target, ref), 1) == RefFault(d, Example(target, ref), ref);
    assert "a" + "|" + "b|" + "|" + "" + "|" + "" == "a|b|||" == "a|b" + "|" + "" + "|" + "" + "|" + "";
  }

  /** Whatever the reference, the candidate has the same content. */
  lemma ExampleBase(d: Digests, target: string, ref: string)
    requires (target == "t" || target == "b|") && (ref == "a" || ref == "a|b")
    ensures var base, verdict := Base(d, Example(target, ref)), Validated(d, Example(target, ref));
            base.res.candidateID == "c" && base.eligible == verdict.eligible
            && base.res.disposition == verdict.disposition && base.res.reason == verdict.reason
            && base.res.candidateFingerprint == d.candidate(CandidateContent(
                 "d", "v", "c", RootCause, NormalizeStatement("s"), target, "", "", ["a|b|||"]))
  {
    hide Text.TrimSpace, Validated, Describe, NormalizeStatement, Text.Less;
    ExampleIsTrimmed();
    ExampleVerdict(d, target, ref);
    assert [ref][..0] == [] && FirstOccurrences([ref]) == [ref];
    Sorting.SortOfOne(ref, Text.Less);
    assert UniqueStrings([ref]) == [ref];
    assert Normalized(Example(target, ref)) == Example(target, ref);
    assert DescribeAll(d, [PIECE], [ref]) == ["a|b|||"];
    Sorting.SortOfOne("a|b|||", Text.Less);
  }

  // --------------------------------------------------------------------- order

  /** A separator can make the account follow the order of the input, whatever the digests. */
  lemma SeparatorInIDsMatters(d: Digests)
    ensures Inventory(COLLECTED, ["b|"], NO_INSTANT, NO_INSTANT) == [PIECE]
    ensures !OrderDoesNotMatter(d, [Example("t", "a"), Example("t", "a|b")])
  {
    hide Base, Account, Example, Inventory, NormalizeStatement, Validated;
    CollectedPiece();
    var r, s := Example("t", "a"), Example("t", "a|b");
    ExampleBase(d, "t", "a");
    ExampleBase(d, "t", "a|b");
    ExampleVerdict(d, "t", "a");
    ExampleVerdict(d, "t", "a|b");
    assert Torn(d, [r, s], r, s);
    var others := TornFollowsOrder(d, [r, s], r, s);
  }

  // --------------------------------------------------------------------- gates

  const DIAGNOSTICS := [DiagnosticResult("d", "v", [Claim("b|", "a|b"), Claim("b|", "a")])]

  lemma ClaimIsTheExample(input: Input, ref: string)
    requires input == Input(DIAGNOSTICS, [PIECE], true, NO_INSTANT, NO_INSTANT)
    ensures RecordOf(input, DIAGNOSTICS[0], Claim("b|", ref)) == Example("b|", ref)
  {
    hide Text.TrimSpace, TrimmedEvidenceLess, Text.Less;
    ExampleIsTrimmed();
    Sorting.SortOfOne(PIECE, TrimmedEvidenceLess);
    Sorting.SortOfOne(ref, Text.Less);
  }

  lemma RecordsTie()
    ensures !RecordLess(Example("b|", "a"), Example("b|", "a|b"))
  {
    Text.LessIrreflexive("s");
  }

  lemma ExampleRecords(input: Input)
    requires input == Input(DIAGNOSTICS, [PIECE], true, NO_INSTANT, NO_INSTANT)
    ensures RecordsOf(input, DIAGNOSTICS) == [Example("b|", "a|b"), Example("b|", "a")]
  {
    hide RecordOf, Example, Claim;
    var x, y := Example("b|", "a|b"), Example("b|", "a");
    ClaimIsTheExample(input, "a|b");
    ClaimIsTheExample(input, "a");
    assert RecordsOfClaims(input, DIAGNOSTICS[0], DIAGNOSTICS[0].claims) == [x, y];
    assert DIAGNOSTICS[..0] == [] && [] + [x, y] == [x, y];
  }

  lemma ExampleReconciliation(d: Digests)
    ensures var records := [Example("b|", "a|b"), Example("b|", "a")];
            CollectAndReconcile(d, COLLECTED, ["b|"], DIAGNOSTICS, NO_INSTANT, NO_INSTANT)
            == ReconciliationCompleted(records, Account(d, records))
  {
    hide Text.TrimSpace, Account, Inventory, RecordsOf, RecordLess, Example, Claim, Sorting.StableSort;
    CollectedPiece();
    ExampleIsTrimmed();
    ExampleRecords(Input(DIAGNOSTICS, [PIECE], true, NO_INSTANT, NO_INSTANT));
    RecordsTie();
    Sorting.SortOfTwo(Example("b|", "a|b"), Example("b|", "a"), RecordLess);
  }

  /** The second of two items is proposed if the first is not eligible. */
  lemma SecondLeads(items: seq<Item>)
    requires |items| == 2 && !items[0].eligible && items[1].eligible
    ensures ResolutionOf(items, 1) == Proposed(items[1])
  {
    hide KeyLess;
    assert Leader(items, items[1].res.claimFingerprint, 1) == None;
  }

  /**
    A separator can make the second gate refuse a proposal without any blank reference: it is looked up as another
    record of its ID and fingerprint, whose own evidence is not known.
   */
  lemma SeparatorCanSplitTheGates(d: Digests) returns (p: Resolution)
    requires Injective(d)
    ensures var rec := CollectAndReconcile(d, COLLECTED, ["b|"], DIAGNOSTICS, NO_INSTANT, NO_INSTANT);
            rec.ReconciliationCompleted? && p in rec.resolutions && p.disposition == ProposedClaim
            && !RefsClash(COLLECTED.evidenceRefs) && !Passes(rec.records, COLLECTED.evidenceRefs, p)
            && FirstRecord(rec.records, p.candidateID).Some?
            && !HasBlankRef(FirstRecord(rec.records, p.candidateID).value)
  {
    hide Account, Base, Injective, Passes, CollectAndReconcile, Validated, NormalizeStatement, ResolutionOf, Text.TrimSpace;
    var x, y := Example("b|", "a|b"), Example("b|", "a");
    ExampleIsTrimmed();
    ExampleReconciliation(d);
    ExampleBase(d, "b|", "a|b");
    ExampleBase(d, "b|", "a");
    ExampleVerdict(d, "b|", "a|b");
    ExampleVerdict(d, "b|", "a");
    var items := Items(d, [x, y]);
    assert items == [Base(d, x), Base(d, y)];
    SecondLeads(items);
    p := ResolutionOf(items, 1);
    ToItem(d, [x, y], 1);
    assert FirstRecord([x, y], "c") == Some(x) by {
      assert [x, y][..1] == [x] && [x][..0] == [];
      assert FirstRecord([x], "c") == Some(x);
    }
    GatesAgree(d, COLLECTED, ["b|"], DIAGNOSTICS, NO_INSTANT, NO_INSTANT, p);
  }
}
