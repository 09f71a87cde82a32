/** When candidate fingerprints decide verdicts: one shared inventory, injective digests, and legible descriptions. */
module AccountingInventory {
  import opened Accounting
  import opened AccountingOrder
  import Sorting
  import opened SortedStrings
  import Text

  // ---------------------------------------------------------------- unique strings

  lemma UniqueMembers(values: seq<string>)
    ensures forall s :: s in UniqueStrings(values) <==> Occurs(values, s)
    ensures Distinct(UniqueStrings(values)) && Sorting.SortedBy(UniqueStrings(values), Text.Less)
  {
    hide Occurs, Text.Less;
    FirstOccurrencesMembers(values);
    SortKeepsDistinct(FirstOccurrences(values));
  }

  /** The unique sorted lists of two lists with the same values are equal. */
  lemma SameUniqueStrings(xs: seq<string>, ys: seq<string>)
    requires forall s :: s in UniqueStrings(xs) <==> s in UniqueStrings(ys)
    ensures UniqueStrings(xs) == UniqueStrings(ys)
  {
    hide UniqueStrings, Text.Less;
    UniqueMembers(xs);
    UniqueMembers(ys);
    SortedStringsAreUnique(UniqueStrings(xs), UniqueStrings(ys));
  }

  lemma MembersAreTrimmed(values: seq<string>, s: string)
    requires s in UniqueStrings(values)
    ensures Text.TrimSpace(s) == s && s != ""
  {
    hide UniqueStrings;
    UniqueMembers(values);
    assert Occurs(values, s);
    var i :| 0 <= i < |values| && Text.TrimSpace(values[i]) == s;
    Text.TrimSpaceIdempotent(values[i]);
  }

  lemma UniqueStringsIdempotent(values: seq<string>)
    ensures UniqueStrings(UniqueStrings(values)) == UniqueStrings(values)
  {
    hide UniqueStrings, Text.TrimSpace;
    var unique := UniqueStrings(values);
    UniqueMembers(unique);
    forall s
      ensures s in UniqueStrings(unique) <==> s in unique
    {
      if s in unique {
        MembersAreTrimmed(values, s);
        var i :| 0 <= i < |unique| && unique[i] == s;
        assert Occurs(unique, s);
      } else if Occurs(unique, s) {
        var i :| 0 <= i < |unique| && Text.TrimSpace(unique[i]) == s;
        MembersAreTrimmed(values, unique[i]);
        assert false;
      }
    }
    SameUniqueStrings(unique, values);
  }

  // ------------------------------------------------------------------- descriptions

  /** The text of an evidence reference tells its ID, among these IDs. */
  ghost predicate Legible(d: Digests, evidence: seq<Evidence>, xs: seq<string>, ys: seq<string>) {
    forall x, y :: x in xs && y in ys && Describe(d, evidence, x) == Describe(d, evidence, y) ==> x == y
  }

  /** Neither the IDs nor the UIDs of the inventory hold the separator, nor does the text of an instant. */
  ghost predicate PlainInventory(d: Digests, evidence: seq<Evidence>) {
    (forall e :: e in evidence ==> '|' !in e.id && '|' !in e.targetUID) && (forall t :: '|' !in d.stamp(t))
  }

  lemma PlainIDsAreLegible(d: Digests, evidence: seq<Evidence>, xs: seq<string>, ys: seq<string>)
    requires (forall x :: x in xs ==> '|' !in x) && (forall y :: y in ys ==> '|' !in y)
    ensures Legible(d, evidence, xs, ys)
  {
    hide Describe;
    forall x, y | x in xs && y in ys && Describe(d, evidence, x) == Describe(d, evidence, y)
      ensures x == y
    {
      DescriptionStarts(d, evidence, x);
      DescriptionStarts(d, evidence, y);
    }
  }

  lemma PlainInventoryIsLegible(d: Digests, evidence: seq<Evidence>, xs: seq<string>, ys: seq<string>)
    requires PlainInventory(d, evidence)
    ensures Legible(d, evidence, xs, ys)
  {
    hide Describe, PlainInventory;
    forall x, y | x in xs && y in ys && Describe(d, evidence, x) == Describe(d, evidence, y)
      ensures x == y
    {
      if FirstIdentity(evidence, x).Some? && FirstIdentity(evidence, y).Some? {
        KnownIsPlain(d, evidence, x);
        KnownIsPlain(d, evidence, y);
        DescriptionStarts(d, evidence, x);
        DescriptionStarts(d, evidence, y);
      } else if FirstIdentity(evidence, x).Some? {
        KnownIsPlain(d, evidence, x);
        KnownAndUnknown(d, evidence, x, y);
      } else {
        UnknownDescription(d, evidence, x);
        if FirstIdentity(evidence, y).Some? {
          KnownIsPlain(d, evidence, y);
          KnownAndUnknown(d, evidence, y, x);
        } else {
          UnknownDescription(d, evidence, y);
          LastOfBoth(x + "||", y + "||");
          assert x + "||" == x + "|" + "|" && y + "||" == y + "|" + "|";
          LastOfBoth(x + "|", y + "|");
          LastOfBoth(x, y);
        }
      }
    }
  }

  lemma KnownIsPlain(d: Digests, evidence: seq<Evidence>, id: string)
    requires PlainInventory(d, evidence) && FirstIdentity(evidence, id).Some?
    ensures var e := FirstIdentity(evidence, id).value;
            '|' !in id && '|' !in e.targetUID && '|' !in CanonicalTime(d, e.start) && '|' !in CanonicalTime(d, e.end)
  {
    hide Text.TrimSpace, FirstIdentity;
    FirstIdentityIsFirst(evidence, id);
    var i :| 0 <= i < |evidence| && EvidenceID(evidence[i]) == id
             && FirstIdentity(evidence, id).value == evidence[i].(id := id);
    assert evidence[i] in evidence;
    TrimKeepsPlain(evidence[i].id, '|');
  }

  lemma UnknownDescription(d: Digests, evidence: seq<Evidence>, id: string)
    requires FirstIdentity(evidence, id).None?
    ensures Describe(d, evidence, id) == id + "||" + "|"
  {
    hide FirstIdentity;
    assert "|" + "" + "|" + "" + "|" + "" == "||" + "|";
  }

  lemma LastOfBoth(x: string, y: string)
    ensures x + "|" == y + "|" ==> x == y
  {
    if x + "|" == y + "|" {
      assert (x + "|")[..|x|] == x && (y + "|")[..|y|] == y;
    }
  }

  /** A text that ends in a separator ends in an empty field, if its last field is plain. */
  lemma LastField(x: string, field: string, y: string)
    requires '|' !in field && x + "|" + field == y + "|"
    ensures field == "" && x == y
  {
    assert (y + "|")[|y|] == '|';
    if field != "" {
      LastCharacter(x + "|", field);
    }
    assert x + "|" + "" == x + "|";
    LastOfBoth(x, y);
  }

  lemma LastCharacter(x: string, y: string)
    requires y != ""
    ensures (x + y)[|x + y| - 1] in y
  {
  }

  /** A known plain ID and an unknown ID do not share a description. */
  lemma KnownAndUnknown(d: Digests, evidence: seq<Evidence>, known: string, unknown: string)
    requires FirstIdentity(evidence, known).Some? && FirstIdentity(evidence, unknown).None?
    requires var e := FirstIdentity(evidence, known).value;
             '|' !in e.targetUID && '|' !in CanonicalTime(d, e.start) && '|' !in CanonicalTime(d, e.end)
    ensures Describe(d, evidence, known) != Describe(d, evidence, unknown)
  {
    hide FirstIdentity, CanonicalTime;
    var e := FirstIdentity(evidence, known).value;
    var start, end := CanonicalTime(d, e.start), CanonicalTime(d, e.end);
    if Describe(d, evidence, known) == Describe(d, evidence, unknown) {
      UnknownDescription(d, evidence, unknown);
      LastField(known + "|" + e.targetUID + "|" + start, end, unknown + "||");
      assert unknown + "||" == unknown + "|" + "|";
      LastField(known + "|" + e.targetUID, start, unknown + "|");
      LastField(known, e.targetUID, unknown);
    }
  }

  lemma DescriptionStarts(d: Digests, evidence: seq<Evidence>, id: string)
    requires '|' !in id
    ensures Text.Before(Describe(d, evidence, id), '|') == id
  {
    hide FirstIdentity, CanonicalTime;
    var found := FirstIdentity(evidence, id);
    var identity := if found.Some? then found.value else NO_EVIDENCE;
    FirstField(id, identity.targetUID, CanonicalTime(d, identity.start), CanonicalTime(d, identity.end));
  }

  lemma FirstField(id: string, uid: string, start: string, end: string)
    requires '|' !in id
    ensures Text.Before(id + "|" + uid + "|" + start + "|" + end, '|') == id
  {
    hide Text.Before;
    var rest := uid + "|" + start + "|" + end;
    var whole := id + "|" + uid + "|" + start + "|" + end;
    assert whole[|id| + 1..] == rest;
    assert whole == id + ['|'] + rest;
    Text.BeforeSeparator(id, '|', rest);
  }

  lemma DescribedIDsAreKnown(d: Digests, evidence: seq<Evidence>, xs: seq<string>, ys: seq<string>, id: string)
    requires multiset(DescribeAll(d, evidence, xs)) == multiset(DescribeAll(d, evidence, ys))
    requires Legible(d, evidence, xs, ys) && id in xs
    ensures id in ys
  {
    hide Describe;
    var a, b := DescribeAll(d, evidence, xs), DescribeAll(d, evidence, ys);
    Sorting.SameMembers(a, b);
    var i :| 0 <= i < |xs| && xs[i] == id;
    assert a[i] in b;
    var j :| 0 <= j < |b| && b[j] == a[i];
    assert ys[j] in ys && xs[i] in xs;
  }

  lemma SameDescriptionsSameIDs(d: Digests, evidence: seq<Evidence>, xs: seq<string>, ys: seq<string>)
    requires Sorting.StableSort(DescribeAll(d, evidence, UniqueStrings(xs)), Text.Less)
          == Sorting.StableSort(DescribeAll(d, evidence, UniqueStrings(ys)), Text.Less)
    requires Legible(d, evidence, UniqueStrings(xs), UniqueStrings(ys))
    ensures UniqueStrings(xs) == UniqueStrings(ys)
  {
    hide UniqueStrings, Describe, Text.Less, Legible;
    var a, b := UniqueStrings(xs), UniqueStrings(ys);
    assert multiset(DescribeAll(d, evidence, a)) == multiset(DescribeAll(d, evidence, b));
    LegibleBothWays(d, evidence, a, b);
    forall id
      ensures id in a <==> id in b
    {
      if id in a {
        DescribedIDsAreKnown(d, evidence, a, b, id);
      }
      if id in b {
        DescribedIDsAreKnown(d, evidence, b, a, id);
      }
    }
    SameUniqueStrings(xs, ys);
  }

  lemma LegibleBothWays(d: Digests, evidence: seq<Evidence>, xs: seq<string>, ys: seq<string>)
    requires Legible(d, evidence, xs, ys)
    ensures Legible(d, evidence, ys, xs)
  {
    hide Describe;
  }

  // -------------------------------------------------------- fingerprints and verdicts

  /** No evidence reference of the record holds the separator of the fingerprint. */
  predicate PlainRefs(r: Record) {
    forall k :: 0 <= k < |r.candidate.evidenceRefs| ==> '|' !in r.candidate.evidenceRefs[k]
  }

  lemma TrimKeepsPlain(s: string, c: char)
    requires c !in s
    ensures c !in Text.TrimSpace(s)
  {
    Text.TrimSpaceLeaves(s);
  }

  lemma PlainRefsStayPlain(r: Record)
    requires PlainRefs(r)
    ensures forall x :: x in UniqueStrings(r.candidate.evidenceRefs) ==> '|' !in x
  {
    hide UniqueStrings, Text.TrimSpace;
    UniqueMembers(r.candidate.evidenceRefs);
    forall x | x in UniqueStrings(r.candidate.evidenceRefs)
      ensures '|' !in x
    {
      assert Occurs(r.candidate.evidenceRefs, x);
      var i :| 0 <= i < |r.candidate.evidenceRefs| && Text.TrimSpace(r.candidate.evidenceRefs[i]) == x;
      TrimKeepsPlain(r.candidate.evidenceRefs[i], '|');
    }
  }

  /** Two records that validation cannot tell apart. */
  predicate Alike(a: Record, b: Record) {
    a.diagnosticID == b.diagnosticID && a.diagnosticVersion == b.diagnosticVersion
    && a.start == b.start && a.end == b.end && a.evidence == b.evidence
    && a.candidate.id == b.candidate.id && a.candidate.kind == b.candidate.kind
    && a.candidate.targetUID == b.candidate.targetUID && a.candidate.evidenceRefs == b.candidate.evidenceRefs
    && (a.candidate.statement == "" <==> b.candidate.statement == "")
    && NormalizeStatement(a.candidate.statement) == NormalizeStatement(b.candidate.statement)
  }

  lemma NormalizedIsTrimmed(r: Record)
    ensures var n := Normalized(r);
            Text.TrimSpace(n.diagnosticID) == n.diagnosticID && Text.TrimSpace(n.diagnosticVersion) == n.diagnosticVersion
            && Text.TrimSpace(n.candidate.id) == n.candidate.id
            && Text.TrimSpace(n.candidate.targetUID) == n.candidate.targetUID
            && Text.TrimSpace(n.candidate.statement) == n.candidate.statement
  {
    Text.TrimSpaceIdempotent(r.diagnosticID);
    Text.TrimSpaceIdempotent(r.diagnosticVersion);
    Text.TrimSpaceIdempotent(r.candidate.id);
    Text.TrimSpaceIdempotent(r.candidate.targetUID);
    Text.TrimSpaceIdempotent(r.candidate.statement);
  }

  lemma SameContentIsAlike(d: Digests, r: Record, s: Record)
    requires Injective(d) && r.evidence == s.evidence
    requires Legible(d, r.evidence, UniqueStrings(r.candidate.evidenceRefs), UniqueStrings(s.candidate.evidenceRefs))
    requires CandidateContentOf(d, Normalized(r)) == CandidateContentOf(d, Normalized(s))
    ensures Alike(Normalized(r), Normalized(s))
  {
    hide UniqueStrings, NormalizeStatement, Injective, CanonicalTime, DescribeAll, Legible, Text.TrimSpace, Text.Less;
    var a, b := Normalized(r), Normalized(s);
    NormalizedIsTrimmed(r);
    NormalizedIsTrimmed(s);
    CanonicalTimeIsInjective(d, a.start, b.start);
    CanonicalTimeIsInjective(d, a.end, b.end);
    UniqueStringsIdempotent(r.candidate.evidenceRefs);
    UniqueStringsIdempotent(s.candidate.evidenceRefs);
    SameDescriptionsSameIDs(d, a.evidence, a.candidate.evidenceRefs, b.candidate.evidenceRefs);
    NormalizeStatementKeepsBlank(a.candidate.statement);
    NormalizeStatementKeepsBlank(b.candidate.statement);
  }

  lemma {:induction false} AlikeFaults(d: Digests, a: Record, b: Record, n: nat)
    requires Alike(a, b) && n <= |a.candidate.evidenceRefs|
    ensures FirstFault(d, a, n) == FirstFault(d, b, n)
  {
    hide NormalizeStatement, FirstIdentity, Disputed;
    if n > 0 {
      AlikeFaults(d, a, b, n - 1);
    }
  }

  lemma AlikeVerdicts(d: Digests, a: Record, b: Record)
    requires Alike(a, b)
    ensures Validated(d, a) == Validated(d, b) && FingerprintClaim(d, a) == FingerprintClaim(d, b)
  {
    hide NormalizeStatement, FirstFault, FirstIdentity, Text.TrimSpace;
    AlikeFaults(d, a, b, |a.candidate.evidenceRefs|);
    assert forall ref :: RefIncomplete(a, ref) == RefIncomplete(b, ref);
  }

  /** All records are checked against one inventory, and either no reference or no inventory entry holds a separator. */
  ghost predicate PlainlyShared(d: Digests, records: seq<Record>, inventory: seq<Evidence>) {
    (forall r :: r in records ==> r.evidence == inventory)
    && ((forall r :: r in records ==> PlainRefs(r)) || PlainInventory(d, inventory))
  }

  /** One candidate fingerprint and ID always come with one verdict and one claim. */
  ghost predicate Determined(d: Digests, records: seq<Record>) {
    forall r, s :: r in records && s in records && SameKey(Base(d, r), Base(d, s)) ==> Base(d, r) == Base(d, s)
  }

  lemma SharedIsLegible(d: Digests, records: seq<Record>, inventory: seq<Evidence>, r: Record, s: Record)
    requires PlainlyShared(d, records, inventory) && r in records && s in records
    ensures Legible(d, inventory, UniqueStrings(r.candidate.evidenceRefs), UniqueStrings(s.candidate.evidenceRefs))
  {
    hide PlainRefs, PlainInventory, UniqueStrings, Legible;
    var xs, ys := UniqueStrings(r.candidate.evidenceRefs), UniqueStrings(s.candidate.evidenceRefs);
    if PlainInventory(d, inventory) {
      PlainInventoryIsLegible(d, inventory, xs, ys);
    } else {
      PlainRefsStayPlain(r);
      PlainRefsStayPlain(s);
      PlainIDsAreLegible(d, inventory, xs, ys);
    }
  }

  /** Records that share one inventory have their whole verdict decided by their fingerprint. */
  lemma SharedInventoryDetermines(d: Digests, records: seq<Record>, inventory: seq<Evidence>)
    requires Injective(d) && PlainlyShared(d, records, inventory)
    ensures Determined(d, records)
  {
    hide PlainRefs, Normalized, CandidateContentOf, Validated, ClaimContentOf, Legible, UniqueStrings, PlainInventory;
    forall r, s | r in records && s in records && SameKey(Base(d, r), Base(d, s))
      ensures Base(d, r) == Base(d, s)
    {
      SharedIsLegible(d, records, inventory, r, s);
      SameContentIsAlike(d, r, s);
      AlikeVerdicts(d, Normalized(r), Normalized(s));
      assert Normalized(r).candidate.id == Normalized(s).candidate.id;
    }
  }

  /** The order of candidates that were read against one inventory makes no difference to their account. */
  lemma SharedInventoryIgnoresOrder(d: Digests, records: seq<Record>, inventory: seq<Evidence>)
    requires Injective(d) && PlainlyShared(d, records, inventory)
    ensures OrderDoesNotMatter(d, records)
  {
    hide PlainlyShared, OrderDoesNotMatter, Base, Conflicting, Injective;
    SharedInventoryDetermines(d, records, inventory);
    OrderIgnoredExactlyWhen(d, records);
  }
}
