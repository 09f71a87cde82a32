/** Accounting gives the same resolutions in every order of its input, and exactly when their sequence is the same too. */
module AccountingOrder {
  import opened Accounting
  import opened AccountingTheorems
  import Sorting
  import Text

  // -------------------------------------------------------------------- the order

  lemma ResolutionOrder()
    ensures Sorting.WeakOrder(ResolutionLess)
  {
    forall a, b | ResolutionLess(a, b)
      ensures !ResolutionLess(b, a)
    {
      if a.candidateFingerprint != b.candidateFingerprint {
        Text.LessAsymmetric(a.candidateFingerprint, b.candidateFingerprint);
      } else if a.candidateID != b.candidateID {
        Text.LessAsymmetric(a.candidateID, b.candidateID);
      }
    }
    forall a, b, c | !ResolutionLess(b, a) && !ResolutionLess(c, b)
      ensures !ResolutionLess(c, a)
    {
      ResolutionChain(a, b, c);
    }
  }

  /** The place of a disposition in the order of their names. */
  function PlaceOf(disposition: Disposition): nat {
    match disposition
    case Deduplicated => 0
    case ProposedClaim => 1
    case Rejected => 2
    case RetainedHypothesis => 3
  }

  /** The account is in the order of candidate fingerprints, then of IDs, then of the names of the dispositions. */
  lemma AccountIsInOrder(d: Digests, records: seq<Record>, i: nat, j: nat)
    requires i < j < |Account(d, records)|
    ensures var a, b := Account(d, records)[i], Account(d, records)[j];
            Text.Less(a.candidateFingerprint, b.candidateFingerprint)
            || (a.candidateFingerprint == b.candidateFingerprint
                && (Text.Less(a.candidateID, b.candidateID)
                    || (a.candidateID == b.candidateID && PlaceOf(a.disposition) <= PlaceOf(b.disposition))))
  {
    hide AllResolutions, Text.Less, Items, ResolutionOf;
    var rs := AllResolutions(AllChecked(Bases(d, records)));
    ResolutionOrder();
    Sorting.SortSorts(rs, ResolutionLess);
    var a, b := Account(d, records)[i], Account(d, records)[j];
    assert !ResolutionLess(b, a);
    Text.LessTotal(a.candidateFingerprint, b.candidateFingerprint);
    Text.LessTotal(a.candidateID, b.candidateID);
  }

  lemma StrictOrEqual(x: string, y: string, z: string)
    requires !Text.Less(y, x) && !Text.Less(z, y)
    ensures !Text.Less(z, x)
    ensures x == z ==> x == y == z
  {
    Text.LessIsNegativelyTransitive(x, y, z);
    Text.LessTotal(x, y);
  }

  lemma ResolutionChain(a: Resolution, b: Resolution, c: Resolution)
    requires !ResolutionLess(b, a) && !ResolutionLess(c, b)
    ensures !ResolutionLess(c, a)
  {
    hide Text.Less;
    Text.LessIrreflexive(a.candidateFingerprint);
    Text.LessIrreflexive(b.candidateFingerprint);
    Text.LessIrreflexive(a.candidateID);
    Text.LessIrreflexive(b.candidateID);
    StrictOrEqual(a.candidateFingerprint, b.candidateFingerprint, c.candidateFingerprint);
    if a.candidateFingerprint == b.candidateFingerprint == c.candidateFingerprint {
      StrictOrEqual(a.candidateID, b.candidateID, c.candidateID);
    }
  }

  // --------------------------------------------------------------- swapping inputs

  predicate SameKey(a: Item, b: Item) {
    a.res.candidateFingerprint == b.res.candidateFingerprint && a.res.candidateID == b.res.candidateID
  }

  /** Two accepted items with one fingerprint and ID. */
  predicate Rivals(a: Item, b: Item) {
    a.eligible && b.eligible && SameKey(a, b)
  }

  /** Such items are equal. */
  ghost predicate KeysDecide(items: seq<Item>) {
    forall i, j :: 0 <= i < |items| && 0 <= j < |items| && Rivals(items[i], items[j]) ==> items[i] == items[j]
  }

  /** A candidate fingerprint covers everything that the claim fingerprint does. */
  lemma FingerprintsNameTheClaim(d: Digests, r: Record, s: Record)
    requires Injective(d) && Base(d, r).res.candidateFingerprint == Base(d, s).res.candidateFingerprint
    ensures Base(d, r).res.claimFingerprint == Base(d, s).res.claimFingerprint
  {
    hide Validated, NormalizeStatement, UniqueStrings, DescribeAll, Text.TrimSpace, CanonicalTime;
    assert CandidateContentOf(d, Normalized(r)) == CandidateContentOf(d, Normalized(s));
  }

  lemma SameVerdictSameBase(d: Digests, r: Record, s: Record)
    requires Injective(d) && SameKey(Base(d, r), Base(d, s))
    requires Base(d, r).res.disposition == Base(d, s).res.disposition && Base(d, r).res.reason == Base(d, s).res.reason
    ensures Base(d, r) == Base(d, s)
  {
    hide Validated, Normalized, FingerprintCandidate, FingerprintClaim, Injective;
    FingerprintsNameTheClaim(d, r, s);
    EligibleExactlyWhenSound(d, Normalized(r));
    EligibleExactlyWhenSound(d, Normalized(s));
  }

  lemma AcceptedReason(d: Digests, r: Record)
    ensures Base(d, r).eligible <==> Base(d, r).res.disposition == ProposedClaim
    ensures Base(d, r).eligible ==> Base(d, r).res.reason == CandidateAcceptedForVerification
  {
    hide Normalized, FingerprintCandidate, FingerprintClaim;
    EligibleExactlyWhenSound(d, Normalized(r));
    NoVerdictIsAConflict(d, Normalized(r));
  }

  lemma ItemsAreDecided(d: Digests, records: seq<Record>)
    requires Injective(d)
    ensures KeysDecide(Items(d, records))
  {
    hide Base, Conflicting, Injective;
    var items := Items(d, records);
    forall i, j | 0 <= i < |items| && 0 <= j < |items| && Rivals(items[i], items[j])
      ensures items[i] == items[j]
    {
      AcceptedReason(d, records[i]);
      AcceptedReason(d, records[j]);
      SameVerdictSameBase(d, records[i], records[j]);
    }
  }

  function Other(i: nat, j: int): int {
    if j == i then i + 1 else if j == i + 1 then i else j
  }

  lemma SwappedAt<T>(xs: seq<T>, i: nat, j: nat)
    requires i + 1 < |xs| && j < |xs|
    ensures Sorting.Swapped(xs, i)[Other(i, j)] == xs[j]
  {
  }

  lemma ConflictsIgnoreSwaps(items: seq<Item>, i: nat, id: string)
    requires i + 1 < |items|
    ensures Conflicting(Sorting.Swapped(items, i), id) <==> Conflicting(items, id)
  {
    var swapped := Sorting.Swapped(items, i);
    forall j | 0 <= j < |items|
      ensures swapped[Other(i, j)] == items[j] && items[Other(i, j)] == swapped[j]
    {
      SwappedAt(items, i, j);
    }
  }

  lemma ItemsFollowSwaps(d: Digests, records: seq<Record>, i: nat)
    requires i + 1 < |records|
    ensures Items(d, Sorting.Swapped(records, i)) == Sorting.Swapped(Items(d, records), i)
  {
    hide Base, Conflicting;
    var bases := Bases(d, records);
    assert Bases(d, Sorting.Swapped(records, i)) == Sorting.Swapped(bases, i);
    forall id
      ensures Conflicting(Sorting.Swapped(bases, i), id) == Conflicting(bases, id)
    {
      ConflictsIgnoreSwaps(bases, i, id);
    }
  }

  /** A neighbour with another key is strictly above or below. */
  lemma OtherKeyIsStrict(a: Item, b: Item)
    requires !SameKey(a, b) && !KeyLess(b, a)
    ensures KeyLess(a, b)
  {
    Text.LessTotal(a.res.candidateFingerprint, b.res.candidateFingerprint);
    Text.LessTotal(a.res.candidateID, b.res.candidateID);
  }

  lemma CanonicalFollowsSwaps(items: seq<Item>, i: nat, claim: string, k: int)
    requires i + 1 < |items| && !Rivals(items[i], items[i + 1]) && IsCanonical(items, claim, k)
    ensures IsCanonical(Sorting.Swapped(items, i), claim, Other(i, k))
  {
    hide KeyLess;
    var swapped, c := Sorting.Swapped(items, i), Other(i, k);
    SwappedAt(items, i, k);
    forall j | Competes(swapped, j, claim)
      ensures !KeyLess(swapped[j], swapped[c])
      ensures j < c ==> KeyLess(swapped[c], swapped[j])
    {
      var was := Other(i, j);
      SwappedAt(items, i, was);
      assert Competes(items, was, claim);
      if j < c && was > k {
        OtherKeyIsStrict(items[k], items[was]);
      }
    }
  }

  lemma LeaderFollowsSwaps(items: seq<Item>, i: nat, j: nat)
    requires i + 1 < |items| && !Rivals(items[i], items[i + 1]) && j < |items|
    ensures ResolutionOf(Sorting.Swapped(items, i), Other(i, j)) == ResolutionOf(items, j)
  {
    hide KeyLess, Leader;
    var swapped := Sorting.Swapped(items, i);
    SwappedAt(items, i, j);
    if items[j].eligible {
      var claim := items[j].res.claimFingerprint;
      assert Competes(items, j, claim);
      LeaderIsCanonical(items, claim, j);
      var k := Leader(items, claim, |items|).value;
      CanonicalFollowsSwaps(items, i, claim, k);
      CanonicalIsTheLeader(swapped, claim, Other(i, k));
      SwappedAt(items, i, k);
    }
  }

  lemma SwapKeepsResolutions(items: seq<Item>, i: nat)
    requires i + 1 < |items| && KeysDecide(items)
    ensures multiset(AllResolutions(Sorting.Swapped(items, i))) == multiset(AllResolutions(items))
  {
    hide ResolutionOf, Leader;
    var swapped := Sorting.Swapped(items, i);
    if Rivals(items[i], items[i + 1]) {
      assert swapped == items;
    } else {
      var rs := AllResolutions(items);
      forall j | 0 <= j < |rs|
        ensures AllResolutions(swapped)[Other(i, j)] == rs[j]
      {
        LeaderFollowsSwaps(items, i, j);
      }
      assert AllResolutions(swapped) == Sorting.Swapped(rs, i);
      Sorting.SwapPermutes(rs, i);
    }
  }

  function Unordered(d: Digests): seq<Record> -> multiset<Resolution> {
    (records: seq<Record>) => multiset(AllResolutions(Items(d, records)))
  }

  /** Whatever the order, the same resolutions come out; only their places may differ. */
  lemma ResolutionsIgnoreSwaps(d: Digests, records: seq<Record>)
    requires Injective(d)
    ensures Sorting.SwapInvariant(Unordered(d), multiset(records))
  {
    hide Items, KeysDecide, AllResolutions, Sorting.Swapped, Injective;
    forall s: seq<Record>, i: nat | multiset(s) == multiset(records) && i + 1 < |s|
      ensures Unordered(d)(s) == Unordered(d)(Sorting.Swapped(s, i))
    {
      ItemsAreDecided(d, s);
      ItemsFollowSwaps(d, s, i);
      SwapKeepsResolutions(Items(d, s), i);
    }
  }

  lemma ResolutionsIgnoreOrder(d: Digests, records: seq<Record>, others: seq<Record>)
    requires Injective(d) && multiset(records) == multiset(others)
    ensures multiset(AllResolutions(Items(d, records))) == multiset(AllResolutions(Items(d, others)))
  {
    hide Items, AllResolutions, Injective, Sorting.SwapInvariant;
    ResolutionsIgnoreSwaps(d, records);
    assert [] + records == records && [] + others == others;
    Sorting.SwapsSuffice(Unordered(d), multiset(records), [], records, others);
  }

  // ------------------------------------------------------- when the sequence is the same

  /** Refusals for one fingerprint, one unconflicted ID and one disposition all give the same reason. */
  ghost predicate Steady(d: Digests, records: seq<Record>) {
    forall r, s :: r in records && s in records ==> !Torn(d, records, r, s)
  }

  /** Two records that the account tells apart by nothing but their reasons. */
  ghost predicate Torn(d: Digests, records: seq<Record>, r: Record, s: Record) {
    var a, b := Base(d, r).res, Base(d, s).res;
    a.candidateFingerprint == b.candidateFingerprint && a.candidateID == b.candidateID
    && !Conflicting(Bases(d, records), a.candidateID) && a.disposition == b.disposition && a.reason != b.reason
  }

  lemma ResolutionTies(d: Digests, records: seq<Record>)
    requires Injective(d) && Steady(d, records)
    ensures Sorting.TiesAreEqual(AllResolutions(Items(d, records)), ResolutionLess)
  {
    hide KeyLess, Leader, Steady, Injective, ResolutionLess, ResolutionOf, Items;
    var rs := AllResolutions(Items(d, records));
    forall a, b | a in rs && b in rs && !ResolutionLess(a, b) && !ResolutionLess(b, a)
      ensures a == b
    {
      var i :| 0 <= i < |rs| && rs[i] == a;
      var j :| 0 <= j < |rs| && rs[j] == b;
      ResolutionTie(d, records, i, j);
    }
  }

  lemma TiedKeys(a: Resolution, b: Resolution)
    requires !ResolutionLess(a, b) && !ResolutionLess(b, a)
    ensures a.candidateFingerprint == b.candidateFingerprint && a.candidateID == b.candidateID
    ensures a.disposition == b.disposition
  {
    hide Text.Less;
    Text.LessTotal(a.candidateFingerprint, b.candidateFingerprint);
    Text.LessTotal(a.candidateID, b.candidateID);
  }

  lemma ResolutionTie(d: Digests, records: seq<Record>, i: nat, j: nat)
    requires Injective(d) && Steady(d, records) && i < |records| && j < |records|
    requires var items := Items(d, records);
             !ResolutionLess(ResolutionOf(items, i), ResolutionOf(items, j))
             && !ResolutionLess(ResolutionOf(items, j), ResolutionOf(items, i))
    ensures ResolutionOf(Items(d, records), i) == ResolutionOf(Items(d, records), j)
  {
    hide KeyLess, Leader, Base, Conflicting, Injective, ResolutionLess, ResolutionOf;
    var items, r, s := Items(d, records), records[i], records[j];
    TiedKeys(ResolutionOf(items, i), ResolutionOf(items, j));
    ItemsAreWellFormed(d, records);
    ResolutionsByItem(items, i);
    ResolutionsByItem(items, j);
    AcceptedReason(d, r);
    AcceptedReason(d, s);
    FingerprintsNameTheClaim(d, r, s);
    if items[i].eligible {
      ItemsAreDecided(d, records);
      TiedAccepted(items, i, j);
    } else {
      RefusedStays(items, i);
      RefusedStays(items, j);
      assert !Torn(d, records, r, s);
      if !Conflicting(Bases(d, records), Base(d, r).res.candidateID) {
        SameVerdictSameBase(d, r, s);
      } else {
        RefusedTwice(d, records, i, j);
      }
    }
  }

  lemma RefusedStays(items: seq<Item>, i: nat)
    requires i < |items| && !items[i].eligible
    ensures ResolutionOf(items, i) == items[i].res
  {
  }

  lemma RefusedTwice(d: Digests, records: seq<Record>, i: nat, j: nat)
    requires i < |records| && j < |records| && SameKey(Base(d, records[i]), Base(d, records[j]))
    requires Base(d, records[i]).res.claimFingerprint == Base(d, records[j]).res.claimFingerprint
    requires Conflicting(Bases(d, records), Base(d, records[i]).res.candidateID)
    ensures Items(d, records)[i] == Items(d, records)[j]
  {
    hide Conflicting, Normalized, Validated, FingerprintCandidate, FingerprintClaim;
  }

  lemma TiedAccepted(items: seq<Item>, i: nat, j: nat)
    requires KeysDecide(items) && WellFormed(items) && i < |items| && j < |items| && items[i].eligible
    requires SameKey(items[i], items[j]) && ResolutionOf(items, i).disposition == ResolutionOf(items, j).disposition
    ensures ResolutionOf(items, i) == ResolutionOf(items, j)
  {
    hide KeyLess;
  }

  /** A stable sort never puts an element that ties with the first one before it. */
  lemma FirstStaysFirst(xs: seq<Resolution>) returns (p: nat)
    requires xs != []
    ensures var sorted := Sorting.StableSort(xs, ResolutionLess);
            p < |sorted| && sorted[p] == xs[0] && forall q :: 0 <= q < p ==> ResolutionLess(sorted[q], xs[0])
  {
    hide ResolutionLess;
    p := InsertedAfterLess(xs[0], Sorting.StableSort(xs[1..], ResolutionLess));
  }

  lemma {:induction false} InsertedAfterLess(x: Resolution, xs: seq<Resolution>) returns (p: nat)
    ensures var r := Sorting.Insert(x, xs, ResolutionLess);
            p < |r| && r[p] == x && forall q :: 0 <= q < p ==> ResolutionLess(r[q], x)
  {
    hide ResolutionLess;
    p := 0;
    if xs != [] && ResolutionLess(xs[0], x) {
      var rest := InsertedAfterLess(x, xs[1..]);
      p := rest + 1;
    }
  }

  /** With a refused record in front, its resolution comes before all that tie with it. */
  lemma FrontOfAccount(d: Digests, records: seq<Record>, i: nat) returns (others: seq<Record>, p: nat)
    requires i < |records| && !Base(d, records[i]).eligible
    requires !Conflicting(Bases(d, records), Base(d, records[i]).res.candidateID)
    ensures multiset(others) == multiset(records)
    ensures p < |Account(d, others)| && Account(d, others)[p] == Base(d, records[i]).res
    ensures forall q :: 0 <= q < p ==> ResolutionLess(Account(d, others)[q], Base(d, records[i]).res)
  {
    hide ResolutionLess, Base, Conflicting, ResolutionOf;
    others := [records[i]] + (records[..i] + records[i + 1..]);
    Sorting.FrontPermutes(records, i);
    var id := Base(d, records[i]).res.candidateID;
    SameConflicts(d, records, others, id);
    RefusedStays(Items(d, others), 0);
    p := FirstStaysFirst(AllResolutions(Items(d, others)));
  }

  lemma SameConflicts(d: Digests, records: seq<Record>, others: seq<Record>, id: string)
    requires multiset(records) == multiset(others)
    ensures Conflicting(Bases(d, records), id) ==> Conflicting(Bases(d, others), id)
    ensures Conflicting(Bases(d, others), id) ==> Conflicting(Bases(d, records), id)
  {
    hide Base;
    Sorting.SameMembers(records, others);
    ConflictsByMembers(d, records, others, id);
    ConflictsByMembers(d, others, records, id);
  }

  lemma ConflictsByMembers(d: Digests, records: seq<Record>, others: seq<Record>, id: string)
    requires forall r :: r in records ==> r in others
    ensures Conflicting(Bases(d, records), id) ==> Conflicting(Bases(d, others), id)
  {
    hide Base;
    var items := Bases(d, records);
    if Conflicting(items, id) {
      var i, j :| 0 <= i < |items| && 0 <= j < |items| && items[i].res.candidateID == id && items[j].res.candidateID == id
                  && items[i].res.candidateFingerprint != items[j].res.candidateFingerprint;
      assert records[i] in others && records[j] in others;
      var k :| 0 <= k < |others| && others[k] == records[i];
      var l :| 0 <= l < |others| && others[l] == records[j];
      assert Bases(d, others)[k] == items[i] && Bases(d, others)[l] == items[j];
    }
  }

  /** Two records that only their reasons tell apart make the account follow the order of its input. */
  lemma TornFollowsOrder(d: Digests, records: seq<Record>, r: Record, s: Record) returns (others: seq<Record>)
    requires r in records && s in records && Torn(d, records, r, s)
    ensures multiset(others) == multiset(records) && Account(d, others) != Account(d, records)
  {
    hide ResolutionLess, Base, Conflicting, Account;
    AcceptedReason(d, r);
    AcceptedReason(d, s);
    var i :| 0 <= i < |records| && records[i] == r;
    var j :| 0 <= j < |records| && records[j] == s;
    var first, p := FrontOfAccount(d, records, i);
    var second, q := FrontOfAccount(d, records, j);
    TornTies(Base(d, r).res, Base(d, s).res);
    assert Account(d, first) != Account(d, second);
    others := if Account(d, first) != Account(d, records) then first else second;
  }

  lemma TornTies(a: Resolution, b: Resolution)
    requires a.candidateFingerprint == b.candidateFingerprint && a.candidateID == b.candidateID
    requires a.disposition == b.disposition
    ensures !ResolutionLess(a, b) && !ResolutionLess(b, a)
  {
    Text.LessIrreflexive(a.candidateFingerprint);
    Text.LessIrreflexive(a.candidateID);
  }

  lemma SteadyAccount(d: Digests, records: seq<Record>, others: seq<Record>)
    requires Injective(d) && Steady(d, records) && multiset(records) == multiset(others)
    ensures Account(d, records) == Account(d, others)
  {
    hide Items, AllResolutions, ResolutionLess, Injective, Steady;
    ResolutionsIgnoreOrder(d, records, others);
    ResolutionTies(d, records);
    ResolutionOrder();
    ItemsUnfold(d, records);
    ItemsUnfold(d, others);
    Sorting.SortIgnoresOrder(AllResolutions(Items(d, records)), AllResolutions(Items(d, others)), ResolutionLess);
  }

  lemma ItemsUnfold(d: Digests, records: seq<Record>)
    ensures Items(d, records) == AllChecked(Bases(d, records))
  {
  }

  ghost predicate OrderDoesNotMatter(d: Digests, records: seq<Record>) {
    forall others: seq<Record> :: multiset(others) == multiset(records) ==> Account(d, others) == Account(d, records)
  }

  /**
    Every order of the input gives the identical sequence of resolutions exactly when no two records of one candidate
    fingerprint and unconflicted ID are refused in the same way for different reasons.
   */
  lemma OrderIgnoredExactlyWhen(d: Digests, records: seq<Record>)
    requires Injective(d)
    ensures OrderDoesNotMatter(d, records) <==> Steady(d, records)
  {
    hide Account, Torn, Injective;
    if Steady(d, records) {
      forall others: seq<Record> | multiset(others) == multiset(records)
        ensures Account(d, others) == Account(d, records)
      {
        SteadyAccount(d, records, others);
      }
    } else {
      var r, s :| r in records && s in records && Torn(d, records, r, s);
      var others := TornFollowsOrder(d, records, r, s);
    }
  }
}
