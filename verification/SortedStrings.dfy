/** Strings in byte order: a sorted list without repeats is decided by its members. */
module SortedStrings {
  import Sorting
  import Text

  lemma TextOrder()
    ensures Sorting.WeakOrder(Text.Less)
  {
    hide Text.Less;
    forall a, b | Text.Less(a, b)
      ensures !Text.Less(b, a)
    {
      Text.LessAsymmetric(a, b);
    }
    forall a, b, c | !Text.Less(b, a) && !Text.Less(c, b)
      ensures !Text.Less(c, a)
    {
      Text.LessIsNegativelyTransitive(a, b, c);
    }
  }

  lemma TextTies(xs: seq<string>)
    ensures Sorting.TiesAreEqual(xs, Text.Less)
  {
    hide Text.Less;
    forall a, b | a in xs && b in xs && !Text.Less(a, b) && !Text.Less(b, a)
      ensures a == b
    {
      Text.LessTotal(a, b);
    }
  }

  ghost predicate Distinct(xs: seq<string>) {
    forall i, j :: 0 <= i < j < |xs| ==> xs[i] != xs[j]
  }

  lemma {:induction false} DistinctMultiset(xs: seq<string>, x: string)
    requires Distinct(xs)
    ensures multiset(xs)[x] == if x in xs then 1 else 0
  {
    if xs != [] {
      assert xs == [xs[0]] + xs[1..];
      DistinctMultiset(xs[1..], x);
    }
  }

  lemma SameDistinctMembers(xs: seq<string>, ys: seq<string>)
    requires Distinct(xs) && Distinct(ys) && forall x :: x in xs <==> x in ys
    ensures multiset(xs) == multiset(ys)
  {
    forall x
      ensures multiset(xs)[x] == multiset(ys)[x]
    {
      DistinctMultiset(xs, x);
      DistinctMultiset(ys, x);
    }
  }

  lemma TwiceCounts(xs: seq<string>, i: nat, j: nat)
    requires i < j < |xs|
    ensures xs[i] == xs[j] ==> multiset(xs)[xs[i]] >= 2
  {
    assert xs == xs[..j] + [xs[j]] + xs[j + 1..];
    assert multiset(xs) == multiset(xs[..j]) + multiset{xs[j]} + multiset(xs[j + 1..]);
    assert xs[i] in xs[..j];
    assert multiset(xs[..j])[xs[i]] >= 1;
  }

  lemma SortedStringsAreUnique(xs: seq<string>, ys: seq<string>)
    requires Distinct(xs) && Distinct(ys) && Sorting.SortedBy(xs, Text.Less) && Sorting.SortedBy(ys, Text.Less)
    requires forall x :: x in xs <==> x in ys
    ensures xs == ys
  {
    hide Text.Less;
    SameDistinctMembers(xs, ys);
    TextTies(xs);
    Sorting.SortedIsUnique(xs, ys, Text.Less);
  }

  lemma SortKeepsDistinct(xs: seq<string>)
    requires Distinct(xs)
    ensures Distinct(Sorting.StableSort(xs, Text.Less))
    ensures Sorting.SortedBy(Sorting.StableSort(xs, Text.Less), Text.Less)
    ensures forall x :: x in Sorting.StableSort(xs, Text.Less) <==> x in xs
  {
    hide Text.Less;
    var sorted := Sorting.StableSort(xs, Text.Less);
    TextOrder();
    Sorting.SortSorts(xs, Text.Less);
    Sorting.SameMembers(xs, sorted);
    forall i, j | 0 <= i < j < |sorted|
      ensures sorted[i] != sorted[j]
    {
      TwiceCounts(sorted, i, j);
      DistinctMultiset(xs, sorted[i]);
    }
  }
}
