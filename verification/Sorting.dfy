/** Stable sorting by a strict weak order, as the program's sort.SliceStable gives it, and when its result is unique. */
module Sorting {

  ghost predicate WeakOrder<T(!new)>(less: (T, T) -> bool) {
    && (forall a, b :: less(a, b) ==> !less(b, a))
    && (forall a, b, c :: !less(b, a) && !less(c, b) ==> !less(c, a))
  }

  ghost predicate SortedBy<T>(xs: seq<T>, less: (T, T) -> bool) {
    forall i, j :: 0 <= i < j < |xs| ==> !less(xs[j], xs[i])
  }

  function Insert<T>(x: T, xs: seq<T>, less: (T, T) -> bool): (r: seq<T>)
    ensures multiset(r) == multiset{x} + multiset(xs)
    ensures |r| == |xs| + 1
  {
    if xs == [] || !less(xs[0], x) then [x] + xs
    else
      assert xs == [xs[0]] + xs[1..];
      [xs[0]] + Insert(x, xs[1..], less)
  }

  function StableSort<T>(xs: seq<T>, less: (T, T) -> bool): (r: seq<T>)
    ensures multiset(r) == multiset(xs)
    ensures |r| == |xs|
  {
    if xs == [] then []
    else
      assert xs == [xs[0]] + xs[1..];
      Insert(xs[0], StableSort(xs[1..], less), less)
  }

  lemma SortOfOne<T>(x: T, less: (T, T) -> bool)
    ensures StableSort([x], less) == [x]
  {
    assert [x][1..] == [];
  }

  lemma SortOfTwo<T>(x: T, y: T, less: (T, T) -> bool)
    requires !less(y, x)
    ensures StableSort([x, y], less) == [x, y]
  {
    assert [x, y][1..] == [y];
    SortOfOne(y, less);
  }

  lemma SameMembers<T>(xs: seq<T>, ys: seq<T>)
    requires multiset(xs) == multiset(ys)
    ensures forall x :: x in xs <==> x in ys
    ensures |xs| == |ys|
  {
    forall x
      ensures x in xs <==> x in ys
    {
      assert x in xs <==> x in multiset(xs);
      assert x in ys <==> x in multiset(ys);
    }
    assert |multiset(xs)| == |xs| && |multiset(ys)| == |ys|;
  }

  lemma {:induction false} InsertSorts<T(!new)>(x: T, xs: seq<T>, less: (T, T) -> bool)
    requires WeakOrder(less) && SortedBy(xs, less)
    ensures SortedBy(Insert(x, xs, less), less)
  {
    if xs != [] && less(xs[0], x) {
      InsertSorts(x, xs[1..], less);
      var r := Insert(x, xs[1..], less);
      forall j | 0 <= j < |r|
        ensures !less(r[j], xs[0])
      {
        assert r[j] in multiset(r);
        assert r[j] == x || r[j] in xs[1..];
      }
    }
  }

  lemma {:induction false} SortSorts<T(!new)>(xs: seq<T>, less: (T, T) -> bool)
    requires WeakOrder(less)
    ensures SortedBy(StableSort(xs, less), less)
  {
    if xs != [] {
      SortSorts(xs[1..], less);
      InsertSorts(xs[0], StableSort(xs[1..], less), less);
    }
  }

  /** Elements that the order does not tell apart are equal. */
  ghost predicate TiesAreEqual<T>(xs: seq<T>, less: (T, T) -> bool) {
    forall a, b :: a in xs && b in xs && !less(a, b) && !less(b, a) ==> a == b
  }

  lemma HeadsTie<T>(xs: seq<T>, ys: seq<T>, less: (T, T) -> bool)
    requires xs != [] && ys != [] && SortedBy(xs, less) && SortedBy(ys, less) && ys[0] in xs && xs[0] in ys
    requires TiesAreEqual(xs, less)
    ensures xs[0] == ys[0]
  {
    var i :| 0 <= i < |xs| && xs[i] == ys[0];
    var j :| 0 <= j < |ys| && ys[j] == xs[0];
    if i > 0 && j > 0 {
      assert !less(xs[i], xs[0]) && !less(ys[j], ys[0]);
      assert xs[0] in xs && xs[i] in xs;
    }
  }

  lemma TailsMatch<T>(xs: seq<T>, ys: seq<T>)
    requires xs != [] && ys != [] && xs[0] == ys[0] && multiset(xs) == multiset(ys)
    ensures multiset(xs[1..]) == multiset(ys[1..])
  {
    assert xs == [xs[0]] + xs[1..] && ys == [ys[0]] + ys[1..];
    assert multiset(xs) == multiset{xs[0]} + multiset(xs[1..]);
    assert multiset(ys) == multiset{ys[0]} + multiset(ys[1..]);
    assert multiset(xs[1..]) == multiset(xs) - multiset{xs[0]};
  }

  lemma TailInherits<T>(xs: seq<T>, less: (T, T) -> bool)
    requires xs != []
    ensures SortedBy(xs, less) ==> SortedBy(xs[1..], less)
    ensures TiesAreEqual(xs, less) ==> TiesAreEqual(xs[1..], less)
  {
  }

  /** Sorted arrangements of the same elements are equal when elements that tie are equal. */
  lemma {:induction false} SortedIsUnique<T(!new)>(xs: seq<T>, ys: seq<T>, less: (T, T) -> bool)
    requires multiset(xs) == multiset(ys) && SortedBy(xs, less) && SortedBy(ys, less) && TiesAreEqual(xs, less)
    ensures xs == ys
  {
    hide SortedBy, TiesAreEqual;
    SameMembers(xs, ys);
    if xs != [] {
      assert ys[0] in ys && xs[0] in xs;
      HeadsTie(xs, ys, less);
      TailsMatch(xs, ys);
      TailInherits(xs, less);
      TailInherits(ys, less);
      SortedIsUnique(xs[1..], ys[1..], less);
      assert xs == [xs[0]] + xs[1..] && ys == [ys[0]] + ys[1..];
    }
  }

  /** The input order does not matter where ties are equal. */
  lemma SortIgnoresOrder<T(!new)>(xs: seq<T>, ys: seq<T>, less: (T, T) -> bool)
    requires multiset(xs) == multiset(ys) && WeakOrder(less) && TiesAreEqual(xs, less)
    ensures StableSort(xs, less) == StableSort(ys, less)
  {
    SortSorts(xs, less);
    SortSorts(ys, less);
    SameMembers(xs, StableSort(xs, less));
    SortedIsUnique(StableSort(xs, less), StableSort(ys, less), less);
  }

  /** Element k comes first: nothing is below it, and nothing before it in the input ties with it. */
  ghost predicate First<T>(xs: seq<T>, less: (T, T) -> bool, k: int) {
    0 <= k < |xs|
    && (forall j :: 0 <= j < |xs| ==> !less(xs[j], xs[k]))
    && (forall j :: 0 <= j < k ==> less(xs[k], xs[j]))
  }

  lemma {:induction false} SortStartsWithTheFirst<T(!new)>(xs: seq<T>, less: (T, T) -> bool) returns (k: nat)
    requires WeakOrder(less) && xs != []
    ensures First(xs, less, k) && StableSort(xs, less)[0] == xs[k]
  {
    if |xs| == 1 {
      return 0;
    }
    var m := SortStartsWithTheFirst(xs[1..], less);
    k := if less(xs[m + 1], xs[0]) then m + 1 else 0;
    forall j | 0 <= j < |xs|
      ensures !less(xs[j], xs[k])
      ensures j < k ==> less(xs[k], xs[j])
    {
      if j > 0 {
        assert xs[j] == xs[1..][j - 1];
      }
    }
  }

  // ------------------------------------------------------------------ permutations

  function IndexOf<T(==)>(xs: seq<T>, x: T): (i: nat)
    requires x in xs
    ensures i < |xs| && xs[i] == x
  {
    if xs[0] == x then 0 else 1 + IndexOf(xs[1..], x)
  }

  function Count<T>(xs: seq<T>, p: T -> bool): nat {
    if xs == [] then 0 else (if p(xs[0]) then 1 else 0) + Count(xs[1..], p)
  }

  lemma {:induction false} CountSplits<T>(xs: seq<T>, i: nat, p: T -> bool)
    requires i < |xs|
    ensures Count(xs, p) == (if p(xs[i]) then 1 else 0) + Count(xs[..i] + xs[i + 1..], p)
  {
    if i == 0 {
      assert xs[..0] + xs[1..] == xs[1..];
    } else {
      CountSplits(xs[1..], i - 1, p);
      assert xs[1..][..i - 1] + xs[1..][i..] == (xs[..i] + xs[i + 1..])[1..];
    }
  }

  lemma {:induction false} CountIgnoresOrder<T>(xs: seq<T>, ys: seq<T>, p: T -> bool)
    requires multiset(xs) == multiset(ys)
    ensures Count(xs, p) == Count(ys, p)
  {
    SameMembers(xs, ys);
    if xs != [] {
      var i := IndexOf(ys, xs[0]);
      var rest := ys[..i] + ys[i + 1..];
      CountSplits(ys, i, p);
      WithoutFirst(xs, ys, i);
      CountIgnoresOrder(xs[1..], rest, p);
    }
  }

  lemma WithoutFirst<T>(xs: seq<T>, ys: seq<T>, i: nat)
    requires xs != [] && i < |ys| && ys[i] == xs[0] && multiset(xs) == multiset(ys)
    ensures multiset(xs[1..]) == multiset(ys[..i] + ys[i + 1..])
  {
    var rest := ys[..i] + ys[i + 1..];
    var fronted := [ys[i]] + rest;
    FrontPermutes(ys, i);
    TailsMatch(xs, fronted);
    assert fronted[1..] == rest;
  }

  lemma FrontPermutes<T>(ys: seq<T>, i: nat)
    requires i < |ys|
    ensures multiset([ys[i]] + (ys[..i] + ys[i + 1..])) == multiset(ys)
  {
    assert ys == ys[..i] + ([ys[i]] + ys[i + 1..]);
  }

  lemma {:induction false} CountAppend<T>(xs: seq<T>, x: T, p: T -> bool)
    ensures Count(xs + [x], p) == Count(xs, p) + (if p(x) then 1 else 0)
  {
    if xs == [] {
      assert xs + [x] == [x];
    } else {
      assert (xs + [x])[1..] == xs[1..] + [x];
      CountAppend(xs[1..], x, p);
    }
  }

  /** Exactly one position meets p. */
  lemma {:induction false} CountOfOne<T>(xs: seq<T>, p: T -> bool, i: nat)
    requires i < |xs| && p(xs[i]) && forall j :: 0 <= j < |xs| && p(xs[j]) ==> j == i
    ensures Count(xs, p) == 1
  {
    CountSplits(xs, i, p);
    var rest := xs[..i] + xs[i + 1..];
    forall j | 0 <= j < |rest|
      ensures !p(rest[j])
    {
      assert rest[j] == xs[if j < i then j else j + 1];
    }
    CountOfNone(rest, p);
  }

  lemma {:induction false} CountOfNone<T>(xs: seq<T>, p: T -> bool)
    requires forall j :: 0 <= j < |xs| ==> !p(xs[j])
    ensures Count(xs, p) == 0
  {
    if xs != [] {
      CountOfNone(xs[1..], p);
    }
  }

  function Swapped<T>(xs: seq<T>, i: nat): (r: seq<T>)
    requires i + 1 < |xs|
    ensures |r| == |xs|
  {
    xs[i := xs[i + 1]][i + 1 := xs[i]]
  }

  lemma SwapPermutes<T>(xs: seq<T>, i: nat)
    requires i + 1 < |xs|
    ensures multiset(Swapped(xs, i)) == multiset(xs)
  {
    var r := Swapped(xs, i);
    assert xs == xs[..i] + [xs[i]] + [xs[i + 1]] + xs[i + 2..];
    assert r == xs[..i] + [xs[i + 1]] + [xs[i]] + xs[i + 2..];
  }

  /** A value that no swap of neighbours changes. */
  ghost predicate SwapInvariant<T(!new), X>(f: seq<T> -> X, elements: multiset<T>) {
    forall s: seq<T>, i: nat :: multiset(s) == elements && i + 1 < |s| ==> f(s) == f(Swapped(s, i))
  }

  /** The sequence with its element n moved to the front. */
  function Fronted<T>(xs: seq<T>, n: nat): (r: seq<T>)
    requires n < |xs|
    ensures |r| == |xs|
  {
    [xs[n]] + (xs[..n] + xs[n + 1..])
  }

  lemma FrontedStepwise<T>(xs: seq<T>, n: nat)
    requires n < |xs|
    ensures n == 0 ==> Fronted(xs, n) == xs
    ensures n > 0 ==> Fronted(Swapped(xs, n - 1), n - 1) == Fronted(xs, n)
  {
    if n > 0 {
      var swapped := Swapped(xs, n - 1);
      assert swapped[..n - 1] + swapped[n..] == xs[..n] + xs[n + 1..];
    }
  }

  /** Moving one element to the front past n others. */
  lemma {:induction false} MoveToFront<T(!new), X>(
    f: seq<T> -> X, elements: multiset<T>, before: seq<T>, xs: seq<T>, n: nat)
    requires n < |xs| && multiset(before + xs) == elements && SwapInvariant(f, elements)
    ensures f(before + xs) == f(before + Fronted(xs, n)) && multiset(before + Fronted(xs, n)) == elements
    decreases n
  {
    hide SwapInvariant, Fronted, Swapped;
    FrontedStepwise(xs, n);
    if n > 0 {
      SwapInside(f, elements, before, xs, n - 1);
      MoveToFront(f, elements, before, Swapped(xs, n - 1), n - 1);
    }
  }

  lemma SwapInside<T(!new), X>(f: seq<T> -> X, elements: multiset<T>, before: seq<T>, xs: seq<T>, i: nat)
    requires i + 1 < |xs| && multiset(before + xs) == elements && SwapInvariant(f, elements)
    ensures f(before + xs) == f(before + Swapped(xs, i)) && multiset(before + Swapped(xs, i)) == elements
  {
    assert Swapped(before + xs, |before| + i) == before + Swapped(xs, i);
    SwapPermutes(before + xs, |before| + i);
  }

  /** What no swap of neighbours changes, no permutation changes. */
  lemma {:induction false} SwapsSuffice<T(!new), X>(
    f: seq<T> -> X, elements: multiset<T>, before: seq<T>, xs: seq<T>, ys: seq<T>)
    requires multiset(xs) == multiset(ys) && SwapInvariant(f, elements)
    requires multiset(before + xs) == elements && multiset(before + ys) == elements
    ensures f(before + xs) == f(before + ys)
    decreases |xs|
  {
    hide SwapInvariant;
    SameMembers(xs, ys);
    if xs != [] {
      var n := IndexOf(ys, xs[0]);
      var rest := ys[..n] + ys[n + 1..];
      MoveToFront(f, elements, before, ys, n);
      WithoutFirst(xs, ys, n);
      assert before + xs == before + [xs[0]] + xs[1..];
      assert before + Fronted(ys, n) == before + [xs[0]] + rest;
      SwapsSuffice(f, elements, before + [xs[0]], xs[1..], rest);
    } else {
      assert xs == ys;
    }
  }
}
