/** What the function scanner finds, said by positions instead of scanning. */
module PromQLTokens {
  import opened Wrappers
  import opened PromQL
  import Text

  predicate PartAt(q: string, k: int) {
    0 <= k < |q| && IdentifierPart(q[k])
  }

  predicate StartAt(q: string, k: int) {
    0 <= k < |q| && IdentifierStart(q[k])
  }

  /** A run of identifier characters starts at or before s and has had no identifier start in it yet. */
  predicate Fresh(q: string, s: int) {
    0 <= s <= |q|
    && exists r :: 0 <= r <= s && !PartAt(q, r - 1) && Unstarted(q, r, s)
  }

  predicate Unstarted(q: string, r: int, s: int) {
    forall k :: r <= k < s ==> PartAt(q, k) && !StartAt(q, k)
  }

  /** The name from s to e: from the first identifier start of a run to the end of the run. */
  predicate Name(q: string, s: int, e: int) {
    Fresh(q, s) && s < e <= |q| && StartAt(q, s) && (forall k :: s <= k < e ==> PartAt(q, k)) && !PartAt(q, e)
  }

  predicate Calling(q: string, s: int, e: int, name: string) {
    Name(q, s, e) && name == Text.ToLower(q[s..e]) && IsCall(name, q[e..])
  }

  lemma {:induction false} RunIsMaximal(q: string)
    ensures Run(q) == q[..|Run(q)|]
    ensures forall k :: 0 <= k < |Run(q)| ==> IdentifierPart(q[k])
    ensures |Run(q)| < |q| ==> !IdentifierPart(q[|Run(q)|])
  {
    if q != "" && IdentifierPart(q[0]) {
      RunIsMaximal(q[1..]);
      assert q[..|Run(q)|] == [q[0]] + q[1..][..|Run(q[1..])|];
      assert forall k :: 0 < k < |q| ==> q[k] == q[1..][k - 1];
    }
  }

  lemma FreshNext(q: string, i: nat)
    requires i < |q| && !IdentifierStart(q[i]) && (Fresh(q, i) || !IdentifierPart(q[i]))
    ensures Fresh(q, i + 1)
  {
    if IdentifierPart(q[i]) {
      var r :| 0 <= r <= i && !PartAt(q, r - 1) && Unstarted(q, r, i);
      assert Unstarted(q, r, i + 1);
    } else {
      assert Unstarted(q, i + 1, i + 1);
    }
  }

  /** No name starts inside a name, nor where it ends. */
  lemma NoNameInside(q: string, i: nat, e: nat, s: int)
    requires Name(q, i, e) && i < s <= e
    ensures !Fresh(q, s)
  {
    forall r | 0 <= r <= s && Unstarted(q, r, s)
      ensures PartAt(q, r - 1)
    {
      assert r <= i ==> !StartAt(q, i);
    }
  }

  lemma NameEndsOnce(q: string, s: int, e: int, f: int)
    requires Name(q, s, e) && Name(q, s, f)
    ensures e == f
  {
    assert e < f ==> PartAt(q, e);
    assert f < e ==> PartAt(q, f);
  }

  ghost predicate CallingFrom(q: string, i: nat, name: string) {
    exists s, e :: i <= s && Calling(q, s, e, name)
  }

  lemma NameAtFront(q: string, i: nat) returns (e: nat)
    requires i < |q| && Fresh(q, i) && IdentifierStart(q[i])
    ensures i < e <= |q| && q[i..e] == Run(q[i..]) && Name(q, i, e)
  {
    var rest := q[i..];
    RunIsMaximal(rest);
    e := i + |Run(rest)|;
    assert q[i..e] == rest[..|Run(rest)|];
    forall k | i <= k < e
      ensures PartAt(q, k)
    {
      assert q[k] == rest[k - i];
    }
    assert e < |q| ==> q[e] == rest[e - i];
  }

  /** From any place where the scan can stand, it finds exactly the called names from there on. */
  lemma {:induction false} CallsFrom(q: string, i: nat, name: string)
    requires i <= |q| && (Fresh(q, i) || (i < |q| && !IdentifierPart(q[i])) || i == |q|)
    ensures name in Calls(q[i..]) <==> CallingFrom(q, i, name)
    decreases |q| - i
  {
    hide IsCall, Calls, Run, Text.ToLower, Fresh;
    if i == |q| {
      assert q[i..] == "";
      NothingCalls();
    } else if !IdentifierStart(q[i]) {
      CallsStep(q, i, i);
      FreshNext(q, i);
      CallsFrom(q, i + 1, name);
    } else {
      var e := NameAtFront(q, i);
      CallsStep(q, i, e);
      CallsFrom(q, e, name);
      NamesFromHere(q, i, e, name);
    }
  }

  lemma NothingCalls()
    ensures Calls("") == []
  {
  }

  lemma NamesFromHere(q: string, i: nat, e: nat, name: string)
    requires Name(q, i, e)
    ensures CallingFrom(q, i, name) <==> Calling(q, i, e, name) || CallingFrom(q, e, name)
  {
    hide IsCall, Text.ToLower;
    if CallingFrom(q, i, name) && !CallingFrom(q, e, name) {
      var s, f :| i <= s && Calling(q, s, f, name);
      if s > i {
        NoNameInside(q, i, e, s);
      } else {
        NameEndsOnce(q, s, e, f);
      }
    }
  }

  /** The scan of the whole query finds exactly the called names. */
  lemma CallsAreTheCalledNames(q: string, name: string)
    ensures name in Calls(q) <==> exists s, e :: Calling(q, s, e, name)
  {
    hide IsCall, Calls, Text.ToLower;
    assert Unstarted(q, 0, 0);
    assert q[0..] == q;
    CallsFrom(q, 0, name);
    if s, e :| Calling(q, s, e, name) {
      assert 0 <= s;
    }
  }

  // -------------------------------------------------------------- without repeats

  lemma {:induction false} FirstsKeepMembers(xs: seq<string>)
    ensures forall x :: x in Firsts(xs) <==> x in xs
    ensures forall i, j :: 0 <= i < j < |Firsts(xs)| ==> Firsts(xs)[i] != Firsts(xs)[j]
  {
    if xs != [] {
      assert xs == xs[..|xs| - 1] + [xs[|xs| - 1]];
      FirstsKeepMembers(xs[..|xs| - 1]);
    }
  }

  /** Position k of the result is a first occurrence, later than that of every position before it. */
  lemma {:induction false} FirstsKeepOrder(xs: seq<string>, k: nat) returns (i: nat)
    requires k < |Firsts(xs)|
    ensures i < |xs| && xs[i] == Firsts(xs)[k] && xs[i] !in xs[..i]
    ensures forall l :: 0 <= l < k ==> Firsts(xs)[l] in xs[..i]
  {
    var front := xs[..|xs| - 1];
    if k < |Firsts(front)| {
      i := FirstsKeepOrder(front, k);
      assert xs[..i] == front[..i];
    } else {
      i := |xs| - 1;
      FirstsKeepMembers(front);
      assert forall l :: 0 <= l < k ==> Firsts(xs)[l] == Firsts(front)[l];
    }
  }

  /** A name is called at a position. */
  ghost predicate Called(q: string, s: int, name: string) {
    exists e :: Calling(q, s, e, name)
  }

  /** Names and the positions that they are called at, in increasing order. */
  ghost predicate Located(q: string, names: seq<string>, starts: seq<int>) {
    |starts| == |names|
    && (forall k, l :: 0 <= k < l < |starts| ==> starts[k] < starts[l])
    && forall k :: 0 <= k < |starts| ==> Called(q, starts[k], names[k])
  }

  ghost predicate Listed(names: seq<string>, starts: seq<int>, s: int, name: string) {
    exists k :: 0 <= k < |names| && k < |starts| && starts[k] == s && names[k] == name
  }

  ghost predicate ListsAllFrom(q: string, i: nat, names: seq<string>, starts: seq<int>) {
    (forall k :: 0 <= k < |starts| ==> starts[k] >= i)
    && forall s, name :: s >= i && Called(q, s, name) ==> Listed(names, starts, s, name)
  }

  lemma NothingFromTheEnd(q: string, i: nat)
    requires i == |q|
    ensures Located(q, [], []) && ListsAllFrom(q, i, [], [])
  {
    hide IsCall, Fresh, Text.ToLower;
  }

  lemma NothingHere(q: string, i: nat, names: seq<string>, starts: seq<int>)
    requires i < |q| && !IdentifierStart(q[i]) && ListsAllFrom(q, i + 1, names, starts)
    ensures ListsAllFrom(q, i, names, starts)
  {
    hide IsCall, Fresh, Text.ToLower, Listed;
    forall s, name | s >= i && Called(q, s, name)
      ensures Listed(names, starts, s, name)
    {
      assert s != i;
    }
  }

  lemma LocatedFirst(q: string, i: int, name: string, names: seq<string>, rest: seq<int>)
    requires Located(q, names, rest) && Called(q, i, name) && forall k :: 0 <= k < |rest| ==> rest[k] > i
    ensures Located(q, [name] + names, [i] + rest)
  {
    hide Called;
  }

  /** The scan lists every call from there on, by increasing position. */
  lemma {:induction false} CallsAreLocated(q: string, i: nat) returns (starts: seq<int>)
    requires i <= |q| && (Fresh(q, i) || (i < |q| && !IdentifierPart(q[i])) || i == |q|)
    ensures Located(q, Calls(q[i..]), starts) && ListsAllFrom(q, i, Calls(q[i..]), starts)
    decreases |q| - i
  {
    hide IsCall, Calls, Run, Text.ToLower, Fresh, Located, ListsAllFrom;
    if i == |q| {
      assert q[i..] == "";
      NothingCalls();
      NothingFromTheEnd(q, i);
      starts := [];
    } else if !IdentifierStart(q[i]) {
      CallsStep(q, i, i);
      FreshNext(q, i);
      starts := CallsAreLocated(q, i + 1);
      NothingHere(q, i, Calls(q[i + 1..]), starts);
    } else {
      var e := NameAtFront(q, i);
      CallsStep(q, i, e);
      var rest := CallsAreLocated(q, e);
      var name := Text.ToLower(q[i..e]);
      CallsSplit(q, i, e, Calls(q[e..]), rest);
      if IsCall(name, q[e..]) {
        starts := [i] + rest;
        CalledHere(q, i, e, rest);
        LocatedFirst(q, i, name, Calls(q[e..]), rest);
      } else {
        starts := rest;
        assert [] + Calls(q[e..]) == Calls(q[e..]);
      }
    }
  }

  lemma CalledHere(q: string, i: nat, e: nat, rest: seq<int>)
    requires Name(q, i, e) && i < e && IsCall(Text.ToLower(q[i..e]), q[e..])
    requires ListsAllFrom(q, e, Calls(q[e..]), rest)
    ensures Called(q, i, Text.ToLower(q[i..e])) && forall k :: 0 <= k < |rest| ==> rest[k] > i
  {
    hide IsCall, Text.ToLower, Fresh, Calls, Listed;
    assert Calling(q, i, e, Text.ToLower(q[i..e]));
  }

  lemma CallsSplit(q: string, i: nat, e: nat, names: seq<string>, rest: seq<int>)
    requires Name(q, i, e) && i < e && ListsAllFrom(q, e, names, rest)
    ensures var own := Text.ToLower(q[i..e]);
            if IsCall(own, q[e..]) then ListsAllFrom(q, i, [own] + names, [i] + rest) else ListsAllFrom(q, i, names, rest)
  {
    hide IsCall, Text.ToLower, Fresh;
    var own := Text.ToLower(q[i..e]);
    forall s, name | s >= i && Called(q, s, name)
      ensures if IsCall(own, q[e..]) then Listed([own] + names, [i] + rest, s, name) else Listed(names, rest, s, name)
    {
      var f :| Calling(q, s, f, name);
      if s == i {
        NameEndsOnce(q, s, e, f);
        assert ([own] + names)[0] == name && ([i] + rest)[0] == s;
      } else {
        if s <= e {
          NoNameInside(q, i, e, s);
        }
        var k :| 0 <= k < |names| && k < |rest| && rest[k] == s && names[k] == name;
        assert ([own] + names)[k + 1] == name && ([i] + rest)[k + 1] == s;
      }
    }
  }

  /** Each of the names in xs is at a position no later than where names has it, and that position is one of all. */
  ghost predicate Earliest(xs: seq<string>, starts: seq<int>, names: seq<string>, all: seq<int>) {
    |starts| == |xs| && |all| == |names|
    && (forall k :: 0 <= k < |starts| ==> starts[k] in all)
    && forall k, m :: 0 <= k < |xs| && 0 <= m < |names| && names[m] == xs[k] ==> starts[k] <= all[m]
  }

  lemma OneMoreName(q: string, xs: seq<string>, starts: seq<int>, names: seq<string>, all: seq<int>)
    requires names != [] && Located(q, names, all) && Located(q, xs, starts)
    requires Earliest(xs, starts, names[..|names| - 1], all[..|names| - 1])
    requires forall x :: x in xs <==> x in names[..|names| - 1]
    ensures var n := |names| - 1;
            if names[n] in xs then Earliest(xs, starts, names, all)
            else Located(q, xs + [names[n]], starts + [all[n]]) && Earliest(xs + [names[n]], starts + [all[n]], names, all)
  {
    hide Called;
    var n := |names| - 1;
    var front, prior := names[..n], all[..n];
    forall k | 0 <= k < |starts|
      ensures starts[k] < all[n] && starts[k] in all
    {
      var m :| 0 <= m < n && prior[m] == starts[k];
      assert all[m] == starts[k];
    }
    forall k, m | 0 <= k < |xs| && 0 <= m < |names| && names[m] == xs[k]
      ensures starts[k] <= all[m]
    {
      assert m < n ==> front[m] == names[m] && prior[m] == all[m];
    }
    forall m | 0 <= m < n && names[n] !in xs
      ensures names[m] != names[n]
    {
      assert front[m] in front;
    }
  }

  /** The first occurrences keep the positions of their first calls. */
  lemma {:induction false} FirstsAreLocated(q: string, names: seq<string>, all: seq<int>) returns (starts: seq<int>)
    requires Located(q, names, all)
    ensures Located(q, Firsts(names), starts) && Earliest(Firsts(names), starts, names, all)
  {
    hide Called, Earliest;
    if names == [] {
      starts := [];
      NoneIsEarliest();
    } else {
      var n := |names| - 1;
      FrontLocated(q, names, all);
      var before := FirstsAreLocated(q, names[..n], all[..n]);
      FirstsKeepMembers(names[..n]);
      OneMoreName(q, Firsts(names[..n]), before, names, all);
      starts := if names[n] in Firsts(names[..n]) then before else before + [all[n]];
    }
  }

  lemma NoneIsEarliest()
    ensures Earliest([], [], [], [])
  {
  }

  lemma FrontLocated(q: string, names: seq<string>, all: seq<int>)
    requires names != [] && Located(q, names, all)
    ensures Located(q, names[..|names| - 1], all[..|names| - 1])
  {
    hide Called;
  }

  /** The functions of a query come in the order of their first calls in it. */
  lemma FunctionsComeInOrder(q: string) returns (starts: seq<int>)
    ensures Located(q, Firsts(Calls(q)), starts)
    ensures forall k, s :: 0 <= k < |starts| && Called(q, s, Firsts(Calls(q))[k]) ==> starts[k] <= s
  {
    hide Calls, Firsts, Called, IsCall;
    assert Unstarted(q, 0, 0);
    assert q[0..] == q;
    var all := CallsAreLocated(q, 0);
    starts := FirstsAreLocated(q, Calls(q), all);
    forall k, s | 0 <= k < |starts| && Called(q, s, Firsts(Calls(q))[k])
      ensures starts[k] <= s
    {
      CalledInside(q, s, Firsts(Calls(q))[k]);
      assert Listed(Calls(q), all, s, Firsts(Calls(q))[k]);
    }
  }

  lemma CalledInside(q: string, s: int, name: string)
    requires Called(q, s, name)
    ensures 0 <= s
  {
  }

  /** The functions of a query are its called names, lower-cased, each once. */
  lemma FunctionsAreTheCalledNames(q: string, name: string)
    ensures name in Firsts(Calls(q)) <==> exists s, e :: Calling(q, s, e, name)
  {
    hide Calls, Firsts, Calling;
    CallsAreTheCalledNames(q, name);
    FirstsKeepMembers(Calls(q));
  }

  // ------------------------------------------------------------------- parentheses

  /** Opening minus closing parentheses among the first k characters. */
  function Level(q: string, k: nat): int
    requires k <= |q|
    decreases k
  {
    if k == 0 then 0 else (if q[0] == '(' then 1 else if q[0] == ')' then -1 else 0) + Level(q[1..], k - 1)
  }

  /** The group closes at the first character that takes the level below zero. */
  lemma {:induction false} ClosesAtFirstZero(q: string, depth: nat, k: nat)
    requires 0 < k <= |q| && depth + Level(q, k) < 0
    requires forall j: nat :: j < k ==> depth + Level(q, j) >= 0
    ensures Closed(q, depth) == Some(q[k..])
    decreases |q|
  {
    if k > 1 {
      assert depth + Level(q, 1) >= 0;
      assert Level(q[1..], 0) == 0;
      var inner := depth + Level(q, 1);
      forall j: nat | j < k - 1
        ensures inner + Level(q[1..], j) >= 0
      {
        assert depth + Level(q, j + 1) >= 0;
      }
      ClosesAtFirstZero(q[1..], inner, k - 1);
      assert q[1..][k - 1..] == q[k..];
    } else {
      assert Level(q[1..], 0) == 0;
    }
  }

  /** A group whose level never falls below zero does not close. */
  lemma {:induction false} NeverCloses(q: string, depth: nat)
    requires forall j: nat :: j <= |q| ==> depth + Level(q, j) >= 0
    ensures Closed(q, depth) == None
    decreases |q|
  {
    if q != "" {
      assert depth + Level(q, 1) >= 0;
      assert Level(q[1..], 0) == 0;
      var inner := depth + Level(q, 1);
      forall j: nat | j <= |q| - 1
        ensures inner + Level(q[1..], j) >= 0
      {
        assert depth + Level(q, j + 1) >= 0;
      }
      NeverCloses(q[1..], inner);
    }
  }
}
