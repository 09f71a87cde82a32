/** When a PromQL query is allowed, said by positions in the query and the lists of the policy. */
module PromQLDecision {
  import opened Wrappers
  import opened PromQL
  import opened PromQLTokens
  import Text

  // ------------------------------------------------------------------ other features

  /** A closing bracket at j, with none before it. */
  predicate FirstClose(q: string, j: int) {
    0 <= j < |q| && q[j] == ']' && forall k :: 0 <= k < j ==> q[k] != ']'
  }

  /** A colon at k between an opening bracket at i and the first closing bracket after it. */
  predicate ColonInBrackets(q: string, i: int, k: int, j: int) {
    0 <= i < k < j < |q| && q[i] == '[' && q[k] == ':' && q[j] == ']' && forall n :: i < n < j ==> q[n] != ']'
  }

  ghost predicate HasColonInBrackets(q: string) {
    exists i, k, j :: ColonInBrackets(q, i, k, j)
  }

  /** The rest of a pair of brackets that is already open, with a colon in it. */
  ghost predicate ClosesOverColon(q: string, colon: bool) {
    exists j :: FirstClose(q, j) && (colon || ':' in q[..j])
  }

  lemma ShiftedBrackets(q: string)
    requires q != ""
    ensures HasColonInBrackets(q) <==> HasColonInBrackets(q[1..]) || (q[0] == '[' && ClosesOverColon(q[1..], false))
  {
    var rest := q[1..];
    if i, k, j :| ColonInBrackets(q, i, k, j) {
      if i > 0 {
        assert ColonInBrackets(rest, i - 1, k - 1, j - 1);
      } else {
        assert forall n :: 0 <= n < j - 1 ==> rest[n] == q[n + 1];
        assert FirstClose(rest, j - 1) && rest[..j - 1][k - 1] == ':';
      }
    }
    if i, k, j :| ColonInBrackets(rest, i, k, j) {
      assert forall n :: i + 1 < n < j + 1 ==> q[n] == rest[n - 1];
      assert ColonInBrackets(q, i + 1, k + 1, j + 1);
    }
    if q[0] == '[' && ClosesOverColon(rest, false) {
      var j :| FirstClose(rest, j) && ':' in rest[..j];
      var k :| 0 <= k < j && rest[..j][k] == ':';
      assert forall n :: 0 < n < j + 1 ==> q[n] == rest[n - 1];
      assert ColonInBrackets(q, 0, k + 1, j + 1);
    }
  }

  lemma ShiftedClose(q: string, colon: bool)
    requires q != ""
    ensures ClosesOverColon(q, colon) <==>
            if q[0] == ']' then colon else ClosesOverColon(q[1..], colon || q[0] == ':')
  {
    var rest := q[1..];
    if q[0] == ']' {
      assert q[..0] == "";
      if colon {
        assert FirstClose(q, 0);
      }
    } else {
      if j :| FirstClose(q, j) && (colon || ':' in q[..j]) {
        assert FirstClose(rest, j - 1) && q[..j] == [q[0]] + rest[..j - 1];
      }
      if j :| FirstClose(rest, j) && (colon || q[0] == ':' || ':' in rest[..j]) {
        assert forall n :: 0 < n < j + 1 ==> q[n] == rest[n - 1];
        assert FirstClose(q, j + 1) && q[..j + 1] == [q[0]] + rest[..j];
      }
    }
  }

  /** Once the open brackets are closed without a colon, what counts is what follows them. */
  lemma {:induction false} SubqueryExactlyWhen(q: string, inside: bool, colon: bool)
    ensures Subquery(q, inside, colon) <==> HasColonInBrackets(q) || (inside && ClosesOverColon(q, colon))
    decreases |q|
  {
    hide HasColonInBrackets, ClosesOverColon;
    if q == "" {
      NothingInBrackets(colon);
    } else {
      ShiftedBrackets(q);
      ShiftedClose(q, colon);
      if !inside {
        SubqueryExactlyWhen(q[1..], q[0] == '[', false);
      } else if q[0] == ']' {
        SubqueryExactlyWhen(q[1..], false, false);
      } else {
        SubqueryExactlyWhen(q[1..], true, colon || q[0] == ':');
        if q[0] == '[' {
          MoreColon(q[1..], colon || q[0] == ':');
        }
      }
    }
  }

  lemma NothingInBrackets(colon: bool)
    ensures !HasColonInBrackets("") && !ClosesOverColon("", colon)
  {
  }

  lemma MoreColon(q: string, colon: bool)
    ensures ClosesOverColon(q, false) ==> ClosesOverColon(q, colon)
  {
  }

  /** The token stands at i, and no identifier character is beside it. */
  predicate WordAt(q: string, token: string, i: int) {
    0 <= i && i + |token| <= |q| && q[i..i + |token|] == token && !PartAt(q, i - 1) && !PartAt(q, i + |token|)
  }

  /** The token stands in the query; glued tells that a word character comes right before the query. */
  ghost predicate HasWord(q: string, token: string, glued: bool) {
    exists i :: WordAt(q, token, i) && (i == 0 ==> !glued)
  }

  lemma WordBegins(q: string, token: string)
    requires q != "" && token != ""
    ensures WordAt(q, token, 0) <==>
            |token| <= |q| && q[..|token|] == token && (|q| == |token| || !IdentifierPart(q[|token|]))
  {
    if |token| <= |q| {
      assert q[0..0 + |token|] == q[..|token|];
    }
  }

  lemma WordShifts(q: string, token: string, i: int)
    requires q != "" && token != "" && i > 0
    ensures WordAt(q, token, i) <==> WordAt(q[1..], token, i - 1) && (i == 1 ==> !IdentifierPart(q[0]))
  {
    hide IdentifierPart;
    var rest := q[1..];
    if i + |token| <= |q| {
      var a, b := q[i..i + |token|], rest[i - 1..i - 1 + |token|];
      forall k | 0 <= k < |token|
        ensures a[k] == b[k]
      {
        assert rest[i - 1 + k] == q[i + k];
      }
      assert a == b;
    }
  }

  lemma ShiftedWord(q: string, token: string, glued: bool)
    requires q != "" && token != ""
    ensures HasWord(q, token, glued) <==>
            (!glued && WordAt(q, token, 0)) || HasWord(q[1..], token, IdentifierPart(q[0]))
  {
    hide WordAt, IdentifierPart;
    if i :| WordAt(q, token, i) && (i == 0 ==> !glued) {
      if i != 0 {
        WordIsInside(q, token, i);
        WordShifts(q, token, i);
      }
    }
    if i :| WordAt(q[1..], token, i) && (i == 0 ==> !IdentifierPart(q[0])) {
      WordIsInside(q[1..], token, i);
      var k := i + 1;
      assert WordAt(q[1..], token, k - 1);
      WordShifts(q, token, k);
      assert WordAt(q, token, k);
    }
  }

  lemma WordIsInside(q: string, token: string, i: int)
    requires WordAt(q, token, i)
    ensures i >= 0
  {
  }

  lemma {:induction false} WordExactlyWhen(q: string, token: string, glued: bool)
    requires token != ""
    ensures Word(q, token, glued) <==> HasWord(q, token, glued)
    decreases |q|
  {
    if q != "" {
      hide HasWord, WordAt, IdentifierPart;
      WordExactlyWhen(q[1..], token, IdentifierPart(q[0]));
      WordBegins(q, token);
      ShiftedWord(q, token, glued);
    }
  }

  // ------------------------------------------------------------------------- calls

  /** What makes a name a call: the words of the language are none, and an aggregator may have its group in between. */
  lemma CallsExactlyWhen(id: string, rest: string)
    ensures IsCall(id, rest) <==>
            id !in {"bool", "by", "group_left", "group_right", "ignoring", "offset", "on", "without"}
            && (Opens(SkipSpaces(rest))
                || (id in {"sum", "min", "max", "avg", "group", "stddev", "stdvar", "count", "count_values", "bottomk",
                           "topk", "quantile"}
                    && AggregatorCall(SkipSpaces(rest))))
  {
  }

  /** Names start with a letter or an underscore and go on with digits and colons as well. */
  lemma CharactersOfNames(c: char)
    ensures IdentifierStart(c) <==> c == '_' || 'a' <= c <= 'z' || 'A' <= c <= 'Z'
    ensures IdentifierPart(c) <==> IdentifierStart(c) || c == ':' || '0' <= c <= '9'
  {
  }

  /** The first n characters are blanks, and no other one follows them. */
  predicate BlanksBefore(q: string, n: int) {
    0 <= n <= |q| && (forall k :: 0 <= k < n ==> Text.IsSpace(q[k])) && (n < |q| ==> !Text.IsSpace(q[n]))
  }

  lemma {:induction false} SkipsTheBlanks(q: string, n: nat)
    requires BlanksBefore(q, n)
    ensures SkipSpaces(q) == q[n..]
  {
    if n > 0 {
      SkipsTheBlanks(q[1..], n - 1);
      assert q[1..][n - 1..] == q[n..];
    }
  }

  /** A group closes after k characters: they take its level below zero for the first time. */
  predicate ClosesAfter(q: string, k: nat) {
    0 < k <= |q| && Level(q, k) < 0 && forall j: nat :: j < k ==> Level(q, j) >= 0
  }

  lemma {:induction false} SomeFirst(q: string, k: nat) returns (first: nat)
    requires k <= |q| && Level(q, k) < 0
    ensures ClosesAfter(q, first)
  {
    if j: nat :| j < k && Level(q, j) < 0 {
      first := SomeFirst(q, j);
    } else {
      first := k;
    }
  }

  /** A group and another parenthesis: blanks, a group that closes, blanks, and an opening parenthesis. */
  lemma GroupsExactlyWhen(q: string)
    ensures GroupThenOpens(q) <==>
            var after := SkipSpaces(q);
            after != "" && after[0] == '('
            && exists k: nat :: ClosesAfter(after[1..], k)
                                && var rest := SkipSpaces(after[1..][k..]);
                                   rest != "" && rest[0] == '('
  {
    var after := SkipSpaces(q);
    if Opens(after) {
      var inner := after[1..];
      if k: nat :| k <= |inner| && Level(inner, k) < 0 {
        var first := SomeFirst(inner, k);
        ClosesAtFirstZero(inner, 0, first);
        forall l: nat | ClosesAfter(inner, l)
          ensures l == first
        {
        }
      } else {
        NeverCloses(inner, 0);
      }
    }
  }

  /** The query goes on with this word, in any case. */
  predicate GoesOnWith(q: string, word: string) {
    |word| <= |q| && Text.ToLower(q[..|word|]) == word && !PartAt(q, |word|)
  }

  /** An aggregator's own parenthesis may come at once, or after by or without and a group in parentheses. */
  lemma AggregatesExactlyWhen(q: string)
    ensures AggregatorCall(q) <==>
            (q != "" && q[0] == '(')
            || (GoesOnWith(q, "by") && GroupThenOpens(q[2..]))
            || (GoesOnWith(q, "without") && GroupThenOpens(q[7..]))
  {
    hide GroupThenOpens;
    if GoesOnWith(q, "by") {
      assert Text.ToLower(q[..2])[0] == 'b';
    }
    if GoesOnWith(q, "without") {
      assert Text.ToLower(q[..7])[0] == 'w';
    }
  }

  lemma LowerPart(c: char)
    ensures Text.LowerChar(Text.LowerChar(c)) == Text.LowerChar(c)
    ensures IdentifierPart(c) ==> !Text.IsSpace(Text.LowerChar(c))
  {
  }

  lemma NamesAreNormal(q: string, s: int, e: int, name: string)
    requires Calling(q, s, e, name)
    ensures Normalized(name) == name != ""
  {
    hide Text.TrimSpace, Text.LowerChar, Text.IsSpace, IdentifierPart, IsCall;
    forall k | 0 <= k < |name|
      ensures Text.LowerChar(name[k]) == name[k] && !Text.IsSpace(name[k])
    {
      assert PartAt(q, s + k) && name[k] == Text.LowerChar(q[s + k]);
      LowerPart(q[s + k]);
    }
    assert Text.ToLower(name) == name;
    Text.TrimmedStays(name);
  }

  /** The list has this name, in any case and with blanks around it. */
  predicate InList(items: seq<string>, name: string) {
    exists k :: 0 <= k < |items| && Text.ToLower(Text.TrimSpace(items[k])) == name
  }

  lemma ListedIsIn(items: seq<string>, name: string)
    requires name != ""
    ensures Lists(items, name) <==> InList(items, name)
  {
    hide Text.TrimSpace, Text.ToLower;
  }

  lemma HeadOrRest(functions: seq<string>)
    requires functions != []
    ensures forall f :: f in functions <==> f == functions[0] || f in functions[1..]
  {
    assert functions == [functions[0]] + functions[1..];
  }

  lemma {:induction false} NoneDenied(functions: seq<string>, denied: seq<string>)
    requires forall f :: f in functions ==> Normalized(f) == f != ""
    ensures FirstDenied(functions, denied) == "" <==> forall f :: f in functions ==> !InList(denied, f)
    ensures FirstDenied(functions, denied) != "" ==>
              FirstDenied(functions, denied) in functions && InList(denied, FirstDenied(functions, denied))
  {
    hide Normalized, Lists, InList;
    if functions != [] {
      HeadOrRest(functions);
      assert functions[0] in functions;
      ListedIsIn(denied, functions[0]);
      NoneDenied(functions[1..], denied);
    }
  }

  lemma {:induction false} AllListed(functions: seq<string>, allowed: seq<string>)
    requires forall f :: f in functions ==> Normalized(f) == f != ""
    ensures FirstNotAllowed(functions, allowed) == "" <==>
            allowed == [] || forall f :: f in functions ==> InList(allowed, f)
    ensures FirstNotAllowed(functions, allowed) != "" ==>
              FirstNotAllowed(functions, allowed) in functions && !InList(allowed, FirstNotAllowed(functions, allowed))
  {
    hide Normalized, Lists, InList;
    if functions != [] {
      HeadOrRest(functions);
      assert functions[0] in functions;
      ListedIsIn(allowed, functions[0]);
      AllListed(functions[1..], allowed);
    }
  }

  // ---------------------------------------------------------------------- the decision

  /** The name is called somewhere in the query. */
  ghost predicate Uses(q: string, name: string) {
    exists s, e :: Calling(q, s, e, name)
  }

  ghost predicate OnlyListedCalls(policy: PromQLPolicy, q: string) {
    forall name :: Uses(q, name) ==> !InList(policy.denied, name) && (policy.allowed == [] || InList(policy.allowed, name))
  }

  ghost predicate UsesOffset(q: string) {
    exists i :: WordAt(Text.ToLower(q), "offset", i)
  }

  /**
    A blanked query is allowed exactly when no called name is denied, all called names are listed if there is a list of
    allowed ones, and each of subquery, offset and @ occurs only if it is not switched off.
   */
  lemma AllowedExactlyWhen(policy: PromQLPolicy, q: string)
    ensures Decide(policy, q) == Allowed <==>
            OnlyListedCalls(policy, q)
            && (policy.allowSubqueries == Some(false) ==> !HasColonInBrackets(q))
            && (policy.allowOffset == Some(false) ==> !UsesOffset(q))
            && (policy.allowAtModifier == Some(false) ==> '@' !in q)
  {
    hide Calls, Firsts, Calling, Text.ToLower, Word, Subquery, FirstDenied, FirstNotAllowed, InList, HasColonInBrackets,
      Normalized, WordAt;
    var functions := Firsts(Calls(q));
    forall f
      ensures f in functions <==> Uses(q, f)
      ensures f in functions ==> Normalized(f) == f != ""
    {
      FunctionsAreTheCalledNames(q, f);
      if s, e :| Calling(q, s, e, f) {
        NamesAreNormal(q, s, e, f);
      }
    }
    NoneDenied(functions, policy.denied);
    AllListed(functions, policy.allowed);
    SubqueryExactlyWhen(q, false, false);
    LowerOffset();
    WordExactlyWhen(Text.ToLower(q), "offset", false);
    assert UsesOffset(q) <==> HasWord(Text.ToLower(q), "offset", false);
  }

  lemma LowerOffset()
    ensures Text.ToLower(OFFSET) == "offset"
  {
    var t := Text.ToLower(OFFSET);
    assert |t| == 6 && t[0] == 'o' && t[1] == 'f' && t[2] == 'f' && t[3] == 's' && t[4] == 'e' && t[5] == 't';
  }

  /** A refusal for a function names one that the query calls: a denied one, or one that is not listed. */
  lemma RefusalsNameACall(policy: PromQLPolicy, q: string)
    ensures Decide(policy, q).FunctionDenied? ==>
              Uses(q, Decide(policy, q).name) && InList(policy.denied, Decide(policy, q).name)
    ensures Decide(policy, q).FunctionNotAllowed? ==>
              Uses(q, Decide(policy, q).name) && policy.allowed != [] && !InList(policy.allowed, Decide(policy, q).name)
  {
    hide Calls, Firsts, Calling, Text.ToLower, Word, Subquery, InList, Normalized;
    var functions := Firsts(Calls(q));
    forall f
      ensures f in functions <==> Uses(q, f)
      ensures f in functions ==> Normalized(f) == f != ""
    {
      FunctionsAreTheCalledNames(q, f);
      if s, e :| Calling(q, s, e, f) {
        NamesAreNormal(q, s, e, f);
      }
    }
    NoneDenied(functions, policy.denied);
    AllListed(functions, policy.allowed);
  }
}
