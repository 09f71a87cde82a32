/** The PromQL decision ignores string literals, and what its scanners find, said without scanning. */
module PromQLTheorems {
  import opened PromQL
  import Text

  // ------------------------------------------------------------------------ quotes

  lemma {:induction false} StateJoins(s: QuoteState, a: string, b: string)
    ensures StateAfter(s, a + b) == StateAfter(StateAfter(s, a), b)
    decreases |a|
  {
    if a == "" {
      assert a + b == b;
    } else {
      assert (a + b)[1..] == a[1..] + b;
      StateJoins(NextState(s, a[0]), a[1..], b);
    }
  }

  lemma {:induction false} StrippedJoins(s: QuoteState, a: string, b: string)
    ensures Stripped(s, a + b) == Stripped(s, a) + Stripped(StateAfter(s, a), b)
    decreases |a|
  {
    if a == "" {
      assert a + b == b;
    } else {
      assert (a + b)[1..] == a[1..] + b;
      StrippedJoins(NextState(s, a[0]), a[1..], b);
    }
  }

  /** Each character stays unless it stands inside a literal or is a quote. */
  lemma {:induction false} OutsideStays(s: QuoteState, q: string, i: nat)
    requires i < |q|
    ensures Stripped(s, q)[i] == Blanked(StateAfter(s, q[..i]), q[i])
    decreases |q|
  {
    if i > 0 {
      OutsideStays(NextState(s, q[0]), q[1..], i - 1);
      assert q[..i][1..] == q[1..][..i - 1];
    }
  }

  lemma {:induction false} NoQuotesAreLeft(s: QuoteState, q: string, i: nat)
    requires i < |q|
    ensures !IsQuote(Stripped(s, q)[i])
  {
    OutsideStays(s, q, i);
  }

  lemma {:induction false} QuotelessStays(q: string)
    requires forall i :: 0 <= i < |q| ==> !IsQuote(q[i])
    ensures Stripped(Outside, q) == q
    decreases |q|
  {
    if q != "" {
      QuotelessStays(q[1..]);
    }
  }

  /** Stripping twice is stripping once. */
  lemma StrippingIsIdempotent(q: string)
    ensures Stripped(Outside, Stripped(Outside, q)) == Stripped(Outside, q)
  {
    forall i | 0 <= i < |q|
      ensures !IsQuote(Stripped(Outside, q)[i])
    {
      NoQuotesAreLeft(Outside, q, i);
    }
    QuotelessStays(Stripped(Outside, q));
  }

  function Blanks(n: nat): (r: string)
    ensures |r| == n && forall i :: 0 <= i < n ==> r[i] == ' '
  {
    seq(n, _ => ' ')
  }

  /** The literal stays open throughout this content. */
  /** How many backslashes a text ends in. */
  function Backslashes(s: string): nat {
    if s == "" || s[|s| - 1] != '\\' then 0 else 1 + Backslashes(s[..|s| - 1])
  }

  /** The quote at j ends the literal: in raw literals any, in others one after an even number of backslashes. */
  predicate EndsAt(quote: char, s: string, j: int) {
    0 <= j < |s| && s[j] == quote && (quote == '`' || Backslashes(s[..j]) % 2 == 0)
  }

  lemma StateStep(s: QuoteState, q: string)
    requires q != ""
    ensures StateAfter(s, q) == NextState(StateAfter(s, q[..|q| - 1]), q[|q| - 1])
  {
    var front, last := q[..|q| - 1], [q[|q| - 1]];
    assert q == front + last;
    StateJoins(s, front, last);
  }

  /** A literal is open as long as no quote has ended it. */
  lemma {:induction false} OpenUntilItEnds(quote: char, s: string)
    requires IsQuote(quote) && forall j :: 0 <= j < |s| ==> !EndsAt(quote, s, j)
    ensures StateAfter(Inside(quote, false), s) == Inside(quote, quote != '`' && Backslashes(s) % 2 == 1)
  {
    if s != "" {
      var front, n := s[..|s| - 1], |s| - 1;
      forall j | 0 <= j < n
        ensures !EndsAt(quote, front, j)
      {
        assert front[..j] == s[..j];
        assert !EndsAt(quote, s, j);
      }
      OpenUntilItEnds(quote, front);
      StateStep(Inside(quote, false), s);
      assert !EndsAt(quote, s, n);
    }
  }

  /** It is closed by the first quote that ends it. */
  lemma ClosedWhenItEnds(quote: char, s: string)
    requires IsQuote(quote) && s != "" && EndsAt(quote, s, |s| - 1)
    requires forall j :: 0 <= j < |s| - 1 ==> !EndsAt(quote, s, j)
    ensures StateAfter(Inside(quote, false), s) == Outside
  {
    var front := s[..|s| - 1];
    forall j | 0 <= j < |front|
      ensures !EndsAt(quote, front, j)
    {
      assert front[..j] == s[..j];
      assert !EndsAt(quote, s, j);
    }
    OpenUntilItEnds(quote, front);
    StateStep(Inside(quote, false), s);
  }

  /** Outside a literal only the three quotes open one. */
  lemma OpensExactlyWhen(c: char)
    ensures NextState(Outside, c) == if c in {'"', '\'', '`'} then Inside(c, false) else Outside
  {
  }

  predicate KeepsOpen(s: QuoteState, content: string)
    decreases |content|
  {
    s.Inside? && (content == "" || KeepsOpen(NextState(s, content[0]), content[1..]))
  }

  lemma {:induction false} OpenContentIsBlanked(s: QuoteState, content: string)
    requires KeepsOpen(s, content)
    ensures Stripped(s, content) == Blanks(|content|)
    decreases |content|
  {
    if content != "" {
      OpenContentIsBlanked(NextState(s, content[0]), content[1..]);
    }
  }

  /** This content can stand between two such quotes: it neither closes the literal nor escapes its closing quote. */
  predicate Content(quote: char, content: string) {
    KeepsOpen(Inside(quote, false), content) && StateAfter(Inside(quote, false), content) == Inside(quote, false)
  }

  function Literal(quote: char, content: string): string {
    [quote] + content + [quote]
  }

  /** A literal becomes blanks of its own length, and what follows it is read as outside. */
  lemma LiteralIsBlanked(quote: char, content: string)
    requires IsQuote(quote) && Content(quote, content)
    ensures Stripped(Outside, Literal(quote, content)) == Blanks(|content| + 2)
    ensures StateAfter(Outside, Literal(quote, content)) == Outside
  {
    var inner := Inside(quote, false);
    var q := Literal(quote, content);
    assert [quote] + content + [quote] == [quote] + (content + [quote]);
    assert q[1..] == content + [quote];
    OpenContentIsBlanked(inner, content);
    StateJoins(inner, content, [quote]);
    StrippedJoins(inner, content, [quote]);
    assert [quote][1..] == "";
    assert NextState(inner, quote) == Outside;
    assert Stripped(inner, [quote]) == [' '] + Stripped(Outside, "");
    assert Stripped(Outside, q) == [' '] + (Blanks(|content|) + [' ']);
  }

  lemma StrippedAround(before: string, quote: char, content: string, after: string)
    requires StateAfter(Outside, before) == Outside && IsQuote(quote) && Content(quote, content)
    ensures Stripped(Outside, before + (Literal(quote, content) + after))
         == Stripped(Outside, before) + (Blanks(|content| + 2) + Stripped(Outside, after))
  {
    hide Content, KeepsOpen;
    LiteralIsBlanked(quote, content);
    StrippedJoins(Outside, before, Literal(quote, content) + after);
    StrippedJoins(Outside, Literal(quote, content), after);
  }

  // ---------------------------------------------------------------- stretched blanks

  /** The second string has one blank more than the first, beside one that the first has. */
  predicate Stretched(a: string, b: string) {
    exists p :: 0 <= p < |a| && StretchedAt(a, b, p)
  }

  predicate StretchedAt(a: string, b: string, p: nat)
    requires p < |a|
  {
    a[p] == ' ' && b == a[..p] + [' '] + a[p..]
  }

  predicate Like(a: string, b: string) {
    a == b || Stretched(a, b)
  }

  /** Like strings start alike, and what follows is alike, or the first is what follows in the second. */
  lemma LikeTails(a: string, b: string)
    requires Stretched(a, b)
    ensures a != "" && b != "" && a[0] == b[0]
    ensures Stretched(a[1..], b[1..]) || (a[0] == ' ' && b[1..] == a)
  {
    var p :| 0 <= p < |a| && StretchedAt(a, b, p);
    if p > 0 {
      assert StretchedAt(a[1..], b[1..], p - 1);
    }
  }

  lemma {:induction false} SkipLike(a: string, b: string)
    requires Like(a, b)
    ensures Like(SkipSpaces(a), SkipSpaces(b))
    decreases |a|
  {
    hide Stretched;
    if a != b {
      LikeTails(a, b);
      if Stretched(a[1..], b[1..]) && Text.IsSpace(a[0]) {
        SkipLike(a[1..], b[1..]);
      }
    }
  }

  lemma OpensLike(a: string, b: string)
    requires Like(a, b)
    ensures Opens(a) == Opens(b)
    ensures Opens(a) ==> Like(a[1..], b[1..])
  {
    hide Stretched;
    if a != b {
      LikeTails(a, b);
    }
  }

  lemma {:induction false} ClosedLike(a: string, b: string, depth: nat)
    requires Like(a, b)
    ensures Closed(a, depth).Some? == Closed(b, depth).Some?
    ensures Closed(a, depth).Some? ==> Like(Closed(a, depth).value, Closed(b, depth).value)
    decreases |a|
  {
    hide Stretched;
    if a != b {
      LikeTails(a, b);
      if Stretched(a[1..], b[1..]) {
        ClosedLike(a[1..], b[1..],
                   if a[0] == '(' then depth + 1 else if a[0] == ')' && depth > 0 then depth - 1 else depth);
      } else {
        assert Closed(b, depth) == Closed(b[1..], depth);
      }
    }
  }

  lemma {:induction false} RunLike(a: string, b: string)
    requires Like(a, b)
    ensures Run(a) == Run(b) && Like(a[|Run(a)|..], b[|Run(b)|..])
    decreases |a|
  {
    hide Stretched;
    if a != b {
      LikeTails(a, b);
      if Stretched(a[1..], b[1..]) && IdentifierPart(a[0]) {
        RunLike(a[1..], b[1..]);
        assert a[|Run(a)|..] == a[1..][|Run(a[1..])|..] && b[|Run(b)|..] == b[1..][|Run(b[1..])|..];
      } else {
        assert !IdentifierPart(a[0]) && a[0..] == a && b[0..] == b;
      }
    }
  }

  /** A word without blanks stands at the front of both or of neither. */
  lemma {:induction false} PrefixLike(a: string, b: string, n: nat)
    requires Like(a, b) && n > 0
    ensures (n <= |a| && ' ' !in a[..n]) <==> (n <= |b| && ' ' !in b[..n])
    ensures n <= |a| && ' ' !in a[..n] ==> a[..n] == b[..n] && Like(a[n..], b[n..])
  {
    if a != b {
      var p :| 0 <= p < |a| && StretchedAt(a, b, p);
      if n <= p {
        assert a[..n] == b[..n];
        assert StretchedAt(a[n..], b[n..], p - n);
      } else {
        assert n <= |a| ==> a[..n][p] == ' ';
        assert n <= |b| ==> b[..n][p] == ' ';
      }
    }
  }

  lemma ModifierLike(a: string, b: string, modifier: string)
    requires Like(a, b) && modifier != "" && ' ' !in modifier
    ensures AfterModifier(a, modifier).Some? == AfterModifier(b, modifier).Some?
    ensures AfterModifier(a, modifier).Some? ==> Like(AfterModifier(a, modifier).value, AfterModifier(b, modifier).value)
  {
    hide Stretched, Text.ToLower;
    var n := |modifier|;
    PrefixLike(a, b, n);
    BlankStaysBlank(a, n, modifier);
    BlankStaysBlank(b, n, modifier);
    if n <= |a| && ' ' !in a[..n] {
      FirstLike(a[n..], b[n..]);
    }
  }

  lemma FirstLike(a: string, b: string)
    requires Like(a, b)
    ensures (a == "") == (b == "") && (a != "" ==> a[0] == b[0])
  {
    hide Stretched;
    if a != b {
      LikeTails(a, b);
    }
  }

  lemma BlankStaysBlank(a: string, n: nat, word: string)
    requires ' ' !in word
    ensures n <= |a| && Text.ToLower(a[..n]) == word ==> ' ' !in a[..n]
  {
    if n <= |a| && Text.ToLower(a[..n]) == word {
      forall k | 0 <= k < n
        ensures a[..n][k] != ' '
      {
        assert word[k] == Text.LowerChar(a[..n][k]) && word[k] in word;
      }
    }
  }

  lemma GroupLike(a: string, b: string)
    requires Like(a, b)
    ensures GroupThenOpens(a) == GroupThenOpens(b)
  {
    hide Like, SkipSpaces, Closed;
    SkipLike(a, b);
    var x, y := SkipSpaces(a), SkipSpaces(b);
    OpensLike(x, y);
    if Opens(x) {
      ClosedLike(x[1..], y[1..], 0);
      if Closed(x[1..], 0).Some? {
        SkipLike(Closed(x[1..], 0).value, Closed(y[1..], 0).value);
        OpensLike(SkipSpaces(Closed(x[1..], 0).value), SkipSpaces(Closed(y[1..], 0).value));
      }
    }
  }

  lemma CallLike(id: string, a: string, b: string)
    requires Like(a, b)
    ensures IsCall(id, a) == IsCall(id, b)
  {
    hide Like, SkipSpaces, IsReserved, IsAggregator, GroupThenOpens, AfterModifier;
    SkipLike(a, b);
    var x, y := SkipSpaces(a), SkipSpaces(b);
    OpensLike(x, y);
    ModifierLike(x, y, BY);
    ModifierLike(x, y, WITHOUT);
    if AfterModifier(x, BY).Some? {
      GroupLike(AfterModifier(x, BY).value, AfterModifier(y, BY).value);
    } else if AfterModifier(x, WITHOUT).Some? {
      GroupLike(AfterModifier(x, WITHOUT).value, AfterModifier(y, WITHOUT).value);
    }
  }

  lemma {:induction false} CallsLike(a: string, b: string)
    requires Like(a, b)
    ensures Calls(a) == Calls(b)
    decreases |a|
  {
    hide Stretched, IsCall, Run;
    if a != b {
      LikeTails(a, b);
      if Stretched(a[1..], b[1..]) {
        if IdentifierStart(a[0]) {
          RunLike(a, b);
          var n := |Run(a)|;
          CallLike(Text.ToLower(Run(a)), a[n..], b[n..]);
          CallsLike(a[n..], b[n..]);
        } else {
          CallsLike(a[1..], b[1..]);
        }
      } else {
        assert Calls(b) == Calls(b[1..]);
      }
    }
  }

  lemma {:induction false} SubqueryLike(a: string, b: string, inside: bool, colon: bool)
    requires Like(a, b) && (!inside ==> !colon)
    ensures Subquery(a, inside, colon) == Subquery(b, inside, colon)
    decreases |a|
  {
    hide Stretched;
    if a != b {
      LikeTails(a, b);
      if Stretched(a[1..], b[1..]) {
        if !inside {
          SubqueryLike(a[1..], b[1..], a[0] == '[', false);
        } else if a[0] == ']' {
          SubqueryLike(a[1..], b[1..], false, false);
        } else {
          SubqueryLike(a[1..], b[1..], true, colon || a[0] == ':');
        }
      }
    }
  }

  lemma {:induction false} WordLike(a: string, b: string, token: string, glued: bool)
    requires Like(a, b) && token != "" && ' ' !in token
    ensures Word(a, token, glued) == Word(b, token, glued)
    decreases |a|
  {
    hide Stretched;
    if a != b {
      LikeTails(a, b);
      WordAtFrontLike(a, b, token);
      if !Stretched(a[1..], b[1..]) {
        BlankBeforeWord(a, token);
      } else {
        WordLike(a[1..], b[1..], token, IdentifierPart(a[0]));
      }
    }
  }

  predicate AtFront(q: string, token: string) {
    |token| <= |q| && q[..|token|] == token && (|q| == |token| || !IdentifierPart(q[|token|]))
  }

  lemma WordAtFrontLike(a: string, b: string, token: string)
    requires Like(a, b) && token != "" && ' ' !in token
    ensures AtFront(a, token) == AtFront(b, token)
  {
    hide Like;
    PrefixLike(a, b, |token|);
    if |token| <= |a| && ' ' !in a[..|token|] {
      FirstLike(a[|token|..], b[|token|..]);
    }
  }

  /** After a blank, the blank itself makes no difference. */
  lemma BlankBeforeWord(a: string, token: string)
    requires a != "" && a[0] == ' ' && token != "" && ' ' !in token
    ensures Word(a, token, false) == Word(a, token, true)
    ensures !AtFront(a, token)
  {
    assert token[0] != ' ';
    assert |token| <= |a| ==> a[..|token|][0] == ' ';
  }

  lemma AtLike(a: string, b: string)
    requires Like(a, b)
    ensures '@' in a <==> '@' in b
  {
    if a != b {
      var p :| 0 <= p < |a| && StretchedAt(a, b, p);
      assert a == a[..p] + a[p..];
    }
  }

  lemma LowerLike(a: string, b: string)
    requires Like(a, b)
    ensures Like(Text.ToLower(a), Text.ToLower(b))
  {
    if a != b {
      var p :| 0 <= p < |a| && StretchedAt(a, b, p);
      var x, y := Text.ToLower(a), Text.ToLower(b);
      assert y == x[..p] + [' '] + x[p..];
      assert StretchedAt(x, y, p);
    }
  }

  /** One blank more or less beside another does not change the decision. */
  lemma DecisionLike(policy: PromQLPolicy, a: string, b: string)
    requires Like(a, b)
    ensures Decide(policy, a) == Decide(policy, b)
  {
    hide Like, Calls, Firsts, Word, Subquery, FirstDenied, FirstNotAllowed, Text.ToLower;
    CallsLike(a, b);
    SubqueryLike(a, b, false, false);
    AtLike(a, b);
    LowerLike(a, b);
    OffsetIsAWord();
    WordLike(Text.ToLower(a), Text.ToLower(b), Text.ToLower(OFFSET), false);
  }

  lemma OffsetIsAWord()
    ensures Text.ToLower(OFFSET) != "" && ' ' !in Text.ToLower(OFFSET)
  {
    assert forall k :: 0 <= k < |OFFSET| ==> OFFSET[k] != ' ';
    assert forall c: char {:trigger Text.LowerChar(c)} :: Text.LowerChar(c) == ' ' ==> c == ' ';
  }

  lemma {:induction false} DecisionIgnoresBlankRuns(policy: PromQLPolicy, before: string, after: string, n: nat, m: nat)
    requires 0 < n <= m
    ensures Decide(policy, before + (Blanks(n) + after)) == Decide(policy, before + (Blanks(m) + after))
    decreases m - n
  {
    hide Decide;
    if n < m {
      var a, b := before + (Blanks(n) + after), before + (Blanks(n + 1) + after);
      assert b == a[..|before|] + [' '] + a[|before|..];
      assert StretchedAt(a, b, |before|);
      DecisionLike(policy, a, b);
      DecisionIgnoresBlankRuns(policy, before, after, n + 1, m);
    }
  }

  /**
    Replacing the content of any literal by any other content that leaves the literal as it is, of whatever length,
    leaves the whole decision unchanged.
   */
  lemma LiteralsDoNotMatter(policy: PromQLPolicy, before: string, quote: char, c0: string, c1: string, after: string)
    requires StateAfter(Outside, before) == Outside && IsQuote(quote) && Content(quote, c0) && Content(quote, c1)
    ensures Decide(policy, Stripped(Outside, before + (Literal(quote, c0) + after)))
         == Decide(policy, Stripped(Outside, before + (Literal(quote, c1) + after)))
  {
    hide Decide, Stripped, Content, StateAfter;
    StrippedAround(before, quote, c0, after);
    StrippedAround(before, quote, c1, after);
    var a, b := Stripped(Outside, before), Stripped(Outside, after);
    if |c0| <= |c1| {
      DecisionIgnoresBlankRuns(policy, a, b, |c0| + 2, |c1| + 2);
    } else {
      DecisionIgnoresBlankRuns(policy, a, b, |c1| + 2, |c0| + 2);
    }
  }

  lemma OpenTailIsBlanked(quote: char, content: string)
    requires IsQuote(quote) && KeepsOpen(Inside(quote, false), content)
    ensures Stripped(Outside, [quote] + content) == Blanks(|content| + 1)
  {
    hide KeepsOpen;
    var q := [quote] + content;
    assert q[1..] == content;
    OpenContentIsBlanked(Inside(quote, false), content);
    assert Stripped(Outside, q) == [' '] + Blanks(|content|);
  }

  lemma OpenLiteralIsBlanked(before: string, quote: char, content: string)
    requires StateAfter(Outside, before) == Outside && IsQuote(quote) && KeepsOpen(Inside(quote, false), content)
    ensures Stripped(Outside, before + ([quote] + content)) == Stripped(Outside, before) + (Blanks(|content| + 1) + "")
  {
    hide KeepsOpen, Stripped, StateAfter;
    StrippedJoins(Outside, before, [quote] + content);
    OpenTailIsBlanked(quote, content);
    assert Blanks(|content| + 1) + "" == Blanks(|content| + 1);
  }

  /** So does replacing the content of a literal that is left open at the end of the query by any that leaves it open. */
  lemma OpenLiteralsDoNotMatter(policy: PromQLPolicy, before: string, quote: char, c0: string, c1: string)
    requires StateAfter(Outside, before) == Outside && IsQuote(quote)
    requires KeepsOpen(Inside(quote, false), c0) && KeepsOpen(Inside(quote, false), c1)
    ensures Decide(policy, Stripped(Outside, before + ([quote] + c0)))
         == Decide(policy, Stripped(Outside, before + ([quote] + c1)))
  {
    hide Decide, Stripped, KeepsOpen, StateAfter;
    OpenLiteralIsBlanked(before, quote, c0);
    OpenLiteralIsBlanked(before, quote, c1);
    var a := Stripped(Outside, before);
    if |c0| <= |c1| {
      DecisionIgnoresBlankRuns(policy, a, "", |c0| + 1, |c1| + 1);
    } else {
      DecisionIgnoresBlankRuns(policy, a, "", |c1| + 1, |c0| + 1);
    }
  }
}
