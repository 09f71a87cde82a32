/** The syntax scanner behind the PromQL query policy, over sequences of characters. */
module PromQL {
  import opened Wrappers
  import Text

  // ------------------------------------------------------------------------ quotes

  predicate IsQuote(c: char) {
    c == '"' || c == '\'' || c == '`'
  }

  /** Where the scan of quotes is: outside every literal, or inside one, possibly right after an escaping backslash. */
  datatype QuoteState = Outside | Inside(quote: char, escaped: bool)

  function NextState(s: QuoteState, c: char): QuoteState {
    match s
    case Outside => if IsQuote(c) then Inside(c, false) else Outside
    case Inside(quote, escaped) =>
      if quote != '`' && c == '\\' && !escaped then Inside(quote, true)
      else if c == quote && !escaped then Outside
      else Inside(quote, false)
  }

  function StateAfter(s: QuoteState, q: string): QuoteState
    decreases |q|
  {
    if q == "" then s else StateAfter(NextState(s, q[0]), q[1..])
  }

  /** Quotes and quoted characters become blanks; everything else stays. */
  function Stripped(s: QuoteState, q: string): (r: string)
    ensures |r| == |q|
    decreases |q|
  {
    if q == "" then ""
    else [if s.Inside? || IsQuote(q[0]) then ' ' else q[0]] + Stripped(NextState(s, q[0]), q[1..])
  }

  /** What one character contributes. */
  function Blanked(s: QuoteState, c: char): char {
    if s.Inside? || IsQuote(c) then ' ' else c
  }

  lemma StrippedStep(s: QuoteState, q: string, i: nat, done: string)
    requires i < |q|
    ensures done + Stripped(s, q[i..]) == (done + [Blanked(s, q[i])]) + Stripped(NextState(s, q[i]), q[i + 1..])
  {
    assert q[i..][1..] == q[i + 1..];
  }

  method StripQuotedContent(out: array<char>)
    modifies out
    ensures out[..] == Stripped(Outside, old(out[..]))
  {
    hide Stripped;
    ghost var was := out[..];
    var quote: Option<char> := None;
    var escaped := false;
    ghost var state := Outside;
    for index := 0 to out.Length
      invariant state == if quote.None? then Outside else Inside(quote.value, escaped)
      invariant quote.None? ==> !escaped
      invariant Stripped(Outside, was) == out[..index] + Stripped(state, was[index..])
      invariant forall k :: index <= k < out.Length ==> out[k] == was[k]
    {
      var r := out[index];
      ghost var done := out[..index];
      StrippedStep(state, was, index, done);
      if quote.None? {
        if r == '"' || r == '\'' || r == '`' {
          quote := Some(r);
          out[index] := ' ';
        }
      } else {
        out[index] := ' ';
        if quote.value != '`' && r == '\\' && !escaped {
          escaped := true;
        } else {
          if r == quote.value && !escaped {
            quote := None;
          }
          escaped := false;
        }
      }
      assert out[..index + 1] == done + [Blanked(state, r)];
      state := NextState(state, r);
    }
    assert was[out.Length..] == "";
    NothingToStrip(state);
    assert out[..out.Length] + [] == out[..];
  }

  lemma NothingToStrip(s: QuoteState)
    ensures Stripped(s, "") == ""
  {
  }

  // -------------------------------------------------------------------- identifiers

  predicate IsLetter(c: char) {
    'a' <= c <= 'z' || 'A' <= c <= 'Z'
  }

  predicate IsDigit(c: char) {
    '0' <= c <= '9'
  }

  predicate IdentifierStart(c: char) {
    c == '_' || IsLetter(c)
  }

  predicate IdentifierPart(c: char) {
    c == '_' || c == ':' || IsLetter(c) || IsDigit(c)
  }

  /** The longest run of identifier characters at the front. */
  function Run(q: string): (r: string)
    ensures |r| <= |q|
    ensures q != "" && IdentifierPart(q[0]) ==> r != ""
  {
    if q == "" || !IdentifierPart(q[0]) then "" else [q[0]] + Run(q[1..])
  }

  function SkipSpaces(q: string): (r: string)
    ensures r == "" || !Text.IsSpace(r[0])
  {
    if q == "" || !Text.IsSpace(q[0]) then q else SkipSpaces(q[1..])
  }

  predicate Opens(q: string) {
    q != "" && q[0] == '('
  }

  /** What follows the parenthesis that closes a group, inside which depth further groups are open. */
  function Closed(q: string, depth: nat): Option<string>
    decreases |q|
  {
    if q == "" then None
    else if q[0] == '(' then Closed(q[1..], depth + 1)
    else if q[0] == ')' then if depth == 0 then Some(q[1..]) else Closed(q[1..], depth - 1)
    else Closed(q[1..], depth)
  }

  // -------------------------------------------------------------------------- calls

  predicate IsReserved(id: string) {
    id == "bool" || id == "by" || id == "group_left" || id == "group_right" || id == "ignoring" || id == "offset"
    || id == "on" || id == "without"
  }

  predicate IsAggregator(id: string) {
    id == "sum" || id == "min" || id == "max" || id == "avg" || id == "group" || id == "stddev" || id == "stdvar"
    || id == "count" || id == "count_values" || id == "bottomk" || id == "topk" || id == "quantile"
  }

  function AfterModifier(q: string, modifier: string): Option<string> {
    if |modifier| <= |q| && Text.ToLower(q[..|modifier|]) == modifier
       && (|q| == |modifier| || !IdentifierPart(q[|modifier|]))
    then Some(q[|modifier|..]) else None
  }

  /** A group in parentheses and then an opening parenthesis. */
  predicate GroupThenOpens(q: string) {
    var after := SkipSpaces(q);
    Opens(after) && var rest := Closed(after[1..], 0);
    rest.Some? && Opens(SkipSpaces(rest.value))
  }

  const BY := "by"
  const WITHOUT := "without"

  predicate AggregatorCall(q: string) {
    if AfterModifier(q, BY).Some? then GroupThenOpens(AfterModifier(q, BY).value)
    else if AfterModifier(q, WITHOUT).Some? then GroupThenOpens(AfterModifier(q, WITHOUT).value)
    else Opens(q)
  }

  predicate IsCall(id: string, rest: string) {
    !IsReserved(id) && (Opens(SkipSpaces(rest)) || (IsAggregator(id) && AggregatorCall(SkipSpaces(rest))))
  }

  /** The lower-cased names that are called, in order and with repeats. */
  function Calls(q: string): seq<string>
    decreases |q|
  {
    if q == "" then []
    else if !IdentifierStart(q[0]) then Calls(q[1..])
    else
      var name := Run(q);
      var rest := q[|name|..];
      (if IsCall(Text.ToLower(name), rest) then [Text.ToLower(name)] else []) + Calls(rest)
  }

  function Firsts(xs: seq<string>): seq<string> {
    if xs == [] then []
    else
      var before := Firsts(xs[..|xs| - 1]);
      if xs[|xs| - 1] in before then before else before + [xs[|xs| - 1]]
  }

  method SkipSpacesFrom(query: string, start: nat) returns (index: nat)
    requires start <= |query|
    ensures start <= index <= |query| && query[index..] == SkipSpaces(query[start..])
  {
    index := start;
    while index < |query| && Text.IsSpace(query[index])
      invariant start <= index <= |query|
      invariant SkipSpaces(query[index..]) == SkipSpaces(query[start..])
    {
      assert query[index..][1..] == query[index + 1..];
      index := index + 1;
    }
  }

  /** The position of the parenthesis that closes the one at open. */
  method MatchingParen(query: string, open: nat) returns (close: Option<nat>)
    requires open < |query| && query[open] == '('
    ensures close.Some? <==> Closed(query[open + 1..], 0).Some?
    ensures close.Some? ==> open < close.value < |query| && Closed(query[open + 1..], 0) == Some(query[close.value + 1..])
  {
    var depth := 0;
    var i := open;
    while i < |query|
      invariant open <= i <= |query|
      invariant i == open ==> depth == 0
      invariant i > open ==> depth > 0 && Closed(query[open + 1..], 0) == Closed(query[i..], depth - 1)
    {
      assert query[i..][1..] == query[i + 1..];
      if query[i] == '(' {
        depth := depth + 1;
      } else if query[i] == ')' {
        depth := depth - 1;
        if depth == 0 {
          return Some(i);
        }
      }
      i := i + 1;
    }
    assert query[i..] == "";
    return None;
  }

  /** Where a modifier at a position ends, if it stands there as a word. */
  method ModifierAt(query: string, j: nat, modifier: string) returns (after: Option<nat>)
    requires j <= |query|
    ensures after.Some? ==> j <= after.value <= |query|
    ensures AfterModifier(query[j..], modifier) == if after.Some? then Some(query[after.value..]) else None
  {
    hide Text.ToLower, IdentifierPart;
    if |query| - j < |modifier| {
      return None;
    }
    var end := j + |modifier|;
    assert query[j..][..|modifier|] == query[j..end] && query[j..][|modifier|..] == query[end..];
    if Text.ToLower(query[j..end]) != modifier {
      return None;
    }
    if end < |query| && IdentifierPart(query[end]) {
      assert query[j..][|modifier|] == query[end];
      return None;
    }
    return Some(end);
  }

  method GroupThenOpensAt(query: string, start: nat) returns (called: bool)
    requires start <= |query|
    ensures called == GroupThenOpens(query[start..])
  {
    hide SkipSpaces, Closed;
    var after := SkipSpacesFrom(query, start);
    if after >= |query| || query[after] != '(' {
      return false;
    }
    assert query[after..][1..] == query[after + 1..];
    var close := MatchingParen(query, after);
    if close.None? {
      return false;
    }
    var last := SkipSpacesFrom(query, close.value + 1);
    called := last < |query| && query[last] == '(';
  }

  method HasAggregatorCall(query: string, index: nat) returns (called: bool)
    requires index <= |query|
    ensures called == AggregatorCall(SkipSpaces(query[index..]))
  {
    hide SkipSpaces, AfterModifier, GroupThenOpens;
    var j := SkipSpacesFrom(query, index);
    for k := 0 to 2
      invariant k >= 1 ==> AfterModifier(query[j..], BY).None?
      invariant k >= 2 ==> AfterModifier(query[j..], WITHOUT).None?
    {
      var after := ModifierAt(query, j, if k == 0 then BY else WITHOUT);
      if after.None? {
        continue;
      }
      called := GroupThenOpensAt(query, after.value);
      return;
    }
    return j < |query| && query[j] == '(';
  }

  lemma CallsStep(query: string, start: nat, i: nat)
    requires start < |query|
    ensures !IdentifierStart(query[start]) ==> Calls(query[start..]) == Calls(query[start + 1..])
    ensures start < i <= |query| && IdentifierStart(query[start]) && query[start..i] == Run(query[start..]) ==>
              var name := Text.ToLower(query[start..i]);
              Calls(query[start..]) == (if IsCall(name, query[i..]) then [name] else []) + Calls(query[i..])
  {
    hide IsCall, Text.ToLower;
    var q := query[start..];
    assert q[1..] == query[start + 1..];
    if start < i <= |query| {
      assert q[i - start..] == query[i..] && |query[start..i]| == i - start;
    }
  }

  lemma FirstsStep(xs: seq<string>, x: string)
    ensures Firsts(xs + [x]) == if x in Firsts(xs) then Firsts(xs) else Firsts(xs) + [x]
  {
    assert (xs + [x])[..|xs|] == xs;
  }

  method PromQLFunctions(query: string) returns (functions: seq<string>)
    ensures functions == Firsts(Calls(query))
  {
    hide Calls, IsCall, Firsts, Text.ToLower, Run;
    functions := [];
    ghost var found := [];
    NoFirsts();
    var seen: set<string> := {};
    var i := 0;
    assert query[0..] == query;
    while i < |query|
      invariant 0 <= i <= |query|
      invariant Calls(query) == found + Calls(query[i..])
      invariant functions == Firsts(found)
      invariant forall s :: s in seen <==> s in functions
    {
      if !IdentifierStart(query[i]) {
        CallsStep(query, i, i);
        i := i + 1;
        continue;
      }
      var start := i;
      i := RunEnd(query, start);
      CallsStep(query, start, i);
      var identifier := Text.ToLower(query[start..i]);
      var isCall := CalledAt(query, identifier, i);
      if isCall {
        FirstsStep(found, identifier);
        found := found + [identifier];
        if identifier !in seen {
          seen := seen + {identifier};
          functions := functions + [identifier];
        }
      }
    }
    assert query[i..] == "" && found + [] == found;
  }

  lemma NoFirsts()
    ensures Firsts([]) == [] && Calls("") == []
  {
  }

  method RunEnd(query: string, start: nat) returns (i: nat)
    requires start < |query| && IdentifierStart(query[start])
    ensures start < i <= |query| && query[start..i] == Run(query[start..])
  {
    i := start + 1;
    assert query[start..][1..] == query[start + 1..];
    assert Run(query[start..]) == [query[start]] + Run(query[i..]);
    while i < |query| && IdentifierPart(query[i])
      invariant start < i <= |query|
      invariant Run(query[start..]) == query[start..i] + Run(query[i..])
    {
      assert query[i..][1..] == query[i + 1..];
      assert query[start..i + 1] == query[start..i] + [query[i]];
      i := i + 1;
    }
  }

  method CalledAt(query: string, identifier: string, i: nat) returns (isCall: bool)
    requires i <= |query|
    ensures isCall == IsCall(identifier, query[i..])
  {
    hide IsReserved, IsAggregator, AggregatorCall, SkipSpaces;
    if IsReserved(identifier) {
      return false;
    }
    var j := SkipSpacesFrom(query, i);
    isCall := j < |query| && query[j] == '(';
    if !isCall {
      if IsAggregator(identifier) {
        isCall := HasAggregatorCall(query, j);
        SkipTwice(query[i..]);
      }
    }
  }

  lemma SkipTwice(q: string)
    ensures SkipSpaces(SkipSpaces(q)) == SkipSpaces(q)
  {
  }

  // ------------------------------------------------------------------ other features

  /** Inside brackets a colon has been seen or not; the answer is given by the first bracket pair with a colon. */
  predicate Subquery(q: string, inside: bool, colon: bool) {
    if q == "" then false
    else if !inside then Subquery(q[1..], q[0] == '[', false)
    else if q[0] == ']' then colon || Subquery(q[1..], false, false)
    else Subquery(q[1..], true, colon || q[0] == ':')
  }

  method HasPromQLSubquery(query: string) returns (found: bool)
    ensures found == Subquery(query, false, false)
  {
    var i := 0;
    while i < |query|
      invariant 0 <= i <= |query|
      invariant Subquery(query, false, false) == Subquery(query[i..], false, false)
    {
      assert query[i..][1..] == query[i + 1..];
      if query[i] != '[' {
        i := i + 1;
        continue;
      }
      var close, colon := CloseBracket(query, i + 1);
      if close.None? {
        return false;
      }
      if colon {
        return true;
      }
      i := close.value + 1;
    }
    assert query[i..] == "";
    return false;
  }

  /** The first closing bracket from a position on, and whether a colon comes before it. */
  method CloseBracket(query: string, start: nat) returns (close: Option<nat>, colon: bool)
    requires start <= |query|
    ensures close.None? ==> !Subquery(query[start..], true, false)
    ensures close.Some? ==> start <= close.value < |query|
    ensures close.Some? ==>
              Subquery(query[start..], true, false) == (colon || Subquery(query[close.value + 1..], false, false))
  {
    colon := false;
    for i := start to |query|
      invariant Subquery(query[start..], true, false) == Subquery(query[i..], true, colon)
    {
      assert query[i..][1..] == query[i + 1..];
      if query[i] == ']' {
        return Some(i), colon;
      }
      if query[i] == ':' {
        colon := true;
      }
    }
    assert query[|query|..] == "";
    return None, colon;
  }

  /** The guard against a doubled sign never matters: the last sign of a row is always found. */
  method HasPromQLAtModifier(query: string) returns (found: bool)
    ensures found <==> '@' in query
  {
    for i := 0 to |query|
      invariant forall k :: 0 <= k < i ==> query[k] != '@' || (i < |query| && query[i] == '@')
    {
      if query[i] != '@' {
        continue;
      }
      if i + 1 < |query| && query[i + 1] == '@' {
        continue;
      }
      return true;
    }
    return false;
  }

  /** A lower-case token that is not part of a longer word; glued tells that the character before is of a word. */
  predicate Word(q: string, token: string, glued: bool) {
    q != ""
    && ((!glued && |token| <= |q| && q[..|token|] == token && (|q| == |token| || !IdentifierPart(q[|token|])))
        || Word(q[1..], token, IdentifierPart(q[0])))
  }

  method HasWordToken(query: string, word: string) returns (found: bool)
    requires word != ""
    ensures found == Word(Text.ToLower(query), Text.ToLower(word), false)
  {
    hide Text.ToLower;
    var token, lower := Text.ToLower(word), Text.ToLower(query);
    LowerLength(word);
    if |lower| < |token| {
      ShortHasNoWord(lower, token, false);
      return false;
    }
    for i := 0 to |lower| - |token| + 1
      invariant Word(lower, token, false) == Word(lower[i..], token, i > 0 && IdentifierPart(lower[i - 1]))
    {
      assert lower[i..][1..] == lower[i + 1..] && lower[i..][..|token|] == lower[i..i + |token|];
      if lower[i..i + |token|] != token {
        continue;
      }
      var beforeOK := i == 0 || !IdentifierPart(lower[i - 1]);
      var afterIndex := i + |token|;
      var afterOK := afterIndex == |lower| || !IdentifierPart(lower[afterIndex]);
      if beforeOK && afterOK {
        return true;
      }
    }
    var i := |lower| - |token| + 1;
    ShortHasNoWord(lower[i..], token, IdentifierPart(lower[i - 1]));
    return false;
  }

  lemma LowerLength(s: string)
    ensures |Text.ToLower(s)| == |s|
  {
  }

  lemma {:induction false} ShortHasNoWord(q: string, token: string, glued: bool)
    requires |q| < |token|
    ensures !Word(q, token, glued)
  {
    if q != "" {
      ShortHasNoWord(q[1..], token, IdentifierPart(q[0]));
    }
  }

  // ---------------------------------------------------------------------- the policy

  datatype PromQLPolicy = PromQLPolicy(
    denied: seq<string>, allowed: seq<string>, allowSubqueries: Option<bool>, allowOffset: Option<bool>,
    allowAtModifier: Option<bool>)

  datatype Decision =
    | Allowed
    | FunctionDenied(name: string)
    | FunctionNotAllowed(name: string)
    | SubqueryDenied
    | OffsetDenied
    | AtModifierDenied

  function Normalized(item: string): string {
    Text.ToLower(Text.TrimSpace(item))
  }

  predicate Lists(items: seq<string>, name: string) {
    name != "" && exists k :: 0 <= k < |items| && Normalized(items[k]) == name
  }

  function FirstDenied(functions: seq<string>, denied: seq<string>): string {
    if functions == [] then ""
    else if Lists(denied, Normalized(functions[0])) then Normalized(functions[0])
    else FirstDenied(functions[1..], denied)
  }

  function FirstNotAllowed(functions: seq<string>, allowed: seq<string>): string {
    if functions == [] || allowed == [] then ""
    else if !Lists(allowed, Normalized(functions[0])) then Normalized(functions[0])
    else FirstNotAllowed(functions[1..], allowed)
  }

  const OFFSET := "offset"

  /** The decision on a query whose literals have been blanked. */
  function Decide(policy: PromQLPolicy, query: string): Decision {
    var functions := Firsts(Calls(query));
    if FirstDenied(functions, policy.denied) != "" then FunctionDenied(FirstDenied(functions, policy.denied))
    else if FirstNotAllowed(functions, policy.allowed) != "" then
      FunctionNotAllowed(FirstNotAllowed(functions, policy.allowed))
    else if policy.allowSubqueries == Some(false) && Subquery(query, false, false) then SubqueryDenied
    else if policy.allowOffset == Some(false) && Word(Text.ToLower(query), Text.ToLower(OFFSET), false) then OffsetDenied
    else if policy.allowAtModifier == Some(false) && '@' in query then AtModifierDenied
    else Allowed
  }

  method NormalizedSet(items: seq<string>) returns (out: set<string>)
    ensures forall name :: name in out <==> Lists(items, name)
  {
    hide Normalized;
    out := {};
    for k := 0 to |items|
      invariant forall name :: name in out <==> name != "" && exists j :: 0 <= j < k && Normalized(items[j]) == name
    {
      var normalized := Normalized(items[k]);
      if normalized != "" {
        out := out + {normalized};
      }
    }
  }

  method FindFirstDenied(functions: seq<string>, denied: seq<string>) returns (name: string)
    ensures name == FirstDenied(functions, denied)
  {
    hide Normalized, Lists;
    var deniedSet := NormalizedSet(denied);
    for k := 0 to |functions|
      invariant FirstDenied(functions, denied) == FirstDenied(functions[k..], denied)
    {
      if Normalized(functions[k]) in deniedSet {
        return Normalized(functions[k]);
      }
      assert functions[k..][1..] == functions[k + 1..];
    }
    return "";
  }

  method FindFirstNotAllowed(functions: seq<string>, allowed: seq<string>) returns (name: string)
    ensures name == FirstNotAllowed(functions, allowed)
  {
    hide Normalized, Lists;
    if |allowed| == 0 {
      return "";
    }
    var allowedSet := NormalizedSet(allowed);
    for k := 0 to |functions|
      invariant FirstNotAllowed(functions, allowed) == FirstNotAllowed(functions[k..], allowed)
    {
      var normalized := Normalized(functions[k]);
      if normalized !in allowedSet {
        return normalized;
      }
      assert functions[k..][1..] == functions[k + 1..];
    }
    return "";
  }

  method ValidatePromQLPolicy(policy: PromQLPolicy, request: string) returns (decision: Decision)
    ensures decision == Decide(policy, Stripped(Outside, request))
  {
    hide Calls, Firsts, Word, Subquery, FirstDenied, FirstNotAllowed, Stripped, Text.ToLower;
    var buffer := new char[|request|](i requires 0 <= i < |request| => request[i]);
    assert buffer[..] == request;
    StripQuotedContent(buffer);
    var query := buffer[..];
    var functions := PromQLFunctions(query);
    var denied := FindFirstDenied(functions, policy.denied);
    if denied != "" {
      return FunctionDenied(denied);
    }
    var notAllowed := FindFirstNotAllowed(functions, policy.allowed);
    if notAllowed != "" {
      return FunctionNotAllowed(notAllowed);
    }
    if policy.allowSubqueries == Some(false) {
      var subquery := HasPromQLSubquery(query);
      if subquery {
        return SubqueryDenied;
      }
    }
    if policy.allowOffset == Some(false) {
      var offset := HasWordToken(query, OFFSET);
      if offset {
        return OffsetDenied;
      }
    }
    if policy.allowAtModifier == Some(false) {
      var at := HasPromQLAtModifier(query);
      if at {
        return AtModifierDenied;
      }
    }
    return Allowed;
  }
}
