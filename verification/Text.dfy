/**
  The string operations the program takes from its standard library, on sequences of characters:
  trimming, lower-casing, prefixes and the byte order used by every sort.
 */
module Text {

  predicate IsSpace(c: char) {
    c == ' ' || c == '\t' || c == '\n' || c == '\r' || c == 11 as char || c == 12 as char
  }

  function TrimLeft(s: string): string {
    if s == "" || !IsSpace(s[0]) then s else TrimLeft(s[1..])
  }

  function TrimRight(s: string): string {
    if s == "" || !IsSpace(s[|s| - 1]) then s else TrimRight(s[..|s| - 1])
  }

  /** The string without leading and trailing white space. */
  function TrimSpace(s: string): string {
    TrimRight(TrimLeft(s))
  }

  lemma {:induction false} TrimLeftLeaves(s: string)
    ensures var t := TrimLeft(s);
            |t| <= |s| && t == s[|s| - |t|..] && (t == "" || !IsSpace(t[0]))
  {
    if s != "" && IsSpace(s[0]) {
      TrimLeftLeaves(s[1..]);
    }
  }

  lemma {:induction false} TrimRightLeaves(s: string)
    ensures var t := TrimRight(s);
            t <= s && (t == "" || !IsSpace(t[|t| - 1]))
  {
    if s != "" && IsSpace(s[|s| - 1]) {
      TrimRightLeaves(s[..|s| - 1]);
    }
  }

  /** What is left is a part of the string with no white space at its ends. */
  lemma TrimSpaceLeaves(s: string)
    ensures var t := TrimSpace(s);
            |t| <= |s| && (t == "" || (!IsSpace(t[0]) && !IsSpace(t[|t| - 1]))) && forall c :: c in t ==> c in s
  {
    TrimLeftLeaves(s);
    TrimRightLeaves(TrimLeft(s));
  }

  /** A string with no white space at its ends is left as it is. */
  lemma TrimmedStays(s: string)
    requires s == "" || (!IsSpace(s[0]) && !IsSpace(s[|s| - 1]))
    ensures TrimSpace(s) == s
  {
  }

  lemma TrimTrailingBlank(s: string)
    requires s != "" && !IsSpace(s[0]) && !IsSpace(s[|s| - 1])
    ensures TrimSpace(s + " ") == s
  {
    var longer := s + " ";
    assert longer[..|longer| - 1] == s;
    assert TrimRight(longer) == TrimRight(s);
  }

  lemma TrimSpaceIdempotent(s: string)
    ensures TrimSpace(TrimSpace(s)) == TrimSpace(s)
  {
    TrimSpaceLeaves(s);
    TrimmedStays(TrimSpace(s));
  }

  function LowerChar(c: char): char {
    if 'A' <= c <= 'Z' then (c as int + 32) as char else c
  }

  function ToLower(s: string): (t: string)
    ensures |t| == |s|
    ensures forall i :: 0 <= i < |s| ==> t[i] == LowerChar(s[i])
  {
    seq(|s|, i requires 0 <= i < |s| => LowerChar(s[i]))
  }

  /** Byte order on strings. */
  predicate Less(a: string, b: string) {
    if b == "" then false
    else if a == "" then true
    else a[0] < b[0] || (a[0] == b[0] && Less(a[1..], b[1..]))
  }

  lemma LessIrreflexive(a: string)
    ensures !Less(a, a)
  {
  }

  lemma LessTotal(a: string, b: string)
    ensures a == b || Less(a, b) || Less(b, a)
  {
    if a != "" && b != "" && a[0] == b[0] {
      LessTotal(a[1..], b[1..]);
      assert a == [a[0]] + a[1..] && b == [b[0]] + b[1..];
    }
  }

  lemma LessAsymmetric(a: string, b: string)
    requires Less(a, b)
    ensures !Less(b, a)
  {
  }

  lemma LessTransitive(a: string, b: string, c: string)
    requires Less(a, b) && Less(b, c)
    ensures Less(a, c)
  {
  }

  lemma LessIsNegativelyTransitive(a: string, b: string, c: string)
    requires !Less(b, a) && !Less(c, b)
    ensures !Less(c, a)
  {
    if Less(c, a) {
      LessTotal(a, b);
      LessTotal(b, c);
      if a != b && b != c {
        LessTransitive(a, b, c);
      }
      LessAsymmetric(c, a);
    }
  }

  /** The part of a string before its first occurrence of a character. */
  function Before(s: string, c: char): (p: string)
    ensures c !in p
    ensures c !in s ==> p == s
  {
    if s == "" || s[0] == c then "" else [s[0]] + Before(s[1..], c)
  }

  lemma {:induction false} BeforeSeparator(a: string, c: char, rest: string)
    requires c !in a
    ensures Before(a + [c] + rest, c) == a
  {
    var whole := a + [c] + rest;
    if a == "" {
      assert whole[0] == c;
    } else {
      assert whole[1..] == a[1..] + [c] + rest;
      BeforeSeparator(a[1..], c, rest);
    }
  }

  // ------------------------------------------------------------------------ words

  function Word(s: string): (w: string)
    ensures w <= s
    ensures forall i :: 0 <= i < |w| ==> !IsSpace(w[i])
    ensures s != "" && !IsSpace(s[0]) ==> w != ""
  {
    if s == "" || IsSpace(s[0]) then "" else [s[0]] + Word(s[1..])
  }

  /** The words of a string, separated by white space. */
  function Fields(s: string): (ws: seq<string>)
    ensures forall i :: 0 <= i < |ws| ==> ws[i] != ""
    decreases |s|
  {
    if s == "" then []
    else if IsSpace(s[0]) then Fields(s[1..])
    else [Word(s)] + Fields(s[|Word(s)|..])
  }

  function Join(ws: seq<string>, separator: string): string {
    if ws == [] then ""
    else if |ws| == 1 then ws[0]
    else ws[0] + separator + Join(ws[1..], separator)
  }

  /** Only a blank string has no words. */
  lemma FieldsOfTrimmed(s: string)
    requires s == TrimSpace(s)
    ensures Join(Fields(s), " ") == "" <==> s == ""
  {
    TrimSpaceLeaves(s);
    if s != "" {
      assert Fields(s)[0] != "";
    }
  }

  predicate IsWord(w: string) {
    w != "" && forall i :: 0 <= i < |w| ==> !IsSpace(w[i])
  }

  lemma {:induction false} FieldsAreWords(s: string)
    ensures forall w :: w in Fields(s) ==> IsWord(w)
  {
    if s != "" {
      FieldsAreWords(if IsSpace(s[0]) then s[1..] else s[|Word(s)|..]);
    }
  }

  lemma {:induction false} WordStops(w: string, rest: string)
    requires forall i :: 0 <= i < |w| ==> !IsSpace(w[i])
    requires rest == "" || IsSpace(rest[0])
    ensures Word(w + rest) == w
  {
    if w == "" {
      assert w + rest == rest;
    } else {
      assert (w + rest)[1..] == w[1..] + rest;
      WordStops(w[1..], rest);
    }
  }

  lemma FieldsStep(w: string, rest: string)
    requires IsWord(w) && (rest == "" || IsSpace(rest[0]))
    ensures Fields(w + rest) == [w] + Fields(rest)
  {
    WordStops(w, rest);
    assert (w + rest)[0] == w[0] && (w + rest)[|w|..] == rest;
  }

  /** Words joined by a blank are told apart again. */
  lemma {:induction false} FieldsOfJoin(ws: seq<string>)
    requires forall w :: w in ws ==> IsWord(w)
    ensures Fields(Join(ws, " ")) == ws
  {
    if ws != [] {
      var rest := Join(ws[1..], " ");
      FieldsOfJoin(ws[1..]);
      assert ws == [ws[0]] + ws[1..];
      if |ws| == 1 {
        FieldsStep(ws[0], "");
        assert ws[0] + "" == ws[0];
      } else {
        FieldsStep(ws[0], " " + rest);
        assert ws[0] + " " + rest == ws[0] + (" " + rest);
        assert (" " + rest)[1..] == rest;
      }
    }
  }

  lemma {:induction false} FieldsSkipLeft(s: string)
    ensures Fields(TrimLeft(s)) == Fields(s)
  {
    if s != "" && IsSpace(s[0]) {
      FieldsSkipLeft(s[1..]);
    }
  }

  lemma {:induction false} WordOfPrefix(s: string, c: char)
    requires IsSpace(c)
    ensures Word(s + [c]) == Word(s)
  {
    if s != "" && !IsSpace(s[0]) {
      assert (s + [c])[1..] == s[1..] + [c];
      WordOfPrefix(s[1..], c);
    }
  }

  lemma {:induction false} FieldsSkipLast(s: string, c: char)
    requires IsSpace(c)
    ensures Fields(s + [c]) == Fields(s)
    decreases |s|
  {
    if s != "" {
      WordOfPrefix(s, c);
      var n := if IsSpace(s[0]) then 1 else |Word(s)|;
      assert (s + [c])[n..] == s[n..] + [c];
      FieldsSkipLast(s[n..], c);
    }
  }

  lemma {:induction false} FieldsSkipRight(s: string)
    ensures Fields(TrimRight(s)) == Fields(s)
  {
    if s != "" && IsSpace(s[|s| - 1]) {
      FieldsSkipRight(s[..|s| - 1]);
      assert s == s[..|s| - 1] + [s[|s| - 1]];
      FieldsSkipLast(s[..|s| - 1], s[|s| - 1]);
    }
  }

  lemma FieldsOfTrim(s: string)
    ensures Fields(TrimSpace(s)) == Fields(s)
  {
    FieldsSkipLeft(s);
    FieldsSkipRight(TrimLeft(s));
  }

  lemma {:induction false} LowerTrimsLeft(s: string)
    ensures TrimLeft(ToLower(s)) == ToLower(TrimLeft(s))
  {
    if s != "" && IsSpace(s[0]) {
      assert ToLower(s)[1..] == ToLower(s[1..]);
      LowerTrimsLeft(s[1..]);
    }
  }

  lemma {:induction false} LowerTrimsRight(s: string)
    ensures TrimRight(ToLower(s)) == ToLower(TrimRight(s))
  {
    if s != "" && IsSpace(s[|s| - 1]) {
      assert ToLower(s)[..|s| - 1] == ToLower(s[..|s| - 1]);
      LowerTrimsRight(s[..|s| - 1]);
    }
  }

  lemma LowerTrims(s: string)
    ensures TrimSpace(ToLower(s)) == ToLower(TrimSpace(s))
  {
    LowerTrimsLeft(s);
    LowerTrimsRight(TrimLeft(s));
  }
}
