/** Cutting a text to a number of bytes of its UTF-8 encoding without splitting a character. */
module StatusBudget {

  const MAX_CLAIM_STATEMENT_BYTES := 1024

  /** The number of bytes that encode a character. */
  function Width(c: char): (n: nat)
    ensures 1 <= n <= 4
  {
    if c as int < 0x80 then 1 else if c as int < 0x800 then 2 else if c as int < 0x1_0000 then 3 else 4
  }

  /** The encoding of RFC 3629, section 3: n bytes carry 7, 11, 16 and 21 bits, and the shortest form is used. */
  lemma WidthIsTheShortest(c: char)
    ensures var capacity := map[1 := 0x80, 2 := 0x800, 3 := 0x1_0000, 4 := 0x20_0000];
            c as int < capacity[Width(c)] && (Width(c) > 1 ==> c as int >= capacity[Width(c) - 1])
  {
  }

  function Bytes(s: string): nat {
    if s == "" then 0 else Bytes(s[..|s| - 1]) + Width(s[|s| - 1])
  }

  /** The number of leading characters, from the first n on, that still fit. */
  function Fitting(s: string, n: nat, maxBytes: int): (m: nat)
    requires n <= |s|
    ensures n <= m <= |s|
    decreases |s| - n
  {
    if n < |s| && Bytes(s[..n + 1]) <= maxBytes then Fitting(s, n + 1, maxBytes) else n
  }

  function Cut(s: string, maxBytes: int): string {
    s[..Fitting(s, 0, maxBytes)]
  }

  lemma {:induction false} PrefixIsShorter(s: string, n: nat)
    requires n <= |s|
    ensures Bytes(s[..n]) + (|s| - n) <= Bytes(s)
    decreases |s|
  {
    if n == |s| {
      assert s[..n] == s;
    } else {
      PrefixIsShorter(s[..|s| - 1], n);
      assert s[..|s| - 1][..n] == s[..n];
    }
  }

  lemma {:induction false} FittingFits(s: string, n: nat, maxBytes: int)
    requires n <= |s| && (n == 0 || Bytes(s[..n]) <= maxBytes)
    ensures var m := Fitting(s, n, maxBytes);
            (m == 0 || Bytes(s[..m]) <= maxBytes) && (m < |s| ==> Bytes(s[..m + 1]) > maxBytes)
    decreases |s| - n
  {
    if n < |s| && Bytes(s[..n + 1]) <= maxBytes {
      FittingFits(s, n + 1, maxBytes);
    }
  }

  /** What is kept fits, everything longer does not, and a text that fits is kept whole. */
  lemma CutIsTheLongest(s: string, maxBytes: nat)
    ensures Cut(s, maxBytes) <= s && Bytes(Cut(s, maxBytes)) <= maxBytes
    ensures forall n :: |Cut(s, maxBytes)| < n <= |s| ==> Bytes(s[..n]) > maxBytes
    ensures Cut(s, maxBytes) == s <==> Bytes(s) <= maxBytes
  {
    FittingFits(s, 0, maxBytes);
    var m := Fitting(s, 0, maxBytes);
    assert s[..0] == "";
    forall n | m < n <= |s|
      ensures Bytes(s[..n]) > maxBytes
    {
      PrefixIsShorter(s[..n], m + 1);
      assert s[..n][..m + 1] == s[..m + 1];
    }
    assert s[..|s|] == s;
  }

  method TruncateUTF8(value: string, maxBytes: int)
    returns (kept: string, originalBytes: nat, retainedBytes: nat, truncated: bool)
    ensures kept == Cut(value, maxBytes) && originalBytes == Bytes(value) && retainedBytes == Bytes(kept)
    ensures truncated <==> kept != value
  {
    originalBytes := Bytes(value);
    FittingFits(value, 0, maxBytes);
    assert value[..0] == "" && value[..|value|] == value;
    if maxBytes <= 0 {
      return "", originalBytes, 0, originalBytes > 0;
    }
    CutIsTheLongest(value, maxBytes);
    if originalBytes <= maxBytes {
      return value, originalBytes, originalBytes, false;
    }
    var retained := 0;
    retainedBytes := 0;
    while retained < |value|
      invariant retained <= |value| && retainedBytes == Bytes(value[..retained])
      invariant Fitting(value, retained, maxBytes) == Fitting(value, 0, maxBytes)
      decreases |value| - retained
    {
      assert value[..retained + 1][..retained] == value[..retained];
      var size := Width(value[retained]);
      if retainedBytes + size > maxBytes {
        break;
      }
      retained := retained + 1;
      retainedBytes := retainedBytes + size;
    }
    return value[..retained], originalBytes, retainedBytes, true;
  }
}
