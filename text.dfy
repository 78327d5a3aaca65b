/**
 * The string operations of the .NET base library that the modelled code uses:
 * hexadecimal digits, ASCII case mapping, trimming, splitting on separator
 * characters, unsigned decimal parsing and decimal printing.
 */
module Text {
  import opened Wire

  predicate IsDecimalDigit(c: char) { '0' <= c <= '9' }

  predicate AllDecimal(s: string) { forall k :: 0 <= k < |s| ==> IsDecimalDigit(s[k]) }

  predicate IsHexDigit(c: char) { '0' <= c <= '9' || 'a' <= c <= 'f' || 'A' <= c <= 'F' }

  /** The value of one hexadecimal digit of either case. */
  function HexValue(c: char): (v: nat)
    requires IsHexDigit(c)
    ensures v < 16
  {
    if '0' <= c <= '9' then c as int - '0' as int
    else if 'a' <= c <= 'f' then c as int - 'a' as int + 10
    else c as int - 'A' as int + 10
  }

  /** The digit of a hash string: `BitConverter.ToString` gives the upper-case digit, and `ToLower` lowers it. */
  function LowerHexDigit(v: nat): (c: char)
    requires v < 16
    ensures IsHexDigit(c) && HexValue(c) == v && !('A' <= c <= 'F')
  {
    if v < 10 then ('0' as int + v) as char else ('a' as int + v - 10) as char
  }

  function UpperHexDigit(v: nat): (c: char)
    requires v < 16
    ensures IsHexDigit(c) && HexValue(c) == v && !('a' <= c <= 'f')
  {
    if v < 10 then ('0' as int + v) as char else ('A' as int + v - 10) as char
  }

  /** Char.ToLower restricted to ASCII letters. */
  function ToLowerChar(c: char): (l: char)
    ensures !('A' <= l <= 'Z')
    ensures !('A' <= c <= 'Z') ==> l == c
  {
    if 'A' <= c <= 'Z' then (c as int + 32) as char else c
  }

  function ToLower(s: string): (l: string)
    ensures |l| == |s|
    ensures forall k :: 0 <= k < |s| ==> l[k] == ToLowerChar(s[k])
  {
    if s == [] then [] else [ToLowerChar(s[0])] + ToLower(s[1..])
  }

  /** A lower-case hexadecimal digit is its own value's canonical lower-case digit. */
  lemma LowerHexDigitOfValue(c: char)
    requires IsHexDigit(c)
    ensures LowerHexDigit(HexValue(c)) == ToLowerChar(c)
  {
  }

  /** Two upper-case hexadecimal digits, as `ToString("X2")` prints a value below 256. */
  function UpperHex2(v: nat): (s: string)
    requires v < 256
    ensures |s| == 2 && IsHexDigit(s[0]) && IsHexDigit(s[1])
    ensures 16 * HexValue(s[0]) + HexValue(s[1]) == v
    ensures !('a' <= s[0] <= 'f') && !('a' <= s[1] <= 'f')
  {
    [UpperHexDigit(v / 16), UpperHexDigit(v % 16)]
  }

  /** Two lower-case hexadecimal digits per byte, with no separators. */
  function LowerHex(bs: seq<byte>): (s: string)
    ensures |s| == 2 * |bs|
    ensures forall k :: 0 <= k < |s| ==> IsHexDigit(s[k]) && !('A' <= s[k] <= 'F')
  {
    if bs == [] then [] else [LowerHexDigit(bs[0] / 16), LowerHexDigit(bs[0] % 16)] + LowerHex(bs[1..])
  }

  /** Characters 2k and 2k+1 of LowerHex(bs) spell byte k in base 16. */
  lemma {:induction false} LowerHexAt(bs: seq<byte>, k: nat)
    requires k < |bs|
    ensures LowerHex(bs)[2 * k] == LowerHexDigit(bs[k] / 16)
    ensures LowerHex(bs)[2 * k + 1] == LowerHexDigit(bs[k] % 16)
    ensures 16 * HexValue(LowerHex(bs)[2 * k]) + HexValue(LowerHex(bs)[2 * k + 1]) == bs[k]
  {
    if k > 0 {
      LowerHexAt(bs[1..], k - 1);
      assert LowerHex(bs)[2..] == LowerHex(bs[1..]);
      assert LowerHex(bs)[2 * k] == LowerHex(bs)[2..][2 * (k - 1)];
      assert LowerHex(bs)[2 * k + 1] == LowerHex(bs)[2..][2 * (k - 1) + 1];
    }
  }

  // ------------------------------------------------------------- whitespace

  /**
   * Char.IsWhiteSpace, which String.Trim uses: tab through carriage return,
   * space, U+0085, no-break space and the other Unicode space separators,
   * and the line and paragraph separators.
   */
  predicate IsWhiteSpace(c: char) {
    || c == ' ' || '\t' <= c <= '\r' || c == '\U{0085}' || c == '\U{00A0}' || c == '\U{1680}'
    || '\U{2000}' <= c <= '\U{200A}' || c == '\U{2028}' || c == '\U{2029}'
    || c == '\U{202F}' || c == '\U{205F}' || c == '\U{3000}'
  }

  /** The white space number parsing allows around a number: tab through carriage return, and space. */
  predicate IsNumberWhite(c: char) { c == ' ' || '\t' <= c <= '\r' }

  function TrimStart(s: string, white: char -> bool): string {
    if s != [] && white(s[0]) then TrimStart(s[1..], white) else s
  }

  function TrimEnd(s: string, white: char -> bool): string {
    if s != [] && white(s[|s| - 1]) then TrimEnd(s[..|s| - 1], white) else s
  }

  /** The input without the characters white accepts at either end. */
  function TrimWith(s: string, white: char -> bool): string {
    TrimEnd(TrimStart(s, white), white)
  }

  /** String.Trim: the input without the white space at either end. */
  function Trim(s: string): string {
    TrimWith(s, IsWhiteSpace)
  }

  /** TrimStart removes a prefix of white space, up to the first other character. */
  lemma {:induction false} TrimStartSpec(s: string, white: char -> bool)
    ensures |TrimStart(s, white)| <= |s| && TrimStart(s, white) == s[|s| - |TrimStart(s, white)|..]
    ensures TrimStart(s, white) == [] || !white(TrimStart(s, white)[0])
    ensures forall k :: 0 <= k < |s| - |TrimStart(s, white)| ==> white(s[k])
  {
    if s != [] && white(s[0]) {
      var t := s[1..];
      TrimStartSpec(t, white);
      var n := |s| - |TrimStart(s, white)|;
      assert TrimStart(s, white) == TrimStart(t, white) && n == 1 + (|t| - |TrimStart(t, white)|);
      assert t[n - 1..] == s[n..];
      forall k | 0 <= k < n
        ensures white(s[k])
      {
        if k > 0 {
          assert s[k] == t[k - 1];
        }
      }
    }
  }

  /** TrimEnd removes a suffix of white space, back to the last other character. */
  lemma {:induction false} TrimEndSpec(s: string, white: char -> bool)
    ensures |TrimEnd(s, white)| <= |s| && TrimEnd(s, white) == s[..|TrimEnd(s, white)|]
    ensures TrimEnd(s, white) == [] || !white(TrimEnd(s, white)[|TrimEnd(s, white)| - 1])
    ensures forall k :: |TrimEnd(s, white)| <= k < |s| ==> white(s[k])
  {
    if s != [] && white(s[|s| - 1]) {
      var t := s[..|s| - 1];
      TrimEndSpec(t, white);
      var n := |TrimEnd(s, white)|;
      assert TrimEnd(s, white) == TrimEnd(t, white) && n <= |t|;
      assert t[..n] == s[..n];
      forall k | n <= k < |s|
        ensures white(s[k])
      {
        if k < |t| {
          assert s[k] == t[k];
        }
      }
    }
  }

  /**
   * Trim removes white space at both ends only: the result is a piece of the
   * input that neither starts nor ends with white space, everything cut away
   * is white space, and it is empty only when the input is all white space.
   */
  lemma TrimSpec(s: string, white: char -> bool)
    ensures var i := |s| - |TrimStart(s, white)|;
      (0 <= i <= |s| - |TrimWith(s, white)| && TrimWith(s, white) == s[i..i + |TrimWith(s, white)|] &&
       (forall k :: 0 <= k < i ==> white(s[k])) &&
       (forall k :: i + |TrimWith(s, white)| <= k < |s| ==> white(s[k])))
    ensures TrimWith(s, white) == [] || (!white(TrimWith(s, white)[0]) && !white(TrimWith(s, white)[|TrimWith(s, white)| - 1]))
  {
    var u := TrimStart(s, white);
    TrimStartSpec(s, white);
    TrimEndSpec(u, white);
    var t := TrimEnd(u, white);
    var i := |s| - |u|;
    assert u == s[i..] && t == s[i..i + |t|];
    forall k | i + |t| <= k < |s|
      ensures white(s[k])
    {
      assert s[k] == u[k - i];
    }
    assert 0 <= i <= |s| - |t| && forall k :: 0 <= k < i ==> white(s[k]);
    assert t != [] ==> t[0] == u[0];
  }

  // --------------------------------------------------------------- splitting

  /** The index of the first character of s that is in seps, or |s|. */
  function FirstSeparator(s: string, seps: set<char>): (k: nat)
    ensures k <= |s| && (k < |s| ==> s[k] in seps)
    ensures forall j :: 0 <= j < k ==> s[j] !in seps
  {
    if s == [] || s[0] in seps then 0 else 1 + FirstSeparator(s[1..], seps)
  }

  /**
   * String.Split(seps, StringSplitOptions.RemoveEmptyEntries): the maximal runs
   * of characters that are not separators, in order.
   */
  function Split(s: string, seps: set<char>): (tokens: seq<string>)
    decreases |s|
  {
    if s == [] then []
    else if s[0] in seps then Split(s[1..], seps)
    else
      var k := FirstSeparator(s, seps);
      [s[..k]] + Split(s[k..], seps)
  }

  /** The characters of s that are not separators. */
  function WithoutSeparators(s: string, seps: set<char>): string {
    if s == [] then [] else (if s[0] in seps then [] else [s[0]]) + WithoutSeparators(s[1..], seps)
  }

  function Concat(tokens: seq<string>): string {
    if tokens == [] then [] else tokens[0] + Concat(tokens[1..])
  }

  lemma {:induction false} WithoutSeparatorsAppend(a: string, b: string, seps: set<char>)
    ensures WithoutSeparators(a + b, seps) == WithoutSeparators(a, seps) + WithoutSeparators(b, seps)
  {
    if a == [] {
      assert a + b == b;
    } else {
      assert (a + b)[1..] == a[1..] + b;
      WithoutSeparatorsAppend(a[1..], b, seps);
    }
  }

  lemma {:induction false} WithoutSeparatorsOfRun(s: string, seps: set<char>)
    requires forall j :: 0 <= j < |s| ==> s[j] !in seps
    ensures WithoutSeparators(s, seps) == s
  {
    if s != [] {
      WithoutSeparatorsOfRun(s[1..], seps);
    }
  }

  /** A token: nonempty and free of separators. */
  predicate IsToken(t: string, seps: set<char>) {
    t != [] && forall j :: 0 <= j < |t| ==> t[j] !in seps
  }

  /** Every piece String.Split keeps is nonempty and free of separators. */
  lemma {:induction false} SplitTokens(s: string, seps: set<char>)
    ensures forall k :: 0 <= k < |Split(s, seps)| ==> IsToken(Split(s, seps)[k], seps)
    decreases |s|
  {
    if s == [] {
    } else if s[0] in seps {
      SplitTokens(s[1..], seps);
    } else {
      var k := FirstSeparator(s, seps);
      SplitTokens(s[k..], seps);
      var tokens := [s[..k]] + Split(s[k..], seps);
      assert forall j :: 1 <= j < |tokens| ==> tokens[j] == Split(s[k..], seps)[j - 1];
    }
  }

  /** The pieces String.Split keeps, laid end to end, are the input with its separators removed. */
  lemma {:induction false} SplitConcat(s: string, seps: set<char>)
    ensures Concat(Split(s, seps)) == WithoutSeparators(s, seps)
    decreases |s|
  {
    if s == [] {
    } else if s[0] in seps {
      SplitConcat(s[1..], seps);
    } else {
      var k := FirstSeparator(s, seps);
      SplitConcat(s[k..], seps);
      var tokens := [s[..k]] + Split(s[k..], seps);
      assert tokens[1..] == Split(s[k..], seps);
      assert s == s[..k] + s[k..];
      WithoutSeparatorsAppend(s[..k], s[k..], seps);
      WithoutSeparatorsOfRun(s[..k], seps);
    }
  }

  // ------------------------------------------------------------ decimal numbers

  function DigitValue(c: char): (v: nat)
    requires IsDecimalDigit(c)
    ensures v < 10
  {
    c as int - '0' as int
  }

  /** The value of a string of decimal digits, most significant first. */
  function DecimalValue(s: string): nat
    requires AllDecimal(s)
  {
    if s == [] then 0 else 10 * DecimalValue(s[..|s| - 1]) + DigitValue(s[|s| - 1])
  }

  /**
   * UInt32.Parse with the default NumberStyles.Integer: optional white space
   * around an optional sign and at least one decimal digit. A value above
   * 2^32-1, or a minus sign before a nonzero value, is an overflow.
   */
  function ParseUInt32(s: string): (r: Result<u32>)
    ensures s == [] ==> r == Err(Format)
  {
    var t := TrimWith(s, IsNumberWhite);
    var negative := t != [] && t[0] == '-';
    var digits := if t != [] && (t[0] == '-' || t[0] == '+') then t[1..] else t;
    if digits == [] || !AllDecimal(digits) then Err(Format)
    else
      var v := DecimalValue(digits);
      if negative && v != 0 then Err(Overflow)
      else if v > 0xFFFF_FFFF then Err(Overflow)
      else Ok(v)
  }

  /** The decimal digits of a number, as `ToString()` prints an integer. */
  function DecimalString(n: nat): (s: string)
    ensures s != [] && AllDecimal(s)
    ensures DecimalValue(s) == n
  {
    var last := [('0' as int + n % 10) as char];
    if n < 10 then last
    else
      var s := DecimalString(n / 10) + last;
      assert s[..|s| - 1] == DecimalString(n / 10);
      s
  }

  /** UInt32.Parse reads back what ToString printed. */
  lemma ParseDecimalString(n: u32)
    ensures ParseUInt32(DecimalString(n)) == Ok(n)
  {
    var d := DecimalString(n);
    assert !IsNumberWhite(d[0]) && !IsNumberWhite(d[|d| - 1]);
    assert TrimStart(d, IsNumberWhite) == d;
    assert TrimEnd(d, IsNumberWhite) == d;
  }

  /** A nonempty run of decimal digits parses to its value when that fits in 32 bits, and overflows otherwise. */
  lemma ParseDigits(s: string)
    requires s != [] && AllDecimal(s)
    ensures DecimalValue(s) <= 0xFFFF_FFFF ==> ParseUInt32(s) == Ok(DecimalValue(s))
    ensures DecimalValue(s) > 0xFFFF_FFFF ==> ParseUInt32(s) == Err(Overflow)
  {
    assert !IsNumberWhite(s[0]) && !IsNumberWhite(s[|s| - 1]);
    assert TrimStart(s, IsNumberWhite) == s;
    assert TrimEnd(s, IsNumberWhite) == s;
  }

  predicate EndsWith(s: string, suffix: string) {
    |suffix| <= |s| && s[|s| - |suffix|..] == suffix
  }
}
