/**
 * What the two colour signatures (iqdb/RBGSignature.cs and
 * iqdb/ColorSignature.cs) share: the two-digit hex printing of a channel
 * value, the colour histogram, the outcome of sorting it with Array.Sort, and
 * the weight block appended to the integer record.
 */
module Palette {
  import opened Wire
  import opened Text

  /** The number of colour slots both signatures keep. */
  const TOP_COUNT := 50

  // ------------------------------------------------------------- hex printing

  /**
   * getHexUint of an integral, non-negative value: values above 255 print as
   * FF, and the result is always exactly two upper-case hex digits.
   */
  function GetHexUint(d: u32): (s: string)
    ensures |s| == 2 && IsHexDigit(s[0]) && IsHexDigit(s[1])
    ensures !('a' <= s[0] <= 'f') && !('a' <= s[1] <= 'f')
    ensures 16 * HexValue(s[0]) + HexValue(s[1]) == if d > 255 then 255 else d
  {
    UpperHex2(if d > 255 then 255 else d)
  }

  // ---------------------------------------------------------------- histogram

  predicate Below(cids: seq<nat>, size: nat) {
    forall k :: 0 <= k < |cids| ==> cids[k] < size
  }

  /** The histogram of the colour ids over `size` buckets, one `histogram[cid]++` per id. */
  function Counts(cids: seq<nat>, size: nat): (h: seq<nat>)
    requires Below(cids, size)
    ensures |h| == size
  {
    if cids == [] then seq(size, _ => 0)
    else
      var h := Counts(cids[..|cids| - 1], size);
      var c := cids[|cids| - 1];
      h[c := h[c] + 1]
  }

  function Sum(s: seq<nat>): nat {
    if s == [] then 0 else Sum(s[..|s| - 1]) + s[|s| - 1]
  }

  /** Each bucket holds the number of times its id occurs. */
  lemma {:induction false} CountsMeaning(cids: seq<nat>, size: nat)
    requires Below(cids, size)
    ensures forall c :: 0 <= c < size ==> Counts(cids, size)[c] == multiset(cids)[c]
  {
    if cids != [] {
      var init, c := cids[..|cids| - 1], cids[|cids| - 1];
      assert cids == init + [c];
      CountsMeaning(init, size);
    }
  }

  /** Raising one entry by one raises the sum by one. */
  lemma {:induction false} SumBump(s: seq<nat>, x: nat)
    requires x < |s|
    ensures Sum(s[x := s[x] + 1]) == Sum(s) + 1
  {
    var t := s[x := s[x] + 1];
    if x < |s| - 1 {
      assert t[..|t| - 1] == s[..|s| - 1][x := s[x] + 1];
      SumBump(s[..|s| - 1], x);
    } else {
      assert t[..|t| - 1] == s[..|s| - 1];
    }
  }

  lemma {:induction false} SumZeros(n: nat)
    ensures Sum(seq(n, _ => 0)) == 0
  {
    if n > 0 {
      assert seq(n, _ => 0)[..n - 1] == seq(n - 1, _ => 0);
      SumZeros(n - 1);
    }
  }

  /** Every id is counted exactly once: the entries sum to the number of ids. */
  lemma {:induction false} CountsSum(cids: seq<nat>, size: nat)
    requires Below(cids, size)
    ensures Sum(Counts(cids, size)) == |cids|
  {
    if cids == [] {
      SumZeros(size);
    } else {
      var init := cids[..|cids| - 1];
      CountsSum(init, size);
      SumBump(Counts(init, size), cids[|cids| - 1]);
    }
  }

  /** The counting loop of FromImage over ids already computed per pixel. */
  method Histogram(cids: seq<nat>, size: nat) returns (histogram: array<nat>)
    requires Below(cids, size)
    ensures fresh(histogram)
    ensures histogram[..] == Counts(cids, size)
  {
    histogram := new nat[size](_ => 0);
    assert histogram[..] == Counts([], size);
    var i := 0;
    while i < |cids|
      invariant 0 <= i <= |cids|
      invariant histogram[..] == Counts(cids[..i], size)
    {
      assert cids[..i + 1][..i] == cids[..i];
      histogram[cids[i]] := histogram[cids[i]] + 1;
      i := i + 1;
    }
    assert cids[..i] == cids;
  }

  // ---------------------------------------------------------- the sort outcome

  /**
   * `order` lists every bucket once, by non-decreasing count: what
   * Array.Sort(histogram, ids) leaves in `ids` when ids starts as 0, 1, 2, ...
   * The library sort is unstable, so any such order is a possible outcome.
   */
  predicate SortsBy(order: seq<nat>, h: seq<nat>) {
    |order| == |h| &&
    (forall k :: 0 <= k < |order| ==> order[k] < |h|) &&
    (forall k, l :: 0 <= k < l < |order| ==> order[k] != order[l] && h[order[k]] <= h[order[l]])
  }

  // ------------------------------------------------------------------- codec

  /** The weight block: the count truncated to ushort, then every weight. */
  function EncodeWeights(ws: seq<u16>): seq<Cell> {
    U16(|ws| % 0x1_0000) + U16s(ws)
  }

  /** The weight block read back; a count other than the id count raises InvalidDataException. */
  function DecodeWeights(s: seq<Cell>, n: nat): Result<(seq<u16>, seq<Cell>)> {
    var (len, rest) :- ReadU16(s);
    if len != n then Err(InvalidData) else ReadU16s(rest, len)
  }

  /** The weights come back exactly when their count is the id count; otherwise the block is refused. */
  lemma WeightsRoundTrip(ws: seq<u16>, n: nat, rest: seq<Cell>)
    requires |ws| < 0x1_0000
    ensures n == |ws| ==> DecodeWeights(EncodeWeights(ws) + rest, n) == Ok((ws, rest))
    ensures n != |ws| ==> DecodeWeights(EncodeWeights(ws) + rest, n) == Err(InvalidData)
  {
    assert EncodeWeights(ws) + rest == U16(|ws|) + (U16s(ws) + rest);
    U16RoundTrip(|ws|, U16s(ws) + rest);
    U16sRoundTrip(ws, rest);
  }
}
