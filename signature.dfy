/**
 * The state every image signature shares (iqdb/Signature.cs): a 16-byte MD5
 * hash set from its hexadecimal spelling, a temporary numeric ID and the
 * coefficient ids. The subclasses of the source (IntegerSignature and, below
 * it, HaarSignature, ColorSignature and RGBSignature) are told apart by a
 * `Kind` that carries the data each subclass adds.
 */
module Signatures {
  import opened Wire
  import opened Text

  /** The concrete class of a signature and the field it adds. */
  datatype Kind =
    | IntegerKind                        // IntegerSignature
    | HaarKind(averages: seq<real>)      // HaarSignature.m_AverageLuminance
    | ColorKind(colorWeights: seq<u16>)  // ColorSignature.weights
    | RgbKind(rgbWeights: seq<u16>)      // RGBSignature.weights

  /** A signature as a value: ID, hash (None for a null reference), SigData and kind. */
  datatype SigValue = SigValue(id: u32, hash: Option<seq<byte>>, sigData: seq<u32>, kind: Kind)

  const HASH_BYTES := 16
  const HASH_CHARS := 32

  /** The hash an absent MD5 string yields: `new byte[16]`. */
  function ZeroHash(): (h: seq<byte>)
    ensures |h| == HASH_BYTES && forall k :: 0 <= k < |h| ==> h[k] == 0
  {
    seq(HASH_BYTES, _ => 0)
  }

  // ---------------------------------------------------------------- hex parsing

  /**
   * The pairs Convert.ToByte(pair, 16) accepts: two hexadecimal digits, or a
   * '+' sign followed by one.
   */
  predicate PairOk(hi: char, lo: char) {
    IsHexDigit(lo) && (IsHexDigit(hi) || hi == '+')
  }

  /** The value of an accepted pair: a '+' sign contributes nothing. */
  function PairValue(hi: char, lo: char): (v: nat)
    requires PairOk(hi, lo)
    ensures v < 256
  {
    if hi == '+' then HexValue(lo) else 16 * HexValue(hi) + HexValue(lo)
  }

  /**
   * Convert.ToByte(pair, 16) on a two-character string: a leading '-' raises
   * ArgumentException (a base-16 number cannot be negative), a leading '+' is
   * skipped, and the digits left must all be hexadecimal (FormatException
   * otherwise).
   */
  function HexPair(hi: char, lo: char): (b: Result<byte>)
    ensures b.Ok? <==> PairOk(hi, lo)
    ensures b.Ok? ==> b.value == PairValue(hi, lo)
    ensures hi == '-' ==> b == Err(Argument)
    ensures b.Err? && hi != '-' ==> b == Err(Format)
    ensures IsHexDigit(hi) && IsHexDigit(lo) ==> b == Ok(16 * HexValue(hi) + HexValue(lo))
  {
    if hi == '-' then Err(Argument)
    else if hi == '+' then (if IsHexDigit(lo) then Ok(HexValue(lo)) else Err(Format))
    else if IsHexDigit(hi) && IsHexDigit(lo) then Ok(16 * HexValue(hi) + HexValue(lo))
    else Err(Format)
  }

  /**
   * Signature.StringToByteArray as a function: one byte per pair of characters,
   * left to right. The first pair Convert.ToByte refuses raises its exception;
   * a lone last character makes Substring(i, 2) run past the end
   * (ArgumentOutOfRangeException).
   */
  function HexToBytes(hex: string): (r: Result<seq<byte>>)
    ensures r.Ok? ==> 2 * |r.value| == |hex|
    ensures r.Err? ==> r.error in {ArgumentOutOfRange, Format, Argument}
  {
    if |hex| == 0 then Ok([])
    else if |hex| == 1 then Err(ArgumentOutOfRange)
    else
      var b :- HexPair(hex[0], hex[1]);
      var rest :- HexToBytes(hex[2..]);
      Ok([b] + rest)
  }

  predicate AllHex(s: string) { forall k :: 0 <= k < |s| ==> IsHexDigit(s[k]) }

  /** Every pair of an even-length string is one Convert.ToByte accepts. */
  predicate AllPairs(s: string) {
    |s| % 2 == 0 && forall k :: 0 <= k < |s| / 2 ==> PairOk(s[2 * k], s[2 * k + 1])
  }

  /**
   * What StringToByteArray promises: it succeeds exactly when every pair is
   * accepted, and then gives len/2 bytes, byte k the value of characters 2k
   * and 2k+1; it raises ArgumentException when the first pair starts with
   * '-', and ArgumentOutOfRangeException on an odd-length hex string.
   */
  lemma {:induction false} HexToBytesMeaning(hex: string)
    ensures HexToBytes(hex).Ok? <==> AllPairs(hex)
    ensures HexToBytes(hex).Ok? ==>
      |HexToBytes(hex).value| == |hex| / 2 &&
      forall k :: 0 <= k < |hex| / 2 ==> HexToBytes(hex).value[k] == PairValue(hex[2 * k], hex[2 * k + 1])
    ensures |hex| >= 2 && hex[0] == '-' ==> HexToBytes(hex) == Err(Argument)
    ensures |hex| % 2 == 1 && AllHex(hex) ==> HexToBytes(hex) == Err(ArgumentOutOfRange)
    decreases |hex|
  {
    if |hex| >= 2 {
      var tail := hex[2..];
      HexToBytesMeaning(tail);
      assert forall k :: 2 <= k < |hex| ==> hex[k] == tail[k - 2];
      assert AllPairs(hex) <==> PairOk(hex[0], hex[1]) && AllPairs(tail) by {
        if AllPairs(hex) {
          forall k | 0 <= k < |tail| / 2
            ensures PairOk(tail[2 * k], tail[2 * k + 1])
          {
            assert tail[2 * k] == hex[2 * (k + 1)] && tail[2 * k + 1] == hex[2 * (k + 1) + 1];
          }
        }
        if PairOk(hex[0], hex[1]) && AllPairs(tail) {
          forall k | 1 <= k < |hex| / 2
            ensures PairOk(hex[2 * k], hex[2 * k + 1])
          {
            assert hex[2 * k] == tail[2 * (k - 1)] && hex[2 * k + 1] == tail[2 * (k - 1) + 1];
          }
        }
      }
      if HexToBytes(hex).Ok? {
        var bs := HexToBytes(hex).value;
        assert bs[1..] == HexToBytes(tail).value;
        forall k | 1 <= k < |hex| / 2
          ensures bs[k] == PairValue(hex[2 * k], hex[2 * k + 1])
        {
          assert bs[k] == bs[1..][k - 1];
          assert hex[2 * k] == tail[2 * (k - 1)] && hex[2 * k + 1] == tail[2 * (k - 1) + 1];
        }
      }
    }
  }

  /** "+f" is the byte 15: a '+' sign is accepted where a digit would stand. */
  lemma PlusPair()
    ensures HexToBytes("+f") == Ok([15])
  {
    var s := "+f";
    assert s[0] == '+' && s[1] == 'f' && s[2..] == [];
    assert HexPair(s[0], s[1]) == Ok(15);
    assert HexToBytes(s[2..]) == Ok([]);
    assert HexToBytes(s) == Ok([15] + []);
    assert [15] + [] == [15];
  }

  /**
   * Signature.StringToByteArray: allocates len/2 bytes and fills byte i/2 from
   * the pair at i, for i = 0, 2, 4, ...
   */
  method StringToByteArray(hex: string) returns (r: Result<seq<byte>>)
    ensures r == HexToBytes(hex)
  {
    var n := |hex|;
    var bytes := new byte[n / 2];
    var i := 0;
    assert bytes[..0] == [] && hex[0..] == hex;
    if HexToBytes(hex).Ok? {
      assert [] + HexToBytes(hex).value == HexToBytes(hex).value;
    }
    while i < n
      invariant 0 <= i <= n && i % 2 == 0
      invariant HexToBytes(hex) == PrependBytes(bytes[..i / 2], HexToBytes(hex[i..]))
    {
      if i + 2 > n {
        assert |hex[i..]| == 1;
        return Err(ArgumentOutOfRange);
      }
      var b := HexPair(hex[i], hex[i + 1]);
      assert hex[i..][0] == hex[i] && hex[i..][1] == hex[i + 1];
      if b.Err? {
        return Err(b.error);
      }
      assert HexToBytes(hex[i..]) == PrependBytes([b.value], HexToBytes(hex[i..][2..]));
      ghost var done := bytes[..i / 2];
      bytes[i / 2] := b.value;
      assert bytes[..i / 2 + 1] == done + [b.value];
      assert hex[i..][2..] == hex[i + 2..];
      ghost var later := HexToBytes(hex[i + 2..]);
      if later.Ok? {
        assert done + ([b.value] + later.value) == (done + [b.value]) + later.value;
      }
      i := i + 2;
      assert bytes[..i / 2] == done + [b.value];
    }
    assert bytes[..i / 2] + [] == bytes[..];
    return Ok(bytes[..]);
  }

  function PrependBytes(bs: seq<byte>, r: Result<seq<byte>>): Result<seq<byte>> {
    if r.Ok? then Ok(bs + r.value) else r
  }

  /**
   * The hash Signature.SetHash stores: a null string gives sixteen zero bytes,
   * a string whose length is not 32 raises InvalidDataException, anything else
   * goes through StringToByteArray.
   */
  function HashOf(h: Option<string>): (r: Result<seq<byte>>)
    ensures h.None? ==> r == Ok(ZeroHash())
    ensures h.Some? && |h.value| != HASH_CHARS ==> r == Err(InvalidData)
    ensures h.Some? && |h.value| == HASH_CHARS ==> r == HexToBytes(h.value)
  {
    if h.None? then Ok(ZeroHash())
    else if |h.value| != HASH_CHARS then Err(InvalidData)
    else HexToBytes(h.value)
  }

  /** Signature.HashString: "unknown" for a null hash, otherwise two lower-case hex digits per byte. */
  function HashString(hash: Option<seq<byte>>): (s: string)
    ensures hash.None? ==> s == "unknown"
    ensures hash.Some? ==> |s| == 2 * |hash.value|
    ensures hash.Some? ==> forall k :: 0 <= k < |s| ==> IsHexDigit(s[k]) && !('A' <= s[k] <= 'F')
  {
    if hash.None? then "unknown" else LowerHex(hash.value)
  }

  /** Printing the bytes parsed from a hex string gives back that string in lower case. */
  lemma {:induction false} HexRoundTrip(hex: string)
    requires |hex| % 2 == 0 && AllHex(hex)
    ensures HexToBytes(hex).Ok? && LowerHex(HexToBytes(hex).value) == ToLower(hex)
    decreases |hex|
  {
    if |hex| >= 2 {
      var tail := hex[2..];
      assert AllHex(tail) by {
        assert forall k :: 0 <= k < |tail| ==> tail[k] == hex[k + 2];
      }
      HexRoundTrip(tail);
      var b := 16 * HexValue(hex[0]) + HexValue(hex[1]);
      var rest := HexToBytes(tail).value;
      assert HexToBytes(hex) == Ok([b] + rest);
      assert ([b] + rest)[1..] == rest;
      assert b / 16 == HexValue(hex[0]) && b % 16 == HexValue(hex[1]);
      LowerHexDigitOfValue(hex[0]);
      LowerHexDigitOfValue(hex[1]);
      assert ToLower(hex) == [ToLowerChar(hex[0])] + ToLower(hex[1..]);
      assert ToLower(hex[1..]) == [ToLowerChar(hex[1])] + ToLower(tail);
    }
  }

  /** For a valid 32-character hex h, HashString after SetHash(h) is h in lower case. */
  lemma HashStringAfterSetHash(h: string)
    requires |h| == HASH_CHARS && AllHex(h)
    ensures HashOf(Some(h)).Ok?
    ensures |HashOf(Some(h)).value| == HASH_BYTES
    ensures HashString(Some(HashOf(Some(h)).value)) == ToLower(h)
  {
    HexRoundTrip(h);
    HexToBytesMeaning(h);
  }

  // ------------------------------------------------------------- the object

  /** A signature object; its methods update the fields in place. */
  class Signature {
    var id: u32                   // m_ID, the temporary dense id assigned by the index builders
    var hash: Option<seq<byte>>   // m_Hash
    var sigData: seq<u32>         // m_SigData
    var kind: Kind

    function Value(): SigValue
      reads this
    {
      SigValue(id, hash, sigData, kind)
    }

    constructor Of(v: SigValue)
      ensures Value() == v
    {
      id, hash, sigData, kind := v.id, v.hash, v.sigData, v.kind;
    }

    /** The ID getter. */
    function Id(): u32
      reads this
    {
      id
    }

    /** The ID setter: the getter returns the value last set, and nothing else changes. */
    method SetId(value: u32)
      modifies this`id
      ensures Id() == value
      ensures Value() == old(Value()).(id := value)
    {
      id := value;
    }

    /** Signature.SetHash; on an exception the hash is left as it was. */
    method SetHash(h: Option<string>) returns (r: Result<()>)
      modifies this`hash
      ensures r.Ok? <==> HashOf(h).Ok?
      ensures r.Err? ==> r.error == HashOf(h).error && hash == old(hash)
      ensures r.Ok? ==> hash == Some(HashOf(h).value)
      ensures id == old(id) && sigData == old(sigData) && kind == old(kind)
    {
      if h.None? {
        hash := Some(ZeroHash());
        return Ok(());
      }
      if |h.value| != HASH_CHARS {
        return Err(InvalidData);
      }
      var bytes := StringToByteArray(h.value);
      if bytes.Err? {
        return Err(bytes.error);
      }
      hash := Some(bytes.value);
      return Ok(());
    }
  }
}
