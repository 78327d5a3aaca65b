/**
 * ColorSignature (iqdb/ColorSignature.cs): a 32x32 thumbnail's colours in
 * YUV, quantised to 6 + 5 + 5 bits, the 50 most frequent of the 65,536
 * colours as ids, their pixel counts less one as ushort weights.
 */
module ColorSignatures {
  import opened Wire
  import opened Text
  import opened Signatures
  import opened Palette
  import IntegerSignatures

  /** 1 << 16: a six-bit Y and five-bit U and V. */
  const COLOR_COUNT := 65536
  /** 32 * 32 pixels. */
  const PIXEL_COUNT := 1024

  /**
   * getColorID after the floating-point stage: `y`, `u` and `v` are the
   * truncated values `(uint)Math.Floor(...)` of Y, of U*0.838+128 and of
   * V*0.956+128, each in [0, 256). Y keeps six bits, U and V five.
   */
  function GetColorId(y: byte, u: byte, v: byte): (cid: nat)
    ensures cid < COLOR_COUNT
    ensures cid / 1024 == y / 4 && cid / 32 % 32 == u / 8 && cid % 32 == v / 8
  {
    ColorIdDigits(y / 4, u / 8, v / 8);
    (y / 4) * 1024 + (u / 8) * 32 + v / 8
  }

  /** A six-bit, a five-bit and a five-bit field side by side read back field by field. */
  lemma ColorIdDigits(a: nat, b: nat, c: nat)
    requires a < 64 && b < 32 && c < 32
    ensures a * 1024 + b * 32 + c < COLOR_COUNT
    ensures (a * 1024 + b * 32 + c) / 1024 == a
    ensures (a * 1024 + b * 32 + c) / 32 == a * 32 + b && (a * 32 + b) % 32 == b
    ensures (a * 1024 + b * 32 + c) % 32 == c
  {
    var low := b * 32 + c;
    assert low < 1024;
    assert a * 1024 + b * 32 + c == (a * 32 + b) * 32 + c;
  }

  /** The shift-and-or spelling of getColorID equals its arithmetic spelling. */
  lemma ColorIdBits(y: bv32, u: bv32, v: bv32)
    requires y < 256 && u < 256 && v < 256
    ensures ((y >> 2) << 10) | ((u >> 3) << 5) | (v >> 3) == (y / 4) * 1024 + (u / 8) * 32 + v / 8
  {
  }

  // -------------------------------------------------------------- hex data

  /**
   * GetHexData: for every slot, the two digits of its weight divided by 4 and
   * six colour digits; no slot is skipped. The colour digits come from the
   * floating-point getColorsHex, which is a parameter here.
   */
  function HexData(ids: seq<u32>, weights: seq<u16>, colorsHex: u32 -> string): string
    requires |ids| <= |weights|
  {
    if ids == [] then []
    else
      var i := |ids| - 1;
      HexData(ids[..i], weights, colorsHex) + GetHexUint(weights[i] / 4) + colorsHex(ids[i])
  }

  /** Eight characters per slot. */
  lemma {:induction false} HexDataLength(ids: seq<u32>, weights: seq<u16>, colorsHex: u32 -> string)
    requires |ids| <= |weights|
    requires forall c :: |colorsHex(c)| == 6
    ensures |HexData(ids, weights, colorsHex)| == 8 * |ids|
  {
    if ids != [] {
      HexDataLength(ids[..|ids| - 1], weights, colorsHex);
    }
  }

  /** Every slot prints as its eight characters, at offset 8i: no slot is skipped. */
  lemma {:induction false} HexDataAt(ids: seq<u32>, weights: seq<u16>, colorsHex: u32 -> string, i: nat)
    requires |ids| <= |weights| && i < |ids|
    requires forall c :: |colorsHex(c)| == 6
    ensures |HexData(ids, weights, colorsHex)| == 8 * |ids|
    ensures HexData(ids, weights, colorsHex)[8 * i..8 * i + 8] == GetHexUint(weights[i] / 4) + colorsHex(ids[i])
  {
    var n := |ids| - 1;
    var front := HexData(ids[..n], weights, colorsHex);
    var piece := GetHexUint(weights[n] / 4) + colorsHex(ids[n]);
    HexDataLength(ids[..n], weights, colorsHex);
    assert HexData(ids, weights, colorsHex) == front + piece;
    if i < n {
      HexDataAt(ids[..n], weights, colorsHex, i);
      assert (front + piece)[8 * i..8 * i + 8] == front[8 * i..8 * i + 8];
    } else {
      assert (front + piece)[8 * n..8 * n + 8] == piece;
    }
  }

  /** ColorSignature.GetHexData; weights shorter than SigData run out of bounds. */
  method GetHexData(ids: seq<u32>, weights: seq<u16>, colorsHex: u32 -> string) returns (r: Result<string>)
    ensures |weights| < |ids| ==> r == Err(IndexOutOfRange)
    ensures |ids| <= |weights| ==> r == Ok(HexData(ids, weights, colorsHex))
  {
    var b := "";
    var i := 0;
    while i < |ids|
      invariant 0 <= i <= |ids|
      invariant i <= |weights| && b == HexData(ids[..i], weights, colorsHex)
    {
      if i >= |weights| {
        return Err(IndexOutOfRange);
      }
      assert ids[..i + 1][..i] == ids[..i];
      b := b + GetHexUint(weights[i] / 4);
      b := b + colorsHex(ids[i]);
      i := i + 1;
    }
    assert ids[..i] == ids;
    return Ok(b);
  }

  // ------------------------------------------------------------- FromImage

  /** Slot i is the colour at position COLOR_COUNT - 1 - i of the sorted histogram, whatever its count. */
  function TopId(h: seq<nat>, order: seq<nat>, i: nat): u32
    requires |h| == COLOR_COUNT && SortsBy(order, h) && i < TOP_COUNT
  {
    order[COLOR_COUNT - 1 - i]
  }

  /** The slot's weight: `(ushort)(count - 1)` with uint arithmetic, so a zero count wraps. */
  function TopWeight(h: seq<nat>, order: seq<nat>, i: nat): u16
    requires |h| == COLOR_COUNT && SortsBy(order, h) && i < TOP_COUNT
  {
    (h[order[COLOR_COUNT - 1 - i]] + 0xFFFF_FFFF) % 0x1_0000_0000 % 0x1_0000
  }

  /** The top-50 loop of FromImage over the sorted histogram. */
  method TopFifty(h: seq<nat>, order: seq<nat>) returns (sigdata: seq<u32>, weights: seq<u16>)
    requires |h| == COLOR_COUNT && SortsBy(order, h)
    ensures |sigdata| == TOP_COUNT && |weights| == TOP_COUNT
    ensures forall i :: 0 <= i < TOP_COUNT ==> sigdata[i] == TopId(h, order, i) && weights[i] == TopWeight(h, order, i)
  {
    var ids := new u32[TOP_COUNT];
    var ws := new u16[TOP_COUNT];
    var o := COLOR_COUNT - 1;
    for i := 0 to TOP_COUNT
      invariant forall k :: 0 <= k < i ==> ids[k] == TopId(h, order, k) && ws[k] == TopWeight(h, order, k)
    {
      ids[i] := order[o - i];
      ws[i] := (h[order[o - i]] + 0xFFFF_FFFF) % 0x1_0000_0000 % 0x1_0000;
    }
    return ids[..], ws[..];
  }

  /**
   * What the top-50 slots hold: the 50 colours with the largest counts,
   * ids distinct; a count from 1 to 65536 gives weight count - 1, and an
   * empty bucket's weight wraps to 65535.
   */
  lemma TopFiftyMeaning(h: seq<nat>, order: seq<nat>, i: nat, j: nat, k: nat)
    requires |h| == COLOR_COUNT && SortsBy(order, h) && i < j < TOP_COUNT && k < COLOR_COUNT - TOP_COUNT
    ensures TopId(h, order, i) != TopId(h, order, j)
    ensures h[TopId(h, order, i)] >= h[TopId(h, order, j)] >= h[order[k]]
    ensures 1 <= h[TopId(h, order, i)] <= 0x1_0000 ==> TopWeight(h, order, i) == h[TopId(h, order, i)] - 1
    ensures h[TopId(h, order, i)] == 0 ==> TopWeight(h, order, i) == 0xFFFF
  {
  }

  /**
   * ColorSignature.FromImage from the colour id of each of the 1024 pixels
   * (the YIQ conversion that yields them is floating point). Sorting is done
   * by the library; `order` is the order it leaves the colour ids in.
   */
  method FromColorIds(md5: Option<string>, cids: seq<nat>, order: seq<nat>) returns (r: Result<Signature>)
    requires |cids| == PIXEL_COUNT && Below(cids, COLOR_COUNT) && SortsBy(order, Counts(cids, COLOR_COUNT))
    ensures r.Ok? <==> HashOf(md5).Ok?
    ensures r.Err? ==> r.error == HashOf(md5).error
    ensures r.Ok? ==> fresh(r.value) && r.value.hash == Some(HashOf(md5).value) && r.value.id == 0
    ensures r.Ok? ==> |r.value.sigData| == TOP_COUNT && r.value.kind.ColorKind? && |r.value.kind.colorWeights| == TOP_COUNT
    ensures r.Ok? ==> forall i :: 0 <= i < TOP_COUNT ==>
      var h := Counts(cids, COLOR_COUNT);
      r.value.sigData[i] == TopId(h, order, i) && r.value.kind.colorWeights[i] == TopWeight(h, order, i)
  {
    var histogram := Histogram(cids, COLOR_COUNT);
    var sigdata, weights := TopFifty(histogram[..], order);
    r := IntegerSignatures.FromFeatures(md5, sigdata);
    if r.Ok? {
      r.value.kind := ColorKind(weights);
    }
  }

  // ------------------------------------------------------------------- codec

  /** ColorSignature.Serialize: the integer record, then the weight block. */
  function EncodeColor(v: SigValue): seq<Cell>
    requires v.kind.ColorKind?
  {
    IntegerSignatures.EncodeInteger(v) + EncodeWeights(v.kind.colorWeights)
  }

  /** ColorSignature.Deserialize: the integer record, then weights as many as the ids. */
  function DecodeColor(s: seq<Cell>): Result<(SigValue, seq<Cell>)> {
    var (v, rest) :- IntegerSignatures.DecodeInteger(s);
    var (ws, rest') :- DecodeWeights(rest, |v.sigData|);
    Ok((v.(kind := ColorKind(ws)), rest'))
  }

  /**
   * Serialize then Deserialize restores ids and weights when their counts
   * agree and fit a ushort; a count mismatch raises InvalidDataException.
   */
  lemma ColorRoundTrip(v: SigValue, rest: seq<Cell>)
    requires v.kind.ColorKind? && |v.sigData| < 0x1_0000 && |v.kind.colorWeights| < 0x1_0000
    requires v.hash.Some? ==> |v.hash.value| == HASH_BYTES
    requires v.hash.None? ==> v.id != 0
    ensures |v.kind.colorWeights| != |v.sigData| ==> DecodeColor(EncodeColor(v) + rest) == Err(InvalidData)
    ensures |v.kind.colorWeights| == |v.sigData| && v.hash.Some? ==> DecodeColor(EncodeColor(v) + rest) == Ok((v.(id := 0), rest))
    ensures |v.kind.colorWeights| == |v.sigData| && v.hash.None? ==>
      DecodeColor(EncodeColor(v) + rest) == Ok((v.(hash := Some(ZeroHash())), rest))
  {
    var tail := EncodeWeights(v.kind.colorWeights) + rest;
    assert EncodeColor(v) + rest == IntegerSignatures.EncodeInteger(v.(kind := IntegerKind)) + tail;
    IntegerSignatures.IntegerRoundTrip(v.(kind := IntegerKind), tail);
    WeightsRoundTrip(v.kind.colorWeights, |v.sigData|, rest);
  }

  /** ColorSignature.Serialize, one write per weight. */
  method Serialize(sig: Signature) returns (out: seq<Cell>)
    requires sig.kind.ColorKind?
    ensures out == EncodeColor(sig.Value())
  {
    out := IntegerSignatures.Serialize(sig);
    var weights := sig.kind.colorWeights;
    out := out + U16(|weights| % 0x1_0000);
    var ws := WriteU16s(weights);
    out := out + ws;
  }

  /**
   * ColorSignature.Deserialize into an existing object. What an exception
   * leaves behind is not stated.
   */
  method Deserialize(sig: Signature, s: seq<Cell>) returns (r: Result<seq<Cell>>)
    modifies sig
    ensures r.Ok? <==> DecodeColor(s).Ok?
    ensures r.Err? ==> r.error == DecodeColor(s).error
    ensures r.Ok? ==> r.value == DecodeColor(s).value.1 && sig.Value() == DecodeColor(s).value.0
  {
    var rest := IntegerSignatures.Deserialize(sig, s);
    if rest.Err? {
      return Err(rest.error);
    }
    var len := ReadU16(rest.value);
    if len.Err? {
      return Err(len.error);
    }
    if len.value.0 != |sig.sigData| {
      return Err(InvalidData);
    }
    var ws := ReadU16s(len.value.1, len.value.0);
    if ws.Err? {
      return Err(ws.error);
    }
    sig.kind := ColorKind(ws.value.0);
    return Ok(ws.value.1);
  }
}
