/**
 * RGBSignature (iqdb/RBGSignature.cs): a 16x16 thumbnail's colours quantised
 * to five bits per channel, the 50 most frequent of the 32,768 colours as
 * ids, their pixel counts as ushort weights.
 */
module RgbSignatures {
  import opened Wire
  import opened Text
  import opened Signatures
  import opened Palette
  import IntegerSignatures

  const CHANNEL_BITS := 5
  /** 1 << 15: three five-bit channels. */
  const COLOR_COUNT := 32768
  /** 16 * 16 pixels. */
  const PIXEL_COUNT := 256

  /** A pixel as FromImage reads it (bytes 2, 1 and 0 of each 32-bit pixel). */
  datatype Pixel = Pixel(r: byte, g: byte, b: byte)

  // ------------------------------------------------------------ colour ids

  /** getColorByte: the channel value with its low three bits dropped. */
  function GetColorByte(c: u32): (q: u32)
    ensures 8 * q <= c < 8 * q + 8
    ensures c < 256 ==> q < 32
  {
    c / 8
  }

  /** getColorID of byte channels: red fills bits 10-14, green bits 5-9, blue bits 0-4. */
  function GetColorId(r: byte, g: byte, b: byte): (cid: nat)
    ensures cid < COLOR_COUNT
    ensures cid / 1024 == GetColorByte(r) && cid / 32 % 32 == GetColorByte(g) && cid % 32 == GetColorByte(b)
  {
    GetColorByte(r) * 1024 + GetColorByte(g) * 32 + GetColorByte(b)
  }

  /** The shift-and-or spelling of getColorID equals its arithmetic spelling. */
  lemma ColorIdBits(r: bv32, g: bv32, b: bv32)
    requires r < 256 && g < 256 && b < 256
    ensures ((r >> 3) << 10) | ((g >> 3) << 5) | (b >> 3) == (r / 8) * 1024 + (g / 8) * 32 + b / 8
  {
  }

  /**
   * getColorsHex: the low, middle and high five-bit fields, each times 8,
   * printed in that order. The high field is not masked, so ids of 32768 and
   * above print FF there.
   */
  function GetColorsHex(c: u32): (s: string)
    ensures |s| == 6 && forall k :: 0 <= k < 6 ==> IsHexDigit(s[k]) && !('a' <= s[k] <= 'f')
  {
    GetHexUint(c % 32 * 8) + GetHexUint(c / 32 % 32 * 8) + GetHexUint(c / 1024 * 8)
  }

  /**
   * The colour digits of a colour id come out blue, green, red: the first
   * pair is the field getColorID filled from b, although getColorsHex calls
   * it r. Each channel prints with its low three bits cleared.
   */
  lemma ColorsHexOfColorId(r: byte, g: byte, b: byte)
    ensures GetColorsHex(GetColorId(r, g, b)) ==
      GetHexUint(b / 8 * 8) + GetHexUint(g / 8 * 8) + GetHexUint(r / 8 * 8)
    ensures b / 8 * 8 <= 248 && g / 8 * 8 <= 248 && r / 8 * 8 <= 248
  {
  }

  // -------------------------------------------------------------- hex data

  /** GetHexData: for every slot with a nonzero weight, the weight's two digits and the six colour digits. */
  function HexData(ids: seq<u32>, weights: seq<u16>): string
    requires |ids| <= |weights|
  {
    if ids == [] then []
    else
      var i := |ids| - 1;
      HexData(ids[..i], weights) + (if weights[i] > 0 then GetHexUint(weights[i]) + GetColorsHex(ids[i]) else [])
  }

  /** The number of nonzero weights. */
  function Nonzero(ws: seq<u16>): nat {
    if ws == [] then 0 else Nonzero(ws[..|ws| - 1]) + if ws[|ws| - 1] > 0 then 1 else 0
  }

  /** Eight characters per slot with a nonzero weight, none for the others. */
  lemma {:induction false} HexDataLength(ids: seq<u32>, weights: seq<u16>)
    requires |ids| <= |weights|
    ensures |HexData(ids, weights)| == 8 * Nonzero(weights[..|ids|])
  {
    if ids != [] {
      var i := |ids| - 1;
      assert weights[..|ids|][..i] == weights[..i];
      HexDataLength(ids[..i], weights);
    }
  }

  /** A zero weight adds nothing: the slot is skipped. */
  lemma HexDataSkipsZero(ids: seq<u32>, weights: seq<u16>, id: u32)
    requires |ids| < |weights| && weights[|ids|] == 0
    ensures HexData(ids + [id], weights) == HexData(ids, weights)
  {
    assert (ids + [id])[..|ids|] == ids;
  }

  /** RGBSignature.GetHexData; weights shorter than SigData run out of bounds. */
  method GetHexData(ids: seq<u32>, weights: seq<u16>) returns (r: Result<string>)
    ensures |weights| < |ids| ==> r == Err(IndexOutOfRange)
    ensures |ids| <= |weights| ==> r == Ok(HexData(ids, weights))
  {
    var b := "";
    var i := 0;
    while i < |ids|
      invariant 0 <= i <= |ids|
      invariant i <= |weights| && b == HexData(ids[..i], weights)
    {
      if i >= |weights| {
        return Err(IndexOutOfRange);
      }
      assert ids[..i + 1][..i] == ids[..i];
      if weights[i] > 0 {
        b := b + GetHexUint(weights[i]);
        b := b + GetColorsHex(ids[i]);
      }
      i := i + 1;
    }
    assert ids[..i] == ids;
    return Ok(b);
  }

  // ------------------------------------------------------------- FromImage

  function ColorIds(pixels: seq<Pixel>): (cids: seq<nat>)
    ensures |cids| == |pixels| && Below(cids, COLOR_COUNT)
    ensures forall k :: 0 <= k < |pixels| ==> cids[k] == GetColorId(pixels[k].r, pixels[k].g, pixels[k].b)
  {
    seq(|pixels|, k requires 0 <= k < |pixels| => GetColorId(pixels[k].r, pixels[k].g, pixels[k].b))
  }

  /** No bucket holds more than all the pixels. */
  lemma {:induction false} EntryBelowSum(s: seq<nat>, c: nat)
    requires c < |s|
    ensures s[c] <= Sum(s)
  {
    if c < |s| - 1 {
      EntryBelowSum(s[..|s| - 1], c);
    }
  }

  /** The histogram of a thumbnail: one count per pixel, so every bucket holds at most 256. */
  lemma ThumbnailCounts(pixels: seq<Pixel>)
    requires |pixels| == PIXEL_COUNT
    ensures Sum(Counts(ColorIds(pixels), COLOR_COUNT)) == PIXEL_COUNT
    ensures forall c :: 0 <= c < COLOR_COUNT ==> Counts(ColorIds(pixels), COLOR_COUNT)[c] <= PIXEL_COUNT
  {
    var h := Counts(ColorIds(pixels), COLOR_COUNT);
    CountsSum(ColorIds(pixels), COLOR_COUNT);
    forall c | 0 <= c < COLOR_COUNT
      ensures h[c] <= PIXEL_COUNT
    {
      EntryBelowSum(h, c);
    }
  }

  /** Slot i reads position COLOR_COUNT - 1 - i of the sorted histogram; an empty bucket leaves id 0. */
  function TopId(h: seq<nat>, order: seq<nat>, i: nat): u32
    requires |h| == COLOR_COUNT && SortsBy(order, h) && i < TOP_COUNT
  {
    var c := order[COLOR_COUNT - 1 - i];
    if h[c] < 1 then 0 else c
  }

  /** The slot's weight: the bucket's count cast to ushort; an empty bucket leaves weight 0. */
  function TopWeight(h: seq<nat>, order: seq<nat>, i: nat): u16
    requires |h| == COLOR_COUNT && SortsBy(order, h) && i < TOP_COUNT
  {
    var c := order[COLOR_COUNT - 1 - i];
    if h[c] < 1 then 0 else h[c] % 0x1_0000
  }

  /** The top-50 loop of FromImage over the sorted histogram. */
  method TopFifty(h: seq<nat>, order: seq<nat>) returns (sigdata: seq<u32>, weights: seq<u16>)
    requires |h| == COLOR_COUNT && SortsBy(order, h)
    ensures |sigdata| == TOP_COUNT && |weights| == TOP_COUNT
    ensures forall i :: 0 <= i < TOP_COUNT ==> sigdata[i] == TopId(h, order, i) && weights[i] == TopWeight(h, order, i)
  {
    var ids := new u32[TOP_COUNT](_ => 0);
    var ws := new u16[TOP_COUNT](_ => 0);
    var o := COLOR_COUNT - 1;
    var i := 0;
    while i < TOP_COUNT
      invariant 0 <= i <= TOP_COUNT
      invariant forall k :: 0 <= k < i ==> ids[k] == TopId(h, order, k) && ws[k] == TopWeight(h, order, k)
      invariant forall k :: i <= k < TOP_COUNT ==> ids[k] == 0 && ws[k] == 0
    {
      if h[order[o - i]] < 1 {
        i := i + 1;
        continue;
      }
      ids[i] := order[o - i];
      ws[i] := h[order[o - i]] % 0x1_0000;
      i := i + 1;
    }
    return ids[..], ws[..];
  }

  /**
   * What the top-50 slots hold when no bucket exceeds a ushort: weights are
   * non-increasing; a nonzero weight is its colour's count; an empty slot has
   * id 0; and no colour left out has a larger count than any slot.
   */
  lemma TopFiftyMeaning(h: seq<nat>, order: seq<nat>, i: nat, j: nat, k: nat)
    requires |h| == COLOR_COUNT && SortsBy(order, h) && i < j < TOP_COUNT && k < COLOR_COUNT - TOP_COUNT
    requires forall c :: 0 <= c < COLOR_COUNT ==> h[c] < 0x1_0000
    ensures TopWeight(h, order, i) >= TopWeight(h, order, j)
    ensures TopWeight(h, order, i) > 0 ==> TopWeight(h, order, i) == h[TopId(h, order, i)]
    ensures TopWeight(h, order, i) == 0 ==> TopId(h, order, i) == 0
    ensures h[order[k]] <= TopWeight(h, order, i)
  {
  }

  /**
   * RGBSignature.FromImage from the pixels of the 16x16 thumbnail. Sorting
   * is done by the library; `order` is the order it leaves the colour ids in.
   */
  method FromPixels(md5: Option<string>, pixels: seq<Pixel>, order: seq<nat>) returns (r: Result<Signature>)
    requires |pixels| == PIXEL_COUNT && SortsBy(order, Counts(ColorIds(pixels), COLOR_COUNT))
    ensures r.Ok? <==> HashOf(md5).Ok?
    ensures r.Err? ==> r.error == HashOf(md5).error
    ensures r.Ok? ==> fresh(r.value) && r.value.hash == Some(HashOf(md5).value) && r.value.id == 0
    ensures r.Ok? ==> |r.value.sigData| == TOP_COUNT && r.value.kind.RgbKind? && |r.value.kind.rgbWeights| == TOP_COUNT
    ensures r.Ok? ==> forall i :: 0 <= i < TOP_COUNT ==>
      var h := Counts(ColorIds(pixels), COLOR_COUNT);
      r.value.sigData[i] == TopId(h, order, i) && r.value.kind.rgbWeights[i] == TopWeight(h, order, i)
  {
    var histogram := Histogram(ColorIds(pixels), COLOR_COUNT);
    var sigdata, weights := TopFifty(histogram[..], order);
    r := IntegerSignatures.FromFeatures(md5, sigdata);
    if r.Ok? {
      r.value.kind := RgbKind(weights);
    }
  }

  // ------------------------------------------------------------------- codec

  /** RGBSignature.Serialize: the integer record, then the weight block. */
  function EncodeRgb(v: SigValue): seq<Cell>
    requires v.kind.RgbKind?
  {
    IntegerSignatures.EncodeInteger(v) + EncodeWeights(v.kind.rgbWeights)
  }

  /** RGBSignature.Deserialize: the integer record, then weights as many as the ids. */
  function DecodeRgb(s: seq<Cell>): Result<(SigValue, seq<Cell>)> {
    var (v, rest) :- IntegerSignatures.DecodeInteger(s);
    var (ws, rest') :- DecodeWeights(rest, |v.sigData|);
    Ok((v.(kind := RgbKind(ws)), rest'))
  }

  /**
   * Serialize then Deserialize restores ids and weights when their counts
   * agree and fit a ushort; a count mismatch raises InvalidDataException.
   */
  lemma RgbRoundTrip(v: SigValue, rest: seq<Cell>)
    requires v.kind.RgbKind? && |v.sigData| < 0x1_0000 && |v.kind.rgbWeights| < 0x1_0000
    requires v.hash.Some? ==> |v.hash.value| == HASH_BYTES
    requires v.hash.None? ==> v.id != 0
    ensures |v.kind.rgbWeights| != |v.sigData| ==> DecodeRgb(EncodeRgb(v) + rest) == Err(InvalidData)
    ensures |v.kind.rgbWeights| == |v.sigData| && v.hash.Some? ==> DecodeRgb(EncodeRgb(v) + rest) == Ok((v.(id := 0), rest))
    ensures |v.kind.rgbWeights| == |v.sigData| && v.hash.None? ==>
      DecodeRgb(EncodeRgb(v) + rest) == Ok((v.(hash := Some(ZeroHash())), rest))
  {
    var tail := EncodeWeights(v.kind.rgbWeights) + rest;
    assert EncodeRgb(v) + rest == IntegerSignatures.EncodeInteger(v.(kind := IntegerKind)) + tail;
    IntegerSignatures.IntegerRoundTrip(v.(kind := IntegerKind), tail);
    WeightsRoundTrip(v.kind.rgbWeights, |v.sigData|, rest);
  }

  /** RGBSignature.Serialize, one write per weight. */
  method Serialize(sig: Signature) returns (out: seq<Cell>)
    requires sig.kind.RgbKind?
    ensures out == EncodeRgb(sig.Value())
  {
    out := IntegerSignatures.Serialize(sig);
    var weights := sig.kind.rgbWeights;
    out := out + U16(|weights| % 0x1_0000);
    var ws := WriteU16s(weights);
    out := out + ws;
  }

  /**
   * RGBSignature.Deserialize into an existing object. What an exception
   * leaves behind is not stated.
   */
  method Deserialize(sig: Signature, s: seq<Cell>) returns (r: Result<seq<Cell>>)
    modifies sig
    ensures r.Ok? <==> DecodeRgb(s).Ok?
    ensures r.Err? ==> r.error == DecodeRgb(s).error
    ensures r.Ok? ==> r.value == DecodeRgb(s).value.1 && sig.Value() == DecodeRgb(s).value.0
  {
    var rest := IntegerSignatures.Deserialize(sig, s);
    if rest.Err? {
      return Err(rest.error);
    }
    var len := ReadU16(rest.value);
    if len.Err? {
      return Err(len.error);
    }
    if len.value.0 != |sig.sigData| {
      return Err(InvalidData);
    }
    var ws := ReadU16s(len.value.1, len.value.0);
    if ws.Err? {
      return Err(ws.error);
    }
    sig.kind := RgbKind(ws.value.0);
    return Ok(ws.value.1);
  }
}
