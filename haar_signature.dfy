/**
 * HaarSignature (iqdb/HaarSignature.cs) beyond the coefficient choice: the
 * signature built from the three transformed channels, its weights, and its
 * binary record.
 */
module HaarSignatures {
  import opened Wire
  import opened Signatures
  import opened HaarWeights
  import opened HaarSelection
  import IntegerSignatures

  // ------------------------------------------------------------ construction

  /** Transformed channels: three channels of PIXEL_COUNT coefficients. */
  predicate WellShaped(channels: seq<seq<real>>) {
    |channels| == CHANNEL_COUNT && forall c :: 0 <= c < CHANNEL_COUNT ==> |channels[c]| == PIXEL_COUNT
  }

  /** What GetSignificantIndices may return for each channel: COEFFICIENT_COUNT distinct positions, none of them 0. */
  predicate Chosen(chosen: seq<seq<u32>>) {
    |chosen| == CHANNEL_COUNT &&
    forall c :: 0 <= c < CHANNEL_COUNT ==>
      |chosen[c]| == COEFFICIENT_COUNT && Distinct(chosen[c]) &&
      forall j :: 0 <= j < COEFFICIENT_COUNT ==> 1 <= chosen[c][j] < PIXEL_COUNT
  }

  /** The id stored for slot j of channel c: the packed position with the sign of its coefficient. */
  function SlotId(channels: seq<seq<real>>, chosen: seq<seq<u32>>, c: nat, j: nat): u32
    requires WellShaped(channels) && Chosen(chosen) && c < CHANNEL_COUNT && j < COEFFICIENT_COUNT
  {
    PackId(c, chosen[c][j], channels[c][chosen[c][j]] > 0.0)
  }

  /** SigData as FromImage lays it out: channel by channel, each channel's ids in the order the heap holds them. */
  function PackAll(channels: seq<seq<real>>, chosen: seq<seq<u32>>): (ids: seq<u32>)
    requires WellShaped(channels) && Chosen(chosen)
    ensures |ids| == CHANNEL_COUNT * COEFFICIENT_COUNT
  {
    seq(CHANNEL_COUNT * COEFFICIENT_COUNT, l requires 0 <= l < CHANNEL_COUNT * COEFFICIENT_COUNT =>
      SlotId(channels, chosen, l / COEFFICIENT_COUNT, l % COEFFICIENT_COUNT))
  }

  /** avglum[c]: the DC coefficient of the channel divided by PIXEL_COUNT. */
  function Averages(channels: seq<seq<real>>): (avg: seq<real>)
    requires WellShaped(channels)
    ensures |avg| == CHANNEL_COUNT
  {
    seq(CHANNEL_COUNT, c requires 0 <= c < CHANNEL_COUNT => channels[c][0] / PIXEL_COUNT as real)
  }

  /**
   * The ids of a Haar signature: 90 distinct ids, all inside the weight table;
   * id l belongs to channel l / 30 (`id >> 15`), names one of that channel's
   * chosen positions, and has its sign bit set exactly when the coefficient
   * there is positive. They are not sorted.
   */
  lemma {:induction false} PackAllMeaning(channels: seq<seq<real>>, chosen: seq<seq<u32>>)
    requires WellShaped(channels) && Chosen(chosen)
    ensures var ids := PackAll(channels, chosen);
      Distinct(ids) && InTable(ids) &&
      forall l :: 0 <= l < |ids| ==>
        var c := l / COEFFICIENT_COUNT;
        ids[l] / CHANNEL_SIZE == c &&
        ids[l] / 2 % PIXEL_COUNT == chosen[c][l % COEFFICIENT_COUNT] &&
        (ids[l] % 2 == 1 <==> channels[c][ids[l] / 2 % PIXEL_COUNT] > 0.0)
  {
    var ids := PackAll(channels, chosen);
    forall l | 0 <= l < |ids|
      ensures var c := l / COEFFICIENT_COUNT;
        ids[l] < COEFF_SPACE &&
        ids[l] / CHANNEL_SIZE == c &&
        ids[l] / 2 % PIXEL_COUNT == chosen[c][l % COEFFICIENT_COUNT] &&
        (ids[l] % 2 == 1 <==> channels[c][ids[l] / 2 % PIXEL_COUNT] > 0.0)
    {
      var c, j := l / COEFFICIENT_COUNT, l % COEFFICIENT_COUNT;
      PackIdFields(c, chosen[c][j], channels[c][chosen[c][j]] > 0.0);
    }
    forall a, b | 0 <= a < b < |ids|
      ensures ids[a] != ids[b]
    {
      var ca, cb := a / COEFFICIENT_COUNT, b / COEFFICIENT_COUNT;
      if ca == cb {
        assert a % COEFFICIENT_COUNT != b % COEFFICIENT_COUNT;
        assert chosen[ca][a % COEFFICIENT_COUNT] != chosen[ca][b % COEFFICIENT_COUNT];
      }
    }
  }

  /**
   * The part of HaarSignature.FromImage after the Haar transform: for each
   * channel, average = DC / PIXEL_COUNT, then the chosen positions packed in
   * heap order; finally the signature is built, which sets the hash last.
   * `chosen` records what GetSignificantIndices returned for each channel.
   */
  method FromTransform(hash: Option<string>, channels: seq<seq<real>>) returns (r: Result<Signature>, ghost chosen: seq<seq<u32>>)
    requires WellShaped(channels)
    ensures Chosen(chosen)
    ensures r.Ok? <==> HashOf(hash).Ok?
    ensures r.Err? ==> r.error == HashOf(hash).error
    ensures r.Ok? ==> fresh(r.value)
    ensures r.Ok? ==> r.value.Value() == SigValue(0, Some(HashOf(hash).value), PackAll(channels, chosen), HaarKind(Averages(channels)))
  {
    var sigdata := new u32[CHANNEL_COUNT * COEFFICIENT_COUNT];
    var avglum := new real[CHANNEL_COUNT];
    chosen := [];
    var channel := 0;
    while channel < CHANNEL_COUNT
      invariant 0 <= channel <= CHANNEL_COUNT && |chosen| == channel
      invariant forall c :: 0 <= c < channel ==>
        |chosen[c]| == COEFFICIENT_COUNT && Distinct(chosen[c]) &&
        forall j :: 0 <= j < COEFFICIENT_COUNT ==> 1 <= chosen[c][j] < PIXEL_COUNT
      invariant forall c :: 0 <= c < channel ==> avglum[c] == channels[c][0] / PIXEL_COUNT as real
      invariant forall l :: 0 <= l < channel * COEFFICIENT_COUNT ==>
        sigdata[l] == PackId(l / COEFFICIENT_COUNT, chosen[l / COEFFICIENT_COUNT][l % COEFFICIENT_COUNT],
          channels[l / COEFFICIENT_COUNT][chosen[l / COEFFICIENT_COUNT][l % COEFFICIENT_COUNT]] > 0.0)
    {
      avglum[channel] := channels[channel][0] / PIXEL_COUNT as real;
      var t := GetSignificantIndices(COEFFICIENT_COUNT, channels[channel]);
      PackChannel(sigdata, channel, t[..], channels[channel]);
      chosen := chosen + [t[..]];
      channel := channel + 1;
    }
    assert sigdata[..] == PackAll(channels, chosen);
    assert avglum[..] == Averages(channels);
    var sig := IntegerSignatures.FromFeatures(hash, sigdata[..]);
    if sig.Err? {
      return Err(sig.error), chosen;
    }
    sig.value.kind := HaarKind(avglum[..]);
    return Ok(sig.value), chosen;
  }

  /**
   * The inner loop of FromImage: slot j of the channel's block of SigData gets
   * `((channel << PIXEL_BITS | t[j]) << 1) | sign` (PackIdBits shows the
   * shifts are PackId).
   */
  method PackChannel(sigdata: array<u32>, channel: nat, t: seq<u32>, cdata: seq<real>)
    requires sigdata.Length == CHANNEL_COUNT * COEFFICIENT_COUNT && channel < CHANNEL_COUNT
    requires |t| == COEFFICIENT_COUNT && |cdata| == PIXEL_COUNT
    requires forall j :: 0 <= j < |t| ==> t[j] < PIXEL_COUNT
    modifies sigdata
    ensures forall l :: 0 <= l < sigdata.Length ==>
      sigdata[l] == if channel * COEFFICIENT_COUNT <= l < (channel + 1) * COEFFICIENT_COUNT
        then PackId(channel, t[l - channel * COEFFICIENT_COUNT], cdata[t[l - channel * COEFFICIENT_COUNT]] > 0.0)
        else old(sigdata[l])
  {
    var j := 0;
    while j < |t|
      invariant 0 <= j <= |t|
      invariant forall l :: 0 <= l < sigdata.Length ==>
        sigdata[l] == if channel * COEFFICIENT_COUNT <= l < channel * COEFFICIENT_COUNT + j
          then PackId(channel, t[l - channel * COEFFICIENT_COUNT], cdata[t[l - channel * COEFFICIENT_COUNT]] > 0.0)
          else old(sigdata[l])
    {
      sigdata[channel * COEFFICIENT_COUNT + j] := PackId(channel, t[j], cdata[t[j]] > 0.0) as u32;
      j := j + 1;
    }
  }

  // ------------------------------------------------------------------- codec

  /** The averages block: their count as one byte, then the averages. */
  function EncodeAverages(averages: seq<real>): seq<Cell> {
    Bytes([|averages| % 0x100]) + F32s(averages)
  }

  /** HaarSignature.Serialize: head, the averages block, then the id block. */
  function EncodeHaar(v: SigValue): seq<Cell>
    requires v.kind.HaarKind?
  {
    IntegerSignatures.EncodeHeader(v) + EncodeAverages(v.kind.averages) + IntegerSignatures.EncodeIds(v.sigData)
  }

  /** The averages block read back: a count other than 1 or 3 raises InvalidDataException. */
  function DecodeAverages(s: seq<Cell>): Result<(seq<real>, seq<Cell>)> {
    var (avglc, rest) :- ReadByte(s);
    if avglc != 1 && avglc != 3 then Err(InvalidData) else ReadF32s(rest, avglc)
  }

  /** HaarSignature.Deserialize. */
  function DecodeHaar(s: seq<Cell>): Result<(SigValue, seq<Cell>)> {
    var (id, hash, rest) :- IntegerSignatures.DecodeHeader(s);
    var (averages, rest') :- DecodeAverages(rest);
    var (ids, rest'') :- IntegerSignatures.DecodeIds(rest');
    Ok((SigValue(id, Some(hash), ids, HaarKind(averages)), rest''))
  }

  /** One or three averages come back; any other count is refused. */
  lemma AveragesRoundTrip(averages: seq<real>, rest: seq<Cell>)
    requires |averages| < 0x100
    ensures (|averages| == 1 || |averages| == 3) ==> DecodeAverages(EncodeAverages(averages) + rest) == Ok((averages, rest))
    ensures (|averages| != 1 && |averages| != 3) ==> DecodeAverages(EncodeAverages(averages) + rest) == Err(InvalidData)
  {
    assert EncodeAverages(averages) + rest == Bytes([|averages|]) + (F32s(averages) + rest);
    ByteRoundTrip(|averages|, F32s(averages) + rest);
    F32sRoundTrip(averages, rest);
  }

  /**
   * Serialize then Deserialize: averages and ids come back; with a 16-byte
   * hash the ID reads back as 0, without one the nonzero ID comes back with a
   * zero hash. Any average count other than 1 or 3 is refused.
   */
  lemma HaarRoundTrip(v: SigValue, rest: seq<Cell>)
    requires v.kind.HaarKind? && |v.kind.averages| < 0x100 && |v.sigData| < 0x1_0000
    requires v.hash.Some? ==> |v.hash.value| == HASH_BYTES
    requires v.hash.None? ==> v.id != 0
    ensures |v.kind.averages| != 1 && |v.kind.averages| != 3 ==> DecodeHaar(EncodeHaar(v) + rest) == Err(InvalidData)
    ensures (|v.kind.averages| == 1 || |v.kind.averages| == 3) && v.hash.Some? ==>
      DecodeHaar(EncodeHaar(v) + rest) == Ok((v.(id := 0), rest))
    ensures (|v.kind.averages| == 1 || |v.kind.averages| == 3) && v.hash.None? ==>
      DecodeHaar(EncodeHaar(v) + rest) == Ok((v.(hash := Some(ZeroHash())), rest))
  {
    var avg := v.kind.averages;
    var tail1 := IntegerSignatures.EncodeIds(v.sigData) + rest;
    var tail := EncodeAverages(avg) + tail1;
    assert EncodeHaar(v) + rest == IntegerSignatures.EncodeHeader(v) + tail;
    IntegerSignatures.HeaderRoundTrip(v, tail);
    AveragesRoundTrip(avg, tail1);
    IntegerSignatures.IdsRoundTrip(v.sigData, rest);
  }

  /** HaarSignature.Serialize, one write per average and per id. */
  method Serialize(sig: Signature) returns (out: seq<Cell>)
    requires sig.kind.HaarKind?
    ensures out == EncodeHaar(sig.Value())
  {
    if sig.hash.Some? {
      out := U32(0) + Bytes(sig.hash.value);
    } else {
      out := U32(sig.id);
    }
    var averages := sig.kind.averages;
    out := out + Bytes([|averages| % 0x100]);
    var floats := WriteF32s(averages);
    out := out + floats;
    out := out + U16(|sig.sigData| % 0x1_0000);
    var ids := WriteU32s(sig.sigData);
    out := out + ids;
  }

  /**
   * HaarSignature.Deserialize into an existing object: ID, hash, averages and
   * SigData are replaced by the record's. What an exception leaves behind is
   * not stated.
   */
  method Deserialize(sig: Signature, s: seq<Cell>) returns (r: Result<seq<Cell>>)
    modifies sig
    ensures r.Ok? <==> DecodeHaar(s).Ok?
    ensures r.Err? ==> r.error == DecodeHaar(s).error
    ensures r.Ok? ==> r.value == DecodeHaar(s).value.1 && sig.Value() == DecodeHaar(s).value.0
  {
    var head := IntegerSignatures.DecodeHeader(s);
    if head.Err? {
      return Err(head.error);
    }
    var (id, hash, rest) := head.value;
    sig.id := id;
    sig.hash := Some(hash);
    var avglc := ReadByte(rest);
    if avglc.Err? {
      return Err(avglc.error);
    }
    if avglc.value.0 != 1 && avglc.value.0 != 3 {
      return Err(InvalidData);
    }
    var averages := ReadF32s(avglc.value.1, avglc.value.0);
    if averages.Err? {
      return Err(averages.error);
    }
    sig.kind := HaarKind(averages.value.0);
    var n := ReadU16(averages.value.1);
    if n.Err? {
      return Err(n.error);
    }
    var ids := ReadWordArray(n.value.1, n.value.0);
    if ids.Err? {
      return Err(ids.error);
    }
    sig.sigData := ids.value.0;
    return Ok(ids.value.1);
  }
}
