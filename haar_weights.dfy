/**
 * The geometry of a Haar signature (iqdb/HaarSignature.cs): 128x128 pixels per
 * channel, three YIQ channels, coefficient ids packed as
 * `((channel << 14 | pos) << 1) | sign`, and the 49,152-entry weight table
 * indexed by `id >> 1`.
 */
module HaarWeights {
  import opened Wire

  /** Math.Abs, on a coefficient or on a difference of averages. */
  function Abs(x: real): (a: real)
    ensures a >= 0.0 && (a == x || a == -x)
  {
    if x < 0.0 then -x else x
  }

  const COEFFICIENT_COUNT := 30
  const CHANNEL_COUNT := 3
  const SIDE_BITS := 7
  const SIDE_LENGTH := 128          // 1 << SIDE_BITS
  const PIXEL_BITS := 14            // SIDE_BITS << 1
  const PIXEL_COUNT := 16384        // 1 << PIXEL_BITS
  const CHANNEL_SIZE := 32768       // PIXEL_COUNT << 1, room for the sign bit
  /** The length of WeightLookUp: CHANNEL_COUNT * PIXEL_COUNT. */
  const LOOKUP_SIZE := 49152
  /** The number of distinct packed ids: CHANNEL_COUNT * CHANNEL_SIZE. */
  const COEFF_SPACE := 98304

  /**
   * The weight profiles: `Weights[profile, band, channel]`, profile 0 for
   * scanned pictures, profile 1 for sketches; band 0 is the DC component.
   */
  function Weights(profile: nat, band: nat, channel: nat): (w: real)
    requires profile < 2 && band < 6 && channel < CHANNEL_COUNT
    ensures w > 0.0
  {
    if profile == 0 then
      if band == 0 then Pick(channel, 5.00, 19.21, 34.37)
      else if band == 1 then Pick(channel, 0.83, 1.26, 0.36)
      else if band == 2 then Pick(channel, 1.01, 0.44, 0.45)
      else if band == 3 then Pick(channel, 0.52, 0.53, 0.14)
      else if band == 4 then Pick(channel, 0.47, 0.28, 0.18)
      else Pick(channel, 0.30, 0.14, 0.27)
    else
      if band == 0 then Pick(channel, 4.04, 15.14, 22.62)
      else if band == 1 then Pick(channel, 0.78, 0.92, 0.40)
      else if band == 2 then Pick(channel, 0.46, 0.53, 0.63)
      else if band == 3 then Pick(channel, 0.42, 0.26, 0.25)
      else if band == 4 then Pick(channel, 0.41, 0.14, 0.15)
      else Pick(channel, 0.32, 0.07, 0.38)
  }

  /** One row of the weight profiles: the Y, I and Q weights of a band. */
  function Pick(channel: nat, y: real, i: real, q: real): real {
    if channel == 0 then y else if channel == 1 then i else q
  }

  function Min(a: nat, b: nat): nat { if a < b then a else b }
  function Max(a: nat, b: nat): nat { if a > b then a else b }

  /** The table index of pixel (x, y) in a channel: `channel << 14 | y << 7 | x`. */
  function CellId(channel: nat, y: nat, x: nat): nat {
    channel * PIXEL_COUNT + y * SIDE_LENGTH + x
  }

  /** Entry cid of WeightLookUp: the sketch profile's weight of band min(5, max(x, y)) in the cell's channel. */
  function LookUp(cid: nat): real
    requires cid < LOOKUP_SIZE
  {
    var channel := cid / PIXEL_COUNT;
    var y := cid / SIDE_LENGTH % SIDE_LENGTH;
    var x := cid % SIDE_LENGTH;
    Weights(1, Min(5, Max(x, y)), channel)
  }

  /** WeightLookUp as a sequence. */
  function Table(): (t: seq<real>)
    ensures |t| == LOOKUP_SIZE && forall cid :: 0 <= cid < LOOKUP_SIZE ==> t[cid] == LookUp(cid)
  {
    seq(LOOKUP_SIZE, cid requires 0 <= cid < LOOKUP_SIZE => LookUp(cid))
  }

  /** Channel, row and column are disjoint bit fields of the cell id, and the table entry is the promised weight. */
  lemma LookUpAt(channel: nat, y: nat, x: nat)
    requires channel < CHANNEL_COUNT && y < SIDE_LENGTH && x < SIDE_LENGTH
    ensures CellId(channel, y, x) < LOOKUP_SIZE
    ensures CellId(channel, y, x) / PIXEL_COUNT == channel
    ensures CellId(channel, y, x) / SIDE_LENGTH % SIDE_LENGTH == y
    ensures CellId(channel, y, x) % SIDE_LENGTH == x
    ensures LookUp(CellId(channel, y, x)) == Weights(1, Min(5, Max(x, y)), channel)
  {
    var cid := CellId(channel, y, x);
    assert cid / SIDE_LENGTH == channel * SIDE_LENGTH + y;
  }

  /** The shift-and-or spelling of the cell id equals its arithmetic spelling. */
  lemma CellIdBits(channel: bv32, y: bv32, x: bv32)
    requires channel < 3 && y < 128 && x < 128
    ensures (channel << 14) | (y << 7) | x == channel * 16384 + y * 128 + x
  {
  }

  /**
   * HaarSignature.InitializeCoefficientTranslation: fills the table channel by
   * channel, row by row. `order` lists the indices in the order they are
   * written: each of the 49,152 entries exactly once, ascending.
   */
  method InitializeCoefficientTranslation() returns (table: array<real>, ghost order: seq<nat>)
    ensures fresh(table) && table.Length == LOOKUP_SIZE
    ensures forall cid :: 0 <= cid < LOOKUP_SIZE ==> table[cid] == LookUp(cid)
    ensures |order| == LOOKUP_SIZE && forall k :: 0 <= k < |order| ==> order[k] == k
  {
    table := new real[LOOKUP_SIZE];
    order := [];
    var channel := 0;
    while channel < CHANNEL_COUNT
      invariant 0 <= channel <= CHANNEL_COUNT
      invariant |order| == channel * PIXEL_COUNT && forall k :: 0 <= k < |order| ==> order[k] == k
      invariant forall cid :: 0 <= cid < |order| ==> table[cid] == LookUp(cid)
    {
      var y := 0;
      while y < SIDE_LENGTH
        invariant 0 <= y <= SIDE_LENGTH
        invariant |order| == channel * PIXEL_COUNT + y * SIDE_LENGTH && forall k :: 0 <= k < |order| ==> order[k] == k
        invariant forall cid :: 0 <= cid < |order| ==> table[cid] == LookUp(cid)
      {
        var x := 0;
        while x < SIDE_LENGTH
          invariant 0 <= x <= SIDE_LENGTH
          invariant |order| == CellId(channel, y, x) && forall k :: 0 <= k < |order| ==> order[k] == k
          invariant forall cid :: 0 <= cid < |order| ==> table[cid] == LookUp(cid)
        {
          var cid := CellId(channel, y, x);
          LookUpAt(channel, y, x);
          table[cid] := Weights(1, Min(5, Max(x, y)), channel);
          order := order + [cid];
          x := x + 1;
        }
        y := y + 1;
      }
      channel := channel + 1;
    }
  }

  // ------------------------------------------------------------ packed ids

  /** The id FromImage stores for a coefficient: `((channel << 14 | pos) << 1) | (positive ? 1 : 0)`. */
  function PackId(channel: nat, pos: nat, positive: bool): nat {
    (channel * PIXEL_COUNT + pos) * 2 + (if positive then 1 else 0)
  }

  /**
   * A packed id lies below 98,304, its `>> 1` indexes WeightLookUp, its
   * `>> 15` is the channel, and the position and sign come back out.
   */
  lemma PackIdFields(channel: nat, pos: nat, positive: bool)
    requires channel < CHANNEL_COUNT && pos < PIXEL_COUNT
    ensures PackId(channel, pos, positive) < COEFF_SPACE
    ensures PackId(channel, pos, positive) / 2 < LOOKUP_SIZE
    ensures PackId(channel, pos, positive) / CHANNEL_SIZE == channel
    ensures PackId(channel, pos, positive) / 2 % PIXEL_COUNT == pos
    ensures (PackId(channel, pos, positive) % 2 == 1) == positive
  {
    var id := PackId(channel, pos, positive);
    assert id / 2 == channel * PIXEL_COUNT + pos;
  }

  /** The shift-and-or spelling of the packed id equals its arithmetic spelling. */
  lemma PackIdBits(channel: bv32, pos: bv32, sign: bv32)
    requires channel < 3 && pos < 16384 && sign < 2
    ensures (((channel << 14) | pos) << 1) | sign == (channel * 16384 + pos) * 2 + sign
  {
  }

  // --------------------------------------------------------------- weights

  /** HaarSignature.Get_Coeff_Weight: `WeightLookUp[coeff >> 1]`, an index error past the table. */
  function CoeffWeight(coeff: nat): (r: Result<real>)
    ensures r.Ok? <==> coeff < COEFF_SPACE
    ensures r.Ok? ==> r.value == Table()[coeff / 2]
  {
    if coeff / 2 < LOOKUP_SIZE then Ok(LookUp(coeff / 2)) else Err(IndexOutOfRange)
  }

  /** Every `id >> 1` indexes a table of n weights. */
  predicate InRange(ids: seq<u32>, n: nat) {
    forall k :: 0 <= k < |ids| ==> ids[k] / 2 < n
  }

  /** Every id is a coefficient id, so its `>> 1` indexes WeightLookUp. */
  predicate InTable(ids: seq<u32>) {
    forall k :: 0 <= k < |ids| ==> ids[k] < COEFF_SPACE
  }

  /** Σ `weights[id >> 1]` over ids, for ids whose `>> 1` indexes the weights. */
  function WeightSum(ids: seq<u32>, weights: seq<real>): real
    requires InRange(ids, |weights|)
  {
    if ids == [] then 0.0 else WeightSum(ids[..|ids| - 1], weights) + weights[ids[|ids| - 1] / 2]
  }

  /** HaarSignature.Sum_Weights: the foreach loop's running sum, failing at the first id past the table. */
  function SumLookUp(ids: seq<u32>): Result<real>
  {
    if ids == [] then Ok(0.0)
    else
      var sum :- SumLookUp(ids[..|ids| - 1]);
      var w :- CoeffWeight(ids[|ids| - 1]);
      Ok(sum + w)
  }

  /** Sum_Weights fails exactly when some id is past the table, and otherwise is Σ WeightLookUp[id >> 1]. */
  lemma {:induction false} SumLookUpMeaning(ids: seq<u32>)
    ensures SumLookUp(ids).Ok? <==> InTable(ids)
    ensures SumLookUp(ids).Err? ==> SumLookUp(ids).error == IndexOutOfRange
    ensures InTable(ids) ==> SumLookUp(ids) == Ok(WeightSum(ids, Table()))
  {
    if ids != [] {
      var init := ids[..|ids| - 1];
      SumLookUpMeaning(init);
      assert forall k :: 0 <= k < |init| ==> init[k] == ids[k];
    }
  }

  lemma {:induction false} WeightSumAppend(a: seq<u32>, b: seq<u32>, weights: seq<real>)
    requires InRange(a, |weights|) && InRange(b, |weights|)
    ensures InRange(a + b, |weights|)
    ensures WeightSum(a + b, weights) == WeightSum(a, weights) + WeightSum(b, weights)
    decreases |b|
  {
    if b == [] {
      assert a + b == a;
    } else {
      var b' := b[..|b| - 1];
      WeightSumAppend(a, b', weights);
      assert (a + b)[..|a + b| - 1] == a + b';
    }
  }

  /** The sum read from the front: the first weight plus the sum of the rest. */
  lemma WeightSumFront(ids: seq<u32>, weights: seq<real>)
    requires ids != [] && InRange(ids, |weights|)
    ensures WeightSum(ids, weights) == weights[ids[0] / 2] + WeightSum(ids[1..], weights)
  {
    assert ids == [ids[0]] + ids[1..];
    WeightSumAppend([ids[0]], ids[1..], weights);
  }

  /**
   * HaarSignature.Sum_Weights, the foreach loop over SigData.
   */
  method SumWeights(ids: seq<u32>) returns (r: Result<real>)
    ensures r == SumLookUp(ids)
  {
    var sum := 0.0;
    var i := 0;
    while i < |ids|
      invariant 0 <= i <= |ids|
      invariant SumLookUp(ids[..i]) == Ok(sum)
    {
      if ids[i] / 2 >= LOOKUP_SIZE {
        assert ids[..i + 1][..i] == ids[..i];
        assert SumLookUp(ids[..i + 1]).Err?;
        SumLookUpPrefixFails(ids, i + 1);
        return Err(IndexOutOfRange);
      }
      assert ids[..i + 1][..i] == ids[..i];
      sum := sum + LookUp(ids[i] / 2);
      i := i + 1;
    }
    assert ids[..i] == ids;
    return Ok(sum);
  }

  /** Once a prefix fails, the whole sum fails with the same error. */
  lemma {:induction false} SumLookUpPrefixFails(ids: seq<u32>, n: nat)
    requires n <= |ids| && SumLookUp(ids[..n]).Err?
    ensures SumLookUp(ids) == SumLookUp(ids[..n])
    decreases |ids| - n
  {
    if n < |ids| {
      assert ids[..n + 1][..n] == ids[..n];
      SumLookUpPrefixFails(ids, n + 1);
    } else {
      assert ids[..n] == ids;
    }
  }
}
