/**
 * HaarSigBlockDB (iqdb/HaarSigBlockDB.cs): Haar signatures kept as three
 * block files, one per YIQ channel, each a run of 30-ushort records (the
 * channel's coefficients with the channel bits stripped), together with a
 * per-channel copy of the weight table and each record's total weight.
 * Block files are byte sequences; a ushort is two bytes, low byte first.
 */
module HaarBlocks {
  import opened Wire
  import opened HaarWeights
  import HaarCompare

  /** The ushorts of one record. */
  const RECORD_LENGTH := 30
  /** The bytes of one record: `sizeof(ushort) * 30`. */
  const RECORD_BYTES := 60

  // ------------------------------------------------------------ block files

  /** The bytes BinaryWriter.Write(ushort) puts down for each word in turn. */
  function Words(xs: seq<u16>): (bs: seq<byte>)
    ensures |bs| == 2 * |xs|
  {
    seq(2 * |xs|, p requires 0 <= p < 2 * |xs| => if p % 2 == 0 then xs[p / 2] % 256 else xs[p / 2] / 256)
  }

  /** BinaryReader.ReadUInt16 at byte p. */
  function WordAt(file: seq<byte>, p: nat): u16
    requires p + 2 <= |file|
  {
    (file[p] as int + 256 * file[p + 1] as int) as u16
  }

  /** Record i of a block file: the 30 words from byte 60 * i on. */
  function Record(file: seq<byte>, i: nat): (rec: seq<u16>)
    requires RECORD_BYTES * (i + 1) <= |file|
    ensures |rec| == RECORD_LENGTH
  {
    seq(RECORD_LENGTH, j requires 0 <= j < RECORD_LENGTH => WordAt(file, RECORD_BYTES * i + 2 * j))
  }

  /**
   * DeserializeBlockf: `Length / 2 / 30` records of 30 words; a file whose
   * length is not a whole number of records runs past the record array.
   */
  function Blocks(file: seq<byte>): (r: Result<seq<seq<u16>>>)
    ensures r.Err? ==> r.error == IndexOutOfRange
    ensures r.Ok? ==> |r.value| == |file| / RECORD_BYTES
  {
    if |file| % RECORD_BYTES != 0 then Err(IndexOutOfRange)
    else Ok(seq(|file| / RECORD_BYTES, i requires 0 <= i < |file| / RECORD_BYTES => Record(file, i)))
  }

  /** Words read back at every even byte give the words written. */
  lemma WordsRead(xs: seq<u16>, k: nat)
    requires k < |xs|
    ensures WordAt(Words(xs), 2 * k) == xs[k]
  {
  }

  /** Words written in a block of 30 per record. */
  function Chunk(xs: seq<u16>, i: nat): (rec: seq<u16>)
    requires RECORD_LENGTH * (i + 1) <= |xs|
    ensures |rec| == RECORD_LENGTH
  {
    xs[RECORD_LENGTH * i..RECORD_LENGTH * (i + 1)]
  }

  /**
   * Reading back a block file: the records are the words written, 30 at a
   * time, exactly when their number is a multiple of 30.
   */
  lemma BlocksOfWords(xs: seq<u16>)
    ensures Blocks(Words(xs)).Ok? <==> |xs| % RECORD_LENGTH == 0
    ensures Blocks(Words(xs)).Ok? ==>
      |Blocks(Words(xs)).value| == |xs| / RECORD_LENGTH &&
      forall i :: 0 <= i < |xs| / RECORD_LENGTH ==> Blocks(Words(xs)).value[i] == Chunk(xs, i)
  {
    if |xs| % RECORD_LENGTH == 0 {
      forall i | 0 <= i < |xs| / RECORD_LENGTH
        ensures Record(Words(xs), i) == Chunk(xs, i)
      {
        ChunkRead(xs, i);
      }
    }
  }

  /** Record i of the written words is the i-th run of 30 of them. */
  lemma ChunkRead(xs: seq<u16>, i: nat)
    requires RECORD_LENGTH * (i + 1) <= |xs|
    ensures Record(Words(xs), i) == Chunk(xs, i)
  {
    forall j | 0 <= j < RECORD_LENGTH
      ensures Record(Words(xs), i)[j] == Chunk(xs, i)[j]
    {
      WordsRead(xs, RECORD_LENGTH * i + j);
    }
  }

  /** The read loop of DeserializeBlockf: a fresh array of `Length / 2 / 30` records, filled one ushort at a time. */
  method DeserializeBlockf(file: seq<byte>) returns (r: Result<seq<seq<u16>>>)
    ensures r == Blocks(file)
  {
    var s := |file| / 2 / RECORD_LENGTH;
    assert s == |file| / RECORD_BYTES;
    var sigdata := new seq<u16>[s](_ => []);
    var position := 0;
    var i := 0;
    while position < |file|
      invariant i <= s && position == RECORD_BYTES * i
      invariant forall k :: 0 <= k < i ==> sigdata[k] == Record(file, k)
      decreases |file| - position
    {
      if i >= s {
        return Err(IndexOutOfRange);
      }
      var record := new u16[RECORD_LENGTH];
      for j := 0 to RECORD_LENGTH
        modifies record
        invariant position == RECORD_BYTES * i + 2 * j
        invariant forall m :: 0 <= m < j ==> record[m] == WordAt(file, RECORD_BYTES * i + 2 * m)
      {
        record[j] := WordAt(file, position);
        position := position + 2;
      }
      assert record[..] == Record(file, i);
      sigdata[i] := record[..];
      i := i + 1;
    }
    assert i == s && |file| % RECORD_BYTES == 0;
    assert sigdata[..] == Blocks(file).value;
    return Ok(sigdata[..]);
  }

  // ---------------------------------------------------------------- weights

  /** weights_c: `weights_c[c][i] = WeightLookUp[c << 14 | i]`, WeightLookUp cut into its three channels. */
  function ChannelWeights(): (w: seq<seq<real>>)
    ensures |w| == CHANNEL_COUNT && forall c :: 0 <= c < CHANNEL_COUNT ==> |w[c]| == PIXEL_COUNT
  {
    seq(CHANNEL_COUNT, c requires 0 <= c < CHANNEL_COUNT =>
      seq(PIXEL_COUNT, i requires 0 <= i < PIXEL_COUNT => LookUp(c * PIXEL_COUNT + i)))
  }

  /**
   * A coefficient id of channel c, cut down to its block word `id % 32768`,
   * has in weights_c[c] the weight WeightLookUp gives the whole id.
   */
  lemma BlockWeight(id: nat, c: nat)
    requires c < CHANNEL_COUNT && id / CHANNEL_SIZE == c
    ensures (id % CHANNEL_SIZE) / 2 < PIXEL_COUNT
    ensures ChannelWeights()[c][(id % CHANNEL_SIZE) / 2] == Table()[id / 2]
  {
    assert id / 2 == c * PIXEL_COUNT + (id % CHANNEL_SIZE) / 2;
  }

  /** The constructor's table loops: three arrays of 16,384 weights. */
  method FillChannelWeights() returns (w: seq<seq<real>>)
    ensures w == ChannelWeights()
  {
    w := [];
    for c := 0 to CHANNEL_COUNT
      invariant |w| == c && forall k :: 0 <= k < c ==> w[k] == ChannelWeights()[k]
    {
      var row := new real[PIXEL_COUNT];
      for i := 0 to PIXEL_COUNT
        invariant forall k :: 0 <= k < i ==> row[k] == LookUp(c * PIXEL_COUNT + k)
      {
        var cid := c * PIXEL_COUNT + i;
        row[i] := LookUp(cid);
      }
      assert row[..] == ChannelWeights()[c];
      w := w + [row[..]];
    }
  }

  /** Block words as the uint ids the merge of HaarSignature compares. */
  function Widen(s: seq<u16>): (ids: seq<u32>)
    ensures |ids| == |s| && forall k :: 0 <= k < |s| ==> ids[k] == s[k]
  {
    seq(|s|, k requires 0 <= k < |s| => s[k] as u32)
  }

  /**
   * The weight of record k over the three channels: the foreach loops over
   * its y, i and q words, each `weights_c[c][word >> 1]`; a word past the
   * channel's weights is an index error.
   */
  function RecordWeight(y: seq<u16>, i: seq<u16>, q: seq<u16>, weights: seq<seq<real>>): (r: Result<real>)
    requires |weights| == CHANNEL_COUNT
    ensures r.Err? ==> r.error == IndexOutOfRange
  {
    var wy :- HaarCompare.WeightOf(Widen(y), weights[0]);
    var wi :- HaarCompare.WeightOf(Widen(i), weights[1]);
    var wq :- HaarCompare.WeightOf(Widen(q), weights[2]);
    Ok(wy + wi + wq)
  }

  /** A record whose words all index their channel's weights weighs the three channel sums. */
  lemma RecordWeightInRange(y: seq<u16>, i: seq<u16>, q: seq<u16>, weights: seq<seq<real>>)
    requires |weights| == CHANNEL_COUNT
    requires InRange(Widen(y), |weights[0]|) && InRange(Widen(i), |weights[1]|) && InRange(Widen(q), |weights[2]|)
    ensures RecordWeight(y, i, q, weights) ==
      Ok(WeightSum(Widen(y), weights[0]) + WeightSum(Widen(i), weights[1]) + WeightSum(Widen(q), weights[2]))
  {
  }

  /** The weight sums of the first n records. */
  function RecordWeights(y: seq<seq<u16>>, i: seq<seq<u16>>, q: seq<seq<u16>>, weights: seq<seq<real>>, n: nat): (r: Result<seq<real>>)
    requires n <= |y| && n <= |i| && n <= |q| && |weights| == CHANNEL_COUNT
    ensures r.Err? ==> r.error == IndexOutOfRange
    ensures r.Ok? ==> |r.value| == n
  {
    if n == 0 then Ok([])
    else
      var ws :- RecordWeights(y, i, q, weights, n - 1);
      var w :- RecordWeight(y[n - 1], i[n - 1], q[n - 1], weights);
      Ok(ws + [w])
  }

  /** The sums succeed exactly when every record's does, and hold each record's weight. */
  lemma {:induction false} RecordWeightsMeaning(y: seq<seq<u16>>, i: seq<seq<u16>>, q: seq<seq<u16>>, weights: seq<seq<real>>, n: nat)
    requires n <= |y| && n <= |i| && n <= |q| && |weights| == CHANNEL_COUNT
    ensures RecordWeights(y, i, q, weights, n).Ok? <==>
      forall k :: 0 <= k < n ==> RecordWeight(y[k], i[k], q[k], weights).Ok?
    ensures RecordWeights(y, i, q, weights, n).Ok? ==>
      forall k :: 0 <= k < n ==> RecordWeight(y[k], i[k], q[k], weights) == Ok(RecordWeights(y, i, q, weights, n).value[k])
  {
    if n > 0 {
      RecordWeightsMeaning(y, i, q, weights, n - 1);
    }
  }

  /** One foreach loop of the constructor: the running sum over one channel's words. */
  method AddChannel(sum: real, block: seq<u16>, weights: seq<real>) returns (r: Result<real>)
    ensures r == HaarCompare.AddTo(sum, HaarCompare.WeightOf(Widen(block), weights))
  {
    var total := sum;
    for k := 0 to |block|
      invariant InRange(Widen(block[..k]), |weights|)
      invariant total == sum + WeightSum(Widen(block[..k]), weights)
    {
      var c := block[k];
      assert Widen(block[..k + 1]) == Widen(block[..k]) + [c as u32];
      if c / 2 >= |weights| {
        assert !InRange(Widen(block), |weights|) by {
          assert Widen(block)[k] == c;
        }
        return Err(IndexOutOfRange);
      }
      WeightSumAppend(Widen(block[..k]), [c as u32], weights);
      total := total + weights[c / 2];
    }
    assert block[..|block|] == block;
    return Ok(total);
  }

  /** The constructor's sum loop: for each record, its y, then i, then q words. */
  method SumRecords(y: seq<seq<u16>>, i: seq<seq<u16>>, q: seq<seq<u16>>, weights: seq<seq<real>>) returns (r: Result<seq<real>>)
    requires |y| == |i| == |q| && |weights| == CHANNEL_COUNT
    ensures r == RecordWeights(y, i, q, weights, |y|)
  {
    var sums := new real[|y|];
    for k := 0 to |y|
      invariant RecordWeights(y, i, q, weights, k) == Ok(sums[..k])
    {
      var sum := RecordSum(y[k], i[k], q[k], weights);
      if sum.Err? {
        RecordWeightsFail(y, i, q, weights, k + 1, |y|);
        return Err(IndexOutOfRange);
      }
      sums[k] := sum.value;
      assert sums[..k + 1] == sums[..k] + [sum.value];
    }
    assert sums[..|y|] == sums[..];
    return Ok(sums[..]);
  }

  /** The sum of one record: its y, then i, then q words, each through its channel's weights. */
  method RecordSum(y: seq<u16>, i: seq<u16>, q: seq<u16>, weights: seq<seq<real>>) returns (r: Result<real>)
    requires |weights| == CHANNEL_COUNT
    ensures r == RecordWeight(y, i, q, weights)
  {
    r := AddChannel(0.0, y, weights[0]);
    if r.Ok? {
      r := AddChannel(r.value, i, weights[1]);
    }
    if r.Ok? {
      r := AddChannel(r.value, q, weights[2]);
    }
  }

  /** A failing record fails every longer run of sums. */
  lemma {:induction false} RecordWeightsFail(y: seq<seq<u16>>, i: seq<seq<u16>>, q: seq<seq<u16>>, weights: seq<seq<real>>, n: nat, m: nat)
    requires n <= m <= |y| && m <= |i| && m <= |q| && |weights| == CHANNEL_COUNT
    requires RecordWeights(y, i, q, weights, n).Err?
    ensures RecordWeights(y, i, q, weights, m) == Err(IndexOutOfRange)
    decreases m - n
  {
    if n < m {
      RecordWeightsFail(y, i, q, weights, n, m - 1);
    }
  }

  // ----------------------------------------------------------- the database

  /** The fields of a HaarSigBlockDB. */
  datatype BlockDb = BlockDb(
    sigY: seq<seq<u16>>, sigI: seq<seq<u16>>, sigQ: seq<seq<u16>>,
    weightsC: seq<seq<real>>, count: nat, weightsums: seq<real>)

  /**
   * The constructor: the three block files, InvalidData when their record
   * counts differ, then each record's weight; any exception on the way
   * leaves no database.
   */
  function Open(fileY: seq<byte>, fileI: seq<byte>, fileQ: seq<byte>): (r: Result<BlockDb>)
    ensures r.Err? ==> r.error == IndexOutOfRange || r.error == InvalidData
  {
    var y :- Blocks(fileY);
    var i :- Blocks(fileI);
    var q :- Blocks(fileQ);
    if |y| != |i| || |i| != |q| then Err(InvalidData)
    else
      var ws :- RecordWeights(y, i, q, ChannelWeights(), |y|);
      Ok(BlockDb(y, i, q, ChannelWeights(), |y|, ws))
  }

  /**
   * Opening succeeds exactly when the three files are whole records of
   * equal number and every record's words index the channel weights; it
   * fails with InvalidData exactly when the record counts differ.
   */
  lemma OpenAccepts(fileY: seq<byte>, fileI: seq<byte>, fileQ: seq<byte>)
    ensures Open(fileY, fileI, fileQ).Ok? <==>
      Blocks(fileY).Ok? && Blocks(fileI).Ok? && Blocks(fileQ).Ok? &&
      |fileY| == |fileI| == |fileQ| &&
      forall k :: 0 <= k < |fileY| / RECORD_BYTES ==>
        RecordWeight(Record(fileY, k), Record(fileI, k), Record(fileQ, k), ChannelWeights()).Ok?
    ensures Open(fileY, fileI, fileQ) == Err(InvalidData) <==>
      Blocks(fileY).Ok? && Blocks(fileI).Ok? && Blocks(fileQ).Ok? && !(|fileY| == |fileI| == |fileQ|)
  {
    if Blocks(fileY).Ok? && Blocks(fileI).Ok? && Blocks(fileQ).Ok? {
      var y, i, q := Blocks(fileY).value, Blocks(fileI).value, Blocks(fileQ).value;
      if |y| == |i| == |q| {
        assert |fileY| == |fileI| == |fileQ|;
        RecordWeightsMeaning(y, i, q, ChannelWeights(), |y|);
        assert forall k :: 0 <= k < |y| ==> y[k] == Record(fileY, k) && i[k] == Record(fileI, k) && q[k] == Record(fileQ, k);
      } else {
        assert !(|fileY| == |fileI| == |fileQ|);
      }
    }
  }

  /**
   * An opened database holds the files' records, the per-channel weights,
   * and for each record the weight sum of its words.
   */
  lemma OpenHolds(fileY: seq<byte>, fileI: seq<byte>, fileQ: seq<byte>, db: BlockDb)
    requires Open(fileY, fileI, fileQ) == Ok(db)
    ensures db.count == |fileY| / RECORD_BYTES == |db.sigY| == |db.sigI| == |db.sigQ| == |db.weightsums|
    ensures db.weightsC == ChannelWeights()
    ensures forall k :: 0 <= k < db.count ==>
      db.sigY[k] == Record(fileY, k) && db.sigI[k] == Record(fileI, k) && db.sigQ[k] == Record(fileQ, k)
    ensures forall k :: 0 <= k < db.count ==>
      RecordWeight(db.sigY[k], db.sigI[k], db.sigQ[k], db.weightsC) == Ok(db.weightsums[k])
  {
    var y, i, q := Blocks(fileY).value, Blocks(fileI).value, Blocks(fileQ).value;
    assert db.sigY == y && db.sigI == i && db.sigQ == q;
    RecordWeightsMeaning(y, i, q, ChannelWeights(), |y|);
  }

  /** getSig: the three channel records at i. */
  function SigAt(db: BlockDb, i: int): (r: Result<seq<seq<u16>>>)
    ensures r.Err? ==> r.error == IndexOutOfRange
  {
    if 0 <= i < |db.sigY| && i < |db.sigI| && i < |db.sigQ| then Ok([db.sigY[i], db.sigI[i], db.sigQ[i]])
    else Err(IndexOutOfRange)
  }

  /** On an opened database, getSig(i) is defined below the count and returns the files' records i. */
  lemma SigAtOpened(fileY: seq<byte>, fileI: seq<byte>, fileQ: seq<byte>, i: int)
    requires Open(fileY, fileI, fileQ).Ok?
    ensures SigAt(Open(fileY, fileI, fileQ).value, i).Ok? <==> 0 <= i < Open(fileY, fileI, fileQ).value.count
    ensures 0 <= i < Open(fileY, fileI, fileQ).value.count ==>
      SigAt(Open(fileY, fileI, fileQ).value, i) == Ok([Record(fileY, i), Record(fileI, i), Record(fileQ, i)])
  {
    OpenHolds(fileY, fileI, fileQ, Open(fileY, fileI, fileQ).value);
  }

  // ------------------------------------------------------------- similarity

  /** CompareShortArrays: the sorted merge of HaarSignature over ushort words. */
  method CompareShortArrays(sig1: seq<u16>, sig2: seq<u16>, weights: seq<real>) returns (r: Result<real>)
    ensures r == HaarCompare.MergeMatch(Widen(sig1), Widen(sig2), weights)
  {
    var wMatch := 0.0;
    var index1, index2 := 0, 0;
    while index1 < |sig1| && index2 < |sig2|
      invariant 0 <= index1 <= |sig1| && 0 <= index2 <= |sig2|
      invariant HaarCompare.AddTo(wMatch, HaarCompare.MergeMatch(Widen(sig1)[index1..], Widen(sig2)[index2..], weights)) ==
        HaarCompare.MergeMatch(Widen(sig1), Widen(sig2), weights)
      decreases |sig1| - index1 + |sig2| - index2
    {
      ghost var a, b := Widen(sig1)[index1..], Widen(sig2)[index2..];
      var coeff1, coeff2 := sig1[index1], sig2[index2];
      assert a[0] == coeff1 && b[0] == coeff2;
      if coeff1 <= coeff2 {
        index1 := index1 + 1;
      }
      if coeff2 <= coeff1 {
        index2 := index2 + 1;
      }
      assert Widen(sig1)[index1..] == if coeff1 <= coeff2 then a[1..] else a;
      assert Widen(sig2)[index2..] == if coeff2 <= coeff1 then b[1..] else b;
      if coeff1 == coeff2 {
        if coeff1 / 2 >= |weights| {
          return Err(IndexOutOfRange);
        }
        wMatch := wMatch + weights[coeff1 / 2];
      }
    }
    assert Widen(sig1)[index1..] == [] || Widen(sig2)[index2..] == [];
    return Ok(wMatch);
  }

  /** A record merged with itself: every word is a tie, so the merge is the record's own weight. */
  lemma {:induction false} MergeSelf(a: seq<u32>, weights: seq<real>)
    ensures HaarCompare.MergeMatch(a, a, weights) == HaarCompare.WeightOf(a, weights)
    decreases |a|
  {
    if a == [] {
      assert InRange(a, |weights|);
    } else {
      MergeSelf(a[1..], weights);
      assert a == [a[0]] + a[1..];
      HaarCompare.WeightOfFront(a[0], a[1..], weights);
    }
  }

  /**
   * InternalSimilarity: the common weight of records i and j over the three
   * channels, divided by the weight of their union; None stands for the NaN
   * or infinity of a zero denominator.
   */
  function Similarity(db: BlockDb, i: int, j: int): Result<Option<real>>
  {
    if !(0 <= i < |db.sigY| && 0 <= j < |db.sigY| && i < |db.sigI| && j < |db.sigI| &&
         i < |db.sigQ| && j < |db.sigQ| && |db.weightsC| >= CHANNEL_COUNT &&
         i < |db.weightsums| && j < |db.weightsums|)
    then Err(IndexOutOfRange)
    else
      var oy :- HaarCompare.MergeMatch(Widen(db.sigY[i]), Widen(db.sigY[j]), db.weightsC[0]);
      var oi :- HaarCompare.MergeMatch(Widen(db.sigI[i]), Widen(db.sigI[j]), db.weightsC[1]);
      var oq :- HaarCompare.MergeMatch(Widen(db.sigQ[i]), Widen(db.sigQ[j]), db.weightsC[2]);
      var overlap := oy + oi + oq;
      Ok(HaarCompare.Ratio(overlap, db.weightsums[i] + db.weightsums[j] - overlap))
  }

  /** The similarity does not depend on the order of the two records. */
  lemma SimilaritySymmetric(db: BlockDb, i: int, j: int)
    ensures Similarity(db, i, j) == Similarity(db, j, i)
  {
    if 0 <= i < |db.sigY| && 0 <= j < |db.sigY| && i < |db.sigI| && j < |db.sigI| &&
       i < |db.sigQ| && j < |db.sigQ| && |db.weightsC| >= CHANNEL_COUNT
    {
      HaarCompare.MergeMatchSymmetric(Widen(db.sigY[i]), Widen(db.sigY[j]), db.weightsC[0]);
      HaarCompare.MergeMatchSymmetric(Widen(db.sigI[i]), Widen(db.sigI[j]), db.weightsC[1]);
      HaarCompare.MergeMatchSymmetric(Widen(db.sigQ[i]), Widen(db.sigQ[j]), db.weightsC[2]);
    }
  }

  /** A record whose weight sum is the weight of its words is wholly similar to itself, unless that weight is zero. */
  lemma SelfSimilar(db: BlockDb, i: int)
    requires 0 <= i < |db.sigY| && i < |db.sigI| && i < |db.sigQ| && i < |db.weightsums| && |db.weightsC| == CHANNEL_COUNT
    requires RecordWeight(db.sigY[i], db.sigI[i], db.sigQ[i], db.weightsC) == Ok(db.weightsums[i])
    ensures Similarity(db, i, i) == Ok(if db.weightsums[i] == 0.0 then None else Some(1.0))
  {
    var y, iq, q, w := Widen(db.sigY[i]), Widen(db.sigI[i]), Widen(db.sigQ[i]), db.weightsC;
    MergeSelf(y, w[0]);
    MergeSelf(iq, w[1]);
    MergeSelf(q, w[2]);
    var wy, wi, wq := HaarCompare.WeightOf(y, w[0]).value, HaarCompare.WeightOf(iq, w[1]).value, HaarCompare.WeightOf(q, w[2]).value;
    assert wy + wi + wq == db.weightsums[i];
    var overlap := wy + wi + wq;
    assert Similarity(db, i, i) == Ok(HaarCompare.Ratio(overlap, overlap + overlap - overlap));
    assert overlap + overlap - overlap == overlap;
    if overlap != 0.0 {
      assert overlap / overlap == 1.0;
    }
  }

  /** On an opened database a record is wholly similar to itself, unless its weight is zero. */
  lemma SelfSimilarity(fileY: seq<byte>, fileI: seq<byte>, fileQ: seq<byte>, i: int)
    requires Open(fileY, fileI, fileQ).Ok? && 0 <= i < Open(fileY, fileI, fileQ).value.count
    ensures var db := Open(fileY, fileI, fileQ).value;
      Similarity(db, i, i) == Ok(if db.weightsums[i] == 0.0 then None else Some(1.0))
  {
    var db := Open(fileY, fileI, fileQ).value;
    OpenHolds(fileY, fileI, fileQ, db);
    SelfSimilar(db, i);
  }

  /** HaarSigBlockDB. */
  class HaarSigBlockDB {
    var sigY: seq<seq<u16>>        // sig_y
    var sigI: seq<seq<u16>>        // sig_i
    var sigQ: seq<seq<u16>>        // sig_q
    var weightsC: seq<seq<real>>   // weights_c
    var count: nat                 // m_Count
    var weightsums: seq<real>      // m_weightsums

    function State(): BlockDb
      reads this
    {
      BlockDb(sigY, sigI, sigQ, weightsC, count, weightsums)
    }

    constructor Of(db: BlockDb)
      ensures State() == db
    {
      sigY, sigI, sigQ, weightsC, count, weightsums := db.sigY, db.sigI, db.sigQ, db.weightsC, db.count, db.weightsums;
    }

    /** The constructor HaarSigBlockDB(file_y, file_i, file_q), given the three files' bytes. */
    static method Load(fileY: seq<byte>, fileI: seq<byte>, fileQ: seq<byte>) returns (r: Result<HaarSigBlockDB>)
      ensures r.Err? ==> Open(fileY, fileI, fileQ) == Err(r.error)
      ensures r.Ok? ==> fresh(r.value) && Open(fileY, fileI, fileQ) == Ok(r.value.State())
    {
      var weights := FillChannelWeights();
      var y := DeserializeBlockf(fileY);
      if y.Err? {
        return Err(y.error);
      }
      var i := DeserializeBlockf(fileI);
      if i.Err? {
        return Err(i.error);
      }
      var q := DeserializeBlockf(fileQ);
      if q.Err? {
        return Err(q.error);
      }
      if |y.value| != |i.value| || |i.value| != |q.value| {
        return Err(InvalidData);
      }
      var sums := SumRecords(y.value, i.value, q.value, weights);
      if sums.Err? {
        return Err(sums.error);
      }
      var loaded := BlockDb(y.value, i.value, q.value, weights, |y.value|, sums.value);
      assert Open(fileY, fileI, fileQ) == Ok(loaded);
      var db := new HaarSigBlockDB.Of(loaded);
      return Ok(db);
    }

    /** The Count getter. */
    function Count(): (n: nat)
      reads this
      ensures n == State().count
    {
      count
    }

    method GetSig(i: int) returns (r: Result<seq<seq<u16>>>)
      ensures r == SigAt(State(), i)
    {
      if !(0 <= i < |sigY| && i < |sigI| && i < |sigQ|) {
        return Err(IndexOutOfRange);
      }
      return Ok([sigY[i], sigI[i], sigQ[i]]);
    }

    method InternalSimilarity(i: int, j: int) returns (r: Result<Option<real>>)
      ensures r == Similarity(State(), i, j)
    {
      if !(0 <= i < |sigY| && 0 <= j < |sigY| && i < |sigI| && j < |sigI| &&
           i < |sigQ| && j < |sigQ| && |weightsC| >= CHANNEL_COUNT &&
           i < |weightsums| && j < |weightsums|) {
        return Err(IndexOutOfRange);
      }
      var oy := CompareShortArrays(sigY[i], sigY[j], weightsC[0]);
      if oy.Err? {
        return Err(oy.error);
      }
      var oi := CompareShortArrays(sigI[i], sigI[j], weightsC[1]);
      if oi.Err? {
        return Err(oi.error);
      }
      var oq := CompareShortArrays(sigQ[i], sigQ[j], weightsC[2]);
      if oq.Err? {
        return Err(oq.error);
      }
      var overlap := oy.value + oi.value + oq.value;
      return Ok(HaarCompare.Ratio(overlap, weightsums[i] + weightsums[j] - overlap));
    }
  }
}
