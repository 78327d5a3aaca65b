/**
 * BlockFileHsigs of the importer (iqdb-import/Program.cs): a file of
 * serialised Haar signatures is split into a head file (hash and averages
 * of each signature), a list of hashes with their total weight, and the
 * three per-channel block files HaarSigBlockDB reads. Every output file is
 * the stream of what is written to it.
 */
module ImportBlocks {
  import opened Wire
  import opened Signatures
  import opened Text
  import opened HaarWeights
  import HaarSignatures
  import IntegerSignatures
  import HaarCompare
  import HaarBlocks
  import opened HaarStream

  // ------------------------------------------------------ the channel split

  /** The channel of a packed id: `id >> (PIXEL_BITS + 1)`. */
  function ChannelOf(id: u32): nat {
    id / CHANNEL_SIZE
  }

  /** The id without its channel bits: `(ushort)(id % CHANNEL_SIZE)`. */
  function CoeffOf(id: u32): u16 {
    id % CHANNEL_SIZE
  }

  /** On 32-bit words the shift is the division by CHANNEL_SIZE, and `(channel << 15) | coeff` gives the id back. */
  lemma ChannelBits(id: bv32)
    ensures id >> 15 == id / 0x8000
    ensures ((id >> 15) << 15) | (id % 0x8000) == id
  {
  }

  /** The words of channel c, in SigData order and without the channel bits: what goes to that block file. */
  function ChannelCoeffs(ids: seq<u32>, c: nat): (r: seq<u16>)
    ensures |r| <= |ids|
  {
    if ids == [] then []
    else
      var last := ids[|ids| - 1];
      ChannelCoeffs(ids[..|ids| - 1], c) + (if ChannelOf(last) == c then [CoeffOf(last)] else [])
  }

  /**
   * Every id of the weight table goes to exactly one of the three block
   * files, and the three channels' weights, each looked up in its own
   * channel table, add up to Sum_Weights of the signature.
   */
  lemma {:induction false} ChannelSplitMeaning(ids: seq<u32>)
    requires InTable(ids)
    ensures |ChannelCoeffs(ids, 0)| + |ChannelCoeffs(ids, 1)| + |ChannelCoeffs(ids, 2)| == |ids|
    ensures forall c :: 0 <= c < CHANNEL_COUNT ==> InRange(HaarBlocks.Widen(ChannelCoeffs(ids, c)), PIXEL_COUNT)
    ensures WeightSum(HaarBlocks.Widen(ChannelCoeffs(ids, 0)), HaarBlocks.ChannelWeights()[0]) +
      WeightSum(HaarBlocks.Widen(ChannelCoeffs(ids, 1)), HaarBlocks.ChannelWeights()[1]) +
      WeightSum(HaarBlocks.Widen(ChannelCoeffs(ids, 2)), HaarBlocks.ChannelWeights()[2]) == WeightSum(ids, Table())
  {
    if ids != [] {
      var n := |ids| - 1;
      var init, x := ids[..n], ids[n];
      assert InTable(init) by {
        assert forall k :: 0 <= k < n ==> init[k] == ids[k];
      }
      ChannelSplitMeaning(init);
      var c := ChannelOf(x);
      assert c < CHANNEL_COUNT;
      HaarBlocks.BlockWeight(x, c);
      forall d | 0 <= d < CHANNEL_COUNT
        ensures InRange(HaarBlocks.Widen(ChannelCoeffs(ids, d)), PIXEL_COUNT)
        ensures WeightSum(HaarBlocks.Widen(ChannelCoeffs(ids, d)), HaarBlocks.ChannelWeights()[d]) ==
          WeightSum(HaarBlocks.Widen(ChannelCoeffs(init, d)), HaarBlocks.ChannelWeights()[d]) +
          (if d == c then Table()[x / 2] else 0.0)
      {
        ChannelStep(init, x, d);
      }
    }
  }

  /** Adding one id to the split adds its coefficient to its own channel only. */
  lemma ChannelStep(init: seq<u32>, x: u32, d: nat)
    requires d < CHANNEL_COUNT && x < COEFF_SPACE
    requires InRange(HaarBlocks.Widen(ChannelCoeffs(init, d)), PIXEL_COUNT)
    ensures InRange(HaarBlocks.Widen(ChannelCoeffs(init + [x], d)), PIXEL_COUNT)
    ensures WeightSum(HaarBlocks.Widen(ChannelCoeffs(init + [x], d)), HaarBlocks.ChannelWeights()[d]) ==
      WeightSum(HaarBlocks.Widen(ChannelCoeffs(init, d)), HaarBlocks.ChannelWeights()[d]) +
      (if d == ChannelOf(x) then Table()[x / 2] else 0.0)
  {
    var ids := init + [x];
    assert ids[..|ids| - 1] == init;
    var before := HaarBlocks.Widen(ChannelCoeffs(init, d));
    if d == ChannelOf(x) {
      var after := HaarBlocks.Widen(ChannelCoeffs(ids, d));
      assert after == before + [CoeffOf(x) as u32];
      assert after[..|after| - 1] == before;
      HaarBlocks.BlockWeight(x, d);
    } else {
      assert ChannelCoeffs(ids, d) == ChannelCoeffs(init, d);
    }
  }

  /** The weight HaarSigBlockDB computes for the three channel records of a signature is its Sum_Weights. */
  lemma {:induction false} SplitWeight(ids: seq<u32>)
    requires InTable(ids)
    ensures HaarBlocks.RecordWeight(ChannelCoeffs(ids, 0), ChannelCoeffs(ids, 1), ChannelCoeffs(ids, 2),
      HaarBlocks.ChannelWeights()) == SumLookUp(ids)
  {
    ChannelSplitMeaning(ids);
    SumLookUpMeaning(ids);
    HaarBlocks.RecordWeightInRange(ChannelCoeffs(ids, 0), ChannelCoeffs(ids, 1), ChannelCoeffs(ids, 2), HaarBlocks.ChannelWeights());
  }

  /** The inner loop of BlockFileHsigs: each id's word goes to the writer of its channel; other channels are dropped. */
  method SplitIds(ids: seq<u32>) returns (y: seq<u16>, i: seq<u16>, q: seq<u16>)
    ensures y == ChannelCoeffs(ids, 0) && i == ChannelCoeffs(ids, 1) && q == ChannelCoeffs(ids, 2)
  {
    y, i, q := [], [], [];
    for k := 0 to |ids|
      invariant y == ChannelCoeffs(ids[..k], 0) && i == ChannelCoeffs(ids[..k], 1) && q == ChannelCoeffs(ids[..k], 2)
    {
      assert ids[..k + 1][..k] == ids[..k];
      var channel := ids[k] / CHANNEL_SIZE;
      var coeff: u16 := ids[k] % CHANNEL_SIZE;
      if channel == 0 {
        y := y + [coeff];
      } else if channel == 1 {
        i := i + [coeff];
      } else if channel == 2 {
        q := q + [coeff];
      }
    }
    assert ids[..|ids|] == ids;
  }

  // ------------------------------------------------------------ the files

  /**
   * What BlockFileHsigs appends: the head file, the lines of the head list
   * (hash and Sum_Weights; the number's text form is not modelled) and the
   * y, i and q block files as words.
   */
  datatype BlockFiles = BlockFiles(head: seq<Cell>, sums: seq<(string, real)>, y: seq<u16>, i: seq<u16>, q: seq<u16>)

  const NoFiles := BlockFiles([], [], [], [], [])

  /** The files a written, followed by what b appends. */
  function Join(a: BlockFiles, b: BlockFiles): BlockFiles {
    BlockFiles(a.head + b.head, a.sums + b.sums, a.y + b.y, a.i + b.i, a.q + b.q)
  }

  /** What one signature adds to every file. */
  function RecordFiles(hash: seq<byte>, averages: seq<real>, ids: seq<u32>, sum: real): BlockFiles {
    BlockFiles(Bytes(hash) + F32s(averages), [(LowerHex(hash), sum)],
      ChannelCoeffs(ids, 0), ChannelCoeffs(ids, 1), ChannelCoeffs(ids, 2))
  }

  /**
   * BlockFileHsigs: a record that does not decode, or whose Sum_Weights
   * runs past the weight table, ends the program with that exception.
   */
  function SplitStream(s: seq<Cell>): Result<BlockFiles>
    decreases ByteLength(s)
  {
    if s == [] then Ok(NoFiles)
    else
      var (v, rest) :- HaarSignatures.DecodeHaar(s);
      DecodedHaar(s);
      var sum :- SumLookUp(v.sigData);
      var tail :- SplitStream(rest);
      Ok(Join(RecordFiles(v.hash.value, v.kind.averages, v.sigData, sum), tail))
  }

  /** The files written so far, followed by what the rest of the input adds. */
  function Then(done: BlockFiles, r: Result<BlockFiles>): Result<BlockFiles> {
    match r
    case Err(e) => Err(e)
    case Ok(more) => Ok(Join(done, more))
  }

  /** The block words of channel c for a run of signatures: each signature's words in turn. */
  function Channel(vs: seq<SigValue>, c: nat): seq<u16> {
    if vs == [] then [] else ChannelCoeffs(vs[0].sigData, c) + Channel(vs[1..], c)
  }

  /** Signature k's share of the head list: its hash and its Sum_Weights. */
  predicate Listed(out: BlockFiles, vs: seq<SigValue>)
    requires |out.sums| == |vs|
  {
    forall k :: 0 <= k < |vs| ==>
      SumLookUp(vs[k].sigData) == Ok(out.sums[k].1) && out.sums[k].0 == HashString(vs[k].hash)
  }

  /**
   * A split that completes read every signature of the input, none of which
   * has an id past the weight table; the head list has one line per
   * signature, and each block file holds the signatures' words of its
   * channel, signature by signature.
   */
  lemma {:induction false} SplitStreamRecords(s: seq<Cell>)
    requires SplitStream(s).Ok?
    ensures Records(s).Ok?
    ensures var vs, out := Records(s).value, SplitStream(s).value;
      |out.sums| == |vs| && Listed(out, vs) &&
      (forall k :: 0 <= k < |vs| ==> InTable(vs[k].sigData)) &&
      out.y == Channel(vs, 0) && out.i == Channel(vs, 1) && out.q == Channel(vs, 2)
    decreases ByteLength(s)
  {
    if s != [] {
      var (v, rest) := HaarSignatures.DecodeHaar(s).value;
      DecodedHaar(s);
      SplitStreamRecords(rest);
      SumLookUpMeaning(v.sigData);
      var vs := Records(s).value;
      assert vs == [v] + Records(rest).value;
      assert vs[1..] == Records(rest).value;
    }
  }

  /** With 30 words of channel c per signature, block record k of that channel is signature k's words. */
  lemma {:induction false} ChannelChunks(vs: seq<SigValue>, c: nat)
    requires forall k :: 0 <= k < |vs| ==> |ChannelCoeffs(vs[k].sigData, c)| == HaarBlocks.RECORD_LENGTH
    ensures |Channel(vs, c)| == HaarBlocks.RECORD_LENGTH * |vs|
    ensures forall k :: 0 <= k < |vs| ==> HaarBlocks.Chunk(Channel(vs, c), k) == ChannelCoeffs(vs[k].sigData, c)
  {
    if vs != [] {
      var tail := vs[1..];
      assert forall k :: 0 <= k < |tail| ==> tail[k] == vs[k + 1];
      ChannelChunks(tail, c);
      var head := ChannelCoeffs(vs[0].sigData, c);
      var xs := Channel(vs, c);
      assert xs == head + Channel(tail, c);
      forall k | 0 <= k < |vs|
        ensures HaarBlocks.Chunk(xs, k) == ChannelCoeffs(vs[k].sigData, c)
      {
        if k > 0 {
          assert HaarBlocks.Chunk(xs, k) == HaarBlocks.Chunk(Channel(tail, c), k - 1);
        }
      }
    }
  }

  /** Thirty coefficients of every channel in every signature: the record length of the block files. */
  predicate Full(vs: seq<SigValue>) {
    forall k, c :: 0 <= k < |vs| && 0 <= c < CHANNEL_COUNT ==> |ChannelCoeffs(vs[k].sigData, c)| == HaarBlocks.RECORD_LENGTH
  }

  /** The block file of channel c read back: one record per signature, its words of that channel. */
  lemma ChannelBlocks(vs: seq<SigValue>, c: nat)
    requires Full(vs) && c < CHANNEL_COUNT
    ensures HaarBlocks.Blocks(HaarBlocks.Words(Channel(vs, c))).Ok?
    ensures var b := HaarBlocks.Blocks(HaarBlocks.Words(Channel(vs, c))).value;
      |b| == |vs| && forall k :: 0 <= k < |vs| ==> b[k] == ChannelCoeffs(vs[k].sigData, c)
  {
    ChannelChunks(vs, c);
    HaarBlocks.BlocksOfWords(Channel(vs, c));
  }

  /**
   * The block files BlockFileHsigs writes open as a HaarSigBlockDB when
   * every signature has 30 coefficients in each channel: record k holds
   * signature k's words of each channel, and its weight sum is the
   * signature's Sum_Weights.
   */
  lemma SplitThenOpen(s: seq<Cell>, out: BlockFiles, vs: seq<SigValue>)
    requires SplitStream(s) == Ok(out) && Records(s) == Ok(vs) && Full(vs)
    ensures HaarBlocks.Open(HaarBlocks.Words(out.y), HaarBlocks.Words(out.i), HaarBlocks.Words(out.q)).Ok?
    ensures var db := HaarBlocks.Open(HaarBlocks.Words(out.y), HaarBlocks.Words(out.i), HaarBlocks.Words(out.q)).value;
      db.count == |vs| &&
      forall k :: 0 <= k < |vs| ==>
        db.sigY[k] == ChannelCoeffs(vs[k].sigData, 0) &&
        db.sigI[k] == ChannelCoeffs(vs[k].sigData, 1) &&
        db.sigQ[k] == ChannelCoeffs(vs[k].sigData, 2) &&
        SumLookUp(vs[k].sigData) == Ok(db.weightsums[k])
  {
    SplitStreamRecords(s);
    ChannelBlocks(vs, 0);
    ChannelBlocks(vs, 1);
    ChannelBlocks(vs, 2);
    var y := HaarBlocks.Blocks(HaarBlocks.Words(out.y)).value;
    var i := HaarBlocks.Blocks(HaarBlocks.Words(out.i)).value;
    var q := HaarBlocks.Blocks(HaarBlocks.Words(out.q)).value;
    var w := HaarBlocks.ChannelWeights();
    forall k | 0 <= k < |vs|
      ensures HaarBlocks.RecordWeight(y[k], i[k], q[k], w) == SumLookUp(vs[k].sigData)
    {
      SplitWeight(vs[k].sigData);
    }
    HaarBlocks.RecordWeightsMeaning(y, i, q, w, |y|);
    var ws := HaarBlocks.RecordWeights(y, i, q, w, |y|).value;
    assert HaarBlocks.Open(HaarBlocks.Words(out.y), HaarBlocks.Words(out.i), HaarBlocks.Words(out.q)) ==
      Ok(HaarBlocks.BlockDb(y, i, q, w, |y|, ws));
  }

  /** Appending in two steps is appending the two parts at once. */
  lemma ThenJoin(out: BlockFiles, record: BlockFiles, r: Result<BlockFiles>)
    ensures Then(out, Then(record, r)) == Then(Join(out, record), r)
  {
    if r.Ok? {
      var more := r.value;
      assert Join(out, Join(record, more)) == Join(Join(out, record), more) by {
        assert out.head + (record.head + more.head) == (out.head + record.head) + more.head;
        assert out.sums + (record.sums + more.sums) == (out.sums + record.sums) + more.sums;
        assert out.y + (record.y + more.y) == (out.y + record.y) + more.y;
        assert out.i + (record.i + more.i) == (out.i + record.i) + more.i;
        assert out.q + (record.q + more.q) == (out.q + record.q) + more.q;
      }
    }
  }

  /** Nothing written before, or nothing after: the files are what the other part holds. */
  lemma JoinNothing(f: BlockFiles)
    ensures Join(NoFiles, f) == f && Join(f, NoFiles) == f
  {
    assert [] + f.head == f.head && f.head + [] == f.head;
    assert [] + f.sums == f.sums && f.sums + [] == f.sums;
    assert [] + f.y == f.y && f.y + [] == f.y;
    assert [] + f.i == f.i && f.i + [] == f.i;
    assert [] + f.q == f.q && f.q + [] == f.q;
  }

  /**
   * One turn of the loop of BlockFileHsigs: a signature read, its
   * Sum_Weights, its head and list line, its ids split by channel.
   */
  method SplitOne(s: seq<Cell>) returns (r: Result<(BlockFiles, seq<Cell>)>)
    requires s != []
    ensures r.Err? ==> SplitStream(s) == Err(r.error)
    ensures r.Ok? ==> ByteLength(r.value.1) < ByteLength(s) && SplitStream(s) == Then(r.value.0, SplitStream(r.value.1))
  {
    var d := HaarSignatures.DecodeHaar(s);
    if d.Err? {
      return Err(d.error);
    }
    var (v, next) := d.value;
    DecodedHaar(s);
    var sum := SumWeights(v.sigData);
    if sum.Err? {
      return Err(sum.error);
    }
    var hash := v.hash.value;
    var averages := WriteF32s(v.kind.averages);
    var y, i, q := SplitIds(v.sigData);
    var record := BlockFiles(Bytes(hash) + averages, [(LowerHex(hash), sum.value)], y, i, q);
    assert record == RecordFiles(hash, v.kind.averages, v.sigData, sum.value);
    return Ok((record, next));
  }

  /**
   * BlockFileHsigs: while the input has bytes left, read a Haar signature,
   * write its head and its list line, and send each of its ids to the
   * block file of its channel.
   */
  method BlockFileHsigs(s: seq<Cell>) returns (r: Result<BlockFiles>)
    ensures r == SplitStream(s)
  {
    var out := NoFiles;
    var rest := s;
    if SplitStream(s).Ok? {
      JoinNothing(SplitStream(s).value);
    }
    while rest != []
      invariant SplitStream(s) == Then(out, SplitStream(rest))
      decreases ByteLength(rest)
    {
      var one := SplitOne(rest);
      if one.Err? {
        return Err(one.error);
      }
      var (record, next) := one.value;
      ThenJoin(out, record, SplitStream(next));
      out := Join(out, record);
      rest := next;
    }
    JoinNothing(out);
    return Ok(out);
  }
}
