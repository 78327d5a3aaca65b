/**
 * The arrays of an in-memory Haar index (iqdb/HaarQuerySparseMatrix.cs) as
 * values: the binary layout its Serialize writes and Deserialize reads, and
 * what its ExecuteQuery computes from them.
 */
module HaarIndex {
  import opened Wire
  import opened Text
  import opened Signatures
  import opened HaarWeights
  import opened Csr
  import opened QueryResults

  /** HaarMiniSig: the hash, Sum_Weights and the channel averages of one indexed signature. */
  datatype MiniSig = MiniSig(hash: Option<seq<byte>>, totalWeight: real, yuv: seq<real>)

  /** The three arrays of a matrix: Signatures, row_id_offsets and column_ids. */
  datatype Index = Index(signatures: seq<MiniSig>, offsets: seq<u32>, columnIds: seq<u32>)

  // ------------------------------------------------------------------ codec

  /** One record: the raw hash bytes, Sum_Weights and the first three averages. */
  function EncodeMini(m: MiniSig): (r: Result<seq<Cell>>)
    ensures r.Ok? <==> m.hash.Some? && |m.yuv| >= CHANNEL_COUNT
    ensures r.Err? ==> r.error == if m.hash.None? then ArgumentNull else IndexOutOfRange
  {
    if m.hash.None? then Err(ArgumentNull)
    else if |m.yuv| < CHANNEL_COUNT then Err(IndexOutOfRange)
    else Ok(Bytes(m.hash.value) + F32(m.totalWeight) + F32s(m.yuv[..CHANNEL_COUNT]))
  }

  /** The records in order; the first one that cannot be written stops the loop. */
  function EncodeMinis(ms: seq<MiniSig>): (r: Result<seq<Cell>>)
  {
    if ms == [] then Ok([])
    else
      var head :- EncodeMini(ms[0]);
      var tail :- EncodeMinis(ms[1..]);
      Ok(head + tail)
  }

  /** A matrix Serialize writes completely: every record has a hash and three averages, and there are 98,304 offsets to write. */
  predicate Serializable(ix: Index) {
    |ix.offsets| >= COEFF_SPACE &&
    forall k :: 0 <= k < |ix.signatures| ==> ix.signatures[k].hash.Some? && |ix.signatures[k].yuv| >= CHANNEL_COUNT
  }

  /**
   * Serialize: the record count, the records, the first 98,304 offsets (the
   * sentinel is not written), the number of column ids and the ids.
   */
  function EncodeIndex(ix: Index): (r: Result<seq<Cell>>)
    requires |ix.signatures| <= INT32_MAX && |ix.columnIds| <= INT32_MAX
  {
    var records :- EncodeMinis(ix.signatures);
    if |ix.offsets| < COEFF_SPACE then Err(IndexOutOfRange)
    else Ok(U32(|ix.signatures|) + records + U32s(ix.offsets[..COEFF_SPACE]) + U32(|ix.columnIds|) + U32s(ix.columnIds))
  }

  /** The bytes already written in front of what a later write produces, when that write succeeds. */
  function Preceded(out: seq<Cell>, r: Result<seq<Cell>>): (p: Result<seq<Cell>>)
    ensures p.Ok? <==> r.Ok?
    ensures p.Err? ==> p == r
    ensures p.Ok? ==> p.value == out + r.value
  {
    if r.Ok? then Ok(out + r.value) else r
  }

  /** Writing the records one at a time: the first record, then the others behind it. */
  lemma EncodeMinisStep(out: seq<Cell>, ms: seq<MiniSig>)
    requires ms != [] && EncodeMini(ms[0]).Ok?
    ensures Preceded(out, EncodeMinis(ms)) == Preceded(out + EncodeMini(ms[0]).value, EncodeMinis(ms[1..]))
  {
    var tail := EncodeMinis(ms[1..]);
    if tail.Ok? {
      assert out + (EncodeMini(ms[0]).value + tail.value) == (out + EncodeMini(ms[0]).value) + tail.value;
    }
  }

  /** The record loop of Serialize: hash, weight and the three averages of each record in turn. */
  method WriteRecords(ms: seq<MiniSig>) returns (r: Result<seq<Cell>>)
    ensures r == EncodeMinis(ms)
  {
    var out := [];
    assert EncodeMinis(ms).Ok? ==> [] + EncodeMinis(ms).value == EncodeMinis(ms).value;
    for i := 0 to |ms|
      invariant Preceded(out, EncodeMinis(ms[i..])) == EncodeMinis(ms)
    {
      var m := ms[i];
      assert ms[i..][0] == m && ms[i..][1..] == ms[i + 1..];
      if m.hash.None? {
        return Err(ArgumentNull);
      }
      if |m.yuv| < CHANNEL_COUNT {
        return Err(IndexOutOfRange);
      }
      EncodeMinisStep(out, ms[i..]);
      var yuv := WriteF32s(m.yuv[..CHANNEL_COUNT]);
      assert out + Bytes(m.hash.value) + F32(m.totalWeight) + yuv == out + EncodeMini(m).value;
      out := out + Bytes(m.hash.value) + F32(m.totalWeight) + yuv;
    }
    assert ms[|ms|..] == [] && out + [] == out;
    return Ok(out);
  }

  /** One record read back: up to 16 hash bytes, the weight and three averages. */
  function DecodeMini(s: seq<Cell>): Result<(MiniSig, seq<Cell>)> {
    var (hash, rest) :- ReadBytes(s, HASH_BYTES);
    var (weight, rest') :- ReadSingle(rest);
    var (yuv, rest'') :- ReadF32s(rest', CHANNEL_COUNT);
    Ok((MiniSig(Some(hash), weight, yuv), rest''))
  }

  function DecodeMinis(s: seq<Cell>, n: nat): Result<(seq<MiniSig>, seq<Cell>)>
    decreases n
  {
    if n == 0 then Ok(([], s))
    else
      var (m, rest) :- DecodeMini(s);
      var (ms, rest') :- DecodeMinis(rest, n - 1);
      Ok(([m] + ms, rest'))
  }

  lemma DecodeMinisStep(s: seq<Cell>, n: nat)
    requires n > 0 && DecodeMini(s).Ok?
    ensures DecodeMinis(s, n) == Prepend([DecodeMini(s).value.0], DecodeMinis(DecodeMini(s).value.1, n - 1))
  {
  }

  /** The record loop of Deserialize: n records into a fresh array, one after the other. */
  method ReadRecords(s: seq<Cell>, n: nat) returns (r: Result<(seq<MiniSig>, seq<Cell>)>)
    ensures r == DecodeMinis(s, n)
  {
    var minis := new MiniSig[n](_ => MiniSig(None, 0.0, []));
    var rest := s;
    assert minis[..0] == [];
    PrependAssoc([], [], DecodeMinis(s, n));
    for i := 0 to n
      invariant DecodeMinis(s, n) == Prepend(minis[..i], DecodeMinis(rest, n - i))
    {
      var m := DecodeMini(rest);
      if m.Err? {
        return Err(m.error);
      }
      ghost var before := minis[..i];
      DecodeMinisStep(rest, n - i);
      minis[i] := m.value.0;
      assert minis[..i + 1] == before + [m.value.0];
      PrependAssoc(before, [m.value.0], DecodeMinis(m.value.1, n - i - 1));
      rest := m.value.1;
    }
    assert minis[..n] + [] == minis[..];
    return Ok((minis[..], rest));
  }

  /** What precedes the column ids in a saved matrix: the records, the offsets and the number of ids. */
  datatype Header = Header(signatures: seq<MiniSig>, offsets: seq<u32>, idCount: u32)

  /** The records, exactly 98,304 offsets, then the number of column ids. */
  function DecodeHeader(s: seq<Cell>): Result<(Header, seq<Cell>)> {
    var (t, rest) :- ReadU32(s);
    var (ms, rest') :- DecodeMinis(rest, t);
    var (offsets, rest'') :- ReadU32s(rest', COEFF_SPACE);
    var (gl, rest3) :- ReadU32(rest'');
    Ok((Header(ms, offsets, gl), rest3))
  }

  lemma {:induction false} DecodeMinisShrinks(s: seq<Cell>, n: nat)
    requires DecodeMinis(s, n).Ok?
    ensures ByteLength(DecodeMinis(s, n).value.1) <= ByteLength(s)
    decreases n
  {
    if n > 0 {
      var (_, rest) := ReadBytes(s, HASH_BYTES).value;
      ReadBytesShrinks(s, HASH_BYTES);
      ReadF32sShrinks(rest[1..], CHANNEL_COUNT);
      DecodeMinisShrinks(DecodeMini(s).value.1, n - 1);
    }
  }

  /** The header is read from the front: what follows it is no longer than the stream. */
  lemma DecodeHeaderShrinks(s: seq<Cell>)
    requires DecodeHeader(s).Ok?
    ensures ByteLength(DecodeHeader(s).value.1) <= ByteLength(s)
  {
    var (t, rest) := ReadU32(s).value;
    ReadLittleEndianShrinks(s, 4);
    DecodeMinisShrinks(rest, t);
    var rest' := DecodeMinis(rest, t).value.1;
    ReadU32sShrinks(rest', COEFF_SPACE);
    ReadLittleEndianShrinks(ReadU32s(rest', COEFF_SPACE).value.1, 4);
  }

  /** Deserialize: the header, then the counted column ids. */
  function DecodeIndex(s: seq<Cell>): Result<(Index, seq<Cell>)> {
    var (h, rest) :- DecodeHeader(s);
    var (ids, rest') :- ReadU32s(rest, h.idCount);
    Ok((Index(h.signatures, h.offsets, ids), rest'))
  }

  /** A record as it reads back: only the first three averages survive. */
  function Reloaded(m: MiniSig): MiniSig
    requires |m.yuv| >= CHANNEL_COUNT
  {
    m.(yuv := m.yuv[..CHANNEL_COUNT])
  }

  function ReloadedAll(ms: seq<MiniSig>): (rs: seq<MiniSig>)
    requires forall k :: 0 <= k < |ms| ==> |ms[k].yuv| >= CHANNEL_COUNT
    ensures |rs| == |ms| && forall k :: 0 <= k < |ms| ==> rs[k] == Reloaded(ms[k])
  {
    seq(|ms|, k requires 0 <= k < |ms| => Reloaded(ms[k]))
  }

  /** A matrix as it reads back: trimmed records, the offsets without the sentinel, the same ids. */
  function ReloadedIndex(ix: Index): Index
    requires Serializable(ix)
  {
    Index(ReloadedAll(ix.signatures), ix.offsets[..COEFF_SPACE], ix.columnIds)
  }

  /** The records are written in full exactly when each of them can be. */
  lemma {:induction false} EncodeMinisAccepts(ms: seq<MiniSig>)
    ensures EncodeMinis(ms).Ok? <==>
      forall k :: 0 <= k < |ms| ==> ms[k].hash.Some? && |ms[k].yuv| >= CHANNEL_COUNT
  {
    if ms != [] {
      EncodeMinisAccepts(ms[1..]);
      assert forall k :: 1 <= k < |ms| ==> ms[k] == ms[1..][k - 1];
    }
  }

  /** Serialize fails exactly when some record lacks a hash or averages, or the offsets are short. */
  lemma EncodeIndexAccepts(ix: Index)
    requires |ix.signatures| <= INT32_MAX && |ix.columnIds| <= INT32_MAX
    ensures EncodeIndex(ix).Ok? <==> Serializable(ix)
  {
    EncodeMinisAccepts(ix.signatures);
  }

  lemma MiniRoundTrip(m: MiniSig, rest: seq<Cell>)
    requires m.hash.Some? && |m.hash.value| == HASH_BYTES && |m.yuv| >= CHANNEL_COUNT
    ensures DecodeMini(EncodeMini(m).value + rest) == Ok((Reloaded(m), rest))
  {
    var yuv := m.yuv[..CHANNEL_COUNT];
    var tail := F32s(yuv) + rest;
    assert EncodeMini(m).value + rest == Bytes(m.hash.value) + ([Single(m.totalWeight)] + tail);
    BytesRoundTrip(m.hash.value, [Single(m.totalWeight)] + tail);
    assert ([Single(m.totalWeight)] + tail)[1..] == tail;
    F32sRoundTrip(yuv, rest);
  }

  lemma {:induction false} MinisRoundTrip(ms: seq<MiniSig>, rest: seq<Cell>)
    requires forall k :: 0 <= k < |ms| ==>
      ms[k].hash.Some? && |ms[k].hash.value| == HASH_BYTES && |ms[k].yuv| >= CHANNEL_COUNT
    ensures EncodeMinis(ms).Ok?
    ensures DecodeMinis(EncodeMinis(ms).value + rest, |ms|) == Ok((ReloadedAll(ms), rest))
  {
    if ms == [] {
      assert EncodeMinis(ms).value + rest == rest;
    } else {
      MinisRoundTrip(ms[1..], rest);
      var head := EncodeMini(ms[0]).value;
      var tail := EncodeMinis(ms[1..]).value;
      assert EncodeMinis(ms).value + rest == head + (tail + rest);
      MiniRoundTrip(ms[0], tail + rest);
      assert [Reloaded(ms[0])] + ReloadedAll(ms[1..]) == ReloadedAll(ms);
    }
  }

  /**
   * Serialize then Deserialize: every record comes back with its hash, its
   * weight and its first three averages, the offsets without the sentinel,
   * and the same column ids.
   */
  lemma IndexRoundTrip(ix: Index, rest: seq<Cell>)
    requires |ix.signatures| <= INT32_MAX && |ix.columnIds| <= INT32_MAX && Serializable(ix)
    requires forall k :: 0 <= k < |ix.signatures| ==> |ix.signatures[k].hash.value| == HASH_BYTES
    ensures EncodeIndex(ix).Ok?
    ensures DecodeHeader(EncodeIndex(ix).value + rest) ==
      Ok((Header(ReloadedAll(ix.signatures), ix.offsets[..COEFF_SPACE], |ix.columnIds|), U32s(ix.columnIds) + rest))
    ensures DecodeIndex(EncodeIndex(ix).value + rest) == Ok((ReloadedIndex(ix), rest))
  {
    var ms := ix.signatures;
    MinisRoundTrip(ms, []);
    var records := EncodeMinis(ms).value;
    var offsets := ix.offsets[..COEFF_SPACE];
    var tail3 := U32s(ix.columnIds) + rest;
    var tail2 := U32(|ix.columnIds|) + tail3;
    var tail1 := U32s(offsets) + tail2;
    var s := EncodeIndex(ix).value + rest;
    assert s == U32(|ms|) + (records + tail1) by {
      assert EncodeIndex(ix).value == U32(|ms|) + records + U32s(offsets) + U32(|ix.columnIds|) + U32s(ix.columnIds);
      AppendFive(U32(|ms|), records, U32s(offsets), U32(|ix.columnIds|), U32s(ix.columnIds), rest);
    }
    U32RoundTrip(|ms|, records + tail1);
    MinisRoundTrip(ms, tail1);
    U32sRoundTrip(offsets, tail2);
    U32RoundTrip(|ix.columnIds|, tail3);
    U32sRoundTrip(ix.columnIds, rest);
    DecodeIndexSteps(s, |ms|, records + tail1, ReloadedAll(ms), tail1,
      offsets, tail2, |ix.columnIds|, tail3, ix.columnIds, rest);
  }

  /** Where the column ids start in a saved matrix of t records: after 4 + 32 t + 4 · 98,304 + 4 bytes. */
  function ColumnStart(t: nat): nat {
    4 + 32 * t + 4 * COEFF_SPACE + 4
  }

  /** A record with a 16-byte hash takes 32 bytes: the hash, then four singles. */
  lemma {:induction false} RecordsByteLength(ms: seq<MiniSig>)
    requires forall k :: 0 <= k < |ms| ==>
      ms[k].hash.Some? && |ms[k].hash.value| == HASH_BYTES && |ms[k].yuv| >= CHANNEL_COUNT
    ensures EncodeMinis(ms).Ok? && ByteLength(EncodeMinis(ms).value) == 32 * |ms|
  {
    EncodeMinisAccepts(ms);
    if ms != [] {
      RecordsByteLength(ms[1..]);
      var m := ms[0];
      var hash, single, yuv := Bytes(m.hash.value), F32(m.totalWeight), F32s(m.yuv[..CHANNEL_COUNT]);
      ByteLengthAppend(EncodeMini(m).value, EncodeMinis(ms[1..]).value);
      ByteLengthAppend(hash + single, yuv);
      ByteLengthAppend(hash, single);
      ByteLengthOfBytes(hash);
      F32sByteLength(m.yuv[..CHANNEL_COUNT]);
    }
  }

  /** What Serialize writes in front of the column ids: the count, the records, the offsets and the id count. */
  function SavedHeader(ix: Index): seq<Cell>
    requires |ix.signatures| <= INT32_MAX && |ix.columnIds| <= INT32_MAX && Serializable(ix)
  {
    EncodeMinisAccepts(ix.signatures);
    U32(|ix.signatures|) + EncodeMinis(ix.signatures).value + U32s(ix.offsets[..COEFF_SPACE]) + U32(|ix.columnIds|)
  }

  /** Serialize writes the header, then the column ids. */
  lemma {:induction false} SavedHeaderEncodes(ix: Index)
    requires |ix.signatures| <= INT32_MAX && |ix.columnIds| <= INT32_MAX && Serializable(ix)
    ensures EncodeIndex(ix) == Ok(SavedHeader(ix) + U32s(ix.columnIds))
  {
    EncodeMinisAccepts(ix.signatures);
  }

  /** In a saved matrix whose hashes are 16 bytes long the column ids start at byte ColumnStart(t). */
  lemma ColumnsStartAt(ix: Index)
    requires |ix.signatures| <= INT32_MAX && |ix.columnIds| <= INT32_MAX && Serializable(ix)
    requires forall k :: 0 <= k < |ix.signatures| ==> |ix.signatures[k].hash.value| == HASH_BYTES
    ensures ByteLength(SavedHeader(ix)) == ColumnStart(|ix.signatures|)
  {
    RecordsByteLength(ix.signatures);
    var count, records, rows, length := U32(|ix.signatures|), EncodeMinis(ix.signatures).value, U32s(ix.offsets[..COEFF_SPACE]), U32(|ix.columnIds|);
    ByteLengthAppend(count + records + rows, length);
    ByteLengthAppend(count + records, rows);
    ByteLengthAppend(count, records);
    ByteLengthOfBytes(count);
    ByteLengthOfBytes(length);
    U32sByteLength(ix.offsets[..COEFF_SPACE]);
  }

  /** Deserialize, one read after another. */
  lemma DecodeIndexSteps(s: seq<Cell>, t: u32, s1: seq<Cell>, ms: seq<MiniSig>, s2: seq<Cell>,
                         offsets: seq<u32>, s3: seq<Cell>, gl: u32, s4: seq<Cell>, ids: seq<u32>, s5: seq<Cell>)
    requires ReadU32(s) == Ok((t, s1)) && DecodeMinis(s1, t) == Ok((ms, s2))
    requires ReadU32s(s2, COEFF_SPACE) == Ok((offsets, s3)) && ReadU32(s3) == Ok((gl, s4))
    requires ReadU32s(s4, gl) == Ok((ids, s5))
    ensures DecodeHeader(s) == Ok((Header(ms, offsets, gl), s4))
    ensures DecodeIndex(s) == Ok((Index(ms, offsets, ids), s5))
  {
  }

  lemma AppendFive<T>(a: seq<T>, b: seq<T>, c: seq<T>, d: seq<T>, e: seq<T>, rest: seq<T>)
    ensures a + b + c + d + e + rest == a + (b + (c + (d + (e + rest))))
  {
  }

  // ------------------------------------------------------------------ query

  /** The YUV loop's sum over the first n channels: `Weights[1, 0, channel] * |query - candidate|`. */
  function YuvPart(qa: seq<real>, ya: seq<real>, n: nat): real
    requires n <= CHANNEL_COUNT && n <= |qa| && n <= |ya|
  {
    if n == 0 then 0.0 else YuvPart(qa, ya, n - 1) + Weights(1, 0, n - 1) * Abs(qa[n - 1] - ya[n - 1])
  }

  /** The weighted distance of the averages: never negative, and zero between equal averages. */
  function YuvDistance(qa: seq<real>, ya: seq<real>): (d: real)
    requires |qa| >= CHANNEL_COUNT && |ya| >= CHANNEL_COUNT
    ensures d >= 0.0
    ensures qa[..CHANNEL_COUNT] == ya[..CHANNEL_COUNT] ==> d == 0.0
  {
    YuvPartBounds(qa, ya, CHANNEL_COUNT);
    YuvPart(qa, ya, CHANNEL_COUNT)
  }

  lemma {:induction false} YuvPartBounds(qa: seq<real>, ya: seq<real>, n: nat)
    requires n <= CHANNEL_COUNT && n <= |qa| && n <= |ya|
    ensures YuvPart(qa, ya, n) >= 0.0
    ensures qa[..n] == ya[..n] ==> YuvPart(qa, ya, n) == 0.0
  {
    if n > 0 {
      YuvPartBounds(qa, ya, n - 1);
      assert qa[..n] == ya[..n] ==> qa[..n - 1] == ya[..n - 1] && qa[n - 1] == ya[n - 1] by {
        if qa[..n] == ya[..n] {
          assert qa[..n][n - 1] == ya[..n][n - 1];
          assert qa[..n][..n - 1] == ya[..n][..n - 1];
        }
      }
      assert Weights(1, 0, n - 1) * Abs(qa[n - 1] - ya[n - 1]) >= 0.0;
    }
  }

  /** The averages beyond the third take no part in the distance. */
  lemma {:induction false} YuvPartPrefix(qa: seq<real>, ya: seq<real>, yb: seq<real>, n: nat)
    requires n <= CHANNEL_COUNT && n <= |qa| && n <= |ya| && n <= |yb| && ya[..n] == yb[..n]
    ensures YuvPart(qa, ya, n) == YuvPart(qa, yb, n)
  {
    if n > 0 {
      assert ya[..n][n - 1] == yb[..n][n - 1];
      assert ya[..n][..n - 1] == yb[..n][..n - 1];
      YuvPartPrefix(qa, ya, yb, n - 1);
    }
  }

  /**
   * The YUV loop: an index error when the query or some candidate has fewer
   * than three averages, otherwise every candidate's distance.
   */
  function YuvDistances(ms: seq<MiniSig>, qa: seq<real>): (r: Result<seq<real>>)
    ensures r.Ok? <==> |qa| >= CHANNEL_COUNT && forall k :: 0 <= k < |ms| ==> |ms[k].yuv| >= CHANNEL_COUNT
    ensures r.Err? ==> r.error == IndexOutOfRange
    ensures r.Ok? ==> |r.value| == |ms| && forall k :: 0 <= k < |ms| ==> r.value[k] == YuvDistance(qa, ms[k].yuv)
  {
    if |qa| < CHANNEL_COUNT || exists k :: 0 <= k < |ms| && |ms[k].yuv| < CHANNEL_COUNT then Err(IndexOutOfRange)
    else Ok(seq(|ms|, k requires 0 <= k < |ms| => YuvDistance(qa, ms[k].yuv)))
  }

  /**
   * The coefficient match loop: for each query id in turn its weight
   * `WeightLookUp[id >> 1]` is added to the accumulator of every candidate
   * in the id's row, once per entry.
   */
  function Accumulate(ix: Index, query: seq<u32>): (r: Result<seq<real>>)
    ensures r.Ok? ==> |r.value| == |ix.signatures|
    ensures r.Err? ==> r.error == IndexOutOfRange
    decreases |query|
  {
    if query == [] then Ok(seq(|ix.signatures|, _ => 0.0))
    else
      var acc :- Accumulate(ix, query[..|query| - 1]);
      var q := query[|query| - 1];
      var weight :- CoeffWeight(q);
      var row :- RowOf(ix.offsets, ix.columnIds, q);
      AddRow(acc, row, weight)
  }

  /** A query id the loop gets through: a coefficient id whose row reads and names only candidates. */
  predicate Readable(ix: Index, q: nat) {
    q < COEFF_SPACE && RowOf(ix.offsets, ix.columnIds, q).Ok? &&
    forall k :: 0 <= k < |RowOf(ix.offsets, ix.columnIds, q).value| ==>
      RowOf(ix.offsets, ix.columnIds, q).value[k] < |ix.signatures|
  }

  /** Σ over the query ids of the id's weight, once per entry of candidate i in the id's row. */
  function Matched(ix: Index, query: seq<u32>, i: nat): real
    requires forall j :: 0 <= j < |query| ==> Readable(ix, query[j])
  {
    if query == [] then 0.0
    else
      var q := query[|query| - 1];
      assert Readable(ix, q);
      Matched(ix, query[..|query| - 1], i) + Times(Occurrences(RowOf(ix.offsets, ix.columnIds, q).value, i), Table()[q / 2])
  }

  /**
   * The match loop goes through exactly when every query id is readable, and
   * then leaves each candidate's accumulator at its matched weight.
   */
  lemma {:induction false} AccumulateMeaning(ix: Index, query: seq<u32>)
    ensures Accumulate(ix, query).Ok? <==> forall j :: 0 <= j < |query| ==> Readable(ix, query[j])
    ensures Accumulate(ix, query).Ok? ==>
      forall i :: 0 <= i < |ix.signatures| ==> Accumulate(ix, query).value[i] == Matched(ix, query, i)
    decreases |query|
  {
    if query != [] {
      var init := query[..|query| - 1];
      var q := query[|query| - 1];
      AccumulateMeaning(ix, init);
      assert forall j :: 0 <= j < |init| ==> init[j] == query[j];
      if Accumulate(ix, init).Ok? && CoeffWeight(q).Ok? && RowOf(ix.offsets, ix.columnIds, q).Ok? {
        var acc := Accumulate(ix, init).value;
        var row := RowOf(ix.offsets, ix.columnIds, q).value;
        AddRowAccepts(acc, row, Table()[q / 2]);
        if AddRow(acc, row, Table()[q / 2]).Ok? {
          AddRowMeaning(acc, row, Table()[q / 2]);
        }
      }
    }
  }

  /** Candidate i passes both tests of the result loop, against the same limit. */
  predicate Keeps(m: MiniSig, yuv: real, value: real, queryWeight: real, limit: real) {
    Exceeds(value, queryWeight + m.totalWeight - value, limit) && yuv < limit
  }

  /** The HaarQueryResult reported for a candidate: lower-case hex hash, distance, value and max. */
  function Report(m: MiniSig, yuv: real, value: real, queryWeight: real): QueryResult
    requires m.hash.Some?
  {
    HaarResult(LowerHex(m.hash.value), yuv, value, queryWeight + m.totalWeight - value)
  }

  /** The candidates below n that the result loop keeps, in ascending order. */
  function Kept(ms: seq<MiniSig>, yuv: seq<real>, w: seq<real>, queryWeight: real, limit: real, n: nat): (ks: seq<nat>)
    requires n <= |ms| == |yuv| == |w|
    ensures forall j :: 0 <= j < |ks| ==> ks[j] < n && Keeps(ms[ks[j]], yuv[ks[j]], w[ks[j]], queryWeight, limit)
    ensures forall j, l :: 0 <= j < l < |ks| ==> ks[j] < ks[l]
    ensures forall i :: 0 <= i < n && Keeps(ms[i], yuv[i], w[i], queryWeight, limit) ==> i in ks
  {
    if n == 0 then []
    else
      var ks := Kept(ms, yuv, w, queryWeight, limit, n - 1);
      if Keeps(ms[n - 1], yuv[n - 1], w[n - 1], queryWeight, limit) then ks + [n - 1] else ks
  }

  /** The result loop over the first n candidates; printing a kept candidate without a hash throws. */
  function Results(ms: seq<MiniSig>, yuv: seq<real>, w: seq<real>, queryWeight: real, limit: real, n: nat): Result<seq<QueryResult>>
    requires n <= |ms| == |yuv| == |w|
  {
    if n == 0 then Ok([])
    else
      var rs :- Results(ms, yuv, w, queryWeight, limit, n - 1);
      var i := n - 1;
      if !Keeps(ms[i], yuv[i], w[i], queryWeight, limit) then Ok(rs)
      else if ms[i].hash.None? then Err(ArgumentNull)
      else Ok(rs + [Report(ms[i], yuv[i], w[i], queryWeight)])
  }

  /**
   * The result loop reports exactly the kept candidates, in ascending order;
   * it fails, with ArgumentNullException, exactly when one of them has no hash.
   */
  lemma {:induction false} ResultsMeaning(ms: seq<MiniSig>, yuv: seq<real>, w: seq<real>, queryWeight: real, limit: real, n: nat)
    requires n <= |ms| == |yuv| == |w|
    ensures Results(ms, yuv, w, queryWeight, limit, n).Ok? <==>
      forall j :: 0 <= j < |Kept(ms, yuv, w, queryWeight, limit, n)| ==> ms[Kept(ms, yuv, w, queryWeight, limit, n)[j]].hash.Some?
    ensures Results(ms, yuv, w, queryWeight, limit, n).Err? ==> Results(ms, yuv, w, queryWeight, limit, n).error == ArgumentNull
    ensures Results(ms, yuv, w, queryWeight, limit, n).Ok? ==>
      var ks := Kept(ms, yuv, w, queryWeight, limit, n);
      var rs := Results(ms, yuv, w, queryWeight, limit, n).value;
      |rs| == |ks| && forall j :: 0 <= j < |ks| ==> rs[j] == Report(ms[ks[j]], yuv[ks[j]], w[ks[j]], queryWeight)
  {
    if n > 0 {
      ResultsMeaning(ms, yuv, w, queryWeight, limit, n - 1);
      var ks := Kept(ms, yuv, w, queryWeight, limit, n - 1);
      var i := n - 1;
      if Keeps(ms[i], yuv[i], w[i], queryWeight, limit) {
        assert Kept(ms, yuv, w, queryWeight, limit, n) == ks + [i];
        if Results(ms, yuv, w, queryWeight, limit, n - 1).Ok? && ms[i].hash.Some? {
          var rs := Results(ms, yuv, w, queryWeight, limit, n - 1).value;
          assert Results(ms, yuv, w, queryWeight, limit, n).value == rs + [Report(ms[i], yuv[i], w[i], queryWeight)];
        }
      } else {
        assert Kept(ms, yuv, w, queryWeight, limit, n) == ks;
      }
    }
  }

  /**
   * ExecuteQuery: a non-Haar query is refused; then the YUV distances, the
   * coefficient match and the query's Sum_Weights feed the result loop.
   */
  function Query(ix: Index, q: SigValue, limit: real): (r: Result<seq<QueryResult>>)
    ensures !q.kind.HaarKind? ==> r == Err(InvalidData)
    ensures r.Ok? ==> forall k :: 0 <= k < |r.value| ==>
      r.value[k].HaarResult? && r.value[k].yuvDistance < limit &&
      Exceeds(r.value[k].metricValue, r.value[k].metricMax, limit)
  {
    if !q.kind.HaarKind? then Err(InvalidData)
    else
      var yuv :- YuvDistances(ix.signatures, q.kind.averages);
      var w :- Accumulate(ix, q.sigData);
      var queryWeight :- SumLookUp(q.sigData);
      ResultsMeaning(ix.signatures, yuv, w, queryWeight, limit, |ix.signatures|);
      Results(ix.signatures, yuv, w, queryWeight, limit, |ix.signatures|)
  }

  /**
   * The result loop's two tests share one limit, so raising the limit can
   * let a candidate in: the coefficient test gets stricter, the YUV test
   * looser. Here value / max is 0.9 and the distance 0.5.
   */
  lemma RaisingLimitCanAdd()
    ensures !Keeps(MiniSig(Some(ZeroHash()), 1.0, []), 0.5, 0.9, 0.9, 0.4)
    ensures Keeps(MiniSig(Some(ZeroHash()), 1.0, []), 0.5, 0.9, 0.9, 0.6)
  {
  }

  // ---------------------------------------------------------- after a reload

  /** A matrix built in memory: 98,305 offsets whose sentinel points at the end of the column ids. */
  predicate HasSentinel(ix: Index) {
    |ix.offsets| == COEFF_SPACE + 1 && ix.offsets[COEFF_SPACE] == |ix.columnIds|
  }

  /**
   * Every coefficient's row is the same without the sentinel: the last row
   * then runs to the end of the column ids, which is where the sentinel points.
   */
  lemma RowWithoutSentinel(ix: Index, c: nat)
    requires HasSentinel(ix) && c < COEFF_SPACE
    ensures RowOf(ix.offsets[..COEFF_SPACE], ix.columnIds, c) == RowOf(ix.offsets, ix.columnIds, c)
  {
  }

  lemma {:induction false} AccumulateReloaded(ix: Index, query: seq<u32>)
    requires Serializable(ix) && HasSentinel(ix)
    ensures Accumulate(ReloadedIndex(ix), query) == Accumulate(ix, query)
    decreases |query|
  {
    if query != [] {
      AccumulateReloaded(ix, query[..|query| - 1]);
      var q := query[|query| - 1];
      if q < COEFF_SPACE {
        RowWithoutSentinel(ix, q);
      }
    }
  }

  lemma {:induction false} ResultsReloaded(ms: seq<MiniSig>, yuv: seq<real>, w: seq<real>, queryWeight: real, limit: real, n: nat)
    requires n <= |ms| == |yuv| == |w|
    requires forall k :: 0 <= k < |ms| ==> |ms[k].yuv| >= CHANNEL_COUNT
    ensures Results(ReloadedAll(ms), yuv, w, queryWeight, limit, n) == Results(ms, yuv, w, queryWeight, limit, n)
  {
    if n > 0 {
      ResultsReloaded(ms, yuv, w, queryWeight, limit, n - 1);
      assert ReloadedAll(ms)[n - 1].hash == ms[n - 1].hash;
      assert ReloadedAll(ms)[n - 1].totalWeight == ms[n - 1].totalWeight;
    }
  }

  lemma YuvDistancesReloaded(ms: seq<MiniSig>, qa: seq<real>)
    requires forall k :: 0 <= k < |ms| ==> |ms[k].yuv| >= CHANNEL_COUNT
    ensures YuvDistances(ReloadedAll(ms), qa) == YuvDistances(ms, qa)
  {
    var rs := ReloadedAll(ms);
    forall k | 0 <= k < |ms|
      ensures rs[k].yuv == ms[k].yuv[..CHANNEL_COUNT]
    {
    }
    if |qa| >= CHANNEL_COUNT {
      forall k | 0 <= k < |ms|
        ensures YuvDistance(qa, rs[k].yuv) == YuvDistance(qa, ms[k].yuv)
      {
        var ya := ms[k].yuv;
        assert ya[..CHANNEL_COUNT][..CHANNEL_COUNT] == ya[..CHANNEL_COUNT];
        YuvPartPrefix(qa, ya[..CHANNEL_COUNT], ya, CHANNEL_COUNT);
      }
      assert YuvDistances(rs, qa).value == YuvDistances(ms, qa).value;
    }
  }

  /**
   * A matrix built in memory answers every query after Serialize and
   * Deserialize exactly as before, although the sentinel offset and the
   * averages past the third are not written.
   */
  lemma QueryReloaded(ix: Index, q: SigValue, limit: real)
    requires Serializable(ix) && HasSentinel(ix)
    ensures Query(ReloadedIndex(ix), q, limit) == Query(ix, q, limit)
  {
    if q.kind.HaarKind? {
      YuvDistancesReloaded(ix.signatures, q.kind.averages);
      AccumulateReloaded(ix, q.sigData);
      var yuv := YuvDistances(ix.signatures, q.kind.averages);
      var w := Accumulate(ix, q.sigData);
      var queryWeight := SumLookUp(q.sigData);
      if yuv.Ok? && w.Ok? && queryWeight.Ok? {
        ResultsReloaded(ix.signatures, yuv.value, w.value, queryWeight.value, limit, |ix.signatures|);
      }
    }
  }

  // ------------------------------------------------------------ the loops

  /**
   * The YUV loop as ExecuteQuery runs it: channel by channel, and within a
   * channel candidate by candidate, into one accumulator per candidate.
   */
  method YuvLoop(ms: seq<MiniSig>, qa: seq<real>) returns (r: Result<seq<real>>)
    ensures r == YuvDistances(ms, qa)
  {
    var distance := new real[|ms|](_ => 0.0);
    for channel := 0 to CHANNEL_COUNT
      invariant channel <= |qa|
      invariant forall k :: 0 <= k < |ms| ==> channel <= |ms[k].yuv| && distance[k] == YuvPart(qa, ms[k].yuv, channel)
    {
      if channel >= |qa| {
        return Err(IndexOutOfRange);
      }
      var average := qa[channel];
      for i := 0 to |ms|
        invariant forall k :: 0 <= k < i ==> channel < |ms[k].yuv| && distance[k] == YuvPart(qa, ms[k].yuv, channel + 1)
        invariant forall k :: i <= k < |ms| ==> channel <= |ms[k].yuv| && distance[k] == YuvPart(qa, ms[k].yuv, channel)
      {
        if channel >= |ms[i].yuv| {
          return Err(IndexOutOfRange);
        }
        distance[i] := distance[i] + Weights(1, 0, channel) * Abs(average - ms[i].yuv[channel]);
      }
    }
    r := Ok(distance[..]);
    assert r.value == YuvDistances(ms, qa).value;
  }

  /**
   * The inner while loop of the coefficient match: it walks row c from its
   * offset to the next one (or to the end of the column ids for the last
   * row) and adds the weight to each candidate it names. It succeeds
   * exactly when the row reads and names only candidates, and then leaves
   * what AddRow computes.
   */
  method AddRange(matches: array<real>, offsets: seq<u32>, columnIds: seq<u32>, c: nat, weight: real) returns (ok: bool)
    requires c < |offsets|
    modifies matches
    ensures ok <==> RowOf(offsets, columnIds, c).Ok? && AddRow(old(matches[..]), RowOf(offsets, columnIds, c).value, weight).Ok?
    ensures ok ==> matches[..] == AddRow(old(matches[..]), RowOf(offsets, columnIds, c).value, weight).value
  {
    ghost var start := offsets[c];
    ghost var initial := matches[..];
    var offset := offsets[c];
    var end := if c + 1 == |offsets| then |columnIds| else offsets[c + 1];
    while offset < end
      invariant start <= offset
      invariant start < end ==> offset <= end
      invariant start < offset ==> offset <= |columnIds|
      invariant start >= end ==> matches[..] == initial
      invariant start < end <= |columnIds| ==>
        AddRow(matches[..], columnIds[offset..end], weight) == AddRow(initial, columnIds[start..end], weight)
    {
      if offset >= |columnIds| {
        return false;
      }
      var id := columnIds[offset];
      if id >= matches.Length {
        return false;
      }
      if end <= |columnIds| {
        assert columnIds[offset..end][1..] == columnIds[offset + 1..end];
      }
      matches[id] := matches[id] + weight;
      offset := offset + 1;
    }
    return true;
  }

  /** Once the loop over the first j query ids has failed, the whole query fails the same way. */
  lemma {:induction false} AccumulateFails(ix: Index, query: seq<u32>, j: nat)
    requires j <= |query| && Accumulate(ix, query[..j]).Err?
    ensures Accumulate(ix, query) == Err(IndexOutOfRange)
    decreases |query| - j
  {
    if j < |query| {
      assert query[..j + 1][..j] == query[..j];
      AccumulateFails(ix, query, j + 1);
    } else {
      assert query[..j] == query;
    }
  }

  /** The coefficient match loop: one pass over the query ids, each through AddRange. */
  method AccumulateLoop(ix: Index, query: seq<u32>) returns (r: Result<seq<real>>)
    ensures r == Accumulate(ix, query)
  {
    var matches := new real[|ix.signatures|](_ => 0.0);
    assert query[..0] == [] && matches[..] == seq(|ix.signatures|, _ => 0.0);
    r := AccumulateInto(ix, query, matches);
  }

  /** The match loop over the query's ids, on accumulators that start as Accumulate of no ids. */
  method AccumulateInto(ix: Index, query: seq<u32>, matches: array<real>) returns (r: Result<seq<real>>)
    requires Accumulate(ix, []) == Ok(matches[..])
    modifies matches
    ensures r == Accumulate(ix, query)
  {
    for j := 0 to |query|
      invariant Accumulate(ix, query[..j]) == Ok(matches[..])
    {
      var ok := AccumulateStep(ix, query, j, matches);
      if !ok {
        AccumulateFails(ix, query, j + 1);
        return Err(IndexOutOfRange);
      }
    }
    assert query[..|query|] == query;
    return Ok(matches[..]);
  }

  /** One pass of the match loop: query id j's weight and row added to the accumulators. */
  method AccumulateStep(ix: Index, query: seq<u32>, j: nat, matches: array<real>) returns (ok: bool)
    requires j < |query| && Accumulate(ix, query[..j]) == Ok(matches[..])
    modifies matches
    ensures ok ==> Accumulate(ix, query[..j + 1]) == Ok(matches[..])
    ensures !ok ==> Accumulate(ix, query[..j + 1]).Err?
  {
    assert query[..j + 1][..j] == query[..j];
    var coeff := query[j];
    var weight := CoeffWeight(coeff);
    if weight.Err? || coeff >= |ix.offsets| {
      return false;
    }
    ok := AddRange(matches, ix.offsets, ix.columnIds, coeff, weight.value);
  }

  /** Once the result loop has failed on the first n candidates, it fails the same way on all of them. */
  lemma {:induction false} ResultsFail(ms: seq<MiniSig>, yuv: seq<real>, w: seq<real>, queryWeight: real, limit: real, n: nat, m: nat)
    requires n <= m <= |ms| == |yuv| == |w| && Results(ms, yuv, w, queryWeight, limit, n).Err?
    ensures Results(ms, yuv, w, queryWeight, limit, m) == Results(ms, yuv, w, queryWeight, limit, n)
    decreases m - n
  {
    if n < m {
      ResultsFail(ms, yuv, w, queryWeight, limit, n, m - 1);
    }
  }

  /** The result loop: every candidate in order, appending the kept ones to the result list. */
  method ResultsLoop(ms: seq<MiniSig>, yuv: seq<real>, w: seq<real>, queryWeight: real, limit: real) returns (r: Result<seq<QueryResult>>)
    requires |ms| == |yuv| == |w|
    ensures r == Results(ms, yuv, w, queryWeight, limit, |ms|)
  {
    var v := [];
    for i := 0 to |ms|
      invariant Results(ms, yuv, w, queryWeight, limit, i) == Ok(v)
    {
      if Keeps(ms[i], yuv[i], w[i], queryWeight, limit) {
        if ms[i].hash.None? {
          ResultsFail(ms, yuv, w, queryWeight, limit, i + 1, |ms|);
          return Err(ArgumentNull);
        }
        v := v + [Report(ms[i], yuv[i], w[i], queryWeight)];
      }
    }
    return Ok(v);
  }

  /** ExecuteQuery over the matrix's arrays: the type test, then the three loops in the source's order. */
  method QueryLoop(ix: Index, q: SigValue, limit: real) returns (r: Result<seq<QueryResult>>)
    ensures r == Query(ix, q, limit)
  {
    if !q.kind.HaarKind? {
      return Err(InvalidData);
    }
    var yuv := YuvLoop(ix.signatures, q.kind.averages);
    if yuv.Err? {
      return Err(yuv.error);
    }
    var w := AccumulateLoop(ix, q.sigData);
    if w.Err? {
      return Err(w.error);
    }
    var queryWeight := SumLookUp(q.sigData);
    if queryWeight.Err? {
      return Err(queryWeight.error);
    }
    r := ResultsLoop(ix.signatures, yuv.value, w.value, queryWeight.value, limit);
  }
}
