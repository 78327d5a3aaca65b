/**
 * The lazily loaded Haar index (iqdb/DiskHaarQuerySparseMatrix.cs). It is
 * built like the in-memory matrix, cannot be saved, and loads only the
 * header of a saved matrix: the records and the 98,304 offsets. The row of a
 * coefficient is read from the attached file the first time a query needs
 * it and kept in the `col_ids` cache from then on.
 *
 * Two reads are modelled both as written and as corrected (see the README's
 * findings): the last row, whose end the source takes from `column_ids` after
 * Deserialize has set it to null, and the byte offset of a row, which the
 * source computes in 32-bit unsigned arithmetic.
 */
module DiskMatrix {
  import opened Wire
  import opened Signatures
  import opened HaarWeights
  import opened Csr
  import opened QueryResults
  import opened HaarIndex
  import HaarMatrix

  /** Everything a row read and a query depend on, except the cache. */
  datatype Disk = Disk(
    signatures: seq<MiniSig>,    // Signatures
    offsets: seq<u32>,           // row_id_offsets
    columnIds: Option<seq<u32>>, // column_ids
    idCount: u32,                // the saved number of column ids, which the corrected read keeps
    file: Option<seq<Cell>>,     // the contents of file_data
    columnStart: nat)            // fileoffset_column_ids

  /** The two ways of reading a row: as the source does, and as it evidently intends. */
  datatype Reading = AsWritten | Corrected

  // ---------------------------------------------------------------- one row

  /**
   * Where row c ends: at the next offset, or for the last offset at
   * `(uint)column_ids.Length` as written, at the saved id count as corrected.
   */
  function RowEnd(d: Disk, c: nat, how: Reading): (r: Result<u32>)
    requires c < |d.offsets|
    ensures r.Err? <==> c + 1 == |d.offsets| && how.AsWritten? && d.columnIds.None?
    ensures r.Err? ==> r.error == NullReference
  {
    if c + 1 < |d.offsets| then Ok(d.offsets[c + 1])
    else if how.Corrected? then Ok(d.idCount)
    else if d.columnIds.None? then Err(NullReference)
    else Ok(|d.columnIds.value| % 0x1_0000_0000)
  }

  /** The byte offset of posting `start` in the column ids: 32-bit unsigned as written. */
  function ByteOffset(start: u32, how: Reading): (o: nat)
    ensures how.Corrected? || start < 0x4000_0000 ==> o == 4 * start
    ensures how.AsWritten? && 0x4000_0000 <= start < 0x8000_0000 ==> o == 4 * (start - 0x4000_0000)
  {
    if how.AsWritten? then
      var wide := 4 * start;
      assert 0x4000_0000 <= start < 0x8000_0000 ==> wide % 0x1_0000_0000 == wide - 0x1_0000_0000;
      wide % 0x1_0000_0000
    else 4 * start
  }

  /** `end - start` in 32-bit unsigned arithmetic: the length of the ids array of a row. */
  function RowLength(start: u32, end: u32): (n: u32)
    ensures n == (end - start) % 0x1_0000_0000
    ensures start <= end <==> n == end - start
  {
    if start <= end then end - start else end - start + 0x1_0000_0000
  }

  /**
   * ReadColIDs(new BinaryReader(file_data.OpenRead()), c): no file is a null
   * dereference; the ids array has `(end - start)` elements in uint
   * arithmetic (an array past Int32.MaxValue cannot be allocated); when the
   * row is not empty its words are read from the row's byte offset past the
   * start of the column ids, and otherwise the array keeps its zeros.
   */
  function ReadRow(d: Disk, c: nat, how: Reading): (r: Result<seq<u32>>)
    ensures d.file.None? ==> r == Err(NullReference)
    ensures d.file.Some? && c >= |d.offsets| ==> r == Err(IndexOutOfRange)
    ensures r.Ok? ==> (c < |d.offsets| && RowEnd(d, c, how).Ok? &&
      |r.value| == RowLength(d.offsets[c], RowEnd(d, c, how).value) <= INT32_MAX)
  {
    if d.file.None? then Err(NullReference)
    else if c >= |d.offsets| then Err(IndexOutOfRange)
    else
      var start := d.offsets[c];
      var end :- RowEnd(d, c, how);
      var size := RowLength(start, end);
      if size > INT32_MAX then Err(OutOfMemory)
      else if end <= start then Ok(Repeat(0, size))
      else
        var stream :- Seek(d.file.value, d.columnStart + ByteOffset(start, how));
        var read :- ReadU32s(stream, size);
        Ok(read.0)
  }

  // ------------------------------------------------------ the coefficient match

  /** col_ids: null, or the rows loaded so far by coefficient; a missing key is a null entry. */
  type Cache = Option<map<u32, seq<u32>>>

  /** Every cached row is what reading it from the file now gives. */
  predicate Faithful(d: Disk, cache: Cache, how: Reading) {
    cache.Some? ==> forall c :: c in cache.value ==> ReadRow(d, c, how) == Ok(cache.value[c])
  }

  /** The match loop's outcome, with the cache it leaves, also when it throws. */
  datatype Pass = Pass(matches: Result<seq<real>>, cache: Cache)

  /**
   * One query id of the coefficient match of ExecuteQuery: its weight
   * `WeightLookUp[id >> 1]`, then its row from `col_ids` (a null cache is a
   * null dereference), read and stored if it is not cached yet, then
   * `w_matches[id] += weight` for every id of the row. A failed pass stays
   * failed, and a null cache stays null.
   */
  function Step(d: Disk, p: Pass, q: u32, how: Reading): (n: Pass)
    ensures p.matches.Err? ==> n == p
    ensures p.matches.Ok? && n.matches.Ok? ==> |n.matches.value| == |p.matches.value|
    ensures p.cache.None? <==> n.cache.None?
  {
    if p.matches.Err? then p
    else if CoeffWeight(q).Err? then Pass(Err(CoeffWeight(q).error), p.cache)
    else if p.cache.None? then Pass(Err(NullReference), p.cache)
    else
      var weight := CoeffWeight(q).value;
      if q in p.cache.value then Pass(AddRow(p.matches.value, p.cache.value[q], weight), p.cache)
      else
        var row := ReadRow(d, q, how);
        if row.Err? then Pass(Err(row.error), p.cache)
        else Pass(AddRow(p.matches.value, row.value, weight), Some(p.cache.value[q := row.value]))
  }

  /** A step keeps every cached row, and a row it adds is the query id's row read from the file. */
  lemma {:induction false} StepCache(d: Disk, p: Pass, q: u32, how: Reading)
    requires p.cache.Some?
    ensures Step(d, p, q, how).cache.Some?
    ensures forall c :: c in p.cache.value ==> c in Step(d, p, q, how).cache.value && Step(d, p, q, how).cache.value[c] == p.cache.value[c]
    ensures forall c :: c in Step(d, p, q, how).cache.value && c !in p.cache.value ==>
      c == q && ReadRow(d, c, how) == Ok(Step(d, p, q, how).cache.value[c])
  {
  }

  /** The coefficient match of ExecuteQuery: one Step per query id, starting from zero matches. */
  function LazyAccumulate(d: Disk, cache: Cache, query: seq<u32>, how: Reading): (p: Pass)
    ensures p.matches.Ok? ==> |p.matches.value| == |d.signatures|
    ensures cache.None? <==> p.cache.None?
    decreases |query|
  {
    if query == [] then Pass(Ok(seq(|d.signatures|, _ => 0.0)), cache)
    else Step(d, LazyAccumulate(d, cache, query[..|query| - 1], how), query[|query| - 1], how)
  }

  /**
   * The match keeps every row the cache held, and every row it adds is one
   * of the query's ids read from the file.
   */
  lemma {:induction false} LazyCache(d: Disk, cache: map<u32, seq<u32>>, query: seq<u32>, how: Reading)
    ensures LazyAccumulate(d, Some(cache), query, how).cache.Some?
    ensures forall c :: c in cache ==>
      c in LazyAccumulate(d, Some(cache), query, how).cache.value && LazyAccumulate(d, Some(cache), query, how).cache.value[c] == cache[c]
    ensures forall c :: c in LazyAccumulate(d, Some(cache), query, how).cache.value && c !in cache ==>
      c in query && ReadRow(d, c, how) == Ok(LazyAccumulate(d, Some(cache), query, how).cache.value[c])
    decreases |query|
  {
    if query != [] {
      var init := query[..|query| - 1];
      LazyCache(d, cache, init, how);
      StepCache(d, LazyAccumulate(d, Some(cache), init, how), query[|query| - 1], how);
      assert forall c :: c in init ==> c in query;
    }
  }

  /** The match over one more query id is one more Step. */
  lemma {:induction false} LazyStep(d: Disk, cache: Cache, query: seq<u32>, j: nat, how: Reading)
    requires j < |query|
    ensures LazyAccumulate(d, cache, query[..j + 1], how) == Step(d, LazyAccumulate(d, cache, query[..j], how), query[j], how)
  {
    assert query[..j + 1][..j] == query[..j];
  }

  /** The same loop reading every row afresh: the reference the cache must not change. */
  function DirectAccumulate(d: Disk, query: seq<u32>, how: Reading): (r: Result<seq<real>>)
    ensures r.Ok? ==> |r.value| == |d.signatures|
    decreases |query|
  {
    if query == [] then Ok(seq(|d.signatures|, _ => 0.0))
    else
      var acc :- DirectAccumulate(d, query[..|query| - 1], how);
      var q := query[|query| - 1];
      var weight :- CoeffWeight(q);
      var row :- ReadRow(d, q, how);
      AddRow(acc, row, weight)
  }

  /**
   * A cache that holds only rows of the file changes nothing about the
   * match: the loop computes what reading every row afresh computes, and the
   * cache it leaves still holds only rows of the file.
   */
  lemma {:induction false} CacheTransparent(d: Disk, cache: Cache, query: seq<u32>, how: Reading)
    requires cache.Some? && Faithful(d, cache, how)
    ensures LazyAccumulate(d, cache, query, how).matches == DirectAccumulate(d, query, how)
    ensures Faithful(d, LazyAccumulate(d, cache, query, how).cache, how)
    decreases |query|
  {
    if query != [] {
      var init := query[..|query| - 1];
      CacheTransparent(d, cache, init, how);
      StepCache(d, LazyAccumulate(d, cache, init, how), query[|query| - 1], how);
    }
  }

  /** Before Deserialize `col_ids` is null: the match goes through only for an empty query. */
  lemma {:induction false} UnloadedRefuses(d: Disk, query: seq<u32>, how: Reading)
    ensures LazyAccumulate(d, None, query, how).matches.Ok? <==> query == []
    ensures query != [] && query[0] < COEFF_SPACE ==> LazyAccumulate(d, None, query, how).matches == Err(NullReference)
    decreases |query|
  {
    if |query| > 1 {
      var init := query[..|query| - 1];
      assert init[0] == query[0];
      UnloadedRefuses(d, init, how);
    }
  }

  /** With the rows of an index, reading afresh is the in-memory match. */
  lemma {:induction false} SameRows(d: Disk, ix: Index, query: seq<u32>, how: Reading)
    requires |d.signatures| == |ix.signatures|
    requires forall c :: 0 <= c < COEFF_SPACE ==> ReadRow(d, c, how) == RowOf(ix.offsets, ix.columnIds, c)
    ensures DirectAccumulate(d, query, how) == Accumulate(ix, query)
    decreases |query|
  {
    if query != [] {
      SameRows(d, ix, query[..|query| - 1], how);
    }
  }

  // ------------------------------------------------------------------- query

  /** A query's outcome, with the cache it leaves. */
  datatype Answer = Answer(results: Result<seq<QueryResult>>, cache: Cache)

  /**
   * ExecuteQuery: a non-Haar query is refused; then the YUV distances, the
   * lazy coefficient match and the query's Sum_Weights feed the result loop,
   * which is the in-memory one with its shared limit.
   */
  function DiskQuery(d: Disk, cache: Cache, q: SigValue, limit: real, how: Reading): (a: Answer)
    ensures !q.kind.HaarKind? ==> a == Answer(Err(InvalidData), cache)
    ensures a.cache == cache || a.cache == LazyAccumulate(d, cache, q.sigData, how).cache
  {
    if !q.kind.HaarKind? then Answer(Err(InvalidData), cache)
    else
      var yuv := YuvDistances(d.signatures, q.kind.averages);
      if yuv.Err? then Answer(Err(yuv.error), cache)
      else
        var p := LazyAccumulate(d, cache, q.sigData, how);
        if p.matches.Err? then Answer(Err(p.matches.error), p.cache)
        else
          var queryWeight := SumLookUp(q.sigData);
          if queryWeight.Err? then Answer(Err(queryWeight.error), p.cache)
          else Answer(Results(d.signatures, yuv.value, p.matches.value, queryWeight.value, limit, |d.signatures|), p.cache)
  }

  // ------------------------------------------------------ a saved file opened

  /**
   * Deserialize: the header of the stream, no column ids, and the position
   * after the header as the start of the column ids. `file_data` is not
   * touched, and `col_ids` becomes a fresh, empty cache.
   */
  function Opened(s: seq<Cell>, file: Option<seq<Cell>>): (r: Result<Disk>)
    ensures r.Err? <==> DecodeHeader(s).Err?
    ensures r.Ok? ==> |r.value.offsets| == COEFF_SPACE && r.value.columnIds.None? && r.value.file == file
  {
    var (h, rest) :- DecodeHeader(s);
    DecodeHeaderShrinks(s);
    Ok(Disk(h.signatures, h.offsets, None, h.idCount, file, ByteLength(s) - ByteLength(rest)))
  }

  /** Opened on a stream whose header decodes. */
  lemma {:induction false} OpenedHeader(s: seq<Cell>, file: Option<seq<Cell>>, h: Header, rest: seq<Cell>)
    requires DecodeHeader(s) == Ok((h, rest))
    ensures ByteLength(rest) <= ByteLength(s)
    ensures Opened(s, file) == Ok(Disk(h.signatures, h.offsets, None, h.idCount, file, ByteLength(s) - ByteLength(rest)))
  {
    DecodeHeaderShrinks(s);
  }

  /**
   * The reads at the start of Deserialize: the record count, the records,
   * the 98,304 offsets and the number of column ids, each read failing on a
   * short or malformed stream.
   */
  method ReadHeader(s: seq<Cell>) returns (r: Result<(Header, seq<Cell>)>)
    ensures r == DecodeHeader(s)
  {
    var count := ReadU32(s);
    if count.Err? {
      return Err(count.error);
    }
    var records := ReadRecords(count.value.1, count.value.0);
    if records.Err? {
      return Err(records.error);
    }
    var rows := ReadWordArray(records.value.1, COEFF_SPACE);
    if rows.Err? {
      return Err(rows.error);
    }
    var length := ReadU32(rows.value.1);
    if length.Err? {
      return Err(length.error);
    }
    return Ok((Header(records.value.0, rows.value.0, length.value.0), length.value.1));
  }

  /** A matrix the in-memory Serialize writes in full, with 16-byte hashes, a sentinel and non-decreasing offsets. */
  predicate Saveable(ix: Index) {
    |ix.signatures| <= INT32_MAX && |ix.columnIds| <= INT32_MAX && Serializable(ix) && HasSentinel(ix) &&
    (forall k :: 0 <= k < |ix.signatures| ==> |ix.signatures[k].hash.value| == HASH_BYTES) &&
    forall c, e :: 0 <= c <= e <= COEFF_SPACE ==> ix.offsets[c] <= ix.offsets[e]
  }

  /** The file the in-memory Serialize writes, followed by whatever comes after it. */
  function SavedFile(ix: Index, rest: seq<Cell>): seq<Cell>
    requires Saveable(ix)
  {
    SavedHeader(ix) + (U32s(ix.columnIds) + rest)
  }

  /** The matrix Deserialize leaves on a saved file, with that file attached. */
  function Loaded(ix: Index, rest: seq<Cell>): Disk
    requires Saveable(ix)
  {
    Disk(ReloadedAll(ix.signatures), ix.offsets[..COEFF_SPACE], None, |ix.columnIds|,
      Some(SavedFile(ix, rest)), ColumnStart(|ix.signatures|))
  }

  /**
   * Deserialize on a saved matrix keeps the trimmed records and the first
   * 98,304 offsets, and the column ids start at byte 4 + 32 t + 4 · 98,304 + 4.
   */
  lemma {:induction false} OpenedSaved(ix: Index, rest: seq<Cell>)
    requires Saveable(ix)
    ensures EncodeIndex(ix).Ok? && SavedFile(ix, rest) == EncodeIndex(ix).value + rest
    ensures Opened(SavedFile(ix, rest), Some(SavedFile(ix, rest))) == Ok(Loaded(ix, rest))
  {
    var s, tail := SavedFile(ix, rest), U32s(ix.columnIds) + rest;
    SavedHeaderEncodes(ix);
    assert s == EncodeIndex(ix).value + rest;
    IndexRoundTrip(ix, rest);
    var h := Header(ReloadedAll(ix.signatures), ix.offsets[..COEFF_SPACE], |ix.columnIds|);
    assert DecodeHeader(s) == Ok((h, tail));
    ColumnsStartAt(ix);
    ByteLengthAppend(SavedHeader(ix), tail);
    assert ByteLength(s) - ByteLength(tail) == ColumnStart(|ix.signatures|);
    var d := Opened(s, Some(s));
    assert d.Ok?;
    assert d.value.signatures == ReloadedAll(ix.signatures);
    assert d.value.offsets == ix.offsets[..COEFF_SPACE];
    assert d.value.columnStart == ColumnStart(|ix.signatures|);
    assert d.value.idCount == |ix.columnIds|;
  }

  /** Reading n words from posting p of a saved file gives the n column ids from p. */
  lemma {:induction false} SeekInIds(ix: Index, rest: seq<Cell>, p: nat, e: nat)
    requires Saveable(ix) && p <= e <= |ix.columnIds|
    ensures Seek(SavedFile(ix, rest), ColumnStart(|ix.signatures|) + 4 * p) == Ok(U32s(ix.columnIds[p..]) + rest)
    ensures ReadU32s(U32s(ix.columnIds[p..]) + rest, e - p) == Ok((ix.columnIds[p..e], U32s(ix.columnIds[e..]) + rest))
  {
    var ids := ix.columnIds;
    ColumnsStartAt(ix);
    SeekWords(SavedHeader(ix), ids, rest, p);
    ReadWords(ids[p..], rest, e - p);
    assert ids[p..][..e - p] == ids[p..e] && ids[p..][e - p..] == ids[e..];
  }

  /** On a saved file opened with that file attached, the corrected read of every coefficient's row is the in-memory row. */
  lemma {:induction false} LoadedRows(ix: Index, rest: seq<Cell>, c: nat)
    requires Saveable(ix) && c < COEFF_SPACE
    ensures ReadRow(Loaded(ix, rest), c, Corrected) == RowOf(ix.offsets, ix.columnIds, c)
  {
    var d := Loaded(ix, rest);
    var start, end := ix.offsets[c], ix.offsets[c + 1];
    assert start <= end <= ix.offsets[COEFF_SPACE] == |ix.columnIds|;
    assert d.offsets[c] == start && RowEnd(d, c, Corrected) == Ok(end);
    if start == end {
      EmptyRow(d, c, Corrected);
    } else {
      SeekInIds(ix, rest, start, end);
      assert d.file.value == SavedFile(ix, rest);
      assert d.columnStart + ByteOffset(start, Corrected) == ColumnStart(|ix.signatures|) + 4 * (start as int);
      RowFromFile(d, c, Corrected, end, U32s(ix.columnIds[start..]) + rest, ix.columnIds[start..end], U32s(ix.columnIds[end..]) + rest);
    }
  }


  /** A non-empty row that fits an array is the words read from its byte offset. */
  lemma {:induction false} RowFromFile(d: Disk, c: nat, how: Reading, end: u32, stream: seq<Cell>, ids: seq<u32>, after: seq<Cell>)
    requires d.file.Some? && c < |d.offsets| && RowEnd(d, c, how) == Ok(end)
    requires d.offsets[c] < end && end - d.offsets[c] <= INT32_MAX
    requires Seek(d.file.value, d.columnStart + ByteOffset(d.offsets[c], how)) == Ok(stream)
    requires ReadU32s(stream, end - d.offsets[c]) == Ok((ids, after))
    ensures ReadRow(d, c, how) == Ok(ids)
  {
  }

  /** An empty row is read without touching the file. */
  lemma {:induction false} EmptyRow(d: Disk, c: nat, how: Reading)
    requires d.file.Some? && c < |d.offsets| && RowEnd(d, c, how) == Ok(d.offsets[c])
    ensures ReadRow(d, c, how) == Ok([])
  {
  }

  /**
   * As written, the last row of any opened file is a null dereference:
   * Deserialize has just set `column_ids` to null.
   */
  lemma {:induction false} LastRowAsWritten(s: seq<Cell>, file: seq<Cell>)
    requires Opened(s, Some(file)).Ok?
    ensures ReadRow(Opened(s, Some(file)).value, COEFF_SPACE - 1, AsWritten) == Err(NullReference)
  {
  }

  /**
   * As written, ExecuteQuery on a freshly opened file raises
   * NullReferenceException for any Haar query whose first coefficient is the
   * last one, 98,303: its row is the last row, which LastRowAsWritten refuses.
   */
  lemma {:induction false} QueryLastRowAsWritten(s: seq<Cell>, file: seq<Cell>, q: SigValue, limit: real)
    requires Opened(s, Some(file)).Ok?
    requires q.kind.HaarKind? && YuvDistances(Opened(s, Some(file)).value.signatures, q.kind.averages).Ok?
    requires q.sigData != [] && q.sigData[0] == COEFF_SPACE - 1
    ensures DiskQuery(Opened(s, Some(file)).value, Some(map[]), q, limit, AsWritten).results == Err(NullReference)
  {
    var d := Opened(s, Some(file)).value;
    LastRowAsWritten(s, file);
    LazyStep(d, Some(map[]), q.sigData, 0, AsWritten);
    assert q.sigData[..0] == [];
    assert LazyAccumulate(d, Some(map[]), q.sigData[..1], AsWritten).matches == Err(NullReference);
    MatchFails(d, Some(map[]), q.sigData, 1, AsWritten);
  }

  /**
   * As written, a row that starts at posting 2^30 or later is read from the
   * wrong place: the byte offset wraps, and the ids come from 2^30 postings
   * earlier than the corrected read of LoadedRows takes them.
   */
  lemma {:induction false} SeekWraps(ix: Index, rest: seq<Cell>, c: nat)
    requires Saveable(ix) && c + 1 < COEFF_SPACE && 0x4000_0000 <= ix.offsets[c] < ix.offsets[c + 1]
    ensures ReadRow(Loaded(ix, rest), c, AsWritten) ==
      Ok(ix.columnIds[ix.offsets[c] - 0x4000_0000..ix.offsets[c + 1] - 0x4000_0000])
  {
    var d := Loaded(ix, rest);
    var start, end := ix.offsets[c], ix.offsets[c + 1];
    var early, late := start - 0x4000_0000, end - 0x4000_0000;
    assert end <= ix.offsets[COEFF_SPACE] == |ix.columnIds| <= INT32_MAX;
    assert d.offsets[c] == start && RowEnd(d, c, AsWritten) == Ok(end);
    assert d.file.value == SavedFile(ix, rest);
    SeekInIds(ix, rest, early, late);
    assert d.columnStart + ByteOffset(start, AsWritten) == ColumnStart(|ix.signatures|) + 4 * (early as int);
    RowFromFile(d, c, AsWritten, end, U32s(ix.columnIds[early..]) + rest, ix.columnIds[early..late], U32s(ix.columnIds[late..]) + rest);
  }

  /**
   * A saved matrix opened with its own file answers every query as the
   * matrix that was saved, whatever rows the cache already holds from the file.
   */
  lemma {:induction false} OpenedAnswersAlike(ix: Index, rest: seq<Cell>, cache: Cache, q: SigValue, limit: real)
    requires Saveable(ix) && cache.Some? && Faithful(Loaded(ix, rest), cache, Corrected)
    ensures DiskQuery(Loaded(ix, rest), cache, q, limit, Corrected).results == Query(ix, q, limit)
  {
    var d := Loaded(ix, rest);
    var reloaded := ReloadedIndex(ix);
    forall c | 0 <= c < COEFF_SPACE
      ensures ReadRow(d, c, Corrected) == RowOf(reloaded.offsets, reloaded.columnIds, c)
    {
      LoadedRows(ix, rest, c);
      RowWithoutSentinel(ix, c);
    }
    CacheTransparent(d, cache, q.sigData, Corrected);
    SameRows(d, reloaded, q.sigData, Corrected);
    QueryReloaded(ix, q, limit);
  }

  /** What FromHaarSignatures builds from signatures with 16-byte hashes and three averages can be saved in full. */
  lemma {:induction false} BuiltSaveable(vs: seq<SigValue>)
    requires |vs| <= INT32_MAX && HaarMatrix.Build(vs).Ok?
    requires forall k :: 0 <= k < |vs| ==>
      vs[k].hash.Some? && |vs[k].hash.value| == HASH_BYTES && |vs[k].kind.averages| >= CHANNEL_COUNT
    ensures Saveable(HaarMatrix.Built(vs))
  {
    var ix := HaarMatrix.Built(vs);
    forall c, e | 0 <= c <= e <= COEFF_SPACE
      ensures ix.offsets[c] <= ix.offsets[e]
    {
      HaarMatrix.BuiltOffsets(vs, c, e);
    }
    HaarMatrix.BuiltOffsets(vs, 0, 0);
  }

  /** The id count of a built matrix fits an int. */
  lemma {:induction false} BuiltIdsFit(vs: seq<SigValue>, ix: Index)
    requires |vs| <= INT32_MAX && HaarMatrix.Build(vs) == Ok(ix)
    ensures |ix.columnIds| <= INT32_MAX
  {
    HaarMatrix.BuiltOffsets(vs, 0, 0);
  }

  /**
   * Every coefficient is read from the file at most once: the loads are
   * distinct, they are exactly the cached coefficients, and every cached row
   * is what the file holds.
   */
  ghost predicate Consistent(d: Disk, cache: Cache, loads: seq<u32>, how: Reading) {
    (cache.None? ==> loads == []) &&
    (cache.Some? ==>
      (forall k, l :: 0 <= k < l < |loads| ==> loads[k] != loads[l]) &&
      (forall c :: c in cache.value <==> c in loads)) &&
    Faithful(d, cache, how)
  }

  /** A fresh, empty cache is consistent with any file. */
  lemma {:induction false} EmptyConsistent(d: Disk, how: Reading)
    ensures Consistent(d, Some(map[]), [], how)
  {
  }

  /** Loading a coefficient that is not cached keeps the cache consistent. */
  lemma {:induction false} LoadKeepsConsistent(d: Disk, cache: map<u32, seq<u32>>, loads: seq<u32>, c: u32, row: seq<u32>, how: Reading)
    requires Consistent(d, Some(cache), loads, how) && c !in cache && ReadRow(d, c, how) == Ok(row)
    ensures Consistent(d, Some(cache[c := row]), loads + [c], how)
  {
    assert forall k :: 0 <= k < |loads| ==> loads[k] in cache;
  }

  // ------------------------------------------------------------------ loops

  /** `foreach (uint id in ids) w_matches[id] += weight`: what AddRow computes, or an index error. */
  method AddIds(matches: array<real>, ids: seq<u32>, weight: real) returns (ok: bool)
    modifies matches
    ensures ok <==> AddRow(old(matches[..]), ids, weight).Ok?
    ensures ok ==> matches[..] == AddRow(old(matches[..]), ids, weight).value
  {
    ghost var initial := matches[..];
    for i := 0 to |ids|
      invariant AddRow(matches[..], ids[i..], weight) == AddRow(initial, ids, weight)
    {
      var id := ids[i];
      if id >= matches.Length {
        return false;
      }
      assert ids[i..][1..] == ids[i + 1..];
      matches[id] := matches[id] + weight;
    }
    return true;
  }

  // ------------------------------------------------------------------- class

  class DiskHaarQuerySparseMatrix {
    var signatures: seq<MiniSig>     // Signatures
    var offsets: seq<u32>            // row_id_offsets
    var columnIds: Option<seq<u32>>  // column_ids
    var idCount: u32                 // the saved id count, kept by the corrected read
    var colIds: Cache                // col_ids
    var file: Option<seq<Cell>>      // file_data
    var columnStart: nat             // fileoffset_column_ids
    var fileEnd: nat                 // fileoffset_end
    ghost var loads: seq<u32>        // the coefficients read from the file, in order

    function State(): Disk
      reads this
    {
      Disk(signatures, offsets, columnIds, idCount, file, columnStart)
    }

    /** The cache is consistent with the loads and with the file read the given way. */
    ghost predicate Valid(how: Reading)
      reads this
    {
      Consistent(State(), colIds, loads, how)
    }

    /** A matrix holding the given arrays, with a null cache and no file. */
    constructor Of(ix: Index)
      requires |ix.columnIds| <= INT32_MAX
      ensures Valid(AsWritten) && Valid(Corrected)
      ensures State() == Disk(ix.signatures, ix.offsets, Some(ix.columnIds), |ix.columnIds|, None, 0)
      ensures colIds.None? && fileEnd == 0
    {
      signatures, offsets, columnIds, idCount := ix.signatures, ix.offsets, Some(ix.columnIds), |ix.columnIds|;
      colIds, file, columnStart, fileEnd := None, None, 0, 0;
      loads := [];
    }

    /** FromHaarSignatures: the arrays of BuildIndex; `col_ids` stays null, so only an empty query goes through. */
    static method FromHaarSignatures(sigs: seq<Signature>) returns (r: Result<DiskHaarQuerySparseMatrix>)
      requires |sigs| <= INT32_MAX
      modifies sigs`id
      ensures forall k :: 0 <= k < |sigs| ==> sigs[k].Value() == old(sigs[k].Value()).(id := sigs[k].id)
      ensures r.Err? ==> HaarMatrix.Build(old(HaarMatrix.Values(sigs))) == Err(r.error)
      ensures r.Ok? ==> (fresh(r.value) && r.value.Valid(AsWritten) && r.value.Valid(Corrected) && r.value.colIds.None? && r.value.columnIds.Some? &&
        HaarMatrix.Build(old(HaarMatrix.Values(sigs))) ==
          Ok(Index(r.value.signatures, r.value.offsets, r.value.columnIds.value)))
      ensures r.Ok? ==> forall k :: 0 <= k < |sigs| ==> sigs[k].id == HaarMatrix.LastIndex(sigs, k, |sigs|)
    {
      ghost var vs := HaarMatrix.Values(sigs);
      var ix := HaarMatrix.BuildIndex(sigs);
      if ix.Err? {
        return Err(ix.error);
      }
      BuiltIdsFit(vs, ix.value);
      var m := new DiskHaarQuerySparseMatrix.Of(ix.value);
      return Ok(m);
    }

    /** Serialize: the disk matrix is read only. */
    method Serialize() returns (r: Result<seq<Cell>>)
      ensures r == Err(NotSupported)
    {
      return Err(NotSupported);
    }

    /** `file_data = ...`: the rows already cached stay valid when the file is the same one or nothing is cached. */
    method SetFile(f: Option<seq<Cell>>, ghost how: Reading)
      requires Valid(how)
      modifies this`file
      ensures file == f
      ensures f == old(file) || colIds.None? || colIds.value == map[] ==> Valid(how)
    {
      file := f;
    }

    /**
     * Deserialize: the header read as Opened describes (records, offsets,
     * the id count, the start of the column ids), a fresh empty cache, the
     * stream length as fileoffset_end, and the rest of the stream handed back.
     * A short or malformed header is an exception.
     */
    method Deserialize(s: seq<Cell>) returns (r: Result<seq<Cell>>)
      modifies this
      ensures r.Err? ==> DecodeHeader(s) == Err(r.error) && unchanged(this)
      ensures r.Ok? ==> Valid(AsWritten) && Valid(Corrected)
      ensures r.Ok? ==> Opened(s, old(file)) == Ok(State()) && DecodeHeader(s).value.1 == r.value
      ensures r.Ok? ==> colIds == Some(map[]) && fileEnd == ByteLength(s)
    {
      var header := ReadHeader(s);
      if header.Err? {
        return Err(header.error);
      }
      var (h, rest) := header.value;
      OpenedHeader(s, file, h, rest);
      Install(h, ByteLength(s) - ByteLength(rest), ByteLength(s));
      return Ok(rest);
    }

    /**
     * The assignments that end Deserialize: the header's records, offsets
     * and id count, no column ids, a fresh empty cache and the two file
     * offsets; the attached file is kept.
     */
    method Install(h: Header, start: nat, end: nat)
      modifies this
      ensures State() == Disk(h.signatures, h.offsets, None, h.idCount, old(file), start)
      ensures colIds == Some(map[]) && fileEnd == end && Valid(AsWritten) && Valid(Corrected)
    {
      signatures, offsets, columnIds, idCount := h.signatures, h.offsets, None, h.idCount;
      colIds, columnStart, fileEnd := Some(map[]), start, end;
      loads := [];
      EmptyConsistent(State(), AsWritten);
      EmptyConsistent(State(), Corrected);
    }

    /**
     * ReadColIDs: the row of a coefficient from the attached file, read as
     * written (`how` is AsWritten) or as corrected.
     */
    method ReadColIds(coeff: u32, how: Reading) returns (r: Result<seq<u32>>)
      ensures r == ReadRow(State(), coeff, how)
    {
      if file.None? {
        return Err(NullReference);
      }
      if coeff >= |offsets| {
        return Err(IndexOutOfRange);
      }
      var rowOffset := offsets[coeff];
      var rowEnd: u32;
      if coeff + 1 < |offsets| {
        rowEnd := offsets[coeff + 1];
      } else if how.Corrected? {
        rowEnd := idCount;
      } else if columnIds.None? {
        return Err(NullReference);
      } else {
        rowEnd := |columnIds.value| % 0x1_0000_0000;
      }
      var size := RowLength(rowOffset, rowEnd);
      if size > INT32_MAX {
        return Err(OutOfMemory);
      }
      if rowEnd <= rowOffset {
        return Ok(Repeat(0, size));
      }
      var stream := Seek(file.value, columnStart + ByteOffset(rowOffset, how));
      if stream.Err? {
        return Err(stream.error);
      }
      var ids := ReadWordArray(stream.value, size);
      if ids.Err? {
        return Err(ids.error);
      }
      return Ok(ids.value.0);
    }

    /**
     * `col_ids[coeff]`, read from the file and stored the first time it is
     * needed: a cached row is returned as it is, and a missing one is read
     * and, when the read succeeds, added to the cache.
     */
    method CachedRow(coeff: u32, how: Reading) returns (r: Result<seq<u32>>)
      requires Valid(how) && colIds.Some?
      modifies this`colIds, this`loads
      ensures Valid(how)
      ensures coeff in old(colIds.value) ==> r == Ok(old(colIds.value[coeff])) && colIds == old(colIds) && loads == old(loads)
      ensures coeff !in old(colIds.value) ==> r == ReadRow(State(), coeff, how)
      ensures coeff !in old(colIds.value) && r.Err? ==> colIds == old(colIds) && loads == old(loads)
      ensures coeff !in old(colIds.value) && r.Ok? ==> colIds == Some(old(colIds.value)[coeff := r.value]) && loads == old(loads) + [coeff]
    {
      if coeff in colIds.value {
        return Ok(colIds.value[coeff]);
      }
      r := ReadColIds(coeff, how);
      if r.Ok? {
        LoadKeepsConsistent(State(), colIds.value, loads, coeff, r.value, how);
        colIds := Some(colIds.value[coeff := r.value]);
        loads := loads + [coeff];
      }
    }

    /**
     * One pass of the match loop: the query id's weight, its row from the
     * cache or the file, and the weight added to the match of every id of
     * the row, as Step describes; a failure is the exception Step records.
     */
    method MatchId(matches: array<real>, coeff: u32, how: Reading) returns (e: Option<Error>)
      requires Valid(how)
      modifies matches, this`colIds, this`loads
      ensures Valid(how)
      ensures e.None? ==> Step(State(), Pass(Ok(old(matches[..])), old(colIds)), coeff, how) == Pass(Ok(matches[..]), colIds)
      ensures e.Some? ==> Step(State(), Pass(Ok(old(matches[..])), old(colIds)), coeff, how) == Pass(Err(e.value), colIds)
      ensures |old(loads)| <= |loads| && loads[..|old(loads)|] == old(loads)
    {
      var weight := CoeffWeight(coeff);
      if weight.Err? {
        return Some(weight.error);
      }
      if colIds.None? {
        return Some(NullReference);
      }
      var row := CachedRow(coeff, how);
      if row.Err? {
        return Some(row.error);
      }
      var ok := AddIds(matches, row.value, weight.value);
      if !ok {
        return Some(IndexOutOfRange);
      }
      return None;
    }

    /**
     * The coefficient match loop with the cache: each coefficient missing
     * from it is read once and stored, and the cache keeps every row it held.
     */
    method Match(query: seq<u32>, how: Reading) returns (w: Result<seq<real>>)
      requires Valid(how)
      modifies this`colIds, this`loads
      ensures Valid(how)
      ensures Pass(w, colIds) == LazyAccumulate(State(), old(colIds), query, how)
      ensures |old(loads)| <= |loads| && loads[..|old(loads)|] == old(loads)
    {
      var matches := new real[|signatures|](_ => 0.0);
      ghost var d, cache0, loads0 := State(), colIds, loads;
      assert query[..0] == [] && matches[..] == seq(|signatures|, _ => 0.0);
      for j := 0 to |query|
        invariant Valid(how) && State() == d
        invariant LazyAccumulate(d, cache0, query[..j], how) == Pass(Ok(matches[..]), colIds)
        invariant |loads0| <= |loads| && loads[..|loads0|] == loads0
      {
        LazyStep(d, cache0, query, j, how);
        var e := MatchId(matches, query[j], how);
        if e.Some? {
          MatchFails(d, cache0, query, j + 1, how);
          return Err(e.value);
        }
      }
      assert query[..|query|] == query;
      return Ok(matches[..]);
    }

    /**
     * ExecuteQuery: the Haar results for the query at the given limit, as
     * DiskQuery computes them from the state before the call, and the cache
     * that computation leaves. The program is ExecuteQuery(query, limit,
     * AsWritten); the Corrected reading is the evidently intended one.
     */
    method ExecuteQuery(query: Signature, limit: real, how: Reading) returns (r: Result<seq<QueryResult>>)
      requires Valid(how)
      modifies this`colIds, this`loads
      ensures Valid(how)
      ensures r == DiskQuery(State(), old(colIds), query.Value(), limit, how).results
      ensures colIds == DiskQuery(State(), old(colIds), query.Value(), limit, how).cache
      ensures |old(loads)| <= |loads| && loads[..|old(loads)|] == old(loads)
    {
      var q := query.Value();
      if !q.kind.HaarKind? {
        return Err(InvalidData);
      }
      var yuv := YuvLoop(signatures, q.kind.averages);
      if yuv.Err? {
        return Err(yuv.error);
      }
      var w := Match(q.sigData, how);
      if w.Err? {
        return Err(w.error);
      }
      var queryWeight := SumLookUp(q.sigData);
      if queryWeight.Err? {
        return Err(queryWeight.error);
      }
      r := ResultsLoop(signatures, yuv.value, w.value, queryWeight.value, limit);
    }
  }

  /** Once the match over the first j query ids has failed, the whole match fails the same way and leaves the same cache. */
  lemma {:induction false} MatchFails(d: Disk, cache: Cache, query: seq<u32>, j: nat, how: Reading)
    requires j <= |query| && LazyAccumulate(d, cache, query[..j], how).matches.Err?
    ensures LazyAccumulate(d, cache, query, how) == LazyAccumulate(d, cache, query[..j], how)
    decreases |query| - j
  {
    if j < |query| {
      assert query[..j + 1][..j] == query[..j];
      MatchFails(d, cache, query, j + 1, how);
    } else {
      assert query[..j] == query;
    }
  }
}
