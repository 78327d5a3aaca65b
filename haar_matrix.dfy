/**
 * The in-memory inverted index over Haar signatures
 * (iqdb/HaarQuerySparseMatrix.cs): one mirror record per signature and a CSR
 * matrix from each of the 98,304 coefficient ids to the signatures holding
 * it.
 */
module HaarMatrix {
  import opened Wire
  import opened Text
  import opened Signatures
  import opened HaarWeights
  import opened Csr
  import opened QueryResults
  import opened HaarIndex

  /** The current values of a list of signature objects. */
  function Values(sigs: seq<Signature>): (vs: seq<SigValue>)
    reads set s | s in sigs
    ensures |vs| == |sigs| && forall k :: 0 <= k < |sigs| ==> vs[k] == sigs[k].Value()
  {
    seq(|sigs|, k requires 0 <= k < |sigs| reads set s | s in sigs => sigs[k].Value())
  }

  function SigDatas(vs: seq<SigValue>): (data: seq<seq<u32>>)
    ensures |data| == |vs| && forall k :: 0 <= k < |vs| ==> data[k] == vs[k].sigData
  {
    seq(|vs|, k requires 0 <= k < |vs| => vs[k].sigData)
  }

  // ------------------------------------------------------------------ build

  /** A signature the build accepts: a Haar signature whose ids all index WeightLookUp. */
  predicate Indexable(v: SigValue) {
    v.kind.HaarKind? && InTable(v.sigData)
  }

  /**
   * Why the build stops at the first signature it refuses: the cast to
   * HaarSignature fails for another kind, and an id of 98304 or more
   * indexes past WeightLookUp in Sum_Weights.
   */
  function BuildError(vs: seq<SigValue>): (e: Option<Error>)
    ensures e.None? <==> forall k :: 0 <= k < |vs| ==> Indexable(vs[k])
  {
    if vs == [] then None
    else
      var e := BuildError(vs[..|vs| - 1]);
      var v := vs[|vs| - 1];
      if e.Some? then e
      else if !v.kind.HaarKind? then Some(InvalidCast)
      else if !InTable(v.sigData) then Some(IndexOutOfRange)
      else None
  }

  /** The mirror of one signature: its hash, its Sum_Weights and its averages. */
  function Mirror(v: SigValue): (m: MiniSig)
    requires Indexable(v)
    ensures m.hash == v.hash && m.yuv == v.kind.averages
    ensures SumLookUp(v.sigData) == Ok(m.totalWeight)
  {
    SumLookUpMeaning(v.sigData);
    MiniSig(v.hash, WeightSum(v.sigData, Table()), v.kind.averages)
  }

  function Mirrors(vs: seq<SigValue>): (ms: seq<MiniSig>)
    requires forall k :: 0 <= k < |vs| ==> Indexable(vs[k])
    ensures |ms| == |vs| && forall k :: 0 <= k < |vs| ==> ms[k] == Mirror(vs[k])
  {
    seq(|vs|, k requires 0 <= k < |vs| => Mirror(vs[k]))
  }

  /** The posting lists of all coefficient ids, `sigids_for` after the distribution loop. */
  function PostingLists(vs: seq<SigValue>): (lists: seq<seq<u32>>)
    requires |vs| <= INT32_MAX
    ensures |lists| == COEFF_SPACE
  {
    Lists(Entries(SigDatas(vs)), COEFF_SPACE)
  }

  /**
   * What the int `nzelements` does to the id count: a total that wraps to a
   * negative int makes `new uint[nzelements]` throw OverflowException, and
   * one that wraps to a smaller non-negative int leaves `column_ids` too
   * short for the flatten loop.
   */
  function CountError(total: nat): (e: Option<Error>)
    ensures e.None? <==> total <= INT32_MAX
  {
    var wrapped := total % 0x1_0000_0000;
    if wrapped > INT32_MAX then Some(Overflow)
    else if wrapped < total then Some(IndexOutOfRange)
    else None
  }

  /** The index FromHaarSignatures builds from signatures it accepts. */
  function Built(vs: seq<SigValue>): (ix: Index)
    requires |vs| <= INT32_MAX && forall k :: 0 <= k < |vs| ==> Indexable(vs[k])
    requires TotalIds(SigDatas(vs)) <= INT32_MAX
  {
    var lists := PostingLists(vs);
    PostedCount(vs);
    Index(Mirrors(vs), Offsets(lists), Flatten(lists, |lists|))
  }

  /** Every id of every accepted signature is posted exactly once. */
  lemma PostedCount(vs: seq<SigValue>)
    requires |vs| <= INT32_MAX && forall k :: 0 <= k < |vs| ==> Indexable(vs[k])
    ensures |Flatten(PostingLists(vs), COEFF_SPACE)| == TotalIds(SigDatas(vs))
  {
    var data := SigDatas(vs);
    EntriesLength(data);
    assert IdsBelow(data, COEFF_SPACE) by {
      forall i, j | 0 <= i < |data| && 0 <= j < |data[i]|
        ensures data[i][j] < COEFF_SPACE
      {
        assert Indexable(vs[i]);
      }
    }
    EntriesBelow(data, COEFF_SPACE);
    FlattenCount(Entries(data), COEFF_SPACE);
  }

  /**
   * The offsets of a built index: 98,305 of them, starting at 0, never
   * decreasing, and ending at the number of column ids, which is the number
   * of ids over all signatures.
   */
  lemma BuiltOffsets(vs: seq<SigValue>, c: nat, d: nat)
    requires |vs| <= INT32_MAX && forall k :: 0 <= k < |vs| ==> Indexable(vs[k])
    requires TotalIds(SigDatas(vs)) <= INT32_MAX
    requires c <= d <= COEFF_SPACE
    ensures |Built(vs).offsets| == COEFF_SPACE + 1 && Built(vs).offsets[0] == 0
    ensures Built(vs).offsets[COEFF_SPACE] == |Built(vs).columnIds| == TotalIds(SigDatas(vs))
    ensures Built(vs).offsets[c] <= Built(vs).offsets[d]
  {
    PostedCount(vs);
    OffsetsMeaning(PostingLists(vs), c, d);
  }

  /**
   * Row c of a built index lists, in ascending order and once per
   * occurrence, the positions of the signatures whose ids include c.
   */
  lemma BuiltRows(vs: seq<SigValue>, c: nat)
    requires |vs| <= INT32_MAX && forall k :: 0 <= k < |vs| ==> Indexable(vs[k])
    requires TotalIds(SigDatas(vs)) <= INT32_MAX
    requires c < COEFF_SPACE
    ensures RowOf(Built(vs).offsets, Built(vs).columnIds, c).Ok?
    ensures NonDecreasing(RowOf(Built(vs).offsets, Built(vs).columnIds, c).value)
    ensures forall k :: 0 <= k < |RowOf(Built(vs).offsets, Built(vs).columnIds, c).value| ==>
      RowOf(Built(vs).offsets, Built(vs).columnIds, c).value[k] < |vs|
    ensures forall i :: 0 <= i < |vs| ==>
      multiset(RowOf(Built(vs).offsets, Built(vs).columnIds, c).value)[i] == multiset(vs[i].sigData)[c]
  {
    PostedCount(vs);
    OffsetsMeaning(PostingLists(vs), c, c);
    PostingsMeaning(SigDatas(vs), c);
  }

  /**
   * The weight a query gives a signature with the given ids: the weight of
   * every query id, once per occurrence of that id among the signature's ids.
   */
  function Overlap(query: seq<u32>, data: seq<u32>): real
    requires InTable(query)
  {
    if query == [] then 0.0
    else
      var q := query[|query| - 1];
      Overlap(query[..|query| - 1], data) + Times(multiset(data)[q], Table()[q / 2])
  }

  lemma {:induction false} MatchedOverlap(vs: seq<SigValue>, query: seq<u32>, i: nat)
    requires |vs| <= INT32_MAX && forall k :: 0 <= k < |vs| ==> Indexable(vs[k])
    requires TotalIds(SigDatas(vs)) <= INT32_MAX
    requires InTable(query) && i < |vs|
    requires forall j :: 0 <= j < |query| ==> Readable(Built(vs), query[j])
    ensures Matched(Built(vs), query, i) == Overlap(query, vs[i].sigData)
    decreases |query|
  {
    if query != [] {
      var init := query[..|query| - 1];
      assert forall j :: 0 <= j < |init| ==> init[j] == query[j];
      MatchedOverlap(vs, init, i);
      BuiltRows(vs, query[|query| - 1]);
    }
  }

  /**
   * Querying a built index: the match loop goes through exactly when every
   * query id is below 98,304, and then leaves each candidate at the weight
   * its own ids share with the query.
   */
  lemma BuiltQuery(vs: seq<SigValue>, query: seq<u32>)
    requires |vs| <= INT32_MAX && forall k :: 0 <= k < |vs| ==> Indexable(vs[k])
    requires TotalIds(SigDatas(vs)) <= INT32_MAX
    ensures Accumulate(Built(vs), query).Ok? <==> InTable(query)
    ensures InTable(query) ==>
      forall i :: 0 <= i < |vs| ==> Accumulate(Built(vs), query).value[i] == Overlap(query, vs[i].sigData)
  {
    AccumulateMeaning(Built(vs), query);
    forall j | 0 <= j < |query| && query[j] < COEFF_SPACE
      ensures Readable(Built(vs), query[j])
    {
      BuiltRows(vs, query[j]);
    }
    if InTable(query) {
      forall i | 0 <= i < |vs|
        ensures Matched(Built(vs), query, i) == Overlap(query, vs[i].sigData)
      {
        MatchedOverlap(vs, query, i);
      }
    }
  }

  /**
   * An index built from signatures with 16-byte hashes and three averages
   * survives Serialize and Deserialize: what is read back answers every
   * query exactly as the built index does.
   */
  lemma SavedIndexAnswersAlike(vs: seq<SigValue>, q: SigValue, limit: real, rest: seq<Cell>)
    requires |vs| <= INT32_MAX && Build(vs).Ok?
    requires forall k :: 0 <= k < |vs| ==>
      vs[k].hash.Some? && |vs[k].hash.value| == HASH_BYTES && vs[k].kind.HaarKind? && |vs[k].kind.averages| >= CHANNEL_COUNT
    ensures |Built(vs).columnIds| == TotalIds(SigDatas(vs)) <= INT32_MAX
    ensures EncodeIndex(Built(vs)).Ok?
    ensures DecodeIndex(EncodeIndex(Built(vs)).value + rest).Ok?
    ensures Query(DecodeIndex(EncodeIndex(Built(vs)).value + rest).value.0, q, limit) == Query(Built(vs), q, limit)
  {
    var ix := Built(vs);
    BuiltOffsets(vs, 0, 0);
    IndexRoundTrip(ix, rest);
    QueryReloaded(ix, q, limit);
  }

  /** The build's result: the first refused signature's error, then the count's, then the index. */
  function Build(vs: seq<SigValue>): (r: Result<Index>)
    requires |vs| <= INT32_MAX
  {
    match BuildError(vs)
    case Some(e) => Err(e)
    case None =>
      match CountError(TotalIds(SigDatas(vs)))
      case Some(e) => Err(e)
      case None => Ok(Built(vs))
  }

  /**
   * The last position before n at which the list holds the same object as
   * position k: the ID the object ends with after the IDs of positions 0 to
   * n - 1 have been assigned in order.
   */
  function LastIndex(sigs: seq<Signature>, k: nat, n: nat): (l: nat)
    requires k < n <= |sigs|
    ensures k <= l < n && sigs[l] == sigs[k]
    ensures forall m :: l < m < n ==> sigs[m] != sigs[k]
  {
    if n - 1 == k || sigs[n - 1] == sigs[k] then n - 1 else LastIndex(sigs, k, n - 1)
  }

  /** A list without repeated objects gives every signature its own position. */
  lemma LastIndexOfDistinct(sigs: seq<Signature>, k: nat)
    requires k < |sigs| && forall l :: 0 <= l < |sigs| && l != k ==> sigs[l] != sigs[k]
    ensures LastIndex(sigs, k, |sigs|) == k
  {
  }

  /** The signature at position i is refused, the ones before it are not. */
  lemma RefusedAt(vs: seq<SigValue>, i: nat)
    requires i < |vs| && !Indexable(vs[i]) && forall k :: 0 <= k < i ==> Indexable(vs[k])
    ensures BuildError(vs) == Some(if vs[i].kind.HaarKind? then IndexOutOfRange else InvalidCast)
  {
    var p := vs[..i + 1];
    assert p[..i] == vs[..i];
    assert forall k :: 0 <= k < i ==> Indexable(p[..i][k]);
    BuildErrorPrefix(vs, i + 1);
  }

  /**
   * The distribution loop of FromHaarSignatures: casts each signature, gives
   * it its index as ID, mirrors it and appends its index to the posting list
   * of each of its ids.
   */
  method Distribute(sigs: seq<Signature>, ghost vs: seq<SigValue>) returns (r: Result<(seq<MiniSig>, seq<seq<u32>>)>)
    requires |sigs| <= INT32_MAX && |vs| == |sigs|
    requires forall k :: 0 <= k < |sigs| ==> sigs[k].Value() == vs[k]
    modifies sigs`id
    ensures r.Err? ==> BuildError(vs) == Some(r.error)
    ensures r.Ok? ==> forall k :: 0 <= k < |vs| ==> Indexable(vs[k])
    ensures r.Ok? ==> |r.value.0| == |vs| && forall k :: 0 <= k < |vs| ==> r.value.0[k] == Mirror(vs[k])
    ensures r.Ok? ==> (|r.value.1| == COEFF_SPACE &&
      forall c :: 0 <= c < COEFF_SPACE ==> r.value.1[c] == Postings(Entries(SigDatas(vs)), c))
    ensures r.Ok? ==> forall k :: 0 <= k < |sigs| ==> sigs[k].id == LastIndex(sigs, k, |sigs|)
  {
    ghost var data := SigDatas(vs);
    var lists := new seq<u32>[COEFF_SPACE](_ => []);
    var minis: seq<MiniSig> := [];
    ghost var es: seq<Entry> := [];
    var i := 0;
    while i < |sigs|
      invariant 0 <= i <= |sigs|
      invariant |minis| == i && MirroredBy(minis, vs)
      invariant es == Entries(data[..i])
      invariant forall c :: 0 <= c < COEFF_SPACE ==> lists[c] == Postings(es, c)
      invariant forall k :: 0 <= k < i ==> sigs[k].id == LastIndex(sigs, k, i)
    {
      var m := Step(sigs, i, sigs[i], lists, vs, es);
      if m.Err? {
        MirroredByMeaning(minis, vs);
        RefusedAt(vs, i);
        return Err(m.error);
      }
      MirroredBySnoc(minis, vs, m.value);
      minis := minis + [m.value];
      EntriesSnoc(data, i);
      es := es + Tagged(i, data[i]);
      i := i + 1;
    }
    assert data[..i] == data;
    MirroredByMeaning(minis, vs);
    return Ok((minis, lists[..]));
  }

  /** The mirrors of the first |minis| signatures, each of which the build accepts. */
  predicate MirroredBy(minis: seq<MiniSig>, vs: seq<SigValue>)
    requires |minis| <= |vs|
  {
    minis == [] ||
    (var n := |minis| - 1; MirroredBy(minis[..n], vs) && Indexable(vs[n]) && minis[n] == Mirror(vs[n]))
  }

  lemma MirroredBySnoc(minis: seq<MiniSig>, vs: seq<SigValue>, m: MiniSig)
    requires |minis| < |vs| && MirroredBy(minis, vs)
    requires Indexable(vs[|minis|]) && m == Mirror(vs[|minis|])
    ensures MirroredBy(minis + [m], vs)
  {
    assert (minis + [m])[..|minis|] == minis;
  }

  lemma {:induction false} MirroredByMeaning(minis: seq<MiniSig>, vs: seq<SigValue>)
    requires |minis| <= |vs| && MirroredBy(minis, vs)
    ensures forall k :: 0 <= k < |minis| ==> Indexable(vs[k]) && minis[k] == Mirror(vs[k])
  {
    if minis != [] {
      MirroredByMeaning(minis[..|minis| - 1], vs);
    }
  }

  /** One pass of the distribution loop over the list: MirrorOne on position i, whatever objects the list repeats. */
  method Step(sigs: seq<Signature>, i: nat, sig: Signature, lists: array<seq<u32>>, ghost vs: seq<SigValue>, ghost es: seq<Entry>)
    returns (r: Result<MiniSig>)
    requires i < |sigs| <= INT32_MAX && |vs| == |sigs| && sig == sigs[i]
    requires lists.Length == COEFF_SPACE
    requires forall c :: 0 <= c < COEFF_SPACE ==> lists[c] == Postings(es, c)
    requires sig.hash == vs[i].hash && sig.sigData == vs[i].sigData && sig.kind == vs[i].kind
    requires forall k :: 0 <= k < i ==> sigs[k].id == LastIndex(sigs, k, i)
    modifies sig`id, lists
    ensures r.Err? <==> !Indexable(vs[i])
    ensures r.Err? ==> r.error == if vs[i].kind.HaarKind? then IndexOutOfRange else InvalidCast
    ensures r.Ok? ==> r.value == Mirror(vs[i])
    ensures r.Ok? ==> forall c :: 0 <= c < COEFF_SPACE ==> lists[c] == Postings(es + Tagged(i as u32, vs[i].sigData), c)
    ensures r.Ok? ==> forall k :: 0 <= k < i + 1 ==> sigs[k].id == LastIndex(sigs, k, i + 1)
  {
    r := MirrorOne(sig, i as u32, lists, es);
    assert sigs[i].Value() == vs[i].(id := sigs[i].id);
  }

  /**
   * One pass of the distribution loop: the cast, `sig.ID = sigid`, the
   * mirror with Sum_Weights, and the inner foreach over the ids.
   */
  method MirrorOne(sig: Signature, sigid: u32, lists: array<seq<u32>>, ghost es: seq<Entry>) returns (r: Result<MiniSig>)
    requires lists.Length == COEFF_SPACE
    requires forall c :: 0 <= c < COEFF_SPACE ==> lists[c] == Postings(es, c)
    modifies sig`id, lists
    ensures r.Err? <==> !Indexable(sig.Value())
    ensures r.Err? ==> r.error == if sig.kind.HaarKind? then IndexOutOfRange else InvalidCast
    ensures r.Ok? ==> sig.id == sigid && r.value == Mirror(sig.Value())
    ensures r.Ok? ==> forall c :: 0 <= c < COEFF_SPACE ==> lists[c] == Postings(es + Tagged(sigid, sig.sigData), c)
  {
    if !sig.kind.HaarKind? {
      return Err(InvalidCast);
    }
    sig.SetId(sigid);
    var total := SumWeights(sig.sigData);
    SumLookUpMeaning(sig.sigData);
    if total.Err? {
      return Err(IndexOutOfRange);
    }
    DistributeIds(lists, es, sigid, sig.sigData);
    return Ok(MiniSig(sig.hash, total.value, sig.kind.averages));
  }

  /** Once a prefix is refused, the whole list is refused with the same error. */
  lemma {:induction false} BuildErrorPrefix(vs: seq<SigValue>, n: nat)
    requires n <= |vs| && BuildError(vs[..n]).Some?
    ensures BuildError(vs) == BuildError(vs[..n])
    decreases |vs| - n
  {
    if n < |vs| {
      assert vs[..n + 1][..n] == vs[..n];
      BuildErrorPrefix(vs, n + 1);
    } else {
      assert vs[..n] == vs;
    }
  }

  /**
   * The build of FromHaarSignatures: each signature gets its position as ID
   * and is otherwise unchanged; the first refused signature, or an id count
   * an int cannot hold, is an exception.
   */
  method BuildIndex(sigs: seq<Signature>) returns (r: Result<Index>)
    requires |sigs| <= INT32_MAX
    modifies sigs`id
    ensures forall k :: 0 <= k < |sigs| ==> sigs[k].Value() == old(sigs[k].Value()).(id := sigs[k].id)
    ensures r.Err? ==> Build(old(Values(sigs))) == Err(r.error)
    ensures r.Ok? ==> Build(old(Values(sigs))) == Ok(r.value)
    ensures r.Ok? ==> forall k :: 0 <= k < |sigs| ==> sigs[k].id == LastIndex(sigs, k, |sigs|)
  {
    ghost var vs := Values(sigs);
    var d := Distribute(sigs, vs);
    if d.Err? {
      return Err(d.error);
    }
    var (minis, lists) := d.value;
    assert minis == Mirrors(vs);
    assert lists == PostingLists(vs);
    var nz := CountEntries(lists);
    assert nz == TotalIds(SigDatas(vs)) by {
      PostedCount(vs);
    }
    var wrapped := nz % 0x1_0000_0000;
    if wrapped > INT32_MAX {
      return Err(Overflow);
    }
    if wrapped < nz {
      return Err(IndexOutOfRange);
    }
    var offsets, columnIds := FlattenLists(lists, nz);
    return Ok(Index(minis, offsets, columnIds));
  }

  // ------------------------------------------------------------ the matrix

  /** HaarQuerySparseMatrix. */
  class HaarQuerySparseMatrix {
    var signatures: seq<MiniSig>   // Signatures
    var offsets: seq<u32>          // row_id_offsets
    var columnIds: seq<u32>        // column_ids

    function State(): Index
      reads this
    {
      Index(signatures, offsets, columnIds)
    }

    constructor Of(ix: Index)
      ensures State() == ix
    {
      signatures, offsets, columnIds := ix.signatures, ix.offsets, ix.columnIds;
    }

    /** FromHaarSignatures: the matrix of BuildIndex. */
    static method FromHaarSignatures(sigs: seq<Signature>) returns (r: Result<HaarQuerySparseMatrix>)
      requires |sigs| <= INT32_MAX
      modifies sigs`id
      ensures forall k :: 0 <= k < |sigs| ==> sigs[k].Value() == old(sigs[k].Value()).(id := sigs[k].id)
      ensures r.Err? ==> Build(old(Values(sigs))) == Err(r.error)
      ensures r.Ok? ==> fresh(r.value) && Build(old(Values(sigs))) == Ok(r.value.State())
      ensures r.Ok? ==> forall k :: 0 <= k < |sigs| ==> sigs[k].id == LastIndex(sigs, k, |sigs|)
    {
      var ix := BuildIndex(sigs);
      if ix.Err? {
        return Err(ix.error);
      }
      var m := new HaarQuerySparseMatrix.Of(ix.value);
      return Ok(m);
    }

    /**
     * Serialize: the record count, every record (hash, weight, three
     * averages), the first 98,304 offsets, the number of column ids and the
     * ids. A record without a hash or with fewer than three averages, or
     * fewer offsets, is an exception.
     */
    method Serialize() returns (r: Result<seq<Cell>>)
      requires |signatures| <= INT32_MAX && |columnIds| <= INT32_MAX
      ensures r == EncodeIndex(State())
    {
      var records := WriteRecords(signatures);
      if records.Err? {
        return Err(records.error);
      }
      if |offsets| < COEFF_SPACE {
        return Err(IndexOutOfRange);
      }
      var rows := WriteU32s(offsets[..COEFF_SPACE]);
      var ids := WriteU32s(columnIds);
      return Ok(U32(|signatures|) + records.value + rows + U32(|columnIds|) + ids);
    }

    /**
     * Deserialize: replaces the three arrays with what the stream holds and
     * hands back the unread rest; a short or malformed stream is an exception.
     */
    method Deserialize(s: seq<Cell>) returns (r: Result<seq<Cell>>)
      modifies this
      ensures r.Err? ==> DecodeIndex(s) == Err(r.error)
      ensures r.Ok? ==> DecodeIndex(s) == Ok((State(), r.value))
    {
      var count := ReadU32(s);
      if count.Err? {
        return Err(count.error);
      }
      var records := ReadRecords(count.value.1, count.value.0);
      if records.Err? {
        return Err(records.error);
      }
      var rows := ReadWordArray(records.value.1, COEFF_SPACE);
      if rows.Err? {
        return Err(rows.error);
      }
      var length := ReadU32(rows.value.1);
      if length.Err? {
        return Err(length.error);
      }
      var ids := ReadWordArray(length.value.1, length.value.0);
      if ids.Err? {
        return Err(ids.error);
      }
      signatures, offsets, columnIds := records.value.0, rows.value.0, ids.value.0;
      return Ok(ids.value.1);
    }

    /** ExecuteQuery: the Haar results for the query at the given limit. */
    method ExecuteQuery(query: Signature, limit: real) returns (r: Result<seq<QueryResult>>)
      ensures r == Query(State(), query.Value(), limit)
    {
      r := QueryLoop(State(), query.Value(), limit);
    }
  }
}
