/**
 * The inverted index over signatures with uniform or table weights
 * (iqdb/IntegerQuerySparseMatrix.cs): one mirror record per signature (its
 * hash and Sum_Weights) and a CSR matrix from every coefficient id up to
 * the largest one in use to the signatures holding it.
 */
module IntegerMatrix {
  import opened Wire
  import opened Text
  import opened Signatures
  import opened HaarWeights
  import opened Csr
  import opened QueryResults
  import HaarIndex
  import HaarMatrix

  /** IntMiniSig: the hash and Sum_Weights of one indexed signature. */
  datatype IntMini = IntMini(hash: Option<seq<byte>>, totalWeight: real)

  /** The three arrays of the matrix: Signatures, row_id_offsets and column_ids. */
  datatype IntIndex = IntIndex(signatures: seq<IntMini>, offsets: seq<u32>, columnIds: seq<u32>)

  // ---------------------------------------------------------------- weights

  /**
   * Sum_Weights as the signature's class defines it: the weight-table sum of
   * a HaarSignature, and the number of ids for IntegerSignature and the
   * colour signatures that inherit from it.
   */
  function SumWeightsOf(v: SigValue): (r: Result<real>)
    ensures r.Ok? <==> !v.kind.HaarKind? || InTable(v.sigData)
  {
    SumLookUpMeaning(v.sigData);
    if v.kind.HaarKind? then SumLookUp(v.sigData) else Ok(|v.sigData| as real)
  }

  /** Get_Coeff_Weight as the query's class defines it: `WeightLookUp[coeff >> 1]` for Haar, 1 otherwise. */
  function CoeffWeightOf(kind: Kind, coeff: nat): (r: Result<real>)
    ensures r.Ok? <==> !kind.HaarKind? || coeff < COEFF_SPACE
    ensures r.Err? ==> r.error == IndexOutOfRange
  {
    if kind.HaarKind? then CoeffWeight(coeff) else Ok(1.0)
  }

  /** The coefficient weights of the ids added up in order, failing at the first id without one. */
  function CoeffWeightSum(kind: Kind, ids: seq<u32>): Result<real> {
    if ids == [] then Ok(0.0)
    else
      var sum :- CoeffWeightSum(kind, ids[..|ids| - 1]);
      var w :- CoeffWeightOf(kind, ids[|ids| - 1]);
      Ok(sum + w)
  }

  /**
   * Every signature class keeps Sum_Weights equal to the sum of its own
   * coefficient weights; for the uniform classes both are the id count.
   */
  lemma {:induction false} SumIsCoeffWeights(v: SigValue)
    ensures SumWeightsOf(v) == CoeffWeightSum(v.kind, v.sigData)
    ensures !v.kind.HaarKind? ==> SumWeightsOf(v) == Ok(|v.sigData| as real)
    decreases |v.sigData|
  {
    if v.sigData != [] {
      var init := v.(sigData := v.sigData[..|v.sigData| - 1]);
      SumIsCoeffWeights(init);
    }
  }

  // ------------------------------------------------------------------ build

  /** A signature the mirror loop gets past: its Sum_Weights is defined and its ids have a maximum. */
  predicate Mirrorable(v: SigValue) {
    SumWeightsOf(v).Ok? && v.sigData != []
  }

  /**
   * Why the mirror loop stops at the first signature it refuses: Sum_Weights
   * of a Haar signature indexes past WeightLookUp, or `SigData.Max()` of no
   * ids throws InvalidOperationException.
   */
  function MirrorError(vs: seq<SigValue>): (e: Option<Error>)
    ensures e.None? <==> forall k :: 0 <= k < |vs| ==> Mirrorable(vs[k])
  {
    if vs == [] then None
    else
      var e := MirrorError(vs[..|vs| - 1]);
      var v := vs[|vs| - 1];
      if e.Some? then e
      else if SumWeightsOf(v).Err? then Some(IndexOutOfRange)
      else if v.sigData == [] then Some(InvalidOperation)
      else None
  }

  /** The mirror record of one signature: its hash and its Sum_Weights. */
  function Mirror(v: SigValue): (m: IntMini)
    requires Mirrorable(v)
    ensures m.hash == v.hash && SumWeightsOf(v) == Ok(m.totalWeight)
  {
    IntMini(v.hash, SumWeightsOf(v).value)
  }

  function Mirrors(vs: seq<SigValue>): (ms: seq<IntMini>)
    requires forall k :: 0 <= k < |vs| ==> Mirrorable(vs[k])
    ensures |ms| == |vs| && forall k :: 0 <= k < |vs| ==> ms[k] == Mirror(vs[k])
  {
    seq(|vs|, k requires 0 <= k < |vs| => Mirror(vs[k]))
  }

  /** `SigData.Max()` of a non-empty list of ids. */
  function Largest(ids: seq<u32>): (m: u32)
    requires ids != []
    ensures forall k :: 0 <= k < |ids| ==> ids[k] <= m
    ensures m in ids
  {
    if |ids| == 1 then ids[0]
    else
      var m := Largest(ids[..|ids| - 1]);
      assert m in ids[..|ids| - 1];
      if ids[|ids| - 1] > m then ids[|ids| - 1] else m
  }

  /**
   * `max_coeff` after the mirror loop: 0, raised to the largest id of each
   * signature in turn (the loop throws before it reaches a signature
   * without ids, so one adds nothing here).
   */
  function MaxCoeff(vs: seq<SigValue>): u32 {
    if vs == [] then 0 else Raised(MaxCoeff(vs[..|vs| - 1]), vs[|vs| - 1].sigData)
  }

  /** `Math.Max(max_coeff, sig.SigData.Max())`. */
  function Raised(m: u32, ids: seq<u32>): u32 {
    if ids != [] && Largest(ids) > m then Largest(ids) else m
  }

  /**
   * max_coeff is the largest id over all signatures: every id is at most
   * it, and when every signature has ids, some signature holds it.
   */
  lemma {:induction false} MaxCoeffMeaning(vs: seq<SigValue>)
    ensures forall i, j :: 0 <= i < |vs| && 0 <= j < |vs[i].sigData| ==> vs[i].sigData[j] <= MaxCoeff(vs)
    ensures vs != [] && (forall k :: 0 <= k < |vs| ==> vs[k].sigData != []) ==>
      exists i, j :: 0 <= i < |vs| && 0 <= j < |vs[i].sigData| && vs[i].sigData[j] == MaxCoeff(vs)
  {
    if vs != [] {
      var n := |vs| - 1;
      var init := vs[..n];
      MaxCoeffMeaning(init);
      assert forall i :: 0 <= i < n ==> init[i] == vs[i];
      if forall k :: 0 <= k < |vs| ==> vs[k].sigData != [] {
        var l := Largest(vs[n].sigData);
        if l > MaxCoeff(init) || n == 0 {
          var j :| 0 <= j < |vs[n].sigData| && vs[n].sigData[j] == l;
          assert vs[n].sigData[j] == MaxCoeff(vs);
        } else {
          var i, j :| 0 <= i < n && 0 <= j < |init[i].sigData| && init[i].sigData[j] == MaxCoeff(init);
          assert vs[i].sigData[j] == MaxCoeff(vs);
        }
      }
    }
  }

  /** Every id of every signature is below max_coeff + 1, so it has a posting list. */
  lemma IdsBelowMax(vs: seq<SigValue>)
    ensures IdsBelow(HaarMatrix.SigDatas(vs), MaxCoeff(vs) + 1)
  {
    MaxCoeffMeaning(vs);
  }

  /**
   * `new List<uint>[(int)max_coeff + 1]`: the cast wraps an id of 2^31 or
   * more to a negative int and the addition wraps 2^31 - 1 to the least
   * int, so the length is negative (OverflowException); the id 2^32 - 1
   * wraps to -1 and leaves no lists at all, so the first id the
   * distribution loop posts is past the end.
   */
  function ListsError(maxCoeff: u32): (e: Option<Error>)
    ensures e.None? <==> maxCoeff < INT32_MAX
    ensures e == Some(IndexOutOfRange) <==> maxCoeff == 0xFFFF_FFFF
  {
    var asInt: int := if maxCoeff > INT32_MAX then maxCoeff as int - 0x1_0000_0000 else maxCoeff as int;
    var length := if asInt + 1 > INT32_MAX then asInt + 1 - 0x1_0000_0000 else asInt + 1;
    if length < 0 then Some(Overflow)
    else if length <= maxCoeff then Some(IndexOutOfRange)
    else None
  }

  /**
   * What the uint `nzelements` does to the id count: a wrapped count past
   * Int32.MaxValue is more than an array holds, and a count that wraps to a
   * smaller one leaves `column_ids` too short for the flatten loop.
   */
  function IdCountError(total: nat): (e: Option<Error>)
    ensures e.None? <==> total <= INT32_MAX
  {
    var wrapped := total % 0x1_0000_0000;
    if wrapped > INT32_MAX then Some(OutOfMemory)
    else if wrapped < total then Some(IndexOutOfRange)
    else None
  }

  /** The posting lists `temp` of every coefficient from 0 to max_coeff. */
  function PostingLists(vs: seq<SigValue>): (lists: seq<seq<u32>>)
    requires |vs| <= INT32_MAX && forall k :: 0 <= k < |vs| ==> Mirrorable(vs[k])
    ensures |lists| == MaxCoeff(vs) + 1
  {
    Lists(Entries(HaarMatrix.SigDatas(vs)), MaxCoeff(vs) + 1)
  }

  /** Every id of every accepted signature is posted exactly once. */
  lemma PostedCount(vs: seq<SigValue>)
    requires |vs| <= INT32_MAX && forall k :: 0 <= k < |vs| ==> Mirrorable(vs[k])
    ensures |Flatten(PostingLists(vs), |PostingLists(vs)|)| == TotalIds(HaarMatrix.SigDatas(vs))
  {
    var data := HaarMatrix.SigDatas(vs);
    var n := MaxCoeff(vs) + 1;
    IdsBelowMax(vs);
    EntriesLength(data);
    EntriesBelow(data, n);
    FlattenCount(Entries(data), n);
  }

  /**
   * The index FromSignatures builds from signatures it accepts, with every
   * coefficient's row flattened and the sentinel offset behind the last row,
   * as HaarQuerySparseMatrix lays out its rows.
   */
  function Built(vs: seq<SigValue>): (ix: IntIndex)
    requires |vs| <= INT32_MAX && forall k :: 0 <= k < |vs| ==> Mirrorable(vs[k])
    requires TotalIds(HaarMatrix.SigDatas(vs)) <= INT32_MAX
  {
    var lists := PostingLists(vs);
    PostedCount(vs);
    IntIndex(Mirrors(vs), Offsets(lists), Flatten(lists, |lists|))
  }

  /**
   * The build's result: the first refused signature's error, then the list
   * array's, then an offset array of max_coeff + 2 entries too long for an
   * array, then the count's, then the index.
   */
  function Build(vs: seq<SigValue>): (r: Result<IntIndex>)
    requires |vs| <= INT32_MAX
  {
    match MirrorError(vs)
    case Some(e) => Err(e)
    case None =>
      match ListsError(MaxCoeff(vs))
      case Some(e) => Err(e)
      case None =>
        if MaxCoeff(vs) + 2 > INT32_MAX then Err(OutOfMemory)
        else
          match IdCountError(TotalIds(HaarMatrix.SigDatas(vs)))
          case Some(e) => Err(e)
          case None => Ok(Built(vs))
  }

  /**
   * The offsets of a built index: one per coefficient up to max_coeff and
   * the sentinel, starting at 0, never decreasing, and ending at the number
   * of column ids, which is the number of ids over all signatures.
   */
  lemma BuiltOffsets(vs: seq<SigValue>, c: nat, d: nat)
    requires |vs| <= INT32_MAX && forall k :: 0 <= k < |vs| ==> Mirrorable(vs[k])
    requires TotalIds(HaarMatrix.SigDatas(vs)) <= INT32_MAX
    requires c <= d < |Built(vs).offsets|
    ensures |Built(vs).offsets| == MaxCoeff(vs) + 2 && Built(vs).offsets[0] == 0
    ensures Built(vs).offsets[|Built(vs).offsets| - 1] == |Built(vs).columnIds| == TotalIds(HaarMatrix.SigDatas(vs))
    ensures Built(vs).offsets[c] <= Built(vs).offsets[d]
  {
    PostedCount(vs);
    OffsetsMeaning(PostingLists(vs), c, d);
  }

  /** Row c of a built index is the posting list of c up to max_coeff, and the sentinel's row is empty. */
  lemma BuiltRowIsPostings(vs: seq<SigValue>, c: nat)
    requires |vs| <= INT32_MAX && forall k :: 0 <= k < |vs| ==> Mirrorable(vs[k])
    requires TotalIds(HaarMatrix.SigDatas(vs)) <= INT32_MAX
    requires c < |Built(vs).offsets|
    ensures RowOf(Built(vs).offsets, Built(vs).columnIds, c) ==
      Ok(if c <= MaxCoeff(vs) then Postings(Entries(HaarMatrix.SigDatas(vs)), c) else [])
  {
    var lists := PostingLists(vs);
    PostedCount(vs);
    OffsetsMeaning(lists, c, |lists|);
  }

  /**
   * Row c of a built index, for every c up to max_coeff, lists in ascending
   * order and once per occurrence the positions of the signatures whose ids
   * include c; the sentinel's row is empty.
   */
  lemma BuiltRows(vs: seq<SigValue>, c: nat)
    requires |vs| <= INT32_MAX && forall k :: 0 <= k < |vs| ==> Mirrorable(vs[k])
    requires TotalIds(HaarMatrix.SigDatas(vs)) <= INT32_MAX
    requires c < |Built(vs).offsets|
    ensures RowOf(Built(vs).offsets, Built(vs).columnIds, c).Ok?
    ensures NonDecreasing(RowOf(Built(vs).offsets, Built(vs).columnIds, c).value)
    ensures forall k :: 0 <= k < |RowOf(Built(vs).offsets, Built(vs).columnIds, c).value| ==>
      RowOf(Built(vs).offsets, Built(vs).columnIds, c).value[k] < |vs|
    ensures forall i :: 0 <= i < |vs| ==>
      multiset(RowOf(Built(vs).offsets, Built(vs).columnIds, c).value)[i] == multiset(vs[i].sigData)[c]
  {
    var data := HaarMatrix.SigDatas(vs);
    BuiltRowIsPostings(vs, c);
    if c <= MaxCoeff(vs) {
      PostingsMeaning(data, c);
    } else {
      MaxCoeffMeaning(vs);
      forall i | 0 <= i < |vs|
        ensures multiset(vs[i].sigData)[c] == 0
      {
        assert forall j :: 0 <= j < |vs[i].sigData| ==> vs[i].sigData[j] < c;
        assert c !in vs[i].sigData;
      }
    }
  }

  // ------------------------------------------------- the flatten as written

  /**
   * The arrays the flatten loop leaves as written, with `coeff < max_coeff`:
   * the rows below the largest coefficient are laid out, the last offset is
   * overwritten with the id count, and the largest coefficient's postings
   * are never copied, so the column ids end in zeros.
   */
  function AsWrittenLayout(lists: seq<seq<u32>>): (r: (seq<u32>, seq<u32>))
    requires |lists| >= 1 && |Flatten(lists, |lists|)| < 0x1_0000_0000
    ensures |r.0| == |lists| && r.0[|lists| - 1] == |r.1| == |Flatten(lists, |lists|)|
  {
    var n := |lists| - 1;
    FlattenPrefix(lists, n, n + 1);
    (Offsets(lists)[..n] + [|Flatten(lists, |lists|)| as u32], Flatten(lists, n) + Repeat(0, |lists[n]|))
  }

  /** The index FromSignatures leaves as written: the mirrors, and the arrays of the flatten loop as written. */
  function AsWrittenBuilt(vs: seq<SigValue>): (ix: IntIndex)
    requires |vs| <= INT32_MAX && forall k :: 0 <= k < |vs| ==> Mirrorable(vs[k])
    requires TotalIds(HaarMatrix.SigDatas(vs)) <= INT32_MAX
    ensures |ix.offsets| == MaxCoeff(vs) + 1 && ix.offsets[MaxCoeff(vs)] == |ix.columnIds|
  {
    var lists := PostingLists(vs);
    PostedCount(vs);
    IntIndex(Mirrors(vs), AsWrittenLayout(lists).0, AsWrittenLayout(lists).1)
  }

  /**
   * As written, the offsets still start at 0, never decrease and end at the
   * number of column ids, but the row of the largest coefficient is empty
   * and the row below it runs on over the zeros left where the largest
   * coefficient's postings belong.
   */
  lemma AsWrittenRows(lists: seq<seq<u32>>, c: nat, d: nat)
    requires |lists| >= 2 && |Flatten(lists, |lists|)| < 0x1_0000_0000
    requires c <= d < |lists|
    ensures AsWrittenLayout(lists).0[c] <= AsWrittenLayout(lists).0[d]
    ensures c < |lists| - 2 ==> RowOf(AsWrittenLayout(lists).0, AsWrittenLayout(lists).1, c) == Ok(lists[c])
    ensures RowOf(AsWrittenLayout(lists).0, AsWrittenLayout(lists).1, |lists| - 2) ==
      Ok(lists[|lists| - 2] + Repeat(0, |lists[|lists| - 1]|))
    ensures RowOf(AsWrittenLayout(lists).0, AsWrittenLayout(lists).1, |lists| - 1) == Ok([])
  {
    var n := |lists| - 1;
    var (offsets, ids) := AsWrittenLayout(lists);
    var head := Flatten(lists, n);
    OffsetsMeaning(lists, c, d);
    OffsetsMeaning(lists, c, n + 1);
    FlattenPrefix(lists, n, n + 1);
    assert ids[..|head|] == head;
    if c < n - 1 {
      FlattenRow(lists, c, n);
      assert offsets[c + 1] == |Flatten(lists, c + 1)|;
      assert ids[offsets[c]..offsets[c + 1]] == head[offsets[c]..offsets[c + 1]];
    }
    var start := |Flatten(lists, n - 1)|;
    assert offsets[n - 1] == start;
    assert head == Flatten(lists, n - 1) + lists[n - 1];
    assert ids[start..|ids|] == lists[n - 1] + Repeat(0, |lists[n]|);
  }

  /** One Integer signature holding only the id 1. */
  function OneSignature(): (vs: seq<SigValue>)
    ensures |vs| == 1 && Mirrorable(vs[0])
  {
    [SigValue(0, Some(ZeroHash()), [1], IntegerKind)]
  }

  /** Its posting lists: none for coefficient 0, and itself for coefficient 1. */
  lemma OneSignatureLists()
    ensures PostingLists(OneSignature()) == [[], [0]]
  {
    OneSignatureMax();
    OneSignatureEntries();
    var es := [Entry(0, 1)];
    assert Postings(es, 0) == [] && Postings(es, 1) == [0] by {
      assert es[..0] == [];
    }
    assert Lists(es, 2) == [[], [0]];
  }

  /** Its largest id is 1. */
  lemma OneSignatureMax()
    ensures MaxCoeff(OneSignature()) == 1
  {
    var vs := OneSignature();
    assert vs[..0] == [];
    assert Largest([1]) == 1;
  }

  /** Its one entry posts signature 0 under coefficient 1. */
  lemma OneSignatureEntries()
    ensures Entries(HaarMatrix.SigDatas(OneSignature())) == [Entry(0, 1)]
  {
    var data := HaarMatrix.SigDatas(OneSignature());
    assert data == [[1]];
    EntriesSnoc(data, 0);
    assert data[..0] == [] && data[..1] == data;
  }

  /** The match loop over a single query id: its weight, then its row added to the zero accumulators. */
  lemma AccumulateSingle(ix: IntIndex, kind: Kind, q: u32)
    ensures Accumulate(ix, kind, [q]) ==
      var w :- CoeffWeightOf(kind, q);
      var row :- RowOf(ix.offsets, ix.columnIds, q);
      AddRow(Zeros(|ix.signatures|), row, w)
  {
    assert [q][..0] == [];
  }

  /** Adding the row [0] to one zero accumulator with weight 1. */
  lemma AddRowOne()
    ensures AddRow(Zeros(1), [0], 1.0) == Ok([1.0]) && AddRow(Zeros(1), [], 1.0) == Ok([0.0])
  {
    assert Zeros(1) == [0.0];
    assert [0.0][0 := 0.0 + 1.0] == [1.0] && [0][1..] == [];
  }

  /** The arrays as written for the signature holding only the id 1: offsets [0, 1] and one zero column id. */
  lemma OneSignatureLayout()
    ensures AsWrittenLayout(PostingLists(OneSignature())) == ([0, 1], [0])
  {
    OneSignatureLists();
    var lists: seq<seq<u32>> := [[], [0]];
    assert Flatten(lists, 1) == [];
    assert Flatten(lists, 2) == [0];
    assert Offsets(lists)[..1] == [0] by {
      assert Offsets(lists)[0] == Offset(lists, 0) == 0;
    }
    assert Repeat(0, 1) == [0];
    var offsets: seq<u32> := [0, 1];
    var ids: seq<u32> := [0];
    assert AsWrittenLayout(lists).0 == Offsets(lists)[..1] + [1] == offsets;
    assert AsWrittenLayout(lists).1 == Flatten(lists, 1) + Repeat(0, 1) == ids;
  }

  /** The arrays [0, 1] and [0]: row 0 reads the one column id, row 1 nothing. */
  lemma TwoRows(offsets: seq<u32>, ids: seq<u32>)
    requires offsets == [0, 1] && ids == [0]
    ensures RowOf(offsets, ids, 0) == Ok([0]) && RowOf(offsets, ids, 1) == Ok([])
  {
    assert ids[0..1] == ids;
  }

  /** The rows as written for that signature: row 0 names it, and row 1, its own id's, is empty. */
  lemma AsWrittenOneRows()
    ensures |AsWrittenBuilt(OneSignature()).signatures| == 1
    ensures RowOf(AsWrittenBuilt(OneSignature()).offsets, AsWrittenBuilt(OneSignature()).columnIds, 0) == Ok([0])
    ensures RowOf(AsWrittenBuilt(OneSignature()).offsets, AsWrittenBuilt(OneSignature()).columnIds, 1) == Ok([])
  {
    OneSignatureLayout();
    var ix := AsWrittenBuilt(OneSignature());
    assert ix.offsets == AsWrittenLayout(PostingLists(OneSignature())).0;
    assert ix.columnIds == AsWrittenLayout(PostingLists(OneSignature())).1;
    TwoRows(ix.offsets, ix.columnIds);
  }

  /**
   * As written, a query for 1 gives the signature holding only the id 1 no
   * weight, and a query for 0 gives it weight 1.
   */
  lemma AsWrittenMissesLargest()
    ensures Accumulate(AsWrittenBuilt(OneSignature()), IntegerKind, [1]) == Ok([0.0])
    ensures Accumulate(AsWrittenBuilt(OneSignature()), IntegerKind, [0]) == Ok([1.0])
  {
    AsWrittenOneRows();
    AccumulateSingle(AsWrittenBuilt(OneSignature()), IntegerKind, 0);
    AccumulateSingle(AsWrittenBuilt(OneSignature()), IntegerKind, 1);
    AddRowOne();
  }

  /** With every row flattened, the same queries give the weights its ids call for: 1 for the id 1, none for 0. */
  lemma BuiltFindsLargest()
    ensures Accumulate(Built(OneSignature()), IntegerKind, [1]) == Ok([1.0])
    ensures Accumulate(Built(OneSignature()), IntegerKind, [0]) == Ok([0.0])
  {
    OneSignatureLists();
    var lists := PostingLists(OneSignature());
    PostedCount(OneSignature());
    OffsetsMeaning(lists, 0, 2);
    OffsetsMeaning(lists, 1, 2);
    var ix := Built(OneSignature());
    assert RowOf(ix.offsets, ix.columnIds, 0) == Ok([]);
    assert RowOf(ix.offsets, ix.columnIds, 1) == Ok([0]);
    AccumulateSingle(ix, IntegerKind, 0);
    AccumulateSingle(ix, IntegerKind, 1);
    AddRowOne();
  }

  // ------------------------------------------------------------------ codec

  /** One record: the raw hash bytes and Sum_Weights; a null hash throws. */
  function EncodeMini(m: IntMini): (r: Result<seq<Cell>>)
    ensures r.Ok? <==> m.hash.Some?
    ensures r.Err? ==> r.error == ArgumentNull
  {
    if m.hash.None? then Err(ArgumentNull) else Ok(Bytes(m.hash.value) + F32(m.totalWeight))
  }

  /** The records in order; the first one without a hash stops the loop. */
  function EncodeMinis(ms: seq<IntMini>): (r: Result<seq<Cell>>)
  {
    if ms == [] then Ok([])
    else
      var head :- EncodeMini(ms[0]);
      var tail :- EncodeMinis(ms[1..]);
      Ok(head + tail)
  }

  /** The lengths Serialize writes as counts. */
  predicate Countable(ix: IntIndex) {
    |ix.signatures| <= INT32_MAX && |ix.offsets| <= INT32_MAX && |ix.columnIds| <= INT32_MAX
  }

  /**
   * Serialize: the record count and the records, then the number of offsets
   * and every offset, sentinel included, then the number of column ids and
   * the ids.
   */
  function EncodeIndex(ix: IntIndex): (r: Result<seq<Cell>>)
    requires Countable(ix)
  {
    var records :- EncodeMinis(ix.signatures);
    Ok(U32(|ix.signatures|) + records + U32(|ix.offsets|) + U32s(ix.offsets) + U32(|ix.columnIds|) + U32s(ix.columnIds))
  }

  /** One record read back: up to 16 hash bytes and the weight. */
  function DecodeMini(s: seq<Cell>): Result<(IntMini, seq<Cell>)> {
    var (hash, rest) :- ReadBytes(s, HASH_BYTES);
    var (weight, rest') :- ReadSingle(rest);
    Ok((IntMini(Some(hash), weight), rest'))
  }

  function DecodeMinis(s: seq<Cell>, n: nat): Result<(seq<IntMini>, seq<Cell>)>
    decreases n
  {
    if n == 0 then Ok(([], s))
    else
      var (m, rest) :- DecodeMini(s);
      var (ms, rest') :- DecodeMinis(rest, n - 1);
      Ok(([m] + ms, rest'))
  }

  /** Deserialize: the counted records, the counted offsets and the counted column ids. */
  function DecodeIndex(s: seq<Cell>): Result<(IntIndex, seq<Cell>)> {
    var (t, rest) :- ReadU32(s);
    var (ms, rest1) :- DecodeMinis(rest, t);
    var (maxsid, rest2) :- ReadU32(rest1);
    var (offsets, rest3) :- ReadU32s(rest2, maxsid);
    var (gl, rest4) :- ReadU32(rest3);
    var (ids, rest5) :- ReadU32s(rest4, gl);
    Ok((IntIndex(ms, offsets, ids), rest5))
  }

  /** The records are written in full exactly when each of them has a hash. */
  lemma {:induction false} EncodeMinisAccepts(ms: seq<IntMini>)
    ensures EncodeMinis(ms).Ok? <==> forall k :: 0 <= k < |ms| ==> ms[k].hash.Some?
    ensures EncodeMinis(ms).Err? ==> EncodeMinis(ms).error == ArgumentNull
  {
    if ms != [] {
      EncodeMinisAccepts(ms[1..]);
      assert forall k :: 1 <= k < |ms| ==> ms[k] == ms[1..][k - 1];
    }
  }

  lemma MiniRoundTrip(m: IntMini, rest: seq<Cell>)
    requires m.hash.Some? && |m.hash.value| == HASH_BYTES
    ensures DecodeMini(EncodeMini(m).value + rest) == Ok((m, rest))
  {
    assert EncodeMini(m).value + rest == Bytes(m.hash.value) + ([Single(m.totalWeight)] + rest);
    BytesRoundTrip(m.hash.value, [Single(m.totalWeight)] + rest);
    assert ([Single(m.totalWeight)] + rest)[1..] == rest;
  }

  /** Records whose hashes are 16 bytes long read back as they were written. */
  predicate Reloadable(ms: seq<IntMini>) {
    forall k :: 0 <= k < |ms| ==> ms[k].hash.Some? && |ms[k].hash.value| == HASH_BYTES
  }

  lemma {:induction false} MinisRoundTrip(ms: seq<IntMini>, rest: seq<Cell>)
    requires Reloadable(ms)
    ensures EncodeMinis(ms).Ok?
    ensures DecodeMinis(EncodeMinis(ms).value + rest, |ms|) == Ok((ms, rest))
  {
    if ms == [] {
      assert EncodeMinis(ms).value + rest == rest;
    } else {
      assert Reloadable(ms[1..]) by {
        assert forall k :: 1 <= k < |ms| ==> ms[k] == ms[1..][k - 1];
      }
      MinisRoundTrip(ms[1..], rest);
      var head := EncodeMini(ms[0]).value;
      var tail := EncodeMinis(ms[1..]).value;
      assert EncodeMinis(ms).value + rest == head + (tail + rest);
      MiniRoundTrip(ms[0], tail + rest);
      assert [ms[0]] + ms[1..] == ms;
    }
  }

  /** Deserialize, one read after another. */
  lemma DecodeIndexSteps(s: seq<Cell>, t: u32, s1: seq<Cell>, ms: seq<IntMini>, s2: seq<Cell>, maxsid: u32, s3: seq<Cell>,
                         offsets: seq<u32>, s4: seq<Cell>, gl: u32, s5: seq<Cell>, ids: seq<u32>, s6: seq<Cell>)
    requires ReadU32(s) == Ok((t, s1)) && DecodeMinis(s1, t) == Ok((ms, s2))
    requires ReadU32(s2) == Ok((maxsid, s3)) && ReadU32s(s3, maxsid) == Ok((offsets, s4))
    requires ReadU32(s4) == Ok((gl, s5)) && ReadU32s(s5, gl) == Ok((ids, s6))
    ensures DecodeIndex(s) == Ok((IntIndex(ms, offsets, ids), s6))
  {
  }

  /**
   * Serialize then Deserialize restores every array exactly, the sentinel
   * offset included, when every record has a 16-byte hash.
   */
  lemma IndexRoundTrip(ix: IntIndex, rest: seq<Cell>)
    requires Countable(ix) && Reloadable(ix.signatures)
    ensures EncodeIndex(ix).Ok?
    ensures DecodeIndex(EncodeIndex(ix).value + rest) == Ok((ix, rest))
  {
    var ms := ix.signatures;
    MinisRoundTrip(ms, []);
    var records := EncodeMinis(ms).value;
    var tail4 := U32s(ix.columnIds) + rest;
    var tail3 := U32(|ix.columnIds|) + tail4;
    var tail2 := U32s(ix.offsets) + tail3;
    var tail1 := U32(|ix.offsets|) + tail2;
    var s := EncodeIndex(ix).value + rest;
    assert s == U32(|ms|) + (records + tail1) by {
      assert EncodeIndex(ix).value == U32(|ms|) + records + U32(|ix.offsets|) + U32s(ix.offsets) + U32(|ix.columnIds|) + U32s(ix.columnIds);
      HaarIndex.AppendFive(U32(|ms|), records, U32(|ix.offsets|), U32s(ix.offsets), U32(|ix.columnIds|), tail4);
    }
    U32RoundTrip(|ms|, records + tail1);
    MinisRoundTrip(ms, tail1);
    U32RoundTrip(|ix.offsets|, tail2);
    U32sRoundTrip(ix.offsets, tail3);
    U32RoundTrip(|ix.columnIds|, tail4);
    U32sRoundTrip(ix.columnIds, rest);
    DecodeIndexSteps(s, |ms|, records + tail1, ms, tail1, |ix.offsets|, tail2, ix.offsets, tail3,
      |ix.columnIds|, tail4, ix.columnIds, rest);
  }

  /** Writing the records one at a time: the first record, then the others behind it. */
  lemma EncodeMinisStep(out: seq<Cell>, ms: seq<IntMini>)
    requires ms != [] && EncodeMini(ms[0]).Ok?
    ensures HaarIndex.Preceded(out, EncodeMinis(ms)) == HaarIndex.Preceded(out + EncodeMini(ms[0]).value, EncodeMinis(ms[1..]))
  {
    var tail := EncodeMinis(ms[1..]);
    if tail.Ok? {
      assert out + (EncodeMini(ms[0]).value + tail.value) == (out + EncodeMini(ms[0]).value) + tail.value;
    }
  }

  /** The record loop of Serialize: the hash and the weight of each record in turn. */
  method WriteRecords(ms: seq<IntMini>) returns (r: Result<seq<Cell>>)
    ensures r == EncodeMinis(ms)
  {
    var out := [];
    assert EncodeMinis(ms).Ok? ==> [] + EncodeMinis(ms).value == EncodeMinis(ms).value;
    for i := 0 to |ms|
      invariant HaarIndex.Preceded(out, EncodeMinis(ms[i..])) == EncodeMinis(ms)
    {
      var m := ms[i];
      assert ms[i..][0] == m && ms[i..][1..] == ms[i + 1..];
      if m.hash.None? {
        return Err(ArgumentNull);
      }
      EncodeMinisStep(out, ms[i..]);
      assert out + Bytes(m.hash.value) + F32(m.totalWeight) == out + EncodeMini(m).value;
      out := out + Bytes(m.hash.value) + F32(m.totalWeight);
    }
    assert ms[|ms|..] == [] && out + [] == out;
    return Ok(out);
  }

  lemma DecodeMinisStep(s: seq<Cell>, n: nat)
    requires n > 0 && DecodeMini(s).Ok?
    ensures DecodeMinis(s, n) == Prepend([DecodeMini(s).value.0], DecodeMinis(DecodeMini(s).value.1, n - 1))
  {
  }

  /** The record loop of Deserialize: n records into a fresh array, one after the other. */
  method ReadRecords(s: seq<Cell>, n: nat) returns (r: Result<(seq<IntMini>, seq<Cell>)>)
    ensures r == DecodeMinis(s, n)
  {
    var minis := new IntMini[n](_ => IntMini(None, 0.0));
    var rest := s;
    assert minis[..0] == [];
    PrependAssoc([], [], DecodeMinis(s, n));
    for i := 0 to n
      invariant DecodeMinis(s, n) == Prepend(minis[..i], DecodeMinis(rest, n - i))
    {
      var m := DecodeMini(rest);
      if m.Err? {
        return Err(m.error);
      }
      ghost var before := minis[..i];
      DecodeMinisStep(rest, n - i);
      minis[i] := m.value.0;
      assert minis[..i + 1] == before + [m.value.0];
      PrependAssoc(before, [m.value.0], DecodeMinis(m.value.1, n - i - 1));
      rest := m.value.1;
    }
    assert minis[..n] + [] == minis[..];
    return Ok((minis[..], rest));
  }

  // ------------------------------------------------------------------ query

  /**
   * The coefficient match loop: for each query id in turn its
   * Get_Coeff_Weight is added to the accumulator of every candidate in the
   * id's row, once per entry.
   */
  function Accumulate(ix: IntIndex, kind: Kind, query: seq<u32>): (r: Result<seq<real>>)
    ensures r.Ok? ==> |r.value| == |ix.signatures|
    ensures r.Err? ==> r.error == IndexOutOfRange
    decreases |query|
  {
    if query == [] then Ok(Zeros(|ix.signatures|))
    else
      var acc :- Accumulate(ix, kind, query[..|query| - 1]);
      var q := query[|query| - 1];
      var weight :- CoeffWeightOf(kind, q);
      var row :- RowOf(ix.offsets, ix.columnIds, q);
      AddRow(acc, row, weight)
  }

  /** `new float[Signatures.Length]`: one accumulator per candidate, all zero. */
  function Zeros(n: nat): (z: seq<real>)
    ensures |z| == n && forall k :: 0 <= k < n ==> z[k] == 0.0
  {
    seq(n, _ => 0.0)
  }

  /** A query id the loop gets through: it has a weight, and its row reads and names only candidates. */
  predicate Readable(ix: IntIndex, kind: Kind, q: nat) {
    CoeffWeightOf(kind, q).Ok? && RowOf(ix.offsets, ix.columnIds, q).Ok? &&
    forall k :: 0 <= k < |RowOf(ix.offsets, ix.columnIds, q).value| ==>
      RowOf(ix.offsets, ix.columnIds, q).value[k] < |ix.signatures|
  }

  /** Σ over the query ids of the id's weight, once per entry of candidate i in the id's row. */
  function Matched(ix: IntIndex, kind: Kind, query: seq<u32>, i: nat): real
    requires forall j :: 0 <= j < |query| ==> Readable(ix, kind, query[j])
  {
    if query == [] then 0.0
    else
      var q := query[|query| - 1];
      assert Readable(ix, kind, q);
      Matched(ix, kind, query[..|query| - 1], i) +
        Times(Occurrences(RowOf(ix.offsets, ix.columnIds, q).value, i), CoeffWeightOf(kind, q).value)
  }

  /**
   * The match loop goes through exactly when every query id is readable
   * (an id at or past the number of offsets is an index error), and then
   * leaves each candidate's accumulator at its matched weight.
   */
  lemma {:induction false} AccumulateMeaning(ix: IntIndex, kind: Kind, query: seq<u32>)
    ensures Accumulate(ix, kind, query).Ok? <==> forall j :: 0 <= j < |query| ==> Readable(ix, kind, query[j])
    ensures (exists j :: 0 <= j < |query| && query[j] >= |ix.offsets|) ==> Accumulate(ix, kind, query).Err?
    ensures Accumulate(ix, kind, query).Ok? ==>
      forall i :: 0 <= i < |ix.signatures| ==> Accumulate(ix, kind, query).value[i] == Matched(ix, kind, query, i)
    decreases |query|
  {
    if query != [] {
      var init := query[..|query| - 1];
      var q := query[|query| - 1];
      AccumulateMeaning(ix, kind, init);
      assert forall j :: 0 <= j < |init| ==> init[j] == query[j];
      if Accumulate(ix, kind, init).Ok? && CoeffWeightOf(kind, q).Ok? && RowOf(ix.offsets, ix.columnIds, q).Ok? {
        var acc := Accumulate(ix, kind, init).value;
        var row := RowOf(ix.offsets, ix.columnIds, q).value;
        var w := CoeffWeightOf(kind, q).value;
        AddRowAccepts(acc, row, w);
        if AddRow(acc, row, w).Ok? {
          AddRowMeaning(acc, row, w);
        }
      }
    }
  }

  /**
   * The weight a query gives a signature with the given ids: the weight of
   * every query id, once per occurrence of that id among the signature's ids.
   */
  function Overlap(kind: Kind, query: seq<u32>, data: seq<u32>): real
    requires forall j :: 0 <= j < |query| ==> CoeffWeightOf(kind, query[j]).Ok?
  {
    if query == [] then 0.0
    else
      var q := query[|query| - 1];
      Overlap(kind, query[..|query| - 1], data) + Times(multiset(data)[q], CoeffWeightOf(kind, q).value)
  }

  lemma {:induction false} MatchedOverlap(vs: seq<SigValue>, kind: Kind, query: seq<u32>, i: nat)
    requires |vs| <= INT32_MAX && forall k :: 0 <= k < |vs| ==> Mirrorable(vs[k])
    requires TotalIds(HaarMatrix.SigDatas(vs)) <= INT32_MAX && i < |vs|
    requires forall j :: 0 <= j < |query| ==> Readable(Built(vs), kind, query[j])
    ensures Matched(Built(vs), kind, query, i) == Overlap(kind, query, vs[i].sigData)
    decreases |query|
  {
    if query != [] {
      var init := query[..|query| - 1];
      assert forall j :: 0 <= j < |init| ==> init[j] == query[j];
      MatchedOverlap(vs, kind, init, i);
      BuiltRows(vs, query[|query| - 1]);
    }
  }

  /**
   * Querying a built index: the match loop goes through exactly when every
   * query id has a weight and is below the number of offsets, and then
   * leaves each candidate at the weight its own ids share with the query.
   */
  lemma BuiltQuery(vs: seq<SigValue>, kind: Kind, query: seq<u32>)
    requires |vs| <= INT32_MAX && forall k :: 0 <= k < |vs| ==> Mirrorable(vs[k])
    requires TotalIds(HaarMatrix.SigDatas(vs)) <= INT32_MAX
    ensures Accumulate(Built(vs), kind, query).Ok? <==>
      forall j :: 0 <= j < |query| ==> query[j] < |Built(vs).offsets| && CoeffWeightOf(kind, query[j]).Ok?
    ensures Accumulate(Built(vs), kind, query).Ok? ==>
      forall i :: 0 <= i < |vs| ==> Accumulate(Built(vs), kind, query).value[i] == Overlap(kind, query, vs[i].sigData)
  {
    AccumulateMeaning(Built(vs), kind, query);
    forall j | 0 <= j < |query| && query[j] < |Built(vs).offsets|
      ensures RowOf(Built(vs).offsets, Built(vs).columnIds, query[j]).Ok?
      ensures forall k :: 0 <= k < |RowOf(Built(vs).offsets, Built(vs).columnIds, query[j]).value| ==>
        RowOf(Built(vs).offsets, Built(vs).columnIds, query[j]).value[k] < |vs|
    {
      BuiltRows(vs, query[j]);
    }
    if Accumulate(Built(vs), kind, query).Ok? {
      forall i | 0 <= i < |vs|
        ensures Matched(Built(vs), kind, query, i) == Overlap(kind, query, vs[i].sigData)
      {
        MatchedOverlap(vs, kind, query, i);
      }
    }
  }

  /** Candidate i passes the single test of the result loop: value / max above the limit, with no average test. */
  predicate Keeps(m: IntMini, value: real, queryWeight: real, limit: real) {
    Exceeds(value, queryWeight + m.totalWeight - value, limit)
  }

  /** The IntegerQueryResult reported for a candidate: lower-case hex hash, value and max. */
  function Report(m: IntMini, value: real, queryWeight: real): QueryResult
    requires m.hash.Some?
  {
    IntegerResult(LowerHex(m.hash.value), value, queryWeight + m.totalWeight - value)
  }

  /** The candidates below n that the result loop keeps, in ascending order. */
  function Kept(ms: seq<IntMini>, w: seq<real>, queryWeight: real, limit: real, n: nat): (ks: seq<nat>)
    requires n <= |ms| == |w|
    ensures forall j :: 0 <= j < |ks| ==> ks[j] < n && Keeps(ms[ks[j]], w[ks[j]], queryWeight, limit)
    ensures forall j, l :: 0 <= j < l < |ks| ==> ks[j] < ks[l]
    ensures forall i :: 0 <= i < n && Keeps(ms[i], w[i], queryWeight, limit) ==> i in ks
  {
    if n == 0 then []
    else
      var ks := Kept(ms, w, queryWeight, limit, n - 1);
      if Keeps(ms[n - 1], w[n - 1], queryWeight, limit) then ks + [n - 1] else ks
  }

  /** The result loop over the first n candidates; printing a kept candidate without a hash throws. */
  function Results(ms: seq<IntMini>, w: seq<real>, queryWeight: real, limit: real, n: nat): Result<seq<QueryResult>>
    requires n <= |ms| == |w|
  {
    if n == 0 then Ok([])
    else
      var rs :- Results(ms, w, queryWeight, limit, n - 1);
      var i := n - 1;
      if !Keeps(ms[i], w[i], queryWeight, limit) then Ok(rs)
      else if ms[i].hash.None? then Err(ArgumentNull)
      else Ok(rs + [Report(ms[i], w[i], queryWeight)])
  }

  /**
   * The result loop reports exactly the kept candidates, in ascending order;
   * it fails, with ArgumentNullException, exactly when one of them has no hash.
   */
  lemma {:induction false} ResultsMeaning(ms: seq<IntMini>, w: seq<real>, queryWeight: real, limit: real, n: nat)
    requires n <= |ms| == |w|
    ensures Results(ms, w, queryWeight, limit, n).Ok? <==>
      forall j :: 0 <= j < |Kept(ms, w, queryWeight, limit, n)| ==> ms[Kept(ms, w, queryWeight, limit, n)[j]].hash.Some?
    ensures Results(ms, w, queryWeight, limit, n).Err? ==> Results(ms, w, queryWeight, limit, n).error == ArgumentNull
    ensures Results(ms, w, queryWeight, limit, n).Ok? ==>
      var ks := Kept(ms, w, queryWeight, limit, n);
      var rs := Results(ms, w, queryWeight, limit, n).value;
      |rs| == |ks| && forall j :: 0 <= j < |ks| ==> rs[j] == Report(ms[ks[j]], w[ks[j]], queryWeight)
  {
    if n > 0 {
      ResultsMeaning(ms, w, queryWeight, limit, n - 1);
      var ks := Kept(ms, w, queryWeight, limit, n - 1);
      var i := n - 1;
      if Keeps(ms[i], w[i], queryWeight, limit) {
        assert Kept(ms, w, queryWeight, limit, n) == ks + [i];
        if Results(ms, w, queryWeight, limit, n - 1).Ok? && ms[i].hash.Some? {
          var rs := Results(ms, w, queryWeight, limit, n - 1).value;
          assert Results(ms, w, queryWeight, limit, n).value == rs + [Report(ms[i], w[i], queryWeight)];
        }
      } else {
        assert Kept(ms, w, queryWeight, limit, n) == ks;
      }
    }
  }

  /** ExecuteQuery: the coefficient match, the query's Sum_Weights, then the result loop. */
  function Query(ix: IntIndex, q: SigValue, limit: real): (r: Result<seq<QueryResult>>)
    ensures r.Ok? ==> forall k :: 0 <= k < |r.value| ==>
      r.value[k].IntegerResult? && Exceeds(r.value[k].metricValue, r.value[k].metricMax, limit)
  {
    var w :- Accumulate(ix, q.kind, q.sigData);
    var queryWeight :- SumWeightsOf(q);
    ResultsMeaning(ix.signatures, w, queryWeight, limit, |ix.signatures|);
    Results(ix.signatures, w, queryWeight, limit, |ix.signatures|)
  }

  /**
   * An index built from signatures with 16-byte hashes survives Serialize
   * and Deserialize unchanged, so what is read back answers every query as
   * the built index does.
   */
  lemma SavedIndexAnswersAlike(vs: seq<SigValue>, q: SigValue, limit: real, rest: seq<Cell>)
    requires |vs| <= INT32_MAX && Build(vs).Ok?
    requires forall k :: 0 <= k < |vs| ==> vs[k].hash.Some? && |vs[k].hash.value| == HASH_BYTES
    ensures Countable(Built(vs)) && EncodeIndex(Built(vs)).Ok?
    ensures DecodeIndex(EncodeIndex(Built(vs)).value + rest) == Ok((Built(vs), rest))
    ensures Query(DecodeIndex(EncodeIndex(Built(vs)).value + rest).value.0, q, limit) == Query(Built(vs), q, limit)
  {
    PostedCount(vs);
    assert |Built(vs).offsets| == MaxCoeff(vs) + 2;
    assert forall k :: 0 <= k < |vs| ==> Built(vs).signatures[k] == Mirror(vs[k]);
    IndexRoundTrip(Built(vs), rest);
  }

  // ------------------------------------------------------------ the loops

  /** Once the loop over the first j query ids has failed, the whole query fails the same way. */
  lemma {:induction false} AccumulateFails(ix: IntIndex, kind: Kind, query: seq<u32>, j: nat)
    requires j <= |query| && Accumulate(ix, kind, query[..j]).Err?
    ensures Accumulate(ix, kind, query) == Err(IndexOutOfRange)
    decreases |query| - j
  {
    if j < |query| {
      assert query[..j + 1][..j] == query[..j];
      AccumulateFails(ix, kind, query, j + 1);
    } else {
      assert query[..j] == query;
    }
  }

  /** The coefficient match loop of ExecuteQuery: each query id's weight, then its row walk. */
  method AccumulateLoop(ix: IntIndex, kind: Kind, query: seq<u32>) returns (r: Result<seq<real>>)
    ensures r == Accumulate(ix, kind, query)
  {
    var matches := new real[|ix.signatures|](_ => 0.0);
    assert query[..0] == [] && matches[..] == Zeros(|ix.signatures|);
    for j := 0 to |query|
      invariant Accumulate(ix, kind, query[..j]) == Ok(matches[..])
    {
      assert query[..j + 1][..j] == query[..j];
      var coeff := query[j];
      var weight := CoeffWeightOf(kind, coeff);
      if weight.Err? || coeff >= |ix.offsets| {
        AccumulateFails(ix, kind, query, j + 1);
        return Err(IndexOutOfRange);
      }
      var ok := HaarIndex.AddRange(matches, ix.offsets, ix.columnIds, coeff, weight.value);
      if !ok {
        AccumulateFails(ix, kind, query, j + 1);
        return Err(IndexOutOfRange);
      }
    }
    assert query[..|query|] == query;
    return Ok(matches[..]);
  }

  /** Once the result loop has failed on the first n candidates, it fails the same way on all of them. */
  lemma {:induction false} ResultsFail(ms: seq<IntMini>, w: seq<real>, queryWeight: real, limit: real, n: nat, m: nat)
    requires n <= m <= |ms| == |w| && Results(ms, w, queryWeight, limit, n).Err?
    ensures Results(ms, w, queryWeight, limit, m) == Results(ms, w, queryWeight, limit, n)
    decreases m - n
  {
    if n < m {
      ResultsFail(ms, w, queryWeight, limit, n, m - 1);
    }
  }

  /** The result loop: every candidate in order, appending the kept ones to the result list. */
  method ResultsLoop(ms: seq<IntMini>, w: seq<real>, queryWeight: real, limit: real) returns (r: Result<seq<QueryResult>>)
    requires |ms| == |w|
    ensures r == Results(ms, w, queryWeight, limit, |ms|)
  {
    var v := [];
    for i := 0 to |ms|
      invariant Results(ms, w, queryWeight, limit, i) == Ok(v)
    {
      if Keeps(ms[i], w[i], queryWeight, limit) {
        if ms[i].hash.None? {
          ResultsFail(ms, w, queryWeight, limit, i + 1, |ms|);
          return Err(ArgumentNull);
        }
        v := v + [Report(ms[i], w[i], queryWeight)];
      }
    }
    return Ok(v);
  }

  /** Sum_Weights called on a signature: the Haar loop over the weight table, or the id count. */
  method SumWeightsCall(v: SigValue) returns (r: Result<real>)
    ensures r == SumWeightsOf(v)
  {
    if v.kind.HaarKind? {
      r := SumWeights(v.sigData);
    } else {
      r := Ok(|v.sigData| as real);
    }
  }

  /** ExecuteQuery over the matrix's arrays: the match loop, Sum_Weights, then the result loop. */
  method QueryLoop(ix: IntIndex, q: SigValue, limit: real) returns (r: Result<seq<QueryResult>>)
    ensures r == Query(ix, q, limit)
  {
    var w := AccumulateLoop(ix, q.kind, q.sigData);
    if w.Err? {
      return Err(w.error);
    }
    var queryWeight := SumWeightsCall(q);
    if queryWeight.Err? {
      return Err(queryWeight.error);
    }
    r := ResultsLoop(ix.signatures, w.value, queryWeight.value, limit);
  }

  // -------------------------------------------------------------- the build

  /** The mirrors of the first |minis| signatures, each of which the mirror loop accepts. */
  predicate MirroredBy(minis: seq<IntMini>, vs: seq<SigValue>)
    requires |minis| <= |vs|
  {
    minis == [] ||
    (var n := |minis| - 1; MirroredBy(minis[..n], vs) && Mirrorable(vs[n]) && minis[n] == Mirror(vs[n]))
  }

  lemma MirroredBySnoc(minis: seq<IntMini>, vs: seq<SigValue>, m: IntMini)
    requires |minis| < |vs| && MirroredBy(minis, vs)
    requires Mirrorable(vs[|minis|]) && m == Mirror(vs[|minis|])
    ensures MirroredBy(minis + [m], vs)
  {
    assert (minis + [m])[..|minis|] == minis;
  }

  lemma {:induction false} MirroredByMeaning(minis: seq<IntMini>, vs: seq<SigValue>)
    requires |minis| <= |vs| && MirroredBy(minis, vs)
    ensures forall k :: 0 <= k < |minis| ==> Mirrorable(vs[k]) && minis[k] == Mirror(vs[k])
  {
    if minis != [] {
      MirroredByMeaning(minis[..|minis| - 1], vs);
    }
  }

  /** Once a prefix is refused, the whole list is refused with the same error. */
  lemma {:induction false} MirrorErrorPrefix(vs: seq<SigValue>, n: nat)
    requires n <= |vs| && MirrorError(vs[..n]).Some?
    ensures MirrorError(vs) == MirrorError(vs[..n])
    decreases |vs| - n
  {
    if n < |vs| {
      assert vs[..n + 1][..n] == vs[..n];
      MirrorErrorPrefix(vs, n + 1);
    } else {
      assert vs[..n] == vs;
    }
  }

  /** The signature at position i is refused, the ones before it are not. */
  lemma RefusedAt(vs: seq<SigValue>, i: nat)
    requires i < |vs| && !Mirrorable(vs[i]) && forall k :: 0 <= k < i ==> Mirrorable(vs[k])
    ensures MirrorError(vs) == Some(if SumWeightsOf(vs[i]).Err? then IndexOutOfRange else InvalidOperation)
  {
    var p := vs[..i + 1];
    assert p[..|p| - 1] == vs[..i] && p[|p| - 1] == vs[i];
    assert forall k :: 0 <= k < i ==> Mirrorable(vs[..i][k]);
    assert MirrorError(vs[..i]) == None;
    MirrorErrorPrefix(vs, i + 1);
  }

  /**
   * One pass of the mirror loop: `sig.ID = sigid`, the mirror with
   * Sum_Weights, then `SigData.Max()`.
   */
  method MirrorOne(sig: Signature, sigid: u32) returns (r: Result<IntMini>)
    modifies sig`id
    ensures sig.id == sigid
    ensures r.Err? <==> !Mirrorable(sig.Value())
    ensures r.Err? ==> r.error == if SumWeightsOf(sig.Value()).Err? then IndexOutOfRange else InvalidOperation
    ensures r.Ok? ==> r.value == Mirror(sig.Value())
  {
    sig.SetId(sigid);
    var total := SumWeightsCall(sig.Value());
    if total.Err? {
      return Err(IndexOutOfRange);
    }
    if sig.sigData == [] {
      return Err(InvalidOperation);
    }
    return Ok(IntMini(sig.hash, total.value));
  }

  /** One pass of the mirror loop over the list: MirrorOne on position i, whatever objects the list repeats. */
  method MirrorStep(sigs: seq<Signature>, i: nat, sig: Signature, ghost vs: seq<SigValue>) returns (r: Result<IntMini>)
    requires i < |sigs| <= INT32_MAX && |vs| == |sigs| && sig == sigs[i]
    requires sig.hash == vs[i].hash && sig.sigData == vs[i].sigData && sig.kind == vs[i].kind
    requires forall k :: 0 <= k < i ==> sigs[k].id == HaarMatrix.LastIndex(sigs, k, i)
    modifies sig`id
    ensures r.Err? <==> !Mirrorable(vs[i])
    ensures r.Err? ==> r.error == if SumWeightsOf(vs[i]).Err? then IndexOutOfRange else InvalidOperation
    ensures r.Ok? ==> r.value == Mirror(vs[i])
    ensures forall k :: 0 <= k < i + 1 ==> sigs[k].id == HaarMatrix.LastIndex(sigs, k, i + 1)
  {
    r := MirrorOne(sig, i as u32);
    assert sigs[i].Value() == vs[i].(id := sigs[i].id);
  }

  /**
   * One pass of the mirror loop with what it has built so far: the mirrors
   * of the signatures before i and max_coeff over them, extended by
   * signature i, or the build's error when signature i is refused.
   */
  method MirrorNext(sigs: seq<Signature>, i: nat, sig: Signature, ghost vs: seq<SigValue>, minis: seq<IntMini>, maxCoeff: u32)
    returns (r: Result<(seq<IntMini>, u32)>)
    requires i < |sigs| <= INT32_MAX && |vs| == |sigs| && sig == sigs[i]
    requires sig.hash == vs[i].hash && sig.sigData == vs[i].sigData && sig.kind == vs[i].kind
    requires |minis| == i && MirroredBy(minis, vs) && maxCoeff == MaxCoeff(vs[..i])
    requires forall k :: 0 <= k < i ==> sigs[k].id == HaarMatrix.LastIndex(sigs, k, i)
    modifies sig`id
    ensures r.Err? ==> MirrorError(vs) == Some(r.error)
    ensures r.Ok? ==> |r.value.0| == i + 1 && MirroredBy(r.value.0, vs) && r.value.1 == MaxCoeff(vs[..i + 1])
    ensures forall k :: 0 <= k < i + 1 ==> sigs[k].id == HaarMatrix.LastIndex(sigs, k, i + 1)
  {
    var m := MirrorStep(sigs, i, sig, vs);
    if m.Err? {
      MirroredByMeaning(minis, vs);
      RefusedAt(vs, i);
      return Err(m.error);
    }
    MirroredBySnoc(minis, vs, m.value);
    var raised := RaiseMax(maxCoeff, sig.sigData, vs, i);
    return Ok((minis + [m.value], raised));
  }

  /**
   * The mirror loop of FromSignatures: each signature gets its index as ID,
   * is mirrored, and raises max_coeff to its largest id.
   */
  method MirrorLoop(sigs: seq<Signature>, ghost vs: seq<SigValue>) returns (r: Result<(seq<IntMini>, u32)>)
    requires |sigs| <= INT32_MAX && |vs| == |sigs|
    requires forall k :: 0 <= k < |sigs| ==> sigs[k].Value() == vs[k]
    modifies sigs`id
    ensures r.Err? ==> MirrorError(vs) == Some(r.error)
    ensures r.Ok? ==> forall k :: 0 <= k < |vs| ==> Mirrorable(vs[k])
    ensures r.Ok? ==> r.value.0 == Mirrors(vs) && r.value.1 == MaxCoeff(vs)
    ensures r.Ok? ==> forall k :: 0 <= k < |sigs| ==> sigs[k].id == HaarMatrix.LastIndex(sigs, k, |sigs|)
  {
    var minis: seq<IntMini> := [];
    var maxCoeff: u32 := 0;
    var i := 0;
    while i < |sigs|
      invariant 0 <= i <= |sigs|
      invariant forall k :: 0 <= k < |sigs| ==>
        sigs[k].hash == vs[k].hash && sigs[k].sigData == vs[k].sigData && sigs[k].kind == vs[k].kind
      invariant |minis| == i && MirroredBy(minis, vs)
      invariant maxCoeff == MaxCoeff(vs[..i])
      invariant forall k :: 0 <= k < i ==> sigs[k].id == HaarMatrix.LastIndex(sigs, k, i)
    {
      var next := MirrorNext(sigs, i, sigs[i], vs, minis, maxCoeff);
      if next.Err? {
        return Err(next.error);
      }
      minis, maxCoeff := next.value.0, next.value.1;
      i := i + 1;
    }
    assert vs[..i] == vs;
    MirroredByMeaning(minis, vs);
    return Ok((minis, maxCoeff));
  }

  /** `max_coeff = Math.Max(max_coeff, sig.SigData.Max())` for signature i. */
  method RaiseMax(m: u32, ids: seq<u32>, ghost vs: seq<SigValue>, ghost i: nat) returns (r: u32)
    requires i < |vs| && ids == vs[i].sigData != []
    requires m == MaxCoeff(vs[..i])
    ensures r == MaxCoeff(vs[..i + 1])
  {
    assert vs[..i + 1][..i] == vs[..i];
    var largest := Largest(ids);
    r := if largest > m then largest else m;
  }

  /** The distribution loop: each signature's index appended to the list of each of its ids, in order. */
  method DistributeAll(sigs: seq<Signature>, ghost data: seq<seq<u32>>, n: nat) returns (lists: array<seq<u32>>)
    requires |sigs| == |data| <= INT32_MAX && forall k :: 0 <= k < |sigs| ==> sigs[k].sigData == data[k]
    requires IdsBelow(data, n)
    ensures fresh(lists) && lists.Length == n
    ensures forall c :: 0 <= c < n ==> lists[c] == Postings(Entries(data), c)
  {
    lists := new seq<u32>[n](_ => []);
    ghost var es: seq<Entry> := [];
    assert data[..0] == [];
    for i := 0 to |sigs|
      invariant es == Entries(data[..i])
      invariant forall c :: 0 <= c < n ==> lists[c] == Postings(es, c)
    {
      assert forall j :: 0 <= j < |data[i]| ==> data[i][j] < n;
      DistributeIds(lists, es, i as u32, sigs[i].sigData);
      EntriesSnoc(data, i);
      es := es + Tagged(i as u32, data[i]);
    }
    assert data[..|sigs|] == data;
  }

  /** The list array `temp` after the distribution loop: max_coeff + 1 posting lists. */
  method PostAll(sigs: seq<Signature>, ghost vs: seq<SigValue>, maxCoeff: u32) returns (lists: seq<seq<u32>>)
    requires |sigs| == |vs| <= INT32_MAX && forall k :: 0 <= k < |sigs| ==> sigs[k].sigData == vs[k].sigData
    requires forall k :: 0 <= k < |vs| ==> Mirrorable(vs[k])
    requires maxCoeff == MaxCoeff(vs) < INT32_MAX
    ensures lists == PostingLists(vs)
  {
    IdsBelowMax(vs);
    var a := DistributeAll(sigs, HaarMatrix.SigDatas(vs), maxCoeff as nat + 1);
    lists := a[..];
  }

  /**
   * The build of FromSignatures with every row flattened: each signature
   * gets its position as ID and is otherwise unchanged; the first refused
   * signature, a list array the int cast spoils, or arrays too long to
   * allocate are an exception.
   */
  method BuildIndex(sigs: seq<Signature>) returns (r: Result<IntIndex>)
    requires |sigs| <= INT32_MAX
    modifies sigs`id
    ensures forall k :: 0 <= k < |sigs| ==> sigs[k].Value() == old(sigs[k].Value()).(id := sigs[k].id)
    ensures r.Err? ==> Build(old(HaarMatrix.Values(sigs))) == Err(r.error)
    ensures r.Ok? ==> Build(old(HaarMatrix.Values(sigs))) == Ok(r.value)
    ensures r.Ok? ==> forall k :: 0 <= k < |sigs| ==> sigs[k].id == HaarMatrix.LastIndex(sigs, k, |sigs|)
  {
    ghost var vs := HaarMatrix.Values(sigs);
    var m := MirrorLoop(sigs, vs);
    if m.Err? {
      return Err(m.error);
    }
    var (minis, maxCoeff) := m.value;
    var e := ListsError(maxCoeff);
    if e.Some? {
      return Err(e.value);
    }
    if maxCoeff as int + 2 > INT32_MAX {
      return Err(OutOfMemory);
    }
    var lists := PostAll(sigs, vs, maxCoeff);
    var nz := CountEntries(lists);
    assert nz == TotalIds(HaarMatrix.SigDatas(vs)) by {
      PostedCount(vs);
    }
    var wrapped := nz % 0x1_0000_0000;
    if wrapped > INT32_MAX {
      return Err(OutOfMemory);
    }
    if wrapped < nz {
      return Err(IndexOutOfRange);
    }
    var offsets, columnIds := FlattenLists(lists, nz);
    return Ok(IntIndex(minis, offsets, columnIds));
  }

  // ------------------------------------------------------------ the matrix

  /** IntegerQuerySparseMatrix. */
  class IntegerQuerySparseMatrix {
    var signatures: seq<IntMini>   // Signatures
    var offsets: seq<u32>          // row_id_offsets
    var columnIds: seq<u32>        // column_ids

    function State(): IntIndex
      reads this
    {
      IntIndex(signatures, offsets, columnIds)
    }

    constructor Of(ix: IntIndex)
      ensures State() == ix
    {
      signatures, offsets, columnIds := ix.signatures, ix.offsets, ix.columnIds;
    }

    /** FromSignatures: the matrix of BuildIndex. */
    static method FromSignatures(sigs: seq<Signature>) returns (r: Result<IntegerQuerySparseMatrix>)
      requires |sigs| <= INT32_MAX
      modifies sigs`id
      ensures forall k :: 0 <= k < |sigs| ==> sigs[k].Value() == old(sigs[k].Value()).(id := sigs[k].id)
      ensures r.Err? ==> Build(old(HaarMatrix.Values(sigs))) == Err(r.error)
      ensures r.Ok? ==> fresh(r.value) && Build(old(HaarMatrix.Values(sigs))) == Ok(r.value.State())
      ensures r.Ok? ==> forall k :: 0 <= k < |sigs| ==> sigs[k].id == HaarMatrix.LastIndex(sigs, k, |sigs|)
    {
      var ix := BuildIndex(sigs);
      if ix.Err? {
        return Err(ix.error);
      }
      var m := new IntegerQuerySparseMatrix.Of(ix.value);
      return Ok(m);
    }

    /**
     * Serialize: the record count and records, the offset count and every
     * offset, the column id count and every id; a record without a hash is
     * an exception.
     */
    method Serialize() returns (r: Result<seq<Cell>>)
      requires Countable(State())
      ensures r == EncodeIndex(State())
    {
      var records := WriteRecords(signatures);
      if records.Err? {
        return Err(records.error);
      }
      var rows := WriteU32s(offsets);
      var ids := WriteU32s(columnIds);
      return Ok(U32(|signatures|) + records.value + U32(|offsets|) + rows + U32(|columnIds|) + ids);
    }

    /**
     * Deserialize: replaces the three arrays with what the stream holds and
     * hands back the unread rest; a short or malformed stream is an exception.
     */
    method Deserialize(s: seq<Cell>) returns (r: Result<seq<Cell>>)
      modifies this
      ensures r.Err? ==> DecodeIndex(s) == Err(r.error)
      ensures r.Ok? ==> DecodeIndex(s) == Ok((State(), r.value))
    {
      var count := ReadU32(s);
      if count.Err? {
        return Err(count.error);
      }
      var records := ReadRecords(count.value.1, count.value.0);
      if records.Err? {
        return Err(records.error);
      }
      var maxsid := ReadU32(records.value.1);
      if maxsid.Err? {
        return Err(maxsid.error);
      }
      var rows := ReadWordArray(maxsid.value.1, maxsid.value.0);
      if rows.Err? {
        return Err(rows.error);
      }
      var length := ReadU32(rows.value.1);
      if length.Err? {
        return Err(length.error);
      }
      var ids := ReadWordArray(length.value.1, length.value.0);
      if ids.Err? {
        return Err(ids.error);
      }
      signatures, offsets, columnIds := records.value.0, rows.value.0, ids.value.0;
      return Ok(ids.value.1);
    }

    /** ExecuteQuery: the integer results for the query at the given limit. */
    method ExecuteQuery(query: Signature, limit: real) returns (r: Result<seq<QueryResult>>)
      ensures r == Query(State(), query.Value(), limit)
    {
      r := QueryLoop(State(), query.Value(), limit);
    }
  }
}
