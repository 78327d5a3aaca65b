/**
 * The compressed sparse row layout shared by the inverted indexes
 * (iqdb/HaarQuerySparseMatrix.cs, iqdb/DiskHaarQuerySparseMatrix.cs,
 * iqdb/IntegerQuerySparseMatrix.cs): for each coefficient the list of the
 * signatures that hold it, stored as `row_id_offsets` into one flat
 * `column_ids` array.
 */
module Csr {
  import opened Wire

  /** One coefficient of one signature, as the builders distribute them. */
  datatype Entry = Entry(sigid: u32, coeff: u32)

  /** The ids of the signature at index `sigid`, tagged with that index. */
  function Tagged(sigid: u32, ids: seq<u32>): (es: seq<Entry>)
    ensures |es| == |ids| && forall k :: 0 <= k < |ids| ==> es[k] == Entry(sigid, ids[k])
  {
    seq(|ids|, k requires 0 <= k < |ids| => Entry(sigid, ids[k]))
  }

  /** Every entry in the order the builders visit them: signature by signature, each one's ids in stored order. */
  function Entries(data: seq<seq<u32>>): (es: seq<Entry>)
    requires |data| <= 0x1_0000_0000
    ensures forall k :: 0 <= k < |es| ==> es[k].sigid < |data|
  {
    if data == [] then [] else Entries(data[..|data| - 1]) + Tagged(|data| - 1, data[|data| - 1])
  }

  /** The entries of one more signature follow those before it. */
  lemma EntriesSnoc(data: seq<seq<u32>>, i: nat)
    requires i < |data| <= 0x1_0000_0000
    ensures Entries(data[..i + 1]) == Entries(data[..i]) + Tagged(i, data[i])
  {
    assert data[..i + 1][..i] == data[..i];
  }

  /** Every id of every signature is below n. */
  predicate IdsBelow(data: seq<seq<u32>>, n: nat) {
    forall i, j :: 0 <= i < |data| && 0 <= j < |data[i]| ==> data[i][j] < n
  }

  lemma {:induction false} EntriesBelow(data: seq<seq<u32>>, n: nat)
    requires |data| <= 0x1_0000_0000 && IdsBelow(data, n)
    ensures CoeffsBelow(Entries(data), n)
  {
    if data != [] {
      assert IdsBelow(data[..|data| - 1], n);
      EntriesBelow(data[..|data| - 1], n);
    }
  }

  /** The number of ids over all signatures. */
  function TotalIds(data: seq<seq<u32>>): nat {
    if data == [] then 0 else TotalIds(data[..|data| - 1]) + |data[|data| - 1]|
  }

  lemma {:induction false} EntriesLength(data: seq<seq<u32>>)
    requires |data| <= 0x1_0000_0000
    ensures |Entries(data)| == TotalIds(data)
  {
    if data != [] {
      EntriesLength(data[..|data| - 1]);
    }
  }

  /** The posting list of coefficient c: the signature index of every entry with that coefficient, in order. */
  function Postings(es: seq<Entry>, c: nat): seq<u32> {
    if es == [] then []
    else Postings(es[..|es| - 1], c) + (if es[|es| - 1].coeff == c then [es[|es| - 1].sigid] else [])
  }

  /** The posting lists of coefficients 0 to n - 1 (`sigids_for`, a missing list read as an empty one). */
  function Lists(es: seq<Entry>, n: nat): (lists: seq<seq<u32>>)
    ensures |lists| == n && forall c :: 0 <= c < n ==> lists[c] == Postings(es, c)
  {
    seq(n, c requires 0 <= c < n => Postings(es, c))
  }

  predicate CoeffsBelow(es: seq<Entry>, n: nat) {
    forall k :: 0 <= k < |es| ==> es[k].coeff < n
  }

  lemma {:induction false} PostingsAppend(a: seq<Entry>, b: seq<Entry>, c: nat)
    ensures Postings(a + b, c) == Postings(a, c) + Postings(b, c)
    decreases |b|
  {
    if b == [] {
      assert a + b == a;
    } else {
      var b' := b[..|b| - 1];
      assert (a + b)[..|a + b| - 1] == a + b';
      PostingsAppend(a, b', c);
    }
  }

  /** One more entry extends its coefficient's posting list and no other. */
  lemma PostingsSnoc(es: seq<Entry>, e: Entry, c: nat)
    ensures Postings(es + [e], c) == Postings(es, c) + if e.coeff == c then [e.sigid] else []
  {
    assert (es + [e])[..|es|] == es;
  }

  function Repeat(x: u32, n: nat): (s: seq<u32>)
    ensures |s| == n && forall k :: 0 <= k < n ==> s[k] == x
  {
    seq(n, _ => x)
  }

  lemma {:induction false} RepeatCount(x: u32, n: nat)
    ensures multiset(Repeat(x, n)) == multiset{}[x := n]
  {
    if n > 0 {
      RepeatCount(x, n - 1);
      assert Repeat(x, n) == Repeat(x, n - 1) + [x];
    }
  }

  /** The inner foreach of a build: the signature's index appended to the list of each of its ids. */
  method DistributeIds(lists: array<seq<u32>>, ghost es: seq<Entry>, sigid: u32, ids: seq<u32>)
    requires forall k :: 0 <= k < |ids| ==> ids[k] < lists.Length
    requires forall c :: 0 <= c < lists.Length ==> lists[c] == Postings(es, c)
    modifies lists
    ensures forall c :: 0 <= c < lists.Length ==> lists[c] == Postings(es + Tagged(sigid, ids), c)
  {
    assert es + Tagged(sigid, ids[..0]) == es;
    for j := 0 to |ids|
      invariant forall c :: 0 <= c < lists.Length ==> lists[c] == Postings(es + Tagged(sigid, ids[..j]), c)
    {
      ghost var before := es + Tagged(sigid, ids[..j]);
      assert es + Tagged(sigid, ids[..j + 1]) == before + [Entry(sigid, ids[j])];
      forall c | 0 <= c < lists.Length
        ensures Postings(before + [Entry(sigid, ids[j])], c) == Postings(before, c) + if ids[j] == c then [sigid] else []
      {
        PostingsSnoc(before, Entry(sigid, ids[j]), c);
      }
      lists[ids[j]] := lists[ids[j]] + [sigid];
    }
    assert ids[..|ids|] == ids;
  }

  /** One signature's entries post its index once per occurrence of the coefficient. */
  lemma {:induction false} PostingsOfTagged(sigid: u32, ids: seq<u32>, c: nat)
    ensures Postings(Tagged(sigid, ids), c) == Repeat(sigid, multiset(ids)[c])
  {
    if ids != [] {
      var init := ids[..|ids| - 1];
      assert Tagged(sigid, ids)[..|ids| - 1] == Tagged(sigid, init);
      assert ids == init + [ids[|ids| - 1]];
      PostingsOfTagged(sigid, init, c);
    }
  }

  predicate NonDecreasing(s: seq<u32>) {
    forall k, l :: 0 <= k < l < |s| ==> s[k] <= s[l]
  }

  /** The posting list of the signatures before the last, then the last signature's postings. */
  lemma PostingsOfLast(data: seq<seq<u32>>, c: nat)
    requires 0 < |data| <= 0x1_0000_0000
    ensures Postings(Entries(data), c) == Postings(Entries(data[..|data| - 1]), c) + Repeat(|data| - 1, multiset(data[|data| - 1])[c])
  {
    var n := |data| - 1;
    PostingsAppend(Entries(data[..n]), Tagged(n, data[n]), c);
    PostingsOfTagged(n, data[n], c);
  }

  /** A posting list names signatures that exist. */
  lemma {:induction false} PostingsBelow(data: seq<seq<u32>>, c: nat)
    requires |data| <= 0x1_0000_0000
    ensures forall k :: 0 <= k < |Postings(Entries(data), c)| ==> Postings(Entries(data), c)[k] < |data|
  {
    if data != [] {
      var n := |data| - 1;
      PostingsBelow(data[..n], c);
      PostingsOfLast(data, c);
    }
  }

  /** A posting list is in ascending signature order. */
  lemma {:induction false} PostingsSorted(data: seq<seq<u32>>, c: nat)
    requires |data| <= 0x1_0000_0000
    ensures NonDecreasing(Postings(Entries(data), c))
  {
    if data != [] {
      var n := |data| - 1;
      var front := Postings(Entries(data[..n]), c);
      var last := Repeat(n, multiset(data[n])[c]);
      PostingsSorted(data[..n], c);
      PostingsBelow(data[..n], c);
      PostingsOfLast(data, c);
      var p := front + last;
      forall k, l | 0 <= k < l < |p|
        ensures p[k] <= p[l]
      {
        if l < |front| {
          assert p[k] == front[k] && p[l] == front[l];
        } else if k < |front| {
          assert p[k] == front[k] && p[l] == last[l - |front|];
        } else {
          assert p[k] == last[k - |front|] && p[l] == last[l - |front|];
        }
      }
    }
  }

  /** A posting list names signature i as often as c occurs in its ids. */
  lemma {:induction false} PostingsCounts(data: seq<seq<u32>>, c: nat)
    requires |data| <= 0x1_0000_0000
    ensures forall i :: 0 <= i < |data| ==> multiset(Postings(Entries(data), c))[i] == multiset(data[i])[c]
  {
    if data != [] {
      var n := |data| - 1;
      var front := Postings(Entries(data[..n]), c);
      var last := Repeat(n, multiset(data[n])[c]);
      PostingsCounts(data[..n], c);
      PostingsBelow(data[..n], c);
      PostingsOfLast(data, c);
      assert multiset(last) == multiset{}[n := multiset(data[n])[c]] by {
        RepeatCount(n, multiset(data[n])[c]);
      }
      var mf, ml := multiset(front), multiset(last);
      assert multiset(front + last) == mf + ml;
      assert n !in mf by {
        assert forall k :: 0 <= k < |front| ==> front[k] != n;
      }
      forall i: int | 0 <= i < |data|
        ensures (mf + ml)[i] == multiset(data[i])[c]
      {
        if i < n {
          assert ml[i] == 0;
          assert mf[i] == multiset(data[..n][i])[c];
          assert data[..n][i] == data[i];
        } else {
          assert mf[i] == 0;
          assert ml[i] == multiset(data[n])[c];
        }
      }
    }
  }

  /**
   * A posting list names, in ascending order and with multiplicity, the
   * signatures that hold the coefficient: signature i as often as c occurs
   * in its ids.
   */
  lemma PostingsMeaning(data: seq<seq<u32>>, c: nat)
    requires |data| <= 0x1_0000_0000
    ensures forall k :: 0 <= k < |Postings(Entries(data), c)| ==> Postings(Entries(data), c)[k] < |data|
    ensures NonDecreasing(Postings(Entries(data), c))
    ensures forall i :: 0 <= i < |data| ==> multiset(Postings(Entries(data), c))[i] == multiset(data[i])[c]
  {
    PostingsBelow(data, c);
    PostingsSorted(data, c);
    PostingsCounts(data, c);
  }

  // ----------------------------------------------------------------- flatten

  /** The first n lists laid end to end. */
  function Flatten(lists: seq<seq<u32>>, n: nat): seq<u32>
    requires n <= |lists|
  {
    if n == 0 then [] else Flatten(lists, n - 1) + lists[n - 1]
  }

  /** Flattening more lists extends the flat array. */
  lemma {:induction false} FlattenPrefix(lists: seq<seq<u32>>, m: nat, n: nat)
    requires m <= n <= |lists|
    ensures |Flatten(lists, m)| <= |Flatten(lists, n)|
    ensures Flatten(lists, n)[..|Flatten(lists, m)|] == Flatten(lists, m)
    decreases n - m
  {
    if m < n {
      FlattenPrefix(lists, m, n - 1);
    }
  }

  /** Row c of the flat array, between the lengths of the first c and c + 1 lists, is list c. */
  lemma FlattenRow(lists: seq<seq<u32>>, c: nat, n: nat)
    requires c < n <= |lists|
    ensures |Flatten(lists, c)| <= |Flatten(lists, c + 1)| <= |Flatten(lists, n)|
    ensures Flatten(lists, n)[|Flatten(lists, c)|..|Flatten(lists, c + 1)|] == lists[c]
  {
    FlattenPrefix(lists, c + 1, n);
    var f := Flatten(lists, c + 1);
    assert f[|Flatten(lists, c)|..] == lists[c];
  }

  /** One more entry adds one id to the flattened lists it falls under. */
  lemma {:induction false} FlattenGrows(es: seq<Entry>, e: Entry, n: nat, m: nat)
    requires m <= n
    ensures |Flatten(Lists(es + [e], n), m)| == |Flatten(Lists(es, n), m)| + if e.coeff < m then 1 else 0
  {
    if m > 0 {
      FlattenGrows(es, e, n, m - 1);
      assert (es + [e])[..|es|] == es;
    }
  }

  /** Laid end to end, the posting lists hold every entry once. */
  lemma {:induction false} FlattenCount(es: seq<Entry>, n: nat)
    requires CoeffsBelow(es, n)
    ensures |Flatten(Lists(es, n), n)| == |es|
  {
    if es == [] {
      FlattenEmpty(n, n);
    } else {
      var init := es[..|es| - 1];
      assert es == init + [es[|es| - 1]];
      FlattenCount(init, n);
      FlattenGrows(init, es[|es| - 1], n, n);
    }
  }

  lemma {:induction false} FlattenEmpty(n: nat, m: nat)
    requires m <= n
    ensures Flatten(Lists([], n), m) == []
  {
    if m > 0 {
      FlattenEmpty(n, m - 1);
    }
  }

  /** The count loop: `nzelements += list.Count` over every list. */
  method CountEntries(lists: seq<seq<u32>>) returns (nz: nat)
    ensures nz == |Flatten(lists, |lists|)|
  {
    nz := 0;
    for c := 0 to |lists|
      invariant nz == |Flatten(lists, c)|
    {
      nz := nz + |lists[c]|;
    }
  }

  /**
   * The flatten loop: each list's start goes to its offset and its ids to
   * `column_ids[element_pointer++]`; the last offset is the total.
   */
  method FlattenLists(lists: seq<seq<u32>>, nz: nat) returns (offsets: seq<u32>, columnIds: seq<u32>)
    requires nz == |Flatten(lists, |lists|)| && nz < 0x1_0000_0000
    ensures offsets == Offsets(lists) && columnIds == Flatten(lists, |lists|)
  {
    var offs := new u32[|lists| + 1];
    var ids := new u32[nz];
    var ptr := 0;
    for coeff := 0 to |lists|
      invariant ptr == |Flatten(lists, coeff)| <= nz
      invariant ids[..ptr] == Flatten(lists, coeff)
      invariant offs[..coeff] == Offsets(lists)[..coeff]
    {
      ptr := PlaceRow(lists, offs, ids, coeff, ptr);
    }
    offs[|lists|] := nz;
    assert offs[..] == offs[..|lists|] + [nz as u32];
    assert Offsets(lists) == Offsets(lists)[..|lists|] + [nz as u32];
    assert ids[..] == ids[..ptr];
    offsets, columnIds := offs[..], ids[..];
  }

  /** One turn of the flatten loop: the list's start goes to its offset, then its ids are copied. */
  method PlaceRow(lists: seq<seq<u32>>, offs: array<u32>, ids: array<u32>, coeff: nat, ptr: nat) returns (end: nat)
    requires offs != ids && coeff < |lists| && offs.Length == |lists| + 1
    requires ids.Length == |Flatten(lists, |lists|)| < 0x1_0000_0000
    requires ptr == |Flatten(lists, coeff)| <= ids.Length && ids[..ptr] == Flatten(lists, coeff)
    requires offs[..coeff] == Offsets(lists)[..coeff]
    modifies offs, ids
    ensures end == |Flatten(lists, coeff + 1)| <= ids.Length && ids[..end] == Flatten(lists, coeff + 1)
    ensures offs[..coeff + 1] == Offsets(lists)[..coeff + 1]
  {
    FlattenPrefix(lists, coeff + 1, |lists|);
    offs[coeff] := ptr as u32;
    assert offs[..coeff + 1] == Offsets(lists)[..coeff + 1] by {
      assert Offsets(lists)[coeff] == Offset(lists, coeff);
    }
    ghost var placed := offs[..coeff + 1];
    end := CopyRow(ids, ptr, lists[coeff]);
    assert offs[..coeff + 1] == placed;
  }

  /** The inner loop of the flatten: one list copied to the flat array at the pointer. */
  method CopyRow(ids: array<u32>, ptr: nat, row: seq<u32>) returns (end: nat)
    requires ptr + |row| <= ids.Length
    modifies ids
    ensures end == ptr + |row|
    ensures ids[..end] == old(ids[..ptr]) + row
  {
    end := ptr;
    for j := 0 to |row|
      invariant end == ptr + j
      invariant ids[..end] == old(ids[..ptr]) + row[..j]
    {
      assert row[..j + 1] == row[..j] + [row[j]];
      ids[end] := row[j];
      end := end + 1;
    }
    assert row[..|row|] == row;
  }

  // ------------------------------------------------------------- the query side

  /**
   * The row of coefficient c as ExecuteQuery reads it: from `offsets[c]` up
   * to `offsets[c + 1]`, or up to `column_ids.Length` when c is the last
   * offset. An id past the offsets, or a row running past the column ids,
   * is an index error; a row whose end is not past its start is empty.
   */
  function RowOf(offsets: seq<u32>, columnIds: seq<u32>, c: nat): (r: Result<seq<u32>>)
    ensures r.Err? ==> r.error == IndexOutOfRange
    ensures r.Ok? ==> c < |offsets| && |r.value| <= |columnIds|
  {
    if c >= |offsets| then Err(IndexOutOfRange)
    else
      var start := offsets[c];
      var end := if c + 1 == |offsets| then |columnIds| else offsets[c + 1];
      if start >= end then Ok([])
      else if end > |columnIds| then Err(IndexOutOfRange)
      else Ok(columnIds[start..end])
  }

  /** The offsets a flattening leaves: the start of every list, then the total. */
  function Offsets(lists: seq<seq<u32>>): (offsets: seq<u32>)
    requires |Flatten(lists, |lists|)| < 0x1_0000_0000
    ensures |offsets| == |lists| + 1
  {
    seq(|lists| + 1, c requires 0 <= c <= |lists| => Offset(lists, c))
  }

  function Offset(lists: seq<seq<u32>>, c: nat): (o: u32)
    requires c <= |lists| && |Flatten(lists, |lists|)| < 0x1_0000_0000
    ensures o == |Flatten(lists, c)|
  {
    FlattenPrefix(lists, c, |lists|);
    |Flatten(lists, c)|
  }

  /**
   * The offsets start at 0, never decrease and end at the number of column
   * ids, and every row the query reads back is the list that was flattened.
   */
  lemma OffsetsMeaning(lists: seq<seq<u32>>, c: nat, d: nat)
    requires |Flatten(lists, |lists|)| < 0x1_0000_0000 && c <= d <= |lists|
    ensures Offsets(lists)[0] == 0 && Offsets(lists)[|lists|] == |Flatten(lists, |lists|)|
    ensures Offsets(lists)[c] <= Offsets(lists)[d]
    ensures c < |lists| ==> RowOf(Offsets(lists), Flatten(lists, |lists|), c) == Ok(lists[c])
  {
    FlattenPrefix(lists, c, d);
    FlattenPrefix(lists, d, |lists|);
    if c < |lists| {
      OffsetsRow(lists, c);
    }
  }

  /** Row c of the flattened lists reads back as lists[c]. */
  lemma OffsetsRow(lists: seq<seq<u32>>, c: nat)
    requires |Flatten(lists, |lists|)| < 0x1_0000_0000 && c < |lists|
    ensures RowOf(Offsets(lists), Flatten(lists, |lists|), c) == Ok(lists[c])
  {
    var offsets := Offsets(lists);
    var ids := Flatten(lists, |lists|);
    FlattenRow(lists, c, |lists|);
    var start := |Flatten(lists, c)|;
    var end := |Flatten(lists, c + 1)|;
    assert offsets[c] == start && offsets[c + 1] == end;
    assert ids[start..end] == lists[c];
  }

  // ------------------------------------------------------------ accumulation

  /** `w_matches[id] += weight` for every id of a row; an id past the accumulator is an index error. */
  function AddRow(acc: seq<real>, row: seq<u32>, weight: real): (r: Result<seq<real>>)
    ensures r.Ok? ==> |r.value| == |acc|
    ensures r.Err? ==> r.error == IndexOutOfRange
    decreases |row|
  {
    if row == [] then Ok(acc)
    else if row[0] >= |acc| then Err(IndexOutOfRange)
    else AddRow(acc[row[0] := acc[row[0]] + weight], row[1..], weight)
  }

  /** How often x occurs in a row. */
  function Occurrences(row: seq<u32>, x: nat): nat {
    multiset(row)[x]
  }

  /** A row is accepted exactly when every id in it names a candidate. */
  lemma {:induction false} AddRowAccepts(acc: seq<real>, row: seq<u32>, weight: real)
    ensures AddRow(acc, row, weight).Ok? <==> forall k :: 0 <= k < |row| ==> row[k] < |acc|
    decreases |row|
  {
    if row != [] && row[0] < |acc| {
      AddRowAccepts(acc[row[0] := acc[row[0]] + weight], row[1..], weight);
      assert forall k :: 1 <= k < |row| ==> row[k] == row[1..][k - 1];
    }
  }

  /** The weight added n times over. */
  function Times(n: nat, weight: real): real {
    if n == 0 then 0.0 else Times(n - 1, weight) + weight
  }

  /** An accepted row adds the weight to each candidate once per occurrence. */
  lemma {:induction false} AddRowMeaning(acc: seq<real>, row: seq<u32>, weight: real)
    requires AddRow(acc, row, weight).Ok?
    ensures forall i :: 0 <= i < |acc| ==>
      AddRow(acc, row, weight).value[i] == acc[i] + Times(Occurrences(row, i), weight)
    decreases |row|
  {
    if row != [] {
      var acc' := acc[row[0] := acc[row[0]] + weight];
      var r := AddRow(acc', row[1..], weight).value;
      AddRowMeaning(acc', row[1..], weight);
      assert multiset(row) == multiset{row[0]} + multiset(row[1..]) by {
        assert row == [row[0]] + row[1..];
      }
      forall i | 0 <= i < |acc|
        ensures r[i] == acc[i] + Times(Occurrences(row, i), weight)
      {
        if i == row[0] {
          assert Occurrences(row, i) == Occurrences(row[1..], i) + 1;
        } else {
          assert Occurrences(row, i) == Occurrences(row[1..], i);
        }
      }
    }
  }

  /**
   * The candidate test `value / max > limit` in single precision. A zero
   * denominator gives +infinity for a positive value, which exceeds any
   * finite limit, and NaN for zero, which exceeds nothing.
   */
  predicate Exceeds(value: real, max: real, limit: real) {
    if max == 0.0 then value > 0.0 else value / max > limit
  }
}
