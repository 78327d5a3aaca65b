/**
 * The binary layout of a QueryGrid (iqdb/QueryGrid.cs, Serialize and
 * Deserialize): the hash count t, the t hashes as raw bytes, the t weight
 * sums, the number of colour channels as one byte, t averages per channel,
 * 32,768 offsets per channel, then the length of the groups and the groups.
 */
module GridCodec {
  import opened Wire
  import opened Signatures
  import opened HaarWeights
  import opened GridLayout
  import HaarIndex
  import GridBuild

  // ----------------------------------------------------------------- write

  /** The hashes as raw bytes, in order; a null hash makes BinaryWriter throw. */
  function EncodeHashes(hs: seq<Option<seq<byte>>>): (r: Result<seq<Cell>>)
    ensures r.Err? ==> r.error == ArgumentNull
  {
    if hs == [] then Ok([])
    else if hs[0].None? then Err(ArgumentNull)
    else
      var tail :- EncodeHashes(hs[1..]);
      Ok(Bytes(hs[0].value) + tail)
  }

  /** The first t averages of each channel row in turn; a row shorter than t is an index error. */
  function EncodeRows(rows: seq<seq<real>>, t: nat): (r: Result<seq<Cell>>)
    ensures r.Err? ==> r.error == IndexOutOfRange
  {
    if rows == [] then Ok([])
    else if |rows[0]| < t then Err(IndexOutOfRange)
    else
      var tail :- EncodeRows(rows[1..], t);
      Ok(F32s(rows[0][..t]) + tail)
  }

  /** `(byte)avgls.Length`: the channel count wraps at 256. */
  function ColorCount(g: Grid): (nc: byte)
    ensures |g.avgls| < 256 ==> nc == |g.avgls|
  {
    |g.avgls| % 256
  }

  /**
   * Serialize: every hash, the first t weight sums, the channel count, the
   * first t averages of each counted channel, the first 32,768 offsets per
   * counted channel, then the groups with their length.
   */
  function EncodeGrid(g: Grid): (r: Result<seq<Cell>>)
    requires |g.hashes| <= INT32_MAX && |g.groups| <= INT32_MAX
    ensures r.Err? ==> r.error == ArgumentNull || r.error == IndexOutOfRange
  {
    var t := |g.hashes|;
    var hashes :- EncodeHashes(g.hashes);
    if |g.weightsums| < t then Err(IndexOutOfRange)
    else
      var nc := ColorCount(g);
      var rows :- EncodeRows(g.avgls[..nc], t);
      if |g.offsets| < nc * CHANNEL_SIZE then Err(IndexOutOfRange)
      else
        Ok(U32(t) + hashes + F32s(g.weightsums[..t]) + LittleEndian(nc, 1) + rows +
           U32s(g.offsets[..nc * CHANNEL_SIZE]) + U32(|g.groups|) + U32s(g.groups))
  }

  // ------------------------------------------------------------------ read

  /** n hashes of up to 16 bytes each (`ReadBytes(16)`). */
  function DecodeHashes(s: seq<Cell>, n: nat): (r: Result<(seq<Option<seq<byte>>>, seq<Cell>)>)
    ensures r.Ok? ==> |r.value.0| == n
    decreases n
  {
    if n == 0 then Ok(([], s))
    else
      var (h, rest) :- ReadBytes(s, HASH_BYTES);
      var (hs, rest') :- DecodeHashes(rest, n - 1);
      Ok(([Some(h)] + hs, rest'))
  }

  /** nc rows of t singles each. */
  function DecodeRows(s: seq<Cell>, nc: nat, t: nat): (r: Result<(seq<seq<real>>, seq<Cell>)>)
    ensures r.Ok? ==> |r.value.0| == nc
    decreases nc
  {
    if nc == 0 then Ok(([], s))
    else
      var (row, rest) :- ReadF32s(s, t);
      var (rows, rest') :- DecodeRows(rest, nc - 1, t);
      Ok(([row] + rows, rest'))
  }

  /** Deserialize: the five arrays, each read with the length the stream gives. */
  function DecodeGrid(s: seq<Cell>): (r: Result<(Grid, seq<Cell>)>)
  {
    var (t, s1) :- ReadU32(s);
    var (hashes, s2) :- DecodeHashes(s1, t);
    var (weightsums, s3) :- ReadF32s(s2, t);
    var (nc, s4) :- ReadByte(s3);
    var (avgls, s5) :- DecodeRows(s4, nc, t);
    var (offsets, s6) :- ReadU32s(s5, nc * CHANNEL_SIZE);
    var (gl, s7) :- ReadU32(s6);
    var (groups, s8) :- ReadU32s(s7, gl);
    Ok((Grid(hashes, weightsums, avgls, offsets, groups), s8))
  }

  // ------------------------------------------------------------ round trip

  /**
   * A grid Serialize writes in full and Deserialize reads back unchanged:
   * 16-byte hashes, one weight sum and one average per channel for each
   * hash, fewer than 256 channels and 32,768 offsets for each.
   */
  predicate Saveable(g: Grid) {
    |g.hashes| <= INT32_MAX && |g.groups| <= INT32_MAX &&
    (forall k :: 0 <= k < |g.hashes| ==> g.hashes[k].Some? && |g.hashes[k].value| == HASH_BYTES) &&
    |g.weightsums| == |g.hashes| && |g.avgls| < 256 &&
    (forall c :: 0 <= c < |g.avgls| ==> |g.avgls[c]| == |g.hashes|) &&
    |g.offsets| == |g.avgls| * CHANNEL_SIZE
  }

  /** Serialize fails exactly on a null hash, a short weight-sum array, a short counted row or too few offsets. */
  lemma EncodeGridAccepts(g: Grid)
    requires |g.hashes| <= INT32_MAX && |g.groups| <= INT32_MAX
    ensures EncodeGrid(g).Ok? <==>
      (forall k :: 0 <= k < |g.hashes| ==> g.hashes[k].Some?) && |g.weightsums| >= |g.hashes| &&
      (forall c :: 0 <= c < ColorCount(g) ==> |g.avgls[c]| >= |g.hashes|) &&
      |g.offsets| >= ColorCount(g) * CHANNEL_SIZE
    ensures EncodeGrid(g) == Err(ArgumentNull) <==> exists k :: 0 <= k < |g.hashes| && g.hashes[k].None?
  {
    EncodeHashesAccepts(g.hashes);
    EncodeRowsAccepts(g.avgls[..ColorCount(g)], |g.hashes|);
  }

  lemma {:induction false} EncodeHashesAccepts(hs: seq<Option<seq<byte>>>)
    ensures EncodeHashes(hs).Ok? <==> forall k :: 0 <= k < |hs| ==> hs[k].Some?
  {
    if hs != [] {
      EncodeHashesAccepts(hs[1..]);
      assert forall k :: 1 <= k < |hs| ==> hs[k] == hs[1..][k - 1];
    }
  }

  lemma {:induction false} EncodeRowsAccepts(rows: seq<seq<real>>, t: nat)
    ensures EncodeRows(rows, t).Ok? <==> forall c :: 0 <= c < |rows| ==> |rows[c]| >= t
  {
    if rows != [] {
      EncodeRowsAccepts(rows[1..], t);
      assert forall c :: 1 <= c < |rows| ==> rows[c] == rows[1..][c - 1];
    }
  }

  lemma {:induction false} HashesRoundTrip(hs: seq<Option<seq<byte>>>, rest: seq<Cell>)
    requires forall k :: 0 <= k < |hs| ==> hs[k].Some? && |hs[k].value| == HASH_BYTES
    ensures EncodeHashes(hs).Ok?
    ensures DecodeHashes(EncodeHashes(hs).value + rest, |hs|) == Ok((hs, rest))
  {
    if hs == [] {
      assert EncodeHashes(hs).value + rest == rest;
    } else {
      HashesRoundTrip(hs[1..], rest);
      var tail := EncodeHashes(hs[1..]).value;
      assert EncodeHashes(hs).value + rest == Bytes(hs[0].value) + (tail + rest);
      BytesRoundTrip(hs[0].value, tail + rest);
      assert [Some(hs[0].value)] + hs[1..] == hs;
    }
  }

  lemma {:induction false} RowsRoundTrip(rows: seq<seq<real>>, t: nat, rest: seq<Cell>)
    requires forall c :: 0 <= c < |rows| ==> |rows[c]| == t
    ensures EncodeRows(rows, t).Ok?
    ensures DecodeRows(EncodeRows(rows, t).value + rest, |rows|, t) == Ok((rows, rest))
  {
    if rows == [] {
      assert EncodeRows(rows, t).value + rest == rest;
    } else {
      RowsRoundTrip(rows[1..], t, rest);
      var tail := EncodeRows(rows[1..], t).value;
      assert rows[0][..t] == rows[0];
      assert EncodeRows(rows, t).value + rest == F32s(rows[0]) + (tail + rest);
      F32sRoundTrip(rows[0], tail + rest);
      assert [rows[0]] + rows[1..] == rows;
    }
  }

  /** Deserialize, one read after another. */
  lemma DecodeGridSteps(s: seq<Cell>, t: u32, s1: seq<Cell>, hashes: seq<Option<seq<byte>>>, s2: seq<Cell>,
                        weightsums: seq<real>, s3: seq<Cell>, nc: byte, s4: seq<Cell>, avgls: seq<seq<real>>, s5: seq<Cell>,
                        offsets: seq<u32>, s6: seq<Cell>, gl: u32, s7: seq<Cell>, groups: seq<u32>, s8: seq<Cell>)
    requires ReadU32(s) == Ok((t, s1)) && DecodeHashes(s1, t) == Ok((hashes, s2))
    requires ReadF32s(s2, t) == Ok((weightsums, s3)) && ReadByte(s3) == Ok((nc, s4))
    requires DecodeRows(s4, nc, t) == Ok((avgls, s5)) && ReadU32s(s5, nc * CHANNEL_SIZE) == Ok((offsets, s6))
    requires ReadU32(s6) == Ok((gl, s7)) && ReadU32s(s7, gl) == Ok((groups, s8))
    ensures DecodeGrid(s) == Ok((Grid(hashes, weightsums, avgls, offsets, groups), s8))
  {
  }

  /**
   * Serialize then Deserialize gives back the same five arrays, and the
   * reader stops where the grid ends.
   */
  lemma GridRoundTrip(g: Grid, rest: seq<Cell>)
    requires Saveable(g)
    ensures EncodeGrid(g).Ok?
    ensures DecodeGrid(EncodeGrid(g).value + rest) == Ok((g, rest))
  {
    var t := |g.hashes|;
    var nc := ColorCount(g);
    assert g.avgls[..nc] == g.avgls && g.weightsums[..t] == g.weightsums && g.offsets[..nc * CHANNEL_SIZE] == g.offsets;
    HashesRoundTrip(g.hashes, []);
    RowsRoundTrip(g.avgls, t, []);
    var hashes, rows := EncodeHashes(g.hashes).value, EncodeRows(g.avgls, t).value;
    var s8 := rest;
    var s7 := U32s(g.groups) + s8;
    var s6 := U32(|g.groups|) + s7;
    var s5 := U32s(g.offsets) + s6;
    var s4 := rows + s5;
    var s3 := LittleEndian(nc, 1) + s4;
    var s2 := F32s(g.weightsums) + s3;
    var s1 := hashes + s2;
    var s := U32(t) + s1;
    assert EncodeGrid(g).value == U32(t) + hashes + F32s(g.weightsums) + LittleEndian(nc, 1) + rows +
      U32s(g.offsets) + U32(|g.groups|) + U32s(g.groups);
    AppendEight(U32(t), hashes, F32s(g.weightsums), LittleEndian(nc, 1), rows, U32s(g.offsets), U32(|g.groups|), U32s(g.groups), rest);
    U32RoundTrip(t, s1);
    HashesRoundTrip(g.hashes, s2);
    F32sRoundTrip(g.weightsums, s3);
    ByteRoundTrip(nc, s4);
    RowsRoundTrip(g.avgls, t, s5);
    U32sRoundTrip(g.offsets, s6);
    U32RoundTrip(|g.groups|, s7);
    U32sRoundTrip(g.groups, s8);
    DecodeGridSteps(s, t, s1, g.hashes, s2, g.weightsums, s3, nc, s4, g.avgls, s5, g.offsets, s6, |g.groups|, s7, g.groups, s8);
  }

  /**
   * A grid FromSignatures builds, from entries whose hashes all have 16
   * bytes, is written in full and read back unchanged.
   */
  lemma BuiltRoundTrip(ps: seq<SigValue>, g: Grid, rest: seq<Cell>)
    requires |ps| <= INT32_MAX && forall j :: 0 <= j < |ps| ==> GridBuild.Fits(ps[j])
    requires GroupsLength(GridBuild.GridLists(ps), COEFF_SPACE) <= INT32_MAX && g == GridBuild.GridOf(ps)
    requires forall j :: 0 <= j < |ps| ==> ps[j].hash.Some? && |ps[j].hash.value| == HASH_BYTES
    ensures Saveable(g)
    ensures EncodeGrid(g).Ok? && DecodeGrid(EncodeGrid(g).value + rest) == Ok((g, rest))
  {
    assert g.hashes == GridBuild.Hashes(ps) && |g.weightsums| == |ps|;
    assert g.avgls == GridBuild.Averages(ps) && |g.avgls| == CHANNEL_COUNT;
    assert |g.offsets| == COEFF_SPACE;
    assert |g.groups| == GroupsLength(GridBuild.GridLists(ps), COEFF_SPACE);
    GridRoundTrip(g, rest);
  }

  lemma AppendEight<T>(a: seq<T>, b: seq<T>, c: seq<T>, d: seq<T>, e: seq<T>, f: seq<T>, g: seq<T>, h: seq<T>, rest: seq<T>)
    ensures a + b + c + d + e + f + g + h + rest == a + (b + (c + (d + (e + (f + (g + (h + rest)))))))
  {
    AppendFour(e, f, g, h, rest);
    AppendFour(a, b, c, d, e + (f + (g + (h + rest))));
    assert a + b + c + d + e + f + g + h + rest == (a + b + c + d) + (e + f + g + h + rest);
  }

  lemma AppendFour<T>(a: seq<T>, b: seq<T>, c: seq<T>, d: seq<T>, rest: seq<T>)
    ensures a + b + c + d + rest == a + (b + (c + (d + rest)))
  {
  }

  // ----------------------------------------------------------------- loops

  lemma PrecededAssoc(a: seq<Cell>, b: seq<Cell>, r: Result<seq<Cell>>)
    ensures HaarIndex.Preceded(a, HaarIndex.Preceded(b, r)) == HaarIndex.Preceded(a + b, r)
  {
    if r.Ok? {
      assert a + (b + r.value) == (a + b) + r.value;
    }
  }

  /** The hash loop of Serialize: each hash written in turn, stopping at the first null one. */
  method WriteHashes(hs: seq<Option<seq<byte>>>) returns (r: Result<seq<Cell>>)
    ensures r == EncodeHashes(hs)
  {
    var out := [];
    assert hs[0..] == hs;
    assert HaarIndex.Preceded([], EncodeHashes(hs)) == EncodeHashes(hs) by {
      if EncodeHashes(hs).Ok? {
        assert [] + EncodeHashes(hs).value == EncodeHashes(hs).value;
      }
    }
    for i := 0 to |hs|
      invariant HaarIndex.Preceded(out, EncodeHashes(hs[i..])) == EncodeHashes(hs)
    {
      assert hs[i..][0] == hs[i] && hs[i..][1..] == hs[i + 1..];
      if hs[i].None? {
        return Err(ArgumentNull);
      }
      assert EncodeHashes(hs[i..]) == HaarIndex.Preceded(Bytes(hs[i].value), EncodeHashes(hs[i + 1..]));
      PrecededAssoc(out, Bytes(hs[i].value), EncodeHashes(hs[i + 1..]));
      out := out + Bytes(hs[i].value);
    }
    assert hs[|hs|..] == [];
    assert out + [] == out;
    return Ok(out);
  }

  /** The channel loop of Serialize: the first t averages of each row, an index error at a short row. */
  method WriteRows(rows: seq<seq<real>>, t: nat) returns (r: Result<seq<Cell>>)
    ensures r == EncodeRows(rows, t)
  {
    var out := [];
    assert rows[0..] == rows;
    assert HaarIndex.Preceded([], EncodeRows(rows, t)) == EncodeRows(rows, t) by {
      if EncodeRows(rows, t).Ok? {
        assert [] + EncodeRows(rows, t).value == EncodeRows(rows, t).value;
      }
    }
    for c := 0 to |rows|
      invariant HaarIndex.Preceded(out, EncodeRows(rows[c..], t)) == EncodeRows(rows, t)
    {
      assert rows[c..][0] == rows[c] && rows[c..][1..] == rows[c + 1..];
      if |rows[c]| < t {
        return Err(IndexOutOfRange);
      }
      var row := WriteF32s(rows[c][..t]);
      assert EncodeRows(rows[c..], t) == HaarIndex.Preceded(row, EncodeRows(rows[c + 1..], t));
      PrecededAssoc(out, row, EncodeRows(rows[c + 1..], t));
      out := out + row;
    }
    assert rows[|rows|..] == [];
    assert out + [] == out;
    return Ok(out);
  }

  /** Serialize, loop by loop. */
  method WriteGrid(g: Grid) returns (r: Result<seq<Cell>>)
    requires |g.hashes| <= INT32_MAX && |g.groups| <= INT32_MAX
    ensures r == EncodeGrid(g)
  {
    var t := |g.hashes|;
    var hashes := WriteHashes(g.hashes);
    if hashes.Err? {
      return Err(hashes.error);
    }
    if |g.weightsums| < t {
      return Err(IndexOutOfRange);
    }
    var weightsums := WriteF32s(g.weightsums[..t]);
    var nc := ColorCount(g);
    var rows := WriteRows(g.avgls[..nc], t);
    if rows.Err? {
      return Err(rows.error);
    }
    if |g.offsets| < nc * CHANNEL_SIZE {
      return Err(IndexOutOfRange);
    }
    var offsets := WriteU32s(g.offsets[..nc * CHANNEL_SIZE]);
    var groups := WriteU32s(g.groups);
    r := Ok(U32(t) + hashes.value + weightsums + LittleEndian(nc, 1) + rows.value +
            offsets + U32(|g.groups|) + groups);
  }

  /** The hash loop of Deserialize: n reads of up to 16 bytes into a fresh array. */
  method ReadHashArray(s: seq<Cell>, n: nat) returns (r: Result<(seq<Option<seq<byte>>>, seq<Cell>)>)
    ensures r == DecodeHashes(s, n)
  {
    var a := new Option<seq<byte>>[n](_ => None);
    var rest := s;
    assert a[..0] == [];
    PrependAssoc([], [], DecodeHashes(s, n));
    for i := 0 to n
      invariant DecodeHashes(s, n) == Prepend(a[..i], DecodeHashes(rest, n - i))
    {
      var h := ReadBytes(rest, HASH_BYTES);
      if h.Err? {
        return Err(h.error);
      }
      ghost var before := a[..i];
      a[i] := Some(h.value.0);
      assert a[..i + 1] == before + [Some(h.value.0)];
      PrependAssoc(before, [Some(h.value.0)], DecodeHashes(h.value.1, n - i - 1));
      rest := h.value.1;
    }
    assert a[..n] + [] == a[..];
    return Ok((a[..], rest));
  }

  /** The channel loop of Deserialize: nc fresh rows of t singles each. */
  method ReadRowArray(s: seq<Cell>, nc: nat, t: nat) returns (r: Result<(seq<seq<real>>, seq<Cell>)>)
    ensures r == DecodeRows(s, nc, t)
  {
    var a := new seq<real>[nc](_ => []);
    var rest := s;
    assert a[..0] == [];
    PrependAssoc([], [], DecodeRows(s, nc, t));
    for c := 0 to nc
      invariant DecodeRows(s, nc, t) == Prepend(a[..c], DecodeRows(rest, nc - c, t))
    {
      var row := ReadFloatArray(rest, t);
      if row.Err? {
        return Err(row.error);
      }
      ghost var before := a[..c];
      a[c] := row.value.0;
      assert a[..c + 1] == before + [row.value.0];
      PrependAssoc(before, [row.value.0], DecodeRows(row.value.1, nc - c - 1, t));
      rest := row.value.1;
    }
    assert a[..nc] + [] == a[..];
    return Ok((a[..], rest));
  }

  /** Deserialize, loop by loop. */
  method ReadGrid(s: seq<Cell>) returns (r: Result<(Grid, seq<Cell>)>)
    ensures r == DecodeGrid(s)
  {
    var a := ReadU32(s);
    if a.Err? {
      return Err(a.error);
    }
    var (t, s1) := a.value;
    var hashes := ReadHashArray(s1, t);
    if hashes.Err? {
      return Err(hashes.error);
    }
    var weightsums := ReadFloatArray(hashes.value.1, t);
    if weightsums.Err? {
      return Err(weightsums.error);
    }
    var b := ReadByte(weightsums.value.1);
    if b.Err? {
      return Err(b.error);
    }
    var nc := b.value.0;
    var avgls := ReadRowArray(b.value.1, nc, t);
    if avgls.Err? {
      return Err(avgls.error);
    }
    var offsets := ReadWordArray(avgls.value.1, nc * CHANNEL_SIZE);
    if offsets.Err? {
      return Err(offsets.error);
    }
    var gl := ReadU32(offsets.value.1);
    if gl.Err? {
      return Err(gl.error);
    }
    var groups := ReadWordArray(gl.value.1, gl.value.0);
    if groups.Err? {
      return Err(groups.error);
    }
    r := Ok((Grid(hashes.value.0, weightsums.value.0, avgls.value.0, offsets.value.0, groups.value.0), groups.value.1));
  }
}
