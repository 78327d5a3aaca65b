/**
 * The QueryGrid object (iqdb/QueryGrid.cs): the five arrays of a grid, of
 * which only `sigid2groupoffset` is changed in place, by
 * PruneForDuplicates. Every other operation replaces the arrays wholesale
 * or only reads them, and is stated against the functions of GridBuild,
 * GridCodec, GridLayout and GridQuery.
 */
module QueryGrids {
  import opened Wire
  import opened Signatures
  import opened HaarWeights
  import opened QueryResults
  import opened GridLayout
  import GridBuild
  import GridCodec
  import GridQuery
  import HaarMatrix

  /** PruneForDuplicates stops at the first offset past the groups and keeps it so. */
  lemma {:induction false} PruneFaultStays(offsets: seq<u32>, groups: seq<u32>, f: nat, n: nat)
    requires f < n <= |offsets| && PruneFault(offsets, groups, f + 1) == Some(f)
    ensures PruneFault(offsets, groups, n) == Some(f)
    decreases n
  {
    if n > f + 1 {
      PruneFaultStays(offsets, groups, f, n - 1);
    }
  }

  class QueryGrid {
    var hashes: seq<Option<seq<byte>>>   // index2sighash
    var weightsums: seq<real>            // weightsums
    var avgls: seq<seq<real>>            // avgls
    var offsets: array<u32>              // sigid2groupoffset
    var groups: seq<u32>                 // groups

    function State(): Grid
      reads this, offsets
    {
      Grid(hashes, weightsums, avgls, offsets[..], groups)
    }

    /** A grid object holding the given arrays, with an offsets array of its own. */
    constructor Of(g: Grid)
      ensures State() == g && fresh(offsets)
    {
      hashes, weightsums, avgls, groups := g.hashes, g.weightsums, g.avgls, g.groups;
      offsets := new u32[|g.offsets|](i requires 0 <= i < |g.offsets| => g.offsets[i]);
    }

    /**
     * FromSignatures: the grid Build gives for the signatures as they were
     * passed in; each signature keeps everything but its ID.
     */
    static method FromSignatures(maxCoefficient: int, sigs: seq<Signature>) returns (r: Result<QueryGrid>)
      requires |sigs| <= INT32_MAX
      modifies sigs`id
      ensures forall k :: 0 <= k < |sigs| ==> sigs[k].Value() == old(sigs[k].Value()).(id := sigs[k].id)
      ensures r.Err? ==> GridBuild.Build(maxCoefficient, sigs, old(HaarMatrix.Values(sigs))) == Err(r.error)
      ensures r.Ok? ==> fresh(r.value) && fresh(r.value.offsets)
      ensures r.Ok? ==> GridBuild.Build(maxCoefficient, sigs, old(HaarMatrix.Values(sigs))) == Ok(r.value.State())
    {
      var g := GridBuild.FromSignatures(maxCoefficient, sigs);
      if g.Err? {
        return Err(g.error);
      }
      var qg := new QueryGrid.Of(g.value);
      return Ok(qg);
    }

    /** Serialize: the stream EncodeGrid gives for the current arrays. */
    method Serialize() returns (r: Result<seq<Cell>>)
      requires |hashes| <= INT32_MAX && |groups| <= INT32_MAX
      ensures r == GridCodec.EncodeGrid(State())
    {
      r := GridCodec.WriteGrid(State());
    }

    /**
     * Deserialize: the five arrays DecodeGrid reads replace the current
     * ones, and the unread rest is handed back; a short or malformed stream
     * is an exception.
     */
    method Deserialize(s: seq<Cell>) returns (r: Result<seq<Cell>>)
      modifies this
      ensures r.Err? ==> GridCodec.DecodeGrid(s) == Err(r.error)
      ensures r.Ok? ==> GridCodec.DecodeGrid(s) == Ok((State(), r.value)) && fresh(offsets)
    {
      var read := GridCodec.ReadGrid(s);
      if read.Err? {
        return Err(read.error);
      }
      var (g, rest) := read.value;
      hashes, weightsums, avgls, groups := g.hashes, g.weightsums, g.avgls, g.groups;
      offsets := new u32[|g.offsets|](i requires 0 <= i < |g.offsets| => g.offsets[i]);
      assert State() == g;
      return Ok(rest);
    }

    /**
     * Analyze: the counters it prints, with the limit `(uint)Length / 10`;
     * an offset past the groups is an index error.
     */
    method Analyze() returns (r: Result<Stats>)
      ensures r == Analysis(offsets[..], groups, |hashes| / 10, offsets.Length)
    {
      var commonLimit := |hashes| / 10;
      var groupCount, oneCount, overLimit, legitGroups := 0, 0, 0, 0;
      var legitCx: u32, maxGroup: u32, maxCid := 0, 0, 0;
      for i := 0 to offsets.Length
        invariant Analysis(offsets[..], groups, commonLimit, i) ==
          Ok(Stats(groupCount, oneCount, overLimit, legitGroups, legitCx, maxGroup, maxCid))
      {
        var go := offsets[i];
        if go as int >= |groups| {
          return Err(IndexOutOfRange);
        }
        var gl := groups[go];
        if gl > 0 {
          groupCount := groupCount + 1;
          if gl == 1 {
            oneCount := oneCount + 1;
          } else if gl as int > commonLimit {
            overLimit := overLimit + 1;
            if gl > maxGroup {
              maxGroup, maxCid := gl, i;
            }
          } else {
            legitGroups := legitGroups + 1;
            legitCx := (legitCx as int + Pairs(gl)) % 0x1_0000_0000;
          }
        }
      }
      assert offsets[..] == offsets[..offsets.Length];
      return Ok(Stats(groupCount, oneCount, overLimit, legitGroups, legitCx, maxGroup, maxCid));
    }

    /**
     * PruneForDuplicates: each offset whose group is a singleton or larger
     * than a tenth of the hashes is set to 0, in order; an offset past the
     * groups is an index error, with the offsets before it already pruned.
     */
    method PruneForDuplicates() returns (e: Option<Error>)
      modifies offsets
      ensures var f := PruneFault(old(offsets[..]), groups, offsets.Length);
        f.None? ==> e.None? && offsets[..] == Pruned(old(offsets[..]), groups, |hashes| / 10, offsets.Length)
      ensures var f := PruneFault(old(offsets[..]), groups, offsets.Length);
        f.Some? ==> e == Some(IndexOutOfRange) && offsets[..] == Pruned(old(offsets[..]), groups, |hashes| / 10, f.value)
    {
      ghost var before := offsets[..];
      var count := |hashes| / 10;
      for i := 0 to offsets.Length
        invariant PruneFault(before, groups, i).None?
        invariant offsets[..] == Pruned(before, groups, count, i)
      {
        var gItr := offsets[i];
        assert gItr == before[i];
        if gItr == 0 {
          continue;
        }
        if gItr as int >= |groups| {
          assert PruneFault(before, groups, i + 1) == Some(i);
          PruneFaultStays(before, groups, i, offsets.Length);
          return Some(IndexOutOfRange);
        }
        var gCount := groups[gItr];
        if gCount == 1 || gCount as int > count {
          offsets[i] := 0;
        }
      }
      return None;
    }

    /** ExecuteQuery: the results Query gives for the current arrays; `verbose` is not read. */
    method ExecuteQuery(query: Signature, limitCoefficients: real, verbose: bool, limitError: real) returns (r: Result<seq<QueryResult>>)
      requires query.kind.HaarKind?
      ensures r == GridQuery.Query(State(), query.Value(), limitCoefficients, limitError)
    {
      r := GridQuery.QueryLoop(State(), query.Value(), limitCoefficients, limitError);
    }
  }
}
