/**
 * ExecuteQuery of QueryGrid (iqdb/QueryGrid.cs): the weighted average-pixel
 * error of every candidate, the coefficient weights matched through the
 * length-prefixed groups, and the result loop with its two thresholds, each
 * against its own limit.
 */
module GridQuery {
  import opened Wire
  import opened Text
  import opened Signatures
  import opened HaarWeights
  import opened Csr
  import opened QueryResults
  import opened GridLayout
  import opened GridAdmission
  import opened GridBuild
  import HaarIndex
  import HaarMatrix

  // ------------------------------------------------------------ pixel error

  /** Channel c's pass of the error loop: candidate i below |row| gains `Weights[1, 0, c] * |average - row[i]|`. */
  function AddChannel(errors: seq<real>, row: seq<real>, average: real, c: nat): (e: seq<real>)
    requires |row| <= |errors| && c < CHANNEL_COUNT
    ensures |e| == |errors|
  {
    seq(|errors|, i requires 0 <= i < |errors| =>
      if i < |row| then errors[i] + Weights(1, 0, c) * Abs(average - row[i]) else errors[i])
  }

  /**
   * The error loop over the first n query averages, into one error per
   * hash: `avgls[channel]` must exist, and a non-empty row must fit the
   * database size and be one of the three weighted channels.
   */
  function PixelErrors(g: Grid, qa: seq<real>, n: nat): (r: Result<seq<real>>)
    requires n <= |qa|
    ensures r.Ok? ==> |r.value| == |g.hashes|
    ensures r.Err? ==> r.error == IndexOutOfRange
  {
    if n == 0 then Ok(seq(|g.hashes|, _ => 0.0))
    else
      var errors :- PixelErrors(g, qa, n - 1);
      var c := n - 1;
      if c >= |g.avgls| then Err(IndexOutOfRange)
      else if |g.avgls[c]| == 0 then Ok(errors)
      else if |g.avgls[c]| > |g.hashes| || c >= CHANNEL_COUNT then Err(IndexOutOfRange)
      else Ok(AddChannel(errors, g.avgls[c], qa[c], c))
  }

  /** A channel row the error loop gets through. */
  predicate RowFits(g: Grid, c: nat)
    requires c < |g.avgls|
  {
    |g.avgls[c]| == 0 || (|g.avgls[c]| <= |g.hashes| && c < CHANNEL_COUNT)
  }

  /**
   * The error loop goes through exactly when the grid has a row for every
   * query average and each of them fits.
   */
  lemma {:induction false} PixelErrorsAccepts(g: Grid, qa: seq<real>, n: nat)
    requires n <= |qa|
    ensures PixelErrors(g, qa, n).Ok? <==> n <= |g.avgls| && forall c :: 0 <= c < n ==> RowFits(g, c)
  {
    if n > 0 {
      PixelErrorsAccepts(g, qa, n - 1);
      if n - 1 < |g.avgls| && !RowFits(g, n - 1) {
        assert !(forall c :: 0 <= c < n ==> RowFits(g, c));
      }
    }
  }

  /** Three average rows, each holding one value per hash: the shape FromSignatures lays out. */
  predicate Square(g: Grid) {
    |g.avgls| == CHANNEL_COUNT && forall c :: 0 <= c < CHANNEL_COUNT ==> |g.avgls[c]| == |g.hashes|
  }

  /** The three averages the grid holds for candidate i. */
  function Column(g: Grid, i: nat): (ya: seq<real>)
    requires Square(g) && i < |g.hashes|
    ensures |ya| == CHANNEL_COUNT && forall c :: 0 <= c < CHANNEL_COUNT ==> ya[c] == g.avgls[c][i]
  {
    [g.avgls[0][i], g.avgls[1][i], g.avgls[2][i]]
  }

  /** On a square grid the first n channels leave each candidate at the YUV loop's partial sum. */
  lemma {:induction false} SquarePart(g: Grid, qa: seq<real>, n: nat)
    requires Square(g) && n <= |qa| && n <= CHANNEL_COUNT
    ensures PixelErrors(g, qa, n).Ok?
    ensures forall i :: 0 <= i < |g.hashes| ==>
      PixelErrors(g, qa, n).value[i] == HaarIndex.YuvPart(qa, Column(g, i), n)
  {
    if n > 0 {
      SquarePart(g, qa, n - 1);
    }
  }

  /**
   * On a square grid the error loop fails exactly for a query with more
   * than three averages, and with three it computes for every candidate
   * the weighted distance the sparse-matrix query uses.
   */
  lemma SquareErrors(g: Grid, qa: seq<real>)
    requires Square(g)
    ensures PixelErrors(g, qa, |qa|).Ok? <==> |qa| <= CHANNEL_COUNT
    ensures |qa| == CHANNEL_COUNT ==> forall i :: 0 <= i < |g.hashes| ==>
      PixelErrors(g, qa, |qa|).value[i] == HaarIndex.YuvDistance(qa, Column(g, i))
  {
    PixelErrorsAccepts(g, qa, |qa|);
    if |qa| <= CHANNEL_COUNT {
      SquarePart(g, qa, |qa|);
    }
  }

  // ---------------------------------------------------------- matched weight

  /** The group the match loop reaches for query id q: an index error past the offsets, none at offset 0. */
  function Reach(g: Grid, q: nat): (r: Result<seq<u32>>)
    ensures r.Err? ==> r.error == IndexOutOfRange
  {
    if q >= |g.offsets| then Err(IndexOutOfRange)
    else if g.offsets[q] == 0 then Ok([])
    else GroupAt(g.groups, g.offsets[q])
  }

  /**
   * The coefficient match loop: for each query id its weight
   * `WeightLookUp[id >> 1]`, then the group at its offset, whose members
   * each gain the weight.
   */
  function Matches(g: Grid, query: seq<u32>): (r: Result<seq<real>>)
    ensures r.Ok? ==> |r.value| == |g.hashes|
    ensures r.Err? ==> r.error == IndexOutOfRange
    decreases |query|
  {
    if query == [] then Ok(seq(|g.hashes|, _ => 0.0))
    else
      var acc :- Matches(g, query[..|query| - 1]);
      var q := query[|query| - 1];
      var weight :- CoeffWeight(q);
      var group :- Reach(g, q);
      AddRow(acc, group, weight)
  }

  /** A query id the match loop gets through: a coefficient id whose group reads and names only candidates. */
  predicate Readable(g: Grid, q: nat) {
    q < COEFF_SPACE && Reach(g, q).Ok? &&
    forall k :: 0 <= k < |Reach(g, q).value| ==> Reach(g, q).value[k] < |g.hashes|
  }

  /** Σ over the query ids of the id's weight, once per entry of candidate i in the id's group. */
  function Matched(g: Grid, query: seq<u32>, i: nat): real
    requires forall j :: 0 <= j < |query| ==> Readable(g, query[j])
  {
    if query == [] then 0.0
    else
      var q := query[|query| - 1];
      assert Readable(g, q);
      Matched(g, query[..|query| - 1], i) + Times(Occurrences(Reach(g, q).value, i), Table()[q / 2])
  }

  /**
   * The match loop goes through exactly when every query id is readable,
   * and then leaves each candidate at its matched weight.
   */
  lemma {:induction false} MatchesMeaning(g: Grid, query: seq<u32>)
    ensures Matches(g, query).Ok? <==> forall j :: 0 <= j < |query| ==> Readable(g, query[j])
    ensures Matches(g, query).Ok? ==>
      forall i :: 0 <= i < |g.hashes| ==> Matches(g, query).value[i] == Matched(g, query, i)
    decreases |query|
  {
    if query != [] {
      var init := query[..|query| - 1];
      var q := query[|query| - 1];
      MatchesMeaning(g, init);
      MatchesStep(g, query);
      ReadableSnoc(g, query);
      assert forall j :: 0 <= j < |init| ==> init[j] == query[j];
      if Matches(g, query).Ok? {
        forall i | 0 <= i < |g.hashes|
          ensures Matches(g, query).value[i] == Matched(g, query, i)
        {
          assert Matched(g, query, i) == Matched(g, init, i) + Times(Occurrences(Reach(g, q).value, i), Table()[q / 2]);
        }
      }
    }
  }

  /** Every id of a non-empty query is readable exactly when those before the last are and the last is. */
  lemma ReadableSnoc(g: Grid, query: seq<u32>)
    requires query != []
    ensures (forall j :: 0 <= j < |query| ==> Readable(g, query[j])) <==>
      (forall j :: 0 <= j < |query| - 1 ==> Readable(g, query[j])) && Readable(g, query[|query| - 1])
  {
  }

  /** The match loop's last query id: it goes through when the ids before it did and this one is readable, adding its row. */
  lemma MatchesStep(g: Grid, query: seq<u32>)
    requires query != []
    ensures Matches(g, query).Ok? <==> Matches(g, query[..|query| - 1]).Ok? && Readable(g, query[|query| - 1])
    ensures Matches(g, query).Ok? ==> forall i :: 0 <= i < |g.hashes| ==>
      Matches(g, query).value[i] == Matches(g, query[..|query| - 1]).value[i]
        + Times(Occurrences(Reach(g, query[|query| - 1]).value, i), Table()[query[|query| - 1] / 2])
  {
    var init := query[..|query| - 1];
    var q := query[|query| - 1];
    if Matches(g, init).Ok? && CoeffWeight(q).Ok? && Reach(g, q).Ok? {
      var acc := Matches(g, init).value;
      var group := Reach(g, q).value;
      var w := Table()[q / 2];
      assert Matches(g, query) == AddRow(acc, group, w);
      AddRowAccepts(acc, group, w);
      if AddRow(acc, group, w).Ok? {
        AddRowMeaning(acc, group, w);
      }
    }
  }

  // ------------------------------------------------------------- results

  /**
   * The result loop's test: `metric_value / metric_max` above
   * `limit_coefficients`, and the average-pixel error below
   * `limit_error_averagepixel`.
   */
  predicate Keeps(value: real, max: real, error: real, limitCoefficients: real, limitError: real) {
    Exceeds(value, max, limitCoefficients) && error < limitError
  }

  /** `metric_max`: the query's weight plus the candidate's, less what they share. */
  function MetricMax(g: Grid, w: seq<real>, queryWeight: real, i: nat): real
    requires i < |w| && i < |g.weightsums|
  {
    queryWeight + g.weightsums[i] - w[i]
  }

  /** Candidate i passes both tests. */
  predicate KeepsAt(g: Grid, errors: seq<real>, w: seq<real>, queryWeight: real, limitCoefficients: real, limitError: real, i: nat)
    requires i < |errors| && i < |w| && i < |g.weightsums|
  {
    Keeps(w[i], MetricMax(g, w, queryWeight, i), errors[i], limitCoefficients, limitError)
  }

  /** The result reported for candidate i: its hash as lower-case hex, its error, value and max. */
  function GridReport(g: Grid, errors: seq<real>, w: seq<real>, queryWeight: real, i: nat): QueryResult
    requires i < |g.hashes| && i < |errors| && i < |w| && i < |g.weightsums| && g.hashes[i].Some?
  {
    GridResult(LowerHex(g.hashes[i].value), errors[i], w[i], MetricMax(g, w, queryWeight, i))
  }

  /** The candidates below n that pass both tests, in ascending order. */
  function Kept(g: Grid, errors: seq<real>, w: seq<real>, queryWeight: real, limitCoefficients: real, limitError: real, n: nat): (ks: seq<nat>)
    requires n <= |errors| && n <= |w| && n <= |g.weightsums|
    ensures forall j :: 0 <= j < |ks| ==> ks[j] < n && KeepsAt(g, errors, w, queryWeight, limitCoefficients, limitError, ks[j])
    ensures forall j, l :: 0 <= j < l < |ks| ==> ks[j] < ks[l]
    ensures forall i :: 0 <= i < n && KeepsAt(g, errors, w, queryWeight, limitCoefficients, limitError, i) ==> i in ks
  {
    if n == 0 then []
    else
      var ks := Kept(g, errors, w, queryWeight, limitCoefficients, limitError, n - 1);
      if KeepsAt(g, errors, w, queryWeight, limitCoefficients, limitError, n - 1) then ks + [n - 1] else ks
  }

  /**
   * The result loop over the first n candidates: `weightsums[i]` must
   * exist, and a kept candidate without a hash makes BitConverter throw.
   */
  function GridResults(g: Grid, errors: seq<real>, w: seq<real>, queryWeight: real, limitCoefficients: real, limitError: real, n: nat): (r: Result<seq<QueryResult>>)
    requires n <= |g.hashes| == |errors| == |w|
    ensures r.Err? ==> r.error == IndexOutOfRange || r.error == ArgumentNull
  {
    if n == 0 then Ok([])
    else
      var rs :- GridResults(g, errors, w, queryWeight, limitCoefficients, limitError, n - 1);
      var i := n - 1;
      if i >= |g.weightsums| then Err(IndexOutOfRange)
      else if !KeepsAt(g, errors, w, queryWeight, limitCoefficients, limitError, i) then Ok(rs)
      else if g.hashes[i].None? then Err(ArgumentNull)
      else Ok(rs + [GridReport(g, errors, w, queryWeight, i)])
  }

  /** Every candidate listed has a hash. */
  predicate Hashed(g: Grid, ks: seq<nat>) {
    forall j :: 0 <= j < |ks| ==> ks[j] < |g.hashes| && g.hashes[ks[j]].Some?
  }

  lemma HashedSnoc(g: Grid, ks: seq<nat>, i: nat)
    ensures Hashed(g, ks + [i]) <==> Hashed(g, ks) && i < |g.hashes| && g.hashes[i].Some?
  {
    var l := ks + [i];
    assert l[|ks|] == i;
    assert forall j :: 0 <= j < |ks| ==> l[j] == ks[j];
  }

  /** The result loop fails exactly on a missing weight sum or on a kept candidate without a hash. */
  lemma {:induction false} GridResultsOk(g: Grid, errors: seq<real>, w: seq<real>, queryWeight: real, limitCoefficients: real, limitError: real, n: nat)
    requires n <= |g.hashes| == |errors| == |w|
    ensures GridResults(g, errors, w, queryWeight, limitCoefficients, limitError, n).Ok? <==>
      n <= |g.weightsums| && Hashed(g, Kept(g, errors, w, queryWeight, limitCoefficients, limitError, n))
  {
    if n > 0 {
      var i := n - 1;
      GridResultsOk(g, errors, w, queryWeight, limitCoefficients, limitError, i);
      var prev := GridResults(g, errors, w, queryWeight, limitCoefficients, limitError, i);
      var next := GridResults(g, errors, w, queryWeight, limitCoefficients, limitError, n);
      if i < |g.weightsums| {
        var ks := Kept(g, errors, w, queryWeight, limitCoefficients, limitError, i);
        if KeepsAt(g, errors, w, queryWeight, limitCoefficients, limitError, i) {
          assert Kept(g, errors, w, queryWeight, limitCoefficients, limitError, n) == ks + [i];
          HashedSnoc(g, ks, i);
        } else {
          assert Kept(g, errors, w, queryWeight, limitCoefficients, limitError, n) == ks;
        }
      }
    }
  }

  /** With every weight sum there, the only exception is the missing hash. */
  lemma {:induction false} GridResultsNull(g: Grid, errors: seq<real>, w: seq<real>, queryWeight: real, limitCoefficients: real, limitError: real, n: nat)
    requires n <= |g.hashes| == |errors| == |w|
    ensures n <= |g.weightsums| && GridResults(g, errors, w, queryWeight, limitCoefficients, limitError, n).Err? ==>
      GridResults(g, errors, w, queryWeight, limitCoefficients, limitError, n).error == ArgumentNull
  {
    if n > 0 {
      GridResultsNull(g, errors, w, queryWeight, limitCoefficients, limitError, n - 1);
    }
  }

  /** When the result loop succeeds, it reports the kept candidates in ascending order. */
  lemma {:induction false} GridResultsReport(g: Grid, errors: seq<real>, w: seq<real>, queryWeight: real, limitCoefficients: real, limitError: real, n: nat)
    requires n <= |g.hashes| == |errors| == |w|
    ensures n <= |g.weightsums| && GridResults(g, errors, w, queryWeight, limitCoefficients, limitError, n).Ok? &&
            Hashed(g, Kept(g, errors, w, queryWeight, limitCoefficients, limitError, n)) ==>
      var ks := Kept(g, errors, w, queryWeight, limitCoefficients, limitError, n);
      var rs := GridResults(g, errors, w, queryWeight, limitCoefficients, limitError, n).value;
      |rs| == |ks| && forall j :: 0 <= j < |ks| ==> rs[j] == GridReport(g, errors, w, queryWeight, ks[j])
  {
    if n > 0 {
      var i := n - 1;
      GridResultsReport(g, errors, w, queryWeight, limitCoefficients, limitError, i);
      var prev := GridResults(g, errors, w, queryWeight, limitCoefficients, limitError, i);
      var next := GridResults(g, errors, w, queryWeight, limitCoefficients, limitError, n);
      if next.Ok? {
        assert prev.Ok? && i < |g.weightsums|;
        var ks := Kept(g, errors, w, queryWeight, limitCoefficients, limitError, i);
        if KeepsAt(g, errors, w, queryWeight, limitCoefficients, limitError, i) {
          assert Kept(g, errors, w, queryWeight, limitCoefficients, limitError, n) == ks + [i];
          HashedSnoc(g, ks, i);
          assert next.value == prev.value + [GridReport(g, errors, w, queryWeight, i)];
        } else {
          assert Kept(g, errors, w, queryWeight, limitCoefficients, limitError, n) == ks;
          assert next == prev;
        }
      }
    }
  }

  /**
   * The result loop reports a candidate exactly when it passes both tests,
   * in ascending order; it fails only on a missing weight sum or on a kept
   * candidate without a hash.
   */
  lemma GridResultsMeaning(g: Grid, errors: seq<real>, w: seq<real>, queryWeight: real, limitCoefficients: real, limitError: real, n: nat)
    requires n <= |g.hashes| == |errors| == |w|
    ensures GridResults(g, errors, w, queryWeight, limitCoefficients, limitError, n).Ok? <==>
      n <= |g.weightsums| && Hashed(g, Kept(g, errors, w, queryWeight, limitCoefficients, limitError, n))
    ensures n <= |g.weightsums| && GridResults(g, errors, w, queryWeight, limitCoefficients, limitError, n).Err? ==>
      GridResults(g, errors, w, queryWeight, limitCoefficients, limitError, n).error == ArgumentNull
    ensures GridResults(g, errors, w, queryWeight, limitCoefficients, limitError, n).Ok? ==>
      var ks := Kept(g, errors, w, queryWeight, limitCoefficients, limitError, n);
      var rs := GridResults(g, errors, w, queryWeight, limitCoefficients, limitError, n).value;
      |rs| == |ks| && forall j :: 0 <= j < |ks| ==> rs[j] == GridReport(g, errors, w, queryWeight, ks[j])
  {
    GridResultsOk(g, errors, w, queryWeight, limitCoefficients, limitError, n);
    GridResultsNull(g, errors, w, queryWeight, limitCoefficients, limitError, n);
    GridResultsReport(g, errors, w, queryWeight, limitCoefficients, limitError, n);
  }

  /**
   * The two tests have separate limits: a lower coefficient limit or a
   * higher error limit never drops a kept candidate.
   */
  lemma {:induction false} LoosenedLimitsKeep(g: Grid, errors: seq<real>, w: seq<real>, queryWeight: real,
                                              limitCoefficients: real, limitError: real, looserCoefficients: real, looserError: real, n: nat)
    requires n <= |errors| && n <= |w| && n <= |g.weightsums|
    requires looserCoefficients <= limitCoefficients && limitError <= looserError
    ensures forall j :: 0 <= j < |Kept(g, errors, w, queryWeight, limitCoefficients, limitError, n)| ==>
      Kept(g, errors, w, queryWeight, limitCoefficients, limitError, n)[j] in
        Kept(g, errors, w, queryWeight, looserCoefficients, looserError, n)
  {
    var ks := Kept(g, errors, w, queryWeight, limitCoefficients, limitError, n);
    forall j | 0 <= j < |ks|
      ensures KeepsAt(g, errors, w, queryWeight, looserCoefficients, looserError, ks[j])
    {
      var i := ks[j];
      assert KeepsAt(g, errors, w, queryWeight, limitCoefficients, limitError, i);
      if MetricMax(g, w, queryWeight, i) != 0.0 {
        assert w[i] / MetricMax(g, w, queryWeight, i) > limitCoefficients;
      }
    }
  }

  // --------------------------------------------------------------- query

  /**
   * ExecuteQuery: Sum_Weights of the query, the error loop over the
   * query's averages, the match loop over its ids, then the result loop
   * over every hash.
   */
  function Query(g: Grid, q: SigValue, limitCoefficients: real, limitError: real): (r: Result<seq<QueryResult>>)
    requires q.kind.HaarKind?
    ensures r.Err? && r.error != ArgumentNull ==> r.error == IndexOutOfRange
  {
    SumLookUpMeaning(q.sigData);
    var queryWeight :- SumLookUp(q.sigData);
    var errors :- PixelErrors(g, q.kind.averages, |q.kind.averages|);
    var w :- Matches(g, q.sigData);
    GridResults(g, errors, w, queryWeight, limitCoefficients, limitError, |g.hashes|)
  }

  // ----------------------------------------------- against the signatures

  /** A grid FromSignatures lays out is square, with one weight sum per hash. */
  lemma GridOfShape(ps: seq<SigValue>, g: Grid)
    requires |ps| <= INT32_MAX && forall j :: 0 <= j < |ps| ==> Fits(ps[j])
    requires GroupsLength(GridLists(ps), COEFF_SPACE) <= INT32_MAX && g == GridOf(ps)
    ensures Square(g) && |g.hashes| == |g.weightsums| == |ps|
    ensures forall i :: 0 <= i < |ps| ==>
      g.hashes[i] == ps[i].hash && g.weightsums[i] == SumOf(ps[i].sigData) &&
      Column(g, i) == ps[i].kind.averages[..CHANNEL_COUNT]
  {
    forall i | 0 <= i < |ps|
      ensures Column(g, i) == ps[i].kind.averages[..CHANNEL_COUNT]
    {
      assert Fits(ps[i]);
    }
  }

  /**
   * On a laid-out grid every coefficient id is readable, and its group
   * names entry i once per time entry i holds the id.
   */
  lemma GridOfReach(ps: seq<SigValue>, g: Grid, c: nat)
    requires |ps| <= INT32_MAX && forall j :: 0 <= j < |ps| ==> Fits(ps[j])
    requires GroupsLength(GridLists(ps), COEFF_SPACE) <= INT32_MAX && g == GridOf(ps) && c < COEFF_SPACE
    ensures Readable(g, c)
    ensures forall i :: 0 <= i < |ps| ==> Occurrences(Reach(g, c).value, i) == multiset(ps[i].sigData)[c]
  {
    GridGroups(ps, c);
  }

  /** Over a laid-out grid, what the match loop gives each entry is its overlap with the query. */
  lemma {:induction false} GridOfMatched(ps: seq<SigValue>, g: Grid, query: seq<u32>, i: nat)
    requires |ps| <= INT32_MAX && forall j :: 0 <= j < |ps| ==> Fits(ps[j])
    requires GroupsLength(GridLists(ps), COEFF_SPACE) <= INT32_MAX && g == GridOf(ps)
    requires InTable(query) && i < |ps|
    requires forall j :: 0 <= j < |query| ==> Readable(g, query[j])
    ensures Matched(g, query, i) == HaarMatrix.Overlap(query, ps[i].sigData)
    decreases |query|
  {
    if query != [] {
      var init := query[..|query| - 1];
      assert forall j :: 0 <= j < |init| ==> init[j] == query[j];
      GridOfMatched(ps, g, init, i);
      GridOfReach(ps, g, query[|query| - 1]);
    }
  }

  /**
   * Over a laid-out grid the match loop fails exactly on a query id past
   * WeightLookUp, and otherwise gives every entry its overlap with the
   * query, as the sparse-matrix builders do.
   */
  lemma GridOfMatches(ps: seq<SigValue>, g: Grid, query: seq<u32>)
    requires |ps| <= INT32_MAX && forall j :: 0 <= j < |ps| ==> Fits(ps[j])
    requires GroupsLength(GridLists(ps), COEFF_SPACE) <= INT32_MAX && g == GridOf(ps)
    ensures Matches(g, query).Ok? <==> InTable(query)
    ensures InTable(query) ==>
      forall i :: 0 <= i < |ps| ==> Matches(g, query).value[i] == HaarMatrix.Overlap(query, ps[i].sigData)
  {
    MatchesMeaning(g, query);
    forall j | 0 <= j < |query| && query[j] < COEFF_SPACE
      ensures Readable(g, query[j])
    {
      GridOfReach(ps, g, query[j]);
    }
    if InTable(query) {
      forall i | 0 <= i < |ps|
        ensures Matched(g, query, i) == HaarMatrix.Overlap(query, ps[i].sigData)
      {
        GridOfMatched(ps, g, query, i);
      }
    }
  }

  /** A Haar query ExecuteQuery answers from a laid-out grid: three averages and ids that index WeightLookUp. */
  predicate Askable(q: SigValue) {
    q.kind.HaarKind? && |q.kind.averages| == CHANNEL_COUNT && InTable(q.sigData)
  }

  /**
   * The reference result loop, computed from the entries themselves: the
   * weighted distance of the averages, the overlap of the ids and the two
   * weight sums, with the same two tests.
   */
  function DirectResults(ps: seq<SigValue>, q: SigValue, limitCoefficients: real, limitError: real, n: nat): Result<seq<QueryResult>>
    requires n <= |ps| && (forall j :: 0 <= j < |ps| ==> Fits(ps[j])) && Askable(q)
  {
    if n == 0 then Ok([])
    else
      var rs :- DirectResults(ps, q, limitCoefficients, limitError, n - 1);
      assert Fits(ps[n - 1]);
      var more :- DirectEntry(ps[n - 1], q, limitCoefficients, limitError);
      Ok(rs + more)
  }

  /** What the reference loop reports for one entry: nothing, the entry's result, or the exception of a kept entry without a hash. */
  function DirectEntry(v: SigValue, q: SigValue, limitCoefficients: real, limitError: real): Result<seq<QueryResult>>
    requires Fits(v) && Askable(q)
  {
    var error := HaarIndex.YuvDistance(q.kind.averages, v.kind.averages);
    var value := HaarMatrix.Overlap(q.sigData, v.sigData);
    var max := SumOf(q.sigData) + SumOf(v.sigData) - value;
    if !Keeps(value, max, error, limitCoefficients, limitError) then Ok([])
    else if v.hash.None? then Err(ArgumentNull)
    else Ok([GridResult(LowerHex(v.hash.value), error, value, max)])
  }

  /** The grid's columns hold each entry's hash and weight sum, and its distance and overlap from the query. */
  predicate Columns(ps: seq<SigValue>, g: Grid, q: SigValue, errors: seq<real>, w: seq<real>)
    requires (forall j :: 0 <= j < |ps| ==> Fits(ps[j])) && Askable(q)
    requires |ps| == |g.hashes| == |g.weightsums| == |errors| == |w|
  {
    forall i :: 0 <= i < |ps| ==>
      Fits(ps[i]) && g.hashes[i] == ps[i].hash && g.weightsums[i] == SumOf(ps[i].sigData) &&
      errors[i] == HaarIndex.YuvDistance(q.kind.averages, ps[i].kind.averages) &&
      w[i] == HaarMatrix.Overlap(q.sigData, ps[i].sigData)
  }

  /** The result loop's step for candidate i gives what the reference loop reports for entry i. */
  lemma EntryDirect(ps: seq<SigValue>, g: Grid, q: SigValue, errors: seq<real>, w: seq<real>,
                    limitCoefficients: real, limitError: real, i: nat)
    requires (forall j :: 0 <= j < |ps| ==> Fits(ps[j])) && Askable(q)
    requires i < |ps| == |g.hashes| == |g.weightsums| == |errors| == |w|
    requires Columns(ps, g, q, errors, w)
    ensures !KeepsAt(g, errors, w, SumOf(q.sigData), limitCoefficients, limitError, i) ==>
      DirectEntry(ps[i], q, limitCoefficients, limitError) == Ok([])
    ensures KeepsAt(g, errors, w, SumOf(q.sigData), limitCoefficients, limitError, i) && g.hashes[i].None? ==>
      DirectEntry(ps[i], q, limitCoefficients, limitError) == Err(ArgumentNull)
    ensures KeepsAt(g, errors, w, SumOf(q.sigData), limitCoefficients, limitError, i) && g.hashes[i].Some? ==>
      DirectEntry(ps[i], q, limitCoefficients, limitError) == Ok([GridReport(g, errors, w, SumOf(q.sigData), i)])
  {
    var v := ps[i];
    assert Fits(v);
    var value := HaarMatrix.Overlap(q.sigData, v.sigData);
    var max := SumOf(q.sigData) + SumOf(v.sigData) - value;
    assert MetricMax(g, w, SumOf(q.sigData), i) == max;
  }

  /** The result loop over a grid whose columns hold the entries' distances, overlaps and weight sums is the reference loop. */
  lemma {:induction false} ResultsDirect(ps: seq<SigValue>, g: Grid, q: SigValue, errors: seq<real>, w: seq<real>,
                                         limitCoefficients: real, limitError: real, n: nat)
    requires (forall j :: 0 <= j < |ps| ==> Fits(ps[j])) && Askable(q)
    requires n <= |ps| == |g.hashes| == |g.weightsums| == |errors| == |w|
    requires Columns(ps, g, q, errors, w)
    ensures GridResults(g, errors, w, SumOf(q.sigData), limitCoefficients, limitError, n) ==
      DirectResults(ps, q, limitCoefficients, limitError, n)
  {
    if n > 0 {
      ResultsDirect(ps, g, q, errors, w, limitCoefficients, limitError, n - 1);
      var i := n - 1;
      var v := ps[i];
      assert Fits(v);
      var prev := DirectResults(ps, q, limitCoefficients, limitError, i);
      var a := GridResults(g, errors, w, SumOf(q.sigData), limitCoefficients, limitError, n);
      var b := DirectResults(ps, q, limitCoefficients, limitError, n);
      EntryDirect(ps, g, q, errors, w, limitCoefficients, limitError, i);
      var keeps := KeepsAt(g, errors, w, SumOf(q.sigData), limitCoefficients, limitError, i);
      if prev.Err? {
        assert a == prev && b == prev;
      } else if !keeps {
        assert a == prev;
        assert b == Ok(prev.value + []) && prev.value + [] == prev.value;
      } else if g.hashes[i].None? {
        assert a == Err(ArgumentNull) && b == Err(ArgumentNull);
      } else {
        assert a == Ok(prev.value + [GridReport(g, errors, w, SumOf(q.sigData), i)]) == b;
      }
    }
  }

  /**
   * ExecuteQuery on a grid laid out from a list of entries reports what
   * the reference loop computes from the entries themselves: a query id
   * past WeightLookUp is an index error, and otherwise exactly the entries
   * that pass both tests, in list order.
   */
  lemma GridOfQuery(ps: seq<SigValue>, g: Grid, q: SigValue, limitCoefficients: real, limitError: real)
    requires |ps| <= INT32_MAX && forall j :: 0 <= j < |ps| ==> Fits(ps[j])
    requires GroupsLength(GridLists(ps), COEFF_SPACE) <= INT32_MAX && g == GridOf(ps)
    requires q.kind.HaarKind? && |q.kind.averages| == CHANNEL_COUNT
    ensures !InTable(q.sigData) ==> Query(g, q, limitCoefficients, limitError) == Err(IndexOutOfRange)
    ensures InTable(q.sigData) ==> Query(g, q, limitCoefficients, limitError) == DirectResults(ps, q, limitCoefficients, limitError, |ps|)
  {
    SumLookUpMeaning(q.sigData);
    if InTable(q.sigData) {
      var qa := q.kind.averages;
      GridOfShape(ps, g);
      SquareErrors(g, qa);
      GridOfMatches(ps, g, q.sigData);
      var errors := PixelErrors(g, qa, |qa|).value;
      var w := Matches(g, q.sigData).value;
      forall i | 0 <= i < |ps|
        ensures errors[i] == HaarIndex.YuvDistance(qa, ps[i].kind.averages)
      {
        assert Fits(ps[i]);
        HaarIndex.YuvPartPrefix(qa, Column(g, i), ps[i].kind.averages, CHANNEL_COUNT);
      }
      assert Columns(ps, g, q, errors, w);
      ResultsDirect(ps, g, q, errors, w, limitCoefficients, limitError, |ps|);
    }
  }

  /** A grid FromSignatures returns is the layout of the admitted entries, all of which fit. */
  lemma BuiltGrid(maxCoefficient: int, sigs: seq<Signature>, vs: seq<SigValue>, g: Grid)
    requires |sigs| == |vs| <= INT32_MAX && Faithful(sigs, vs) && Build(maxCoefficient, sigs, vs) == Ok(g)
    ensures forall j :: 0 <= j < |Admit(sigs, Ids(vs), |sigs|).order| ==> Fits(Picked(vs, Admit(sigs, Ids(vs), |sigs|).order)[j])
    ensures GroupsLength(GridLists(Picked(vs, Admit(sigs, Ids(vs), |sigs|).order)), COEFF_SPACE) <= INT32_MAX
    ensures g == GridOf(Picked(vs, Admit(sigs, Ids(vs), |sigs|).order))
  {
    var a := Admit(sigs, Ids(vs), |sigs|);
    var ps := Picked(vs, a.order);
    AdmitConsistent(sigs, vs);
    ConsistentAccepts(maxCoefficient, vs, a);
    PickedFit(vs, a);
    assert BuildFrom(maxCoefficient, vs, a) == Ok(g);
    assert g == GridOf(ps);
  }

  /**
   * ExecuteQuery on a grid FromSignatures built: a query id past
   * WeightLookUp is an index error, and otherwise the reference loop over
   * the admitted signatures, in the order they were admitted.
   */
  lemma BuiltQuery(maxCoefficient: int, sigs: seq<Signature>, vs: seq<SigValue>, g: Grid,
                   q: SigValue, limitCoefficients: real, limitError: real)
    requires |sigs| == |vs| <= INT32_MAX && Faithful(sigs, vs) && Build(maxCoefficient, sigs, vs) == Ok(g)
    requires q.kind.HaarKind? && |q.kind.averages| == CHANNEL_COUNT
    ensures !InTable(q.sigData) ==> Query(g, q, limitCoefficients, limitError) == Err(IndexOutOfRange)
    ensures forall j :: 0 <= j < |Admit(sigs, Ids(vs), |sigs|).order| ==> Fits(Picked(vs, Admit(sigs, Ids(vs), |sigs|).order)[j])
    ensures InTable(q.sigData) ==>
      Query(g, q, limitCoefficients, limitError) ==
        DirectResults(Picked(vs, Admit(sigs, Ids(vs), |sigs|).order), q, limitCoefficients, limitError, |Admit(sigs, Ids(vs), |sigs|).order|)
  {
    BuiltGrid(maxCoefficient, sigs, vs, g);
    GridOfQuery(Picked(vs, Admit(sigs, Ids(vs), |sigs|).order), g, q, limitCoefficients, limitError);
  }

  // ------------------------------------------------------------ the loops

  /** Once the error loop has failed on the first n channels, it fails on all of them. */
  lemma {:induction false} PixelErrorsFail(g: Grid, qa: seq<real>, n: nat, m: nat)
    requires n <= m <= |qa| && PixelErrors(g, qa, n).Err?
    ensures PixelErrors(g, qa, m) == Err(IndexOutOfRange)
    decreases m - n
  {
    if n < m {
      PixelErrorsFail(g, qa, n, m - 1);
    }
  }

  /** One pass of the error loop: `error_averagepixel[i] += Weights[1, 0, channel] * |average - row[i]|` for every i of the row. */
  method AddChannelLoop(errors: array<real>, row: seq<real>, average: real, c: nat)
    requires |row| <= errors.Length && c < CHANNEL_COUNT
    modifies errors
    ensures errors[..] == AddChannel(old(errors[..]), row, average, c)
  {
    ghost var before := errors[..];
    for i := 0 to |row|
      invariant forall k :: 0 <= k < errors.Length ==>
        errors[k] == if k < i then before[k] + Weights(1, 0, c) * Abs(average - row[k]) else before[k]
    {
      errors[i] := errors[i] + Weights(1, 0, c) * Abs(average - row[i]);
    }
  }

  /** The error loop of ExecuteQuery: one pass per query average, over that channel's row. */
  method ErrorLoop(g: Grid, qa: seq<real>) returns (r: Result<seq<real>>)
    ensures r == PixelErrors(g, qa, |qa|)
  {
    var errors := new real[|g.hashes|](_ => 0.0);
    assert errors[..] == seq(|g.hashes|, _ => 0.0);
    for channel := 0 to |qa|
      invariant PixelErrors(g, qa, channel) == Ok(errors[..])
    {
      if channel >= |g.avgls| || (|g.avgls[channel]| > 0 && (|g.avgls[channel]| > errors.Length || channel >= CHANNEL_COUNT)) {
        PixelErrorsFail(g, qa, channel + 1, |qa|);
        return Err(IndexOutOfRange);
      }
      if |g.avgls[channel]| > 0 {
        AddChannelLoop(errors, g.avgls[channel], qa[channel], channel);
      }
    }
    return Ok(errors[..]);
  }

  /**
   * The inner while loop of the match: the count at `groups[gi]`, then the
   * uint iterator from `gi + 1` up to `gi + 1 + count`, adding the weight
   * to the accumulator of every member it reads. It succeeds exactly when
   * the group reads and names only candidates.
   */
  method AddGroup(matches: array<real>, groups: seq<u32>, gi: u32, weight: real) returns (ok: bool)
    modifies matches
    ensures ok <==> GroupAt(groups, gi).Ok? && AddRow(old(matches[..]), GroupAt(groups, gi).value, weight).Ok?
    ensures ok ==> matches[..] == AddRow(old(matches[..]), GroupAt(groups, gi).value, weight).value
  {
    if gi >= |groups| {
      return false;
    }
    ghost var initial := matches[..];
    var start := (gi + 1) % 0x1_0000_0000;
    var end := (start + groups[gi]) % 0x1_0000_0000;
    var it := start;
    while it < end
      invariant start <= it <= |groups| && (start < end ==> it <= end)
      invariant start >= end ==> matches[..] == initial
      invariant start < end <= |groups| ==>
        AddRow(matches[..], groups[it..end], weight) == AddRow(initial, groups[start..end], weight)
      decreases end - it
    {
      if it >= |groups| {
        return false;
      }
      var id := groups[it];
      if id >= matches.Length {
        return false;
      }
      if end <= |groups| {
        assert groups[it..end][1..] == groups[it + 1..end];
      }
      matches[id] := matches[id] + weight;
      it := it + 1;
    }
    assert start < end ==> groups[it..end] == [];
    return true;
  }

  /** Once the match loop has failed on the first j query ids, the whole query fails. */
  lemma {:induction false} MatchesFail(g: Grid, query: seq<u32>, j: nat)
    requires j <= |query| && Matches(g, query[..j]).Err?
    ensures Matches(g, query) == Err(IndexOutOfRange)
    decreases |query| - j
  {
    if j < |query| {
      assert query[..j + 1][..j] == query[..j];
      MatchesFail(g, query, j + 1);
    } else {
      assert query[..j] == query;
    }
  }

  /** The match loop of ExecuteQuery: the weight and offset of each query id, then its group through AddGroup. */
  method MatchLoop(g: Grid, query: seq<u32>) returns (r: Result<seq<real>>)
    ensures r == Matches(g, query)
  {
    var matches := new real[|g.hashes|](_ => 0.0);
    assert query[..0] == [] && matches[..] == seq(|g.hashes|, _ => 0.0);
    for j := 0 to |query|
      invariant Matches(g, query[..j]) == Ok(matches[..])
    {
      assert query[..j + 1][..j] == query[..j];
      var coeff := query[j];
      var weight := CoeffWeight(coeff);
      if weight.Err? || coeff >= |g.offsets| {
        MatchesFail(g, query, j + 1);
        return Err(IndexOutOfRange);
      }
      var gi := g.offsets[coeff];
      if gi != 0 {
        var ok := AddGroup(matches, g.groups, gi, weight.value);
        if !ok {
          MatchesFail(g, query, j + 1);
          return Err(IndexOutOfRange);
        }
      }
    }
    assert query[..|query|] == query;
    return Ok(matches[..]);
  }

  /** Once the result loop has failed on the first n candidates, it fails the same way on all of them. */
  lemma {:induction false} GridResultsFail(g: Grid, errors: seq<real>, w: seq<real>, queryWeight: real,
                                           limitCoefficients: real, limitError: real, n: nat, m: nat)
    requires n <= m <= |g.hashes| == |errors| == |w|
    requires GridResults(g, errors, w, queryWeight, limitCoefficients, limitError, n).Err?
    ensures GridResults(g, errors, w, queryWeight, limitCoefficients, limitError, m) ==
      GridResults(g, errors, w, queryWeight, limitCoefficients, limitError, n)
    decreases m - n
  {
    if n < m {
      GridResultsFail(g, errors, w, queryWeight, limitCoefficients, limitError, n, m - 1);
    }
  }

  /** The result loop of ExecuteQuery: every candidate in order, appending the kept ones. */
  method ResultLoop(g: Grid, errors: seq<real>, w: seq<real>, queryWeight: real, limitCoefficients: real, limitError: real)
    returns (r: Result<seq<QueryResult>>)
    requires |g.hashes| == |errors| == |w|
    ensures r == GridResults(g, errors, w, queryWeight, limitCoefficients, limitError, |g.hashes|)
  {
    var v := [];
    for i := 0 to |g.hashes|
      invariant GridResults(g, errors, w, queryWeight, limitCoefficients, limitError, i) == Ok(v)
    {
      if i >= |g.weightsums| {
        GridResultsFail(g, errors, w, queryWeight, limitCoefficients, limitError, i + 1, |g.hashes|);
        return Err(IndexOutOfRange);
      }
      var metricValue := w[i];
      var metricMax := queryWeight + g.weightsums[i] - w[i];
      if Exceeds(metricValue, metricMax, limitCoefficients) && errors[i] < limitError {
        if g.hashes[i].None? {
          GridResultsFail(g, errors, w, queryWeight, limitCoefficients, limitError, i + 1, |g.hashes|);
          return Err(ArgumentNull);
        }
        v := v + [GridResult(LowerHex(g.hashes[i].value), errors[i], metricValue, metricMax)];
      }
    }
    return Ok(v);
  }

  /** ExecuteQuery over the grid's arrays: Sum_Weights, then the three loops in the source's order. */
  method QueryLoop(g: Grid, q: SigValue, limitCoefficients: real, limitError: real) returns (r: Result<seq<QueryResult>>)
    requires q.kind.HaarKind?
    ensures r == Query(g, q, limitCoefficients, limitError)
  {
    var queryWeight := SumWeights(q.sigData);
    if queryWeight.Err? {
      return Err(queryWeight.error);
    }
    var errors := ErrorLoop(g, q.kind.averages);
    if errors.Err? {
      return Err(errors.error);
    }
    var w := MatchLoop(g, q.sigData);
    if w.Err? {
      return Err(w.error);
    }
    r := ResultLoop(g, errors.value, w.value, queryWeight.value, limitCoefficients, limitError);
  }
}
