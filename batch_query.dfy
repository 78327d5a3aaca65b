/**
 * iqdb_batch_query: every signature of the .hsigs files given is looked up in
 * the .qsm and .hsm matrices given, a batch of `cores` signatures at a time,
 * one worker per signature; each worker reports its 40 best results that are
 * not the query image itself, and the merged reports of a batch are appended,
 * best first, to `<output name>_rel.csv`.
 */
module BatchQuery {
  import opened Wire
  import opened Text
  import opened Signatures
  import opened QueryResults
  import opened HaarStream
  import HaarIndex
  import IntegerMatrix
  import Csr

  // ------------------------------------------------------------ scores and order

  /** MetricValue / MetricMax; a zero maximum, where the single-precision division gives NaN or infinity, counts as 0. */
  function Ratio(value: real, max: real): real {
    if max == 0.0 then 0.0 else value / max
  }

  /**
   * QueryResult.Score: a Haar result weighs the metric ratio 0.8 and the
   * closeness of the average colours 0.2; an integer result is the metric ratio.
   */
  function Score(r: QueryResult): real {
    match r
    case HaarResult(_, yuv, mv, mm) => Ratio(mv, mm) * 0.8 + 0.2 * (1.0 - yuv)
    case IntegerResult(_, mv, mm) => Ratio(mv, mm)
    case GridResult(_, _, mv, mm) => Ratio(mv, mm)
  }

  /** A metric value between 0 and its maximum gives a ratio in [0, 1]. */
  lemma RatioBounds(value: real, max: real)
    requires 0.0 <= value <= max
    ensures 0.0 <= Ratio(value, max) <= 1.0
  {
    if max != 0.0 {
      var q := value / max;
      assert q * max == value;
    }
  }

  /**
   * A result whose metric value lies between 0 and its maximum, and whose
   * colour distance lies in [0, 1] for a Haar result, scores in [0, 1].
   */
  lemma ScoreBounds(r: QueryResult)
    requires 0.0 <= r.metricValue <= r.metricMax && (r.HaarResult? ==> 0.0 <= r.yuvDistance <= 1.0)
    ensures 0.0 <= Score(r) <= 1.0
  {
    RatioBounds(r.metricValue, r.metricMax);
  }

  /** With the maximum and the colour distance fixed, a larger metric value scores higher. */
  lemma ScoreGrows(r: QueryResult, value: real)
    requires r.metricMax > 0.0 && r.metricValue < value
    ensures Score(r) < Score(r.(metricValue := value))
  {
    var m := r.metricMax;
    assert value / m - r.metricValue / m == (value - r.metricValue) / m;
  }

  /** The order List.Sort leaves under QueryResult.CompareTo, which compares scores the other way round: best first. */
  predicate Descending<T>(s: seq<T>, key: T -> real) {
    forall i, j :: 0 <= i < j < |s| ==> key(s[i]) >= key(s[j])
  }

  lemma UpperBoundKept<T>(high: real, x: T, s: seq<T>, r: seq<T>, key: T -> real)
    requires key(x) <= high && forall k :: 0 <= k < |s| ==> key(s[k]) <= high
    requires multiset(r) == multiset(s) + multiset{x}
    ensures forall k :: 0 <= k < |r| ==> key(r[k]) <= high
  {
    forall k | 0 <= k < |r|
      ensures key(r[k]) <= high
    {
      assert r[k] in multiset(r);
      assert r[k] == x || r[k] in multiset(s);
    }
  }

  /** An element no lower than any of a descending list goes in front of it. */
  lemma ConsDescending<T>(h: T, rest: seq<T>, key: T -> real)
    requires Descending(rest, key) && forall k :: 0 <= k < |rest| ==> key(rest[k]) <= key(h)
    ensures Descending([h] + rest, key)
  {
    var r := [h] + rest;
    forall i, j | 0 <= i < j < |r|
      ensures key(r[i]) >= key(r[j])
    {
      assert r[j] == rest[j - 1];
      if i > 0 {
        assert r[i] == rest[i - 1];
      }
    }
  }

  /** The tail of a descending list is descending, and its head is its highest. */
  lemma DescendingTail<T>(s: seq<T>, key: T -> real)
    requires s != [] && Descending(s, key)
    ensures Descending(s[1..], key) && forall k :: 0 <= k < |s[1..]| ==> key(s[1..][k]) <= key(s[0])
  {
    forall i, j | 0 <= i < j < |s[1..]|
      ensures key(s[1..][i]) >= key(s[1..][j])
    {
      assert s[1..][i] == s[i + 1] && s[1..][j] == s[j + 1];
    }
    forall k | 0 <= k < |s[1..]|
      ensures key(s[1..][k]) <= key(s[0])
    {
      assert s[1..][k] == s[k + 1];
    }
  }

  function Insert<T>(x: T, s: seq<T>, key: T -> real): (r: seq<T>)
    requires Descending(s, key)
    ensures Descending(r, key) && multiset(r) == multiset(s) + multiset{x} && |r| == |s| + 1
  {
    if s == [] then
      ConsDescending(x, s, key);
      [x]
    else
      DescendingTail(s, key);
      assert s == [s[0]] + s[1..];
      if key(x) >= key(s[0]) then
        ConsDescending(x, s, key);
        [x] + s
      else
        var rest := Insert(x, s[1..], key);
        UpperBoundKept(key(s[0]), x, s[1..], rest, key);
        ConsDescending(s[0], rest, key);
        assert multiset([s[0]] + rest) == multiset{s[0]} + multiset(rest);
        [s[0]] + rest
  }

  /**
   * List.Sort under CompareTo: a rearrangement of the list with the best
   * score first. The library sort is unstable; equal scores keep their list
   * order here, which is one of the orders it may leave.
   */
  function SortDescending<T>(s: seq<T>, key: T -> real): (r: seq<T>)
    ensures Descending(r, key) && multiset(r) == multiset(s) && |r| == |s|
  {
    if s == [] then []
    else
      assert s == [s[0]] + s[1..];
      Insert(s[0], SortDescending(s[1..], key), key)
  }

  // ------------------------------------------------------------ one worker

  /** A loaded matrix: a .qsm file holds an IntegerQuerySparseMatrix, a .hsm file a HaarQuerySparseMatrix. */
  datatype Matrix = IntegerMatrixOf(intIndex: IntegerMatrix.IntIndex) | HaarMatrixOf(haarIndex: HaarIndex.Index)

  /**
   * QuerySparseMatrix.ExecuteQuery, a virtual method: the workers and the
   * reading loop take it as a parameter. Execute below is the one the two
   * loaded matrix classes implement; what is proved about Run holds for
   * any executor, so for Execute too.
   */
  type Executor = (Matrix, SigValue, real) -> Result<seq<QueryResult>>

  /** QuerySparseMatrix.ExecuteQuery of the matrix's class. */
  function Execute(m: Matrix, q: SigValue, limit: real): (r: Result<seq<QueryResult>>)
    ensures m.HaarMatrixOf? && !q.kind.HaarKind? ==> r == Err(InvalidData)
    ensures r.Ok? && m.IntegerMatrixOf? ==> forall k :: 0 <= k < |r.value| ==> r.value[k].IntegerResult?
    ensures r.Ok? && m.HaarMatrixOf? ==> forall k :: 0 <= k < |r.value| ==>
      r.value[k].HaarResult? && r.value[k].yuvDistance < limit
    ensures r.Ok? ==> forall k :: 0 <= k < |r.value| ==> Csr.Exceeds(r.value[k].metricValue, r.value[k].metricMax, limit)
  {
    match m
    case IntegerMatrixOf(ix) => IntegerMatrix.Query(ix, q, limit)
    case HaarMatrixOf(ix) => HaarIndex.Query(ix, q, limit)
  }

  /** The lists of the first n outcomes joined in order; the first exception among them is the one raised. */
  function Joined<T>(outcomes: seq<Result<seq<T>>>, n: nat): Result<seq<T>>
    requires n <= |outcomes|
  {
    if n == 0 then Ok([])
    else
      var xs :- Joined(outcomes, n - 1);
      var more :- outcomes[n - 1];
      Ok(xs + more)
  }

  /** One more outcome: an exception is the one raised, a list is appended. */
  lemma JoinedStep<T>(outcomes: seq<Result<seq<T>>>, k: nat, xs: seq<T>)
    requires k < |outcomes| && Joined(outcomes, k) == Ok(xs)
    ensures outcomes[k].Err? ==> Joined(outcomes, k + 1) == Err(outcomes[k].error)
    ensures outcomes[k].Ok? ==> Joined(outcomes, k + 1) == Ok(xs + outcomes[k].value)
  {
  }

  /** Once an exception is raised, later outcomes change nothing. */
  lemma {:induction false} JoinedFails<T>(outcomes: seq<Result<seq<T>>>, k: nat, n: nat)
    requires k <= n <= |outcomes| && Joined(outcomes, k).Err?
    ensures Joined(outcomes, n) == Joined(outcomes, k)
    decreases n
  {
    if n > k {
      JoinedFails(outcomes, k, n - 1);
    }
  }

  /** What ExecuteQuery gives for the query on each matrix. */
  function Executed(execute: Executor, mats: seq<Matrix>, q: SigValue, limit: real): (outcomes: seq<Result<seq<QueryResult>>>)
    ensures |outcomes| == |mats| && forall k :: 0 <= k < |mats| ==> outcomes[k] == execute(mats[k], q, limit)
  {
    seq(|mats|, k requires 0 <= k < |mats| => execute(mats[k], q, limit))
  }

  /** The results whose hash is not the query's HashString, in order: the ones a worker may report. */
  function Others(rs: seq<QueryResult>, self: string): seq<QueryResult> {
    if rs == [] then []
    else Others(rs[..|rs| - 1], self) + (if rs[|rs| - 1].hash == self then [] else [rs[|rs| - 1]])
  }

  lemma {:induction false} OthersAppend(a: seq<QueryResult>, b: seq<QueryResult>, self: string)
    ensures Others(a + b, self) == Others(a, self) + Others(b, self)
    decreases |b|
  {
    if b == [] {
      assert a + b == a;
    } else {
      var init, r := b[..|b| - 1], b[|b| - 1];
      assert (a + b)[..|a + b| - 1] == a + init;
      OthersAppend(a, init, self);
    }
  }

  /** No self-match is kept, nothing is kept that was not there, and every other result is kept. */
  lemma {:induction false} OthersMeaning(rs: seq<QueryResult>, self: string)
    ensures forall i :: 0 <= i < |Others(rs, self)| ==> Others(rs, self)[i].hash != self && Others(rs, self)[i] in rs
    ensures forall k :: 0 <= k < |rs| && rs[k].hash != self ==> rs[k] in Others(rs, self)
  {
    if rs != [] {
      var init, r := rs[..|rs| - 1], rs[|rs| - 1];
      assert rs == init + [r];
      OthersMeaning(init, self);
      var o := Others(init, self);
      assert forall i :: 0 <= i < |o| ==> o[i] in init ==> o[i] in rs;
      assert forall k :: 0 <= k < |init| ==> init[k] == rs[k];
    }
  }

  /** Passing over results keeps a list best first. */
  lemma {:induction false} OthersDescending(rs: seq<QueryResult>, self: string)
    requires Descending(rs, Score)
    ensures Descending(Others(rs, self), Score)
  {
    if rs != [] {
      var init, r := rs[..|rs| - 1], rs[|rs| - 1];
      assert Descending(init, Score);
      OthersDescending(init, self);
      OthersMeaning(init, self);
      var o := Others(init, self);
      forall i | 0 <= i < |o|
        ensures Score(o[i]) >= Score(r)
      {
        var k :| 0 <= k < |init| && init[k] == o[i];
        assert rs[k] == init[k];
      }
    }
  }

  /** A result with the query it answers, as `r.Query = this.Query` sets it before the result goes into the bag. */
  datatype Match = Match(query: SigValue, result: QueryResult)

  function MatchScore(m: Match): real {
    Score(m.result)
  }

  /** The number of results a worker reports. */
  const REPORTED: nat := 40

  function Attach(q: SigValue, rs: seq<QueryResult>): (ms: seq<Match>)
    ensures |ms| == |rs| && forall i :: 0 <= i < |rs| ==> ms[i] == Match(q, rs[i])
  {
    seq(|rs|, i requires 0 <= i < |rs| => Match(q, rs[i]))
  }

  /** What a worker reports from its sorted results: the first 40 whose hash is not the query's own. */
  function Reported(q: SigValue, sorted: seq<QueryResult>): seq<Match> {
    var others := Others(sorted, HashString(q.hash));
    Attach(q, if |others| <= REPORTED then others else others[..REPORTED])
  }

  /**
   * What a worker reports: at most 40 results, each answering its query and
   * none the query image itself, best first, all among the results; a result
   * left out that is not the query image scores no higher than any reported.
   */
  lemma ReportedMeaning(q: SigValue, sorted: seq<QueryResult>)
    requires Descending(sorted, Score)
    ensures var ms := Reported(q, sorted);
      |ms| <= REPORTED && Descending(ms, MatchScore) &&
      forall i :: 0 <= i < |ms| ==> ms[i].query == q && ms[i].result.hash != HashString(q.hash) && ms[i].result in sorted
    ensures var ms := Reported(q, sorted);
      var others := Others(sorted, HashString(q.hash));
      forall i, j :: 0 <= i < |ms| <= j < |others| ==> MatchScore(ms[i]) >= Score(others[j])
  {
    var self := HashString(q.hash);
    OthersMeaning(sorted, self);
    OthersDescending(sorted, self);
  }

  /** Fewer than 40 reports means that every result but the query image's own was reported. */
  lemma ReportedAll(q: SigValue, sorted: seq<QueryResult>)
    requires |Reported(q, sorted)| < REPORTED
    ensures forall k :: 0 <= k < |sorted| && sorted[k].hash != HashString(q.hash) ==>
      Match(q, sorted[k]) in Reported(q, sorted)
  {
    var self := HashString(q.hash);
    OthersMeaning(sorted, self);
    var others := Others(sorted, self);
    forall k | 0 <= k < |sorted| && sorted[k].hash != self
      ensures Match(q, sorted[k]) in Reported(q, sorted)
    {
      var i :| 0 <= i < |others| && others[i] == sorted[k];
      assert Reported(q, sorted)[i] == Match(q, sorted[k]);
    }
  }

  /** ThreadRun as a function of the matrices, the query and the limit coefficient. */
  function ThreadResults(execute: Executor, mats: seq<Matrix>, q: SigValue, limit: real): (r: Result<seq<Match>>)
    ensures r.Ok? ==> forall m :: m in r.value ==> m.query == q && m.result.hash != HashString(q.hash)
  {
    var all :- Joined(Executed(execute, mats, q, limit), |mats|);
    var sorted := SortDescending(all, Score);
    ReportedMeaning(q, sorted);
    Ok(Reported(q, sorted))
  }

  /**
   * ThreadRun's reporting loop over the sorted results: a result is reported
   * unless it is the query image, which is passed over and widens the limit
   * by one.
   */
  method Report(q: SigValue, sorted: seq<QueryResult>) returns (bag: seq<Match>)
    ensures bag == Reported(q, sorted)
  {
    var self := HashString(q.hash);
    var limit: int := REPORTED;
    var i := 0;
    bag := [];
    while i < limit && i < |sorted|
      invariant 0 <= i <= |sorted|
      invariant bag == Attach(q, Others(sorted[..i], self))
      invariant |Others(sorted[..i], self)| <= REPORTED
      invariant limit == REPORTED + i - |Others(sorted[..i], self)|
    {
      var r := sorted[i];
      assert sorted[..i + 1][..i] == sorted[..i];
      if r.hash != self {
        bag := bag + [Match(q, r)];
      } else {
        limit := limit + 1;
      }
      i := i + 1;
    }
    assert sorted == sorted[..i] + sorted[i..];
    OthersAppend(sorted[..i], sorted[i..], self);
  }

  /** ThreadRun's first loop: the results of every matrix added in turn. */
  method Gather(execute: Executor, mats: seq<Matrix>, q: SigValue, limit: real) returns (r: Result<seq<QueryResult>>)
    ensures r == Joined(Executed(execute, mats, q, limit), |mats|)
  {
    ghost var outcomes := Executed(execute, mats, q, limit);
    var gridresults: seq<QueryResult> := [];
    for k := 0 to |mats|
      invariant Joined(outcomes, k) == Ok(gridresults)
    {
      var more := execute(mats[k], q, limit);
      if more.Err? {
        JoinedFails(outcomes, k + 1, |mats|);
        return Err(more.error);
      }
      gridresults := gridresults + more.value;
    }
    return Ok(gridresults);
  }

  /** ThreadRun: the results of every matrix, sorted best first, then the reporting loop. */
  method ThreadRun(execute: Executor, mats: seq<Matrix>, q: SigValue, limit: real) returns (r: Result<seq<Match>>)
    ensures r == ThreadResults(execute, mats, q, limit)
  {
    var gridresults := Gather(execute, mats, q, limit);
    if gridresults.Err? {
      return Err(gridresults.error);
    }
    var sorted := SortDescending(gridresults.value, Score);
    var bag := Report(q, sorted);
    return Ok(bag);
  }

  // ------------------------------------------------------------ one batch

  /** What the worker of each query of the batch reports. */
  function Workers(execute: Executor, mats: seq<Matrix>, batch: seq<SigValue>, limit: real): (outcomes: seq<Result<seq<Match>>>)
    ensures |outcomes| == |batch| && forall k :: 0 <= k < |batch| ==> outcomes[k] == ThreadResults(execute, mats, batch[k], limit)
  {
    seq(|batch|, k requires 0 <= k < |batch| => ThreadResults(execute, mats, batch[k], limit))
  }

  /** Reports that each answer their own query of a batch, joined. */
  lemma {:induction false} AnswersJoined(outcomes: seq<Result<seq<Match>>>, batch: seq<SigValue>, n: nat)
    requires n <= |outcomes| == |batch| && Joined(outcomes, n).Ok?
    requires forall k :: 0 <= k < |batch| && outcomes[k].Ok? ==>
      forall m :: m in outcomes[k].value ==> m.query == batch[k] && m.result.hash != HashString(batch[k].hash)
    ensures forall m :: m in Joined(outcomes, n).value ==> m.query in batch && m.result.hash != HashString(m.query.hash)
  {
    if n > 0 {
      AnswersJoined(outcomes, batch, n - 1);
      assert outcomes[n - 1].Ok?;
    }
  }

  /** Every report of a batch answers one of its queries and is not that query's own image. */
  lemma WorkersAnswer(execute: Executor, mats: seq<Matrix>, batch: seq<SigValue>, limit: real)
    requires Joined(Workers(execute, mats, batch, limit), |batch|).Ok?
    ensures forall m: Match :: m in Joined(Workers(execute, mats, batch, limit), |batch|).value ==>
      m.query in batch && m.result.hash != HashString(m.query.hash)
  {
    AnswersJoined(Workers(execute, mats, batch, limit), batch, |batch|);
  }

  /** ParallelSMQuery: the reports of all workers of the batch together, best first. */
  function Merged(execute: Executor, mats: seq<Matrix>, batch: seq<SigValue>, limit: real): Result<seq<Match>> {
    var all :- Joined(Workers(execute, mats, batch, limit), |batch|);
    Ok(SortDescending(all, MatchScore))
  }

  /**
   * What a batch writes: every report of every worker, each once, best first;
   * each answers a query of the batch and none is that query's own image.
   */
  lemma MergedMeaning(execute: Executor, mats: seq<Matrix>, batch: seq<SigValue>, limit: real)
    requires Merged(execute, mats, batch, limit).Ok?
    ensures var ms := Merged(execute, mats, batch, limit).value;
      multiset(ms) == multiset(Joined(Workers(execute, mats, batch, limit), |batch|).value) && Descending(ms, MatchScore) &&
      forall m :: m in ms ==> m.query in batch && m.result.hash != HashString(m.query.hash)
  {
    WorkersAnswer(execute, mats, batch, limit);
    var ms := Merged(execute, mats, batch, limit).value;
    forall m | m in ms
      ensures m in Joined(Workers(execute, mats, batch, limit), |batch|).value
    {
      assert m in multiset(ms);
    }
  }

  /** The merged bag is the joined reports, sorted best first, or the first exception a worker raised. */
  lemma MergedOf(execute: Executor, mats: seq<Matrix>, batch: seq<SigValue>, limit: real)
    ensures var joined := Joined(Workers(execute, mats, batch, limit), |batch|);
      joined.Err? ==> Merged(execute, mats, batch, limit) == Err(joined.error)
    ensures var joined := Joined(Workers(execute, mats, batch, limit), |batch|);
      joined.Ok? ==> Merged(execute, mats, batch, limit) == Ok(SortDescending(joined.value, MatchScore))
  {
  }

  /** One more worker's outcome: an exception ends the batch with it, reports are appended to the bag. */
  lemma WorkerStep(execute: Executor, mats: seq<Matrix>, batch: seq<SigValue>, limit: real, k: nat, bag: seq<Match>, reported: Result<seq<Match>>)
    requires k < |batch| && Joined(Workers(execute, mats, batch, limit), k) == Ok(bag)
    requires reported == ThreadResults(execute, mats, batch[k], limit)
    ensures reported.Err? ==> Joined(Workers(execute, mats, batch, limit), |batch|) == Err(reported.error)
    ensures reported.Ok? ==> Joined(Workers(execute, mats, batch, limit), k + 1) == Ok(bag + reported.value)
  {
    var outcomes := Workers(execute, mats, batch, limit);
    JoinedStep(outcomes, k, bag);
    if reported.Err? {
      JoinedFails(outcomes, k + 1, |batch|);
    }
  }

  /** The workers run one after another, their reports joined in batch order; the first exception is the one raised. */
  method JoinWorkers(execute: Executor, mats: seq<Matrix>, batch: seq<SigValue>, limit: real) returns (r: Result<seq<Match>>)
    ensures r == Joined(Workers(execute, mats, batch, limit), |batch|)
  {
    var bag: seq<Match> := [];
    for k := 0 to |batch|
      invariant Joined(Workers(execute, mats, batch, limit), k) == Ok(bag)
    {
      var reported := ThreadRun(execute, mats, batch[k], limit);
      WorkerStep(execute, mats, batch, limit, k, bag, reported);
      if reported.Err? {
        return Err(reported.error);
      }
      bag := bag + reported.value;
    }
    return Ok(bag);
  }

  /**
   * ParallelSMQuery: one worker per query of the batch; the bag holds what
   * every worker reported once all have finished, and is sorted best first.
   */
  method ParallelSMQuery(execute: Executor, mats: seq<Matrix>, batch: seq<SigValue>, limit: real) returns (r: Result<seq<Match>>)
    ensures r == Merged(execute, mats, batch, limit)
  {
    var joined := JoinWorkers(execute, mats, batch, limit);
    MergedOf(execute, mats, batch, limit);
    if joined.Err? {
      return Err(joined.error);
    }
    var sorted := SortDescending(joined.value, MatchScore);
    return Ok(sorted);
  }

  // ------------------------------------------------------------ arguments

  /**
   * Int32.Parse with the default NumberStyles.Integer: optional white space
   * around an optional sign and at least one decimal digit; a value outside
   * 32-bit two's complement is an overflow.
   */
  function ParseInt32(s: string): (r: Result<int>)
    ensures r.Ok? ==> -0x8000_0000 <= r.value <= 0x7FFF_FFFF
  {
    var t := TrimWith(s, IsNumberWhite);
    var negative := t != [] && t[0] == '-';
    var digits := if t != [] && (t[0] == '-' || t[0] == '+') then t[1..] else t;
    if digits == [] || !AllDecimal(digits) then Err(Format)
    else
      var v: int := if negative then -(DecimalValue(digits) as int) else DecimalValue(digits);
      if v < -0x8000_0000 || v > 0x7FFF_FFFF then Err(Overflow) else Ok(v)
  }

  /** Int32.Parse reads back what ToString prints, and overflows past the 32-bit range. */
  lemma ParseInt32Decimal(n: nat)
    ensures n <= 0x7FFF_FFFF ==> ParseInt32(DecimalString(n)) == Ok(n)
    ensures n > 0x7FFF_FFFF ==> ParseInt32(DecimalString(n)) == Err(Overflow)
  {
    var d := DecimalString(n);
    assert !IsNumberWhite(d[0]) && !IsNumberWhite(d[|d| - 1]);
    assert TrimStart(d, IsNumberWhite) == d;
    assert TrimEnd(d, IsNumberWhite) == d;
  }

  /** A minus sign before the digits negates them, down to -2^31. */
  lemma ParseInt32Negative(n: nat)
    ensures n <= 0x8000_0000 ==> ParseInt32("-" + DecimalString(n)).Ok? && ParseInt32("-" + DecimalString(n)).value == -(n as int)
    ensures n > 0x8000_0000 ==> ParseInt32("-" + DecimalString(n)) == Err(Overflow)
  {
    var d := "-" + DecimalString(n);
    assert !IsNumberWhite(d[0]) && !IsNumberWhite(d[|d| - 1]);
    assert TrimStart(d, IsNumberWhite) == d;
    assert TrimEnd(d, IsNumberWhite) == d;
    assert d[1..] == DecimalString(n);
  }

  /** The run's settings: output name, md5 to skip to ("-" for none), worker count and limit coefficient. */
  datatype Settings = Settings(name: string, md5: string, cores: int, limit: real)

  /** The limit coefficient used in place of one outside [0, 1]. */
  const DEFAULT_LIMIT: real := 0.6

  /** The limit coefficient Main passes on: always in [0, 1], and the one given when that is. */
  function Clamped(limit: real): (l: real)
    ensures 0.0 <= l <= 1.0
    ensures 0.0 <= limit <= 1.0 ==> l == limit
    ensures !(0.0 <= limit <= 1.0) ==> l == DEFAULT_LIMIT
  {
    if limit > 1.0 || limit < 0.0 then DEFAULT_LIMIT else limit
  }

  /**
   * The settings read from three or more arguments: args[2] through
   * Int32.Parse, then args[3] through float.Parse, whose behaviour is a
   * parameter; args[3] is read even when there are only three arguments.
   */
  function Arguments(args: seq<string>, parseSingle: string -> Result<real>): (r: Result<Settings>)
    requires |args| >= 3
    ensures r.Ok? ==>
      && |args| >= 4 && r.value.name == args[0] && r.value.md5 == args[1]
      && ParseInt32(args[2]) == Ok(r.value.cores)
      && parseSingle(args[3]).Ok? && r.value.limit == Clamped(parseSingle(args[3]).value)
    ensures ParseInt32(args[2]).Err? ==> r == Err(ParseInt32(args[2]).error)
    ensures |args| == 3 && ParseInt32(args[2]).Ok? ==> r == Err(IndexOutOfRange)
  {
    var cores :- ParseInt32(args[2]);
    if |args| < 4 then Err(IndexOutOfRange)
    else
      var limit :- parseSingle(args[3]);
      Ok(Settings(args[0], args[1], cores, Clamped(limit)))
  }

  /** Main's reading of its arguments as written: the usage message (None) for fewer than three. */
  function ReadSettings(args: seq<string>, parseSingle: string -> Result<real>): (r: Option<Result<Settings>>)
    ensures r.None? <==> |args| < 3
  {
    if |args| < 3 then None else Some(Arguments(args, parseSingle))
  }

  /** Three arguments pass the usage check, and then the fourth is read: IndexOutOfRangeException. */
  lemma ThreeArgumentsFail(parseSingle: string -> Result<real>)
    ensures ReadSettings(["out", "-", "4"], parseSingle) == Some(Err(IndexOutOfRange))
  {
    ParseInt32Decimal(4);
    assert DecimalString(4) == "4";
  }

  /** The arguments read as evidently meant: the usage message for fewer than the four arguments read. */
  function ReadSettingsFixed(args: seq<string>, parseSingle: string -> Result<real>): (r: Option<Result<Settings>>)
    ensures r.None? <==> |args| < 4
    ensures r.Some? && r.value.Err? ==>
      || (ParseInt32(args[2]).Err? && r.value.error == ParseInt32(args[2]).error)
      || (parseSingle(args[3]).Err? && r.value.error == parseSingle(args[3]).error)
  {
    if |args| < 4 then None else Some(Arguments(args, parseSingle))
  }

  // ------------------------------------------------------------ the batch schedule

  /**
   * The reading loop's locals between two records: the md5 still to be
   * found (null once found, or when "-" was given), the signatures queued in
   * sigbatch (its first queuedsigs entries), and the batches handed to
   * ParallelSMQuery so far.
   */
  datatype Batching = Batching(md5: Option<string>, queued: seq<SigValue>, batches: seq<seq<SigValue>>)

  /** A record read while an md5 is sought: passed over, and the search ends at the record with that hash. */
  function Passed(b: Batching, v: SigValue): Batching
    requires b.md5.Some?
  {
    if HashString(v.hash) == b.md5.value then b.(md5 := None) else b
  }

  /**
   * One record read, as written: while an md5 is sought the record is passed
   * over; then it is queued while fewer than `cores` are, and otherwise the
   * full batch is queried and the record itself is dropped.
   */
  function Feed(b: Batching, v: SigValue, cores: nat): Batching {
    if b.md5.Some? then Passed(b, v)
    else if |b.queued| < cores then b.(queued := b.queued + [v])
    else b.(queued := [], batches := b.batches + [b.queued])
  }

  function FeedAll(b: Batching, vs: seq<SigValue>, cores: nat): Batching {
    if vs == [] then b else Feed(FeedAll(b, vs[..|vs| - 1], cores), vs[|vs| - 1], cores)
  }

  lemma {:induction false} FeedAllAppend(b: Batching, xs: seq<SigValue>, ys: seq<SigValue>, cores: nat)
    ensures FeedAll(b, xs + ys, cores) == FeedAll(FeedAll(b, xs, cores), ys, cores)
    decreases |ys|
  {
    if ys == [] {
      assert xs + ys == xs;
    } else {
      assert (xs + ys)[..|xs + ys| - 1] == xs + ys[..|ys| - 1];
      FeedAllAppend(b, xs, ys[..|ys| - 1], cores);
    }
  }

  /** While the md5 sought has not come, nothing is queued or queried. */
  lemma {:induction false} SkipWhileAbsent(b: Batching, vs: seq<SigValue>, cores: nat)
    requires b.md5.Some? && forall k :: 0 <= k < |vs| ==> HashString(vs[k].hash) != b.md5.value
    ensures FeedAll(b, vs, cores) == b
  {
    if vs != [] {
      SkipWhileAbsent(b, vs[..|vs| - 1], cores);
    }
  }

  /** With an md5 given, every record up to and including the first with that hash is passed over. */
  lemma SkipThrough(h: string, vs: seq<SigValue>, k: nat, cores: nat)
    requires k < |vs| && HashString(vs[k].hash) == h
    requires forall j :: 0 <= j < k ==> HashString(vs[j].hash) != h
    ensures FeedAll(Batching(Some(h), [], []), vs, cores) == FeedAll(Batching(None, [], []), vs[k + 1..], cores)
  {
    var start := Batching(Some(h), [], []);
    assert vs == vs[..k + 1] + vs[k + 1..];
    FeedAllAppend(start, vs[..k + 1], vs[k + 1..], cores);
    assert vs[..k + 1][..k] == vs[..k];
    SkipWhileAbsent(start, vs[..k], cores);
  }

  /** Records up to `cores` in all are queued, and nothing is queried. */
  lemma {:induction false} QueueUp(q: seq<SigValue>, bs: seq<seq<SigValue>>, xs: seq<SigValue>, cores: nat)
    requires |q| + |xs| <= cores
    ensures FeedAll(Batching(None, q, bs), xs, cores) == Batching(None, q + xs, bs)
    decreases |xs|
  {
    if xs != [] {
      QueueUp(q, bs, xs[..|xs| - 1], cores);
      assert q + xs == q + xs[..|xs| - 1] + [xs[|xs| - 1]];
    }
  }

  /**
   * The batches as written: after the skip, records are taken `cores`+1 at a
   * time; the first `cores` of them are queried and the last is dropped.
   */
  function Scheduled(vs: seq<SigValue>, cores: nat): seq<seq<SigValue>>
    decreases |vs|
  {
    if |vs| < cores + 1 then [] else [vs[..cores]] + Scheduled(vs[cores + 1..], cores)
  }

  /** What is still queued when the stream ends: never queried. */
  function Unqueried(vs: seq<SigValue>, cores: nat): seq<SigValue>
    decreases |vs|
  {
    if |vs| < cores + 1 then vs else Unqueried(vs[cores + 1..], cores)
  }

  /** The first cores+1 records: the first `cores` are queued and the next sends them off as a batch. */
  lemma FirstBatch(bs: seq<seq<SigValue>>, vs: seq<SigValue>, cores: nat)
    requires |vs| >= cores + 1
    ensures FeedAll(Batching(None, [], bs), vs, cores) == FeedAll(Batching(None, [], bs + [vs[..cores]]), vs[cores + 1..], cores)
  {
    var head, x, rest := vs[..cores], vs[cores], vs[cores + 1..];
    var b0, b1, b2 := Batching(None, [], bs), Batching(None, head, bs), Batching(None, [], bs + [head]);
    assert FeedAll(b0, vs, cores) == FeedAll(FeedAll(FeedAll(b0, head, cores), [x], cores), rest, cores) by {
      assert vs == (head + [x]) + rest;
      FeedAllAppend(b0, head + [x], rest, cores);
      FeedAllAppend(b0, head, [x], cores);
    }
    assert FeedAll(b0, head, cores) == b1 by {
      QueueUp([], bs, head, cores);
      assert [] + head == head;
    }
    assert FeedAll(b1, [x], cores) == b2 by {
      assert [x][..0] == [];
    }
  }

  /** The loop as written queries exactly the scheduled batches and leaves the rest queued. */
  lemma {:induction false} FeedSchedule(bs: seq<seq<SigValue>>, vs: seq<SigValue>, cores: nat)
    ensures FeedAll(Batching(None, [], bs), vs, cores) == Batching(None, Unqueried(vs, cores), bs + Scheduled(vs, cores))
    decreases |vs|
  {
    if |vs| < cores + 1 {
      QueueUp([], bs, vs, cores);
      assert [] + vs == vs && bs + [] == bs;
    } else {
      var rest := vs[cores + 1..];
      FirstBatch(bs, vs, cores);
      FeedSchedule(bs + [vs[..cores]], rest, cores);
      assert bs + [vs[..cores]] + Scheduled(rest, cores) == bs + Scheduled(vs, cores);
    }
  }

  function Flatten(bs: seq<seq<SigValue>>): seq<SigValue> {
    if bs == [] then [] else Flatten(bs[..|bs| - 1]) + bs[|bs| - 1]
  }

  lemma {:induction false} FlattenAppend(a: seq<seq<SigValue>>, b: seq<seq<SigValue>>)
    ensures Flatten(a + b) == Flatten(a) + Flatten(b)
    decreases |b|
  {
    if b == [] {
      assert a + b == a;
    } else {
      assert (a + b)[..|a + b| - 1] == a + b[..|b| - 1];
      FlattenAppend(a, b[..|b| - 1]);
    }
  }

  /**
   * One record of every scheduled batch is never queried: of the records
   * after the skip, the batches take all but one per batch and those left
   * queued, of which there are at most `cores`.
   */
  lemma {:induction false} ScheduleDrops(vs: seq<SigValue>, cores: nat)
    ensures |Flatten(Scheduled(vs, cores))| + |Scheduled(vs, cores)| + |Unqueried(vs, cores)| == |vs|
    ensures |Unqueried(vs, cores)| <= cores
    decreases |vs|
  {
    if |vs| >= cores + 1 {
      var rest := vs[cores + 1..];
      ScheduleDrops(rest, cores);
      FlattenAppend([vs[..cores]], Scheduled(rest, cores));
      assert Flatten([vs[..cores]]) == vs[..cores] by {
        assert [vs[..cores]][..0] == [];
      }
    }
  }

  /** With one worker and three records after the skip, the second is dropped and the third is never queried. */
  lemma DroppedSignatures(a: SigValue, b: SigValue, c: SigValue)
    ensures FeedAll(Batching(None, [], []), [a, b, c], 1) == Batching(None, [c], [[a]])
  {
    FeedSchedule([], [a, b, c], 1);
    assert [a, b, c][..1] == [a] && [a, b, c][2..] == [c];
    assert Scheduled([a, b, c], 1) == [[a]] + Scheduled([c], 1);
    assert Scheduled([c], 1) == [] && Unqueried([c], 1) == [c];
  }

  /** One record read as evidently meant: queued, and the batch queried as soon as it is full. */
  function FeedFixed(b: Batching, v: SigValue, cores: nat): Batching {
    if b.md5.Some? then Passed(b, v)
    else if |b.queued| + 1 < cores then b.(queued := b.queued + [v])
    else b.(queued := [], batches := b.batches + [b.queued + [v]])
  }

  function FeedAllFixed(b: Batching, vs: seq<SigValue>, cores: nat): Batching {
    if vs == [] then b else FeedFixed(FeedAllFixed(b, vs[..|vs| - 1], cores), vs[|vs| - 1], cores)
  }

  /** The batches queried once the stream ends, a partial one included. */
  function Flushed(b: Batching): seq<seq<SigValue>> {
    b.batches + (if b.queued == [] then [] else [b.queued])
  }

  /** The batches as evidently meant hold, in order, every record fed but those still queued. */
  lemma {:induction false} FixedContents(vs: seq<SigValue>, cores: nat)
    ensures var b := FeedAllFixed(Batching(None, [], []), vs, cores);
      b.md5 == None && Flatten(b.batches) + b.queued == vs
  {
    if vs != [] {
      var init, v := vs[..|vs| - 1], vs[|vs| - 1];
      FixedContents(init, cores);
      var b := FeedAllFixed(Batching(None, [], []), init, cores);
      assert vs == init + [v];
      if |b.queued| + 1 >= cores {
        FlattenAppend(b.batches, [b.queued + [v]]);
        assert Flatten([b.queued + [v]]) == b.queued + [v] by {
          assert [b.queued + [v]][..0] == [];
        }
        assert FeedAllFixed(Batching(None, [], []), vs, cores) == Batching(None, [], b.batches + [b.queued + [v]]);
      } else {
        assert FeedAllFixed(Batching(None, [], []), vs, cores) == b.(queued := b.queued + [v]);
      }
    }
  }

  /** No batch as evidently meant is empty or holds more than `cores` (one when `cores` is 0), and fewer than that are ever left queued. */
  lemma {:induction false} FixedSizes(vs: seq<SigValue>, cores: nat)
    ensures var b := FeedAllFixed(Batching(None, [], []), vs, cores);
      |b.queued| < (if cores == 0 then 1 else cores) && b.md5 == None &&
      forall k :: 0 <= k < |b.batches| ==> 1 <= |b.batches[k]| <= (if cores == 0 then 1 else cores)
  {
    if vs != [] {
      var init, v := vs[..|vs| - 1], vs[|vs| - 1];
      FixedSizes(init, cores);
      var b := FeedAllFixed(Batching(None, [], []), init, cores);
      if |b.queued| + 1 >= cores {
        var bs := b.batches + [b.queued + [v]];
        assert FeedAllFixed(Batching(None, [], []), vs, cores) == Batching(None, [], bs);
        assert forall k :: 0 <= k < |b.batches| ==> bs[k] == b.batches[k];
      } else {
        assert FeedAllFixed(Batching(None, [], []), vs, cores) == b.(queued := b.queued + [v]);
      }
    }
  }

  /** As evidently meant, every record after the skip is queried exactly once, in order, in batches of at most `cores` (one when `cores` is 0). */
  lemma FixedQueriesAll(vs: seq<SigValue>, cores: nat)
    ensures var bs := Flushed(FeedAllFixed(Batching(None, [], []), vs, cores));
      Flatten(bs) == vs && forall k :: 0 <= k < |bs| ==> 1 <= |bs[k]| <= (if cores == 0 then 1 else cores)
  {
    FixedContents(vs, cores);
    FixedSizes(vs, cores);
    var b := FeedAllFixed(Batching(None, [], []), vs, cores);
    if b.queued != [] {
      FlattenAppend(b.batches, [b.queued]);
      assert Flatten([b.queued]) == b.queued by {
        assert [b.queued][..0] == [];
      }
      var bs := b.batches + [b.queued];
      assert forall k :: 0 <= k < |b.batches| ==> bs[k] == b.batches[k];
    } else {
      assert Flushed(b) == b.batches;
    }
  }

  // ------------------------------------------------------------ one .hsigs file

  /** The reading loop's state: the schedule, the reports written so far, and the exception that ended the program, if any. */
  datatype Reading = Reading(batching: Batching, written: seq<Match>, error: Option<Error>)

  /** One record read, as written: the batch it completes is queried and its reports written. */
  function Step(execute: Executor, mats: seq<Matrix>, limit: real, cores: nat, st: Reading, v: SigValue): Reading {
    if st.error.Some? then st
    else
      var b := Feed(st.batching, v, cores);
      if |b.batches| == |st.batching.batches| then st.(batching := b)
      else
        match Merged(execute, mats, st.batching.queued, limit)
        case Ok(ms) => Reading(b, st.written + ms, None)
        case Err(e) => Reading(b, st.written, Some(e))
  }

  function Steps(execute: Executor, mats: seq<Matrix>, limit: real, cores: nat, st: Reading, vs: seq<SigValue>): Reading {
    if vs == [] then st else Step(execute, mats, limit, cores, Steps(execute, mats, limit, cores, st, vs[..|vs| - 1]), vs[|vs| - 1])
  }

  lemma {:induction false} StepsAppend(execute: Executor, mats: seq<Matrix>, limit: real, cores: nat, st: Reading, xs: seq<SigValue>, ys: seq<SigValue>)
    ensures Steps(execute, mats, limit, cores, st, xs + ys) == Steps(execute, mats, limit, cores, Steps(execute, mats, limit, cores, st, xs), ys)
    decreases |ys|
  {
    if ys == [] {
      assert xs + ys == xs;
    } else {
      assert (xs + ys)[..|xs + ys| - 1] == xs + ys[..|ys| - 1];
      StepsAppend(execute, mats, limit, cores, st, xs, ys[..|ys| - 1]);
    }
  }

  /** After an exception nothing more is read. */
  lemma {:induction false} StepsStop(execute: Executor, mats: seq<Matrix>, limit: real, cores: nat, st: Reading, vs: seq<SigValue>)
    requires st.error.Some?
    ensures Steps(execute, mats, limit, cores, st, vs) == st
  {
    if vs != [] {
      StepsStop(execute, mats, limit, cores, st, vs[..|vs| - 1]);
    }
  }

  /** Until an exception, the loop keeps to the schedule. */
  lemma {:induction false} StepsSchedule(execute: Executor, mats: seq<Matrix>, limit: real, cores: nat, st: Reading, vs: seq<SigValue>)
    requires st.error.None? && Steps(execute, mats, limit, cores, st, vs).error.None?
    ensures Steps(execute, mats, limit, cores, st, vs).batching == FeedAll(st.batching, vs, cores)
  {
    if vs != [] {
      var init := vs[..|vs| - 1];
      assert Steps(execute, mats, limit, cores, st, init).error.None?;
      StepsSchedule(execute, mats, limit, cores, st, init);
    }
  }

  /** Every report written answers a record of the file, and none is that record's own image. */
  lemma {:induction false} StepsAnswer(execute: Executor, mats: seq<Matrix>, limit: real, cores: nat, md5: Option<string>, vs: seq<SigValue>)
    ensures var st := Steps(execute, mats, limit, cores, Reading(Batching(md5, [], []), [], None), vs);
      && (forall m :: m in st.written ==> m.query in vs && m.result.hash != HashString(m.query.hash))
      && (forall v :: v in st.batching.queued ==> v in vs)
  {
    if vs != [] {
      var init, v := vs[..|vs| - 1], vs[|vs| - 1];
      StepsAnswer(execute, mats, limit, cores, md5, init);
      assert vs == init + [v];
      var prev := Steps(execute, mats, limit, cores, Reading(Batching(md5, [], []), [], None), init);
      if prev.error.None? {
        var b := Feed(prev.batching, v, cores);
        if |b.batches| != |prev.batching.batches| && Merged(execute, mats, prev.batching.queued, limit).Ok? {
          MergedMeaning(execute, mats, prev.batching.queued, limit);
        }
      }
    }
  }

  /**
   * What one .hsigs file gives, from the md5 still sought on entry: "-"
   * means none; a negative worker count fails to allocate sigbatch; then
   * every record read goes through the loop, and a record that fails to
   * read ends the program.
   */
  function FileRun(execute: Executor, mats: seq<Matrix>, limit: real, cores: int, md5: Option<string>, s: seq<Cell>): Reading {
    var sought := if md5 == Some("-") then None else md5;
    if cores < 0 then Reading(Batching(sought, [], []), [], Some(Overflow))
    else
      var st := Steps(execute, mats, limit, cores, Reading(Batching(sought, [], []), [], None), Readable(s));
      if st.error.None? && Records(s).Err? then st.(error := Some(Records(s).error)) else st
  }

  /** The records read so far, then those the rest of the stream gives: the loop's view of the file. */
  ghost predicate ReadsAs(s: seq<Cell>, got: seq<SigValue>, rest: seq<Cell>) {
    Readable(s) == got + Readable(rest) && Records(s) == After(got, Records(rest))
  }

  /** One record read from the front of the rest of the stream, or the exception its reading raises. */
  method ReadNext(ghost s: seq<Cell>, ghost got: seq<SigValue>, rest: seq<Cell>) returns (r: Result<(SigValue, seq<Cell>)>)
    requires rest != [] && ReadsAs(s, got, rest)
    ensures r.Err? ==> Readable(s) == got && Records(s) == Err(r.error)
    ensures r.Ok? ==> ByteLength(r.value.1) < ByteLength(rest) && ReadsAs(s, got + [r.value.0], r.value.1)
  {
    RecordsNext(rest);
    r := HaarSignatures.DecodeHaar(rest);
    if r.Ok? {
      DecodedHaar(rest);
      var (v, after) := r.value;
      AfterAfter(got, v, Records(after));
      assert got + [v] + Readable(after) == got + ([v] + Readable(after));
    } else {
      assert Readable(s) == got + [];
    }
  }

  /** The body of the reading loop for one record. */
  method Consume(execute: Executor, mats: seq<Matrix>, limit: real, cores: nat, ghost start: Reading, ghost got: seq<SigValue>,
                 st: Reading, v: SigValue) returns (next: Reading)
    requires st.error.None? && st == Steps(execute, mats, limit, cores, start, got)
    ensures next == Steps(execute, mats, limit, cores, start, got + [v])
  {
    assert (got + [v])[..|got|] == got;
    var b := st.batching;
    if b.md5.Some? {
      if HashString(v.hash) == b.md5.value {
        return st.(batching := b.(md5 := None));
      }
      return st;
    }
    if |b.queued| < cores {
      return st.(batching := b.(queued := b.queued + [v]));
    }
    var results := ParallelSMQuery(execute, mats, b.queued, limit);
    var fed := b.(queued := [], batches := b.batches + [b.queued]);
    if results.Err? {
      return Reading(fed, st.written, Some(results.error));
    }
    return Reading(fed, st.written + results.value, None);
  }

  /** Main's loop for one .hsigs file. */
  method QueryFile(execute: Executor, mats: seq<Matrix>, limit: real, cores: int, md5: Option<string>, s: seq<Cell>) returns (st: Reading)
    ensures st == FileRun(execute, mats, limit, cores, md5, s)
  {
    var sought := if md5 == Some("-") then None else md5;
    if cores < 0 {
      return Reading(Batching(sought, [], []), [], Some(Overflow));
    }
    var start := Reading(Batching(sought, [], []), [], None);
    ghost var got: seq<SigValue> := [];
    st := start;
    var rest := s;
    assert ReadsAs(s, got, rest) by {
      assert Readable(s) == got + Readable(s);
      if Records(s).Ok? {
        assert got + Records(s).value == Records(s).value;
      }
    }
    while rest != []
      invariant st == Steps(execute, mats, limit, cores, start, got) && st.error.None?
      invariant ReadsAs(s, got, rest)
      decreases ByteLength(rest)
    {
      var r := ReadNext(s, got, rest);
      if r.Err? {
        assert Steps(execute, mats, limit, cores, start, Readable(s)) == st;
        return st.(error := Some(r.error));
      }
      st := Consume(execute, mats, limit, cores, start, got, st, r.value.0);
      got, rest := got + [r.value.0], r.value.1;
      if st.error.Some? {
        StepsAppend(execute, mats, limit, cores, start, got, Readable(rest));
        StepsStop(execute, mats, limit, cores, st, Readable(rest));
        assert Steps(execute, mats, limit, cores, start, Readable(s)) == st;
        return;
      }
    }
    assert Readable(rest) == [] && Records(rest) == Ok([]);
    assert got + [] == got;
    assert Readable(s) == got && Records(s) == Ok(got);
  }

  /** Records that never carry the md5 sought are all passed over: nothing is queried or written. */
  lemma {:induction false} StepsSkip(execute: Executor, mats: seq<Matrix>, limit: real, cores: nat, st: Reading, vs: seq<SigValue>)
    requires st.error.None? && st.batching.md5.Some?
    requires forall k :: 0 <= k < |vs| ==> HashString(vs[k].hash) != st.batching.md5.value
    ensures Steps(execute, mats, limit, cores, st, vs) == st
  {
    if vs != [] {
      StepsSkip(execute, mats, limit, cores, st, vs[..|vs| - 1]);
    }
  }

  /** Every report written for a file answers one of its records, and none is that record's own image. */
  lemma FileRunAnswers(execute: Executor, mats: seq<Matrix>, limit: real, cores: int, md5: Option<string>, s: seq<Cell>)
    ensures forall m :: m in FileRun(execute, mats, limit, cores, md5, s).written ==>
      m.query in Readable(s) && m.result.hash != HashString(m.query.hash)
  {
    if cores >= 0 {
      var sought := if md5 == Some("-") then None else md5;
      StepsAnswer(execute, mats, limit, cores, sought, Readable(s));
    }
  }

  /** A file without the md5 sought is read through without a query, and the md5 is still sought after it. */
  lemma FileRunSkipsAll(execute: Executor, mats: seq<Matrix>, limit: real, cores: int, h: string, s: seq<Cell>)
    requires cores >= 0 && h != "-"
    requires forall k :: 0 <= k < |Readable(s)| ==> HashString(Readable(s)[k].hash) != h
    ensures FileRun(execute, mats, limit, cores, Some(h), s).written == []
    ensures FileRun(execute, mats, limit, cores, Some(h), s).batching.md5 == Some(h)
  {
    StepsSkip(execute, mats, limit, cores, Reading(Batching(Some(h), [], []), [], None), Readable(s));
  }

  // ------------------------------------------------------------ the program

  /** The matrix an argument names, if any: a .qsm file is read as an integer matrix, a .hsm file as a Haar matrix. */
  function LoadOne(arg: string, d: seq<Cell>): (r: Result<seq<Matrix>>)
    ensures r.Ok? ==> |r.value| <= 1
    ensures r.Ok? && r.value != [] && r.value[0].IntegerMatrixOf? ==>
      EndsWith(arg, ".qsm") && IntegerMatrix.DecodeIndex(d).Ok? && r.value[0].intIndex == IntegerMatrix.DecodeIndex(d).value.0
    ensures r.Ok? && r.value != [] && r.value[0].HaarMatrixOf? ==>
      EndsWith(arg, ".hsm") && HaarIndex.DecodeIndex(d).Ok? && r.value[0].haarIndex == HaarIndex.DecodeIndex(d).value.0
    ensures !EndsWith(arg, ".qsm") && !EndsWith(arg, ".hsm") ==> r == Ok([])
    ensures EndsWith(arg, ".qsm") ==> r.Ok? == IntegerMatrix.DecodeIndex(d).Ok? && (r.Ok? ==> |r.value| == 1)
    ensures EndsWith(arg, ".hsm") ==> r.Ok? == HaarIndex.DecodeIndex(d).Ok? && (r.Ok? ==> |r.value| == 1)
  {
    if EndsWith(arg, ".qsm") then
      var (ix, _) :- IntegerMatrix.DecodeIndex(d);
      Ok([IntegerMatrixOf(ix)])
    else if EndsWith(arg, ".hsm") then
      var (ix, _) :- HaarIndex.DecodeIndex(d);
      Ok([HaarMatrixOf(ix)])
    else Ok([])
  }

  /** The loading of every argument, in argument order. */
  function Loads(args: seq<string>, data: seq<seq<Cell>>): (loads: seq<Result<seq<Matrix>>>)
    requires |args| == |data|
    ensures |loads| == |args| && forall k :: 0 <= k < |args| ==> loads[k] == LoadOne(args[k], data[k])
  {
    seq(|args|, k requires 0 <= k < |args| => LoadOne(args[k], data[k]))
  }

  /** The matrices of the arguments, in argument order; the first file that fails to read ends the program. */
  function Loaded(args: seq<string>, data: seq<seq<Cell>>): Result<seq<Matrix>>
    requires |args| == |data|
  {
    Joined(Loads(args, data), |args|)
  }

  /** The .hsigs files done so far with the reports written for each, the md5 still sought, and the exception that ended the program. */
  datatype Progress = Progress(files: seq<(string, seq<Match>)>, md5: Option<string>, error: Option<Error>)

  /** One argument of the second loop: a .hsigs file is read through, unless an exception ended the program. */
  function NextFile(execute: Executor, mats: seq<Matrix>, st: Settings, p: Progress, arg: string, d: seq<Cell>): Progress {
    if p.error.Some? || !EndsWith(arg, ".hsigs") then p
    else
      var r := FileRun(execute, mats, st.limit, st.cores, p.md5, d);
      Progress(p.files + [(arg, r.written)], r.batching.md5, r.error)
  }

  /** The second loop over the first n arguments; the md5 given is sought from the first file on, and carried over from file to file. */
  function Files(execute: Executor, mats: seq<Matrix>, st: Settings, args: seq<string>, data: seq<seq<Cell>>, n: nat): Progress
    requires n <= |args| == |data|
  {
    if n == 0 then Progress([], Some(st.md5), None)
    else NextFile(execute, mats, st, Files(execute, mats, st, args, data, n - 1), args[n - 1], data[n - 1])
  }

  /** The program's outcome: the usage message, or the reports written for each .hsigs file and the exception that ended it, if any. */
  datatype Outcome = Usage | Ran(files: seq<(string, seq<Match>)>, error: Option<Error>)

  /** Main, for the arguments and the contents of the files they name, with ExecuteQuery as `execute`. */
  function Run(execute: Executor, args: seq<string>, data: seq<seq<Cell>>, parseSingle: string -> Result<real>): (o: Outcome)
    requires |args| == |data|
    ensures o.Usage? <==> |args| < 3
    ensures ReadSettings(args, parseSingle).Some? && ReadSettings(args, parseSingle).value.Err? ==>
      o == Ran([], Some(ReadSettings(args, parseSingle).value.error))
  {
    match ReadSettings(args, parseSingle)
    case None => Usage
    case Some(Err(e)) => Ran([], Some(e))
    case Some(Ok(st)) =>
      match Loaded(args, data)
      case Err(e) => Ran([], Some(e))
      case Ok(mats) =>
        var p := Files(execute, mats, st, args, data, |args|);
        Ran(p.files, p.error)
  }

  /** A file reported is a .hsigs argument among the first n, and every report in it answers one of its records with a result that is not the record's own image. */
  predicate Answered(file: (string, seq<Match>), args: seq<string>, data: seq<seq<Cell>>, n: nat)
    requires n <= |args| == |data|
  {
    && EndsWith(file.0, ".hsigs")
    && exists k :: 0 <= k < n && args[k] == file.0 && AnswersRecords(file.1, data[k])
  }

  /** Every report answers one of the records read from the file with a result that is not the record's own image. */
  predicate AnswersRecords(ms: seq<Match>, d: seq<Cell>) {
    forall m :: m in ms ==> m.query in Readable(d) && m.result.hash != HashString(m.query.hash)
  }

  /** Every file reported is answered by its reports. */
  predicate AllAnswered(files: seq<(string, seq<Match>)>, args: seq<string>, data: seq<seq<Cell>>, n: nat)
    requires n <= |args| == |data|
  {
    forall i :: 0 <= i < |files| ==> Answered(files[i], args, data, n)
  }

  lemma AnsweredGrows(file: (string, seq<Match>), args: seq<string>, data: seq<seq<Cell>>, n: nat)
    requires n < |args| == |data| && Answered(file, args, data, n)
    ensures Answered(file, args, data, n + 1)
  {
    var k :| 0 <= k < n && args[k] == file.0 && AnswersRecords(file.1, data[k]);
    assert 0 <= k < n + 1;
  }

  /** Every file reported by the second loop is answered by its reports. */
  lemma {:induction false} FilesAnswer(execute: Executor, mats: seq<Matrix>, st: Settings, args: seq<string>, data: seq<seq<Cell>>, n: nat)
    requires n <= |args| == |data|
    ensures AllAnswered(Files(execute, mats, st, args, data, n).files, args, data, n)
  {
    if n > 0 {
      FilesAnswer(execute, mats, st, args, data, n - 1);
      var p := Files(execute, mats, st, args, data, n - 1);
      var q := Files(execute, mats, st, args, data, n);
      assert AllAnswered(p.files, args, data, n - 1);
      forall i | 0 <= i < |p.files|
        ensures Answered(p.files[i], args, data, n)
      {
        AnsweredGrows(p.files[i], args, data, n - 1);
      }
      if p.error.None? && EndsWith(args[n - 1], ".hsigs") {
        FileRunAnswers(execute, mats, st.limit, st.cores, p.md5, data[n - 1]);
        var r := FileRun(execute, mats, st.limit, st.cores, p.md5, data[n - 1]);
        assert q.files == p.files + [(args[n - 1], r.written)];
        assert AnswersRecords(r.written, data[n - 1]);
        assert (args[n - 1], r.written).0 == args[n - 1];
        assert Answered((args[n - 1], r.written), args, data, n);
      }
    }
  }

  /** What the program writes answers the records read: no image is reported as similar to itself. */
  lemma RunAnswers(execute: Executor, args: seq<string>, data: seq<seq<Cell>>, parseSingle: string -> Result<real>)
    requires |args| == |data|
    ensures Run(execute, args, data, parseSingle).Ran? ==> AllAnswered(Run(execute, args, data, parseSingle).files, args, data, |args|)
  {
    var o := Run(execute, args, data, parseSingle);
    var settings := ReadSettings(args, parseSingle);
    var loaded := Loaded(args, data);
    if settings.Some? && settings.value.Ok? && loaded.Ok? {
      var p := Files(execute, loaded.value, settings.value.value, args, data, |args|);
      FilesAnswer(execute, loaded.value, settings.value.value, args, data, |args|);
      assert o.files == p.files;
    } else if o.Ran? {
      assert o.files == [];
    }
  }

  /** The first loop: the matrices of the arguments, in order. */
  method LoadMatrices(args: seq<string>, data: seq<seq<Cell>>) returns (r: Result<seq<Matrix>>)
    requires |args| == |data|
    ensures r == Loaded(args, data)
  {
    var mats: seq<Matrix> := [];
    for i := 0 to |args|
      invariant Joined(Loads(args, data), i) == Ok(mats)
    {
      var one := LoadOne(args[i], data[i]);
      if one.Err? {
        JoinedFails(Loads(args, data), i + 1, |args|);
        return Err(one.error);
      }
      mats := mats + one.value;
    }
    return Ok(mats);
  }

  /** The second loop: every .hsigs argument read through in turn, until an exception. */
  method QueryFiles(execute: Executor, mats: seq<Matrix>, st: Settings, args: seq<string>, data: seq<seq<Cell>>) returns (p: Progress)
    requires |args| == |data|
    ensures p == Files(execute, mats, st, args, data, |args|)
  {
    p := Progress([], Some(st.md5), None);
    for i := 0 to |args|
      invariant p == Files(execute, mats, st, args, data, i)
    {
      if p.error.None? && EndsWith(args[i], ".hsigs") {
        var r := QueryFile(execute, mats, st.limit, st.cores, p.md5, data[i]);
        p := Progress(p.files + [(args[i], r.written)], r.batching.md5, r.error);
      }
    }
  }

  /** iqdb_batch_query's Main: the settings, then every matrix, then every .hsigs file in turn. */
  method BatchQueryProgram(execute: Executor, args: seq<string>, data: seq<seq<Cell>>, parseSingle: string -> Result<real>) returns (o: Outcome)
    requires |args| == |data|
    ensures o == Run(execute, args, data, parseSingle)
  {
    if |args| < 3 {
      return Usage;
    }
    var settings := Arguments(args, parseSingle);
    if settings.Err? {
      return Ran([], Some(settings.error));
    }
    var st := settings.value;
    var loaded := LoadMatrices(args, data);
    if loaded.Err? {
      return Ran([], Some(loaded.error));
    }
    var p := QueryFiles(execute, loaded.value, settings.value, args, data);
    return Ran(p.files, p.error);
  }
}
