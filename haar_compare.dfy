/**
 * The sorted-merge comparisons of HaarSignature (iqdb/HaarSignature.cs):
 * CompareIntArrays, Compare and CompareTo. Each walks two id arrays with one
 * cursor apiece, advancing the cursor with the smaller id (both on a tie).
 * Weights are reals.
 */
module HaarCompare {
  import opened Wire
  import opened Signatures
  import opened HaarWeights

  /** Strictly ascending ids: a sorted SigData without repeats. */
  predicate Increasing(s: seq<u32>) {
    forall i, j :: 0 <= i < j < |s| ==> s[i] < s[j]
  }

  /** Every id's `>> 1` indexes a weight array of length n. */

  /** The ids of a that also occur in b, in a's order. */
  function Common(a: seq<u32>, b: seq<u32>): (c: seq<u32>)
    ensures |c| <= |a|
  {
    if a == [] then [] else (if a[0] in b then [a[0]] else []) + Common(a[1..], b)
  }

  /** Common keeps only ids of a, so it stays inside the table when a does. */
  lemma {:induction false} CommonInTable(a: seq<u32>, b: seq<u32>)
    requires InTable(a)
    ensures InTable(Common(a, b))
  {
    if a != [] {
      CommonInTable(a[1..], b);
    }
  }

  lemma {:induction false} CommonEmpty(a: seq<u32>)
    ensures Common(a, []) == []
  {
    if a != [] {
      CommonEmpty(a[1..]);
    }
  }

  /** An id that a lacks can be dropped from b. */
  lemma {:induction false} CommonSkip(a: seq<u32>, x: u32, b: seq<u32>)
    requires x !in a
    ensures Common(a, [x] + b) == Common(a, b)
  {
    if a != [] {
      assert a[0] in [x] + b <==> a[0] in b;
      CommonSkip(a[1..], x, b);
    }
  }

  /** Common read off a's first id. */
  lemma CommonFront(a: seq<u32>, b: seq<u32>)
    requires a != []
    ensures a[0] !in b ==> Common(a, b) == Common(a[1..], b)
    ensures a[0] in b ==> Common(a, b) == [a[0]] + Common(a[1..], b)
  {
  }

  // ------------------------------------------------------- CompareIntArrays

  /**
   * CompareIntArrays over what is left of both arrays: the smaller head
   * advances (both on a tie), and a tie adds `weights[id >> 1]`, failing as
   * the array access does when that is past the weights.
   */
  function MergeMatch(a: seq<u32>, b: seq<u32>, weights: seq<real>): Result<real>
    decreases |a| + |b|
  {
    if a == [] || b == [] then Ok(0.0)
    else if a[0] < b[0] then MergeMatch(a[1..], b, weights)
    else if b[0] < a[0] then MergeMatch(a, b[1..], weights)
    else if a[0] / 2 >= |weights| then Err(IndexOutOfRange)
    else AddTo(weights[a[0] / 2], MergeMatch(a[1..], b[1..], weights))
  }

  /** x added to a running sum that may still fail. */
  function AddTo(x: real, r: Result<real>): Result<real> {
    if r.Err? then r else Ok(x + r.value)
  }

  /** The merge loop of CompareIntArrays. */
  method CompareIntArrays(sig1: seq<u32>, sig2: seq<u32>, weights: seq<real>) returns (r: Result<real>)
    ensures r == MergeMatch(sig1, sig2, weights)
  {
    var wMatch := 0.0;
    var index1, index2 := 0, 0;
    while index1 < |sig1| && index2 < |sig2|
      invariant 0 <= index1 <= |sig1| && 0 <= index2 <= |sig2|
      invariant AddTo(wMatch, MergeMatch(sig1[index1..], sig2[index2..], weights)) == MergeMatch(sig1, sig2, weights)
      decreases |sig1| - index1 + |sig2| - index2
    {
      ghost var a, b := sig1[index1..], sig2[index2..];
      var coeff1, coeff2 := sig1[index1], sig2[index2];
      if coeff1 <= coeff2 {
        index1 := index1 + 1;
      }
      if coeff2 <= coeff1 {
        index2 := index2 + 1;
      }
      assert sig1[index1..] == if coeff1 <= coeff2 then a[1..] else a;
      assert sig2[index2..] == if coeff2 <= coeff1 then b[1..] else b;
      if coeff1 == coeff2 {
        if coeff1 / 2 >= |weights| {
          return Err(IndexOutOfRange);
        }
        wMatch := wMatch + weights[coeff1 / 2];
      }
    }
    assert sig1[index1..] == [] || sig2[index2..] == [];
    return Ok(wMatch);
  }

  /** The weight of the ids, or the index error when one of them is past the weights. */
  function WeightOf(ids: seq<u32>, weights: seq<real>): Result<real> {
    if InRange(ids, |weights|) then Ok(WeightSum(ids, weights)) else Err(IndexOutOfRange)
  }

  /** WeightOf taken from the front, as the merge adds. */
  lemma WeightOfFront(x: u32, ids: seq<u32>, weights: seq<real>)
    ensures WeightOf([x] + ids, weights) ==
      if x / 2 >= |weights| then Err(IndexOutOfRange) else AddTo(weights[x / 2], WeightOf(ids, weights))
  {
    var c := [x] + ids;
    assert c[1..] == ids;
    if InRange(c, |weights|) {
      WeightSumFront(c, weights);
    } else if x / 2 < |weights| {
      assert !InRange(ids, |weights|);
    }
  }

  /**
   * On strictly ascending arrays the merge is the weight of the ids the two
   * share; it fails exactly when one of those ids is past the weights.
   */
  lemma {:induction false} MergeMatchCommon(a: seq<u32>, b: seq<u32>, weights: seq<real>)
    requires Increasing(a) && Increasing(b)
    ensures MergeMatch(a, b, weights) == WeightOf(Common(a, b), weights)
    decreases |a| + |b|
  {
    if a == [] {
      assert Common(a, b) == [];
    } else if b == [] {
      CommonEmpty(a);
    } else if a[0] < b[0] {
      MergeMatchCommon(a[1..], b, weights);
      assert a[0] !in b;
      assert Common(a, b) == Common(a[1..], b);
    } else if b[0] < a[0] {
      MergeMatchCommon(a, b[1..], weights);
      assert b == [b[0]] + b[1..];
      CommonSkip(a, b[0], b[1..]);
    } else {
      MergeMatchCommon(a[1..], b[1..], weights);
      assert b == [b[0]] + b[1..];
      CommonSkip(a[1..], b[0], b[1..]);
      assert Common(a, b) == [a[0]] + Common(a[1..], b[1..]);
      WeightOfFront(a[0], Common(a[1..], b[1..]), weights);
    }
  }

  /** The merge does not depend on the order of its arguments, on any input. */
  lemma {:induction false} MergeMatchSymmetric(a: seq<u32>, b: seq<u32>, weights: seq<real>)
    ensures MergeMatch(a, b, weights) == MergeMatch(b, a, weights)
    decreases |a| + |b|
  {
    if a == [] || b == [] {
    } else if a[0] < b[0] {
      MergeMatchSymmetric(a[1..], b, weights);
    } else if b[0] < a[0] {
      MergeMatchSymmetric(a, b[1..], weights);
    } else {
      MergeMatchSymmetric(a[1..], b[1..], weights);
    }
  }

  // ---------------------------------------------------------------- Compare

  /**
   * HaarSignature.Compare: the common weight over the weight of the union,
   * `w_match / (Sum_Weights + other.Sum_Weights - w_match)`; None stands for
   * the NaN or infinity of a zero denominator. The average-distance loop
   * only feeds a log line, but its array accesses can fail.
   */
  function Similarity(sig: SigValue, other: SigValue): Result<Option<real>>
    requires sig.kind.HaarKind? && other.kind.HaarKind?
  {
    if |sig.kind.averages| > CHANNEL_COUNT || |other.kind.averages| < |sig.kind.averages| then Err(IndexOutOfRange)
    else
      var matched :- MergeMatch(sig.sigData, other.sigData, Table());
      var sum1 :- SumLookUp(sig.sigData);
      var sum2 :- SumLookUp(other.sigData);
      Ok(Ratio(matched, sum1 + sum2 - matched))
  }

  /** A float quotient; None stands for the NaN or infinity of a zero denominator. */
  function Ratio(num: real, den: real): Option<real> {
    if den == 0.0 then None else Some(num / den)
  }

  /** On sorted ids inside the table, Compare is the weighted intersection over the weighted union. */
  lemma SimilarityIsJaccard(sig: SigValue, other: SigValue)
    requires sig.kind.HaarKind? && other.kind.HaarKind?
    requires |sig.kind.averages| <= CHANNEL_COUNT && |sig.kind.averages| <= |other.kind.averages|
    requires Increasing(sig.sigData) && Increasing(other.sigData) && InTable(sig.sigData) && InTable(other.sigData)
    ensures InTable(Common(sig.sigData, other.sigData))
    ensures Similarity(sig, other) == Ok(Ratio(WeightSum(Common(sig.sigData, other.sigData), Table()),
      WeightSum(sig.sigData, Table()) + WeightSum(other.sigData, Table()) - WeightSum(Common(sig.sigData, other.sigData), Table())))
  {
    MergeMatchCommon(sig.sigData, other.sigData, Table());
    CommonInTable(sig.sigData, other.sigData);
    SumLookUpMeaning(sig.sigData);
    SumLookUpMeaning(other.sigData);
  }

  // -------------------------------------------------------------- CompareTo

  /** The unchecked `(int)` cast of a uint. */
  function ToInt32(x: u32): (r: int)
    ensures -0x8000_0000 <= r < 0x8000_0000
  {
    if x < 0x8000_0000 then x else x - 0x1_0000_0000
  }

  /** Unchecked 32-bit int subtraction: the difference wrapped back into [-2^31, 2^31). */
  function Sub32(x: int, y: int): int
    requires -0x8000_0000 <= x < 0x8000_0000 && -0x8000_0000 <= y < 0x8000_0000
  {
    var d := x - y;
    if d >= 0x8000_0000 then d - 0x1_0000_0000
    else if d < -0x8000_0000 then d + 0x1_0000_0000
    else d
  }

  /** The difference of two uints wrapped into [-2^31, 2^31). */
  function Diff(i1: u32, i2: u32): int {
    var d := i1 - i2;
    if d >= 0x8000_0000 then d - 0x1_0000_0000
    else if d < -0x8000_0000 then d + 0x1_0000_0000
    else d
  }

  /** CompareTo's `diff = (int)i1 - (int)i2`, two unchecked casts and an unchecked subtraction, is Diff. */
  lemma DiffIsCastSubtraction(i1: u32, i2: u32)
    ensures Sub32(ToInt32(i1), ToInt32(i2)) == Diff(i1, i2)
  {
  }

  /** The id under cursor i, or int.MaxValue once the array is used up. */
  function Cursor(s: seq<u32>, i: nat): u32
    requires i <= |s|
  {
    if i < |s| then s[i] else INT32_MAX
  }

  /** What CompareTo accumulates: usedcoeffs, w_match and w_total. */
  datatype Tally = Tally(used: nat, matched: real, total: real)

  /** A tally so far, followed by what is left to tally. */
  function Stack(t: Tally, r: Result<Tally>): Result<Tally> {
    if r.Err? then r else Ok(Tally(t.used + r.value.used, t.matched + r.value.matched, t.total + r.value.total))
  }

  /** One more coefficient of weight w counted, and matched on a tie. */
  function Count(t: Tally, w: real, tie: bool): Tally {
    Tally(t.used + 1, t.matched + (if tie then w else 0.0), t.total + w)
  }

  /**
   * An exhausted array's sentinel only advances when the weight index it
   * leads to is past the table, so such a step fails before the next one.
   */
  lemma SentinelStep(a: seq<u32>, b: seq<u32>, i: nat, j: nat)
    requires i <= |a| && j <= |b|
    ensures i == |a| && Diff(Cursor(a, i), Cursor(b, j)) <= 0 ==> Min(Cursor(a, i) / 2, Cursor(b, j) / 2) >= LOOKUP_SIZE
    ensures j == |b| && Diff(Cursor(a, i), Cursor(b, j)) >= 0 ==> Min(Cursor(a, i) / 2, Cursor(b, j) / 2) >= LOOKUP_SIZE
  {
  }

  /**
   * One step of CompareTo at cursors b1 = i and b2 = j: the weight index of
   * the smaller `id >> 1`, whether the ids tie, and the cursors afterwards.
   * None when the weight index is past the table.
   */
  datatype Step = Step(cell: nat, tie: bool, nextA: nat, nextB: nat)

  function Next(a: seq<u32>, b: seq<u32>, i: nat, j: nat): (s: Option<Step>)
    requires i <= |a| && j <= |b| && (i < |a| || j < |b|)
    ensures s.Some? ==> s.value.cell < LOOKUP_SIZE && i <= s.value.nextA <= |a| && j <= s.value.nextB <= |b|
    ensures s.Some? ==> i + j < s.value.nextA + s.value.nextB
  {
    var diff := Diff(Cursor(a, i), Cursor(b, j));
    var cell := Min(Cursor(a, i) / 2, Cursor(b, j) / 2);
    if cell >= LOOKUP_SIZE then None
    else
      SentinelStep(a, b, i, j);
      Some(Step(cell, diff == 0, if diff <= 0 then i + 1 else i, if diff >= 0 then j + 1 else j))
  }

  /**
   * CompareTo from cursors b1 = i and b2 = j on, with t counted so far
   * (ignore_color is always false there): each step counts one coefficient,
   * adds the weight of the smaller `id >> 1` to the total, and on a tie to
   * the match as well.
   */
  function UnionTally(a: seq<u32>, b: seq<u32>, i: nat, j: nat, weights: seq<real>, t: Tally): Result<Tally>
    requires i <= |a| && j <= |b| && |weights| == LOOKUP_SIZE
    decreases |a| - i + |b| - j
  {
    if i == |a| && j == |b| then Ok(t)
    else
      match Next(a, b, i, j)
      case None => Err(IndexOutOfRange)
      case Some(s) => UnionTally(a, b, s.nextA, s.nextB, weights, Count(t, weights[s.cell], s.tie))
  }

  /** Inside the table there is no wrap-around, and the sentinel is above every id. */
  lemma DiffInTable(x: u32, y: u32)
    requires x < COEFF_SPACE && y < COEFF_SPACE
    ensures Diff(x, y) == x - y
    ensures Diff(INT32_MAX, y) > 0 && Diff(x, INT32_MAX) < 0
    ensures Min(INT32_MAX / 2, y / 2) == y / 2 && Min(x / 2, INT32_MAX / 2) == x / 2
  {
  }

  /** `w_match / w_total`; None stands for the NaN of 0 / 0 when both arrays are empty. */
  function Score(t: Tally): Option<real> {
    Ratio(t.matched, t.total)
  }

  /** A step on ids inside the table: the smaller id is taken, a tie takes both. */
  lemma NextInTable(a: seq<u32>, b: seq<u32>, i: nat, j: nat)
    requires i <= |a| && j <= |b| && (i < |a| || j < |b|) && InTable(a) && InTable(b)
    ensures j == |b| || (i < |a| && a[i] < b[j]) ==> Next(a, b, i, j) == Some(Step(a[i] / 2, false, i + 1, j))
    ensures i == |a| || (j < |b| && b[j] < a[i]) ==> Next(a, b, i, j) == Some(Step(b[j] / 2, false, i, j + 1))
    ensures i < |a| && j < |b| && a[i] == b[j] ==> Next(a, b, i, j) == Some(Step(a[i] / 2, true, i + 1, j + 1))
  {
    if i == |a| {
      DiffInTable(0, b[j]);
    } else if j == |b| {
      DiffInTable(a[i], 0);
    } else {
      DiffInTable(a[i], b[j]);
    }
  }

  /** Union size, common weight and union weight of two id sequences. */
  function UnionCounts(a: seq<u32>, b: seq<u32>, weights: seq<real>): Tally
    requires |weights| == LOOKUP_SIZE && InTable(a) && InTable(b) && InTable(Common(a, b))
  {
    var t := weights;
    Tally(|a| + |b| - |Common(a, b)|, WeightSum(Common(a, b), t),
      WeightSum(a, t) + WeightSum(b, t) - WeightSum(Common(a, b), t))
  }

  /**
   * On strictly ascending ids inside the table, CompareTo visits every id of
   * the union once: usedcoeffs grows by the size of the union, w_match by
   * the weight of the common ids and w_total by the weight of the union.
   */
  lemma {:induction false} UnionTallyCounts(a: seq<u32>, b: seq<u32>, i: nat, j: nat, weights: seq<real>, t: Tally)
    requires i <= |a| && j <= |b| && |weights| == LOOKUP_SIZE
    requires Increasing(a) && Increasing(b) && InTable(a) && InTable(b)
    ensures InTable(Common(a[i..], b[j..]))
    ensures UnionTally(a, b, i, j, weights, t) == Stack(t, Ok(UnionCounts(a[i..], b[j..], weights)))
    decreases |a| - i + |b| - j
  {
    CommonInTable(a[i..], b[j..]);
    if i == |a| && j == |b| {
      assert Common(a[i..], b[j..]) == [];
    } else if i == |a| || (j < |b| && b[j] < a[i]) {
      var t' := Count(t, weights[b[j] / 2], false);
      UnionTallyCounts(a, b, i, j + 1, weights, t');
      NextInTable(a, b, i, j);
      assert UnionTally(a, b, i, j, weights, t) == UnionTally(a, b, i, j + 1, weights, t');
      TakeB(a, b, i, j, weights, t);
    } else if j == |b| || a[i] < b[j] {
      var t' := Count(t, weights[a[i] / 2], false);
      UnionTallyCounts(a, b, i + 1, j, weights, t');
      NextInTable(a, b, i, j);
      assert UnionTally(a, b, i, j, weights, t) == UnionTally(a, b, i + 1, j, weights, t');
      TakeA(a, b, i, j, weights, t);
    } else {
      var t' := Count(t, weights[a[i] / 2], true);
      UnionTallyCounts(a, b, i + 1, j + 1, weights, t');
      NextInTable(a, b, i, j);
      assert UnionTally(a, b, i, j, weights, t) == UnionTally(a, b, i + 1, j + 1, weights, t');
      TakeBoth(a, b, i, j, weights, t);
    }
  }

  /** Taking b's id alone: one more id of the union, and its weight. */
  lemma TakeB(a: seq<u32>, b: seq<u32>, i: nat, j: nat, weights: seq<real>, t: Tally)
    requires i <= |a| && j < |b| && |weights| == LOOKUP_SIZE && (i == |a| || b[j] < a[i])
    requires Increasing(a) && InTable(a) && InTable(b) && InTable(Common(a[i..], b[j + 1..]))
    ensures InTable(Common(a[i..], b[j..]))
    ensures Stack(Count(t, weights[b[j] / 2], false), Ok(UnionCounts(a[i..], b[j + 1..], weights)))
      == Stack(t, Ok(UnionCounts(a[i..], b[j..], weights)))
  {
    var a', b' := a[i..], b[j..];
    CommonInTable(a', b');
    assert b' == [b[j]] + b[j + 1..];
    if i < |a| {
      assert b[j] !in a';
      CommonSkip(a', b[j], b[j + 1..]);
    } else {
      CommonEmpty(b');
    }
    CountsDropB(a', b', weights, t);
  }

  /** Taking a's id alone: one more id of the union, and its weight. */
  lemma TakeA(a: seq<u32>, b: seq<u32>, i: nat, j: nat, weights: seq<real>, t: Tally)
    requires i < |a| && j <= |b| && |weights| == LOOKUP_SIZE && (j == |b| || a[i] < b[j])
    requires Increasing(b) && InTable(a) && InTable(b) && InTable(Common(a[i + 1..], b[j..]))
    ensures InTable(Common(a[i..], b[j..]))
    ensures Stack(Count(t, weights[a[i] / 2], false), Ok(UnionCounts(a[i + 1..], b[j..], weights)))
      == Stack(t, Ok(UnionCounts(a[i..], b[j..], weights)))
  {
    var a', b' := a[i..], b[j..];
    CommonInTable(a', b');
    assert a'[1..] == a[i + 1..];
    if j < |b| {
      assert a[i] !in b';
    }
    CommonFront(a', b');
    CountsDropA(a', b', weights, t);
  }

  /** Taking a shared id: one more id of the union, its weight matched and counted once. */
  lemma TakeBoth(a: seq<u32>, b: seq<u32>, i: nat, j: nat, weights: seq<real>, t: Tally)
    requires i < |a| && j < |b| && |weights| == LOOKUP_SIZE && a[i] == b[j]
    requires Increasing(a) && InTable(a) && InTable(b) && InTable(Common(a[i + 1..], b[j + 1..]))
    ensures InTable(Common(a[i..], b[j..]))
    ensures Stack(Count(t, weights[a[i] / 2], true), Ok(UnionCounts(a[i + 1..], b[j + 1..], weights)))
      == Stack(t, Ok(UnionCounts(a[i..], b[j..], weights)))
  {
    var a', b' := a[i..], b[j..];
    CommonInTable(a', b');
    assert a'[1..] == a[i + 1..];
    assert b' == [b[j]] + b[j + 1..];
    assert a[i + 1..] == [] || b[j] !in a[i + 1..];
    CommonSkip(a[i + 1..], b[j], b[j + 1..]);
    assert a[i] in b';
    CommonFront(a', b');
    CountsDropBoth(a', b', weights, t);
  }

  /** Counting one more coefficient now is adding it to what is left to count. */
  lemma StackCount(t: Tally, w: real, tie: bool, r: Tally, n: Tally)
    requires n.used == r.used + 1 && n.matched == r.matched + (if tie then w else 0.0) && n.total == r.total + w
    ensures Stack(Count(t, w, tie), Ok(r)) == Stack(t, Ok(n))
  {
  }

  /** Counting b's head alone adds one id and its weight to the union. */
  lemma CountsDropB(a: seq<u32>, b: seq<u32>, weights: seq<real>, t: Tally)
    requires |weights| == LOOKUP_SIZE && b != [] && InTable(a) && InTable(b) && InTable(Common(a, b))
    requires Common(a, b) == Common(a, b[1..])
    ensures Stack(Count(t, weights[b[0] / 2], false), Ok(UnionCounts(a, b[1..], weights)))
      == Stack(t, Ok(UnionCounts(a, b, weights)))
  {
    WeightSumFront(b, weights);
    StackCount(t, weights[b[0] / 2], false, UnionCounts(a, b[1..], weights), UnionCounts(a, b, weights));
  }

  /** Counting a's head alone adds one id and its weight to the union. */
  lemma CountsDropA(a: seq<u32>, b: seq<u32>, weights: seq<real>, t: Tally)
    requires |weights| == LOOKUP_SIZE && a != [] && InTable(a) && InTable(b) && InTable(Common(a, b))
    requires Common(a, b) == Common(a[1..], b)
    ensures Stack(Count(t, weights[a[0] / 2], false), Ok(UnionCounts(a[1..], b, weights)))
      == Stack(t, Ok(UnionCounts(a, b, weights)))
  {
    WeightSumFront(a, weights);
    StackCount(t, weights[a[0] / 2], false, UnionCounts(a[1..], b, weights), UnionCounts(a, b, weights));
  }

  /** Counting a shared head once adds one id to the union and its weight to both sums. */
  lemma CountsDropBoth(a: seq<u32>, b: seq<u32>, weights: seq<real>, t: Tally)
    requires |weights| == LOOKUP_SIZE && a != [] && b != [] && a[0] == b[0]
    requires InTable(a) && InTable(b) && InTable(Common(a, b)) && InTable(Common(a[1..], b[1..]))
    requires Common(a, b) == [a[0]] + Common(a[1..], b[1..])
    ensures Stack(Count(t, weights[a[0] / 2], true), Ok(UnionCounts(a[1..], b[1..], weights)))
      == Stack(t, Ok(UnionCounts(a, b, weights)))
  {
    var c := Common(a, b);
    assert c[1..] == Common(a[1..], b[1..]);
    WeightSumFront(a, weights);
    WeightSumFront(b, weights);
    WeightSumFront(c, weights);
    StackCount(t, weights[a[0] / 2], true, UnionCounts(a[1..], b[1..], weights), UnionCounts(a, b, weights));
  }

  /** No coefficient counted yet. */
  const NoTally := Tally(0, 0.0, 0.0)

  /** CompareTo from the start counts exactly the union of two sorted id arrays. */
  lemma UnionTallyIsUnion(a: seq<u32>, b: seq<u32>, weights: seq<real>)
    requires |weights| == LOOKUP_SIZE && Increasing(a) && Increasing(b) && InTable(a) && InTable(b)
    ensures InTable(Common(a, b))
    ensures UnionTally(a, b, 0, 0, weights, NoTally) == Ok(UnionCounts(a, b, weights))
  {
    UnionTallyCounts(a, b, 0, 0, weights, NoTally);
    assert a[0..] == a && b[0..] == b;
  }

  /** The score of the union counts is the common weight over the union weight. */
  lemma ScoreOfCounts(a: seq<u32>, b: seq<u32>, weights: seq<real>)
    requires |weights| == LOOKUP_SIZE && InTable(a) && InTable(b) && InTable(Common(a, b))
    ensures Score(UnionCounts(a, b, weights)) == Ratio(WeightSum(Common(a, b), weights),
      WeightSum(a, weights) + WeightSum(b, weights) - WeightSum(Common(a, b), weights))
  {
  }

  /**
   * On sorted ids inside the table, CompareTo's score is Compare's: both
   * are the weighted intersection over the weighted union.
   */
  lemma CompareToAgreesWithCompare(sig: SigValue, other: SigValue)
    requires sig.kind.HaarKind? && other.kind.HaarKind?
    requires |sig.kind.averages| <= CHANNEL_COUNT && |sig.kind.averages| <= |other.kind.averages|
    requires Increasing(sig.sigData) && Increasing(other.sigData) && InTable(sig.sigData) && InTable(other.sigData)
    ensures UnionTally(sig.sigData, other.sigData, 0, 0, Table(), NoTally).Ok?
    ensures Similarity(sig, other) == Ok(Score(UnionTally(sig.sigData, other.sigData, 0, 0, Table(), NoTally).value))
  {
    UnionTallyIsUnion(sig.sigData, other.sigData, Table());
    SimilarityIsJaccard(sig, other);
    ScoreOfCounts(sig.sigData, other.sigData, Table());
  }

  /** Next read off the two ids CompareTo loads, int.MaxValue standing in for an exhausted array. */
  lemma NextOf(a: seq<u32>, b: seq<u32>, i: nat, j: nat, i1: u32, i2: u32)
    requires i <= |a| && j <= |b| && (i < |a| || j < |b|) && i1 == Cursor(a, i) && i2 == Cursor(b, j)
    ensures Min(i1 / 2, i2 / 2) >= LOOKUP_SIZE ==> Next(a, b, i, j) == None
    ensures Min(i1 / 2, i2 / 2) < LOOKUP_SIZE ==>
      Next(a, b, i, j) == Some(Step(Min(i1 / 2, i2 / 2), Diff(i1, i2) == 0,
        if Diff(i1, i2) <= 0 then i + 1 else i, if Diff(i1, i2) >= 0 then j + 1 else j))
  {
  }

  /**
   * HaarSignature.CompareTo: usedcoeffs and the score. num_colors is the
   * constant 0, so the average-distance loop never runs and ignore_color is
   * overwritten with false; the parameter has no effect.
   */
  method CompareTo(weightLookUp: seq<real>, sig: Signature, other: Signature, ignoreColor: bool)
    returns (r: Result<(nat, Option<real>)>)
    requires |weightLookUp| == LOOKUP_SIZE
    ensures r.Ok? <==> UnionTally(sig.sigData, other.sigData, 0, 0, weightLookUp, NoTally).Ok?
    ensures r.Err? ==> r.error == UnionTally(sig.sigData, other.sigData, 0, 0, weightLookUp, NoTally).error
    ensures r.Ok? ==> r.value == (UnionTally(sig.sigData, other.sigData, 0, 0, weightLookUp, NoTally).value.used,
      Score(UnionTally(sig.sigData, other.sigData, 0, 0, weightLookUp, NoTally).value))
  {
    var a, b := sig.sigData, other.sigData;
    ghost var target := UnionTally(a, b, 0, 0, weightLookUp, NoTally);
    var wMatch, wTotal := 0.0, 0.0;
    var u, b1, b2, r1, r2 := 0, 0, 0, |a|, |b|;
    while r1 > 0 || r2 > 0
      invariant 0 <= b1 <= |a| && 0 <= b2 <= |b| && r1 == |a| - b1 && r2 == |b| - b2
      invariant UnionTally(a, b, b1, b2, weightLookUp, Tally(u, wMatch, wTotal)) == target
      decreases r1 + r2
    {
      var i1: u32 := if r1 > 0 then a[b1] else INT32_MAX;
      var i2: u32 := if r2 > 0 then b[b2] else INT32_MAX;
      NextOf(a, b, b1, b2, i1, i2);
      ghost var before, t := (b1, b2), Tally(u, wMatch, wTotal);
      u := u + 1;
      var diff := Sub32(ToInt32(i1), ToInt32(i2));
      DiffIsCastSubtraction(i1, i2);
      if diff <= 0 {
        b1 := b1 + 1;
        r1 := r1 - 1;
      }
      if 0 <= diff {
        b2 := b2 + 1;
        r2 := r2 - 1;
      }
      i1 := i1 / 2;
      i2 := i2 / 2;
      if i2 < i1 {
        i1 := i2;
      }
      if i1 >= LOOKUP_SIZE {
        return Err(IndexOutOfRange);
      }
      var weight := weightLookUp[i1];
      wTotal := wTotal + weight;
      if diff == 0 {
        wMatch := wMatch + weight;
      }
      assert Next(a, b, before.0, before.1) == Some(Step(i1, diff == 0, b1, b2));
      assert Tally(u, wMatch, wTotal) == Count(t, weightLookUp[i1], diff == 0);
    }
    return Ok((u, Score(Tally(u, wMatch, wTotal))));
  }
}
