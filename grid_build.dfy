/**
 * QueryGrid.FromSignatures (iqdb/QueryGrid.cs) as a function of the
 * signature list: the admission loop fills `sigdict` and the posting lists
 * `grid`, the index loop gives each entry its index and copies its hash,
 * weight sum and averages, and the layout loop lays the lists of the
 * 98,304 coefficient ids out as groups.
 */
module GridBuild {
  import opened Wire
  import opened Signatures
  import opened HaarWeights
  import opened Csr
  import opened GridLayout
  import opened GridAdmission
  import HaarMatrix
  import IntegerMatrix

  /** The values of the dictionary entries, in key order. */
  function Picked(vs: seq<SigValue>, order: seq<nat>): (ps: seq<SigValue>)
    requires forall j :: 0 <= j < |order| ==> order[j] < |vs|
    ensures |ps| == |order| && forall j :: 0 <= j < |order| ==> ps[j] == vs[order[j]]
  {
    seq(|order|, j requires 0 <= j < |order| => vs[order[j]])
  }

  /** An entry the index loop takes: its ids index WeightLookUp and it has three averages. */
  predicate Fits(v: SigValue) {
    v.kind.HaarKind? && InTable(v.sigData) && |v.kind.averages| >= CHANNEL_COUNT
  }

  /**
   * Why the index loop stops at the first entry it refuses: its ID is a
   * key `imgid2index` already holds (ArgumentException), an id past
   * WeightLookUp in Sum_Weights, or fewer than three averages.
   */
  function IndexError(keys: seq<u32>, ps: seq<SigValue>, n: nat): (e: Option<Error>)
    requires n <= |ps| == |keys|
    ensures e.Some? ==> e.value == Argument || e.value == IndexOutOfRange
  {
    if n == 0 then None
    else
      var e := IndexError(keys, ps, n - 1);
      if e.Some? then e
      else if exists i :: 0 <= i < n - 1 && keys[i] == keys[n - 1] then Some(Argument)
      else if !Fits(ps[n - 1]) then Some(IndexOutOfRange)
      else None
  }

  /**
   * The index loop takes the first n entries exactly when their keys are
   * distinct and they all fit; an ArgumentException means two keys agree,
   * an IndexOutOfRangeException that an entry does not fit.
   */
  lemma {:induction false} IndexErrorMeaning(keys: seq<u32>, ps: seq<SigValue>, n: nat)
    requires n <= |ps| == |keys|
    ensures IndexError(keys, ps, n).None? <==>
      (forall i, j :: 0 <= i < j < n ==> keys[i] != keys[j]) && forall j :: 0 <= j < n ==> Fits(ps[j])
    ensures IndexError(keys, ps, n) == Some(Argument) ==> exists i, j :: 0 <= i < j < n && keys[i] == keys[j]
    ensures IndexError(keys, ps, n) == Some(IndexOutOfRange) ==> exists j :: 0 <= j < n && !Fits(ps[j])
  {
    if n > 0 {
      IndexErrorMeaning(keys, ps, n - 1);
    }
  }

  /** The posting lists of the 98,304 coefficient ids over the entries. */
  function GridLists(ps: seq<SigValue>): (lists: seq<seq<u32>>)
    requires |ps| <= INT32_MAX
    ensures |lists| == COEFF_SPACE
  {
    Lists(Entries(HaarMatrix.SigDatas(ps)), COEFF_SPACE)
  }

  /** Sum_Weights of ids that all index WeightLookUp. */
  function SumOf(ids: seq<u32>): (w: real)
    requires InTable(ids)
    ensures SumLookUp(ids) == Ok(w) && w == WeightSum(ids, Table())
  {
    SumLookUpMeaning(ids);
    SumLookUp(ids).value
  }

  /** `index2sighash`: the hash of each entry. */
  function Hashes(ps: seq<SigValue>): (hs: seq<Option<seq<byte>>>)
    ensures |hs| == |ps| && forall j :: 0 <= j < |ps| ==> hs[j] == ps[j].hash
  {
    seq(|ps|, j requires 0 <= j < |ps| => ps[j].hash)
  }

  /** `weightsums`: Sum_Weights of each entry, the weights of its ids added up. */
  function WeightSums(ps: seq<SigValue>): (ws: seq<real>)
    requires forall j :: 0 <= j < |ps| ==> Fits(ps[j])
    ensures |ws| == |ps| && forall j :: 0 <= j < |ps| ==> SumLookUp(ps[j].sigData) == Ok(ws[j])
  {
    seq(|ps|, j requires 0 <= j < |ps| && Fits(ps[j]) => SumOf(ps[j].sigData))
  }

  /** `avgls`: one row per colour channel, holding that average of each entry. */
  function Averages(ps: seq<SigValue>): (avgls: seq<seq<real>>)
    requires forall j :: 0 <= j < |ps| ==> Fits(ps[j])
    ensures |avgls| == CHANNEL_COUNT
    ensures forall c :: 0 <= c < CHANNEL_COUNT ==> |avgls[c]| == |ps|
    ensures forall c, j :: 0 <= c < CHANNEL_COUNT && 0 <= j < |ps| ==>
      Fits(ps[j]) && avgls[c][j] == ps[j].kind.averages[c]
  {
    seq(CHANNEL_COUNT, c requires 0 <= c < CHANNEL_COUNT =>
      seq(|ps|, j requires 0 <= j < |ps| && Fits(ps[j]) => ps[j].kind.averages[c]))
  }

  /** The grid of a list of entries the index loop takes, whose groups fit an int. */
  function GridOf(ps: seq<SigValue>): (g: Grid)
    requires |ps| <= INT32_MAX && forall j :: 0 <= j < |ps| ==> Fits(ps[j])
    requires GroupsLength(GridLists(ps), COEFF_SPACE) <= INT32_MAX
    ensures |g.hashes| == |g.weightsums| == |ps| && |g.avgls| == CHANNEL_COUNT && |g.offsets| == COEFF_SPACE
  {
    var lists := GridLists(ps);
    Grid(Hashes(ps), WeightSums(ps), Averages(ps), GroupOffsets(lists), Groups(lists, |lists|))
  }

  /**
   * A group that lists, in ascending order and once per occurrence, the
   * index of every entry whose ids include c.
   */
  predicate Posts(group: seq<u32>, ps: seq<SigValue>, c: nat) {
    NonDecreasing(group) && (forall k :: 0 <= k < |group| ==> group[k] < |ps|) &&
    forall j :: 0 <= j < |ps| ==> multiset(group)[j] == multiset(ps[j].sigData)[c]
  }

  /**
   * FromSignatures after a given admission: `new List<uint>[max_coefficient]`
   * (a negative length is an OverflowException), an entry id past the
   * list array (InvalidDataException), the index loop, the layout loop
   * reading `grid[sid]` for every sid below 98,304, and the uint `glmax`
   * (IntegerMatrix.IdCountError: too long to allocate, or wrapped short).
   */
  function BuildFrom(maxCoefficient: int, vs: seq<SigValue>, a: Admission): (r: Result<Grid>)
    requires |vs| <= INT32_MAX && |a.ids| == |vs| && |a.order| <= |vs|
    requires forall j :: 0 <= j < |a.order| ==> a.order[j] < |vs|
    ensures r.Ok? ==> |r.value.hashes| == |a.order| && |r.value.avgls| == CHANNEL_COUNT && |r.value.offsets| == COEFF_SPACE
  {
    var ps := Picked(vs, a.order);
    if maxCoefficient < 0 then Err(Overflow)
    else if !IdsBelow(HaarMatrix.SigDatas(ps), maxCoefficient) then Err(InvalidData)
    else if IndexError(Keys(a), ps, |ps|).Some? then Err(IndexError(Keys(a), ps, |ps|).value)
    else if maxCoefficient < COEFF_SPACE then Err(IndexOutOfRange)
    else if IntegerMatrix.IdCountError(GroupsLength(GridLists(ps), COEFF_SPACE)).Some? then
      Err(IntegerMatrix.IdCountError(GroupsLength(GridLists(ps), COEFF_SPACE)).value)
    else
      IndexErrorMeaning(Keys(a), ps, |ps|);
      Ok(GridOf(ps))
  }

  /** FromSignatures with the admission that keeps each object once. */
  function Build(maxCoefficient: int, sigs: seq<Signature>, vs: seq<SigValue>): (r: Result<Grid>)
    requires |sigs| == |vs| <= INT32_MAX
    ensures r.Ok? ==> |r.value.hashes| == |Admit(sigs, Ids(vs), |sigs|).order|
    ensures r.Ok? ==> |r.value.avgls| == CHANNEL_COUNT && |r.value.offsets| == COEFF_SPACE
  {
    BuildFrom(maxCoefficient, vs, Admit(sigs, Ids(vs), |sigs|))
  }

  /** FromSignatures as written, with the skip test `sig.ID != 0 && sig.ID < sigid`. */
  function AsWrittenBuild(maxCoefficient: int, sigs: seq<Signature>, vs: seq<SigValue>): (r: Result<Grid>)
    requires |sigs| == |vs| <= INT32_MAX
    ensures r.Ok? ==> |r.value.hashes| == |AsWrittenAdmit(sigs, Ids(vs), |sigs|).order|
  {
    BuildFrom(maxCoefficient, vs, AsWrittenAdmit(sigs, Ids(vs), |sigs|))
  }

  // ------------------------------------------------------------- meaning

  /**
   * The layout of a built grid: coefficient c has offset 0 exactly when no
   * entry holds it, and the group at its offset posts every entry that does.
   */
  lemma GridGroups(ps: seq<SigValue>, c: nat)
    requires |ps| <= INT32_MAX && forall j :: 0 <= j < |ps| ==> Fits(ps[j])
    requires GroupsLength(GridLists(ps), COEFF_SPACE) <= INT32_MAX
    requires c < COEFF_SPACE
    ensures GridOf(ps).offsets[c] == 0 <==> forall j :: 0 <= j < |ps| ==> multiset(ps[j].sigData)[c] == 0
    ensures GroupAt(GridOf(ps).groups, GridOf(ps).offsets[c]).Ok?
    ensures Posts(GroupAt(GridOf(ps).groups, GridOf(ps).offsets[c]).value, ps, c)
  {
    var lists := GridLists(ps);
    LayoutMeaning(lists, c);
    ListPosts(ps, c);
  }

  /** The posting list of c posts every entry that holds c, and is empty exactly when none does. */
  lemma ListPosts(ps: seq<SigValue>, c: nat)
    requires |ps| <= INT32_MAX && c < COEFF_SPACE
    ensures Posts(GridLists(ps)[c], ps, c)
    ensures |GridLists(ps)[c]| == 0 <==> forall j :: 0 <= j < |ps| ==> multiset(ps[j].sigData)[c] == 0
  {
    var l := GridLists(ps)[c];
    PostingsMeaning(HaarMatrix.SigDatas(ps), c);
    if |l| != 0 {
      assert l[0] in multiset(l);
    }
  }

  /** Values read from a list of objects: positions holding one object hold one value. */
  predicate Faithful(sigs: seq<Signature>, vs: seq<SigValue>)
    requires |sigs| == |vs|
  {
    forall k, l :: 0 <= k < |sigs| && 0 <= l < |sigs| && sigs[k] == sigs[l] ==> vs[k] == vs[l]
  }

  /** When BuildFrom succeeds, and that a repeated key is its only source of ArgumentException. */
  lemma BuildFromCases(maxCoefficient: int, vs: seq<SigValue>, a: Admission)
    requires |vs| <= INT32_MAX && |a.ids| == |vs| && |a.order| <= |vs|
    requires forall j :: 0 <= j < |a.order| ==> a.order[j] < |vs|
    ensures BuildFrom(maxCoefficient, vs, a).Ok? <==>
      COEFF_SPACE <= maxCoefficient && IdsBelow(HaarMatrix.SigDatas(Picked(vs, a.order)), maxCoefficient) &&
      IndexError(Keys(a), Picked(vs, a.order), |a.order|).None? &&
      GroupsLength(GridLists(Picked(vs, a.order)), COEFF_SPACE) <= INT32_MAX
    ensures BuildFrom(maxCoefficient, vs, a) == Err(Argument) ==>
      exists i, j :: 0 <= i < j < |a.order| && Keys(a)[i] == Keys(a)[j]
  {
    IndexErrorMeaning(Keys(a), Picked(vs, a.order), |a.order|);
  }

  /**
   * An admission that describes the list: every position's value is the
   * value of the entry under the ID the position ends with, and every
   * entry shows its own key as ID.
   */
  predicate Consistent(vs: seq<SigValue>, a: Admission) {
    |a.ids| == |vs| && |a.order| <= |vs| && (forall j :: 0 <= j < |a.order| ==> a.order[j] < |vs|)
    && (forall p :: 0 <= p < |vs| ==> a.ids[p] < |a.order| && vs[a.order[a.ids[p]]] == vs[p])
    && forall j :: 0 <= j < |a.order| ==> a.ids[a.order[j]] == j
  }

  /** The corrected admission describes the list it admits. */
  lemma AdmitConsistent(sigs: seq<Signature>, vs: seq<SigValue>)
    requires |sigs| == |vs| <= INT32_MAX && Faithful(sigs, vs)
    ensures Consistent(vs, Admit(sigs, Ids(vs), |sigs|))
  {
    var ids0 := Ids(vs);
    assert Coherent(sigs, ids0);
    var a := Admit(sigs, ids0, |sigs|);
    AdmitMeaning(sigs, ids0);
    forall p | 0 <= p < |sigs|
      ensures vs[a.order[a.ids[p]]] == vs[p]
    {
      assert sigs[a.order[a.ids[p]]] == sigs[p];
    }
    forall j | 0 <= j < |a.order|
      ensures a.ids[a.order[j]] == j
    {
      assert Keys(a)[j] == j;
    }
  }

  /** The entries of a consistent admission all fit exactly when every position's value fits. */
  lemma PickedFit(vs: seq<SigValue>, a: Admission)
    requires Consistent(vs, a)
    ensures (forall j :: 0 <= j < |a.order| ==> Fits(Picked(vs, a.order)[j])) <==> forall p :: 0 <= p < |vs| ==> Fits(vs[p])
  {
    var ps := Picked(vs, a.order);
    if exists p :: 0 <= p < |vs| && !Fits(vs[p]) {
      var p :| 0 <= p < |vs| && !Fits(vs[p]);
      assert !Fits(ps[a.ids[p]]);
    }
  }

  /** Entries that fit hold no id at or past a maximum coefficient of at least 98,304. */
  lemma FitsBelow(ps: seq<SigValue>, maxCoefficient: int)
    requires COEFF_SPACE <= maxCoefficient && forall j :: 0 <= j < |ps| ==> Fits(ps[j])
    ensures IdsBelow(HaarMatrix.SigDatas(ps), maxCoefficient)
  {
    forall j, k | 0 <= j < |ps| && 0 <= k < |ps[j].sigData|
      ensures ps[j].sigData[k] < maxCoefficient
    {
      assert Fits(ps[j]);
    }
  }

  /** BuildFrom after a consistent admission: when it succeeds, and never on a repeated key. */
  lemma ConsistentAccepts(maxCoefficient: int, vs: seq<SigValue>, a: Admission)
    requires |vs| <= INT32_MAX && Consistent(vs, a)
    ensures BuildFrom(maxCoefficient, vs, a).Ok? <==>
      COEFF_SPACE <= maxCoefficient && (forall p :: 0 <= p < |vs| ==> Fits(vs[p])) &&
      GroupsLength(GridLists(Picked(vs, a.order)), COEFF_SPACE) <= INT32_MAX
    ensures BuildFrom(maxCoefficient, vs, a) != Err(Argument)
  {
    var ps := Picked(vs, a.order);
    PickedFit(vs, a);
    assert forall i, j :: 0 <= i < j < |a.order| ==> Keys(a)[i] != Keys(a)[j] by {
      forall i, j | 0 <= i < j < |a.order|
        ensures Keys(a)[i] != Keys(a)[j]
      {
        assert Keys(a)[i] == i && Keys(a)[j] == j;
      }
    }
    BuildFromCases(maxCoefficient, vs, a);
    IndexErrorMeaning(Keys(a), ps, |ps|);
    if COEFF_SPACE <= maxCoefficient && forall p :: 0 <= p < |vs| ==> Fits(vs[p]) {
      FitsBelow(ps, maxCoefficient);
    }
  }

  /**
   * When FromSignatures succeeds: the maximum coefficient leaves room for
   * all 98,304 ids, every signature's ids index WeightLookUp and it has
   * three averages, and the groups fit an int; and it never fails on a
   * repeated key.
   */
  lemma BuildAccepts(maxCoefficient: int, sigs: seq<Signature>, vs: seq<SigValue>)
    requires |sigs| == |vs| <= INT32_MAX && Faithful(sigs, vs)
    ensures Build(maxCoefficient, sigs, vs).Ok? <==>
      COEFF_SPACE <= maxCoefficient && (forall p :: 0 <= p < |vs| ==> Fits(vs[p])) &&
      GroupsLength(GridLists(Picked(vs, Admit(sigs, Ids(vs), |sigs|).order)), COEFF_SPACE) <= INT32_MAX
    ensures Build(maxCoefficient, sigs, vs) != Err(Argument)
  {
    AdmitConsistent(sigs, vs);
    ConsistentAccepts(maxCoefficient, vs, Admit(sigs, Ids(vs), |sigs|));
  }

  /** What a grid built after a consistent admission holds about position p and coefficient c. */
  lemma ConsistentMeaning(maxCoefficient: int, vs: seq<SigValue>, a: Admission, g: Grid, p: nat, c: nat)
    requires |vs| <= INT32_MAX && Consistent(vs, a)
    requires BuildFrom(maxCoefficient, vs, a) == Ok(g) && p < |vs| && c < COEFF_SPACE
    ensures Fits(vs[p])
    ensures a.ids[p] < |g.hashes| && g.hashes[a.ids[p]] == vs[p].hash
    ensures a.ids[p] < |g.weightsums| && SumLookUp(vs[p].sigData) == Ok(g.weightsums[a.ids[p]])
    ensures forall ch :: 0 <= ch < CHANNEL_COUNT ==>
      a.ids[p] < |g.avgls[ch]| && g.avgls[ch][a.ids[p]] == vs[p].kind.averages[ch]
    ensures GroupAt(g.groups, g.offsets[c]).Ok?
    ensures Posts(GroupAt(g.groups, g.offsets[c]).value, Picked(vs, a.order), c)
    ensures multiset(GroupAt(g.groups, g.offsets[c]).value)[a.ids[p]] == multiset(vs[p].sigData)[c]
  {
    var ps := Picked(vs, a.order);
    ConsistentAccepts(maxCoefficient, vs, a);
    PickedFit(vs, a);
    assert g == GridOf(ps);
    assert ps[a.ids[p]] == vs[p];
    GridGroups(ps, c);
  }

  /**
   * A built grid describes every signature of the list at the index its
   * ID ends with: its hash, its weight sum, its three averages, and, for
   * every coefficient id, as many entries in that id's group as the
   * signature holds the id.
   */
  lemma BuildMeaning(maxCoefficient: int, sigs: seq<Signature>, vs: seq<SigValue>, g: Grid, p: nat, c: nat)
    requires |sigs| == |vs| <= INT32_MAX && Faithful(sigs, vs)
    requires Build(maxCoefficient, sigs, vs) == Ok(g) && p < |vs| && c < COEFF_SPACE
    ensures Fits(vs[p])
    ensures Admit(sigs, Ids(vs), |sigs|).ids[p] < |g.hashes| && g.hashes[Admit(sigs, Ids(vs), |sigs|).ids[p]] == vs[p].hash
    ensures Admit(sigs, Ids(vs), |sigs|).ids[p] < |g.weightsums| &&
      SumLookUp(vs[p].sigData) == Ok(g.weightsums[Admit(sigs, Ids(vs), |sigs|).ids[p]])
    ensures forall ch :: 0 <= ch < CHANNEL_COUNT ==>
      Admit(sigs, Ids(vs), |sigs|).ids[p] < |g.avgls[ch]| &&
      g.avgls[ch][Admit(sigs, Ids(vs), |sigs|).ids[p]] == vs[p].kind.averages[ch]
    ensures GroupAt(g.groups, g.offsets[c]).Ok?
    ensures Posts(GroupAt(g.groups, g.offsets[c]).value, Picked(vs, Admit(sigs, Ids(vs), |sigs|).order), c)
    ensures multiset(GroupAt(g.groups, g.offsets[c]).value)[Admit(sigs, Ids(vs), |sigs|).ids[p]] == multiset(vs[p].sigData)[c]
  {
    AdmitConsistent(sigs, vs);
    ConsistentMeaning(maxCoefficient, vs, Admit(sigs, Ids(vs), |sigs|), g, p, c);
  }

  // ------------------------------------------------------------ findings

  /** Lists without a single id lay out as the default group alone. */
  lemma {:induction false} GroupsLengthEmpty(lists: seq<seq<u32>>, n: nat)
    requires n <= |lists| && forall c :: 0 <= c < n ==> |lists[c]| == 0
    ensures GroupsLength(lists, n) == 1
  {
    if n > 0 {
      GroupsLengthEmpty(lists, n - 1);
    }
  }

  /** A signature without ids, with three averages. */
  function Blank(id: u32): (v: SigValue)
    ensures Fits(v) && v.id == id
  {
    SigValue(id, None, [], HaarKind([0.0, 0.0, 0.0]))
  }

  /** Signatures without ids build a grid whose groups are the default group alone. */
  lemma BlankGroups(ps: seq<SigValue>)
    requires |ps| <= INT32_MAX && forall j :: 0 <= j < |ps| ==> ps[j].sigData == []
    ensures GroupsLength(GridLists(ps), COEFF_SPACE) == 1
  {
    var lists := GridLists(ps);
    forall c | 0 <= c < COEFF_SPACE
      ensures |lists[c]| == 0
    {
      ListPosts(ps, c);
    }
    GroupsLengthEmpty(lists, COEFF_SPACE);
  }

  /**
   * Signatures without ids: FromSignatures after a given admission succeeds
   * exactly when the entries' keys are distinct, and fails otherwise with
   * ArgumentException.
   */
  lemma BlankFrom(vs: seq<SigValue>, a: Admission)
    requires |vs| <= INT32_MAX && |a.ids| == |vs| && |a.order| <= |vs|
    requires forall j :: 0 <= j < |a.order| ==> a.order[j] < |vs|
    requires forall p :: 0 <= p < |vs| ==> vs[p].sigData == [] && Fits(vs[p])
    ensures BuildFrom(COEFF_SPACE, vs, a).Ok? <==> forall i, j :: 0 <= i < j < |a.order| ==> Keys(a)[i] != Keys(a)[j]
    ensures BuildFrom(COEFF_SPACE, vs, a).Err? ==> BuildFrom(COEFF_SPACE, vs, a).error == Argument
  {
    var ps := Picked(vs, a.order);
    assert forall j :: 0 <= j < |ps| ==> ps[j].sigData == [] && Fits(ps[j]) by {
      forall j | 0 <= j < |ps|
        ensures ps[j].sigData == [] && Fits(ps[j])
      {
        assert ps[j] == vs[a.order[j]];
      }
    }
    FitsBelow(ps, COEFF_SPACE);
    BlankGroups(ps);
    BuildFromCases(COEFF_SPACE, vs, a);
    IndexErrorMeaning(Keys(a), ps, |ps|);
  }

  /**
   * One object listed twice with ID 0: as written, the skip test lets the
   * second position in again (`sig.ID != 0` fails), so the object is
   * entered under keys 0 and 1, its ID ends as 1 for both entries, and
   * `imgid2index.Add` throws an ArgumentException.
   */
  lemma RepeatedObject(s: Signature)
    ensures AsWrittenAdmit([s, s], [0, 0], 2) == Admission([1, 1], [0, 1])
    ensures AsWrittenBuild(COEFF_SPACE, [s, s], [Blank(0), Blank(0)]) == Err(Argument)
  {
    var sigs, vs := [s, s], [Blank(0), Blank(0)];
    assert Ids(vs) == [0, 0];
    assert AsWrittenAdmit(sigs, [0, 0], 1) == Admission([0, 0], [0]);
    var w := AsWrittenAdmit(sigs, [0, 0], 2);
    assert w == Admission([1, 1], [0, 1]);
    assert Keys(w)[0] == Keys(w)[1];
    BlankFrom(vs, w);
  }

  /** The same list with the corrected skip test: the object is entered once and the build succeeds. */
  lemma RepeatedObjectCorrected(s: Signature)
    ensures Admit([s, s], [0, 0], 2) == Admission([0, 0], [0])
    ensures Build(COEFF_SPACE, [s, s], [Blank(0), Blank(0)]).Ok?
    ensures |Build(COEFF_SPACE, [s, s], [Blank(0), Blank(0)]).value.hashes| == 1
  {
    var sigs, vs := [s, s], [Blank(0), Blank(0)];
    assert Ids(vs) == [0, 0];
    assert Admit(sigs, [0, 0], 1) == Admission([0, 0], [0]);
    var a := Admit(sigs, [0, 0], 2);
    assert a == Admission([0, 0], [0]);
    BlankFrom(vs, a);
  }

  /**
   * A signature still carrying the ID of an earlier build: as written, the
   * third of three distinct objects with IDs 0, 0 and 1 is skipped (`1 <
   * 2`), so it is missing from the grid and its ID names the second one's
   * index.
   */
  lemma StaleId(x: Signature, y: Signature, z: Signature)
    requires x != y && y != z && x != z
    ensures AsWrittenAdmit([x, y, z], [0, 0, 1], 3) == Admission([0, 1, 1], [0, 1])
    ensures AsWrittenBuild(COEFF_SPACE, [x, y, z], [Blank(0), Blank(0), Blank(1)]).Ok?
    ensures |AsWrittenBuild(COEFF_SPACE, [x, y, z], [Blank(0), Blank(0), Blank(1)]).value.hashes| == 2
  {
    var vs := [Blank(0), Blank(0), Blank(1)];
    assert Ids(vs) == [0, 0, 1];
    StaleAdmit(x, y, z);
    var w := Admission([0, 1, 1], [0, 1]);
    assert Keys(w)[0] != Keys(w)[1];
    BlankFrom(vs, w);
  }

  /** The admission as written over StaleId's list, one position at a time. */
  lemma StaleAdmit(x: Signature, y: Signature, z: Signature)
    requires x != y && y != z && x != z
    ensures AsWrittenAdmit([x, y, z], [0, 0, 1], 3) == Admission([0, 1, 1], [0, 1])
  {
    var sigs := [x, y, z];
    assert AsWrittenAdmit(sigs, [0, 0, 1], 1) == Admission([0, 0, 1], [0]);
    assert AsWrittenAdmit(sigs, [0, 0, 1], 2) == Admission([0, 1, 1], [0, 1]);
  }

  /** The same list with the corrected skip test: all three objects are entered. */
  lemma StaleIdCorrected(x: Signature, y: Signature, z: Signature)
    requires x != y && y != z && x != z
    ensures Admit([x, y, z], [0, 0, 1], 3) == Admission([0, 1, 2], [0, 1, 2])
    ensures Build(COEFF_SPACE, [x, y, z], [Blank(0), Blank(0), Blank(1)]).Ok?
    ensures |Build(COEFF_SPACE, [x, y, z], [Blank(0), Blank(0), Blank(1)]).value.hashes| == 3
  {
    var sigs, vs := [x, y, z], [Blank(0), Blank(0), Blank(1)];
    assert Ids(vs) == [0, 0, 1];
    DistinctAdmitted(sigs, [0, 0, 1], 3);
    var a := Admit(sigs, [0, 0, 1], 3);
    assert a.order == [0, 1, 2] && a.ids == [0, 1, 2];
    assert Keys(a) == [0, 1, 2];
    BlankFrom(vs, a);
  }

  // ------------------------------------------------------------ the loops

  /** The dictionary after one more entry: its values are the earlier ones and the new one. */
  lemma PickedSnoc(vs: seq<SigValue>, order: seq<nat>, p: nat)
    requires p < |vs| && forall j :: 0 <= j < |order| ==> order[j] < |vs|
    ensures Picked(vs, order + [p]) == Picked(vs, order) + [vs[p]]
  {
  }

  /** The entries of one more dictionary entry follow those before it, under its key. */
  lemma EntriesEnter(vs: seq<SigValue>, order: seq<nat>, p: nat)
    requires |vs| <= INT32_MAX && p < |vs| && |order| < |vs|
    requires forall j :: 0 <= j < |order| ==> order[j] < |vs|
    ensures Entries(HaarMatrix.SigDatas(Picked(vs, order + [p]))) ==
      Entries(HaarMatrix.SigDatas(Picked(vs, order))) + Tagged(|order| as u32, vs[p].sigData)
  {
    var data := HaarMatrix.SigDatas(Picked(vs, order + [p]));
    EntriesSnoc(data, |order|);
    assert data[..|order|] == HaarMatrix.SigDatas(Picked(vs, order));
    assert data[..|order| + 1] == data;
  }

  /** A position the admission enters at step p stays an entry of the whole admission. */
  lemma {:induction false} EnteredStays(sigs: seq<Signature>, ids0: seq<u32>, p: nat)
    requires p < |sigs| <= INT32_MAX && |ids0| == |sigs|
    requires !Held(sigs, Admit(sigs, ids0, p), p)
    ensures |Admit(sigs, ids0, p).order| < |Admit(sigs, ids0, |sigs|).order|
    ensures Admit(sigs, ids0, |sigs|).order[|Admit(sigs, ids0, p).order|] == p
  {
    var a := Admit(sigs, ids0, p);
    var b := Admit(sigs, ids0, p + 1);
    assert AdmitNext(sigs, a, p).order == a.order + [p];
    assert b.order == a.order + [p];
    ghost var all := AdmitPrefix(sigs, ids0, p + 1, |sigs|);
    assert all[|a.order|] == (a.order + [p])[|a.order|];
  }

  /** The order of an admission begins with the order of every earlier one. */
  lemma {:induction false} AdmitPrefix(sigs: seq<Signature>, ids0: seq<u32>, n: nat, m: nat) returns (all: seq<nat>)
    requires n <= m <= |sigs| <= INT32_MAX && |ids0| == |sigs|
    ensures all == Admit(sigs, ids0, m).order
    ensures |Admit(sigs, ids0, n).order| <= |all| && all[..|Admit(sigs, ids0, n).order|] == Admit(sigs, ids0, n).order
  {
    AdmitGrows(sigs, ids0, n, m);
    all := Admit(sigs, ids0, m).order;
  }

  /**
   * The coefficient loop for a signature just entered under sigid: an id
   * past the list array is an InvalidDataException, and otherwise sigid is
   * appended to the list of each id. (The source checks each id just before
   * its append; the lists are discarded on the exception either way.)
   */
  method PostIds(grid: array<seq<u32>>, ghost es: seq<Entry>, sigid: u32, ids: seq<u32>) returns (ok: bool)
    requires forall c :: 0 <= c < grid.Length ==> grid[c] == Postings(es, c)
    modifies grid
    ensures ok <==> forall k :: 0 <= k < |ids| ==> ids[k] < grid.Length
    ensures ok ==> forall c :: 0 <= c < grid.Length ==> grid[c] == Postings(es + Tagged(sigid, ids), c)
  {
    for k := 0 to |ids|
      invariant forall t :: 0 <= t < k ==> ids[t] < grid.Length
    {
      if ids[k] as int >= grid.Length {
        return false;
      }
    }
    DistributeIds(grid, es, sigid, ids);
    return true;
  }

  /**
   * The state the admission loop keeps after admission a: every object's ID
   * is the one a gives it, the dictionary holds a's entries in key order,
   * all their ids are below the length of the list array, and each list
   * posts their keys.
   */
  ghost predicate Admitting(sigs: seq<Signature>, vs: seq<SigValue>, a: Admission, dict: seq<Signature>, es: seq<Entry>, grid: array<seq<u32>>)
    reads grid, set s | s in sigs
  {
    |vs| == |sigs| <= INT32_MAX && |a.ids| == |sigs| && |a.order| <= |sigs|
    && (forall j :: 0 <= j < |a.order| ==> a.order[j] < |sigs|)
    && (forall k :: 0 <= k < |sigs| ==> sigs[k].Value() == vs[k].(id := a.ids[k]))
    && |dict| == |a.order| && (forall j :: 0 <= j < |dict| ==> dict[j] == sigs[a.order[j]])
    && es == Entries(HaarMatrix.SigDatas(Picked(vs, a.order)))
    && IdsBelow(HaarMatrix.SigDatas(Picked(vs, a.order)), grid.Length)
    && forall c :: 0 <= c < grid.Length ==> grid[c] == Postings(es, c)
  }

  /**
   * One entry of the admission loop: `sig.ID = sigid; sigdict.Add(sigid,
   * sig)` and the coefficient loop, for a position the skip test lets in.
   */
  method EnterStep(sigs: seq<Signature>, ghost vs: seq<SigValue>, ghost a: Admission, i: nat,
                   dict: seq<Signature>, grid: array<seq<u32>>, ghost es: seq<Entry>)
    returns (ok: bool, dict': seq<Signature>, ghost es': seq<Entry>)
    requires i < |sigs| && Shaped(sigs, a, i) && !Held(sigs, a, i)
    requires Admitting(sigs, vs, a, dict, es, grid)
    modifies sigs`id, grid
    ensures ok <==> forall t :: 0 <= t < |vs[i].sigData| ==> vs[i].sigData[t] < grid.Length
    ensures ok ==> Admitting(sigs, vs, Enter(sigs, a, i), dict', es', grid)
  {
    var sig := sigs[i];
    var sigid := |dict| as u32;
    ghost var b := Enter(sigs, a, i);
    sig.SetId(sigid);
    forall k | 0 <= k < |sigs|
      ensures sigs[k].Value() == vs[k].(id := b.ids[k])
    {
      if sigs[k] != sig {
        assert b.ids[k] == a.ids[k];
      }
    }
    dict', es' := dict + [sig], es;
    ok := PostIds(grid, es, sigid, sig.sigData);
    if !ok {
      return;
    }
    EntriesEnter(vs, a.order, i);
    PickedSnoc(vs, a.order, i);
    es' := es + Tagged(sigid, sig.sigData);
    assert HaarMatrix.SigDatas(Picked(vs, b.order)) == HaarMatrix.SigDatas(Picked(vs, a.order)) + [vs[i].sigData];
  }

  /** One pass of the admission loop, at position i: the skip test, or the entry of the signature. */
  method AdmitOne(sigs: seq<Signature>, ghost vs: seq<SigValue>, ghost ids0: seq<u32>, i: nat,
                  dict: seq<Signature>, grid: array<seq<u32>>, ghost es: seq<Entry>)
    returns (ok: bool, dict': seq<Signature>, ghost es': seq<Entry>)
    requires i < |sigs| == |ids0| <= INT32_MAX && Admitting(sigs, vs, Admit(sigs, ids0, i), dict, es, grid)
    modifies sigs`id, grid
    ensures ok ==> Admitting(sigs, vs, Admit(sigs, ids0, i + 1), dict', es', grid)
    ensures !ok ==> !IdsBelow(HaarMatrix.SigDatas(Picked(vs, Admit(sigs, ids0, |sigs|).order)), grid.Length)
  {
    ghost var a := Admit(sigs, ids0, i);
    var sig := sigs[i];
    assert sig.Value() == vs[i].(id := a.ids[i]);
    assert Admit(sigs, ids0, i + 1) == AdmitNext(sigs, a, i);
    if sig.id < |dict| as u32 && dict[sig.id] == sig {
      assert Held(sigs, a, i);
      return true, dict, es;
    }
    assert !Held(sigs, a, i);
    ok, dict', es' := EnterStep(sigs, vs, a, i, dict, grid, es);
    if !ok {
      EnteredStays(sigs, ids0, i);
      ghost var A := Admit(sigs, ids0, |sigs|);
      ghost var t :| 0 <= t < |vs[i].sigData| && vs[i].sigData[t] >= grid.Length;
      assert HaarMatrix.SigDatas(Picked(vs, A.order))[|a.order|][t] >= grid.Length;
    }
  }

  /** Before the admission loop nothing is entered and every list is empty. */
  lemma AdmittingStart(sigs: seq<Signature>, vs: seq<SigValue>, grid: array<seq<u32>>)
    requires |sigs| == |vs| <= INT32_MAX && forall k :: 0 <= k < |sigs| ==> sigs[k].Value() == vs[k]
    requires forall c :: 0 <= c < grid.Length ==> grid[c] == []
    ensures Admitting(sigs, vs, Admit(sigs, Ids(vs), 0), [], [], grid)
  {
    assert Admit(sigs, Ids(vs), 0).order == [] && Picked(vs, []) == [];
    assert forall k :: 0 <= k < |sigs| ==> vs[k].(id := Ids(vs)[k]) == vs[k];
  }

  /** The passes of the admission loop from an empty dictionary and empty lists, up to the first refused entry. */
  method AdmitAll(sigs: seq<Signature>, ghost vs: seq<SigValue>, grid: array<seq<u32>>)
    returns (ok: bool, dict: seq<Signature>)
    requires |sigs| == |vs| <= INT32_MAX && Admitting(sigs, vs, Admit(sigs, Ids(vs), 0), [], [], grid)
    modifies sigs`id, grid
    ensures ok <==> IdsBelow(HaarMatrix.SigDatas(Picked(vs, Admit(sigs, Ids(vs), |sigs|).order)), grid.Length)
    ensures ok ==> Admitting(sigs, vs, Admit(sigs, Ids(vs), |sigs|), dict,
      Entries(HaarMatrix.SigDatas(Picked(vs, Admit(sigs, Ids(vs), |sigs|).order))), grid)
  {
    dict := [];
    ghost var ids0 := Ids(vs);
    ghost var es: seq<Entry> := [];
    for i := 0 to |sigs|
      invariant Admitting(sigs, vs, Admit(sigs, ids0, i), dict, es, grid)
    {
      ok, dict, es := AdmitOne(sigs, vs, ids0, i, dict, grid, es);
      if !ok {
        return;
      }
    }
    ok := true;
  }

  /**
   * The admission loop of FromSignatures with the corrected skip test: each
   * object is entered once, under the count of entries before it, its ID
   * set to that key, and its key posted to the list of each of its ids.
   * On success the dictionary, the IDs and the lists are those of Admit.
   */
  method AdmitLoop(maxCoefficient: nat, sigs: seq<Signature>, ghost vs: seq<SigValue>)
    returns (r: Result<seq<Signature>>, grid: array<seq<u32>>)
    requires |sigs| == |vs| <= INT32_MAX && forall k :: 0 <= k < |sigs| ==> sigs[k].Value() == vs[k]
    modifies sigs`id
    ensures fresh(grid) && grid.Length == maxCoefficient
    ensures r.Ok? <==> IdsBelow(HaarMatrix.SigDatas(Picked(vs, Admit(sigs, Ids(vs), |sigs|).order)), maxCoefficient)
    ensures r.Err? ==> r.error == InvalidData
    ensures r.Ok? ==> Admitting(sigs, vs, Admit(sigs, Ids(vs), |sigs|), r.value,
      Entries(HaarMatrix.SigDatas(Picked(vs, Admit(sigs, Ids(vs), |sigs|).order))), grid)
  {
    grid := new seq<u32>[maxCoefficient](_ => []);
    AdmittingStart(sigs, vs, grid);
    var ok, dict := AdmitAll(sigs, vs, grid);
    if !ok {
      return Err(InvalidData), grid;
    }
    return Ok(dict), grid;
  }

  /** Once the index loop has refused an entry, later entries do not change the outcome. */
  lemma {:induction false} IndexErrorStays(keys: seq<u32>, ps: seq<SigValue>, n: nat, m: nat)
    requires n <= m <= |ps| == |keys| && IndexError(keys, ps, n).Some?
    ensures IndexError(keys, ps, m) == IndexError(keys, ps, n)
    decreases m - n
  {
    if n < m {
      IndexErrorStays(keys, ps, n, m - 1);
      assert IndexError(keys, ps, m) == IndexError(keys, ps, m - 1);
    }
  }

  /** What the index loop fills: `index2sighash`, `weightsums`, `avgls` and `imgid2index`. */
  datatype Rows = Rows(hashes: seq<Option<seq<byte>>>, weightsums: seq<real>, avgls: seq<seq<real>>, index: map<u32, u32>)

  /** The rows after the index loop has taken the first n entries. */
  predicate Indexed(keys: seq<u32>, ps: seq<SigValue>, rows: Rows, n: nat)
    requires n <= |ps| == |keys| <= INT32_MAX
  {
    IndexError(keys, ps, n).None?
    && (forall j :: 0 <= j < n ==> Fits(ps[j]))
    && |rows.hashes| == |rows.weightsums| == n
    && (forall j :: 0 <= j < n ==> rows.hashes[j] == ps[j].hash && SumLookUp(ps[j].sigData) == Ok(rows.weightsums[j]))
    && |rows.avgls| == CHANNEL_COUNT && (forall c :: 0 <= c < CHANNEL_COUNT ==> |rows.avgls[c]| == n)
    && (forall c, j :: 0 <= c < CHANNEL_COUNT && 0 <= j < n ==> Fits(ps[j]) && rows.avgls[c][j] == ps[j].kind.averages[c])
    && (forall key :: key in rows.index ==> key in keys[..n])
    && forall j :: 0 <= j < n ==> keys[j] in rows.index && rows.index[keys[j]] == j as u32
  }

  /** Rows that took every entry are those of GridOf. */
  lemma IndexedAll(keys: seq<u32>, ps: seq<SigValue>, rows: Rows)
    requires |ps| == |keys| <= INT32_MAX && Indexed(keys, ps, rows, |ps|)
    ensures forall j :: 0 <= j < |ps| ==> Fits(ps[j])
    ensures rows.hashes == Hashes(ps) && rows.weightsums == WeightSums(ps) && rows.avgls == Averages(ps)
  {
    assert forall c :: 0 <= c < CHANNEL_COUNT ==> rows.avgls[c] == Averages(ps)[c];
  }

  /** One pass of the index loop, for the entry with index `index`. */
  method IndexOne(sig: Signature, ghost keys: seq<u32>, ghost ps: seq<SigValue>, index: nat, rows: Rows) returns (r: Result<Rows>)
    requires index < |ps| == |keys| <= INT32_MAX && sig.Value() == ps[index].(id := keys[index])
    requires Indexed(keys, ps, rows, index)
    ensures r.Err? ==> IndexError(keys, ps, index + 1) == Some(r.error)
    ensures r.Ok? ==> Indexed(keys, ps, r.value, index + 1)
  {
    var hashes := rows.hashes + [sig.hash];
    if sig.id in rows.index {
      return Err(Argument);
    }
    var m := rows.index[sig.id := index as u32];
    var w := SumWeights(sig.sigData);
    SumLookUpMeaning(sig.sigData);
    if w.Err? {
      return Err(w.error);
    }
    var ws := rows.weightsums + [w.value];
    if !sig.kind.HaarKind? || |sig.kind.averages| < CHANNEL_COUNT {
      return Err(IndexOutOfRange);
    }
    var avg := sig.kind.averages;
    var avgls := [rows.avgls[0] + [avg[0]], rows.avgls[1] + [avg[1]], rows.avgls[2] + [avg[2]]];
    IndexedSnoc(keys, ps, rows, index, w.value);
    return Ok(Rows(hashes, ws, avgls, m));
  }

  /** The rows extended by an entry whose key is new and which fits take one more entry. */
  lemma IndexedSnoc(keys: seq<u32>, ps: seq<SigValue>, rows: Rows, index: nat, w: real)
    requires index < |ps| == |keys| <= INT32_MAX && Indexed(keys, ps, rows, index)
    requires keys[index] !in rows.index && Fits(ps[index]) && SumLookUp(ps[index].sigData) == Ok(w)
    ensures Indexed(keys, ps, Rows(rows.hashes + [ps[index].hash],
      rows.weightsums + [w],
      [rows.avgls[0] + [ps[index].kind.averages[0]], rows.avgls[1] + [ps[index].kind.averages[1]],
       rows.avgls[2] + [ps[index].kind.averages[2]]],
      rows.index[keys[index] := index as u32]), index + 1)
  {
    assert forall i :: 0 <= i < index ==> keys[i] != keys[index];
    assert IndexError(keys, ps, index + 1).None?;
    assert keys[..index + 1] == keys[..index] + [keys[index]];
  }

  /**
   * The index loop of FromSignatures over the dictionary in key order: entry
   * j is given index j, its ID is added to `imgid2index` (a repeated ID is an
   * ArgumentException), and its hash, Sum_Weights (an id past WeightLookUp
   * is an IndexOutOfRangeException) and three averages (fewer is one too)
   * are copied.
   */
  method IndexLoop(dict: seq<Signature>, ghost keys: seq<u32>, ghost ps: seq<SigValue>) returns (r: Result<Rows>)
    requires |dict| == |keys| == |ps| <= INT32_MAX
    requires forall j :: 0 <= j < |dict| ==> dict[j].Value() == ps[j].(id := keys[j])
    ensures r.Err? <==> IndexError(keys, ps, |ps|).Some?
    ensures r.Err? ==> IndexError(keys, ps, |ps|) == Some(r.error)
    ensures r.Ok? ==> forall j :: 0 <= j < |ps| ==> Fits(ps[j])
    ensures r.Ok? ==> r.value.hashes == Hashes(ps) && r.value.weightsums == WeightSums(ps) && r.value.avgls == Averages(ps)
    ensures r.Ok? ==> forall j :: 0 <= j < |ps| ==> keys[j] in r.value.index && r.value.index[keys[j]] == j as u32
  {
    var rows := Rows([], [], [[], [], []], map[]);
    for index := 0 to |dict|
      invariant Indexed(keys, ps, rows, index)
    {
      var next := IndexOne(dict[index], keys, ps, index, rows);
      if next.Err? {
        IndexErrorStays(keys, ps, index + 1, |ps|);
        return Err(next.error);
      }
      rows := next.value;
    }
    IndexedAll(keys, ps, rows);
    return Ok(rows);
  }

  /** GroupsLength looks at the first n lists only. */
  lemma {:induction false} GroupsLengthAgree(l1: seq<seq<u32>>, l2: seq<seq<u32>>, n: nat)
    requires n <= |l1| && n <= |l2| && forall c :: 0 <= c < n ==> l1[c] == l2[c]
    ensures GroupsLength(l1, n) == GroupsLength(l2, n)
  {
    if n > 0 {
      GroupsLengthAgree(l1, l2, n - 1);
    }
  }

  /**
   * The `glmax` loop: `grid[sid]` read for every sid below 98,304 (past the
   * list array, an IndexOutOfRangeException), each non-empty list adding
   * its count and one. The total is kept exactly; its uint wrap is
   * IntegerMatrix.IdCountError.
   */
  method GroupTotal(grid: array<seq<u32>>) returns (r: Result<nat>)
    ensures r.Ok? <==> COEFF_SPACE <= grid.Length
    ensures r.Err? ==> r.error == IndexOutOfRange
    ensures r.Ok? ==> r.value == GroupsLength(grid[..], COEFF_SPACE)
  {
    var glmax := 1;
    for sid := 0 to COEFF_SPACE
      invariant sid <= grid.Length && glmax == GroupsLength(grid[..], sid)
    {
      if sid >= grid.Length {
        return Err(IndexOutOfRange);
      }
      var n := grid[sid];
      if |n| != 0 {
        glmax := glmax + |n| + 1;
      }
    }
    return Ok(glmax);
  }

  /** When every key is its own index, `imgid2index` maps every posted key to itself. */
  lemma IdentityOnPosts(ps: seq<SigValue>, keys: seq<u32>, m: map<u32, u32>)
    requires |ps| == |keys| <= INT32_MAX
    requires forall j :: 0 <= j < |keys| ==> keys[j] == j && keys[j] in m && m[keys[j]] == j as u32
    ensures forall c, i :: 0 <= c < COEFF_SPACE && 0 <= i < |GridLists(ps)[c]| ==>
      GridLists(ps)[c][i] in m && m[GridLists(ps)[c][i]] == GridLists(ps)[c][i]
  {
    forall c, i | 0 <= c < COEFF_SPACE && 0 <= i < |GridLists(ps)[c]|
      ensures GridLists(ps)[c][i] in m && m[GridLists(ps)[c][i]] == GridLists(ps)[c][i]
    {
      ListPosts(ps, c);
      var id := GridLists(ps)[c][i];
      assert keys[id] == id;
    }
  }

  /**
   * The rest of FromSignatures once the admission loop has filled the
   * dictionary and the lists: the index loop, the `glmax` loop and the
   * layout loop give BuildFrom of that admission.
   */
  method FromAdmission(maxCoefficient: nat, dict: seq<Signature>, grid: array<seq<u32>>, ghost vs: seq<SigValue>, ghost a: Admission)
    returns (r: Result<Grid>)
    requires |vs| <= INT32_MAX && Consistent(vs, a) && grid.Length == maxCoefficient
    requires IdsBelow(HaarMatrix.SigDatas(Picked(vs, a.order)), maxCoefficient)
    requires |dict| == |a.order| && forall j :: 0 <= j < |dict| ==> dict[j].Value() == Picked(vs, a.order)[j].(id := Keys(a)[j])
    requires forall c :: 0 <= c < grid.Length ==> grid[c] == Postings(Entries(HaarMatrix.SigDatas(Picked(vs, a.order))), c)
    ensures r == BuildFrom(maxCoefficient, vs, a)
  {
    ghost var ps := Picked(vs, a.order);
    var rows := IndexLoop(dict, Keys(a), ps);
    if rows.Err? {
      return Err(rows.error);
    }
    var total := GroupTotal(grid);
    if total.Err? {
      return Err(total.error);
    }
    var e := IntegerMatrix.IdCountError(total.value);
    if e.Some? {
      GroupsLengthAgree(grid[..], GridLists(ps), COEFF_SPACE);
      return Err(e.value);
    }
    var lists := grid[..COEFF_SPACE];
    assert lists == GridLists(ps);
    GroupsLengthAgree(grid[..], lists, COEFF_SPACE);
    IdentityOnPosts(ps, Keys(a), rows.value.index);
    var offsets, groups := FillGroups(lists, rows.value.index, total.value);
    return Ok(Grid(rows.value.hashes, rows.value.weightsums, rows.value.avgls, offsets, groups));
  }

  /**
   * QueryGrid.FromSignatures with the corrected skip test: every signature
   * is left as it was but for its ID, and the outcome is Build of the list
   * as it was; on success every signature's ID is the one Admit gives it.
   */
  method FromSignatures(maxCoefficient: int, sigs: seq<Signature>) returns (r: Result<Grid>)
    requires |sigs| <= INT32_MAX
    modifies sigs`id
    ensures forall k :: 0 <= k < |sigs| ==> sigs[k].Value() == old(sigs[k].Value()).(id := sigs[k].id)
    ensures r == Build(maxCoefficient, sigs, old(HaarMatrix.Values(sigs)))
    ensures r.Ok? ==> forall k :: 0 <= k < |sigs| ==>
      sigs[k].id == Admit(sigs, Ids(old(HaarMatrix.Values(sigs))), |sigs|).ids[k]
  {
    ghost var vs := HaarMatrix.Values(sigs);
    if maxCoefficient < 0 {
      return Err(Overflow);
    }
    var admitted, grid := AdmitLoop(maxCoefficient, sigs, vs);
    if admitted.Err? {
      return Err(admitted.error);
    }
    ghost var a := Admit(sigs, Ids(vs), |sigs|);
    assert Faithful(sigs, vs);
    AdmitConsistent(sigs, vs);
    r := FromAdmission(maxCoefficient, admitted.value, grid, vs, a);
  }
}
