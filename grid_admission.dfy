/**
 * The admission loop of QueryGrid.FromSignatures (iqdb/QueryGrid.cs). Each
 * signature of the list either enters `sigdict` under the next free key,
 * which becomes its ID, or is skipped as one that is already there.
 * Signatures are objects and a list may hold one object at several
 * positions: setting the ID through one position sets it for all of them.
 */
module GridAdmission {
  import opened Wire
  import opened Signatures

  /**
   * The state of the admission loop: the ID each list position shows, and
   * the positions whose objects entered `sigdict`, in key order.
   */
  datatype Admission = Admission(ids: seq<u32>, order: seq<nat>)

  /** The IDs of a list of signature values. */
  function Ids(vs: seq<SigValue>): (ids: seq<u32>)
    ensures |ids| == |vs| && forall k :: 0 <= k < |vs| ==> ids[k] == vs[k].id
  {
    seq(|vs|, k requires 0 <= k < |vs| => vs[k].id)
  }

  /** Positions that hold one object show one ID. */
  predicate Coherent(sigs: seq<Signature>, ids: seq<u32>)
    requires |ids| == |sigs|
  {
    forall k, l :: 0 <= k < |sigs| && 0 <= l < |sigs| && sigs[k] == sigs[l] ==> ids[k] == ids[l]
  }

  /** An ID for every position, and dictionary entries that name positions before n. */
  predicate Shaped(sigs: seq<Signature>, a: Admission, n: nat) {
    |a.ids| == |sigs| && |a.order| <= n && forall j :: 0 <= j < |a.order| ==> a.order[j] < n
  }

  /** `sig.ID = value` on object o, as every position holding o sees it. */
  function Assign(sigs: seq<Signature>, ids: seq<u32>, o: Signature, value: u32): (r: seq<u32>)
    requires |ids| == |sigs|
    ensures |r| == |sigs|
    ensures forall k :: 0 <= k < |sigs| && sigs[k] == o ==> r[k] == value
    ensures forall k :: 0 <= k < |sigs| && sigs[k] != o ==> r[k] == ids[k]
  {
    seq(|sigs|, k requires 0 <= k < |sigs| => if sigs[k] == o then value else ids[k])
  }

  /** `sig.ID = sigid; sigdict.Add(sigid, sig)` for the signature at position p. */
  function Enter(sigs: seq<Signature>, a: Admission, p: nat): (b: Admission)
    requires p < |sigs| <= INT32_MAX && Shaped(sigs, a, p)
    ensures Shaped(sigs, b, p + 1) && b.order == a.order + [p]
  {
    Admission(Assign(sigs, a.ids, sigs[p], |a.order| as u32), a.order + [p])
  }

  /** The skip test that keeps each object once: the dictionary holds this very object under its ID. */
  predicate Held(sigs: seq<Signature>, a: Admission, p: nat)
    requires p < |sigs| && Shaped(sigs, a, p)
  {
    a.ids[p] < |a.order| && sigs[a.order[a.ids[p]]] == sigs[p]
  }

  /** The admission loop over positions 0 to n - 1 with the skip test Held. */
  function Admit(sigs: seq<Signature>, ids0: seq<u32>, n: nat): (a: Admission)
    requires n <= |sigs| <= INT32_MAX && |ids0| == |sigs|
    ensures Shaped(sigs, a, n)
  {
    if n == 0 then Admission(ids0, []) else AdmitNext(sigs, Admit(sigs, ids0, n - 1), n - 1)
  }

  /** One pass of the admission loop, at position p. */
  function AdmitNext(sigs: seq<Signature>, a: Admission, p: nat): (b: Admission)
    requires p < |sigs| <= INT32_MAX && Shaped(sigs, a, p)
    ensures Shaped(sigs, b, p + 1)
  {
    if Held(sigs, a, p) then a else Enter(sigs, a, p)
  }

  /** The skip test as written: `sig.ID != 0 && sig.ID < sigid`. */
  predicate AsWrittenSkips(a: Admission, p: nat)
    requires p < |a.ids|
  {
    a.ids[p] != 0 && a.ids[p] < |a.order|
  }

  /** The admission loop over positions 0 to n - 1 with the skip test as written. */
  function AsWrittenAdmit(sigs: seq<Signature>, ids0: seq<u32>, n: nat): (a: Admission)
    requires n <= |sigs| <= INT32_MAX && |ids0| == |sigs|
    ensures Shaped(sigs, a, n)
  {
    if n == 0 then Admission(ids0, [])
    else
      var a := AsWrittenAdmit(sigs, ids0, n - 1);
      if AsWrittenSkips(a, n - 1) then a else Enter(sigs, a, n - 1)
  }

  /** The ID each dictionary entry shows when the index loop reads `sig.ID`. */
  function Keys(a: Admission): (keys: seq<u32>)
    requires forall j :: 0 <= j < |a.order| ==> a.order[j] < |a.ids|
    ensures |keys| == |a.order| && forall j :: 0 <= j < |a.order| ==> keys[j] == a.ids[a.order[j]]
  {
    seq(|a.order|, j requires 0 <= j < |a.order| => a.ids[a.order[j]])
  }

  // ------------------------------------------------------------ invariant

  /**
   * The admission invariant after positions 0 to n - 1: IDs stay coherent,
   * every visited position's object sits in the dictionary under the ID it
   * shows, and every entry shows its own key as ID.
   */
  predicate Admitted(sigs: seq<Signature>, a: Admission, n: nat)
    requires n <= |sigs| && Shaped(sigs, a, n)
  {
    Coherent(sigs, a.ids)
    && (forall p :: 0 <= p < n ==> a.ids[p] < |a.order| && sigs[a.order[a.ids[p]]] == sigs[p])
    && forall j :: 0 <= j < |a.order| ==> a.ids[a.order[j]] == j
  }

  /** Entries follow list order, and each entry is its object's first position. */
  predicate Ordered(sigs: seq<Signature>, a: Admission, n: nat)
    requires n <= |sigs| && Shaped(sigs, a, n)
  {
    (forall i, j :: 0 <= i < j < |a.order| ==> a.order[i] < a.order[j])
    && forall j, q :: 0 <= j < |a.order| && 0 <= q < a.order[j] ==> sigs[q] != sigs[a.order[j]]
  }

  /** Entering a position whose object the dictionary does not hold keeps the invariant. */
  lemma EnterKeeps(sigs: seq<Signature>, a: Admission, p: nat)
    requires p < |sigs| <= INT32_MAX && Shaped(sigs, a, p) && Admitted(sigs, a, p) && !Held(sigs, a, p)
    ensures forall j :: 0 <= j < |a.order| ==> sigs[a.order[j]] != sigs[p]
    ensures Admitted(sigs, Enter(sigs, a, p), p + 1)
  {
    forall j | 0 <= j < |a.order|
      ensures sigs[a.order[j]] != sigs[p]
    {
      if sigs[a.order[j]] == sigs[p] {
        assert false;
      }
    }
  }

  /** Entering a new object keeps the order of entries. */
  lemma EnterOrdered(sigs: seq<Signature>, a: Admission, p: nat)
    requires p < |sigs| <= INT32_MAX && Shaped(sigs, a, p) && Admitted(sigs, a, p) && Ordered(sigs, a, p)
    requires forall j :: 0 <= j < |a.order| ==> sigs[a.order[j]] != sigs[p]
    ensures Ordered(sigs, Enter(sigs, a, p), p + 1)
  {
    forall q | 0 <= q < p
      ensures sigs[q] != sigs[p]
    {
      assert sigs[a.order[a.ids[q]]] == sigs[q];
    }
  }

  /** One pass of the loop keeps the invariant. */
  lemma AdmitStep(sigs: seq<Signature>, a: Admission, p: nat)
    requires p < |sigs| <= INT32_MAX && Shaped(sigs, a, p) && Admitted(sigs, a, p)
    ensures Admitted(sigs, AdmitNext(sigs, a, p), p + 1)
    ensures Ordered(sigs, a, p) ==> Ordered(sigs, AdmitNext(sigs, a, p), p + 1)
  {
    if !Held(sigs, a, p) {
      EnterKeeps(sigs, a, p);
      if Ordered(sigs, a, p) {
        EnterOrdered(sigs, a, p);
      }
    }
  }

  lemma {:induction false} AdmitInvariant(sigs: seq<Signature>, ids0: seq<u32>, n: nat)
    requires n <= |sigs| <= INT32_MAX && |ids0| == |sigs| && Coherent(sigs, ids0)
    ensures Admitted(sigs, Admit(sigs, ids0, n), n) && Ordered(sigs, Admit(sigs, ids0, n), n)
  {
    if n > 0 {
      AdmitInvariant(sigs, ids0, n - 1);
      AdmitStepAt(sigs, ids0, n);
    }
  }

  /** The invariant carried from n - 1 positions to n. */
  lemma AdmitStepAt(sigs: seq<Signature>, ids0: seq<u32>, n: nat)
    requires 0 < n <= |sigs| <= INT32_MAX && |ids0| == |sigs|
    requires Admitted(sigs, Admit(sigs, ids0, n - 1), n - 1) && Ordered(sigs, Admit(sigs, ids0, n - 1), n - 1)
    ensures Admitted(sigs, Admit(sigs, ids0, n), n) && Ordered(sigs, Admit(sigs, ids0, n), n)
  {
    var a := Admit(sigs, ids0, n - 1);
    assert Admit(sigs, ids0, n) == AdmitNext(sigs, a, n - 1);
    AdmitStep(sigs, a, n - 1);
  }

  /**
   * What the admission promises, when positions holding one object start
   * with one ID: every object of the list sits in the dictionary under the
   * ID it ends with, every key is the ID of its own entry, and each object
   * is entered once, at its first position.
   */
  lemma AdmitMeaning(sigs: seq<Signature>, ids0: seq<u32>)
    requires |sigs| <= INT32_MAX && |ids0| == |sigs| && Coherent(sigs, ids0)
    ensures forall p :: 0 <= p < |sigs| ==>
      Admit(sigs, ids0, |sigs|).ids[p] < |Admit(sigs, ids0, |sigs|).order| &&
      sigs[Admit(sigs, ids0, |sigs|).order[Admit(sigs, ids0, |sigs|).ids[p]]] == sigs[p]
    ensures forall j :: 0 <= j < |Admit(sigs, ids0, |sigs|).order| ==> Keys(Admit(sigs, ids0, |sigs|))[j] == j
    ensures forall i, j :: 0 <= i < j < |Admit(sigs, ids0, |sigs|).order| ==>
      Admit(sigs, ids0, |sigs|).order[i] < Admit(sigs, ids0, |sigs|).order[j]
    ensures forall j, q :: 0 <= j < |Admit(sigs, ids0, |sigs|).order| && 0 <= q < Admit(sigs, ids0, |sigs|).order[j] ==>
      sigs[q] != sigs[Admit(sigs, ids0, |sigs|).order[j]]
  {
    AdmitInvariant(sigs, ids0, |sigs|);
  }

  /** Admit over a longer prefix only adds entries. */
  lemma {:induction false} AdmitGrows(sigs: seq<Signature>, ids0: seq<u32>, n: nat, m: nat)
    requires n <= m <= |sigs| <= INT32_MAX && |ids0| == |sigs|
    ensures |Admit(sigs, ids0, n).order| <= |Admit(sigs, ids0, m).order|
    ensures forall j :: 0 <= j < |Admit(sigs, ids0, n).order| ==>
      Admit(sigs, ids0, m).order[j] == Admit(sigs, ids0, n).order[j]
  {
    if n < m {
      AdmitGrows(sigs, ids0, n, m - 1);
      var b := Admit(sigs, ids0, m - 1);
      assert Admit(sigs, ids0, m) == AdmitNext(sigs, b, m - 1);
      NextKeepsOrder(sigs, b, m - 1);
    }
  }

  /** One pass of the loop keeps the entries made so far, in place. */
  lemma NextKeepsOrder(sigs: seq<Signature>, a: Admission, p: nat)
    requires p < |sigs| <= INT32_MAX && Shaped(sigs, a, p)
    ensures |a.order| <= |AdmitNext(sigs, a, p).order|
    ensures forall j :: 0 <= j < |a.order| ==> AdmitNext(sigs, a, p).order[j] == a.order[j]
  {
    if !Held(sigs, a, p) {
      assert AdmitNext(sigs, a, p).order == a.order + [p];
    }
  }

  /** A list that holds no object twice is admitted whole: position k becomes key k. */
  lemma {:induction false} DistinctAdmitted(sigs: seq<Signature>, ids0: seq<u32>, n: nat)
    requires n <= |sigs| <= INT32_MAX && |ids0| == |sigs|
    requires forall k, l :: 0 <= k < l < |sigs| ==> sigs[k] != sigs[l]
    ensures Fresh(sigs, ids0, Admit(sigs, ids0, n), n)
  {
    if n > 0 {
      DistinctAdmitted(sigs, ids0, n - 1);
      DistinctStep(sigs, ids0, Admit(sigs, ids0, n - 1), n - 1);
    }
  }

  /** Positions before n hold keys 0 to n - 1 in order, the rest their first IDs. */
  predicate Fresh(sigs: seq<Signature>, ids0: seq<u32>, a: Admission, n: nat)
    requires n <= |sigs| == |ids0| == |a.ids|
  {
    |a.order| == n
    && (forall j :: 0 <= j < n ==> a.order[j] == j && a.ids[j] == j)
    && forall k :: n <= k < |sigs| ==> a.ids[k] == ids0[k]
  }

  lemma DistinctStep(sigs: seq<Signature>, ids0: seq<u32>, a: Admission, p: nat)
    requires p < |sigs| <= INT32_MAX && |ids0| == |sigs| && Shaped(sigs, a, p) && Fresh(sigs, ids0, a, p)
    requires forall k, l :: 0 <= k < l < |sigs| ==> sigs[k] != sigs[l]
    ensures Fresh(sigs, ids0, AdmitNext(sigs, a, p), p + 1)
  {
    if Held(sigs, a, p) {
      assert false;
    }
  }
}
