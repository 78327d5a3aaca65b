/**
 * The choice of significant coefficients (HaarSignature.GetSignificantIndices
 * and HeapSiftUp): the first K positions 1..K seed a heap keyed by magnitude,
 * ordered smallest on top; every later position whose magnitude is at least
 * the top's replaces the top and is sifted down.
 */
module HaarSelection {
  import opened Wire
  import opened HaarWeights

  predicate Bounded(h: seq<u32>, n: nat, limit: nat)
    requires n <= |h|
  {
    forall k :: 0 <= k < n ==> h[k] < limit
  }

  /**
   * Every edge of the heap h[..n] is ordered, parent magnitude first, except
   * possibly the edge into position i.
   */
  predicate HeapExcept(h: seq<u32>, val: seq<real>, n: nat, i: nat)
    requires n <= |h| && Bounded(h, n, |val|)
  {
    forall p, c :: 0 <= p < n && 0 < c < n && c != i && (c - 1) / 2 == p ==> Abs(val[h[p]]) <= Abs(val[h[c]])
  }

  /** The parent of position i is ordered before every child of i. */
  predicate AboveChildren(h: seq<u32>, val: seq<real>, n: nat, i: nat)
    requires i < n <= |h| && Bounded(h, n, |val|)
  {
    i > 0 ==> forall c :: 0 < c < n && (c - 1) / 2 == i ==> Abs(val[h[(i - 1) / 2]]) <= Abs(val[h[c]])
  }

  /** h[..n] is a heap with the smallest magnitude on top. */
  predicate MinHeap(h: seq<u32>, val: seq<real>, n: nat)
    requires n <= |h| && Bounded(h, n, |val|)
  {
    HeapExcept(h, val, n, n)
  }

  predicate Distinct(s: seq<u32>) {
    forall a, b :: 0 <= a < b < |s| ==> s[a] != s[b]
  }

  /**
   * HaarSignature.HeapSiftUp: while the entry at i has a smaller magnitude
   * than its parent, swap the two and continue from the parent. Given a heap
   * on idx[..n] that may be broken only at the edge into i (and whose
   * grandparent edge around i is ordered), it restores the heap, only
   * permuting idx[..n].
   */
  method HeapSiftUp(idx: array<u32>, val: seq<real>, i: nat, ghost n: nat)
    requires i < n <= idx.Length && Bounded(idx[..], n, |val|)
    requires HeapExcept(idx[..], val, n, i)
    requires AboveChildren(idx[..], val, n, i)
    modifies idx
    ensures Bounded(idx[..], n, |val|) && MinHeap(idx[..], val, n)
    ensures multiset(idx[..n]) == old(multiset(idx[..n]))
    ensures idx[n..] == old(idx[n..])
    decreases i
  {
    if i == 0 {
      return;
    }
    var j := (i - 1) / 2;
    if Abs(val[idx[i]]) < Abs(val[idx[j]]) {
      ghost var before := idx[..];
      SwapEntries(idx, i, j);
      SwapUp(before, val, n, i);
      SwapPermutes(before, i, j, n);
      HeapSiftUp(idx, val, j, n);
    }
  }

  /** Exchanges two entries of an array. */
  method SwapEntries(a: array<u32>, i: nat, j: nat)
    requires i < a.Length && j < a.Length
    modifies a
    ensures a[..] == Swap(old(a[..]), i, j)
    ensures multiset(a[..]) == old(multiset(a[..]))
  {
    ghost var before := a[..];
    a[i], a[j] := a[j], a[i];
    assert a[..] == Swap(before, i, j);
    SwapPermutes(before, i, j, a.Length);
    assert before[..a.Length] == before && a[..][..a.Length] == a[..];
  }

  function Swap(s: seq<u32>, a: nat, b: nat): (t: seq<u32>)
    requires a < |s| && b < |s|
    ensures |t| == |s| && t[a] == s[b] && t[b] == s[a]
    ensures forall k :: 0 <= k < |s| && k != a && k != b ==> t[k] == s[k]
  {
    s[a := s[b]][b := s[a]]
  }

  /** A swap permutes the prefix that holds both positions and keeps the rest. */
  lemma SwapPermutes(s: seq<u32>, a: nat, b: nat, n: nat)
    requires a < n && b < n && n <= |s|
    ensures multiset(Swap(s, a, b)[..n]) == multiset(s[..n])
    ensures Swap(s, a, b)[n..] == s[n..]
  {
    assert Swap(s, a, b)[..n] == s[..n][a := s[b]][b := s[a]];
  }

  /**
   * Swapping an entry with a parent of larger magnitude moves the only
   * possible break of the heap one edge up.
   */
  lemma SwapUp(h: seq<u32>, val: seq<real>, n: nat, i: nat)
    requires 0 < i < n <= |h| && Bounded(h, n, |val|)
    requires HeapExcept(h, val, n, i)
    requires AboveChildren(h, val, n, i)
    requires Abs(val[h[i]]) < Abs(val[h[(i - 1) / 2]])
    ensures Bounded(Swap(h, i, (i - 1) / 2), n, |val|)
    ensures HeapExcept(Swap(h, i, (i - 1) / 2), val, n, (i - 1) / 2)
    ensures AboveChildren(Swap(h, i, (i - 1) / 2), val, n, (i - 1) / 2)
  {
    var j := (i - 1) / 2;
    var t := Swap(h, i, j);
    forall p, c | 0 <= p < n && 0 < c < n && c != j && (c - 1) / 2 == p
      ensures Abs(val[t[p]]) <= Abs(val[t[c]])
    {
      if c == i {
      } else if p == j {
        assert Abs(val[h[j]]) <= Abs(val[h[c]]);
      } else if p == i {
        assert Abs(val[h[j]]) <= Abs(val[h[c]]);
      } else {
        assert Abs(val[h[p]]) <= Abs(val[h[c]]);
      }
    }
    if j > 0 {
      forall c | 0 < c < n && (c - 1) / 2 == j
        ensures Abs(val[t[(j - 1) / 2]]) <= Abs(val[t[c]])
      {
        assert Abs(val[h[(j - 1) / 2]]) <= Abs(val[h[j]]);
        if c != i {
          assert Abs(val[h[j]]) <= Abs(val[h[c]]);
        }
      }
    }
  }

  /** h[..n] is a heap of the positions 1..n, each once. */
  predicate Seeded(h: seq<u32>, val: seq<real>, n: nat)
    requires n <= |h|
  {
    Bounded(h, n, |val|) && MinHeap(h, val, n) &&
    Distinct(h[..n]) && forall k :: 0 <= k < n ==> 1 <= h[k] <= n
  }

  /** Positions 1..K, one at a time, each sifted up: the seeding loop of GetSignificantIndices. */
  method SeedHeap(sig: array<u32>, cdata: seq<real>)
    requires 0 < sig.Length < |cdata| <= PIXEL_COUNT
    modifies sig
    ensures Seeded(sig[..], cdata, sig.Length)
  {
    var i: u32 := 1;
    var heapSize := 0;
    while i < sig.Length as u32 + 1
      invariant heapSize + 1 == i as int <= sig.Length + 1
      invariant Seeded(sig[..], cdata, heapSize)
    {
      Push(sig, cdata, heapSize, i);
      i := i + 1;
      heapSize := heapSize + 1;
    }
  }

  /** `sig[heap_size] = i++; HeapSiftUp(sig, cdata, heap_size++)`: position heapSize + 1 joins the heap. */
  method Push(sig: array<u32>, cdata: seq<real>, heapSize: nat, x: u32)
    requires heapSize < sig.Length && x < |cdata| && x as int == heapSize + 1
    requires Seeded(sig[..], cdata, heapSize)
    modifies sig
    ensures Seeded(sig[..], cdata, heapSize + 1)
  {
    ghost var before := sig[..];
    sig[heapSize] := x;
    assert sig[..] == before[heapSize := x];
    PushReady(before, cdata, heapSize, x);
    HeapSiftUp(sig, cdata, heapSize, heapSize + 1);
    PushDone(before, sig[..], cdata, heapSize, x);
  }

  /** Writing the next position just past a seeded heap breaks at most the edge into it. */
  lemma PushReady(h: seq<u32>, val: seq<real>, n: nat, x: u32)
    requires n < |h| && x < |val| && Seeded(h, val, n)
    ensures Bounded(h[n := x], n + 1, |val|)
    ensures HeapExcept(h[n := x], val, n + 1, n) && AboveChildren(h[n := x], val, n + 1, n)
  {
    var t := h[n := x];
    assert forall k :: 0 <= k < n ==> t[k] == h[k];
  }

  /** A permutation of the seeded heap plus position n + 1 that is again a heap is seeded. */
  lemma PushDone(h: seq<u32>, t: seq<u32>, val: seq<real>, n: nat, x: u32)
    requires n < |h| == |t| && x as int == n + 1 && Seeded(h, val, n)
    requires Bounded(t, n + 1, |val|) && MinHeap(t, val, n + 1)
    requires multiset(t[..n + 1]) == multiset(h[n := x][..n + 1])
    ensures Seeded(t, val, n + 1)
  {
    var seeded := h[..n] + [x];
    assert h[n := x][..n + 1] == seeded;
    assert Distinct(seeded);
    PermutedRange(t[..n + 1], seeded, 1, n + 1);
  }

  /**
   * One step of the replacement loop of GetSignificantIndices for position i:
   * when |cdata[i]| is at least the magnitude at the top, i replaces the top
   * entry and is sifted down.
   */
  method Offer(sig: array<u32>, cdata: seq<real>, i: u32) returns (taken: bool)
    requires sig.Length > 0 && sig.Length % 2 == 0
    requires i < |cdata| && Distinct(sig[..])
    requires forall k :: 0 <= k < sig.Length ==> 1 <= sig[k] < i
    modifies sig
    ensures taken <==> Abs(cdata[i]) >= Abs(cdata[old(sig[0])])
    ensures !taken ==> sig[..] == old(sig[..])
    ensures taken ==> multiset(sig[..]) == multiset(old(sig[..])[0 := i])
    ensures Distinct(sig[..]) && forall k :: 0 <= k < sig.Length ==> 1 <= sig[k] <= i
  {
    var vnew := Abs(cdata[i]);
    var vzero := Abs(cdata[sig[0]]);
    if vnew < vzero {
      return false;
    }
    ghost var replaced := sig[..][0 := i];
    sig[0] := i;
    assert sig[..] == replaced;
    assert Distinct(replaced);
    SiftDown(sig, cdata, vnew);
    PermutedRange(sig[..], replaced, 1, i as nat);
    return true;
  }

  /**
   * The sift-down of the replacement loop, from the top. It compares the
   * children of the current position with vnew, and after a swap sets vnew to
   * the magnitude of the child just moved up (`vnew = va`), not to that of
   * the entry moving down, so it may stop before the heap order is restored.
   * It only permutes the entries.
   */
  method SiftDown(sig: array<u32>, cdata: seq<real>, vnew: real)
    requires sig.Length > 0 && sig.Length % 2 == 0 && Bounded(sig[..], sig.Length, |cdata|)
    modifies sig
    ensures multiset(sig[..]) == old(multiset(sig[..]))
    ensures Bounded(sig[..], sig.Length, |cdata|)
  {
    var heapSize := sig.Length;
    var vnew := vnew;
    var current := 0;
    while true
      invariant 0 <= current < heapSize
      invariant multiset(sig[..]) == old(multiset(sig[..]))
      invariant Bounded(sig[..], heapSize, |cdata|)
      decreases heapSize - current
    {
      var next := (current + 1) * 2 - 1;
      if next > heapSize {
        break;
      }
      // next is odd and heapSize even, so next < heapSize here
      var va := Abs(cdata[sig[next]]);
      if next + 1 < heapSize {
        var vb := Abs(cdata[sig[next + 1]]);
        if va > vb {
          va := vb;
          next := next + 1;
        }
      }
      if vnew <= va {
        break;
      }
      SwapEntries(sig, next, current);
      vnew := va;
      current := next;
    }
  }

  /**
   * A rearrangement of a sequence of distinct entries in [lo, hi] has
   * distinct entries in [lo, hi].
   */
  lemma PermutedRange(s: seq<u32>, t: seq<u32>, lo: nat, hi: nat)
    requires |s| == |t| && multiset(s) == multiset(t) && Distinct(t)
    requires forall k :: 0 <= k < |t| ==> lo <= t[k] <= hi
    ensures Distinct(s) && forall k :: 0 <= k < |s| ==> lo <= s[k] <= hi
  {
    forall k | 0 <= k < |s|
      ensures lo <= s[k] <= hi
    {
      assert s[k] in multiset(s);
      assert s[k] in t;
    }
    forall a, b | 0 <= a < b < |s|
      ensures s[a] != s[b]
    {
      if s[a] == s[b] {
        TwoCopies(s, a, b);
        SingleCopy(t, s[a]);
      }
    }
  }

  lemma TwoCopies(s: seq<u32>, a: nat, b: nat)
    requires a < b < |s| && s[a] == s[b]
    ensures multiset(s)[s[a]] >= 2
  {
    assert s == s[..a] + [s[a]] + s[a + 1..b] + [s[b]] + s[b + 1..];
  }

  lemma {:induction false} SingleCopy(t: seq<u32>, x: u32)
    requires Distinct(t)
    ensures multiset(t)[x] <= 1
  {
    if t != [] {
      assert t == [t[0]] + t[1..];
      assert Distinct(t[1..]) by {
        forall a, b | 0 <= a < b < |t[1..]|
          ensures t[1..][a] != t[1..][b]
        {
          assert t[1..][a] == t[a + 1] && t[1..][b] == t[b + 1];
        }
      }
      SingleCopy(t[1..], x);
      if t[0] == x {
        assert x !in t[1..];
      }
    }
  }

  /**
   * HaarSignature.GetSignificantIndices: num_coeffs distinct positions of the
   * channel, none of them the DC position 0. num_coeffs must be even and
   * nonzero: the sift-down only stops short of `next == heap_size` for an even
   * heap size, and an empty heap has no top to compare with.
   */
  method GetSignificantIndices(numCoeffs: nat, cdata: seq<real>) returns (sig: array<u32>)
    requires 0 < numCoeffs < PIXEL_COUNT && numCoeffs % 2 == 0
    requires |cdata| == PIXEL_COUNT
    ensures fresh(sig) && sig.Length == numCoeffs
    ensures Distinct(sig[..]) && forall k :: 0 <= k < numCoeffs ==> 1 <= sig[k] < PIXEL_COUNT
  {
    sig := new u32[numCoeffs];
    SeedHeap(sig, cdata);
    var i: u32 := numCoeffs as u32 + 1;
    while i < PIXEL_COUNT as u32
      invariant numCoeffs < i as int <= PIXEL_COUNT
      invariant Distinct(sig[..]) && forall k :: 0 <= k < numCoeffs ==> 1 <= sig[k] < i
    {
      var _ := Offer(sig, cdata, i);
      i := i + 1;
    }
  }
}
