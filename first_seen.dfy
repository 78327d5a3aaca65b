/**
 * Keeping the first signature of each hash, as hsig2hsm and hsigcf do with a
 * set of the HashStrings already taken: a signature whose HashString is in
 * the set is passed over, any other is kept and its HashString added.
 */
module FirstSeen {
  import opened Signatures

  /** The key the command-line tools compare signatures by. */
  function Key(v: SigValue): string {
    HashString(v.hash)
  }

  function Keys(vs: seq<SigValue>): set<string> {
    set k | 0 <= k < |vs| :: Key(vs[k])
  }

  lemma KeysAppend(vs: seq<SigValue>, v: SigValue)
    ensures Keys(vs + [v]) == Keys(vs) + {Key(v)}
  {
    var w := vs + [v];
    assert forall k :: 0 <= k < |vs| ==> w[k] == vs[k];
    assert w[|vs|] == v;
    forall h | h in Keys(w)
      ensures h in Keys(vs) + {Key(v)}
    {
      var k :| 0 <= k < |w| && Key(w[k]) == h;
      if k < |vs| {
        assert Key(vs[k]) == h;
      }
    }
  }

  /**
   * The signatures in read order whose key no earlier signature has: the
   * first occurrence of every key.
   */
  function Fresh(vs: seq<SigValue>): seq<SigValue> {
    if vs == [] then []
    else
      var init, v := vs[..|vs| - 1], vs[|vs| - 1];
      Fresh(init) + (if Key(v) in Keys(init) then [] else [v])
  }

  /** One more signature read: kept exactly when its key is new. */
  lemma FreshStep(vs: seq<SigValue>, v: SigValue)
    ensures Fresh(vs + [v]) == Fresh(vs) + (if Key(v) in Keys(vs) then [] else [v])
  {
    assert (vs + [v])[..|vs|] == vs;
  }

  /** Every key read is kept. */
  lemma {:induction false} FreshKeys(vs: seq<SigValue>)
    ensures Keys(Fresh(vs)) == Keys(vs)
  {
    if vs != [] {
      var init, v := vs[..|vs| - 1], vs[|vs| - 1];
      assert vs == init + [v];
      FreshKeys(init);
      FreshStep(init, v);
      KeysAppend(init, v);
      if Key(v) in Keys(init) {
        assert Fresh(vs) == Fresh(init);
        assert Keys(vs) == Keys(init);
      } else {
        KeysAppend(Fresh(init), v);
        assert Fresh(vs) == Fresh(init) + [v];
      }
    }
  }

  /** Nothing is kept that was not read. */
  lemma {:induction false} FreshFrom(vs: seq<SigValue>)
    ensures forall i :: 0 <= i < |Fresh(vs)| ==> Fresh(vs)[i] in vs
  {
    if vs != [] {
      var init, v := vs[..|vs| - 1], vs[|vs| - 1];
      assert vs == init + [v];
      FreshFrom(init);
      FreshStep(init, v);
      var f := Fresh(init);
      assert forall i :: 0 <= i < |f| ==> f[i] in init ==> f[i] in vs;
    }
  }

  /** The signatures kept have pairwise different keys. */
  lemma {:induction false} FreshDistinct(vs: seq<SigValue>)
    ensures forall i, j :: 0 <= i < j < |Fresh(vs)| ==> Key(Fresh(vs)[i]) != Key(Fresh(vs)[j])
  {
    if vs != [] {
      var init, v := vs[..|vs| - 1], vs[|vs| - 1];
      FreshDistinct(init);
      var f := Fresh(init);
      if Key(v) !in Keys(init) {
        FreshKeys(init);
        assert forall i :: 0 <= i < |f| ==> Key(f[i]) in Keys(f);
        assert Fresh(vs) == f + [v];
      }
    }
  }

  /** Keeping first occurrences twice keeps nothing less. */
  lemma {:induction false} FreshIdempotent(vs: seq<SigValue>)
    ensures Fresh(Fresh(vs)) == Fresh(vs)
  {
    FreshDistinct(vs);
    FreshOfDistinct(Fresh(vs));
  }

  /** Signatures whose keys already differ are all kept. */
  lemma {:induction false} FreshOfDistinct(vs: seq<SigValue>)
    requires forall i, j :: 0 <= i < j < |vs| ==> Key(vs[i]) != Key(vs[j])
    ensures Fresh(vs) == vs
  {
    if vs != [] {
      var init, v := vs[..|vs| - 1], vs[|vs| - 1];
      assert vs == init + [v];
      FreshOfDistinct(init);
      assert forall k :: 0 <= k < |init| ==> Key(init[k]) != Key(v) by {
        assert forall k :: 0 <= k < |init| ==> init[k] == vs[k];
      }
    }
  }
}
