/**
 * The group layout of QueryGrid (iqdb/QueryGrid.cs). `sigid2groupoffset`
 * maps each coefficient id to an offset into one flat `groups` array. There
 * a group starts: its member count, then its members. Offset 0 means "no
 * group" and points at `groups[0] = 0`, the empty default group.
 */
module GridLayout {
  import opened Wire

  /** The five arrays of a QueryGrid. */
  datatype Grid = Grid(
    hashes: seq<Option<seq<byte>>>,   // index2sighash
    weightsums: seq<real>,            // weightsums
    avgls: seq<seq<real>>,            // avgls, one row per colour channel
    offsets: seq<u32>,                // sigid2groupoffset
    groups: seq<u32>)                 // groups

  /**
   * The group of a non-empty list: the member count `(uint)n.Count`, then
   * the members.
   */
  function Block(members: seq<u32>): (b: seq<u32>)
    ensures |b| == |members| + 1
  {
    [(|members| % 0x1_0000_0000) as u32] + members
  }

  /** A group holds its list after its count, and the count is exact for any list an int can count. */
  lemma BlockMeaning(members: seq<u32>)
    ensures Block(members)[1..] == members
    ensures |members| <= INT32_MAX ==> Block(members)[0] == |members|
  {
  }

  /** `glmax` after its loop has visited lists[..n]: 1, plus count + 1 for each non-empty list. */
  function GroupsLength(lists: seq<seq<u32>>, n: nat): (l: nat)
    requires n <= |lists|
    ensures l >= 1
  {
    if n == 0 then 1 else GroupsLength(lists, n - 1) + (if |lists[n - 1]| == 0 then 0 else |lists[n - 1]| + 1)
  }

  /** The groups of the earlier lists come first, and a non-empty list c has count + 1 cells of its own. */
  lemma {:induction false} GroupsLengthGrows(lists: seq<seq<u32>>, c: nat, n: nat)
    requires c < n <= |lists|
    ensures GroupsLength(lists, c) + (if |lists[c]| == 0 then 0 else |lists[c]| + 1) <= GroupsLength(lists, n)
    decreases n - c
  {
    if c + 1 < n {
      GroupsLengthGrows(lists, c, n - 1);
    }
  }

  /** `groups` after the fill loop has visited lists[..n]: the default group, then one block per non-empty list. */
  function Groups(lists: seq<seq<u32>>, n: nat): (g: seq<u32>)
    requires n <= |lists|
    ensures |g| == GroupsLength(lists, n) && g[0] == 0
  {
    if n == 0 then [0 as u32]
    else Groups(lists, n - 1) + (if |lists[n - 1]| == 0 then [] else Block(lists[n - 1]))
  }

  /** `sigid2groupoffset[c]`: 0 for an empty list, otherwise where the list's block starts. */
  function GroupOffset(lists: seq<seq<u32>>, c: nat): (o: u32)
    requires c < |lists| && GroupsLength(lists, |lists|) <= INT32_MAX
  {
    GroupsLengthGrows(lists, c, |lists|);
    if |lists[c]| == 0 then 0 else GroupsLength(lists, c) as u32
  }

  function GroupOffsets(lists: seq<seq<u32>>): (offsets: seq<u32>)
    requires GroupsLength(lists, |lists|) <= INT32_MAX
    ensures |offsets| == |lists| && forall c :: 0 <= c < |lists| ==> offsets[c] == GroupOffset(lists, c)
  {
    seq(|lists|, c requires 0 <= c < |lists| => GroupOffset(lists, c))
  }

  // ------------------------------------------------------------- reading

  /**
   * The group ExecuteQuery reads at offset gi: the count `groups[gi]`, then
   * the cells up to the uint `gi + 1 + count`, which can wrap. An end not
   * past the start is an empty group; a count at or a group running past
   * the end of the array is an index error.
   */
  function GroupAt(groups: seq<u32>, gi: nat): (r: Result<seq<u32>>)
    ensures r.Err? ==> r.error == IndexOutOfRange
    ensures r.Err? <==> (gi >= |groups| ||
      ((gi + 1) % 0x1_0000_0000 < ((gi + 1) % 0x1_0000_0000 + groups[gi]) % 0x1_0000_0000 &&
       ((gi + 1) % 0x1_0000_0000 + groups[gi]) % 0x1_0000_0000 > |groups|))
  {
    if gi >= |groups| then Err(IndexOutOfRange)
    else
      var start := (gi + 1) % 0x1_0000_0000;
      var end := (start + groups[gi]) % 0x1_0000_0000;
      if end <= start then Ok([])
      else if end > |groups| then Err(IndexOutOfRange)
      else Ok(groups[start..end])
  }

  /** Away from the uint boundary, GroupAt reads exactly the count's cells after gi. */
  lemma GroupAtInBounds(groups: seq<u32>, gi: nat)
    requires gi < |groups| <= INT32_MAX && gi + 1 + groups[gi] <= |groups|
    ensures GroupAt(groups, gi) == Ok(groups[gi + 1..gi + 1 + groups[gi]])
  {
    var start := (gi + 1) % 0x1_0000_0000;
    assert start == gi + 1;
    var end := (start + groups[gi]) % 0x1_0000_0000;
    assert end == gi + 1 + groups[gi];
    if groups[gi] == 0 {
      assert groups[gi + 1..gi + 1] == [];
    }
  }

  /**
   * What the layout promises: a coefficient has offset 0 exactly when it
   * has no signatures, and the group read at every offset is the list that
   * was laid out, its count included.
   */
  lemma LayoutMeaning(lists: seq<seq<u32>>, c: nat)
    requires c < |lists| && GroupsLength(lists, |lists|) <= INT32_MAX
    ensures GroupOffsets(lists)[c] == 0 <==> |lists[c]| == 0
    ensures GroupOffsets(lists)[c] < |Groups(lists, |lists|)|
    ensures Groups(lists, |lists|)[GroupOffsets(lists)[c]] == |lists[c]|
    ensures GroupAt(Groups(lists, |lists|), GroupOffsets(lists)[c]) == Ok(lists[c])
  {
    GroupsLengthGrows(lists, c, |lists|);
    if |lists[c]| > 0 {
      LayoutNonEmpty(lists, c, GroupsLength(lists, c));
    } else {
      LayoutEmpty(lists, c);
    }
  }

  /** A non-empty list's group starts at its offset with its count, its members after it. */
  lemma LayoutNonEmpty(lists: seq<seq<u32>>, c: nat, o: nat)
    requires c < |lists| && GroupsLength(lists, |lists|) <= INT32_MAX && |lists[c]| > 0 && o == GroupsLength(lists, c)
    ensures o < |Groups(lists, |lists|)| && Groups(lists, |lists|)[o] == |lists[c]|
    ensures GroupAt(Groups(lists, |lists|), o) == Ok(lists[c])
  {
    var g, l := Groups(lists, |lists|), lists[c];
    CellAt(lists, c, |lists|, 0);
    BlockMeaning(l);
    assert g[o] == Block(l)[0] == |l|;
    ListAt(lists, c);
    assert g[o + 1..o + 1 + g[o]] == l;
    GroupAtInBounds(g, o);
  }

  /** An empty list's offset 0 reads the empty group at cell 0. */
  lemma LayoutEmpty(lists: seq<seq<u32>>, c: nat)
    requires c < |lists| && GroupsLength(lists, |lists|) <= INT32_MAX && |lists[c]| == 0
    ensures 0 < |Groups(lists, |lists|)| && Groups(lists, |lists|)[0] == 0
    ensures GroupAt(Groups(lists, |lists|), 0) == Ok(lists[c])
  {
    var g := Groups(lists, |lists|);
    assert g[0] == 0;
    GroupAtInBounds(g, 0);
    assert g[1..1] == lists[c];
  }

  /** The members of a non-empty list c follow its count in the groups array. */
  lemma ListAt(lists: seq<seq<u32>>, c: nat)
    requires c < |lists| && |lists[c]| > 0
    ensures GroupsLength(lists, c) + |lists[c]| + 1 <= GroupsLength(lists, |lists|)
    ensures Groups(lists, |lists|)[GroupsLength(lists, c) + 1..GroupsLength(lists, c) + 1 + |lists[c]|] == lists[c]
  {
    var g, start := Groups(lists, |lists|), GroupsLength(lists, c) + 1;
    ListCells(lists, c, start);
    SliceIs(g, start, lists[c]);
  }

  /** Member i of a non-empty list c is cell start + i, where start follows the list's count. */
  lemma ListCells(lists: seq<seq<u32>>, c: nat, start: nat)
    requires c < |lists| && |lists[c]| > 0 && start == GroupsLength(lists, c) + 1
    ensures start + |lists[c]| <= GroupsLength(lists, |lists|)
    ensures forall i :: 0 <= i < |lists[c]| ==> Groups(lists, |lists|)[start + i] == lists[c][i]
  {
    var g, l := Groups(lists, |lists|), lists[c];
    var b := Block(l);
    GroupsLengthGrows(lists, c, |lists|);
    forall i | 0 <= i < |l|
      ensures g[start + i] == l[i]
    {
      var k := i + 1;
      CellAt(lists, c, |lists|, k);
      assert g[start - 1 + k] == b[k];
      assert b[k] == l[i];
    }
  }

  /** A run of cells that agree one by one with a list is that list. */
  lemma SliceIs(g: seq<u32>, o: nat, l: seq<u32>)
    requires o + |l| <= |g| && forall i :: 0 <= i < |l| ==> g[o + i] == l[i]
    ensures g[o..o + |l|] == l
  {
  }

  /** Laying out list n - 1 leaves the earlier cells as they were. */
  lemma CellStep(lists: seq<seq<u32>>, n: nat, k: nat)
    requires 0 < n <= |lists| && k < GroupsLength(lists, n - 1)
    ensures GroupsLength(lists, n - 1) <= GroupsLength(lists, n)
    ensures Groups(lists, n)[k] == Groups(lists, n - 1)[k]
  {
  }

  /** Laying out a non-empty list c appends its block. */
  lemma CellAtEnd(lists: seq<seq<u32>>, c: nat, n: nat, i: nat)
    requires c < n <= |lists| && |lists[c]| > 0 && n == c + 1 && i <= |lists[c]|
    ensures GroupsLength(lists, c) + |lists[c]| + 1 <= GroupsLength(lists, n)
    ensures Groups(lists, n)[GroupsLength(lists, c) + i] == Block(lists[c])[i]
  {
  }

  /** Cell i of a non-empty list c's block sits at its offset + i once any n > c lists are laid out. */
  lemma {:induction false} CellAt(lists: seq<seq<u32>>, c: nat, n: nat, i: nat)
    requires c < n <= |lists| && |lists[c]| > 0 && i <= |lists[c]|
    ensures GroupsLength(lists, c) + |lists[c]| + 1 <= GroupsLength(lists, n)
    ensures Groups(lists, n)[GroupsLength(lists, c) + i] == Block(lists[c])[i]
    decreases n
  {
    if n == c + 1 {
      CellAtEnd(lists, c, n, i);
    } else {
      CellAt(lists, c, n - 1, i);
      CellStep(lists, n, GroupsLength(lists, c) + i);
    }
  }

  // --------------------------------------------------------------- filling

  /**
   * The fill loop of FromSignatures: `groups[0] = 0`, then for each
   * non-empty list its offset, its count and its members, each member
   * translated through `imgid2index`, which the build has made the
   * identity on every member.
   */
  method FillGroups(lists: seq<seq<u32>>, imgid2index: map<u32, u32>, glmax: nat) returns (offsets: seq<u32>, groups: seq<u32>)
    requires glmax == GroupsLength(lists, |lists|) <= INT32_MAX
    requires forall c, j :: 0 <= c < |lists| && 0 <= j < |lists[c]| ==>
      lists[c][j] in imgid2index && imgid2index[lists[c][j]] == lists[c][j]
    ensures offsets == GroupOffsets(lists) && groups == Groups(lists, |lists|)
  {
    var offs := new u32[|lists|](_ => 0);
    var g := new u32[glmax];
    FillLoop(lists, imgid2index, offs, g);
    offsets, groups := offs[..], g[..];
  }

  /** The fill loop's state after the first sid lists: their groups written and their offsets set, the rest 0. */
  ghost predicate Filled(lists: seq<seq<u32>>, offs: array<u32>, g: array<u32>, gpointer: nat, sid: nat)
    reads offs, g
  {
    sid <= |lists| && GroupsLength(lists, |lists|) <= INT32_MAX && offs.Length == |lists| &&
    gpointer == GroupsLength(lists, sid) <= g.Length && g[..gpointer] == Groups(lists, sid) &&
    (forall k :: 0 <= k < sid ==> offs[k] == GroupOffset(lists, k)) &&
    forall k :: sid <= k < |lists| ==> offs[k] == 0
  }

  /** The loop of FillGroups over arrays of the right lengths, the offsets all 0 to begin with. */
  method FillLoop(lists: seq<seq<u32>>, imgid2index: map<u32, u32>, offs: array<u32>, g: array<u32>)
    requires g.Length == GroupsLength(lists, |lists|) <= INT32_MAX && offs.Length == |lists| && offs != g
    requires forall k :: 0 <= k < |lists| ==> offs[k] == 0
    requires forall c, j :: 0 <= c < |lists| && 0 <= j < |lists[c]| ==>
      lists[c][j] in imgid2index && imgid2index[lists[c][j]] == lists[c][j]
    modifies offs, g
    ensures offs[..] == GroupOffsets(lists) && g[..] == Groups(lists, |lists|)
  {
    g[0] := 0;
    var gpointer := 1;
    var glistc: u32 := 1;
    for sid := 0 to |lists|
      invariant glistc as nat == gpointer && g.Length == GroupsLength(lists, |lists|)
      invariant Filled(lists, offs, g, gpointer, sid)
    {
      gpointer := FillList(lists, imgid2index, offs, g, sid, gpointer, glistc);
      glistc := gpointer as u32;
    }
    assert g[..] == g[..gpointer];
    assert offs[..] == GroupOffsets(lists);
  }

  /** One pass of the fill loop: list sid's offset, count and members, or nothing for an empty list. */
  method FillList(lists: seq<seq<u32>>, imgid2index: map<u32, u32>, offs: array<u32>, g: array<u32>,
                  sid: nat, gpointer: nat, glistc: u32) returns (next: nat)
    requires sid < |lists| && offs != g && glistc as nat == gpointer && Filled(lists, offs, g, gpointer, sid)
    requires g.Length == GroupsLength(lists, |lists|)
    requires forall c, j :: 0 <= c < |lists| && 0 <= j < |lists[c]| ==>
      lists[c][j] in imgid2index && imgid2index[lists[c][j]] == lists[c][j]
    modifies offs, g
    ensures next <= INT32_MAX && Filled(lists, offs, g, next, sid + 1)
  {
    GroupsLengthGrows(lists, sid, |lists|);
    var n := lists[sid];
    if |n| == 0 {
      GroupsSkip(lists, sid);
      return gpointer;
    }
    offs[sid] := glistc;
    next := FillBlock(g, gpointer, n, imgid2index);
    assert Groups(lists, sid + 1) == Groups(lists, sid) + Block(n);
  }

  /** An empty list adds no group. */
  lemma GroupsSkip(lists: seq<seq<u32>>, sid: nat)
    requires sid < |lists| && |lists[sid]| == 0
    ensures GroupsLength(lists, sid + 1) == GroupsLength(lists, sid)
    ensures Groups(lists, sid + 1) == Groups(lists, sid)
  {
  }

  /** One group of the fill loop: `groups[gpointer++] = ncount`, then the members. */
  method FillBlock(g: array<u32>, start: nat, members: seq<u32>, imgid2index: map<u32, u32>) returns (end: nat)
    requires |members| > 0 && |members| <= INT32_MAX && start + |members| + 1 <= g.Length
    requires forall j :: 0 <= j < |members| ==> members[j] in imgid2index && imgid2index[members[j]] == members[j]
    modifies g
    ensures end == start + |members| + 1
    ensures g[..end] == old(g[..start]) + Block(members)
  {
    g[start] := |members| as u32;
    assert g[..start + 1] == old(g[..start]) + [|members| as u32];
    end := CopyGroup(g, start + 1, members, imgid2index);
  }

  /** The inner foreach of the fill loop: `groups[gpointer++] = imgid2index[imgid]` for each member. */
  method CopyGroup(g: array<u32>, start: nat, members: seq<u32>, imgid2index: map<u32, u32>) returns (end: nat)
    requires start + |members| <= g.Length
    requires forall j :: 0 <= j < |members| ==> members[j] in imgid2index && imgid2index[members[j]] == members[j]
    modifies g
    ensures end == start + |members|
    ensures g[..end] == old(g[..start]) + members
  {
    end := start;
    for j := 0 to |members|
      invariant end == start + j
      invariant g[..end] == old(g[..start]) + members[..j]
    {
      assert members[..j + 1] == members[..j] + [members[j]];
      g[end] := imgid2index[members[j]];
      end := end + 1;
    }
    assert members[..|members|] == members;
  }

  // --------------------------------------------------------------- pruning

  /** PruneForDuplicates drops the group at offset g: a singleton, or one larger than the limit. */
  predicate Drops(groups: seq<u32>, g: nat, limit: int)
    requires g < |groups|
  {
    groups[g] == 1 || groups[g] > limit
  }

  /** The prune loop reads the count of every non-zero offset before n. */
  predicate CountsReadable(offsets: seq<u32>, groups: seq<u32>, n: nat)
    requires n <= |offsets|
  {
    forall i :: 0 <= i < n ==> offsets[i] == 0 || offsets[i] < |groups|
  }

  /** The offsets after the prune loop has visited offsets[..n]: each dropped group's offset set to 0. */
  function Pruned(offsets: seq<u32>, groups: seq<u32>, limit: int, n: nat): (p: seq<u32>)
    requires n <= |offsets| && CountsReadable(offsets, groups, n)
    ensures |p| == |offsets|
    ensures forall i :: 0 <= i < |offsets| ==> p[i] == offsets[i] || p[i] == 0
  {
    seq(|offsets|, i requires 0 <= i < |offsets| =>
      if i < n && offsets[i] != 0 && Drops(groups, offsets[i], limit) then 0 else offsets[i])
  }

  /**
   * After a whole pass every offset that is left non-zero points at a group
   * of at least two and at most `limit` members, or at a group with a count
   * of zero, which the test lets through; and a second pass changes nothing.
   */
  lemma PruneMeaning(offsets: seq<u32>, groups: seq<u32>, limit: int)
    requires CountsReadable(offsets, groups, |offsets|)
    ensures CountsReadable(Pruned(offsets, groups, limit, |offsets|), groups, |offsets|)
    ensures forall i :: 0 <= i < |offsets| && Pruned(offsets, groups, limit, |offsets|)[i] != 0 ==>
      var count := groups[Pruned(offsets, groups, limit, |offsets|)[i]];
      count == 0 || 2 <= count <= limit
    ensures Pruned(Pruned(offsets, groups, limit, |offsets|), groups, limit, |offsets|) == Pruned(offsets, groups, limit, |offsets|)
  {
    var p := Pruned(offsets, groups, limit, |offsets|);
    assert forall i :: 0 <= i < |offsets| && p[i] != 0 ==> p[i] == offsets[i] && !Drops(groups, offsets[i], limit);
  }

  /** The first offset the prune loop cannot read the count of, if any. */
  function PruneFault(offsets: seq<u32>, groups: seq<u32>, n: nat): (f: Option<nat>)
    requires n <= |offsets|
    ensures f.None? <==> CountsReadable(offsets, groups, n)
    ensures f.Some? ==> (f.value < n && CountsReadable(offsets, groups, f.value) &&
      offsets[f.value] != 0 && offsets[f.value] >= |groups|)
  {
    if n == 0 then None
    else
      var f := PruneFault(offsets, groups, n - 1);
      if f.Some? then f
      else if offsets[n - 1] != 0 && offsets[n - 1] >= |groups| then Some(n - 1)
      else None
  }

  // -------------------------------------------------------------- analysis

  /** The counters Analyze prints. */
  datatype Stats = Stats(
    groupCount: nat, oneCount: nat, overLimit: nat, legitGroups: nat,
    legitCx: u32, maxGroup: u32, maxCid: nat)

  /** `(gl + 1) * gl / 2` in uint arithmetic: the product wraps before the halving. */
  function Pairs(gl: u32): u32 {
    ((gl + 1) % 0x1_0000_0000 * gl) % 0x1_0000_0000 / 2
  }

  /** One step of Analyze's loop with count gl at coefficient i. */
  function Tally(s: Stats, gl: u32, limit: nat, i: nat): Stats {
    if gl == 0 then s
    else
      var s := s.(groupCount := s.groupCount + 1);
      if gl == 1 then s.(oneCount := s.oneCount + 1)
      else if gl > limit then
        var s := s.(overLimit := s.overLimit + 1);
        if gl > s.maxGroup then s.(maxGroup := gl, maxCid := i) else s
      else s.(legitGroups := s.legitGroups + 1, legitCx := (s.legitCx + Pairs(gl)) % 0x1_0000_0000)
  }

  /**
   * Analyze's loop over offsets[..n]: `groups[offset]` is read for every
   * offset, 0 included, so an offset past the groups is an index error.
   */
  function Analysis(offsets: seq<u32>, groups: seq<u32>, limit: nat, n: nat): (r: Result<Stats>)
    requires n <= |offsets|
    ensures r.Err? <==> exists i :: 0 <= i < n && offsets[i] >= |groups|
    ensures r.Err? ==> r.error == IndexOutOfRange
  {
    if n == 0 then Ok(Stats(0, 0, 0, 0, 0, 0, 0))
    else
      var s :- Analysis(offsets, groups, limit, n - 1);
      if offsets[n - 1] >= |groups| then Err(IndexOutOfRange)
      else Ok(Tally(s, groups[offsets[n - 1]], limit, n - 1))
  }

  /** The count read at position i. */
  function CountAt(offsets: seq<u32>, groups: seq<u32>, i: nat): u32
    requires i < |offsets| && offsets[i] < |groups|
  {
    groups[offsets[i]]
  }

  /**
   * What Analyze reports: every non-empty group is a singleton, an
   * over-limit group or a legitimate one; no counter exceeds the number of
   * offsets read; maxGroup is the largest over-limit count and max_cid an
   * offset that has it.
   */
  lemma {:induction false} AnalysisMeaning(offsets: seq<u32>, groups: seq<u32>, limit: nat, n: nat)
    requires n <= |offsets| && Analysis(offsets, groups, limit, n).Ok?
    ensures forall i :: 0 <= i < n ==> offsets[i] < |groups|
    ensures var s := Analysis(offsets, groups, limit, n).value;
      s.groupCount == s.oneCount + s.overLimit + s.legitGroups <= n
    ensures var s := Analysis(offsets, groups, limit, n).value;
      forall i :: 0 <= i < n && CountAt(offsets, groups, i) > limit && CountAt(offsets, groups, i) != 1 ==>
        (CountAt(offsets, groups, i) <= s.maxGroup)
    ensures var s := Analysis(offsets, groups, limit, n).value;
      s.overLimit > 0 ==> s.maxCid < n && CountAt(offsets, groups, s.maxCid) == s.maxGroup
    ensures var s := Analysis(offsets, groups, limit, n).value;
      s.overLimit == 0 ==> s.maxGroup == 0
  {
    if n > 0 {
      AnalysisMeaning(offsets, groups, limit, n - 1);
    }
  }

  /**
   * Analyze after a full PruneForDuplicates with the same limit, on groups
   * whose default group is empty: no singletons and no over-limit groups
   * are left to count.
   */
  lemma {:induction false} PrunedAnalysis(offsets: seq<u32>, groups: seq<u32>, limit: nat, n: nat)
    requires n <= |offsets| && CountsReadable(offsets, groups, |offsets|) && |groups| > 0 && groups[0] == 0
    ensures Analysis(Pruned(offsets, groups, limit, |offsets|), groups, limit, n).Ok?
    ensures var s := Analysis(Pruned(offsets, groups, limit, |offsets|), groups, limit, n).value;
      s.oneCount == 0 && s.overLimit == 0 && s.groupCount == s.legitGroups
  {
    PruneMeaning(offsets, groups, limit);
    if n > 0 {
      PrunedAnalysis(offsets, groups, limit, n - 1);
    }
  }
}
