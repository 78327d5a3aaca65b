/**
 * hsig2hsm: every .hsigs argument is turned into sparse-matrix shards
 * `<argument>-h-<f>.hsm`. Signatures are read in order, a hash already read
 * is passed over, and after every 4,000,000 records read (passed-over ones
 * included) the signatures gathered so far become the next shard; what is
 * left at the end becomes the last shard when there is any.
 *
 * A record that fails to read ends the reading of its file, and the
 * signatures gathered and the record count carry over. A shard is built as a
 * HaarQuerySparseMatrix and serialised; an exception there ends the program.
 * The file system is handed in: the bytes of the files read, and the files
 * written with their contents in the order they are written.
 */
module ShardSplit {
  import opened Wire
  import opened Text
  import opened Signatures
  import HaarSignatures
  import HaarMatrix
  import HaarIndex
  import opened HaarStream
  import opened FirstSeen

  /** `split`: the number of records read between two shards. */
  const SPLIT: nat := 4000000

  // ------------------------------------------------------------ the split

  /** GenerateSparseMatrix between two records: the shards stored, the signatures gathered, the hashes read, the records read. */
  datatype Split = Split(shards: seq<seq<SigValue>>, pending: seq<SigValue>, seen: set<string>, count: nat)

  /** One record read: gathered when its hash is new; after every SPLIT-th record the gathered signatures are stored. */
  function Step(st: Split, v: SigValue): Split {
    var pending := if Key(v) in st.seen then st.pending else st.pending + [v];
    var count := st.count + 1;
    if count % SPLIT == 0 then Split(st.shards + [pending], [], st.seen + {Key(v)}, count)
    else Split(st.shards, pending, st.seen + {Key(v)}, count)
  }

  /** The state after reading the records in order. */
  function Scan(rs: seq<SigValue>): Split {
    if rs == [] then Split([], [], {}, 0)
    else Step(Scan(rs[..|rs| - 1]), rs[|rs| - 1])
  }

  lemma ScanStep(rs: seq<SigValue>, v: SigValue)
    ensures Scan(rs + [v]) == Step(Scan(rs), v)
  {
    assert (rs + [v])[..|rs|] == rs;
  }

  /** The shards written for the records read: those stored, then what is still gathered, when there is any. */
  function Shards(rs: seq<SigValue>): seq<seq<SigValue>> {
    var st := Scan(rs);
    st.shards + (if st.pending != [] then [st.pending] else [])
  }

  function Concat(xss: seq<seq<SigValue>>): seq<SigValue> {
    if xss == [] then [] else Concat(xss[..|xss| - 1]) + xss[|xss| - 1]
  }

  lemma ConcatAppend(xss: seq<seq<SigValue>>, xs: seq<SigValue>)
    ensures Concat(xss + [xs]) == Concat(xss) + xs
  {
    assert (xss + [xs])[..|xss|] == xss;
  }

  /** The hashes kept are those read. */
  lemma {:induction false} ScanSeen(rs: seq<SigValue>)
    ensures Scan(rs).seen == Keys(rs)
  {
    if rs == [] {
      assert Keys(rs) == {};
    } else {
      var init, v := rs[..|rs| - 1], rs[|rs| - 1];
      assert rs == init + [v];
      ScanSeen(init);
      KeysAppend(init, v);
      assert Scan(rs).seen == Scan(init).seen + {Key(v)};
    }
  }

  /** The stored shards followed by the gathered signatures are the first record of every hash read. */
  lemma {:induction false} ScanContents(rs: seq<SigValue>)
    ensures Concat(Scan(rs).shards) + Scan(rs).pending == Fresh(rs)
  {
    if rs != [] {
      var init, v := rs[..|rs| - 1], rs[|rs| - 1];
      assert rs == init + [v];
      ScanContents(init);
      ScanSeen(init);
      var st := Scan(init);
      FreshStep(init, v);
      var pending := if Key(v) in st.seen then st.pending else st.pending + [v];
      assert Concat(st.shards) + pending == Fresh(rs);
      if (st.count + 1) % SPLIT == 0 {
        ConcatAppend(st.shards, pending);
        assert Scan(rs) == Split(st.shards + [pending], [], st.seen + {Key(v)}, st.count + 1);
      } else {
        assert Scan(rs) == Split(st.shards, pending, st.seen + {Key(v)}, st.count + 1);
      }
    }
  }

  lemma CountStep(n: nat)
    ensures (n + 1) % SPLIT == 0 ==> n % SPLIT == SPLIT - 1 && (n + 1) / SPLIT == n / SPLIT + 1
    ensures (n + 1) % SPLIT != 0 ==> (n + 1) % SPLIT == n % SPLIT + 1 && (n + 1) / SPLIT == n / SPLIT
  {
  }

  predicate Sized(shards: seq<seq<SigValue>>) {
    forall k :: 0 <= k < |shards| ==> |shards[k]| <= SPLIT
  }

  /**
   * The records are counted, a shard is stored for every SPLIT of them, and
   * no shard holds more than SPLIT signatures.
   */
  lemma {:induction false} ScanSizes(rs: seq<SigValue>)
    ensures Scan(rs).count == |rs|
    ensures |Scan(rs).shards| == |rs| / SPLIT
    ensures |Scan(rs).pending| <= |rs| % SPLIT
    ensures Sized(Scan(rs).shards)
  {
    if rs != [] {
      var init := rs[..|rs| - 1];
      ScanSizes(init);
      CountStep(|init|);
    }
  }

  /**
   * The shards written hold, one after the other, the first record of every
   * hash read, in read order; none holds more than SPLIT signatures; there is
   * one for every SPLIT records read, and one more for a remainder.
   */
  lemma ShardsMeaning(rs: seq<SigValue>)
    ensures Concat(Shards(rs)) == Fresh(rs)
    ensures Sized(Shards(rs))
    ensures |rs| / SPLIT <= |Shards(rs)| <= |rs| / SPLIT + 1
  {
    var st := Scan(rs);
    ScanContents(rs);
    ScanSizes(rs);
    if st.pending != [] {
      ConcatAppend(st.shards, st.pending);
    } else {
      assert Shards(rs) == st.shards;
    }
  }

  /** Reading more records never changes the shards already stored. */
  lemma {:induction false} ScanGrows(a: seq<SigValue>, b: seq<SigValue>)
    ensures |Scan(a).shards| <= |Scan(a + b).shards| && Scan(a + b).shards[..|Scan(a).shards|] == Scan(a).shards
    decreases |b|
  {
    if b == [] {
      assert a + b == a;
    } else {
      var init, v := b[..|b| - 1], b[|b| - 1];
      assert a + b == (a + init) + [v];
      ScanGrows(a, init);
      ScanStep(a + init, v);
      var s0 := Scan(a + init).shards;
      assert Scan(a + b).shards == s0 || Scan(a + b).shards[..|s0|] == s0;
    }
  }

  // ------------------------------------------------------------ the shard files

  /** The file name of shard f. */
  function Name(out: string, f: nat): string {
    out + "-" + DecimalString(f) + ".hsm"
  }

  /** Shard files have different names. */
  lemma NamesDiffer(out: string, f: nat, g: nat)
    requires f != g
    ensures Name(out, f) != Name(out, g)
  {
    var x, y := Name(out, f), Name(out, g);
    assert x[|out| + 1..|x| - 4] == DecimalString(f);
    assert y[|out| + 1..|y| - 4] == DecimalString(g);
  }

  /** FromHaarSignatures then Serialize: the bytes of a shard, or the exception one of them raises. */
  function ShardBytes(vs: seq<SigValue>): Result<seq<Cell>>
    requires |vs| <= SPLIT
  {
    var ix :- HaarMatrix.Build(vs);
    HaarMatrix.BuiltOffsets(vs, 0, 0);
    HaarIndex.EncodeIndex(ix)
  }

  /** The files written and the exception that ended the program, if one did. */
  datatype Output = Output(files: seq<(string, seq<Cell>)>, error: Option<Error>)

  /** The shard files written in turn, numbered from 0, up to the first shard that cannot be built or stored. */
  function Written(out: string, shards: seq<seq<SigValue>>): Output
    requires Sized(shards)
  {
    if shards == [] then Output([], None)
    else
      var o := Written(out, shards[..|shards| - 1]);
      if o.error.Some? then o else Store(o, Name(out, |shards| - 1), ShardBytes(shards[|shards| - 1]))
  }

  /** One more shard file stored, or the exception that storing it raised. */
  function Store(o: Output, name: string, r: Result<seq<Cell>>): Output {
    match r
    case Ok(bytes) => Output(o.files + [(name, bytes)], None)
    case Err(e) => Output(o.files, Some(e))
  }

  lemma WrittenStep(out: string, shards: seq<seq<SigValue>>, xs: seq<SigValue>)
    requires Sized(shards) && |xs| <= SPLIT && Written(out, shards).error.None?
    ensures Sized(shards + [xs])
    ensures Written(out, shards + [xs]) == Store(Written(out, shards), Name(out, |shards|), ShardBytes(xs))
  {
    var w := shards + [xs];
    assert w[..|shards|] == shards && w[|shards|] == xs;
    assert Sized(w) by {
      assert forall k :: 0 <= k < |shards| ==> w[k] == shards[k];
    }
  }

  /**
   * Every shard is written when none fails; otherwise the first that fails
   * is the exception, with the ones before it written.
   */
  lemma {:induction false} WrittenCount(out: string, shards: seq<seq<SigValue>>)
    requires Sized(shards)
    ensures |Written(out, shards).files| <= |shards|
    ensures Written(out, shards).error.None? <==> |Written(out, shards).files| == |shards|
    ensures Written(out, shards).error.Some? ==>
      ShardBytes(shards[|Written(out, shards).files|]) == Err(Written(out, shards).error.value)
  {
    if shards != [] {
      var init := shards[..|shards| - 1];
      WrittenCount(out, init);
      var o := Written(out, init);
      if o.error.Some? {
        assert shards[|o.files|] == init[|o.files|];
      }
    }
  }

  /** Shard k is written as `<out>-k.hsm`, holding the bytes of shard k. */
  lemma {:induction false} WrittenFiles(out: string, shards: seq<seq<SigValue>>)
    requires Sized(shards)
    ensures var o := Written(out, shards);
      |o.files| <= |shards| &&
      forall k :: 0 <= k < |o.files| ==> ShardBytes(shards[k]).Ok? && o.files[k] == (Name(out, k), ShardBytes(shards[k]).value)
  {
    if shards != [] {
      var init, last := shards[..|shards| - 1], shards[|shards| - 1];
      assert shards == init + [last];
      WrittenFiles(out, init);
      WrittenCount(out, init);
      var o := Written(out, init);
      var files := Written(out, shards).files;
      if o.error.None? {
        WrittenStep(out, init, last);
      }
      assert |files| <= |init| + 1 && files[..|o.files|] == o.files;
      forall k | 0 <= k < |files|
        ensures ShardBytes(shards[k]).Ok? && files[k] == (Name(out, k), ShardBytes(shards[k]).value)
      {
        if k < |o.files| {
          assert shards[k] == init[k] && files[k] == o.files[k];
        } else {
          assert k == |init| && shards[k] == last;
        }
      }
    }
  }

  /** After an exception nothing more is written. */
  lemma {:induction false} WrittenStops(out: string, a: seq<seq<SigValue>>, b: seq<seq<SigValue>>)
    requires Sized(a) && Sized(b) && |a| <= |b| && b[..|a|] == a && Written(out, a).error.Some?
    ensures Written(out, b) == Written(out, a)
    decreases |b|
  {
    if |b| > |a| {
      var init := b[..|b| - 1];
      assert init[..|a|] == a;
      WrittenStops(out, a, init);
    } else {
      assert b == a;
    }
  }

  // ------------------------------------------------------------ the inputs

  /** The records of the files read in turn, each up to the end of its stream or its first record that fails. */
  function Stream(sources: seq<seq<Cell>>): seq<SigValue> {
    if sources == [] then [] else Stream(sources[..|sources| - 1]) + Readable(sources[|sources| - 1])
  }

  /** What GenerateSparseMatrix writes for the given files and output name. */
  function Generated(sources: seq<seq<Cell>>, out: string): Output {
    ShardsMeaning(Stream(sources));
    Written(out, Shards(Stream(sources)))
  }

  /** One argument of the program: the shards of a .hsigs argument follow what was written, unless an exception ended the program. */
  function Next(o: Output, arg: string, d: seq<Cell>): Output {
    if o.error.Some? || !EndsWith(arg, ".hsigs") then o
    else
      var g := Generated([d], arg + "-h");
      Output(o.files + g.files, g.error)
  }

  /** What the program writes for the arguments among the first n. */
  function Run(args: seq<string>, data: seq<seq<Cell>>, n: nat): Output
    requires n <= |args| == |data|
  {
    if n == 0 then Output([], None) else Next(Run(args, data, n - 1), args[n - 1], data[n - 1])
  }

  // ------------------------------------------------------------ the program

  /** The locals of GenerateSparseMatrix between two records, and the files written so far. */
  datatype Locals = Locals(signatures: seq<SigValue>, hashes: set<string>, c: int, f: int, files: seq<(string, seq<Cell>)>)

  /** The locals after the records read, with no exception so far. */
  ghost predicate Matches(loc: Locals, out: string, done: seq<SigValue>) {
    var st := Scan(done);
    ScanSizes(done);
    loc.signatures == st.pending && loc.hashes == st.seen &&
    loc.c == |done| % SPLIT + 1 && loc.f == |st.shards| &&
    Written(out, st.shards) == Output(loc.files, None)
  }

  /** `new HaarSignature(reader)` in the try block: a record, or the end of the loop over this file. */
  method ReadOrStop(s: seq<Cell>) returns (r: Option<(SigValue, seq<Cell>)>)
    requires s != []
    ensures r.None? ==> Readable(s) == []
    ensures r.Some? ==> ByteLength(r.value.1) < ByteLength(s) && Readable(s) == [r.value.0] + Readable(r.value.1)
  {
    var d := HaarSignatures.DecodeHaar(s);
    if d.Err? {
      return None;
    }
    DecodedHaar(s);
    return Some(d.value);
  }

  /** FromHaarSignatures on the gathered signatures, then Serialize to the file of shard f. */
  method StoreShard(out: string, f: nat, signatures: seq<SigValue>) returns (r: Result<(string, seq<Cell>)>)
    requires |signatures| <= SPLIT
    ensures r.Ok? ==> ShardBytes(signatures).Ok? && r.value == (Name(out, f), ShardBytes(signatures).value)
    ensures r.Err? ==> ShardBytes(signatures) == Err(r.error)
  {
    var ix := HaarMatrix.Build(signatures);
    if ix.Err? {
      return Err(ix.error);
    }
    HaarMatrix.BuiltOffsets(signatures, 0, 0);
    var bytes := HaarIndex.EncodeIndex(ix.value);
    if bytes.Err? {
      return Err(bytes.error);
    }
    var cname := out + "-" + DecimalString(f) + ".hsm";
    return Ok((cname, bytes.value));
  }

  /**
   * The rest of one turn of the reading loop: the hash check, then the
   * counter, and a shard stored when it reaches SPLIT.
   */
  method Accept(v: SigValue, loc: Locals, out: string, ghost done: seq<SigValue>) returns (loc': Locals, error: Option<Error>)
    requires Matches(loc, out, done)
    ensures error.None? ==> Matches(loc', out, done + [v])
    ensures error.Some? ==> Sized(Scan(done + [v]).shards) && Written(out, Scan(done + [v]).shards) == Output(loc'.files, error)
  {
    ghost var st := Scan(done);
    ScanSizes(done);
    ScanStep(done, v);
    ScanSizes(done + [v]);
    CountStep(|done|);
    var signatures, hashes, c, f := loc.signatures, loc.hashes, loc.c, loc.f;
    if Key(v) in hashes {
      assert hashes + {Key(v)} == hashes;
    } else {
      hashes := hashes + {Key(v)};
      signatures := signatures + [v];
    }
    if c < SPLIT {
      c := c + 1;
      return Locals(signatures, hashes, c, f, loc.files), None;
    }
    c := 1;
    var stored := StoreShard(out, f, signatures);
    WrittenStep(out, st.shards, signatures);
    if stored.Err? {
      return Locals([], hashes, c, f, loc.files), Some(stored.error);
    }
    return Locals([], hashes, c, f + 1, loc.files + [stored.value]), None;
  }

  /**
   * The loop over one file: records are read until the end of the stream or
   * until one fails to read, which ends this file only.
   */
  method ReadFile(s: seq<Cell>, loc: Locals, out: string, ghost done: seq<SigValue>) returns (loc': Locals, error: Option<Error>)
    requires Matches(loc, out, done)
    ensures error.None? ==> Matches(loc', out, done + Readable(s))
    ensures error.Some? ==> exists n ::
      && 0 < n <= |Readable(s)|
      && Sized(Scan(done + Readable(s)[..n]).shards)
      && Written(out, Scan(done + Readable(s)[..n]).shards) == Output(loc'.files, error)
  {
    var rest := s;
    ghost var got: seq<SigValue> := [];
    loc' := loc;
    assert done + got == done;
    while rest != []
      invariant Readable(s) == got + Readable(rest)
      invariant Matches(loc', out, done + got)
      decreases ByteLength(rest)
    {
      var d := ReadOrStop(rest);
      if d.None? {
        break;
      }
      var (v, next) := d.value;
      assert (done + got) + [v] == done + (got + [v]);
      assert Readable(s) == (got + [v]) + Readable(next);
      loc', error := Accept(v, loc', out, done + got);
      if error.Some? {
        assert Readable(s)[..|got| + 1] == got + [v];
        return;
      }
      got := got + [v];
      rest := next;
    }
    assert got == Readable(s);
    return loc', None;
  }

  /**
   * GenerateSparseMatrix for Haar signatures: the shard files of the records
   * of the files read, up to the first shard that cannot be built or stored.
   */
  method GenerateSparseMatrix(sources: seq<seq<Cell>>, out: string) returns (o: Output)
    ensures o == Generated(sources, out)
  {
    var loc := Locals([], {}, 1, 0, []);
    ghost var done: seq<SigValue> := [];
    for i := 0 to |sources|
      invariant done == Stream(sources[..i])
      invariant Matches(loc, out, done)
    {
      assert sources[..i + 1][..i] == sources[..i];
      var error;
      loc, error := ReadFile(sources[i], loc, out, done);
      if error.Some? {
        ghost var n :| 0 < n <= |Readable(sources[i])| &&
          Sized(Scan(done + Readable(sources[i])[..n]).shards) &&
          Written(out, Scan(done + Readable(sources[i])[..n]).shards) == Output(loc.files, error);
        StopsEarly(sources, i, n, out);
        return Output(loc.files, error);
      }
      done := done + Readable(sources[i]);
    }
    assert sources[..|sources|] == sources;
    ghost var st := Scan(done);
    ScanSizes(done);
    ShardsMeaning(done);
    if |loc.signatures| > 0 {
      var stored := StoreShard(out, loc.f, loc.signatures);
      WrittenStep(out, st.shards, st.pending);
      if stored.Err? {
        return Output(loc.files, Some(stored.error));
      }
      return Output(loc.files + [stored.value], None);
    }
    assert Shards(done) == st.shards;
    return Output(loc.files, None);
  }

  /** An exception while storing a shard is the exception of the whole run. */
  lemma StopsEarly(sources: seq<seq<Cell>>, i: nat, n: nat, out: string)
    requires i < |sources| && 0 < n <= |Readable(sources[i])|
    requires var a := Stream(sources[..i]) + Readable(sources[i])[..n];
      Sized(Scan(a).shards) && Written(out, Scan(a).shards).error.Some?
    ensures Generated(sources, out) == Written(out, Scan(Stream(sources[..i]) + Readable(sources[i])[..n]).shards)
  {
    var a := Stream(sources[..i]) + Readable(sources[i])[..n];
    var all := Stream(sources);
    StreamHasPrefix(sources, i, n);
    var b := all[|a|..];
    assert a + b == all;
    ErrorStays(a, b, out);
  }

  /** Once storing a shard has failed, the records read afterwards change nothing that is written. */
  lemma ErrorStays(a: seq<SigValue>, b: seq<SigValue>, out: string)
    requires Sized(Scan(a).shards) && Written(out, Scan(a).shards).error.Some?
    ensures Sized(Shards(a + b)) && Written(out, Shards(a + b)) == Written(out, Scan(a).shards)
  {
    ScanGrows(a, b);
    ShardsMeaning(a + b);
    var st := Scan(a + b);
    var shards := Shards(a + b);
    assert shards == st.shards + (if st.pending != [] then [st.pending] else []);
    assert shards[..|Scan(a).shards|] == Scan(a).shards;
    WrittenStops(out, Scan(a).shards, shards);
  }

  /** The records read up to a point of file i come first in the records of all the files. */
  lemma StreamHasPrefix(sources: seq<seq<Cell>>, i: nat, n: nat)
    requires i < |sources| && n <= |Readable(sources[i])|
    ensures var a := Stream(sources[..i]) + Readable(sources[i])[..n];
      |a| <= |Stream(sources)| && Stream(sources)[..|a|] == a
  {
    var a := Stream(sources[..i]) + Readable(sources[i])[..n];
    var upto := Stream(sources[..i + 1]);
    assert sources[..i + 1][..i] == sources[..i];
    assert upto == Stream(sources[..i]) + Readable(sources[i]);
    assert upto[..|a|] == a;
    StreamGrows(sources, i + 1);
  }

  /** The records of the first files come first in the records of all the files. */
  lemma {:induction false} StreamGrows(sources: seq<seq<Cell>>, m: nat)
    requires m <= |sources|
    ensures |Stream(sources[..m])| <= |Stream(sources)| && Stream(sources)[..|Stream(sources[..m])|] == Stream(sources[..m])
    decreases |sources| - m
  {
    if m == |sources| {
      assert sources[..m] == sources;
    } else {
      StreamGrows(sources, m + 1);
      assert sources[..m + 1][..m] == sources[..m];
      var x, y := Stream(sources[..m]), Stream(sources[..m + 1]);
      assert y == x + Readable(sources[m]);
      assert y[..|x|] == x;
    }
  }

  /** The turn of Main's loop for one argument. */
  method Convert(o: Output, arg: string, d: seq<Cell>) returns (o': Output)
    ensures o' == Next(o, arg, d)
  {
    o' := o;
    if o.error.None? && EndsWith(arg, ".hsigs") {
      var g := GenerateSparseMatrix([d], arg + "-h");
      o' := Output(o.files + g.files, g.error);
    }
  }

  /**
   * hsig2hsm's Main: GenerateSparseMatrix for every .hsigs argument on its
   * own, writing `<argument>-h-<f>.hsm`; an exception ends the program.
   */
  method SplitProgram(args: seq<string>, data: seq<seq<Cell>>) returns (o: Output)
    requires |args| == |data|
    ensures o == Run(args, data, |args|)
  {
    o := Output([], None);
    for i := 0 to |args|
      invariant o == Run(args, data, i)
    {
      o := Convert(o, args[i], data[i]);
    }
  }
}
