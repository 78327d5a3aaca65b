/**
 * hsigcf: copies the Haar signatures of the .hsigs arguments to
 * `<first argument>-f.hsigs`, keeping only hashes listed in the .csv
 * arguments (all hashes when no .csv lists any) and each hash only once.
 *
 * The file system is handed in: for every argument, the lines of the file
 * it names and its bytes, and the bytes the output file already holds, since
 * it is opened for appending.
 */
module HashFilter {
  import opened Wire
  import opened Text
  import opened Signatures
  import HaarSignatures
  import opened HaarStream
  import opened FirstSeen

  // ------------------------------------------------------------ the whitelist

  function TrimmedLines(lines: seq<string>): set<string> {
    set j | 0 <= j < |lines| :: Trim(lines[j])
  }

  /** The hashes listed by the .csv arguments among the first n, each line trimmed. */
  function Whitelist(args: seq<string>, lines: seq<seq<string>>, n: nat): set<string>
    requires n <= |args| == |lines|
  {
    if n == 0 then {}
    else Whitelist(args, lines, n - 1) + (if EndsWith(args[n - 1], ".csv") then TrimmedLines(lines[n - 1]) else {})
  }

  /** A hash is on the whitelist exactly when some line of some .csv argument trims to it. */
  lemma {:induction false} WhitelistMeaning(args: seq<string>, lines: seq<seq<string>>, n: nat, h: string)
    requires n <= |args| == |lines|
    ensures h in Whitelist(args, lines, n) <==>
      exists i, j :: 0 <= i < n && EndsWith(args[i], ".csv") && 0 <= j < |lines[i]| && Trim(lines[i][j]) == h
  {
    if n > 0 {
      WhitelistMeaning(args, lines, n - 1, h);
      if h in Whitelist(args, lines, n) && h !in Whitelist(args, lines, n - 1) {
        var j :| 0 <= j < |lines[n - 1]| && Trim(lines[n - 1][j]) == h;
        assert EndsWith(args[n - 1], ".csv");
      }
    }
  }

  /** The loop over the arguments that fills the whitelist, line by line. */
  method ReadWhitelist(args: seq<string>, lines: seq<seq<string>>) returns (fil: set<string>)
    requires |args| == |lines|
    ensures fil == Whitelist(args, lines, |args|)
  {
    fil := {};
    for i := 0 to |args|
      invariant fil == Whitelist(args, lines, i)
    {
      if EndsWith(args[i], ".csv") {
        ghost var before := fil;
        for j := 0 to |lines[i]|
          invariant fil == before + set j' | 0 <= j' < j :: Trim(lines[i][j'])
        {
          fil := fil + {Trim(lines[i][j])};
        }
      }
    }
  }

  // ------------------------------------------------------------ the filter

  /** A record passes the whitelist when the whitelist is empty or holds its hash. */
  predicate Admits(fil: set<string>, v: SigValue) {
    fil == {} || Key(v) in fil
  }

  /** The records that pass the whitelist, in read order. */
  function Admitted(vs: seq<SigValue>, fil: set<string>): seq<SigValue> {
    if vs == [] then []
    else
      var init, v := vs[..|vs| - 1], vs[|vs| - 1];
      Admitted(init, fil) + (if Admits(fil, v) then [v] else [])
  }

  lemma AdmittedStep(vs: seq<SigValue>, v: SigValue, fil: set<string>)
    ensures Admitted(vs + [v], fil) == Admitted(vs, fil) + (if Admits(fil, v) then [v] else [])
  {
    assert (vs + [v])[..|vs|] == vs;
  }

  /** Every record admitted was read and passes the whitelist. */
  lemma {:induction false} AdmittedFrom(vs: seq<SigValue>, fil: set<string>)
    ensures forall k :: 0 <= k < |Admitted(vs, fil)| ==> Admitted(vs, fil)[k] in vs && Admits(fil, Admitted(vs, fil)[k])
  {
    if vs != [] {
      var init, v := vs[..|vs| - 1], vs[|vs| - 1];
      assert vs == init + [v];
      AdmittedFrom(init, fil);
      AdmittedStep(init, v, fil);
      var a := Admitted(init, fil);
      assert forall k :: 0 <= k < |a| ==> a[k] in init ==> a[k] in vs;
    }
  }

  /** Every hash read that passes the whitelist is admitted. */
  lemma {:induction false} AdmittedKeys(vs: seq<SigValue>, fil: set<string>)
    ensures Keys(Admitted(vs, fil)) == if fil == {} then Keys(vs) else Keys(vs) * fil
  {
    if vs != [] {
      var init, v := vs[..|vs| - 1], vs[|vs| - 1];
      assert vs == init + [v];
      AdmittedKeys(init, fil);
      AdmittedStep(init, v, fil);
      KeysAppend(init, v);
      var a := Admitted(init, fil);
      if Admits(fil, v) {
        KeysAppend(a, v);
        assert Admitted(vs, fil) == a + [v];
      } else {
        assert Admitted(vs, fil) == a;
      }
    }
  }

  predicate AllStorable(vs: seq<SigValue>) {
    forall k :: 0 <= k < |vs| ==> vs[k].kind.HaarKind? && Storable(vs[k])
  }

  /** The records kept of those read: the first of every admitted hash. */
  function Kept(vs: seq<SigValue>, fil: set<string>): seq<SigValue> {
    Fresh(Admitted(vs, fil))
  }

  /** Records that can be written again stay so when some are left out. */
  lemma KeptStorable(vs: seq<SigValue>, fil: set<string>)
    requires AllStorable(vs)
    ensures AllStorable(Kept(vs, fil))
  {
    var a := Admitted(vs, fil);
    AdmittedFrom(vs, fil);
    FreshFrom(a);
    assert forall k :: 0 <= k < |Fresh(a)| ==> Fresh(a)[k] in vs;
  }

  // ------------------------------------------------------------ the inputs

  /** The records of the .hsigs arguments among the first n, file after file; the first failing record is the exception. */
  function Inputs(args: seq<string>, data: seq<seq<Cell>>, n: nat): Result<seq<SigValue>>
    requires n <= |args| == |data|
  {
    if n == 0 then Ok([])
    else
      var vs :- Inputs(args, data, n - 1);
      if EndsWith(args[n - 1], ".hsigs") then After(vs, Records(data[n - 1])) else Ok(vs)
  }

  /** The exception of an earlier file is the program's. */
  lemma {:induction false} InputsErrStays(args: seq<string>, data: seq<seq<Cell>>, i: nat, n: nat)
    requires i <= n <= |args| == |data| && Inputs(args, data, i).Err?
    ensures Inputs(args, data, n) == Inputs(args, data, i)
    decreases n
  {
    if n > i {
      InputsErrStays(args, data, i, n - 1);
    }
  }

  lemma {:induction false} InputsStorable(args: seq<string>, data: seq<seq<Cell>>, n: nat)
    requires n <= |args| == |data| && Inputs(args, data, n).Ok?
    ensures AllStorable(Inputs(args, data, n).value)
  {
    if n > 0 {
      InputsStorable(args, data, n - 1);
      if EndsWith(args[n - 1], ".hsigs") {
        var vs, ws := Inputs(args, data, n - 1).value, Records(data[n - 1]).value;
        ReadableRecords(data[n - 1]);
        assert Inputs(args, data, n).value == vs + ws;
      }
    }
  }

  /** The records hsigcf writes: the first record of every admitted hash, in read order. */
  function Filtered(args: seq<string>, lines: seq<seq<string>>, data: seq<seq<Cell>>): (r: Result<seq<SigValue>>)
    requires |args| == |lines| == |data|
    ensures r.Ok? ==> Inputs(args, data, |args|).Ok? && AllStorable(r.value)
  {
    var vs :- Inputs(args, data, |args|);
    InputsStorable(args, data, |args|);
    KeptStorable(vs, Whitelist(args, lines, |args|));
    Ok(Kept(vs, Whitelist(args, lines, |args|)))
  }

  /**
   * What is written holds each admitted hash once, every hash that was read
   * and admitted, and nothing that was not read.
   */
  lemma FilteredMeaning(args: seq<string>, lines: seq<seq<string>>, data: seq<seq<Cell>>)
    requires |args| == |lines| == |data| && Filtered(args, lines, data).Ok?
    ensures var ws := Filtered(args, lines, data).value;
      forall i, j :: 0 <= i < j < |ws| ==> Key(ws[i]) != Key(ws[j])
    ensures var fil, vs, ws := Whitelist(args, lines, |args|), Inputs(args, data, |args|).value, Filtered(args, lines, data).value;
      forall k :: 0 <= k < |ws| ==> ws[k] in vs && Admits(fil, ws[k])
    ensures var fil, vs, ws := Whitelist(args, lines, |args|), Inputs(args, data, |args|).value, Filtered(args, lines, data).value;
      Keys(ws) == (if fil == {} then Keys(vs) else Keys(vs) * fil)
  {
    var fil, vs := Whitelist(args, lines, |args|), Inputs(args, data, |args|).value;
    var a := Admitted(vs, fil);
    var ws := Fresh(a);
    AdmittedFrom(vs, fil);
    AdmittedKeys(vs, fil);
    FreshDistinct(a);
    FreshKeys(a);
    FreshFrom(a);
    forall k | 0 <= k < |ws|
      ensures ws[k] in vs && Admits(fil, ws[k])
    {
      var i :| 0 <= i < |a| && a[i] == ws[k];
    }
  }

  /** The records written, read back from the part of the file written, are the same records with ID 0. */
  lemma FilteredReadBack(args: seq<string>, lines: seq<seq<string>>, data: seq<seq<Cell>>)
    requires |args| == |lines| == |data| && Filtered(args, lines, data).Ok?
    ensures Records(EncodeHaars(Filtered(args, lines, data).value)) == Ok(Reread(Filtered(args, lines, data).value))
  {
    HaarsRoundTrip(Filtered(args, lines, data).value);
  }

  // ------------------------------------------------------------ the program

  /**
   * One record taken by the copying loop: passed over when the whitelist
   * refuses it or its hash was already written, otherwise written.
   */
  method Take(v: SigValue, fil: set<string>, written: set<string>, copied: seq<SigValue>, ghost done: seq<SigValue>)
    returns (written': set<string>, copied': seq<SigValue>)
    requires written == Keys(Admitted(done, fil)) && copied == Kept(done, fil)
    ensures written' == Keys(Admitted(done + [v], fil)) && copied' == Kept(done + [v], fil)
  {
    var a := Admitted(done, fil);
    AdmittedStep(done, v, fil);
    AdmittedKeys(done, fil);
    written', copied' := written, copied;
    if Admits(fil, v) {
      assert Admitted(done + [v], fil) == a + [v];
      FreshStep(a, v);
      KeysAppend(a, v);
      if Key(v) !in written {
        written' := written + {Key(v)};
        copied' := copied + [v];
      }
    } else {
      assert Admitted(done + [v], fil) == a;
    }
  }

  /** `new HaarSignature(reader)` on what is left of a file. */
  method ReadOne(s: seq<Cell>) returns (r: Result<(SigValue, seq<Cell>)>)
    requires s != []
    ensures r.Err? ==> Records(s) == Err(r.error)
    ensures r.Ok? ==> ByteLength(r.value.1) < ByteLength(s) && Records(s) == After([r.value.0], Records(r.value.1))
  {
    RecordsNext(s);
    r := HaarSignatures.DecodeHaar(s);
    if r.Ok? {
      DecodedHaar(s);
    }
  }

  /**
   * The loop over one .hsigs file: records are read until the end of the
   * stream; one that fails to read is the exception that ends the program.
   */
  method CopyFile(s: seq<Cell>, fil: set<string>, written: set<string>, copied: seq<SigValue>, ghost done: seq<SigValue>)
    returns (r: Result<(set<string>, seq<SigValue>)>)
    requires written == Keys(Admitted(done, fil)) && copied == Kept(done, fil)
    ensures r.Err? ==> Records(s) == Err(r.error)
    ensures r.Ok? ==> Records(s).Ok?
    ensures r.Ok? ==> r.value.0 == Keys(Admitted(done + Records(s).value, fil))
    ensures r.Ok? ==> r.value.1 == Kept(done + Records(s).value, fil)
  {
    var rest := s;
    ghost var got: seq<SigValue> := [];
    var w, c := written, copied;
    assert done + got == done;
    assert Records(s) == After(got, Records(rest)) by {
      if Records(s).Ok? {
        assert [] + Records(s).value == Records(s).value;
      }
    }
    while rest != []
      invariant Records(s) == After(got, Records(rest))
      invariant w == Keys(Admitted(done + got, fil)) && c == Kept(done + got, fil)
      decreases ByteLength(rest)
    {
      var d := ReadOne(rest);
      if d.Err? {
        return Err(d.error);
      }
      var (v, next) := d.value;
      assert (done + got) + [v] == done + (got + [v]);
      w, c := Take(v, fil, w, c, done + got);
      AfterAfter(got, v, Records(next));
      got := got + [v];
      rest := next;
    }
    assert Records(s) == Ok(got + []);
    assert got + [] == got;
    return Ok((w, c));
  }

  /**
   * hsigcf's Main: nothing without arguments; otherwise the name of the
   * output file and what it holds afterwards, the bytes it held followed by
   * the filtered records, or the exception of a record that fails to read.
   */
  method FilterProgram(args: seq<string>, lines: seq<seq<string>>, data: seq<seq<Cell>>, prior: seq<Cell>)
    returns (r: Option<(string, Result<seq<Cell>>)>)
    requires |args| == |lines| == |data|
    ensures r.None? <==> args == []
    ensures r.Some? ==> r.value.0 == args[0] + "-f.hsigs"
    ensures r.Some? && Filtered(args, lines, data).Err? ==> r.value.1 == Err(Filtered(args, lines, data).error)
    ensures r.Some? && Filtered(args, lines, data).Ok? ==> r.value.1 == Ok(prior + EncodeHaars(Filtered(args, lines, data).value))
  {
    if |args| == 0 {
      return None;
    }
    var outFile := args[0] + "-f.hsigs";
    var fil := ReadWhitelist(args, lines);
    var written: set<string> := {};
    var copied: seq<SigValue> := [];
    ghost var done: seq<SigValue> := [];
    for i := 0 to |args|
      invariant Inputs(args, data, i) == Ok(done)
      invariant written == Keys(Admitted(done, fil)) && copied == Kept(done, fil)
    {
      if EndsWith(args[i], ".hsigs") {
        var c := CopyFile(data[i], fil, written, copied, done);
        if c.Err? {
          InputsErrStays(args, data, i + 1, |args|);
          return Some((outFile, Err(c.error)));
        }
        written, copied := c.value.0, c.value.1;
        done := done + Records(data[i]).value;
      }
    }
    InputsStorable(args, data, |args|);
    KeptStorable(done, fil);
    var out := prior + EncodeHaars(copied);
    return Some((outFile, Ok(out)));
  }
}
