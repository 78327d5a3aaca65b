/**
 * CSVtoSignatures (iqdb-import/Program.cs): the lines of a text file
 * turned into serialised signatures, written in chunks of 10,000 lines.
 */
module ImportCsv {
  import opened Wire
  import opened Text
  import opened Signatures
  import IntegerSignatures
  import HaarSignatures
  import ColorSignatures
  import RgbSignatures

  // ------------------------------------------------------ one CSV line

  /** String.Split('|') keeps empty fields: field 0 is the text before the first bar. */
  function FirstField(line: string): (f: string)
    ensures f <= line && '|' !in f
  {
    line[..FirstSeparator(line, {'|'})]
  }

  /** Field 1 is the text between the first bar and the next one; a line without a bar has no field 1. */
  function SecondField(line: string): (r: Result<string>)
    ensures r.Err? <==> '|' !in line
    ensures r.Err? ==> r.error == IndexOutOfRange
  {
    var k := FirstSeparator(line, {'|'});
    if k == |line| then Err(IndexOutOfRange) else Ok(FirstField(line[k + 1..]))
  }

  /** The two fields of `md5|file|...` where neither field holds a bar. */
  lemma Fields(md5: string, file: string, more: string)
    requires '|' !in md5 && '|' !in file && (more == [] || more[0] == '|')
    ensures FirstField(md5 + "|" + file + more) == md5
    ensures SecondField(md5 + "|" + file + more) == Ok(file)
  {
    var line := md5 + "|" + file + more;
    var k := FirstSeparator(line, {'|'});
    assert line[|md5|] == '|';
    assert k == |md5|;
    assert |line| == k + 1 + |file + more|;
    assert forall i :: 0 <= i < |file + more| ==> line[k + 1 + i] == (file + more)[i];
    assert line[k + 1..] == file + more;
    var j := FirstSeparator(file + more, {'|'});
    assert j == |file| by {
      if more != [] {
        assert (file + more)[|file|] == '|';
      }
    }
    assert (file + more)[..j] == file;
  }

  /**
   * FromFileName of the signature class of a type: reading the image is
   * foreign code, so its outcome for (type, hash, file) is a parameter of
   * the model.
   */
  type ImageReader = (nat, string, string) -> Result<SigValue>

  /**
   * The body of the try block for one line: types 1, 2 and 4 take
   * `md5|file`, both trimmed and lower-cased, and read the file when it
   * exists; type 3 parses the line as an integer signature. No signature
   * is None; an exception is the Err that the catch drops.
   */
  function LineSignature(kind: nat, line: string, present: set<string>, read: ImageReader): Result<Option<SigValue>>
  {
    if kind == 1 || kind == 2 || kind == 4 then
      var md5 := ToLower(Trim(FirstField(line)));
      var field :- SecondField(line);
      var file := ToLower(Trim(field));
      if file in present then
        var v :- read(kind, md5, file);
        Ok(Some(v))
      else Ok(None)
    else if kind == 3 then
      var v :- IntegerSignatures.ParseLine(line);
      Ok(Some(v))
    else Ok(None)
  }

  /**
   * A `md5|file` line of an image type: the image reader sees both fields
   * trimmed and lower-cased, and a file that does not exist gives no
   * signature and no exception; a line without a bar is an index error.
   */
  lemma ImageLine(kind: nat, md5: string, file: string, more: string, present: set<string>, read: ImageReader)
    requires kind == 1 || kind == 2 || kind == 4
    requires '|' !in md5 && '|' !in file && (more == [] || more[0] == '|')
    ensures var r := LineSignature(kind, md5 + "|" + file + more, present, read);
      var name := ToLower(Trim(file));
      (name !in present ==> r == Ok(None)) &&
      (name in present && read(kind, ToLower(Trim(md5)), name).Ok? ==> r == Ok(Some(read(kind, ToLower(Trim(md5)), name).value))) &&
      (name in present && read(kind, ToLower(Trim(md5)), name).Err? ==> r == Err(read(kind, ToLower(Trim(md5)), name).error))
    ensures forall line :: '|' !in line ==> LineSignature(kind, line, present, read) == Err(IndexOutOfRange)
  {
    Fields(md5, file, more);
  }

  /** The signature a line adds to the pending list: none for a null result or a caught exception. */
  function Found(r: Result<Option<SigValue>>): seq<SigValue> {
    if r.Ok? && r.value.Some? then [r.value.value] else []
  }

  // ---------------------------------------------------- serialisation

  /** Signature.Serialize, dispatched on the signature's class. */
  function Encode(v: SigValue): (s: seq<Cell>)
    ensures |s| >= 4
  {
    match v.kind
    case IntegerKind => IntegerSignatures.EncodeInteger(v)
    case HaarKind(_) => HaarSignatures.EncodeHaar(v)
    case ColorKind(_) => ColorSignatures.EncodeColor(v)
    case RgbKind(_) => RgbSignatures.EncodeRgb(v)
  }

  /** The signatures serialised one after the other. */
  function EncodeAll(vs: seq<SigValue>): seq<Cell> {
    if vs == [] then [] else Encode(vs[0]) + EncodeAll(vs[1..])
  }

  lemma {:induction false} EncodeAllAppend(a: seq<SigValue>, b: seq<SigValue>)
    ensures EncodeAll(a + b) == EncodeAll(a) + EncodeAll(b)
  {
    if a == [] {
      assert a + b == b;
    } else {
      assert (a + b)[0] == a[0];
      assert (a + b)[1..] == a[1..] + b;
      EncodeAllAppend(a[1..], b);
    }
  }

  /** Serialising at least one signature writes something. */
  lemma {:induction false} EncodeAllGrows(vs: seq<SigValue>)
    ensures |EncodeAll(vs)| >= 4 * |vs|
  {
    if vs != [] {
      EncodeAllGrows(vs[1..]);
    }
  }

  /** The foreach loop of the flush: every pending signature serialised in list order. */
  method SerializeAll(vs: seq<SigValue>) returns (out: seq<Cell>)
    ensures out == EncodeAll(vs)
  {
    out := [];
    for k := 0 to |vs|
      invariant out == EncodeAll(vs[..k])
    {
      assert vs[..k + 1] == vs[..k] + [vs[k]];
      EncodeAllAppend(vs[..k], [vs[k]]);
      assert EncodeAll([vs[k]]) == Encode(vs[k]) + EncodeAll([]);
      out := out + Encode(vs[k]);
    }
    assert vs[..|vs|] == vs;
  }

  // ---------------------------------------------------- CSVtoSignatures

  /** The lines after which the pending signatures are flushed: the uint line counter is a multiple of 10,000. */
  predicate FlushesAt(n: nat) {
    (n % 0x1_0000_0000) % 10000 == 0
  }

  /** The uint line counter after one more line. */
  lemma CounterStep(n: nat)
    ensures (n % 0x1_0000_0000 + 1) % 0x1_0000_0000 == (n + 1) % 0x1_0000_0000
  {
    var m := 0x1_0000_0000;
    var q, r := n / m, n % m;
    assert n + 1 == q * m + (r + 1);
    if r + 1 == m {
      assert n + 1 == (q + 1) * m;
    }
  }

  /** The uint line counter after line n + 1, and whether it calls for a flush. */
  lemma CounterNext(n: nat, i: u32)
    requires i == n % 0x1_0000_0000
    ensures (i + 1) % 0x1_0000_0000 == (n + 1) % 0x1_0000_0000
    ensures ((i + 1) % 0x1_0000_0000) % 10000 == 0 <==> FlushesAt(n + 1)
  {
    CounterStep(n);
  }

  /** One line more: its signature joins the pending ones, which are written and cleared when the line count calls for a flush. */
  lemma ImportedStep(outs: seq<Result<Option<SigValue>>>, n: nat)
    requires n < |outs|
    ensures var st := Imported(outs, n);
      var pending := st.pending + Found(outs[n]);
      Imported(outs, n + 1) == if FlushesAt(n + 1) then ImportState(st.flushed + pending, []) else ImportState(st.flushed, pending)
  {
  }

  /** The signatures serialised so far, in the order written, and those waiting for the next flush. */
  datatype ImportState = ImportState(flushed: seq<SigValue>, pending: seq<SigValue>)

  /** The outcome of the try block for every line of the file. */
  function Outcomes(kind: nat, lines: seq<string>, present: set<string>, read: ImageReader): (outs: seq<Result<Option<SigValue>>>)
    ensures |outs| == |lines|
    ensures forall k {:trigger LineSignature(kind, lines[k], present, read)} :: 0 <= k < |lines| ==> outs[k] == LineSignature(kind, lines[k], present, read)
  {
    seq(|lines|, k requires 0 <= k < |lines| => LineSignature(kind, lines[k], present, read))
  }

  /** The state after the first n lines, given the outcome of each line. */
  function Imported(outs: seq<Result<Option<SigValue>>>, n: nat): ImportState
    requires n <= |outs|
  {
    if n == 0 then ImportState([], [])
    else
      var st := Imported(outs, n - 1);
      var pending := st.pending + Found(outs[n - 1]);
      if FlushesAt(n) then ImportState(st.flushed + pending, [])
      else ImportState(st.flushed, pending)
  }

  /** The signatures lines a up to b yield, in file order: the reference for what an import should write. */
  function Collected(outs: seq<Result<Option<SigValue>>>, a: nat, b: nat): seq<SigValue>
    requires a <= b <= |outs|
    decreases b - a
  {
    if a == b then [] else Collected(outs, a, b - 1) + Found(outs[b - 1])
  }

  lemma {:induction false} CollectedSplit(outs: seq<Result<Option<SigValue>>>, a: nat, b: nat, c: nat)
    requires a <= b <= c <= |outs|
    ensures Collected(outs, a, c) == Collected(outs, a, b) + Collected(outs, b, c)
    decreases c - b
  {
    if b < c {
      CollectedSplit(outs, a, b, c - 1);
    }
  }

  /** The last line number up to n after which a flush happened, or 0. */
  function LastFlush(n: nat): (m: nat)
    ensures m <= n && (m == 0 || FlushesAt(m))
    ensures forall j :: m < j <= n ==> !FlushesAt(j)
  {
    if n == 0 || FlushesAt(n) then n else LastFlush(n - 1)
  }

  /**
   * After n lines, exactly the signatures of the lines up to the last
   * flush are written, in file order, and the signatures of the lines
   * since then are pending.
   */
  lemma {:induction false} ImportedMeaning(outs: seq<Result<Option<SigValue>>>, n: nat)
    requires n <= |outs|
    ensures Imported(outs, n).flushed == Collected(outs, 0, LastFlush(n))
    ensures Imported(outs, n).pending == Collected(outs, LastFlush(n), n)
  {
    if n > 0 {
      ImportedMeaning(outs, n - 1);
      var l := LastFlush(n - 1);
      var st := Imported(outs, n - 1);
      var pending := st.pending + Found(outs[n - 1]);
      ImportedStep(outs, n - 1);
      assert Collected(outs, l, n) == Collected(outs, l, n - 1) + Found(outs[n - 1]);
      if FlushesAt(n) {
        assert LastFlush(n) == n;
        assert Imported(outs, n).flushed == st.flushed + pending;
        CollectedSplit(outs, 0, l, n);
        assert Imported(outs, n).pending == [] == Collected(outs, n, n);
      } else {
        assert LastFlush(n) == l;
        assert Imported(outs, n).flushed == st.flushed;
        assert Imported(outs, n).pending == pending;
      }
    }
  }

  /**
   * The body of the read loop for one line: a signature read from it joins
   * the pending ones, and on a flush they are all appended to the output.
   */
  method ImportLine(s: Result<Option<SigValue>>, flush: bool, written: seq<Cell>, sigs: seq<SigValue>)
    returns (written': seq<Cell>, sigs': seq<SigValue>)
    ensures flush ==> written' == written + EncodeAll(sigs + Found(s)) && sigs' == []
    ensures !flush ==> written' == written && sigs' == sigs + Found(s)
  {
    written', sigs' := written, sigs;
    if s.Ok? && s.value.Some? {
      sigs' := sigs' + [s.value.value];
    }
    assert sigs' == sigs + Found(s);
    if flush {
      var out := SerializeAll(sigs');
      written' := written' + out;
      sigs' := [];
    }
  }

  /**
   * The rest of one turn of the read loop, once the line's outcome is
   * known: the uint line counter moves on and the state after n lines
   * becomes the state after n + 1.
   */
  method Advance(ghost outs: seq<Result<Option<SigValue>>>, n: nat, s: Result<Option<SigValue>>, i: u32, written: seq<Cell>, sigs: seq<SigValue>)
    returns (i': u32, written': seq<Cell>, sigs': seq<SigValue>)
    requires n < |outs| && s == outs[n] && i == n % 0x1_0000_0000
    requires written == EncodeAll(Imported(outs, n).flushed) && sigs == Imported(outs, n).pending
    ensures i' == (n + 1) % 0x1_0000_0000
    ensures written' == EncodeAll(Imported(outs, n + 1).flushed) && sigs' == Imported(outs, n + 1).pending
  {
    i' := (i + 1) % 0x1_0000_0000;
    CounterNext(n, i);
    var flush := i' % 10000 == 0;
    ImportedStep(outs, n);
    written', sigs' := ImportLine(s, flush, written, sigs);
    if flush {
      EncodeAllAppend(Imported(outs, n).flushed, sigs + Found(s));
      assert Imported(outs, n + 1).flushed == Imported(outs, n).flushed + (sigs + Found(s));
    } else {
      assert Imported(outs, n + 1).flushed == Imported(outs, n).flushed;
    }
  }

  /**
   * CSVtoSignatures on one source file: read the lines in order, add the
   * signature of each to the pending list, and serialise and clear the
   * list after every 10,000th line. Returns what is appended to the output
   * file: the serialisation of the signatures of the lines up to the last
   * flush, in file order.
   */
  method CsvToSignatures(kind: nat, lines: seq<string>, present: set<string>, read: ImageReader) returns (written: seq<Cell>)
    ensures written == EncodeAll(Imported(Outcomes(kind, lines, present, read), |lines|).flushed)
    ensures var outs := Outcomes(kind, lines, present, read);
      written == EncodeAll(Collected(outs, 0, LastFlush(|lines|)))
  {
    ghost var outs := Outcomes(kind, lines, present, read);
    written := [];
    var sigs: seq<SigValue> := [];
    var i: u32 := 0;
    for n := 0 to |lines|
      invariant i == n % 0x1_0000_0000
      invariant written == EncodeAll(Imported(outs, n).flushed) && sigs == Imported(outs, n).pending
    {
      var s := LineSignature(kind, lines[n], present, read);
      i, written, sigs := Advance(outs, n, s, i, written, sigs);
    }
    ImportedMeaning(outs, |lines|);
  }

  /**
   * As written, the signatures after the last multiple of 10,000 lines
   * are never serialised: when the file does not end on a flush and its
   * last line yields a signature, that signature is pending at the end
   * and the output stops short of the serialisation of all signatures.
   */
  lemma LastChunkLost(kind: nat, lines: seq<string>, present: set<string>, read: ImageReader, v: SigValue)
    requires lines != [] && !FlushesAt(|lines|)
    requires LineSignature(kind, lines[|lines| - 1], present, read) == Ok(Some(v))
    ensures var outs := Outcomes(kind, lines, present, read);
      var st := Imported(outs, |lines|);
      st.pending != [] && st.pending[|st.pending| - 1] == v &&
      st.flushed + st.pending == Collected(outs, 0, |lines|) &&
      |EncodeAll(st.flushed)| < |EncodeAll(Collected(outs, 0, |lines|))|
  {
    var outs := Outcomes(kind, lines, present, read);
    var n := |lines|;
    ImportedMeaning(outs, n);
    var st := Imported(outs, n);
    var l := LastFlush(n);
    assert Found(outs[n - 1]) == [v];
    CollectedSplit(outs, 0, l, n);
    EncodeAllAppend(Collected(outs, 0, l), st.pending);
    EncodeAllGrows(st.pending);
  }

  /** The import with the missing last flush: the pending signatures are serialised when the file ends. */
  function ImportFixed(kind: nat, lines: seq<string>, present: set<string>, read: ImageReader): seq<Cell> {
    var st := Imported(Outcomes(kind, lines, present, read), |lines|);
    EncodeAll(st.flushed) + EncodeAll(st.pending)
  }

  /** With the final flush, every signature the lines yield is written, once and in file order. */
  lemma ImportFixedWritesAll(kind: nat, lines: seq<string>, present: set<string>, read: ImageReader)
    ensures ImportFixed(kind, lines, present, read) == EncodeAll(Collected(Outcomes(kind, lines, present, read), 0, |lines|))
  {
    var outs := Outcomes(kind, lines, present, read);
    var n := |lines|;
    ImportedMeaning(outs, n);
    CollectedSplit(outs, 0, LastFlush(n), n);
    EncodeAllAppend(Collected(outs, 0, LastFlush(n)), Collected(outs, LastFlush(n), n));
  }
}
