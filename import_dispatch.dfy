/**
 * The argument loop of the importer's Main (iqdb-import/Program.cs): the
 * converter each file name is given to, chosen by its extension, and the
 * program that runs the converters in turn until one raises.
 */
module ImportDispatch {
  import opened Wire
  import opened Text
  import ImportCsv
  import ImportBlocks
  import Dumps = RgbDump

  // ----------------------------------------------------------- dispatch

  /** What Main does with one argument, and the file it writes. */
  datatype Job =
    | CsvImport(kind: nat, output: string)   // CSVtoSignatures of that signature type
    | BlockSplit(output: string)             // BlockFileHsigs, output being the prefix of its files
    | RgbDump(output: string)                // DumpRGBSigs
    | Ignored

  /** The extensions Main tests for, in their order. */
  const EXTENSIONS: seq<string> := [".hcsv", ".hsigs", ".ccsv", ".icsv", ".rgbcsv", ".rgbsigs"]

  /** The extension tests of Main, in their order. */
  function Dispatch(arg: string): Job {
    if EndsWith(arg, ".hcsv") then CsvImport(1, arg + ".hsigs")
    else if EndsWith(arg, ".hsigs") then BlockSplit(arg + "-bl")
    else if EndsWith(arg, ".ccsv") then CsvImport(2, arg + ".csigs")
    else if EndsWith(arg, ".icsv") then CsvImport(3, arg + ".isigs")
    else if EndsWith(arg, ".rgbcsv") then CsvImport(4, arg + ".rgbsigs")
    else if EndsWith(arg, ".rgbsigs") then RgbDump(arg + ".csv")
    else Ignored
  }

  /** An argument is ignored exactly when it has none of the extensions Main tests for. */
  lemma DispatchIgnored(arg: string)
    ensures Dispatch(arg).Ignored? <==> forall k :: 0 <= k < |EXTENSIONS| ==> !EndsWith(arg, EXTENSIONS[k])
  {
    var x := EXTENSIONS;
    assert x[0] == ".hcsv" && x[1] == ".hsigs" && x[2] == ".ccsv";
    assert x[3] == ".icsv" && x[4] == ".rgbcsv" && x[5] == ".rgbsigs";
    var none := !EndsWith(arg, x[0]) && !EndsWith(arg, x[1]) && !EndsWith(arg, x[2]) &&
                !EndsWith(arg, x[3]) && !EndsWith(arg, x[4]) && !EndsWith(arg, x[5]);
    assert Dispatch(arg).Ignored? <==> none;
    if none {
      forall k | 0 <= k < |x|
        ensures !EndsWith(arg, x[k])
      {
        assert k == 0 || k == 1 || k == 2 || k == 3 || k == 4 || k == 5;
      }
    }
  }

  /** Every file Main writes is named after the argument with a suffix appended; the CSV types are 1 to 4. */
  lemma DispatchOutput(arg: string)
    ensures !Dispatch(arg).Ignored? ==> |Dispatch(arg).output| > |arg| && Dispatch(arg).output[..|arg|] == arg
    ensures Dispatch(arg).CsvImport? ==> 1 <= Dispatch(arg).kind <= 4
  {
    var j := Dispatch(arg);
    if !j.Ignored? {
      var suffix := j.output[|arg|..];
      assert j.output == arg + suffix && |suffix| > 0;
    }
  }

  /**
   * A name ending in ext does not end in other when they differ at a
   * position of other that falls within ext.
   */
  lemma Mismatch(name: string, ext: string, other: string, k: nat)
    requires |other| - |ext| <= k < |other| && ext[|ext| - |other| + k] != other[k]
    ensures !EndsWith(name + ext, other)
  {
    var s := name + ext;
    if |other| <= |s| {
      assert s[|s| - |other| + k] == ext[|ext| - |other| + k];
      assert s[|s| - |other|..][k] != other[k];
    }
  }

  /** A name with the suffix appended ends with it. */
  lemma Appended(name: string, suffix: string)
    ensures EndsWith(name + suffix, suffix)
  {
    assert (name + suffix)[|name|..] == suffix;
  }

  /** One extension at a time: the tests before it in the chain do not match it. */
  lemma DispatchHcsv(name: string)
    ensures Dispatch(name + ".hcsv") == CsvImport(1, name + ".hcsv" + ".hsigs")
  {
    Appended(name, ".hcsv");
  }

  lemma DispatchHsigs(name: string)
    ensures Dispatch(name + ".hsigs") == BlockSplit(name + ".hsigs" + "-bl")
  {
    Mismatch(name, ".hsigs", ".hcsv", 0);
    Appended(name, ".hsigs");
  }

  lemma DispatchCcsv(name: string)
    ensures Dispatch(name + ".ccsv") == CsvImport(2, name + ".ccsv" + ".csigs")
  {
    Mismatch(name, ".ccsv", ".hcsv", 1);
    Mismatch(name, ".ccsv", ".hsigs", 1);
    Appended(name, ".ccsv");
  }

  lemma DispatchIcsv(name: string)
    ensures Dispatch(name + ".icsv") == CsvImport(3, name + ".icsv" + ".isigs")
  {
    Mismatch(name, ".icsv", ".hcsv", 1);
    Mismatch(name, ".icsv", ".hsigs", 1);
    Mismatch(name, ".icsv", ".ccsv", 1);
    Appended(name, ".icsv");
  }

  lemma DispatchRgbcsv(name: string)
    ensures Dispatch(name + ".rgbcsv") == CsvImport(4, name + ".rgbcsv" + ".rgbsigs")
  {
    Mismatch(name, ".rgbcsv", ".hcsv", 0);
    Mismatch(name, ".rgbcsv", ".hsigs", 0);
    Mismatch(name, ".rgbcsv", ".ccsv", 0);
    Mismatch(name, ".rgbcsv", ".icsv", 0);
    Appended(name, ".rgbcsv");
  }

  lemma DispatchRgbsigs(name: string)
    ensures Dispatch(name + ".rgbsigs") == RgbDump(name + ".rgbsigs" + ".csv")
  {
    Mismatch(name, ".rgbsigs", ".hcsv", 0);
    Mismatch(name, ".rgbsigs", ".hsigs", 0);
    Mismatch(name, ".rgbsigs", ".ccsv", 0);
    Mismatch(name, ".rgbsigs", ".icsv", 0);
    Mismatch(name, ".rgbsigs", ".rgbcsv", 0);
    Appended(name, ".rgbsigs");
  }

  /**
   * Each extension goes to its converter, whatever the name before it:
   * .hcsv, .ccsv, .icsv and .rgbcsv to CSVtoSignatures of type 1, 2, 3 and
   * 4, .hsigs to the block split and .rgbsigs to the dump; no earlier test
   * in the chain catches a later extension.
   */
  lemma DispatchByExtension(name: string)
    ensures Dispatch(name + ".hcsv") == CsvImport(1, name + ".hcsv" + ".hsigs")
    ensures Dispatch(name + ".hsigs") == BlockSplit(name + ".hsigs" + "-bl")
    ensures Dispatch(name + ".ccsv") == CsvImport(2, name + ".ccsv" + ".csigs")
    ensures Dispatch(name + ".icsv") == CsvImport(3, name + ".icsv" + ".isigs")
    ensures Dispatch(name + ".rgbcsv") == CsvImport(4, name + ".rgbcsv" + ".rgbsigs")
    ensures Dispatch(name + ".rgbsigs") == RgbDump(name + ".rgbsigs" + ".csv")
  {
    DispatchHcsv(name);
    DispatchHsigs(name);
    DispatchCcsv(name);
    DispatchIcsv(name);
    DispatchRgbcsv(name);
    DispatchRgbsigs(name);
  }

  /** The argument loop of Main: one job per argument, in order. */
  method Jobs(args: seq<string>) returns (jobs: seq<Job>)
    ensures |jobs| == |args| && forall k :: 0 <= k < |args| ==> jobs[k] == Dispatch(args[k])
  {
    jobs := [];
    for k := 0 to |args|
      invariant |jobs| == k && forall j :: 0 <= j < k ==> jobs[j] == Dispatch(args[j])
    {
      jobs := jobs + [Dispatch(args[k])];
    }
  }

  // ------------------------------------------------------------ the program

  /** What Main is given for an argument: the text lines of a CSV list, or the bytes of a signature file. */
  datatype Input = Input(lines: seq<string>, bytes: seq<Cell>)

  /** What one converter leaves behind, with the name of the file it goes to. */
  datatype Output =
    | SigFile(file: string, cells: seq<Cell>)                        // appended by CSVtoSignatures
    | BlockSet(prefix: string, files: ImportBlocks.BlockFiles)       // written by BlockFileHsigs
    | DumpFile(file: string, lines: seq<string>)                     // written by DumpRGBSigs

  /**
   * The converter for one argument: its output, None for an argument no
   * test matches, or the exception it raises. CSVtoSignatures and
   * DumpRGBSigs catch their own exceptions; only the block split raises.
   */
  function Converted(arg: string, input: Input, present: set<string>, read: ImportCsv.ImageReader): (r: Result<Option<Output>>)
    ensures r == Ok(None) <==> Dispatch(arg).Ignored?
    ensures r.Err? <==> Dispatch(arg).BlockSplit? && ImportBlocks.SplitStream(input.bytes).Err?
  {
    match Dispatch(arg)
    case CsvImport(kind, out) =>
      var outs := ImportCsv.Outcomes(kind, input.lines, present, read);
      Ok(Some(SigFile(out, ImportCsv.EncodeAll(ImportCsv.Imported(outs, |input.lines|).flushed))))
    case BlockSplit(prefix) =>
      var b :- ImportBlocks.SplitStream(input.bytes);
      Ok(Some(BlockSet(prefix, b)))
    case RgbDump(out) => Ok(Some(DumpFile(out, Dumps.DumpLines(input.bytes))))
    case Ignored => Ok(None)
  }

  /** The converter outcomes of the arguments, in order. */
  function Conversions(args: seq<string>, inputs: seq<Input>, present: set<string>, read: ImportCsv.ImageReader): (cs: seq<Result<Option<Output>>>)
    requires |args| == |inputs|
    ensures |cs| == |args|
    ensures forall k :: 0 <= k < |args| ==> cs[k] == Converted(args[k], inputs[k], present, read)
  {
    seq(|args|, k requires 0 <= k < |args| => Converted(args[k], inputs[k], present, read))
  }

  /** The outputs of the arguments converted, in order, and the exception that ended the program, if any. */
  datatype Run = Run(outputs: seq<Output>, error: Option<Error>)

  /** Main over the first n converter outcomes: an exception ends the loop and the program. */
  function Imports(cs: seq<Result<Option<Output>>>, n: nat): Run
    requires n <= |cs|
  {
    if n == 0 then Run([], None)
    else
      var p := Imports(cs, n - 1);
      if p.error.Some? then p
      else match cs[n - 1]
        case Err(e) => Run(p.outputs, Some(e))
        case Ok(None) => p
        case Ok(Some(o)) => Run(p.outputs + [o], None)
  }

  /** Once an exception has ended the program, later arguments change nothing. */
  lemma {:induction false} FailedStays(cs: seq<Result<Option<Output>>>, k: nat, n: nat)
    requires k <= n <= |cs|
    requires Imports(cs, k).error.Some?
    ensures Imports(cs, n) == Imports(cs, k)
    decreases n
  {
    if n > k {
      FailedStays(cs, k, n - 1);
    }
  }

  /** The program ends without an exception exactly when every converter succeeds; it writes at most one output per argument. */
  lemma {:induction false} ImportsSucceed(cs: seq<Result<Option<Output>>>, n: nat)
    requires n <= |cs|
    ensures Imports(cs, n).error.None? <==> forall k :: 0 <= k < n ==> cs[k].Ok?
    ensures |Imports(cs, n).outputs| <= n
  {
    if n > 0 {
      ImportsSucceed(cs, n - 1);
    }
  }

  /** When a converter raises, the exception reported is that of the first converter that fails. */
  lemma {:induction false} ImportsFailure(cs: seq<Result<Option<Output>>>, n: nat)
    requires n <= |cs|
    requires Imports(cs, n).error.Some?
    ensures exists k :: 0 <= k < n && cs[k] == Err(Imports(cs, n).error.value) && forall j :: 0 <= j < k ==> cs[j].Ok?
  {
    if Imports(cs, n - 1).error.Some? {
      ImportsFailure(cs, n - 1);
    } else {
      ImportsSucceed(cs, n - 1);
    }
  }

  /**
   * Main ends on an exception only at a .hsigs file whose block split
   * raises, the first argument whose converter fails; when none fails, it
   * converts every argument.
   */
  lemma ProgramFailure(args: seq<string>, inputs: seq<Input>, present: set<string>, read: ImportCsv.ImageReader)
    requires |args| == |inputs|
    ensures var r := Imports(Conversions(args, inputs, present, read), |args|);
      r.error.Some? ==>
        exists k :: 0 <= k < |args| && Dispatch(args[k]).BlockSplit? &&
          ImportBlocks.SplitStream(inputs[k].bytes) == Err(r.error.value) &&
          forall j :: 0 <= j < k ==> Converted(args[j], inputs[j], present, read).Ok?
    ensures var r := Imports(Conversions(args, inputs, present, read), |args|);
      r.error.None? <==> forall k :: 0 <= k < |args| ==> !(Dispatch(args[k]).BlockSplit? && ImportBlocks.SplitStream(inputs[k].bytes).Err?)
  {
    var cs := Conversions(args, inputs, present, read);
    ImportsSucceed(cs, |args|);
    if Imports(cs, |args|).error.Some? {
      ImportsFailure(cs, |args|);
    }
  }

  /** One more outcome extends a run that has not failed. */
  lemma ImportsStep(cs: seq<Result<Option<Output>>>, k: nat, outputs: seq<Output>)
    requires k < |cs| && Imports(cs, k).error.None? && Imports(cs, k).outputs == outputs
    ensures cs[k].Err? ==> Imports(cs, k + 1).error == Some(cs[k].error)
    ensures cs[k].Ok? ==> Imports(cs, k + 1).error.None?
    ensures cs[k] == Ok(None) ==> Imports(cs, k + 1).outputs == outputs
    ensures cs[k].Ok? && cs[k].value.Some? ==> Imports(cs, k + 1).outputs == outputs + [cs[k].value.value]
  {
  }

  /** One turn of Main's loop: the converter the argument's extension selects. */
  method Convert(arg: string, input: Input, present: set<string>, read: ImportCsv.ImageReader)
    returns (r: Result<Option<Output>>)
    ensures r == Converted(arg, input, present, read)
  {
    match Dispatch(arg)
    case CsvImport(kind, out) =>
      var cells := ImportCsv.CsvToSignatures(kind, input.lines, present, read);
      return Ok(Some(SigFile(out, cells)));
    case BlockSplit(prefix) =>
      var b := ImportBlocks.BlockFileHsigs(input.bytes);
      if b.Err? {
        return Err(b.error);
      }
      return Ok(Some(BlockSet(prefix, b.value)));
    case RgbDump(out) =>
      var lines := Dumps.DumpRgbSigs(input.bytes);
      return Ok(Some(DumpFile(out, lines)));
    case Ignored =>
      return Ok(None);
  }

  /** Main's loop: each argument to its converter, in order, until one raises. */
  method ImportProgram(args: seq<string>, inputs: seq<Input>, present: set<string>, read: ImportCsv.ImageReader)
    returns (outputs: seq<Output>, error: Option<Error>)
    requires |args| == |inputs|
    ensures Run(outputs, error) == Imports(Conversions(args, inputs, present, read), |args|)
  {
    ghost var cs := Conversions(args, inputs, present, read);
    outputs := [];
    for k := 0 to |args|
      invariant Imports(cs, k).error.None? && Imports(cs, k).outputs == outputs
    {
      var c := Convert(args[k], inputs[k], present, read);
      ImportsStep(cs, k, outputs);
      if c.Err? {
        FailedStays(cs, k + 1, |args|);
        return outputs, Some(c.error);
      }
      if c.value.Some? {
        outputs := outputs + [c.value.value];
      }
    }
    error := None;
  }
}
