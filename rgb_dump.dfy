/**
 * DumpRGBSigs (iqdb-import/Program.cs): a file of serialised RGB
 * signatures listed as text, one line of hash and hex data per record.
 */
module RgbDump {
  import opened Wire
  import opened Signatures
  import IntegerSignatures
  import RgbSignatures

  lemma {:induction false} ReadU16sFacts(s: seq<Cell>, n: nat)
    requires ReadU16s(s, n).Ok?
    ensures |ReadU16s(s, n).value.0| == n
    ensures ByteLength(ReadU16s(s, n).value.1) <= ByteLength(s)
  {
    if n > 0 {
      ReadLittleEndianShrinks(s, 2);
      ReadU16sFacts(ReadU16(s).value.1, n - 1);
    }
  }

  /** An RGB record read back has a hash and one weight per id, and is read from the front of the stream. */
  lemma DecodedRgb(s: seq<Cell>)
    requires RgbSignatures.DecodeRgb(s).Ok?
    ensures var v := RgbSignatures.DecodeRgb(s).value.0;
      v.hash.Some? && v.kind.RgbKind? && |v.kind.rgbWeights| == |v.sigData|
    ensures ByteLength(RgbSignatures.DecodeRgb(s).value.1) < ByteLength(s)
  {
    var (id, rest1) := ReadU32(s).value;
    ByteLengthAppend(s[..4], rest1);
    var (_, _, rest2) := IntegerSignatures.DecodeHeader(s).value;
    if id == 0 {
      ReadBytesShrinks(rest1, HASH_BYTES);
    }
    var (n, rest3) := ReadU16(rest2).value;
    ReadLittleEndianShrinks(rest2, 2);
    ReadU32sShrinks(rest3, n);
    var rest4 := IntegerSignatures.DecodeInteger(s).value.1;
    var (m, rest5) := ReadU16(rest4).value;
    ReadLittleEndianShrinks(rest4, 2);
    ReadU16sFacts(rest5, m);
  }

  /** The text line of one RGB signature: its hash in lower-case hex, a bar, its hex data. */
  function DumpLine(v: SigValue): string
    requires v.kind.RgbKind? && |v.sigData| <= |v.kind.rgbWeights|
  {
    HashString(v.hash) + "|" + RgbSignatures.HexData(v.sigData, v.kind.rgbWeights)
  }

  /** DumpRGBSigs: one line per record read, until the input ends or a record fails to read. */
  function DumpLines(s: seq<Cell>): seq<string>
    decreases ByteLength(s)
  {
    if s == [] then []
    else
      match RgbSignatures.DecodeRgb(s)
      case Err(_) => []
      case Ok((v, rest)) =>
        DecodedRgb(s);
        [DumpLine(v)] + DumpLines(rest)
  }

  /** A file of RGB signatures as Serialize writes them. */
  function EncodeRgbs(vs: seq<SigValue>): seq<Cell>
    requires forall k :: 0 <= k < |vs| ==> Dumpable(vs[k])
  {
    if vs == [] then []
    else
      assert Dumpable(vs[0]);
      RgbSignatures.EncodeRgb(vs[0]) + EncodeRgbs(vs[1..])
  }

  /** What Serialize accepts back: a 16-byte hash and as many weights as ids, fewer than 65,536. */
  predicate Dumpable(v: SigValue) {
    v.kind.RgbKind? && v.hash.Some? && |v.hash.value| == HASH_BYTES &&
    |v.sigData| == |v.kind.rgbWeights| < 0x1_0000
  }

  /** Dumping a file of serialised RGB signatures lists each of them, in order, as hash and hex data. */
  lemma {:induction false} DumpRoundTrip(vs: seq<SigValue>)
    requires forall k :: 0 <= k < |vs| ==> Dumpable(vs[k])
    ensures |DumpLines(EncodeRgbs(vs))| == |vs|
    ensures forall k :: 0 <= k < |vs| ==> DumpLines(EncodeRgbs(vs))[k] == DumpLine(vs[k])
  {
    if vs != [] {
      var v, tail := vs[0], vs[1..];
      DumpRoundTrip(tail);
      var s := EncodeRgbs(vs);
      assert Dumpable(v);
      RgbSignatures.RgbRoundTrip(v, EncodeRgbs(tail));
      assert |RgbSignatures.EncodeRgb(v)| >= 4;
      DumpStep(s);
      assert DumpLine(v.(id := 0)) == DumpLine(v);
      var d := DumpLines(s);
      assert d == [DumpLine(v)] + DumpLines(EncodeRgbs(tail));
      forall k | 0 <= k < |vs|
        ensures d[k] == DumpLine(vs[k])
      {
        if k > 0 {
          assert vs[k] == tail[k - 1];
        }
      }
    }
  }

  /** One record of the dump: a record that reads gives its line, one that does not ends the list. */
  lemma DumpStep(s: seq<Cell>)
    requires s != []
    ensures RgbSignatures.DecodeRgb(s).Err? ==> DumpLines(s) == []
    ensures RgbSignatures.DecodeRgb(s).Ok? ==>
      var (v, rest) := RgbSignatures.DecodeRgb(s).value;
      v.kind.RgbKind? && |v.sigData| == |v.kind.rgbWeights| && ByteLength(rest) < ByteLength(s) &&
      DumpLines(s) == [DumpLine(v)] + DumpLines(rest)
  {
    if RgbSignatures.DecodeRgb(s).Ok? {
      DecodedRgb(s);
    }
  }

  /** One turn of the dump loop: the next record and its line, or None when the record does not read. */
  method DumpRecord(s: seq<Cell>) returns (r: Option<(string, seq<Cell>)>)
    requires s != []
    ensures r.None? ==> DumpLines(s) == []
    ensures r.Some? ==> ByteLength(r.value.1) < ByteLength(s) && DumpLines(s) == [r.value.0] + DumpLines(r.value.1)
  {
    var d := RgbSignatures.DecodeRgb(s);
    DumpStep(s);
    if d.Err? {
      return None;
    }
    var (v, next) := d.value;
    var hex := RgbSignatures.GetHexData(v.sigData, v.kind.rgbWeights);
    var line := HashString(v.hash) + "|" + hex.value;
    assert line == DumpLine(v);
    return Some((line, next));
  }

  /** DumpRGBSigs: read records while bytes are left, writing a line for each; the first exception ends the loop. */
  method DumpRgbSigs(s: seq<Cell>) returns (lines: seq<string>)
    ensures lines == DumpLines(s)
  {
    lines := [];
    var rest := s;
    while rest != []
      invariant DumpLines(s) == lines + DumpLines(rest)
      decreases ByteLength(rest)
    {
      var r := DumpRecord(rest);
      if r.None? {
        assert lines + [] == lines;
        return;
      }
      var (line, next) := r.value;
      assert lines + ([line] + DumpLines(next)) == (lines + [line]) + DumpLines(next);
      lines := lines + [line];
      rest := next;
    }
    assert lines + [] == lines;
  }
}
