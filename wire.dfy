/**
 * Fixed-width integers, the exceptions of the .NET runtime that the modelled
 * code can raise, and the binary stream format written by BinaryWriter and read
 * by BinaryReader: little-endian integers and 4-byte IEEE singles.
 *
 * A stream is a sequence of cells. Integers are written byte by byte; a single
 * float is one opaque cell that stands for its four bytes.
 */
module Wire {

  type byte = x: int | 0 <= x < 0x100
  type u16 = x: int | 0 <= x < 0x1_0000
  type u32 = x: int | 0 <= x < 0x1_0000_0000

  const INT32_MAX: u32 := 0x7FFF_FFFF

  datatype Option<+T> = None | Some(value: T)

  /** The exceptions raised by the modelled code, named after their .NET types. */
  datatype Error =
    | InvalidData          // System.IO.InvalidDataException
    | EndOfStream          // a BinaryReader ran past the end of its stream
    | IndexOutOfRange      // an array or list index out of bounds
    | ArgumentOutOfRange   // String.Substring past the end of the string
    | NullReference        // a member access on null
    | ArgumentNull         // a null array handed to BinaryWriter.Write or BitConverter.ToString
    | InvalidCast          // a down-cast to the wrong signature class
    | InvalidOperation     // Max() of an empty sequence
    | Format               // a string that does not parse; a float read where integer bytes are
    | Overflow             // a parsed number outside the range of its type; a negative array length
    | Argument             // Dictionary.Add of a key that is already present
    | NotSupported         // an operation a class refuses
    | OutOfMemory          // an array longer than Int32.MaxValue elements

  datatype Result<+T> = Ok(value: T) | Err(error: Error) {
    predicate IsFailure() { Err? }
    function PropagateFailure<U>(): Result<U> requires Err? { Err(error) }
    function Extract(): T requires Ok? { value }
  }

  /** One unit of a binary stream: a byte, or a whole 4-byte single. */
  datatype Cell = Byte(b: byte) | Single(x: real)

  /** The number of bytes a cell occupies in the file. */
  function Width(c: Cell): (w: nat)
    ensures w == 1 || w == 4
    ensures w == 4 <==> c.Single?
  {
    if c.Byte? then 1 else 4
  }

  /** The length in bytes of a stream. */
  function ByteLength(s: seq<Cell>): (n: nat)
    ensures n >= |s|
  {
    if s == [] then 0 else Width(s[0]) + ByteLength(s[1..])
  }

  lemma {:induction false} ByteLengthAppend(a: seq<Cell>, b: seq<Cell>)
    ensures ByteLength(a + b) == ByteLength(a) + ByteLength(b)
  {
    if a == [] {
      assert a + b == b;
    } else {
      assert (a + b)[0] == a[0];
      assert (a + b)[1..] == a[1..] + b;
      ByteLengthAppend(a[1..], b);
    }
  }

  /** A stream of bytes only is as long in bytes as it is in cells. */
  lemma {:induction false} ByteLengthOfBytes(s: seq<Cell>)
    requires forall k :: 0 <= k < |s| ==> s[k].Byte?
    ensures ByteLength(s) == |s|
  {
    if s != [] {
      ByteLengthOfBytes(s[1..]);
    }
  }

  /**
   * Stream.Seek to an absolute byte position: what is left to read from
   * there. Seeking past the end is allowed, and reads then meet the end of
   * the stream; a position inside a single is a Format error of the model.
   */
  function Seek(s: seq<Cell>, pos: nat): (r: Result<seq<Cell>>)
    ensures r.Ok? ==> |r.value| <= |s|
  {
    if pos == 0 then Ok(s)
    else if s == [] then Ok([])
    else if Width(s[0]) > pos then Err(Format)
    else Seek(s[1..], pos - Width(s[0]))
  }

  /** Seeking past a prefix lands where seeking in what follows it would. */
  lemma {:induction false} SeekAppend(a: seq<Cell>, b: seq<Cell>, n: nat)
    ensures Seek(a + b, ByteLength(a) + n) == Seek(b, n)
  {
    if a == [] {
      assert a + b == b;
    } else {
      assert (a + b)[0] == a[0];
      assert (a + b)[1..] == a[1..] + b;
      SeekAppend(a[1..], b, n);
    }
  }

  /** Raw bytes as cells (BinaryWriter.Write(byte[])). */
  function Bytes(bs: seq<byte>): (s: seq<Cell>)
    ensures |s| == |bs|
    ensures forall k :: 0 <= k < |bs| ==> s[k] == Byte(bs[k])
  {
    if bs == [] then [] else [Byte(bs[0])] + Bytes(bs[1..])
  }

  /** The n low-order bytes of x, least significant first. */
  function LittleEndian(x: nat, n: nat): (s: seq<Cell>)
    ensures |s| == n
    ensures forall k :: 0 <= k < n ==> s[k].Byte?
  {
    if n == 0 then [] else [Byte(x % 256)] + LittleEndian(x / 256, n - 1)
  }

  function Pow256(n: nat): (p: nat)
    ensures p >= 1
  {
    if n == 0 then 1 else 256 * Pow256(n - 1)
  }

  function U16(x: u16): seq<Cell> { LittleEndian(x, 2) }
  function U32(x: u32): seq<Cell> { LittleEndian(x, 4) }
  function F32(x: real): seq<Cell> { [Single(x)] }

  /** Every word of xs in order (one BinaryWriter.Write(uint) per element). */
  function U32s(xs: seq<u32>): (s: seq<Cell>)
    ensures |s| == 4 * |xs|
  {
    if xs == [] then []
    else U32(xs[0]) + U32s(xs[1..])
  }

  /** Every word takes four bytes. */
  lemma {:induction false} U32sByteLength(xs: seq<u32>)
    ensures ByteLength(U32s(xs)) == 4 * |xs|
  {
    if xs != [] {
      U32sByteLength(xs[1..]);
      ByteLengthAppend(U32(xs[0]), U32s(xs[1..]));
      ByteLengthOfBytes(U32(xs[0]));
    }
  }

  /** Writing two runs of words one after the other writes their concatenation. */
  lemma {:induction false} U32sAppend(xs: seq<u32>, ys: seq<u32>)
    ensures U32s(xs + ys) == U32s(xs) + U32s(ys)
  {
    if xs == [] {
      assert xs + ys == ys;
    } else {
      assert (xs + ys)[0] == xs[0];
      assert (xs + ys)[1..] == xs[1..] + ys;
      U32sAppend(xs[1..], ys);
    }
  }

  function U16s(xs: seq<u16>): (s: seq<Cell>)
    ensures |s| == 2 * |xs|
  {
    if xs == [] then []
    else U16(xs[0]) + U16s(xs[1..])
  }

  function F32s(xs: seq<real>): (s: seq<Cell>)
    ensures |s| == |xs|
    ensures forall k :: 0 <= k < |xs| ==> s[k] == Single(xs[k])
  {
    if xs == [] then []
    else F32(xs[0]) + F32s(xs[1..])
  }

  /** Every single takes four bytes. */
  lemma {:induction false} F32sByteLength(xs: seq<real>)
    ensures ByteLength(F32s(xs)) == 4 * |xs|
  {
    if xs != [] {
      F32sByteLength(xs[1..]);
      ByteLengthAppend(F32(xs[0]), F32s(xs[1..]));
    }
  }

  /**
   * Reads an n-byte little-endian integer. Fewer than n bytes left is an
   * EndOfStream; meeting a single where bytes are expected is a Format error
   * of the model (the file itself would reinterpret the float's bytes).
   */
  function ReadLittleEndian(s: seq<Cell>, n: nat): (r: Result<(nat, seq<Cell>)>)
    ensures r.Ok? ==> r.value.0 < Pow256(n) && |r.value.1| == |s| - n
    ensures r.Ok? ==> s == s[..n] + r.value.1
    ensures |s| < n && (forall k :: 0 <= k < |s| ==> s[k].Byte?) ==> r == Err(EndOfStream)
  {
    if n == 0 then Ok((0, s))
    else if s == [] then Err(EndOfStream)
    else if s[0].Single? then Err(Format)
    else
      var (high, rest) :- ReadLittleEndian(s[1..], n - 1);
      Ok((s[0].b + 256 * high, rest))
  }

  function ReadU16(s: seq<Cell>): Result<(u16, seq<Cell>)> {
    var (x, rest) :- ReadLittleEndian(s, 2);
    Ok((x, rest))
  }

  function ReadU32(s: seq<Cell>): Result<(u32, seq<Cell>)> {
    var (x, rest) :- ReadLittleEndian(s, 4);
    Ok((x, rest))
  }

  function ReadByte(s: seq<Cell>): Result<(byte, seq<Cell>)> {
    var (x, rest) :- ReadLittleEndian(s, 1);
    Ok((x, rest))
  }

  /** BinaryReader.ReadSingle. */
  function ReadSingle(s: seq<Cell>): (r: Result<(real, seq<Cell>)>)
    ensures r.Ok? <==> s != [] && s[0].Single?
  {
    if s == [] then Err(EndOfStream)
    else if s[0].Byte? then Err(Format)
    else Ok((s[0].x, s[1..]))
  }

  /**
   * BinaryReader.ReadBytes(n): up to n bytes; at the end of the stream it
   * returns the bytes that are left rather than failing.
   */
  function ReadBytes(s: seq<Cell>, n: nat): (r: Result<(seq<byte>, seq<Cell>)>)
    ensures r.Ok? ==> |r.value.0| == if |s| < n then |s| else n
  {
    if n == 0 || s == [] then Ok(([], s))
    else if s[0].Single? then Err(Format)
    else
      var (tail, rest) :- ReadBytes(s[1..], n - 1);
      Ok(([s[0].b] + tail, rest))
  }

  /** n consecutive words. */
  function ReadU32s(s: seq<Cell>, n: nat): (r: Result<(seq<u32>, seq<Cell>)>)
    ensures r.Ok? ==> |r.value.0| == n
  {
    if n == 0 then Ok(([], s))
    else
      var (x, rest) :- ReadU32(s);
      var (xs, rest') :- ReadU32s(rest, n - 1);
      Ok(([x] + xs, rest'))
  }

  function ReadU16s(s: seq<Cell>, n: nat): Result<(seq<u16>, seq<Cell>)>
  {
    if n == 0 then Ok(([], s))
    else
      var (x, rest) :- ReadU16(s);
      var (xs, rest') :- ReadU16s(rest, n - 1);
      Ok(([x] + xs, rest'))
  }

  function ReadF32s(s: seq<Cell>, n: nat): Result<(seq<real>, seq<Cell>)>
  {
    if n == 0 then Ok(([], s))
    else
      var (x, rest) :- ReadSingle(s);
      var (xs, rest') :- ReadF32s(rest, n - 1);
      Ok(([x] + xs, rest'))
  }

  // ---------------------------------------------------------------- round trips

  lemma {:induction false} LittleEndianRoundTrip(x: nat, n: nat, rest: seq<Cell>)
    requires x < Pow256(n)
    ensures ReadLittleEndian(LittleEndian(x, n) + rest, n) == Ok((x, rest))
  {
    if n > 0 {
      var s := LittleEndian(x, n) + rest;
      assert s[1..] == LittleEndian(x / 256, n - 1) + rest;
      LittleEndianRoundTrip(x / 256, n - 1, rest);
    }
  }

  lemma U16RoundTrip(x: u16, rest: seq<Cell>)
    ensures ReadU16(U16(x) + rest) == Ok((x, rest))
  {
    assert Pow256(1) == 256;
    LittleEndianRoundTrip(x, 2, rest);
  }

  // ------------------------------------------------- reads move forwards

  lemma ReadLittleEndianShrinks(s: seq<Cell>, n: nat)
    requires ReadLittleEndian(s, n).Ok?
    ensures ByteLength(ReadLittleEndian(s, n).value.1) <= ByteLength(s)
  {
    ByteLengthAppend(s[..n], ReadLittleEndian(s, n).value.1);
  }

  lemma {:induction false} ReadBytesShrinks(s: seq<Cell>, n: nat)
    requires ReadBytes(s, n).Ok?
    ensures ByteLength(ReadBytes(s, n).value.1) <= ByteLength(s)
  {
    if n > 0 && s != [] {
      ReadBytesShrinks(s[1..], n - 1);
    }
  }

  lemma {:induction false} ReadU32sShrinks(s: seq<Cell>, n: nat)
    requires ReadU32s(s, n).Ok?
    ensures ByteLength(ReadU32s(s, n).value.1) <= ByteLength(s)
  {
    if n > 0 {
      ReadLittleEndianShrinks(s, 4);
      ReadU32sShrinks(ReadU32(s).value.1, n - 1);
    }
  }

  lemma {:induction false} ReadF32sShrinks(s: seq<Cell>, n: nat)
    requires ReadF32s(s, n).Ok?
    ensures ByteLength(ReadF32s(s, n).value.1) <= ByteLength(s)
  {
    if n > 0 {
      ReadF32sShrinks(s[1..], n - 1);
    }
  }

  /** Seeking 4 p bytes into a run of words lands on word p. */
  lemma {:induction false} SeekIntoWords(ids: seq<u32>, rest: seq<Cell>, p: nat)
    requires p <= |ids|
    ensures Seek(U32s(ids) + rest, 4 * p) == Ok(U32s(ids[p..]) + rest)
  {
    var front, back := U32s(ids[..p]), U32s(ids[p..]) + rest;
    assert ids == ids[..p] + ids[p..];
    U32sAppend(ids[..p], ids[p..]);
    U32sByteLength(ids[..p]);
    assert U32s(ids) + rest == front + back;
    SeekAppend(front, back, 0);
  }

  /** Seeking 4 p bytes past a header into a run of words lands on word p. */
  lemma {:induction false} SeekWords(header: seq<Cell>, ids: seq<u32>, rest: seq<Cell>, p: nat)
    requires p <= |ids|
    ensures Seek(header + (U32s(ids) + rest), ByteLength(header) + 4 * p) == Ok(U32s(ids[p..]) + rest)
  {
    var run := U32s(ids) + rest;
    SeekAppend(header, run, 4 * p);
    SeekIntoWords(ids, rest, p);
    assert Seek(run, 4 * p) == Ok(U32s(ids[p..]) + rest);
  }

  /** The first n words of a run read back, and the reader stops at the next one. */
  lemma {:induction false} ReadWords(ids: seq<u32>, rest: seq<Cell>, n: nat)
    requires n <= |ids|
    ensures ReadU32s(U32s(ids) + rest, n) == Ok((ids[..n], U32s(ids[n..]) + rest))
  {
    var tail := U32s(ids[n..]) + rest;
    assert ids == ids[..n] + ids[n..];
    U32sAppend(ids[..n], ids[n..]);
    assert U32s(ids) + rest == U32s(ids[..n]) + tail;
    U32sRoundTrip(ids[..n], tail);
  }

  lemma U32RoundTrip(x: u32, rest: seq<Cell>)
    ensures ReadU32(U32(x) + rest) == Ok((x, rest))
  {
    assert Pow256(1) == 256 && Pow256(2) == 65536 && Pow256(3) == 16777216;
    LittleEndianRoundTrip(x, 4, rest);
  }

  lemma ByteRoundTrip(x: byte, rest: seq<Cell>)
    ensures ReadByte(LittleEndian(x, 1) + rest) == Ok((x, rest))
  {
    assert Pow256(1) == 256;
    LittleEndianRoundTrip(x, 1, rest);
  }

  lemma {:induction false} BytesRoundTrip(bs: seq<byte>, rest: seq<Cell>)
    ensures ReadBytes(Bytes(bs) + rest, |bs|) == Ok((bs, rest))
  {
    if bs != [] {
      var s := Bytes(bs) + rest;
      assert s[0] == Byte(bs[0]);
      assert s[1..] == Bytes(bs[1..]) + rest;
      BytesRoundTrip(bs[1..], rest);
      ReadBytesStep(s, |bs|);
      assert [bs[0]] + bs[1..] == bs;
    } else {
      assert Bytes(bs) + rest == rest;
    }
  }

  lemma ReadBytesStep(s: seq<Cell>, n: nat)
    requires n > 0 && s != [] && s[0].Byte? && ReadBytes(s[1..], n - 1).Ok?
    ensures ReadBytes(s, n) == Ok(([s[0].b] + ReadBytes(s[1..], n - 1).value.0, ReadBytes(s[1..], n - 1).value.1))
  {
  }

  lemma ReadU32sStep(s: seq<Cell>, n: nat)
    requires n > 0 && ReadU32(s).Ok?
    ensures ReadU32s(s, n) == Prepend([ReadU32(s).value.0], ReadU32s(ReadU32(s).value.1, n - 1))
  {
  }

  lemma ReadU16sStep(s: seq<Cell>, n: nat)
    requires n > 0 && ReadU16(s).Ok? && ReadU16s(ReadU16(s).value.1, n - 1).Ok?
    ensures ReadU16s(s, n) == Ok(([ReadU16(s).value.0] + ReadU16s(ReadU16(s).value.1, n - 1).value.0, ReadU16s(ReadU16(s).value.1, n - 1).value.1))
  {
  }

  lemma ReadF32sStep(s: seq<Cell>, n: nat)
    requires n > 0 && ReadSingle(s).Ok? && ReadF32s(ReadSingle(s).value.1, n - 1).Ok?
    ensures ReadF32s(s, n) == Ok(([ReadSingle(s).value.0] + ReadF32s(ReadSingle(s).value.1, n - 1).value.0, ReadF32s(ReadSingle(s).value.1, n - 1).value.1))
  {
  }

  lemma {:induction false} U32sRoundTrip(xs: seq<u32>, rest: seq<Cell>)
    ensures ReadU32s(U32s(xs) + rest, |xs|) == Ok((xs, rest))
  {
    if xs != [] {
      var tail := U32s(xs[1..]) + rest;
      assert U32s(xs) + rest == U32(xs[0]) + tail;
      U32RoundTrip(xs[0], tail);
      U32sRoundTrip(xs[1..], rest);
      ReadU32sStep(U32s(xs) + rest, |xs|);
      assert [xs[0]] + xs[1..] == xs;
    } else {
      assert U32s(xs) + rest == rest;
    }
  }

  lemma {:induction false} U16sRoundTrip(xs: seq<u16>, rest: seq<Cell>)
    ensures ReadU16s(U16s(xs) + rest, |xs|) == Ok((xs, rest))
  {
    if xs != [] {
      var tail := U16s(xs[1..]) + rest;
      assert U16s(xs) + rest == U16(xs[0]) + tail;
      U16RoundTrip(xs[0], tail);
      U16sRoundTrip(xs[1..], rest);
      ReadU16sStep(U16s(xs) + rest, |xs|);
      assert [xs[0]] + xs[1..] == xs;
    } else {
      assert U16s(xs) + rest == rest;
    }
  }

  lemma {:induction false} F32sRoundTrip(xs: seq<real>, rest: seq<Cell>)
    ensures ReadF32s(F32s(xs) + rest, |xs|) == Ok((xs, rest))
  {
    if xs != [] {
      var tail := F32s(xs[1..]) + rest;
      assert F32s(xs) + rest == [Single(xs[0])] + tail;
      F32sRoundTrip(xs[1..], rest);
      ReadF32sStep(F32s(xs) + rest, |xs|);
      assert [xs[0]] + xs[1..] == xs;
    } else {
      assert F32s(xs) + rest == rest;
    }
  }

  // ------------------------------------------------------ loops over a stream

  /** Writes the words one at a time, as the serialisers' for-loops do. */
  method WriteU32s(xs: seq<u32>) returns (out: seq<Cell>)
    ensures out == U32s(xs)
  {
    out := [];
    var i := 0;
    while i < |xs|
      invariant 0 <= i <= |xs|
      invariant out + U32s(xs[i..]) == U32s(xs)
    {
      assert xs[i..] == [xs[i]] + xs[i + 1..];
      out := out + U32(xs[i]);
      i := i + 1;
    }
  }

  /** Writes the floats one at a time. */
  method WriteF32s(xs: seq<real>) returns (out: seq<Cell>)
    ensures out == F32s(xs)
  {
    out := [];
    var i := 0;
    while i < |xs|
      invariant 0 <= i <= |xs|
      invariant |out| == i && forall k :: 0 <= k < i ==> out[k] == Single(xs[k])
    {
      out := out + F32(xs[i]);
      i := i + 1;
    }
    assert out == F32s(xs);
  }

  /** Writes the 16-bit words one at a time. */
  method WriteU16s(xs: seq<u16>) returns (out: seq<Cell>)
    ensures out == U16s(xs)
  {
    out := [];
    var i := 0;
    while i < |xs|
      invariant 0 <= i <= |xs|
      invariant out + U16s(xs[i..]) == U16s(xs)
    {
      assert xs[i..] == [xs[i]] + xs[i + 1..];
      out := out + U16(xs[i]);
      i := i + 1;
    }
  }

  /** Reads n words one at a time into a fresh array, as the deserialisers' for-loops do. */
  method ReadWordArray(s: seq<Cell>, n: nat) returns (r: Result<(seq<u32>, seq<Cell>)>)
    ensures r == ReadU32s(s, n)
  {
    var a := new u32[n];
    var rest := s;
    var i := 0;
    assert a[..0] == [];
    PrependAssoc([], [], ReadU32s(s, n));
    while i < n
      invariant 0 <= i <= n
      invariant ReadU32s(s, n) == Prepend(a[..i], ReadU32s(rest, n - i))
    {
      var w := ReadU32(rest);
      if w.Err? {
        return Err(w.error);
      }
      ghost var before := a[..i];
      ReadU32sStep(rest, n - i);
      a[i] := w.value.0;
      assert a[..i + 1] == before + [w.value.0];
      PrependAssoc(before, [w.value.0], ReadU32s(w.value.1, n - i - 1));
      rest := w.value.1;
      i := i + 1;
    }
    assert a[..n] + [] == a[..];
    return Ok((a[..], rest));
  }

  /** Reads n singles one at a time into a fresh array. */
  method ReadFloatArray(s: seq<Cell>, n: nat) returns (r: Result<(seq<real>, seq<Cell>)>)
    ensures r == ReadF32s(s, n)
  {
    var a := new real[n](_ => 0.0);
    var rest := s;
    assert a[..0] == [];
    PrependAssoc([], [], ReadF32s(s, n));
    for i := 0 to n
      invariant ReadF32s(s, n) == Prepend(a[..i], ReadF32s(rest, n - i))
    {
      var x := ReadSingle(rest);
      if x.Err? {
        return Err(x.error);
      }
      ghost var before := a[..i];
      a[i] := x.value.0;
      assert a[..i + 1] == before + [x.value.0];
      PrependAssoc(before, [x.value.0], ReadF32s(x.value.1, n - i - 1));
      rest := x.value.1;
    }
    assert a[..n] + [] == a[..];
    return Ok((a[..], rest));
  }

  lemma PrependAssoc<T>(a: seq<T>, b: seq<T>, r: Result<(seq<T>, seq<Cell>)>)
    ensures Prepend(a, Prepend(b, r)) == Prepend(a + b, r)
    ensures Prepend([], r) == r
  {
    if r.Ok? {
      assert a + (b + r.value.0) == (a + b) + r.value.0;
      assert [] + r.value.0 == r.value.0;
    }
  }

  /** The list in front of a successful read of the rest. */
  function Prepend<T>(xs: seq<T>, r: Result<(seq<T>, seq<Cell>)>): Result<(seq<T>, seq<Cell>)> {
    if r.Ok? then Ok((xs + r.value.0, r.value.1)) else r
  }
}
