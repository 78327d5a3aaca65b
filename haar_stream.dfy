/**
 * A file of serialised Haar signatures (.hsigs), as the command-line tools
 * read it: `new HaarSignature(reader)` while the reader's position is short
 * of the stream's length. Records read back this way can be written again
 * with HaarSignature.Serialize and read back unchanged, but for the ID.
 */
module HaarStream {
  import opened Wire
  import opened Signatures
  import IntegerSignatures
  import HaarSignatures

  /** What Serialize writes out so that Deserialize gives it back: a 16-byte hash, one or three averages, fewer than 65,536 ids. */
  predicate Storable(v: SigValue) {
    v.kind.HaarKind? && v.hash.Some? && |v.hash.value| == HASH_BYTES &&
    (|v.kind.averages| == 1 || |v.kind.averages| == 3) && |v.sigData| < 0x1_0000
  }

  /** A short read of bytes only happens at the end of the stream. */
  lemma {:induction false} ShortReadAtEnd(s: seq<Cell>, n: nat)
    requires ReadBytes(s, n).Ok? && |ReadBytes(s, n).value.0| < n
    ensures ReadBytes(s, n).value.1 == []
  {
    if n > 0 && s != [] {
      ShortReadAtEnd(s[1..], n - 1);
    }
  }

  lemma {:induction false} ReadF32sLength(s: seq<Cell>, n: nat)
    requires ReadF32s(s, n).Ok?
    ensures |ReadF32s(s, n).value.0| == n
  {
    if n > 0 {
      ReadF32sLength(s[1..], n - 1);
    }
  }

  /**
   * A Haar record read back is storable as it stands, and is read from the
   * front of the stream.
   */
  lemma DecodedHaar(s: seq<Cell>)
    requires HaarSignatures.DecodeHaar(s).Ok?
    ensures Storable(HaarSignatures.DecodeHaar(s).value.0)
    ensures ByteLength(HaarSignatures.DecodeHaar(s).value.1) < ByteLength(s)
  {
    var (id, rest1) := ReadU32(s).value;
    ByteLengthAppend(s[..4], rest1);
    var (_, hash, rest2) := IntegerSignatures.DecodeHeader(s).value;
    if id == 0 {
      ReadBytesShrinks(rest1, HASH_BYTES);
      if |hash| < HASH_BYTES {
        ShortReadAtEnd(rest1, HASH_BYTES);
      }
    }
    var (avglc, rest3) := ReadByte(rest2).value;
    ReadLittleEndianShrinks(rest2, 1);
    ReadF32sShrinks(rest3, avglc);
    ReadF32sLength(rest3, avglc);
    var rest4 := HaarSignatures.DecodeAverages(rest2).value.1;
    var (n, rest5) := ReadU16(rest4).value;
    ReadLittleEndianShrinks(rest4, 2);
    ReadU32sShrinks(rest5, n);
  }

  /** The signatures of a file: records are read until the end of the stream; the first that fails is the exception raised. */
  function Records(s: seq<Cell>): Result<seq<SigValue>>
    decreases ByteLength(s)
  {
    if s == [] then Ok([])
    else
      var (v, rest) :- HaarSignatures.DecodeHaar(s);
      DecodedHaar(s);
      var vs :- Records(rest);
      Ok([v] + vs)
  }

  /** The signatures read before the end of the stream or before the first record that fails, where the reading loop breaks off. */
  function Readable(s: seq<Cell>): seq<SigValue>
    decreases ByteLength(s)
  {
    if s == [] then []
    else
      match HaarSignatures.DecodeHaar(s)
      case Err(_) => []
      case Ok((v, rest)) =>
        DecodedHaar(s);
        [v] + Readable(rest)
  }

  /** A file that reads to its end yields the same records whether a failure breaks off the loop or raises. */
  lemma {:induction false} ReadableRecords(s: seq<Cell>)
    requires Records(s).Ok?
    ensures Readable(s) == Records(s).value
    ensures forall k :: 0 <= k < |Readable(s)| ==> Storable(Readable(s)[k])
    decreases ByteLength(s)
  {
    if s != [] {
      var (v, rest) := HaarSignatures.DecodeHaar(s).value;
      DecodedHaar(s);
      ReadableRecords(rest);
      assert Readable(s) == [v] + Readable(rest);
    }
  }

  /** Every record that can be read is storable. */
  lemma {:induction false} ReadableStorable(s: seq<Cell>)
    ensures forall k :: 0 <= k < |Readable(s)| ==> Storable(Readable(s)[k])
    decreases ByteLength(s)
  {
    if s != [] && HaarSignatures.DecodeHaar(s).Ok? {
      var (v, rest) := HaarSignatures.DecodeHaar(s).value;
      DecodedHaar(s);
      ReadableStorable(rest);
      assert Readable(s) == [v] + Readable(rest);
    }
  }

  /** The first record read, then the rest of the file. */
  lemma RecordsStep(s: seq<Cell>, v: SigValue, rest: seq<Cell>)
    requires s != [] && HaarSignatures.DecodeHaar(s) == Ok((v, rest)) && Records(rest).Ok?
    ensures Records(s) == Ok([v] + Records(rest).value)
  {
  }

  /** The records already read in front of what the rest of the stream gives. */
  function After(got: seq<SigValue>, r: Result<seq<SigValue>>): Result<seq<SigValue>> {
    match r
    case Ok(vs) => Ok(got + vs)
    case Err(e) => Err(e)
  }

  /** One record read by the loop: it comes first, or its failure is the file's. */
  lemma RecordsNext(s: seq<Cell>)
    requires s != []
    ensures HaarSignatures.DecodeHaar(s).Err? ==> Records(s) == Err(HaarSignatures.DecodeHaar(s).error)
    ensures HaarSignatures.DecodeHaar(s).Ok? ==>
      Records(s) == After([HaarSignatures.DecodeHaar(s).value.0], Records(HaarSignatures.DecodeHaar(s).value.1))
  {
  }

  lemma AfterAfter(got: seq<SigValue>, v: SigValue, r: Result<seq<SigValue>>)
    ensures After(got, After([v], r)) == After(got + [v], r)
  {
    if r.Ok? {
      assert got + ([v] + r.value) == (got + [v]) + r.value;
    }
  }

  /** The file HaarSignature.Serialize writes for the signatures in turn. */
  function EncodeHaars(vs: seq<SigValue>): (s: seq<Cell>)
    requires forall k :: 0 <= k < |vs| ==> vs[k].kind.HaarKind?
  {
    if vs == [] then []
    else
      assert vs[0].kind.HaarKind?;
      HaarSignatures.EncodeHaar(vs[0]) + EncodeHaars(vs[1..])
  }

  lemma {:induction false} EncodeHaarsAppend(a: seq<SigValue>, b: seq<SigValue>)
    requires forall k :: 0 <= k < |a| ==> a[k].kind.HaarKind?
    requires forall k :: 0 <= k < |b| ==> b[k].kind.HaarKind?
    ensures EncodeHaars(a + b) == EncodeHaars(a) + EncodeHaars(b)
  {
    if a == [] {
      assert a + b == b;
    } else {
      assert (a + b)[0] == a[0] && (a + b)[1..] == a[1..] + b;
      EncodeHaarsAppend(a[1..], b);
    }
  }

  /** The signatures as they read back: a stored hash makes the ID read back as 0. */
  function Reread(vs: seq<SigValue>): (rs: seq<SigValue>)
    ensures |rs| == |vs| && forall k :: 0 <= k < |vs| ==> rs[k] == vs[k].(id := 0)
  {
    seq(|vs|, k requires 0 <= k < |vs| => vs[k].(id := 0))
  }

  lemma RereadCons(vs: seq<SigValue>)
    requires vs != []
    ensures Reread(vs) == [vs[0].(id := 0)] + Reread(vs[1..])
  {
    var a, b := Reread(vs), [vs[0].(id := 0)] + Reread(vs[1..]);
    assert |a| == |b|;
    forall k | 0 <= k < |a|
      ensures a[k] == b[k]
    {
      if k > 0 {
        assert b[k] == Reread(vs[1..])[k - 1] == vs[1..][k - 1].(id := 0);
      }
    }
  }

  /** Writing storable signatures and reading the file back gives them all, in order, with ID 0. */
  lemma {:induction false} HaarsRoundTrip(vs: seq<SigValue>)
    requires forall k :: 0 <= k < |vs| ==> vs[k].kind.HaarKind? && Storable(vs[k])
    ensures Records(EncodeHaars(vs)) == Ok(Reread(vs))
  {
    if vs != [] {
      var v, tail := vs[0], vs[1..];
      assert Storable(v);
      assert forall k :: 0 <= k < |tail| ==> tail[k] == vs[k + 1] && Storable(tail[k]);
      HaarsRoundTrip(tail);
      var s := HaarSignatures.EncodeHaar(v) + EncodeHaars(tail);
      assert EncodeHaars(vs) == s;
      HaarSignatures.HaarRoundTrip(v, EncodeHaars(tail));
      assert |IntegerSignatures.EncodeHeader(v)| >= 4;
      RecordsStep(s, v.(id := 0), EncodeHaars(tail));
      RereadCons(vs);
    }
  }
}
