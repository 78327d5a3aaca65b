/**
 * IntegerSignature (iqdb/IntegerSignature.cs): a bag of uint feature ids with
 * uniform weights, its text-line parser and its binary record
 *
 *   hash != null:  u32 0, the hash bytes        hash == null:  u32 ID
 *   then           u16 (ushort)count, count x u32 id
 *
 * The record layout up to the ids is shared with the Colour and RGB
 * signatures, which append their weights after it.
 */
module IntegerSignatures {
  import opened Wire
  import opened Text
  import opened Signatures

  // ---------------------------------------------------------------- sorting

  predicate Ascending(xs: seq<u32>) {
    forall i, j :: 0 <= i < j < |xs| ==> xs[i] <= xs[j]
  }

  /** x put in front of the first element of xs not below it. */
  function Insert(x: u32, xs: seq<u32>): (r: seq<u32>)
    requires Ascending(xs)
    ensures Ascending(r) && multiset(r) == multiset(xs) + multiset{x}
    ensures |r| == |xs| + 1
  {
    if xs == [] || x <= xs[0] then [x] + xs
    else
      var rest := Insert(x, xs[1..]);
      assert xs == [xs[0]] + xs[1..];
      LowerBoundKept(xs[0], x, xs[1..], rest);
      [xs[0]] + rest
  }

  lemma LowerBoundKept(low: u32, x: u32, xs: seq<u32>, r: seq<u32>)
    requires low <= x && forall k :: 0 <= k < |xs| ==> low <= xs[k]
    requires multiset(r) == multiset(xs) + multiset{x}
    ensures forall k :: 0 <= k < |r| ==> low <= r[k]
  {
    forall k | 0 <= k < |r|
      ensures low <= r[k]
    {
      assert r[k] in multiset(r);
      assert r[k] == x || r[k] in multiset(xs);
    }
  }

  /**
   * Array.Sort on uint keys: the ascending rearrangement of the input. Equal
   * uints are indistinguishable, so the library's unstable order does not matter.
   */
  function SortAscending(xs: seq<u32>): (r: seq<u32>)
    ensures Ascending(r) && multiset(r) == multiset(xs) && |r| == |xs|
  {
    if xs == [] then []
    else
      assert xs == [xs[0]] + xs[1..];
      Insert(xs[0], SortAscending(xs[1..]))
  }

  // ------------------------------------------------------------ line parser

  /** The separators of the text-line constructor: tab, comma and both braces. */
  const LINE_SEPARATORS: set<char> := {'\t', ',', '{', '}'}

  /** UInt32.Parse of every token in turn; the first failure is the exception raised. */
  function ParseAll(tokens: seq<string>): (r: Result<seq<u32>>)
    ensures r.Ok? ==> |r.value| == |tokens|
  {
    if tokens == [] then Ok([])
    else
      var x :- ParseUInt32(tokens[0]);
      var xs :- ParseAll(tokens[1..]);
      Ok([x] + xs)
  }

  /**
   * IntegerSignature(string line): the tokens are split off first; with no
   * token at all `new uint[-1]` raises an OverflowException. The features are
   * parsed before the hash is set, and sorted last.
   */
  function ParseLine(line: string): Result<SigValue>
  {
    var d := Split(line, LINE_SEPARATORS);
    if |d| == 0 then Err(Overflow)
    else
      var features :- ParseAll(d[1..]);
      var hash :- HashOf(Some(d[0]));
      Ok(SigValue(0, Some(hash), SortAscending(features), IntegerKind))
  }

  /**
   * What the line constructor builds: token 0 is the hash, the other tokens
   * are the features, exactly tokens-1 of them, sorted ascending; the tokens
   * are the separator-free, nonempty runs of the line.
   */
  lemma LineSignature(line: string)
    requires ParseLine(line).Ok?
    ensures var d := Split(line, LINE_SEPARATORS);
      var v := ParseLine(line).value;
      |d| >= 1 &&
      v.id == 0 && v.kind == IntegerKind &&
      v.hash == Some(HashOf(Some(d[0])).value) &&
      |v.sigData| == |d| - 1 && Ascending(v.sigData) &&
      multiset(v.sigData) == multiset(ParseAll(d[1..]).value) &&
      (forall k :: 0 <= k < |d| ==> IsToken(d[k], LINE_SEPARATORS))
  {
    SplitTokens(line, LINE_SEPARATORS);
  }

  lemma ParseAllStep(tokens: seq<string>)
    requires tokens != []
    ensures ParseUInt32(tokens[0]).Err? ==> ParseAll(tokens) == Err(ParseUInt32(tokens[0]).error)
    ensures ParseUInt32(tokens[0]).Ok? ==>
      ParseAll(tokens) == PrependWords([ParseUInt32(tokens[0]).value], ParseAll(tokens[1..]))
  {
  }

  lemma PrependWordsAssoc(a: seq<u32>, b: seq<u32>, r: Result<seq<u32>>)
    ensures PrependWords(a, PrependWords(b, r)) == PrependWords(a + b, r)
    ensures PrependWords([], r) == r
  {
    if r.Ok? {
      assert a + (b + r.value) == (a + b) + r.value;
      assert [] + r.value == r.value;
    }
  }

  /** One more token parsed: its failure is the whole parse's, its value joins the parsed prefix. */
  lemma ParseOneMore(tokens: seq<string>, i: nat, done: seq<u32>)
    requires i < |tokens|
    ensures ParseUInt32(tokens[i]).Err? ==> PrependWords(done, ParseAll(tokens[i..])) == Err(ParseUInt32(tokens[i]).error)
    ensures ParseUInt32(tokens[i]).Ok? ==>
      PrependWords(done, ParseAll(tokens[i..])) == PrependWords(done + [ParseUInt32(tokens[i]).value], ParseAll(tokens[i + 1..]))
  {
    ParseAllStep(tokens[i..]);
    assert tokens[i..][0] == tokens[i] && tokens[i..][1..] == tokens[i + 1..];
    if ParseUInt32(tokens[i]).Ok? {
      PrependWordsAssoc(done, [ParseUInt32(tokens[i]).value], ParseAll(tokens[i + 1..]));
    }
  }

  /** The parsing loop of the line constructor: UInt32.Parse of each token into a fresh array. */
  method ParseFeatures(tokens: seq<string>) returns (r: Result<seq<u32>>)
    ensures r == ParseAll(tokens)
  {
    var features := new u32[|tokens|];
    var i := 0;
    PrependWordsAssoc([], [], ParseAll(tokens));
    assert features[..0] == [] && tokens[0..] == tokens;
    while i < |tokens|
      invariant 0 <= i <= |tokens|
      invariant ParseAll(tokens) == PrependWords(features[..i], ParseAll(tokens[i..]))
    {
      var x := ParseUInt32(tokens[i]);
      ParseOneMore(tokens, i, features[..i]);
      if x.Err? {
        return Err(x.error);
      }
      ghost var done := features[..i];
      features[i] := x.value;
      assert features[..i + 1] == done + [x.value];
      i := i + 1;
    }
    assert features[..i] + [] == features[..];
    return Ok(features[..]);
  }

  /** The line constructor, as the source runs it: parse the tokens, set the hash, sort. */
  method FromLine(line: string) returns (r: Result<Signature>)
    ensures r.Ok? <==> ParseLine(line).Ok?
    ensures r.Err? ==> ParseLine(line) == Err(r.error)
    ensures r.Ok? ==> fresh(r.value) && r.value.Value() == ParseLine(line).value
  {
    var d := Split(line, LINE_SEPARATORS);
    if |d| == 0 {
      return Err(Overflow);
    }
    var features := ParseFeatures(d[1..]);
    if features.Err? {
      return Err(features.error);
    }
    var sig := new Signature.Of(SigValue(0, None, [], IntegerKind));
    var setHash := sig.SetHash(Some(d[0]));
    if setHash.Err? {
      return Err(setHash.error);
    }
    sig.sigData := SortAscending(features.value);
    return Ok(sig);
  }

  function PrependWords(xs: seq<u32>, r: Result<seq<u32>>): Result<seq<u32>> {
    if r.Ok? then Ok(xs + r.value) else r
  }

  /** IntegerSignature(md5, features): the hash is set and the features are kept as given, unsorted. */
  method FromFeatures(md5: Option<string>, features: seq<u32>) returns (r: Result<Signature>)
    ensures r.Ok? <==> HashOf(md5).Ok?
    ensures r.Err? ==> r.error == HashOf(md5).error
    ensures r.Ok? ==> fresh(r.value) && r.value.Value() == SigValue(0, Some(HashOf(md5).value), features, IntegerKind)
  {
    var sig := new Signature.Of(SigValue(0, None, [], IntegerKind));
    var setHash := sig.SetHash(md5);
    if setHash.Err? {
      return Err(setHash.error);
    }
    sig.sigData := features;
    return Ok(sig);
  }

  // ----------------------------------------------------------------- codec

  /** The record head: u32 0 and the hash bytes, or the ID when there is no hash. */
  function EncodeHeader(v: SigValue): seq<Cell> {
    if v.hash.Some? then U32(0) + Bytes(v.hash.value) else U32(v.id)
  }

  /** The id block: the count truncated to ushort, then every id. */
  function EncodeIds(ids: seq<u32>): seq<Cell> {
    U16(|ids| % 0x1_0000) + U32s(ids)
  }

  /** IntegerSignature.Serialize. */
  function EncodeInteger(v: SigValue): seq<Cell> {
    EncodeHeader(v) + EncodeIds(v.sigData)
  }

  /**
   * The record head read back: a zero ID is followed by (up to) 16 hash bytes;
   * a nonzero ID stands alone and the hash becomes 16 zero bytes.
   */
  function DecodeHeader(s: seq<Cell>): Result<(u32, seq<byte>, seq<Cell>)> {
    var (id, rest) :- ReadU32(s);
    if id == 0 then
      var (hash, rest') :- ReadBytes(rest, HASH_BYTES);
      Ok((id, hash, rest'))
    else Ok((id, ZeroHash(), rest))
  }

  function DecodeIds(s: seq<Cell>): Result<(seq<u32>, seq<Cell>)> {
    var (n, rest) :- ReadU16(s);
    ReadU32s(rest, n)
  }

  /** IntegerSignature.Deserialize. */
  function DecodeInteger(s: seq<Cell>): Result<(SigValue, seq<Cell>)> {
    var (id, hash, rest) :- DecodeHeader(s);
    var (ids, rest') :- DecodeIds(rest);
    Ok((SigValue(id, Some(hash), ids, IntegerKind), rest'))
  }

  lemma HeaderRoundTrip(v: SigValue, rest: seq<Cell>)
    requires v.hash.Some? ==> |v.hash.value| == HASH_BYTES
    requires v.hash.None? ==> v.id != 0
    ensures DecodeHeader(EncodeHeader(v) + rest) ==
      if v.hash.Some? then Ok((0, v.hash.value, rest)) else Ok((v.id, ZeroHash(), rest))
  {
    if v.hash.Some? {
      assert EncodeHeader(v) + rest == U32(0) + (Bytes(v.hash.value) + rest);
      U32RoundTrip(0, Bytes(v.hash.value) + rest);
      BytesRoundTrip(v.hash.value, rest);
    } else {
      U32RoundTrip(v.id, rest);
    }
  }

  lemma IdsRoundTrip(ids: seq<u32>, rest: seq<Cell>)
    requires |ids| < 0x1_0000
    ensures DecodeIds(EncodeIds(ids) + rest) == Ok((ids, rest))
  {
    assert EncodeIds(ids) + rest == U16(|ids|) + (U32s(ids) + rest);
    U16RoundTrip(|ids|, U32s(ids) + rest);
    U32sRoundTrip(ids, rest);
  }

  /**
   * Serialize then Deserialize: with a 16-byte hash the record comes back with
   * ID 0 and the same hash and ids; without a hash a nonzero ID comes back and
   * the hash becomes 16 zero bytes.
   */
  lemma IntegerRoundTrip(v: SigValue, rest: seq<Cell>)
    requires v.kind == IntegerKind && |v.sigData| < 0x1_0000
    requires v.hash.Some? ==> |v.hash.value| == HASH_BYTES
    requires v.hash.None? ==> v.id != 0
    ensures DecodeInteger(EncodeInteger(v) + rest) ==
      if v.hash.Some? then Ok((v.(id := 0), rest)) else Ok((v.(hash := Some(ZeroHash())), rest))
  {
    assert EncodeInteger(v) + rest == EncodeHeader(v) + (EncodeIds(v.sigData) + rest);
    HeaderRoundTrip(v, EncodeIds(v.sigData) + rest);
    IdsRoundTrip(v.sigData, rest);
  }

  /** IntegerSignature.Serialize, one write per id. */
  method Serialize(sig: Signature) returns (out: seq<Cell>)
    ensures out == EncodeInteger(sig.Value())
  {
    if sig.hash.Some? {
      out := U32(0) + Bytes(sig.hash.value);
    } else {
      out := U32(sig.id);
    }
    out := out + U16(|sig.sigData| % 0x1_0000);
    var ids := WriteU32s(sig.sigData);
    out := out + ids;
  }

  /**
   * IntegerSignature.Deserialize into an existing object: ID, hash and SigData
   * are replaced by the record's. What an exception leaves behind is not stated.
   */
  method Deserialize(sig: Signature, s: seq<Cell>) returns (r: Result<seq<Cell>>)
    modifies sig
    ensures r.Ok? <==> DecodeInteger(s).Ok?
    ensures r.Err? ==> r.error == DecodeInteger(s).error
    ensures r.Ok? ==> r.value == DecodeInteger(s).value.1
    ensures r.Ok? ==> sig.Value() == DecodeInteger(s).value.0.(kind := old(sig.kind))
  {
    var head := DecodeHeader(s);
    if head.Err? {
      return Err(head.error);
    }
    var (id, hash, rest) := head.value;
    sig.id := id;
    sig.hash := Some(hash);
    var n := ReadU16(rest);
    if n.Err? {
      return Err(n.error);
    }
    var ids := ReadWordArray(n.value.1, n.value.0);
    if ids.Err? {
      return Err(ids.error);
    }
    sig.sigData := ids.value.0;
    return Ok(ids.value.1);
  }
}
