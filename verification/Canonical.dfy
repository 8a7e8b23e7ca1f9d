/**
 The canonical manifest encoding (writeCanonical in internal/snapshot/model.go)
 and a decoder that inverts it on every accepted manifest.
 */
module Canonical {
  import opened Text
  import opened Manifest

  const MAXIMUM_MANIFEST_BYTES := 819200

  // ---- fields ----

  function Power(n: nat): (p: nat)
    ensures p > 0
  {
    if n == 0 then 1 else 256 * Power(n - 1)
  }

  /** `binary.BigEndian` in `width` bytes; higher bits are dropped, as a uint conversion does. */
  function BigEndian(n: nat, width: nat): (b: seq<Byte>)
    ensures |b| == width
  {
    if width == 0 then [] else BigEndian(n / 256, width - 1) + [n % 256]
  }

  function FromBigEndian(b: seq<Byte>): nat {
    if b == [] then 0 else 256 * FromBigEndian(b[..|b| - 1]) + b[|b| - 1]
  }

  lemma {:induction false} FieldRoundTrip(n: nat, width: nat)
    requires n < Power(width)
    ensures FromBigEndian(BigEndian(n, width)) == n
  {
    if width == 0 {
    } else {
      FieldRoundTrip(n / 256, width - 1);
      assert BigEndian(n, width)[..width - 1] == BigEndian(n / 256, width - 1);
    }
  }

  lemma Powers()
    ensures Power(4) == 0x1_0000_0000 && Power(8) == 0x1_0000_0000_0000_0000
  {
    assert Power(2) == 65536;
    assert Power(6) == 0x1_0000_0000_0000;
  }

  function Nibble(b: Byte): nat
    requires HexDigit(b)
  {
    if b <= 57 then b - 48 else b - 87
  }

  function HexChar(n: nat): Byte
    requires n < 16
  {
    if n < 10 then n + 48 else n + 87
  }

  predicate Hex(d: seq<Byte>) { |d| % 2 == 0 && forall i :: 0 <= i < |d| ==> HexDigit(d[i]) }

  /** `hex.DecodeString`. */
  function HexDecode(d: seq<Byte>): (b: seq<Byte>)
    requires Hex(d)
    ensures 2 * |b| == |d|
    decreases |d|
  {
    if d == [] then [] else [16 * Nibble(d[0]) + Nibble(d[1])] + HexDecode(d[2..])
  }

  function HexEncode(b: seq<Byte>): (d: seq<Byte>)
    ensures |d| == 2 * |b|
  {
    if b == [] then [] else [HexChar(b[0] / 16), HexChar(b[0] % 16)] + HexEncode(b[1..])
  }

  lemma {:induction false} HexRoundTrip(d: seq<Byte>)
    requires Hex(d)
    ensures HexEncode(HexDecode(d)) == d
    decreases |d|
  {
    if d == [] {
    } else {
      HexRoundTrip(d[2..]);
      var b := HexDecode(d);
      assert b[1..] == HexDecode(d[2..]);
      assert d == [d[0], d[1]] + d[2..];
    }
  }

  // ---- the encoding ----

  function EncodeChunk(c: Chunk): seq<Byte>
    requires ValidDigest(c.digest)
  {
    HexDecode(c.digest) + BigEndian(c.size, 4)
  }

  predicate Digested(chunks: seq<Chunk>) {
    forall i :: 0 <= i < |chunks| ==> ValidDigest(chunks[i].digest)
  }

  /** Encodings one after the other. */
  function Flat(pieces: seq<seq<Byte>>): seq<Byte> {
    if pieces == [] then [] else pieces[0] + Flat(pieces[1..])
  }

  function ChunkPieces(chunks: seq<Chunk>): (pieces: seq<seq<Byte>>)
    requires Digested(chunks)
    ensures |pieces| == |chunks| && forall i :: 0 <= i < |chunks| ==> pieces[i] == EncodeChunk(chunks[i])
  {
    seq(|chunks|, i requires 0 <= i < |chunks| => EncodeChunk(chunks[i]))
  }

  predicate Encodable(f: File) { f.size >= 0 && Digested(f.chunks) }

  function EncodeFile(f: File): seq<Byte>
    requires Encodable(f)
  {
    BigEndian(|f.path|, 4) + f.path + BigEndian(f.mode, 4) + BigEndian(f.size, 8) +
    BigEndian(|f.chunks|, 4) + Flat(ChunkPieces(f.chunks))
  }

  predicate AllEncodable(files: seq<File>) {
    forall i :: 0 <= i < |files| ==> Encodable(files[i])
  }

  function FilePieces(files: seq<File>): (pieces: seq<seq<Byte>>)
    requires AllEncodable(files)
    ensures |pieces| == |files| && forall i :: 0 <= i < |files| ==> pieces[i] == EncodeFile(files[i])
  {
    seq(|files|, i requires 0 <= i < |files| => EncodeFile(files[i]))
  }

  function Encode(m: Manifest): seq<Byte>
    requires AllEncodable(m.files) && m.totalBytes >= 0
  {
    BigEndian(m.version, 4) + BigEndian(|m.files|, 4) + Flat(FilePieces(m.files)) + BigEndian(m.totalBytes, 8)
  }

  /** One more piece is written. */
  lemma Written(buffer: seq<Byte>, pieces: seq<seq<Byte>>, i: nat)
    requires i < |pieces|
    ensures buffer + Flat(pieces[i..]) == (buffer + pieces[i]) + Flat(pieces[i + 1..])
  {
    assert pieces[i..][0] == pieces[i] && pieces[i..][1..] == pieces[i + 1..];
    Regroup(buffer, pieces[i], Flat(pieces[i + 1..]));
  }

  lemma AllWritten(buffer: seq<Byte>, pieces: seq<seq<Byte>>)
    ensures buffer + Flat(pieces[|pieces|..]) == buffer && pieces[0..] == pieces
  {
    assert pieces[|pieces|..] == [];
  }

  /** `writeCanonical`, appending field by field. */
  method WriteCanonical(m: Manifest) returns (buffer: seq<Byte>)
    requires AllEncodable(m.files) && m.totalBytes >= 0
    ensures buffer == Encode(m)
  {
    buffer := BigEndian(m.version, 4) + BigEndian(|m.files|, 4);
    ghost var head, pieces := buffer, FilePieces(m.files);
    AllWritten(buffer, pieces);
    for i := 0 to |m.files|
      invariant buffer + Flat(pieces[i..]) == head + Flat(pieces)
    {
      Written(buffer, pieces, i);
      var encoded := WriteFile(m.files[i]);
      buffer := buffer + encoded;
    }
    AllWritten(buffer, pieces);
    buffer := buffer + BigEndian(m.totalBytes, 8);
  }

  method WriteFile(f: File) returns (buffer: seq<Byte>)
    requires Encodable(f)
    ensures buffer == EncodeFile(f)
  {
    buffer := BigEndian(|f.path|, 4) + f.path + BigEndian(f.mode, 4) + BigEndian(f.size, 8) + BigEndian(|f.chunks|, 4);
    ghost var head, pieces := buffer, ChunkPieces(f.chunks);
    AllWritten(buffer, pieces);
    for i := 0 to |f.chunks|
      invariant buffer + Flat(pieces[i..]) == head + Flat(pieces)
    {
      Written(buffer, pieces, i);
      buffer := buffer + (HexDecode(f.chunks[i].digest) + BigEndian(f.chunks[i].size, 4));
    }
    AllWritten(buffer, pieces);
  }

  // ---- the decoder ----

  datatype Parsed<+T> = Bad | Good(value: T, rest: seq<Byte>)

  function TakeField(s: seq<Byte>, width: nat): Parsed<nat> {
    if |s| < width then Bad else Good(FromBigEndian(s[..width]), s[width..])
  }

  function TakeBytes(s: seq<Byte>, n: nat): Parsed<seq<Byte>> {
    if |s| < n then Bad else Good(s[..n], s[n..])
  }

  function DecodeChunk(s: seq<Byte>): Parsed<Chunk> {
    match TakeBytes(s, 32)
    case Bad => Bad
    case Good(digest, s1) =>
      match TakeField(s1, 4)
      case Bad => Bad
      case Good(size, s2) => Good(Chunk(HexEncode(digest), size), s2)
  }

  /** `n` items one after the other. */
  function DecodeList<T>(item: seq<Byte> -> Parsed<T>, s: seq<Byte>, n: nat): Parsed<seq<T>>
    decreases n
  {
    if n == 0 then Good([], s)
    else
      match item(s)
      case Bad => Bad
      case Good(x, s1) =>
        match DecodeList(item, s1, n - 1)
        case Bad => Bad
        case Good(xs, s2) => Good([x] + xs, s2)
  }

  function DecodeFile(s: seq<Byte>): Parsed<File> {
    match TakeField(s, 4)
    case Bad => Bad
    case Good(pathLength, s1) =>
      match TakeBytes(s1, pathLength)
      case Bad => Bad
      case Good(path, s2) =>
        match TakeField(s2, 4)
        case Bad => Bad
        case Good(mode, s3) =>
          match TakeField(s3, 8)
          case Bad => Bad
          case Good(size, s4) =>
            match TakeField(s4, 4)
            case Bad => Bad
            case Good(count, s5) =>
              match DecodeList(DecodeChunk, s5, count)
              case Bad => Bad
              case Good(chunks, s6) => Good(File(path, mode, size, chunks), s6)
  }

  /** The whole input must be used up. */
  function Decode(s: seq<Byte>): Option<Manifest> {
    match TakeField(s, 4)
    case Bad => None
    case Good(version, s1) =>
      match TakeField(s1, 4)
      case Bad => None
      case Good(count, s2) =>
        match DecodeList(DecodeFile, s2, count)
        case Bad => None
        case Good(files, s3) =>
          match TakeField(s3, 8)
          case Bad => None
          case Good(total, s4) => if s4 == [] then Some(Manifest(version, files, total)) else None
  }

  // ---- left inverse ----

  lemma FieldThen(n: nat, width: nat, rest: seq<Byte>)
    requires n < Power(width)
    ensures TakeField(BigEndian(n, width) + rest, width) == Good(n, rest)
  {
    var b := BigEndian(n, width);
    FieldRoundTrip(n, width);
    assert (b + rest)[..width] == b && (b + rest)[width..] == rest;
  }

  lemma BytesThen(b: seq<Byte>, rest: seq<Byte>)
    ensures TakeBytes(b + rest, |b|) == Good(b, rest)
  {
    assert (b + rest)[..|b|] == b && (b + rest)[|b|..] == rest;
  }

  lemma ChunkThen(c: Chunk, rest: seq<Byte>)
    requires ValidChunk(c)
    ensures DecodeChunk(EncodeChunk(c) + rest) == Good(c, rest)
  {
    var d, z := HexDecode(c.digest), BigEndian(c.size, 4);
    assert EncodeChunk(c) + rest == d + (z + rest);
    BytesThen(d, z + rest);
    Powers();
    FieldThen(c.size, 4, rest);
    HexRoundTrip(c.digest);
  }

  /** A list decodes when each of its items does, whatever follows it. */
  lemma {:induction false} ListThen<T(!new)>(
    item: seq<Byte> -> Parsed<T>, xs: seq<T>, pieces: seq<seq<Byte>>, rest: seq<Byte>)
    requires |pieces| == |xs|
    requires forall i, r {:trigger item(pieces[i] + r)} :: 0 <= i < |xs| ==> item(pieces[i] + r) == Good(xs[i], r)
    ensures DecodeList(item, Flat(pieces) + rest, |xs|) == Good(xs, rest)
    decreases |xs|
  {
    if xs == [] {
      assert Flat(pieces) + rest == rest;
    } else {
      var more, tail := pieces[1..], xs[1..];
      forall i, r {:trigger item(more[i] + r)} | 0 <= i < |tail|
        ensures item(more[i] + r) == Good(tail[i], r)
      {
        assert item(pieces[i + 1] + r) == Good(xs[i + 1], r);
      }
      ListThen(item, tail, more, rest);
      Regroup(pieces[0], Flat(more), rest);
      assert item(pieces[0] + (Flat(more) + rest)) == Good(xs[0], Flat(more) + rest);
      assert xs == [xs[0]] + tail;
    }
  }

  lemma ChunksThen(cs: seq<Chunk>, rest: seq<Byte>)
    requires Digested(cs) && forall i :: 0 <= i < |cs| ==> ValidChunk(cs[i])
    ensures DecodeList(DecodeChunk, Flat(ChunkPieces(cs)) + rest, |cs|) == Good(cs, rest)
  {
    var pieces := ChunkPieces(cs);
    forall i, r | 0 <= i < |cs| ensures DecodeChunk(pieces[i] + r) == Good(cs[i], r) {
      ChunkThen(cs[i], r);
    }
    ListThen(DecodeChunk, cs, pieces, rest);
  }

  /** The ranges that acceptance guarantees, which is all the round trip needs. */
  predicate InRange(f: File) {
    |f.path| <= MAXIMUM_PATH_BYTES && f.mode < 1000 && 0 <= f.size <= MAXIMUM_SNAPSHOT_BYTES &&
    |f.chunks| <= MAXIMUM_CHUNKS && forall i :: 0 <= i < |f.chunks| ==> ValidChunk(f.chunks[i])
  }

  /** A file decodes when each of its fields does, one after the other. */
  lemma DecodeFields(
    s: seq<Byte>, f: File, s1: seq<Byte>, s2: seq<Byte>, s3: seq<Byte>, s4: seq<Byte>, s5: seq<Byte>,
    rest: seq<Byte>)
    requires TakeField(s, 4) == Good(|f.path|, s1) && TakeBytes(s1, |f.path|) == Good(f.path, s2)
    requires TakeField(s2, 4) == Good(f.mode, s3)
    requires f.size >= 0 && TakeField(s3, 8) == Good(f.size, s4)
    requires TakeField(s4, 4) == Good(|f.chunks|, s5) && DecodeList(DecodeChunk, s5, |f.chunks|) == Good(f.chunks, rest)
    ensures DecodeFile(s) == Good(f, rest)
  {}

  lemma RegroupFields(
    a: seq<Byte>, b: seq<Byte>, c: seq<Byte>, d: seq<Byte>, e: seq<Byte>, f: seq<Byte>, rest: seq<Byte>)
    ensures a + b + c + d + e + f + rest == a + (b + (c + (d + (e + (f + rest)))))
  {}

  lemma FileThen(f: File, rest: seq<Byte>)
    requires InRange(f)
    ensures Encodable(f) && DecodeFile(EncodeFile(f) + rest) == Good(f, rest)
  {
    var a, m, z, n := BigEndian(|f.path|, 4), BigEndian(f.mode, 4), BigEndian(f.size, 8), BigEndian(|f.chunks|, 4);
    var s5 := Flat(ChunkPieces(f.chunks)) + rest;
    var s4 := n + s5;
    var s3 := z + s4;
    var s2 := m + s3;
    var s1 := f.path + s2;
    RegroupFields(a, f.path, m, z, n, Flat(ChunkPieces(f.chunks)), rest);
    Powers();
    FieldThen(|f.path|, 4, s1);
    BytesThen(f.path, s2);
    FieldThen(f.mode, 4, s3);
    FieldThen(f.size, 8, s4);
    FieldThen(|f.chunks|, 4, s5);
    ChunksThen(f.chunks, rest);
    DecodeFields(a + s1, f, s1, s2, s3, s4, s5, rest);
  }

  predicate AllInRange(fs: seq<File>) {
    forall i :: 0 <= i < |fs| ==> InRange(fs[i])
  }

  lemma RangeEncodable(fs: seq<File>)
    requires AllInRange(fs)
    ensures AllEncodable(fs)
  {
    forall i | 0 <= i < |fs|
      ensures Encodable(fs[i])
    {
      assert InRange(fs[i]);
      assert forall k :: 0 <= k < |fs[i].chunks| ==> ValidChunk(fs[i].chunks[k]);
    }
  }

  lemma Regroup(a: seq<Byte>, b: seq<Byte>, c: seq<Byte>)
    ensures (a + b) + c == a + (b + c)
  {}

  lemma FilesThen(fs: seq<File>, rest: seq<Byte>)
    requires AllInRange(fs) && AllEncodable(fs)
    ensures DecodeList(DecodeFile, Flat(FilePieces(fs)) + rest, |fs|) == Good(fs, rest)
  {
    var pieces := FilePieces(fs);
    forall i, r | 0 <= i < |fs| ensures DecodeFile(pieces[i] + r) == Good(fs[i], r) {
      FileThen(fs[i], r);
    }
    ListThen(DecodeFile, fs, pieces, rest);
  }

  lemma {:induction false} CountBounds(files: seq<File>, i: nat)
    requires i < |files|
    ensures |files[i].chunks| <= Count(files)
  {
    if i >= |files| - 1 {
    } else {
      CountBounds(files[..|files| - 1], i);
    }
  }

  lemma {:induction false} TotalBounds(files: seq<File>, i: nat)
    requires i < |files| && forall j :: 0 <= j < |files| ==> files[j].size >= 0
    ensures 0 <= files[i].size <= Total(files)
  {
    TotalMonotone(files, 0);
    if i < |files| - 1 {
      TotalBounds(files[..|files| - 1], i);
    } else {
      TotalMonotone(files[..|files| - 1], 0);
    }
  }

  /** The path rule is at least as strict as the path length limit. */
  ghost predicate ShortPaths(rules: Rules) { forall p :: rules.path(p) ==> |p| <= MAXIMUM_PATH_BYTES }

  lemma AcceptedInRange(rules: Rules, m: Manifest, i: nat)
    requires Accepted(rules, m) && i < |m.files|
    requires ShortPaths(rules)
    ensures InRange(m.files[i])
  {
    assert ValidFile(rules, m.files[i]);
    CountBounds(m.files, i);
    forall j | 0 <= j < |m.files|
      ensures m.files[j].size >= 0
    {
      assert ValidFile(rules, m.files[j]);
    }
    TotalBounds(m.files, i);
  }

  lemma PortableShort(fold: Fold)
    ensures ShortPaths(Portable(fold))
  {}

  lemma RoundTripUnder(rules: Rules, m: Manifest)
    requires Accepted(rules, m) && ShortPaths(rules)
    ensures AllEncodable(m.files) && Decode(Encode(m)) == Some(m)
  {
    forall i | 0 <= i < |m.files|
      ensures InRange(m.files[i])
    {
      AcceptedInRange(rules, m, i);
    }
    RangeEncodable(m.files);
    DecodeEncoded(m);
  }

  /** Decoding the canonical bytes of any manifest accepted under the path rules in use gives that manifest back. */
  lemma RoundTrip(fold: Fold, m: Manifest)
    requires Accepted(Portable(fold), m)
    ensures AllEncodable(m.files) && Decode(Encode(m)) == Some(m)
  {
    PortableShort(fold);
    RoundTripUnder(Portable(fold), m);
  }

  lemma DecodeEncoded(m: Manifest)
    requires m.version < 0x1_0000_0000 && |m.files| < 0x1_0000_0000 && 0 <= m.totalBytes <= MAXIMUM_SNAPSHOT_BYTES
    requires AllInRange(m.files) && AllEncodable(m.files)
    ensures Decode(Encode(m)) == Some(m)
  {
    var end := BigEndian(m.totalBytes, 8);
    var t2 := Flat(FilePieces(m.files)) + end;
    var t1 := BigEndian(|m.files|, 4) + t2;
    assert Encode(m) == BigEndian(m.version, 4) + t1;
    Powers();
    FieldThen(m.version, 4, t1);
    FieldThen(|m.files|, 4, t2);
    FilesThen(m.files, end);
    FieldThen(m.totalBytes, 8, []);
    assert end + [] == end;
  }

  /** Different accepted manifests never share an encoding, so an ID names one manifest up to hash collisions. */
  lemma EncodingInjective(fold: Fold, m: Manifest, n: Manifest)
    requires Accepted(Portable(fold), m) && Accepted(Portable(fold), n)
    requires AllEncodable(m.files) && AllEncodable(n.files) && Encode(m) == Encode(n)
    ensures m == n
  {
    RoundTrip(fold, m);
    RoundTrip(fold, n);
  }

  /** `CanonicalBytes`: refuses what `Validate` refuses and encodings over 800 KiB. */
  method CanonicalBytes(fold: Fold, m: Manifest) returns (r: Option<seq<Byte>>)
    ensures r.Some? ==> Accepted(Portable(fold), m) && AllEncodable(m.files) && r.value == Encode(m)
    ensures r.Some? ==> |r.value| <= MAXIMUM_MANIFEST_BYTES && Decode(r.value) == Some(m)
    ensures r.None? ==>
              !Accepted(Portable(fold), m) || (AllEncodable(m.files) && |Encode(m)| > MAXIMUM_MANIFEST_BYTES)
  {
    var ok := Validate(Portable(fold), m);
    if !ok { return None; }
    RoundTrip(fold, m);
    var buffer := WriteCanonical(m);
    if |buffer| > MAXIMUM_MANIFEST_BYTES { return None; }
    r := Some(buffer);
  }
}
