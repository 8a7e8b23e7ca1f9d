/**
 The tests of internal/portablepath/path.go as they are made, and what they amount to: the path rule of module
 `Manifest`; valid UTF-8 is the encoding of Unicode scalar values.
 */
module PortablePath {
  import opened Text
  import opened Manifest

  // ---- UTF-8 ----

  predicate Scalar(c: int) { 0 <= c < 0xD800 || 0xE000 <= c < 0x110000 }

  /** The encoding of one scalar value (section 3 of RFC 3629). */
  function EncodeScalar(c: int): (b: seq<Byte>)
    requires Scalar(c)
  {
    if c < 0x80 then [c]
    else if c < 0x800 then [0xC0 + c / 64, 0x80 + c % 64]
    else if c < 0x10000 then [0xE0 + c / 4096, 0x80 + c / 64 % 64, 0x80 + c % 64]
    else [0xF0 + c / 262144, 0x80 + c / 4096 % 64, 0x80 + c / 64 % 64, 0x80 + c % 64]
  }

  predicate AllScalar(cs: seq<int>) { forall i :: 0 <= i < |cs| ==> Scalar(cs[i]) }

  function EncodeText(cs: seq<int>): seq<Byte>
    requires AllScalar(cs)
  {
    if cs == [] then [] else EncodeScalar(cs[0]) + EncodeText(cs[1..])
  }

  lemma ShortIsUtf8(c: int, rest: seq<Byte>)
    requires Scalar(c) && c < 0x800 && Utf8(rest)
    ensures Utf8(EncodeScalar(c) + rest)
  {
    var b := EncodeScalar(c);
    assert (b + rest)[|b|..] == rest;
  }

  lemma ThreeIsUtf8(c: int, rest: seq<Byte>)
    requires Scalar(c) && 0x800 <= c < 0x10000 && Utf8(rest)
    ensures Utf8(EncodeScalar(c) + rest)
  {
    var b := EncodeScalar(c);
    assert (b + rest)[3..] == rest;
    assert b[0] == 0xE0 ==> c / 64 % 64 == c / 64;
    assert b[0] == 0xED ==> c / 64 % 64 == c / 64 - 832;
  }

  lemma FourIsUtf8(c: int, rest: seq<Byte>)
    requires Scalar(c) && c >= 0x10000 && Utf8(rest)
    ensures Utf8(EncodeScalar(c) + rest)
  {
    var b := EncodeScalar(c);
    assert (b + rest)[4..] == rest;
    assert b[0] == 0xF0 ==> c / 4096 % 64 == c / 4096;
    assert b[0] == 0xF4 ==> c / 4096 % 64 == c / 4096 - 256;
  }

  lemma ScalarIsUtf8(c: int, rest: seq<Byte>)
    requires Scalar(c) && Utf8(rest)
    ensures Utf8(EncodeScalar(c) + rest)
  {
    if c < 0x800 {
      ShortIsUtf8(c, rest);
    } else if c < 0x10000 {
      ThreeIsUtf8(c, rest);
    } else {
      FourIsUtf8(c, rest);
    }
  }

  lemma {:induction false} TextIsUtf8(cs: seq<int>)
    requires AllScalar(cs)
    ensures Utf8(EncodeText(cs))
  {
    if cs == [] {
    } else {
      TextIsUtf8(cs[1..]);
      ScalarIsUtf8(cs[0], EncodeText(cs[1..]));
    }
  }

  lemma ThreeBytes(x: int, y: int, z: int) returns (c: int)
    requires 0xE0 <= x <= 0xEF && 0 <= y < 64 && 0 <= z < 64 && (x == 0xE0 ==> y >= 0x20) && (x == 0xED ==> y <= 0x1F)
    ensures 0x800 <= c < 0x10000 && Scalar(c) && c / 4096 == x - 0xE0 && c / 64 % 64 == y && c % 64 == z
  {
    c := (x - 0xE0) * 4096 + y * 64 + z;
    assert c / 64 == (x - 0xE0) * 64 + y;
  }

  lemma FourBytes(x: int, y: int, z: int, u: int) returns (c: int)
    requires 0xF0 <= x <= 0xF4 && 0 <= y < 64 && 0 <= z < 64 && 0 <= u < 64
    requires (x == 0xF0 ==> y >= 0x10) && (x == 0xF4 ==> y <= 0x0F)
    ensures 0x10000 <= c && Scalar(c) && c / 262144 == x - 0xF0 && c / 4096 % 64 == y && c / 64 % 64 == z && c % 64 == u
  {
    c := (x - 0xF0) * 262144 + y * 4096 + z * 64 + u;
    assert c / 64 == (x - 0xF0) * 4096 + y * 64 + z;
    assert c / 4096 == (x - 0xF0) * 64 + y;
  }

  /** The first scalar value of a valid string and the length of its encoding. */
  lemma FirstScalar(p: seq<Byte>) returns (c: int, n: nat)
    requires p != [] && Utf8(p)
    ensures 0 < n <= |p| && Scalar(c) && EncodeScalar(c) == p[..n] && Utf8(p[n..])
  {
    if p[0] < 0x80 {
      c, n := p[0], 1;
    } else if p[0] <= 0xDF {
      var x: int, y: int := p[0] - 0xC0, p[1] - 0x80;
      c, n := x * 64 + y, 2;
    } else if p[0] <= 0xEF {
      c := ThreeBytes(p[0], p[1] - 0x80, p[2] - 0x80);
      n := 3;
    } else {
      c := FourBytes(p[0], p[1] - 0x80, p[2] - 0x80, p[3] - 0x80);
      n := 4;
    }
  }

  lemma {:induction false} Utf8IsText(p: seq<Byte>) returns (cs: seq<int>)
    requires Utf8(p)
    ensures AllScalar(cs) && EncodeText(cs) == p
    decreases |p|
  {
    if p == [] {
      cs := [];
    } else {
      var c, n := FirstScalar(p);
      var more := Utf8IsText(p[n..]);
      cs := [c] + more;
      assert cs[1..] == more && p == p[..n] + p[n..];
    }
  }

  /** The strings that pass the UTF-8 test are exactly the encodings of texts. */
  lemma Utf8Exactly(p: seq<Byte>)
    ensures Utf8(p) <==> exists cs :: AllScalar(cs) && EncodeText(cs) == p
  {
    if Utf8(p) { var cs := Utf8IsText(p); }
    if cs :| AllScalar(cs) && EncodeText(cs) == p { TextIsUtf8(cs); }
  }

  // ---- path.Clean ----

  const DOTS: seq<Byte> := [DOT, DOT]

  /** The segments that `path.Clean` keeps of a path that does not start with a slash. */
  function Cleaned(segments: seq<seq<Byte>>): seq<seq<Byte>> {
    if segments == [] then []
    else
      var kept, s := Cleaned(segments[..|segments| - 1]), segments[|segments| - 1];
      if s == [] || s == [DOT] then kept
      else if s == DOTS && kept != [] && kept[|kept| - 1] != DOTS then kept[..|kept| - 1]
      else kept + [s]
  }

  /** `path.Clean` of such a path. */
  function Clean(p: Path): Path {
    var kept := Cleaned(Split(p, SLASH));
    if kept == [] then [DOT] else Join(kept, SLASH)
  }

  predicate Dotty(s: seq<Byte>) { s == [] || s == [DOT] || s == DOTS }

  lemma {:induction false} CleanedIsIdle(segments: seq<seq<Byte>>)
    requires forall s :: s in segments ==> !Dotty(s)
    ensures Cleaned(segments) == segments
  {
    if segments == [] {
    } else {
      var init, last := segments[..|segments| - 1], segments[|segments| - 1];
      assert last in segments;
      CleanedIsIdle(init);
      assert segments == init + [last];
    }
  }

  /** A path without empty and dot segments is already clean. */
  lemma CleanIsIdle(p: Path)
    requires forall s :: s in Split(p, SLASH) ==> !Dotty(s)
    ensures Clean(p) == p
  {
    CleanedIsIdle(Split(p, SLASH));
    JoinSplit(p, SLASH);
  }

  lemma FirstSegment(p: Path)
    requires p != [] && p[0] == SLASH
    ensures [] in Split(p, SLASH)
  {
    assert p[..0] == [];
    assert Split(p, SLASH)[0] == [];
  }

  // ---- the tests ----

  /** `windowsReservedName`. */
  method WindowsReservedName(segment: seq<Byte>) returns (reserved: bool)
    ensures reserved <==> Reserved(segment)
  {
    var base := Uppercase(Split(segment, DOT)[0]);
    if base == [67, 79, 78] || base == [80, 82, 78] || base == [65, 85, 88] || base == [78, 85, 76] { return true; }
    NumberedDevice(base);
    if |base| == 4 && ([67, 79, 77] <= base || [76, 80, 84] <= base) { return 49 <= base[3] <= 57; }
    reserved := false;
  }

  lemma NumberedDevice(base: seq<Byte>)
    ensures (exists n: Byte :: 49 <= n <= 57 && (base == [67, 79, 77, n] || base == [76, 80, 84, n])) <==>
            |base| == 4 && ([67, 79, 77] <= base || [76, 80, 84] <= base) && 49 <= base[3] <= 57
  {
    if |base| == 4 && ([67, 79, 77] <= base || [76, 80, 84] <= base) && 49 <= base[3] <= 57 {
      var n := base[3];
      assert base == base[..3] + [n] && (base[..3] == [67, 79, 77] || base[..3] == [76, 80, 84]);
      assert base == [67, 79, 77, n] || base == [76, 80, 84, n];
    }
  }

  method CheckSegment(segment: seq<Byte>) returns (ok: bool)
    ensures ok <==> ValidSegment(segment)
  {
    if segment == [] || segment == [DOT] || segment == DOTS || segment[|segment| - 1] == DOT ||
       segment[|segment| - 1] == 32 {
      return false;
    }
    var reserved := WindowsReservedName(segment);
    if reserved { return false; }
    for i := 0 to |segment|
      invariant forall k :: 0 <= k < i ==> segment[k] >= 0x20
    {
      if segment[i] < 0x20 { return false; }
    }
    ok := true;
  }

  lemma SegmentNotDotty(s: seq<Byte>)
    requires ValidSegment(s)
    ensures !Dotty(s)
  {}

  /** A path whose segments all pass also passes the tests of the whole path that are about segments. */
  lemma WholeTestsIdle(p: Path)
    requires ValidPath(p)
    ensures p[0] != SLASH && Clean(p) == p && p != [DOT] && p != DOTS && !(DOTS + [SLASH] <= p)
  {
    forall s | s in Split(p, SLASH) ensures !Dotty(s) { SegmentNotDotty(s); }
    CleanIsIdle(p);
    if p[0] == SLASH { FirstSegment(p); }
    DotsSegment(p);
  }

  lemma DotsSegment(p: Path)
    ensures p == [DOT] || p == DOTS || DOTS + [SLASH] <= p ==> exists s :: s in Split(p, SLASH) && Dotty(s)
  {
    if p == [DOT] || p == DOTS {
      SplitWhole(p, SLASH);
      assert p in Split(p, SLASH);
    } else if DOTS + [SLASH] <= p {
      var rest := p[3..];
      assert p == p[..3] + rest && p[..3] == DOTS + [SLASH];
      assert p == DOTS + [SLASH] + rest;
      SplitFirst(DOTS, SLASH, rest);
      assert Split(p, SLASH)[0] == DOTS && DOTS in Split(p, SLASH) && Dotty(DOTS);
    }
  }

  predicate AnyForbidden(p: Path) { exists i :: 0 <= i < |p| && Forbidden(p[i]) }

  /** `portablepath.Validate`, test by test, accepts exactly the valid paths. */
  method Validate(p: Path) returns (ok: bool)
    ensures ok <==> ValidPath(p)
  {
    if p == [] || |p| > MAXIMUM_PATH_BYTES || !Utf8(p) || AnyForbidden(p) { return false; }
    if ValidPath(p) { WholeTestsIdle(p); }
    if p[0] == SLASH || Clean(p) != p || p == [DOT] || p == DOTS || DOTS + [SLASH] <= p { return false; }
    var segments := Split(p, SLASH);
    for i := 0 to |segments|
      invariant forall k :: 0 <= k < i ==> ValidSegment(segments[k])
    {
      var good := CheckSegment(segments[i]);
      if !good { return false; }
    }
    ok := true;
  }

  // ---- digests ----

  predicate AnyHex(b: Byte) { 48 <= b <= 57 || 97 <= b <= 102 || 65 <= b <= 70 }

  /** `ParseDigest`: 64 bytes, unchanged by lower-casing, that decode as hexadecimal. */
  lemma ParseDigestExactly(d: seq<Byte>)
    ensures ValidDigest(d) <==> |d| == 64 && Lower(d) == d && forall i :: 0 <= i < |d| ==> AnyHex(d[i])
  {
    if |d| == 64 && Lower(d) == d && (forall i :: 0 <= i < |d| ==> AnyHex(d[i])) {
      forall i | 0 <= i < |d| ensures HexDigit(d[i]) { assert Lower(d)[i] == d[i]; }
    }
    if ValidDigest(d) { assert forall i :: 0 <= i < |d| ==> HexDigit(d[i]); }
  }
}
