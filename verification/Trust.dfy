/**
 Pairing material derived from one TLS connection (internal/trust/pairing.go).
 SHA-256 is a parameter: any function from bytes to 32 bytes.
 */
module Trust {
  import opened Text
  import Base32

  type Sum = seq<Byte> -> seq<Byte>

  const BINDING_BYTES := 32
  const VERIFICATION_BYTES := 10

  ghost predicate IsDigest(sum: Sum) {
    forall x :: |sum(x)| == 32
  }

  predicate Printable(s: string) {
    forall c :: c in s ==> c as int < 256
  }

  function Bytes(s: string): (b: seq<Byte>)
    requires Printable(s)
    ensures |b| == |s|
  {
    assert forall i :: 0 <= i < |s| ==> s[i] in s;
    seq<Byte>(|s|, i requires 0 <= i < |s| && s[i] as int < 256 => s[i] as int)
  }

  lemma BytesInjective(a: string, b: string)
    requires Printable(a) && Printable(b) && Bytes(a) == Bytes(b)
    ensures a == b
  {
    assert |a| == |b|;
    forall i | 0 <= i < |a|
      ensures a[i] == b[i]
    {
      assert Bytes(a)[i] == Bytes(b)[i];
    }
  }

  /** A canonical lowercase base-32 identifier of a given length. */
  predicate ValidID(s: string, length: nat) {
    |s| == length && Base32.Over(Base32.RFC4648_LOWER, s)
  }

  predicate ValidDeviceID(s: string) { ValidID(s, 52) }

  predicate ValidPairID(s: string) { ValidID(s, 26) }

  lemma ValidIDPrintable(s: string, length: nat)
    requires ValidID(s, length)
    ensures Printable(s)
  {}

  /** `validVerificationCode`: four dash-separated groups of four Crockford characters. */
  predicate ValidCode(code: string) {
    FourGroups(Split(code, '-'), Base32.CROCKFORD)
  }

  predicate FourGroups(parts: seq<string>, alphabet: string) {
    |parts| == 4 && forall p :: p in parts ==> |p| == 4 && Base32.Over(alphabet, p)
  }

  datatype Material = Material(id: string, code: string, secret: seq<Byte>)

  /** A full-length binding and two different well-formed devices. */
  predicate Authentic(binding: seq<Byte>, initiator: string, responder: string) {
    |binding| == BINDING_BYTES && ValidDeviceID(initiator) && ValidDeviceID(responder) && initiator != responder
  }

  /** `pairingContext`: refuses bad bindings, malformed identities and a device paired with itself. */
  function Context(binding: seq<Byte>, initiator: string, responder: string): (c: Option<seq<Byte>>)
    ensures c.Some? <==> Authentic(binding, initiator, responder)
  {
    if |binding| != BINDING_BYTES || !ValidDeviceID(initiator) || !ValidDeviceID(responder) then None
    else if initiator == responder then None
    else
      ValidIDPrintable(initiator, 52);
      ValidIDPrintable(responder, 52);
      Some(Bytes("ComputeHop pairing v1\0") + binding + Bytes(initiator) + [0] + Bytes(responder))
  }

  function Dashed(text: string): string
    requires |text| == 16
  {
    text[..4] + "-" + text[4..8] + "-" + text[8..12] + "-" + text[12..16]
  }

  lemma JoinFour(a: string, b: string, c: string, d: string)
    ensures Join([a, b, c, d], '-') == a + "-" + b + "-" + c + "-" + d
  {
    assert [a, b, c, d][1..] == [b, c, d];
    assert [b, c, d][1..] == [c, d];
    assert [c, d][1..] == [d];
    assert Join([c, d], '-') == c + "-" + d;
  }

  lemma DashedSplits(text: string, alphabet: string)
    requires |text| == 16 && Base32.Over(alphabet, text) && '-' !in alphabet
    ensures FourGroups(Split(Dashed(text), '-'), alphabet)
  {
    var parts := [text[..4], text[4..8], text[8..12], text[12..16]];
    forall p | p in parts
      ensures '-' !in p && |p| == 4 && Base32.Over(alphabet, p)
    {
      assert forall c :: c in p ==> c in text;
    }
    JoinFour(text[..4], text[4..8], text[8..12], text[12..16]);
    SplitJoin(parts, '-');
  }

  function PairLabel(): seq<Byte> { Bytes("pair-id\0") }

  function CodeLabel(): seq<Byte> { Bytes("verify\0") }

  function SecretLabel(): seq<Byte> { Bytes("connectivity-secret\0") }

  function PairIDOf(digest: seq<Byte>): (id: string)
    requires |digest| == 32
    ensures ValidPairID(id)
  {
    Base32.SpellLower(Base32.Pack(digest[..16]))
  }

  function CodeOf(digest: seq<Byte>): (code: string)
    requires |digest| == 32
    ensures ValidCode(code)
  {
    var digits := Base32.Pack(digest[..VERIFICATION_BYTES]);
    DashedSplits(Base32.Spell(digits), Base32.CROCKFORD);
    Dashed(Base32.Spell(digits))
  }

  /** The digest of a context under a label. */
  function Hashed(sum: Sum, tag: seq<Byte>, context: seq<Byte>): (digest: seq<Byte>)
    requires IsDigest(sum)
    ensures |digest| == 32
  {
    sum(tag + context)
  }

  function MaterialOf(sum: Sum, context: seq<Byte>): (m: Material)
    requires IsDigest(sum)
    ensures ValidPairID(m.id) && ValidCode(m.code) && |m.secret| == 32
  {
    Material(PairIDOf(Hashed(sum, PairLabel(), context)), CodeOf(Hashed(sum, CodeLabel(), context)),
             Hashed(sum, SecretLabel(), context))
  }

  /** `DerivePairing` and `DeriveConnectivitySecret` on the same inputs. */
  function Derive(sum: Sum, binding: seq<Byte>, initiator: string, responder: string): (m: Option<Material>)
    requires IsDigest(sum)
    ensures m.Some? <==> Authentic(binding, initiator, responder)
    ensures m.Some? ==> ValidPairID(m.value.id) && ValidCode(m.value.code) && |m.value.secret| == 32
  {
    match Context(binding, initiator, responder)
    case None => None
    case Some(context) => Some(MaterialOf(sum, context))
  }

  /**
   The hashed context fixes the connection and the ordered pair of devices: two
   ceremonies share a context only if they are the same, so swapping initiator
   and responder changes it.
   */
  lemma ContextBinds(b1: seq<Byte>, i1: string, r1: string, b2: seq<Byte>, i2: string, r2: string)
    requires Context(b1, i1, r1).Some? && Context(b1, i1, r1) == Context(b2, i2, r2)
    ensures b1 == b2 && i1 == i2 && r1 == r2
  {
    var c := Context(b1, i1, r1).value;
    var head := Bytes("ComputeHop pairing v1\0");
    ValidIDPrintable(i1, 52);
    ValidIDPrintable(r1, 52);
    ValidIDPrintable(i2, 52);
    ValidIDPrintable(r2, 52);
    assert c[22..54] == b1 && c[22..54] == b2;
    assert c[54..106] == Bytes(i1) && c[54..106] == Bytes(i2);
    assert c[107..159] == Bytes(r1) && c[107..159] == Bytes(r2);
    BytesInjective(i1, i2);
    BytesInjective(r1, r2);
  }

  // ---- what the material depends on ----

  lemma DashedInjective(a: string, b: string)
    requires |a| == 16 && |b| == 16 && Dashed(a) == Dashed(b)
    ensures a == b
  {
    assert Dashed(a)[..4] == a[..4] && Dashed(a)[5..9] == a[4..8];
    assert Dashed(a)[10..14] == a[8..12] && Dashed(a)[15..19] == a[12..16];
    assert Dashed(b)[..4] == b[..4] && Dashed(b)[5..9] == b[4..8];
    assert Dashed(b)[10..14] == b[8..12] && Dashed(b)[15..19] == b[12..16];
    assert a == a[..4] + a[4..8] + a[8..12] + a[12..16];
    assert b == b[..4] + b[4..8] + b[8..12] + b[12..16];
  }

  /** Equal codes come from digests with the same first ten bytes. */
  lemma CodeInjective(a: seq<Byte>, b: seq<Byte>)
    requires |a| == 32 && |b| == 32 && CodeOf(a) == CodeOf(b)
    ensures a[..VERIFICATION_BYTES] == b[..VERIFICATION_BYTES]
  {
    var p, q := Base32.Pack(a[..VERIFICATION_BYTES]), Base32.Pack(b[..VERIFICATION_BYTES]);
    DashedInjective(Base32.Spell(p), Base32.Spell(q));
    Base32.SpellInjective(p, q);
    Base32.PackInjective(a[..VERIFICATION_BYTES], b[..VERIFICATION_BYTES]);
  }

  /** Equal pair IDs come from digests with the same first sixteen bytes. */
  lemma PairIDInjective(a: seq<Byte>, b: seq<Byte>)
    requires |a| == 32 && |b| == 32 && PairIDOf(a) == PairIDOf(b)
    ensures a[..16] == b[..16]
  {
    Base32.LowerInjective(Base32.Pack(a[..16]), Base32.Pack(b[..16]));
    Base32.PackInjective(a[..16], b[..16]);
  }

  /** The three hashes never have an input in common. */
  lemma LabelsDiffer(a: seq<Byte>, b: seq<Byte>)
    ensures PairLabel() + a != CodeLabel() + b && PairLabel() + a != SecretLabel() + b
    ensures CodeLabel() + a != SecretLabel() + b
  {
    assert (PairLabel() + a)[0] == 112 && (CodeLabel() + a)[0] == 118;
    assert (CodeLabel() + b)[0] == 118 && (SecretLabel() + b)[0] == 99;
  }

  /** The hash tells these contexts apart in the bytes that are shown under this label. */
  predicate Separates(sum: Sum, tag: seq<Byte>, a: seq<Byte>, b: seq<Byte>, shown: nat)
    requires IsDigest(sum) && shown <= 32
  {
    a != b ==> Shown(sum, tag, a, shown) != Shown(sum, tag, b, shown)
  }

  function Shown(sum: Sum, tag: seq<Byte>, context: seq<Byte>, shown: nat): seq<Byte>
    requires IsDigest(sum) && shown <= 32
  {
    assert |sum(tag + context)| == 32;
    sum(tag + context)[..shown]
  }

  lemma CodeSeparates(sum: Sum, a: seq<Byte>, b: seq<Byte>)
    requires IsDigest(sum) && Separates(sum, CodeLabel(), a, b, VERIFICATION_BYTES)
    requires CodeOf(Hashed(sum, CodeLabel(), a)) == CodeOf(Hashed(sum, CodeLabel(), b))
    ensures a == b
  {
    CodeInjective(Hashed(sum, CodeLabel(), a), Hashed(sum, CodeLabel(), b));
  }

  lemma PairIDSeparates(sum: Sum, a: seq<Byte>, b: seq<Byte>)
    requires IsDigest(sum) && Separates(sum, PairLabel(), a, b, 16)
    requires PairIDOf(Hashed(sum, PairLabel(), a)) == PairIDOf(Hashed(sum, PairLabel(), b))
    ensures a == b
  {
    PairIDInjective(Hashed(sum, PairLabel(), a), Hashed(sum, PairLabel(), b));
  }

  /** The material holds the code of this hash, the pair ID of that and the third whole. */
  predicate Holds(sum: Sum, m: Material, context: seq<Byte>)
    requires IsDigest(sum)
  {
    m.code == CodeOf(Hashed(sum, CodeLabel(), context)) && m.id == PairIDOf(Hashed(sum, PairLabel(), context)) &&
    m.secret == Hashed(sum, SecretLabel(), context)
  }

  lemma DeriveHolds(sum: Sum, binding: seq<Byte>, initiator: string, responder: string)
    requires IsDigest(sum) && Authentic(binding, initiator, responder)
    ensures Holds(sum, Derive(sum, binding, initiator, responder).value, Context(binding, initiator, responder).value)
  {}

  lemma HoldsBinds(sum: Sum, m: Material, n: Material, a: seq<Byte>, b: seq<Byte>)
    requires IsDigest(sum) && Holds(sum, m, a) && Holds(sum, n, b)
    ensures m.code == n.code && Separates(sum, CodeLabel(), a, b, VERIFICATION_BYTES) ==> a == b
    ensures m.id == n.id && Separates(sum, PairLabel(), a, b, 16) ==> a == b
    ensures m.secret == n.secret && Separates(sum, SecretLabel(), a, b, 32) ==> a == b
  {
    if m.code == n.code && Separates(sum, CodeLabel(), a, b, VERIFICATION_BYTES) { CodeSeparates(sum, a, b); }
    if m.id == n.id && Separates(sum, PairLabel(), a, b, 16) { PairIDSeparates(sum, a, b); }
  }

  /**
   What comparing codes is for: short of a collision of the hash in the ten bytes shown, equal codes mean the
   same connection between the same two devices, in the same roles; the same holds of pair IDs and secrets.
   */
  lemma MaterialBinds(sum: Sum, b1: seq<Byte>, i1: string, r1: string, b2: seq<Byte>, i2: string, r2: string)
    requires IsDigest(sum) && Authentic(b1, i1, r1) && Authentic(b2, i2, r2)
    ensures var m, n := Derive(sum, b1, i1, r1).value, Derive(sum, b2, i2, r2).value;
            var a, b := Context(b1, i1, r1).value, Context(b2, i2, r2).value;
            (m.code == n.code && Separates(sum, CodeLabel(), a, b, VERIFICATION_BYTES)) ||
            (m.id == n.id && Separates(sum, PairLabel(), a, b, 16)) ||
            (m.secret == n.secret && Separates(sum, SecretLabel(), a, b, 32)) ==>
              b1 == b2 && i1 == i2 && r1 == r2
  {
    var a, b := Context(b1, i1, r1).value, Context(b2, i2, r2).value;
    DeriveHolds(sum, b1, i1, r1);
    DeriveHolds(sum, b2, i2, r2);
    HoldsBinds(sum, Derive(sum, b1, i1, r1).value, Derive(sum, b2, i2, r2).value, a, b);
    if a == b { ContextBinds(b1, i1, r1, b2, i2, r2); }
  }
}
