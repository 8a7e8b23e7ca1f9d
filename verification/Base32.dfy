/**
 The bit packer shared by verification codes and pair IDs: eight-bit bytes are
 regrouped, most significant bit first, into five-bit digits and the last digit
 is filled with zero bits (the grouping of section 6 of RFC 4648).
 */
module Base32 {
  import opened Text

  type Digit = x: int | 0 <= x < 32

  const CROCKFORD := "0123456789ABCDEFGHJKMNPQRSTVWXYZ"
  const RFC4648_LOWER := "abcdefghijklmnopqrstuvwxyz234567"

  const BYTE: nat := 8

  /** The low `n` bits of `x`, most significant first. */
  function LowBits(x: nat, n: nat): (bits: seq<bool>)
    ensures |bits| == n
  {
    if n == 0 then [] else LowBits(x / 2, n - 1) + [x % 2 == 1]
  }

  /** `x >> n`. */
  function ShiftRight(x: nat, n: nat): nat {
    if n == 0 then x else ShiftRight(x / 2, n - 1)
  }

  /** `x << n`, before any truncation. */
  function ShiftLeft(x: nat, n: nat): nat
    decreases n
  {
    if n == 0 then x else ShiftLeft(2 * x, n - 1)
  }

  function BitString(contents: seq<Byte>): (bits: seq<bool>)
    ensures |bits| == 8 * |contents|
  {
    if contents == [] then []
    else BitString(contents[..|contents| - 1]) + LowBits(contents[|contents| - 1], BYTE)
  }

  function Unpack(digits: seq<Digit>): (bits: seq<bool>)
    ensures |bits| == 5 * |digits|
  {
    if digits == [] then [] else Unpack(digits[..|digits| - 1]) + LowBits(digits[|digits| - 1], 5)
  }

  function FromBits(bits: seq<bool>): nat {
    if bits == [] then 0
    else 2 * FromBits(bits[..|bits| - 1]) + (if bits[|bits| - 1] then 1 else 0)
  }

  function Group(bits: seq<bool>): (digits: seq<Digit>)
    requires |bits| % 5 == 0
    ensures 5 * |digits| == |bits|
    decreases |bits|
  {
    if bits == [] then []
    else
      var m := |bits| - 5;
      FromFiveBits(bits[m..]);
      Group(bits[..m]) + [FromBits(bits[m..])]
  }

  function PackedLength(bytes: nat): nat { (8 * bytes + 4) / 5 }

  function Zeros(n: nat): (bits: seq<bool>)
    ensures |bits| == n
  {
    seq(n, _ => false)
  }

  function Padding(bytes: nat): (p: nat)
    ensures p < 5
    ensures (8 * bytes + p) % 5 == 0
  {
    5 * PackedLength(bytes) - 8 * bytes
  }

  function Padded(contents: seq<Byte>): (bits: seq<bool>)
    ensures |bits| % 5 == 0
  {
    BitString(contents) + Zeros(Padding(|contents|))
  }

  /** Reference definition: the bits of the input, zero-padded, five at a time. */
  function Pack(contents: seq<Byte>): (digits: seq<Digit>)
    ensures |digits| == PackedLength(|contents|)
  {
    Group(Padded(contents))
  }

  function Render(alphabet: string, digits: seq<Digit>): (text: string)
    requires |alphabet| == 32
    ensures |text| == |digits|
    ensures forall k :: 0 <= k < |text| ==> text[k] == alphabet[digits[k]]
  {
    seq(|digits|, k requires 0 <= k < |digits| => alphabet[digits[k]])
  }

  lemma RenderNext(alphabet: string, digits: seq<Digit>, d: Digit)
    requires |alphabet| == 32
    ensures Render(alphabet, digits + [d]) == Render(alphabet, digits) + [alphabet[d]]
  {}

  /** Digits in Crockford's alphabet. */
  function Spell(digits: seq<Digit>): (text: string)
    ensures |text| == |digits| && Over(CROCKFORD, text)
  {
    RenderOver(CROCKFORD, digits);
    Render(CROCKFORD, digits)
  }

  /** Digits in the lower-case alphabet of RFC 4648. */
  function SpellLower(digits: seq<Digit>): (text: string)
    ensures |text| == |digits| && Over(RFC4648_LOWER, text)
  {
    RenderOver(RFC4648_LOWER, digits);
    Render(RFC4648_LOWER, digits)
  }

  lemma SpellNext(digits: seq<Digit>, d: Digit)
    ensures Spell(digits + [d]) == Spell(digits) + [CROCKFORD[d]]
  {
    RenderNext(CROCKFORD, digits, d);
  }

  predicate Over(alphabet: string, text: string) {
    forall c :: c in text ==> c in alphabet
  }

  lemma RenderOver(alphabet: string, digits: seq<Digit>)
    requires |alphabet| == 32
    ensures Over(alphabet, Render(alphabet, digits))
  {
    var text := Render(alphabet, digits);
    forall c | c in text
      ensures c in alphabet
    {
      var k :| 0 <= k < |text| && text[k] == c;
    }
  }

  /** Where a character stands in Crockford's alphabet, which skips I, L, O and U. */
  function CrockfordValue(c: char): int {
    if c <= '9' then c as int - 48
    else if c <= 'H' then c as int - 55
    else if c <= 'K' then c as int - 56
    else if c <= 'N' then c as int - 57
    else if c <= 'T' then c as int - 58
    else c as int - 59
  }

  function LowerValue(c: char): int { if c <= '9' then c as int - 24 else c as int - 97 }

  lemma CrockfordReads0(d: Digit)
    requires 0 <= d < 8
    ensures CrockfordValue(CROCKFORD[d]) == d
  {
    assert CROCKFORD[0] == '0' && CROCKFORD[1] == '1' && CROCKFORD[2] == '2' && CROCKFORD[3] == '3';
    assert CROCKFORD[4] == '4' && CROCKFORD[5] == '5' && CROCKFORD[6] == '6' && CROCKFORD[7] == '7';
  }

  lemma CrockfordReads1(d: Digit)
    requires 8 <= d < 16
    ensures CrockfordValue(CROCKFORD[d]) == d
  {
    assert CROCKFORD[8] == '8' && CROCKFORD[9] == '9' && CROCKFORD[10] == 'A' && CROCKFORD[11] == 'B';
    assert CROCKFORD[12] == 'C' && CROCKFORD[13] == 'D' && CROCKFORD[14] == 'E' && CROCKFORD[15] == 'F';
  }

  lemma CrockfordReads2(d: Digit)
    requires 16 <= d < 24
    ensures CrockfordValue(CROCKFORD[d]) == d
  {
    assert CROCKFORD[16] == 'G' && CROCKFORD[17] == 'H' && CROCKFORD[18] == 'J' && CROCKFORD[19] == 'K';
    assert CROCKFORD[20] == 'M' && CROCKFORD[21] == 'N' && CROCKFORD[22] == 'P' && CROCKFORD[23] == 'Q';
  }

  lemma CrockfordReads3(d: Digit)
    requires 24 <= d < 32
    ensures CrockfordValue(CROCKFORD[d]) == d
  {
    assert CROCKFORD[24] == 'R' && CROCKFORD[25] == 'S' && CROCKFORD[26] == 'T' && CROCKFORD[27] == 'V';
    assert CROCKFORD[28] == 'W' && CROCKFORD[29] == 'X' && CROCKFORD[30] == 'Y' && CROCKFORD[31] == 'Z';
  }

  lemma CrockfordReads(d: Digit)
    ensures CrockfordValue(CROCKFORD[d]) == d
  {
    if d < 8 {
      CrockfordReads0(d);
    } else if d < 16 {
      CrockfordReads1(d);
    } else if d < 24 {
      CrockfordReads2(d);
    } else {
      CrockfordReads3(d);
    }
  }

  lemma LowerReads0(d: Digit)
    requires 0 <= d < 8
    ensures LowerValue(RFC4648_LOWER[d]) == d
  {
    assert RFC4648_LOWER[0] == 'a' && RFC4648_LOWER[1] == 'b' && RFC4648_LOWER[2] == 'c' && RFC4648_LOWER[3] == 'd';
    assert RFC4648_LOWER[4] == 'e' && RFC4648_LOWER[5] == 'f' && RFC4648_LOWER[6] == 'g' && RFC4648_LOWER[7] == 'h';
  }

  lemma LowerReads1(d: Digit)
    requires 8 <= d < 16
    ensures LowerValue(RFC4648_LOWER[d]) == d
  {
    assert RFC4648_LOWER[8] == 'i' && RFC4648_LOWER[9] == 'j' && RFC4648_LOWER[10] == 'k' && RFC4648_LOWER[11] == 'l';
    assert RFC4648_LOWER[12] == 'm' && RFC4648_LOWER[13] == 'n' && RFC4648_LOWER[14] == 'o' && RFC4648_LOWER[15] == 'p';
  }

  lemma LowerReads2(d: Digit)
    requires 16 <= d < 24
    ensures LowerValue(RFC4648_LOWER[d]) == d
  {
    assert RFC4648_LOWER[16] == 'q' && RFC4648_LOWER[17] == 'r' && RFC4648_LOWER[18] == 's' && RFC4648_LOWER[19] == 't';
    assert RFC4648_LOWER[20] == 'u' && RFC4648_LOWER[21] == 'v' && RFC4648_LOWER[22] == 'w' && RFC4648_LOWER[23] == 'x';
  }

  lemma LowerReads3(d: Digit)
    requires 24 <= d < 32
    ensures LowerValue(RFC4648_LOWER[d]) == d
  {
    assert RFC4648_LOWER[24] == 'y' && RFC4648_LOWER[25] == 'z' && RFC4648_LOWER[26] == '2' && RFC4648_LOWER[27] == '3';
    assert RFC4648_LOWER[28] == '4' && RFC4648_LOWER[29] == '5' && RFC4648_LOWER[30] == '6' && RFC4648_LOWER[31] == '7';
  }

  lemma LowerReads(d: Digit)
    ensures LowerValue(RFC4648_LOWER[d]) == d
  {
    if d < 8 {
      LowerReads0(d);
    } else if d < 16 {
      LowerReads1(d);
    } else if d < 24 {
      LowerReads2(d);
    } else {
      LowerReads3(d);
    }
  }

  /** Digits can be read back from their text, so different digits have different texts. */
  lemma SpellInjective(a: seq<Digit>, b: seq<Digit>)
    requires Spell(a) == Spell(b)
    ensures a == b
  {
    assert |Spell(a)| == |Spell(b)|;
    forall k | 0 <= k < |a| ensures a[k] == b[k] {
      assert Spell(a)[k] == Spell(b)[k];
      CrockfordReads(a[k]);
      CrockfordReads(b[k]);
    }
  }

  lemma LowerInjective(a: seq<Digit>, b: seq<Digit>)
    requires SpellLower(a) == SpellLower(b)
    ensures a == b
  {
    assert |SpellLower(a)| == |SpellLower(b)|;
    forall k | 0 <= k < |a| ensures a[k] == b[k] {
      assert SpellLower(a)[k] == SpellLower(b)[k];
      LowerReads(a[k]);
      LowerReads(b[k]);
    }
  }

  lemma FromFiveBits(bits: seq<bool>)
    requires |bits| == 5
    ensures FromBits(bits) < 32
  {
    assert bits[..4][..3] == bits[..3];
    assert bits[..3][..2] == bits[..2];
    assert bits[..2][..1] == bits[..1];
    assert bits[..1][..0] == [];
    assert FromBits(bits[..1]) <= 1;
    assert FromBits(bits[..2]) <= 3;
    assert FromBits(bits[..3]) <= 7;
    assert FromBits(bits[..4]) <= 15;
  }

  lemma {:induction false} BitsRoundTrip(bits: seq<bool>)
    ensures LowBits(FromBits(bits), |bits|) == bits
  {
    if bits == [] {
    } else {
      var m := |bits| - 1;
      BitsRoundTrip(bits[..m]);
      assert FromBits(bits) / 2 == FromBits(bits[..m]);
      assert bits == bits[..m] + [bits[m]];
    }
  }

  lemma {:induction false} UnpackGroup(bits: seq<bool>)
    requires |bits| % 5 == 0
    ensures Unpack(Group(bits)) == bits
    decreases |bits|
  {
    if bits == [] {
    } else {
      var m := |bits| - 5;
      UnpackGroup(bits[..m]);
      BitsRoundTrip(bits[m..]);
      var g := Group(bits);
      assert g[..|g| - 1] == Group(bits[..m]);
      assert bits == bits[..m] + bits[m..];
    }
  }

  lemma {:induction false} LowBitsInjective(x: nat, y: nat, n: nat)
    requires x < Pow2(n) && y < Pow2(n) && LowBits(x, n) == LowBits(y, n)
    ensures x == y
  {
    if n == 0 {
    } else {
      var p, q := LowBits(x, n), LowBits(y, n);
      assert p[..n - 1] == LowBits(x / 2, n - 1) && q[..n - 1] == LowBits(y / 2, n - 1);
      assert p[n - 1] == q[n - 1];
      LowBitsInjective(x / 2, y / 2, n - 1);
    }
  }

  lemma {:induction false} UnpackInjective(a: seq<Digit>, b: seq<Digit>)
    requires Unpack(a) == Unpack(b)
    ensures a == b
  {
    assert |Unpack(a)| == |Unpack(b)|;
    if a == [] {
    } else {
      var m := |a| - 1;
      assert Unpack(a)[..5 * m] == Unpack(a[..m]) && Unpack(b)[..5 * m] == Unpack(b[..m]);
      assert Unpack(a)[5 * m..] == LowBits(a[m], 5) && Unpack(b)[5 * m..] == LowBits(b[m], 5);
      UnpackInjective(a[..m], b[..m]);
      assert Pow2(5) == 32;
      LowBitsInjective(a[m], b[m], 5);
      assert a == a[..m] + [a[m]] && b == b[..m] + [b[m]];
    }
  }

  lemma {:induction false} BitStringInjective(a: seq<Byte>, b: seq<Byte>)
    requires BitString(a) == BitString(b)
    ensures a == b
  {
    assert |BitString(a)| == |BitString(b)|;
    if a == [] {
    } else {
      var m := |a| - 1;
      assert BitString(a)[..8 * m] == BitString(a[..m]) && BitString(b)[..8 * m] == BitString(b[..m]);
      assert BitString(a)[8 * m..] == LowBits(a[m], BYTE) && BitString(b)[8 * m..] == LowBits(b[m], BYTE);
      BitStringInjective(a[..m], b[..m]);
      assert Pow2(8) == 256;
      LowBitsInjective(a[m], b[m], 8);
      assert a == a[..m] + [a[m]] && b == b[..m] + [b[m]];
    }
  }

  /** Different inputs of one length never pack to the same digits. */
  lemma PackInjective(a: seq<Byte>, b: seq<Byte>)
    requires |a| == |b| && Pack(a) == Pack(b)
    ensures a == b
  {
    var pad := Zeros(Padding(|a|));
    UnpackGroup(BitString(a) + pad);
    UnpackGroup(BitString(b) + pad);
    assert (BitString(a) + pad)[..8 * |a|] == BitString(a);
    assert (BitString(b) + pad)[..8 * |a|] == BitString(b);
    BitStringInjective(a, b);
  }

  // ---- the loop of `crockford` ----

  /** Taking the bits above the low `b`, then the low `b`, loses nothing. */
  lemma {:induction false} LowBitsSplit(x: nat, a: nat, b: nat)
    ensures LowBits(x, a + b) == LowBits(ShiftRight(x, b), a) + LowBits(x, b)
  {
    if b > 0 {
      LowBitsSplit(x / 2, a, b - 1);
    } else {
      assert LowBits(x, 0) == [];
    }
  }

  lemma {:induction false} LowBitsShift(x: nat, n: nat, k: nat)
    ensures LowBits(ShiftLeft(x, k), n + k) == LowBits(x, n) + Zeros(k)
    decreases k
  {
    if k == 0 {
      assert Zeros(0) == [];
    } else {
      LowBitsShift(2 * x, n + 1, k - 1);
      assert LowBits(2 * x, n + 1) == LowBits(x, n) + [false];
      assert Zeros(k) == [false] + Zeros(k - 1);
    }
  }

  /** Bits from 2^k up do not show in the low `n <= k` bits. */
  lemma {:induction false} LowBitsWrap(r: nat, q: nat, k: nat, n: nat)
    requires n <= k
    ensures LowBits(r + q * Pow2(k), n) == LowBits(r, n)
  {
    if n == 0 {
    } else {
      var t := q * Pow2(k - 1);
      assert q * Pow2(k) == 2 * t;
      LowBitsWrap(r / 2, q, k - 1, n - 1);
    }
  }

  lemma LowFive(x: nat)
    ensures LowBits(x % 32, 5) == LowBits(x, 5)
  {
    LowBitsWrap(x % 32, x / 32, 5, 5);
    assert Pow2(5) == 32;
  }

  lemma {:induction false} LowBitsAdd(x: nat, v: nat, n: nat, k: nat)
    requires v < Pow2(k)
    ensures LowBits(x * Pow2(k) + v, n + k) == LowBits(x, n) + LowBits(v, k)
  {
    if k > 0 {
      var t := x * Pow2(k - 1);
      assert x * Pow2(k) == 2 * t;
      assert (2 * t + v) / 2 == t + v / 2 && (2 * t + v) % 2 == v % 2;
      LowBitsAdd(x, v / 2, n, k - 1);
    } else {
      assert LowBits(v, 0) == [];
    }
  }

  const WORD: nat := 0x1_0000_0000

  lemma WordIsPower()
    ensures Pow2(32) == WORD
  {
    assert Pow2(8) == 256;
    Pow2Add(8, 8);
    assert Pow2(16) == 65536;
    Pow2Add(16, 16);
  }

  lemma Truncated(x: nat, n: nat)
    requires n <= 32
    ensures LowBits(x % WORD, n) == LowBits(x, n)
  {
    WordIsPower();
    LowBitsWrap(x % WORD, x / WORD, 32, n);
  }

  /** A byte enters at the low end; truncation to 32 bits spares the low `bits + 8`. */
  lemma ShiftIn(buffer: nat, value: Byte, bits: nat)
    requires bits <= 24
    ensures LowBits((buffer * 256 + value) % WORD, bits + 8) == LowBits(buffer, bits) + LowBits(value, BYTE)
  {
    Truncated(buffer * 256 + value, bits + 8);
    assert Pow2(8) == 256;
    LowBitsAdd(buffer, value, bits, 8);
  }

  function TopFive(buffer: nat, bits: nat): Digit { ShiftRight(buffer, bits) % 32 }

  function LastFive(buffer: nat, bits: nat): Digit
    requires bits < 5
  {
    ShiftLeft(buffer, 5 - bits) % 32
  }

  lemma EmitDigit(out: seq<Digit>, buffer: nat, bits: nat)
    ensures Unpack(out + [TopFive(buffer, bits)]) + LowBits(buffer, bits) == Unpack(out) + LowBits(buffer, bits + 5)
  {
    LowBitsSplit(buffer, 5, bits);
    LowFive(ShiftRight(buffer, bits));
    assert (out + [TopFive(buffer, bits)])[..|out|] == out;
  }

  lemma EmitLast(out: seq<Digit>, buffer: nat, bits: nat)
    requires 0 < bits < 5
    ensures Unpack(out + [LastFive(buffer, bits)]) == Unpack(out) + LowBits(buffer, bits) + Zeros(5 - bits)
  {
    LowBitsShift(buffer, bits, 5 - bits);
    LowFive(ShiftLeft(buffer, 5 - bits));
    assert (out + [LastFive(buffer, bits)])[..|out|] == out;
  }

  lemma BitStringNext(contents: seq<Byte>, i: nat)
    requires i < |contents|
    ensures BitString(contents[..i + 1]) == BitString(contents[..i]) + LowBits(contents[i], BYTE)
  {
    assert contents[..i + 1][..i] == contents[..i];
  }

  lemma Extended<T>(out: seq<T>, low: seq<T>, low': seq<T>, byte: seq<T>, all: seq<T>, all': seq<T>)
    requires out + low == all && low' == low + byte && all' == all + byte
    ensures out + low' == all'
  {}

  /** The digits so far and the bits waiting in the buffer are the bits of the first `n` bytes. */
  predicate Carries(out: seq<Digit>, buffer: nat, bits: nat, contents: seq<Byte>, n: nat) {
    n <= |contents| && Unpack(out) + LowBits(buffer, bits) == BitString(contents[..n])
  }

  lemma TakeBits(out: seq<Digit>, buffer: nat, next: nat, bits: nat, contents: seq<Byte>, i: nat)
    requires i < |contents| && LowBits(next, bits + 8) == LowBits(buffer, bits) + LowBits(contents[i], BYTE)
    requires Carries(out, buffer, bits, contents, i)
    ensures Carries(out, next, bits + 8, contents, i + 1)
  {
    BitStringNext(contents, i);
    Extended(Unpack(out), LowBits(buffer, bits), LowBits(next, bits + 8), LowBits(contents[i], BYTE),
             BitString(contents[..i]), BitString(contents[..i + 1]));
  }

  lemma TakeByte(out: seq<Digit>, buffer: nat, bits: nat, contents: seq<Byte>, i: nat)
    requires i < |contents| && bits < 5 && Carries(out, buffer, bits, contents, i)
    ensures Carries(out, (buffer * 256 + contents[i]) % WORD, bits + 8, contents, i + 1)
  {
    ShiftIn(buffer, contents[i], bits);
    TakeBits(out, buffer, (buffer * 256 + contents[i]) % WORD, bits, contents, i);
  }

  lemma GiveDigit(out: seq<Digit>, buffer: nat, bits: nat, contents: seq<Byte>, n: nat)
    requires Carries(out, buffer, bits + 5, contents, n)
    ensures Carries(out + [TopFive(buffer, bits)], buffer, bits, contents, n)
  {
    EmitDigit(out, buffer, bits);
  }

  lemma GroupOf(out: seq<Digit>, bits: seq<bool>)
    requires |bits| % 5 == 0 && Unpack(out) == bits
    ensures out == Group(bits)
  {
    UnpackGroup(bits);
    UnpackInjective(out, Group(bits));
  }

  /** Digits that hold the input's bits and at most four zeros are the packed input. */
  lemma Completes(out: seq<Digit>, pad: nat, contents: seq<Byte>)
    requires pad < 5 && Unpack(out) == BitString(contents) + Zeros(pad)
    ensures out == Pack(contents)
  {
    assert |Unpack(out)| == 8 * |contents| + pad;
    GroupOf(out, Padded(contents));
  }

  lemma FinishEven(out: seq<Digit>, buffer: nat, contents: seq<Byte>)
    requires Carries(out, buffer, 0, contents, |contents|)
    ensures out == Pack(contents)
  {
    assert contents[..|contents|] == contents;
    assert Unpack(out) == BitString(contents) + Zeros(0);
    Completes(out, 0, contents);
  }

  lemma FinishLast(out: seq<Digit>, buffer: nat, bits: nat, contents: seq<Byte>)
    requires 0 < bits < 5 && Carries(out, buffer, bits, contents, |contents|)
    ensures out + [LastFive(buffer, bits)] == Pack(contents)
  {
    assert contents[..|contents|] == contents;
    EmitLast(out, buffer, bits);
    Completes(out + [LastFive(buffer, bits)], 5 - bits, contents);
  }

  /** The digits emitted so far, plus what is left in the buffer, make the packed output. */
  lemma Finish(out: seq<Digit>, buffer: nat, bits: nat, contents: seq<Byte>)
    requires bits < 5 && Carries(out, buffer, bits, contents, |contents|)
    ensures bits == 0 ==> out == Pack(contents)
    ensures bits > 0 ==> out + [LastFive(buffer, bits)] == Pack(contents)
  {
    if bits == 0 {
      FinishEven(out, buffer, contents);
    } else {
      FinishLast(out, buffer, bits, contents);
    }
  }

  lemma CarriesNothing(contents: seq<Byte>)
    ensures Carries([], 0, 0, contents, 0)
  {
    assert contents[..0] == [];
  }

  /**
   `crockford`: the buffer is a uint32, so bits shifted past bit 31 are lost; the
   loop never needs more than the low twelve.
   */
  method Crockford(contents: seq<Byte>) returns (text: string)
    ensures text == Spell(Pack(contents))
    ensures |text| == PackedLength(|contents|)
  {
    text := "";
    var buffer: nat, bits: nat := 0, 0;
    ghost var out: seq<Digit> := [];
    CarriesNothing(contents);
    for i := 0 to |contents|
      invariant bits < 5
      invariant text == Spell(out)
      invariant Carries(out, buffer, bits, contents, i)
    {
      TakeByte(out, buffer, bits, contents, i);
      buffer := (buffer * 256 + contents[i]) % WORD;
      bits := bits + 8;
      while bits >= 5
        invariant bits <= 12
        invariant text == Spell(out)
        invariant Carries(out, buffer, bits, contents, i + 1)
      {
        bits := bits - 5;
        GiveDigit(out, buffer, bits, contents, i + 1);
        var d := TopFive(buffer, bits);
        SpellNext(out, d);
        out := out + [d];
        text := text + [CROCKFORD[d]];
      }
    }
    Finish(out, buffer, bits, contents);
    if bits > 0 {
      var d := LastFive(buffer, bits);
      SpellNext(out, d);
      text := text + [CROCKFORD[d]];
    }
  }
}
