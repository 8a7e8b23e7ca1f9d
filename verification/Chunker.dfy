/**
 Content-defined chunking (internal/snapshot/chunker.go): a gear hash rolls over
 the bytes and a chunk ends where its low 18 bits are zero, between 64 KiB and
 512 KiB.
 */
module Chunker {
  import opened Text

  const MINIMUM := 65536
  const MAXIMUM := 524288
  const AVERAGE := 262144
  const WORD := 0x1_0000_0000_0000_0000
  const WINDOW := 18

  /** Any gear table will do for the chunking laws; `ChunkFile` uses the one of `GearTable`. */
  type Table = t: seq<nat> | |t| == 256 witness seq(256, _ => 0)

  // ---- the gear table ----

  const STEP := 0x9e37_79b9_7f4a_7c15

  /** The finalizer of splitmix64. */
  function Mix(value: bv64): bv64 {
    var a := (value ^ (value >> 30)) * 0xbf58476d1ce4e5b9;
    var b := (a ^ (a >> 27)) * 0x94d049bb133111eb;
    b ^ (b >> 31)
  }

  const MIX: nat -> nat := n => Mix((n % WORD) as bv64) as nat

  /** Entry `i` is the output of splitmix64 number `i + 2` for the seed 0. */
  function Gear(mix: nat -> nat, i: nat): nat { mix((i + 2) * STEP % WORD) }

  /** The initializer of `gearTable`, with `mix` the finalizer on words as numbers. */
  method GearTable(mix: nat -> nat) returns (table: Table)
    ensures forall i :: 0 <= i < 256 ==> table[i] == Gear(mix, i)
  {
    var entries: seq<nat> := [];
    var value := STEP;
    for index := 0 to 256
      invariant |entries| == index && value == (index + 1) * STEP % WORD
      invariant forall i :: 0 <= i < index ==> entries[i] == Gear(mix, i)
    {
      value := (value + STEP) % WORD;
      StepWraps(index + 1);
      entries := entries + [mix(value)];
    }
    table := entries;
  }

  lemma WrapShift(x: int, k: int)
    ensures (x + k * WORD) % WORD == x % WORD
  {
    var q, r := x / WORD, x % WORD;
    assert x + k * WORD == (q + k) * WORD + r;
  }

  lemma StepWraps(n: nat)
    ensures (n * STEP % WORD + STEP) % WORD == (n + 1) * STEP % WORD
  {
    var a := n * STEP;
    var k := a / WORD;
    assert (n + 1) * STEP == a + STEP;
    assert a == a % WORD + k * WORD;
    WrapShift(a % WORD + STEP, k);
  }

  /** The numbers mixed are all different: the step is odd, so a word recurs only after 2^64 steps. */
  lemma SeedsDiffer(i: nat, j: nat)
    requires i < j < 256
    ensures (i + 2) * STEP % WORD != (j + 2) * STEP % WORD
  {
    var p, q := (i + 2) * STEP / WORD, (j + 2) * STEP / WORD;
    assert (i + 2) * STEP == p * WORD + (i + 2) * STEP % WORD;
    assert (j + 2) * STEP == q * WORD + (j + 2) * STEP % WORD;
    if (i + 2) * STEP % WORD == (j + 2) * STEP % WORD {
      assert (j - i) * STEP == (q - p) * WORD;
      OddStep(j - i, q - p);
    }
  }

  /** The step has an inverse modulo 2^64. */
  lemma OddStep(d: int, k: int)
    requires d * STEP == k * WORD
    ensures d <= 0 || d >= WORD
  {
    var t := k * 0xf1de_83e1_9937_733d - d * 10771413168148108919;
    assert STEP * 0xf1de_83e1_9937_733d == 1 + 10771413168148108919 * WORD;
    assert d == t * WORD;
  }

  // ---- the rolling hash ----

  /** One byte rolls in; 64-bit arithmetic wraps around. */
  function Roll(g: Table, rolling: nat, b: Byte): nat { (2 * rolling + g[b]) % WORD }

  function Hash(g: Table, s: seq<Byte>): nat {
    if s == [] then 0 else Roll(g, Hash(g, s[..|s| - 1]), s[|s| - 1])
  }

  /** The low 18 bits, the mask AVERAGE - 1, are all zero. */
  predicate Hit(g: Table, s: seq<Byte>) { Hash(g, s) % AVERAGE == 0 }

  /** The test that ends a chunk whose bytes so far are `s`. */
  predicate Cuts(g: Table, s: seq<Byte>) {
    |s| >= MINIMUM && (Hit(g, s) || |s| >= MAXIMUM)
  }

  /** No non-empty prefix of `s` ends a chunk. */
  predicate Open(g: Table, s: seq<Byte>) {
    forall n :: 0 < n <= |s| ==> !Cuts(g, s[..n])
  }

  /** `s` ends a chunk and no shorter prefix does. */
  predicate Whole(g: Table, s: seq<Byte>) {
    s != [] && Cuts(g, s) && Open(g, s[..|s| - 1])
  }

  /** Length of the first chunk of `s`, or 0 if `s` holds no complete chunk; prefixes below `n` are known open. */
  function FirstCut(g: Table, s: seq<Byte>, n: nat): (k: nat)
    requires 0 < n <= |s| + 1 && Open(g, s[..n - 1])
    ensures k <= |s|
    ensures k > 0 ==> Whole(g, s[..k])
    ensures k == 0 ==> Open(g, s)
    decreases |s| - n + 1
  {
    if n > |s| then assert s[..n - 1] == s; 0
    else if Cuts(g, s[..n]) then assert s[..n][..n - 1] == s[..n - 1]; n
    else
      OpenOneMore(g, s, n);
      FirstCut(g, s, n + 1)
  }

  lemma OpenOneMore(g: Table, s: seq<Byte>, n: nat)
    requires 0 < n <= |s| && Open(g, s[..n - 1]) && !Cuts(g, s[..n])
    ensures Open(g, s[..n])
  {
    forall m | 0 < m <= n
      ensures !Cuts(g, s[..n][..m])
    {
      assert s[..n][..m] == s[..m];
      assert m < n ==> s[..n - 1][..m] == s[..m];
    }
  }

  /** Reference definition of the chunks of a file. */
  function Chunks(g: Table, s: seq<Byte>): seq<seq<Byte>>
    decreases |s|
  {
    if s == [] then []
    else
      assert Open(g, s[..0]);
      var k := FirstCut(g, s, 1);
      if k == 0 then [s] else [s[..k]] + Chunks(g, s[k..])
  }

  // ---- sizes ----

  lemma OpenIsShort(g: Table, s: seq<Byte>)
    requires Open(g, s)
    ensures |s| < MAXIMUM
  {
    assert |s| >= MAXIMUM ==> Cuts(g, s[..MAXIMUM]);
  }

  lemma WholeSize(g: Table, s: seq<Byte>)
    requires Whole(g, s)
    ensures FullSize(s)
  {
    OpenIsShort(g, s[..|s| - 1]);
  }

  lemma OpenBelow(g: Table, s: seq<Byte>, j: nat, k: nat)
    requires 0 < j <= |s| && 0 < k <= |s| && Cuts(g, s[..j]) && Open(g, s[..k - 1])
    ensures k <= j
  {
    assert forall n :: 0 < n <= k - 1 ==> s[..k - 1][..n] == s[..n];
  }

  /** A prefix that is whole is the only whole prefix. */
  lemma WholeUnique(g: Table, s: seq<Byte>, j: nat, k: nat)
    requires j <= |s| && k <= |s| && Whole(g, s[..j]) && Whole(g, s[..k])
    ensures j == k
  {
    assert s[..j][..j - 1] == s[..j - 1] && s[..k][..k - 1] == s[..k - 1];
    OpenBelow(g, s, j, k);
    OpenBelow(g, s, k, j);
  }

  lemma WholeFirst(g: Table, e: seq<Byte>, r: seq<Byte>)
    requires Whole(g, e)
    ensures Chunks(g, e + r) == [e] + Chunks(g, r)
  {
    var s := e + r;
    assert Open(g, s[..0]);
    var k := FirstCut(g, s, 1);
    assert s[..|e|] == e;
    WholeUnique(g, s, |e|, k);
    assert s[|e|..] == r;
  }

  lemma OpenLast(g: Table, s: seq<Byte>)
    requires Open(g, s)
    ensures Chunks(g, s) == if s == [] then [] else [s]
  {
    if s != [] {
      assert Open(g, s[..0]);
      var k := FirstCut(g, s, 1);
    }
  }

  predicate FullSize(chunk: seq<Byte>) { MINIMUM <= |chunk| <= MAXIMUM }

  /** All chunks are whole, at 64 KiB to 512 KiB, but for a possible remainder: not empty, open and under 512 KiB. */
  predicate Sized(g: Table, chunks: seq<seq<Byte>>) {
    (forall i :: 0 <= i < |chunks| - 1 ==> Whole(g, chunks[i]) && FullSize(chunks[i])) &&
    (chunks != [] ==>
       var last := chunks[|chunks| - 1];
       (Whole(g, last) && FullSize(last)) || (Open(g, last) && 0 < |last| < MAXIMUM))
  }

  lemma SizedFirst(g: Table, chunk: seq<Byte>, rest: seq<seq<Byte>>)
    requires Whole(g, chunk) && FullSize(chunk) && Sized(g, rest)
    ensures Sized(g, [chunk] + rest)
  {
    var all := [chunk] + rest;
    assert forall i :: 0 < i < |all| ==> all[i] == rest[i - 1];
  }

  lemma ConcatFirst(chunk: seq<Byte>, rest: seq<seq<Byte>>)
    ensures Concat([chunk] + rest) == chunk + Concat(rest)
  {
    ConcatAppend([chunk], rest);
    ConcatOne(chunk);
  }

  lemma SizedLast(g: Table, s: seq<Byte>)
    requires s != [] && Open(g, s)
    ensures Sized(g, [s])
  {
    OpenIsShort(g, s);
  }

  lemma {:induction false} ChunksConcat(g: Table, s: seq<Byte>)
    ensures Concat(Chunks(g, s)) == s
    decreases |s|
  {
    if s == [] {
    } else {
      assert Open(g, s[..0]);
      var k := FirstCut(g, s, 1);
      if k == 0 {
        ConcatOne(s);
      } else {
        ChunksConcat(g, s[k..]);
        ConcatFirst(s[..k], Chunks(g, s[k..]));
        assert s == s[..k] + s[k..];
      }
    }
  }

  /** The chunks of any input have such sizes and concatenate to the input. */
  lemma {:induction false} ChunkSizes(g: Table, s: seq<Byte>)
    ensures Sized(g, Chunks(g, s))
    ensures Concat(Chunks(g, s)) == s
    decreases |s|
  {
    ChunksConcat(g, s);
    if s == [] {
    } else {
      assert Open(g, s[..0]);
      var k := FirstCut(g, s, 1);
      if k == 0 {
        SizedLast(g, s);
      } else {
        WholeSize(g, s[..k]);
        ChunkSizes(g, s[k..]);
        SizedFirst(g, s[..k], Chunks(g, s[k..]));
      }
    }
  }

  // ---- the hash only remembers eighteen bytes ----

  /** The hash before any wrap-around. */
  function Weight(g: Table, s: seq<Byte>): nat {
    if s == [] then 0 else 2 * Weight(g, s[..|s| - 1]) + g[s[|s| - 1]]
  }

  lemma ModShift(x: int, k: int)
    ensures (x + k * AVERAGE) % AVERAGE == x % AVERAGE
  {
    var q, r := x / AVERAGE, x % AVERAGE;
    assert x + k * AVERAGE == (q + k) * AVERAGE + r;
  }

  lemma ModWord(x: nat)
    ensures (x % WORD) % AVERAGE == x % AVERAGE
  {
    var q := x / WORD;
    assert x == x % WORD + (q * 0x4000_0000_0000) * AVERAGE;
    ModShift(x % WORD, q * 0x4000_0000_0000);
  }

  lemma ModDouble(a: nat, b: nat, v: nat)
    requires a % AVERAGE == b % AVERAGE
    ensures (2 * a + v) % AVERAGE == (2 * b + v) % AVERAGE
  {
    var k := a / AVERAGE - b / AVERAGE;
    assert 2 * a + v == 2 * b + v + (2 * k) * AVERAGE by {
      assert a == (a / AVERAGE) * AVERAGE + a % AVERAGE;
      assert b == (b / AVERAGE) * AVERAGE + b % AVERAGE;
    }
    ModShift(2 * b + v, 2 * k);
  }

  lemma {:induction false} HashIsWeight(g: Table, s: seq<Byte>)
    ensures Hash(g, s) % AVERAGE == Weight(g, s) % AVERAGE
  {
    if s == [] {
    } else {
      var init, v := s[..|s| - 1], g[s[|s| - 1]];
      HashIsWeight(g, init);
      ModDouble(Hash(g, init), Weight(g, init), v);
      ModWord(2 * Hash(g, init) + v);
    }
  }

  lemma {:induction false} WeightSplits(g: Table, p: seq<Byte>, w: seq<Byte>)
    ensures Weight(g, p + w) == Weight(g, p) * Pow2(|w|) + Weight(g, w)
  {
    if w == [] {
      assert p + w == p;
    } else {
      var init := w[..|w| - 1];
      WeightSplits(g, p, init);
      assert (p + w)[..|p + w| - 1] == p + init;
      assert Weight(g, p) * Pow2(|w|) == 2 * (Weight(g, p) * Pow2(|init|));
    }
  }

  lemma Pow18()
    ensures Pow2(WINDOW) == AVERAGE
  {
    Pow2Add(9, 9);
    assert Pow2(3) == 8;
    assert Pow2(6) == 64;
    assert Pow2(9) == 512;
  }

  /**
   Despite 64-bit wrap-around, the cut test depends on nothing but the last 18
   bytes (and the length of the chunk).
   */
  lemma HitIsLocal(g: Table, p: seq<Byte>, w: seq<Byte>)
    requires |w| == WINDOW
    ensures Hit(g, p + w) <==> Hit(g, w)
  {
    HashIsWeight(g, p + w);
    HashIsWeight(g, w);
    WeightSplits(g, p, w);
    Pow18();
    ModAdd(Weight(g, p), Weight(g, w));
  }

  lemma ModAdd(q: nat, x: nat)
    ensures (q * AVERAGE + x) % AVERAGE == x % AVERAGE
  {
    assert q * AVERAGE + x == (q + x / AVERAGE) * AVERAGE + x % AVERAGE;
  }

  // ---- resynchronization ----

  predicate AllWhole(g: Table, es: seq<seq<Byte>>) {
    forall i :: 0 <= i < |es| ==> Whole(g, es[i])
  }

  lemma {:induction false} WholesFirst(g: Table, es: seq<seq<Byte>>, r: seq<Byte>)
    requires AllWhole(g, es)
    ensures Chunks(g, Concat(es) + r) == es + Chunks(g, r)
  {
    if es == [] {
      assert Concat(es) + r == r;
    } else {
      var init, last := es[..|es| - 1], es[|es| - 1];
      calc {
        Chunks(g, Concat(es) + r);
        { assert Concat(es) + r == Concat(init) + (last + r); }
        Chunks(g, Concat(init) + (last + r));
        { WholesFirst(g, init, last + r); }
        init + Chunks(g, last + r);
        { WholeFirst(g, last, r); }
        init + ([last] + Chunks(g, r));
        { assert es == init + [last]; }
        es + Chunks(g, r);
      }
    }
  }

  /** What is left after some of an input's chunks has the remaining ones as its chunks. */
  lemma {:induction false} ChunksAfter(g: Table, a: seq<Byte>, i: nat, t: seq<Byte>)
    requires i <= |Chunks(g, a)| && Concat(Chunks(g, a)[..i]) + t == a
    ensures Chunks(g, t) == Chunks(g, a)[i..]
    decreases i
  {
    if i == 0 {
      assert Chunks(g, a)[..0] == [] && Concat<Byte>([]) + t == t;
    } else {
      assert Open(g, a[..0]);
      var k := FirstCut(g, a, 1);
      if k == 0 {
        ConcatOne(a);
        assert Chunks(g, a)[..1] == [a];
        assert t == [];
      } else {
        assert a == a[..k] + a[k..];
        AfterFirst(a[..k], Chunks(g, a[k..]), i, t, a[k..]);
        ChunksAfter(g, a[k..], i - 1, t);
      }
    }
  }

  lemma AfterFirst(first: seq<Byte>, rest: seq<seq<Byte>>, i: nat, t: seq<Byte>, tail: seq<Byte>)
    requires 0 < i <= |rest| + 1 && Concat(([first] + rest)[..i]) + t == first + tail
    ensures Concat(rest[..i - 1]) + t == tail
    ensures ([first] + rest)[i..] == rest[i - 1..]
  {
    assert ([first] + rest)[..i] == [first] + rest[..i - 1];
    ConcatFirst(first, rest[..i - 1]);
    assert first + (Concat(rest[..i - 1]) + t) == first + tail;
    assert (first + tail)[|first|..] == tail;
  }

  /** Two inputs with a common tail `t` that both cut where it begins have the same chunks from there on. */
  lemma CommonTail(g: Table, a: seq<Byte>, b: seq<Byte>, i: nat, j: nat, t: seq<Byte>)
    requires i <= |Chunks(g, a)| && Concat(Chunks(g, a)[..i]) + t == a
    requires j <= |Chunks(g, b)| && Concat(Chunks(g, b)[..j]) + t == b
    ensures Chunks(g, a)[i..] == Chunks(g, b)[j..]
  {
    ChunksAfter(g, a, i, t);
    ChunksAfter(g, b, j, t);
  }

  lemma HitsTogether(g: Table, u: seq<Byte>, v: seq<Byte>, t: seq<Byte>)
    requires |t| >= WINDOW
    ensures Hit(g, u + t) <==> Hit(g, v + t)
  {
    var k := |t| - WINDOW;
    assert u + t == (u + t[..k]) + t[k..] && v + t == (v + t[..k]) + t[k..];
    HitIsLocal(g, u + t[..k], t[k..]);
    HitIsLocal(g, v + t[..k], t[k..]);
  }

  lemma WholeByHit(g: Table, s: seq<Byte>)
    requires s != [] && |s| < MAXIMUM && Open(g, s[..|s| - 1])
    ensures Whole(g, s) <==> |s| >= MINIMUM && Hit(g, s)
  {}

  /**
   After an edit the chunkings meet again. Two chunks begin differently (`u`, `v`)
   and go on with the same bytes `t`, then `rest`. If the first is ended by its
   hash after `t`, at least 18 bytes long, the second, if still open there and
   below the maximum, ends at the same point exactly when it has reached the
   minimum; then all following chunks agree.
   */
  lemma Resynchronizes(g: Table, u: seq<Byte>, v: seq<Byte>, t: seq<Byte>, rest: seq<Byte>)
    requires |t| >= WINDOW && Whole(g, u + t) && |u + t| < MAXIMUM
    requires Open(g, (v + t)[..|v + t| - 1]) && |v + t| < MAXIMUM
    ensures Whole(g, v + t) <==> |v + t| >= MINIMUM
    ensures |v + t| >= MINIMUM ==> Chunks(g, u + t + rest) == [u + t] + Chunks(g, rest)
    ensures |v + t| >= MINIMUM ==> Chunks(g, v + t + rest) == [v + t] + Chunks(g, rest)
  {
    HitsTogether(g, u, v, t);
    WholeByHit(g, u + t);
    WholeByHit(g, v + t);
    if |v + t| >= MINIMUM {
      WholeFirst(g, u + t, rest);
      WholeFirst(g, v + t, rest);
    }
  }

  // ---- the reading loop ----

  datatype Status = More | Eof | Broken

  /** One `reader.Read`, or the context having ended before it. */
  datatype Read = Data(bytes: seq<Byte>, status: Status) | Ended

  datatype Outcome = Finished | Cancelled | NoProgress | ReadError | Refused | Waiting

  function Bytes(results: seq<Read>): seq<Byte> {
    if results == [] then []
    else Bytes(results[..|results| - 1]) + (var r := results[|results| - 1]; if r.Data? then r.bytes else [])
  }

  /** Emitted chunks are whole, the current one is open, and together they are the bytes so far. */
  predicate Progress(g: Table, emitted: seq<seq<Byte>>, chunk: seq<Byte>, sofar: seq<Byte>) {
    AllWhole(g, emitted) && Open(g, chunk) && Concat(emitted) + chunk == sofar
  }

  lemma ProgressChunks(g: Table, emitted: seq<seq<Byte>>, chunk: seq<Byte>, sofar: seq<Byte>)
    requires Progress(g, emitted, chunk, sofar)
    ensures Chunks(g, sofar) == emitted + (if chunk == [] then [] else [chunk])
  {
    WholesFirst(g, emitted, chunk);
    OpenLast(g, chunk);
  }

  lemma PushOpen(g: Table, emitted: seq<seq<Byte>>, chunk: seq<Byte>, sofar: seq<Byte>, b: Byte)
    requires Progress(g, emitted, chunk, sofar) && !Cuts(g, chunk + [b])
    ensures Progress(g, emitted, chunk + [b], sofar + [b])
  {
    var c := chunk + [b];
    assert c[..|c| - 1] == chunk && c[..|c|] == c;
    OpenOneMore(g, c, |c|);
    assert Concat(emitted) + c == (Concat(emitted) + chunk) + [b];
  }

  lemma PushCut(g: Table, emitted: seq<seq<Byte>>, chunk: seq<Byte>, sofar: seq<Byte>, b: Byte)
    requires Progress(g, emitted, chunk, sofar) && Cuts(g, chunk + [b])
    ensures Progress(g, emitted + [chunk + [b]], [], sofar + [b])
  {
    var c := chunk + [b];
    assert c[..|c| - 1] == chunk;
    assert (emitted + [c])[..|emitted|] == emitted;
    assert Concat(emitted + [c]) == Concat(emitted) + c;
    assert Concat(emitted) + c == (Concat(emitted) + chunk) + [b];
    assert sofar + [b] + [] == sofar + [b];
  }

  /** The callback has not been called past its refusal. */
  predicate Allowed(refuse: Option<nat>, emitted: seq<seq<Byte>>) { refuse.Some? ==> |emitted| <= refuse.value }

  /** The callback is offered `chunk`, a whole chunk that ends within `buffer`, and refuses it. */
  ghost predicate RefusedIn(g: Table, emitted: seq<seq<Byte>>, chunk: seq<Byte>, sofar: seq<Byte>, buffer: seq<Byte>) {
    AllWhole(g, emitted + [chunk]) &&
    exists k :: 0 < k <= |buffer| && Concat(emitted + [chunk]) == sofar + buffer[..k]
  }

  /** The state within a buffer. */
  ghost predicate Within(
    g: Table, refuse: Option<nat>, emitted: seq<seq<Byte>>, chunk: seq<Byte>, rolling: nat, sofar: seq<Byte>)
  {
    Progress(g, emitted, chunk, sofar) && rolling == Hash(g, chunk) && Allowed(refuse, emitted)
  }

  lemma RollOpen(
    g: Table, refuse: Option<nat>, emitted: seq<seq<Byte>>, chunk: seq<Byte>, rolling: nat, sofar: seq<Byte>, b: Byte)
    requires Within(g, refuse, emitted, chunk, rolling, sofar)
    ensures Roll(g, rolling, b) == Hash(g, chunk + [b])
    ensures !Cuts(g, chunk + [b]) ==> Within(g, refuse, emitted, chunk + [b], Roll(g, rolling, b), sofar + [b])
  {
    assert (chunk + [b])[..|chunk|] == chunk;
    if !Cuts(g, chunk + [b]) { PushOpen(g, emitted, chunk, sofar, b); }
  }

  lemma RollCut(
    g: Table, refuse: Option<nat>, emitted: seq<seq<Byte>>, chunk: seq<Byte>, rolling: nat, sofar: seq<Byte>, b: Byte)
    requires Within(g, refuse, emitted, chunk, rolling, sofar) && Cuts(g, chunk + [b])
    ensures Progress(g, emitted + [chunk + [b]], [], sofar + [b])
    ensures AllWhole(g, emitted + [chunk + [b]]) && Concat(emitted + [chunk + [b]]) == sofar + [b]
  {
    PushCut(g, emitted, chunk, sofar, b);
    assert Concat(emitted + [chunk + [b]]) + [] == Concat(emitted + [chunk + [b]]);
  }

  /** The loop over one buffer; the callback refuses its call number `refuse`, if any. */
  method Feed(
    g: Table, buffer: seq<Byte>, emitted: seq<seq<Byte>>, chunk: seq<Byte>, rolling: nat, refuse: Option<nat>,
    ghost sofar: seq<Byte>)
    returns (ok: bool, emitted': seq<seq<Byte>>, chunk': seq<Byte>, rolling': nat)
    requires Within(g, refuse, emitted, chunk, rolling, sofar)
    ensures ok ==> Within(g, refuse, emitted', chunk', rolling', sofar + buffer)
    ensures !ok ==> refuse == Some(|emitted'|) && RefusedIn(g, emitted', chunk', sofar, buffer)
  {
    emitted', chunk', rolling' := emitted, chunk, rolling;
    assert sofar + buffer[..0] == sofar;
    for i := 0 to |buffer|
      invariant Within(g, refuse, emitted', chunk', rolling', sofar + buffer[..i])
    {
      assert sofar + buffer[..i + 1] == (sofar + buffer[..i]) + [buffer[i]];
      RollOpen(g, refuse, emitted', chunk', rolling', sofar + buffer[..i], buffer[i]);
      ghost var before, hash := chunk', rolling';
      chunk', rolling' := chunk' + [buffer[i]], Roll(g, rolling', buffer[i]);
      if |chunk'| < MINIMUM || (rolling' % AVERAGE != 0 && |chunk'| < MAXIMUM) { continue; }
      RollCut(g, refuse, emitted', before, hash, sofar + buffer[..i], buffer[i]);
      if refuse == Some(|emitted'|) { return false, emitted', chunk', rolling'; }
      emitted', chunk', rolling' := emitted' + [chunk'], [], 0;
    }
    assert buffer[..|buffer|] == buffer;
    ok := true;
  }

  lemma RefusedPrefix(g: Table, emitted: seq<seq<Byte>>, chunk: seq<Byte>, sofar: seq<Byte>, buffer: seq<Byte>)
    requires RefusedIn(g, emitted, chunk, sofar, buffer)
    ensures emitted + [chunk] <= Chunks(g, sofar + buffer)
  {
    var k :| 0 < k <= |buffer| && Concat(emitted + [chunk]) == sofar + buffer[..k];
    assert sofar + buffer == Concat(emitted + [chunk]) + buffer[k..];
    WholesFirst(g, emitted + [chunk], buffer[k..]);
  }

  /** What `Absorb` promises. */
  ghost predicate Absorbed(
    g: Table, refuse: Option<nat>, status: Status, stop: Option<Outcome>,
    emitted: seq<seq<Byte>>, chunk: seq<Byte>, rolling: nat, sofar: seq<Byte>)
  {
    Allowed(refuse, emitted) &&
    match stop
    case None => status == More && Progress(g, emitted, chunk, sofar) && rolling == Hash(g, chunk)
    case Some(outcome) => Stopped(refuse, status, outcome, emitted, Chunks(g, sofar))
  }

  predicate Stopped(
    refuse: Option<nat>, status: Status, outcome: Outcome, emitted: seq<seq<Byte>>, all: seq<seq<Byte>>)
  {
    match outcome
    case Refused => refuse == Some(|emitted|) && emitted < all
    case ReadError => status == Broken && emitted <= all && |all| <= |emitted| + 1
    case Finished => status == Eof && emitted == all
    case _ => false
  }

  /** One read with data or an end: feed it, then act on the reader's status. */
  method Absorb(
    g: Table, bytes: seq<Byte>, status: Status, emitted: seq<seq<Byte>>, chunk: seq<Byte>, rolling: nat,
    refuse: Option<nat>, ghost sofar: seq<Byte>)
    returns (stop: Option<Outcome>, emitted': seq<seq<Byte>>, chunk': seq<Byte>, rolling': nat)
    requires Within(g, refuse, emitted, chunk, rolling, sofar)
    ensures Absorbed(g, refuse, status, stop, emitted', chunk', rolling', sofar + bytes)
  {
    var ok;
    ok, emitted', chunk', rolling' := Feed(g, bytes, emitted, chunk, rolling, refuse, sofar);
    if !ok {
      RefusedPrefix(g, emitted', chunk', sofar, bytes);
      return Some(Refused), emitted', chunk', rolling';
    }
    ProgressChunks(g, emitted', chunk', sofar + bytes);
    match status
    case More => stop := None;
    case Broken => stop := Some(ReadError);
    case Eof =>
      if |chunk'| > 0 {
        if refuse == Some(|emitted'|) { return Some(Refused), emitted', chunk', rolling'; }
        emitted' := emitted' + [chunk'];
      }
      stop := Some(Finished);
  }

  lemma BytesNext(results: seq<Read>, n: nat)
    requires n < |results|
    ensures Bytes(results[..n + 1]) == Bytes(results[..n]) + (if results[n].Data? then results[n].bytes else [])
  {
    assert results[..n + 1][..n] == results[..n];
  }

  /** The reads before `n` all brought data, perhaps none of it, and promised more. */
  predicate Reading(results: seq<Read>, n: nat) {
    n <= |results| && forall k :: 0 <= k < n ==> results[k].Data? && results[k].status == More
  }

  /** The last `empty` reads before `n` brought nothing. */
  predicate Idle(results: seq<Read>, n: nat, empty: nat) {
    empty <= n <= |results| && forall k :: n - empty <= k < n ==> results[k] == Data([], More)
  }

  /**
   What the callback received is a prefix of the reference chunks of the bytes read: all of them at
   EOF, those before the one it refused, and otherwise all but a possible last one.
   */
  ghost predicate Delivered(
    g: Table, results: seq<Read>, refuse: Option<nat>, used: nat, outcome: Outcome, emitted: seq<seq<Byte>>)
  {
    used <= |results| && (used > 0 ==> Reading(results, used - 1)) && Allowed(refuse, emitted) &&
    emitted <= Chunks(g, Bytes(results[..used])) &&
    if outcome == Refused then refuse == Some(|emitted|) && emitted < Chunks(g, Bytes(results[..used]))
    else |Chunks(g, Bytes(results[..used]))| <= |emitted| + 1 && Cause(g, results, used, outcome, emitted)
  }

  ghost predicate Cause(g: Table, results: seq<Read>, used: nat, outcome: Outcome, emitted: seq<seq<Byte>>)
    requires used <= |results|
  {
    match outcome
    case Finished =>
      used > 0 && results[used - 1].Data? && results[used - 1].status == Eof &&
      emitted == Chunks(g, Bytes(results[..used]))
    case ReadError => used > 0 && results[used - 1].Data? && results[used - 1].status == Broken
    case Cancelled => used > 0 && results[used - 1] == Ended
    case NoProgress => Idle(results, used, 100)
    case Waiting => used == |results| && Reading(results, used)
    case Refused => false
  }

  /** A stop between buffers: the chunk under way is not delivered. */
  lemma DeliveredPart(
    g: Table, results: seq<Read>, refuse: Option<nat>, used: nat, outcome: Outcome,
    emitted: seq<seq<Byte>>, chunk: seq<Byte>)
    requires used <= |results| && (used > 0 ==> Reading(results, used - 1)) && Allowed(refuse, emitted)
    requires Progress(g, emitted, chunk, Bytes(results[..used]))
    requires outcome != Refused && Cause(g, results, used, outcome, emitted)
    ensures Delivered(g, results, refuse, used, outcome, emitted)
  {
    ProgressChunks(g, emitted, chunk, Bytes(results[..used]));
  }

  /** The state between two reads. */
  ghost predicate Between(
    g: Table, results: seq<Read>, refuse: Option<nat>, used: nat,
    emitted: seq<seq<Byte>>, chunk: seq<Byte>, rolling: nat, empty: nat)
  {
    Reading(results, used) && Allowed(refuse, emitted) && empty < 100 && Idle(results, used, empty) &&
    Progress(g, emitted, chunk, Bytes(results[..used])) && rolling == Hash(g, chunk)
  }

  lemma BetweenStart(g: Table, results: seq<Read>, refuse: Option<nat>)
    ensures Between(g, results, refuse, 0, [], [], 0, 0)
  {
    assert Concat<Byte>([]) + [] == [];
  }

  /** An empty read, or none because the context ended. */
  lemma AfterIdle(
    g: Table, results: seq<Read>, refuse: Option<nat>, used: nat,
    emitted: seq<seq<Byte>>, chunk: seq<Byte>, rolling: nat, empty: nat)
    requires Between(g, results, refuse, used, emitted, chunk, rolling, empty) && used < |results|
    requires results[used] == Ended || results[used] == Data([], More)
    ensures results[used] == Ended ==> Delivered(g, results, refuse, used + 1, Cancelled, emitted)
    ensures results[used] != Ended && empty == 99 ==> Delivered(g, results, refuse, used + 1, NoProgress, emitted)
    ensures results[used] != Ended && empty < 99 ==>
              Between(g, results, refuse, used + 1, emitted, chunk, rolling, empty + 1)
  {
    BytesNext(results, used);
    assert Bytes(results[..used]) + [] == Bytes(results[..used]);
    ProgressChunks(g, emitted, chunk, Bytes(results[..used + 1]));
  }

  /** The state after a read with data or an end. */
  lemma Settle(
    g: Table, results: seq<Read>, refuse: Option<nat>, used: nat, stop: Option<Outcome>,
    emitted: seq<seq<Byte>>, chunk: seq<Byte>, rolling: nat)
    requires used < |results| && Reading(results, used) && results[used].Data?
    requires Absorbed(g, refuse, results[used].status, stop, emitted, chunk, rolling,
                      Bytes(results[..used]) + results[used].bytes)
    ensures stop.None? ==> Between(g, results, refuse, used + 1, emitted, chunk, rolling, 0)
    ensures stop.Some? ==> stop.value != Waiting && Delivered(g, results, refuse, used + 1, stop.value, emitted)
  {
    BytesNext(results, used);
  }

  /** `ChunkReader`, however the reader splits the input. */
  method ChunkReader(g: Table, results: seq<Read>, refuse: Option<nat>)
    returns (emitted: seq<seq<Byte>>, outcome: Outcome, used: nat)
    ensures Delivered(g, results, refuse, used, outcome, emitted)
  {
    emitted, outcome, used := [], Waiting, 0;
    var chunk: seq<Byte>, rolling, emptyReads := [], 0, 0;
    BetweenStart(g, results, refuse);
    while outcome == Waiting && used < |results|
      invariant used <= |results|
      invariant outcome == Waiting ==> Between(g, results, refuse, used, emitted, chunk, rolling, emptyReads)
      invariant outcome != Waiting ==> Delivered(g, results, refuse, used, outcome, emitted)
    {
      var read := results[used];
      if read.Ended? || (read.bytes == [] && read.status == More) {
        AfterIdle(g, results, refuse, used, emitted, chunk, rolling, emptyReads);
        emptyReads := emptyReads + 1;
        outcome := if read.Ended? then Cancelled else if emptyReads >= 100 then NoProgress else Waiting;
      } else {
        ghost var sofar := Bytes(results[..used]);
        var stop;
        stop, emitted, chunk, rolling := Absorb(g, read.bytes, read.status, emitted, chunk, rolling, refuse, sofar);
        Settle(g, results, refuse, used, stop, emitted, chunk, rolling);
        emptyReads := 0;
        if stop.Some? { outcome := stop.value; }
      }
      used := used + 1;
    }
    if outcome == Waiting { DeliveredPart(g, results, refuse, used, outcome, emitted, chunk); }
  }

  /** The input reaches EOF with the last read, and never stalls for 100 reads. */
  predicate Ends(results: seq<Read>) {
    results != [] && Reading(results, |results| - 1) &&
    results[|results| - 1].Data? && results[|results| - 1].status == Eof &&
    forall n :: 0 <= n < |results| ==> !Idle(results, n, 100)
  }

  lemma {:induction false} MoreChunks(g: Table, a: seq<Byte>, b: seq<Byte>)
    ensures |Chunks(g, a)| <= |Chunks(g, a + b)|
    decreases |a|
  {
    if a == [] {
    } else {
      assert Open(g, a[..0]);
      var k := FirstCut(g, a, 1);
      if k > 0 {
        assert a + b == a[..k] + (a[k..] + b);
        WholeFirst(g, a[..k], a[k..] + b);
        MoreChunks(g, a[k..], b);
      }
    }
  }

  lemma {:induction false} BytesPrefix(results: seq<Read>, n: nat)
    requires n <= |results|
    ensures Bytes(results[..n]) <= Bytes(results)
    decreases |results|
  {
    if n == |results| {
      assert results[..n] == results;
    } else {
      assert results[..|results| - 1][..n] == results[..n];
      BytesPrefix(results[..|results| - 1], n);
    }
  }

  lemma PrefixChunks(g: Table, results: seq<Read>, n: nat)
    requires n <= |results|
    ensures |Chunks(g, Bytes(results[..n]))| <= |Chunks(g, Bytes(results))|
  {
    var part, all := Bytes(results[..n]), Bytes(results);
    BytesPrefix(results, n);
    MoreChunks(g, part, all[|part|..]);
    assert part + all[|part|..] == all;
  }

  lemma EofCause(g: Table, results: seq<Read>, used: nat, outcome: Outcome, emitted: seq<seq<Byte>>)
    requires Ends(results) && used <= |results| && Cause(g, results, used, outcome, emitted)
    ensures outcome == Finished && used == |results|
  {
    var n := |results| - 1;
    assert used == |results| ==> results[used - 1] == results[n];
    assert used == |results| ==> !Reading(results, used) && !Idle(results, used, 100);
  }

  /** For a caller: an input that reaches EOF, however it is split, is delivered in full to a willing callback. */
  lemma EofDelivers(
    g: Table, results: seq<Read>, refuse: Option<nat>, used: nat, outcome: Outcome, emitted: seq<seq<Byte>>)
    requires Delivered(g, results, refuse, used, outcome, emitted) && Ends(results)
    requires refuse.Some? ==> refuse.value >= |Chunks(g, Bytes(results))|
    ensures outcome == Finished && used == |results| && emitted == Chunks(g, Bytes(results))
  {
    PrefixChunks(g, results, used);
    assert outcome != Refused;
    EofCause(g, results, used, outcome, emitted);
    assert results[..used] == results;
  }

  /** The chunker as the program has it, with its own table. */
  method ChunkFile(results: seq<Read>, refuse: Option<nat>)
    returns (g: Table, emitted: seq<seq<Byte>>, outcome: Outcome, used: nat)
    ensures forall i :: 0 <= i < 256 ==> g[i] == Gear(MIX, i)
    ensures Delivered(g, results, refuse, used, outcome, emitted)
  {
    g := GearTable(MIX);
    emitted, outcome, used := ChunkReader(g, results, refuse);
  }
}
