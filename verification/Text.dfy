/** Bytes, powers of two and the slash-style splitting that Go's `strings.Split` does. */
module Text {

  type Byte = x: int | 0 <= x < 256

  datatype Option<+T> = None | Some(value: T)

  function Min(a: nat, b: nat): nat { if a < b then a else b }

  /** The white space of JavaScript's `trim` and `\s`, by code unit. */
  predicate ScriptSpace(n: int) {
    9 <= n <= 13 || n == 32 || n == 0xA0 || n == 0x1680 || 0x2000 <= n <= 0x200A ||
    n == 0x2028 || n == 0x2029 || n == 0x202F || n == 0x205F || n == 0x3000 || n == 0xFEFF
  }

  function Pow2(n: nat): (p: nat)
    ensures p > 0
  {
    if n == 0 then 1 else 2 * Pow2(n - 1)
  }

  lemma {:induction false} Pow2Add(a: nat, b: nat)
    ensures Pow2(a + b) == Pow2(a) * Pow2(b)
  {
    if a == 0 {
    } else {
      Pow2Add(a - 1, b);
      assert Pow2(a + b) == 2 * Pow2((a - 1) + b);
    }
  }

  /** The concatenation of a sequence of pieces. */
  function Concat<T>(pieces: seq<seq<T>>): seq<T> {
    if pieces == [] then [] else Concat(pieces[..|pieces| - 1]) + pieces[|pieces| - 1]
  }

  lemma {:induction false} ConcatAppend<T>(left: seq<seq<T>>, right: seq<seq<T>>)
    ensures Concat(left + right) == Concat(left) + Concat(right)
  {
    if right == [] {
      assert left + right == left;
    } else {
      var init := right[..|right| - 1];
      ConcatAppend(left, init);
      assert (left + right)[..|left + right| - 1] == left + init;
    }
  }

  lemma ConcatOne<T>(piece: seq<T>)
    ensures Concat([piece]) == piece
  {
    assert Concat([piece]) == Concat<T>([]) + piece;
  }

  lemma SliceOfPrefix<T>(s: seq<T>, n: nat, a: nat, b: nat)
    requires a <= b <= n <= |s|
    ensures s[..n][a..b] == s[a..b]
  {}

  /** The first position of `sep` at or after `from`, or the length. */
  function IndexFrom<T(==)>(s: seq<T>, sep: T, from: nat): (k: nat)
    requires from <= |s|
    ensures from <= k <= |s|
    ensures sep !in s[from..k]
    ensures k < |s| ==> s[k] == sep
    decreases |s| - from
  {
    if from == |s| || s[from] == sep then from else IndexFrom(s, sep, from + 1)
  }

  /** `strings.Split` for a one-element separator: never empty. */
  function Split<T(==)>(s: seq<T>, sep: T): (parts: seq<seq<T>>)
    ensures |parts| >= 1
    ensures forall p :: p in parts ==> sep !in p
    decreases |s|
  {
    var k := IndexFrom(s, sep, 0);
    if k == |s| then assert s[0..k] == s; [s]
    else assert s[0..k] == s[..k]; [s[..k]] + Split(s[k + 1..], sep)
  }

  function Join<T>(parts: seq<seq<T>>, sep: T): seq<T> {
    if parts == [] then []
    else if |parts| == 1 then parts[0]
    else parts[0] + [sep] + Join(parts[1..], sep)
  }

  lemma Rejoined<T>(s: seq<T>, sep: T, k: nat)
    requires k < |s| && s[k] == sep
    ensures s == s[..k] + [sep] + s[k + 1..]
  {}

  lemma {:induction false} JoinSplit<T>(s: seq<T>, sep: T)
    ensures Join(Split(s, sep), sep) == s
    decreases |s|
  {
    var k := IndexFrom(s, sep, 0);
    if k >= |s| {
    } else {
      JoinSplit(s[k + 1..], sep);
      var rest := Split(s[k + 1..], sep);
      assert ([s[..k]] + rest)[1..] == rest;
      Rejoined(s, sep, k);
    }
  }

  lemma {:induction false} FirstSeparator<T>(head: seq<T>, sep: T, rest: seq<T>, from: nat)
    requires sep !in head && from <= |head|
    ensures IndexFrom(head + [sep] + rest, sep, from) == |head|
    decreases |head| - from
  {
    if from >= |head| {
    } else {
      assert head[from] in head;
      FirstSeparator(head, sep, rest, from + 1);
    }
  }

  lemma SplitWhole<T>(s: seq<T>, sep: T)
    requires sep !in s
    ensures Split(s, sep) == [s]
  {
    var k := IndexFrom(s, sep, 0);
    assert k == |s|;
  }

  lemma SplitFirst<T>(head: seq<T>, sep: T, rest: seq<T>)
    requires sep !in head
    ensures Split(head + [sep] + rest, sep) == [head] + Split(rest, sep)
  {
    var s := head + [sep] + rest;
    FirstSeparator(head, sep, rest, 0);
    assert s[|head| + 1..] == rest && s[..|head|] == head;
  }

  lemma {:induction false} SplitJoin<T>(parts: seq<seq<T>>, sep: T)
    requires parts != []
    requires forall p :: p in parts ==> sep !in p
    ensures Split(Join(parts, sep), sep) == parts
    decreases |parts|
  {
    assert parts[0] in parts;
    if |parts| == 1 {
      SplitWhole(parts[0], sep);
    } else {
      SplitFirst(parts[0], sep, Join(parts[1..], sep));
      SplitJoin(parts[1..], sep);
      assert parts == [parts[0]] + parts[1..];
    }
  }

  lemma SubsetSize<T>(a: set<T>, b: set<T>)
    requires a <= b
    ensures |a| <= |b|
  {
    assert b == a + (b - a);
  }
}
