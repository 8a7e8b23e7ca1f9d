/** Byte-wise string order, as Go compares strings, and sorted duplicate-free lists. */
module Lex {

  predicate Less(a: seq<int>, b: seq<int>) {
    b != [] && (a == [] || a[0] < b[0] || (a[0] == b[0] && Less(a[1..], b[1..])))
  }

  lemma {:induction false} Irreflexive(a: seq<int>)
    ensures !Less(a, a)
  {
    if a == [] {
    } else {
      Irreflexive(a[1..]);
    }
  }

  lemma {:induction false} Transitive(a: seq<int>, b: seq<int>, c: seq<int>)
    requires Less(a, b) && Less(b, c)
    ensures Less(a, c)
  {
    if a == [] || a[0] < b[0] || b[0] < c[0] {
    } else {
      Transitive(a[1..], b[1..], c[1..]);
    }
  }

  lemma {:induction false} Total(a: seq<int>, b: seq<int>)
    ensures Less(a, b) || a == b || Less(b, a)
  {
    if a == [] || b == [] || a[0] != b[0] {
    } else {
      Total(a[1..], b[1..]);
      assert a == [a[0]] + a[1..] && b == [b[0]] + b[1..];
    }
  }

  lemma {:induction false} PrefixLess(p: seq<int>, r: seq<int>)
    requires r != []
    ensures Less(p, p + r)
  {
    if p != [] {
      assert (p + r)[1..] == p[1..] + r;
      PrefixLess(p[1..], r);
    } else {
      assert p + r == r;
    }
  }

  /** Strictly increasing, hence without duplicates. */
  predicate Increasing(s: seq<seq<int>>) {
    forall i, j :: 0 <= i < j < |s| ==> Less(s[i], s[j])
  }

  /** The position where `x` belongs in an increasing list. */
  function Place(s: seq<seq<int>>, x: seq<int>): (k: nat)
    ensures k <= |s|
    ensures forall i :: 0 <= i < k ==> Less(s[i], x)
    ensures k < |s| ==> !Less(s[k], x)
  {
    if s == [] || !Less(s[0], x) then 0
    else
      var k := 1 + Place(s[1..], x);
      assert forall i :: 0 < i < k ==> s[i] == s[1..][i - 1];
      k
  }

  function Inserted(s: seq<seq<int>>, x: seq<int>): seq<seq<int>> {
    if x in s then s else s[..Place(s, x)] + [x] + s[Place(s, x)..]
  }

  lemma AboveFrom(s: seq<seq<int>>, x: seq<int>, k: nat, i: nat)
    requires Increasing(s) && k <= i < |s| && x !in s && !Less(s[k], x)
    ensures Less(x, s[i])
  {
    Total(s[k], x);
    if k < i { Transitive(x, s[k], s[i]); }
  }

  lemma SpliceIncreasing(s: seq<seq<int>>, x: seq<int>, k: nat)
    requires Increasing(s) && k <= |s|
    requires forall i :: 0 <= i < k ==> Less(s[i], x)
    requires forall i :: k <= i < |s| ==> Less(x, s[i])
    ensures Increasing(s[..k] + [x] + s[k..])
  {
    var r := s[..k] + [x] + s[k..];
    assert forall i :: 0 <= i < k ==> r[i] == s[i];
    assert r[k] == x;
    assert forall i :: k < i < |r| ==> r[i] == s[i - 1];
  }

  lemma InsertedIncreasing(s: seq<seq<int>>, x: seq<int>)
    requires Increasing(s)
    ensures Increasing(Inserted(s, x))
    ensures forall y :: y in Inserted(s, x) <==> y in s || y == x
  {
    if x !in s {
      var k := Place(s, x);
      forall i | k <= i < |s|
        ensures Less(x, s[i])
      {
        AboveFrom(s, x, k, i);
      }
      SpliceIncreasing(s, x, k);
      assert s == s[..k] + s[k..];
    }
  }

  /** Increasing lists with the same members are equal: sorting has one answer. */
  lemma {:induction false} IncreasingUnique(a: seq<seq<int>>, b: seq<seq<int>>)
    requires Increasing(a) && Increasing(b)
    requires forall x :: x in a <==> x in b
    ensures a == b
    decreases |a|
  {
    if a == [] {
      SomeMember(b);
    } else {
      assert a[0] in b;
      assert b != [] && b[0] in a;
      FirstIsLeast(a, b[0]);
      FirstIsLeast(b, a[0]);
      if a[0] != b[0] {
        Transitive(a[0], b[0], a[0]);
        Irreflexive(a[0]);
      }
      forall x
        ensures x in a[1..] <==> x in b[1..]
      {
        TailMembers(a, x);
        TailMembers(b, x);
      }
      IncreasingUnique(a[1..], b[1..]);
      assert a == [a[0]] + a[1..] && b == [b[0]] + b[1..];
    }
  }

  lemma SomeMember(b: seq<seq<int>>)
    ensures b != [] ==> exists x :: x in b
  {
    if b != [] { assert b[0] in b; }
  }

  lemma FirstIsLeast(a: seq<seq<int>>, x: seq<int>)
    requires Increasing(a) && x in a
    ensures x == a[0] || Less(a[0], x)
  {
    var i :| 0 <= i < |a| && a[i] == x;
  }

  lemma TailMembers(a: seq<seq<int>>, x: seq<int>)
    requires Increasing(a) && a != []
    ensures x in a[1..] <==> x in a && x != a[0]
  {
    Irreflexive(a[0]);
    assert a == [a[0]] + a[1..];
    assert forall i :: 0 < i < |a| ==> Less(a[0], a[i]);
  }
}
