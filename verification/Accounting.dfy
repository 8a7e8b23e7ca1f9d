/**
 Which chunks a manifest refers to and how many bytes they are
 (`Digests` in internal/snapshot/model.go; `digestBytes` and
 `manifestUniqueBytes` in internal/app/orchestrator/remote_jobs.go).
 */
module Accounting {
  import opened Text
  import opened Manifest
  import Lex

  type Digest = seq<Byte>

  /** All chunk references, file by file. */
  function References(files: seq<File>): seq<Chunk> {
    if files == [] then [] else References(files[..|files| - 1]) + files[|files| - 1].chunks
  }

  function DigestSet(cs: seq<Chunk>): set<Digest> {
    set i | 0 <= i < |cs| :: cs[i].digest
  }

  /** Bytes of the wanted digests, each counted at its first reference. */
  function FirstBytes(cs: seq<Chunk>, want: set<Digest>): nat {
    if cs == [] then 0
    else
      var init, last := cs[..|cs| - 1], cs[|cs| - 1];
      FirstBytes(init, want) + if last.digest in want && last.digest !in DigestSet(init) then last.size else 0
  }

  lemma DigestSetPush(cs: seq<Chunk>, c: Chunk)
    ensures DigestSet(cs + [c]) == DigestSet(cs) + {c.digest}
    ensures (cs + [c])[..|cs|] == cs
  {
    var both := cs + [c];
    assert both[|cs|] == c;
    forall d | d in DigestSet(cs)
      ensures d in DigestSet(both)
    {
      var i :| 0 <= i < |cs| && cs[i].digest == d;
      assert both[i].digest == d;
    }
    assert both[|cs|].digest in DigestSet(both);
  }

  /** Counting disjoint sets separately loses and repeats nothing. */
  lemma {:induction false} FirstBytesAdds(cs: seq<Chunk>, a: set<Digest>, b: set<Digest>)
    requires a !! b
    ensures FirstBytes(cs, a + b) == FirstBytes(cs, a) + FirstBytes(cs, b)
  {
    if cs == [] {
    } else {
      FirstBytesAdds(cs[..|cs| - 1], a, b);
    }
  }

  lemma {:induction false} FirstBytesNone(cs: seq<Chunk>)
    ensures FirstBytes(cs, {}) == 0
  {
    if cs == [] {
    } else {
      FirstBytesNone(cs[..|cs| - 1]);
    }
  }

  lemma CountStep(cs: seq<Chunk>, c: Chunk, want: set<Digest>)
    ensures FirstBytes(cs + [c], want) ==
            FirstBytes(cs, want) + if c.digest in want && c.digest !in DigestSet(cs) then c.size else 0
    ensures DigestSet(cs + [c]) == DigestSet(cs) + {c.digest}
  {
    DigestSetPush(cs, c);
  }

  predicate Distinct(ds: seq<Digest>) {
    forall i, j :: 0 <= i < j < |ds| ==> ds[i] != ds[j]
  }

  function Members(ds: seq<Digest>): set<Digest> { set i | 0 <= i < |ds| :: ds[i] }

  lemma MembersPush(ds: seq<Digest>, d: Digest)
    ensures Members(ds + [d]) == Members(ds) + {d}
  {
    var both := ds + [d];
    assert both[|ds|] == d;
    assert forall i :: 0 <= i < |ds| ==> both[i] == ds[i];
    forall x | x in Members(ds)
      ensures x in Members(both)
    {
      var i :| 0 <= i < |ds| && ds[i] == x;
      assert both[i] == x;
    }
  }

  function SumOfSingles(cs: seq<Chunk>, ds: seq<Digest>): nat {
    if ds == [] then 0 else SumOfSingles(cs, ds[..|ds| - 1]) + FirstBytes(cs, {ds[|ds| - 1]})
  }

  /** Adding up one digest at a time gives the count of the whole set. */
  lemma {:induction false} SinglesAddUp(cs: seq<Chunk>, ds: seq<Digest>)
    requires Distinct(ds)
    ensures SumOfSingles(cs, ds) == FirstBytes(cs, Members(ds))
  {
    if ds == [] {
      FirstBytesNone(cs);
      assert Members(ds) == {};
    } else {
      var init, d := ds[..|ds| - 1], ds[|ds| - 1];
      SinglesAddUp(cs, init);
      MembersPush(init, d);
      assert ds == init + [d];
      assert d !in Members(init);
      FirstBytesAdds(cs, Members(init), {d});
    }
  }

  // ---- the loops ----

  /** The nested loops of `digestBytes`. */
  method DigestBytes(m: Manifest, digests: seq<Digest>) returns (total: nat)
    ensures total == FirstBytes(References(m.files), Members(digests))
  {
    var want := Members(digests);
    total := 0;
    var seen: set<Digest> := {};
    for i := 0 to |m.files|
      invariant total == FirstBytes(References(m.files[..i]), want)
      invariant seen == want * DigestSet(References(m.files[..i]))
    {
      total, seen := CountFile(m.files[i].chunks, want, total, seen, References(m.files[..i]));
      assert m.files[..i + 1][..i] == m.files[..i];
    }
    assert m.files[..|m.files|] == m.files;
  }

  method CountFile(chunks: seq<Chunk>, want: set<Digest>, total: nat, seen: set<Digest>, ghost before: seq<Chunk>)
    returns (total': nat, seen': set<Digest>)
    requires total == FirstBytes(before, want) && seen == want * DigestSet(before)
    ensures total' == FirstBytes(before + chunks, want) && seen' == want * DigestSet(before + chunks)
  {
    total', seen' := total, seen;
    ghost var cs := before;
    for k := 0 to |chunks|
      invariant cs == before + chunks[..k]
      invariant total' == FirstBytes(cs, want) && seen' == want * DigestSet(cs)
    {
      CountStep(cs, chunks[k], want);
      cs := cs + [chunks[k]];
      if chunks[k].digest !in want { continue; }
      if chunks[k].digest in seen' { continue; }
      seen' := seen' + {chunks[k].digest};
      total' := total' + chunks[k].size;
    }
    assert chunks[..|chunks|] == chunks;
  }

  /** The nested loops of `manifestUniqueBytes`. */
  method ManifestUniqueBytes(m: Manifest) returns (total: nat)
    ensures total == FirstBytes(References(m.files), DigestSet(References(m.files)))
  {
    total := 0;
    ghost var all := DigestSet(References(m.files));
    var seen: set<Digest> := {};
    for i := 0 to |m.files|
      invariant total == FirstBytes(References(m.files[..i]), all) && seen == DigestSet(References(m.files[..i]))
    {
      FileDigests(m.files, i);
      total, seen := CountNew(m.files[i].chunks, total, seen, References(m.files[..i]), all);
      assert m.files[..i + 1][..i] == m.files[..i];
    }
    assert m.files[..|m.files|] == m.files;
  }

  lemma {:induction false} FileDigests(files: seq<File>, i: nat)
    requires i < |files|
    ensures DigestSet(files[i].chunks) <= DigestSet(References(files))
  {
    var init, last := References(files[..|files| - 1]), files[|files| - 1].chunks;
    forall d | d in DigestSet(last)
      ensures d in DigestSet(init + last)
    {
      var k :| 0 <= k < |last| && last[k].digest == d;
      assert (init + last)[|init| + k].digest == d;
    }
    if i >= |files| - 1 {
    } else {
      FileDigests(files[..|files| - 1], i);
      forall d | d in DigestSet(init)
        ensures d in DigestSet(init + last)
      {
        var k :| 0 <= k < |init| && init[k].digest == d;
        assert (init + last)[k].digest == d;
      }
    }
  }

  method CountNew(chunks: seq<Chunk>, total: nat, seen: set<Digest>, ghost before: seq<Chunk>, ghost all: set<Digest>)
    returns (total': nat, seen': set<Digest>)
    requires total == FirstBytes(before, all) && seen == DigestSet(before) && DigestSet(chunks) <= all
    ensures total' == FirstBytes(before + chunks, all) && seen' == DigestSet(before + chunks)
  {
    total', seen' := total, seen;
    ghost var cs := before;
    for k := 0 to |chunks|
      invariant cs == before + chunks[..k]
      invariant total' == FirstBytes(cs, all) && seen' == DigestSet(cs)
    {
      CountStep(cs, chunks[k], all);
      assert chunks[k].digest in DigestSet(chunks);
      cs := cs + [chunks[k]];
      if chunks[k].digest in seen' { continue; }
      seen' := seen' + {chunks[k].digest};
      total' := total' + chunks[k].size;
    }
    assert chunks[..|chunks|] == chunks;
  }

  /** `Digests`: every referenced digest once, in byte order. */
  method Digests(m: Manifest) returns (ds: seq<Digest>)
    ensures Lex.Increasing(ds) && Members(ds) == DigestSet(References(m.files))
    ensures Distinct(ds)
  {
    ds := [];
    var cs := References(m.files);
    for k := 0 to |cs|
      invariant Lex.Increasing(ds) && Members(ds) == DigestSet(cs[..k])
    {
      Lex.InsertedIncreasing(ds, cs[k].digest);
      InsertMembers(ds, cs[k].digest);
      ds := Insert(ds, cs[k].digest);
      DigestSetPush(cs[..k], cs[k]);
      assert cs[..k + 1] == cs[..k] + [cs[k]];
    }
    assert cs[..|cs|] == cs;
    IncreasingDistinct(ds);
  }

  /** `Lex.Inserted`, with digests staying digests. */
  function Insert(ds: seq<Digest>, d: Digest): (r: seq<Digest>)
    ensures r == Lex.Inserted(ds, d)
  {
    if d in ds then ds else ds[..Lex.Place(ds, d)] + [d] + ds[Lex.Place(ds, d)..]
  }

  lemma InsertMembers(ds: seq<Digest>, d: Digest)
    requires Lex.Increasing(ds)
    ensures Members(Insert(ds, d)) == Members(ds) + {d}
  {
    Lex.InsertedIncreasing(ds, d);
    var r := Insert(ds, d);
    assert forall x :: x in Members(r) <==> x in r;
    assert forall x :: x in Members(ds) <==> x in ds;
  }

  lemma IncreasingDistinct(ds: seq<Digest>)
    requires Lex.Increasing(ds)
    ensures Distinct(ds)
  {
    forall i, j | 0 <= i < j < |ds|
      ensures ds[i] != ds[j]
    {
      Lex.Irreflexive(ds[i]);
      assert Lex.Less(ds[i], ds[j]);
    }
  }

  /** There is one such list, so sorting has one answer. */
  lemma DigestListUnique(cs: seq<Chunk>, a: seq<Digest>, b: seq<Digest>)
    requires Lex.Increasing(a) && Members(a) == DigestSet(cs) && Lex.Increasing(b) && Members(b) == DigestSet(cs)
    ensures a == b
  {
    forall d: seq<int> ensures d in a <==> d in b {
      MembersAre(a, d);
      MembersAre(b, d);
    }
    Lex.IncreasingUnique(a, b);
  }

  lemma MembersAre(ds: seq<Digest>, d: seq<int>)
    ensures d in ds <==> exists x: Digest :: x in Members(ds) && x == d
  {
    if d in ds {
      var i :| 0 <= i < |ds| && ds[i] == d;
      assert ds[i] in Members(ds);
    }
  }

  /** Unique bytes are the bytes of `Digests()`. */
  lemma UniqueIsAll(cs: seq<Chunk>, ds: seq<Digest>)
    requires Members(ds) == DigestSet(cs) && Distinct(ds)
    ensures FirstBytes(cs, DigestSet(cs)) == FirstBytes(cs, Members(ds)) == SumOfSingles(cs, ds)
  {
    SinglesAddUp(cs, ds);
  }
}
