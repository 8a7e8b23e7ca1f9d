/**
 Moving a snapshot's chunks between devices: the wire encoding of a chunk
 (internal/transfer/chunk.go), batched preflight, the upload loop and the
 artifact download loop (internal/app/orchestrator/remote_jobs.go).
 */
module Transfer {
  import opened Text
  import opened Manifest
  import opened Accounting
  import Lex

  const BATCH := 4096
  const MAXIMUM_ENCODED := 524288 + 65536
  const SAVINGS := 64

  // ---- one chunk on the wire ----

  datatype Encoding = Identity | Zstd

  datatype Wire = Wire(encoding: Encoding, data: seq<Byte>, size: nat)

  /** zstd as two functions: a compressor and a decompressor that may fail. */
  datatype Codec = Codec(compress: seq<Byte> -> seq<Byte>, expand: seq<Byte> -> Option<seq<Byte>>)

  ghost predicate Inverse(z: Codec) {
    forall x :: z.expand(z.compress(x)) == Some(x)
  }

  /** `acceptedEncodings`: one or two, no repeats. */
  predicate Offer(accepted: seq<Encoding>) {
    1 <= |accepted| <= 2 && (|accepted| == 2 ==> accepted[0] != accepted[1])
  }

  predicate Shrinks(z: Codec, contents: seq<Byte>, identity: bool) {
    var packed := z.compress(contents);
    0 < |packed| <= MAXIMUM_ENCODED && (!identity || |packed| + SAVINGS <= |contents|)
  }

  /** `EncodeChunk`. */
  function EncodeChunk(z: Codec, contents: seq<Byte>, accepted: seq<Encoding>): Option<Wire> {
    if |contents| == 0 || |contents| > MAXIMUM_CHUNK_BYTES || !Offer(accepted) then None
    else if Zstd in accepted && Shrinks(z, contents, Identity in accepted)
    then Some(Wire(Zstd, z.compress(contents), |contents|))
    else if Identity in accepted then Some(Wire(Identity, contents, |contents|))
    else None
  }

  /** `DecodeChunk`. */
  function DecodeChunk(z: Codec, w: Wire): Option<seq<Byte>> {
    if w.size == 0 || w.size > MAXIMUM_CHUNK_BYTES || |w.data| == 0 || |w.data| > MAXIMUM_ENCODED then None
    else
      match w.encoding
      case Identity => if |w.data| != w.size then None else Some(w.data)
      case Zstd =>
        match z.expand(w.data)
        case None => None
        case Some(x) => if |x| != w.size then None else Some(x)
  }

  /**
   A chunk that is sent decodes to itself, in an encoding the peer accepts, and identity acceptance always
   suffices.
   */
  lemma ChunkSurvives(z: Codec, contents: seq<Byte>, accepted: seq<Encoding>)
    requires Inverse(z)
    ensures var w := EncodeChunk(z, contents, accepted);
            (w.Some? ==> DecodeChunk(z, w.value) == Some(contents) && w.value.encoding in accepted) &&
            (0 < |contents| <= MAXIMUM_CHUNK_BYTES && Offer(accepted) && Identity in accepted ==> w.Some?)
  {}

  /** Exactly when a chunk can be sent, and how: compressed if that is allowed and saves enough or is the only way. */
  lemma EncodesExactly(z: Codec, contents: seq<Byte>, accepted: seq<Encoding>)
    ensures var w := EncodeChunk(z, contents, accepted);
            var packed := z.compress(contents);
            var fits := Zstd in accepted && 0 < |packed| <= MAXIMUM_ENCODED;
            (w.Some? <==> 0 < |contents| <= MAXIMUM_CHUNK_BYTES && Offer(accepted) && (Identity in accepted || fits)) &&
            (w.Some? ==>
               w.value == if fits && (Identity in accepted ==> |packed| + SAVINGS <= |contents|)
                          then Wire(Zstd, packed, |contents|) else Wire(Identity, contents, |contents|))
  {}

  /** Exactly what received data decodes to. */
  lemma DecodesExactly(z: Codec, w: Wire, x: seq<Byte>)
    ensures DecodeChunk(z, w) == Some(x) <==>
            |x| == w.size && 0 < w.size <= MAXIMUM_CHUNK_BYTES && 0 < |w.data| <= MAXIMUM_ENCODED &&
            if w.encoding == Identity then w.data == x else z.expand(w.data) == Some(x)
  {}

  // ---- preflight ----

  datatype Reply = Reply(accepted: seq<Encoding>, missing: seq<Digest>) | Failure

  /** The digests of the `k`-th request. */
  function Batch(digests: seq<Digest>, k: nat): seq<Digest> {
    digests[Min(k * BATCH, |digests|)..Min((k + 1) * BATCH, |digests|)]
  }

  function Batches(n: nat): nat { (n + BATCH - 1) / BATCH }

  /** A reply is acceptable: it names only valid digests of its own batch, and agrees on encodings with the first. */
  predicate Acceptable(digests: seq<Digest>, replies: seq<Reply>, k: nat)
    requires k < |replies|
  {
    replies[k].Reply? && replies[0].Reply? && Offer(replies[k].accepted) &&
    replies[k].accepted == replies[0].accepted &&
    forall i :: 0 <= i < |replies[k].missing| ==>
      ValidDigest(replies[k].missing[i]) && replies[k].missing[i] in Batch(digests, k)
  }

  /** Everything the first `n` replies reported missing. */
  function Reported(replies: seq<Reply>, n: nat): set<Digest>
    requires n <= |replies|
  {
    if n == 0 then {}
    else Reported(replies, n - 1) + if replies[n - 1].Reply? then Members(replies[n - 1].missing) else {}
  }

  function Select(digests: seq<Digest>, wanted: set<Digest>): seq<Digest> {
    if digests == [] then []
    else
      var d := digests[|digests| - 1];
      Select(digests[..|digests| - 1], wanted) + if d in wanted then [d] else []
  }

  lemma {:induction false} SelectMembers(digests: seq<Digest>, wanted: set<Digest>)
    ensures Members(Select(digests, wanted)) == Members(digests) * wanted
  {
    if digests == [] {
    } else {
      var init, d := digests[..|digests| - 1], digests[|digests| - 1];
      SelectMembers(init, wanted);
      MembersPush(init, d);
      assert digests == init + [d];
      MembersPush(Select(init, wanted), d);
      assert Select(init, wanted) + [] == Select(init, wanted);
    }
  }

  lemma {:induction false} SelectIncreasing(digests: seq<Digest>, wanted: set<Digest>)
    requires Lex.Increasing(digests)
    ensures Lex.Increasing(Select(digests, wanted))
  {
    if digests == [] {
    } else {
      var init, d := digests[..|digests| - 1], digests[|digests| - 1];
      SelectIncreasing(init, wanted);
      SelectMembers(init, wanted);
      var chosen := Select(init, wanted);
      forall i | 0 <= i < |chosen|
        ensures Lex.Less(chosen[i], d)
      {
        assert chosen[i] in Members(chosen);
        var j :| 0 <= j < |init| && init[j] == chosen[i];
        assert Lex.Less(digests[j], digests[|digests| - 1]);
      }
    }
  }

  /** The inner loop over one reply. */
  method NoteMissing(
    batch: seq<Digest>, reply: seq<Digest>, missing: set<Digest>)
    returns (ok: bool, missing': set<Digest>)
    ensures ok <==> forall i :: 0 <= i < |reply| ==> ValidDigest(reply[i]) && reply[i] in batch
    ensures ok ==> missing' == missing + Members(reply)
  {
    missing' := missing;
    for i := 0 to |reply|
      invariant missing' == missing + Members(reply[..i])
      invariant forall j :: 0 <= j < i ==> ValidDigest(reply[j]) && reply[j] in batch
    {
      if !ValidDigest(reply[i]) || reply[i] !in batch { return false, missing'; }
      MembersPush(reply[..i], reply[i]);
      assert reply[..i + 1] == reply[..i] + [reply[i]];
      missing' := missing' + {reply[i]};
    }
    assert reply[..|reply|] == reply;
    ok := true;
  }

  /**
   `preflightSnapshot`: asks about every digest once, in batches, and succeeds
   exactly when every reply is acceptable; the result lists, in order, the
   digests some reply reported missing.
   */
  method Preflight(digests: seq<Digest>, replies: seq<Reply>) returns (r: Option<seq<Digest>>, accepted: seq<Encoding>)
    requires |replies| == Batches(|digests|)
    ensures r.Some? <==> forall k :: 0 <= k < |replies| ==> Acceptable(digests, replies, k)
    ensures r.Some? ==> r.value == Select(digests, Reported(replies, |replies|))
    ensures r.Some? && |replies| > 0 ==> replies[0].Reply? && accepted == replies[0].accepted
  {
    var missing: set<Digest> := {};
    accepted := [];
    for k := 0 to |replies|
      invariant forall j :: 0 <= j < k ==> Acceptable(digests, replies, j)
      invariant missing == Reported(replies, k)
      invariant k > 0 ==> replies[0].Reply? && accepted == replies[0].accepted
    {
      if replies[k].Failure? || !Offer(replies[k].accepted) {
        assert !Acceptable(digests, replies, k);
        return None, accepted;
      }
      if k == 0 {
        accepted := replies[k].accepted;
      } else if accepted != replies[k].accepted {
        assert !Acceptable(digests, replies, k);
        return None, accepted;
      }
      var ok, more := NoteMissing(Batch(digests, k), replies[k].missing, missing);
      if !ok {
        assert !Acceptable(digests, replies, k);
        return None, accepted;
      }
      missing := more;
      assert Acceptable(digests, replies, k);
    }
    var result := Collect(digests, missing);
    r := Some(result);
  }

  method Collect(digests: seq<Digest>, missing: set<Digest>) returns (result: seq<Digest>)
    ensures result == Select(digests, missing)
  {
    result := [];
    for i := 0 to |digests|
      invariant result == Select(digests[..i], missing)
    {
      assert digests[..i + 1][..i] == digests[..i];
      if digests[i] in missing { result := result + [digests[i]]; }
    }
    assert digests[..|digests|] == digests;
  }

  function BatchesUpTo(digests: seq<Digest>, n: nat): seq<Digest> {
    if n == 0 then [] else BatchesUpTo(digests, n - 1) + Batch(digests, n - 1)
  }

  /** Every digest is asked about exactly once: the batches, joined, are the list; none is empty or over the limit. */
  lemma {:induction false} AskedOnce(digests: seq<Digest>, n: nat)
    requires n <= Batches(|digests|)
    ensures BatchesUpTo(digests, n) == digests[..Min(n * BATCH, |digests|)]
    ensures forall k :: 0 <= k < n ==> 0 < |Batch(digests, k)| <= BATCH
    ensures n == Batches(|digests|) ==> BatchesUpTo(digests, n) == digests
  {
    if n == 0 {
    } else {
      AskedOnce(digests, n - 1);
      var a, b := Min((n - 1) * BATCH, |digests|), Min(n * BATCH, |digests|);
      assert digests[..a] + digests[a..b] == digests[..b];
    }
  }

  lemma {:induction false} ReportedAsked(digests: seq<Digest>, replies: seq<Reply>, n: nat)
    requires n <= |replies| == Batches(|digests|)
    requires forall k :: 0 <= k < |replies| ==> Acceptable(digests, replies, k)
    ensures Reported(replies, n) <= Members(digests)
  {
    if n == 0 {
    } else {
      ReportedAsked(digests, replies, n - 1);
      assert Acceptable(digests, replies, n - 1);
      forall d | d in Members(replies[n - 1].missing)
        ensures d in Members(digests)
      {
        var i :| 0 <= i < |replies[n - 1].missing| && replies[n - 1].missing[i] == d;
        var j :| 0 <= j < |Batch(digests, n - 1)| && Batch(digests, n - 1)[j] == d;
        assert digests[Min((n - 1) * BATCH, |digests|) + j] == d;
      }
    }
  }

  /** What preflight returns: exactly the reported digests, without duplicates, in the order of the list. */
  lemma PreflightMeans(digests: seq<Digest>, replies: seq<Reply>)
    requires Lex.Increasing(digests) && |replies| == Batches(|digests|)
    requires forall k :: 0 <= k < |replies| ==> Acceptable(digests, replies, k)
    ensures var missing := Select(digests, Reported(replies, |replies|));
            Members(missing) == Reported(replies, |replies|) && Lex.Increasing(missing) && Distinct(missing)
  {
    var missing := Select(digests, Reported(replies, |replies|));
    SelectMembers(digests, Reported(replies, |replies|));
    ReportedAsked(digests, replies, |replies|);
    SelectIncreasing(digests, Reported(replies, |replies|));
    IncreasingDistinct(missing);
  }

  // ---- content stores ----

  /** How a write to a store goes: it works, fails without effect, or fails after the chunk is in place. */
  datatype Disk = Works | FailsBefore | FailsAfter

  predicate Sound(sum: seq<Byte> -> Digest, digest: Digest, contents: seq<Byte>) {
    ValidDigest(digest) && sum(contents) == digest && 0 < |contents| <= MAXIMUM_CHUNK_BYTES
  }

  /** The wire data decodes to content with this digest. */
  predicate Delivers(z: Codec, sum: seq<Byte> -> Digest, w: Wire, digest: Digest) {
    DecodeChunk(z, w).Some? && ValidDigest(digest) && sum(DecodeChunk(z, w).value) == digest
  }

  /** The verified chunk store of one device (internal/infra/cas/store.go), without eviction. */
  class Store {
    const sum: seq<Byte> -> Digest
    var chunks: map<Digest, seq<Byte>>

    constructor (sum: seq<Byte> -> Digest)
      ensures this.sum == sum && chunks == map[]
    {
      this.sum := sum;
      chunks := map[];
    }

    ghost predicate Valid()
      reads this
    {
      forall d :: d in chunks ==> Sound(sum, d, chunks[d])
    }

    /** `Put`: verifies the content against its digest; storing twice is harmless. */
    method Put(digest: Digest, contents: seq<Byte>, disk: Disk) returns (ok: bool)
      requires Valid()
      modifies this
      ensures Valid()
      ensures ok <==> Sound(sum, digest, contents) && (disk == Works || (disk == FailsAfter && digest in old(chunks)))
      ensures chunks.Keys ==
              old(chunks).Keys + if Sound(sum, digest, contents) && disk != FailsBefore then {digest} else {}
      ensures forall d :: d in old(chunks) ==> chunks[d] == old(chunks)[d]
    {
      if !ValidDigest(digest) || |contents| == 0 || |contents| > MAXIMUM_CHUNK_BYTES || sum(contents) != digest {
        return false;
      }
      if disk == FailsBefore { return false; }
      if digest in chunks { return true; }
      chunks := chunks[digest := contents];
      ok := disk == Works;
    }

    /** `Missing`: the absent digests, sorted and without repeats; an unreadable chunk or a bad digest is an error. */
    method Missing(digests: seq<Digest>, unreadable: set<Digest>) returns (r: Option<seq<Digest>>)
      ensures r.Some? <==> forall d :: d in Members(digests) ==> ValidDigest(d) && d !in unreadable
      ensures r.Some? ==> Lex.Increasing(r.value) && Distinct(r.value)
      ensures r.Some? ==> Members(r.value) == Members(digests) - chunks.Keys
    {
      var missing: seq<Digest> := [];
      for i := 0 to |digests|
        invariant Lex.Increasing(missing) && Members(missing) == Members(digests[..i]) - chunks.Keys
        invariant forall d :: d in Members(digests[..i]) ==> ValidDigest(d) && d !in unreadable
      {
        assert digests[i] in Members(digests);
        if !ValidDigest(digests[i]) || digests[i] in unreadable { return None; }
        MembersPush(digests[..i], digests[i]);
        assert digests[..i + 1] == digests[..i] + [digests[i]];
        if digests[i] !in chunks {
          Lex.InsertedIncreasing(missing, digests[i]);
          ghost var before := missing;
          missing := Insert(missing, digests[i]);
          InsertMembers(before, digests[i]);
        }
      }
      assert digests[..|digests|] == digests;
      IncreasingDistinct(missing);
      r := Some(missing);
    }

    /** A chunk that arrives over the wire: decoded, compared with its digest and stored. */
    method Receive(z: Codec, digest: Digest, w: Wire, disk: Disk) returns (ok: bool)
      requires Valid()
      modifies this
      ensures Valid()
      ensures ok <==> Delivers(z, sum, w, digest) && (disk == Works || (disk == FailsAfter && digest in old(chunks)))
      ensures chunks.Keys ==
              old(chunks).Keys + if Delivers(z, sum, w, digest) && disk != FailsBefore then {digest} else {}
    {
      var contents := DecodeChunk(z, w);
      if contents.None? || sum(contents.value) != digest { return false; }
      ok := Put(digest, contents.value, disk);
    }
  }

  // ---- progress ----

  /** Reported values rise and stay within 0..total. */
  predicate Climbs(progress: seq<nat>, total: nat) {
    (forall i :: 0 <= i < |progress| ==> progress[i] <= total) &&
    forall i, j :: 0 <= i < j < |progress| ==> progress[i] <= progress[j]
  }

  lemma {:induction false} SinglesRise(cs: seq<Chunk>, ds: seq<Digest>, n: nat)
    requires n <= |ds|
    ensures SumOfSingles(cs, ds[..n]) <= SumOfSingles(cs, ds)
    decreases |ds|
  {
    if n < |ds| {
      assert ds[..|ds| - 1][..n] == ds[..n];
      SinglesRise(cs, ds[..|ds| - 1], n);
    } else {
      assert ds[..n] == ds;
    }
  }

  /** The counter moves by one digest and stays within the total. */
  lemma NextProgress(cs: seq<Chunk>, ds: seq<Digest>, k: nat, progress: seq<nat>, base: nat, now: nat)
    requires k < |ds| && now == base + SumOfSingles(cs, ds[..k])
    requires Climbs(progress, base + SumOfSingles(cs, ds)) && forall i :: 0 <= i < |progress| ==> progress[i] <= now
    ensures var next := now + FirstBytes(cs, {ds[k]});
            next == base + SumOfSingles(cs, ds[..k + 1]) &&
            Climbs(progress + [next], base + SumOfSingles(cs, ds)) &&
            forall i :: 0 <= i < |progress + [next]| ==> (progress + [next])[i] <= next
  {
    assert ds[..k + 1][..k] == ds[..k];
    SinglesRise(cs, ds, k + 1);
  }

  /** A running byte counter and everything it has reported. */
  ghost predicate Metered(cs: seq<Chunk>, ds: seq<Digest>, k: nat, base: nat, completed: nat, progress: seq<nat>)
    requires k <= |ds|
  {
    completed == base + SumOfSingles(cs, ds[..k]) &&
    Climbs(progress, base + SumOfSingles(cs, ds)) && (forall i :: 0 <= i < |progress| ==> progress[i] <= completed) &&
    progress != [] && progress[|progress| - 1] == completed
  }

  lemma MeteredStart(cs: seq<Chunk>, ds: seq<Digest>, base: nat)
    ensures Metered(cs, ds, 0, base, base, [base])
  {
    assert ds[..0] == [];
  }

  /** One step of a progress loop: add the digest's bytes, report the sum. */
  method Advance(m: Manifest, ds: seq<Digest>, k: nat, completed: nat, progress: seq<nat>, ghost base: nat)
    returns (completed': nat, progress': seq<nat>)
    requires k < |ds| && Metered(References(m.files), ds, k, base, completed, progress)
    ensures Metered(References(m.files), ds, k + 1, base, completed', progress')
  {
    var size := DigestBytes(m, [ds[k]]);
    MembersPush([], ds[k]);
    assert [] + [ds[k]] == [ds[k]];
    assert Members([ds[k]]) == {ds[k]};
    NextProgress(References(m.files), ds, k, progress, base, completed);
    completed' := completed + size;
    progress' := progress + [completed'];
  }

  /** How the calls for one chunk turn out; after each chunk the progress is recorded. */
  datatype Link = Link(readable: bool, delivered: bool, disk: Disk, answered: bool, recorded: bool)

  predicate Fine(link: Link) { link == Link(true, true, Works, true, true) }

  /** No call for the chunk fails; a chunk that was already there need not be written. */
  predicate Passes(link: Link, there: bool) {
    link.readable && link.delivered && link.answered && (link.disk == Works || (link.disk == FailsAfter && there))
  }

  predicate AllFine(links: seq<Link>, n: nat) { n <= |links| && forall k :: 0 <= k < n ==> Fine(links[k]) }

  /** Reading, encoding and storing one chunk remotely; the chunk may have arrived although the call failed. */
  method SendOne(z: Codec, local: Store, worker: Store, digest: Digest, accepted: seq<Encoding>, link: Link)
    returns (ok: bool)
    requires local != worker && local.Valid() && worker.Valid() && local.sum == worker.sum && Inverse(z)
    modifies worker
    ensures worker.Valid()
    ensures worker.chunks.Keys == old(worker.chunks).Keys || worker.chunks.Keys == old(worker.chunks).Keys + {digest}
    ensures ok <==> digest in local.chunks && EncodeChunk(z, local.chunks[digest], accepted).Some? &&
                    Passes(link, digest in old(worker.chunks))
    ensures ok ==> digest in worker.chunks
    ensures digest in local.chunks && Offer(accepted) && Identity in accepted && Fine(link) ==> ok
  {
    if digest !in local.chunks || !link.readable { return false; }
    var contents := local.chunks[digest];
    assert Sound(local.sum, digest, contents);
    ChunkSurvives(z, contents, accepted);
    var w := EncodeChunk(z, contents, accepted);
    if w.None? || !link.delivered { return false; }
    ok := worker.Receive(z, digest, w.value, link.disk);
    ok := ok && link.answered;
  }

  /** A store holds what it had and the first `k` of the digests being moved. */
  predicate Holds(keys: set<Digest>, had: set<Digest>, moving: seq<Digest>, k: nat) {
    k <= |moving| && had <= keys && Members(moving[..k]) <= keys
  }

  lemma HoldsNext(keys: set<Digest>, had: set<Digest>, moving: seq<Digest>, k: nat)
    requires Holds(keys, had, moving, k) && k < |moving|
    ensures Holds(keys + {moving[k]}, had, moving, k + 1)
  {
    MembersPush(moving[..k], moving[k]);
    assert moving[..k + 1] == moving[..k] + [moving[k]];
  }

  lemma HoldsAll(keys: set<Digest>, had: set<Digest>, moving: seq<Digest>)
    ensures Holds(keys, had, moving, |moving|) <==> had <= keys && Members(moving) <= keys
    ensures Holds(keys, had, moving, 0) <==> had <= keys
  {
    assert moving[..|moving|] == moving && moving[..0] == [];
    assert Members([]) == {};
  }

  /** All calls of an upload work, and the worker accepts plain bytes. */
  predicate CanSend(missing: seq<Digest>, accepted: seq<Encoding>, begun: bool, links: seq<Link>) {
    begun && AllFine(links, |missing|) && (missing == [] || (Offer(accepted) && Identity in accepted))
  }

  /** No call for the chunk failed on the way. */
  predicate Went(link: Link, uploading: bool) {
    link.readable && link.delivered && link.disk != FailsBefore && link.answered && (uploading ==> link.recorded)
  }

  /** The first `k` chunks have been sent. */
  predicate Sent(
    keys: set<Digest>, had: set<Digest>, held: set<Digest>, missing: seq<Digest>, links: seq<Link>,
    uploading: bool, k: nat)
  {
    Holds(keys, had, missing, k) && Holds(held, {}, missing, k) && k <= |links| &&
    forall j :: 0 <= j < k ==> Went(links[j], uploading)
  }

  lemma SentNext(
    keys: set<Digest>, had: set<Digest>, held: set<Digest>, missing: seq<Digest>, links: seq<Link>,
    uploading: bool, k: nat)
    requires Sent(keys, had, held, missing, links, uploading, k) && k < |missing| && k < |links|
    requires missing[k] in held && Went(links[k], uploading)
    ensures Sent(keys + {missing[k]}, had, held, missing, links, uploading, k + 1)
  {
    HoldsNext(keys, had, missing, k);
    HoldsNext(held, {}, missing, k);
    assert held + {missing[k]} == held;
  }

  /** The progress of an upload of some bytes; an upload of none reports nothing. */
  ghost predicate Counting(
    cs: seq<Chunk>, missing: seq<Digest>, k: nat, uploading: bool, completed: nat, progress: seq<nat>)
    requires k <= |missing|
  {
    if uploading then Metered(cs, missing, k, 0, completed, progress) else progress == []
  }

  /** One chunk of the upload loop. */
  method UploadOne(
    z: Codec, local: Store, worker: Store, m: Manifest, missing: seq<Digest>, accepted: seq<Encoding>, link: Link,
    k: nat, uploading: bool, completed: nat, progress: seq<nat>)
    returns (ok: bool, completed': nat, progress': seq<nat>)
    requires local != worker && local.Valid() && worker.Valid() && local.sum == worker.sum && Inverse(z)
    requires k < |missing| && Counting(References(m.files), missing, k, uploading, completed, progress)
    modifies worker
    ensures worker.Valid() && old(worker.chunks).Keys <= worker.chunks.Keys
    ensures ok ==> worker.chunks.Keys == old(worker.chunks).Keys + {missing[k]} && missing[k] in local.chunks
    ensures ok ==>
              Went(link, uploading) && Counting(References(m.files), missing, k + 1, uploading, completed', progress')
    ensures !ok ==> progress' == progress
    ensures missing[k] in local.chunks && Offer(accepted) && Identity in accepted && Fine(link) ==> ok
  {
    completed', progress' := completed, progress;
    ok := SendOne(z, local, worker, missing[k], accepted, link);
    if !ok || !uploading { return; }
    if !link.recorded { return false, completed, progress; }
    completed', progress' := Advance(m, missing, k, completed, progress, 0);
  }

  /**
   The upload loop of `submitSnapshot`: on success every missing chunk is at the
   worker and progress has climbed from 0 to exactly the upload size; it succeeds
   whenever the calls do, this device holds the chunks and the worker accepts
   plain bytes.
   */
  method Upload(
    z: Codec, local: Store, worker: Store, m: Manifest, missing: seq<Digest>, accepted: seq<Encoding>,
    begun: bool, links: seq<Link>)
    returns (ok: bool, progress: seq<nat>)
    requires local != worker && local.Valid() && worker.Valid() && local.sum == worker.sum
    requires Inverse(z) && Distinct(missing)
    modifies worker
    ensures worker.Valid() && old(worker.chunks).Keys <= worker.chunks.Keys
    ensures ok ==> Members(missing) <= worker.chunks.Keys
    ensures ok ==> Sent(worker.chunks.Keys, old(worker.chunks).Keys, local.chunks.Keys, missing, links,
                        FirstBytes(References(m.files), Members(missing)) > 0, |missing|)
    ensures Members(missing) <= local.chunks.Keys && CanSend(missing, accepted, begun, links) ==> ok
    ensures Climbs(progress, FirstBytes(References(m.files), Members(missing)))
    ensures ok && FirstBytes(References(m.files), Members(missing)) > 0 ==>
              begun && progress != [] && progress[|progress| - 1] == FirstBytes(References(m.files), Members(missing))
  {
    ghost var cs := References(m.files);
    ghost var had := worker.chunks.Keys;
    var uploadBytes := DigestBytes(m, missing);
    SinglesAddUp(cs, missing);
    var uploading := uploadBytes > 0;
    if uploading && !begun { return false, []; }
    progress := if uploading then [0] else [];
    var completed := 0;
    HoldsAll(had, had, missing);
    HoldsAll(local.chunks.Keys, {}, missing);
    MeteredStart(cs, missing, 0);
    for k := 0 to |missing|
      invariant worker.Valid() && Sent(worker.chunks.Keys, had, local.chunks.Keys, missing, links, uploading, k)
      invariant Counting(cs, missing, k, uploading, completed, progress)
    {
      assert missing[k] in Members(missing);
      if k >= |links| { return false, progress; }
      ghost var keys := worker.chunks.Keys;
      ok, completed, progress :=
        UploadOne(z, local, worker, m, missing, accepted, links[k], k, uploading, completed, progress);
      if !ok { return false, progress; }
      SentNext(keys, had, local.chunks.Keys, missing, links, uploading, k);
    }
    HoldsAll(worker.chunks.Keys, had, missing);
    assert missing[..|missing|] == missing;
    ok := true;
  }

  predicate Answers(asks: seq<bool>, k: nat) { k < |asks| && asks[k] }

  /** An honest worker's answers to all batches; a call may fail, and so may the worker's reading. */
  method AskAll(worker: Store, digests: seq<Digest>, asks: seq<bool>, unreadable: set<Digest>)
    returns (replies: seq<Reply>)
    requires forall d :: d in Members(digests) ==> ValidDigest(d)
    ensures |replies| == Batches(|digests|)
    ensures forall k :: 0 <= k < |replies| ==>
              (replies[k].Reply? <==> Answers(asks, k) && Members(Batch(digests, k)) !! unreadable)
    ensures forall k :: 0 <= k < |replies| ==> Honest(digests, worker.chunks.Keys, replies[k], k)
  {
    replies := [];
    for k := 0 to Batches(|digests|)
      invariant |replies| == k
      invariant forall j :: 0 <= j < k ==>
                  (replies[j].Reply? <==> Answers(asks, j) && Members(Batch(digests, j)) !! unreadable)
      invariant forall j :: 0 <= j < k ==> Honest(digests, worker.chunks.Keys, replies[j], j)
    {
      var missing := worker.Missing(Batch(digests, k), unreadable);
      BatchValid(digests, k);
      assert missing.Some? <==> Members(Batch(digests, k)) !! unreadable;
      if !Answers(asks, k) || missing.None? {
        replies := replies + [Failure];
      } else {
        MissingAreAsked(digests, k, missing.value);
        replies := replies + [Reply([Zstd, Identity], missing.value)];
      }
    }
  }

  /** A reply reports what is absent and offers what the program supports. */
  predicate Honest(digests: seq<Digest>, have: set<Digest>, reply: Reply, k: nat) {
    reply.Reply? ==>
      reply.accepted == [Zstd, Identity] && Members(reply.missing) == Members(Batch(digests, k)) - have &&
      forall i :: 0 <= i < |reply.missing| ==> ValidDigest(reply.missing[i]) && reply.missing[i] in Batch(digests, k)
  }

  lemma BatchValid(digests: seq<Digest>, k: nat)
    requires forall d :: d in Members(digests) ==> ValidDigest(d)
    ensures forall d :: d in Members(Batch(digests, k)) ==> ValidDigest(d) && d in Members(digests)
  {
    forall d | d in Members(Batch(digests, k))
      ensures d in Members(digests)
    {
      var j :| 0 <= j < |Batch(digests, k)| && Batch(digests, k)[j] == d;
      assert digests[Min(k * BATCH, |digests|) + j] == d;
    }
  }

  lemma HonestAcceptable(digests: seq<Digest>, have: set<Digest>, replies: seq<Reply>, k: nat)
    requires k < |replies| && forall j :: 0 <= j < |replies| ==> Honest(digests, have, replies[j], j)
    requires forall j :: 0 <= j < |replies| ==> replies[j].Reply?
    ensures Acceptable(digests, replies, k)
  {
    assert Honest(digests, have, replies[0], 0) && Honest(digests, have, replies[k], k);
  }

  lemma MissingAreAsked(digests: seq<Digest>, k: nat, missing: seq<Digest>)
    requires Members(missing) <= Members(Batch(digests, k)) && forall d :: d in Members(digests) ==> ValidDigest(d)
    ensures forall i :: 0 <= i < |missing| ==> ValidDigest(missing[i]) && missing[i] in Batch(digests, k)
  {
    forall i | 0 <= i < |missing|
      ensures ValidDigest(missing[i]) && missing[i] in Batch(digests, k)
    {
      assert missing[i] in Members(missing);
      var j :| 0 <= j < |Batch(digests, k)| && Batch(digests, k)[j] == missing[i];
      assert digests[Min(k * BATCH, |digests|) + j] == missing[i];
      assert missing[i] in Members(digests);
    }
  }

  lemma {:induction false} ReportedHonest(digests: seq<Digest>, replies: seq<Reply>, have: set<Digest>, n: nat)
    requires n <= |replies| == Batches(|digests|)
    requires forall k :: 0 <= k < |replies| ==> replies[k].Reply? && Honest(digests, have, replies[k], k)
    ensures Reported(replies, n) == Members(BatchesUpTo(digests, n)) - have
  {
    if n == 0 {
    } else {
      ReportedHonest(digests, replies, have, n - 1);
      MembersJoin(BatchesUpTo(digests, n - 1), Batch(digests, n - 1));
      assert Honest(digests, have, replies[n - 1], n - 1);
    }
  }

  lemma NoMembers(ds: seq<Digest>)
    ensures Members(ds) == {} ==> ds == []
  {
    if ds != [] { assert ds[0] in Members(ds); }
  }

  lemma MembersJoin(a: seq<Digest>, b: seq<Digest>)
    ensures Members(a + b) == Members(a) + Members(b)
  {
    var c := a + b;
    forall d | d in Members(a) + Members(b)
      ensures d in Members(c)
    {
      if d in Members(a) {
        var i :| 0 <= i < |a| && a[i] == d;
        assert c[i] == d;
      } else {
        var i :| 0 <= i < |b| && b[i] == d;
        assert c[|a| + i] == d;
      }
    }
  }

  /** How the calls of one submission turn out; `unreadable` chunks cannot be read at the worker. */
  datatype Calls = Calls(asks: seq<bool>, unreadable: set<Digest>, begun: bool, links: seq<Link>)

  /** Everything works: all batches are answered, all chunks can be read and sent. */
  predicate AllWork(calls: Calls, digests: set<Digest>) {
    digests !! calls.unreadable && calls.begun &&
    (forall k :: 0 <= k < Batches(|digests|) ==> Answers(calls.asks, k)) && AllFine(calls.links, |digests|)
  }

  lemma DistinctSize(ds: seq<Digest>)
    requires Distinct(ds)
    ensures |Members(ds)| == |ds|
  {
    if ds == [] {
      assert Members(ds) == {};
    } else {
      var init, d := ds[..|ds| - 1], ds[|ds| - 1];
      DistinctSize(init);
      MembersPush(init, d);
      assert ds == init + [d];
      assert d !in Members(init);
    }
  }

  lemma FewerMissing(missing: seq<Digest>, digests: seq<Digest>)
    requires Distinct(missing) && Distinct(digests) && Members(missing) <= Members(digests)
    ensures |missing| <= |digests|
  {
    DistinctSize(missing);
    DistinctSize(digests);
    SubsetSize(Members(missing), Members(digests));
  }

  /** Preflight with an honest worker: it succeeds exactly if every batch is answered, and finds what is absent. */
  method AskWorker(worker: Store, digests: seq<Digest>, asks: seq<bool>, unreadable: set<Digest>)
    returns (r: Option<seq<Digest>>, accepted: seq<Encoding>)
    requires Lex.Increasing(digests) && forall d :: d in Members(digests) ==> ValidDigest(d)
    ensures r.Some? <==> forall k :: 0 <= k < Batches(|digests|) ==>
                           Answers(asks, k) && Members(Batch(digests, k)) !! unreadable
    ensures r.Some? ==> Members(r.value) == Members(digests) - worker.chunks.Keys && Distinct(r.value)
    ensures r.Some? && r.value != [] ==> accepted == [Zstd, Identity]
  {
    var replies := AskAll(worker, digests, asks, unreadable);
    r, accepted := Preflight(digests, replies);
    ghost var have := worker.chunks.Keys;
    if forall k :: 0 <= k < |replies| ==> replies[k].Reply? {
      forall k | 0 <= k < |replies| ensures Acceptable(digests, replies, k) {
        HonestAcceptable(digests, have, replies, k);
      }
      PreflightMeans(digests, replies);
      ReportedHonest(digests, replies, have, |replies|);
      AskedOnce(digests, |replies|);
      assert digests == [] ==> r.value == [];
      assert |replies| > 0 ==> Honest(digests, have, replies[0], 0);
    } else {
      var k :| 0 <= k < |replies| && !replies[k].Reply?;
      assert !Acceptable(digests, replies, k);
    }
  }

  /**
   Preflight, upload and the worker's final check, end to end with an honest
   worker that evicts nothing: success means that nothing is missing when the
   snapshot is submitted, and it is certain if this device holds every chunk of
   the manifest and every call works.
   */
  method TransferSnapshot(z: Codec, local: Store, worker: Store, m: Manifest, calls: Calls) returns (ok: bool)
    requires local != worker && local.Valid() && worker.Valid() && local.sum == worker.sum && Inverse(z)
    requires forall d :: d in DigestSet(References(m.files)) ==> ValidDigest(d)
    modifies worker
    ensures ok ==> DigestSet(References(m.files)) <= worker.chunks.Keys
    ensures DigestSet(References(m.files)) <= local.chunks.Keys && AllWork(calls, DigestSet(References(m.files))) ==> ok
  {
    var digests := Digests(m);
    DistinctSize(digests);
    var missing, accepted := AskWorker(worker, digests, calls.asks, calls.unreadable);
    if AllWork(calls, Members(digests)) { AllAnswered(calls, digests); }
    if missing.None? { return false; }
    FewerMissing(missing.value, digests);
    ghost var had := worker.chunks.Keys;
    var uploaded, _ := Upload(z, local, worker, m, missing.value, accepted, calls.begun, calls.links);
    if !uploaded { return false; }
    HoldsAll(worker.chunks.Keys, had, missing.value);
    var left := worker.Missing(digests, calls.unreadable);
    if left.None? { return false; }
    NoMembers(left.value);
    ok := left.value == [];
  }

  lemma AllAnswered(calls: Calls, digests: seq<Digest>)
    requires AllWork(calls, Members(digests)) && |Members(digests)| == |digests|
    requires forall d :: d in Members(digests) ==> ValidDigest(d)
    ensures forall k :: 0 <= k < Batches(|digests|) ==>
              Answers(calls.asks, k) && Members(Batch(digests, k)) !! calls.unreadable
  {
    forall k | 0 <= k < Batches(|digests|)
      ensures Members(Batch(digests, k)) !! calls.unreadable
    {
      BatchValid(digests, k);
    }
  }

  // ---- downloading ----

  /** The remote answer for one chunk, how storing it goes and whether the progress is recorded. */
  datatype Answer = Answer(wire: Option<Wire>, disk: Disk, recorded: bool)

  predicate Arrives(z: Codec, sum: seq<Byte> -> Digest, a: Answer, digest: Digest) {
    a.wire.Some? && Delivers(z, sum, a.wire.value, digest) && a.disk == Works && a.recorded
  }

  /** Each of the first `n` digests was answered with content that decodes, has that digest and could be stored. */
  predicate AllDelivered(z: Codec, sum: seq<Byte> -> Digest, missing: seq<Digest>, answers: seq<Answer>, n: nat) {
    n <= |missing| && n <= |answers| && forall k :: 0 <= k < n ==> Arrives(z, sum, answers[k], missing[k])
  }

  /** A store holds exactly what it had and the first `k` of the digests being moved. */
  predicate Grown(keys: set<Digest>, had: set<Digest>, moving: seq<Digest>, k: nat) {
    k <= |moving| && keys == had + Members(moving[..k])
  }

  lemma GrownNext(keys: set<Digest>, had: set<Digest>, moving: seq<Digest>, k: nat)
    requires Grown(keys, had, moving, k) && k < |moving| && Distinct(moving) && Members(moving) !! had
    ensures moving[k] !in keys && Grown(keys + {moving[k]}, had, moving, k + 1)
  {
    MembersPush(moving[..k], moving[k]);
    assert moving[..k + 1] == moving[..k] + [moving[k]];
    assert moving[k] in Members(moving);
  }

  /**
   The download loop of `FetchArtifacts`, whatever the remote side returns: it
   succeeds exactly when every missing chunk arrives and every local call works;
   then every chunk of the manifest is stored and verified, and progress has
   climbed to exactly the manifest's unique bytes.
   */
  method Fetch(
    z: Codec, local: Store, m: Manifest, unreadable: set<Digest>, begun: bool, answers: seq<Answer>)
    returns (ok: bool, progress: seq<nat>, missing: seq<Digest>)
    requires local.Valid() && forall d :: d in DigestSet(References(m.files)) ==> ValidDigest(d)
    modifies local
    ensures local.Valid()
    ensures DigestSet(References(m.files)) !! unreadable ==>
              Members(missing) == DigestSet(References(m.files)) - old(local.chunks).Keys && Lex.Increasing(missing)
    ensures ok <==> DigestSet(References(m.files)) !! unreadable && begun &&
                    AllDelivered(z, local.sum, missing, answers, |missing|)
    ensures ok ==> DigestSet(References(m.files)) <= local.chunks.Keys
    ensures Climbs(progress, FirstBytes(References(m.files), DigestSet(References(m.files))))
    ensures ok ==> progress != [] &&
                   progress[|progress| - 1] == FirstBytes(References(m.files), DigestSet(References(m.files)))
  {
    var digests := Digests(m);
    var absent := local.Missing(digests, unreadable);
    if absent.None? { return false, [], []; }
    missing := absent.value;
    ok, progress := FetchMissing(z, local, m, missing, begun, answers);
  }

  /** Storing one answer. */
  method StoreAnswer(z: Codec, local: Store, digest: Digest, a: Answer) returns (ok: bool)
    requires local.Valid() && digest !in local.chunks
    modifies local
    ensures local.Valid() && (ok <==> Arrives(z, local.sum, a, digest))
    ensures local.chunks.Keys == old(local.chunks).Keys || local.chunks.Keys == old(local.chunks).Keys + {digest}
    ensures ok ==> local.chunks.Keys == old(local.chunks).Keys + {digest}
  {
    if a.wire.None? { return false; }
    ok := local.Receive(z, digest, a.wire.value, a.disk);
    ok := ok && a.recorded;
  }

  method FetchMissing(
    z: Codec, local: Store, m: Manifest, missing: seq<Digest>, begun: bool, answers: seq<Answer>)
    returns (ok: bool, progress: seq<nat>)
    requires local.Valid() && Distinct(missing)
    requires Members(missing) == DigestSet(References(m.files)) - local.chunks.Keys
    modifies local
    ensures local.Valid() && old(local.chunks).Keys <= local.chunks.Keys
    ensures ok <==> begun && AllDelivered(z, local.sum, missing, answers, |missing|)
    ensures ok ==> Members(missing) <= local.chunks.Keys
    ensures Climbs(progress, FirstBytes(References(m.files), DigestSet(References(m.files))))
    ensures ok ==> progress != [] &&
                   progress[|progress| - 1] == FirstBytes(References(m.files), DigestSet(References(m.files)))
  {
    ghost var cs := References(m.files);
    ghost var had := local.chunks.Keys;
    var total := ManifestUniqueBytes(m);
    var absent := DigestBytes(m, missing);
    PresentAndAbsent(cs, missing);
    if !begun { return false, []; }
    var completed := total - absent;
    progress := [completed];
    ghost var base := completed;
    assert missing[..0] == [] && Members([]) == {};
    MeteredStart(cs, missing, base);
    for k := 0 to |missing|
      invariant local.Valid() && Grown(local.chunks.Keys, had, missing, k)
      invariant Metered(cs, missing, k, base, completed, progress)
      invariant AllDelivered(z, local.sum, missing, answers, k)
    {
      if k >= |answers| { return false, progress; }
      GrownNext(local.chunks.Keys, had, missing, k);
      var stored := StoreAnswer(z, local, missing[k], answers[k]);
      if !stored { return false, progress; }
      completed, progress := Advance(m, missing, k, completed, progress, base);
    }
    assert missing[..|missing|] == missing;
    ok := true;
  }

  /** The bytes of some of a manifest's digests are part of its unique bytes. */
  lemma PresentAndAbsent(cs: seq<Chunk>, missing: seq<Digest>)
    requires Distinct(missing) && Members(missing) <= DigestSet(cs)
    ensures FirstBytes(cs, Members(missing)) <= FirstBytes(cs, DigestSet(cs))
    ensures SumOfSingles(cs, missing) == FirstBytes(cs, Members(missing))
  {
    var rest := DigestSet(cs) - Members(missing);
    assert DigestSet(cs) == rest + Members(missing);
    FirstBytesAdds(cs, rest, Members(missing));
    SinglesAddUp(cs, missing);
  }
}
