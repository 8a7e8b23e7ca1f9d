/**
 The crash-repaired append log (internal/logging/store.go): bytes go to a file,
 are synced, and only then indexed by the repository. Every system call is one
 event, so a crash can fall between any two of them.
 */
module LogStore {
  import opened Text

  const MAXIMUM_CHUNK := 16 * 1024
  const PAGE_LIMIT := 32

  datatype Stream = Stdout | Stderr

  /** A row of the index; sequences count from 1. */
  datatype Meta = Meta(sequence: nat, stream: Stream, offset: nat, length: nat)

  /** What was committed, and whether the writing goroutine was told so. */
  datatype Record = Record(stream: Stream, data: seq<Byte>, told: bool)

  /** Where the goroutine holding the writer's lock stands inside `append`. */
  datatype Phase =
    | Idle
    | Writing(stream: Stream, chunk: seq<Byte>, done: nat)
    | Synced(stream: Stream, chunk: seq<Byte>)
    | Committed(stream: Stream, chunk: seq<Byte>)

  /**
   `file[..synced]` is what a crash cannot take away. `index` and `cursor` are the
   durable repository rows; `writer` is the offset held by the open writer.
   */
  datatype Log = Log(
    file: seq<Byte>, synced: nat,
    index: seq<Meta>, cursor: nat,
    writer: Option<nat>, phase: Phase,
    ledger: seq<Record>)

  const EMPTY := Log([], 0, [], 0, None, Idle, [])

  /** Any call may fail; a failed truncation may leave any tail, a failed write any partial prefix. */
  datatype Event =
    | Open(truncated: bool, tail: seq<Byte>, repaired: bool)
    | Start(stream: Stream, chunk: seq<Byte>)
    | WritePart(count: nat)
    | WriteFail(count: nat)
    | Sync(ok: bool, truncated: bool, tail: seq<Byte>)
    | Commit(ok: bool, truncated: bool, tail: seq<Byte>, repaired: bool)
    | Tell
    | Close(ok: bool)
    | Crash(tail: seq<Byte>)

  /** `WriteAt` within or just past the end of the file. */
  function WriteAt(file: seq<Byte>, offset: nat, data: seq<Byte>): (r: seq<Byte>)
    requires offset <= |file|
    ensures |r| >= offset + |data|
    ensures r[..offset] == file[..offset] && r[offset..offset + |data|] == data
  {
    file[..offset] + data + if offset + |data| <= |file| then file[offset + |data|..] else []
  }

  function Written(l: Log, offset: nat, data: seq<Byte>): Log {
    if offset <= |l.file| then l.(file := WriteAt(l.file, offset, data), synced := Min(l.synced, offset)) else l
  }

  function Truncated(l: Log, offset: nat, ok: bool, tail: seq<Byte>): Log {
    if offset <= |l.file|
    then l.(file := l.file[..offset] + if ok then [] else tail, synced := Min(l.synced, offset)) else l
  }

  function Flushed(l: Log): Log { l.(synced := |l.file|) }

  function OpenStep(l: Log, truncated: bool, tail: seq<Byte>, repaired: bool): Log {
    if l.writer.Some? || |l.file| < l.cursor then l
    else if |l.file| == l.cursor then l.(writer := Some(l.cursor), phase := Idle)
    else
      var t := Truncated(l, l.cursor, truncated, tail);
      if truncated && repaired then Flushed(t).(writer := Some(l.cursor), phase := Idle) else t
  }

  function CommitStep(l: Log, ok: bool, truncated: bool, tail: seq<Byte>, repaired: bool): Log
    requires l.writer.Some? && l.phase.Synced?
  {
    var stream, chunk, offset := l.phase.stream, l.phase.chunk, l.writer.value;
    if ok && offset == l.cursor then
      l.(index := l.index + [Meta(|l.index| + 1, stream, offset, |chunk|)], cursor := offset + |chunk|,
         ledger := l.ledger + [Record(stream, chunk, false)], phase := Committed(stream, chunk))
    else
      var t := Truncated(l, offset, truncated, tail).(phase := Idle);
      if repaired then Flushed(t) else t
  }

  function Step(l: Log, e: Event): Log {
    match e
    case Open(truncated, tail, repaired) => OpenStep(l, truncated, tail, repaired)
    case Start(stream, chunk) =>
      if l.writer.Some? && l.phase == Idle && 0 < |chunk| <= MAXIMUM_CHUNK
      then l.(phase := Writing(stream, chunk, 0)) else l
    case WritePart(count) =>
      if l.writer.Some? && l.phase.Writing? && l.phase.done + count <= |l.phase.chunk|
      then
        var to := l.phase.done + count;
        Written(l, l.writer.value + l.phase.done, l.phase.chunk[l.phase.done..to]).(phase := l.phase.(done := to))
      else l
    case WriteFail(count) =>
      if l.writer.Some? && l.phase.Writing? && l.phase.done + count <= |l.phase.chunk|
      then Written(l, l.writer.value + l.phase.done, l.phase.chunk[l.phase.done..l.phase.done + count]).(phase := Idle)
      else l
    case Sync(ok, truncated, tail) =>
      if l.writer.Some? && l.phase.Writing? && l.phase.done == |l.phase.chunk|
      then
        if ok then Flushed(l).(phase := Synced(l.phase.stream, l.phase.chunk))
        else Truncated(l, l.writer.value, truncated, tail).(phase := Idle)
      else l
    case Commit(ok, truncated, tail, repaired) =>
      if l.writer.Some? && l.phase.Synced? then CommitStep(l, ok, truncated, tail, repaired) else l
    case Tell =>
      if l.writer.Some? && l.phase.Committed? && l.ledger != []
      then
        var last := |l.ledger| - 1;
        l.(writer := Some(l.writer.value + |l.phase.chunk|), phase := Idle,
           ledger := l.ledger[last := l.ledger[last].(told := true)])
      else l
    case Close(ok) =>
      if l.writer.Some? && l.phase == Idle then (if ok then Flushed(l) else l).(writer := None) else l
    case Crash(tail) =>
      if l.synced <= |l.file|
      then l.(file := l.file[..l.synced] + tail, writer := None, phase := Idle) else l
  }

  function Run(l: Log, es: seq<Event>): Log {
    if es == [] then l else Step(Run(l, es[..|es| - 1]), es[|es| - 1])
  }

  // ---- the invariant ----

  /** All committed bytes, in commit order. */
  function Bytes(ledger: seq<Record>): seq<Byte> {
    if ledger == [] then [] else Bytes(ledger[..|ledger| - 1]) + ledger[|ledger| - 1].data
  }

  /** Row `k` of the index points at exactly the bytes of record `k`. */
  predicate RowMatches(l: Log, k: nat)
    requires k < |l.index| == |l.ledger|
  {
    var row := l.index[k];
    row.sequence == k + 1 && row.stream == l.ledger[k].stream && row.length == |l.ledger[k].data| &&
    0 < row.length <= MAXIMUM_CHUNK &&
    row.offset == |Bytes(l.ledger[..k])| && row.offset + row.length <= l.cursor &&
    l.cursor <= |l.file| && l.file[row.offset..row.offset + row.length] == l.ledger[k].data
  }

  predicate Indexed(l: Log) {
    |l.index| == |l.ledger| && forall k :: 0 <= k < |l.index| ==> RowMatches(l, k)
  }

  /** The committed prefix is on disk and durable. */
  predicate Durable(l: Log) {
    l.cursor == |Bytes(l.ledger)| && l.cursor <= l.synced <= |l.file| && l.file[..l.cursor] == Bytes(l.ledger)
  }

  predicate Placed(l: Log) {
    match l.writer
    case None => l.phase == Idle
    case Some(offset) =>
      match l.phase
      case Idle => offset == l.cursor
      case Writing(_, chunk, done) =>
        offset == l.cursor && done <= |chunk| && 0 < |chunk| <= MAXIMUM_CHUNK &&
        offset + done <= |l.file| && l.file[offset..offset + done] == chunk[..done]
      case Synced(_, chunk) =>
        offset == l.cursor && 0 < |chunk| <= MAXIMUM_CHUNK &&
        offset + |chunk| <= l.synced <= |l.file| && l.file[offset..offset + |chunk|] == chunk
      case Committed(stream, chunk) =>
        offset + |chunk| == l.cursor && l.ledger != [] && l.ledger[|l.ledger| - 1] == Record(stream, chunk, false)
  }

  predicate Inv(l: Log) { Indexed(l) && Durable(l) && Placed(l) }

  /** Changing the file past the cursor disturbs no row. */
  lemma TailFree(l: Log, t: Log)
    requires Inv(l)
    requires t.index == l.index && t.ledger == l.ledger && t.cursor == l.cursor
    requires l.cursor <= t.synced <= |t.file| && t.file[..l.cursor] == l.file[..l.cursor]
    ensures Indexed(t) && Durable(t)
  {
    forall k | 0 <= k < |t.index|
      ensures RowMatches(t, k)
    {
      assert RowMatches(l, k);
      var row := l.index[k];
      SliceOfPrefix(l.file, l.cursor, row.offset, row.offset + row.length);
      SliceOfPrefix(t.file, l.cursor, row.offset, row.offset + row.length);
    }
  }

  lemma OpenInv(l: Log, truncated: bool, tail: seq<Byte>, repaired: bool)
    requires Inv(l)
    ensures Inv(OpenStep(l, truncated, tail, repaired))
  {
    TailFree(l, OpenStep(l, truncated, tail, repaired));
  }

  /** A write at `offset + done` leaves the file as it was below and extends what was written from `offset`. */
  lemma WriteExtends(file: seq<Byte>, offset: nat, chunk: seq<Byte>, done: nat, to: nat)
    requires done <= to <= |chunk| && offset + done <= |file| && file[offset..offset + done] == chunk[..done]
    ensures var r := WriteAt(file, offset + done, chunk[done..to]);
            r[..offset] == file[..offset] && offset + to <= |r| && r[offset..offset + to] == chunk[..to]
  {
    var r := WriteAt(file, offset + done, chunk[done..to]);
    assert r[..offset] == r[..offset + done][..offset];
    assert file[..offset] == file[..offset + done][..offset];
    assert r[offset..offset + done] == r[..offset + done][offset..];
    assert file[offset..offset + done] == file[..offset + done][offset..];
    assert r[offset..offset + to] == r[offset..offset + done] + r[offset + done..offset + to];
    assert chunk[..done] + chunk[done..to] == chunk[..to];
  }

  lemma WriteInv(l: Log, count: nat)
    requires Inv(l)
    ensures Inv(Step(l, WritePart(count))) && Inv(Step(l, WriteFail(count)))
  {
    if l.writer.Some? && l.phase.Writing? && l.phase.done + count <= |l.phase.chunk| {
      WriteExtends(l.file, l.writer.value, l.phase.chunk, l.phase.done, l.phase.done + count);
      TailFree(l, Step(l, WritePart(count)));
      TailFree(l, Step(l, WriteFail(count)));
    }
  }

  lemma SyncInv(l: Log, ok: bool, truncated: bool, tail: seq<Byte>)
    requires Inv(l)
    ensures Inv(Step(l, Sync(ok, truncated, tail)))
  {
    var t := Step(l, Sync(ok, truncated, tail));
    if l.phase.Writing? { assert l.phase.chunk[..|l.phase.chunk|] == l.phase.chunk; }
    TailFree(l, t);
  }

  lemma AppendRow(l: Log)
    requires Inv(l) && l.writer.Some? && l.phase.Synced?
    ensures Inv(CommitStep(l, true, true, [], true))
  {
    var t := CommitStep(l, true, true, [], true);
    var n := |l.index|;
    var chunk := l.phase.chunk;
    assert t.ledger[..n] == l.ledger;
    assert t.file[..t.cursor] == l.file[..l.cursor] + l.file[l.cursor..t.cursor];
    assert l.ledger[..n] == l.ledger;
    forall k | 0 <= k < |t.index|
      ensures RowMatches(t, k)
    {
      if k < n {
        assert RowMatches(l, k);
        assert t.ledger[..k] == l.ledger[..k];
      } else {
        assert t.ledger[..k] == l.ledger;
      }
    }
  }

  lemma CommitInv(l: Log, ok: bool, truncated: bool, tail: seq<Byte>, repaired: bool)
    requires Inv(l)
    ensures Inv(Step(l, Commit(ok, truncated, tail, repaired)))
  {
    if l.writer.Some? && l.phase.Synced? {
      if ok {
        AppendRow(l);
      } else {
        TailFree(l, CommitStep(l, ok, truncated, tail, repaired));
      }
    }
  }

  lemma {:induction false} BytesOfTold(a: seq<Record>, b: seq<Record>)
    requires |a| == |b| && forall k :: 0 <= k < |a| ==> a[k].data == b[k].data
    ensures Bytes(a) == Bytes(b)
  {
    if a == [] {
    } else {
      BytesOfTold(a[..|a| - 1], b[..|b| - 1]);
    }
  }

  lemma TellInv(l: Log)
    requires Inv(l)
    ensures Inv(Step(l, Tell))
  {
    var t := Step(l, Tell);
    if t != l {
      BytesOfTold(l.ledger, t.ledger);
      forall k | 0 <= k < |t.index|
        ensures RowMatches(t, k)
      {
        assert RowMatches(l, k);
        BytesOfTold(l.ledger[..k], t.ledger[..k]);
      }
    }
  }

  lemma StepInv(l: Log, e: Event)
    requires Inv(l)
    ensures Inv(Step(l, e))
  {
    match e
    case Open(truncated, tail, repaired) => OpenInv(l, truncated, tail, repaired);
    case Start(stream, chunk) => TailFree(l, Step(l, e));
    case WritePart(count) => WriteInv(l, count);
    case WriteFail(count) => WriteInv(l, count);
    case Sync(ok, truncated, tail) => SyncInv(l, ok, truncated, tail);
    case Commit(ok, truncated, tail, repaired) => CommitInv(l, ok, truncated, tail, repaired);
    case Tell => TellInv(l);
    case Close(ok) => TailFree(l, Step(l, e));
    case Crash(tail) => TailFree(l, Step(l, e));
  }

  lemma {:induction false} RunInv(l: Log, es: seq<Event>)
    requires Inv(l)
    ensures Inv(Run(l, es))
  {
    if es == [] {
    } else {
      RunInv(l, es[..|es| - 1]);
      StepInv(Run(l, es[..|es| - 1]), es[|es| - 1]);
    }
  }

  // ---- what it means, for every run ----

  /**
   Through any appends on two streams, partial writes, failed syncs or commits
   and crashes at any point: the file starts with exactly the committed records
   in order, every index row points at its own record, and the size test of
   `OpenWriter` never fails.
   */
  lemma LogIsExact(es: seq<Event>)
    ensures var l := Run(EMPTY, es);
            l.cursor <= |l.file| && l.file[..l.cursor] == Bytes(l.ledger) &&
            |l.index| == |l.ledger| && forall k :: 0 <= k < |l.index| ==> RowMatches(l, k)
  {
    RunInv(EMPTY, es);
  }

  /** A reopen that succeeds leaves exactly the committed prefix in the file, durable. */
  lemma ReopenLeavesPrefix(es: seq<Event>, truncated: bool, tail: seq<Byte>, repaired: bool)
    requires Run(EMPTY, es).writer.None?
    ensures var l := Run(EMPTY, es);
            var t := Step(l, Open(truncated, tail, repaired));
            t.ledger == l.ledger &&
            (t.writer.Some? ==> t.writer.value == l.cursor && t.file == Bytes(l.ledger) && t.synced == |t.file|) &&
            (|l.file| == l.cursor || (truncated && repaired) ==> t.writer.Some?)
  {
    RunInv(EMPTY, es);
    var l := Run(EMPTY, es);
    assert |l.file| == l.cursor ==> l.file[..l.cursor] == l.file;
  }

  /** After a sync or a commit that fails, a truncation that works leaves exactly the committed bytes. */
  lemma FailureCuts(l: Log, tail: seq<Byte>)
    requires Inv(l) && l.writer.Some?
    ensures l.phase.Writing? && l.phase.done == |l.phase.chunk| ==>
              var t := Step(l, Sync(false, true, tail)); t.file == Bytes(l.ledger) && t.phase == Idle
    ensures l.phase.Synced? ==>
              var t := Step(l, Commit(false, true, tail, true));
              t.file == Bytes(l.ledger) && t.synced == |t.file| && t.phase == Idle && t.ledger == l.ledger
  {
    assert l.file[..l.cursor] + [] == l.file[..l.cursor];
  }

  /** What a writer has closed in order survives any crash. */
  lemma ClosedSurvives(l: Log, tail: seq<Byte>)
    requires Inv(l) && l.writer.Some? && l.phase == Idle
    ensures var t := Step(Step(l, Close(true)), Crash(tail)); l.file <= t.file && t.ledger == l.ledger
  {
    assert l.file[..|l.file|] == l.file;
  }

  /** The bytes that callers writing to `stream` were told were written. */
  function Told(ledger: seq<Record>, stream: Stream): seq<Byte> {
    if ledger == [] then []
    else
      var r := ledger[|ledger| - 1];
      Told(ledger[..|ledger| - 1], stream) + if r.told && r.stream == stream then r.data else []
  }

  /** The bytes indexed for `stream`, read from the file as `Store.Read` reads them. */
  function Stored(l: Log, stream: Stream, n: nat): seq<Byte>
    requires n <= |l.index|
    requires InFile(l)
  {
    if n == 0 then []
    else
      var row := l.index[n - 1];
      Stored(l, stream, n - 1) + if row.stream == stream then l.file[row.offset..row.offset + row.length] else []
  }

  /** How many records of `stream` were committed without their writer having learned of it. */
  function Untold(ledger: seq<Record>, stream: Stream): nat {
    if ledger == [] then 0
    else
      var r := ledger[|ledger| - 1];
      Untold(ledger[..|ledger| - 1], stream) + if !r.told && r.stream == stream then 1 else 0
  }

  /** A goroutine stands between the commit of a record of `stream` and its return to the writer. */
  predicate InWindow(l: Log, stream: Stream) { l.phase.Committed? && l.phase.stream == stream }

  /** How many crashes of the run fall into that window. */
  function LostCrashes(es: seq<Event>, stream: Stream): nat {
    if es == [] then 0
    else
      var init := es[..|es| - 1];
      LostCrashes(init, stream) + if es[|es| - 1].Crash? && InWindow(Run(EMPTY, init), stream) then 1 else 0
  }

  function Count(b: bool): nat { if b then 1 else 0 }

  lemma StepUntold(l: Log, e: Event, stream: Stream)
    requires Inv(l)
    ensures Untold(Step(l, e).ledger, stream) + Count(InWindow(l, stream)) ==
            Untold(l.ledger, stream) + Count(InWindow(Step(l, e), stream)) + Count(e.Crash? && InWindow(l, stream))
  {
    var t := Step(l, e);
    var n := |l.ledger|;
    if |t.ledger| > n { assert t.ledger[..n] == l.ledger; }
    if e.Tell? && t != l { assert t.ledger[..n - 1] == l.ledger[..n - 1]; }
  }

  /** In every run: one untold record per crash in the window, and one while a goroutine is in it. */
  lemma {:induction false} UntoldExactly(es: seq<Event>, stream: Stream)
    ensures Untold(Run(EMPTY, es).ledger, stream) ==
            LostCrashes(es, stream) + Count(InWindow(Run(EMPTY, es), stream))
  {
    if es == [] {
    } else {
      var init := es[..|es| - 1];
      UntoldExactly(init, stream);
      RunInv(EMPTY, init);
      StepUntold(Run(EMPTY, init), es[|es| - 1], stream);
    }
  }

  predicate InFile(l: Log) {
    forall k :: 0 <= k < |l.index| ==> l.index[k].offset + l.index[k].length <= |l.file|
  }

  lemma IndexInFile(l: Log)
    requires Inv(l)
    ensures InFile(l)
  {
    forall k | 0 <= k < |l.index|
      ensures l.index[k].offset + l.index[k].length <= |l.file|
    {
      assert RowMatches(l, k);
    }
  }

  /** Stored bytes are at least the told ones, and exactly those when every record was told: records are not empty. */
  lemma {:induction false} StoredVersusTold(l: Log, stream: Stream, n: nat)
    requires Inv(l) && n <= |l.index| && InFile(l)
    ensures |Stored(l, stream, n)| >= |Told(l.ledger[..n], stream)| + Untold(l.ledger[..n], stream)
    ensures Untold(l.ledger[..n], stream) == 0 ==> Stored(l, stream, n) == Told(l.ledger[..n], stream)
  {
    if n == 0 {
    } else {
      assert l.ledger[..n][..n - 1] == l.ledger[..n - 1];
      assert RowMatches(l, n - 1);
      StoredVersusTold(l, stream, n - 1);
    }
  }

  /**
   Exactly-once output: after any run, with any crashes, a stream's indexed bytes are exactly what its
   writers were told if and only if no crash fell between a commit on that stream and its return, and
   nobody is in between now.
   */
  lemma StreamsAreTold(es: seq<Event>, stream: Stream)
    ensures var l := Run(EMPTY, es);
            InFile(l) &&
            (Stored(l, stream, |l.index|) == Told(l.ledger, stream) <==>
             LostCrashes(es, stream) == 0 && !InWindow(l, stream))
  {
    var l := Run(EMPTY, es);
    RunInv(EMPTY, es);
    IndexInFile(l);
    UntoldExactly(es, stream);
    assert l.ledger[..|l.ledger|] == l.ledger;
    StoredVersusTold(l, stream, |l.index|);
  }

  /** A run that ends with a stored byte its writer never heard of. */
  function LosingRun(): seq<Event> {
    [Open(true, [], true), Start(Stdout, [7]), WritePart(1), Sync(true, true, []), Commit(true, true, [], true),
     Crash([])]
  }

  lemma PlayRun(l: Log, es: seq<Event>, e: Event)
    ensures Run(l, es + [e]) == Step(Run(l, es), e)
  {
    assert (es + [e])[..|es|] == es;
  }

  lemma LosingRunCommits()
    ensures Run(EMPTY, LosingRun()[..5]).phase == Committed(Stdout, [7])
  {
    var es := LosingRun();
    assert es[..5] == [] + [es[0]] + [es[1]] + [es[2]] + [es[3]] + [es[4]];
    var l1 := EMPTY.(writer := Some(0));
    PlayRun(EMPTY, [], es[0]);
    var l2 := l1.(phase := Writing(Stdout, [7], 0));
    PlayRun(EMPTY, [] + [es[0]], es[1]);
    assert Run(EMPTY, [] + [es[0]] + [es[1]]) == l2;
    var l3 := l2.(file := [7], phase := Writing(Stdout, [7], 1));
    PlayRun(EMPTY, [] + [es[0]] + [es[1]], es[2]);
    assert Step(l2, es[2]) == l3;
    PlayRun(EMPTY, [] + [es[0]] + [es[1]] + [es[2]], es[3]);
    PlayRun(EMPTY, [] + [es[0]] + [es[1]] + [es[2]] + [es[3]], es[4]);
  }

  lemma CrashLosesTold()
    ensures LostCrashes(LosingRun(), Stdout) > 0
    ensures var l := Run(EMPTY, LosingRun()); InFile(l) && Stored(l, Stdout, |l.index|) != Told(l.ledger, Stdout)
  {
    var es := LosingRun();
    LosingRunCommits();
    assert es[..|es| - 1] == es[..5];
    StreamsAreTold(es, Stdout);
  }

  /** Committed records are never rewritten, only marked as told. */
  predicate Keeps(a: seq<Record>, b: seq<Record>) {
    |a| <= |b| && forall k :: 0 <= k < |a| ==>
      b[k].stream == a[k].stream && b[k].data == a[k].data && (a[k].told ==> b[k].told)
  }

  lemma StepKeeps(l: Log, e: Event)
    ensures Keeps(l.ledger, Step(l, e).ledger)
  {}

  lemma {:induction false} RunKeeps(l: Log, es: seq<Event>)
    ensures Keeps(l.ledger, Run(l, es).ledger)
  {
    if es == [] {
    } else {
      RunKeeps(l, es[..|es| - 1]);
      StepKeeps(Run(l, es[..|es| - 1]), es[|es| - 1]);
    }
  }

  /** A log some run of events leads to. */
  ghost predicate Reached(l: Log) {
    exists es :: Run(EMPTY, es) == l
  }

  lemma ReachedInv(l: Log)
    requires Reached(l)
    ensures Inv(l)
  {
    var es :| Run(EMPTY, es) == l;
    RunInv(EMPTY, es);
  }

  lemma ReachedStep(l: Log, e: Event)
    requires Reached(l)
    ensures Reached(Step(l, e))
  {
    var es :| Run(EMPTY, es) == l;
    assert (es + [e])[..|es|] == es;
    assert Run(EMPTY, es + [e]) == Step(l, e);
  }

  // ---- properties that every step keeps ----

  type Property = Log -> bool

  /** Every step keeps the property, and it comes with the invariant. */
  ghost predicate Kept(good: Property) {
    good(EMPTY) &&
    (forall l, e {:trigger Step(l, e)} :: good(l) ==> good(Step(l, e))) &&
    (forall l {:trigger Inv(l)} :: good(l) ==> Inv(l))
  }

  /** Being reached is such a property. */
  lemma ReachedIsKept()
    ensures Kept(l => Reached(l))
  {
    assert Run(EMPTY, []) == EMPTY;
    forall l, e | Reached(l) ensures Reached(Step(l, e)) { ReachedStep(l, e); }
    forall l | Reached(l) ensures Inv(l) { ReachedInv(l); }
  }

  lemma KeptStep(good: Property, l: Log, e: Event)
    requires Kept(good) && good(l)
    ensures good(Step(l, e))
  {}

  /** The facts about a log that the writer's index arithmetic needs. */
  lemma KeptBounds(good: Property, l: Log)
    requires Kept(good) && good(l)
    ensures l.cursor <= l.synced <= |l.file| && Placed(l)
  {
    assert Inv(l);
  }

  /** The log after one `WriteAt` that puts `count` more bytes in place and then fails or not. */
  function AfterWrite(l: Log, count: nat, failed: bool): Log
    requires l.writer.Some? && l.phase.Writing? && l.phase.done + count <= |l.phase.chunk|
    requires l.writer.value + l.phase.done <= |l.file|
  {
    var offset, to := l.writer.value + l.phase.done, l.phase.done + count;
    l.(file := WriteAt(l.file, offset, l.phase.chunk[l.phase.done..to]), synced := Min(l.synced, offset),
       phase := if failed then Idle else l.phase.(done := to))
  }

  lemma WriteIs(l: Log, count: nat)
    requires l.writer.Some? && l.phase.Writing? && l.phase.done + count <= |l.phase.chunk|
    requires l.writer.value + l.phase.done <= |l.file|
    ensures Step(l, WriteFail(count)) == AfterWrite(l, count, true)
    ensures Step(l, WritePart(count)) == AfterWrite(l, count, false)
  {}

  lemma KeptWrite(good: Property, l: Log, count: nat, failed: bool)
    requires Kept(good) && good(l)
    requires l.writer.Some? && l.phase.Writing? && l.phase.done + count <= |l.phase.chunk|
    ensures l.writer.value + l.phase.done <= |l.file| && good(AfterWrite(l, count, failed))
  {
    KeptBounds(good, l);
    WriteIs(l, count);
    KeptStep(good, l, if failed then WriteFail(count) else WritePart(count));
  }

  /** The log after the writer has learned of the committed record. */
  function AfterTell(l: Log): Log
    requires l.writer.Some? && l.phase.Committed? && l.ledger != []
  {
    l.(writer := Some(l.writer.value + |l.phase.chunk|), phase := Idle,
       ledger := l.ledger[|l.ledger| - 1 := Record(l.phase.stream, l.phase.chunk, true)])
  }

  lemma TellIs(l: Log)
    requires l.writer.Some? && l.phase.Committed? && l.ledger != []
    requires l.ledger[|l.ledger| - 1] == Record(l.phase.stream, l.phase.chunk, false)
    ensures Step(l, Tell) == AfterTell(l)
  {}

  lemma KeptTell(good: Property, l: Log)
    requires Kept(good) && good(l) && l.writer.Some? && l.phase.Committed? && l.ledger != []
    ensures good(AfterTell(l))
  {
    KeptBounds(good, l);
    TellIs(l);
    KeptStep(good, l, Tell);
  }
}
