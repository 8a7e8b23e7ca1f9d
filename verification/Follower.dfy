/**
 `computehop logs --follow` (streamJobLogs in cmd/computehop/root.go) over
 `JobService.ReadLogs`, while runner, dispatcher and other clients keep changing
 the job rows and the log between any two reads.
 */
module Follower {
  import opened Text
  import Jobs
  import opened Custody
  import opened LogStore

  datatype World = World(db: Jobs.Db, log: Log)

  datatype Happening = Rows(op: Jobs.Op) | Bytes(event: Event)

  /** The repository refuses to index bytes of a completed attempt, and has no cursor without one. */
  predicate Recording(db: Jobs.Db) {
    db.attempt.Some? && db.attempt.value.status != Jobs.Completed
  }

  function Gated(db: Jobs.Db, e: Event): Event {
    if e.Commit? && !Recording(db) then e.(ok := false) else e
  }

  function Happen(w: World, h: Happening): World {
    match h
    case Rows(op) => w.(db := Jobs.Exec(w.db, op))
    case Bytes(e) => if e.Open? && w.db.attempt.None? then w else w.(log := Step(w.log, Gated(w.db, e)))
  }

  predicate Lawful(h: Happening) { h.Rows? ==> Issued(h.op) }

  predicate AllLawful(hs: seq<Happening>) {
    forall k :: 0 <= k < |hs| ==> Lawful(hs[k])
  }

  /** Rows agree, the log is a real log, and there is none before a claim. */
  ghost predicate Sound(w: World) {
    CustodyInv(w.db) && Reached(w.log) && (w.db.attempt.None? ==> w.log.ledger == [] && w.log.writer.None?)
  }

  lemma ExecKeepsAttempt(db: Jobs.Db, op: Jobs.Op)
    ensures db.attempt.Some? ==> Jobs.Exec(db, op).attempt.Some?
    ensures db.job.Some? ==> Jobs.Exec(db, op).job.Some?
  {}

  lemma NoWriterNoRecord(l: Log, e: Event)
    requires l.ledger == [] && l.writer.None? && !e.Open?
    ensures Step(l, e).ledger == [] && Step(l, e).writer.None?
  {}

  lemma HappenSound(w: World, h: Happening)
    requires Sound(w) && Lawful(h)
    ensures Sound(Happen(w, h))
  {
    match h
    case Rows(op) =>
      ExecAgree(w.db, op);
      ExecKeepsAttempt(w.db, op);
    case Bytes(e) =>
      ReachedStep(w.log, Gated(w.db, e));
      if w.db.attempt.None? && !e.Open? { NoWriterNoRecord(w.log, Gated(w.db, e)); }
  }

  // ---- what the follower prints ----

  type Line = (Stream, seq<Byte>)

  function Output(ledger: seq<Record>): (out: seq<Line>)
    ensures |out| == |ledger|
    ensures forall k :: 0 <= k < |out| ==> out[k] == (ledger[k].stream, ledger[k].data)
  {
    seq(|ledger|, k requires 0 <= k < |ledger| => (ledger[k].stream, ledger[k].data))
  }

  lemma OutputGrows(a: seq<Record>, b: seq<Record>)
    requires Keeps(a, b)
    ensures Output(a) <= Output(b)
  {
    assert forall k :: 0 <= k < |a| ==> Output(a)[k] == Output(b)[k];
  }

  lemma HappenKeeps(w: World, h: Happening)
    ensures Keeps(w.log.ledger, Happen(w, h).log.ledger)
  {
    if h.Bytes? { StepKeeps(w.log, Gated(w.db, h.event)); }
  }

  lemma QuietStep(l: Log, e: Event)
    requires !(e.Commit? && e.ok)
    ensures |Step(l, e).ledger| == |l.ledger|
  {}

  /** Once the job is over its output is complete: nothing that happens adds to it. */
  lemma HappenOver(w: World, h: Happening)
    requires Over(w.db)
    ensures Over(Happen(w, h).db) && |Happen(w, h).log.ledger| == |w.log.ledger|
  {
    match h
    case Rows(op) => ExecOver(w.db, op);
    case Bytes(e) => QuietStep(w.log, Gated(w.db, e));
  }

  function HappenAll(w: World, hs: seq<Happening>): World {
    if hs == [] then w else Happen(HappenAll(w, hs[..|hs| - 1]), hs[|hs| - 1])
  }

  lemma {:induction false} HappenAllSound(w: World, hs: seq<Happening>)
    requires Sound(w) && AllLawful(hs)
    ensures Sound(HappenAll(w, hs)) && Keeps(w.log.ledger, HappenAll(w, hs).log.ledger)
    ensures w.db.attempt.Some? ==> HappenAll(w, hs).db.attempt.Some?
    ensures w.db.job.Some? ==> HappenAll(w, hs).db.job.Some?
  {
    if hs == [] {
    } else {
      HappenAllSound(w, hs[..|hs| - 1]);
      HappenSound(HappenAll(w, hs[..|hs| - 1]), hs[|hs| - 1]);
      HappenKeeps(HappenAll(w, hs[..|hs| - 1]), hs[|hs| - 1]);
      if hs[|hs| - 1].Rows? { ExecKeepsAttempt(HappenAll(w, hs[..|hs| - 1]).db, hs[|hs| - 1].op); }
    }
  }

  /** The output of a job that is over never changes again. */
  lemma {:induction false} OverIsFinal(w: World, hs: seq<Happening>)
    requires Over(w.db)
    ensures Over(HappenAll(w, hs).db) && Output(HappenAll(w, hs).log.ledger) == Output(w.log.ledger)
  {
    if hs == [] {
    } else {
      var before := HappenAll(w, hs[..|hs| - 1]);
      OverIsFinal(w, hs[..|hs| - 1]);
      HappenOver(before, hs[|hs| - 1]);
      HappenKeeps(before, hs[|hs| - 1]);
      OutputGrows(before.log.ledger, Happen(before, hs[|hs| - 1]).log.ledger);
    }
  }

  // ---- ReadLogs and the follower ----

  datatype Row = Row(sequence: nat, stream: Stream, data: seq<Byte>)

  datatype Reply = Reply(job: Jobs.Job, page: seq<Row>, hasMore: bool)

  /**
   What happens around the reads of one `ReadLogs`, whether its reads succeed, and which write of the
   page's records to the output fails, if any.
   */
  datatype Timing = Timing(
    ok: bool, beforeAttempt: seq<Happening>, beforeList: seq<Happening>, beforeFile: seq<Happening>,
    badWrite: Option<nat>, afterwards: seq<Happening>)

  predicate LawfulTiming(t: Timing) {
    AllLawful(t.beforeAttempt) && AllLawful(t.beforeList) && AllLawful(t.beforeFile) && AllLawful(t.afterwards)
  }

  /** The rows of a page are the records right after `after`. */
  predicate PageOf(page: seq<Row>, after: nat, ledger: seq<Record>) {
    after + |page| <= |ledger| &&
    forall k :: 0 <= k < |page| ==>
      page[k] == Row(after + k + 1, ledger[after + k].stream, ledger[after + k].data)
  }

  /** These rows are the index rows after sequence `after`. */
  predicate Listed(l: Log, rows: seq<Meta>, after: nat) {
    |l.index| == |l.ledger| && after + |rows| <= |l.index| && rows == l.index[after..after + |rows|]
  }

  /** What a row of the index reads from the file. */
  lemma RowIs(w: World, k: nat, row: Meta)
    requires Sound(w) && k < |w.log.index| == |w.log.ledger| && row == w.log.index[k]
    ensures row.offset + row.length <= |w.log.file|
    ensures row.sequence == k + 1 && row.stream == w.log.ledger[k].stream
    ensures w.log.file[row.offset..row.offset + row.length] == w.log.ledger[k].data
  {
    ReachedInv(w.log);
    assert RowMatches(w.log, k);
  }

  /** Polls that all work, and are enough to page through `records` records. */
  predicate Enough(polls: seq<Timing>, records: nat) {
    0 < |polls| && records <= |polls| * PAGE_LIMIT &&
    forall k :: 0 <= k < |polls| ==> polls[k].ok && polls[k].badWrite.None?
  }

  class Daemon {
    var world: World

    constructor ()
      ensures world == World(Jobs.NO_ROWS, EMPTY) && Sound(world)
    {
      world := World(Jobs.NO_ROWS, EMPTY);
      assert Run(EMPTY, []) == EMPTY;
    }

    method Meanwhile(hs: seq<Happening>)
      requires Sound(world) && AllLawful(hs)
      modifies this
      ensures world == HappenAll(old(world), hs)
      ensures Sound(world) && Keeps(old(world).log.ledger, world.log.ledger)
      ensures old(Over(world.db)) ==> Over(world.db) && |world.log.ledger| == |old(world).log.ledger|
      ensures old(world).db.attempt.Some? ==> world.db.attempt.Some?
      ensures old(world).db.job.Some? ==> world.db.job.Some?
    {
      for i := 0 to |hs|
        invariant world == HappenAll(old(world), hs[..i])
      {
        assert hs[..i + 1][..i] == hs[..i];
        world := Happen(world, hs[i]);
      }
      assert hs[..|hs|] == hs;
      HappenAllSound(old(world), hs);
      if old(Over(world.db)) { OverIsFinal(old(world), hs); }
    }

    /** `List`: at most 32 rows after a sequence, and whether there are more. */
    method ListRows(after: nat) returns (rows: seq<Meta>, hasMore: bool)
      requires Sound(world) && after <= |world.log.ledger|
      ensures hasMore <==> after + PAGE_LIMIT < |world.log.ledger|
      ensures |rows| == Min(PAGE_LIMIT, |world.log.ledger| - after)
      ensures Listed(world.log, rows, after)
    {
      ReachedInv(world.log);
      var n := Min(PAGE_LIMIT, |world.log.index| - after);
      rows := world.log.index[after..after + n];
      hasMore := after + n < |world.log.index|;
    }

    /** The file reads of `Store.Read`. */
    method ReadRows(rows: seq<Meta>, after: nat) returns (page: seq<Row>)
      requires Sound(world) && Listed(world.log, rows, after)
      ensures |page| == |rows| && PageOf(page, after, world.log.ledger)
    {
      page := [];
      for k := 0 to |rows|
        invariant |page| == k && PageOf(page, after, world.log.ledger)
      {
        var row := rows[k];
        RowIs(world, after + k, row);
        page := page + [Row(row.sequence, row.stream, world.log.file[row.offset..row.offset + row.length])];
      }
    }

    /** `ReadLogs`: job, then attempt, then page, each as it is at that moment. */
    method ReadLogs(after: nat, t: Timing) returns (r: Option<Reply>)
      requires Sound(world) && after <= |world.log.ledger| && LawfulTiming(t)
      modifies this
      ensures Sound(world) && Keeps(old(world).log.ledger, world.log.ledger)
      ensures old(Over(world.db)) ==> Over(world.db) && |world.log.ledger| == |old(world).log.ledger|
      ensures r.Some? ==> PageOf(r.value.page, after, world.log.ledger)
      ensures r.Some? ==> old(world).db.job == Some(r.value.job)
      ensures r.Some? && Jobs.Terminal(r.value.job.state) ==> Over(world.db)
      ensures r.Some? && Jobs.Terminal(r.value.job.state) && !r.value.hasMore ==>
                after + |r.value.page| == |world.log.ledger|
      ensures r.Some? <==> t.ok && old(world).db.job.Some?
      ensures old(world).db.job.Some? ==> world.db.job.Some?
      ensures r.Some? && !r.value.hasMore ==> after + |r.value.page| >= |old(world).log.ledger|
      ensures r.Some? && old(Over(world.db)) ==> Jobs.Terminal(r.value.job.state)
      ensures r.Some? && r.value.hasMore ==> |r.value.page| == PAGE_LIMIT && after + PAGE_LIMIT < |world.log.ledger|
    {
      if !t.ok || world.db.job.None? { return None; }
      var job := world.db.job.value;
      TerminalMeansOver(world.db);
      Meanwhile(t.beforeAttempt);
      if world.db.attempt.None? {
        return Some(Reply(job, [], false));
      }
      Meanwhile(t.beforeList);
      var rows, hasMore := ListRows(after);
      var page := ReadLater(rows, after, t.beforeFile);
      r := Some(Reply(job, page, hasMore));
    }

    /** The index only grows, so rows listed earlier still describe the file. */
    method ReadLater(rows: seq<Meta>, after: nat, hs: seq<Happening>) returns (page: seq<Row>)
      requires Sound(world) && AllLawful(hs) && Listed(world.log, rows, after)
      modifies this
      ensures Sound(world) && Keeps(old(world).log.ledger, world.log.ledger)
      ensures old(Over(world.db)) ==> Over(world.db) && |world.log.ledger| == |old(world).log.ledger|
      ensures |page| == |rows| && PageOf(page, after, world.log.ledger)
      ensures old(world).db.job.Some? ==> world.db.job.Some?
    {
      ghost var before := world.log;
      Meanwhile(hs);
      RowsStay(before, world.log, rows, after);
      page := ReadRows(rows, after);
    }

    /**
     `streamJobLogs`. Whatever is printed is a prefix of the job's output, once
     and in order; if it returns on a terminal job, all output was printed and
     none can follow.
     */
    method StreamJobLogs(follow: bool, polls: seq<Timing>) returns (emitted: seq<Line>, end: Option<Jobs.Job>)
      requires Sound(world) && forall k :: 0 <= k < |polls| ==> LawfulTiming(polls[k])
      modifies this
      ensures Sound(world) && emitted <= Output(world.log.ledger)
      ensures end.Some? && Jobs.Terminal(end.value.state) ==> Over(world.db) && emitted == Output(world.log.ledger)
      ensures end.Some? && follow ==> Jobs.Terminal(end.value.state)
      ensures end.Some? ==> Output(old(world).log.ledger) <= emitted
      ensures old(Over(world.db)) && Enough(polls, |world.log.ledger|) ==> end.Some?
      ensures !follow && old(world).db.job.Some? && Enough(polls, |world.log.ledger|) ==> end.Some?
    {
      emitted := [];
      var after := 0;
      ghost var start := world.log.ledger;
      for i := 0 to |polls|
        invariant Sound(world) && after == |emitted| <= |world.log.ledger| && emitted <= Output(world.log.ledger)
        invariant Keeps(start, world.log.ledger) && (old(world).db.job.Some? ==> world.db.job.Some?)
        invariant old(Over(world.db)) ==> Over(world.db)
        invariant old(Over(world.db)) || !follow ==> after == i * PAGE_LIMIT && (i > 0 ==> after < |world.log.ledger|)
      {
        var reply := ReadLogs(after, polls[i]);
        if reply.None? { return emitted, None; }
        var ok;
        ok, emitted, after := Print(reply.value.page, after, emitted, polls[i].badWrite, world.log.ledger);
        if !ok { return emitted, None; }
        if reply.value.hasMore { continue; }
        if !follow || Jobs.Terminal(reply.value.job.state) {
          OutputGrows(start, world.log.ledger);
          return emitted, Some(reply.value.job);
        }
        Meanwhile(polls[i].afterwards);
      }
      end := None;
    }

    /** The loop over one page's records; its check that sequences advance never fires, a write may fail. */
    method Print(page: seq<Row>, after: nat, emitted: seq<Line>, badWrite: Option<nat>, ghost ledger: seq<Record>)
      returns (ok: bool, emitted': seq<Line>, after': nat)
      requires PageOf(page, after, ledger) && |emitted| == after && emitted <= Output(ledger)
      ensures emitted' <= Output(ledger) && |emitted'| == after'
      ensures ok <==> badWrite.None? || badWrite.value >= |page|
      ensures after' == after + if ok then |page| else badWrite.value
    {
      emitted', after' := emitted, after;
      for k := 0 to |page|
        invariant after' == after + k && |emitted'| == after' && emitted' <= Output(ledger)
        invariant badWrite.Some? ==> badWrite.value >= k
      {
        assert page[k] == Row(after + k + 1, ledger[after + k].stream, ledger[after + k].data);
        if page[k].sequence <= after' { return false, emitted', after'; }
        if badWrite == Some(k) { return false, emitted', after'; }
        emitted' := emitted' + [(page[k].stream, page[k].data)];
        after' := page[k].sequence;
      }
      ok := true;
    }
  }

  lemma RowsStay(a: Log, b: Log, rows: seq<Meta>, after: nat)
    requires Reached(a) && Reached(b) && Keeps(a.ledger, b.ledger) && Listed(a, rows, after)
    ensures Listed(b, rows, after)
  {
    ReachedInv(a);
    ReachedInv(b);
    forall k | 0 <= k < |a.index|
      ensures a.index[k] == b.index[k]
    {
      assert RowMatches(a, k) && RowMatches(b, k);
      BytesOfTold(a.ledger[..k], b.ledger[..k]);
    }
  }
}
