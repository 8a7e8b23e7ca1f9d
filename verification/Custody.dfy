/**
 What the transactions the worker's code issues keep between a job and its
 attempt, and `JobService.Cancel` (internal/app/worker/jobs.go) running against
 them while other writers interleave.
 */
module Custody {
  import opened Text
  import opened Jobs

  /**
   The transitions that code issues through `ApplyTransition`: `submitWithID`,
   `Cancel` outside a runner's custody, and the start of artifact collection.
   (`JobService.Advance` could issue any other; nothing calls it.)
   */
  predicate Issued(op: Op) {
    op.OpTransition? ==>
      var t := op.transition;
      (t.from == Created && t.to == Validating) || (t.from == Validating && t.to == Queued) ||
      (t.from == Running && t.to == Collecting) ||
      (t.to == Cancelled && t.from !in {Starting, Running, Collecting})
  }

  predicate AllIssued(ops: seq<Op>) {
    forall k :: 0 <= k < |ops| ==> Issued(ops[k])
  }

  /** Job state and attempt agree: only `Complete` ends a job that a runner holds. */
  predicate Agree(db: Db) {
    match db.attempt
    case None => db.job.Some? ==> db.job.value.state in {Created, Validating, Queued, Cancelled}
    case Some(a) =>
      db.job.Some? && ValidAttempt(a) &&
      match a.status
      case AtStarting => db.job.value.state == Starting
      case AtRunning => db.job.value.state == Running || db.job.value.state == Collecting
      case Completed => a.kind.Some? && db.job.value.state == StateOf(a.kind.value)
  }

  predicate CustodyInv(db: Db) { RowInv(db) && Agree(db) }

  lemma TransitionAgrees(db: Db, t: Transition)
    requires Agree(db) && Issued(OpTransition(t))
    ensures Agree(Exec(db, OpTransition(t)))
  {}

  lemma ClaimAgrees(db: Db, runner: int, at: int)
    requires Agree(db)
    ensures Agree(Exec(db, OpClaim(runner, at)))
  {}

  lemma MarkRunningAgrees(db: Db, runner: int, process: int, at: int)
    requires Agree(db)
    ensures Agree(Exec(db, OpMarkRunning(runner, process, at)))
  {}

  lemma CompleteAgrees(db: Db, runner: int, c: Completion)
    requires Agree(db)
    ensures Agree(Exec(db, OpComplete(runner, c)))
  {}

  lemma OtherAgrees(db: Db, op: Op)
    requires Agree(db) && Issued(op)
    requires !op.OpTransition? && !op.OpClaim? && !op.OpMarkRunning? && !op.OpComplete?
    ensures Agree(Exec(db, op))
  {}

  lemma ExecAgree(db: Db, op: Op)
    requires CustodyInv(db) && Issued(op)
    ensures CustodyInv(Exec(db, op))
  {
    ExecRow(db, op);
    match op
    case OpTransition(t) => TransitionAgrees(db, t);
    case OpClaim(runner, at) => ClaimAgrees(db, runner, at);
    case OpMarkRunning(runner, process, at) => MarkRunningAgrees(db, runner, process, at);
    case OpComplete(runner, c) => CompleteAgrees(db, runner, c);
    case _ => OtherAgrees(db, op);
  }

  lemma {:induction false} ExecAllAgree(db: Db, ops: seq<Op>)
    requires CustodyInv(db) && AllIssued(ops)
    ensures CustodyInv(ExecAll(db, ops))
  {
    if ops == [] {
    } else {
      ExecAllAgree(db, ops[..|ops| - 1]);
      ExecAgree(ExecAll(db, ops[..|ops| - 1]), ops[|ops| - 1]);
    }
  }

  /** Ended for good: no attempt can start any more, or the attempt is complete. */
  predicate Over(db: Db) {
    db.job.Some? && Terminal(db.job.value.state) && (db.attempt.None? || db.attempt.value.status == Completed)
  }

  /** In every reachable state a terminal job has no attempt in progress. */
  lemma TerminalMeansOver(db: Db)
    requires CustodyInv(db) && db.job.Some?
    ensures Terminal(db.job.value.state) <==> Over(db)
  {}

  lemma ExecOver(db: Db, op: Op)
    requires Over(db)
    ensures Over(Exec(db, op)) && Exec(db, op).job == db.job && Exec(db, op).attempt == db.attempt
  {}

  lemma {:induction false} ExecAllOver(db: Db, ops: seq<Op>)
    requires Over(db)
    ensures Over(ExecAll(db, ops)) && ExecAll(db, ops).job == db.job && ExecAll(db, ops).attempt == db.attempt
  {
    if ops == [] {
    } else {
      ExecAllOver(db, ops[..|ops| - 1]);
      ExecOver(ExecAll(db, ops[..|ops| - 1]), ops[|ops| - 1]);
    }
  }

  /** A job that is submitted, claimed by runner 1 and running as process 2. */
  function Submitted(): seq<Op> {
    [OpCreate(Job(Created, 1, 1, None)), OpTransition(Transition(Created, Validating, 1, None)),
     OpTransition(Transition(Validating, Queued, 1, None)), OpClaim(1, 1), OpMarkRunning(1, 2, 1)]
  }

  lemma QueuedRows()
    ensures var db := ExecAll(NO_ROWS, Submitted()[..3]);
            db.job == Some(Job(Queued, 1, 1, None)) && db.attempt.None?
  {
    var ops := Submitted();
    assert ops[..3] == [] + [ops[0]] + [ops[1]] + [ops[2]];
    ExecPush(NO_ROWS, [], ops[0]);
    ExecPush(NO_ROWS, [] + [ops[0]], ops[1]);
    ExecPush(NO_ROWS, [] + [ops[0]] + [ops[1]], ops[2]);
  }

  lemma ClaimedRows(db: Db)
    requires db.job == Some(Job(Queued, 1, 1, None)) && db.attempt.None?
    ensures var next := Exec(Exec(db, OpClaim(1, 1)), OpMarkRunning(1, 2, 1));
            next.job == Some(Job(Running, 1, 1, None)) &&
            next.attempt.Some? && next.attempt.value.status == AtRunning &&
            next.attempt.value.runner == 1 && next.attempt.value.heartbeatAt == 1
  {}

  lemma SubmittedRuns()
    ensures AllIssued(Submitted())
    ensures var db := ExecAll(NO_ROWS, Submitted());
            db.job == Some(Job(Running, 1, 1, None)) && db.attempt.Some? && db.attempt.value.status == AtRunning &&
            db.attempt.value.runner == 1 && db.attempt.value.heartbeatAt == 1
  {
    var ops := Submitted();
    QueuedRows();
    ClaimedRows(ExecAll(NO_ROWS, ops[..3]));
    ExecPush(NO_ROWS, ops[..3], ops[3]);
    ExecPush(NO_ROWS, ops[..3] + [ops[3]], ops[4]);
    assert ops == ops[..3] + [ops[3]] + [ops[4]];
  }

  lemma LostUnderRunner(db: Db, at: int)
    requires CustodyInv(db) && db.attempt.Some? && db.attempt.value.status == AtRunning
    requires at != 0 && at >= db.job.value.updatedAt
    ensures var op := OpTransition(Transition(db.job.value.state, Lost, at, Some(Failure("x", "x", false))));
            !Issued(op) && Terminal(Exec(db, op).job.value.state) && !Over(Exec(db, op))
  {}

  /** Without the discipline of `Issued` a job can end under a live runner, in rows that are reached. */
  lemma AdvanceEndsUnderRunner()
    ensures var db := ExecAll(NO_ROWS, Submitted());
            var op := OpTransition(Transition(Running, Lost, 1, Some(Failure("x", "x", false))));
            AllIssued(Submitted()) && !Issued(op) &&
            Exec(db, op).job.Some? && Terminal(Exec(db, op).job.value.state) && !Over(Exec(db, op))
  {
    SubmittedRuns();
    ExecAllAgree(NO_ROWS, Submitted());
    LostUnderRunner(ExecAll(NO_ROWS, Submitted()), 1);
  }

  /** A transition by itself does no harm before a claim, short of starting the job, and from running to collecting. */
  predicate Harmless(db: Db, t: Transition) {
    if db.attempt.None? then t.to in {Validating, Queued, Cancelled} else t.from == Running && t.to == Collecting
  }

  /** The guard of a transition: from the job's state, legal, in time, and with the failure its state needs. */
  predicate Applies(db: Db, t: Transition) {
    db.job.Some? && db.job.value.state == t.from && CanTransition(t.from, t.to) &&
    t.at != 0 && t.at >= db.job.value.updatedAt && FailureError(t.to, t.failure).None?
  }

  lemma AppliesMoves(db: Db, t: Transition)
    requires RowInv(db)
    ensures var next := Exec(db, OpTransition(t));
            if Applies(db, t) then next.job.Some? && next.job.value.state == t.to && next.attempt == db.attempt
            else next == db
  {}

  lemma AgreesAfter(db: Db, next: Db, t: Transition)
    requires Agree(db) && db.job.Some? && db.job.value.state == t.from && CanTransition(t.from, t.to)
    requires next.job.Some? && next.job.value.state == t.to && next.attempt == db.attempt
    ensures Agree(next) <==> Harmless(db, t)
  {}

  /** Exactly when a plain transition keeps job and attempt in agreement: its guard fails, or it is harmless. */
  lemma HarmlessExactly(db: Db, t: Transition)
    requires CustodyInv(db)
    ensures CustodyInv(Exec(db, OpTransition(t))) <==> !Applies(db, t) || Harmless(db, t)
  {
    ExecRow(db, OpTransition(t));
    AppliesMoves(db, t);
    if Applies(db, t) { AgreesAfter(db, Exec(db, OpTransition(t)), t); }
  }

  // ---- stop requests ----

  /** The attempt of this runner carries a stop request. */
  predicate Asked(db: Db, runner: int) {
    db.attempt.Some? && db.attempt.value.runner == runner && db.attempt.value.cancelAt.Some?
  }

  lemma ExecAsked(db: Db, op: Op, runner: int)
    requires Asked(db, runner)
    ensures Asked(Exec(db, op), runner)
  {}

  lemma {:induction false} ExecAllAsked(db: Db, ops: seq<Op>, runner: int)
    requires Asked(db, runner)
    ensures Asked(ExecAll(db, ops), runner)
  {
    if ops == [] {
    } else {
      ExecAllAsked(db, ops[..|ops| - 1], runner);
      ExecAsked(ExecAll(db, ops[..|ops| - 1]), ops[|ops| - 1], runner);
    }
  }

  /** A request that was accepted is reported by every later poll of the runner, until its attempt is completed. */
  lemma RequestReachesRunner(db: Db, at: int, ops: seq<Op>)
    requires RequestCancellation(db, at).1.Ok?
    ensures var runner := db.attempt.value.runner;
            var later := ExecAll(RequestCancellation(db, at).0, ops);
            later.attempt.Some? &&
            CancellationRequested(later, runner) ==
              if later.attempt.value.status == Completed then Err(AttemptCompleted) else Ok(true)
  {
    ExecAllAsked(RequestCancellation(db, at).0, ops, db.attempt.value.runner);
  }

  // ---- Cancel ----

  /** What `Cancel` is for: the job is cancelled, or asked to stop, or its attempt had already ended. */
  predicate Answered(db: Db) {
    db.job.Some? &&
    (db.job.value.state == Cancelled ||
     (db.attempt.Some? && (db.attempt.value.cancelAt.Some? || db.attempt.value.status == Completed)))
  }

  lemma ExecAnswered(db: Db, op: Op)
    requires Answered(db)
    ensures Answered(Exec(db, op))
  {}

  lemma {:induction false} ExecAllAnswered(db: Db, ops: seq<Op>)
    requires Answered(db)
    ensures Answered(ExecAll(db, ops))
  {
    if ops == [] {
    } else {
      ExecAllAnswered(db, ops[..|ops| - 1]);
      ExecAnswered(ExecAll(db, ops[..|ops| - 1]), ops[|ops| - 1]);
    }
  }

  /** One pass of the retry loop: which storage calls succeed and what others do between them. */
  datatype Round = Round(readOk: bool, between: seq<Op>, now: int, callOk: bool, after: seq<Op>, reloadOk: bool)

  /** A pass in which storage works, nobody interferes and the clock has not gone back. */
  predicate Calm(db: Db, round: Round) {
    round.readOk && round.callOk && round.reloadOk && round.between == [] && round.after == [] && round.now != 0 &&
    (db.job.Some? ==> round.now >= db.job.value.updatedAt) &&
    (db.attempt.Some? ==> round.now >= db.attempt.value.claimedAt)
  }

  predicate Cancellable(db: Db) {
    db.job.Some? && (Terminal(db.job.value.state) ==> db.job.value.state == Cancelled)
  }

  class JobService {
    var db: Db

    ghost predicate Valid()
      reads this
    {
      CustodyInv(db)
    }

    constructor ()
      ensures Valid() && db == NO_ROWS
    {
      db := NO_ROWS;
    }

    method Others(ops: seq<Op>)
      requires Valid() && AllIssued(ops)
      modifies this
      ensures Valid() && db == ExecAll(old(db), ops)
      ensures Extends(old(db), db)
      ensures old(Answered(db)) ==> Answered(db)
    {
      for i := 0 to |ops|
        invariant Valid() && db == ExecAll(old(db), ops[..i])
      {
        assert ops[..i + 1][..i] == ops[..i];
        ExecAgree(db, ops[i]);
        db := Exec(db, ops[i]);
      }
      assert ops[..|ops|] == ops;
      ExecAllExtends(old(db), ops);
      if old(Answered(db)) { ExecAllAnswered(old(db), ops); }
    }

    method Get(ok: bool) returns (r: Result<Job>)
      ensures r == if !ok then Err(Storage) else if db.job.None? then Err(NotFound) else Ok(db.job.value)
    {
      if !ok { return Err(Storage); }
      r := if db.job.None? then Err(NotFound) else Ok(db.job.value);
    }

    /** `advanceLoaded`: validate against the row that was read, then compare-and-set on its state. */
    method AdvanceLoaded(current: Job, to: State, now: int, failure: Option<Failure>, ok: bool) returns (r: Result<Job>)
      requires Valid()
      modifies this
      ensures Extends(old(db), db)
      ensures r.Ok? ==> db.job == Some(r.value) && r.value.state == to && r.value.failure == failure &&
                        r.value.updatedAt == now && CanTransition(current.state, to) &&
                        old(db).job.Some? && old(db).job.value.state == current.state
      ensures r.Ok? ==> ok
      ensures r.Err? ==> db == old(db)
      ensures r == Err(Conflict) ==> db.job.Some? && db.job.value.state != current.state
      ensures r != Err(JobTerminal)
      ensures ok && old(db).job == Some(current) && Apply(current, to, now, failure).Ok? ==> r.Ok?
      ensures to == Cancelled && current.state !in {Starting, Running, Collecting} ==> Valid()
    {
      var t := Apply(current, to, now, failure);
      if t.Err? { return Err(t.error); }
      if !ok { return Err(Storage); }
      if to == Cancelled && current.state !in {Starting, Running, Collecting} { ExecAgree(db, OpTransition(t.value)); }
      ExecExtends(db, OpTransition(t.value));
      var (next, reply) := ApplyTransition(db, t.value);
      db := next;
      r := reply;
    }

    /** The branch of `Cancel` for a job in a runner's custody. */
    method AskRunner(round: Round) returns (r: Result<Job>)
      requires Valid() && AllIssued(round.after)
      modifies this
      ensures Valid() && Extends(old(db), db)
      ensures r.Ok? ==> Answered(db) && db.job == Some(r.value)
      ensures r.Ok? ==> round.callOk && round.reloadOk
      ensures r != Err(Conflict) && r != Err(JobTerminal)
      ensures Calm(old(db), round) && old(db).job.Some? && old(db).attempt.Some? ==> r.Ok?
    {
      if !round.callOk { return Err(Storage); }
      ExecAgree(db, OpRequestCancellation(round.now));
      ExecExtends(db, OpRequestCancellation(round.now));
      var (next, reply) := RequestCancellation(db, round.now);
      db := next;
      if reply.Err? && reply.error != AttemptCompleted { return Err(reply.error); }
      assert Answered(db);
      ghost var mid := db;
      Others(round.after);
      ExtendsTrans(old(db), mid, db);
      r := Get(round.reloadOk);
    }

    /** One pass of the loop in `Cancel`; None is a lost race. */
    method TryCancel(round: Round) returns (r: Option<Result<Job>>)
      requires Valid() && AllIssued(round.between) && AllIssued(round.after)
      modifies this
      ensures Valid() && Extends(old(db), db)
      ensures r.None? ==> |db.history| > |old(db).history|
      ensures r.Some? && r.value.Ok? ==> Answered(db) && db.job == Some(r.value.value)
      ensures r.Some? ==> r.value != Err(Conflict)
      ensures r == Some(Err(JobTerminal)) ==>
                db.job.Some? && Terminal(db.job.value.state) && db.job.value.state != Cancelled
      ensures Calm(old(db), round) && Cancellable(old(db)) ==> r.Some? && r.value.Ok?
    {
      var got := Get(round.readOk);
      if got.Err? { return Some(got); }
      var current := got.value;
      if current.state == Cancelled { return Some(Ok(current)); }
      if Terminal(current.state) { return Some(Err(JobTerminal)); }
      Others(round.between);
      ghost var mid := db;
      if current.state == Starting || current.state == Running || current.state == Collecting {
        var asked := AskRunner(round);
        ExtendsTrans(old(db), mid, db);
        return Some(asked);
      }
      var moved := AdvanceLoaded(current, Cancelled, round.now, None, round.callOk);
      ExtendsTrans(old(db), mid, db);
      if moved != Err(Conflict) { return Some(moved); }
      Moving(old(db), round.between);
      r := None;
    }

    /**
     `Cancel`: without error the request is answered; a conflict means the job
     moved during both tries; `JobTerminal` means it had ended some other way.
     */
    method Cancel(first: Round, second: Round) returns (r: Result<Job>)
      requires Valid()
      requires AllIssued(first.between) && AllIssued(first.after) && AllIssued(second.between) &&
               AllIssued(second.after)
      modifies this
      ensures Valid() && Extends(old(db), db)
      ensures r.Ok? ==> Answered(db) && db.job == Some(r.value)
      ensures r == Err(Conflict) ==> |db.history| >= |old(db).history| + 2
      ensures r == Err(JobTerminal) ==> db.job.Some? && Terminal(db.job.value.state) && db.job.value.state != Cancelled
      ensures Calm(old(db), first) && Cancellable(old(db)) ==> r.Ok?
    {
      ghost var start := db;
      for attempts := 0 to 2
        invariant Valid() && Extends(start, db) && |db.history| >= |start.history| + attempts
        invariant attempts == 0 ==> db == start
        invariant attempts > 0 ==> !(Calm(start, first) && Cancellable(start))
      {
        ghost var before := db;
        var tried := TryCancel(if attempts == 0 then first else second);
        ExtendsTrans(start, before, db);
        if tried.Some? { return tried.value; }
      }
      r := Err(Conflict);
    }
  }

  lemma ExtendsTrans(a: Db, b: Db, c: Db)
    requires Extends(a, b) && Extends(b, c)
    ensures Extends(a, c)
  {}

  /** If the state differs after some operations, a transition was recorded. */
  lemma Moving(db: Db, ops: seq<Op>)
    requires CustodyInv(db) && db.job.Some? && ExecAll(db, ops).job.Some?
    requires ExecAll(db, ops).job.value.state != db.job.value.state
    ensures |ExecAll(db, ops).history| > |db.history|
  {
    ExecAllRow(db, ops);
    ExecAllExtends(db, ops);
    assert db.created.Some?;
    assert |ExecAll(db, ops).history| == |db.history| ==> ExecAll(db, ops).history == db.history;
  }
}
