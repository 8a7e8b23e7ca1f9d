/**
 The job lifecycle (internal/job), the runner-owned attempt (internal/execution)
 and the transactions that keep them together (internal/infra/sqlite). A
 transaction is one function: it applies completely or leaves the rows alone.
 */
module Jobs {
  import opened Text

  datatype State =
    | Created | Validating | Queued | Snapshotting | Transferring | Starting | Running
    | Collecting | Restoring | Succeeded | Failed | Cancelled | Rejected | Lost

  datatype Failure = Failure(code: string, message: string, retryable: bool)

  /** Times are integers and 0 is the zero time. Identity and specification never change. */
  datatype Job = Job(state: State, createdAt: int, updatedAt: int, failure: Option<Failure>)

  datatype Transition = Transition(from: State, to: State, at: int, failure: Option<Failure>)

  datatype Error =
    | InvalidJob | InvalidTransition | TransitionTime | InvalidFailure | FailureUnexpected
    | NotFound | Conflict | JobTerminal
    | NotClaimable | OwnerMismatch | AttemptCompleted | InvalidAttempt | InvalidCompletion | Storage

  datatype Result<+T> = Ok(value: T) | Err(error: Error)

  // ---- lifecycle (internal/job/state.go) ----

  predicate Terminal(s: State) {
    s in {Succeeded, Failed, Cancelled, Rejected, Lost}
  }

  function Allowed(s: State): set<State> {
    match s
    case Created => {Validating, Cancelled}
    case Validating => {Queued, Rejected, Failed, Cancelled}
    case Queued => {Snapshotting, Starting, Failed, Cancelled}
    case Snapshotting => {Transferring, Starting, Failed, Cancelled}
    case Transferring => {Starting, Failed, Cancelled, Lost}
    case Starting => {Running, Failed, Cancelled, Lost}
    case Running => {Collecting, Succeeded, Failed, Cancelled, Lost}
    case Collecting => {Restoring, Succeeded, Failed, Cancelled, Lost}
    case Restoring => {Succeeded, Failed, Cancelled}
    case _ => {}
  }

  predicate CanTransition(from: State, to: State) { to in Allowed(from) }

  function Rank(s: State): (r: nat)
    ensures r <= 9
  {
    match s
    case Created => 0
    case Validating => 1
    case Queued => 2
    case Snapshotting => 3
    case Transferring => 4
    case Starting => 5
    case Running => 6
    case Collecting => 7
    case Restoring => 8
    case _ => 9
  }

  lemma TransitionsClimb(from: State, to: State)
    requires CanTransition(from, to)
    ensures Rank(from) < Rank(to)
  {}

  /** `Terminal` is exactly "no transition leaves this state". */
  lemma TerminalIsFinal(s: State)
    ensures Terminal(s) <==> forall to :: !CanTransition(s, to)
  {
    assert s == Created || s == Validating || s == Queued ==> Cancelled in Allowed(s);
    assert s == Snapshotting || s == Transferring || s == Starting ==> Failed in Allowed(s);
    assert s == Running || s == Collecting || s == Restoring ==> Failed in Allowed(s);
    assert !Terminal(s) ==> CanTransition(s, Failed) || CanTransition(s, Cancelled);
  }

  // ---- values (internal/job/job.go) ----

  predicate ValidFailure(f: Failure) { f.code != "" && f.message != "" }

  predicate NeedsFailure(s: State) { s in {Failed, Rejected, Lost} }

  /** `validateFailureForState`. */
  function FailureError(s: State, failure: Option<Failure>): Option<Error> {
    if NeedsFailure(s) then
      if failure.None? || !ValidFailure(failure.value) then Some(InvalidFailure) else None
    else if failure.Some? then Some(FailureUnexpected) else None
  }

  /** `Job.Validate` on the fields that transitions manage. */
  predicate ValidJob(j: Job) {
    j.createdAt != 0 && j.updatedAt != 0 && j.createdAt <= j.updatedAt && FailureError(j.state, j.failure).None?
  }

  function Moved(j: Job, t: Transition): Job {
    j.(state := t.to, updatedAt := t.at, failure := t.failure)
  }

  /** `Job.Apply`. */
  function Apply(j: Job, to: State, at: int, failure: Option<Failure>): (r: Result<Transition>)
    ensures r.Ok? ==> r.value == Transition(j.state, to, at, failure) && ValidJob(Moved(j, r.value))
    ensures r.Ok? <==>
              ValidJob(j) && CanTransition(j.state, to) && at != 0 && at >= j.updatedAt &&
              FailureError(to, failure).None?
  {
    if !ValidJob(j) then Err(InvalidJob)
    else if !CanTransition(j.state, to) then Err(InvalidTransition)
    else if at == 0 || at < j.updatedAt then Err(TransitionTime)
    else if FailureError(to, failure).Some? then Err(FailureError(to, failure).value)
    else Ok(Transition(j.state, to, at, failure))
  }

  // ---- attempts (internal/execution/attempt.go) ----

  datatype Status = AtStarting | AtRunning | Completed
  datatype Kind = KindSucceeded | KindFailed | KindCancelled

  datatype Attempt = Attempt(
    status: Status, runner: int, process: int,
    claimedAt: int, startedAt: Option<int>, heartbeatAt: int, cancelAt: Option<int>, finishedAt: Option<int>,
    exitCode: Option<int>, signal: string, kind: Option<Kind>)

  datatype Completion = Completion(
    at: int, exitCode: Option<int>, signal: string, failure: Option<Failure>, cancelled: bool)

  /** `Completion.Validate`: exactly one terminal outcome. */
  predicate ValidCompletion(c: Completion) {
    c.at != 0 &&
    if c.failure.Some? then !c.cancelled && ValidFailure(c.failure.value)
    else c.cancelled || (c.exitCode == Some(0) && c.signal == "")
  }

  function KindOf(c: Completion): Kind {
    if c.cancelled then KindCancelled else if c.failure.Some? then KindFailed else KindSucceeded
  }

  function StateOf(k: Kind): State {
    match k case KindSucceeded => Succeeded case KindFailed => Failed case KindCancelled => Cancelled
  }

  /** `Attempt.Validate`. */
  predicate ValidAttempt(a: Attempt) {
    a.runner > 0 && a.claimedAt != 0 && a.heartbeatAt != 0 && a.heartbeatAt >= a.claimedAt &&
    (a.cancelAt.Some? ==> a.cancelAt.value >= a.claimedAt) &&
    match a.status
    case AtStarting =>
      a.process == 0 && a.startedAt.None? && a.finishedAt.None? && a.exitCode.None? && a.signal == "" && a.kind.None?
    case AtRunning =>
      a.process > 0 && a.startedAt.Some? && a.startedAt.value >= a.claimedAt &&
      a.finishedAt.None? && a.exitCode.None? && a.kind.None?
    case Completed =>
      a.finishedAt.Some? && a.kind.Some? && a.finishedAt.value >= a.claimedAt &&
      (a.process > 0 ==> a.startedAt.Some?) &&
      (a.kind.value == KindSucceeded ==> a.exitCode == Some(0) && a.signal == "")
  }

  // ---- transactions (internal/infra/sqlite) ----

  /** One job's rows: as inserted, as they are, the transition log and the attempt. */
  datatype Db = Db(created: Option<Job>, job: Option<Job>, history: seq<Transition>, attempt: Option<Attempt>)

  const NO_ROWS := Db(None, None, [], None)

  function Create(db: Db, j: Job): (r: (Db, Result<()>)) {
    if !ValidJob(j) || j.state != Created then (db, Err(InvalidJob))
    else if db.job.Some? then (db, Err(Conflict))
    else (db.(created := Some(j), job := Some(j)), Ok(()))
  }

  /** `applyJobTransition`: compares only the source state, then re-validates and appends. */
  function ApplyTransition(db: Db, t: Transition): (Db, Result<Job>) {
    if !CanTransition(t.from, t.to) then (db, Err(InvalidTransition))
    else if db.job.None? then (db, Err(NotFound))
    else if db.job.value.state != t.from then (db, Err(Conflict))
    else
      match Apply(db.job.value, t.to, t.at, t.failure)
      case Err(e) => (db, Err(e))
      case Ok(accepted) =>
        var next := Moved(db.job.value, accepted);
        (db.(job := Some(next), history := db.history + [accepted]), Ok(next))
  }

  function Claim(db: Db, runner: int, at: int): (Db, Result<()>) {
    if runner <= 0 || at == 0 then (db, Err(InvalidAttempt))
    else if db.job.None? then (db, Err(NotFound))
    else if db.job.value.state != Queued then (db, Err(NotClaimable))
    else
      var (moved, r) := ApplyTransition(db, Transition(Queued, Starting, at, None));
      if r.Err? then (db, Err(r.error))
      else if db.attempt.Some? then (db, Err(NotClaimable))
      else (moved.(attempt := Some(Attempt(AtStarting, runner, 0, at, None, at, None, None, None, "", None))), Ok(()))
  }

  function OwnerError(db: Db, runner: int): Option<Error> {
    if db.attempt.None? then Some(NotFound)
    else if db.attempt.value.runner != runner then Some(OwnerMismatch)
    else if db.attempt.value.status == Completed then Some(AttemptCompleted)
    else None
  }

  function MarkRunning(db: Db, runner: int, process: int, at: int): (Db, Result<()>) {
    if runner <= 0 || process <= 0 || at == 0 then (db, Err(InvalidAttempt))
    else if OwnerError(db, runner).Some? then (db, Err(OwnerError(db, runner).value))
    else
      var a := db.attempt.value;
      if a.status != AtStarting || at < a.claimedAt then (db, Err(InvalidAttempt))
      else
        var (moved, r) := ApplyTransition(db, Transition(Starting, Running, at, None));
        if r.Err? then (db, Err(r.error))
        else
          var running := a.(status := AtRunning, process := process, startedAt := Some(at), heartbeatAt := at);
          (moved.(attempt := Some(running)), Ok(()))
  }

  function Heartbeat(db: Db, runner: int, at: int): (Db, Result<()>) {
    if runner <= 0 || at == 0 then (db, Err(InvalidAttempt))
    else if OwnerError(db, runner).Some? then (db, Err(OwnerError(db, runner).value))
    else if at < db.attempt.value.claimedAt then (db, Err(Storage))
    else (db.(attempt := Some(db.attempt.value.(heartbeatAt := at))), Ok(()))
  }

  /** `RequestCancellation`: the first request's time is kept. */
  function RequestCancellation(db: Db, at: int): (Db, Result<()>) {
    if at == 0 then (db, Err(InvalidAttempt))
    else if db.attempt.None? then (db, Err(NotFound))
    else if db.attempt.value.status == Completed then (db, Err(AttemptCompleted))
    else if db.attempt.value.cancelAt.Some? then (db, Ok(()))
    else if at < db.attempt.value.claimedAt then (db, Err(Storage))
    else (db.(attempt := Some(db.attempt.value.(cancelAt := Some(at)))), Ok(()))
  }

  function CancellationRequested(db: Db, runner: int): Result<bool> {
    if OwnerError(db, runner).Some? then Err(OwnerError(db, runner).value)
    else Ok(db.attempt.value.cancelAt.Some?)
  }

  /** `Complete`: the attempt's result and the job's terminal state in one transaction. */
  function Complete(db: Db, runner: int, c: Completion): (Db, Result<Job>) {
    if runner <= 0 then (db, Err(InvalidAttempt))
    else if !ValidCompletion(c) then (db, Err(InvalidCompletion))
    else if OwnerError(db, runner).Some? then (db, Err(OwnerError(db, runner).value))
    else if c.at < db.attempt.value.heartbeatAt then (db, Err(InvalidCompletion))
    else if db.job.None? then (db, Err(NotFound))
    else
      var a, from := db.attempt.value, db.job.value.state;
      if a.status == AtStarting && (KindOf(c) == KindSucceeded || from != Starting) then (db, Err(InvalidCompletion))
      else if a.status == AtRunning && from != Running && from != Collecting then (db, Err(InvalidCompletion))
      else
        var (moved, r) := ApplyTransition(db, Transition(from, StateOf(KindOf(c)), c.at, c.failure));
        if r.Err? then (db, Err(r.error))
        else
          (moved.(attempt := Some(a.(status := Completed, heartbeatAt := c.at, finishedAt := Some(c.at),
                                     exitCode := c.exitCode, signal := c.signal, kind := Some(KindOf(c))))), r)
  }

  datatype Op =
    | OpCreate(job: Job)
    | OpTransition(transition: Transition)
    | OpClaim(runner: int, at: int)
    | OpMarkRunning(runner: int, process: int, at: int)
    | OpHeartbeat(runner: int, at: int)
    | OpRequestCancellation(at: int)
    | OpComplete(runner: int, completion: Completion)

  function Exec(db: Db, op: Op): Db {
    match op
    case OpCreate(j) => Create(db, j).0
    case OpTransition(t) => ApplyTransition(db, t).0
    case OpClaim(runner, at) => Claim(db, runner, at).0
    case OpMarkRunning(runner, process, at) => MarkRunning(db, runner, process, at).0
    case OpHeartbeat(runner, at) => Heartbeat(db, runner, at).0
    case OpRequestCancellation(at) => RequestCancellation(db, at).0
    case OpComplete(runner, c) => Complete(db, runner, c).0
  }

  function ExecAll(db: Db, ops: seq<Op>): Db {
    if ops == [] then db else Exec(ExecAll(db, ops[..|ops| - 1]), ops[|ops| - 1])
  }

  // ---- the row is its history ----

  function Replay(j: Job, h: seq<Transition>): Job {
    if h == [] then j else Moved(Replay(j, h[..|h| - 1]), h[|h| - 1])
  }

  /** Every record leaves the state its predecessor reached, legally and not earlier. */
  predicate Chained(j: Job, h: seq<Transition>) {
    h == [] ||
    (var before := Replay(j, h[..|h| - 1]);
     var t := h[|h| - 1];
     Chained(j, h[..|h| - 1]) && t.from == before.state && CanTransition(t.from, t.to) && t.at >= before.updatedAt)
  }

  predicate RowInv(db: Db) {
    match db.created
    case None => db.job.None? && db.history == []
    case Some(j) =>
      j.state == Created && db.job == Some(Replay(j, db.history)) && Chained(j, db.history) && ValidJob(db.job.value)
  }

  lemma TransitionRow(db: Db, t: Transition)
    requires RowInv(db)
    ensures RowInv(ApplyTransition(db, t).0)
  {
    var (next, r) := ApplyTransition(db, t);
    if r.Ok? { assert next.history[..|db.history|] == db.history; }
  }

  lemma ClaimRow(db: Db, runner: int, at: int)
    requires RowInv(db)
    ensures RowInv(Claim(db, runner, at).0)
  {
    TransitionRow(db, Transition(Queued, Starting, at, None));
  }

  lemma MarkRunningRow(db: Db, runner: int, process: int, at: int)
    requires RowInv(db)
    ensures RowInv(MarkRunning(db, runner, process, at).0)
  {
    TransitionRow(db, Transition(Starting, Running, at, None));
  }

  lemma CompleteRow(db: Db, runner: int, c: Completion)
    requires RowInv(db)
    ensures RowInv(Complete(db, runner, c).0)
  {
    if db.job.Some? { TransitionRow(db, Transition(db.job.value.state, StateOf(KindOf(c)), c.at, c.failure)); }
  }

  lemma ExecRow(db: Db, op: Op)
    requires RowInv(db)
    ensures RowInv(Exec(db, op))
  {
    match op
    case OpTransition(t) => TransitionRow(db, t);
    case OpClaim(runner, at) => ClaimRow(db, runner, at);
    case OpMarkRunning(runner, process, at) => MarkRunningRow(db, runner, process, at);
    case OpComplete(runner, c) => CompleteRow(db, runner, c);
    case _ =>
  }

  lemma {:induction false} ExecAllRow(db: Db, ops: seq<Op>)
    requires RowInv(db)
    ensures RowInv(ExecAll(db, ops))
  {
    if ops == [] {
    } else {
      ExecAllRow(db, ops[..|ops| - 1]);
      ExecRow(ExecAll(db, ops[..|ops| - 1]), ops[|ops| - 1]);
    }
  }

  lemma {:induction false} RankClimbs(j: Job, h: seq<Transition>)
    requires Chained(j, h)
    ensures Rank(Replay(j, h).state) >= Rank(j.state) + |h|
  {
    if h == [] {
    } else {
      RankClimbs(j, h[..|h| - 1]);
      TransitionsClimb(h[|h| - 1].from, h[|h| - 1].to);
    }
  }

  /** No history is longer than nine transitions, whatever operations run. */
  lemma NineAtMost(ops: seq<Op>)
    ensures |ExecAll(NO_ROWS, ops).history| <= 9
  {
    ExecAllRow(NO_ROWS, ops);
    var db := ExecAll(NO_ROWS, ops);
    if db.created.Some? { RankClimbs(db.created.value, db.history); }
  }

  /** Later rows only extend earlier ones: same creation, history as a prefix, time never back. */
  predicate Extends(a: Db, b: Db) {
    (a.created.Some? ==>
       b.created == a.created && b.job.Some? && a.job.Some? && b.job.value.updatedAt >= a.job.value.updatedAt) &&
    a.history <= b.history
  }

  lemma ExecExtends(db: Db, op: Op)
    requires RowInv(db)
    ensures Extends(db, Exec(db, op))
  {}

  lemma {:induction false} ExecAllExtends(db: Db, ops: seq<Op>)
    requires RowInv(db)
    ensures Extends(db, ExecAll(db, ops))
  {
    if ops == [] {
    } else {
      var init := ops[..|ops| - 1];
      ExecAllRow(db, init);
      ExecAllExtends(db, init);
      ExecExtends(ExecAll(db, init), ops[|ops| - 1]);
    }
  }

  lemma {:induction false} ChainedPrefix(j: Job, h: seq<Transition>, n: nat)
    requires Chained(j, h) && n <= |h|
    ensures Chained(j, h[..n])
    ensures Rank(Replay(j, h).state) >= Rank(Replay(j, h[..n]).state) + |h| - n
    decreases |h|
  {
    if n == |h| {
      assert h[..n] == h;
    } else {
      assert h[..|h| - 1][..n] == h[..n];
      ChainedPrefix(j, h[..|h| - 1], n);
      TransitionsClimb(h[|h| - 1].from, h[|h| - 1].to);
    }
  }

  /**
   Comparing only the source state is as strong as comparing the row: after any
   operations of other writers, if the job is again in the state that was read,
   then it is the very row that was read and no transition happened in between.
   */
  lemma StateTellsRow(db: Db, ops: seq<Op>)
    requires RowInv(db) && db.job.Some?
    requires ExecAll(db, ops).job.Some? && ExecAll(db, ops).job.value.state == db.job.value.state
    ensures ExecAll(db, ops).job == db.job && ExecAll(db, ops).history == db.history
  {
    ExecAllRow(db, ops);
    ExecAllExtends(db, ops);
    var later := ExecAll(db, ops);
    var n := |db.history|;
    assert later.history[..n] == db.history;
    ChainedPrefix(db.created.value, later.history, n);
    assert later.history[..n] == later.history;
  }

  /** The longest way through the lifecycle. */
  function Stage(n: nat): State
    requires n <= 9
  {
    match n
    case 0 => Created
    case 1 => Validating
    case 2 => Queued
    case 3 => Snapshotting
    case 4 => Transferring
    case 5 => Starting
    case 6 => Running
    case 7 => Collecting
    case 8 => Restoring
    case _ => Succeeded
  }

  lemma ExecPush(db: Db, ops: seq<Op>, op: Op)
    ensures ExecAll(db, ops + [op]) == Exec(ExecAll(db, ops), op)
  {
    assert (ops + [op])[..|ops|] == ops;
  }

  lemma StageMove(db: Db, n: nat)
    requires n < 9 && db.job == Some(Job(Stage(n), 1, 1, None))
    ensures var next := Exec(db, OpTransition(Transition(Stage(n), Stage(n + 1), 1, None)));
            next.job == Some(Job(Stage(n + 1), 1, 1, None)) && |next.history| == |db.history| + 1
  {
    assert CanTransition(Stage(n), Stage(n + 1)) && !NeedsFailure(Stage(n)) && !NeedsFailure(Stage(n + 1));
  }

  lemma {:induction false} ClimbTo(n: nat) returns (ops: seq<Op>)
    requires n <= 9
    ensures ExecAll(NO_ROWS, ops).job == Some(Job(Stage(n), 1, 1, None)) && |ExecAll(NO_ROWS, ops).history| == n
  {
    if n == 0 {
      ops := [] + [OpCreate(Job(Created, 1, 1, None))];
      ExecPush(NO_ROWS, [], OpCreate(Job(Created, 1, 1, None)));
    } else {
      var below := ClimbTo(n - 1);
      var op := OpTransition(Transition(Stage(n - 1), Stage(n), 1, None));
      ExecPush(NO_ROWS, below, op);
      StageMove(ExecAll(NO_ROWS, below), n - 1);
      ops := below + [op];
    }
  }

  /** Operations that record all nine transitions. */
  lemma NineReached() returns (ops: seq<Op>)
    ensures |ExecAll(NO_ROWS, ops).history| == 9
  {
    ops := ClimbTo(9);
  }
}
