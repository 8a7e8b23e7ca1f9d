/**
 Exactly when each transaction on a job's rows is accepted, and what it then leaves, in every state that the
 program's operations reach (internal/infra/sqlite). A refused transaction leaves the rows alone.
 */
module Transactions {
  import opened Text
  import opened Jobs
  import opened Custody

  lemma CreateExactly(db: Db, j: Job)
    requires CustodyInv(db)
    ensures var (next, r) := Create(db, j);
            (r.Ok? <==> ValidJob(j) && j.state == Created && db.job.None?) &&
            next == if r.Ok? then Db(Some(j), Some(j), [], None) else db
  {}

  /** The row after a transition that was accepted. */
  function After(db: Db, to: State, at: int, failure: Option<Failure>): Db
    requires db.job.Some?
  {
    db.(job := Some(db.job.value.(state := to, updatedAt := at, failure := failure)),
        history := db.history + [Transition(db.job.value.state, to, at, failure)])
  }

  lemma TransitionExactly(db: Db, t: Transition)
    requires CustodyInv(db)
    ensures var (next, r) := ApplyTransition(db, t);
            (r.Ok? <==> Applies(db, t)) &&
            next == (if Applies(db, t) then After(db, t.to, t.at, t.failure) else db) &&
            (r.Ok? ==> next.job == Some(r.value))
  {}

  /** The attempt of a runner that has just claimed. */
  function Claimed(runner: int, at: int): Attempt {
    Attempt(AtStarting, runner, 0, at, None, at, None, None, None, "", None)
  }

  lemma ClaimExactly(db: Db, runner: int, at: int)
    requires CustodyInv(db)
    ensures var (next, r) := Claim(db, runner, at);
            var free := db.job.Some? && db.job.value.state == Queued && at >= db.job.value.updatedAt;
            (r.Ok? <==> runner > 0 && at != 0 && free) &&
            next == if r.Ok? then After(db, Starting, at, None).(attempt := Some(Claimed(runner, at))) else db
  {
    TransitionExactly(db, Transition(Queued, Starting, at, None));
  }

  /** The attempt is in progress and this runner's. */
  predicate Owns(db: Db, runner: int) {
    runner > 0 && db.attempt.Some? && db.attempt.value.runner == runner && db.attempt.value.status != Completed
  }

  lemma MarkRunningExactly(db: Db, runner: int, process: int, at: int)
    requires CustodyInv(db)
    ensures var (next, r) := MarkRunning(db, runner, process, at);
            (r.Ok? <==> Owns(db, runner) && db.attempt.value.status == AtStarting && process > 0 && at != 0 &&
                        at >= db.attempt.value.claimedAt && at >= db.job.value.updatedAt) &&
            (r.Err? ==> next == db) &&
            (r.Ok? ==> next == After(db, Running, at, None).(attempt := Some(db.attempt.value.(
                                 status := AtRunning, process := process, startedAt := Some(at), heartbeatAt := at))))
  {
    TransitionExactly(db, Transition(Starting, Running, at, None));
  }

  lemma HeartbeatExactly(db: Db, runner: int, at: int)
    requires CustodyInv(db)
    ensures var (next, r) := Heartbeat(db, runner, at);
            (r.Ok? <==> Owns(db, runner) && at != 0 && at >= db.attempt.value.claimedAt) &&
            next == if r.Ok? then db.(attempt := Some(db.attempt.value.(heartbeatAt := at))) else db
  {}

  lemma RequestExactly(db: Db, at: int)
    requires CustodyInv(db)
    ensures var (next, r) := RequestCancellation(db, at);
            (r.Ok? <==> at != 0 && db.attempt.Some? && db.attempt.value.status != Completed &&
                        (db.attempt.value.cancelAt.Some? || at >= db.attempt.value.claimedAt)) &&
            (r.Err? ==> next == db) &&
            (r.Ok? ==> next == db.(attempt := Some(db.attempt.value.(cancelAt :=
                                 if db.attempt.value.cancelAt.Some? then db.attempt.value.cancelAt else Some(at)))))
  {}

  /** The job states in which an attempt of this status ends, given how it ends. */
  lemma CompletesLegally(db: Db, c: Completion)
    requires CustodyInv(db) && db.attempt.Some? && db.attempt.value.status != Completed && ValidCompletion(c)
    requires db.attempt.value.status == AtStarting ==> KindOf(c) != KindSucceeded
    ensures db.job.Some? && CanTransition(db.job.value.state, StateOf(KindOf(c)))
    ensures FailureError(StateOf(KindOf(c)), c.failure).None?
  {}

  /**
   `Complete`: an owner's valid completion of its attempt in progress is accepted if its time is not before the last
   heartbeat or update, and a process that never started does not claim success; job and attempt then say how it ended.
   */
  lemma CompleteExactly(db: Db, runner: int, c: Completion)
    requires CustodyInv(db)
    ensures var (next, r) := Complete(db, runner, c);
            (r.Ok? <==> Owns(db, runner) && ValidCompletion(c) && c.at >= db.attempt.value.heartbeatAt &&
                        c.at >= db.job.value.updatedAt &&
                        (db.attempt.value.status == AtStarting ==> KindOf(c) != KindSucceeded)) &&
            (r.Err? ==> next == db) &&
            (r.Ok? ==> next == After(db, StateOf(KindOf(c)), c.at, c.failure).(attempt := Some(db.attempt.value.(
                                 status := Completed, heartbeatAt := c.at, finishedAt := Some(c.at),
                                 exitCode := c.exitCode, signal := c.signal, kind := Some(KindOf(c))))))
  {
    var ready := Owns(db, runner) && ValidCompletion(c);
    if ready && (db.attempt.value.status == AtStarting ==> KindOf(c) != KindSucceeded) {
      CompletesLegally(db, c);
      TransitionExactly(db, Transition(db.job.value.state, StateOf(KindOf(c)), c.at, c.failure));
    }
  }

  lemma SucceedsFromRunning(db: Db)
    requires CustodyInv(db) && db.job == Some(Job(Running, 1, 1, None)) && db.attempt.Some?
    requires db.attempt.value.status == AtRunning && db.attempt.value.runner == 1 && db.attempt.value.heartbeatAt == 1
    ensures var collecting := Exec(db, OpTransition(Transition(Running, Collecting, 1, None)));
            Exec(collecting, OpComplete(1, Completion(1, Some(0), "", None, false))).job ==
            Some(Job(Succeeded, 1, 1, None))
  {
    var t := Transition(Running, Collecting, 1, None);
    TransitionExactly(db, t);
    ExecAgree(db, OpTransition(t));
    CompleteExactly(Exec(db, OpTransition(t)), 1, Completion(1, Some(0), "", None, false));
  }

  /** A job with outputs runs, collects and succeeds. */
  lemma CollectsAndSucceeds()
    ensures var ops := Submitted() + [OpTransition(Transition(Running, Collecting, 1, None))] +
                       [OpComplete(1, Completion(1, Some(0), "", None, false))];
            AllIssued(ops) && ExecAll(NO_ROWS, ops).job == Some(Job(Succeeded, 1, 1, None))
  {
    var collect := OpTransition(Transition(Running, Collecting, 1, None));
    var done := OpComplete(1, Completion(1, Some(0), "", None, false));
    SubmittedRuns();
    ExecAllAgree(NO_ROWS, Submitted());
    ExecPush(NO_ROWS, Submitted(), collect);
    ExecPush(NO_ROWS, Submitted() + [collect], done);
    SucceedsFromRunning(ExecAll(NO_ROWS, Submitted()));
  }
}
