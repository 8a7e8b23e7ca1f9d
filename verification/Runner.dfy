/**
 `Runner.Run` (internal/app/worker/runner.go): one claimed process from start to
 the single durable `Complete`. A schedule says what every channel, ticker and
 repository call does; a select that sees only quiet ticks ends with the result
 it was waiting for.
 */
module Runner {
  import opened Text
  import opened Jobs

  /** `processes.Exit`. */
  datatype Exit = Exit(code: int, signal: string, waitError: Option<string>)

  /** What the starter handed back; its contract is exactly one of the two. */
  datatype Launch = Launch(process: bool, error: Option<string>)

  datatype Answer = No | Yes | Fault(text: string)

  /** One turn of a select loop before the awaited result: a ticker tick, or the context ending. */
  datatype Turn = Tick(heartbeat: Option<string>, cancel: Answer) | Done

  datatype Schedule = Schedule(
    now: int, claimOk: bool, loadOk: bool, openOk: bool, outputs: bool,
    firstCheck: Answer,
    startTurns: seq<Turn>, launch: Launch,
    markOk: bool,
    runTurns: seq<Turn>, exit: Exit, graceful: bool,
    collector: bool, reloadOk: bool, beginOk: bool,
    collectTurns: seq<Turn>, collectError: Option<string>,
    closeError: Option<string>)

  /** A `Complete` call and what was still open when it was made. */
  datatype Call = Call(completion: Completion, starting: bool, live: bool, collecting: bool, logOpen: bool)

  const NOTHING := Completion(0, None, "", None, false)

  /** What a completion says beside its kind: how the process exited, and the code of a failure. */
  datatype Data = Data(exitCode: Option<int>, signal: string, code: Option<string>)

  function DataOf(c: Completion): Data {
    Data(c.exitCode, c.signal, if c.failure.Some? then Some(c.failure.value.code) else None)
  }

  // ---- pure parts ----

  /** `failedCompletion`. */
  function FailedCompletion(
    at: int, code: string, message: string, cause: Option<string>, exitCode: Option<int>,
    signal: string): (c: Completion)
    requires at != 0 && code != "" && message != ""
    ensures ValidCompletion(c) && KindOf(c) == KindFailed && c.at == at
    ensures DataOf(c) == Data(exitCode, signal, Some(code))
  {
    Completion(at, exitCode, signal,
               Some(Failure(code, if cause.Some? then message + ": " + cause.value else message, false)), false)
  }

  predicate CleanExit(e: Exit) { e.code == 0 && e.signal == "" && e.waitError.None? }

  /** `completionForExit`: success exactly for a clean exit. */
  function CompletionForExit(at: int, e: Exit): (c: Completion)
    requires at != 0 && e.waitError != Some("")
    ensures ValidCompletion(c) && !c.cancelled && c.at == at
    ensures KindOf(c) == KindSucceeded <==> CleanExit(e)
    ensures DataOf(c) == Data(Some(e.code), e.signal, if CleanExit(e) then None else Some("process_exit"))
  {
    if CleanExit(e) then Completion(at, Some(e.code), "", None, false)
    else
      var message := if e.waitError.Some? then e.waitError.value
                     else if e.signal != "" then "process terminated by " + e.signal
                     else "process exited with code";
      Completion(at, Some(e.code), e.signal, Some(Failure("process_exit", message, false)), false)
  }

  predicate Quiet(turns: seq<Turn>) {
    forall k :: 0 <= k < |turns| ==> turns[k] == Tick(None, No)
  }

  /** The turn that ends a select loop: the first that is not a quiet tick. */
  function FirstLoud(turns: seq<Turn>): (r: Option<Turn>)
    ensures r.None? <==> Quiet(turns)
    ensures r != Some(Tick(None, No))
  {
    if turns == [] then None
    else if turns[0] != Tick(None, No) then assert !Quiet(turns); Some(turns[0])
    else
      assert Quiet(turns[1..]) ==> Quiet(turns) by { assert turns == [turns[0]] + turns[1..]; }
      FirstLoud(turns[1..])
  }

  lemma {:induction false} LoudAt(turns: seq<Turn>, i: nat)
    requires i < |turns| && Quiet(turns[..i]) && turns[i] != Tick(None, No)
    ensures FirstLoud(turns) == Some(turns[i])
  {
    if i == 0 {
    } else {
      assert turns[..i][0] == turns[0];
      assert turns[1..][..i - 1] == turns[..i][1..];
      LoudAt(turns[1..], i - 1);
    }
  }

  /** A loop that is interrupted ends in cancellation exactly when a live poll reported a request. */
  function Interrupted(turn: Turn): Kind { if turn == Tick(None, Yes) then KindCancelled else KindFailed }

  /** How the process ends: interrupted, or by its own exit. */
  function Supervised(s: Schedule): Kind {
    if FirstLoud(s.runTurns).Some? then Interrupted(FirstLoud(s.runTurns).value)
    else if CleanExit(s.exit) then KindSucceeded else KindFailed
  }

  /** How the attempt ends before collection, for a starter that keeps its contract. */
  function ClaimedKind(s: Schedule): Kind {
    if s.firstCheck != No then (if s.firstCheck == Yes then KindCancelled else KindFailed)
    else if FirstLoud(s.startTurns).Some? then Interrupted(FirstLoud(s.startTurns).value)
    else if s.launch.error.Some? || !s.markOk then KindFailed
    else Supervised(s)
  }

  function CollectedKind(s: Schedule, marked: bool): Kind {
    if !s.collector || !s.reloadOk || !s.beginOk || !marked then KindFailed
    else if FirstLoud(s.collectTurns).Some? then Interrupted(FirstLoud(s.collectTurns).value)
    else if s.collectError.Some? then KindFailed else KindSucceeded
  }

  /** What the one `Complete` records. */
  function Outcome(s: Schedule): Kind {
    if !s.loadOk || !s.openOk then KindFailed
    else
      var k := if ClaimedKind(s) == KindSucceeded && s.outputs then CollectedKind(s, true) else ClaimedKind(s);
      if k == KindSucceeded && s.closeError.Some? then KindFailed else k
  }

  // ---- what is recorded beside the outcome ----

  function Silent(code: Option<string>): Data { Data(None, "", code) }

  function Exited(s: Schedule, code: Option<string>): Data { Data(Some(s.exit.code), s.exit.signal, code) }

  /** The failure code of the turn that interrupts a loop. */
  function TurnCode(turn: Turn): Option<string> {
    match turn
    case Tick(Some(_), _) => Some("heartbeat")
    case Tick(None, Fault(_)) => Some("check_cancellation")
    case Tick(None, _) => None
    case Done => Some("runner_stopped")
  }

  /** An interrupted start tells the exit of its process only if it was stopped in order. */
  function StartData(s: Schedule, turn: Turn): Data {
    if s.launch.process && TurnCode(turn) in {None, Some("runner_stopped")} then Exited(s, TurnCode(turn))
    else Silent(TurnCode(turn))
  }

  /** Whether the process of an interrupted start is killed: at once, or after the grace period. */
  function StartKills(s: Schedule, turn: Turn): nat {
    if s.launch.process && (TurnCode(turn) !in {None, Some("runner_stopped")} || !s.graceful) then 1 else 0
  }

  /** Whether the runner kills the process; one that ends by itself or in time is not killed. */
  function Kills(s: Schedule): nat {
    if !s.loadOk || !s.openOk || s.firstCheck != No then 0
    else if FirstLoud(s.startTurns).Some? then StartKills(s, FirstLoud(s.startTurns).value)
    else if s.launch != Launch(true, None) then 0
    else if !s.markOk then 1
    else if Quiet(s.runTurns) || s.graceful then 0 else 1
  }

  function SupervisedData(s: Schedule): Data {
    if FirstLoud(s.runTurns).Some? then Exited(s, TurnCode(FirstLoud(s.runTurns).value))
    else Exited(s, if CleanExit(s.exit) then None else Some("process_exit"))
  }

  function ClaimedData(s: Schedule): Data {
    if s.firstCheck.Fault? then Silent(Some("check_cancellation"))
    else if s.firstCheck == Yes then Silent(None)
    else if FirstLoud(s.startTurns).Some? then StartData(s, FirstLoud(s.startTurns).value)
    else if s.launch.error.Some? then Silent(Some("process_start"))
    else if !s.markOk then Exited(s, Some("mark_running"))
    else SupervisedData(s)
  }

  function CollectedData(s: Schedule, marked: bool): Data {
    if !s.collector then Silent(Some("artifacts_unavailable"))
    else if !s.reloadOk then Silent(Some("load_job"))
    else if !s.beginOk || !marked then Silent(Some("begin_collection"))
    else if FirstLoud(s.collectTurns).Some? then Silent(TurnCode(FirstLoud(s.collectTurns).value))
    else if s.collectError.Some? then Silent(Some("collect_artifacts"))
    else Data(Some(0), "", None)
  }

  function RecordedData(s: Schedule): Data {
    if !s.loadOk then Silent(Some("load_job"))
    else if !s.openOk then Silent(Some("open_logs"))
    else
      var collects := ClaimedKind(s) == KindSucceeded && s.outputs;
      var k := if collects then CollectedKind(s, true) else ClaimedKind(s);
      var d := if collects then CollectedData(s, true) else ClaimedData(s);
      if k == KindSucceeded && s.closeError.Some? then d.(code := Some("close_logs")) else d
  }

  /** The record is consistent: a failure has its code, success an exit code of zero and no signal. */
  lemma RecordedMeans(s: Schedule)
    ensures RecordedData(s).code.Some? <==> Outcome(s) == KindFailed
    ensures Outcome(s) == KindSucceeded ==> RecordedData(s) == Data(Some(0), "", None)
  {}

  /** Success needs every step of the way to go well; one failure anywhere rules it out. */
  lemma SucceedsExactly(s: Schedule)
    ensures Outcome(s) == KindSucceeded <==>
            s.loadOk && s.openOk && s.firstCheck == No && Quiet(s.startTurns) && s.launch.error.None? && s.markOk &&
            Quiet(s.runTurns) && CleanExit(s.exit) && s.closeError.None? &&
            (s.outputs ==> s.collector && s.reloadOk && s.beginOk && Quiet(s.collectTurns) && s.collectError.None?)
  {}

  /** A loop is ended by a poll that reports a request. */
  predicate Asks(turns: seq<Turn>) { FirstLoud(turns) == Some(Tick(None, Yes)) }

  /** Cancellation is recorded exactly when a request is the first thing to interrupt the attempt while it goes well. */
  lemma CancelledExactly(s: Schedule)
    ensures Outcome(s) == KindCancelled <==>
            s.loadOk && s.openOk &&
            (s.firstCheck == Yes ||
             (s.firstCheck == No &&
              (Asks(s.startTurns) ||
               (Quiet(s.startTurns) && s.launch.error.None? && s.markOk &&
                (Asks(s.runTurns) ||
                 (Quiet(s.runTurns) && CleanExit(s.exit) && s.outputs && s.collector && s.reloadOk && s.beginOk &&
                  Asks(s.collectTurns)))))))
  {}

  lemma {:induction false} LoudIsThere(turns: seq<Turn>)
    ensures FirstLoud(turns).Some? ==> FirstLoud(turns).value in turns
  {
    if turns == [] {
    } else {
      LoudIsThere(turns[1..]);
      assert turns == [turns[0]] + turns[1..];
    }
  }

  /** Cancellation is recorded only if some poll reported a request. */
  lemma CancelledOnlyIfAsked(s: Schedule)
    requires Outcome(s) == KindCancelled
    ensures s.firstCheck == Yes || Tick(None, Yes) in s.startTurns + s.runTurns + s.collectTurns
  {
    LoudIsThere(s.startTurns);
    LoudIsThere(s.runTurns);
    LoudIsThere(s.collectTurns);
  }

  /** The starter's result reaches the runner in the ordinary way. */
  predicate Delivered(s: Schedule) {
    s.claimOk && s.loadOk && s.openOk && s.firstCheck == No && Quiet(s.startTurns)
  }

  predicate Neither(l: Launch) { !l.process && l.error.None? }
  predicate Both(l: Launch) { l.process && l.error.Some? }

  predicate Sane(s: Schedule) { s.now != 0 && s.exit.waitError != Some("") }

  class Runner {
    var starting: bool
    var started: nat
    var waited: nat
    var kills: nat
    var marked: bool
    var collecting: bool
    var collected: bool
    var logOpen: bool
    var calls: seq<Call>

    constructor ()
      ensures Fresh() && calls == []
    {
      starting, started, waited, kills, marked := false, 0, 0, 0, false;
      collecting, collected, logOpen, calls := false, false, false, [];
    }

    predicate Fresh()
      reads this
    {
      !starting && started == waited && !collecting && !collected && !logOpen && !marked
    }

    /** `executions.Complete`, recording what is still open. */
    method Complete(c: Completion)
      modifies this`calls
      ensures calls == old(calls) + [Call(c, starting, started != waited, collecting, logOpen)]
    {
      calls := calls + [Call(c, starting, started != waited, collecting, logOpen)];
    }

    /** `stop`: ask, then kill after the grace period; either way the process is waited for. */
    method Stop(s: Schedule) returns (exit: Exit)
      requires started == waited + 1
      modifies this`waited, this`kills
      ensures waited == started && exit == s.exit
      ensures kills == old(kills) + if s.graceful then 0 else 1
    {
      if !s.graceful { kills := kills + 1; }
      waited := waited + 1;
      exit := s.exit;
    }

    /** Receiving the starter's result: from here on a process may exist. */
    method TakeLaunch(l: Launch)
      requires starting && started == waited
      modifies this`starting, this`started
      ensures !starting && started == waited + if l.process then 1 else 0
    {
      starting := false;
      if l.process { started := started + 1; }
    }

    /** A turn that ends `startClaimedProcess` early. */
    method AbandonStart(s: Schedule, turn: Turn) returns (c: Completion)
      requires Sane(s) && starting && started == waited && turn != Tick(None, No)
      modifies this`starting, this`started, this`waited, this`kills
      ensures !starting && started == waited && ValidCompletion(c) && KindOf(c) == Interrupted(turn)
      ensures DataOf(c) == StartData(s, turn) && kills == old(kills) + StartKills(s, turn)
    {
      TakeLaunch(s.launch);
      var exit := None;
      if s.launch.process {
        if turn.Tick? && (turn.heartbeat.Some? || turn.cancel.Fault?) {
          kills, waited := kills + 1, waited + 1;
        } else {
          var e := Stop(s);
          exit := Some(e);
        }
      }
      var code := if exit.Some? then Some(exit.value.code) else None;
      var signal := if exit.Some? then exit.value.signal else "";
      match turn
      case Tick(Some(text), _) =>
        c := FailedCompletion(s.now, "heartbeat", "persist runner heartbeat", Some(text), None, "");
      case Tick(None, Fault(text)) =>
        c := FailedCompletion(s.now, "check_cancellation", "poll cancellation request", Some(text), None, "");
      case Tick(None, Yes) => c := Completion(s.now, code, signal, None, true);
      case Tick(None, No) => c := NOTHING; assert false;
      case Done =>
        c := FailedCompletion(
          s.now, "runner_stopped", "runner was stopped before process start", Some("context ended"), code, signal);
    }

    /** `startClaimedProcess`: None means a process is now running under this runner. */
    method StartClaimedProcess(s: Schedule) returns (c: Option<Completion>)
      requires Sane(s) && !starting && started == waited
      modifies this`starting, this`started, this`waited, this`kills
      ensures !starting
      ensures kills == old(kills) + if Quiet(s.startTurns) then 0 else StartKills(s, FirstLoud(s.startTurns).value)
      ensures c.None? <==> Quiet(s.startTurns) && s.launch == Launch(true, None)
      ensures c.None? ==> started == waited + 1
      ensures c.Some? ==> started == waited + if Quiet(s.startTurns) && Both(s.launch) then 1 else 0
      ensures Quiet(s.startTurns) && Neither(s.launch) ==> c == Some(NOTHING)
      ensures c.Some? && !(Quiet(s.startTurns) && Neither(s.launch)) ==>
                ValidCompletion(c.value) &&
                KindOf(c.value) ==
                if Quiet(s.startTurns) then KindFailed else Interrupted(FirstLoud(s.startTurns).value)
      ensures c.Some? && !(Quiet(s.startTurns) && Neither(s.launch)) ==>
                DataOf(c.value) ==
                if Quiet(s.startTurns) then Silent(Some("process_start"))
                else StartData(s, FirstLoud(s.startTurns).value)
    {
      starting := true;
      for i := 0 to |s.startTurns|
        invariant starting && started == waited && kills == old(kills) && Quiet(s.startTurns[..i])
      {
        if s.startTurns[i] != Tick(None, No) {
          LoudAt(s.startTurns, i);
          var early := AbandonStart(s, s.startTurns[i]);
          return Some(early);
        }
      }
      assert s.startTurns[..|s.startTurns|] == s.startTurns;
      TakeLaunch(s.launch);
      if s.launch.error.Some? {
        return Some(FailedCompletion(s.now, "process_start", "start process", s.launch.error, None, ""));
      }
      if !s.launch.process { return Some(NOTHING); }
      c := None;
    }

    /** The supervision loop of `runClaimed`. */
    method Supervise(s: Schedule) returns (c: Completion)
      requires Sane(s) && started == waited + 1
      modifies this`waited, this`kills
      ensures started == waited && ValidCompletion(c) && KindOf(c) == Supervised(s)
      ensures DataOf(c) == SupervisedData(s)
      ensures kills == old(kills) + if Quiet(s.runTurns) || s.graceful then 0 else 1
    {
      for i := 0 to |s.runTurns|
        invariant started == waited + 1 && kills == old(kills) && Quiet(s.runTurns[..i])
      {
        if s.runTurns[i] != Tick(None, No) { LoudAt(s.runTurns, i); }
        match s.runTurns[i]
        case Tick(heartbeat, cancel) =>
          if heartbeat.Some? {
            var exit := Stop(s);
            return FailedCompletion(
              s.now, "heartbeat", "persist runner heartbeat", heartbeat, Some(exit.code), exit.signal);
          }
          if cancel.Fault? {
            var exit := Stop(s);
            return FailedCompletion(
              s.now, "check_cancellation", "poll cancellation request", Some(cancel.text), Some(exit.code),
              exit.signal);
          }
          if cancel == Yes {
            var exit := Stop(s);
            return Completion(s.now, Some(exit.code), exit.signal, None, true);
          }
        case Done =>
          var exit := Stop(s);
          return FailedCompletion(
            s.now, "runner_stopped", "runner was stopped", Some("context ended"), Some(exit.code), exit.signal);
      }
      assert s.runTurns[..|s.runTurns|] == s.runTurns;
      waited := waited + 1;
      c := CompletionForExit(s.now, s.exit);
    }

    /** `runClaimed`. */
    method RunClaimed(s: Schedule) returns (c: Completion)
      requires Sane(s) && !starting && started == waited && !marked
      modifies this`starting, this`started, this`waited, this`kills, this`marked
      ensures !starting
      ensures s.loadOk && s.openOk ==> kills == old(kills) + Kills(s)
      ensures started == waited + if s.firstCheck == No && Quiet(s.startTurns) && Both(s.launch) then 1 else 0
      ensures s.firstCheck == No && Quiet(s.startTurns) && Neither(s.launch) ==> c == NOTHING && !marked
      ensures !(s.firstCheck == No && Quiet(s.startTurns) && Neither(s.launch)) ==>
                ValidCompletion(c) && KindOf(c) == ClaimedKind(s) && DataOf(c) == ClaimedData(s) &&
                (KindOf(c) == KindSucceeded ==> marked)
    {
      if s.firstCheck.Fault? {
        return FailedCompletion(
          s.now, "check_cancellation", "check cancellation before start", Some(s.firstCheck.text), None, "");
      }
      if s.firstCheck == Yes { return Completion(s.now, None, "", None, true); }
      var early := StartClaimedProcess(s);
      if early.Some? { return early.value; }
      if !s.markOk {
        kills, waited := kills + 1, waited + 1;
        return FailedCompletion(
          s.now, "mark_running", "record running process", Some("storage"), Some(s.exit.code), s.exit.signal);
      }
      marked := true;
      c := Supervise(s);
    }

    /** `collectDeclaredArtifacts`: success only when the collector returned without error. */
    method CollectDeclaredArtifacts(s: Schedule) returns (c: Completion)
      requires Sane(s) && !collecting && !collected
      modifies this`collecting, this`collected
      ensures !collecting && ValidCompletion(c) && KindOf(c) == CollectedKind(s, marked)
      ensures DataOf(c) == CollectedData(s, marked)
      ensures collected <==> KindOf(c) == KindSucceeded
    {
      if !s.collector {
        return FailedCompletion(
          s.now, "artifacts_unavailable", "collect declared outputs", Some("artifact collection is not configured"),
          None, "");
      }
      if !s.reloadOk {
        return FailedCompletion(s.now, "load_job", "load job before artifact collection", Some("storage"), None, "");
      }
      // Running is the only state from which a job may move to collecting.
      if !s.beginOk || !marked {
        return FailedCompletion(s.now, "begin_collection", "begin artifact collection", Some("refused"), None, "");
      }
      collecting := true;
      for i := 0 to |s.collectTurns|
        invariant collecting && !collected && Quiet(s.collectTurns[..i])
      {
        if s.collectTurns[i] != Tick(None, No) {
          LoudAt(s.collectTurns, i);
          collecting := false;
          match s.collectTurns[i]
          case Tick(Some(text), _) =>
            return FailedCompletion(s.now, "heartbeat", "persist artifact collection heartbeat", Some(text), None, "");
          case Tick(None, Fault(text)) =>
            return FailedCompletion(s.now, "check_cancellation", "poll artifact cancellation", Some(text), None, "");
          case Tick(None, _) => return Completion(s.now, None, "", None, true);
          case Done =>
            return FailedCompletion(
              s.now, "runner_stopped", "runner stopped during artifact collection", Some("context ended"), None, "");
        }
      }
      assert s.collectTurns[..|s.collectTurns|] == s.collectTurns;
      collecting := false;
      if s.collectError.Some? {
        return FailedCompletion(s.now, "collect_artifacts", "collect declared outputs", s.collectError, None, "");
      }
      collected := true;
      c := Completion(s.now, Some(0), "", None, false);
    }

    /**
     `Run`, for every schedule. After a successful claim exactly one `Complete` is
     made, with no start, collector or log left open, and it records `Outcome`. The
     clauses about a starter that breaks its contract are exact: a process is left
     running only by a starter that returns a process and an error together, and the
     completion is invalid only for a starter that returns neither while there is
     nothing to collect and the log closes cleanly.
     */
    method Run(s: Schedule) returns (claimed: bool)
      requires Sane(s) && Fresh()
      modifies this
      ensures claimed == s.claimOk
      ensures !claimed ==> calls == old(calls)
      ensures kills == old(kills) + if claimed then Kills(s) else 0
      ensures claimed ==>
                |calls| == |old(calls)| + 1 && calls[..|old(calls)|] == old(calls) && Custody(s, calls[|old(calls)|])
      ensures claimed && KindOf(calls[|old(calls)|].completion) == KindSucceeded && s.outputs ==> collected
    {
      claimed := s.claimOk;
      if !claimed { return; }
      if !s.loadOk {
        var c := FailedCompletion(s.now, "load_job", "load claimed job", Some("storage"), None, "");
        Complete(c);
        return;
      }
      if !s.openOk {
        var c := FailedCompletion(s.now, "open_logs", "open durable job logs", Some("storage"), None, "");
        Complete(c);
        return;
      }
      logOpen := true;
      var c := RunClaimed(s);
      if KindOf(c) == KindSucceeded && s.outputs { c := CollectDeclaredArtifacts(s); }
      logOpen := false;
      if s.closeError.Some? && c.failure.None? && !c.cancelled {
        c := FailedCompletion(s.now, "close_logs", "close durable job logs", s.closeError, c.exitCode, c.signal);
      }
      if c.at == 0 { c := c.(at := s.now); }
      Complete(c);
    }
  }

  /** What holds when `Complete` is called. */
  predicate Custody(s: Schedule, call: Call) {
    !call.starting && !call.collecting && !call.logOpen &&
    (call.live <==> Delivered(s) && Both(s.launch)) &&
    (ValidCompletion(call.completion) <==> !(Delivered(s) && Neither(s.launch) && !s.outputs && s.closeError.None?)) &&
    ((KindOf(call.completion) == Outcome(s) && DataOf(call.completion) == RecordedData(s)) ||
     (Delivered(s) && Neither(s.launch)))
  }

  /**
   The row after `Complete`: accepted, it leaves the job in the state of the outcome and the attempt with that
   result; a completion that breaks its own rules, which only a starter without a result causes, is refused.
   */
  lemma RecordsOutcome(s: Schedule, call: Call, db: Db, runner: int)
    requires Custody(s, call)
    ensures var (next, r) := Jobs.Complete(db, runner, call.completion);
            (r.Ok? ==> next.job == Some(r.value) && r.value.state == StateOf(KindOf(call.completion)) &&
                       next.attempt.Some? && next.attempt.value.status == Completed &&
                       next.attempt.value.kind == Some(KindOf(call.completion))) &&
            (r.Ok? && !(Delivered(s) && Neither(s.launch)) ==>
               r.value.state == StateOf(Outcome(s)) && next.attempt.value.exitCode == RecordedData(s).exitCode &&
               next.attempt.value.signal == RecordedData(s).signal) &&
            (!ValidCompletion(call.completion) ==> r.Err? && next == db)
  {}
}
