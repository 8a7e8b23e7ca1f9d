/**
 `Service` itself: a locked map of pending entries updated in place. Each method
 that holds the lock refines one event of module `Pairing`; the methods that
 release it in between take the events of other goroutines as a parameter and
 report the run they took part in.
 */
module PairingService {
  import opened Text
  import opened Trust
  import opened Pairing

  datatype Incoming = Failure(deadline: bool) | Message(decision: Decision)

  /**
   One iteration of `monitor`: what it receives, how an `Activate` it leads to turns out, and what others do
   before it, between its critical sections and during that call.
   */
  datatype Turn = Turn(
    before: seq<Event>, incoming: Incoming, pause: seq<Event>, gap: seq<Event>, error: Option<string>, rest: seq<Event>)

  class Coordinator {
    const cfg: Config
    var pairings: map<string, Entry>

    // What the outside world saw.
    var seen: set<string>
    var confirms: set<string>
    var rejects: set<string>
    var calls: map<string, seq<Pin>>
    var flying: set<string>
    var pins: set<string>

    function View(): Service
      reads this
    {
      Service(pairings, seen, confirms, rejects, calls, flying, pins)
    }

    constructor (cfg: Config)
      ensures View() == INITIAL && this.cfg == cfg
    {
      this.cfg := cfg;
      pairings := map[];
      seen, confirms, rejects, calls, flying, pins := {}, {}, {}, map[], {}, {};
    }

    /** `pruneLocked`: visits every key once, in any order. */
    method PruneLocked(now: int)
      modifies this`pairings
      ensures pairings == Prune(old(pairings), now, cfg.lifetime)
    {
      var all := pairings;
      var left := all.Keys;
      while left != {}
        invariant left <= all.Keys
        invariant pairings.Keys <= all.Keys
        invariant forall id :: id in all ==> PruneState(all, pairings, id, id in left, now, cfg.lifetime)
        decreases |left|
      {
        var id :| id in left;
        left := left - {id};
        var entry := pairings[id];
        if entry.value.state == Waiting && !(entry.value.ceremony.expiresAt > now) {
          entry := entry.(value := entry.value.(state := Expired));
          pairings := pairings[id := entry];
        }
        if entry.value.state != Waiting && now > entry.value.ceremony.expiresAt + cfg.lifetime {
          pairings := pairings - {id};
        }
      }
      assert pairings == Prune(all, now, cfg.lifetime);
    }

    method CountWaiting() returns (waiting: nat)
      ensures waiting == |WaitingIDs(pairings)|
    {
      waiting := 0;
      var left := pairings.Keys;
      ghost var counted: set<string> := {};
      while left != {}
        invariant left <= pairings.Keys
        invariant counted == set x | x in pairings.Keys - left && IsWaiting(pairings[x])
        invariant waiting == |counted|
        decreases |left|
      {
        var x :| x in left;
        left := left - {x};
        if pairings[x].value.state == Waiting {
          waiting := waiting + 1;
          counted := counted + {x};
        }
      }
      assert counted == WaitingIDs(pairings);
    }

    /** `register` once it holds the lock. */
    method InsertLocked(c: Ceremony, now: int) returns (ok: bool)
      modifies this
      ensures View() == Insert(old(View()), c, now, cfg.lifetime)
      ensures ok <==> HasRoom(Pruned(old(View()), now, cfg.lifetime), c.material.id)
    {
      var id := c.material.id;
      PruneLocked(now);
      var waiting := CountWaiting();
      if waiting >= MAXIMUM_PENDING || id in pairings { return false; }
      pairings := pairings[id := Fresh(c)];
      seen := seen + {id};
      ok := true;
    }

    /** `register`. */
    method Register(e: Event) returns (ok: bool)
      requires IsDigest(cfg.sum) && e.Register?
      modifies this
      ensures View() == Step(cfg, old(View()), e)
      ensures ok <==> Admitted(cfg, e).Some? &&
                      HasRoom(Pruned(old(View()), e.locked, cfg.lifetime), Admitted(cfg, e).value.material.id)
    {
      var c := Admitted(cfg, e);
      if c.None? { return false; }
      ok := InsertLocked(c.value, e.locked);
    }

    /** `updateLocalDecision`: `ok` exactly when the decision was recorded. */
    method UpdateLocalDecision(id: string, confirmed: bool, now: int) returns (ok: bool)
      modifies this
      ensures View() == DecideStep(old(View()), id, confirmed, now, cfg.lifetime)
      ensures ok <==> Undecided(Pruned(old(View()), now, cfg.lifetime), id)
    {
      PruneLocked(now);
      if id !in pairings { return false; }
      var entry := pairings[id];
      if entry.value.state != Waiting || entry.activating { return false; }
      if confirmed {
        entry := entry.(value := entry.value.(local := true));
        confirms := confirms + {id};
      } else {
        entry := entry.(value := entry.value.(state := Rejected));
        rejects := rejects + {id};
      }
      pairings := pairings[id := entry];
      ok := true;
    }

    /** `fail`. */
    method Fail(id: string, text: string)
      modifies this`pairings
      ensures View() == FailStep(old(View()), id, text)
    {
      if id in pairings && pairings[id].value.state == Waiting {
        pairings := pairings[id := pairings[id].(value := pairings[id].value.(state := Failed, failure := text))];
      }
    }

    method Settle(id: string, state: State)
      modifies this`pairings
      ensures View() == SettleStep(old(View()), id, state)
    {
      if id in pairings && pairings[id].value.state == Waiting {
        pairings := pairings[id := pairings[id].(value := pairings[id].value.(state := state))];
      }
    }

    /** The locked block of `monitor` for a confirmation. */
    method NoteConfirmation(id: string, committed: bool)
      modifies this`pairings
      ensures View() == ReceiveStep(old(View()), id, Decision(id, true, committed))
    {
      if id in pairings {
        var entry := pairings[id];
        if entry.value.state == Waiting {
          entry := entry.(value := entry.value.(remote := true));
        }
        if committed {
          entry := entry.(remoteCommitted := true);
        }
        pairings := pairings[id := entry];
      }
    }

    /** First half of `maybeActivate`; `pin` is the argument handed to `Activate`. */
    method BeginActivation(id: string) returns (pin: Option<Pin>)
      modifies this
      ensures View() == BeginStep(old(View()), id)
      ensures pin.Some? <==> MayActivate(old(View()), id)
      ensures pin.Some? ==> pin.value == PinFor(old(View()).pairings[id].value.ceremony)
    {
      if id !in pairings { return None; }
      var entry := pairings[id];
      if entry.value.state != Waiting || entry.activating || !entry.value.local || !entry.value.remote {
        return None;
      }
      pairings := pairings[id := entry.(activating := true)];
      var c := entry.value.ceremony;
      pin := Some(Pin(c.material.id, c.peer, c.material.secret));
      calls := calls[id := (if id in calls then calls[id] else []) + [pin.value]];
      flying := flying + {id};
    }

    /** Second half of `maybeActivate`, after `Activate` returned `error`. */
    method EndActivation(id: string, error: Option<string>)
      modifies this
      ensures View() == EndStep(old(View()), id, error)
    {
      if id !in flying { return; }
      flying := flying - {id};
      if error.None? { pins := pins + {id}; }
      if id in pairings && pairings[id].value.state == Waiting {
        var entry := pairings[id].(activating := false);
        if error.Some? {
          entry := entry.(value := entry.value.(state := Failed, failure := error.value));
        } else {
          entry := entry.(value := entry.value.(state := Paired), localCommitted := true);
        }
        pairings := pairings[id := entry];
      }
    }

    /** What `monitor` does with one decision before it tries to activate. */
    method ReceiveOne(id: string, d: Decision)
      modifies this`pairings
      ensures View() == ReceiveStep(old(View()), id, d)
    {
      if d.id != id {
        Fail(id, PROTOCOL);
      } else if !d.confirmed {
        Settle(id, Rejected);
      } else {
        NoteConfirmation(id, d.committed);
      }
    }

    /** One critical section of any goroutine. */
    method Do(e: Event)
      requires IsDigest(cfg.sum)
      modifies this
      ensures View() == Step(cfg, old(View()), e)
    {
      match e
      case Register(_, _, _, _, _, _) => var _ := Register(e);
      case Decide(id, confirmed, now) => var _ := UpdateLocalDecision(id, confirmed, now);
      case ReceiveFailed(id, deadline) => if deadline { Settle(id, Expired); } else { Fail(id, CLOSED); }
      case Receive(id, d) => ReceiveOne(id, d);
      case SendFailed(id, text) => Fail(id, text);
      case Begin(id) => var _ := BeginActivation(id);
      case End(id, error) => EndActivation(id, error);
      case List(now) => PruneLocked(now);
    }

    /** Whatever other goroutines do while this one does not hold the lock. */
    method Others(es: seq<Event>)
      requires IsDigest(cfg.sum)
      modifies this
      ensures View() == Run(cfg, old(View()), es)
    {
      for i := 0 to |es|
        invariant View() == Run(cfg, old(View()), es[..i])
      {
        assert es[..i + 1][..i] == es[..i];
        Do(es[i]);
      }
      assert es[..|es|] == es;
    }

    /**
     `maybeActivate`: the lock is released around `Activate`, so `gap` happens in
     the middle; only this goroutine ends its own call. `message` is the commit
     announced to the peer.
     */
    method MaybeActivate(id: string, gap: seq<Event>, error: Option<string>)
      returns (message: Option<Decision>, ghost trace: seq<Event>)
      requires IsDigest(cfg.sum) && NoEnd(id, gap)
      modifies this
      ensures View() == Run(cfg, old(View()), trace)
      ensures trace == Activation(old(View()), id, gap, error)
      ensures message ==
              if MayActivate(old(View()), id) && error.None? then Some(Decision(id, true, true)) else None
      ensures message.Some? && Inv(c => true, old(View())) ==> Justified(View(), message.value)
    {
      ghost var start := View();
      ActivationRun(cfg, start, id, gap, error);
      var pin := BeginActivation(id);
      if pin.None? { return None, [Begin(id)]; }
      FlyingStays(cfg, View(), gap, id);
      Others(gap);
      EndActivation(id, error);
      trace := [Begin(id)] + gap + [End(id, error)];
      message := if error.None? then Some(Decision(id, true, true)) else None;
      if Inv(c => true, start) { ConfirmedStays(cfg, start, trace, id); }
    }

    /** `getPairing`. */
    method GetPairing(id: string) returns (r: Option<Value>)
      ensures r == if id in pairings then Some(pairings[id].value) else None
    {
      r := if id in pairings then Some(pairings[id].value) else None;
    }

    /**
     `Confirm`: record, send, and only then try to activate; a failed send fails the entry. `message` is what
     is sent, with `between` going on around the send; `after` happens before the entry is read again.
     */
    method Confirm(
      id: string, now: int, sent: Option<string>, between: seq<Event>, gap: seq<Event>, error: Option<string>,
      after: seq<Event>)
      returns (r: Option<Value>, message: Option<Decision>, ghost trace: seq<Event>)
      requires IsDigest(cfg.sum) && NoEnd(id, gap)
      modifies this
      ensures View() == Run(cfg, old(View()), trace)
      ensures trace == Confirmation(cfg, old(View()), id, now, sent, between, gap, error, after)
      ensures message == if CanDecide(cfg, old(View()), id, now) then Some(Decision(id, true, false)) else None
      ensures message.Some? ==> Sendable(cfg, old(View()), Decide(id, true, now), between, message.value)
      ensures r == if message.Some? && sent.None? && id in pairings then Some(pairings[id].value) else None
    {
      ghost var start := View();
      RunOnce(cfg, start, Decide(id, true, now));
      var ok := UpdateLocalDecision(id, true, now);
      trace := [Decide(id, true, now)];
      if !ok { return None, None, trace; }
      message := Some(Decision(id, true, false));
      DecidedIsSendable(cfg, start, id, true, now, between);
      Others(between);
      RunAppend(cfg, start, trace, between);
      trace := trace + between;
      if sent.Some? {
        RunOne(cfg, start, trace, SendFailed(id, sent.value));
        Fail(id, sent.value);
        return None, message, trace + [SendFailed(id, sent.value)];
      }
      var _, activation := MaybeActivate(id, gap, error);
      RunThree(cfg, start, trace, activation, after);
      trace := trace + activation + after;
      Others(after);
      r := GetPairing(id);
    }

    /** `Reject`: an accepted one settles the entry at once, and is sent whether or not the send succeeds. */
    method Reject(id: string, now: int, between: seq<Event>) returns (r: Option<Value>, message: Option<Decision>)
      requires IsDigest(cfg.sum)
      modifies this
      ensures message == if CanDecide(cfg, old(View()), id, now) then Some(Decision(id, false, false)) else None
      ensures message.None? ==> View() == Step(cfg, old(View()), Decide(id, false, now)) && r.None?
      ensures message.Some? ==>
                View() == Run(cfg, Step(cfg, old(View()), Decide(id, false, now)), between) &&
                Sendable(cfg, old(View()), Decide(id, false, now), between, message.value) &&
                Settled(Step(cfg, old(View()), Decide(id, false, now)), id) &&
                r == if id in pairings then Some(pairings[id].value) else None
    {
      ghost var start := View();
      var ok := UpdateLocalDecision(id, false, now);
      if !ok { return None, None; }
      message := Some(Decision(id, false, false));
      DecidedIsSendable(cfg, start, id, false, now, between);
      Others(between);
      r := GetPairing(id);
    }

    /** One decision, or the end of the connection, as `monitor` handles it. */
    method Handle(id: string, turn: Turn)
      requires IsDigest(cfg.sum) && NoEnd(id, turn.gap)
      modifies this
      ensures View() == Run(cfg, old(View()), Response(cfg, old(View()), id, turn))
    {
      ghost var start := View();
      match turn.incoming
      case Failure(deadline) =>
        RunOnce(cfg, start, ReceiveFailed(id, deadline));
        Do(ReceiveFailed(id, deadline));
      case Message(d) =>
        RunOnce(cfg, start, Receive(id, d));
        ReceiveOne(id, d);
        if d.id == id && d.confirmed {
          RunAppend(cfg, start, [Receive(id, d)], turn.pause);
          Others(turn.pause);
          var _, activation := MaybeActivate(id, turn.gap, turn.error);
          RunThree(cfg, start, [Receive(id, d)] + turn.pause, activation, turn.rest);
          Others(turn.rest);
        }
    }

    method TakeTurn(id: string, turn: Turn)
      requires IsDigest(cfg.sum) && NoEnd(id, turn.gap)
      modifies this
      ensures View() == Run(cfg, old(View()), TurnEvents(cfg, old(View()), id, turn))
    {
      ghost var start := View();
      Others(turn.before);
      RunAppend(cfg, start, turn.before, Response(cfg, View(), id, turn));
      Handle(id, turn);
    }

    /** `monitor`: one iteration per receive; `used` iterations run before it returns or waits for more. */
    method Monitor(id: string, turns: seq<Turn>) returns (used: nat)
      requires IsDigest(cfg.sum) && forall k :: 0 <= k < |turns| ==> NoEnd(id, turns[k].gap)
      modifies this
      ensures used <= |turns|
      ensures View() == After(cfg, old(View()), id, turns[..used])
      ensures used < |turns| ==> used > 0 && Stops(View(), id, turns[used - 1].incoming)
      ensures used > 0 ==> GoesOn(cfg, old(View()), id, turns, used - 1)
    {
      ghost var start := View();
      used := 0;
      while used < |turns|
        invariant used <= |turns|
        invariant View() == After(cfg, start, id, turns[..used])
        invariant GoesOn(cfg, start, id, turns, used)
      {
        AfterNext(cfg, start, id, turns, used);
        TakeTurn(id, turns[used]);
        used := used + 1;
        if Stops(View(), id, turns[used - 1].incoming) { return; }
        GoesOnNext(cfg, start, id, turns, used);
      }
      if used > 0 { GoesOnLess(cfg, start, id, turns, used); }
    }
  }

  /** An entry is as it was until it is visited, and then as `Prune` leaves it. */
  predicate PruneState(
    all: map<string, Entry>, p: map<string, Entry>, id: string, left: bool, now: int, lifetime: int)
    requires id in all
  {
    if left then id in p && p[id] == all[id]
    else if Drops(all[id], now, lifetime) then id !in p
    else id in p && p[id] == Aged(all[id], now)
  }

  predicate NoEnd(id: string, gap: seq<Event>) {
    forall k :: 0 <= k < |gap| && gap[k].End? ==> gap[k].id != id
  }

  /** The critical sections of one `maybeActivate`: a lone test, or a call with others in its gap. */
  function Activation(s: Service, id: string, gap: seq<Event>, error: Option<string>): seq<Event> {
    if MayActivate(s, id) then [Begin(id)] + gap + [End(id, error)] else [Begin(id)]
  }

  lemma ActivationRun(cfg: Config, s: Service, id: string, gap: seq<Event>, error: Option<string>)
    requires IsDigest(cfg.sum)
    ensures Run(cfg, s, [Begin(id)]) == BeginStep(s, id)
    ensures Run(cfg, s, [Begin(id)] + gap + [End(id, error)]) == EndStep(Run(cfg, BeginStep(s, id), gap), id, error)
  {
    RunOnce(cfg, s, Begin(id));
    RunAppend(cfg, s, [Begin(id)], gap);
    RunOne(cfg, s, [Begin(id)] + gap, End(id, error));
  }

  predicate CanDecide(cfg: Config, s: Service, id: string, now: int) { Undecided(Pruned(s, now, cfg.lifetime), id) }

  /** The critical sections of one `Confirm` and what others do between them. */
  function Confirmation(
    cfg: Config, s: Service, id: string, now: int, sent: Option<string>, between: seq<Event>, gap: seq<Event>,
    error: Option<string>, after: seq<Event>): seq<Event>
    requires IsDigest(cfg.sum)
  {
    var decided := [Decide(id, true, now)];
    var waited := decided + between;
    if !CanDecide(cfg, s, id, now) then decided
    else if sent.Some? then waited + [SendFailed(id, sent.value)]
    else waited + Activation(Run(cfg, s, waited), id, gap, error) + after
  }

  /** The decision is justified from the moment it is recorded, so at whatever moment it is sent. */
  ghost predicate Sendable(cfg: Config, s: Service, decide: Event, between: seq<Event>, d: Decision)
    requires IsDigest(cfg.sum)
  {
    forall n :: 0 <= n <= |between| ==> Justified(Run(cfg, Step(cfg, s, decide), between[..n]), d)
  }

  lemma DecidedIsSendable(cfg: Config, s: Service, id: string, confirmed: bool, now: int, between: seq<Event>)
    requires IsDigest(cfg.sum) && CanDecide(cfg, s, id, now)
    ensures Sendable(cfg, s, Decide(id, confirmed, now), between, Decision(id, confirmed, false))
    ensures !confirmed ==> Settled(Step(cfg, s, Decide(id, confirmed, now)), id)
  {
    var t := Step(cfg, s, Decide(id, confirmed, now));
    assert Justified(t, Decision(id, confirmed, false));
    forall n | 0 <= n <= |between|
      ensures Justified(Run(cfg, t, between[..n]), Decision(id, confirmed, false))
    {
      JustifiedStays(cfg, t, between[..n], Decision(id, confirmed, false));
    }
  }

  lemma ConfirmedStays(cfg: Config, s: Service, es: seq<Event>, id: string)
    requires IsDigest(cfg.sum) && Inv(c => true, s) && MayActivate(s, id)
    ensures id in Run(cfg, s, es).confirms
  {
    assert EntryInv(c => true, s, id, s.pairings[id]);
    RunGrows(cfg, s, es);
  }

  function Response(cfg: Config, s: Service, id: string, turn: Turn): seq<Event>
    requires IsDigest(cfg.sum)
  {
    match turn.incoming
    case Failure(deadline) => [ReceiveFailed(id, deadline)]
    case Message(d) =>
      if d.id == id && d.confirmed then
        var received := [Receive(id, d)] + turn.pause;
        received + Activation(Run(cfg, s, received), id, turn.gap, turn.error) + turn.rest
      else [Receive(id, d)]
  }

  function TurnEvents(cfg: Config, s: Service, id: string, turn: Turn): seq<Event>
    requires IsDigest(cfg.sum)
  {
    turn.before + Response(cfg, Run(cfg, s, turn.before), id, turn)
  }

  /** The run that these iterations of `monitor` take part in. */
  function Monitored(cfg: Config, s: Service, id: string, turns: seq<Turn>): seq<Event>
    requires IsDigest(cfg.sum)
  {
    if turns == [] then []
    else
      var init := Monitored(cfg, s, id, turns[..|turns| - 1]);
      init + TurnEvents(cfg, Run(cfg, s, init), id, turns[|turns| - 1])
  }

  function After(cfg: Config, s: Service, id: string, turns: seq<Turn>): Service
    requires IsDigest(cfg.sum)
  {
    Run(cfg, s, Monitored(cfg, s, id, turns))
  }

  lemma AfterNext(cfg: Config, s: Service, id: string, turns: seq<Turn>, n: nat)
    requires IsDigest(cfg.sum) && n < |turns|
    ensures var t := After(cfg, s, id, turns[..n]);
            After(cfg, s, id, turns[..n + 1]) == Run(cfg, t, TurnEvents(cfg, t, id, turns[n]))
  {
    assert turns[..n + 1][..n] == turns[..n];
    var init := Monitored(cfg, s, id, turns[..n]);
    RunAppend(cfg, s, init, TurnEvents(cfg, Run(cfg, s, init), id, turns[n]));
  }

  /** `monitor` stops on an error, a foreign or negative decision, or an entry with nothing left to learn. */
  predicate Stops(s: Service, id: string, incoming: Incoming) {
    incoming.Failure? || incoming.decision.id != id || !incoming.decision.confirmed ||
    id !in s.pairings || s.pairings[id].value.state in {Rejected, Expired, Failed} ||
    (s.pairings[id].localCommitted && s.pairings[id].remoteCommitted)
  }

  /** None of the first `n` turns gave `monitor` a reason to stop. */
  predicate GoesOn(cfg: Config, s: Service, id: string, turns: seq<Turn>, n: nat)
    requires IsDigest(cfg.sum)
  {
    n <= |turns| && forall k :: 0 < k <= n ==> !Stops(After(cfg, s, id, turns[..k]), id, turns[k - 1].incoming)
  }

  lemma GoesOnNext(cfg: Config, s: Service, id: string, turns: seq<Turn>, n: nat)
    requires IsDigest(cfg.sum) && 0 < n <= |turns| && GoesOn(cfg, s, id, turns, n - 1)
    requires !Stops(After(cfg, s, id, turns[..n]), id, turns[n - 1].incoming)
    ensures GoesOn(cfg, s, id, turns, n)
  {}

  lemma GoesOnLess(cfg: Config, s: Service, id: string, turns: seq<Turn>, n: nat)
    requires IsDigest(cfg.sum) && 0 < n && GoesOn(cfg, s, id, turns, n)
    ensures GoesOn(cfg, s, id, turns, n - 1)
  {}

  lemma StepFlying(cfg: Config, s: Service, e: Event, id: string)
    requires IsDigest(cfg.sum) && id in s.flying && (e.End? ==> e.id != id)
    ensures id in Step(cfg, s, e).flying
  {}

  lemma {:induction false} FlyingStays(cfg: Config, s: Service, es: seq<Event>, id: string)
    requires IsDigest(cfg.sum) && id in s.flying && NoEnd(id, es)
    ensures id in Run(cfg, s, es).flying
  {
    if es == [] {
    } else {
      FlyingStays(cfg, s, es[..|es| - 1], id);
      StepFlying(cfg, Run(cfg, s, es[..|es| - 1]), es[|es| - 1], id);
    }
  }

  lemma RunOnce(cfg: Config, s: Service, e: Event)
    requires IsDigest(cfg.sum)
    ensures Run(cfg, s, [e]) == Step(cfg, s, e)
  {
    assert [e][..0] == [];
  }

  lemma RunOne(cfg: Config, s: Service, a: seq<Event>, e: Event)
    requires IsDigest(cfg.sum)
    ensures Run(cfg, s, a + [e]) == Step(cfg, Run(cfg, s, a), e)
  {
    assert (a + [e])[..|a|] == a;
  }

  lemma {:induction false} RunAppend(cfg: Config, s: Service, a: seq<Event>, b: seq<Event>)
    requires IsDigest(cfg.sum)
    ensures Run(cfg, s, a + b) == Run(cfg, Run(cfg, s, a), b)
  {
    if b == [] {
      assert a + b == a;
    } else {
      RunAppend(cfg, s, a, b[..|b| - 1]);
      assert (a + b)[..|a + b| - 1] == a + b[..|b| - 1];
    }
  }

  lemma RunThree(cfg: Config, s: Service, a: seq<Event>, b: seq<Event>, c: seq<Event>)
    requires IsDigest(cfg.sum)
    ensures Run(cfg, s, a + b + c) == Run(cfg, Run(cfg, Run(cfg, s, a), b), c)
  {
    RunAppend(cfg, s, a, b);
    RunAppend(cfg, s, a + b, c);
  }
}
