/**
 What a pairing entry tells, in every run of the service: which event ends its waiting and as what, and which
 events of the run its flags stand for.
 */
module PairingMeaning {
  import opened Text
  import opened Trust
  import opened Pairing

  // ---- which connections are admitted ----

  lemma CeremonyPasses(cfg: Config, e: Event, m: Material)
    requires IsDigest(cfg.sum) && e.Register? && ValidPairID(m.id) && ValidCode(m.code) && ValidPeer(cfg, e.peer)
    ensures ValidCeremony(cfg, CeremonyFor(cfg, e, m)) <==> e.now != 0 && cfg.lifetime > 0
  {}

  lemma DerivedPasses(cfg: Config, e: Event)
    requires IsDigest(cfg.sum) && e.Register? && DerivedFor(cfg, e).Some?
    ensures ValidPairID(DerivedFor(cfg, e).value.id) && ValidCode(DerivedFor(cfg, e).value.code)
  {}

  lemma AdmittedIf(cfg: Config, e: Event)
    requires IsDigest(cfg.sum) && e.Register?
    ensures Admitted(cfg, e).Some? <==>
            ValidPeer(cfg, e.peer) && RolesFit(cfg, e) && !e.conflict && DerivedFor(cfg, e).Some? &&
            ValidCeremony(cfg, CeremonyFor(cfg, e, DerivedFor(cfg, e).value))
    ensures Admitted(cfg, e).Some? ==> Admitted(cfg, e).value == CeremonyFor(cfg, e, DerivedFor(cfg, e).value)
  {}

  /**
   Exactly which connections are admitted: from a peer that is what it says, in the opposite role, without a conflict
   and with material to derive. The ceremony is that material, that peer and a lifetime from now.
   */
  lemma AdmittedExactly(cfg: Config, e: Event)
    requires IsDigest(cfg.sum) && e.Register?
    ensures Admitted(cfg, e).Some? <==>
            ValidPeer(cfg, e.peer) && RolesFit(cfg, e) && !e.conflict && DerivedFor(cfg, e).Some? &&
            e.now != 0 && cfg.lifetime > 0
    ensures Admitted(cfg, e).Some? ==>
              Admitted(cfg, e).value ==
              Ceremony(DerivedFor(cfg, e).value, e.peer, e.direction, e.now, e.now + cfg.lifetime)
  {
    AdmittedIf(cfg, e);
    if DerivedFor(cfg, e).Some? && ValidPeer(cfg, e.peer) { DerivedCeremony(cfg, e, DerivedFor(cfg, e).value); }
  }

  lemma DerivedCeremony(cfg: Config, e: Event, m: Material)
    requires IsDigest(cfg.sum) && e.Register? && DerivedFor(cfg, e) == Some(m) && ValidPeer(cfg, e.peer)
    ensures ValidCeremony(cfg, CeremonyFor(cfg, e, m)) <==> e.now != 0 && cfg.lifetime > 0
  {
    DerivedPasses(cfg, e);
    CeremonyPasses(cfg, e, m);
  }

  // ---- how waiting ends ----

  /** The time at which the event prunes, if it does. */
  function PrunesAt(cfg: Config, e: Event): Option<int>
    requires IsDigest(cfg.sum)
  {
    match e
    case Register(_, _, _, _, _, locked) => if Admitted(cfg, e).Some? then Some(locked) else None
    case Decide(_, _, now) => Some(now)
    case List(now) => Some(now)
    case _ => None
  }

  predicate RunsOut(v: Value, at: Option<int>) { at.Some? && v.ceremony.expiresAt <= at.value }

  /** Long enough after its end the entry is not even listed any more. */
  predicate Removed(v: Value, at: Option<int>, lifetime: int) {
    RunsOut(v, at) && at.value > v.ceremony.expiresAt + lifetime
  }

  function FailedWith(v: Value, text: string): Value { v.(state := Failed, failure := text) }

  /** What the event makes of a waiting entry, if it ends the waiting. */
  function Verdict(cfg: Config, s: Service, e: Event, id: string): Option<Value>
    requires IsDigest(cfg.sum) && Waits(s, id)
  {
    var v := s.pairings[id].value;
    if RunsOut(v, PrunesAt(cfg, e)) then Some(v.(state := Expired))
    else
      match e
      case Decide(x, confirmed, _) =>
        if x == id && !confirmed && !s.pairings[id].activating then Some(v.(state := Rejected)) else None
      case Receive(x, d) =>
        if x != id then None
        else if d.id != id then Some(FailedWith(v, PROTOCOL))
        else if !d.confirmed then Some(v.(state := Rejected))
        else None
      case ReceiveFailed(x, deadline) =>
        if x != id then None else if deadline then Some(v.(state := Expired)) else Some(FailedWith(v, CLOSED))
      case SendFailed(x, text) => if x == id then Some(FailedWith(v, text)) else None
      case End(x, error) =>
        if x != id || id !in s.flying then None
        else if error.Some? then Some(FailedWith(v, error.value))
        else Some(v.(state := Paired))
      case _ => None
  }

  /** The entry goes on waiting, or ends as the verdict says. */
  predicate EndsAs(t: Service, id: string, verdict: Option<Value>, removed: bool) {
    (id in t.pairings <==> !removed) &&
    (id in t.pairings ==>
       (Waits(t, id) <==> verdict.None?) && (verdict.Some? ==> t.pairings[id].value == verdict.value))
  }

  lemma PruneEnds(s: Service, now: int, lifetime: int, id: string)
    requires Waits(s, id)
    ensures var v := s.pairings[id].value;
            EndsAs(Pruned(s, now, lifetime), id, if RunsOut(v, Some(now)) then Some(v.(state := Expired)) else None,
                   Removed(v, Some(now), lifetime))
    ensures !RunsOut(s.pairings[id].value, Some(now)) ==> Pruned(s, now, lifetime).pairings[id] == s.pairings[id]
  {}

  lemma InsertEnds(s: Service, c: Ceremony, now: int, lifetime: int, id: string)
    requires Waits(s, id) && c.material.id != id
    ensures Insert(s, c, now, lifetime).pairings.Keys <= Pruned(s, now, lifetime).pairings.Keys + {c.material.id}
    ensures id in Insert(s, c, now, lifetime).pairings <==> id in Pruned(s, now, lifetime).pairings
    ensures id in Pruned(s, now, lifetime).pairings ==>
              Insert(s, c, now, lifetime).pairings[id] == Pruned(s, now, lifetime).pairings[id]
  {}

  lemma DecideEnds(cfg: Config, s: Service, x: string, confirmed: bool, now: int, id: string)
    requires IsDigest(cfg.sum) && Waits(s, id)
    ensures EndsAs(DecideStep(s, x, confirmed, now, cfg.lifetime), id, Verdict(cfg, s, Decide(x, confirmed, now), id),
                   Removed(s.pairings[id].value, Some(now), cfg.lifetime))
  {
    PruneEnds(s, now, cfg.lifetime, id);
  }

  lemma RegisterEnds(cfg: Config, s: Service, e: Event, id: string)
    requires IsDigest(cfg.sum) && Waits(s, id) && e.Register? && id in s.seen && Legal(cfg, s, e)
    ensures EndsAs(Step(cfg, s, e), id, Verdict(cfg, s, e, id),
                   Removed(s.pairings[id].value, PrunesAt(cfg, e), cfg.lifetime))
  {
    var c := Admitted(cfg, e);
    if c.Some? {
      PruneEnds(s, e.locked, cfg.lifetime, id);
      InsertEnds(s, c.value, e.locked, cfg.lifetime, id);
    }
  }

  lemma QuietEnds(cfg: Config, s: Service, e: Event, id: string)
    requires IsDigest(cfg.sum) && Waits(s, id) && (e.Receive? || e.ReceiveFailed? || e.SendFailed?)
    ensures EndsAs(Step(cfg, s, e), id, Verdict(cfg, s, e, id), false)
  {}

  lemma ActivateEnds(cfg: Config, s: Service, e: Event, id: string)
    requires IsDigest(cfg.sum) && Waits(s, id) && (e.Begin? || e.End?)
    ensures EndsAs(Step(cfg, s, e), id, Verdict(cfg, s, e, id), false)
  {}

  /** Every event either leaves a waiting entry waiting or ends it exactly as the verdict says. */
  lemma StepEnds(cfg: Config, s: Service, e: Event, id: string)
    requires IsDigest(cfg.sum) && Inv(c => true, s) && Legal(cfg, s, e) && Waits(s, id)
    ensures EndsAs(Step(cfg, s, e), id, Verdict(cfg, s, e, id),
                   Removed(s.pairings[id].value, PrunesAt(cfg, e), cfg.lifetime))
  {
    match e
    case Register(_, _, _, _, _, _) =>
      EntriesSeen(s, id);
      RegisterEnds(cfg, s, e, id);
    case Decide(x, confirmed, now) => DecideEnds(cfg, s, x, confirmed, now, id);
    case List(now) => PruneEnds(s, now, cfg.lifetime, id);
    case Begin(_) => ActivateEnds(cfg, s, e, id);
    case End(_, _) => ActivateEnds(cfg, s, e, id);
    case _ => QuietEnds(cfg, s, e, id);
  }

  lemma StillNoCall(cfg: Config, s: Service, e: Event, id: string)
    requires IsDigest(cfg.sum) && !Waits(s, id)
    ensures id in Step(cfg, s, e).calls <==> id in s.calls
  {}

  lemma {:induction false} StillForever(cfg: Config, es: seq<Event>, k: nat, v: Value, id: string)
    requires IsDigest(cfg.sum) && LegalRun(cfg, INITIAL, es) && k <= |es|
    requires Still(v, Run(cfg, INITIAL, es[..k]), id)
    ensures Still(v, Run(cfg, INITIAL, es), id)
    ensures id in Run(cfg, INITIAL, es).calls <==> id in Run(cfg, INITIAL, es[..k]).calls
    decreases |es|
  {
    if k == |es| {
      assert es[..k] == es;
    } else {
      var init := es[..|es| - 1];
      assert init[..k] == es[..k];
      StillForever(cfg, init, k, v, id);
      StepStill(cfg, Run(cfg, INITIAL, init), es[|es| - 1], v, id);
      StillNoCall(cfg, Run(cfg, INITIAL, init), es[|es| - 1], id);
    }
  }

  lemma {:induction false} LegalPrefix(cfg: Config, es: seq<Event>, k: nat)
    requires IsDigest(cfg.sum) && LegalRun(cfg, INITIAL, es) && k <= |es|
    ensures LegalRun(cfg, INITIAL, es[..k])
    decreases |es|
  {
    if k == |es| {
      assert es[..k] == es;
    } else {
      assert es[..|es| - 1][..k] == es[..k];
      LegalPrefix(cfg, es[..|es| - 1], k);
    }
  }

  lemma RunNext(cfg: Config, es: seq<Event>, k: nat)
    requires IsDigest(cfg.sum) && LegalRun(cfg, INITIAL, es) && k < |es|
    ensures Run(cfg, INITIAL, es[..k + 1]) == Step(cfg, Run(cfg, INITIAL, es[..k]), es[k])
    ensures LegalRun(cfg, INITIAL, es[..k]) && Legal(cfg, Run(cfg, INITIAL, es[..k]), es[k])
  {
    LegalPrefix(cfg, es, k + 1);
    assert es[..k + 1][..k] == es[..k];
  }

  /**
   In every run: the event that ends the waiting of an entry gives it its verdict, which then stands for as long as
   the entry is listed; and if `Activate` had not been called by then it never is.
   */
  lemma VerdictStands(cfg: Config, es: seq<Event>, k: nat, id: string)
    requires IsDigest(cfg.sum) && LegalRun(cfg, INITIAL, es) && k < |es|
    requires Waits(Run(cfg, INITIAL, es[..k]), id) && Verdict(cfg, Run(cfg, INITIAL, es[..k]), es[k], id).Some?
    ensures var s := Run(cfg, INITIAL, es[..k]);
            var v := Verdict(cfg, s, es[k], id).value;
            var next, last := Run(cfg, INITIAL, es[..k + 1]), Run(cfg, INITIAL, es);
            (id in next.pairings <==> !Removed(s.pairings[id].value, PrunesAt(cfg, es[k]), cfg.lifetime)) &&
            (id in next.pairings ==> next.pairings[id].value == v) &&
            Frozen(v, last, id) && !Waits(last, id) && (id !in s.calls ==> id !in last.calls)
  {
    var s := Run(cfg, INITIAL, es[..k]);
    var v := Verdict(cfg, s, es[k], id).value;
    RunNext(cfg, es, k);
    RunInv(cfg, c => true, es[..k]);
    StepEnds(cfg, s, es[k], id);
    EntriesSeen(s, id);
    StepEntries(cfg, s, es[k], id);
    OnlyBegin(cfg, s, es[k], id);
    StillForever(cfg, es, k + 1, v, id);
  }

  lemma OnlyBegin(cfg: Config, s: Service, e: Event, id: string)
    requires IsDigest(cfg.sum) && !e.Begin?
    ensures Step(cfg, s, e).calls == s.calls
  {}

  // ---- what the flags stand for ----

  /** At this event the user's confirmation is recorded. */
  predicate Says(cfg: Config, s: Service, e: Event, id: string) {
    e.Decide? && e.id == id && e.confirmed && Undecided(s, id) && s.pairings[id].value.ceremony.expiresAt > e.now
  }

  /** At this event the peer's confirmation arrives while the entry waits. */
  predicate Hears(s: Service, e: Event, id: string) {
    e.Receive? && e.id == id && e.decision.id == id && e.decision.confirmed && Waits(s, id)
  }

  /** At this event the peer's commit arrives for an entry that is listed. */
  predicate HearsCommit(s: Service, e: Event, id: string) {
    e.Receive? && e.id == id && e.decision.id == id && e.decision.confirmed && e.decision.committed && id in s.pairings
  }

  datatype Told = Told(local: bool, remote: bool, committed: bool)

  const NOTHING := Told(false, false, false)

  /** What the run has told about the ID. */
  function ToldBy(cfg: Config, es: seq<Event>, id: string): Told
    requires IsDigest(cfg.sum)
  {
    if es == [] then NOTHING
    else
      var s, e, t := Run(cfg, INITIAL, es[..|es| - 1]), es[|es| - 1], ToldBy(cfg, es[..|es| - 1], id);
      Told(t.local || Says(cfg, s, e, id), t.remote || Hears(s, e, id), t.committed || HearsCommit(s, e, id))
  }

  function Shown(entry: Entry): Told { Told(entry.value.local, entry.value.remote, entry.remoteCommitted) }

  /** The flags of an entry after the event are those before it and what the event tells. */
  predicate FlagsFollow(cfg: Config, s: Service, e: Event, t: Service, id: string) {
    id in t.pairings ==>
      if id in s.pairings then
        Shown(t.pairings[id]) == Told(s.pairings[id].value.local || Says(cfg, s, e, id),
                                      s.pairings[id].value.remote || Hears(s, e, id),
                                      s.pairings[id].remoteCommitted || HearsCommit(s, e, id))
      else Shown(t.pairings[id]) == NOTHING && e.Register?
  }

  lemma InsertFlags(cfg: Config, s: Service, c: Ceremony, e: Event, now: int, lifetime: int, id: string)
    requires e.Register? && c.material.id !in s.pairings
    ensures FlagsFollow(cfg, s, e, Insert(s, c, now, lifetime), id)
  {}

  lemma DecideFlags(cfg: Config, s: Service, x: string, confirmed: bool, now: int, id: string)
    ensures FlagsFollow(cfg, s, Decide(x, confirmed, now), DecideStep(s, x, confirmed, now, cfg.lifetime), id)
  {}

  lemma ReceiveFlags(cfg: Config, s: Service, x: string, d: Decision, id: string)
    ensures FlagsFollow(cfg, s, Receive(x, d), ReceiveStep(s, x, d), id)
  {}

  lemma QuietFlags(cfg: Config, s: Service, e: Event, id: string)
    requires IsDigest(cfg.sum) && (e.ReceiveFailed? || e.SendFailed? || e.List?)
    ensures FlagsFollow(cfg, s, e, Step(cfg, s, e), id)
  {}

  lemma ActivateFlags(cfg: Config, s: Service, e: Event, id: string)
    requires IsDigest(cfg.sum) && (e.Begin? || e.End?)
    ensures FlagsFollow(cfg, s, e, Step(cfg, s, e), id)
  {}

  lemma StepFlags(cfg: Config, s: Service, e: Event, id: string)
    requires IsDigest(cfg.sum) && Inv(c => true, s) && Legal(cfg, s, e)
    ensures FlagsFollow(cfg, s, e, Step(cfg, s, e), id)
  {
    match e
    case Register(_, _, _, _, _, locked) =>
      var c := Admitted(cfg, e);
      if c.Some? {
        if c.value.material.id in s.pairings { EntriesSeen(s, c.value.material.id); }
        InsertFlags(cfg, s, c.value, e, locked, cfg.lifetime, id);
      }
    case Decide(x, confirmed, now) => DecideFlags(cfg, s, x, confirmed, now, id);
    case Receive(x, d) => ReceiveFlags(cfg, s, x, d, id);
    case Begin(_) => ActivateFlags(cfg, s, e, id);
    case End(_, _) => ActivateFlags(cfg, s, e, id);
    case _ => QuietFlags(cfg, s, e, id);
  }

  /** Whatever was told was told about an ID that had been registered. */
  lemma {:induction false} ToldSeen(cfg: Config, es: seq<Event>, id: string)
    requires IsDigest(cfg.sum) && LegalRun(cfg, INITIAL, es) && ToldBy(cfg, es, id) != NOTHING
    ensures id in Run(cfg, INITIAL, es).seen
  {
    var init := es[..|es| - 1];
    var s := Run(cfg, INITIAL, init);
    RunInv(cfg, c => true, init);
    if ToldBy(cfg, init, id) != NOTHING { ToldSeen(cfg, init, id); } else { EntriesSeen(s, id); }
    StepEntries(cfg, s, es[|es| - 1], id);
  }

  /**
   In every run the flags of a listed entry are exact: the user's confirmation was recorded, the peer's arrived while
   the entry was waiting, and the peer announced its commit.
   */
  lemma {:induction false} FlagsExactly(cfg: Config, es: seq<Event>, id: string)
    requires IsDigest(cfg.sum) && LegalRun(cfg, INITIAL, es) && id in Run(cfg, INITIAL, es).pairings
    ensures Shown(Run(cfg, INITIAL, es).pairings[id]) == ToldBy(cfg, es, id)
  {
    if es == [] {
    } else {
      var init, e := es[..|es| - 1], es[|es| - 1];
      var s := Run(cfg, INITIAL, init);
      RunInv(cfg, c => true, init);
      StepFlags(cfg, s, e, id);
      StepEntries(cfg, s, e, id);
      if id in s.pairings {
        FlagsExactly(cfg, init, id);
      } else if ToldBy(cfg, init, id) != NOTHING {
        ToldSeen(cfg, init, id);
      }
    }
  }
}
