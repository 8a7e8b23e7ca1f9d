/**
 The ceremony can complete: whenever the two devices can authenticate each other,
 some possible run ends with both sides paired. What module `PairingNetwork` proves
 about all runs is therefore not proved about none.
 */
module PairingCompletion {
  import opened Text
  import opened Trust
  import opened Pairing
  import opened PairingNetwork

  lemma Extend(w: World, ms: seq<Move>, m: Move)
    requires ValidWorld(w) && PossiblePlay(w, ms) && Possible(w, Play(w, ms), m)
    ensures PossiblePlay(w, ms + [m]) && Play(w, ms + [m]) == Next(w, Play(w, ms), m)
  {
    assert (ms + [m])[..|ms|] == ms;
  }

  /** The side holds an entry that waits until then and is not being activated. */
  predicate Open(n: Network, side: Side, id: string, until: int) {
    var s := At(n, side).service;
    Undecided(s, id) && s.pairings[id].value.ceremony.expiresAt == until && id !in s.flying
  }

  predicate Confirmed(n: Network, side: Side, id: string, until: int) {
    Open(n, side, id, until) && At(n, side).service.pairings[id].value.local
  }

  predicate Done(n: Network, side: Side, id: string) {
    var s := At(n, side).service;
    id in s.pairings && s.pairings[id].value.state == Paired && id in s.pins
  }

  /** The other device is as it was. */
  predicate Untouched(n: Network, n': Network, side: Side) {
    At(n', Other(side)) == At(n, Other(side)) && At(n', side).inbox == At(n, side).inbox
  }

  lemma FirstEntry(c: Ceremony, now: int, lifetime: int)
    ensures var s := Insert(INITIAL, c, now, lifetime);
            s.pairings == map[c.material.id := Fresh(c)] && s.flying == {}
  {
    assert Prune(map[], now, lifetime) == map[];
    assert WaitingIDs(map[]) == {};
  }

  ghost predicate CanMeet(w: World) {
    ValidWorld(w) && w.leftLifetime > 0 && w.rightLifetime > 0 && w.orchestrator.id != w.worker.id &&
    ValidPeer(ConfigOf(w, Left), w.worker) && ValidPeer(ConfigOf(w, Right), w.orchestrator)
  }

  lemma MaterialExists(w: World, binding: seq<Byte>)
    requires CanMeet(w) && |binding| == BINDING_BYTES
    ensures Agreed(w, binding).Some?
  {}

  lemma MaterialFits(w: World, binding: seq<Byte>)
    requires IsDigest(w.sum) && Agreed(w, binding).Some?
    ensures ValidPairID(Agreed(w, binding).value.id) && ValidCode(Agreed(w, binding).value.code)
  {}

  lemma CeremonyValid(cfg: Config, c: Ceremony)
    requires IsDigest(cfg.sum) && ValidPeer(cfg, c.peer) && c.startedAt != 0 && c.expiresAt > c.startedAt
    requires ValidPairID(c.material.id) && ValidCode(c.material.code)
    ensures ValidCeremony(cfg, c)
  {}

  lemma AdmitsValid(cfg: Config, e: Event, m: Material)
    requires IsDigest(cfg.sum) && e.Register? && DerivedFor(cfg, e) == Some(m) &&
             ValidCeremony(cfg, CeremonyFor(cfg, e, m))
    requires RolesFit(cfg, e) && !e.conflict
    ensures Admitted(cfg, e) == Some(CeremonyFor(cfg, e, m))
  {}

  /** Either side admits the connection, with the material both derive from it. */
  lemma Admits(w: World, side: Side, binding: seq<Byte>, t: int)
    requires CanMeet(w) && Agreed(w, binding).Some? && t != 0
    ensures var c := Admitted(ConfigOf(w, side), JoinEvent(w, Join(side, binding, false, t, t)));
            c.Some? && c.value.material == Agreed(w, binding).value &&
            c.value.expiresAt == t + ConfigOf(w, side).lifetime
  {
    MaterialFits(w, binding);
    var cfg, e, m := ConfigOf(w, side), JoinEvent(w, Join(side, binding, false, t, t)), Agreed(w, binding).value;
    CeremonyValid(cfg, CeremonyFor(cfg, e, m));
    AdmitsValid(cfg, e, m);
  }

  lemma FirstIsOpen(n: Network, side: Side, c: Ceremony, now: int, lifetime: int)
    requires At(n, side).service == Insert(INITIAL, c, now, lifetime)
    ensures Open(n, side, c.material.id, c.expiresAt)
  {
    FirstEntry(c, now, lifetime);
  }

  lemma EnteredIs(n: Network, side: Side, c: Ceremony, binding: seq<Byte>, now: int, lifetime: int)
    requires At(n, side).service == INITIAL
    ensures var n' := Entered(n, side, c, binding, now, lifetime);
            At(n', side).service == Insert(INITIAL, c, now, lifetime) && Untouched(n, n', side) &&
            n'.links == n.links[c.material.id := binding]
  {}

  /** The connection is registered on one side. */
  lemma Enter(w: World, ms: seq<Move>, side: Side, m: Move, c: Ceremony) returns (ms': seq<Move>)
    requires ValidWorld(w) && PossiblePlay(w, ms) && At(Play(w, ms), side).service == INITIAL
    requires m.Join? && m.side == side && Admitted(ConfigOf(w, side), JoinEvent(w, m)) == Some(c)
    requires var links := Play(w, ms).links; c.material.id in links ==> links[c.material.id] == m.binding
    ensures var n, n' := Play(w, ms), Play(w, ms');
            PossiblePlay(w, ms') && Untouched(n, n', side) && n'.links == n.links[c.material.id := m.binding] &&
            Open(n', side, c.material.id, c.expiresAt)
  {
    Extend(w, ms, m);
    JoinIs(w, Play(w, ms), m, c);
    EnteredIs(Play(w, ms), side, c, m.binding, m.locked, ConfigOf(w, side).lifetime);
    ms' := ms + [m];
    FirstIsOpen(Play(w, ms'), side, c, m.locked, ConfigOf(w, side).lifetime);
  }

  lemma StaysOpen(s: Service, id: string, t: int, lifetime: int)
    requires Undecided(s, id) && s.pairings[id].value.ceremony.expiresAt > t
    ensures var s' := DecideStep(s, id, true, t, lifetime);
            Undecided(s', id) && s'.pairings[id].value.local && id in s'.confirms && s'.flying == s.flying &&
            s'.pairings[id].value.ceremony == s.pairings[id].value.ceremony
  {}

  /** One user confirms, and the decision is on its way. */
  lemma Agree(w: World, ms: seq<Move>, side: Side, id: string, t: int, until: int) returns (ms': seq<Move>)
    requires ValidWorld(w) && PossiblePlay(w, ms) && Open(Play(w, ms), side, id, until) && t < until
    ensures var n, n' := Play(w, ms), Play(w, ms');
            PossiblePlay(w, ms') && Confirmed(n', side, id, until) && n'.links == n.links &&
            At(n', Other(side)).service == At(n, Other(side)).service && At(n', side).inbox == At(n, side).inbox &&
            Queue(At(n', Other(side)), id) == Queue(At(n, Other(side)), id) + [Decision(id, true, false)]
  {
    var n := Play(w, ms);
    StaysOpen(At(n, side).service, id, t, ConfigOf(w, side).lifetime);
    var m1, m2 := Act(side, Decide(id, true, t)), Transmit(side, Decision(id, true, false));
    Extend(w, ms, m1);
    Extend(w, ms + [m1], m2);
    ms' := ms + [m1] + [m2];
  }

  lemma Activates(s: Service, id: string)
    requires Undecided(s, id) && s.pairings[id].value.local && id !in s.flying
    ensures var s1 := ReceiveStep(s, id, Decision(id, true, false));
            var s2 := EndStep(BeginStep(s1, id), id, None);
            MayActivate(s1, id) && id in s2.pairings && s2.pairings[id].value.state == Paired && id in s2.pins
  {}

  /** The peer's confirmation arrives, and this side activates. */
  lemma Finish(w: World, ms: seq<Move>, side: Side, id: string, until: int) returns (ms': seq<Move>)
    requires ValidWorld(w) && PossiblePlay(w, ms) && Confirmed(Play(w, ms), side, id, until)
    requires Queue(At(Play(w, ms), side), id) == [Decision(id, true, false)]
    ensures var n, n' := Play(w, ms), Play(w, ms');
            PossiblePlay(w, ms') && Done(n', side, id) && At(n', Other(side)) == At(n, Other(side))
  {
    var n := Play(w, ms);
    Activates(At(n, side).service, id);
    var m1, m2, m3 := Deliver(side, id), Act(side, Begin(id)), Act(side, End(id, None));
    Extend(w, ms, m1);
    Extend(w, ms + [m1], m2);
    Extend(w, ms + [m1] + [m2], m3);
    ms' := ms + [m1] + [m2] + [m3];
  }

  /** Both sides register the connection. */
  lemma Meet(w: World, binding: seq<Byte>, t: int) returns (ms: seq<Move>)
    requires CanMeet(w) && Agreed(w, binding).Some? && t != 0
    ensures var id := Agreed(w, binding).value.id;
            var n := Play(w, ms);
            PossiblePlay(w, ms) && n.left.inbox == n.right.inbox == map[] &&
            Open(n, Left, id, t + w.leftLifetime) && Open(n, Right, id, t + w.rightLifetime)
  {
    Admits(w, Left, binding, t);
    Admits(w, Right, binding, t);
    var l, r := Join(Left, binding, false, t, t), Join(Right, binding, false, t, t);
    ms := Enter(w, [], Left, l, Admitted(ConfigOf(w, Left), JoinEvent(w, l)).value);
    ms := Enter(w, ms, Right, r, Admitted(ConfigOf(w, Right), JoinEvent(w, r)).value);
  }

  /** Both users have confirmed, and each decision waits at the other device. */
  predicate Consented(n: Network, id: string, left: int, right: int) {
    Queue(n.left, id) == [Decision(id, true, false)] && Queue(n.right, id) == [Decision(id, true, false)] &&
    Confirmed(n, Left, id, left) && Confirmed(n, Right, id, right)
  }

  lemma BothAgree(w: World, start: seq<Move>, id: string, t: int, left: int, right: int) returns (ms: seq<Move>)
    requires ValidWorld(w) && PossiblePlay(w, start) && t < left && t < right
    requires Open(Play(w, start), Left, id, left) && Open(Play(w, start), Right, id, right)
    requires var n := Play(w, start); n.left.inbox == n.right.inbox == map[]
    ensures PossiblePlay(w, ms) && Consented(Play(w, ms), id, left, right)
  {
    ms := Agree(w, start, Left, id, t, left);
    ms := Agree(w, ms, Right, id, t, right);
  }

  lemma Consent(w: World, binding: seq<Byte>, t: int) returns (ms: seq<Move>)
    requires CanMeet(w) && Agreed(w, binding).Some? && t != 0
    ensures PossiblePlay(w, ms)
    ensures Consented(Play(w, ms), Agreed(w, binding).value.id, t + w.leftLifetime, t + w.rightLifetime)
  {
    var start := Meet(w, binding, t);
    ms := BothAgree(w, start, Agreed(w, binding).value.id, t, t + w.leftLifetime, t + w.rightLifetime);
  }

  /** Two devices that can authenticate each other can pair, on any connection. */
  lemma CeremonyCompletes(w: World, binding: seq<Byte>, t: int) returns (ms: seq<Move>)
    requires CanMeet(w) && |binding| == BINDING_BYTES && t != 0
    ensures Agreed(w, binding).Some? && PossiblePlay(w, ms)
    ensures Done(Play(w, ms), Left, Agreed(w, binding).value.id) &&
            Done(Play(w, ms), Right, Agreed(w, binding).value.id)
  {
    MaterialExists(w, binding);
    var start := Consent(w, binding, t);
    ms := BothFinish(w, start, Agreed(w, binding).value.id, t + w.leftLifetime, t + w.rightLifetime);
  }

  lemma BothFinish(w: World, start: seq<Move>, id: string, left: int, right: int) returns (ms: seq<Move>)
    requires ValidWorld(w) && PossiblePlay(w, start) && Consented(Play(w, start), id, left, right)
    ensures PossiblePlay(w, ms) && Done(Play(w, ms), Left, id) && Done(Play(w, ms), Right, id)
  {
    ms := Finish(w, start, Right, id, right);
    ms := Finish(w, ms, Left, id, left);
  }

  // ---- a pin without Paired ----

  predicate PinnedButExpired(s: Service, id: string) {
    id in s.pins && id in s.pairings && s.pairings[id].value.state == Expired
  }

  /** `Activate` is under way for an entry that waits until then. */
  predicate InFlight(s: Service, id: string, until: int) {
    Waits(s, id) && id in s.flying && s.pairings[id].value.ceremony.expiresAt == until
  }

  lemma Launches(s: Service, id: string)
    requires Undecided(s, id) && s.pairings[id].value.local
    ensures InFlight(BeginStep(ReceiveStep(s, id, Decision(id, true, false)), id), id,
                     s.pairings[id].value.ceremony.expiresAt)
  {}

  lemma ExpiresInGap(s: Service, id: string, until: int, late: int, lifetime: int)
    requires InFlight(s, id, until) && until <= late <= until + lifetime
    ensures PinnedButExpired(EndStep(Pruned(s, late, lifetime), id, None), id)
  {
    assert id in Prune(s.pairings, late, lifetime);
  }

  lemma Launch(w: World, ms: seq<Move>, id: string, until: int) returns (ms': seq<Move>)
    requires ValidWorld(w) && PossiblePlay(w, ms) && Confirmed(Play(w, ms), Right, id, until)
    requires Queue(Play(w, ms).right, id) == [Decision(id, true, false)]
    ensures PossiblePlay(w, ms') && InFlight(Play(w, ms').right.service, id, until)
  {
    Launches(Play(w, ms).right.service, id);
    var m1, m2 := Deliver(Right, id), Act(Right, Begin(id));
    Extend(w, ms, m1);
    Extend(w, ms + [m1], m2);
    ms' := ms + [m1] + [m2];
  }

  lemma Overrun(w: World, ms: seq<Move>, id: string, until: int, late: int) returns (ms': seq<Move>)
    requires ValidWorld(w) && PossiblePlay(w, ms) && InFlight(Play(w, ms).right.service, id, until)
    requires until <= late <= until + w.rightLifetime
    ensures PossiblePlay(w, ms') && PinnedButExpired(Play(w, ms').right.service, id)
  {
    ExpiresInGap(Play(w, ms).right.service, id, until, late, w.rightLifetime);
    var m1, m2 := Act(Right, List(late)), Act(Right, End(id, None));
    Extend(w, ms, m1);
    Extend(w, ms + [m1], m2);
    ms' := ms + [m1] + [m2];
  }

  /**
   A pin does not imply Paired, in a run that can happen: the ceremony expires while `Activate` is under
   way, and the device ends up pinned under an entry that shows Expired.
   */
  lemma PinnedWhileExpired(w: World, binding: seq<Byte>, t: int, late: int) returns (ms: seq<Move>)
    requires CanMeet(w) && |binding| == BINDING_BYTES && t != 0
    requires t + w.rightLifetime <= late <= t + 2 * w.rightLifetime
    ensures Agreed(w, binding).Some? && PossiblePlay(w, ms)
    ensures PinnedButExpired(Play(w, ms).right.service, Agreed(w, binding).value.id)
  {
    MaterialExists(w, binding);
    ms := Consent(w, binding, t);
    ms := Launch(w, ms, Agreed(w, binding).value.id, t + w.rightLifetime);
    ms := Overrun(w, ms, Agreed(w, binding).value.id, t + w.rightLifetime, late);
  }
}
