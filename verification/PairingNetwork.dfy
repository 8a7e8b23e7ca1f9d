/**
 An orchestrator and a worker running the same ceremony code against each other:
 two services, one FIFO of decisions per direction and ceremony. Moves
 interleave freely, so every schedule of the two daemons' goroutines is a run.
 */
module PairingNetwork {
  import opened Text
  import opened Trust
  import opened Pairing

  datatype Side = Left | Right

  datatype Host = Host(service: Service, inbox: map<string, seq<Decision>>)

  /** `links` remembers which TLS connection produced each pair ID. */
  datatype Network = Network(left: Host, right: Host, links: map<string, seq<Byte>>)

  /** The left device is the orchestrator, hence the initiator. */
  datatype World = World(sum: Sum, orchestrator: Peer, worker: Peer, leftLifetime: int, rightLifetime: int)

  datatype Move =
    | Join(side: Side, binding: seq<Byte>, conflict: bool, now: int, locked: int)
    | Act(side: Side, event: Event)
    | Transmit(side: Side, decision: Decision)
    | Deliver(side: Side, id: string)

  ghost predicate ValidWorld(w: World) {
    IsDigest(w.sum) && w.orchestrator.role == Orchestrator && w.worker.role == Worker
  }

  function Other(side: Side): Side { if side == Left then Right else Left }

  function At(n: Network, side: Side): Host { if side == Left then n.left else n.right }

  function Place(n: Network, side: Side, h: Host): Network {
    if side == Left then n.(left := h) else n.(right := h)
  }

  function ConfigOf(w: World, side: Side): Config {
    if side == Left then Config(w.sum, w.orchestrator, w.leftLifetime) else Config(w.sum, w.worker, w.rightLifetime)
  }

  function DeviceAt(w: World, side: Side): Peer { if side == Left then w.orchestrator else w.worker }

  /** `Begin` on the orchestrator, `Accept` on the worker: the peer is authenticated by the connection. */
  function JoinEvent(w: World, m: Move): Event
    requires m.Join?
  {
    var direction := if m.side == Left then Outbound else Inbound;
    Register(direction, DeviceAt(w, Other(m.side)), m.binding, m.conflict, m.now, m.locked)
  }

  /** What both ends derive from one connection. */
  function Agreed(w: World, binding: seq<Byte>): Option<Material>
    requires IsDigest(w.sum)
  {
    Derive(w.sum, binding, w.orchestrator.id, w.worker.id)
  }

  function Drive(w: World, n: Network, side: Side, e: Event): Network
    requires IsDigest(w.sum)
  {
    Place(n, side, At(n, side).(service := Step(ConfigOf(w, side), At(n, side).service, e)))
  }

  function Queue(h: Host, id: string): seq<Decision> { if id in h.inbox then h.inbox[id] else [] }

  function Next(w: World, n: Network, m: Move): Network
    requires IsDigest(w.sum)
  {
    match m
    case Join(side, binding, _, _, _) =>
      var c := Admitted(ConfigOf(w, side), JoinEvent(w, m));
      if c.None? then n
      else Drive(w, n, side, JoinEvent(w, m)).(links := n.links[c.value.material.id := binding])
    case Act(side, e) => Drive(w, n, side, e)
    case Transmit(side, d) =>
      var h := At(n, Other(side));
      Place(n, Other(side), h.(inbox := h.inbox[d.id := Queue(h, d.id) + [d]]))
    case Deliver(side, id) =>
      var h := At(n, side);
      var q := Queue(h, id);
      if q == [] then n
      else Drive(w, Place(n, side, h.(inbox := h.inbox[id := q[1..]])), side, Receive(id, q[0]))
  }

  /**
   Which moves can happen. Besides the environment of each service: a daemon
   transmits only decisions it has recorded, receives only through its queue,
   registers only its own connections, and two connections of the run do not
   collide on a pair ID (a SHA-256 collision).
   */
  predicate Possible(w: World, n: Network, m: Move)
    requires IsDigest(w.sum)
  {
    match m
    case Join(side, binding, _, _, _) =>
      var c := Admitted(ConfigOf(w, side), JoinEvent(w, m));
      c.Some? ==> c.value.material.id !in At(n, side).service.seen &&
                  (c.value.material.id in n.links ==> n.links[c.value.material.id] == binding)
    case Act(side, e) => !e.Register? && !e.Receive? && Legal(ConfigOf(w, side), At(n, side).service, e)
    case Transmit(side, d) => Justified(At(n, side).service, d)
    case Deliver(_, _) => true
  }

  const EMPTY := Network(Host(INITIAL, map[]), Host(INITIAL, map[]), map[])

  function Play(w: World, ms: seq<Move>): Network
    requires IsDigest(w.sum)
  {
    if ms == [] then EMPTY else Next(w, Play(w, ms[..|ms| - 1]), ms[|ms| - 1])
  }

  predicate PossiblePlay(w: World, ms: seq<Move>)
    requires IsDigest(w.sum)
  {
    ms == [] || (PossiblePlay(w, ms[..|ms| - 1]) && Possible(w, Play(w, ms[..|ms| - 1]), ms[|ms| - 1]))
  }

  // ---- the invariant ----

  /** The material an end derives from a connection, as a value the proofs need not look into. */
  type Agree = seq<Byte> -> Option<Material>

  /** The ceremony was derived from its own connection and names the true peer. */
  predicate Origin(agree: Agree, links: map<string, seq<Byte>>, peer: Peer, c: Ceremony) {
    c.material.id in links && agree(links[c.material.id]) == Some(c.material) && c.peer == peer
  }

  predicate EntryLinked(agree: Agree, links: map<string, seq<Byte>>, peer: Peer, o: Service, id: string, e: Entry) {
    Origin(agree, links, peer, e.value.ceremony) && e.value.ceremony.material.id == id &&
    (e.value.remote ==> id in o.confirms) && (e.remoteCommitted ==> id in o.pins)
  }

  predicate PinLinked(agree: Agree, links: map<string, seq<Byte>>, peer: Peer, o: Service, id: string, pin: Pin) {
    id in links && agree(links[id]).Some? && pin == Pin(id, peer, agree(links[id]).value.secret) && id in o.confirms
  }

  predicate CallsLinked(
    agree: Agree, links: map<string, seq<Byte>>, peer: Peer, o: Service, id: string, pins: seq<Pin>)
  {
    forall k :: 0 <= k < |pins| ==> PinLinked(agree, links, peer, o, id, pins[k])
  }

  predicate InboxJustified(o: Service, id: string, q: seq<Decision>) {
    forall k :: 0 <= k < |q| ==> q[k].id == id && Justified(o, q[k])
  }

  /** What one host may assume about itself, its queue and the other end `o`. */
  ghost predicate HostInv(agree: Agree, links: map<string, seq<Byte>>, peer: Peer, h: Host, o: Service) {
    Inv(c => true, h.service) &&
    (forall id :: id in h.service.pairings ==> EntryLinked(agree, links, peer, o, id, h.service.pairings[id])) &&
    (forall id :: id in h.service.calls ==> CallsLinked(agree, links, peer, o, id, h.service.calls[id])) &&
    (forall id :: id in h.inbox ==> InboxJustified(o, id, h.inbox[id]))
  }

  ghost predicate NetInv(agree: Agree, w: World, n: Network) {
    HostInv(agree, n.links, w.worker, n.left, n.right.service) &&
    HostInv(agree, n.links, w.orchestrator, n.right, n.left.service)
  }

  /** The other end only ever records more. */
  lemma OtherGrows(agree: Agree, links: map<string, seq<Byte>>, peer: Peer, h: Host, o: Service, p: Service)
    requires HostInv(agree, links, peer, h, o) && Grows(o, p)
    ensures HostInv(agree, links, peer, h, p)
  {
    forall id | id in h.service.pairings
      ensures EntryLinked(agree, links, peer, p, id, h.service.pairings[id])
    {
      assert EntryLinked(agree, links, peer, o, id, h.service.pairings[id]);
    }
    forall id | id in h.service.calls
      ensures CallsLinked(agree, links, peer, p, id, h.service.calls[id])
    {
      assert CallsLinked(agree, links, peer, o, id, h.service.calls[id]);
      forall k | 0 <= k < |h.service.calls[id]|
        ensures PinLinked(agree, links, peer, p, id, h.service.calls[id][k])
      {
        assert PinLinked(agree, links, peer, o, id, h.service.calls[id][k]);
      }
    }
    forall id | id in h.inbox
      ensures InboxJustified(p, id, h.inbox[id])
    {
      assert InboxJustified(o, id, h.inbox[id]);
    }
  }

  /**
   How a service evolves other than by registering: no new entry, the same
   ceremonies, remote flags only as heard, and a new `Activate` only for an
   entry that had heard the remote confirmation.
   */
  predicate Evolves(s: Service, t: Service, heard: set<string>, committed: set<string>) {
    Grows(s, t) &&
    (forall id :: id in t.pairings ==>
      id in s.pairings && t.pairings[id].value.ceremony == s.pairings[id].value.ceremony &&
      (t.pairings[id].value.remote ==> s.pairings[id].value.remote || id in heard) &&
      (t.pairings[id].remoteCommitted ==> s.pairings[id].remoteCommitted || id in committed)) &&
    (forall id :: id in t.calls ==>
      (id in s.calls && t.calls[id] == s.calls[id]) ||
      (id in s.pairings && s.pairings[id].value.remote && t.calls[id] == [PinFor(s.pairings[id].value.ceremony)]))
  }

  lemma BeginEvolves(s: Service, id: string)
    requires Inv(c => true, s)
    ensures Evolves(s, BeginStep(s, id), {}, {})
  {
    if MayActivate(s, id) {
      assert EntryInv(c => true, s, id, s.pairings[id]);
      assert [] + [PinFor(s.pairings[id].value.ceremony)] == [PinFor(s.pairings[id].value.ceremony)];
    }
  }

  lemma DecideEvolves(s: Service, id: string, confirmed: bool, now: int, lifetime: int)
    ensures Evolves(s, DecideStep(s, id, confirmed, now, lifetime), {}, {})
  {}

  lemma FailEvolves(s: Service, id: string, text: string)
    ensures Evolves(s, FailStep(s, id, text), {}, {})
  {}

  lemma SettleEvolves(s: Service, id: string, state: State)
    ensures Evolves(s, SettleStep(s, id, state), {}, {})
  {}

  lemma EndEvolves(s: Service, id: string, error: Option<string>)
    ensures Evolves(s, EndStep(s, id, error), {}, {})
  {}

  lemma StepEvolves(cfg: Config, s: Service, e: Event)
    requires IsDigest(cfg.sum) && Inv(c => true, s) && !e.Register? && !e.Receive?
    ensures Evolves(s, Step(cfg, s, e), {}, {})
  {
    match e
    case Begin(id) => BeginEvolves(s, id);
    case Decide(id, confirmed, now) => DecideEvolves(s, id, confirmed, now, cfg.lifetime);
    case ReceiveFailed(id, deadline) =>
      FailEvolves(s, id, CLOSED);
      SettleEvolves(s, id, Expired);
    case SendFailed(id, text) => FailEvolves(s, id, text);
    case End(id, error) => EndEvolves(s, id, error);
    case List(now) =>
  }

  lemma ReceiveEvolves(s: Service, id: string, d: Decision)
    ensures Evolves(s, ReceiveStep(s, id, d),
                    if d.confirmed then {d.id} else {}, if d.confirmed && d.committed then {d.id} else {})
  {}

  lemma EvolveKeeps(agree: Agree, links: map<string, seq<Byte>>, peer: Peer, h: Host, t: Service, o: Service,
                    heard: set<string>, committed: set<string>)
    requires HostInv(agree, links, peer, h, o) && Inv(c => true, t) && Evolves(h.service, t, heard, committed)
    requires heard <= o.confirms && committed <= o.pins
    ensures HostInv(agree, links, peer, h.(service := t), o)
  {
    var s := h.service;
    forall id | id in t.pairings
      ensures EntryLinked(agree, links, peer, o, id, t.pairings[id])
    {
      assert EntryLinked(agree, links, peer, o, id, s.pairings[id]);
    }
    forall id | id in t.calls
      ensures CallsLinked(agree, links, peer, o, id, t.calls[id])
    {
      if id in s.calls && t.calls[id] == s.calls[id] {
        assert CallsLinked(agree, links, peer, o, id, s.calls[id]);
      } else {
        assert EntryLinked(agree, links, peer, o, id, s.pairings[id]);
      }
    }
  }

  lemma InsertGrows(s: Service, c: Ceremony, now: int, lifetime: int)
    ensures Grows(s, Insert(s, c, now, lifetime))
  {}

  lemma InsertLinks(agree: Agree, links: map<string, seq<Byte>>, peer: Peer, s: Service, o: Service,
                    c: Ceremony, now: int, lifetime: int, id: string)
    requires forall x :: x in s.pairings ==> EntryLinked(agree, links, peer, o, x, s.pairings[x])
    requires Origin(agree, links, peer, c) && c.material.id !in s.seen
    requires id in Insert(s, c, now, lifetime).pairings
    ensures EntryLinked(agree, links, peer, o, id, Insert(s, c, now, lifetime).pairings[id])
  {
    if id in s.pairings { assert EntryLinked(agree, links, peer, o, id, s.pairings[id]); }
  }

  /** A newly admitted ceremony joins its link; nothing else is touched. */
  lemma InsertKeeps(agree: Agree, links: map<string, seq<Byte>>, peer: Peer, h: Host, o: Service,
                    c: Ceremony, now: int, lifetime: int)
    requires HostInv(agree, links, peer, h, o)
    requires Origin(agree, links, peer, c) && c.material.id !in h.service.seen
    ensures HostInv(agree, links, peer, h.(service := Insert(h.service, c, now, lifetime)), o)
  {
    var t := Insert(h.service, c, now, lifetime);
    InsertInv(x => true, h.service, c, now, lifetime);
    forall id | id in t.pairings
      ensures EntryLinked(agree, links, peer, o, id, t.pairings[id])
    {
      InsertLinks(agree, links, peer, h.service, o, c, now, lifetime, id);
    }
    assert t.calls == h.service.calls;
  }

  /** Recording a link for an ID that has the same link already, or none, changes nothing known. */
  lemma LinkKeeps(
    agree: Agree, links: map<string, seq<Byte>>, peer: Peer, h: Host, o: Service, id: string, b: seq<Byte>)
    requires HostInv(agree, links, peer, h, o)
    requires id in links ==> links[id] == b
    ensures HostInv(agree, links[id := b], peer, h, o)
  {
    var more := links[id := b];
    forall x | x in h.service.pairings
      ensures EntryLinked(agree, more, peer, o, x, h.service.pairings[x])
    {
      assert EntryLinked(agree, links, peer, o, x, h.service.pairings[x]);
    }
    forall x | x in h.service.calls
      ensures CallsLinked(agree, more, peer, o, x, h.service.calls[x])
    {
      assert CallsLinked(agree, links, peer, o, x, h.service.calls[x]);
      forall k | 0 <= k < |h.service.calls[x]|
        ensures PinLinked(agree, more, peer, o, x, h.service.calls[x][k])
      {
        assert PinLinked(agree, links, peer, o, x, h.service.calls[x][k]);
      }
    }
  }

  lemma PushKeeps(agree: Agree, links: map<string, seq<Byte>>, peer: Peer, h: Host, o: Service, d: Decision)
    requires HostInv(agree, links, peer, h, o) && Justified(o, d)
    ensures HostInv(agree, links, peer, h.(inbox := h.inbox[d.id := Queue(h, d.id) + [d]]), o)
  {
    assert d.id in h.inbox ==> InboxJustified(o, d.id, h.inbox[d.id]);
    assert InboxJustified(o, d.id, Queue(h, d.id) + [d]);
  }

  lemma PopKeeps(agree: Agree, links: map<string, seq<Byte>>, peer: Peer, h: Host, o: Service, id: string)
    requires HostInv(agree, links, peer, h, o) && Queue(h, id) != []
    ensures HostInv(agree, links, peer, h.(inbox := h.inbox[id := Queue(h, id)[1..]]), o)
    ensures Queue(h, id)[0].id == id && Justified(o, Queue(h, id)[0])
  {
    assert InboxJustified(o, id, h.inbox[id]);
    assert InboxJustified(o, id, h.inbox[id][1..]);
  }

  lemma DriveKeeps(agree: Agree, links: map<string, seq<Byte>>, peer: Peer, cfg: Config, h: Host, o: Service, e: Event)
    requires IsDigest(cfg.sum) && HostInv(agree, links, peer, h, o)
    requires !e.Register? && Legal(cfg, h.service, e)
    requires e.Receive? ==> e.decision.id == e.id && Justified(o, e.decision)
    ensures HostInv(agree, links, peer, h.(service := Step(cfg, h.service, e)), o)
    ensures Grows(h.service, Step(cfg, h.service, e))
  {
    StepInv(cfg, c => true, h.service, e);
    var t := Step(cfg, h.service, e);
    if e.Receive? {
      var d := e.decision;
      ReceiveEvolves(h.service, e.id, d);
      EvolveKeeps(agree, links, peer, h, t, o,
                  if d.confirmed then {d.id} else {}, if d.confirmed && d.committed then {d.id} else {});
    } else {
      StepEvolves(cfg, h.service, e);
      EvolveKeeps(agree, links, peer, h, t, o, {}, {});
    }
  }

  // ---- moves and whole plays ----

  lemma DriveNet(agree: Agree, w: World, n: Network, side: Side, e: Event)
    requires IsDigest(w.sum) && NetInv(agree, w, n)
    requires !e.Register? && Legal(ConfigOf(w, side), At(n, side).service, e)
    requires e.Receive? ==> e.decision.id == e.id && Justified(At(n, Other(side)).service, e.decision)
    ensures NetInv(agree, w, Drive(w, n, side, e))
  {
    var h, o := At(n, side), At(n, Other(side));
    var peer := DeviceAt(w, Other(side));
    DriveKeeps(agree, n.links, peer, ConfigOf(w, side), h, o.service, e);
    OtherGrows(agree, n.links, DeviceAt(w, side), o, h.service, Step(ConfigOf(w, side), h.service, e));
  }

  lemma SameDerivation(w: World, m: Move)
    requires IsDigest(w.sum) && m.Join?
    ensures DerivedFor(ConfigOf(w, m.side), JoinEvent(w, m)) == Agreed(w, m.binding)
  {}

  /** Both ends derive the same material: the orchestrator is the initiator on either side. */
  lemma JoinOrigin(agree: Agree, w: World, m: Move)
    requires ValidWorld(w) && m.Join? && agree == (b => Agreed(w, b))
    requires Admitted(ConfigOf(w, m.side), JoinEvent(w, m)).Some?
    ensures var c := Admitted(ConfigOf(w, m.side), JoinEvent(w, m)).value;
            agree(m.binding) == Some(c.material) && c.peer == DeviceAt(w, Other(m.side))
  {
    AdmittedIs(ConfigOf(w, m.side), JoinEvent(w, m));
    SameDerivation(w, m);
  }

  /** The network after one side has admitted a ceremony. */
  function Entered(n: Network, side: Side, c: Ceremony, binding: seq<Byte>, now: int, lifetime: int): Network {
    var h := At(n, side);
    Place(n, side, h.(service := Insert(h.service, c, now, lifetime))).(links := n.links[c.material.id := binding])
  }

  lemma RegisterIs(cfg: Config, s: Service, e: Event, c: Ceremony)
    requires IsDigest(cfg.sum) && e.Register? && Admitted(cfg, e) == Some(c)
    ensures Step(cfg, s, e) == Insert(s, c, e.locked, cfg.lifetime)
  {}

  lemma JoinIs(w: World, n: Network, m: Move, c: Ceremony)
    requires IsDigest(w.sum) && m.Join? && Admitted(ConfigOf(w, m.side), JoinEvent(w, m)) == Some(c)
    ensures Next(w, n, m) == Entered(n, m.side, c, m.binding, m.locked, ConfigOf(w, m.side).lifetime)
  {
    RegisterIs(ConfigOf(w, m.side), At(n, m.side).service, JoinEvent(w, m), c);
  }

  lemma EnteredNet(agree: Agree, w: World, n: Network, side: Side, c: Ceremony, b: seq<Byte>, now: int, lifetime: int)
    requires NetInv(agree, w, n) && agree(b) == Some(c.material) && c.peer == DeviceAt(w, Other(side))
    requires c.material.id !in At(n, side).service.seen && (c.material.id in n.links ==> n.links[c.material.id] == b)
    ensures NetInv(agree, w, Entered(n, side, c, b, now, lifetime))
  {
    var h, o := At(n, side), At(n, Other(side));
    var mine, theirs := DeviceAt(w, side), DeviceAt(w, Other(side));
    var links := n.links[c.material.id := b];
    LinkKeeps(agree, n.links, theirs, h, o.service, c.material.id, b);
    LinkKeeps(agree, n.links, mine, o, h.service, c.material.id, b);
    InsertKeeps(agree, links, theirs, h, o.service, c, now, lifetime);
    InsertGrows(h.service, c, now, lifetime);
    OtherGrows(agree, links, mine, o, h.service, Insert(h.service, c, now, lifetime));
  }

  lemma JoinNet(agree: Agree, w: World, n: Network, m: Move)
    requires ValidWorld(w) && NetInv(agree, w, n) && m.Join? && Possible(w, n, m) && agree == (b => Agreed(w, b))
    ensures NetInv(agree, w, Next(w, n, m))
  {
    var cfg := ConfigOf(w, m.side);
    var admitted := Admitted(cfg, JoinEvent(w, m));
    if admitted.Some? {
      JoinOrigin(agree, w, m);
      JoinIs(w, n, m, admitted.value);
      EnteredNet(agree, w, n, m.side, admitted.value, m.binding, m.locked, cfg.lifetime);
    }
  }

  lemma TransmitNet(agree: Agree, w: World, n: Network, side: Side, d: Decision)
    requires ValidWorld(w) && NetInv(agree, w, n) && Justified(At(n, side).service, d)
    ensures NetInv(agree, w, Next(w, n, Transmit(side, d)))
  {
    PushKeeps(agree, n.links, DeviceAt(w, side), At(n, Other(side)), At(n, side).service, d);
  }

  lemma DeliverNet(agree: Agree, w: World, n: Network, side: Side, id: string)
    requires ValidWorld(w) && NetInv(agree, w, n)
    ensures NetInv(agree, w, Next(w, n, Deliver(side, id)))
  {
    var h, o := At(n, side), At(n, Other(side));
    var q := Queue(h, id);
    if q != [] {
      PopKeeps(agree, n.links, DeviceAt(w, Other(side)), h, o.service, id);
      var popped := Place(n, side, h.(inbox := h.inbox[id := q[1..]]));
      assert NetInv(agree, w, popped);
      DriveNet(agree, w, popped, side, Receive(id, q[0]));
    }
  }

  lemma NextNet(agree: Agree, w: World, n: Network, m: Move)
    requires ValidWorld(w) && NetInv(agree, w, n) && Possible(w, n, m) && agree == (b => Agreed(w, b))
    ensures NetInv(agree, w, Next(w, n, m))
  {
    match m
    case Join(_, _, _, _, _) => JoinNet(agree, w, n, m);
    case Act(side, e) => DriveNet(agree, w, n, side, e);
    case Transmit(side, d) => TransmitNet(agree, w, n, side, d);
    case Deliver(side, id) => DeliverNet(agree, w, n, side, id);
  }

  lemma {:induction false} PlayNet(agree: Agree, w: World, ms: seq<Move>)
    requires ValidWorld(w) && PossiblePlay(w, ms) && agree == (b => Agreed(w, b))
    ensures NetInv(agree, w, Play(w, ms))
  {
    if ms == [] {
      assert WaitingIDs(INITIAL.pairings) == {};
      assert Inv(c => true, INITIAL);
    } else {
      PlayNet(agree, w, ms[..|ms| - 1]);
      NextNet(agree, w, Play(w, ms[..|ms| - 1]), ms[|ms| - 1]);
    }
  }

  /**
   Two-sided consent, in every interleaving: whenever a device has called
   `Activate` for a ceremony, the users of both devices confirmed that ceremony,
   the call pins the true peer, and it carries the secret that both ends derive
   from that ceremony's connection.
   */
  lemma TwoSidedConsent(w: World, ms: seq<Move>, side: Side, id: string)
    requires ValidWorld(w) && PossiblePlay(w, ms)
    requires id in At(Play(w, ms), side).service.calls
    ensures var n := Play(w, ms);
            id in n.left.service.confirms && id in n.right.service.confirms &&
            id in n.links && Agreed(w, n.links[id]).Some? &&
            At(n, side).service.calls[id] ==
              [Pin(id, DeviceAt(w, Other(side)), Agreed(w, n.links[id]).value.secret)]
  {
    var agree: Agree := b => Agreed(w, b);
    PlayNet(agree, w, ms);
    var n := Play(w, ms);
    var h, o := At(n, side), At(n, Other(side));
    assert HostInv(agree, n.links, DeviceAt(w, Other(side)), h, o.service);
    assert CallInv(h.service, id);
    assert CallsLinked(agree, n.links, DeviceAt(w, Other(side)), o.service, id, h.service.calls[id]);
    assert PinLinked(agree, n.links, DeviceAt(w, Other(side)), o.service, id, h.service.calls[id][0]);
  }

  /** Whenever both ends hold an entry under one ID they hold the same ID, code and secret. */
  lemma SameMaterial(w: World, ms: seq<Move>, id: string)
    requires ValidWorld(w) && PossiblePlay(w, ms)
    requires id in Play(w, ms).left.service.pairings && id in Play(w, ms).right.service.pairings
    ensures Play(w, ms).left.service.pairings[id].value.ceremony.material
         == Play(w, ms).right.service.pairings[id].value.ceremony.material
  {
    var agree: Agree := b => Agreed(w, b);
    PlayNet(agree, w, ms);
    var n := Play(w, ms);
    assert EntryLinked(agree, n.links, w.worker, n.right.service, id, n.left.service.pairings[id]);
    assert EntryLinked(agree, n.links, w.orchestrator, n.left.service, id, n.right.service.pairings[id]);
  }

  /**
   `remoteCommitted` on one side means the other side's `Activate` succeeded; `RemoteConfirmed`, that its user
   confirmed.
   */
  lemma RemoteFlagsAreTrue(w: World, ms: seq<Move>, side: Side, id: string)
    requires ValidWorld(w) && PossiblePlay(w, ms)
    requires id in At(Play(w, ms), side).service.pairings
    ensures var e := At(Play(w, ms), side).service.pairings[id];
            var o := At(Play(w, ms), Other(side)).service;
            (e.remoteCommitted ==> id in o.pins && id in o.calls) && (e.value.remote ==> id in o.confirms)
  {
    var agree: Agree := b => Agreed(w, b);
    PlayNet(agree, w, ms);
    var n := Play(w, ms);
    var h, o := At(n, side), At(n, Other(side));
    assert EntryLinked(agree, n.links, DeviceAt(w, Other(side)), o.service, id, h.service.pairings[id]);
    assert HostInv(agree, n.links, DeviceAt(w, side), o, h.service);
  }
}
