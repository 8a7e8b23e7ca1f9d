/**
 One daemon's pairing coordinator (internal/app/pairing/service.go) as a
 transition system: one event per critical section of `service.mu`, in any
 order, against any peer. The fields beside `pairings` record what the outside
 world saw: accepted user decisions and calls of `repository.Activate`.
 */
module Pairing {
  import opened Text
  import opened Trust
  import Base32

  const MAXIMUM_PENDING := 16

  datatype Role = Worker | Orchestrator
  datatype Direction = Outbound | Inbound
  datatype State = Waiting | Paired | Rejected | Expired | Failed

  datatype Peer = Peer(id: string, key: seq<Byte>, role: Role)

  /** The fields of `trust.Pairing` fixed at registration; the zero time is 0. */
  datatype Ceremony = Ceremony(material: Material, peer: Peer, direction: Direction, startedAt: int, expiresAt: int)

  datatype Value = Value(ceremony: Ceremony, state: State, local: bool, remote: bool, failure: string)

  /** `pending`. */
  datatype Entry = Entry(value: Value, activating: bool, localCommitted: bool, remoteCommitted: bool)

  /** The part of the `Activate` argument that identifies the pin. */
  datatype Pin = Pin(id: string, peer: Peer, secret: seq<Byte>)

  /** `session.PairingDecision`. */
  datatype Decision = Decision(id: string, confirmed: bool, committed: bool)

  datatype Config = Config(sum: Sum, self: Peer, lifetime: int)

  datatype Service = Service(
    pairings: map<string, Entry>,
    seen: set<string>,
    confirms: set<string>,
    rejects: set<string>,
    calls: map<string, seq<Pin>>,
    flying: set<string>,
    pins: set<string>)

  const INITIAL := Service(map[], {}, {}, {}, map[], {}, {})

  /** Times are those of one clock read each: `now` before the lock is taken, `locked` under it. */
  datatype Event =
    | Register(direction: Direction, peer: Peer, binding: seq<Byte>, conflict: bool, now: int, locked: int)
    | Decide(id: string, confirmed: bool, now: int)
    | ReceiveFailed(id: string, deadline: bool)
    | Receive(id: string, decision: Decision)
    | SendFailed(id: string, text: string)
    | Begin(id: string)
    | End(id: string, error: Option<string>)
    | List(now: int)

  // ---- values ----

  const CLOSED := "pairing connection closed before both devices confirmed"
  const PROTOCOL := "pairing protocol error"

  predicate IsSpace(c: char) {
    var n := c as int;
    9 <= n <= 13 || n == 32 || n == 0x85 || n == 0xA0 || n == 0x1680 || 0x2000 <= n <= 0x200A ||
    n == 0x2028 || n == 0x2029 || n == 0x202F || n == 0x205F || n == 0x3000
  }

  predicate Blank(text: string) {
    forall c :: c in text ==> IsSpace(c)
  }

  function DeviceID(digest: seq<Byte>): (id: string)
    requires |digest| == 32
    ensures ValidDeviceID(id)
  {
    Base32.SpellLower(Base32.Pack(digest))
  }

  /** A device ID names one key digest. */
  lemma DeviceIDInjective(a: seq<Byte>, b: seq<Byte>)
    requires |a| == 32 && |b| == 32 && DeviceID(a) == DeviceID(b)
    ensures a == b
  {
    Base32.LowerInjective(Base32.Pack(a), Base32.Pack(b));
    Base32.PackInjective(a, b);
  }

  predicate ValidPeer(cfg: Config, peer: Peer)
    requires IsDigest(cfg.sum)
  {
    |peer.key| == 32 && peer.id == DeviceID(cfg.sum(peer.key))
  }

  /** The part of `Pairing.Validate` about fields that never change. */
  predicate ValidCeremony(cfg: Config, c: Ceremony)
    requires IsDigest(cfg.sum)
  {
    ValidPeer(cfg, c.peer) && ValidPairID(c.material.id) && ValidCode(c.material.code) &&
    c.startedAt != 0 && c.expiresAt > c.startedAt
  }

  /** The part of `Pairing.Validate` about the state. */
  predicate ValidOutcome(v: Value) {
    match v.state
    case Waiting | Rejected | Expired => v.failure == ""
    case Paired => v.local && v.remote && v.failure == ""
    case Failed => !Blank(v.failure)
  }

  // ---- critical sections ----

  predicate IsWaiting(e: Entry) { e.value.state == Waiting }

  function WithState(e: Entry, state: State): Entry { e.(value := e.value.(state := state)) }

  function WithFailure(e: Entry, text: string): Entry {
    e.(value := e.value.(state := Failed, failure := text))
  }

  function Aged(e: Entry, now: int): Entry {
    if IsWaiting(e) && e.value.ceremony.expiresAt <= now then WithState(e, Expired) else e
  }

  predicate Drops(e: Entry, now: int, lifetime: int) {
    !IsWaiting(Aged(e, now)) && now > e.value.ceremony.expiresAt + lifetime
  }

  /** `pruneLocked`. */
  function Prune(p: map<string, Entry>, now: int, lifetime: int): map<string, Entry> {
    map id | id in p && !Drops(p[id], now, lifetime) :: Aged(p[id], now)
  }

  function Pruned(s: Service, now: int, lifetime: int): Service {
    s.(pairings := Prune(s.pairings, now, lifetime))
  }

  function WaitingIDs(p: map<string, Entry>): set<string> {
    set id | id in p && IsWaiting(p[id])
  }

  predicate Waits(s: Service, id: string) {
    id in s.pairings && IsWaiting(s.pairings[id])
  }

  function Set(s: Service, id: string, e: Entry): Service { s.(pairings := s.pairings[id := e]) }

  predicate RolesFit(cfg: Config, e: Event)
    requires e.Register?
  {
    if e.direction == Outbound then cfg.self.role == Orchestrator && e.peer.role == Worker
    else cfg.self.role == Worker && e.peer.role == Orchestrator
  }

  /** The initiator is this device on an outbound connection and the peer on an inbound one. */
  function DerivedFor(cfg: Config, e: Event): Option<Material>
    requires IsDigest(cfg.sum) && e.Register?
  {
    if e.direction == Outbound then Derive(cfg.sum, e.binding, cfg.self.id, e.peer.id)
    else Derive(cfg.sum, e.binding, e.peer.id, cfg.self.id)
  }

  function CeremonyFor(cfg: Config, e: Event, m: Material): Ceremony
    requires e.Register?
  {
    Ceremony(m, e.peer, e.direction, e.now, e.now + cfg.lifetime)
  }

  /** `register` before it takes the lock: what it derives, if nothing refuses. */
  function Admitted(cfg: Config, e: Event): (c: Option<Ceremony>)
    requires IsDigest(cfg.sum) && e.Register?
    ensures c.Some? ==> ValidCeremony(cfg, c.value)
  {
    var m := DerivedFor(cfg, e);
    if !ValidPeer(cfg, e.peer) || !RolesFit(cfg, e) || e.conflict || m.None? then None
    else if ValidCeremony(cfg, CeremonyFor(cfg, e, m.value)) then Some(CeremonyFor(cfg, e, m.value))
    else None
  }

  lemma AdmittedIs(cfg: Config, e: Event)
    requires IsDigest(cfg.sum) && e.Register? && Admitted(cfg, e).Some?
    ensures DerivedFor(cfg, e) == Some(Admitted(cfg, e).value.material) && Admitted(cfg, e).value.peer == e.peer
  {}

  function Fresh(c: Ceremony): Entry {
    Entry(Value(c, Waiting, false, false, ""), false, false, false)
  }

  predicate HasRoom(s: Service, id: string) { |WaitingIDs(s.pairings)| < MAXIMUM_PENDING && id !in s.pairings }

  /** `register` under the lock: prune, count the waiting, refuse duplicates, insert. */
  function Insert(s: Service, c: Ceremony, now: int, lifetime: int): Service {
    var q := Pruned(s, now, lifetime);
    if !HasRoom(q, c.material.id) then q
    else Set(q, c.material.id, Fresh(c)).(seen := q.seen + {c.material.id})
  }

  predicate Undecided(s: Service, id: string) { Waits(s, id) && !s.pairings[id].activating }

  /** `updateLocalDecision` for an already resolved selector. */
  function DecideStep(s: Service, id: string, confirmed: bool, now: int, lifetime: int): Service {
    var q := Pruned(s, now, lifetime);
    if !Undecided(q, id) then q
    else if confirmed then
      Set(q, id, q.pairings[id].(value := q.pairings[id].value.(local := true))).(confirms := q.confirms + {id})
    else Set(q, id, WithState(q.pairings[id], Rejected)).(rejects := q.rejects + {id})
  }

  function FailStep(s: Service, id: string, text: string): Service {
    if Waits(s, id) then Set(s, id, WithFailure(s.pairings[id], text)) else s
  }

  function SettleStep(s: Service, id: string, state: State): Service {
    if Waits(s, id) then Set(s, id, WithState(s.pairings[id], state)) else s
  }

  /** A confirmation received by `monitor`; a commit is recorded whatever the state. */
  function ConfirmedBy(e: Entry, committed: bool): Entry {
    var f := if IsWaiting(e) then e.(value := e.value.(remote := true)) else e;
    if committed then f.(remoteCommitted := true) else f
  }

  /** One decision received by `monitor`. */
  function ReceiveStep(s: Service, id: string, d: Decision): Service {
    if d.id != id then FailStep(s, id, PROTOCOL)
    else if !d.confirmed then SettleStep(s, id, Rejected)
    else if id in s.pairings then Set(s, id, ConfirmedBy(s.pairings[id], d.committed))
    else s
  }

  predicate MayActivate(s: Service, id: string) {
    Waits(s, id) && !s.pairings[id].activating && s.pairings[id].value.local && s.pairings[id].value.remote
  }

  function PinFor(c: Ceremony): Pin { Pin(c.material.id, c.peer, c.material.secret) }

  /** `maybeActivate` up to the unlock before `Activate`. */
  function BeginStep(s: Service, id: string): Service {
    if !MayActivate(s, id) then s
    else
      var before := if id in s.calls then s.calls[id] else [];
      Set(s, id, s.pairings[id].(activating := true))
      .(calls := s.calls[id := before + [PinFor(s.pairings[id].value.ceremony)]], flying := s.flying + {id})
  }

  /** `maybeActivate` after `Activate` returned. */
  function EndStep(s: Service, id: string, error: Option<string>): Service {
    if id !in s.flying then s
    else
      var t := s.(flying := s.flying - {id}, pins := if error.None? then s.pins + {id} else s.pins);
      if !Waits(s, id) then t
      else if error.Some? then Set(t, id, WithFailure(s.pairings[id], error.value).(activating := false))
      else Set(t, id, WithState(s.pairings[id], Paired).(activating := false, localCommitted := true))
  }

  function Step(cfg: Config, s: Service, e: Event): Service
    requires IsDigest(cfg.sum)
  {
    match e
    case Register(_, _, _, _, _, locked) =>
      (match Admitted(cfg, e)
       case None => s
       case Some(c) => Insert(s, c, locked, cfg.lifetime))
    case Decide(id, confirmed, now) => DecideStep(s, id, confirmed, now, cfg.lifetime)
    case ReceiveFailed(id, deadline) => if deadline then SettleStep(s, id, Expired) else FailStep(s, id, CLOSED)
    case Receive(id, d) => ReceiveStep(s, id, d)
    case SendFailed(id, text) => FailStep(s, id, text)
    case Begin(id) => BeginStep(s, id)
    case End(id, error) => EndStep(s, id, error)
    case List(now) => Pruned(s, now, cfg.lifetime)
  }

  /** A daemon sends only what its own service recorded. */
  predicate Justified(s: Service, d: Decision) {
    (d.confirmed ==> d.id in s.confirms) && (!d.confirmed ==> d.id in s.rejects) &&
    (d.committed ==> d.confirmed && d.id in s.pins)
  }

  /** What was recorded stays recorded. */
  predicate Grows(s: Service, t: Service) {
    s.confirms <= t.confirms && s.rejects <= t.rejects && s.pins <= t.pins
  }

  /**
   The environment: error texts are not blank, and a pair ID, being the hash of a
   fresh TLS exporter value, is registered at most once by one daemon.
   */
  predicate Legal(cfg: Config, s: Service, e: Event)
    requires IsDigest(cfg.sum)
  {
    match e
    case Register(_, _, _, _, _, _) => Admitted(cfg, e).Some? ==> Admitted(cfg, e).value.material.id !in s.seen
    case SendFailed(_, text) => !Blank(text)
    case End(_, error) => error.Some? ==> !Blank(error.value)
    case _ => true
  }

  function Run(cfg: Config, s: Service, es: seq<Event>): Service
    requires IsDigest(cfg.sum)
  {
    if es == [] then s else Step(cfg, Run(cfg, s, es[..|es| - 1]), es[|es| - 1])
  }

  predicate LegalRun(cfg: Config, s: Service, es: seq<Event>)
    requires IsDigest(cfg.sum)
  {
    es == [] ||
    (LegalRun(cfg, s, es[..|es| - 1]) && Legal(cfg, Run(cfg, s, es[..|es| - 1]), es[|es| - 1]))
  }

  lemma StepGrows(cfg: Config, s: Service, e: Event)
    requires IsDigest(cfg.sum)
    ensures Grows(s, Step(cfg, s, e))
  {}

  lemma {:induction false} RunGrows(cfg: Config, s: Service, es: seq<Event>)
    requires IsDigest(cfg.sum)
    ensures Grows(s, Run(cfg, s, es))
  {
    if es == [] {
    } else {
      RunGrows(cfg, s, es[..|es| - 1]);
      StepGrows(cfg, Run(cfg, s, es[..|es| - 1]), es[|es| - 1]);
    }
  }

  /** A decision that may be sent now may be sent at any later moment. */
  lemma JustifiedStays(cfg: Config, s: Service, es: seq<Event>, d: Decision)
    requires IsDigest(cfg.sum) && Justified(s, d)
    ensures Justified(Run(cfg, s, es), d)
  {
    RunGrows(cfg, s, es);
  }

  // ---- the invariant; `good` stands for any property of ceremonies that admission gives ----

  type Good = Ceremony -> bool

  predicate EntryInv(good: Good, s: Service, id: string, e: Entry) {
    good(e.value.ceremony) && ValidOutcome(e.value) &&
    e.value.ceremony.material.id == id && id in s.seen &&
    (e.value.local ==> id in s.confirms) &&
    (e.activating ==> e.value.local && e.value.remote) &&
    (IsWaiting(e) ==> id !in s.rejects && (e.activating <==> id in s.calls) && (e.activating ==> id in s.flying)) &&
    (e.value.state == Paired <==> e.localCommitted) &&
    (e.value.state == Paired ==> id in s.pins && id !in s.flying)
  }

  /** Exactly one `Activate` for this ID, confirmed here and never rejected here. */
  predicate CallInv(s: Service, id: string)
    requires id in s.calls
  {
    |s.calls[id]| == 1 && s.calls[id][0].id == id && id in s.seen && id in s.confirms && id !in s.rejects
  }

  predicate Books(s: Service) {
    (forall id :: id in s.calls ==> CallInv(s, id)) &&
    s.confirms <= s.seen && s.rejects <= s.seen && s.flying <= s.calls.Keys && s.pins <= s.calls.Keys
  }

  ghost predicate Inv(good: Good, s: Service) {
    (forall id :: id in s.pairings ==> EntryInv(good, s, id, s.pairings[id])) &&
    Books(s) && |WaitingIDs(s.pairings)| <= MAXIMUM_PENDING
  }

  lemma PruneInv(good: Good, s: Service, now: int, lifetime: int)
    requires Inv(good, s)
    ensures Inv(good, Pruned(s, now, lifetime))
  {
    var t := Pruned(s, now, lifetime);
    forall id | id in t.pairings
      ensures EntryInv(good, t, id, t.pairings[id])
    {
      assert EntryInv(good, s, id, s.pairings[id]);
    }
    SubsetSize(WaitingIDs(t.pairings), WaitingIDs(s.pairings));
  }

  /** How the record may grow while entry `id` is rewritten. */
  predicate Extends(s: Service, t: Service, id: string) {
    t.seen == s.seen && s.confirms <= t.confirms && s.rejects <= t.rejects <= s.rejects + {id} &&
    s.calls.Keys <= t.calls.Keys <= s.calls.Keys + {id} &&
    s.flying - {id} <= t.flying <= s.flying + {id} && s.pins <= t.pins
  }

  /** Rewriting one entry keeps the invariant when that entry is still good. */
  lemma OneEntry(good: Good, s: Service, t: Service, id: string)
    requires Inv(good, s) && Books(t) && Extends(s, t, id)
    requires id in s.pairings && id in t.pairings && t.pairings == s.pairings[id := t.pairings[id]]
    requires IsWaiting(t.pairings[id]) ==> IsWaiting(s.pairings[id])
    requires EntryInv(good, t, id, t.pairings[id])
    ensures Inv(good, t)
  {
    forall x | x in t.pairings
      ensures EntryInv(good, t, x, t.pairings[x])
    {
      if x != id { assert EntryInv(good, s, x, s.pairings[x]); }
    }
    SubsetSize(WaitingIDs(t.pairings), WaitingIDs(s.pairings));
  }

  lemma AddInv(good: Good, q: Service, c: Ceremony)
    requires Inv(good, q) && good(c) && c.material.id !in q.seen
    requires |WaitingIDs(q.pairings)| < MAXIMUM_PENDING
    ensures Inv(good, Set(q, c.material.id, Fresh(c)).(seen := q.seen + {c.material.id}))
  {
    var id := c.material.id;
    var t := Set(q, id, Fresh(c)).(seen := q.seen + {id});
    assert id in q.calls ==> CallInv(q, id);
    assert EntryInv(good, t, id, Fresh(c));
    forall x | x in q.pairings && x != id
      ensures EntryInv(good, t, x, t.pairings[x])
    {
      assert EntryInv(good, q, x, q.pairings[x]);
    }
    assert Books(t) by { forall x | x in t.calls ensures CallInv(t, x) { assert CallInv(q, x); } }
    assert WaitingIDs(t.pairings) <= WaitingIDs(q.pairings) + {id};
    SubsetSize(WaitingIDs(t.pairings), WaitingIDs(q.pairings) + {id});
  }

  lemma InsertInv(good: Good, s: Service, c: Ceremony, now: int, lifetime: int)
    requires Inv(good, s) && good(c) && c.material.id !in s.seen
    ensures Inv(good, Insert(s, c, now, lifetime))
  {
    var q := Pruned(s, now, lifetime);
    PruneInv(good, s, now, lifetime);
    if |WaitingIDs(q.pairings)| < MAXIMUM_PENDING { AddInv(good, q, c); }
  }

  lemma DecideInv(good: Good, s: Service, id: string, confirmed: bool, now: int, lifetime: int)
    requires Inv(good, s)
    ensures Inv(good, DecideStep(s, id, confirmed, now, lifetime))
  {
    var q := Pruned(s, now, lifetime);
    var t := DecideStep(s, id, confirmed, now, lifetime);
    PruneInv(good, s, now, lifetime);
    if t != q {
      assert EntryInv(good, q, id, q.pairings[id]);
      forall x | x in t.calls
        ensures CallInv(t, x)
      {
        assert CallInv(q, x);
      }
      OneEntry(good, q, t, id);
    }
  }

  lemma RewriteInv(good: Good, s: Service, id: string, e: Entry)
    requires Inv(good, s) && id in s.pairings && EntryInv(good, s, id, e)
    requires IsWaiting(e) ==> IsWaiting(s.pairings[id])
    ensures Inv(good, Set(s, id, e))
  {
    var t := Set(s, id, e);
    assert EntryInv(good, t, id, t.pairings[id]);
    assert Books(t) by { forall x | x in t.calls ensures CallInv(t, x) { assert CallInv(s, x); } }
    OneEntry(good, s, t, id);
  }

  lemma FailInv(good: Good, s: Service, id: string, text: string)
    requires Inv(good, s) && !Blank(text)
    ensures Inv(good, FailStep(s, id, text))
  {
    if Waits(s, id) {
      assert EntryInv(good, s, id, s.pairings[id]);
      RewriteInv(good, s, id, WithFailure(s.pairings[id], text));
    }
  }

  lemma SettleInv(good: Good, s: Service, id: string, state: State)
    requires Inv(good, s) && (state == Rejected || state == Expired)
    ensures Inv(good, SettleStep(s, id, state))
  {
    if Waits(s, id) {
      assert EntryInv(good, s, id, s.pairings[id]);
      RewriteInv(good, s, id, WithState(s.pairings[id], state));
    }
  }

  lemma ReceiveInv(good: Good, s: Service, id: string, d: Decision)
    requires Inv(good, s)
    ensures Inv(good, ReceiveStep(s, id, d))
  {
    FixedTextsNotBlank();
    FailInv(good, s, id, PROTOCOL);
    SettleInv(good, s, id, Rejected);
    if id in s.pairings {
      assert EntryInv(good, s, id, s.pairings[id]);
      RewriteInv(good, s, id, ConfirmedBy(s.pairings[id], d.committed));
    }
  }

  lemma FixedTextsNotBlank()
    ensures !Blank(CLOSED) && !Blank(PROTOCOL)
  {
    assert CLOSED[|CLOSED| - 1] == 'd' && PROTOCOL[|PROTOCOL| - 1] == 'r';
    assert !IsSpace('d') && !IsSpace('r');
  }

  lemma BeginInv(good: Good, s: Service, id: string)
    requires Inv(good, s)
    ensures Inv(good, BeginStep(s, id))
  {
    var t := BeginStep(s, id);
    if t != s {
      assert EntryInv(good, s, id, s.pairings[id]);
      forall x | x in t.calls
        ensures CallInv(t, x)
      {
        if x != id { assert CallInv(s, x); }
      }
      OneEntry(good, s, t, id);
    }
  }

  lemma EndInv(good: Good, s: Service, id: string, error: Option<string>)
    requires Inv(good, s)
    requires error.Some? ==> !Blank(error.value)
    ensures Inv(good, EndStep(s, id, error))
  {
    var t := EndStep(s, id, error);
    if id in s.flying {
      assert Books(t) by { forall x | x in t.calls ensures CallInv(t, x) { assert CallInv(s, x); } }
      if id in s.pairings {
        assert EntryInv(good, s, id, s.pairings[id]);
        OneEntry(good, s, t, id);
      } else {
        forall x | x in t.pairings
          ensures EntryInv(good, t, x, t.pairings[x])
        {
          assert EntryInv(good, s, x, s.pairings[x]);
        }
      }
    }
  }

  /** `good` holds of whatever `register` admits. */
  ghost predicate Admits(cfg: Config, good: Good)
    requires IsDigest(cfg.sum)
  {
    forall e: Event :: e.Register? && Admitted(cfg, e).Some? ==> good(Admitted(cfg, e).value)
  }

  lemma StepInv(cfg: Config, good: Good, s: Service, e: Event)
    requires IsDigest(cfg.sum) && Admits(cfg, good) && Inv(good, s) && Legal(cfg, s, e)
    ensures Inv(good, Step(cfg, s, e))
  {
    match e
    case Register(_, _, _, _, _, locked) =>
      var c := Admitted(cfg, e);
      if c.Some? { InsertInv(good, s, c.value, locked, cfg.lifetime); }
    case Decide(id, confirmed, now) => DecideInv(good, s, id, confirmed, now, cfg.lifetime);
    case ReceiveFailed(id, deadline) =>
      FixedTextsNotBlank();
      FailInv(good, s, id, CLOSED);
      SettleInv(good, s, id, Expired);
    case Receive(id, d) => ReceiveInv(good, s, id, d);
    case SendFailed(id, text) => FailInv(good, s, id, text);
    case Begin(id) => BeginInv(good, s, id);
    case End(id, error) => EndInv(good, s, id, error);
    case List(now) => PruneInv(good, s, now, cfg.lifetime);
  }

  // ---- whole runs ----

  lemma {:induction false} RunInv(cfg: Config, good: Good, es: seq<Event>)
    requires IsDigest(cfg.sum) && Admits(cfg, good) && LegalRun(cfg, INITIAL, es)
    ensures Inv(good, Run(cfg, INITIAL, es))
  {
    if es == [] {
      assert WaitingIDs(INITIAL.pairings) == {};
    } else {
      RunInv(cfg, good, es[..|es| - 1]);
      StepInv(cfg, good, Run(cfg, INITIAL, es[..|es| - 1]), es[|es| - 1]);
    }
  }

  /**
   In every run of one service against any peer: each ID is activated at most
   once, only after a local confirmation and never after an accepted local
   reject; Paired means both confirmations and a successful `Activate`; stored
   values pass `Pairing.Validate`; at most sixteen entries wait.
   */
  lemma ServiceSafe(cfg: Config, es: seq<Event>)
    requires IsDigest(cfg.sum) && LegalRun(cfg, INITIAL, es)
    ensures var s := Run(cfg, INITIAL, es);
            (forall id :: id in s.calls ==> |s.calls[id]| == 1 && id in s.confirms && id !in s.rejects) &&
            (forall id :: id in s.pairings ==>
              var v := s.pairings[id].value;
              ValidCeremony(cfg, v.ceremony) && ValidOutcome(v) && v.ceremony.material.id == id &&
              (v.state == Paired ==> v.local && v.remote && id in s.pins && id in s.calls)) &&
            |WaitingIDs(s.pairings)| <= MAXIMUM_PENDING
  {
    var good := (c: Ceremony) => ValidCeremony(cfg, c);
    RunInv(cfg, good, es);
    var s := Run(cfg, INITIAL, es);
    forall id | id in s.pairings
      ensures EntryInv(good, s, id, s.pairings[id])
    {}
    forall id | id in s.calls
      ensures CallInv(s, id)
    {}
  }

  predicate Settled(s: Service, id: string) { id in s.pairings && !Waits(s, id) }

  /** Still there with the same value, or removed for good. */
  predicate Frozen(v: Value, t: Service, id: string) {
    id in t.seen && (id in t.pairings ==> t.pairings[id].value == v)
  }

  /** Frozen and not waiting: the entry, if any, stays as it is. */
  predicate Still(v: Value, s: Service, id: string) { Frozen(v, s, id) && !Waits(s, id) }

  lemma InsertStill(s: Service, c: Ceremony, now: int, lifetime: int, v: Value, id: string)
    requires Still(v, s, id) && c.material.id !in s.seen
    ensures Still(v, Insert(s, c, now, lifetime), id)
  {}

  lemma DecideStill(s: Service, x: string, confirmed: bool, now: int, lifetime: int, v: Value, id: string)
    requires Still(v, s, id)
    ensures Still(v, DecideStep(s, x, confirmed, now, lifetime), id) && Still(v, Pruned(s, now, lifetime), id)
  {}

  lemma QuietStill(s: Service, x: string, text: string, d: Decision, v: Value, id: string)
    requires Still(v, s, id)
    ensures Still(v, FailStep(s, x, text), id) && Still(v, SettleStep(s, x, Expired), id)
    ensures Still(v, ReceiveStep(s, x, d), id)
  {}

  lemma ActivateStill(s: Service, x: string, error: Option<string>, v: Value, id: string)
    requires Still(v, s, id)
    ensures Still(v, BeginStep(s, x), id) && Still(v, EndStep(s, x, error), id)
  {}

  lemma StepStill(cfg: Config, s: Service, e: Event, v: Value, id: string)
    requires IsDigest(cfg.sum) && Legal(cfg, s, e) && Still(v, s, id)
    ensures Still(v, Step(cfg, s, e), id)
  {
    match e
    case Register(_, _, _, _, _, locked) =>
      var c := Admitted(cfg, e);
      if c.Some? { InsertStill(s, c.value, locked, cfg.lifetime, v, id); }
    case Decide(x, confirmed, now) => DecideStill(s, x, confirmed, now, cfg.lifetime, v, id);
    case ReceiveFailed(x, deadline) => QuietStill(s, x, CLOSED, Decision(x, true, true), v, id);
    case Receive(x, d) => QuietStill(s, x, CLOSED, d, v, id);
    case SendFailed(x, text) => QuietStill(s, x, text, Decision(x, true, true), v, id);
    case Begin(x) => ActivateStill(s, x, None, v, id);
    case End(x, error) => ActivateStill(s, x, error, v, id);
    case List(now) => DecideStill(s, id, true, now, cfg.lifetime, v, id);
  }

  /** Once an entry stops waiting its value never changes again, up to its removal. */
  lemma {:induction false} SettledForever(cfg: Config, es: seq<Event>, k: nat, id: string)
    requires IsDigest(cfg.sum) && LegalRun(cfg, INITIAL, es) && k <= |es|
    requires Settled(Run(cfg, INITIAL, es[..k]), id)
    ensures Frozen(Run(cfg, INITIAL, es[..k]).pairings[id].value, Run(cfg, INITIAL, es), id)
    ensures !Waits(Run(cfg, INITIAL, es), id)
    decreases |es|
  {
    var s := Run(cfg, INITIAL, es[..k]);
    if k == |es| {
      assert es[..k] == es;
      RunInv(cfg, c => true, es);
      assert EntryInv(c => true, s, id, s.pairings[id]);
    } else {
      var init := es[..|es| - 1];
      assert init[..k] == es[..k];
      SettledForever(cfg, init, k, id);
      StepStill(cfg, Run(cfg, INITIAL, init), es[|es| - 1], s.pairings[id].value, id);
    }
  }

  /** At this event `Activate` returns for the ID without error. */
  predicate Returns(s: Service, e: Event, id: string) { e == End(id, None) && id in s.flying }

  /** Somewhere in the run `Activate` returned for the ID. */
  predicate Returned(cfg: Config, es: seq<Event>, id: string)
    requires IsDigest(cfg.sum)
  {
    es != [] &&
    (Returned(cfg, es[..|es| - 1], id) || Returns(Run(cfg, INITIAL, es[..|es| - 1]), es[|es| - 1], id))
  }

  /** Somewhere in the run it returned while the entry was still waiting. */
  predicate ReturnedInTime(cfg: Config, es: seq<Event>, id: string)
    requires IsDigest(cfg.sum)
  {
    es != [] &&
    (ReturnedInTime(cfg, es[..|es| - 1], id) ||
     (Returns(Run(cfg, INITIAL, es[..|es| - 1]), es[|es| - 1], id) && Waits(Run(cfg, INITIAL, es[..|es| - 1]), id)))
  }

  lemma StepPins(cfg: Config, s: Service, e: Event, id: string)
    requires IsDigest(cfg.sum)
    ensures id in Step(cfg, s, e).pins <==> id in s.pins || Returns(s, e, id)
  {}

  /** In every run, a device is pinned exactly if `Activate` returned without error. */
  lemma {:induction false} PinnedExactly(cfg: Config, es: seq<Event>, id: string)
    requires IsDigest(cfg.sum)
    ensures id in Run(cfg, INITIAL, es).pins <==> Returned(cfg, es, id)
  {
    if es == [] {
    } else {
      var init := es[..|es| - 1];
      PinnedExactly(cfg, init, id);
      StepPins(cfg, Run(cfg, INITIAL, init), es[|es| - 1], id);
    }
  }

  predicate ShowsPaired(s: Service, id: string) { id in s.pairings && s.pairings[id].value.state == Paired }

  /** An entry comes to show Paired only if `now` says so, and goes on showing it while it is listed. */
  predicate PairedFrom(s: Service, t: Service, id: string, now: bool) {
    (ShowsPaired(t, id) ==> ShowsPaired(s, id) || now) &&
    (id in t.pairings && ShowsPaired(s, id) ==> ShowsPaired(t, id)) &&
    (now ==> ShowsPaired(t, id))
  }

  lemma InsertPaired(s: Service, c: Ceremony, now: int, lifetime: int, id: string)
    requires c.material.id !in s.pairings
    ensures PairedFrom(s, Insert(s, c, now, lifetime), id, false)
  {}

  lemma DecidePaired(s: Service, x: string, confirmed: bool, now: int, lifetime: int, id: string)
    ensures PairedFrom(s, DecideStep(s, x, confirmed, now, lifetime), id, false)
  {}

  lemma QuietPaired(s: Service, x: string, text: string, d: Decision, id: string)
    ensures PairedFrom(s, FailStep(s, x, text), id, false) && PairedFrom(s, SettleStep(s, x, Expired), id, false)
    ensures PairedFrom(s, ReceiveStep(s, x, d), id, false)
  {}

  lemma BeginPaired(s: Service, x: string, now: int, lifetime: int, id: string)
    ensures PairedFrom(s, BeginStep(s, x), id, false) && PairedFrom(s, Pruned(s, now, lifetime), id, false)
  {}

  lemma EndPaired(s: Service, x: string, error: Option<string>, id: string)
    ensures PairedFrom(s, EndStep(s, x, error), id, Returns(s, End(x, error), id) && Waits(s, id))
  {}

  lemma EntriesSeen(s: Service, id: string)
    requires Inv(c => true, s) && id in s.pairings
    ensures id in s.seen
  {
    assert EntryInv(c => true, s, id, s.pairings[id]);
  }

  lemma StepPaired(cfg: Config, s: Service, e: Event, id: string)
    requires IsDigest(cfg.sum) && Inv(c => true, s) && Legal(cfg, s, e)
    ensures PairedFrom(s, Step(cfg, s, e), id, Returns(s, e, id) && Waits(s, id))
  {
    match e
    case Register(_, _, _, _, _, locked) =>
      var c := Admitted(cfg, e);
      if c.Some? {
        if c.value.material.id in s.pairings { EntriesSeen(s, c.value.material.id); }
        InsertPaired(s, c.value, locked, cfg.lifetime, id);
      }
    case Decide(x, confirmed, now) => DecidePaired(s, x, confirmed, now, cfg.lifetime, id);
    case ReceiveFailed(x, deadline) => QuietPaired(s, x, CLOSED, Decision(x, true, true), id);
    case Receive(x, d) => QuietPaired(s, x, CLOSED, d, id);
    case SendFailed(x, text) => QuietPaired(s, x, text, Decision(x, true, true), id);
    case Begin(x) => BeginPaired(s, x, 0, 0, id);
    case End(x, error) => EndPaired(s, x, error, id);
    case List(now) => BeginPaired(s, id, now, cfg.lifetime, id);
  }

  lemma InsertEntries(s: Service, c: Ceremony, now: int, lifetime: int, id: string)
    requires c.material.id !in s.seen
    ensures id in Insert(s, c, now, lifetime).pairings ==> id in s.pairings || id !in s.seen
    ensures id in s.seen ==> id in Insert(s, c, now, lifetime).seen
  {}

  lemma DecideEntries(s: Service, x: string, confirmed: bool, now: int, lifetime: int, id: string)
    ensures var t := DecideStep(s, x, confirmed, now, lifetime);
            (id in t.pairings ==> id in s.pairings) && t.seen == s.seen
  {}

  /** Entries come only from registrations of new IDs, and IDs are never forgotten. */
  lemma StepEntries(cfg: Config, s: Service, e: Event, id: string)
    requires IsDigest(cfg.sum) && Legal(cfg, s, e)
    ensures id in Step(cfg, s, e).pairings ==> id in s.pairings || id !in s.seen
    ensures id in s.seen ==> id in Step(cfg, s, e).seen
  {
    match e
    case Register(_, _, _, _, _, locked) =>
      var c := Admitted(cfg, e);
      if c.Some? { InsertEntries(s, c.value, locked, cfg.lifetime, id); }
    case Decide(x, confirmed, now) => DecideEntries(s, x, confirmed, now, cfg.lifetime, id);
    case _ =>
  }

  lemma FlyingSeen(s: Service, id: string)
    requires Inv(c => true, s) && id in s.flying
    ensures id in s.seen
  {
    assert id in s.calls;
    assert CallInv(s, id);
  }

  lemma {:induction false} InTimeSeen(cfg: Config, es: seq<Event>, id: string)
    requires IsDigest(cfg.sum) && LegalRun(cfg, INITIAL, es) && ReturnedInTime(cfg, es, id)
    ensures id in Run(cfg, INITIAL, es).seen
  {
    var init := es[..|es| - 1];
    var s := Run(cfg, INITIAL, init);
    RunInv(cfg, c => true, init);
    if ReturnedInTime(cfg, init, id) { InTimeSeen(cfg, init, id); } else { FlyingSeen(s, id); }
    StepEntries(cfg, s, es[|es| - 1], id);
  }

  /**
   When a pin does imply Paired: in every run, an entry that is still listed shows Paired if and only if
   `Activate` returned without error while the entry was waiting.
   */
  lemma {:induction false} PairedExactly(cfg: Config, es: seq<Event>, id: string)
    requires IsDigest(cfg.sum) && LegalRun(cfg, INITIAL, es) && id in Run(cfg, INITIAL, es).pairings
    ensures ShowsPaired(Run(cfg, INITIAL, es), id) <==> ReturnedInTime(cfg, es, id)
  {
    if es == [] {
    } else {
      var init, e := es[..|es| - 1], es[|es| - 1];
      var s := Run(cfg, INITIAL, init);
      RunInv(cfg, c => true, init);
      StepPaired(cfg, s, e, id);
      StepEntries(cfg, s, e, id);
      if id in s.pairings {
        PairedExactly(cfg, init, id);
      } else if ReturnedInTime(cfg, init, id) {
        InTimeSeen(cfg, init, id);
      }
    }
  }
}
