/**
 The whole relay as a state machine: the registry, every session object ever created,
 and the goroutines working on them, interleaved one critical section at a time.

 `Apply` is total: an action that is not enabled leaves the state alone, so a run is
 nothing but a sequence of actions and every theorem quantifies over all of them.
 Session objects are numbered, because one SessionID can name several in succession.
 */
module RelayMachine {
  import opened Common
  import opened RelaySession
  import opened RelayRegistry
  import opened RelayCell
  import opened RelayCellProofs

  /** Where the publisher's own handler stands: Register, its heartbeat loop, its defers. */
  datatype Phase = Acking | Live | Leaving | Unslotted | Gone {
    /** The handler has been given the slot and has not yet deleted it. */
    predicate HoldsSlot() { Acking? || Live? || Leaving? }
  }

  /** The publisher's handler for one object, and whether a Kill has still to shut the object down. */
  datatype Slot = Slot(id: SessionID, phase: Phase, killing: bool)

  datatype Action =
    | Register(id: SessionID, mode: nat, ports: nat, cert: Option<Cert>, proven: bool)
    | PublisherAcked(o: nat, ok: bool)
    | PublisherLeft(o: nat)
    | Unslot(o: nat)
    | PublisherShutdown(o: nat)
    | Kill(tag: nat, id: SessionID)
    | KillShutdown(o: nat)
    | Subscribe(id: SessionID, mode: nat, ports: nat, cert: Option<Cert>)
    | AttachSubscriber(id: SessionID, port: nat, cert: Option<Cert>)
    | AttachPublisher(id: SessionID, req: nat, cert: Option<Cert>)
    | TimerFires(o: nat, req: nat)
    | Handler(o: nat, t: nat, ok: bool, choice: nat)

  const EMPTY_LEDGER := Ledger(map[], map[], map[], {}, map[], multiset{})

  datatype Relay = Relay(registry: RegistryState<nat>, slots: map<nat, Slot>, cells: map<nat, Cell>, nextObj: nat, nextTid: nat) {

    /** What Register answers: a claim that is not proven learns nothing but AckDenied. */
    function RegisterAnswer(id: SessionID, cert: Option<Cert>, proven: bool): AckStatus {
      if cert.None? || !proven then AckDenied else registry.ClaimVerdict(id)
    }

    /** Object `o` becomes `c`; a new goroutine, if any, was given the next number. */
    function Put(o: nat, c: Cell, tid: nat): Relay {
      Relay(registry, slots, cells[o := c], nextObj, tid)
    }

    function Move(o: nat, slot: Slot, r: RegistryState<nat>): Relay {
      Relay(r, slots[o := slot], cells, nextObj, nextTid)
    }

    /** A goroutine that looked `id` up and passed `check` starts on that session. */
    function Join(id: SessionID, check: SessionState -> bool, a: Actor, cert: Option<Cert>): Relay {
      if id !in registry.sessions || registry.sessions[id] !in cells then this
      else
        var o := registry.sessions[id];
        if check(cells[o].state) then Put(o, cells[o].Join(nextTid, a, cert), nextTid + 1) else this
    }

    function DoRegister(id: SessionID, mode: nat, ports: nat, cert: Option<Cert>, proven: bool): Relay {
      if RegisterAnswer(id, cert, proven) != AckOK then this
      else
        var c := Cell(NewSession(mode, ports, nextTid, cert.value), map[], EMPTY_LEDGER);
        Relay(registry.Claim(id, nextObj), slots[nextObj := Slot(id, Acking, false)], cells[nextObj := c],
              nextObj + 1, nextTid + 1)
    }

    function DoUnslot(o: nat): Relay {
      if o in slots && slots[o].phase.Leaving?
      then Move(o, slots[o].(phase := Unslotted), registry.Unregister(slots[o].id))
      else this
    }

    function DoShutdown(o: nat, slot: Slot): Relay {
      if o in cells then Move(o, slot, registry).Put(o, cells[o].Shutdown(nextTid), nextTid + 1) else this
    }

    ghost function DoKill(tag: nat, id: SessionID): Relay {
      if registry.NamedOnlyBy(tag, id) && registry.sessions[id] in slots
      then var o := registry.sessions[id]; Move(o, slots[o].(killing := true), registry.Ban(id))
      else this
    }

    ghost function Apply(a: Action): Relay {
      match a
      case Register(id, mode, ports, cert, proven) => DoRegister(id, mode, ports, cert, proven)
      case PublisherAcked(o, ok) =>
        if o in slots && slots[o].phase.Acking?
        then Move(o, slots[o].(phase := if ok then Live else Leaving), registry) else this
      case PublisherLeft(o) =>
        if o in slots && slots[o].phase.Live? then Move(o, slots[o].(phase := Leaving), registry) else this
      case Unslot(o) => DoUnslot(o)
      case PublisherShutdown(o) =>
        if o in slots && slots[o].phase.Unslotted? then DoShutdown(o, slots[o].(phase := Gone)) else this
      case Kill(tag, id) => DoKill(tag, id)
      case KillShutdown(o) =>
        if o in slots && slots[o].killing then DoShutdown(o, slots[o].(killing := false)) else this
      case Subscribe(id, mode, ports, cert) =>
        Join(id, (s: SessionState) => SubscribeVerdict(s, mode, ports) == AckOK, Subscribing, cert)
      case AttachSubscriber(id, port, cert) =>
        Join(id, (s: SessionState) => AttachVerdict(s, port) == AckOK, DataAttaching(port), cert)
      case AttachPublisher(id, req, cert) =>
        Join(id, (s: SessionState) => cert == Some(s.publisherCert), PublisherClaiming(req), cert)
      case TimerFires(o, req) =>
        if o in cells && req in cells[o].ledger.admitted
        then Put(o, cells[o].At(nextTid, Removing(req, false)), nextTid + 1) else this
      case Handler(o, t, ok, choice) =>
        if o in cells then Put(o, cells[o].Step(t, ok, choice), nextTid) else this
    }
  }

  const START: Relay := Relay(RegistryState(map[], {}), map[], map[], 0, 0)

  ghost function Continue(s: Relay, actions: seq<Action>): Relay
    decreases actions
  {
    if actions == [] then s else Continue(s.Apply(actions[0]), actions[1..])
  }

  /** The state after `actions`. */
  ghost function Run(actions: seq<Action>): Relay {
    Continue(START, actions)
  }

  lemma {:induction false} ContinueAppend(s: Relay, a: seq<Action>, b: seq<Action>)
    ensures Continue(s, a + b) == Continue(Continue(s, a), b)
    decreases a
  {
    if a == [] {
      assert a + b == b;
    } else {
      assert (a + b)[0] == a[0] && (a + b)[1..] == a[1..] + b;
      ContinueAppend(s.Apply(a[0]), a[1..], b);
    }
  }

  // ---- the invariant ----------------------------------------------------------------

  /** Each handler holding a slot has its own session mapped, or its identifier is unmapped and banned. */
  ghost predicate SlotProper(registry: RegistryState<nat>, o: nat, slot: Slot) {
    && (slot.phase.HoldsSlot() ==>
          if slot.id in registry.sessions then registry.sessions[slot.id] == o else slot.id in registry.killed)
    && (slot.killing ==> slot.id in registry.killed)
  }

  ghost predicate SlotsProper(registry: RegistryState<nat>, slots: map<nat, Slot>) {
    && (forall o :: o in slots ==> SlotProper(registry, o, slots[o]))
    && (forall id :: id in registry.sessions ==>
          && id !in registry.killed && registry.sessions[id] in slots
          && slots[registry.sessions[id]].id == id && slots[registry.sessions[id]].phase.HoldsSlot())
  }

  ghost predicate CellProper(c: Cell, nextTid: nat) {
    && c.state.Valid() && c.Inv()
    && (forall t :: t in c.actors ==> t < nextTid)
    && (forall t :: t in c.ledger.presented ==> t < nextTid)
  }

  ghost predicate CellsProper(s: Relay) {
    forall o :: o in s.cells ==> o < s.nextObj && o in s.slots && CellProper(s.cells[o], s.nextTid)
  }

  /** A closed session object is out of its publisher's hands, or banned: lookups cannot find it. */
  ghost predicate ClosedAreUnreachable(s: Relay) {
    forall o :: o in s.cells && o in s.slots && s.cells[o].state.closed ==>
      !s.slots[o].phase.HoldsSlot() || s.slots[o].id in s.registry.killed
  }

  ghost predicate Inv(s: Relay) {
    && SlotsProper(s.registry, s.slots)
    && s.slots.Keys == s.cells.Keys
    && CellsProper(s)
    && ClosedAreUnreachable(s)
  }

  ghost predicate Lives(c: Cell, d: Cell) {
    Extends(c, d) && StaysShut(c, d)
  }

  ghost predicate CellsLive(before: map<nat, Cell>, after: map<nat, Cell>) {
    forall o :: o in before ==> o in after && Lives(before[o], after[o])
  }

  /**
   Every session object lives on under its identifier and keeps its ledger, a ban is never
   lifted, and no object is ever created for a banned identifier.
   */
  ghost predicate Evolves(s: Relay, u: Relay) {
    && s.registry.killed <= u.registry.killed
    && (forall o :: o in u.slots && o !in s.slots ==> u.slots[o].id !in s.registry.killed)
    && (forall o :: o in s.slots ==> o in u.slots && u.slots[o].id == s.slots[o].id)
    && CellsLive(s.cells, u.cells)
  }

  ghost predicate GoodMove(s: Relay, u: Relay) {
    Inv(u) && Evolves(s, u)
  }

  // ---- the kinds of move ----------------------------------------------------------------

  lemma SameLives(c: Cell, tid: nat)
    requires CellProper(c, tid)
    ensures Lives(c, c)
  {
  }

  lemma CellsLiveUnchanged(s: Relay)
    requires CellsProper(s)
    ensures CellsLive(s.cells, s.cells)
  {
    hide CellProper, Lives;
    forall o | o in s.cells ensures Lives(s.cells[o], s.cells[o]) {
      SameLives(s.cells[o], s.nextTid);
    }
  }

  lemma NothingMoves(s: Relay)
    requires Inv(s)
    ensures GoodMove(s, s)
  {
    hide CellsLive, CellProper;
    CellsLiveUnchanged(s);
  }

  lemma CellProperLater(c: Cell, tid: nat, later: nat)
    requires CellProper(c, tid) && tid <= later
    ensures CellProper(c, later)
  {
  }

  /** A change to one object, by old goroutines or by the next new one. */
  lemma PutIsGood(s: Relay, o: nat, c: Cell, tid: nat)
    requires Inv(s) && o in s.cells && s.nextTid <= tid
    requires Lives(s.cells[o], c) && CellProper(c, tid)
    requires c.state.closed ==> s.cells[o].state.closed || !s.slots[o].phase.HoldsSlot() || s.slots[o].id in s.registry.killed
    ensures GoodMove(s, s.Put(o, c, tid))
  {
    hide SlotsProper, Lives, CellProper;
    CellsLiveUnchanged(s);
    var u := s.Put(o, c, tid);
    assert u.cells.Keys == s.cells.Keys;
    assert CellsProper(u) by {
      forall p | p in u.cells ensures CellProper(u.cells[p], tid) {
        if p != o { CellProperLater(s.cells[p], s.nextTid, tid); }
      }
    }
  }

  /** A change to one publisher's slot that keeps the map and the ban list in step with it. */
  lemma MoveIsGood(s: Relay, o: nat, slot: Slot, r: RegistryState<nat>)
    requires Inv(s) && o in s.slots && slot.id == s.slots[o].id
    requires SlotsProper(r, s.slots[o := slot]) && s.registry.killed <= r.killed
    requires slot.phase.HoldsSlot() ==> s.slots[o].phase.HoldsSlot()
    ensures GoodMove(s, s.Move(o, slot, r))
  {
    hide SlotsProper, CellsLive, CellProper;
    CellsLiveUnchanged(s);
    assert s.Move(o, slot, r).slots.Keys == s.slots.Keys;
  }

  // ---- every action is a good move ---------------------------------------------------------

  lemma FreshCellIsProper(mode: nat, ports: nat, publisher: Conn, cert: Cert, tid: nat)
    ensures CellProper(Cell(NewSession(mode, ports, publisher, cert), map[], EMPTY_LEDGER), tid)
  {
    hide SessionState.Valid;
    NewSessionIsValid(mode, ports, publisher, cert);
  }

  lemma NewSlotIsProper(r: RegistryState<nat>, slots: map<nat, Slot>, id: SessionID, o: nat)
    requires SlotsProper(r, slots) && r.ClaimVerdict(id) == AckOK && o !in slots
    ensures SlotsProper(r.Claim(id, o), slots[o := Slot(id, Acking, false)])
  {
    var after := slots[o := Slot(id, Acking, false)];
    forall p | p in after ensures SlotProper(r.Claim(id, o), p, after[p]) {
      if p != o { assert SlotProper(r, p, slots[p]); }
    }
  }

  lemma RegisterKeepsSlots(s: Relay, id: SessionID)
    requires Inv(s) && s.registry.ClaimVerdict(id) == AckOK
    ensures SlotsProper(s.registry.Claim(id, s.nextObj), s.slots[s.nextObj := Slot(id, Acking, false)])
  {
    hide CellProper, SlotsProper, ClosedAreUnreachable;
    NewSlotIsProper(s.registry, s.slots, id, s.nextObj);
  }

  /** A new object beside the old ones. */
  lemma NewObjectIsGood(s: Relay, u: Relay, slot: Slot, c: Cell)
    requires Inv(s) && SlotsProper(u.registry, u.slots) && u.registry.killed == s.registry.killed
    requires u.slots == s.slots[s.nextObj := slot] && u.cells == s.cells[s.nextObj := c]
    requires u.nextObj == s.nextObj + 1 && u.nextTid == s.nextTid + 1
    requires CellProper(c, u.nextTid) && !c.state.closed && slot.id !in s.registry.killed
    ensures GoodMove(s, u)
  {
    hide CellProper, SlotsProper, Lives;
    CellsLiveUnchanged(s);
    assert s.nextObj !in s.cells && s.nextObj !in s.slots;
    assert u.slots.Keys == s.slots.Keys + {s.nextObj};
    assert u.cells.Keys == s.cells.Keys + {s.nextObj};
    forall p | p in s.cells ensures CellProper(s.cells[p], u.nextTid) {
      CellProperLater(s.cells[p], s.nextTid, u.nextTid);
    }
  }

  lemma RegisterIsGood(s: Relay, id: SessionID, mode: nat, ports: nat, cert: Option<Cert>, proven: bool)
    requires Inv(s)
    ensures GoodMove(s, s.DoRegister(id, mode, ports, cert, proven))
  {
    hide CellProper, SlotsProper, GoodMove, CellsProper, ClosedAreUnreachable;
    if s.RegisterAnswer(id, cert, proven) != AckOK {
      NothingMoves(s);
    } else {
      RegisterKeepsSlots(s, id);
      FreshCellIsProper(mode, ports, s.nextTid, cert.value, s.nextTid + 1);
      var c := Cell(NewSession(mode, ports, s.nextTid, cert.value), map[], EMPTY_LEDGER);
      NewObjectIsGood(s, s.DoRegister(id, mode, ports, cert, proven), Slot(id, Acking, false), c);
    }
  }

  lemma PhaseIsGood(s: Relay, o: nat, phase: Phase)
    requires Inv(s) && o in s.slots && s.slots[o].phase.HoldsSlot() && phase.HoldsSlot()
    ensures GoodMove(s, s.Move(o, s.slots[o].(phase := phase), s.registry))
  {
    hide CellProper, CellsProper, Lives;
    MoveIsGood(s, o, s.slots[o].(phase := phase), s.registry);
  }

  /** The unconditional delete takes away the caller's own object, or nothing. */
  lemma UnslotTakesOnlyItsOwn(s: Relay, o: nat)
    requires Inv(s) && o in s.slots && s.slots[o].phase.Leaving?
    ensures s.slots[o].id in s.registry.sessions ==> s.registry.sessions[s.slots[o].id] == o
    ensures SlotsProper(s.registry.Unregister(s.slots[o].id), s.slots[o := s.slots[o].(phase := Unslotted)])
  {
    hide CellProper, CellsProper, Lives;
    assert SlotProper(s.registry, o, s.slots[o]);
    var r := s.registry.Unregister(s.slots[o].id);
    forall p | p in s.slots && p != o ensures SlotProper(r, p, s.slots[p]) {
      assert SlotProper(s.registry, p, s.slots[p]);
    }
  }

  lemma UnslotIsGood(s: Relay, o: nat)
    requires Inv(s)
    ensures GoodMove(s, s.DoUnslot(o))
  {
    hide SlotsProper, CellsProper, ClosedAreUnreachable, Evolves;
    if o in s.slots && s.slots[o].phase.Leaving? {
      UnslotTakesOnlyItsOwn(s, o);
      MoveIsGood(s, o, s.slots[o].(phase := Unslotted), s.registry.Unregister(s.slots[o].id));
    } else {
      NothingMoves(s);
    }
  }

  lemma BanKeepsSlots(s: Relay, id: SessionID)
    requires Inv(s) && id in s.registry.sessions
    ensures var o := s.registry.sessions[id];
            o in s.slots && s.slots[o].id == id
            && SlotsProper(s.registry.Ban(id), s.slots[o := s.slots[o].(killing := true)])
  {
    hide CellProper, CellsProper, Lives;
    var r := s.registry.Ban(id);
    forall p | p in s.slots ensures SlotProper(r, p, s.slots[p]) {
      assert SlotProper(s.registry, p, s.slots[p]);
    }
  }

  lemma KillIsGood(s: Relay, tag: nat, id: SessionID)
    requires Inv(s)
    ensures GoodMove(s, s.DoKill(tag, id))
  {
    hide SlotsProper, CellsProper, ClosedAreUnreachable, Evolves;
    if s.registry.NamedOnlyBy(tag, id) && s.registry.sessions[id] in s.slots {
      BanKeepsSlots(s, id);
      var o := s.registry.sessions[id];
      MoveIsGood(s, o, s.slots[o].(killing := true), s.registry.Ban(id));
    } else {
      NothingMoves(s);
    }
  }

  lemma GoodMovesCompose(s: Relay, u: Relay, v: Relay)
    requires GoodMove(s, u) && GoodMove(u, v)
    ensures GoodMove(s, v)
  {
    hide Inv, Extends;
    forall o | o in s.cells ensures o in v.cells && Lives(s.cells[o], v.cells[o]) {
      assert Lives(s.cells[o], u.cells[o]) && Lives(u.cells[o], v.cells[o]);
      ExtendsTransitive(s.cells[o], u.cells[o], v.cells[o]);
    }
  }

  lemma JoinIsProper(c: Cell, t: nat, a: Actor, cert: Option<Cert>)
    requires CellProper(c, t) && ActorProper(t, a, c.Join(t, a, cert).Seen())
    ensures CellProper(c.Join(t, a, cert), t + 1) && Lives(c, c.Join(t, a, cert))
  {
    hide SessionState.Valid;
    JoinIsGood(c, t, a, cert);
  }

  lemma TimerIsProper(c: Cell, t: nat, req: nat)
    requires CellProper(c, t) && req in c.ledger.admitted
    ensures CellProper(c.At(t, Removing(req, false)), t + 1) && Lives(c, c.At(t, Removing(req, false)))
  {
    hide SessionState.Valid;
    RelayCellProofs.MoveIsGood(c, t, c.At(t, Removing(req, false)));
  }

  lemma IdleStep(c: Cell, t: nat, ok: bool, choice: nat)
    requires t !in c.actors
    ensures c.Step(t, ok, choice) == c
  {
  }

  lemma HandlerIsProper(c: Cell, t: nat, ok: bool, choice: nat, tid: nat)
    requires CellProper(c, tid)
    ensures CellProper(c.Step(t, ok, choice), tid) && Lives(c, c.Step(t, ok, choice))
    ensures c.Step(t, ok, choice).state.closed == c.state.closed
  {
    hide Cell.Inv, Cell.Step;
    StepIsGood(c, t, ok, choice);
    StepIsLocal(c, t, ok, choice);
    if t !in c.actors {
      IdleStep(c, t, ok, choice);
    }
  }

  lemma ShutdownIsProper(c: Cell, t: nat)
    requires CellProper(c, t)
    ensures CellProper(c.Shutdown(t), t + 1) && Lives(c, c.Shutdown(t))
  {
    hide SessionState.Valid;
    ShutdownIsGood(c, t);
    ShutdownKeepsValid(c.state);
  }

  // ---- and so is every action on them ----------------------------------------------------

  lemma JoinIsGoodMove(s: Relay, id: SessionID, check: SessionState -> bool, a: Actor, cert: Option<Cert>)
    requires Inv(s)
    requires forall c: Cell, t :: check(c.state) ==> ActorProper(t, a, c.Join(t, a, cert).Seen())
    ensures GoodMove(s, s.Join(id, check, a, cert))
  {
    hide CellProper, GoodMove, Lives, SlotsProper, ClosedAreUnreachable;
    NothingMoves(s);
    if id in s.registry.sessions && s.registry.sessions[id] in s.cells && check(s.cells[s.registry.sessions[id]].state) {
      var o := s.registry.sessions[id];
      JoinIsProper(s.cells[o], s.nextTid, a, cert);
      PutIsGood(s, o, s.cells[o].Join(s.nextTid, a, cert), s.nextTid + 1);
    }
  }

  lemma WorkIsGoodMove(s: Relay, o: nat, req: nat, t: nat, ok: bool, choice: nat)
    requires Inv(s) && o in s.cells
    ensures GoodMove(s, s.Put(o, s.cells[o].Step(t, ok, choice), s.nextTid))
    ensures req in s.cells[o].ledger.admitted ==>
              GoodMove(s, s.Put(o, s.cells[o].At(s.nextTid, Removing(req, false)), s.nextTid + 1))
  {
    hide CellProper, GoodMove, Lives, SlotsProper, ClosedAreUnreachable, Cell.Step;
    HandlerIsProper(s.cells[o], t, ok, choice, s.nextTid);
    PutIsGood(s, o, s.cells[o].Step(t, ok, choice), s.nextTid);
    if req in s.cells[o].ledger.admitted {
      TimerIsProper(s.cells[o], s.nextTid, req);
      PutIsGood(s, o, s.cells[o].At(s.nextTid, Removing(req, false)), s.nextTid + 1);
    }
  }

  lemma ShutdownKeepsSlots(s: Relay, o: nat, slot: Slot)
    requires Inv(s) && o in s.slots && slot.id == s.slots[o].id
    requires (s.slots[o].phase.Unslotted? && slot == s.slots[o].(phase := Gone))
             || (s.slots[o].killing && slot == s.slots[o].(killing := false))
    ensures SlotsProper(s.registry, s.slots[o := slot])
    ensures slot.phase.HoldsSlot() ==> s.slots[o].phase.HoldsSlot() && slot.id in s.registry.killed
    ensures o in s.cells && CellProper(s.cells[o], s.nextTid)
  {
    hide CellProper, Lives;
    assert SlotProper(s.registry, o, s.slots[o]);
  }

  /** The publisher's own shutdown, after the delete, or a Kill's, after the ban. */
  lemma ShutdownIsGoodMove(s: Relay, o: nat, slot: Slot)
    requires Inv(s) && o in s.slots && slot.id == s.slots[o].id
    requires (s.slots[o].phase.Unslotted? && slot == s.slots[o].(phase := Gone))
             || (s.slots[o].killing && slot == s.slots[o].(killing := false))
    ensures GoodMove(s, s.DoShutdown(o, slot))
  {
    hide CellProper, Lives, CellsLive, SlotsProper, CellsProper, ClosedAreUnreachable, Evolves;
    ShutdownKeepsSlots(s, o, slot);
    MoveIsGood(s, o, slot, s.registry);
    var u := s.Move(o, slot, s.registry);
    ShutdownIsProper(u.cells[o], u.nextTid);
    PutIsGood(u, o, u.cells[o].Shutdown(u.nextTid), u.nextTid + 1);
    GoodMovesCompose(s, u, s.DoShutdown(o, slot));
  }

  lemma ApplyIsGood(s: Relay, a: Action)
    requires Inv(s)
    ensures GoodMove(s, s.Apply(a))
  {
    hide SlotsProper, CellsProper, ClosedAreUnreachable, GoodMove, Cell.Step;
    NothingMoves(s);
    match a
    case Register(id, mode, ports, cert, proven) => RegisterIsGood(s, id, mode, ports, cert, proven);
    case PublisherAcked(o, ok) =>
      if o in s.slots && s.slots[o].phase.Acking? { PhaseIsGood(s, o, if ok then Live else Leaving); }
    case PublisherLeft(o) =>
      if o in s.slots && s.slots[o].phase.Live? { PhaseIsGood(s, o, Leaving); }
    case Unslot(o) => UnslotIsGood(s, o);
    case PublisherShutdown(o) =>
      if o in s.slots && s.slots[o].phase.Unslotted? { ShutdownIsGoodMove(s, o, s.slots[o].(phase := Gone)); }
    case Kill(tag, id) => KillIsGood(s, tag, id);
    case KillShutdown(o) =>
      if o in s.slots && s.slots[o].killing { ShutdownIsGoodMove(s, o, s.slots[o].(killing := false)); }
    case Subscribe(id, mode, ports, cert) =>
      JoinIsGoodMove(s, id, (x: SessionState) => SubscribeVerdict(x, mode, ports) == AckOK, Subscribing, cert);
    case AttachSubscriber(id, port, cert) =>
      JoinIsGoodMove(s, id, (x: SessionState) => AttachVerdict(x, port) == AckOK, DataAttaching(port), cert);
    case AttachPublisher(id, req, cert) =>
      JoinIsGoodMove(s, id, (x: SessionState) => cert == Some(x.publisherCert), PublisherClaiming(req), cert);
    case TimerFires(o, req) => if o in s.cells { WorkIsGoodMove(s, o, req, 0, false, 0); }
    case Handler(o, t, ok, choice) => if o in s.cells { WorkIsGoodMove(s, o, 0, t, ok, choice); }
  }

  lemma {:induction false} ContinueIsGood(s: Relay, actions: seq<Action>)
    requires Inv(s)
    ensures GoodMove(s, Continue(s, actions))
    decreases actions
  {
    hide Inv, Evolves, Relay.Apply;
    if actions == [] {
      NothingMoves(s);
    } else {
      ApplyIsGood(s, actions[0]);
      ContinueIsGood(s.Apply(actions[0]), actions[1..]);
      GoodMovesCompose(s, s.Apply(actions[0]), Continue(s, actions));
    }
  }

  /** Every reachable state satisfies the invariant, and whatever follows only evolves it. */
  lemma RunIsGood(past: seq<Action>, future: seq<Action>)
    ensures Inv(Run(past)) && GoodMove(Run(past), Run(past + future))
  {
    assert Inv(START);
    ContinueIsGood(START, past);
    ContinueIsGood(Run(past), future);
    ContinueAppend(START, past, future);
  }
}
