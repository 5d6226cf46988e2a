/** What holds over every run of the relay. */
module RelayTheorems {
  import opened Common
  import opened RelaySession
  import opened RelayRegistry
  import opened RelayCell
  import opened RelayCellProofs
  import opened RelayMachine

  /** The state of object `o` after `actions`. */
  ghost function CellAfter(actions: seq<Action>, o: nat): Cell
    requires o in Run(actions).cells
  {
    Run(actions).cells[o]
  }

  lemma Later(past: seq<Action>, future: seq<Action>, o: nat)
    requires o in Run(past).cells
    ensures o in Run(past + future).cells && Lives(CellAfter(past, o), CellAfter(past + future, o))
    ensures CellAfter(past, o).Inv() && CellAfter(past + future, o).Inv()
  {
    hide Cell.Inv, Lives, SlotsProper, ClosedAreUnreachable, SessionState.Valid;
    RunIsGood(past, future);
    RunIsGood(past + future, []);
    assert CellProper(Run(past).cells[o], Run(past).nextTid);
    var u := Run(past + future);
    assert CellProper(u.cells[o], u.nextTid);
  }

  // ---- the registry ----------------------------------------------------------------------

  /** Whatever a publisher's unregister deletes from the map is that publisher's own session. */
  lemma UnregisterRemovesOnlyOwnSession(actions: seq<Action>, o: nat, id: SessionID)
    requires o in Run(actions).slots && Run(actions).slots[o].phase.Leaving?
    requires id in Run(actions).registry.sessions && id !in Run(actions + [Unslot(o)]).registry.sessions
    ensures Run(actions).registry.sessions[id] == o
  {
    hide CellsProper, ClosedAreUnreachable, Evolves;
    RunIsGood(actions, []);
    ContinueAppend(START, actions, [Unslot(o)]);
    UnslotTakesOnlyItsOwn(Run(actions), o);
    assert Continue(Run(actions), [Unslot(o)]) == Run(actions).DoUnslot(o) by {
      assert [Unslot(o)][1..] == [];
    }
  }

  /** A lookup by identifier only ever finds a session that is open, and not banned. */
  lemma LookupFindsOpenSession(actions: seq<Action>, id: SessionID)
    requires id in Run(actions).registry.sessions
    ensures var s := Run(actions);
            var o := s.registry.sessions[id];
            o in s.cells && o in s.slots && s.slots[o].id == id && !s.cells[o].state.closed && id !in s.registry.killed
  {
    hide CellProper, Evolves;
    RunIsGood(actions, []);
  }

  /** Once killed, an identifier is never mapped again, never gets another object, and is only ever denied. */
  lemma KillIsFinal(past: seq<Action>, future: seq<Action>, id: SessionID, cert: Option<Cert>, proven: bool)
    requires id in Run(past).registry.killed
    ensures var u := Run(past + future);
            && id !in u.registry.sessions
            && u.RegisterAnswer(id, cert, proven) == AckDenied
            && (forall o :: o in u.slots && u.slots[o].id == id ==> o in Run(past).slots)
  {
    hide CellsProper, ClosedAreUnreachable, CellsLive;
    RunIsGood(past, future);
    RunIsGood(past + future, []);
  }

  // ---- requests: one winner each -----------------------------------------------------------

  /** A request that has left the pending table never comes back, and its one fate never changes. */
  lemma RequestLeavesOnce(past: seq<Action>, future: seq<Action>, o: nat, req: nat)
    requires o in Run(past).cells && req in CellAfter(past, o).ledger.admitted && req !in CellAfter(past, o).state.pending
    ensures o in Run(past + future).cells
    ensures var c := CellAfter(past, o); var d := CellAfter(past + future, o);
            && req !in d.state.pending
            && req in c.ledger.fates && req in d.ledger.fates && d.ledger.fates[req] == c.ledger.fates[req]
  {
    hide StreamsProper, ActorProper, AdmissionsProper, ClosedOnlyByWinner, StreamsListed;
    Later(past, future, o);
  }

  /** A pending request has nobody who won it, and none of its session's goroutines has closed its connection. */
  lemma PendingIsUntouched(actions: seq<Action>, o: nat, req: nat)
    requires o in Run(actions).cells && req in CellAfter(actions, o).state.pending
    ensures var c := CellAfter(actions, o);
            && req in c.ledger.admitted && req !in c.ledger.fates && req !in c.ledger.recorded
            && c.state.pending[req] == Request(c.ledger.admitted[req].conn, c.ledger.admitted[req].port)
            && (forall closer :: (req, closer) !in c.ledger.closes)
  {
    hide ActorProper, AdmissionsProper, StreamsListed;
    Later(actions, [], o);
    var c := CellAfter(actions, o);
    assert req in c.ledger.recorded ==> StreamProper(req, c.ledger.recorded[req], c.ledger.admitted, c.ledger.fates, c.ledger.presented, c.state.publisherCert);
    forall closer ensures (req, closer) !in c.ledger.closes {
      match closer
      case ByClaimant =>
      case ByRemover =>
      case BySweeper =>
      case ByFailedAttach =>
    }
  }

  /** A claimed connection is never closed by a timer, by removePending or by shutdown: and so on for each winner. */
  lemma OnlyTheWinnerCloses(past: seq<Action>, future: seq<Action>, o: nat, req: nat, closer: Closer)
    requires o in Run(past).cells && req in CellAfter(past, o).ledger.fates
    requires o in Run(past + future).cells && (req, closer) in CellAfter(past + future, o).ledger.closes
    ensures match CellAfter(past, o).ledger.fates[req]
            case Claimed(_) => closer == ByClaimant || closer == ByFailedAttach
            case Removed(_) => closer == ByRemover || closer == ByFailedAttach
            case Swept(_) => closer == BySweeper || closer == ByFailedAttach
  {
    hide StreamsProper, ActorProper, AdmissionsProper, RequestsAccounted, StreamsListed;
    Later(past, future, o);
  }

  // ---- streams ---------------------------------------------------------------------------------

  ghost predicate ProperStream(s: Relay, o: nat, req: nat)
    requires o in s.cells && req in s.cells[o].ledger.recorded
  {
    var c := s.cells[o];
    var rec := c.ledger.recorded[req];
    && 0 <= rec.port < c.state.ports
    && c.CertOf(rec.publisherLeg) == Some(c.state.publisherCert)
    && req in c.ledger.admitted
    && c.ledger.admitted[req] == Admission(rec.subscriberLeg, rec.port)
  }

  lemma StepAdmits(c: Cell, t: nat, ok: bool, choice: nat, req: nat)
    requires req !in c.ledger.admitted && req in c.Step(t, ok, choice).ledger.admitted
    ensures t in c.actors && c.actors[t].DataAttaching? && c.Step(t, ok, choice) == c.AttachData(t, c.actors[t].port)
  {
    hide SessionState.AddSubscriber, SessionState.RemoveSubscriber, SessionState.AddPending, SessionState.ClaimPending,
      SessionState.AddStream, SessionState.RemoveStream;
  }

  lemma AttachDataNeedsAttached(c: Cell, t: nat, port: nat, req: nat)
    requires c.state.Valid() && req !in c.ledger.admitted && req in c.AttachData(t, port).ledger.admitted
    ensures c.AttachData(t, port).ledger.admitted[req] == Admission(t, port)
    ensures !c.state.closed && c.CertOf(t).Some? && c.state.Attached(c.CertOf(t).value)
  {
    hide SessionState.Valid;
    AdmissionIffAttached(c.state, t, port, c.CertOf(t));
  }

  /** Object `o` admits request `req` by action `a` in state `s`, while the session is open and its certificate attached. */
  ghost predicate AdmitsWhileAttached(s: Relay, a: Action, o: nat, req: nat, conn: Conn) {
    && o in s.cells && req !in s.cells[o].ledger.admitted
    && o in s.Apply(a).cells && req in s.Apply(a).cells[o].ledger.admitted
    && s.Apply(a).cells[o].ledger.admitted[req].conn == conn
    && !s.cells[o].state.closed
    && s.cells[o].CertOf(conn).Some? && s.cells[o].state.Attached(s.cells[o].CertOf(conn).value)
  }

  lemma AdmissionNeedsAttached(s: Relay, a: Action, o: nat, req: nat)
    requires Inv(s) && o in s.Apply(a).cells && req in s.Apply(a).cells[o].ledger.admitted
    requires o in s.cells ==> req !in s.cells[o].ledger.admitted
    ensures AdmitsWhileAttached(s, a, o, req, s.Apply(a).cells[o].ledger.admitted[req].conn)
  {
    hide Cell.Inv, SlotsProper, ClosedAreUnreachable, SessionState.Valid, Cell.Step, Cell.AttachData;
    if a.Handler? && o in s.cells && a.o == o {
      var c := s.cells[o];
      assert CellProper(c, s.nextTid);
      StepAdmits(c, a.t, a.ok, a.choice, req);
      AttachDataNeedsAttached(c, a.t, c.actors[a.t].port, req);
    }
  }

  lemma LastAction(past: seq<Action>, a: Action)
    ensures Run(past + [a]) == Run(past).Apply(a)
  {
    ContinueAppend(START, past, [a]);
    assert [a][1..] == [];
    assert Continue(Run(past), [a]) == Continue(Run(past).Apply(a), []);
  }

  lemma SameAdmission(past: seq<Action>, a: Action, o: nat, req: nat)
    requires o in Run(past).cells && req in CellAfter(past, o).ledger.admitted
    ensures o in Run(past + [a]).cells && req in CellAfter(past + [a], o).ledger.admitted
    ensures CellAfter(past + [a], o).ledger.admitted[req] == CellAfter(past, o).ledger.admitted[req]
  {
    hide Cell.Inv;
    Later(past, [a], o);
  }

  /** For every request there was a moment when it was admitted, and its exact certificate was attached then. */
  lemma {:induction false} AdmittedWhileAttached(actions: seq<Action>, o: nat, req: nat) returns (k: nat)
    requires o in Run(actions).cells && req in CellAfter(actions, o).ledger.admitted
    ensures k < |actions|
    ensures AdmitsWhileAttached(Run(actions[..k]), actions[k], o, req, CellAfter(actions, o).ledger.admitted[req].conn)
    decreases |actions|
  {
    hide Inv, Evolves, Relay.Apply, AdmitsWhileAttached, Cell.Inv;
    if actions == [] {
      assert false;
    }
    var past := actions[..|actions| - 1];
    var a := actions[|actions| - 1];
    assert past + [a] == actions;
    LastAction(past, a);
    RunIsGood(past, []);
    if o in Run(past).cells && req in CellAfter(past, o).ledger.admitted {
      k := AdmittedWhileAttached(past, o, req);
      assert actions[..k] == past[..k];
      SameAdmission(past, a, o, req);
    } else {
      k := |past|;
      AdmissionNeedsAttached(Run(past), a, o, req);
      assert actions[..k] == past;
    }
  }

  /**
   Every stream ever recorded pairs a publisher leg with exactly the registered certificate and
   the connection admitted for that request and port; and at the moment `k` of that admission
   the session was open and the exact certificate of that connection was attached to it.
   */
  lemma StreamsJoinAttachedPeers(actions: seq<Action>, o: nat, req: nat) returns (k: nat)
    requires o in Run(actions).cells && req in CellAfter(actions, o).ledger.recorded
    ensures ProperStream(Run(actions), o, req)
    ensures k < |actions|
    ensures AdmitsWhileAttached(Run(actions[..k]), actions[k], o, req, CellAfter(actions, o).ledger.recorded[req].subscriberLeg)
  {
    hide ActorProper, RequestsAccounted, StreamsListed, ClosedOnlyByWinner, AdmitsWhileAttached;
    Later(actions, [], o);
    var c := CellAfter(actions, o);
    assert StreamProper(req, c.ledger.recorded[req], c.ledger.admitted, c.ledger.fates, c.ledger.presented, c.state.publisherCert);
    k := AdmittedWhileAttached(actions, o, req);
  }

  // ---- closure -------------------------------------------------------------------------------

  /** A closed session stays closed: nothing pending, nobody admitted, no stream added, nobody told again. */
  lemma ClosureIsAbsorbing(past: seq<Action>, future: seq<Action>, o: nat)
    requires o in Run(past).cells && CellAfter(past, o).state.closed
    ensures o in Run(past + future).cells
    ensures StaysShut(CellAfter(past, o), CellAfter(past + future, o)) && CellAfter(past + future, o).state.closed
  {
    Later(past, future, o);
  }

  /** An open session has told nobody. */
  lemma OpenHasToldNobody(actions: seq<Action>, o: nat)
    requires o in Run(actions).cells && !CellAfter(actions, o).state.closed
    ensures CellAfter(actions, o).ledger.notices == multiset{}
  {
    Later(actions, [], o);
  }

  lemma JoinKeepsState(s: Relay, id: SessionID, check: SessionState -> bool, a: Actor, cert: Option<Cert>, o: nat)
    requires o in s.cells
    ensures o in s.Join(id, check, a, cert).cells && s.Join(id, check, a, cert).cells[o].state == s.cells[o].state
  {
  }

  /** Only a shutdown closes a session. */
  lemma ClosingIsShutdown(s: Relay, a: Action, o: nat)
    requires Inv(s) && o in s.cells && !s.cells[o].state.closed
    requires o in s.Apply(a).cells && s.Apply(a).cells[o].state.closed
    ensures s.Apply(a).cells[o] == s.cells[o].Shutdown(s.nextTid) && CellProper(s.cells[o], s.nextTid)
  {
    hide CellProper, SlotsProper, ClosedAreUnreachable, Cell.Step, Cell.Shutdown, Relay.Join, SessionState.Valid;
    match a
    case Handler(_, t, ok, choice) => HandlerIsProper(s.cells[o], t, ok, choice, s.nextTid);
    case Subscribe(id, mode, ports, cert) =>
      JoinKeepsState(s, id, (x: SessionState) => SubscribeVerdict(x, mode, ports) == AckOK, Subscribing, cert, o);
    case AttachSubscriber(id, port, cert) =>
      JoinKeepsState(s, id, (x: SessionState) => AttachVerdict(x, port) == AckOK, DataAttaching(port), cert, o);
    case AttachPublisher(id, req, cert) =>
      JoinKeepsState(s, id, (x: SessionState) => cert == Some(x.publisherCert), PublisherClaiming(req), cert, o);
    case _ =>
  }

  lemma ShutdownTellsEveryone(c: Cell, t: nat)
    requires CellProper(c, t) && !c.state.closed
    ensures c.Shutdown(t).ledger.notices
            == multiset(set id | id in c.state.subscribers :: (id, c.state.subscribers[id].control))
  {
    ShutdownIsGood(c, t);
  }

  /**
   Over all shutdown calls on a session, each subscriber attached when the session closed is
   handed out for notification exactly once, and nobody else ever is.
   */
  lemma NotifiedExactlyOnce(past: seq<Action>, a: Action, future: seq<Action>, o: nat)
    requires o in Run(past).cells && !CellAfter(past, o).state.closed
    requires o in Run(past + [a]).cells && CellAfter(past + [a], o).state.closed
    ensures o in Run(past + [a] + future).cells
    ensures CellAfter(past + [a] + future, o).ledger.notices
            == multiset(set id | id in CellAfter(past, o).state.subscribers :: (id, CellAfter(past, o).state.subscribers[id].control))
  {
    hide Inv, Cell.Inv, Relay.Apply, Evolves;
    RunIsGood(past, []);
    LastAction(past, a);
    ClosingIsShutdown(Run(past), a, o);
    ShutdownTellsEveryone(Run(past).cells[o], Run(past).nextTid);
    Later(past + [a], future, o);
  }
}
