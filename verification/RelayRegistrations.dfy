/**
 A session's life from the registry's side, over whole runs: who gets to register, what a
 registration and a kill bring about, and how a session ends.
 */
module RelayRegistrations {
  import opened Common
  import opened RelaySession
  import opened RelayRegistry
  import opened RelayCell
  import opened RelayCellProofs
  import opened RelayMachine
  import opened RelayTheorems

  // ---- registering --------------------------------------------------------------------------

  /** Action `a` in state `s` is a proven registration that object `o` is made for. */
  ghost predicate Registers(s: Relay, a: Action, o: nat) {
    && a.Register? && a.proven && a.cert.Some?
    && s.nextObj == o && a.id !in s.registry.sessions && a.id !in s.registry.killed
  }

  lemma OnlyRegisterMakesObjects(s: Relay, a: Action, o: nat)
    requires o !in s.slots && o in s.Apply(a).slots && s.slots.Keys == s.cells.Keys
    ensures Registers(s, a, o) && o in s.Apply(a).cells
    ensures s.Apply(a).slots[o].id == a.id
    ensures var c := s.Apply(a).cells[o]; c.state.mode == a.mode && c.state.ports == a.ports && Some(c.state.publisherCert) == a.cert
  {
    hide Cell.Step, Cell.Join, Cell.Shutdown;
  }

  lemma FixedByLife(past: seq<Action>, future: seq<Action>, o: nat)
    requires o in Run(past).slots && o in Run(past).cells
    ensures o in Run(past + future).slots && Run(past + future).slots[o].id == Run(past).slots[o].id
    ensures o in Run(past + future).cells
    ensures var x, y := CellAfter(past, o).state, CellAfter(past + future, o).state;
            y.mode == x.mode && y.ports == x.ports && y.publisherCert == x.publisherCert
  {
    Later(past, future, o);
    hide Inv, CellsLive, Lives, Cell.Inv;
    RunIsGood(past, future);
  }

  lemma SlotsAreCells(actions: seq<Action>, o: nat)
    ensures Run(actions).slots.Keys == Run(actions).cells.Keys
  {
    hide SlotsProper, CellsProper, ClosedAreUnreachable, Evolves;
    RunIsGood(actions, []);
  }

  lemma ProvenWhenRegisters(s: Relay, a: Action, o: nat)
    requires Registers(s, a, o)
    ensures a.Register? && a.proven
  {
  }

  /**
   In every run every session object was made by a registration whose claim was proven, under
   the identifier, mode, port count and certificate it has had ever since, when that
   identifier was neither taken nor banned.
   */
  lemma {:induction false} SessionsAreProven(actions: seq<Action>, o: nat) returns (k: nat)
    requires o in Run(actions).slots && o in Run(actions).cells
    ensures k < |actions| && Registers(Run(actions[..k]), actions[k], o)
    ensures var x := CellAfter(actions, o).state;
            actions[k] == Register(Run(actions).slots[o].id, x.mode, x.ports, Some(x.publisherCert), true)
    decreases |actions|
  {
    hide Relay.Apply, Registers;
    if actions == [] {
      assert false;
    } else {
      var past, a := actions[..|actions| - 1], actions[|actions| - 1];
      assert past + [a] == actions;
      LastAction(past, a);
      SlotsAreCells(past, o);
      hide Run;
      if o in Run(past).slots {
        k := SessionsAreProven(past, o);
        assert actions[..k] == past[..k];
        FixedByLife(past, [a], o);
      } else {
        k := |past|;
        OnlyRegisterMakesObjects(Run(past), a, o);
        assert actions[..k] == past;
        assert a.proven by { ProvenWhenRegisters(Run(past), a, o); }
      }
    }
  }

  /**
   What a registration does, in every run: with the claim proven, a certificate, and an
   identifier neither taken nor banned it maps that identifier to a new, open, empty session
   of its mode, port count and certificate; otherwise it changes nothing at all.
   */
  lemma RegisteringMapsIff(actions: seq<Action>, id: SessionID, mode: nat, ports: nat, cert: Option<Cert>, proven: bool)
    ensures var s := Run(actions);
            var u := s.Apply(Register(id, mode, ports, cert, proven));
            if proven && cert.Some? && id !in s.registry.sessions && id !in s.registry.killed then
              && s.nextObj !in s.slots && u.registry.sessions == s.registry.sessions[id := s.nextObj]
              && u.registry.killed == s.registry.killed
              && s.nextObj in u.slots && u.slots[s.nextObj] == Slot(id, Acking, false)
              && s.nextObj in u.cells && u.cells[s.nextObj] == Cell(
                SessionState(mode, ports, s.nextTid, cert.value, false, map[], 0, map[], 0, map[], map[]), map[], EMPTY_LEDGER)
              && (forall o :: o in s.cells ==> o in u.cells && u.cells[o] == s.cells[o])
            else u == s
  {
    hide SlotsProper, ClosedAreUnreachable, Evolves, CellProper;
    RunIsGood(actions, []);
    hide Run;
  }

  // ---- between registering and leaving --------------------------------------------------------

  /** Until its publisher leaves or it is killed, a session stays mapped under its identifier, and open. */
  lemma HeldSessionIsFound(actions: seq<Action>, o: nat)
    requires o in Run(actions).slots && Run(actions).slots[o].phase.HoldsSlot()
    requires Run(actions).slots[o].id !in Run(actions).registry.killed
    ensures var s := Run(actions);
            && s.slots[o].id in s.registry.sessions && s.registry.sessions[s.slots[o].id] == o
            && o in s.cells && !s.cells[o].state.closed
  {
    hide CellProper, Evolves;
    RunIsGood(actions, []);
    hide Run;
    assert SlotProper(Run(actions).registry, o, Run(actions).slots[o]);
  }

  /** An ack that is written makes a publisher live, one that fails sends it on its way out, and so does leaving. */
  lemma AckDecides(s: Relay, o: nat, ok: bool)
    requires o in s.slots
    ensures s.slots[o].phase.Acking? ==>
              s.Apply(PublisherAcked(o, ok)) == s.(slots := s.slots[o := s.slots[o].(phase := if ok then Live else Leaving)])
    ensures s.slots[o].phase.Live? ==> s.Apply(PublisherLeft(o)) == s.(slots := s.slots[o := s.slots[o].(phase := Leaving)])
  {
  }

  // ---- the end --------------------------------------------------------------------------------

  /**
   The session is closed, every subscriber attached to it in `before` has been handed out for
   notification, and goroutine `t` has been handed every pending request, to close it.
   */
  ghost predicate ClosedAndTold(before: Cell, after: Cell, t: nat) {
    && after.state.closed && after.state.pending == map[]
    && t in after.actors && after.actors[t] == Sweeping(before.state.pending.Keys)
    && (!before.state.closed ==>
          after.ledger.notices == multiset(set i | i in before.state.subscribers :: (i, before.state.subscribers[i].control)))
  }

  lemma ShutdownEnds(c: Cell, t: nat)
    requires c.Inv() && t !in c.actors
    ensures ClosedAndTold(c, c.Shutdown(t), t)
  {
    ShutdownIsGood(c, t);
    hide GoodStep;
  }

  lemma CellIsReady(actions: seq<Action>, o: nat)
    requires o in Run(actions).cells
    ensures CellAfter(actions, o).Inv() && Run(actions).nextTid !in CellAfter(actions, o).actors
  {
    hide SlotsProper, ClosedAreUnreachable, Evolves, Cell.Inv, SessionState.Valid;
    RunIsGood(actions, []);
    assert CellProper(CellAfter(actions, o), Run(actions).nextTid);
  }

  /**
   A publisher that leaves, in every run: its two steps out leave its identifier unmapped, its
   session closed, and every subscriber told.
   */
  lemma LeavingEndsTheSession(actions: seq<Action>, o: nat)
    requires o in Run(actions).slots && Run(actions).slots[o].phase.Leaving? && o in Run(actions).cells
    ensures var s := Run(actions);
            var u := s.Apply(Unslot(o)).Apply(PublisherShutdown(o));
            && s.slots[o].id !in u.registry.sessions
            && o in u.cells && ClosedAndTold(s.cells[o], u.cells[o], s.nextTid)
            && o in u.slots && u.slots[o].phase.Gone?
  {
    CellIsReady(actions, o);
    hide Run, Cell.Inv, ClosedAndTold, Cell.Shutdown;
    var s := Run(actions);
    ShutdownEnds(s.cells[o], s.nextTid);
  }

  /** `id` is the one live identifier with the tag. */
  ghost predicate OnlyOne(sessions: map<SessionID, nat>, tag: nat, id: SessionID) {
    forall x :: x in sessions && x.LogTag() == tag <==> x == id
  }

  /**
   A kill, in every run: with exactly one live session under the tag it bans and unmaps that
   one, and its shutdown closes the session and tells every subscriber; with none or several
   it changes nothing.
   */
  lemma KillingEndsIff(actions: seq<Action>, tag: nat, id: SessionID)
    ensures var s := Run(actions);
            var u := s.Apply(Kill(tag, id));
            if OnlyOne(s.registry.sessions, tag, id) then
              var o := s.registry.sessions[id];
              && u.registry.killed == s.registry.killed + {id} && u.registry.sessions == s.registry.sessions - {id}
              && o in s.cells && var v := u.Apply(KillShutdown(o));
              && v.registry == u.registry && o in v.cells && ClosedAndTold(s.cells[o], v.cells[o], s.nextTid)
            else u == s
  {
    var s := Run(actions);
    hide ClosedAndTold, Cell.Shutdown;
    if OnlyOne(s.registry.sessions, tag, id) {
      assert id in s.registry.sessions;
      LookupFindsOpenSession(actions, id);
      CellIsReady(actions, s.registry.sessions[id]);
      ShutdownEnds(s.cells[s.registry.sessions[id]], s.nextTid);
    }
    hide Run, Cell.Inv;
  }
}
