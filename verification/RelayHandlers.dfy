/**
 Single handlers followed through whole runs, from the action that started them: who gets to
 be a subscriber, and what a failed attach ends up closing.
 */
module RelayHandlers {
  import opened Common
  import opened RelaySession
  import opened RelayRegistry
  import opened RelayCell
  import opened RelayCellProofs
  import opened RelayMachine
  import opened RelayOwnership
  import opened RelayTheorems

  // ---- a goroutine stands still while others move -------------------------------------------

  /** The next step of goroutine `t` on object `o`. */
  predicate Moves(a: Action, o: nat, t: nat) {
    a.Handler? && a.o == o && a.t == t
  }

  ghost predicate At(s: Relay, o: nat, t: nat, a: Actor) {
    o in s.cells && t in s.cells[o].actors && s.cells[o].actors[t] == a
  }

  /** Action `a` in state `s` starts handler `t` on object `o`, for a subscriber that matches the session. */
  ghost predicate StartsSubscriber(s: Relay, a: Action, o: nat, t: nat) {
    && a.Subscribe? && t == s.nextTid
    && a.id in s.registry.sessions && s.registry.sessions[a.id] == o && o in s.cells
    && s.cells[o].state.mode == a.mode && s.cells[o].state.ports == a.ports
  }

  /** The one new goroutine of an action, and what it begins with. */
  ghost predicate NewcomerOnly(s: Relay, a: Action, o: nat)
    requires o in s.cells && o in s.Apply(a).cells
  {
    var d := s.Apply(a).cells[o];
    && s.nextTid in d.actors && d.actors == s.cells[o].actors[s.nextTid := d.actors[s.nextTid]]
    && (d.actors[s.nextTid].Subscribing? ==>
          StartsSubscriber(s, a, o, s.nextTid)
          && s.nextTid in d.ledger.presented && d.ledger.presented[s.nextTid] == a.cert)
    && AttendedBy(d.actors, s.nextTid).None?
  }

  /** Object `o` after an action: a new object, one step, one newcomer, or the same program counters. */
  ghost predicate OneMove(s: Relay, a: Action, o: nat) {
    var u := s.Apply(a);
    o in u.cells ==>
      if o !in s.cells then u.cells[o].actors == map[]
      else if a.Handler? && a.o == o then u.cells[o] == s.cells[o].Step(a.t, a.ok, a.choice)
      else u.cells[o].actors == s.cells[o].actors || NewcomerOnly(s, a, o)
  }

  lemma JoinIsOneMove(s: Relay, a: Action, o: nat)
    requires a.Subscribe? || a.AttachSubscriber? || a.AttachPublisher?
    ensures (o in s.cells ==> o in s.Apply(a).cells) && OneMove(s, a, o)
  {
  }

  lemma OtherIsOneMove(s: Relay, a: Action, o: nat)
    requires s.nextObj !in s.cells && !a.Subscribe? && !a.AttachSubscriber? && !a.AttachPublisher?
    ensures (o in s.cells ==> o in s.Apply(a).cells) && OneMove(s, a, o)
  {
    hide Cell.Step, StartsSubscriber, Relay.Join;
  }

  lemma EveryActionIsOneMove(s: Relay, a: Action, o: nat)
    requires s.nextObj !in s.cells
    ensures (o in s.cells ==> o in s.Apply(a).cells) && OneMove(s, a, o)
  {
    hide Relay.Apply, OneMove;
    if a.Subscribe? || a.AttachSubscriber? || a.AttachPublisher? {
      JoinIsOneMove(s, a, o);
    } else {
      OtherIsOneMove(s, a, o);
    }
  }

  /** Numbers are given out once. */
  lemma NumbersAreNew(s: Relay, o: nat)
    requires Inv(s)
    ensures s.nextObj !in s.cells
    ensures o in s.cells ==> s.nextTid !in s.cells[o].actors
  {
    hide SlotsProper, ClosedAreUnreachable, Cell.Inv, SessionState.Valid;
    assert o in s.cells ==> CellProper(s.cells[o], s.nextTid);
  }

  lemma OneActionLeavesItAt(s: Relay, a: Action, o: nat, t: nat, pc: Actor)
    requires Inv(s) && At(s, o, t, pc) && !Moves(a, o, t)
    ensures At(s.Apply(a), o, t, pc)
  {
    hide Inv, Cell.Step, Relay.Apply, StartsSubscriber, AttendedBy;
    NumbersAreNew(s, o);
    EveryActionIsOneMove(s, a, o);
    if a.Handler? && a.o == o { StepMovesOne(s.cells[o], a.t, a.ok, a.choice); }
  }

  lemma {:induction false} OthersLeaveItAt(past: seq<Action>, between: seq<Action>, o: nat, t: nat, pc: Actor)
    requires At(Run(past), o, t, pc) && forall a :: a in between ==> !Moves(a, o, t)
    ensures At(Run(past + between), o, t, pc)
    decreases |between|
  {
    hide Inv, At, Relay.Apply, Evolves, Moves;
    if between == [] {
      assert past + between == past;
    } else {
      var rest, a := between[..|between| - 1], between[|between| - 1];
      OthersLeaveItAt(past, rest, o, t, pc);
      RunIsGood(past + rest, []);
      OneActionLeavesItAt(Run(past + rest), a, o, t, pc);
      LastAction(past + rest, a);
      assert past + between == past + rest + [a];
    }
  }

  lemma CellIsSound(actions: seq<Action>, o: nat)
    requires o in Run(actions).cells
    ensures CellAfter(actions, o).Inv() && Owned(CellAfter(actions, o))
  {
    hide Owned, Cell.Inv;
    NothingLeaks(actions, o);
    Later(actions, [], o);
  }

  // ---- who gets to be a subscriber -----------------------------------------------------------

  /** `t` is a subscriber's control handler that has not yet left. */
  predicate SubscriberSide(actors: map<nat, Actor>, t: nat) {
    t in actors && (actors[t].Subscribing? || AttendedBy(actors, t).Some?)
  }

  lemma StepMakesNoSubscriber(c: Cell, u: nat, ok: bool, choice: nat, t: nat)
    requires SubscriberSide(c.Step(u, ok, choice).actors, t)
    ensures SubscriberSide(c.actors, t)
  {
    StepMovesOne(c, u, ok, choice);
    hide SessionState.AddSubscriber, SessionState.RemoveSubscriber, SessionState.AddPending, SessionState.ClaimPending,
      SessionState.AddStream, SessionState.RemoveStream;
  }

  lemma OnlySubscribeStarts(s: Relay, a: Action, o: nat, t: nat)
    requires Inv(s) && o in s.Apply(a).cells && SubscriberSide(s.Apply(a).cells[o].actors, t)
    requires o in s.cells ==> !SubscriberSide(s.cells[o].actors, t)
    ensures StartsSubscriber(s, a, o, t)
    ensures t in s.Apply(a).cells[o].ledger.presented && s.Apply(a).cells[o].ledger.presented[t] == a.cert
  {
    hide Inv, Cell.Step, Relay.Apply, StartsSubscriber;
    NumbersAreNew(s, o);
    EveryActionIsOneMove(s, a, o);
    if a.Handler? && o in s.cells && a.o == o { StepMakesNoSubscriber(s.cells[o], a.t, a.ok, a.choice, t); }
  }

  /** Every subscriber's handler was started by a matching Subscribe, and still holds the certificate it came with. */
  lemma {:induction false} SubscriberStarted(actions: seq<Action>, o: nat, t: nat) returns (k: nat)
    requires o in Run(actions).cells && SubscriberSide(CellAfter(actions, o).actors, t)
    ensures k < |actions| && StartsSubscriber(Run(actions[..k]), actions[k], o, t)
    ensures t in CellAfter(actions, o).ledger.presented && CellAfter(actions, o).ledger.presented[t] == actions[k].cert
    decreases |actions|
  {
    hide Inv, Evolves, Relay.Apply, StartsSubscriber, SubscriberSide, Cell.Inv;
    if actions == [] {
      assert false;
    } else {
      var past, a := actions[..|actions| - 1], actions[|actions| - 1];
      assert past + [a] == actions;
      LastAction(past, a);
      RunIsGood(past, []);
      if o in Run(past).cells && SubscriberSide(CellAfter(past, o).actors, t) {
        k := SubscriberStarted(past, o, t);
        assert actions[..k] == past[..k];
        Later(past, [a], o);
      } else {
        k := |past|;
        OnlySubscribeStarts(Run(past), a, o, t);
        assert actions[..k] == past;
      }
    }
  }

  lemma CertificateIsOwn(c: Cell, sub: nat)
    requires c.Inv() && Owned(c) && sub in c.state.subscribers
    ensures var t := c.state.subscribers[sub].control;
            SubscriberSide(c.actors, t) && PresentedBy(c.ledger.presented, t) == Some(c.state.subscribers[sub].cert)
  {
    var t := c.state.subscribers[sub].control;
    assert AttendedBy(c.actors, t) == Some(sub);
    OwnKnowledge(c, t);
    hide Cell.Inv, Owned;
  }

  lemma SameIdentifier(past: seq<Action>, future: seq<Action>, o: nat)
    requires o in Run(past).slots
    ensures o in Run(past + future).slots && Run(past + future).slots[o].id == Run(past).slots[o].id
  {
    hide Inv, CellsLive;
    RunIsGood(past, future);
  }

  /**
   In every run, every attached subscriber once asked for this very session: by its
   identifier, with its mode and its port count, while it was the registered one, and with
   the certificate it is attached under.
   */
  lemma AttachedSubscribersMatched(actions: seq<Action>, o: nat, sub: nat) returns (k: nat)
    requires o in Run(actions).cells && sub in CellAfter(actions, o).state.subscribers && o in Run(actions).slots
    ensures var c := CellAfter(actions, o);
            && k < |actions|
            && actions[k] == Subscribe(Run(actions).slots[o].id, c.state.mode, c.state.ports, Some(c.state.subscribers[sub].cert))
            && StartsSubscriber(Run(actions[..k]), actions[k], o, c.state.subscribers[sub].control)
  {
    var c := CellAfter(actions, o);
    var t := c.state.subscribers[sub].control;
    CellIsSound(actions, o);
    CertificateIsOwn(c, sub);
    hide Cell.Inv, Owned, Evolves, SubscriberSide;
    k := SubscriberStarted(actions, o, t);
    var past := actions[..k];
    assert past + actions[k..] == actions;
    Later(past, actions[k..], o);
    LookupFindsOpenSession(past, actions[k].id);
    SameIdentifier(past, actions[k..], o);
  }

  lemma ApplyHandler(s: Relay, o: nat, t: nat, ok: bool)
    requires o in s.cells
    ensures o in s.Apply(Handler(o, t, ok, 0)).cells && s.Apply(Handler(o, t, ok, 0)).cells[o] == s.cells[o].Step(t, ok, 0)
  {
    hide Cell.Step;
  }

  lemma AfterSubscribe(s: Relay, id: SessionID, mode: nat, ports: nat, cert: Option<Cert>, o: nat)
    requires o in s.cells
    ensures var v := s.Apply(Subscribe(id, mode, ports, cert));
            var x := s.cells[o].state;
            o in v.cells &&
            v.cells[o] == if id in s.registry.sessions && s.registry.sessions[id] == o && x.mode == mode && x.ports == ports
                          then s.cells[o].Join(s.nextTid, Subscribing, cert) else s.cells[o]
  {
    hide Cell.Join;
  }

  /** Handler `t` has been attached as a new subscriber under certificate `cert`, with its ack still to come. */
  ghost predicate Attaches(c: Cell, d: Cell, t: nat, cert: Cert) {
    var id := c.state.nextSubID;
    && t in d.actors && d.actors[t] == SubscriberAcking(id)
    && d.state.subscribers == c.state.subscribers[id := Subscriber(t, cert)] && d.state.nextSubID == id + 1
    && d.state.pending == c.state.pending && d.state.streams == c.state.streams && d.state.closed == c.state.closed
  }

  lemma FirstStepAttaches(c: Cell, t: nat, cert: Option<Cert>, ok: bool)
    requires t !in c.actors
    ensures c.Step(t, ok, 0) == c
    ensures var d := c.Join(t, Subscribing, cert).Step(t, ok, 0);
            if cert.Some? && !c.state.closed && |c.state.subscribers| < MAX_SESSION_PEERS then Attaches(c, d, t, cert.value)
            else t !in d.actors && d.state == c.state
  {
    AddSubscriberEffect(c.state, t, cert);
  }

  /**
   From its Subscribe to its slot: with nothing in between, a subscriber ends up attached, with
   an ack to come, exactly when a publisher holds the identifier with its mode and port count,
   it has a certificate, and there is room; otherwise nothing changes.  A session that can still
   be found is never closed.
   */
  lemma SubscribingAttachesIff(actions: seq<Action>, id: SessionID, mode: nat, ports: nat, cert: Option<Cert>, o: nat, ok: bool)
    requires o in Run(actions).cells
    ensures var s := Run(actions);
            var u := s.Apply(Subscribe(id, mode, ports, cert)).Apply(Handler(o, s.nextTid, ok, 0));
            var x := s.cells[o].state;
            o in u.cells &&
            if && id in s.registry.sessions && s.registry.sessions[id] == o
               && x.mode == mode && x.ports == ports && cert.Some? && |x.subscribers| < 1024
            then Attaches(s.cells[o], u.cells[o], s.nextTid, cert.value)
            else s.nextTid !in u.cells[o].actors && u.cells[o].state == x
  {
    hide Run, Inv, Evolves, Cell.Step, Relay.Apply, Cell.Join, Attaches;
    var s := Run(actions);
    RunIsGood(actions, []);
    NumbersAreNew(s, o);
    if id in s.registry.sessions { LookupFindsOpenSession(actions, id); }
    AfterSubscribe(s, id, mode, ports, cert, o);
    ApplyHandler(s.Apply(Subscribe(id, mode, ports, cert)), o, s.nextTid, ok);
    FirstStepAttaches(s.cells[o], s.nextTid, cert, ok);
  }

  // ---- the one close outside the table's protection -----------------------------------------

  /** One step of the handler from removePending on, in the two cases there are. */
  lemma RemovingStep(c: Cell, t: nat, req: nat)
    requires c.Inv() && Owned(c) && t in c.actors && c.actors[t] == Removing(req, true)
    ensures var d := c.Step(t, true, 0);
            && req in d.ledger.fates && req in d.ledger.admitted && d.ledger.admitted[req].conn == t
            && (req in c.state.pending <==> d.ledger.fates[req] == Removed(t))
            && (req in c.state.pending <==> d.ledger.fates[req].who == t)
            && t in d.actors && d.actors[t] == if req in c.state.pending then Closing(req, true) else CallerClosing(req)
  {
    OwnKnowledge(c, t);
    assert AttachingBy(c.actors, t) == Some(req);
    assert AttachersWait(c.actors, c.ledger.admitted, c.ledger.fates);
    hide Owned, AdmissionsProper, StreamsProper, StreamsListed, ClosedOnlyByWinner, Cell.ActorsProper;
  }

  /** The run's next action is a step of goroutine `t`. */
  lemma HandlerActs(actions: seq<Action>, o: nat, t: nat, ok: bool, choice: nat)
    requires o in Run(actions).cells
    ensures o in Run(actions + [Handler(o, t, ok, choice)]).cells
    ensures CellAfter(actions + [Handler(o, t, ok, choice)], o) == CellAfter(actions, o).Step(t, ok, choice)
  {
    LastAction(actions, Handler(o, t, ok, choice));
    hide Run, Cell.Step;
  }

  lemma CallerCloses(c: Cell, t: nat, req: nat)
    requires t in c.actors && c.actors[t] == CallerClosing(req)
    ensures var d := c.Step(t, true, 0); (req, ByFailedAttach) in d.ledger.closes && d.ledger.fates == c.ledger.fates
  {
  }

  /** The next step of `t` closes the connection of `req` under the owner that `fate` names. */
  ghost predicate ClosesOthers(actions: seq<Action>, o: nat, t: nat, req: nat, fate: Fate) {
    var closed := actions + [Handler(o, t, true, 0)];
    && fate.who != t && o in Run(closed).cells
    && req in CellAfter(closed, o).ledger.fates && CellAfter(closed, o).ledger.fates[req] == fate
    && (req, ByFailedAttach) in CellAfter(closed, o).ledger.closes
  }

  lemma LateCloseFollows(removed: seq<Action>, between: seq<Action>, o: nat, t: nat, req: nat)
    requires o in Run(removed).cells && req in CellAfter(removed, o).ledger.fates
    requires CellAfter(removed, o).ledger.fates[req].who != t
    requires At(Run(removed + between), o, t, CallerClosing(req))
    ensures ClosesOthers(removed + between, o, t, req, CellAfter(removed, o).ledger.fates[req])
  {
    Later(removed, between, o);
    HandlerActs(removed + between, o, t, true, 0);
    CallerCloses(CellAfter(removed + between, o), t, req);
    hide Run, Cell.Step, Cell.Inv;
  }

  /**
   A data handler whose ack or request frame failed, in any run, about to call removePending.
   If its request is still pending the handler takes it, and closes what is its own again.  If
   not, somebody else has taken the connection, and whatever happens in between, the handler's
   caller goes on to close it under that owner.
   */
  lemma FailedAttachClosesOthersIff(past: seq<Action>, o: nat, t: nat, req: nat, between: seq<Action>)
    requires At(Run(past), o, t, Removing(req, true)) && forall a :: a in between ==> !Moves(a, o, t)
    ensures var removed := past + [Handler(o, t, true, 0)];
            && o in Run(removed).cells
            && var c, d := CellAfter(past, o), CellAfter(removed, o);
            && req in d.ledger.admitted && d.ledger.admitted[req].conn == t && req in d.ledger.fates
            && (req in c.state.pending <==> d.ledger.fates[req] == Removed(t))
            && (req !in c.state.pending <==> d.ledger.fates[req].who != t)
            && (req !in c.state.pending ==> ClosesOthers(removed + between, o, t, req, d.ledger.fates[req]))
  {
    CellIsSound(past, o);
    HandlerActs(past, o, t, true, 0);
    RemovingStep(CellAfter(past, o), t, req);
    var removed := past + [Handler(o, t, true, 0)];
    hide Cell.Step, Cell.Inv, Owned, Run, ClosesOthers;
    if req !in CellAfter(past, o).state.pending {
      OthersLeaveItAt(removed, between, o, t, CallerClosing(req));
      LateCloseFollows(removed, between, o, t, req);
    }
  }

  lemma Then(past: seq<Action>, a: Action) returns (actions: seq<Action>)
    ensures actions == past + [a] && Run(actions) == Run(past).Apply(a)
  {
    LastAction(past, a);
    actions := past + [a];
  }

  /** A session of one port, registered with certificate 7, to which certificate 8 has just subscribed. */
  lemma SubscribedRun() returns (actions: seq<Action>, id: SessionID)
    ensures var s := Run(actions);
            && s.registry.sessions == map[id := 0] && s.nextTid == 2 && 0 in s.cells
            && var c := s.cells[0];
            && c.state.mode == MODE_TCP && c.state.ports == 1 && c.state.publisherCert == 7 && !c.state.closed
            && c.state.CertCount(8) == 1 && c.state.pending == map[] && c.state.nextReqID == 0
            && c.ledger.fates == map[] && c.state.streams == map[]
  {
    id := SessionID(1, 2);
    var reg := Then([], Register(id, MODE_TCP, 1, Some(7), true));
    assert Run([]) == START;
    var sub := Then(reg, Subscribe(id, MODE_TCP, 1, Some(8)));
    assert Run(sub).cells[0].actors == map[1 := Subscribing];
    actions := Then(sub, Handler(0, 1, true, 0));
  }

  /** ... and whose data connection 2 has had its request admitted. */
  lemma AskedRun() returns (actions: seq<Action>, id: SessionID)
    ensures var s := Run(actions);
            && s.registry.sessions == map[id := 0] && s.nextTid == 3 && 0 in s.cells
            && var c := s.cells[0];
            && c.state.publisherCert == 7 && !c.state.closed && c.state.pending == map[0 := Request(2, 0)] && c.state.streams == map[]
            && 2 in c.actors && c.actors[2] == DataAcking(0) && c.CertOf(2) == Some(8)
  {
    hide Run;
    var subscribed;
    subscribed, id := SubscribedRun();
    var joined := Then(subscribed, AttachSubscriber(id, 0, Some(8)));
    assert Run(joined).cells[0].actors[2] == DataAttaching(0);
    actions := Then(joined, Handler(0, 2, true, 0));
  }

  /** ... and waits for its ack when connection 3 comes to claim it. */
  lemma RequestedRun() returns (actions: seq<Action>)
    ensures var s := Run(actions);
            && 0 in s.cells && var c := s.cells[0];
            && !c.state.closed && c.state.pending == map[0 := Request(2, 0)] && c.state.streams == map[]
            && 2 in c.actors && c.actors[2] == DataAcking(0) && c.CertOf(2) == Some(8)
            && 3 in c.actors && c.actors[3] == PublisherClaiming(0) && c.CertOf(3) == Some(7)
  {
    hide Run;
    var asked, id := AskedRun();
    actions := Then(asked, AttachPublisher(id, 0, Some(7)));
  }

  /** A run in which the caller of a failed attach closes a connection the publisher has claimed. */
  lemma FailedAttachCanCloseClaimed() returns (actions: seq<Action>)
    ensures 0 in Run(actions).cells
    ensures var c := CellAfter(actions, 0);
            0 in c.ledger.fates && c.ledger.fates[0] == Claimed(3) && (0, ByFailedAttach) in c.ledger.closes
  {
    hide Run;
    var requested := RequestedRun();
    var claimed := Then(requested, Handler(0, 3, true, 0));
    assert Run(claimed).cells[0].ledger.fates[0] == Claimed(3);
    var failed := Then(claimed, Handler(0, 2, false, 0));
    assert Run(failed).cells[0].actors[2] == Removing(0, true);
    var late := Then(failed, Handler(0, 2, true, 0));
    assert Run(late).cells[0].actors[2] == CallerClosing(0);
    actions := Then(late, Handler(0, 2, true, 0));
  }
}
