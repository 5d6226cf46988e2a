/**
 The handlers of a session, each carried from one point of its program to the next, in any
 run: what a step brings about when its conditions hold, and what it does when they do not.
 */
module RelayPrograms {
  import opened Common
  import opened RelaySession
  import opened RelayRegistry
  import opened RelayCell
  import opened RelayCellProofs
  import opened RelayMachine
  import opened RelayOwnership
  import opened RelayTheorems
  import opened RelayHandlers

  /** The action that is goroutine `t`'s next step on object `o`. */
  function Next(o: nat, t: nat, ok: bool, choice: nat): Action { Handler(o, t, ok, choice) }

  // ---- a subscriber's control connection ---------------------------------------------------

  /** What a subscriber's handler does once it is attached: an ack that fails, or the end of its loop, releases it. */
  lemma SubscriberSteps(c: Cell, t: nat, sub: nat, ok: bool)
    requires t in c.actors
    ensures var d := c.Step(t, ok, 0);
            && (c.actors[t] == SubscriberAcking(sub) || c.actors[t] == SubscriberLive(sub) ==>
                  d.state == c.state && d.ledger == c.ledger && t in d.actors)
            && (c.actors[t] == SubscriberAcking(sub) ==> d.actors[t] == if ok then SubscriberLive(sub) else SubscriberReleasing(sub))
            && (c.actors[t] == SubscriberLive(sub) ==> d.actors[t] == SubscriberReleasing(sub))
            && (c.actors[t] == SubscriberReleasing(sub) ==> t !in d.actors && d.state.subscribers == c.state.subscribers - {sub})
  {
  }

  /**
   In every run: a subscriber whose ack is written stays attached and live; one whose ack
   fails, or whose loop has ended, is released by its handler's way out, and nobody else is.
   */
  lemma SubscriberIsServed(actions: seq<Action>, o: nat, t: nat, sub: nat)
    requires At(Run(actions), o, t, SubscriberAcking(sub)) || At(Run(actions), o, t, SubscriberLive(sub))
    ensures At(Run(actions), o, t, SubscriberAcking(sub)) ==>
              var acked := actions + [Next(o, t, true, 0)];
              At(Run(acked), o, t, SubscriberLive(sub)) && CellAfter(acked, o).state == CellAfter(actions, o).state
    ensures var out := actions + [Next(o, t, false, 0)] + [Next(o, t, true, 0)];
            && o in Run(out).cells && t !in CellAfter(out, o).actors
            && CellAfter(out, o).state.subscribers == CellAfter(actions, o).state.subscribers - {sub}
  {
    var c := CellAfter(actions, o);
    HandlerActs(actions, o, t, true, 0);
    HandlerActs(actions, o, t, false, 0);
    var left := actions + [Next(o, t, false, 0)];
    HandlerActs(left, o, t, true, 0);
    SubscriberSteps(c, t, sub, true);
    SubscriberSteps(c, t, sub, false);
    SubscriberSteps(CellAfter(left, o), t, sub, true);
    hide Run, Cell.Step;
  }

  // ---- a subscriber's data connection ------------------------------------------------------

  lemma AfterAttach(s: Relay, id: SessionID, port: nat, cert: Option<Cert>, o: nat)
    requires o in s.cells
    ensures var v := s.Apply(AttachSubscriber(id, port, cert));
            var x := s.cells[o].state;
            o in v.cells &&
            v.cells[o] == if id in s.registry.sessions && s.registry.sessions[id] == o && x.mode == MODE_TCP && port < x.ports
                          then s.cells[o].Join(s.nextTid, DataAttaching(port), cert) else s.cells[o]
  {
    hide Cell.Join;
  }

  /** Goroutine `t` has had request `req` admitted for its own connection and `port`. */
  ghost predicate Admitted(c: Cell, d: Cell, t: nat, port: nat, req: nat) {
    && t in d.actors && d.actors[t] == DataAcking(req)
    && req !in c.ledger.admitted && req !in c.state.pending
    && d.state == c.state.(pending := c.state.pending[req := Request(t, port)], nextReqID := req + 1)
  }

  lemma FirstStepAdmits(c: Cell, t: nat, port: nat, cert: Option<Cert>, ok: bool)
    requires c.Inv() && c.state.Valid() && t !in c.actors
    ensures AttachingBy(c.Step(t, ok, 0).actors, t).None?
    ensures var d := c.Join(t, DataAttaching(port), cert).Step(t, ok, 0);
            var takes := !c.state.closed && |c.state.pending| < MAX_SESSION_PEERS && cert.Some? && c.state.Attached(cert.value);
            if takes then Admitted(c, d, t, port, c.state.nextReqID) else AttachingBy(d.actors, t).None? && d.state == c.state
  {
    AdmissionIffAttached(c.state, t, port, cert);
    AddPendingEffect(c.state, t, port, cert);
    hide AdmissionsProper, StreamsProper, StreamsListed, ClosedOnlyByWinner, Cell.ActorsProper, SessionState.Valid, SessionState.AddPending;
  }

  lemma CellIsWhole(actions: seq<Action>, o: nat)
    requires o in Run(actions).cells
    ensures var c := Run(actions).cells[o]; c.Inv() && c.state.Valid() && Run(actions).nextTid !in c.actors
  {
    hide SlotsProper, ClosedAreUnreachable, Evolves, Cell.Inv, SessionState.Valid;
    RunIsGood(actions, []);
    assert CellProper(Run(actions).cells[o], Run(actions).nextTid);
  }

  lemma NobodyStepsNowhere(c: Cell, t: nat, ok: bool)
    requires t !in c.actors
    ensures c.Step(t, ok, 0) == c
  {
  }

  /**
   From its Attach to the pending table: with nothing in between, a data connection is admitted
   exactly when a publisher holds the identifier in TCP mode with that port, the pending table
   has room, and the connection's exact certificate is attached; a session that is found is open.
   */
  lemma DataIsAdmittedIff(actions: seq<Action>, id: SessionID, port: nat, cert: Option<Cert>, o: nat, ok: bool)
    requires o in Run(actions).cells
    ensures var s := Run(actions);
            var u := s.Apply(AttachSubscriber(id, port, cert)).Apply(Next(o, s.nextTid, ok, 0));
            var c := s.cells[o];
            o in u.cells &&
            if && id in s.registry.sessions && s.registry.sessions[id] == o
               && c.state.mode == MODE_TCP && port < c.state.ports && cert.Some?
               && |c.state.pending| < 1024 && c.state.Attached(cert.value)
            then Admitted(c, u.cells[o], s.nextTid, port, c.state.nextReqID)
            else AttachingBy(u.cells[o].actors, s.nextTid).None? && u.cells[o].state == c.state
  {
    hide Run, Inv, Evolves, Cell.Step, Relay.Apply, AttachingBy, Cell.Join, Cell.Inv, SessionState.Valid, Admitted, SessionState.Attached;
    var s := Run(actions);
    CellIsWhole(actions, o);
    if id in s.registry.sessions { LookupFindsOpenSession(actions, id); }
    AfterAttach(s, id, port, cert, o);
    ApplyHandler(s.Apply(AttachSubscriber(id, port, cert)), o, s.nextTid, ok);
    FirstStepAdmits(s.cells[o], s.nextTid, port, cert, ok);
    NobodyStepsNowhere(s.cells[o], s.nextTid, ok);
  }

  lemma DataSteps(c: Cell, t: nat, req: nat, ok: bool)
    requires t in c.actors && (c.actors[t] == DataAcking(req) || c.actors[t] == DataRequesting(req))
    ensures var d := c.Step(t, ok, 0);
            && d.state == c.state && d.ledger == c.ledger
            && (!ok ==> t in d.actors && d.actors[t] == Removing(req, true))
            && (ok && c.actors[t].DataAcking? ==> t in d.actors && d.actors[t] == DataRequesting(req))
            && (ok && c.actors[t].DataRequesting? ==> t !in d.actors)
  {
  }

  /**
   In every run: a data handler whose ack and request frame are both written is done, and leaves
   its request to whoever comes for it; if either fails it goes on to take the request back.
   */
  lemma DataHandlerHandsOver(actions: seq<Action>, o: nat, t: nat, req: nat)
    requires At(Run(actions), o, t, DataAcking(req))
    ensures var asked := actions + [Next(o, t, true, 0)];
            var done := asked + [Next(o, t, true, 0)];
            && o in Run(done).cells && t !in CellAfter(done, o).actors
            && CellAfter(done, o).state == CellAfter(actions, o).state && CellAfter(done, o).ledger == CellAfter(actions, o).ledger
            && At(Run(actions + [Next(o, t, false, 0)]), o, t, Removing(req, true))
            && At(Run(asked + [Next(o, t, false, 0)]), o, t, Removing(req, true))
  {
    var asked := actions + [Next(o, t, true, 0)];
    HandlerActs(actions, o, t, true, 0);
    HandlerActs(actions, o, t, false, 0);
    HandlerActs(asked, o, t, true, 0);
    HandlerActs(asked, o, t, false, 0);
    DataSteps(CellAfter(actions, o), t, req, true);
    DataSteps(CellAfter(actions, o), t, req, false);
    hide Run, Cell.Step;
    DataSteps(CellAfter(asked, o), t, req, true);
    DataSteps(CellAfter(asked, o), t, req, false);
  }

  lemma TakingBackSteps(c: Cell, t: nat, req: nat)
    requires t in c.actors && c.actors[t] == Removing(req, true) && req in c.state.pending
    ensures var d := c.Step(t, true, 0);
            var e := d.Step(t, true, 0);
            var f := e.Step(t, true, 0);
            && f.state == c.state.(pending := c.state.pending - {req}) && t !in f.actors
            && req in f.ledger.fates && f.ledger.fates[req] == Removed(t)
            && (req, ByRemover) in f.ledger.closes && (req, ByFailedAttach) in f.ledger.closes
  {
    hide SessionState.AddSubscriber, SessionState.AddPending, SessionState.AddStream;
  }

  /** In every run: a failed attach whose request is still pending takes it back, and both it and its caller close it. */
  lemma FailedAttachTakesBack(actions: seq<Action>, o: nat, t: nat, req: nat)
    requires At(Run(actions), o, t, Removing(req, true)) && req in CellAfter(actions, o).state.pending
    ensures var taken := actions + [Next(o, t, true, 0)];
            var closed := taken + [Next(o, t, true, 0)];
            var done := closed + [Next(o, t, true, 0)];
            && o in Run(done).cells && t !in CellAfter(done, o).actors
            && CellAfter(done, o).state == CellAfter(actions, o).state.(pending := CellAfter(actions, o).state.pending - {req})
            && req in CellAfter(done, o).ledger.fates && CellAfter(done, o).ledger.fates[req] == Removed(t)
            && (req, ByRemover) in CellAfter(done, o).ledger.closes && (req, ByFailedAttach) in CellAfter(done, o).ledger.closes
  {
    var taken := actions + [Next(o, t, true, 0)];
    HandlerActs(actions, o, t, true, 0);
    HandlerActs(taken, o, t, true, 0);
    HandlerActs(taken + [Next(o, t, true, 0)], o, t, true, 0);
    TakingBackSteps(CellAfter(actions, o), t, req);
    hide Run, Cell.Step;
  }

  // ---- a timer -----------------------------------------------------------------------------

  lemma TimerSteps(c: Cell, t: nat, req: nat)
    ensures var d := c.At(t, Removing(req, false)).Step(t, true, 0);
            var e := d.Step(t, true, 0);
            && (req !in c.state.pending ==> d.state == c.state && d.ledger == c.ledger && e == d && t !in d.actors)
            && (req in c.state.pending ==>
                  && e.state == c.state.(pending := c.state.pending - {req}) && t !in e.actors
                  && req in e.ledger.fates && e.ledger.fates[req] == Removed(t) && (req, ByRemover) in e.ledger.closes)
  {
    hide SessionState.AddSubscriber, SessionState.AddPending, SessionState.AddStream;
  }

  lemma AfterTimer(s: Relay, o: nat, req: nat)
    requires o in s.cells && req in s.cells[o].ledger.admitted
    ensures s.Apply(TimerFires(o, req)) == s.Put(o, s.cells[o].At(s.nextTid, Removing(req, false)), s.nextTid + 1)
  {
  }

  /**
   In every run: a timer that fires on a request still pending takes it out and closes its
   connection; one that fires too late does nothing at all.
   */
  lemma TimerClosesIffPending(actions: seq<Action>, o: nat, req: nat)
    requires o in Run(actions).cells && req in CellAfter(actions, o).ledger.admitted
    ensures var s := Run(actions);
            var c := s.cells[o];
            var u := s.Apply(TimerFires(o, req)).Apply(Next(o, s.nextTid, true, 0)).Apply(Next(o, s.nextTid, true, 0));
            && o in u.cells
            && (req in c.state.pending ==>
                  && u.cells[o].state == c.state.(pending := c.state.pending - {req})
                  && req in u.cells[o].ledger.fates && u.cells[o].ledger.fates[req] == Removed(s.nextTid)
                  && (req, ByRemover) in u.cells[o].ledger.closes)
            && (req !in c.state.pending ==> u.cells[o].state == c.state && u.cells[o].ledger == c.ledger)
  {
    var s := Run(actions);
    hide Run, Cell.Step;
    AfterTimer(s, o, req);
    var v := s.Apply(TimerFires(o, req));
    ApplyHandler(v, o, s.nextTid, true);
    ApplyHandler(v.Apply(Next(o, s.nextTid, true, 0)), o, s.nextTid, true);
    hide Relay.Apply;
    TimerSteps(s.cells[o], s.nextTid, req);
  }

  // ---- the publisher's data connection -----------------------------------------------------

  lemma AfterAttachPublisher(s: Relay, id: SessionID, req: nat, cert: Option<Cert>, o: nat)
    requires o in s.cells
    ensures var v := s.Apply(AttachPublisher(id, req, cert));
            o in v.cells &&
            v.cells[o] == if id in s.registry.sessions && s.registry.sessions[id] == o && cert == Some(s.cells[o].state.publisherCert)
                          then s.cells[o].Join(s.nextTid, PublisherClaiming(req), cert) else s.cells[o]
  {
    hide Cell.Join;
  }

  /** Goroutine `t` has taken request `req` as it was pending. */
  ghost predicate Takes(c: Cell, d: Cell, t: nat, req: nat) {
    && req in c.state.pending && t in d.actors && d.actors[t] == PublisherHolding(req, c.state.pending[req])
    && d.state == c.state.(pending := c.state.pending - {req})
    && req in d.ledger.fates && d.ledger.fates[req] == Claimed(t)
  }

  lemma ClaimingStep(c: Cell, t: nat, req: nat)
    requires t in c.actors && c.actors[t] == PublisherClaiming(req) && req in c.state.pending
    ensures Takes(c, c.Step(t, true, 0), t, req)
    ensures c.Step(t, true, 0).ledger.presented == c.ledger.presented
  {
  }

  lemma FirstStepClaims(c: Cell, t: nat, req: nat, cert: Option<Cert>, ok: bool)
    requires t !in c.actors
    ensures var d := c.Join(t, PublisherClaiming(req), cert).Step(t, ok, 0);
            if req in c.state.pending then Takes(c, d, t, req) else t !in d.actors && d.state == c.state
  {
  }

  /**
   From a publisher's Attach to its claim: with nothing in between, it takes the request exactly
   when the identifier is mapped, the certificate is the registered one, and the request pending.
   */
  lemma PublisherClaimsIff(actions: seq<Action>, id: SessionID, req: nat, cert: Option<Cert>, o: nat, ok: bool)
    requires o in Run(actions).cells
    ensures var s := Run(actions);
            var u := s.Apply(AttachPublisher(id, req, cert)).Apply(Next(o, s.nextTid, ok, 0));
            var c := s.cells[o];
            o in u.cells &&
            if && id in s.registry.sessions && s.registry.sessions[id] == o
               && cert == Some(c.state.publisherCert) && req in c.state.pending
            then Takes(c, u.cells[o], s.nextTid, req)
            else s.nextTid !in u.cells[o].actors && u.cells[o].state == c.state
  {
    hide Run, Inv, Evolves, Cell.Step, Relay.Apply, Cell.Join, Cell.Inv, SessionState.Valid, Takes;
    var s := Run(actions);
    CellIsWhole(actions, o);
    AfterAttachPublisher(s, id, req, cert, o);
    ApplyHandler(s.Apply(AttachPublisher(id, req, cert)), o, s.nextTid, ok);
    FirstStepClaims(s.cells[o], s.nextTid, req, cert, ok);
    NobodyStepsNowhere(s.cells[o], s.nextTid, ok);
  }

  lemma HoldingStep(c: Cell, t: nat, req: nat, request: Request, ok: bool, choice: nat)
    requires t in c.actors && c.actors[t] == PublisherHolding(req, request)
    ensures var d := c.Step(t, ok, choice);
            if c.state.closed then
              && t !in d.actors && d.state == c.state && d.ledger.recorded == c.ledger.recorded
              && (req, ByClaimant) in d.ledger.closes
            else
              && t in d.actors && d.actors[t] == PublisherSplicing(req)
              && d.state == c.state.(streams := c.state.streams[req := request.port])
              && d.ledger.recorded == c.ledger.recorded[req := StreamRecord(request.port, t, request.conn)]
              && d.ledger.closes == c.ledger.closes && d.ledger.presented == c.ledger.presented
  {
  }

  /**
   In every run, a goroutine that holds a claimed request: while the session is open its next
   step records the stream, with the port asked for and both legs, and it goes on to splice
   them, closing nothing; once the session is closed it records nothing and closes the connection.
   */
  lemma ClaimedRequestIsSplicedIff(actions: seq<Action>, o: nat, t: nat, req: nat, request: Request, ok: bool, choice: nat)
    requires At(Run(actions), o, t, PublisherHolding(req, request))
    ensures var after := actions + [Next(o, t, ok, choice)];
            && o in Run(after).cells
            && var c, d := CellAfter(actions, o), CellAfter(after, o);
            if c.state.closed then
              && t !in d.actors && d.state == c.state && d.ledger.recorded == c.ledger.recorded
              && (req, ByClaimant) in d.ledger.closes
            else
              && At(Run(after), o, t, PublisherSplicing(req))
              && d.state == c.state.(streams := c.state.streams[req := request.port])
              && d.ledger.recorded == c.ledger.recorded[req := StreamRecord(request.port, t, request.conn)]
              && d.ledger.closes == c.ledger.closes
  {
    HandlerActs(actions, o, t, ok, choice);
    HoldingStep(CellAfter(actions, o), t, req, request, ok, choice);
    hide Run, Cell.Step;
  }

  lemma SplicingSteps(c: Cell, t: nat, req: nat)
    requires t in c.actors && c.actors[t] == PublisherSplicing(req)
    ensures var d := c.Step(t, true, 0);
            var e := d.Step(t, true, 0);
            && d.state == c.state && (req, ByClaimant) in d.ledger.closes && t in d.actors && d.actors[t] == PublisherForgetting(req)
            && e.state == c.state.(streams := c.state.streams - {req}) && t !in e.actors
  {
  }

  /** In every run: when a splice ends both its connections are closed, and then its stream, and no other, is forgotten. */
  lemma SpliceEndsClosed(actions: seq<Action>, o: nat, t: nat, req: nat)
    requires At(Run(actions), o, t, PublisherSplicing(req))
    ensures var closed := actions + [Next(o, t, true, 0)];
            var gone := closed + [Next(o, t, true, 0)];
            && o in Run(closed).cells && o in Run(gone).cells
            && (req, ByClaimant) in CellAfter(closed, o).ledger.closes && CellAfter(closed, o).state == CellAfter(actions, o).state
            && CellAfter(gone, o).state == CellAfter(actions, o).state.(streams := CellAfter(actions, o).state.streams - {req})
            && t !in CellAfter(gone, o).actors
  {
    HandlerActs(actions, o, t, true, 0);
    HandlerActs(actions + [Next(o, t, true, 0)], o, t, true, 0);
    SplicingSteps(CellAfter(actions, o), t, req);
    hide Run, Cell.Step;
  }

  // ---- a shutdown's sweep --------------------------------------------------------------------

  lemma SweepStep(c: Cell, t: nat, reqs: set<nat>, choice: nat)
    requires t in c.actors && c.actors[t] == Sweeping(reqs)
    ensures var d := c.Step(t, true, choice);
            && d.state == c.state
            && (choice in reqs ==> t in d.actors && d.actors[t] == Sweeping(reqs - {choice}) && (choice, BySweeper) in d.ledger.closes)
            && (reqs == {} ==> t !in d.actors)
  {
  }

  /** In every run: a shutdown closes each connection it was handed, in whatever order, and is then done. */
  lemma SweepClosesAll(actions: seq<Action>, o: nat, t: nat, reqs: set<nat>, choice: nat)
    requires At(Run(actions), o, t, Sweeping(reqs))
    ensures var after := actions + [Next(o, t, true, choice)];
            && o in Run(after).cells
            && (choice in reqs ==>
                  At(Run(after), o, t, Sweeping(reqs - {choice})) && (choice, BySweeper) in CellAfter(after, o).ledger.closes)
            && (reqs == {} ==> t !in CellAfter(after, o).actors)
  {
    HandlerActs(actions, o, t, true, choice);
    SweepStep(CellAfter(actions, o), t, reqs, choice);
    hide Run, Cell.Step;
  }

  // ---- a stream, from its publisher to its splice ---------------------------------------------

  /** A run that ends with a recorded stream between the two certificates it names. */
  lemma SplicedRun() returns (actions: seq<Action>)
    ensures var s := Run(actions);
            && 0 in s.cells && var c := s.cells[0];
            && c.state.streams == map[0 := 0] && 0 in c.ledger.recorded && c.ledger.recorded[0] == StreamRecord(0, 3, 2)
            && c.CertOf(3) == Some(7) && c.CertOf(2) == Some(8)
  {
    hide Run;
    var requested := RequestedRun();
    var claimed := Then(requested, Next(0, 3, true, 0));
    var c, d := Run(requested).cells[0], Run(claimed).cells[0];
    ClaimingStep(c, 3, 0);
    actions := Then(claimed, Next(0, 3, true, 0));
    HoldingStep(d, 3, 0, Request(2, 0), true, 0);
    hide Cell.Step;
  }
}
