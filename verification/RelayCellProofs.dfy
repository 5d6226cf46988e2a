/** Every step of a cell keeps the invariant, and the ledger is only ever extended. */
module RelayCellProofs {
  import opened Common
  import opened RelaySession
  import opened RelayCell

  ghost predicate Grows<K, V>(m: map<K, V>, n: map<K, V>) {
    forall k :: k in m ==> k in n && n[k] == m[k]
  }

  /** What is fixed about a session object, and what the ledger never takes back. */
  ghost predicate Extends(c: Cell, d: Cell) {
    && d.state.mode == c.state.mode && d.state.ports == c.state.ports && d.state.publisherCert == c.state.publisherCert
    && Grows(c.ledger.admitted, d.ledger.admitted)
    && Grows(c.ledger.fates, d.ledger.fates)
    && Grows(c.ledger.recorded, d.ledger.recorded)
    && Grows(c.ledger.presented, d.ledger.presented)
    && c.ledger.closes <= d.ledger.closes
  }

  /** A closed session admits nobody, records nothing and notifies nobody ever again. */
  ghost predicate StaysShut(c: Cell, d: Cell) {
    c.state.closed ==>
      && d.state.closed && d.state.pending == map[]
      && d.state.nextSubID == c.state.nextSubID
      && d.ledger.admitted == c.ledger.admitted && d.ledger.recorded == c.ledger.recorded && d.ledger.notices == c.ledger.notices
  }

  lemma ExtendsTransitive(c: Cell, d: Cell, e: Cell)
    requires Extends(c, d) && Extends(d, e)
    ensures Extends(c, e)
  {
  }

  // ---- the effects a step can have on the ledger -----------------------------------

  lemma AdmitKeepsRequests(pending: map<nat, Request>, n: nat, admitted: map<nat, Admission>, fates: map<nat, Fate>,
                           conn: Conn, port: nat)
    requires RequestsAccounted(pending, n, admitted, fates)
    ensures n !in admitted
    ensures RequestsAccounted(pending[n := Request(conn, port)], n + 1, admitted[n := Admission(conn, port)], fates)
  {
  }

  lemma AdmitKeepsStreams(recorded: map<nat, StreamRecord>, admitted: map<nat, Admission>, fates: map<nat, Fate>,
                          presented: map<Conn, Option<Cert>>, cert: Cert, n: nat, a: Admission)
    requires StreamsProper(recorded, admitted, fates, presented, cert) && n !in admitted
    ensures StreamsProper(recorded, admitted[n := a], fates, presented, cert)
  {
    forall r | r in recorded ensures StreamProper(r, recorded[r], admitted[n := a], fates, presented, cert) {
      assert StreamProper(r, recorded[r], admitted, fates, presented, cert);
    }
  }

  lemma DecidedIfNotPending(pending: map<nat, Request>, n: nat, admitted: map<nat, Admission>, fates: map<nat, Fate>, req: nat)
    requires RequestsAccounted(pending, n, admitted, fates) && req in admitted && req !in pending
    ensures req in fates
  {
  }

  lemma TakeKeepsRequests(pending: map<nat, Request>, n: nat, admitted: map<nat, Admission>, fates: map<nat, Fate>,
                          req: nat, fate: Fate)
    requires RequestsAccounted(pending, n, admitted, fates) && req in pending
    ensures req !in fates && req in admitted && pending[req] == Request(admitted[req].conn, admitted[req].port)
    ensures RequestsAccounted(pending - {req}, n, admitted, fates[req := fate])
  {
  }

  /** Deciding requests that had no fate yet disturbs nothing already recorded. */
  lemma DecideKeepsRecords(recorded: map<nat, StreamRecord>, admitted: map<nat, Admission>, fates: map<nat, Fate>,
                           presented: map<Conn, Option<Cert>>, cert: Cert, closes: set<(nat, Closer)>, more: map<nat, Fate>)
    requires StreamsProper(recorded, admitted, fates, presented, cert)
    requires ClosedOnlyByWinner(closes, fates)
    requires Grows(fates, more)
    ensures StreamsProper(recorded, admitted, more, presented, cert)
    ensures ClosedOnlyByWinner(closes, more)
  {
    forall r | r in recorded ensures StreamProper(r, recorded[r], admitted, more, presented, cert) {
      assert StreamProper(r, recorded[r], admitted, fates, presented, cert);
    }
  }

  lemma SweepKeepsRequests(pending: map<nat, Request>, n: nat, admitted: map<nat, Admission>, fates: map<nat, Fate>, t: nat)
    requires RequestsAccounted(pending, n, admitted, fates)
    ensures RequestsAccounted(map[], n, admitted, fates + map r | r in pending :: Swept(t))
    ensures Grows(fates, fates + map r | r in pending :: Swept(t))
  {
  }

  lemma RecordKeepsStreams(recorded: map<nat, StreamRecord>, admitted: map<nat, Admission>, fates: map<nat, Fate>,
                           presented: map<Conn, Option<Cert>>, cert: Cert, req: nat, rec: StreamRecord)
    requires StreamsProper(recorded, admitted, fates, presented, cert)
    requires StreamProper(req, rec, admitted, fates, presented, cert)
    ensures StreamsProper(recorded[req := rec], admitted, fates, presented, cert)
  {
    var more := recorded[req := rec];
    forall r | r in more ensures StreamProper(r, more[r], admitted, fates, presented, cert) {
      assert r in recorded ==> StreamProper(r, recorded[r], admitted, fates, presented, cert);
    }
  }

  lemma CloseKeepsWinner(closes: set<(nat, Closer)>, fates: map<nat, Fate>, req: nat, closer: Closer)
    requires ClosedOnlyByWinner(closes, fates)
    requires req in fates && (closer == ByClaimant ==> fates[req].Claimed?)
    requires (closer == ByRemover ==> fates[req].Removed?) && (closer == BySweeper ==> fates[req].Swept?)
    ensures ClosedOnlyByWinner(closes + {(req, closer)}, fates)
  {
  }

  /** A goroutine's own step cannot spoil what is known about the others. */
  lemma OthersStayProper(c: Cell, t: nat, d: Cell)
    requires c.ActorsProper() && Extends(c, d)
    requires forall u :: u in d.actors && u != t ==> u in c.actors && d.actors[u] == c.actors[u]
    requires forall id :: id in c.state.subscribers && c.state.subscribers[id].control != t ==>
                            id in d.state.subscribers && d.state.subscribers[id] == c.state.subscribers[id]
    requires t in d.actors ==> ActorProper(t, d.actors[t], d.Seen())
    ensures d.ActorsProper()
  {
    forall u | u in d.actors && u != t ensures ActorProper(u, d.actors[u], d.Seen()) {
      assert ActorProper(u, c.actors[u], c.Seen());
    }
  }

  /** The invariant, what it extends, and the shutting of the door, for one step. */
  ghost predicate GoodStep(c: Cell, d: Cell) {
    d.Inv() && Extends(c, d) && StaysShut(c, d)
  }

  lemma StutterIsGood(c: Cell)
    requires c.Inv()
    ensures GoodStep(c, c)
  {
  }

  /** A step that moves only the goroutine's own program counter. */
  lemma MoveIsGood(c: Cell, t: nat, d: Cell)
    requires c.Inv() && (d == c.Finish(t) || (t in d.actors && d == c.At(t, d.actors[t]) && ActorProper(t, d.actors[t], c.Seen())))
    ensures GoodStep(c, d)
  {
    hide SessionState.Valid;
    OthersStayProper(c, t, d);
  }

  lemma AttachSubscriberIsGood(c: Cell, t: nat)
    requires c.Inv() && c.state.nextSubID !in c.state.subscribers
    ensures GoodStep(c, c.AttachSubscriber(t))
  {
    hide ClosedOnlyByWinner, StreamsProper, StreamsListed, RequestsAccounted, AdmissionsProper, SessionState.AddSubscriber, SessionState.Valid;
    AddSubscriberEffect(c.state, t, c.CertOf(t));
    OthersStayProper(c, t, c.AttachSubscriber(t));
  }

  lemma ReleaseSubscriberIsGood(c: Cell, t: nat, sub: nat)
    requires c.Inv() && ActorProper(t, SubscriberReleasing(sub), c.Seen())
    ensures GoodStep(c, c.ReleaseSubscriber(t, sub))
  {
    hide SessionState.Valid;
    OthersStayProper(c, t, c.ReleaseSubscriber(t, sub));
  }

  lemma AttachDataIsGood(c: Cell, t: nat, port: nat)
    requires c.Inv() && ActorProper(t, DataAttaching(port), c.Seen())
    ensures GoodStep(c, c.AttachData(t, port))
  {
    hide ClosedOnlyByWinner, StreamsProper, StreamsListed, RequestsAccounted, SessionState.AddPending, SessionState.Valid;
    var n := c.state.nextReqID;
    AddPendingEffect(c.state, t, port, c.CertOf(t));
    AdmitKeepsRequests(c.state.pending, n, c.ledger.admitted, c.ledger.fates, t, port);
    AdmitKeepsStreams(c.ledger.recorded, c.ledger.admitted, c.ledger.fates, c.ledger.presented, c.state.publisherCert, n, Admission(t, port));
    OthersStayProper(c, t, c.AttachData(t, port));
  }

  lemma RemovePendingIsGood(c: Cell, t: nat, req: nat, failedAttach: bool)
    requires c.Inv() && ActorProper(t, Removing(req, failedAttach), c.Seen())
    ensures GoodStep(c, c.RemovePending(t, req, failedAttach))
  {
    hide ClosedOnlyByWinner, StreamsProper, StreamsListed, RequestsAccounted, AdmissionsProper, SessionState.Valid;
    var d := c.RemovePending(t, req, failedAttach);
    if req in c.state.pending {
      TakeKeepsRequests(c.state.pending, c.state.nextReqID, c.ledger.admitted, c.ledger.fates, req, Removed(t));
      DecideKeepsRecords(c.ledger.recorded, c.ledger.admitted, c.ledger.fates, c.ledger.presented, c.state.publisherCert, c.ledger.closes, d.ledger.fates);
    } else {
      DecidedIfNotPending(c.state.pending, c.state.nextReqID, c.ledger.admitted, c.ledger.fates, req);
    }
    OthersStayProper(c, t, d);
  }

  lemma ClaimForPublisherIsGood(c: Cell, t: nat, req: nat)
    requires c.Inv() && ActorProper(t, PublisherClaiming(req), c.Seen())
    ensures GoodStep(c, c.ClaimForPublisher(t, req))
  {
    hide ClosedOnlyByWinner, StreamsProper, StreamsListed, RequestsAccounted, AdmissionsProper, SessionState.Valid;
    var d := c.ClaimForPublisher(t, req);
    if req in c.state.pending {
      TakeKeepsRequests(c.state.pending, c.state.nextReqID, c.ledger.admitted, c.ledger.fates, req, Claimed(t));
      DecideKeepsRecords(c.ledger.recorded, c.ledger.admitted, c.ledger.fates, c.ledger.presented, c.state.publisherCert, c.ledger.closes, d.ledger.fates);
    }
    OthersStayProper(c, t, d);
  }

  lemma CloseIsGood(c: Cell, t: nat, req: nat, closer: Closer, d: Cell)
    requires c.Inv()
    requires req in c.ledger.fates && (closer == ByClaimant ==> c.ledger.fates[req].Claimed?)
    requires (closer == ByRemover ==> c.ledger.fates[req].Removed?) && (closer == BySweeper ==> c.ledger.fates[req].Swept?)
    requires d == c.CloseAs(req, closer).Finish(t)
             || (t in d.actors && d == c.CloseAs(req, closer).At(t, d.actors[t]) && ActorProper(t, d.actors[t], c.Seen()))
    ensures GoodStep(c, d)
  {
    hide StreamsProper, StreamsListed, RequestsAccounted, AdmissionsProper, SessionState.Valid;
    CloseKeepsWinner(c.ledger.closes, c.ledger.fates, req, closer);
    OthersStayProper(c, t, d);
  }

  /** The transport operations, whose outcome only moves the program counter. */
  lemma TransportStepIsGood(c: Cell, t: nat, ok: bool, choice: nat)
    requires c.Inv() && t in c.actors && ActorProper(t, c.actors[t], c.Seen())
    requires var a := c.actors[t]; a.SubscriberAcking? || a.SubscriberLive? || a.DataAcking? || a.DataRequesting?
    ensures GoodStep(c, c.Step(t, ok, choice))
  {
    hide ClosedOnlyByWinner, StreamsProper, StreamsListed, RequestsAccounted, AdmissionsProper, Grows, SessionState.Valid;
    MoveIsGood(c, t, c.Step(t, ok, choice));
  }

  lemma CloseStepIsGood(c: Cell, t: nat, ok: bool, choice: nat)
    requires c.Inv() && t in c.actors && ActorProper(t, c.actors[t], c.Seen())
    requires var a := c.actors[t]; a.Closing? || a.CallerClosing? || a.PublisherSplicing? || a.Sweeping?
    ensures GoodStep(c, c.Step(t, ok, choice))
  {
    hide ClosedOnlyByWinner, StreamsProper, StreamsListed, RequestsAccounted, AdmissionsProper, Grows, SessionState.Valid;
    var d := c.Step(t, ok, choice);
    match c.actors[t]
    case Closing(req, failed) => CloseIsGood(c, t, req, ByRemover, d);
    case CallerClosing(req) => CloseIsGood(c, t, req, ByFailedAttach, d);
    case PublisherSplicing(req) => CloseIsGood(c, t, req, ByClaimant, d);
    case Sweeping(reqs) =>
      if choice in reqs {
        CloseIsGood(c, t, choice, BySweeper, d);
      } else if reqs == {} {
        MoveIsGood(c, t, d);
      } else {
        StutterIsGood(c);
      }
  }

  lemma RecordStreamIsGood(c: Cell, t: nat, req: nat, request: Request)
    requires c.Inv() && ActorProper(t, PublisherHolding(req, request), c.Seen())
    ensures GoodStep(c, c.RecordStream(t, req, request))
  {
    hide ClosedOnlyByWinner, RequestsAccounted, AdmissionsProper, SessionState.Valid;
    var d := c.RecordStream(t, req, request);
    if c.state.closed {
      CloseIsGood(c, t, req, ByClaimant, d);
    } else {
      RecordKeepsStreams(c.ledger.recorded, c.ledger.admitted, c.ledger.fates, c.ledger.presented, c.state.publisherCert, req, d.ledger.recorded[req]);
      OthersStayProper(c, t, d);
    }
  }

  lemma ForgetStreamIsGood(c: Cell, t: nat, req: nat)
    requires c.Inv()
    ensures GoodStep(c, c.ForgetStream(t, req))
  {
    hide SessionState.Valid;
    OthersStayProper(c, t, c.ForgetStream(t, req));
  }

  lemma OwnKnowledge(c: Cell, t: nat)
    requires c.Inv() && t in c.actors
    ensures ActorProper(t, c.actors[t], c.Seen())
  {
  }

  lemma StepIsGood(c: Cell, t: nat, ok: bool, choice: nat)
    requires c.Inv() && c.state.nextSubID !in c.state.subscribers
    ensures GoodStep(c, c.Step(t, ok, choice))
  {
    hide GoodStep, Cell.Inv, ActorProper;
    if t in c.actors {
      OwnKnowledge(c, t);
      match c.actors[t]
      case Subscribing => AttachSubscriberIsGood(c, t);
      case SubscriberReleasing(sub) => ReleaseSubscriberIsGood(c, t, sub);
      case DataAttaching(port) => AttachDataIsGood(c, t, port);
      case Removing(req, failed) => RemovePendingIsGood(c, t, req, failed);
      case PublisherClaiming(req) => ClaimForPublisherIsGood(c, t, req);
      case PublisherHolding(req, request) => RecordStreamIsGood(c, t, req, request);
      case PublisherForgetting(req) => ForgetStreamIsGood(c, t, req);
      case Closing(_, _) => CloseStepIsGood(c, t, ok, choice);
      case CallerClosing(_) => CloseStepIsGood(c, t, ok, choice);
      case PublisherSplicing(_) => CloseStepIsGood(c, t, ok, choice);
      case Sweeping(_) => CloseStepIsGood(c, t, ok, choice);
      case _ => TransportStepIsGood(c, t, ok, choice);
    } else {
      StutterIsGood(c);
    }
  }

  // ---- what a handler's step leaves alone ------------------------------------------------

  ghost predicate Local(c: Cell, t: nat, d: Cell) {
    && d.state.closed == c.state.closed
    && d.ledger.presented == c.ledger.presented
    && (forall u :: u in d.actors ==> u in c.actors || u == t)
    && (c.state.Valid() ==> d.state.Valid())
  }

  lemma SubscriberStepIsLocal(c: Cell, t: nat, sub: nat)
    ensures Local(c, t, c.AttachSubscriber(t)) && Local(c, t, c.ReleaseSubscriber(t, sub))
  {
    hide SessionState.Valid;
    if c.state.Valid() {
      AddSubscriberKeepsValid(c.state, t, c.CertOf(t));
      RemoveSubscriberKeepsValid(c.state, sub);
    }
  }

  lemma DataStepIsLocal(c: Cell, t: nat, port: nat, req: nat, failedAttach: bool)
    ensures Local(c, t, c.AttachData(t, port)) && Local(c, t, c.RemovePending(t, req, failedAttach))
  {
    hide SessionState.Valid;
    if c.state.Valid() {
      AddPendingKeepsValid(c.state, t, port, c.CertOf(t));
      ClaimPendingKeepsValid(c.state, req);
    }
  }

  lemma PublisherStepIsLocal(c: Cell, t: nat, req: nat, request: Request)
    ensures Local(c, t, c.ClaimForPublisher(t, req)) && Local(c, t, c.RecordStream(t, req, request))
    ensures Local(c, t, c.ForgetStream(t, req))
  {
    hide SessionState.Valid;
    if c.state.Valid() {
      ClaimPendingKeepsValid(c.state, req);
      StreamsKeepValid(c.state, req, request.port);
    }
  }

  lemma CloseAndMoveAreLocal(c: Cell, t: nat, req: nat, closer: Closer, a: Actor)
    ensures Local(c, t, c) && Local(c, t, c.Finish(t)) && Local(c, t, c.At(t, a))
    ensures Local(c, t, c.CloseAs(req, closer).Finish(t)) && Local(c, t, c.CloseAs(req, closer).At(t, a))
  {
    hide SessionState.Valid;
  }

  lemma StepIsLocal(c: Cell, t: nat, ok: bool, choice: nat)
    ensures Local(c, t, c.Step(t, ok, choice))
  {
    hide Local;
    var d := c.Step(t, ok, choice);
    var a := if t in d.actors then d.actors[t] else Subscribing;
    if t !in c.actors {
      CloseAndMoveAreLocal(c, t, 0, ByClaimant, a);
    } else {
      match c.actors[t]
      case Subscribing => SubscriberStepIsLocal(c, t, 0);
      case SubscriberReleasing(sub) => SubscriberStepIsLocal(c, t, sub);
      case DataAttaching(port) => DataStepIsLocal(c, t, port, 0, false);
      case Removing(req, failed) => DataStepIsLocal(c, t, 0, req, failed);
      case PublisherClaiming(req) => PublisherStepIsLocal(c, t, req, Request(0, 0));
      case PublisherHolding(req, request) => PublisherStepIsLocal(c, t, req, request);
      case PublisherForgetting(req) => PublisherStepIsLocal(c, t, req, Request(0, 0));
      case Closing(req, _) => CloseAndMoveAreLocal(c, t, req, ByRemover, a);
      case CallerClosing(req) => CloseAndMoveAreLocal(c, t, req, ByFailedAttach, a);
      case PublisherSplicing(req) => CloseAndMoveAreLocal(c, t, req, ByClaimant, a);
      case Sweeping(_) => CloseAndMoveAreLocal(c, t, choice, BySweeper, a);
      case _ => CloseAndMoveAreLocal(c, t, 0, ByClaimant, a);
    }
  }

  /** Goroutine `t` is the only one to move. */
  ghost predicate OnlyMoves(c: Cell, t: nat, d: Cell) {
    forall u :: u != t ==> (u in d.actors <==> u in c.actors) && (u in c.actors ==> d.actors[u] == c.actors[u])
  }

  lemma StepMovesOne(c: Cell, t: nat, ok: bool, choice: nat)
    ensures OnlyMoves(c, t, c.Step(t, ok, choice))
  {
    hide SessionState.AddSubscriber, SessionState.RemoveSubscriber, SessionState.AddPending, SessionState.ClaimPending, SessionState.AddStream;
  }

  predicate ComesFor(c: Cell, t: nat, r: nat) {
    t in c.actors && (c.actors[t] == PublisherClaiming(r) || (c.actors[t].Removing? && c.actors[t].req == r))
  }

  /** A pending request is taken only by a goroutine that has come for it, and goes down as that goroutine's. */
  ghost predicate TakesOnlyItsOwn(c: Cell, t: nat, d: Cell) {
    forall r :: r in c.state.pending ==>
      (r in d.state.pending && d.state.pending[r] == c.state.pending[r])
      || (ComesFor(c, t, r) && r in d.ledger.fates && d.ledger.fates[r].who == t)
  }

  lemma PendingKept(s: SessionState, t: Conn, cert: Option<Cert>, sub: nat, req: nat, port: nat)
    ensures s.AddSubscriber(t, cert).0.pending == s.pending && s.RemoveSubscriber(sub).pending == s.pending
    ensures s.AddStream(req, port).0.pending == s.pending && s.RemoveStream(req).pending == s.pending
  {
  }

  lemma PendingUnchanged(c: Cell, t: nat, ok: bool, choice: nat)
    requires t in c.actors ==> !c.actors[t].DataAttaching? && !c.actors[t].Removing? && !c.actors[t].PublisherClaiming?
    ensures c.Step(t, ok, choice).state.pending == c.state.pending
  {
    if t in c.actors {
      match c.actors[t] {
        case Subscribing => PendingKept(c.state, t, c.CertOf(t), 0, 0, 0);
        case SubscriberReleasing(sub) => PendingKept(c.state, t, None, sub, 0, 0);
        case PublisherHolding(req, request) => PendingKept(c.state, t, None, 0, req, request.port);
        case PublisherForgetting(req) => PendingKept(c.state, t, None, 0, req, 0);
        case _ =>
      }
    }
    hide SessionState.AddSubscriber, SessionState.RemoveSubscriber, SessionState.AddPending, SessionState.ClaimPending,
      SessionState.AddStream, SessionState.RemoveStream;
  }

  lemma AttachDataTakesNothing(c: Cell, t: nat, port: nat)
    requires RequestsAccounted(c.state.pending, c.state.nextReqID, c.ledger.admitted, c.ledger.fates)
    ensures TakesOnlyItsOwn(c, t, c.AttachData(t, port))
  {
    AddPendingEffect(c.state, t, port, c.CertOf(t));
    hide SessionState.AddPending;
  }

  lemma TakingTakesOne(c: Cell, t: nat, req: nat, failedAttach: bool)
    requires t in c.actors
    ensures c.actors[t] == Removing(req, failedAttach) ==> TakesOnlyItsOwn(c, t, c.RemovePending(t, req, failedAttach))
    ensures c.actors[t] == PublisherClaiming(req) ==> TakesOnlyItsOwn(c, t, c.ClaimForPublisher(t, req))
  {
  }

  /** A goroutine's step moves no other goroutine, and takes from the pending table only what it came for. */
  lemma StepLeavesOthersAlone(c: Cell, t: nat, ok: bool, choice: nat)
    requires RequestsAccounted(c.state.pending, c.state.nextReqID, c.ledger.admitted, c.ledger.fates)
    ensures OnlyMoves(c, t, c.Step(t, ok, choice)) && TakesOnlyItsOwn(c, t, c.Step(t, ok, choice))
  {
    StepMovesOne(c, t, ok, choice);
    hide OnlyMoves;
    if t in c.actors && c.actors[t].DataAttaching? {
      AttachDataTakesNothing(c, t, c.actors[t].port);
      hide Cell.AttachData, TakesOnlyItsOwn;
    } else if t in c.actors && c.actors[t].Removing? {
      TakingTakesOne(c, t, c.actors[t].req, c.actors[t].failedAttach);
      hide Cell.RemovePending, TakesOnlyItsOwn;
    } else if t in c.actors && c.actors[t].PublisherClaiming? {
      TakingTakesOne(c, t, c.actors[t].req, false);
      hide Cell.ClaimForPublisher, TakesOnlyItsOwn;
    } else {
      PendingUnchanged(c, t, ok, choice);
      hide Cell.Step;
    }
  }

  lemma JoinIsGood(c: Cell, t: nat, a: Actor, cert: Option<Cert>)
    requires c.Inv() && t !in c.actors && t !in c.ledger.presented
    requires ActorProper(t, a, c.Join(t, a, cert).Seen())
    ensures GoodStep(c, c.Join(t, a, cert))
  {
    hide StreamsListed, RequestsAccounted, ClosedOnlyByWinner, SessionState.Valid;
    var d := c.Join(t, a, cert);
    forall r | r in c.ledger.recorded
      ensures StreamProper(r, c.ledger.recorded[r], c.ledger.admitted, c.ledger.fates, d.ledger.presented, c.state.publisherCert)
    {
      assert StreamProper(r, c.ledger.recorded[r], c.ledger.admitted, c.ledger.fates, c.ledger.presented, c.state.publisherCert);
    }
    OthersStayProper(c, t, d);
  }

  lemma ShutdownIsGood(c: Cell, t: nat)
    requires c.Inv() && t !in c.actors
    ensures GoodStep(c, c.Shutdown(t))
    ensures c.Shutdown(t).state.closed
    ensures !c.state.closed ==>
              c.Shutdown(t).ledger.notices == multiset(set id | id in c.state.subscribers :: (id, c.state.subscribers[id].control))
  {
    hide StreamsProper, StreamsListed, AdmissionsProper,ClosedOnlyByWinner, SessionState.Valid;
    var d := c.Shutdown(t);
    if !c.state.closed {
      SweepKeepsRequests(c.state.pending, c.state.nextReqID, c.ledger.admitted, c.ledger.fates, t);
      DecideKeepsRecords(c.ledger.recorded, c.ledger.admitted, c.ledger.fates, c.ledger.presented, c.state.publisherCert, c.ledger.closes, d.ledger.fates);
    } else {
      assert d.ledger.fates == c.ledger.fates && d.ledger.notices == c.ledger.notices;
    }
    OthersStayProper(c, t, d);
  }
}
