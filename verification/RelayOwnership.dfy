/**
 Nothing leaks: whatever the tables and the ledger hold, some goroutine still answers for it.

 A handler releases what it took exactly once, on its way out; these invariants say so from
 the other end, and over every run of the relay.
 */
module RelayOwnership {
  import opened Common
  import opened RelaySession
  import opened RelayRegistry
  import opened RelayCell
  import opened RelayCellProofs
  import opened RelayMachine

  /** The subscriber that handler `t` has attached and not yet released, if any. */
  function AttendedBy(actors: map<nat, Actor>, t: nat): Option<nat> {
    if t !in actors then None
    else match actors[t]
         case SubscriberAcking(id) => Some(id)
         case SubscriberLive(id) => Some(id)
         case SubscriberReleasing(id) => Some(id)
         case _ => None
  }

  /** The stream that handler `t` has recorded and not yet forgotten, if any. */
  function CarriedBy(actors: map<nat, Actor>, t: nat): Option<nat> {
    if t !in actors then None
    else match actors[t]
         case PublisherSplicing(r) => Some(r)
         case PublisherForgetting(r) => Some(r)
         case _ => None
  }

  /** The request handler `t` has admitted for its own connection and not yet finished with, if any. */
  function AttachingBy(actors: map<nat, Actor>, t: nat): Option<nat> {
    if t !in actors then None
    else match actors[t]
         case DataAcking(r) => Some(r)
         case DataRequesting(r) => Some(r)
         case Removing(r, failedAttach) => if failedAttach then Some(r) else None
         case _ => None
  }

  ghost predicate SubscribersAttended(subscribers: map<nat, Subscriber>, actors: map<nat, Actor>) {
    forall id :: id in subscribers ==> AttendedBy(actors, subscribers[id].control) == Some(id)
  }

  ghost predicate StreamsCarried(streams: map<nat, nat>, recorded: map<nat, StreamRecord>, actors: map<nat, Actor>) {
    && (forall r :: r in streams ==> r in recorded && CarriedBy(actors, recorded[r].publisherLeg) == Some(r))
    && (forall t :: var r := CarriedBy(actors, t); r.Some? ==> r.value in streams && r.value in recorded && recorded[r.value].publisherLeg == t)
  }

  /** Whoever took request `r` has closed its connection, or is still on the way to it. */
  ghost predicate WinnerCloses(r: nat, fate: Fate, closes: set<(nat, Closer)>, actors: map<nat, Actor>) {
    match fate
    case Claimed(t) =>
      (r, ByClaimant) in closes ||
      (t in actors && ((actors[t].PublisherHolding? && actors[t].req == r) || actors[t] == PublisherSplicing(r)))
    case Removed(t) => (r, ByRemover) in closes || (t in actors && actors[t].Closing? && actors[t].req == r)
    case Swept(t) => (r, BySweeper) in closes || (t in actors && actors[t].Sweeping? && r in actors[t].reqs)
  }

  ghost predicate WinnersClose(fates: map<nat, Fate>, closes: set<(nat, Closer)>, actors: map<nat, Actor>) {
    forall r :: r in fates ==> WinnerCloses(r, fates[r], closes, actors)
  }

  /** Whoever has taken an attaching handler's own connection from the table, it is not the handler itself. */
  ghost predicate AttachersWait(actors: map<nat, Actor>, admitted: map<nat, Admission>, fates: map<nat, Fate>) {
    forall t :: var r := AttachingBy(actors, t);
      r.Some? ==> r.value in admitted && admitted[r.value].conn == t && (r.value in fates ==> fates[r.value].who != t)
  }

  ghost predicate Owned(c: Cell) {
    && AttachersWait(c.actors, c.ledger.admitted, c.ledger.fates)
    && SubscribersAttended(c.state.subscribers, c.actors)
    && StreamsCarried(c.state.streams, c.ledger.recorded, c.actors)
    && WinnersClose(c.ledger.fates, c.ledger.closes, c.actors)
  }

  // ---- one predicate at a time: what `t` still owes is enough --------------------------------

  lemma StreamsFrame(c: Cell, t: nat, d: Cell)
    requires StreamsCarried(c.state.streams, c.ledger.recorded, c.actors) && OnlyMoves(c, t, d)
    requires d.state.streams == c.state.streams && d.ledger.recorded == c.ledger.recorded
    requires CarriedBy(d.actors, t) == CarriedBy(c.actors, t)
    ensures StreamsCarried(d.state.streams, d.ledger.recorded, d.actors)
  {
    forall u ensures CarriedBy(d.actors, u) == CarriedBy(c.actors, u) {}
  }

  lemma WinnersFrame(c: Cell, t: nat, d: Cell)
    requires WinnersClose(c.ledger.fates, c.ledger.closes, c.actors) && OnlyMoves(c, t, d) && c.ledger.closes <= d.ledger.closes
    requires forall r :: r in d.ledger.fates && d.ledger.fates[r].who != t ==> r in c.ledger.fates && c.ledger.fates[r] == d.ledger.fates[r]
    requires forall r :: r in d.ledger.fates && d.ledger.fates[r].who == t ==> WinnerCloses(r, d.ledger.fates[r], d.ledger.closes, d.actors)
    ensures WinnersClose(d.ledger.fates, d.ledger.closes, d.actors)
  {
    forall r | r in d.ledger.fates ensures WinnerCloses(r, d.ledger.fates[r], d.ledger.closes, d.actors) {
      if d.ledger.fates[r].who != t { assert WinnerCloses(r, c.ledger.fates[r], c.ledger.closes, c.actors); }
    }
  }

  // ---- each step ---------------------------------------------------------------------------

  lemma AttachKeepsAttended(c: Cell, t: nat)
    requires t in c.actors && c.actors[t].Subscribing? && SubscribersAttended(c.state.subscribers, c.actors)
    ensures SubscribersAttended(c.AttachSubscriber(t).state.subscribers, c.AttachSubscriber(t).actors)
  {
    var d := c.AttachSubscriber(t);
    forall id | id in d.state.subscribers ensures AttendedBy(d.actors, d.state.subscribers[id].control) == Some(id) {
      if id in c.state.subscribers { assert AttendedBy(c.actors, c.state.subscribers[id].control) == Some(id); }
    }
  }

  lemma ReleaseKeepsAttended(c: Cell, t: nat, sub: nat)
    requires t in c.actors && c.actors[t] == SubscriberReleasing(sub) && SubscribersAttended(c.state.subscribers, c.actors)
    ensures SubscribersAttended(c.ReleaseSubscriber(t, sub).state.subscribers, c.ReleaseSubscriber(t, sub).actors)
  {
    var d := c.ReleaseSubscriber(t, sub);
    forall id | id in d.state.subscribers ensures AttendedBy(d.actors, d.state.subscribers[id].control) == Some(id) {
      assert AttendedBy(c.actors, c.state.subscribers[id].control) == Some(id);
    }
  }

  lemma SubscribersKept(s: SessionState, t: Conn, cert: Option<Cert>, req: nat, port: nat)
    ensures s.AddPending(t, port, cert).0.subscribers == s.subscribers
    ensures s.ClaimPending(req).0.subscribers == s.subscribers
    ensures s.AddStream(req, port).0.subscribers == s.subscribers
    ensures s.RemoveStream(req).subscribers == s.subscribers
  {
  }

  /** The request a handler's next step is about, if it is about one. */
  function AboutRequest(a: Actor): nat {
    match a
    case Removing(req, _) => req
    case PublisherClaiming(req) => req
    case PublisherHolding(req, _) => req
    case PublisherForgetting(req) => req
    case _ => 0
  }

  function AboutPort(a: Actor): nat {
    match a
    case DataAttaching(port) => port
    case PublisherHolding(_, request) => request.port
    case _ => 0
  }

  lemma SubscriberTableUnchanged(c: Cell, t: nat, ok: bool, choice: nat)
    requires t in c.actors ==> !c.actors[t].Subscribing? && !c.actors[t].SubscriberReleasing?
    ensures c.Step(t, ok, choice).state.subscribers == c.state.subscribers
  {
    if t in c.actors { SubscribersKept(c.state, t, c.CertOf(t), AboutRequest(c.actors[t]), AboutPort(c.actors[t])); }
    hide SessionState.AddSubscriber, SessionState.RemoveSubscriber, SessionState.AddPending, SessionState.ClaimPending,
      SessionState.AddStream, SessionState.RemoveStream;
  }

  lemma StreamsKept(s: SessionState, t: Conn, cert: Option<Cert>, req: nat, port: nat)
    ensures s.AddPending(t, port, cert).0.streams == s.streams
    ensures s.ClaimPending(req).0.streams == s.streams
  {
  }

  lemma StreamsKeptByAttach(s: SessionState, t: Conn, cert: Option<Cert>)
    ensures s.AddSubscriber(t, cert).0.streams == s.streams
  {
  }

  lemma StreamsKeptByRelease(s: SessionState, sub: nat)
    ensures s.RemoveSubscriber(sub).streams == s.streams
  {
  }

  lemma StreamTableUnchanged(c: Cell, t: nat, ok: bool, choice: nat)
    requires t in c.actors ==> !c.actors[t].PublisherHolding? && !c.actors[t].PublisherForgetting?
    ensures c.Step(t, ok, choice).state.streams == c.state.streams
  {
    if t in c.actors {
      var a := c.actors[t];
      StreamsKept(c.state, t, c.CertOf(t), AboutRequest(a), AboutPort(a));
      StreamsKeptByAttach(c.state, t, c.CertOf(t));
      StreamsKeptByRelease(c.state, if a.SubscriberReleasing? then a.sub else 0);
    }
    hide SessionState.AddSubscriber, SessionState.RemoveSubscriber, SessionState.AddPending, SessionState.ClaimPending,
      SessionState.AddStream, SessionState.RemoveStream;
  }

  /** What `t` has in hand changes only where it takes or gives up a subscriber or a stream. */
  lemma MovesWithinDuty(c: Cell, t: nat, ok: bool, choice: nat)
    ensures var d := c.Step(t, ok, choice);
            && ((t in c.actors && (c.actors[t].Subscribing? || c.actors[t].SubscriberReleasing?))
                || AttendedBy(d.actors, t) == AttendedBy(c.actors, t))
            && ((t in c.actors && (c.actors[t].PublisherHolding? || c.actors[t].PublisherForgetting?))
                || CarriedBy(d.actors, t) == CarriedBy(c.actors, t))
  {
    hide SessionState.AddSubscriber, SessionState.RemoveSubscriber, SessionState.AddPending, SessionState.ClaimPending, SessionState.AddStream;
  }

  lemma SubscribersUnchanged(c: Cell, t: nat, ok: bool, choice: nat)
    requires t in c.actors ==> !c.actors[t].Subscribing? && !c.actors[t].SubscriberReleasing?
    ensures c.Step(t, ok, choice).state.subscribers == c.state.subscribers
    ensures AttendedBy(c.Step(t, ok, choice).actors, t) == AttendedBy(c.actors, t)
  {
    MovesWithinDuty(c, t, ok, choice);
    SubscriberTableUnchanged(c, t, ok, choice);
    hide Cell.Step, AttendedBy;
  }

  lemma StepKeepsSubscribers(c: Cell, t: nat, ok: bool, choice: nat)
    requires SubscribersAttended(c.state.subscribers, c.actors)
    ensures SubscribersAttended(c.Step(t, ok, choice).state.subscribers, c.Step(t, ok, choice).actors)
  {
    if t in c.actors && c.actors[t].Subscribing? {
      AttachKeepsAttended(c, t);
    } else if t in c.actors && c.actors[t].SubscriberReleasing? {
      ReleaseKeepsAttended(c, t, c.actors[t].sub);
    } else {
      StepMovesOne(c, t, ok, choice);
      var d := c.Step(t, ok, choice);
      SubscribersUnchanged(c, t, ok, choice);
      forall id | id in c.state.subscribers ensures AttendedBy(d.actors, c.state.subscribers[id].control) == Some(id) {
        assert AttendedBy(c.actors, c.state.subscribers[id].control) == Some(id);
        hide SubscribersAttended;
      }
    }
  }

  lemma RecordedUnchanged(c: Cell, t: nat, ok: bool, choice: nat)
    requires t in c.actors ==> !c.actors[t].PublisherHolding?
    ensures c.Step(t, ok, choice).ledger.recorded == c.ledger.recorded
  {
    hide SessionState.AddSubscriber, SessionState.RemoveSubscriber, SessionState.AddPending, SessionState.ClaimPending, SessionState.AddStream;
  }

  lemma StreamsUnchanged(c: Cell, t: nat, ok: bool, choice: nat)
    requires t in c.actors ==> !c.actors[t].PublisherHolding? && !c.actors[t].PublisherForgetting?
    ensures c.Step(t, ok, choice).state.streams == c.state.streams
    ensures c.Step(t, ok, choice).ledger.recorded == c.ledger.recorded
    ensures CarriedBy(c.Step(t, ok, choice).actors, t) == CarriedBy(c.actors, t)
  {
    MovesWithinDuty(c, t, ok, choice);
    RecordedUnchanged(c, t, ok, choice);
    StreamTableUnchanged(c, t, ok, choice);
    hide Cell.Step, CarriedBy;
  }

  lemma RecordingKeepsCarried(streams: map<nat, nat>, recorded: map<nat, StreamRecord>, actors: map<nat, Actor>,
                              t: nat, req: nat, rec: StreamRecord)
    requires StreamsCarried(streams, recorded, actors) && CarriedBy(actors, t).None? && rec.publisherLeg == t
    requires req in recorded ==> recorded[req].publisherLeg == t
    ensures StreamsCarried(streams[req := rec.port], recorded[req := rec], actors[t := PublisherSplicing(req)])
  {
    var after := actors[t := PublisherSplicing(req)];
    forall u | u != t ensures CarriedBy(after, u) == CarriedBy(actors, u) {}
    forall r | r in streams && r != req ensures CarriedBy(after, recorded[r].publisherLeg) == Some(r) {
      assert CarriedBy(actors, recorded[r].publisherLeg) == Some(r);
    }
  }

  /** The stream a claimant is about to record was recorded by nobody else. */
  lemma HeldIsNotRecordedByOthers(c: Cell, t: nat, req: nat, request: Request)
    requires ActorProper(t, PublisherHolding(req, request), c.Seen())
    requires StreamsProper(c.ledger.recorded, c.ledger.admitted, c.ledger.fates, c.ledger.presented, c.state.publisherCert)
    ensures req in c.ledger.recorded ==> c.ledger.recorded[req].publisherLeg == t
  {
    assert req in c.ledger.recorded ==> StreamProper(req, c.ledger.recorded[req], c.ledger.admitted, c.ledger.fates, c.ledger.presented, c.state.publisherCert);
  }

  lemma RecordKeepsCarried(c: Cell, t: nat, req: nat, request: Request)
    requires t in c.actors && c.actors[t] == PublisherHolding(req, request) && ActorProper(t, c.actors[t], c.Seen())
    requires StreamsProper(c.ledger.recorded, c.ledger.admitted, c.ledger.fates, c.ledger.presented, c.state.publisherCert)
    requires StreamsCarried(c.state.streams, c.ledger.recorded, c.actors)
    ensures var d := c.RecordStream(t, req, request); StreamsCarried(d.state.streams, d.ledger.recorded, d.actors)
  {
    HeldIsNotRecordedByOthers(c, t, req, request);
    hide StreamsProper, ActorProper;
    var d := c.RecordStream(t, req, request);
    if c.state.closed {
      assert OnlyMoves(c, t, d);
      StreamsFrame(c, t, d);
    } else {
      RecordingKeepsCarried(c.state.streams, c.ledger.recorded, c.actors, t, req, StreamRecord(request.port, t, request.conn));
    }
  }

  lemma ForgetKeepsCarried(c: Cell, t: nat, req: nat)
    requires t in c.actors && c.actors[t] == PublisherForgetting(req)
    requires StreamsCarried(c.state.streams, c.ledger.recorded, c.actors)
    ensures var d := c.ForgetStream(t, req); StreamsCarried(d.state.streams, d.ledger.recorded, d.actors)
  {
    var d := c.ForgetStream(t, req);
    assert CarriedBy(c.actors, t) == Some(req);
    forall u | u != t ensures CarriedBy(d.actors, u) == CarriedBy(c.actors, u) {}
  }

  lemma StepKeepsStreams(c: Cell, t: nat, ok: bool, choice: nat)
    requires t in c.actors ==> ActorProper(t, c.actors[t], c.Seen())
    requires StreamsProper(c.ledger.recorded, c.ledger.admitted, c.ledger.fates, c.ledger.presented, c.state.publisherCert)
    requires StreamsCarried(c.state.streams, c.ledger.recorded, c.actors)
    ensures StreamsCarried(c.Step(t, ok, choice).state.streams, c.Step(t, ok, choice).ledger.recorded, c.Step(t, ok, choice).actors)
  {
    hide StreamsProper, StreamsCarried, ActorProper;
    if t in c.actors && c.actors[t].PublisherHolding? {
      RecordKeepsCarried(c, t, c.actors[t].req, c.actors[t].request);
    } else if t in c.actors && c.actors[t].PublisherForgetting? {
      ForgetKeepsCarried(c, t, c.actors[t].req);
    } else {
      StepMovesOne(c, t, ok, choice);
      StreamsUnchanged(c, t, ok, choice);
      hide OnlyMoves, CarriedBy, Cell.Step;
      StreamsFrame(c, t, c.Step(t, ok, choice));
    }
  }

  /** What a step does to the requests `t` answers for: it closes them, keeps them in hand, or had none. */
  ghost predicate KeepsDuty(c: Cell, t: nat, d: Cell) {
    && c.ledger.closes <= d.ledger.closes
    && (forall r :: r in d.ledger.fates && d.ledger.fates[r].who != t ==> r in c.ledger.fates && c.ledger.fates[r] == d.ledger.fates[r])
    && (forall r :: r in d.ledger.fates && d.ledger.fates[r].who == t &&
                    (r in c.ledger.fates && c.ledger.fates[r] == d.ledger.fates[r] ==> WinnerCloses(r, c.ledger.fates[r], c.ledger.closes, c.actors))
                    ==> WinnerCloses(r, d.ledger.fates[r], d.ledger.closes, d.actors))
  }

  lemma TakingKeepsDuty(c: Cell, t: nat, req: nat, failedAttach: bool)
    requires t in c.actors
    ensures c.actors[t] == Removing(req, failedAttach) ==> KeepsDuty(c, t, c.RemovePending(t, req, failedAttach))
    ensures c.actors[t] == PublisherClaiming(req) ==> KeepsDuty(c, t, c.ClaimForPublisher(t, req))
  {
  }

  lemma AttachingKeepsDuty(c: Cell, t: nat, port: nat, sub: nat)
    requires t in c.actors
    ensures c.actors[t].Subscribing? ==> KeepsDuty(c, t, c.AttachSubscriber(t))
    ensures c.actors[t] == SubscriberReleasing(sub) ==> KeepsDuty(c, t, c.ReleaseSubscriber(t, sub))
    ensures c.actors[t] == DataAttaching(port) ==> KeepsDuty(c, t, c.AttachData(t, port))
  {
    hide SessionState.AddSubscriber, SessionState.RemoveSubscriber, SessionState.AddPending;
  }

  lemma StreamingKeepsDuty(c: Cell, t: nat, req: nat, request: Request)
    requires t in c.actors
    ensures c.actors[t] == PublisherHolding(req, request) ==> KeepsDuty(c, t, c.RecordStream(t, req, request))
    ensures c.actors[t] == PublisherSplicing(req) ==> KeepsDuty(c, t, c.CloseAs(req, ByClaimant).At(t, PublisherForgetting(req)))
    ensures c.actors[t] == PublisherForgetting(req) ==> KeepsDuty(c, t, c.ForgetStream(t, req))
  {
    hide SessionState.AddStream;
  }

  lemma SweepingKeepsDuty(c: Cell, t: nat, choice: nat)
    requires t in c.actors && c.actors[t].Sweeping?
    ensures KeepsDuty(c, t, c.Sweep(t, c.actors[t].reqs, choice))
  {
  }

  lemma MovingKeepsDuty(c: Cell, t: nat, ok: bool, choice: nat)
    requires t in c.actors ==>
               var a := c.actors[t];
               a.SubscriberAcking? || a.SubscriberLive? || a.DataAcking? || a.DataRequesting? || a.Closing? || a.CallerClosing?
    ensures KeepsDuty(c, t, c.Step(t, ok, choice))
  {
  }

  lemma StepKeepsDuty(c: Cell, t: nat, ok: bool, choice: nat)
    ensures KeepsDuty(c, t, c.Step(t, ok, choice))
  {
    hide KeepsDuty;
    if t in c.actors {
      match c.actors[t] {
        case Subscribing => AttachingKeepsDuty(c, t, 0, 0);
        case SubscriberReleasing(sub) => AttachingKeepsDuty(c, t, 0, sub);
        case DataAttaching(port) => AttachingKeepsDuty(c, t, port, 0);
        case Removing(req, failed) => TakingKeepsDuty(c, t, req, failed);
        case PublisherClaiming(req) => TakingKeepsDuty(c, t, req, false);
        case PublisherHolding(req, request) => StreamingKeepsDuty(c, t, req, request);
        case PublisherSplicing(req) => StreamingKeepsDuty(c, t, req, Request(0, 0));
        case PublisherForgetting(req) => StreamingKeepsDuty(c, t, req, Request(0, 0));
        case Sweeping(_) => SweepingKeepsDuty(c, t, choice);
        case _ => MovingKeepsDuty(c, t, ok, choice);
      }
    } else {
      MovingKeepsDuty(c, t, ok, choice);
    }
  }

  lemma StepKeepsWinners(c: Cell, t: nat, ok: bool, choice: nat)
    requires WinnersClose(c.ledger.fates, c.ledger.closes, c.actors)
    ensures WinnersClose(c.Step(t, ok, choice).ledger.fates, c.Step(t, ok, choice).ledger.closes, c.Step(t, ok, choice).actors)
  {
    StepMovesOne(c, t, ok, choice);
    StepKeepsDuty(c, t, ok, choice);
    hide OnlyMoves, WinnerCloses, Cell.Step;
    WinnersFrame(c, t, c.Step(t, ok, choice));
  }

  lemma NoNewAttach(c: Cell, t: nat, ok: bool, choice: nat)
    requires t in c.actors ==> !c.actors[t].DataAttaching?
    ensures var d := c.Step(t, ok, choice);
            var r := AttachingBy(d.actors, t);
            r.Some? ==> AttachingBy(c.actors, t) == r && d.ledger == c.ledger
  {
    hide SessionState.AddSubscriber, SessionState.RemoveSubscriber, SessionState.AddPending, SessionState.ClaimPending,
      SessionState.AddStream, SessionState.RemoveStream;
  }

  lemma OwnAttach(c: Cell, t: nat, ok: bool, choice: nat)
    ensures var d := c.Step(t, ok, choice);
            var r := AttachingBy(d.actors, t);
            r.Some? ==>
              && d.ledger.fates == c.ledger.fates
              && (if AttachingBy(c.actors, t) == r then d.ledger.admitted == c.ledger.admitted
                  else r.value == c.state.nextReqID && r.value in d.ledger.admitted && d.ledger.admitted[r.value].conn == t)
  {
    if t in c.actors && c.actors[t].DataAttaching? {
      AddPendingEffect(c.state, t, c.actors[t].port, c.CertOf(t));
      assert c.Step(t, ok, choice) == c.AttachData(t, c.actors[t].port);
      hide Cell.Step, SessionState.AddPending;
    } else {
      NoNewAttach(c, t, ok, choice);
      hide Cell.Step;
    }
  }

  lemma AdmittedGrows(c: Cell, t: nat, ok: bool, choice: nat)
    requires RequestsAccounted(c.state.pending, c.state.nextReqID, c.ledger.admitted, c.ledger.fates)
    ensures Grows(c.ledger.admitted, c.Step(t, ok, choice).ledger.admitted)
    ensures c.state.nextReqID !in c.ledger.admitted && c.state.nextReqID !in c.ledger.fates
  {
    if t in c.actors && c.actors[t].DataAttaching? { AddPendingEffect(c.state, t, c.actors[t].port, c.CertOf(t)); }
    hide SessionState.AddSubscriber, SessionState.RemoveSubscriber, SessionState.AddPending, SessionState.ClaimPending,
      SessionState.AddStream, SessionState.RemoveStream;
  }

  lemma StepKeepsAttachers(c: Cell, t: nat, ok: bool, choice: nat)
    requires RequestsAccounted(c.state.pending, c.state.nextReqID, c.ledger.admitted, c.ledger.fates)
    requires AttachersWait(c.actors, c.ledger.admitted, c.ledger.fates)
    ensures var d := c.Step(t, ok, choice); AttachersWait(d.actors, d.ledger.admitted, d.ledger.fates)
  {
    StepMovesOne(c, t, ok, choice);
    StepKeepsDuty(c, t, ok, choice);
    OwnAttach(c, t, ok, choice);
    AdmittedGrows(c, t, ok, choice);
    hide Cell.Step, WinnerCloses, RequestsAccounted;
    var d := c.Step(t, ok, choice);
    forall u | u != t ensures AttachingBy(d.actors, u) == AttachingBy(c.actors, u) {}
    hide AttachingBy, OnlyMoves;
  }

  lemma StepKeepsOwned(c: Cell, t: nat, ok: bool, choice: nat)
    requires c.Inv() && Owned(c)
    ensures Owned(c.Step(t, ok, choice))
  {
    if t in c.actors { OwnKnowledge(c, t); }
    StepKeepsSubscribers(c, t, ok, choice);
    StepKeepsStreams(c, t, ok, choice);
    StepKeepsWinners(c, t, ok, choice);
    StepKeepsAttachers(c, t, ok, choice);
    hide Cell.Step, Cell.Inv, AttachersWait, SubscribersAttended, StreamsCarried, WinnersClose;
  }

  /** A goroutine that is new has nothing in hand, and takes nothing from anybody. */
  lemma NewcomerKeepsOwned(c: Cell, t: nat, d: Cell)
    requires Owned(c) && t !in c.actors && t in d.actors && d.actors == c.actors[t := d.actors[t]]
    requires AttendedBy(d.actors, t).None? && CarriedBy(d.actors, t).None? && AttachingBy(d.actors, t).None?
    requires d.state.subscribers == c.state.subscribers && d.state.streams == c.state.streams
    requires d.ledger.recorded == c.ledger.recorded && d.ledger.closes == c.ledger.closes && d.ledger.admitted == c.ledger.admitted
    requires forall r :: r in c.ledger.fates ==> r in d.ledger.fates && d.ledger.fates[r] == c.ledger.fates[r]
    requires forall r :: r in d.ledger.fates && r !in c.ledger.fates ==>
               d.ledger.fates[r].who == t && WinnerCloses(r, d.ledger.fates[r], d.ledger.closes, d.actors)
    ensures Owned(d)
  {
    forall u | u != t
      ensures AttendedBy(d.actors, u) == AttendedBy(c.actors, u) && CarriedBy(d.actors, u) == CarriedBy(c.actors, u)
      ensures AttachingBy(d.actors, u) == AttachingBy(c.actors, u)
    {
    }
    forall id | id in d.state.subscribers ensures AttendedBy(d.actors, d.state.subscribers[id].control) == Some(id) {
      assert AttendedBy(c.actors, c.state.subscribers[id].control) == Some(id);
    }
    forall r | r in d.ledger.fates ensures WinnerCloses(r, d.ledger.fates[r], d.ledger.closes, d.actors) {
      if r in c.ledger.fates { assert WinnerCloses(r, c.ledger.fates[r], c.ledger.closes, c.actors); }
    }
    hide WinnerCloses;
  }

  lemma ShutdownKeepsOwned(c: Cell, t: nat)
    requires c.Inv() && Owned(c) && t !in c.actors
    ensures Owned(c.Shutdown(t))
  {
    hide Owned, AttachersWait, SubscribersAttended, StreamsCarried, WinnersClose, SessionState.Valid;
    var d := c.Shutdown(t);
    forall r | r in c.ledger.fates ensures r in d.ledger.fates && d.ledger.fates[r] == c.ledger.fates[r] {}
    NewcomerKeepsOwned(c, t, d);
  }

  // ---- every run ---------------------------------------------------------------------------

  ghost predicate CellOwned(c: Cell, slot: Slot) {
    Owned(c) && (slot.phase.Gone? ==> c.state.closed)
  }

  /** Every object's tables are answered for, and a publisher that is gone has closed its session. */
  ghost predicate AllOwned(s: Relay) {
    forall o :: o in s.cells && o in s.slots ==> CellOwned(s.cells[o], s.slots[o])
  }

  lemma PutKeepsOwned(s: Relay, o: nat, c: Cell, tid: nat)
    requires AllOwned(s) && o in s.slots && CellOwned(c, s.slots[o])
    ensures AllOwned(s.Put(o, c, tid))
  {
    hide CellOwned;
  }

  lemma SlotKeepsOwned(s: Relay, o: nat, slot: Slot, r: RegistryState<nat>)
    requires AllOwned(s) && o in s.slots && (slot.phase.Gone? ==> s.slots[o].phase.Gone?)
    ensures AllOwned(s.Move(o, slot, r))
  {
    hide Owned;
  }

  lemma DoShutdownKeepsOwned(s: Relay, o: nat, slot: Slot)
    requires Inv(s) && AllOwned(s) && o in s.slots
    ensures AllOwned(s.DoShutdown(o, slot))
  {
    hide SlotsProper, ClosedAreUnreachable, Owned, Cell.Inv, SessionState.Valid;
    if o in s.cells {
      assert CellProper(s.cells[o], s.nextTid) && CellOwned(s.cells[o], s.slots[o]);
      ShutdownKeepsOwned(s.cells[o], s.nextTid);
      ShutdownIsGood(s.cells[o], s.nextTid);
      hide CellProper, Cell.Shutdown;
      assert CellOwned(s.cells[o].Shutdown(s.nextTid), slot);
    }
  }

  lemma JoinKeepsOwned(s: Relay, id: SessionID, check: SessionState -> bool, a: Actor, cert: Option<Cert>)
    requires Inv(s) && AllOwned(s) && (a.Subscribing? || a.DataAttaching? || a.PublisherClaiming?)
    ensures AllOwned(s.Join(id, check, a, cert))
  {
    hide SlotsProper, ClosedAreUnreachable, Owned, Cell.Inv, SessionState.Valid;
    if id in s.registry.sessions && s.registry.sessions[id] in s.cells && check(s.cells[s.registry.sessions[id]].state) {
      var o := s.registry.sessions[id];
      var c := s.cells[o];
      assert CellProper(c, s.nextTid) && CellOwned(c, s.slots[o]);
      NewcomerKeepsOwned(c, s.nextTid, c.Join(s.nextTid, a, cert));
      PutKeepsOwned(s, o, c.Join(s.nextTid, a, cert), s.nextTid + 1);
    }
  }

  lemma WorkKeepsOwned(s: Relay, o: nat, req: nat, t: nat, ok: bool, choice: nat)
    requires Inv(s) && AllOwned(s) && o in s.cells
    ensures AllOwned(s.Put(o, s.cells[o].Step(t, ok, choice), s.nextTid))
    ensures AllOwned(s.Put(o, s.cells[o].At(s.nextTid, Removing(req, false)), s.nextTid + 1))
  {
    hide SlotsProper, ClosedAreUnreachable, Owned, Cell.Inv, SessionState.Valid, Cell.Step;
    var c := s.cells[o];
    assert CellProper(c, s.nextTid) && CellOwned(c, s.slots[o]);
    StepKeepsOwned(c, t, ok, choice);
    StepIsLocal(c, t, ok, choice);
    PutKeepsOwned(s, o, c.Step(t, ok, choice), s.nextTid);
    NewcomerKeepsOwned(c, s.nextTid, c.At(s.nextTid, Removing(req, false)));
    PutKeepsOwned(s, o, c.At(s.nextTid, Removing(req, false)), s.nextTid + 1);
  }

  lemma RegisterKeepsOwned(s: Relay, id: SessionID, mode: nat, ports: nat, cert: Option<Cert>, proven: bool)
    requires Inv(s) && AllOwned(s)
    ensures AllOwned(s.DoRegister(id, mode, ports, cert, proven))
  {
    hide CellProper, SlotsProper;
    if cert.Some? {
      var c := Cell(NewSession(mode, ports, s.nextTid, cert.value), map[], EMPTY_LEDGER);
      assert CellOwned(c, Slot(id, Acking, false));
      hide CellOwned;
    }
  }

  lemma ApplyKeepsOwned(s: Relay, a: Action)
    requires Inv(s) && AllOwned(s)
    ensures AllOwned(s.Apply(a))
  {
    hide SlotsProper, CellsProper, ClosedAreUnreachable, AllOwned, Cell.Step;
    match a
    case Register(id, mode, ports, cert, proven) => RegisterKeepsOwned(s, id, mode, ports, cert, proven);
    case PublisherAcked(o, ok) =>
      if o in s.slots { SlotKeepsOwned(s, o, s.slots[o].(phase := if ok then Live else Leaving), s.registry); }
    case PublisherLeft(o) => if o in s.slots { SlotKeepsOwned(s, o, s.slots[o].(phase := Leaving), s.registry); }
    case Unslot(o) =>
      if o in s.slots { SlotKeepsOwned(s, o, s.slots[o].(phase := Unslotted), s.registry.Unregister(s.slots[o].id)); }
    case PublisherShutdown(o) => if o in s.slots { DoShutdownKeepsOwned(s, o, s.slots[o].(phase := Gone)); }
    case Kill(tag, id) =>
      if id in s.registry.sessions && s.registry.sessions[id] in s.slots {
        var o := s.registry.sessions[id];
        SlotKeepsOwned(s, o, s.slots[o].(killing := true), s.registry.Ban(id));
      }
    case KillShutdown(o) => if o in s.slots { DoShutdownKeepsOwned(s, o, s.slots[o].(killing := false)); }
    case Subscribe(id, mode, ports, cert) =>
      JoinKeepsOwned(s, id, (x: SessionState) => SubscribeVerdict(x, mode, ports) == AckOK, Subscribing, cert);
    case AttachSubscriber(id, port, cert) =>
      JoinKeepsOwned(s, id, (x: SessionState) => AttachVerdict(x, port) == AckOK, DataAttaching(port), cert);
    case AttachPublisher(id, req, cert) =>
      JoinKeepsOwned(s, id, (x: SessionState) => cert == Some(x.publisherCert), PublisherClaiming(req), cert);
    case TimerFires(o, req) => if o in s.cells { WorkKeepsOwned(s, o, req, 0, false, 0); }
    case Handler(o, t, ok, choice) => if o in s.cells { WorkKeepsOwned(s, o, 0, t, ok, choice); }
  }

  lemma StartIsOwned()
    ensures Inv(START) && AllOwned(START)
  {
  }

  lemma {:induction false} ContinueKeepsOwned(s: Relay, actions: seq<Action>)
    requires Inv(s) && AllOwned(s)
    ensures AllOwned(Continue(s, actions))
    decreases actions
  {
    hide Inv, AllOwned, Relay.Apply, Evolves;
    if actions == [] {
    } else {
      ApplyIsGood(s, actions[0]);
      ApplyKeepsOwned(s, actions[0]);
      ContinueKeepsOwned(s.Apply(actions[0]), actions[1..]);
    }
  }

  /**
   In every run: each attached subscriber has a handler that has yet to release it, each listed
   stream one that has yet to forget it, and each request that left the pending table was
   closed by whoever took it, unless that goroutine is still on the way there.
   */
  lemma NothingLeaks(actions: seq<Action>, o: nat)
    requires o in Run(actions).cells
    ensures Owned(Run(actions).cells[o])
  {
    hide Owned, SlotsProper, CellsProper, ClosedAreUnreachable;
    RunIsGood(actions, []);
    StartIsOwned();
    ContinueKeepsOwned(START, actions);
    assert CellOwned(Run(actions).cells[o], Run(actions).slots[o]);
  }

  lemma GoneIsClosed(actions: seq<Action>, o: nat)
    requires o in Run(actions).cells && o in Run(actions).slots && Run(actions).slots[o].phase.Gone?
    ensures Run(actions).cells[o].state.closed
  {
    hide Owned, SlotsProper, CellsProper, ClosedAreUnreachable;
    StartIsOwned();
    ContinueKeepsOwned(START, actions);
    assert CellOwned(Run(actions).cells[o], Run(actions).slots[o]);
  }

  lemma TablesEmpty(c: Cell, req: nat)
    requires c.Inv() && Owned(c) && c.actors == map[] && c.state.closed
    ensures c.state.subscribers == map[] && c.state.pending == map[] && c.state.streams == map[]
    ensures req in c.ledger.admitted ==> exists closer :: (req, closer) in c.ledger.closes
  {
    hide AdmissionsProper, StreamsProper, StreamsListed, ClosedOnlyByWinner, SessionState.Valid;
    assert forall t :: AttendedBy(c.actors, t).None? && CarriedBy(c.actors, t).None?;
    hide AttendedBy, CarriedBy;
    assert forall id :: id !in c.state.subscribers;
    assert forall r :: r !in c.state.streams;
    if req in c.ledger.admitted {
      assert WinnerCloses(req, c.ledger.fates[req], c.ledger.closes, c.actors);
    }
  }

  /**
   When a session's publisher is gone and none of its goroutines is left, the session is
   closed and empty, and the connection of every request it ever admitted has been closed.
   */
  lemma DeadSessionHoldsNothing(actions: seq<Action>, o: nat, req: nat)
    requires o in Run(actions).cells && o in Run(actions).slots
    requires Run(actions).slots[o].phase.Gone? && Run(actions).cells[o].actors == map[]
    ensures var c := Run(actions).cells[o];
            && c.state.closed && c.state.subscribers == map[] && c.state.pending == map[] && c.state.streams == map[]
            && (req in c.ledger.admitted ==> exists closer :: (req, closer) in c.ledger.closes)
  {
    NothingLeaks(actions, o);
    RunIsGood(actions, []);
    var c := Run(actions).cells[o];
    hide Run, SlotsProper, ClosedAreUnreachable, Evolves;
    assert CellProper(c, Run(actions).nextTid);
    GoneIsClosed(actions, o);
    TablesEmpty(c, req);
  }
}
