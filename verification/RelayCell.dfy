/**
 One session object together with everyone working on it.

 The handlers of relay.go and registry.go are programs that touch the session only
 through its critical sections.  A `Cell` holds the session state, one program counter
 per goroutine that has looked the session up, and a ledger of what happened to every
 request.  `Step` runs one goroutine from one critical section (or one transport
 operation) to the next; the outcome of a transport operation is the argument `ok`.

 A goroutine and the connection it serves share one number.
 */
module RelayCell {
  import opened Common
  import opened RelaySession
  import opened RelayRegistry

  datatype Actor =
    // Registry.Subscribe and the heartbeat loop behind it
    | Subscribing
    | SubscriberAcking(sub: nat)
    | SubscriberLive(sub: nat)
    | SubscriberReleasing(sub: nat)
      // Registry.AttachSubscriberData
    | DataAttaching(port: nat)
    | DataAcking(req: nat)
    | DataRequesting(req: nat)
      // session.removePending, run by a timer or by a failed attach (whose caller then closes too)
    | Removing(req: nat, failedAttach: bool)
    | Closing(req: nat, failedAttach: bool)
    | CallerClosing(req: nat)
      // Registry.AttachPublisherData
    | PublisherClaiming(req: nat)
    | PublisherHolding(req: nat, request: Request)
    | PublisherSplicing(req: nat)
    | PublisherForgetting(req: nat)
      // session.shutdown, closing what beginShutdown handed it
    | Sweeping(reqs: set<nat>)

  /** Who took a request out of the pending table. */
  datatype Fate = Claimed(who: nat) | Removed(who: nat) | Swept(who: nat)

  /** Who closed the connection of a request. */
  datatype Closer = ByClaimant | ByRemover | BySweeper | ByFailedAttach

  datatype Admission = Admission(conn: Conn, port: nat)
  datatype StreamRecord = StreamRecord(port: nat, publisherLeg: Conn, subscriberLeg: Conn)

  /** The certificate connection `t` presented, as peerLeafCert reads it. */
  function PresentedBy(presented: map<Conn, Option<Cert>>, t: Conn): Option<Cert> {
    if t in presented then presented[t] else None
  }

  // ---- the parts of the inductive invariant -------------------------------------------

  /** Every request ever admitted is either still pending, unchanged, or has exactly one fate. */
  ghost predicate RequestsAccounted(pending: map<nat, Request>, nextReqID: nat,
                                    admitted: map<nat, Admission>, fates: map<nat, Fate>)
  {
    && 0 <= nextReqID
    && (forall r :: r in admitted <==> 0 <= r < nextReqID)
    && (forall r :: r in admitted ==> (r in pending <==> r !in fates))
    && (forall r :: r in pending ==> r in admitted && pending[r] == Request(admitted[r].conn, admitted[r].port))
    && (forall r :: r in fates ==> r in admitted)
  }

  ghost predicate AdmissionsProper(admitted: map<nat, Admission>, ports: nat, presented: map<Conn, Option<Cert>>) {
    forall r :: r in admitted ==> 0 <= admitted[r].port < ports && PresentedBy(presented, admitted[r].conn).Some?
  }

  /** The connection of a request is closed only by whoever took it, or by a failed attach after that. */
  ghost predicate ClosedOnlyByWinner(closes: set<(nat, Closer)>, fates: map<nat, Fate>) {
    && (forall r :: (r, ByFailedAttach) in closes ==> r in fates)
    && (forall r :: (r, ByClaimant) in closes ==> r in fates && fates[r].Claimed?)
    && (forall r :: (r, ByRemover) in closes ==> r in fates && fates[r].Removed?)
    && (forall r :: (r, BySweeper) in closes ==> r in fates && fates[r].Swept?)
  }

  ghost predicate StreamProper(r: nat, rec: StreamRecord, admitted: map<nat, Admission>, fates: map<nat, Fate>,
                               presented: map<Conn, Option<Cert>>, publisherCert: Cert)
  {
    && r in fates && r in admitted
    && fates[r] == Claimed(rec.publisherLeg)
    && rec.port == admitted[r].port && rec.subscriberLeg == admitted[r].conn
    && PresentedBy(presented, rec.publisherLeg) == Some(publisherCert)
  }

  ghost predicate StreamsProper(recorded: map<nat, StreamRecord>, admitted: map<nat, Admission>, fates: map<nat, Fate>,
                                presented: map<Conn, Option<Cert>>, publisherCert: Cert)
  {
    forall r :: r in recorded ==> StreamProper(r, recorded[r], admitted, fates, presented, publisherCert)
  }

  ghost predicate StreamsListed(streams: map<nat, nat>, recorded: map<nat, StreamRecord>) {
    forall r :: r in streams ==> r in recorded && streams[r] == recorded[r].port
  }

  /** What a goroutine's own knowledge can be about. */
  datatype View = View(ports: nat, publisherCert: Cert, subscribers: map<nat, Subscriber>,
                       presented: map<Conn, Option<Cert>>, admitted: map<nat, Admission>, fates: map<nat, Fate>)

  ghost predicate OwnsSubscriber(t: nat, sub: nat, v: View) {
    sub in v.subscribers && v.subscribers[sub].control == t && PresentedBy(v.presented, t) == Some(v.subscribers[sub].cert)
  }

  ghost predicate Decided(req: nat, fate: Fate, v: View) {
    req in v.fates && v.fates[req] == fate
  }

  ghost predicate Holds(t: nat, req: nat, request: Request, v: View) {
    && Decided(req, Claimed(t), v) && req in v.admitted
    && request == Request(v.admitted[req].conn, v.admitted[req].port)
    && PresentedBy(v.presented, t) == Some(v.publisherCert)
  }

  /** What goroutine `t` knows at program counter `a`. */
  ghost predicate ActorProper(t: nat, a: Actor, v: View) {
    match a
    case SubscriberAcking(sub) => OwnsSubscriber(t, sub, v)
    case SubscriberLive(sub) => OwnsSubscriber(t, sub, v)
    case SubscriberReleasing(sub) => OwnsSubscriber(t, sub, v)
    case DataAttaching(port) => 0 <= port < v.ports
    case DataAcking(req) => req in v.admitted
    case DataRequesting(req) => req in v.admitted
    case Removing(req, failedAttach) => req in v.admitted
    case Closing(req, failedAttach) => Decided(req, Removed(t), v)
    case CallerClosing(req) => req in v.fates
    case PublisherClaiming(req) => PresentedBy(v.presented, t) == Some(v.publisherCert)
    case PublisherHolding(req, request) => Holds(t, req, request, v)
    case PublisherSplicing(req) => Decided(req, Claimed(t), v)
    case Sweeping(reqs) => forall r :: r in reqs ==> Decided(r, Swept(t), v)
    case _ => true
  }

  /** What happened to every request, and who was told of the closure. */
  datatype Ledger = Ledger(
    presented: map<Conn, Option<Cert>>,
    admitted: map<nat, Admission>,
    fates: map<nat, Fate>,
    closes: set<(nat, Closer)>,
    recorded: map<nat, StreamRecord>,
    notices: multiset<(nat, Conn)>)

  datatype Cell = Cell(state: SessionState, actors: map<nat, Actor>, ledger: Ledger) {

    function CertOf(t: Conn): Option<Cert> { PresentedBy(ledger.presented, t) }

    function Seen(): View {
      View(state.ports, state.publisherCert, state.subscribers, ledger.presented, ledger.admitted, ledger.fates)
    }

    function At(t: nat, a: Actor): Cell { Cell(state, actors[t := a], ledger) }

    function Finish(t: nat): Cell { Cell(state, actors - {t}, ledger) }

    function CloseAs(req: nat, closer: Closer): Cell {
      Cell(state, actors, ledger.(closes := ledger.closes + {(req, closer)}))
    }

    /** A goroutine that has found this session starts working on it. */
    function Join(t: nat, a: Actor, cert: Option<Cert>): Cell {
      Cell(state, actors[t := a], ledger.(presented := ledger.presented[t := cert]))
    }

    function Shutdown(t: nat): Cell {
      var (s, swept, told) := state.BeginShutdown();
      Cell(s, actors[t := Sweeping(swept.Keys)],
           ledger.(fates := ledger.fates + (map r | r in swept :: Swept(t)),
                   notices := ledger.notices + multiset(set id | id in told :: (id, told[id].control))))
    }

    // ---- the critical sections, each with the program counter that follows it ---------

    function AttachSubscriber(t: nat): Cell {
      var (s, r) := state.AddSubscriber(t, CertOf(t));
      if r.None? then Finish(t) else Cell(s, actors[t := SubscriberAcking(r.value)], ledger)
    }

    function ReleaseSubscriber(t: nat, sub: nat): Cell {
      Cell(state.RemoveSubscriber(sub), actors - {t}, ledger)
    }

    function AttachData(t: nat, port: nat): Cell {
      var (s, r) := state.AddPending(t, port, CertOf(t));
      if r.None? then Finish(t)
      else Cell(s, actors[t := DataAcking(r.value)],
                ledger.(admitted := ledger.admitted[r.value := Admission(t, port)]))
    }

    function RemovePending(t: nat, req: nat, failedAttach: bool): Cell {
      var (s, r) := state.ClaimPending(req);
      if r.Some? then Cell(s, actors[t := Closing(req, failedAttach)],
                           ledger.(fates := ledger.fates[req := Removed(t)]))
      else if failedAttach then At(t, CallerClosing(req))
      else Finish(t)
    }

    function ClaimForPublisher(t: nat, req: nat): Cell {
      var (s, r) := state.ClaimPending(req);
      if r.None? then Finish(t)
      else Cell(s, actors[t := PublisherHolding(req, r.value)], ledger.(fates := ledger.fates[req := Claimed(t)]))
    }

    function RecordStream(t: nat, req: nat, request: Request): Cell {
      var (s, added) := state.AddStream(req, request.port);
      if !added then CloseAs(req, ByClaimant).Finish(t)
      else Cell(s, actors[t := PublisherSplicing(req)],
                ledger.(recorded := ledger.recorded[req := StreamRecord(request.port, t, request.conn)]))
    }

    function ForgetStream(t: nat, req: nat): Cell {
      Cell(state.RemoveStream(req), actors - {t}, ledger)
    }

    function Sweep(t: nat, reqs: set<nat>, choice: nat): Cell {
      if reqs == {} then Finish(t)
      else if choice in reqs then CloseAs(choice, BySweeper).At(t, Sweeping(reqs - {choice}))
      else this
    }

    /** `ok` is the outcome of the transport operation at hand; `choice` is the sweeper's next request. */
    function Step(t: nat, ok: bool, choice: nat): Cell {
      if t !in actors then this
      else match actors[t]
        case Subscribing => AttachSubscriber(t)
        case SubscriberAcking(sub) => At(t, if ok then SubscriberLive(sub) else SubscriberReleasing(sub))
        case SubscriberLive(sub) => At(t, SubscriberReleasing(sub))
        case SubscriberReleasing(sub) => ReleaseSubscriber(t, sub)
        case DataAttaching(port) => AttachData(t, port)
        case DataAcking(req) => At(t, if ok then DataRequesting(req) else Removing(req, true))
        case DataRequesting(req) => if ok then Finish(t) else At(t, Removing(req, true))
        case Removing(req, failedAttach) => RemovePending(t, req, failedAttach)
        case Closing(req, failedAttach) =>
          var c := CloseAs(req, ByRemover);
          if failedAttach then c.At(t, CallerClosing(req)) else c.Finish(t)
        case CallerClosing(req) => CloseAs(req, ByFailedAttach).Finish(t)
        case PublisherClaiming(req) => ClaimForPublisher(t, req)
        case PublisherHolding(req, request) => RecordStream(t, req, request)
        case PublisherSplicing(req) => CloseAs(req, ByClaimant).At(t, PublisherForgetting(req))
        case PublisherForgetting(req) => ForgetStream(t, req)
        case Sweeping(reqs) => Sweep(t, reqs, choice)
    }

    ghost predicate ActorsProper() {
      forall t :: t in actors ==> ActorProper(t, actors[t], Seen())
    }

    /** The ledger and the program counters agree with each other and with the session. */
    ghost predicate Inv() {
      && RequestsAccounted(state.pending, state.nextReqID, ledger.admitted, ledger.fates)
      && AdmissionsProper(ledger.admitted, state.ports, ledger.presented)
      && ClosedOnlyByWinner(ledger.closes, ledger.fates)
      && StreamsProper(ledger.recorded, ledger.admitted, ledger.fates, ledger.presented, state.publisherCert)
      && StreamsListed(state.streams, ledger.recorded)
      && ActorsProper()
      && (state.closed ==> state.pending == map[])
      && (!state.closed ==> ledger.notices == multiset{})
    }
  }
}
