/**
 The registry of live sessions and the ban list (internal/relay/registry.go).

 `RegistryState` is generic in what it maps a SessionID to, so that the registry object
 (which maps to session objects) and the machine in RelayMachine (which maps to session
 numbers) are specified by the same functions.
 */
module RelayRegistry {
  import opened Common
  import opened RelaySession

  /** A SessionID: the leading bytes that LogTag renders, and the rest that it withholds. */
  datatype SessionID = SessionID(head: nat, rest: nat) {
    function LogTag(): nat { head }
  }

  const MODE_TCP := 1

  datatype AckStatus = AckOK | AckNoSuchSession | AckModeMismatch | AckPublisherExists | AckPortsMismatch | AckDenied

  datatype KillResult<+S> = NoSuchSession | AmbiguousTag | Killed(id: SessionID, session: S)

  datatype RegistryState<S> = RegistryState(sessions: map<SessionID, S>, killed: set<SessionID>) {

    /** The answer to a proven claim for `id`: the ban is looked at before the occupancy. */
    function ClaimVerdict(id: SessionID): AckStatus {
      if id in killed then AckDenied
      else if id in sessions then AckPublisherExists
      else AckOK
    }

    /** The slot handed to `newcomer` when the verdict is AckOK. */
    function Claim(id: SessionID, newcomer: S): RegistryState<S> {
      if ClaimVerdict(id) == AckOK then this.(sessions := sessions[id := newcomer]) else this
    }

    /** The unconditional delete by identifier. */
    function Unregister(id: SessionID): RegistryState<S> {
      this.(sessions := sessions - {id})
    }

    function Ban(id: SessionID): RegistryState<S> {
      RegistryState(sessions - {id}, killed + {id})
    }

    /** `id` is the one live session the tag names. */
    ghost predicate NamedOnlyBy(tag: nat, id: SessionID) {
      id in sessions && id.LogTag() == tag
      && forall other :: other in sessions && other.LogTag() == tag ==> other == id
    }

    /** What Kill may answer for `tag`, and the state it must then leave. */
    ghost predicate KillAllowed(tag: nat, result: KillResult<S>, after: RegistryState<S>) {
      match result
      case NoSuchSession =>
        after == this && forall id :: id in sessions ==> id.LogTag() != tag
      case AmbiguousTag =>
        after == this && exists a, b :: a in sessions && b in sessions && a != b && a.LogTag() == tag == b.LogTag()
      case Killed(id, session) =>
        NamedOnlyBy(tag, id) && session == sessions[id] && after == Ban(id)
    }
  }

  /** The tag alone decides Kill's answer and effect: no order of the map can change either. */
  lemma KillIsDeterministic<S>(r: RegistryState<S>, tag: nat, x: KillResult<S>, rx: RegistryState<S>, y: KillResult<S>, ry: RegistryState<S>)
    requires r.KillAllowed(tag, x, rx) && r.KillAllowed(tag, y, ry)
    ensures x == y && rx == ry
  {
  }

  /** Kill acts exactly when the tag names one live session, and otherwise changes nothing. */
  lemma KillActsIffTagIsUnique<S>(r: RegistryState<S>, tag: nat, x: KillResult<S>, after: RegistryState<S>)
    requires r.KillAllowed(tag, x, after)
    ensures x.Killed? <==> exists id :: r.NamedOnlyBy(tag, id)
    ensures !x.Killed? ==> after == r
    ensures x.Killed? ==> after.ClaimVerdict(x.id) == AckDenied && x.id !in after.sessions
    ensures x.Killed? ==> forall id :: id != x.id ==> after.ClaimVerdict(id) == r.ClaimVerdict(id)
  {
    if x.Killed? {
      assert r.NamedOnlyBy(tag, x.id);
    }
  }

  /** Subscribe's checks against the session it looked up. */
  function SubscribeVerdict(s: SessionState, mode: nat, ports: nat): AckStatus {
    if s.mode != mode then AckModeMismatch
    else if s.ports != ports then AckPortsMismatch
    else AckOK
  }

  /** AttachSubscriberData's checks against the session it looked up. */
  function AttachVerdict(s: SessionState, port: nat): AckStatus {
    if s.mode != MODE_TCP then AckModeMismatch
    else if port >= s.ports then AckPortsMismatch
    else AckOK
  }

  class Registry {
    var sessions: map<SessionID, Session>
    var killed: set<SessionID>

    ghost function State(): RegistryState<Session>
      reads this
    {
      RegistryState(sessions, killed)
    }

    constructor ()
      ensures State() == RegistryState(map[], {})
    {
      sessions, killed := map[], {};
    }

    /** The critical section of Register, with the session object it creates. */
    method Claim(id: SessionID, mode: nat, ports: nat, control: Conn, cert: Cert)
      returns (verdict: AckStatus, session: Option<Session>)
      modifies this
      ensures verdict == old(State()).ClaimVerdict(id)
      ensures verdict == AckOK <==> session.Some?
      ensures session.None? ==> State() == old(State())
      ensures session.Some? ==> fresh(session.value) && State() == old(State()).Claim(id, session.value)
                                && session.value.State() == NewSession(mode, ports, control, cert)
    {
      if id in killed {
        return AckDenied, None;
      }
      if id in sessions {
        return AckPublisherExists, None;
      }
      var sess := new Session(mode, ports, control, cert);
      sessions := sessions[id := sess];
      return AckOK, Some(sess);
    }

    method Unregister(id: SessionID)
      modifies this
      ensures State() == old(State()).Unregister(id)
    {
      sessions := sessions - {id};
    }

    method SessionFor(id: SessionID) returns (session: Option<Session>)
      ensures session == if id in sessions then Some(sessions[id]) else None
    {
      if id in sessions {
        return Some(sessions[id]);
      }
      return None;
    }

    /** Kill's critical section: the scan visits the map in any order, counting matches and keeping the last. */
    method Condemn(tag: nat) returns (result: KillResult<Session>)
      modifies this
      ensures old(State()).KillAllowed(tag, result, State())
    {
      var found: Option<SessionID> := None;
      var matches := 0;
      var rest := sessions.Keys;
      while rest != {}
        invariant rest <= sessions.Keys
        invariant matches == 0 <==> found.None?
        invariant found.Some? ==> found.value in sessions && found.value !in rest && found.value.LogTag() == tag
        invariant matches <= 1 ==>
                    forall id :: id in sessions && id !in rest && id.LogTag() == tag ==> found == Some(id)
        invariant matches > 1 ==>
                    exists a, b :: a in sessions && b in sessions && a != b && a.LogTag() == tag == b.LogTag()
        decreases rest
      {
        var id :| id in rest;
        rest := rest - {id};
        if id.LogTag() == tag {
          assert matches > 0 ==> found.value in sessions && found.value != id;
          found, matches := Some(id), matches + 1;
        }
      }
      if matches == 0 {
        return NoSuchSession;
      }
      if matches > 1 {
        return AmbiguousTag;
      }
      var sess := sessions[found.value];
      killed := killed + {found.value};
      sessions := sessions - {found.value};
      return Killed(found.value, sess);
    }

    /**
     Kill: bans and unmaps the one session with the tag, if there is one, closes its publisher's
     control connection, shuts it down, and answers with the number of subscribers notified.
     */
    method Kill(tag: nat) returns (result: KillResult<Session>, notified: nat, closed: set<Conn>)
      modifies this, sessions.Values
      ensures old(State()).KillAllowed(tag, result, State())
      ensures !result.Killed? ==> notified == 0 && closed == {} && forall s :: s in old(sessions.Values) ==> s.State() == old(s.State())
      ensures result.Killed? ==> result.session in old(sessions.Values)
      ensures result.Killed? ==>
                var was := old(result.session.State().BeginShutdown());
                && result.session.State() == was.0
                && notified == |was.2|
                && closed == {result.session.publisher} + (set r | r in was.1 :: was.1[r].conn)
      ensures result.Killed? ==> forall s :: s in old(sessions.Values) && s != result.session ==> s.State() == old(s.State())
    {
      result := Condemn(tag);
      notified, closed := 0, {};
      if result.Killed? {
        var swept, told, order := result.session.Shutdown();
        closed := {result.session.publisher} + swept;
        notified := |told|;
      }
    }
  }
}
