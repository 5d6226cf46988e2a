/**
 One publisher's session on the relay (internal/relay/session.go).

 `SessionState` is the value of the mutex-guarded fields, and each of its functions
 is one critical section.  `Session` is the object whose methods update the fields in
 place; every method is proved to do what the function of the same name says.
 */
module RelaySession {
  import opened Common

  /** The identity of a connection, and the exact DER bytes of a certificate: both only ever compared. */
  type Conn = nat
  type Cert = nat

  const MAX_SESSION_PEERS := 1024

  datatype Subscriber = Subscriber(control: Conn, cert: Cert)

  /** A subscriber data connection waiting for the publisher, and the port it asked for. */
  datatype Request = Request(conn: Conn, port: nat)

  /** The identifiers of the subscribers attached with certificate `c`. */
  ghost function HoldersOf(subscribers: map<nat, Subscriber>, c: Cert): set<nat> {
    set id | id in subscribers && subscribers[id].cert == c
  }

  /** A Go map read: a missing count is zero. */
  function CountOf(counts: map<Cert, int>, c: Cert): int {
    if c in counts then counts[c] else 0
  }

  /** `counts` says for every certificate how many subscribers hold it, with no zero entries. */
  ghost predicate CountsHolders(subscribers: map<nat, Subscriber>, counts: map<Cert, int>) {
    && (forall c :: CountOf(counts, c) == |HoldersOf(subscribers, c)|)
    && (forall c :: c in counts ==> counts[c] != 0)
  }

  datatype SessionState = SessionState(
    mode: nat, ports: nat, publisher: Conn, publisherCert: Cert,
    closed: bool,
    subscribers: map<nat, Subscriber>, nextSubID: nat,
    subscriberCerts: map<Cert, int>,
    nextReqID: nat, pending: map<nat, Request>,
    streams: map<nat, nat>)
  {
    function CertCount(c: Cert): int {
      CountOf(subscriberCerts, c)
    }

    /** Attach a control connection; `cert` is absent when the peer presented none. */
    function AddSubscriber(control: Conn, cert: Option<Cert>): (SessionState, Option<nat>) {
      if cert.None? || closed || |subscribers| >= MAX_SESSION_PEERS then (this, None)
      else
        (this.(subscribers := subscribers[nextSubID := Subscriber(control, cert.value)],
               nextSubID := nextSubID + 1,
               subscriberCerts := subscriberCerts[cert.value := CertCount(cert.value) + 1]),
         Some(nextSubID))
    }

    function RemoveSubscriber(id: nat): SessionState {
      if id !in subscribers then this
      else
        var c := subscribers[id].cert;
        var left := CertCount(c) - 1;
        this.(subscribers := subscribers - {id},
              subscriberCerts := if left == 0 then subscriberCerts - {c} else subscriberCerts[c := left])
    }

    /** Park a subscriber data connection; `cert` is absent when `conn` carries none. */
    function AddPending(conn: Conn, port: nat, cert: Option<Cert>): (SessionState, Option<nat>) {
      if cert.None? || closed || |pending| >= MAX_SESSION_PEERS || CertCount(cert.value) == 0 then (this, None)
      else
        (this.(pending := pending[nextReqID := Request(conn, port)], nextReqID := nextReqID + 1),
         Some(nextReqID))
    }

    function ClaimPending(id: nat): (SessionState, Option<Request>) {
      if id !in pending then (this, None)
      else (this.(pending := pending - {id}), Some(pending[id]))
    }

    function AddStream(id: nat, port: nat): (SessionState, bool) {
      if closed then (this, false) else (this.(streams := streams[id := port]), true)
    }

    function RemoveStream(id: nat): SessionState {
      this.(streams := streams - {id})
    }

    /** Close to newcomers; hand back what the caller must close and whom it must notify. */
    function BeginShutdown(): (SessionState, map<nat, Request>, map<nat, Subscriber>) {
      if closed then (this, map[], map[])
      else (this.(closed := true, pending := map[]), pending, subscribers)
    }

    ghost predicate IndexAgrees() {
      CountsHolders(subscribers, subscriberCerts)
    }

    /** What every critical section keeps. */
    ghost predicate Valid() {
      && (forall id :: id in subscribers ==> id < nextSubID)
      && (forall id :: id in pending ==> id < nextReqID)
      && |subscribers| <= MAX_SESSION_PEERS
      && |pending| <= MAX_SESSION_PEERS
      && IndexAgrees()
      && (closed ==> pending == map[])
    }

    /** Some attached control connection presented exactly `c`. */
    ghost predicate Attached(c: Cert) {
      exists id :: id in subscribers && subscribers[id].cert == c
    }
  }

  function NewSession(mode: nat, ports: nat, publisher: Conn, publisherCert: Cert): SessionState {
    SessionState(mode, ports, publisher, publisherCert, false, map[], 0, map[], 0, map[], map[])
  }

  // ---- what an admission changes, and that a refusal changes nothing -----------------

  lemma AddSubscriberEffect(s: SessionState, control: Conn, cert: Option<Cert>)
    ensures var (t, r) := s.AddSubscriber(control, cert);
            && (r.Some? <==> cert.Some? && !s.closed && |s.subscribers| < MAX_SESSION_PEERS)
            && if r.None? then t == s
            else !s.closed && cert.Some? && r.value == s.nextSubID
                 && t == s.(subscribers := s.subscribers[r.value := Subscriber(control, cert.value)],
                            nextSubID := s.nextSubID + 1, subscriberCerts := t.subscriberCerts)
  {
  }

  lemma AddPendingEffect(s: SessionState, conn: Conn, port: nat, cert: Option<Cert>)
    ensures var (t, r) := s.AddPending(conn, port, cert);
            if r.None? then t == s
            else !s.closed && cert.Some? && r.value == s.nextReqID
                 && t == s.(pending := s.pending[r.value := Request(conn, port)], nextReqID := s.nextReqID + 1)
  {
  }

  // ---- what each critical section keeps -------------------------------------------

  lemma HoldersAfterAttach(subs: map<nat, Subscriber>, id: nat, sub: Subscriber, c: Cert)
    requires id !in subs
    ensures |HoldersOf(subs[id := sub], c)| == |HoldersOf(subs, c)| + (if c == sub.cert then 1 else 0)
  {
    if c == sub.cert {
      assert HoldersOf(subs[id := sub], c) == HoldersOf(subs, c) + {id};
    } else {
      assert HoldersOf(subs[id := sub], c) == HoldersOf(subs, c);
    }
  }

  lemma HoldersAfterRelease(subs: map<nat, Subscriber>, id: nat, c: Cert)
    requires id in subs
    ensures |HoldersOf(subs - {id}, c)| == |HoldersOf(subs, c)| - (if c == subs[id].cert then 1 else 0)
  {
    if c == subs[id].cert {
      assert HoldersOf(subs - {id}, c) == HoldersOf(subs, c) - {id};
    } else {
      assert HoldersOf(subs - {id}, c) == HoldersOf(subs, c);
    }
  }

  lemma NewSessionIsValid(mode: nat, ports: nat, publisher: Conn, cert: Cert)
    ensures NewSession(mode, ports, publisher, cert).Valid()
  {
    var s := NewSession(mode, ports, publisher, cert);
    assert s.IndexAgrees() by {
      forall c ensures s.CertCount(c) == |HoldersOf(s.subscribers, c)| {
        assert HoldersOf(s.subscribers, c) == {};
      }
    }
  }

  lemma AddSubscriberKeepsIndex(s: SessionState, control: Conn, cert: Option<Cert>)
    requires s.IndexAgrees() && s.nextSubID !in s.subscribers
    ensures s.AddSubscriber(control, cert).0.IndexAgrees()
  {
    var (t, r) := s.AddSubscriber(control, cert);
    if r.Some? {
      forall c ensures t.CertCount(c) == |HoldersOf(t.subscribers, c)| {
        HoldersAfterAttach(s.subscribers, s.nextSubID, Subscriber(control, cert.value), c);
      }
    }
  }

  lemma OneMore<V>(m: map<nat, V>, k: nat, v: V)
    requires k !in m
    ensures |m[k := v]| == |m| + 1
  {
    assert m[k := v].Keys == m.Keys + {k};
  }

  lemma AddSubscriberKeepsValid(s: SessionState, control: Conn, cert: Option<Cert>)
    requires s.Valid()
    ensures s.AddSubscriber(control, cert).0.Valid()
  {
    AddSubscriberKeepsIndex(s, control, cert);
    hide SessionState.IndexAgrees, SessionState.CertCount;
    if s.AddSubscriber(control, cert).1.Some? { OneMore(s.subscribers, s.nextSubID, Subscriber(control, cert.value)); }
  }

  lemma RemoveSubscriberKeepsIndex(s: SessionState, id: nat)
    requires s.IndexAgrees()
    ensures s.RemoveSubscriber(id).IndexAgrees()
  {
    if id in s.subscribers {
      var t := s.RemoveSubscriber(id);
      forall c ensures t.CertCount(c) == |HoldersOf(t.subscribers, c)| {
        HoldersAfterRelease(s.subscribers, id, c);
      }
    }
  }

  lemma RemoveSubscriberKeepsValid(s: SessionState, id: nat)
    requires s.Valid()
    ensures s.RemoveSubscriber(id).Valid()
  {
    RemoveSubscriberKeepsIndex(s, id);
    hide SessionState.IndexAgrees, SessionState.CertCount;
    if id in s.subscribers {
      assert s.RemoveSubscriber(id).subscribers.Keys == s.subscribers.Keys - {id};
    }
  }

  lemma AddPendingKeepsValid(s: SessionState, conn: Conn, port: nat, cert: Option<Cert>)
    requires s.Valid()
    ensures s.AddPending(conn, port, cert).0.Valid()
  {
    var (t, r) := s.AddPending(conn, port, cert);
    if r.Some? {
      OneMore(s.pending, s.nextReqID, Request(conn, port));
      assert t.subscribers == s.subscribers && t.subscriberCerts == s.subscriberCerts;
    }
  }

  lemma ClaimPendingKeepsValid(s: SessionState, id: nat)
    requires s.Valid()
    ensures s.ClaimPending(id).0.Valid()
  {
    var t := s.ClaimPending(id).0;
    if id in s.pending {
      assert t.pending.Keys == s.pending.Keys - {id};
    }
  }

  lemma StreamsKeepValid(s: SessionState, id: nat, port: nat)
    requires s.Valid()
    ensures s.AddStream(id, port).0.Valid() && s.RemoveStream(id).Valid()
  {
  }

  lemma ShutdownKeepsValid(s: SessionState)
    requires s.Valid()
    ensures s.BeginShutdown().0.Valid()
  {
  }

  /** The count kept beside the table answers exactly what a search of the table would. */
  lemma LookupIsTableSearch(s: SessionState, c: Cert)
    requires s.IndexAgrees()
    ensures s.CertCount(c) == |HoldersOf(s.subscribers, c)|
    ensures s.CertCount(c) == 0 <==> !s.Attached(c)
  {
    if s.Attached(c) {
      var id :| id in s.subscribers && s.subscribers[id].cert == c;
      assert id in HoldersOf(s.subscribers, c);
    } else {
      assert HoldersOf(s.subscribers, c) == {};
    }
  }

  /** A data connection is admitted exactly when its own certificate is attached and there is room. */
  lemma AdmissionIffAttached(s: SessionState, conn: Conn, port: nat, cert: Option<Cert>)
    requires s.Valid()
    ensures s.AddPending(conn, port, cert).1.Some?
            <==> cert.Some? && s.Attached(cert.value) && !s.closed && |s.pending| < MAX_SESSION_PEERS
    ensures s.AddPending(conn, port, cert).1.Some? ==>
              var id := s.AddPending(conn, port, cert).1.value;
              id !in s.pending && s.AddPending(conn, port, cert).0.ClaimPending(id) == (s.(nextReqID := id + 1), Some(Request(conn, port)))
  {
    if cert.Some? {
      LookupIsTableSearch(s, cert.value);
      var (t, r) := s.AddPending(conn, port, cert);
      if r.Some? {
        assert t.pending - {r.value} == s.pending;
      }
    }
  }

  /** Counting one more holder and one fewer again leaves the index as it was. */
  lemma IndexEntryReturns(counts: map<Cert, int>, c: Cert)
    requires c in counts ==> counts[c] != 0
    ensures var more := counts[c := CountOf(counts, c) + 1];
            (if CountOf(counts, c) == 0 then more - {c} else more[c := CountOf(counts, c)]) == counts
  {
  }

  lemma EntryUndone<V>(m: map<nat, V>, k: nat, v: V)
    requires k !in m
    ensures m[k := v] - {k} == m
  {
  }

  lemma ReleaseRestores(s: SessionState, control: Conn, c: Cert)
    requires s.nextSubID !in s.subscribers && (c in s.subscriberCerts ==> s.subscriberCerts[c] != 0)
    requires s.AddSubscriber(control, Some(c)).1.Some?
    ensures var (t, r) := s.AddSubscriber(control, Some(c));
            t.RemoveSubscriber(r.value) == s.(nextSubID := s.nextSubID + 1)
  {
    var (t, r) := s.AddSubscriber(control, Some(c));
    EntryUndone(s.subscribers, s.nextSubID, Subscriber(control, c));
    IndexEntryReturns(s.subscriberCerts, c);
    assert t.CertCount(c) == s.CertCount(c) + 1;
    hide SessionState.CertCount;
  }

  /** Releasing a subscriber undoes its attachment, and releasing it again changes nothing. */
  lemma ReleaseUndoesAttach(s: SessionState, control: Conn, cert: Option<Cert>)
    requires s.Valid() && s.AddSubscriber(control, cert).1.Some?
    ensures var (t, r) := s.AddSubscriber(control, cert);
            var u := t.RemoveSubscriber(r.value);
            u == s.(nextSubID := s.nextSubID + 1) && u.RemoveSubscriber(r.value) == u
  {
    var c := cert.value;
    LookupIsTableSearch(s, c);
    assert c in s.subscriberCerts ==> s.subscriberCerts[c] != 0;
    hide SessionState.Valid;
    ReleaseRestores(s, control, c);
  }

  /** A sequence without repetition is as long as the set of its elements. */
  lemma {:induction false} DistinctCount(s: seq<nat>, keys: set<nat>)
    requires Distinct(s) && (set i | 0 <= i < |s| :: s[i]) == keys
    ensures |s| == |keys|
  {
    if s == [] {
    } else {
      var init, last := s[..|s| - 1], s[|s| - 1];
      assert forall i :: 0 <= i < |init| ==> init[i] == s[i];
      assert (set i | 0 <= i < |init| :: init[i]) == keys - {last} by {
        forall k | k in keys && k != last ensures k in set i | 0 <= i < |init| :: init[i] {
          var i :| 0 <= i < |s| && s[i] == k;
          assert init[i] == k;
        }
      }
      assert s[|s| - 1] in keys;
      DistinctCount(init, keys - {last});
    }
  }

  /** The session object: the fields session.go guards with its mutex, updated in place. */
  class Session {
    const mode: nat
    const ports: nat
    const publisher: Conn
    const publisherCert: Cert
    var closed: bool
    var subscribers: map<nat, Subscriber>
    var nextSubID: nat
    var subscriberCerts: map<Cert, int>
    var nextReqID: nat
    var pending: map<nat, Request>
    var streams: map<nat, nat>

    ghost function State(): SessionState
      reads this
    {
      SessionState(mode, ports, publisher, publisherCert, closed, subscribers, nextSubID,
                   subscriberCerts, nextReqID, pending, streams)
    }

    constructor (mode: nat, ports: nat, publisher: Conn, publisherCert: Cert)
      ensures State() == NewSession(mode, ports, publisher, publisherCert)
    {
      this.mode, this.ports, this.publisher, this.publisherCert := mode, ports, publisher, publisherCert;
      closed := false;
      subscribers, nextSubID, subscriberCerts := map[], 0, map[];
      nextReqID, pending, streams := 0, map[], map[];
    }

    method AddSubscriber(control: Conn, cert: Option<Cert>) returns (id: Option<nat>)
      modifies this
      ensures (State(), id) == old(State()).AddSubscriber(control, cert)
    {
      if cert.None? {
        return None;
      }
      if closed || |subscribers| >= MAX_SESSION_PEERS {
        return None;
      }
      id := Some(nextSubID);
      nextSubID := nextSubID + 1;
      subscribers := subscribers[id.value := Subscriber(control, cert.value)];
      subscriberCerts := subscriberCerts[cert.value := CountOf(subscriberCerts, cert.value) + 1];
    }

    method RemoveSubscriber(id: nat)
      modifies this
      ensures State() == old(State()).RemoveSubscriber(id)
    {
      if id !in subscribers {
        return;
      }
      var certKey := subscribers[id].cert;
      subscribers := subscribers - {id};
      var left := CountOf(subscriberCerts, certKey) - 1;
      subscriberCerts := subscriberCerts[certKey := left];
      if left == 0 {
        subscriberCerts := subscriberCerts - {certKey};
        assert subscriberCerts == old(subscriberCerts) - {certKey};
      }
    }

    method AddPending(conn: Conn, port: nat, cert: Option<Cert>) returns (id: Option<nat>)
      modifies this
      ensures (State(), id) == old(State()).AddPending(conn, port, cert)
    {
      if cert.None? {
        return None;
      }
      if closed || |pending| >= MAX_SESSION_PEERS {
        return None;
      }
      if CountOf(subscriberCerts, cert.value) == 0 {
        return None;
      }
      id := Some(nextReqID);
      nextReqID := nextReqID + 1;
      pending := pending[id.value := Request(conn, port)];
    }

    method ClaimPending(id: nat) returns (req: Option<Request>)
      modifies this
      ensures (State(), req) == old(State()).ClaimPending(id)
    {
      if id !in pending {
        return None;
      }
      req := Some(pending[id]);
      pending := pending - {id};
    }

    method AddStream(id: nat, port: nat) returns (ok: bool)
      modifies this
      ensures (State(), ok) == old(State()).AddStream(id, port)
    {
      if closed {
        return false;
      }
      streams := streams[id := port];
      return true;
    }

    method RemoveStream(id: nat)
      modifies this
      ensures State() == old(State()).RemoveStream(id)
    {
      streams := streams - {id};
    }

    /** The controls come back in whatever order the map yields; `order` names it. */
    method BeginShutdown() returns (swept: map<nat, Request>, controls: seq<Conn>, ghost order: seq<nat>)
      modifies this
      ensures State() == old(State()).BeginShutdown().0
      ensures swept == old(State()).BeginShutdown().1
      ensures Distinct(order) && |controls| == |order|
      ensures (set i | 0 <= i < |order| :: order[i]) == old(State()).BeginShutdown().2.Keys
      ensures forall i :: 0 <= i < |order| ==>
                controls[i] == old(State()).BeginShutdown().2[order[i]].control
    {
      swept, controls, order := map[], [], [];
      if closed {
        return;
      }
      closed := true;
      swept := pending;
      pending := map[];
      var rest := subscribers.Keys;
      while rest != {}
        invariant rest <= subscribers.Keys && |controls| == |order|
        invariant Distinct(order)
        invariant (set i | 0 <= i < |order| :: order[i]) == subscribers.Keys - rest
        invariant forall i :: 0 <= i < |order| ==>
                    order[i] in subscribers && order[i] !in rest && controls[i] == subscribers[order[i]].control
        decreases rest
      {
        var id :| id in rest;
        rest := rest - {id};
        ghost var was := order;
        order := order + [id];
        controls := controls + [subscribers[id].control];
        assert (set i | 0 <= i < |order| :: order[i]) == (set i | 0 <= i < |was| :: was[i]) + {id} by {
          assert forall i :: 0 <= i < |was| ==> order[i] == was[i];
          assert order[|was|] == id;
        }
      }
    }

    /** shutdown: closes every swept connection, then notifies every control, and counts those. */
    method Shutdown() returns (closedConns: set<Conn>, notified: seq<Conn>, ghost order: seq<nat>)
      modifies this
      ensures State() == old(State()).BeginShutdown().0
      ensures closedConns == set r | r in old(State()).BeginShutdown().1 :: old(State()).BeginShutdown().1[r].conn
      ensures Distinct(order) && |notified| == |order| == |old(State()).BeginShutdown().2|
      ensures (set i | 0 <= i < |order| :: order[i]) == old(State()).BeginShutdown().2.Keys
      ensures forall i :: 0 <= i < |order| ==>
                notified[i] == old(State()).BeginShutdown().2[order[i]].control
    {
      var swept: map<nat, Request>;
      swept, notified, order := BeginShutdown();
      closedConns := {};
      var rest := swept.Keys;
      while rest != {}
        invariant rest <= swept.Keys && closedConns == set r | r in swept.Keys - rest :: swept[r].conn
        decreases rest
      {
        var id :| id in rest;
        rest := rest - {id};
        closedConns := closedConns + {swept[id].conn};
      }
      DistinctCount(order, old(State()).BeginShutdown().2.Keys);
    }
  }
}
