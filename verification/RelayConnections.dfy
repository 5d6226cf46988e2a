/**
 The relay's transport set (internal/relay/connections.go), its revocation set
 (internal/mtls/mtls.go) and the reload that enforces one on the other
 (internal/relay/admin.go).

 The functions say what each critical section does to the tracked sockets; the classes
 hold the fields and are proved against them.
 */
module RelayConnections {
  import opened Common

  /** The identity of a raw transport. */
  type Socket = nat

  const MAX_CONNECTIONS := 1024

  /** A certificate serial as rendered text; the empty text, which no serial renders to, is None. */
  datatype Serial = Serial(text: string)

  /** Tracked sockets with the serial they authenticated with, None until they have. */
  type Tracked = map<Socket, Option<Serial>>

  function TrackOne(conns: Tracked, c: Socket): (Tracked, bool) {
    if |conns| >= MAX_CONNECTIONS then (conns, false) else (conns[c := None], true)
  }

  /** Admission: still tracked, a real serial, and not revoked at this very moment. */
  predicate MayAuthenticate(conns: Tracked, c: Socket, serial: Option<Serial>, revoked: set<Serial>) {
    serial.Some? && c in conns && serial.value !in revoked
  }

  predicate IsCovered(conns: Tracked, revoked: set<Serial>, c: Socket) {
    c in conns && conns[c].Some? && conns[c].value in revoked
  }

  /** The sockets a revocation set covers. */
  function Covered(conns: Tracked, revoked: set<Serial>): set<Socket> {
    set c | c in conns && IsCovered(conns, revoked, c)
  }

  function Sockets(reply: Option<Socket>): set<Socket> {
    if reply.Some? then {reply.value} else {}
  }

  /** What eviction leaves tracked: the covered sockets go, except the one that still has a reply to send. */
  function Evict(conns: Tracked, revoked: set<Serial>, reply: Option<Socket>): Tracked {
    conns - (Covered(conns, revoked) - Sockets(reply))
  }

  /** The covered socket whose close waits for its reply, if it is covered at all. */
  function Deferred(conns: Tracked, revoked: set<Serial>, reply: Option<Socket>): Option<Socket> {
    if reply.Some? && reply.value in Covered(conns, revoked) then reply else None
  }

  /** After eviction only the deferred socket can still be covered. */
  lemma EvictLeavesOnlyDeferred(conns: Tracked, revoked: set<Serial>, reply: Option<Socket>)
    ensures Covered(Evict(conns, revoked, reply), revoked) == Sockets(Deferred(conns, revoked, reply))
    ensures Covered(conns - Covered(conns, revoked), revoked) == {}
  {
    assert Covered(conns - Covered(conns, revoked), revoked) == {};
    assert Covered(Evict(conns, revoked, reply), revoked) == Sockets(Deferred(conns, revoked, reply));
  }

  /** Eviction touches nobody else: a socket without a revoked serial stays tracked just as it was. */
  lemma EvictKeepsTheRest(conns: Tracked, revoked: set<Serial>, reply: Option<Socket>, c: Socket)
    ensures c in Evict(conns, revoked, reply) <==>
            c in conns && (conns[c].None? || conns[c].value !in revoked || reply == Some(c))
    ensures c in Evict(conns, revoked, reply) ==> Evict(conns, revoked, reply)[c] == conns[c]
  {
  }

  lemma InCovered(conns: Tracked, revoked: set<Serial>)
    ensures forall c :: c in Covered(conns, revoked) <==> IsCovered(conns, revoked, c)
  {
  }

  /** Once every covered socket was met, those evicted and the one deferred are all of them, each once. */
  lemma EvictedAndDeferred(covered: set<Socket>, evicted: set<Socket>, reply: Option<Socket>, deferred: Option<Socket>)
    requires deferred == if reply.Some? && reply.value in covered then reply else None
    requires forall c :: c in evicted <==> c in covered && reply != Some(c)
    ensures evicted == covered - Sockets(reply)
    ensures |covered| == |evicted| + if deferred.Some? then 1 else 0
  {
    assert evicted == covered - Sockets(reply);
    assert covered == evicted + Sockets(deferred);
  }

  /** A handle on the live revocation set: a pointer that Replace swaps, nil until first stored. */
  class RevocationSet {
    var v: Option<set<Serial>>

    ghost function Serials(): set<Serial>
      reads this
    {
      if v.Some? then v.value else {}
    }

    constructor (serials: set<Serial>)
      ensures Serials() == serials
    {
      v := Some(serials);
    }

    method Replace(serials: set<Serial>)
      modifies this
      ensures Serials() == serials
    {
      v := Some(serials);
    }

    method Contains(serial: Serial) returns (revoked: bool)
      ensures revoked <==> serial in Serials()
    {
      if v.None? {
        return false;
      }
      return serial in v.value;
    }

    method Len() returns (n: nat)
      ensures n == |Serials()|
    {
      if v.None? {
        return 0;
      }
      return |v.value|;
    }
  }

  class ConnectionSet {
    var conns: Tracked

    constructor ()
      ensures conns == map[]
    {
      conns := map[];
    }

    method Track(c: Socket) returns (ok: bool)
      modifies this
      ensures (conns, ok) == TrackOne(old(conns), c)
      ensures ok <==> |old(conns)| < MAX_CONNECTIONS
      ensures conns == if ok then old(conns)[c := None] else old(conns)
    {
      if |conns| >= MAX_CONNECTIONS {
        return false;
      }
      conns := conns[c := None];
      return true;
    }

    method Authenticate(c: Socket, serial: Option<Serial>, revoked: RevocationSet) returns (ok: bool)
      modifies this
      ensures ok <==> MayAuthenticate(old(conns), c, serial, revoked.Serials())
      ensures ok <==> serial.Some? && c in old(conns) && !(serial.value in revoked.Serials())
      ensures conns == if ok then old(conns)[c := serial] else old(conns)
    {
      if serial.None? {
        return false;
      }
      var isRevoked := revoked.Contains(serial.value);
      if c !in conns || isRevoked {
        return false;
      }
      conns := conns[c := serial];
      return true;
    }

    /** Evict every covered socket at once, except the one that still has a reply to send. */
    method CloseMatchingAfterReply(revoked: RevocationSet, reply: Option<Socket>)
      returns (evicted: set<Socket>, deferred: Option<Socket>, closed: nat)
      modifies this
      ensures conns == Evict(old(conns), revoked.Serials(), reply)
      ensures deferred == Deferred(old(conns), revoked.Serials(), reply)
      ensures evicted == Covered(old(conns), revoked.Serials()) - Sockets(reply)
      ensures closed == |Covered(old(conns), revoked.Serials())|
    {
      evicted, deferred := {}, None;
      ghost var covered := Covered(conns, revoked.Serials());
      ghost var bad := revoked.Serials();
      InCovered(conns, bad);
      hide Covered;
      var rest := conns.Keys;
      while rest != {}
        invariant rest <= conns.Keys && revoked.Serials() == bad
        invariant forall c :: c in rest ==> c in old(conns) && conns[c] == old(conns)[c]
        invariant forall c :: c in evicted <==> c in covered && c !in rest && reply != Some(c)
        invariant deferred == if reply.Some? && reply.value in covered && reply.value !in rest then reply else None
        invariant conns == old(conns) - evicted
        decreases rest
      {
        var c :| c in rest;
        rest := rest - {c};
        if conns[c].Some? {
          var matches := revoked.Contains(conns[c].value);
          if matches {
            if reply == Some(c) {
              deferred := Some(c);
            } else {
              evicted := evicted + {c};
              conns := conns - {c};
            }
          }
        }
      }
      closed := |evicted| + (if deferred.Some? then 1 else 0);
      EvictedAndDeferred(covered, evicted, reply, deferred);
    }

    /** A tracked connection's Close, and the second half of an eviction. */
    method Forget(c: Socket)
      modifies this
      ensures conns == old(conns) - {c}
    {
      conns := conns - {c};
    }

    method CloseAll() returns (closed: set<Socket>)
      modifies this
      ensures conns == map[] && closed == old(conns).Keys
    {
      closed := conns.Keys;
      conns := map[];
    }
  }

  /** What reload-crl answers: a refusal, or how many serials are new and how many sockets it closed. */
  datatype ReloadReply = Refused | Reloaded(total: nat, added: nat, affected: nat)

  /** What a reload does to the outside, in the order it does it. */
  datatype Effect = CloseSockets(sockets: set<Socket>) | SendReply(reply: ReloadReply)

  class Server {
    const connections: ConnectionSet
    const revoked: RevocationSet
    const hasFile: bool

    constructor (connections: ConnectionSet, revoked: RevocationSet, hasFile: bool)
      ensures this.connections == connections && this.revoked == revoked && this.hasFile == hasFile
    {
      this.connections, this.revoked, this.hasFile := connections, revoked, hasFile;
    }

    /** The additions are counted before the swap: afterwards nothing records the previous set. */
    method CountAdded(serials: set<Serial>) returns (added: nat)
      ensures added == |serials - revoked.Serials()|
    {
      var newly := {};
      var rest := serials;
      while rest != {}
        invariant rest <= serials && newly == (serials - revoked.Serials()) - rest
        decreases rest
      {
        var serial :| serial in rest;
        rest := rest - {serial};
        var known := revoked.Contains(serial);
        if !known {
          newly := newly + {serial};
        }
      }
      assert newly == serials - revoked.Serials();
      return |newly|;
    }

    /**
     The reload, start to finish, with the reload lock held: swap, scan, reply, then the
     deferred close.  `file` is what reading and parsing the revoked-serial file gave.
     */
    method ServeReloadCRL(file: Option<set<Serial>>, requester: Socket) returns (reply: ReloadReply, effects: seq<Effect>)
      modifies connections, revoked
      ensures reply.Refused? <==> !hasFile || file.None?
      ensures reply.Refused? ==>
                effects == [SendReply(Refused)] && connections.conns == old(connections.conns) && revoked.Serials() == old(revoked.Serials())
      ensures reply.Reloaded? ==>
                var covered := Covered(old(connections.conns), file.value);
                && revoked.Serials() == file.value
                && connections.conns == old(connections.conns) - covered
                && reply == Reloaded(|file.value|, |file.value - old(revoked.Serials())|, |covered|)
                && effects == [CloseSockets(covered - {requester}), SendReply(reply)]
                              + if requester in covered then [CloseSockets({requester})] else []
    {
      if !hasFile || file.None? {
        return Refused, [SendReply(Refused)];
      }
      var serials := file.value;
      var added := CountAdded(serials);
      revoked.Replace(serials);
      ghost var before := connections.conns;
      var evicted, deferred, affected := connections.CloseMatchingAfterReply(revoked, Some(requester));
      effects := [CloseSockets(evicted)];
      reply := Reloaded(|serials|, added, affected);
      effects := effects + [SendReply(reply)];
      if deferred.Some? {
        effects := effects + [CloseSockets({deferred.value})];
        connections.Forget(deferred.value);
      }
      assert connections.conns == before - Covered(before, serials);
    }
  }
}
