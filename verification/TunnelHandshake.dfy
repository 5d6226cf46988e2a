/**
 The tunnel handshake (internal/proto/auth.go) and the role-to-key choice of the connection it
 yields (internal/proto/frame_conn.go).

 MACs are symbolic: equal only when key, purpose and transcript are.  A challenge drawn fresh
 by peer number i is the number i, so no two peers draw the same one; what the relay delivers
 in its place is any number.
 */
module TunnelHandshake {
  import opened Common

  datatype Role = Publish | Subscribe
  datatype Purpose = PublisherProof | SubscriberProof | StreamSecret

  /** tunnelMAC of a transcript, or 32 bytes that are no MAC of anything. */
  datatype Tag = Mac(secret: nat, purpose: Purpose, sub: nat, pub: nat, port: nat) | Junk(n: nat)

  /** The next I/O a peer performs, in the order that keeps an unbuffered transport from deadlocking. */
  datatype Pc = SendChallenge | RecvChallenge | SendProof | RecvProof | Accepted | Rejected

  datatype Peer = Peer(role: Role, secret: nat, port: nat, local: nat, remote: nat, pc: Pc) {

    function Transcript(purpose: Purpose): Tag {
      if role.Publish? then Mac(secret, purpose, remote, local, port) else Mac(secret, purpose, local, remote, port)
    }

    function OwnProof(): Tag { Transcript(if role.Publish? then PublisherProof else SubscriberProof) }

    function ExpectedProof(): Tag { Transcript(if role.Publish? then SubscriberProof else PublisherProof) }

    function AfterSendChallenge(): Peer {
      this.(pc := if role.Publish? then SendProof else RecvChallenge)
    }

    function AfterRecvChallenge(c: nat): Peer {
      this.(remote := c, pc := if role.Publish? then SendChallenge else RecvProof)
    }

    function AfterSendProof(): Peer {
      this.(pc := if role.Publish? then RecvProof else Accepted)
    }

    function AfterRecvProof(proof: Tag): Peer {
      if proof != ExpectedProof() then this.(pc := Rejected)
      else this.(pc := if role.Publish? then Accepted else SendProof)
    }

    predicate Done() { pc.Accepted? || pc.Rejected? }
  }

  function NewPeer(role: Role, secret: nat, port: nat, local: nat): Peer {
    Peer(role, secret, port, local, 0, if role.Publish? then RecvChallenge else SendChallenge)
  }

  // ---- the keys of the connection a handshake yields ------------------------------------------

  datatype DataKey = DataKey(stream: Tag, publisherToSubscriber: bool)

  function WriteKey(p: Peer): DataKey { DataKey(p.Transcript(StreamSecret), p.role.Publish?) }

  function ReadKey(p: Peer): DataKey { DataKey(p.Transcript(StreamSecret), p.role.Subscribe?) }

  /** Two ends of one stream: same secret, port and both challenges, opposite roles. */
  ghost predicate Partners(p: Peer, q: Peer) {
    p.role != q.role && p.secret == q.secret && p.port == q.port && p.local == q.remote && p.remote == q.local
  }

  /** Partners hold one stream secret with crossed keys, and the two directions never share a key. */
  lemma PartnersCrossKeys(p: Peer, q: Peer)
    requires p.role != q.role
    ensures Partners(p, q) <==> WriteKey(p) == ReadKey(q) && ReadKey(p) == WriteKey(q)
    ensures WriteKey(p) != ReadKey(p)
  {
    assert p.Transcript(StreamSecret) == q.Transcript(StreamSecret) <==> Partners(p, q);
  }

  // ---- one end, as the code runs it --------------------------------------------------------------

  /** What the transport does with each I/O of one handshake: whether a write succeeds, what a read brings. */
  datatype Answers = Answers(challengeSent: bool, challenge: Option<nat>, proofSent: bool, proof: Option<Tag>)

  function Act(p: Peer, a: Answers): Peer {
    match p.pc
    case SendChallenge => if a.challengeSent then p.AfterSendChallenge() else p.(pc := Rejected)
    case RecvChallenge => if a.challenge.Some? then p.AfterRecvChallenge(a.challenge.value) else p.(pc := Rejected)
    case SendProof => if a.proofSent then p.AfterSendProof() else p.(pc := Rejected)
    case RecvProof => if a.proof.Some? then p.AfterRecvProof(a.proof.value) else p.(pc := Rejected)
    case Accepted => p
    case Rejected => p
  }

  /** The peer after its whole handshake. */
  function Alone(p: Peer, a: Answers): Peer {
    Act(Act(Act(Act(p, a), a), a), a)
  }

  /** The I/O a peer performs, in order. */
  function Order(p: Peer, a: Answers, k: nat): seq<Pc>
    decreases k
  {
    if k == 0 || p.Done() then [] else [p.pc] + Order(Act(p, a), a, k - 1)
  }

  lemma OrderUnfolds(p: Peer, a: Answers)
    ensures var q := Act(p, a); var r := Act(q, a); var s := Act(r, a);
            var rest := if r.Done() then [] else if s.Done() then [r.pc] else [r.pc, s.pc];
            Order(p, a, 4) == (if p.Done() then [] else if q.Done() then [p.pc] else [p.pc, q.pc] + rest)
  {
    var q := Act(p, a);
    var r := Act(q, a);
    assert Order(r, a, 2) == if r.Done() then [] else [r.pc] + Order(Act(r, a), a, 1);
    assert Order(q, a, 3) == if q.Done() then [] else [q.pc] + Order(r, a, 2);
  }

  /** exchangeChallenges: the publisher's challenge first in the result, whichever end this is. */
  method ExchangeChallenges(role: Role, local: nat, a: Answers) returns (pub: nat, sub: nat, ok: bool, order: seq<Pc>)
    ensures ok <==> a.challengeSent && a.challenge.Some?
    ensures ok ==> (pub, sub) == if role.Publish? then (local, a.challenge.value) else (a.challenge.value, local)
    ensures order == if role.Publish? then (if a.challenge.Some? then [RecvChallenge, SendChallenge] else [RecvChallenge])
                     else (if a.challengeSent then [SendChallenge, RecvChallenge] else [SendChallenge])
  {
    if role.Subscribe? {
      order := [SendChallenge];
      if !a.challengeSent { return 0, local, false, order; }
      order := order + [RecvChallenge];
      if a.challenge.None? { return 0, local, false, order; }
      return a.challenge.value, local, true, order;
    }
    order := [RecvChallenge];
    if a.challenge.None? { return local, 0, false, order; }
    return local, a.challenge.value, a.challengeSent, order + [SendChallenge];
  }

  /** NewAuthenticatedConn: the keys (write, read) of the connection, if both proofs pass. */
  method NewAuthenticatedConn(role: Role, secret: nat, port: nat, local: nat, a: Answers)
    returns (keys: Option<(DataKey, DataKey)>, order: seq<Pc>)
    ensures var p := Alone(NewPeer(role, secret, port, local), a);
            keys == if p.pc.Accepted? then Some((WriteKey(p), ReadKey(p))) else None
    ensures order == Order(NewPeer(role, secret, port, local), a, 4)
  {
    ghost var p := NewPeer(role, secret, port, local);
    OrderUnfolds(p, a);
    var pub, sub, ok;
    pub, sub, ok, order := ExchangeChallenges(role, local, a);
    if !ok { return None, order; }
    var pubProof := Mac(secret, PublisherProof, sub, pub, port);
    var subProof := Mac(secret, SubscriberProof, sub, pub, port);
    if role.Publish? {
      order := order + [SendProof];
      if !a.proofSent { return None, order; }
      order := order + [RecvProof];
      if a.proof != Some(subProof) { return None, order; }
    } else {
      order := order + [RecvProof];
      if a.proof != Some(pubProof) { return None, order; }
      order := order + [SendProof];
      if !a.proofSent { return None, order; }
    }
    var stream := Mac(secret, StreamSecret, sub, pub, port);
    keys := Some((DataKey(stream, role.Publish?), DataKey(stream, role.Subscribe?)));
  }

  // ---- two honest ends of an unbuffered pipe -----------------------------------------------------

  function Left(p: Peer): nat {
    match p.pc
    case SendChallenge => if p.role.Publish? then 3 else 4
    case RecvChallenge => if p.role.Publish? then 4 else 3
    case SendProof => if p.role.Publish? then 2 else 1
    case RecvProof => if p.role.Publish? then 1 else 2
    case Accepted => 0
    case Rejected => 0
  }

  datatype Pair = Pair(pub: Peer, sub: Peer) {

    predicate Done() { pub.Done() && sub.Done() }

    /** A write completes only together with the read at the other end. */
    function Exchange(): Pair {
      if sub.pc.SendChallenge? && pub.pc.RecvChallenge? then Pair(pub.AfterRecvChallenge(sub.local), sub.AfterSendChallenge())
      else if pub.pc.SendChallenge? && sub.pc.RecvChallenge? then Pair(pub.AfterSendChallenge(), sub.AfterRecvChallenge(pub.local))
      else if pub.pc.SendProof? && sub.pc.RecvProof? then Pair(pub.AfterSendProof(), sub.AfterRecvProof(pub.OwnProof()))
      else if sub.pc.SendProof? && pub.pc.RecvProof? then Pair(pub.AfterRecvProof(sub.OwnProof()), sub.AfterSendProof())
      else this
    }

    /** An end that gave up closes the pipe under the other one. */
    function Hangup(): Pair {
      if sub.pc.Rejected? && !pub.Done() then this.(pub := pub.(pc := Rejected))
      else if pub.pc.Rejected? && !sub.Done() then this.(sub := sub.(pc := Rejected))
      else this
    }

    /** Either end can also lose its transport at any point. */
    function Step(pubFails: bool, subFails: bool): Pair {
      if pubFails && !pub.Done() then this.(pub := pub.(pc := Rejected))
      else if subFails && !sub.Done() then this.(sub := sub.(pc := Rejected))
      else if Hangup() != this then Hangup()
      else Exchange()
    }

    /** How much I/O both ends have left. */
    function Remaining(): nat { Left(pub) + Left(sub) }
  }

  function Meet(secretP: nat, portP: nat, secretS: nat, portS: nat): Pair {
    Pair(NewPeer(Publish, secretP, portP, 1), NewPeer(Subscribe, secretS, portS, 2))
  }

  function Play(s: Pair, failures: seq<(bool, bool)>): Pair
    decreases failures
  {
    if failures == [] then s else Play(s.Step(failures[0].0, failures[0].1), failures[1..])
  }

  /** The two ends are always at matching points: one writes what the other reads, or one has hung up. */
  ghost predicate InStep(s: Pair, secretP: nat, portP: nat, secretS: nat, portS: nat) {
    var p, q := s.pub, s.sub;
    && p.role.Publish? && p.secret == secretP && p.port == portP && p.local == 1
    && q.role.Subscribe? && q.secret == secretS && q.port == portS && q.local == 2
    && (p.pc in {SendChallenge, SendProof, RecvProof, Accepted} ==> p.remote == 2)
    && (q.pc in {RecvProof, SendProof, Accepted} ==> q.remote == 1)
    && (p.pc.Accepted? || q.pc.Accepted? || q.pc.SendProof? ==> secretP == secretS && portP == portS)
    && (p.pc.Accepted? ==> q.Done())
    && (!p.pc.Rejected? && !q.pc.Rejected? ==> Left(p) == Left(q))
  }

  lemma StepStaysInStep(s: Pair, secretP: nat, portP: nat, secretS: nat, portS: nat, pubFails: bool, subFails: bool)
    requires InStep(s, secretP, portP, secretS, portS)
    ensures InStep(s.Step(pubFails, subFails), secretP, portP, secretS, portS)
    ensures !s.Done() ==> s.Step(pubFails, subFails).Remaining() < s.Remaining()
  {
  }

  lemma NothingLeft(s: Pair)
    requires s.Remaining() == 0
    ensures s.Done()
  {
  }

  lemma DoneStays(s: Pair, pubFails: bool, subFails: bool)
    requires s.Done()
    ensures s.Step(pubFails, subFails) == s
  {
  }

  lemma {:induction false} DonePlays(s: Pair, failures: seq<(bool, bool)>)
    requires s.Done()
    ensures Play(s, failures) == s
    decreases failures
  {
    hide Pair.Step;
    if failures == [] {
    } else {
      DoneStays(s, failures[0].0, failures[0].1);
      DonePlays(s, failures[1..]);
    }
  }

  lemma {:induction false} PlayStaysInStep(s: Pair, secretP: nat, portP: nat, secretS: nat, portS: nat, failures: seq<(bool, bool)>)
    requires InStep(s, secretP, portP, secretS, portS)
    ensures InStep(Play(s, failures), secretP, portP, secretS, portS)
    ensures |failures| >= s.Remaining() ==> Play(s, failures).Done()
    decreases failures
  {
    hide InStep, Pair.Step;
    if failures != [] {
      StepStaysInStep(s, secretP, portP, secretS, portS, failures[0].0, failures[0].1);
      PlayStaysInStep(s.Step(failures[0].0, failures[0].1), secretP, portP, secretS, portS, failures[1..]);
      if s.Done() {
        DoneStays(s, failures[0].0, failures[0].1);
        DonePlays(s, failures[1..]);
      }
    } else if s.Remaining() == 0 {
      NothingLeft(s);
    }
  }

  /**
   The handshake over an unbuffered transport never deadlocks: as long as an end is not done
   some I/O can proceed, so eight steps always end it, whatever fails.  Both ends accept only if
   secret and port agree, and then they are partners.
   */
  lemma HandshakeTerminates(secretP: nat, portP: nat, secretS: nat, portS: nat, failures: seq<(bool, bool)>)
    ensures var s := Play(Meet(secretP, portP, secretS, portS), failures);
            && (|failures| >= 8 ==> s.Done())
            && (s.pub.pc.Accepted? || s.sub.pc.Accepted? ==> secretP == secretS && portP == portS)
            && (s.pub.pc.Accepted? && s.sub.pc.Accepted? ==> Partners(s.pub, s.sub))
  {
    PlayStaysInStep(Meet(secretP, portP, secretS, portS), secretP, portP, secretS, portS, failures);
  }

  /** With no transport failure, both ends accept exactly when secret and port agree. */
  lemma HonestHandshakeSucceedsIff(secretP: nat, portP: nat, secretS: nat, portS: nat)
    ensures var s := Meet(secretP, portP, secretS, portS);
            var e := s.Step(false, false).Step(false, false).Step(false, false).Step(false, false);
            && (secretP == secretS && portP == portS ==> e.pub.pc.Accepted? && e.sub.pc.Accepted? && Partners(e.pub, e.sub))
            && (secretP != secretS || portP != portS ==> e.pub.pc.Rejected? && e.sub.pc.Rejected?)
  {
    var s1 := Meet(secretP, portP, secretS, portS).Step(false, false);
    assert s1.pub.pc.SendChallenge? && s1.sub.pc.RecvChallenge?;
    var s2 := s1.Step(false, false);
    assert s2.pub.pc.SendProof? && s2.sub.pc.RecvProof?;
    var s3 := s2.Step(false, false);
    assert s3.sub.pc.SendProof? <==> secretP == secretS && portP == portS;
  }

  // ---- any number of tunnels through a hostile relay -------------------------------------------------

  /** `sent` is every proof ever put on a wire; the relay knows those, every `leaked` secret, and can make anything up. */
  datatype Net = Net(peers: seq<Peer>, sent: set<Tag>, leaked: set<nat>)

  datatype Move =
    | Join(role: Role, secret: nat, port: nat)
    | ChallengeOut(i: nat)
    | ChallengeIn(i: nat, c: nat)
    | ProofOut(i: nat, delivered: bool)
    | ProofIn(i: nat, proof: Tag)
    | Lost(i: nat)
    | Leak(secret: nat)

  predicate Deliverable(n: Net, proof: Tag) {
    proof in n.sent || proof.Junk? || proof.secret in n.leaked
  }

  function Advance(n: Net, m: Move): Net {
    match m
    case Join(role, secret, port) => n.(peers := n.peers + [NewPeer(role, secret, port, |n.peers|)])
    case ChallengeOut(i) =>
      if i < |n.peers| && n.peers[i].pc.SendChallenge? then n.(peers := n.peers[i := n.peers[i].AfterSendChallenge()]) else n
    case ChallengeIn(i, c) =>
      if i < |n.peers| && n.peers[i].pc.RecvChallenge? then n.(peers := n.peers[i := n.peers[i].AfterRecvChallenge(c)]) else n
    case ProofOut(i, delivered) =>
      if i < |n.peers| && n.peers[i].pc.SendProof? then
        Net(n.peers[i := if delivered then n.peers[i].AfterSendProof() else n.peers[i].(pc := Rejected)],
            n.sent + {n.peers[i].OwnProof()}, n.leaked)
      else n
    case ProofIn(i, proof) =>
      if i < |n.peers| && n.peers[i].pc.RecvProof? && Deliverable(n, proof)
      then n.(peers := n.peers[i := n.peers[i].AfterRecvProof(proof)]) else n
    case Lost(i) =>
      if i < |n.peers| && !n.peers[i].Done() then n.(peers := n.peers[i := n.peers[i].(pc := Rejected)]) else n
    case Leak(secret) => n.(leaked := n.leaked + {secret})
  }

  function Traffic(n: Net, moves: seq<Move>): Net
    decreases moves
  {
    if moves == [] then n else Traffic(Advance(n, moves[0]), moves[1..])
  }

  const QUIET := Net([], {}, {})

  /** `t` is a proof that peer `n.peers[i]` makes of its own view. */
  ghost predicate MadeBy(t: Tag, peers: seq<Peer>, i: nat) {
    i < |peers| && !peers[i].pc.SendChallenge? && !peers[i].pc.RecvChallenge? && t == peers[i].OwnProof()
  }

  /** Every proof on the wire was made by the peer whose challenge it answers with. */
  ghost predicate ProofsHaveMakers(peers: seq<Peer>, sent: set<Tag>) {
    forall t :: t in sent ==> t.Mac? && !t.purpose.StreamSecret? && MadeBy(t, peers, if t.purpose.PublisherProof? then t.pub else t.sub)
  }

  /** A peer past its check has seen the proof it expected, unless its secret is out. */
  ghost predicate ChecksWereMade(n: Net) {
    forall i :: 0 <= i < |n.peers| ==>
      n.peers[i].local == i
      && (n.peers[i].pc.Accepted? && n.peers[i].secret !in n.leaked ==> n.peers[i].ExpectedProof() in n.sent)
      && (n.peers[i].role.Subscribe? && n.peers[i].pc.SendProof? && n.peers[i].secret !in n.leaked ==> n.peers[i].ExpectedProof() in n.sent)
  }

  /** A proof once made stays its maker's: no later step changes what it was computed from. */
  lemma MadeByLasts(n: Net, m: Move, t: Tag, i: nat)
    requires MadeBy(t, n.peers, i)
    ensures MadeBy(t, Advance(n, m).peers, i)
  {
    hide Deliverable;
  }

  lemma NewProofHasMaker(n: Net, m: Move, t: Tag)
    requires ChecksWereMade(n) && t in Advance(n, m).sent && t !in n.sent
    ensures t.Mac? && !t.purpose.StreamSecret? && MadeBy(t, Advance(n, m).peers, if t.purpose.PublisherProof? then t.pub else t.sub)
  {
    hide Deliverable;
    assert m.ProofOut? && t == n.peers[m.i].OwnProof() && n.peers[m.i].local == m.i;
  }

  lemma AdvanceKeepsMakers(n: Net, m: Move)
    requires ProofsHaveMakers(n.peers, n.sent) && ChecksWereMade(n)
    ensures ProofsHaveMakers(Advance(n, m).peers, Advance(n, m).sent)
  {
    hide Advance, MadeBy, ChecksWereMade;
    var u := Advance(n, m);
    forall t | t in u.sent
      ensures t.Mac? && !t.purpose.StreamSecret? && MadeBy(t, u.peers, if t.purpose.PublisherProof? then t.pub else t.sub)
    {
      if t in n.sent {
        MadeByLasts(n, m, t, if t.purpose.PublisherProof? then t.pub else t.sub);
      } else {
        NewProofHasMaker(n, m, t);
      }
    }
  }

  lemma AdvanceKeepsChecks(n: Net, m: Move)
    requires ChecksWereMade(n)
    ensures ChecksWereMade(Advance(n, m))
  {
  }

  lemma {:induction false} TrafficKeepsInv(n: Net, moves: seq<Move>)
    requires ProofsHaveMakers(n.peers, n.sent) && ChecksWereMade(n)
    ensures ProofsHaveMakers(Traffic(n, moves).peers, Traffic(n, moves).sent) && ChecksWereMade(Traffic(n, moves))
    decreases moves
  {
    hide ProofsHaveMakers, ChecksWereMade, Advance;
    if moves == [] {
    } else {
      AdvanceKeepsMakers(n, moves[0]);
      AdvanceKeepsChecks(n, moves[0]);
      TrafficKeepsInv(Advance(n, moves[0]), moves[1..]);
    }
  }

  /**
   Whatever the relay delivers: a peer that accepts under a secret nobody leaked has exactly one
   partner, the peer whose challenge it received, which agrees on secret, port and both
   challenges; so they hold crossed keys.
   */
  lemma AcceptedHasPartner(moves: seq<Move>, i: nat)
    requires var n := Traffic(QUIET, moves);
             i < |n.peers| && n.peers[i].pc.Accepted? && n.peers[i].secret !in n.leaked
    ensures var n := Traffic(QUIET, moves);
            var p := n.peers[i];
            && p.remote < |n.peers| && Partners(p, n.peers[p.remote])
            && WriteKey(p) == ReadKey(n.peers[p.remote]) && ReadKey(p) == WriteKey(n.peers[p.remote])
            && (forall j :: 0 <= j < |n.peers| && Partners(p, n.peers[j]) ==> j == p.remote)
  {
    TrafficKeepsInv(QUIET, moves);
    var n := Traffic(QUIET, moves);
    var p := n.peers[i];
    assert p.ExpectedProof() in n.sent;
    assert MadeBy(p.ExpectedProof(), n.peers, p.remote);
    PartnersCrossKeys(p, n.peers[p.remote]);
  }

  /** Two accepted tunnels never share a stream secret unless they are the two ends of one: nothing can be replayed across. */
  lemma StreamSecretsAreDistinct(moves: seq<Move>, i: nat, j: nat)
    requires var n := Traffic(QUIET, moves);
             i < j < |n.peers| && n.peers[i].Transcript(StreamSecret) == n.peers[j].Transcript(StreamSecret)
    ensures Partners(Traffic(QUIET, moves).peers[i], Traffic(QUIET, moves).peers[j])
  {
    TrafficKeepsInv(QUIET, moves);
  }

  /** No two ends anywhere write under one key: each directional key has one writer. */
  lemma WriteKeysAreDistinct(moves: seq<Move>, i: nat, j: nat)
    requires var n := Traffic(QUIET, moves); i < |n.peers| && j < |n.peers| && WriteKey(n.peers[i]) == WriteKey(n.peers[j])
    ensures i == j
  {
    TrafficKeepsInv(QUIET, moves);
  }

  lemma {:induction false} TrafficAppend(n: Net, a: seq<Move>, b: seq<Move>)
    ensures Traffic(n, a + b) == Traffic(Traffic(n, a), b)
    decreases a
  {
    if a == [] {
      assert a + b == b;
    } else {
      assert (a + b)[0] == a[0] && (a + b)[1..] == a[1..] + b;
      TrafficAppend(Advance(n, a[0]), a[1..], b);
    }
  }

  /** One more move of the relay. */
  lemma AndThen(n: Net, moves: seq<Move>, m: Move)
    ensures Traffic(n, moves + [m]) == Advance(Traffic(n, moves), m)
  {
    TrafficAppend(n, moves, [m]);
    assert [m][1..] == [];
    assert Traffic(Traffic(n, moves), [m]) == Traffic(Advance(Traffic(n, moves), m), []);
  }

  /** What a relay does that passes on, and alters, nothing between a publisher 0 and a subscriber 1. */
  function Honest(secret: nat, port: nat): seq<Move> {
    [Join(Publish, secret, port), Join(Subscribe, secret, port),
     ChallengeOut(1), ChallengeIn(0, 1), ChallengeOut(0), ChallengeIn(1, 0),
     ProofOut(0, true), ProofIn(1, Mac(secret, PublisherProof, 1, 0, port)),
     ProofOut(1, true), ProofIn(0, Mac(secret, SubscriberProof, 1, 0, port))]
  }

  lemma TwoMoves(n: Net, a: Move, b: Move, rest: seq<Move>)
    ensures Traffic(n, [a, b] + rest) == Traffic(Advance(Advance(n, a), b), rest)
  {
    TrafficAppend(n, [a, b], rest);
    assert [a, b][1..] == [b] && [b][1..] == [];
    assert Traffic(Advance(n, a), [b]) == Traffic(Advance(Advance(n, a), b), []);
  }

  lemma ForwardedChallenges(secret: nat, port: nat)
    ensures var p := Peer(Publish, secret, port, 0, 1, SendProof);
            var q := Peer(Subscribe, secret, port, 1, 0, RecvProof);
            Traffic(QUIET, Honest(secret, port)[..6]) == Net([p, q], {}, {})
  {
    var m := Honest(secret, port)[..6];
    var p, q := NewPeer(Publish, secret, port, 0), NewPeer(Subscribe, secret, port, 1);
    assert m == [m[0], m[1]] + ([m[2], m[3]] + ([m[4], m[5]] + []));
    TwoMoves(QUIET, m[0], m[1], [m[2], m[3]] + ([m[4], m[5]] + []));
    var n1 := Net([p, q], {}, {});
    assert Advance(Advance(QUIET, m[0]), m[1]) == n1;
    TwoMoves(n1, m[2], m[3], [m[4], m[5]] + []);
    var n2 := Net([p.AfterRecvChallenge(1), q.AfterSendChallenge()], {}, {});
    assert Advance(Advance(n1, m[2]), m[3]) == n2;
    TwoMoves(n2, m[4], m[5], []);
  }

  lemma NoMoves(n: Net)
    ensures Traffic(n, []) == n
  {
  }

  /** Through a relay that only forwards, both ends of a tunnel accept, and are partners. */
  lemma ForwardedHandshakeAccepts(secret: nat, port: nat)
    ensures var n := Traffic(QUIET, Honest(secret, port));
            && |n.peers| == 2 && n.peers[0].pc.Accepted? && n.peers[1].pc.Accepted? && Partners(n.peers[0], n.peers[1])
            && n.leaked == {}
  {
    var m := Honest(secret, port);
    ForwardedChallenges(secret, port);
    TrafficAppend(QUIET, m[..6], m[6..]);
    assert m[..6] + m[6..] == m;
    hide Traffic;
    var n := Traffic(QUIET, m[..6]);
    assert m[6..] == [m[6], m[7]] + [m[8], m[9]];
    TwoMoves(n, m[6], m[7], [m[8], m[9]]);
    var proof := Mac(secret, PublisherProof, 1, 0, port);
    var n1 := Net([n.peers[0].AfterSendProof(), n.peers[1].AfterRecvProof(proof)], {proof}, {});
    assert Advance(Advance(n, m[6]), m[7]) == n1;
    assert [m[8], m[9]] == [m[8], m[9]] + [];
    TwoMoves(n1, m[8], m[9], []);
    NoMoves(Advance(Advance(n1, m[8]), m[9]));
  }

  /** Why the secret has to be safe: under a leaked one a peer can accept that has no partner anywhere. */
  lemma LeakedSecretAcceptsAlone(secret: nat, port: nat)
    ensures var n := Traffic(QUIET, [Join(Subscribe, secret, port), Leak(secret), ChallengeOut(0), ChallengeIn(0, 7)]
                                    + [ProofIn(0, Mac(secret, PublisherProof, 0, 7, port)), ProofOut(0, true)]);
            |n.peers| == 1 && n.peers[0].pc.Accepted? && !Partners(n.peers[0], n.peers[0])
  {
    var s0 := Peer(Subscribe, secret, port, 0, 0, SendChallenge);
    var tail := [ProofIn(0, Mac(secret, PublisherProof, 0, 7, port)), ProofOut(0, true)];
    var head := [Join(Subscribe, secret, port), Leak(secret), ChallengeOut(0), ChallengeIn(0, 7)];
    assert head + tail == [head[0], head[1]] + ([head[2], head[3]] + tail);
    TwoMoves(QUIET, head[0], head[1], [head[2], head[3]] + tail);
    var n1 := Net([s0], {}, {secret});
    assert Advance(Advance(QUIET, head[0]), head[1]) == n1;
    TwoMoves(n1, head[2], head[3], tail);
    var s1 := s0.AfterSendChallenge().AfterRecvChallenge(7);
    var n2 := Net([s1], {}, {secret});
    assert Advance(Advance(n1, head[2]), head[3]) == n2;
    assert tail == [tail[0], tail[1]] + [];
    TwoMoves(n2, tail[0], tail[1], []);
  }
}
