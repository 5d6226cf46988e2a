/**
 Handshake and frame codec together: any number of tunnels through a hostile relay, each end
 writing frames under its own key and reading whatever it is handed under the other.

 What a key opens is what all ends holding it have ever sealed under it.  That this is one
 writer's log is not assumed here: it is what the handshake establishes.  Under a secret that
 has leaked anything can be sealed.
 */
module TunnelStreams {
  import opened Common
  import opened FrameCodec
  import opened FrameReader
  import opened TunnelHandshake
  import FrameTheorems

  type Link = FrameTheorems.Link

  /** The connection object of one end: both halves, and what was offered to and reported by its Write. */
  datatype End = End(w: Writer, r: Reader, offered: Bytes, reported: Bytes)

  datatype Action = Write(i: nat, p: Bytes, fault: Option<Fault>) | Read(i: nat, cap: nat, forged: Table)

  /** The parties: their handshakes' outcome, the leaked secrets, and the cipher under each key. */
  datatype Parties = Parties(peers: seq<Peer>, leaked: set<nat>, cipher: DataKey -> Cipher)

  /** Everything the first `n` ends have sealed under `key`. */
  function Sealed(g: Parties, ends: seq<End>, key: DataKey, n: nat): Table
    requires n <= |g.peers| == |ends|
  {
    if n == 0 then map[]
    else if WriteKey(g.peers[n - 1]) == key then Sealed(g, ends, key, n - 1) + TableOf(ends[n - 1].w.prefix, ends[n - 1].w.log)
    else Sealed(g, ends, key, n - 1)
  }

  function ReadTable(g: Parties, ends: seq<End>, i: nat, forged: Table): Table
    requires i < |g.peers| == |ends|
  {
    if g.peers[i].secret in g.leaked then forged else Sealed(g, ends, ReadKey(g.peers[i]), |ends|)
  }

  function Step(g: Parties, ends: seq<End>, a: Action): (next: seq<End>)
    requires |g.peers| == |ends|
    ensures |next| == |ends|
  {
    if a.i >= |ends| then ends
    else
      var e := ends[a.i];
      match a
      case Write(i, p, fault) =>
        var (w, n, _) := e.w.Write(g.cipher(WriteKey(g.peers[i])), p, fault);
        ends[i := End(w, e.r, e.offered + p, e.reported + (if n <= |p| then p[..n] else p))]
      case Read(i, cap, forged) =>
        ends[i := e.(r := e.r.Read(g.cipher(ReadKey(g.peers[i])), ReadTable(g, ends, i, forged), cap).0)]
  }

  function Run(g: Parties, ends: seq<End>, actions: seq<Action>): (last: seq<End>)
    requires |g.peers| == |ends|
    ensures |last| == |ends|
    decreases actions
  {
    if actions == [] then ends else Run(g, Step(g, ends, actions[0]), actions[1..])
  }

  /** Fresh connections; `wires[i]` is everything the relay will ever deliver to end `i`. */
  function Start(prefixes: seq<Bytes>, wires: seq<(Bytes, WireEnd)>): (ends: seq<End>)
    requires |prefixes| == |wires|
    ensures |ends| == |wires|
  {
    seq(|wires|, i requires 0 <= i < |wires| => End(NewWriter(prefixes[i]), NewReader(wires[i].0, wires[i].1), [], []))
  }

  // ---- one key, one writer -----------------------------------------------------------------

  ghost predicate OnlyWriter(g: Parties, j: nat) {
    j < |g.peers| && forall i :: 0 <= i < |g.peers| && WriteKey(g.peers[i]) == WriteKey(g.peers[j]) ==> i == j
  }

  lemma {:induction false} SealedByOnlyWriter(g: Parties, ends: seq<End>, j: nat, n: nat)
    requires n <= |g.peers| == |ends| && OnlyWriter(g, j)
    ensures Sealed(g, ends, WriteKey(g.peers[j]), n) == if j < n then TableOf(ends[j].w.prefix, ends[j].w.log) else map[]
  {
    if n == 0 {
    } else {
      SealedByOnlyWriter(g, ends, j, n - 1);
    }
  }

  // ---- a tunnel's one direction, seen alone --------------------------------------------------

  /** What end `j` writes and end `i` reads, as a link of its own. */
  function Direction(ends: seq<End>, j: nat, i: nat): Link
    requires j < |ends| && i < |ends|
  {
    FrameTheorems.Link(ends[j].w, ends[i].r, ends[j].offered, ends[j].reported)
  }

  /** The actions of that link among all. */
  function OnDirection(actions: seq<Action>, j: nat, i: nat): seq<FrameTheorems.Action> {
    if actions == [] then []
    else match actions[0]
         case Write(k, p, fault) => (if k == j then [FrameTheorems.Write(p, fault)] else []) + OnDirection(actions[1..], j, i)
         case Read(k, cap, _) => (if k == i then [FrameTheorems.Read(cap)] else []) + OnDirection(actions[1..], j, i)
  }

  /** End `i` reads under the key only `j` writes with, and the secret is safe. */
  ghost predicate Paired(g: Parties, j: nat, i: nat) {
    i < |g.peers| && i != j && OnlyWriter(g, j) && ReadKey(g.peers[i]) == WriteKey(g.peers[j]) && g.peers[i].secret !in g.leaked
  }

  /** One action on all ends is one action, or none, on the link. */
  lemma StepOnDirection(g: Parties, ends: seq<End>, a: Action, j: nat, i: nat)
    requires |g.peers| == |ends| && Paired(g, j, i)
    ensures Direction(Step(g, ends, a), j, i) ==
            var one := OnDirection([a], j, i);
            if one == [] then Direction(ends, j, i)
            else FrameTheorems.Apply(Direction(ends, j, i), g.cipher(WriteKey(g.peers[j])), one[0])
  {
    SealedByOnlyWriter(g, ends, j, |ends|);
    hide Writer.Write, Reader.Read, TableOf, Sealed;
  }

  lemma FirstOnDirection(a: Action, rest: seq<Action>, j: nat, i: nat)
    ensures OnDirection([a] + rest, j, i) == OnDirection([a], j, i) + OnDirection(rest, j, i)
    ensures |OnDirection([a], j, i)| <= 1
  {
    assert ([a] + rest)[1..] == rest && [a][1..] == [];
  }

  lemma NothingOnDirection(j: nat, i: nat)
    ensures OnDirection([], j, i) == []
  {
  }

  lemma RunFirst(l: Link, seal: Cipher, one: seq<FrameTheorems.Action>, rest: seq<FrameTheorems.Action>)
    requires |one| <= 1
    ensures FrameTheorems.Run(l, seal, one + rest) ==
            FrameTheorems.Run(if one == [] then l else FrameTheorems.Apply(l, seal, one[0]), seal, rest)
  {
    if one == [] {
      assert one + rest == rest;
    } else {
      assert (one + rest)[0] == one[0] && (one + rest)[1..] == rest;
    }
  }

  lemma {:induction false} RunOnDirection(g: Parties, ends: seq<End>, actions: seq<Action>, j: nat, i: nat)
    requires |g.peers| == |ends| && Paired(g, j, i)
    ensures Direction(Run(g, ends, actions), j, i) ==
            FrameTheorems.Run(Direction(ends, j, i), g.cipher(WriteKey(g.peers[j])), OnDirection(actions, j, i))
    decreases actions
  {
    hide Step, OnDirection, Direction, FrameTheorems.Apply;
    if actions == [] {
      NothingOnDirection(j, i);
    } else {
      var a, rest := actions[0], actions[1..];
      assert actions == [a] + rest;
      FirstOnDirection(a, rest, j, i);
      StepOnDirection(g, ends, a, j, i);
      RunOnDirection(g, Step(g, ends, a), rest, j, i);
      hide FrameTheorems.Run;
      RunFirst(Direction(ends, j, i), g.cipher(WriteKey(g.peers[j])), OnDirection([a], j, i), OnDirection(rest, j, i));
    }
  }

  /**
   Whatever the relay does to the handshakes and to the streams after them: an end that accepted
   under a secret nobody leaked reads nothing but a prefix of what its one partner wrote.
   */
  lemma AcceptedReadsOnlyItsPartner(moves: seq<Move>, cipher: DataKey -> Cipher, prefixes: seq<Bytes>,
                                    wires: seq<(Bytes, WireEnd)>, actions: seq<Action>, i: nat)
    requires var n := Traffic(QUIET, moves);
             && |prefixes| == |wires| == |n.peers| && (forall k :: 0 <= k < |prefixes| ==> |prefixes[k]| == NONCE_PREFIX_SIZE)
             && i < |n.peers| && n.peers[i].pc.Accepted? && n.peers[i].secret !in n.leaked
    ensures var n := Traffic(QUIET, moves);
            var ends := Run(Parties(n.peers, n.leaked, cipher), Start(prefixes, wires), actions);
            var j := n.peers[i].remote;
            && j < |ends| && Partners(n.peers[i], n.peers[j])
            && ends[i].r.delivered <= ends[j].offered
  {
    var n := Traffic(QUIET, moves);
    var g := Parties(n.peers, n.leaked, cipher);
    var j := n.peers[i].remote;
    AcceptedHasPartner(moves, i);
    forall k | 0 <= k < |n.peers| && WriteKey(n.peers[k]) == WriteKey(n.peers[j]) ensures k == j { WriteKeysAreDistinct(moves, k, j); }
    hide Traffic, WriteKey, ReadKey;
    RunOnDirection(g, Start(prefixes, wires), actions, j, i);
    FrameTheorems.PlaintextIsPrefix(cipher(WriteKey(n.peers[j])), prefixes[j], wires[i].0, wires[i].1, OnDirection(actions, j, i));
  }
}
