/**
 A kill, seen from both ends: the relay's run on one side, the killed publisher's
 reconnect loop on the other, meeting in the bytes the handshakes are answered with.
 */
module KillComposition {
  import opened Common
  import opened RelaySession
  import opened RelayRegistry
  import RelayMachine
  import RelayTheorems
  import opened Reconnect
  import ReconnectTheorems

  /** One registration as relay answers it: what it has done by then, and what it makes of the claim. */
  datatype Attempt = Attempt(later: seq<RelayMachine.Action>, cert: Option<Cert>, proven: bool)

  ghost predicate AnswersRound(past: seq<RelayMachine.Action>, id: SessionID, r: Round, a: Attempt) {
    r.Answered() ==> r.answer.code == Code(RelayMachine.Run(past + a.later).RegisterAnswer(id, a.cert, a.proven))
  }

  /**
   From round `k` on, every handshake that gets an answer gets the one relay gives for `id` at
   some moment after `past`. Handshakes may fail unanswered, in any round and in any way.
   */
  ghost predicate AnsweredBy(past: seq<RelayMachine.Action>, id: SessionID, rounds: seq<Round>, k: nat, attempts: seq<Attempt>) {
    |attempts| == |rounds| && forall j :: k <= j < |rounds| ==> AnswersRound(past, id, rounds[j], attempts[j])
  }

  lemma KilledAnswerIsDenied(past: seq<RelayMachine.Action>, id: SessionID, r: Round, a: Attempt)
    requires id in RelayMachine.Run(past).registry.killed && AnswersRound(past, id, r, a)
    ensures !r.Connects()
    ensures r.Answered() ==> r.ConnectError() == Some(Plain({ErrDenied})) && !Retryable(r.Error())
  {
    if r.Answered() { RelayTheorems.KillIsFinal(past, a.later, id, a.cert, a.proven); }
  }

  predicate Sessionless(events: seq<Event>) {
    forall e :: e in events ==> !e.Ready? && !e.Reconnected? && !e.Ran?
  }

  lemma ConnectReportsNoSession(r: Round, k: nat)
    ensures Sessionless(Connect(r, k).0)
  {
    hide AckErr;
  }

  lemma FailedDecision(cfg: Config, r: Round, connected: bool, attempt: nat, events: seq<Event>)
    requires Sessionless(events)
    ensures var p := Decide(cfg, r, connected, attempt, events);
            && p.connected == connected && Sessionless(p.events)
            && (!Retryable(r.Error()) ==> p.stop == Some(if r.cancelled then Cancelled else GaveUp(r.Error())))
            && (p.stop.None? <==> !r.cancelled && Retryable(r.Error()) && (connected || cfg.wait) && !r.cancelledInWait)
  {
    hide Retryable, RetryDelay, AckErr, Round.ConnectError;
  }

  /**
   A pass that does not connect reports no session and leaves `connected` as it was; whether it
   is the last goes by the context, the error, and whether a first failure is waited out.
   */
  lemma FailedPass(cfg: Config, r: Round, k: nat, connected: bool, attempt: nat)
    requires !r.Connects()
    ensures var p := PassThrough(cfg, r, k, connected, attempt);
            && p.connected == connected
            && Sessionless(p.events)
            && (!Retryable(r.Error()) ==> p.stop == Some(if r.cancelled then Cancelled else GaveUp(r.Error())))
            && (p.stop.None? <==> !r.cancelled && Retryable(r.Error()) && (connected || cfg.wait) && !r.cancelledInWait)
  {
    hide Retryable, RetryDelay, AckErr, Decide, Connect, Notify, RunSession, Round.ConnectError;
    ReconnectTheorems.ConnectTells(r, k);
    ConnectReportsNoSession(r, k);
    FailedDecision(cfg, r, connected, attempt, Connect(r, k).0);
  }

  lemma {:induction false} KilledFrom(past: seq<RelayMachine.Action>, id: SessionID, cfg: Config, rounds: seq<Round>,
                                      attempts: seq<Attempt>, k: nat, connected: bool, attempt: nat)
    requires k <= |rounds| && id in RelayMachine.Run(past).registry.killed && AnsweredBy(past, id, rounds, k, attempts)
    ensures var run := ServeFrom(cfg, rounds, k, connected, attempt);
            && Sessionless(run.trace)
            && (forall j :: k <= j < |rounds| && rounds[j].Answered() ==> run.stop.Some?)
    decreases |rounds| - k
  {
    hide PassThrough, Retryable, AckErr;
    if k == |rounds| {
    } else {
      KilledAnswerIsDenied(past, id, rounds[k], attempts[k]);
      FailedPass(cfg, rounds[k], k, connected, attempt);
      var p := PassThrough(cfg, rounds[k], k, connected, attempt);
      if p.stop.None? { KilledFrom(past, id, cfg, rounds, attempts, k + 1, p.connected, p.attempt); }
    }
  }

  /** Nothing but an answer stops the loop in rounds k to j: they fail unanswered, and are waited out. */
  predicate KeepsKnocking(cfg: Config, rounds: seq<Round>, k: nat, j: nat, connected: bool) {
    && k <= j < |rounds| && (k < j ==> connected || cfg.wait)
    && forall i :: k <= i < j ==> !rounds[i].cancelled && !rounds[i].cancelledInWait && !Terminal(rounds[i].Error())
  }

  lemma {:induction false} FirstAnswerStops(past: seq<RelayMachine.Action>, id: SessionID, cfg: Config, rounds: seq<Round>,
                                            attempts: seq<Attempt>, k: nat, j: nat, connected: bool, attempt: nat)
    requires id in RelayMachine.Run(past).registry.killed && AnsweredBy(past, id, rounds, k, attempts)
    requires KeepsKnocking(cfg, rounds, k, j, connected) && rounds[j].Answered()
    ensures ServeFrom(cfg, rounds, k, connected, attempt).stop ==
            Some(if rounds[j].cancelled then Cancelled else GaveUp(Plain({ErrDenied})))
    decreases j - k
  {
    hide PassThrough, Retryable, AckErr, Round.ConnectError;
    KilledAnswerIsDenied(past, id, rounds[k], attempts[k]);
    FailedPass(cfg, rounds[k], k, connected, attempt);
    if k == j {
    } else {
      RetryableIff(rounds[k].Error());
      hide Terminal;
      var p := PassThrough(cfg, rounds[k], k, connected, attempt);
      FirstAnswerStops(past, id, cfg, rounds, attempts, k + 1, j, p.connected, p.attempt);
    }
  }

  /**
   Once `id` is killed, a publisher of it that is between sessions never has another one: nothing
   is served and no ready and no reconnect follows, and any answer ends Serve.  Whichever round
   `j` brings the first answer to a loop that keeps knocking, it ends with ErrDenied, unless it
   was cancelled just then.  `connected` and `attempt` are whatever its earlier sessions left.
   */
  lemma KilledPublisherStops(past: seq<RelayMachine.Action>, id: SessionID, cfg: Config, rounds: seq<Round>,
                             attempts: seq<Attempt>, k: nat, connected: bool, attempt: nat)
    requires k < |rounds| && id in RelayMachine.Run(past).registry.killed && AnsweredBy(past, id, rounds, k, attempts)
    ensures var run := ServeFrom(cfg, rounds, k, connected, attempt);
            && Sessionless(run.trace)
            && (forall j :: k <= j < |rounds| && rounds[j].Answered() ==> run.stop.Some?)
            && (forall j: nat :: KeepsKnocking(cfg, rounds, k, j, connected) && rounds[j].Answered() ==>
                  run.stop == Some(if rounds[j].cancelled then Cancelled else GaveUp(Plain({ErrDenied}))))
  {
    hide PassThrough, Retryable, AckErr, ServeFrom, AnsweredBy;
    KilledFrom(past, id, cfg, rounds, attempts, k, connected, attempt);
    forall j: nat | KeepsKnocking(cfg, rounds, k, j, connected) && rounds[j].Answered()
      ensures ServeFrom(cfg, rounds, k, connected, attempt).stop ==
              Some(if rounds[j].cancelled then Cancelled else GaveUp(Plain({ErrDenied})))
    {
      FirstAnswerStops(past, id, cfg, rounds, attempts, k, j, connected, attempt);
    }
  }

  // ---- the other answers -------------------------------------------------------------------

  /**
   What relay answers a registration with, at any moment of any run: 0 exactly when the claim is
   proven, a certificate was presented, and the identifier is neither mapped nor killed; 3 for a
   proven claim on a mapped identifier; 5 for everything else.
   */
  lemma RegistrationIsAnswered(actions: seq<RelayMachine.Action>, id: SessionID, cert: Option<Cert>, proven: bool)
    ensures var s := RelayMachine.Run(actions);
            Code(s.RegisterAnswer(id, cert, proven)) ==
            if !proven || cert.None? || id in s.registry.killed then 5 else if id in s.registry.sessions then 3 else 0
  {
    hide RelayMachine.Run;
  }

  /**
   A publisher that comes back before relay has noticed it was gone finds its identifier mapped:
   the answer is ErrPublisherExists, and the loop goes on to wait and to dial again, unless it is
   cancelled or this was a first failure that is not to be waited out.
   */
  lemma OccupiedIsRetried(past: seq<RelayMachine.Action>, id: SessionID, cert: Cert, cfg: Config, r: Round,
                          k: nat, connected: bool, attempt: nat)
    requires id in RelayMachine.Run(past).registry.sessions
    requires r.Answered() && r.answer.code == Code(RelayMachine.Run(past).RegisterAnswer(id, Some(cert), true))
    ensures r.ConnectError() == Some(Plain({ErrPublisherExists}))
    ensures PassThrough(cfg, r, k, connected, attempt).stop.None? <==> !r.cancelled && (connected || cfg.wait) && !r.cancelledInWait
  {
    RelayTheorems.LookupFindsOpenSession(past, id);
    RegistrationIsAnswered(past, id, Some(cert), true);
    RetryableIff(r.Error());
    FailedPass(cfg, r, k, connected, attempt);
    hide RelayMachine.Run, PassThrough;
  }
}
