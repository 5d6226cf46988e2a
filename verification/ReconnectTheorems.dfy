/** What holds of every run of the reconnect loop, whatever the network, the callbacks and the clock do. */
module ReconnectTheorems {
  import opened Common
  import opened Reconnect

  // ---- when it stops -----------------------------------------------------------------------

  /** The round yields a live connection: it is dialled, the kind is written, and relay's answer is byte 0. */
  predicate Came(r: Round) {
    r.dialError.None? && r.kindError.None? && r.answer == Ack(0)
  }

  /** Some session was established in the first `k` rounds. */
  ghost predicate UpWithin(rounds: seq<Round>, k: nat)
    requires k <= |rounds|
  {
    exists j | 0 <= j < k :: Came(rounds[j])
  }

  /** OnReady is called in round `k`, and fails. */
  ghost predicate FailsReady(cfg: Config, rounds: seq<Round>, k: nat)
    requires k < |rounds|
  {
    cfg.onReady && Came(rounds[k]) && !UpWithin(rounds, k) && rounds[k].readyError.Some?
  }

  /** Why a run that reaches round `k` ends there, if it does, said without the loop's variables or its own tests. */
  ghost function Verdict(cfg: Config, rounds: seq<Round>, k: nat): Option<Stop>
    requires k < |rounds|
  {
    var r := rounds[k];
    if FailsReady(cfg, rounds, k) then Some(ReadyFailed(r.readyError.value))
    else if r.cancelled then Some(Cancelled)
    else if Terminal(r.Error()) then Some(GaveUp(r.Error()))
    else if !cfg.wait && !UpWithin(rounds, k + 1) then Some(GaveUp(r.Error()))
    else if r.cancelledInWait then Some(Cancelled)
    else None
  }

  /** The error a round goes on with is the first thing that went wrong in it: dial, kind, handshake, or the session's end. */
  lemma ErrorIsFirstFailure(r: Round)
    ensures r.dialError.Some? ==> r.Error() == r.dialError.value
    ensures r.dialError.None? && r.kindError.Some? ==> r.Error() == r.kindError.value
    ensures r.dialError.None? && r.kindError.None? && r.answer.NoAnswer? ==> r.Error() == r.answer.error
    ensures r.dialError.None? && r.kindError.None? && r.answer.Ack? && r.answer.code != 0 ==>
              AckErr(r.answer.code) == Some(r.Error())
    ensures Came(r) ==> r.Error() == r.ended
  {
    if r.answer.Ack? { AckErrIff(r.answer.code, ErrDenied); }
    hide AckErr;
  }

  lemma CameIff(r: Round)
    ensures Came(r) <==> r.Connects()
  {
    if r.answer.Ack? { AckErrIff(r.answer.code, ErrDenied); }
    hide AckErr;
  }

  lemma UpWithinGrows(rounds: seq<Round>, k: nat)
    requires k < |rounds|
    ensures UpWithin(rounds, k + 1) <==> UpWithin(rounds, k) || Came(rounds[k])
  {
  }

  /** A pass ends exactly when the verdict says so, and leaves `connected` saying whether any session ever came up. */
  lemma PassObeysVerdict(cfg: Config, rounds: seq<Round>, k: nat, attempt: nat)
    requires k < |rounds|
    ensures var p := PassThrough(cfg, rounds[k], k, UpWithin(rounds, k), attempt);
            p.stop == Verdict(cfg, rounds, k) && (p.stop.None? ==> p.connected == UpWithin(rounds, k + 1))
  {
    CameIff(rounds[k]);
    RetryableIff(rounds[k].Error());
    hide Retryable, Terminal, RetryDelay, AckErr, UpWithin, Came;
    UpWithinGrows(rounds, k);
  }

  /** The first verdict ends the run, and no round after it is looked at; with no verdict the run goes on. */
  lemma {:induction false} RunFollowsVerdicts(cfg: Config, rounds: seq<Round>, k: nat, last: nat, attempt: nat)
    requires k <= last < |rounds|
    requires forall j :: k <= j < last ==> Verdict(cfg, rounds, j).None?
    ensures var run := ServeFrom(cfg, rounds, k, UpWithin(rounds, k), attempt);
            (Verdict(cfg, rounds, last).Some? ==> run.stop == Verdict(cfg, rounds, last))
            && (Verdict(cfg, rounds, last).None? && last + 1 == |rounds| ==> run.stop.None?)
    decreases last - k
  {
    hide PassThrough, Verdict, UpWithin;
    PassObeysVerdict(cfg, rounds, k, attempt);
    var p := PassThrough(cfg, rounds[k], k, UpWithin(rounds, k), attempt);
    if k == last {
    } else {
      RunFollowsVerdicts(cfg, rounds, k + 1, last, p.attempt);
    }
  }

  /**
   Serve returns for a round's verdict and for nothing else: cancellation, a failed OnReady,
   an error no retry can settle, or, without Wait, a failure before the first session.
   */
  lemma ServeStopsAtFirstVerdict(cfg: Config, rounds: seq<Round>, last: nat)
    requires last < |rounds| && forall j :: 0 <= j < last ==> Verdict(cfg, rounds, j).None?
    ensures Verdict(cfg, rounds, last).Some? ==> Served(cfg, rounds).stop == Verdict(cfg, rounds, last)
    ensures Verdict(cfg, rounds, last).None? && last + 1 == |rounds| ==> Served(cfg, rounds).stop.None?
  {
    hide Verdict;
    assert !UpWithin(rounds, 0);
    RunFollowsVerdicts(cfg, rounds, 0, last, 0);
  }

  // ---- in what order it reports ------------------------------------------------------------

  datatype Phase = NotYetReady | Up | Down

  /**
   Where an onlooker who sees only the trace believes the peer to be, the connection it holds,
   and the wait its last report announced and that has not begun.
   */
  datatype Onlooker = Onlooker(phase: Phase, open: Option<nat>, promised: Option<int>) {
    predicate Idle() { open.None? && promised.None? }
  }

  /** The onlooker after one event; None when the event is out of order. */
  function Sees(cfg: Config, o: Onlooker, e: Event): Option<Onlooker> {
    match e
    case Dialled(k) => if o.Idle() then Some(Onlooker(o.phase, Some(k), None)) else None
    case Closed(k) => if o.open == Some(k) then Some(Onlooker(o.phase, None, o.promised)) else None
    case Ran(k) => if o.open == Some(k) then Some(o) else None
    case Ready => if o.phase.NotYetReady? && o.open.Some? then Some(Onlooker(Up, o.open, o.promised)) else None
    case Reconnected =>
      if o.open.Some? && (o.phase.Down? || (!cfg.onDisconnect && (o.phase.Up? || !cfg.onReady)))
      then Some(Onlooker(Up, o.open, o.promised)) else None
    case Waiting(_, d) => if o.phase.NotYetReady? && o.Idle() then Some(Onlooker(o.phase, None, Some(d))) else None
    case Disconnected(_, d) =>
      if o.Idle() && (cfg.onReady ==> !o.phase.NotYetReady?) then Some(Onlooker(Down, None, Some(d))) else None
    case WaitBegun(d) => if o.open.None? && (o.promised.Some? ==> o.promised == Some(d)) then Some(Onlooker(o.phase, None, None)) else None
  }

  function SeesAll(cfg: Config, o: Onlooker, trace: seq<Event>): Option<Onlooker>
    decreases trace
  {
    if trace == [] then Some(o)
    else
      var next := Sees(cfg, o, trace[0]);
      if next.None? then None else SeesAll(cfg, next.value, trace[1..])
  }

  lemma {:induction false} SeesAppend(cfg: Config, o: Onlooker, a: seq<Event>, b: seq<Event>)
    ensures SeesAll(cfg, o, a + b) ==
            if SeesAll(cfg, o, a).None? then None else SeesAll(cfg, SeesAll(cfg, o, a).value, b)
    decreases a
  {
    if a == [] {
      assert a + b == b;
    } else {
      assert (a + b)[0] == a[0] && (a + b)[1..] == a[1..] + b;
      var next := Sees(cfg, o, a[0]);
      if next.Some? { SeesAppend(cfg, next.value, a[1..], b); }
    }
  }

  /** What the loop's `connected` means to the onlooker at the top of the loop. */
  predicate Agrees(cfg: Config, connected: bool, o: Onlooker) {
    && o.Idle()
    && (if connected then (cfg.onReady ==> !o.phase.NotYetReady?) && (cfg.onDisconnect ==> o.phase.Down?)
        else o.phase.NotYetReady?)
  }

  lemma SeesThree(cfg: Config, o: Onlooker, a: seq<Event>, b: Event)
    ensures SeesAll(cfg, o, []) == Some(o)
    ensures SeesAll(cfg, o, [b]) == Sees(cfg, o, b)
    ensures SeesAll(cfg, o, a + [b]) ==
            if SeesAll(cfg, o, a).None? then None else Sees(cfg, SeesAll(cfg, o, a).value, b)
  {
    SeesAppend(cfg, o, a, [b]);
    assert [b][1..] == [];
    if SeesAll(cfg, o, a).Some? {
      var m := SeesAll(cfg, o, a).value;
      assert SeesAll(cfg, m, [b]) == Sees(cfg, m, b);
    }
  }

  /** A connect that fails has closed what it dialled; one that succeeds holds it open. */
  lemma ConnectIsOrderly(cfg: Config, o: Onlooker, r: Round, k: nat)
    requires o.Idle()
    ensures var (events, err) := Connect(r, k);
            SeesAll(cfg, o, events) == Some(if err.Some? then o else Onlooker(o.phase, Some(k), None))
  {
    SeesThree(cfg, o, [], Dialled(k));
    SeesThree(cfg, o, [Dialled(k)], Closed(k));
    hide SeesAll, AckErr;
  }

  /** The callback for a new session, while its connection is open. */
  lemma NotifyIsOrderly(cfg: Config, o: Onlooker, connected: bool, r: Round, k: nat)
    requires Agrees(cfg, connected, o)
    ensures var seen := SeesAll(cfg, Onlooker(o.phase, Some(k), None), Notify(cfg, connected, r).0);
            seen.Some? && seen.value.open == Some(k) && seen.value.promised.None?
            && (cfg.onReady ==> !seen.value.phase.NotYetReady?)
  {
    var told := Notify(cfg, connected, r).0;
    if told != [] {
      assert told == [told[0]];
      SeesThree(cfg, Onlooker(o.phase, Some(k), None), [], told[0]);
    }
  }

  /** The session and its deferred close. */
  lemma SessionIsOrderly(cfg: Config, m: Onlooker, r: Round, k: nat)
    requires m.open == Some(k)
    ensures SeesAll(cfg, m, [Closed(k)]) == SeesAll(cfg, m, RunSession(r, k).0) == Some(Onlooker(m.phase, None, m.promised))
  {
    SeesThree(cfg, m, [], Ran(k));
    SeesThree(cfg, m, [Ran(k)], Closed(k));
    SeesThree(cfg, m, [], Closed(k));
  }

  /** A session from its dial to its close: a failed callback closes it as surely as its end does. */
  lemma LiveIsOrderly(cfg: Config, o: Onlooker, k: nat, connected: bool, r: Round)
    requires Agrees(cfg, connected, o) && Connect(r, k).1.None?
    ensures var before := Connect(r, k).0 + Notify(cfg, connected, r).0;
            var seen := SeesAll(cfg, o, before + RunSession(r, k).0);
            && seen.Some? && seen.value.Idle() && (cfg.onReady ==> !seen.value.phase.NotYetReady?)
            && SeesAll(cfg, o, before + [Closed(k)]) == seen
  {
    ConnectIsOrderly(cfg, o, r, k);
    NotifyIsOrderly(cfg, o, connected, r, k);
    hide SeesAll, Notify, Connect, RunSession, AckErr;
    var dialled, told := Connect(r, k).0, Notify(cfg, connected, r).0;
    var m := SeesAll(cfg, Onlooker(o.phase, Some(k), None), told).value;
    SessionIsOrderly(cfg, m, r, k);
    SeesAppend(cfg, o, dialled, told);
    SeesAppend(cfg, o, dialled + told, RunSession(r, k).0);
    SeesAppend(cfg, o, dialled + told, [Closed(k)]);
  }

  lemma DecisionIsOrderly(cfg: Config, o: Onlooker, r: Round, up: bool, attempt: nat, events: seq<Event>)
    requires var seen := SeesAll(cfg, o, events);
             seen.Some? && seen.value.Idle() && (if up then cfg.onReady ==> !seen.value.phase.NotYetReady?
                                                     else seen.value.phase.NotYetReady?)
    ensures var p := Decide(cfg, r, up, attempt, events);
            var seen := SeesAll(cfg, o, p.events);
            seen.Some? && seen.value.Idle() && p.connected == up
            && (p.stop.None? ==> Agrees(cfg, up, seen.value))
  {
    hide Retryable, RetryDelay, AckErr, Round.ConnectError, SeesAll;
    var delay := RetryDelay(attempt, r.draw);
    var report := Report(cfg, up, r.Error(), delay);
    assert events + [] == events;
    if report != [] {
      assert report == [report[0]];
      SeesThree(cfg, o, events, report[0]);
    }
    SeesThree(cfg, o, events + report, WaitBegun(delay));
  }

  lemma PassIsOrderly(cfg: Config, o: Onlooker, r: Round, k: nat, connected: bool, attempt: nat)
    requires Agrees(cfg, connected, o)
    ensures var p := PassThrough(cfg, r, k, connected, attempt);
            var seen := SeesAll(cfg, o, p.events);
            seen.Some? && seen.value.Idle() && (p.stop.None? ==> Agrees(cfg, p.connected, seen.value))
  {
    hide Decide, SeesAll, Notify, Connect, RunSession, Retryable, RetryDelay, AckErr;
    ConnectIsOrderly(cfg, o, r, k);
    var (events, err) := Connect(r, k);
    if err.Some? {
      DecisionIsOrderly(cfg, o, r, connected, attempt, events);
    } else {
      LiveIsOrderly(cfg, o, k, connected, r);
      var told := Notify(cfg, connected, r).0;
      DecisionIsOrderly(cfg, o, r, true, if r.Stable() then 0 else attempt, events + told + RunSession(r, k).0);
    }
  }

  lemma {:induction false} RunIsOrderly(cfg: Config, o: Onlooker, rounds: seq<Round>, k: nat, connected: bool, attempt: nat)
    requires k <= |rounds| && Agrees(cfg, connected, o)
    ensures var seen := SeesAll(cfg, o, ServeFrom(cfg, rounds, k, connected, attempt).trace);
            seen.Some? && seen.value.Idle()
    decreases |rounds| - k
  {
    hide PassThrough, Sees;
    if k == |rounds| {
    } else {
      PassIsOrderly(cfg, o, rounds[k], k, connected, attempt);
      var p := PassThrough(cfg, rounds[k], k, connected, attempt);
      if p.stop.None? {
        var rest := ServeFrom(cfg, rounds, k + 1, p.connected, p.attempt);
        SeesAppend(cfg, o, p.events, rest.trace);
        RunIsOrderly(cfg, SeesAll(cfg, o, p.events).value, rounds, k + 1, p.connected, p.attempt);
      }
    }
  }

  const WATCHING := Onlooker(NotYetReady, None, None)

  /**
   At every moment of every run the trace so far is in order; at its end no connection is open,
   and every wait that was reported was begun, for as long as the report said.  Only the end of
   the context cuts a wait short, and that is the end of the run.
   */
  lemma TraceIsOrderly(cfg: Config, rounds: seq<Round>, n: nat)
    requires n <= |Served(cfg, rounds).trace|
    ensures var trace := Served(cfg, rounds).trace;
            SeesAll(cfg, WATCHING, trace[..n]).Some?
            && SeesAll(cfg, WATCHING, trace).Some? && SeesAll(cfg, WATCHING, trace).value.Idle()
  {
    var trace := Served(cfg, rounds).trace;
    RunIsOrderly(cfg, WATCHING, rounds, 0, false, 0);
    assert trace[..n] + trace[n..] == trace;
    SeesAppend(cfg, WATCHING, trace[..n], trace[n..]);
  }

  lemma OneMoreSeen(cfg: Config, rounds: seq<Round>, n: nat)
    requires n < |Served(cfg, rounds).trace|
    ensures var trace := Served(cfg, rounds).trace;
            var o := SeesAll(cfg, WATCHING, trace[..n]);
            o.Some? && Sees(cfg, o.value, trace[n]) == SeesAll(cfg, WATCHING, trace[..n + 1]) && SeesAll(cfg, WATCHING, trace[..n + 1]).Some?
  {
    TraceIsOrderly(cfg, rounds, n);
    TraceIsOrderly(cfg, rounds, n + 1);
    hide Served, Sees, SeesAll;
    var trace := Served(cfg, rounds).trace;
    SeesThree(cfg, WATCHING, trace[..n], trace[n]);
    assert trace[..n] + [trace[n]] == trace[..n + 1];
  }

  /** What the onlooker believes before event `n`. */
  function Before(cfg: Config, rounds: seq<Round>, n: nat): (o: Onlooker)
    requires n <= |Served(cfg, rounds).trace|
    ensures Some(o) == SeesAll(cfg, WATCHING, Served(cfg, rounds).trace[..n])
    ensures n < |Served(cfg, rounds).trace| ==> Sees(cfg, o, Served(cfg, rounds).trace[n]) == Some(Before(cfg, rounds, n + 1))
    decreases |Served(cfg, rounds).trace| - n
  {
    if n < |Served(cfg, rounds).trace| then OneMoreSeen(cfg, rounds, n); SeesAll(cfg, WATCHING, Served(cfg, rounds).trace[..n]).value
    else TraceIsOrderly(cfg, rounds, n); SeesAll(cfg, WATCHING, Served(cfg, rounds).trace[..n]).value
  }

  lemma OneStepDown(cfg: Config, o: Onlooker, e: Event)
    ensures Sees(cfg, o, e).Some? && !o.phase.Down? && Sees(cfg, o, e).value.phase.Down? ==> e.Disconnected?
  {
  }

  /** The peer is believed Down at `j` but was not at `i`: it reported a disconnect in between. */
  lemma {:induction false} GoingDownIsReported(cfg: Config, rounds: seq<Round>, i: nat, j: nat) returns (m: nat)
    requires i <= j <= |Served(cfg, rounds).trace|
    requires !Before(cfg, rounds, i).phase.Down? && Before(cfg, rounds, j).phase.Down?
    ensures i <= m < j && Served(cfg, rounds).trace[m].Disconnected?
    decreases j - i
  {
    hide Served, Before, Sees;
    OneStepDown(cfg, Before(cfg, rounds, j - 1), Served(cfg, rounds).trace[j - 1]);
    if Before(cfg, rounds, j - 1).phase.Down? { m := GoingDownIsReported(cfg, rounds, i, j - 1); } else { m := j - 1; }
  }

  lemma OneStepKeepsReady(cfg: Config, o: Onlooker, e: Event)
    ensures Sees(cfg, o, e).Some? && !o.phase.NotYetReady? ==> !Sees(cfg, o, e).value.phase.NotYetReady?
    ensures Sees(cfg, o, e).Some? && o.phase.NotYetReady? && !Sees(cfg, o, e).value.phase.NotYetReady? && cfg.onReady ==> e.Ready?
  {
  }

  /** Once ready, never again not ready. */
  lemma {:induction false} ReadyForGood(cfg: Config, rounds: seq<Round>, i: nat, j: nat)
    requires i <= j <= |Served(cfg, rounds).trace| && !Before(cfg, rounds, i).phase.NotYetReady?
    ensures !Before(cfg, rounds, j).phase.NotYetReady?
    decreases j - i
  {
    hide Served, Before, Sees;
    if i == j {
    } else {
      ReadyForGood(cfg, rounds, i, j - 1);
      OneStepKeepsReady(cfg, Before(cfg, rounds, j - 1), Served(cfg, rounds).trace[j - 1]);
    }
  }

  /** The peer is believed ready at `j`: its one ready report has been made. */
  lemma {:induction false} BecomingReadyIsReported(cfg: Config, rounds: seq<Round>, j: nat) returns (m: nat)
    requires j <= |Served(cfg, rounds).trace| && cfg.onReady && !Before(cfg, rounds, j).phase.NotYetReady?
    ensures m < j && Served(cfg, rounds).trace[m].Ready?
  {
    assert Before(cfg, rounds, 0) == WATCHING by { assert Served(cfg, rounds).trace[..0] == []; }
    hide Served, Before, Sees;
    OneStepKeepsReady(cfg, Before(cfg, rounds, j - 1), Served(cfg, rounds).trace[j - 1]);
    if Before(cfg, rounds, j - 1).phase.NotYetReady? { m := j - 1; } else { m := BecomingReadyIsReported(cfg, rounds, j - 1); }
  }

  /** With OnReady set, no disconnect and no reconnect is reported before the session was reported ready. */
  lemma ReadyComesFirst(cfg: Config, rounds: seq<Round>, j: nat) returns (m: nat)
    requires j < |Served(cfg, rounds).trace| && cfg.onReady
    requires Served(cfg, rounds).trace[j].Reconnected? || Served(cfg, rounds).trace[j].Disconnected?
    ensures m < j && Served(cfg, rounds).trace[m].Ready?
  {
    hide Served, Before;
    assert Sees(cfg, Before(cfg, rounds, j), Served(cfg, rounds).trace[j]).Some?;
    m := BecomingReadyIsReported(cfg, rounds, j);
  }

  /**
   The reports of a run: waiting reports come before everything else, at most one ready
   follows, and between any two reports of a session there is a disconnect report.
   */
  lemma ReportsAreOrdered(cfg: Config, rounds: seq<Round>, i: nat, j: nat) returns (m: nat)
    requires i < j < |Served(cfg, rounds).trace|
    ensures var trace := Served(cfg, rounds).trace;
            && (trace[i].Ready? || trace[i].Reconnected? || trace[i].Disconnected? ==> !trace[j].Ready? && !trace[j].Waiting?)
            && (cfg.onDisconnect && (trace[i].Ready? || trace[i].Reconnected?) && trace[j].Reconnected?
                ==> i < m < j && trace[m].Disconnected?)
  {
    hide Served, Before;
    var trace := Served(cfg, rounds).trace;
    var o := Before(cfg, rounds, i);
    var p := Before(cfg, rounds, i + 1);
    m := 0;
    if !p.phase.NotYetReady? { ReadyForGood(cfg, rounds, i + 1, j); }
    if cfg.onDisconnect && (trace[i].Ready? || trace[i].Reconnected?) && trace[j].Reconnected? {
      m := GoingDownIsReported(cfg, rounds, i + 1, j);
    }
  }

  lemma OneStepIsIdle(cfg: Config, o: Onlooker, e: Event)
    requires Sees(cfg, o, e).Some?
    ensures e.Dialled? || e.Waiting? || e.Disconnected? ==> o.Idle()
    ensures e.WaitBegun? ==> o.open.None? && (o.promised.Some? ==> o.promised.value == e.delay)
    ensures e.Dialled? ==> Sees(cfg, o, e).value.open == Some(e.conn)
    ensures e.Waiting? || e.Disconnected? ==> Sees(cfg, o, e).value.promised == Some(e.retryIn)
  {
  }

  lemma NothingIsLeftOpen(cfg: Config, rounds: seq<Round>)
    ensures Before(cfg, rounds, |Served(cfg, rounds).trace|).Idle()
  {
    TraceIsOrderly(cfg, rounds, |Served(cfg, rounds).trace|);
    hide Served, Sees, SeesAll;
    var trace := Served(cfg, rounds).trace;
    assert trace[..|trace|] == trace;
  }

  /**
   No connection is dialled, and no wait reported or begun, while an earlier one is open; a
   reported wait is the next one begun; and at the end nothing is open or still owed.
   */
  lemma ConnectionsAreClosed(cfg: Config, rounds: seq<Round>, i: nat)
    requires i < |Served(cfg, rounds).trace|
    ensures var e := Served(cfg, rounds).trace[i]; var o := Before(cfg, rounds, i); var after := Before(cfg, rounds, i + 1);
            && (e.Dialled? || e.Waiting? || e.Disconnected? ==> o.Idle())
            && (e.WaitBegun? ==> o.open.None? && (o.promised.Some? ==> o.promised.value == e.delay))
            && (e.Dialled? ==> after.open == Some(e.conn))
            && (e.Waiting? || e.Disconnected? ==> after.promised == Some(e.retryIn))
    ensures Before(cfg, rounds, |Served(cfg, rounds).trace|).Idle()
  {
    NothingIsLeftOpen(cfg, rounds);
    hide Served, Before, Sees;
    OneStepIsIdle(cfg, Before(cfg, rounds, i), Served(cfg, rounds).trace[i]);
  }

  // ---- how long it waits -------------------------------------------------------------------

  /** The round's session stays up for a minute. */
  predicate Lasts(r: Round) {
    Came(r) && r.lasted >= 60_000_000_000
  }

  /** `a` retries were made since the last stable session before or in round `k`, or since the start. */
  ghost predicate RetriesSince(rounds: seq<Round>, k: nat, a: nat) {
    && a <= k < |rounds|
    && (forall j :: k - a < j <= k ==> !Lasts(rounds[j]))
    && (a < k ==> Lasts(rounds[k - a]))
  }

  function Waits(trace: seq<Event>): seq<int> {
    if trace == [] then []
    else (if trace[0].WaitBegun? then [trace[0].delay] else []) + Waits(trace[1..])
  }

  lemma {:induction false} WaitsAppend(a: seq<Event>, b: seq<Event>)
    ensures Waits(a + b) == Waits(a) + Waits(b)
    decreases a
  {
    if a == [] {
      assert a + b == b;
    } else {
      assert (a + b)[0] == a[0] && (a + b)[1..] == a[1..] + b;
      WaitsAppend(a[1..], b);
    }
  }

  /** In the last quarter before 250ms doubled `a` times, or before 10s if that is less. */
  predicate WithinBackoff(a: nat, delay: int) {
    var d := Min(250_000_000 * Pow(2, a), 10_000_000_000);
    3 * d < 4 * delay && delay <= d
  }

  ghost predicate ProperWait(rounds: seq<Round>, k: nat, delay: int) {
    exists a: nat :: RetriesSince(rounds, k, a) && WithinBackoff(a, delay)
  }

  /** What the loop's `attempt` counts at the top of round `k`. */
  ghost predicate Counts(rounds: seq<Round>, k: nat, attempt: nat) {
    k <= |rounds| && if k == 0 then attempt == 0 else attempt > 0 && RetriesSince(rounds, k - 1, attempt - 1)
  }

  ghost predicate WaitFree(events: seq<Event>) {
    forall e :: e in events ==> !e.WaitBegun?
  }

  lemma {:induction false} NoWaits(events: seq<Event>)
    requires WaitFree(events)
    ensures Waits(events) == []
    decreases events
  {
    if events == [] {
    } else {
      NoWaits(events[1..]);
    }
  }

  lemma OneWaitLast(before: seq<Event>, delay: int)
    requires WaitFree(before)
    ensures var all := before + [WaitBegun(delay)];
            Waits(all) == [delay] && forall i :: 0 <= i < |all| ==> WaitFree(all[..i])
  {
    NoWaits(before);
    WaitsAppend(before, [WaitBegun(delay)]);
    var all := before + [WaitBegun(delay)];
    forall i | 0 <= i < |all| ensures WaitFree(all[..i]) { assert all[..i] == before[..i]; }
  }

  lemma WaitFreePrefixes(events: seq<Event>)
    requires WaitFree(events)
    ensures forall i :: 0 <= i <= |events| ==> WaitFree(events[..i])
  {
  }

  /** A pass begins at most one wait, with the last thing it does. */
  lemma DecideWaits(cfg: Config, r: Round, up: bool, attempt: nat, events: seq<Event>)
    requires WaitFree(events)
    ensures var p := Decide(cfg, r, up, attempt, events);
            && Waits(p.events) == (if p.events == events then [] else [RetryDelay(attempt, r.draw)])
            && (p.stop.None? ==> p.events != events && p.attempt == attempt + 1)
            && (forall i :: 0 <= i < |p.events| ==> WaitFree(p.events[..i]))
  {
    hide Retryable, RetryDelay, AckErr, Round.ConnectError;
    var delay := RetryDelay(attempt, r.draw);
    var before := events + Report(cfg, up, r.Error(), delay);
    NoWaits(events);
    assert WaitFree(before);
    hide Report;
    OneWaitLast(before, delay);
    WaitFreePrefixes(events);
    assert |before + [WaitBegun(delay)]| > |events|;
    hide WaitFree, Waits;
  }

  /** Nothing before the decision begins a wait. */
  lemma NoWaitsBeforeDeciding(cfg: Config, k: nat, connected: bool, r: Round)
    ensures var told := Notify(cfg, connected, r).0;
            && WaitFree(Connect(r, k).0)
            && WaitFree(Connect(r, k).0 + told + RunSession(r, k).0)
            && WaitFree(Connect(r, k).0 + told + [Closed(k)])
  {
    hide AckErr;
  }

  lemma ConnectTells(r: Round, k: nat)
    ensures Connect(r, k).1 == r.ConnectError() && (r.Connects() <==> Connect(r, k).1.None?)
  {
    hide AckErr;
  }

  /** The pass's one wait is its last event, and goes by its own draw and count. */
  lemma PassWaitsLast(cfg: Config, r: Round, k: nat, connected: bool, attempt: nat)
    ensures var p := PassThrough(cfg, r, k, connected, attempt);
            var tries := if r.Stable() then 0 else attempt;
            && (Waits(p.events) == [] || Waits(p.events) == [RetryDelay(tries, r.draw)])
            && (p.stop.None? ==> Waits(p.events) == [RetryDelay(tries, r.draw)] && p.attempt == tries + 1)
            && (forall i :: 0 <= i < |p.events| ==> WaitFree(p.events[..i]))
  {
    hide Retryable, RetryDelay, AckErr, Waits, WaitFree, Decide, Notify, Connect, RunSession;
    NoWaitsBeforeDeciding(cfg, k, connected, r);
    ConnectTells(r, k);
    var (events, err) := Connect(r, k);
    var (told, failed) := Notify(cfg, connected, r);
    if err.Some? {
      DecideWaits(cfg, r, connected, attempt, events);
    } else if failed.Some? {
      NoWaits(events + told + [Closed(k)]);
      WaitFreePrefixes(events + told + [Closed(k)]);
    } else {
      DecideWaits(cfg, r, true, if r.Stable() then 0 else attempt, events + told + RunSession(r, k).0);
    }
  }

  lemma PassWaits(cfg: Config, rounds: seq<Round>, k: nat, connected: bool, attempt: nat)
    requires k < |rounds| && Counts(rounds, k, attempt)
    ensures var p := PassThrough(cfg, rounds[k], k, connected, attempt);
            && |Waits(p.events)| <= 1
            && (forall d :: d in Waits(p.events) ==> ProperWait(rounds, k, d))
            && (p.stop.None? ==> |Waits(p.events)| == 1 && Counts(rounds, k + 1, p.attempt))
  {
    var r := rounds[k];
    var tries := if r.Stable() then 0 else attempt;
    CameIff(r);
    assert Lasts(r) <==> r.Stable();
    hide Came;
    assert RetriesSince(rounds, k, tries);
    RetryDelayBounds(tries, r.draw);
    assert WithinBackoff(tries, RetryDelay(tries, r.draw));
    hide Retryable, RetryDelay, AckErr, RetriesSince, WithinBackoff, PassThrough;
    PassWaitsLast(cfg, r, k, connected, attempt);
  }

  lemma {:induction false} RunWaits(cfg: Config, rounds: seq<Round>, k: nat, connected: bool, attempt: nat)
    requires k <= |rounds| && Counts(rounds, k, attempt)
    ensures var waits := Waits(ServeFrom(cfg, rounds, k, connected, attempt).trace);
            |waits| <= |rounds| - k && forall i :: 0 <= i < |waits| ==> ProperWait(rounds, k + i, waits[i])
    decreases |rounds| - k
  {
    hide PassThrough, ProperWait, Counts;
    if k == |rounds| {
    } else {
      PassWaits(cfg, rounds, k, connected, attempt);
      var p := PassThrough(cfg, rounds[k], k, connected, attempt);
      if p.stop.None? {
        var rest := ServeFrom(cfg, rounds, k + 1, p.connected, p.attempt);
        WaitsAppend(p.events, rest.trace);
        RunWaits(cfg, rounds, k + 1, p.connected, p.attempt);
        var waits := Waits(rest.trace);
        forall i | 0 <= i < |Waits(p.events + rest.trace)|
          ensures ProperWait(rounds, k + i, Waits(p.events + rest.trace)[i])
        {
          if i > 0 { assert Waits(p.events + rest.trace)[i] == waits[i - 1] && ProperWait(rounds, k + 1 + (i - 1), waits[i - 1]); }
        }
      }
    }
  }

  /** Round `k`'s wait is set by the retries since the last stable session, and by nothing else. */
  lemma WaitsBackOff(cfg: Config, rounds: seq<Round>, k: nat) returns (a: nat)
    requires k < |Waits(Served(cfg, rounds).trace)|
    ensures RetriesSince(rounds, k, a) && WithinBackoff(a, Waits(Served(cfg, rounds).trace)[k])
  {
    assert Counts(rounds, 0, 0);
    RunWaits(cfg, rounds, 0, false, 0);
    hide Served, WithinBackoff, RetriesSince;
    assert ProperWait(rounds, 0 + k, Waits(Served(cfg, rounds).trace)[k]);
    a :| RetriesSince(rounds, k, a) && WithinBackoff(a, Waits(Served(cfg, rounds).trace)[k]);
  }

  /** The delay a wait is drawn from never shrinks until a session has been stable. */
  lemma BackoffGrowsUntilStable(rounds: seq<Round>, j: nat, k: nat, a: nat, b: nat)
    requires j <= k && RetriesSince(rounds, j, a) && RetriesSince(rounds, k, b)
    requires forall i :: j < i <= k ==> !Lasts(rounds[i])
    ensures b == a + (k - j)
    ensures BaseDelay(a) <= BaseDelay(b)
  {
    if b < k { assert Lasts(rounds[k - b]); }
    if a < j { assert Lasts(rounds[j - a]); }
    BaseDelayNeverShrinks(a, b);
  }

  // ---- what it reports ---------------------------------------------------------------------

  /**
   Round `k` bears event `e` out: it dialled that connection, came up or failed as reported, and
   ended in just that error, a retryable one, named by whether any session ever came up.
   */
  ghost predicate Truthful(rounds: seq<Round>, k: nat, e: Event)
    requires k < |rounds|
  {
    && (e.Waiting? || e.Disconnected? ==>
          e.error == rounds[k].Error() && !Terminal(e.error) && (e.Disconnected? <==> UpWithin(rounds, k + 1)))
    && (e.Ready? ==> Came(rounds[k]) && !UpWithin(rounds, k))
    && (e.Reconnected? ==> Came(rounds[k]) && UpWithin(rounds, k))
    && (e.Ran? ==> e.conn == k && Came(rounds[k]))
    && (e.Dialled? || e.Closed? ==> e.conn == k && rounds[k].dialError.None?)
  }

  lemma ConnectIsTruthful(rounds: seq<Round>, k: nat)
    requires k < |rounds|
    ensures forall e :: e in Connect(rounds[k], k).0 ==> Truthful(rounds, k, e)
  {
    hide Retryable, AckErr, UpWithin;
  }

  lemma LiveIsTruthful(cfg: Config, rounds: seq<Round>, k: nat)
    requires k < |rounds| && rounds[k].Connects()
    ensures forall e :: e in Notify(cfg, UpWithin(rounds, k), rounds[k]).0 ==> Truthful(rounds, k, e)
    ensures forall e :: e in RunSession(rounds[k], k).0 ==> Truthful(rounds, k, e)
    ensures Truthful(rounds, k, Closed(k))
  {
    CameIff(rounds[k]);
    hide Retryable, Terminal, AckErr, UpWithin, Came;
  }

  lemma DecideIsTruthful(cfg: Config, rounds: seq<Round>, k: nat, attempt: nat, events: seq<Event>)
    requires k < |rounds| && forall e :: e in events ==> Truthful(rounds, k, e)
    ensures forall e :: e in Decide(cfg, rounds[k], UpWithin(rounds, k + 1), attempt, events).events ==> Truthful(rounds, k, e)
  {
    RetryableIff(rounds[k].Error());
    hide Retryable, Terminal, RetryDelay, AckErr, UpWithin, Came, Round.ConnectError;
  }

  lemma PassIsTruthful(cfg: Config, rounds: seq<Round>, k: nat, attempt: nat)
    requires k < |rounds|
    ensures forall e :: e in PassThrough(cfg, rounds[k], k, UpWithin(rounds, k), attempt).events ==> Truthful(rounds, k, e)
  {
    CameIff(rounds[k]);
    hide Retryable, AckErr, UpWithin, Truthful, Decide, Connect, RunSession, Notify, Came;
    var r := rounds[k];
    UpWithinGrows(rounds, k);
    ConnectTells(r, k);
    ConnectIsTruthful(rounds, k);
    var events := Connect(r, k).0;
    if r.Connects() {
      LiveIsTruthful(cfg, rounds, k);
      var told := Notify(cfg, UpWithin(rounds, k), r).0;
      DecideIsTruthful(cfg, rounds, k, if r.Stable() then 0 else attempt, events + told + RunSession(r, k).0);
    } else {
      DecideIsTruthful(cfg, rounds, k, attempt, events);
    }
  }

  /** Event `i` of a trace that starts at round `k` belongs to the round that as many waits have led to. */
  ghost predicate TruthfulAt(rounds: seq<Round>, k: nat, trace: seq<Event>, i: nat)
    requires i < |trace|
  {
    k + |Waits(trace[..i])| < |rounds| && Truthful(rounds, k + |Waits(trace[..i])|, trace[i])
  }

  ghost predicate AllTruthful(rounds: seq<Round>, k: nat, trace: seq<Event>) {
    forall i :: 0 <= i < |trace| ==> TruthfulAt(rounds, k, trace, i)
  }

  /** A pass whose one wait comes last, and then a trace of the rounds behind it. */
  lemma TruthfulBehind(rounds: seq<Round>, k: nat, events: seq<Event>, rest: seq<Event>)
    requires AllTruthful(rounds, k, events) && AllTruthful(rounds, k + 1, rest) && |Waits(events)| == 1
    ensures AllTruthful(rounds, k, events + rest)
  {
    hide Truthful, Waits;
    var trace := events + rest;
    forall i | 0 <= i < |trace| ensures TruthfulAt(rounds, k, trace, i) {
      if i < |events| {
        assert TruthfulAt(rounds, k, events, i);
        assert trace[..i] == events[..i];
      } else {
        var j := i - |events|;
        assert TruthfulAt(rounds, k + 1, rest, j);
        assert trace[..i] == events + rest[..j];
        WaitsAppend(events, rest[..j]);
      }
    }
  }

  lemma {:induction false} RunIsTruthful(cfg: Config, rounds: seq<Round>, k: nat, attempt: nat)
    requires k <= |rounds|
    ensures AllTruthful(rounds, k, ServeFrom(cfg, rounds, k, UpWithin(rounds, k), attempt).trace)
    decreases |rounds| - k
  {
    hide PassThrough, Verdict, UpWithin, Truthful, Waits, WaitFree;
    if k == |rounds| {
    } else {
      PassIsTruthful(cfg, rounds, k, attempt);
      PassObeysVerdict(cfg, rounds, k, attempt);
      PassWaitsLast(cfg, rounds[k], k, UpWithin(rounds, k), attempt);
      var p := PassThrough(cfg, rounds[k], k, UpWithin(rounds, k), attempt);
      forall i | 0 <= i < |p.events| ensures TruthfulAt(rounds, k, p.events, i) {
        NoWaits(p.events[..i]);
      }
      if p.stop.None? {
        RunIsTruthful(cfg, rounds, k + 1, p.attempt);
        hide AllTruthful;
        TruthfulBehind(rounds, k, p.events, ServeFrom(cfg, rounds, k + 1, p.connected, p.attempt).trace);
      }
    }
  }

  /** Every event of a run is borne out by its own round, the one after as many rounds as waits came before it. */
  lemma ReportsAreTrue(cfg: Config, rounds: seq<Round>, i: nat)
    requires i < |Served(cfg, rounds).trace|
    ensures var trace := Served(cfg, rounds).trace;
            var k := |Waits(trace[..i])|;
            k < |rounds| && Truthful(rounds, k, trace[i])
  {
    var trace := Served(cfg, rounds).trace;
    assert trace == ServeFrom(cfg, rounds, 0, UpWithin(rounds, 0), 0).trace;
    hide Truthful, UpWithin, ServeFrom, Served, Waits;
    RunIsTruthful(cfg, rounds, 0, 0);
    assert AllTruthful(rounds, 0, trace) && TruthfulAt(rounds, 0, trace, i);
  }

  // ---- and that nothing goes unreported ------------------------------------------------------

  /** Round `k` ends in a wait, if only one that is cut short. */
  ghost predicate GoesOnToWait(cfg: Config, rounds: seq<Round>, k: nat)
    requires k < |rounds|
  {
    && !FailsReady(cfg, rounds, k) && !rounds[k].cancelled && !Terminal(rounds[k].Error())
    && (cfg.wait || UpWithin(rounds, k + 1))
  }

  /** `seg` holds exactly the kinds of event round `k` calls for. */
  ghost predicate Complete(cfg: Config, rounds: seq<Round>, k: nat, seg: seq<Event>)
    requires k < |rounds|
  {
    var r, up := rounds[k], UpWithin(rounds, k + 1);
    && (Dialled(k) in seg <==> r.dialError.None?)
    && (Closed(k) in seg <==> r.dialError.None?)
    && (Ready in seg <==> cfg.onReady && Came(r) && !UpWithin(rounds, k))
    && (Reconnected in seg <==> cfg.onReconnect && Came(r) && UpWithin(rounds, k))
    && (Ran(k) in seg <==> Came(r) && !FailsReady(cfg, rounds, k))
    && ((exists d :: Waiting(r.Error(), d) in seg) <==> cfg.onWaiting && !up && GoesOnToWait(cfg, rounds, k))
    && ((exists d :: Disconnected(r.Error(), d) in seg) <==> cfg.onDisconnect && up && GoesOnToWait(cfg, rounds, k))
    && ((exists d :: WaitBegun(d) in seg) <==> GoesOnToWait(cfg, rounds, k))
  }

  /** What stands before the decision, and the decision's own events behind it. */
  lemma DecideIsComplete(cfg: Config, r: Round, up: bool, attempt: nat, events: seq<Event>)
    requires forall e :: e in events ==> !e.Waiting? && !e.Disconnected? && !e.WaitBegun?
    ensures var p := Decide(cfg, r, up, attempt, events);
            var waits := !r.cancelled && Retryable(r.Error()) && (cfg.wait || up);
            && (forall e :: e in events ==> e in p.events)
            && (forall e :: e in p.events && e !in events ==> e.Waiting? || e.Disconnected? || e.WaitBegun?)
            && ((exists d :: Waiting(r.Error(), d) in p.events) <==> cfg.onWaiting && !up && waits)
            && ((exists d :: Disconnected(r.Error(), d) in p.events) <==> cfg.onDisconnect && up && waits)
            && ((exists d :: WaitBegun(d) in p.events) <==> waits)
  {
    hide Retryable, RetryDelay, AckErr, Round.ConnectError;
    var delay := RetryDelay(attempt, r.draw);
    var all := events + Report(cfg, up, r.Error(), delay) + [WaitBegun(delay)];
    assert WaitBegun(delay) in all;
    if up && cfg.onDisconnect { assert Disconnected(r.Error(), delay) in all; }
    if !up && cfg.onWaiting { assert Waiting(r.Error(), delay) in all; }
  }

  /** What connecting, and a session if it comes to one, put in the trace. */
  lemma OpeningIsComplete(cfg: Config, r: Round, k: nat, connected: bool)
    ensures var begun := Connect(r, k).0;
            var live := begun + Notify(cfg, connected, r).0 + RunSession(r, k).0;
            var failed := begun + Notify(cfg, connected, r).0 + [Closed(k)];
            && (Dialled(k) in begun <==> r.dialError.None?)
            && (Closed(k) in begun <==> r.dialError.None? && !r.Connects())
            && (forall e :: e in begun ==> e == Dialled(k) || e == Closed(k))
            && Ran(k) in live && Closed(k) in live && Closed(k) in failed && Ran(k) !in failed
            && (Ready in live <==> cfg.onReady && !connected) && (Ready in failed <==> cfg.onReady && !connected)
            && (Reconnected in live <==> cfg.onReconnect && connected) && (Reconnected in failed <==> cfg.onReconnect && connected)
            && (forall e :: e in live || e in failed ==> !e.Waiting? && !e.Disconnected? && !e.WaitBegun?)
            && (Dialled(k) in live <==> Dialled(k) in begun) && (Dialled(k) in failed <==> Dialled(k) in begun)
  {
    hide AckErr;
    assert Closed(k) in [Closed(k)] && Ran(k) in [Ran(k)];
  }

  /** A connect that fails, and the decision behind it. */
  lemma FailedPassIsComplete(cfg: Config, rounds: seq<Round>, k: nat, attempt: nat)
    requires k < |rounds| && !rounds[k].Connects()
    ensures Complete(cfg, rounds, k, Decide(cfg, rounds[k], UpWithin(rounds, k), attempt, Connect(rounds[k], k).0).events)
  {
    var r, was := rounds[k], UpWithin(rounds, k);
    CameIff(r);
    RetryableIff(r.Error());
    UpWithinGrows(rounds, k);
    OpeningIsComplete(cfg, r, k, was);
    assert !FailsReady(cfg, rounds, k) && !Came(r);
    hide Retryable, Terminal, RetryDelay, AckErr, UpWithin, Came, FailsReady, Decide, Connect, RunSession, Notify, Round.ConnectError, Round.Error;
    DecideIsComplete(cfg, r, was, attempt, Connect(r, k).0);
  }

  /** A session, and the decision behind it. */
  lemma LivePassIsComplete(cfg: Config, rounds: seq<Round>, k: nat, tries: nat)
    requires k < |rounds| && rounds[k].Connects() && !FailsReady(cfg, rounds, k)
    ensures var r := rounds[k];
            var live := Connect(r, k).0 + Notify(cfg, UpWithin(rounds, k), r).0 + RunSession(r, k).0;
            Complete(cfg, rounds, k, Decide(cfg, r, true, tries, live).events)
  {
    var r, was := rounds[k], UpWithin(rounds, k);
    CameIff(r);
    RetryableIff(r.Error());
    ConnectTells(r, k);
    UpWithinGrows(rounds, k);
    OpeningIsComplete(cfg, r, k, was);
    hide Retryable, Terminal, RetryDelay, AckErr, UpWithin, Came, Decide, RunSession, Notify, Round.ConnectError, Round.Error, FailsReady;
    DecideIsComplete(cfg, r, true, tries, Connect(r, k).0 + Notify(cfg, was, r).0 + RunSession(r, k).0);
  }

  /** A session whose ready callback failed. */
  lemma UnreadyPassIsComplete(cfg: Config, rounds: seq<Round>, k: nat)
    requires k < |rounds| && FailsReady(cfg, rounds, k)
    ensures Complete(cfg, rounds, k, Connect(rounds[k], k).0 + Notify(cfg, UpWithin(rounds, k), rounds[k]).0 + [Closed(k)])
  {
    var r, was := rounds[k], UpWithin(rounds, k);
    CameIff(r);
    UpWithinGrows(rounds, k);
    OpeningIsComplete(cfg, r, k, was);
    hide Retryable, Terminal, RetryDelay, AckErr, UpWithin, RunSession, Notify, Round.ConnectError, Round.Error;
  }

  lemma PassIsComplete(cfg: Config, rounds: seq<Round>, k: nat, attempt: nat)
    requires k < |rounds|
    ensures Complete(cfg, rounds, k, PassThrough(cfg, rounds[k], k, UpWithin(rounds, k), attempt).events)
  {
    var r, was := rounds[k], UpWithin(rounds, k);
    CameIff(r);
    ConnectTells(r, k);
    hide Complete, Retryable, AckErr, UpWithin, Came, Decide, Connect, RunSession;
    if !r.Connects() {
      FailedPassIsComplete(cfg, rounds, k, attempt);
    } else if FailsReady(cfg, rounds, k) {
      UnreadyPassIsComplete(cfg, rounds, k);
    } else {
      LivePassIsComplete(cfg, rounds, k, if r.Stable() then 0 else attempt);
    }
  }

  lemma NothingIsWaitFree(trace: seq<Event>)
    ensures WaitFree(trace[..0])
  {
  }

  /** From the top of the loop at round `k`: a round that is reached has its own stretch of the trace, and all of its events are there. */
  lemma {:induction false} RunIsComplete(cfg: Config, rounds: seq<Round>, k: nat, reached: nat, attempt: nat) returns (i: nat, j: nat)
    requires k <= reached < |rounds| && forall l :: k <= l < reached ==> Verdict(cfg, rounds, l).None?
    ensures var trace := ServeFrom(cfg, rounds, k, UpWithin(rounds, k), attempt).trace;
            i <= j <= |trace| && Complete(cfg, rounds, reached, trace[i..j]) && k + |Waits(trace[..i])| == reached
    decreases reached - k
  {
    hide PassThrough, Verdict, UpWithin, Complete, Waits, WaitFree;
    PassIsComplete(cfg, rounds, k, attempt);
    PassObeysVerdict(cfg, rounds, k, attempt);
    PassWaitsLast(cfg, rounds[k], k, UpWithin(rounds, k), attempt);
    var p := PassThrough(cfg, rounds[k], k, UpWithin(rounds, k), attempt);
    var trace := ServeFrom(cfg, rounds, k, UpWithin(rounds, k), attempt).trace;
    if k == reached {
      i := 0;
      j := |p.events|;
      assert trace[0..|p.events|] == p.events;
      NoWaits(trace[..0]) by { assert WaitFree(trace[..0]) by { NothingIsWaitFree(trace); } }
    } else {
      i, j := RunIsComplete(cfg, rounds, k + 1, reached, p.attempt);
      var rest := ServeFrom(cfg, rounds, k + 1, UpWithin(rounds, k + 1), p.attempt).trace;
      var n := |p.events|;
      assert trace == p.events + rest;
      assert trace[n + i..n + j] == rest[i..j];
      assert trace[..n + i] == p.events + rest[..i];
      WaitsAppend(p.events, rest[..i]);
      i := n + i;
      j := n + j;
    }
  }

  /**
   Nothing goes unreported: every round a run reaches has its stretch of the trace, behind as
   many waits as rounds came before it, with every dial, close, session, callback and wait
   that the round calls for, and none that it does not.
   */
  lemma EveryRoundIsReported(cfg: Config, rounds: seq<Round>, k: nat) returns (i: nat, j: nat)
    requires k < |rounds| && forall l :: 0 <= l < k ==> Verdict(cfg, rounds, l).None?
    ensures var trace := Served(cfg, rounds).trace;
            i <= j <= |trace| && Complete(cfg, rounds, k, trace[i..j]) && |Waits(trace[..i])| == k
  {
    assert Served(cfg, rounds) == ServeFrom(cfg, rounds, 0, UpWithin(rounds, 0), 0);
    hide Verdict, UpWithin, Complete, Served, ServeFrom, Waits;
    i, j := RunIsComplete(cfg, rounds, 0, k, 0);
  }
}
