/**
 How a peer keeps its control connection up (internal/peer/reconnect.go): one loop over
 two variables, against a network and a clock that may do anything.

 Everything `Serve` cannot decide is a `Round`, one per pass through the loop: what the
 dial, the handshake, the callbacks and the session did, whether the context had ended,
 and what the random draw was. A run is a finite script of rounds, so every claim below
 holds of every prefix of a run that goes on for ever.
 */
module Reconnect {
  import opened Common
  import opened RelayRegistry

  // ---- errors ------------------------------------------------------------------------------

  datatype Sentinel = ErrNoSuchSession | ErrModeMismatch | ErrPublisherExists | ErrPortsMismatch | ErrDenied
                    | ErrProtocolMismatch

  datatype OpError = OpError(op: string, text: string)

  /** What the error tests can see of an error: its sentinels, and the first typed error in its chain. */
  datatype Failure = Failure(sentinels: set<Sentinel>, badCertificate: bool, operation: Option<OpError>)

  function Plain(sentinels: set<Sentinel>): Failure { Failure(sentinels, false, None) }

  predicate StartsWith(s: string, prefix: string) {
    |prefix| <= |s| && s[..|prefix|] == prefix
  }

  predicate Retryable(e: Failure) {
    if ErrModeMismatch in e.sentinels || ErrPortsMismatch in e.sentinels then false
    else if ErrDenied in e.sentinels then false
    else if e.badCertificate then false
    else if ErrProtocolMismatch in e.sentinels then false
    else if e.operation.Some? && e.operation.value.op == "remote error" && StartsWith(e.operation.value.text, "tls:")
    then false
    else true
  }

  /** The byte an acknowledgement is on the wire. */
  function Code(s: AckStatus): byte {
    match s
    case AckOK => 0
    case AckNoSuchSession => 1
    case AckModeMismatch => 2
    case AckPublisherExists => 3
    case AckPortsMismatch => 4
    case AckDenied => 5
  }

  /** AckStatus.Err: None for the byte of AckOK, a sentinel for each rejection, something else for any other byte. */
  function AckErr(code: byte): Option<Failure> {
    match code
    case 0 => None
    case 1 => Some(Plain({ErrNoSuchSession}))
    case 2 => Some(Plain({ErrModeMismatch}))
    case 3 => Some(Plain({ErrPublisherExists}))
    case 4 => Some(Plain({ErrPortsMismatch}))
    case 5 => Some(Plain({ErrDenied}))
    case _ => Some(Plain({}))
  }

  /** Only byte 0 is success; each rejection has its own sentinel and no other; an unknown byte is an error with none. */
  lemma AckErrIff(code: byte, s: Sentinel)
    ensures AckErr(code).None? <==> code == 0
    ensures AckErr(code).Some? ==>
              && (s in AckErr(code).value.sentinels <==>
                    (code, s) in {(1, ErrNoSuchSession), (2, ErrModeMismatch), (3, ErrPublisherExists), (4, ErrPortsMismatch), (5, ErrDenied)})
              && !AckErr(code).value.badCertificate && AckErr(code).value.operation.None?
  {
  }

  /** An error no retry can settle, by what it is made of: a disagreement, a denial, a failed trust check, a fatal alert. */
  predicate Terminal(e: Failure) {
    || (exists s :: s in e.sentinels && s in {ErrModeMismatch, ErrPortsMismatch, ErrDenied, ErrProtocolMismatch})
    || e.badCertificate
    || (e.operation.Some? && e.operation.value.op == "remote error"
        && |e.operation.value.text| >= 4 && e.operation.value.text[..4] == "tls:")
  }

  lemma RetryableIff(e: Failure)
    ensures Retryable(e) <==> !Terminal(e)
  {
    assert |"tls:"| == 4;
  }

  /** A relay's answer ends the retries exactly when it is one no retry can change. */
  lemma AnswerEndsRetriesIff(s: AckStatus)
    ensures AckErr(Code(s)).None? <==> s.AckOK?
    ensures AckErr(Code(s)).Some? ==>
              (!Retryable(AckErr(Code(s)).value) <==> s.AckModeMismatch? || s.AckPortsMismatch? || s.AckDenied?)
  {
  }

  // ---- the backoff -------------------------------------------------------------------------

  const MILLISECOND := 1_000_000
  const MIN_DELAY := 250 * MILLISECOND
  const MAX_DELAY := 10_000 * MILLISECOND
  const MAX_SHIFT := 8
  const JITTER_DIV := 4
  const STABLE_FOR := 60_000 * MILLISECOND

  /** A signed 64-bit result, as a time.Duration holds it. */
  function Wrap64(x: int): int {
    var r := x % 0x1_0000_0000_0000_0000;
    if r < 0x8000_0000_0000_0000 then r else r - 0x1_0000_0000_0000_0000
  }

  /** The delay before jitter, in 64-bit arithmetic. */
  function BaseDelay(attempt: nat): int {
    var delay := MAX_DELAY;
    if attempt < MAX_SHIFT then
      var doubled := Wrap64(MIN_DELAY * Pow(2, attempt));
      if doubled < delay then doubled else delay
    else delay
  }

  /** retryDelay; `draw` is the generator's raw output, reduced to below a quarter of the delay. */
  function RetryDelay(attempt: nat, draw: nat): int {
    var delay := BaseDelay(attempt);
    var spread := delay / JITTER_DIV;
    delay - (if spread > 0 then draw % spread else 0)
  }

  function Min(a: int, b: int): int { if a < b then a else b }

  /** The delay doubles up to its cap and the 64-bit arithmetic never shows, however many attempts were made. */
  lemma {:induction false} BaseDelayIsCappedDoubling(attempt: nat)
    ensures BaseDelay(attempt) == Min(250_000_000 * Pow(2, attempt), 10_000_000_000)
  {
    assert Pow(2, 8) == 256 by { assert Pow(2, 4) == 16; }
    if attempt < 8 {
      PowMonotone(2, attempt, 8);
    } else {
      PowMonotone(2, 8, attempt);
      assert MIN_DELAY * 256 > MAX_DELAY;
    }
  }

  lemma BaseDelayNeverShrinks(a: nat, b: nat)
    requires a <= b
    ensures BaseDelay(a) <= BaseDelay(b)
  {
    BaseDelayIsCappedDoubling(a);
    BaseDelayIsCappedDoubling(b);
    PowMonotone(2, a, b);
  }

  /** Every wait is in the last quarter before its delay. */
  lemma RetryDelayBounds(attempt: nat, draw: nat)
    ensures var d := Min(250_000_000 * Pow(2, attempt), 10_000_000_000);
            3 * d < 4 * RetryDelay(attempt, draw) && RetryDelay(attempt, draw) <= d
    ensures 0 < RetryDelay(attempt, draw) <= MAX_DELAY
  {
    BaseDelayIsCappedDoubling(attempt);
  }

  lemma BaseDelayIsWhole(attempt: nat)
    ensures BaseDelay(attempt) > 0 && BaseDelay(attempt) % 4 == 0
  {
    BaseDelayIsCappedDoubling(attempt);
    PowIsPositive(2, attempt);
  }

  lemma BelowIsOwnRemainder(x: int, n: int)
    requires 0 <= x < n
    ensures x % n == x
  {
  }

  lemma DrawnFrom(d: int, delay: int)
    requires d > 0 && d % 4 == 0 && 3 * d < 4 * delay && delay <= d
    ensures 0 <= d - delay < d / 4 && (d - delay) % (d / 4) == d - delay
  {
    var quarter := d / 4;
    assert d == 4 * quarter;
    BelowIsOwnRemainder(d - delay, quarter);
  }

  /** And every wait in that quarter is one that some draw gives: the jitter reaches all of it. */
  lemma EveryDelayIsDrawn(attempt: nat, delay: int) returns (draw: nat)
    requires var d := Min(250_000_000 * Pow(2, attempt), 10_000_000_000); 3 * d < 4 * delay && delay <= d
    ensures RetryDelay(attempt, draw) == delay
  {
    BaseDelayIsCappedDoubling(attempt);
    BaseDelayIsWhole(attempt);
    hide BaseDelay, Pow;
    DrawnFrom(BaseDelay(attempt), delay);
    draw := BaseDelay(attempt) - delay;
  }

  // ---- the loop ----------------------------------------------------------------------------

  /** Which callbacks are set, and whether the first failure is waited out. */
  datatype Config = Config(wait: bool, onReady: bool, onWaiting: bool, onReconnect: bool, onDisconnect: bool)

  /** What the handshake on a dialled connection came to: an I/O failure, or relay's byte. */
  datatype Answer = NoAnswer(error: Failure) | Ack(code: byte)

  datatype Round = Round(
    dialError: Option<Failure>,
    kindError: Option<Failure>,
    answer: Answer,
    readyError: Option<Failure>,
    lasted: nat,
    ended: Failure,
    cancelled: bool,
    draw: nat,
    cancelledInWait: bool)
  {
    /** Handshake's error: the I/O failure, or what the answer means. */
    function HandshakeError(): Option<Failure> {
      match answer
      case NoAnswer(e) => Some(e)
      case Ack(code) => AckErr(code)
    }

    /** The handshake got as far as an answer from relay. */
    predicate Answered() { dialError.None? && kindError.None? && answer.Ack? }

    /** connect's error, None when it yields a live connection. */
    function ConnectError(): Option<Failure> {
      if dialError.Some? then dialError
      else if kindError.Some? then kindError
      else HandshakeError()
    }

    predicate Connects() { ConnectError().None? }

    /** The error the pass through the loop goes on with. */
    function Error(): Failure {
      if Connects() then ended else ConnectError().value
    }

    predicate Stable() { Connects() && lasted >= STABLE_FOR }
  }

  datatype Event =
    | Dialled(conn: nat)
    | Closed(conn: nat)
    | Ran(conn: nat)
    | Ready
    | Reconnected
    | Waiting(error: Failure, retryIn: int)
    | Disconnected(error: Failure, retryIn: int)
    | WaitBegun(delay: int)

  datatype Stop = Cancelled | ReadyFailed(error: Failure) | GaveUp(error: Failure)

  datatype Outcome = Outcome(stop: Option<Stop>, trace: seq<Event>)

  function If<T>(c: bool, e: T): seq<T> { if c then [e] else [] }

  /** What notifyConnected does: the event it causes, and its error. */
  function Notify(cfg: Config, connected: bool, r: Round): (seq<Event>, Option<Failure>) {
    if !connected then (If(cfg.onReady, Ready), if cfg.onReady then r.readyError else None)
    else (If(cfg.onReconnect, Reconnected), None)
  }

  /** The report of a retry. */
  function Report(cfg: Config, connected: bool, e: Failure, delay: int): seq<Event> {
    if !connected then If(cfg.onWaiting, Waiting(e, delay)) else If(cfg.onDisconnect, Disconnected(e, delay))
  }

  /** One pass through the loop: what it ends with, if it ends, what happened, and the loop's two variables after it. */
  datatype Pass = Pass(stop: Option<Stop>, events: seq<Event>, connected: bool, attempt: nat)

  /** The pass's decision once connecting and the session, if there was one, are over. */
  function Decide(cfg: Config, r: Round, up: bool, attempt: nat, events: seq<Event>): Pass {
    if r.cancelled then Pass(Some(Cancelled), events, up, attempt)
    else if (!up && !cfg.wait) || !Retryable(r.Error()) then Pass(Some(GaveUp(r.Error())), events, up, attempt)
    else
      var delay := RetryDelay(attempt, r.draw);
      Pass(if r.cancelledInWait then Some(Cancelled) else None,
           events + Report(cfg, up, r.Error(), delay) + [WaitBegun(delay)], up, attempt + 1)
  }

  /** connect: a connection that does not get through the handshake is closed where it fails. */
  function Connect(r: Round, k: nat): (seq<Event>, Option<Failure>) {
    if r.dialError.Some? then ([], r.dialError)
    else if r.kindError.Some? then ([Dialled(k)] + [Closed(k)], r.kindError)
    else if r.HandshakeError().Some? then ([Dialled(k)] + [Closed(k)], r.HandshakeError())
    else ([Dialled(k)], None)
  }

  /** runSession: the control loop, which always ends in an error, and the deferred close. */
  function RunSession(r: Round, k: nat): (seq<Event>, Failure) {
    ([Ran(k)] + [Closed(k)], r.ended)
  }

  function PassThrough(cfg: Config, r: Round, k: nat, connected: bool, attempt: nat): Pass {
    var (events, err) := Connect(r, k);
    if err.Some? then Decide(cfg, r, connected, attempt, events)
    else
      var (told, failed) := Notify(cfg, connected, r);
      if failed.Some? then Pass(Some(ReadyFailed(failed.value)), events + told + [Closed(k)], connected, attempt)
      else Decide(cfg, r, true, if r.Stable() then 0 else attempt, events + told + RunSession(r, k).0)
  }

  /** The rest of Serve, from the top of the loop at round `k`. */
  function ServeFrom(cfg: Config, rounds: seq<Round>, k: nat, connected: bool, attempt: nat): Outcome
    requires k <= |rounds|
    decreases |rounds| - k
  {
    if k == |rounds| then Outcome(None, [])
    else
      var pass := PassThrough(cfg, rounds[k], k, connected, attempt);
      if pass.stop.Some? then Outcome(pass.stop, pass.events)
      else
        var rest := ServeFrom(cfg, rounds, k + 1, pass.connected, pass.attempt);
        Outcome(rest.stop, pass.events + rest.trace)
  }

  function Served(cfg: Config, rounds: seq<Round>): Outcome {
    ServeFrom(cfg, rounds, 0, false, 0)
  }

  /** connect, exit by exit. */
  method DialAndShake(r: Round, k: nat) returns (events: seq<Event>, err: Option<Failure>)
    ensures (events, err) == Connect(r, k)
  {
    if r.dialError.Some? {
      return [], r.dialError;
    }
    events := [Dialled(k)];
    if r.kindError.Some? {
      events := events + [Closed(k)];
      return events, r.kindError;
    }
    err := r.HandshakeError();
    if err.Some? {
      events := events + [Closed(k)];
      return events, err;
    }
  }

  /** runSession. */
  method RunControl(r: Round, k: nat) returns (events: seq<Event>, err: Failure)
    ensures (events, err) == RunSession(r, k)
  {
    events, err := [Ran(k)], r.ended;
    events := events + [Closed(k)];
  }

  /** notifyConnected. */
  method NotifyConnected(cfg: Config, connected: bool, r: Round) returns (events: seq<Event>, err: Option<Failure>)
    ensures (events, err) == Notify(cfg, connected, r)
  {
    events, err := [], None;
    if !connected {
      if cfg.onReady { events := [Ready]; err := r.readyError; }
    } else if cfg.onReconnect {
      events := [Reconnected];
    }
  }

  /** The end of a pass: give up, or report, count and wait. */
  method Retry(cfg: Config, r: Round, connected: bool, attempt: nat, err: Failure, before: seq<Event>)
    returns (stop: Option<Stop>, events: seq<Event>, tries: nat)
    requires err == r.Error()
    ensures Pass(stop, events, connected, tries) == Decide(cfg, r, connected, attempt, before)
  {
    hide Retryable, RetryDelay, AckErr, Round.ConnectError;
    tries, events := attempt, before;
    if r.cancelled { return Some(Cancelled), events, tries; }
    if (!connected && !cfg.wait) || !Retryable(err) { return Some(GaveUp(err)), events, tries; }
    var delay := RetryDelay(attempt, r.draw);
    tries := attempt + 1;
    var report := [];
    if !connected && cfg.onWaiting {
      report := [Waiting(err, delay)];
    } else if connected && cfg.onDisconnect {
      report := [Disconnected(err, delay)];
    }
    events := events + report + [WaitBegun(delay)];
    stop := if r.cancelledInWait then Some(Cancelled) else None;
  }

  /** One pass as Serve makes it, step by step over its two variables. */
  method Once(cfg: Config, r: Round, k: nat, was: bool, tried: nat)
    returns (stop: Option<Stop>, events: seq<Event>, connected: bool, attempt: nat)
    ensures Pass(stop, events, connected, attempt) == PassThrough(cfg, r, k, was, tried)
  {
    hide Retryable, RetryDelay, AckErr, Decide, Notify;
    connected, attempt := was, tried;
    var err;
    events, err := DialAndShake(r, k);
    if err.Some? {
      stop, events, attempt := Retry(cfg, r, connected, attempt, err.value, events);
      return;
    }
    var told, readyErr := NotifyConnected(cfg, connected, r);
    events := events + told;
    if readyErr.Some? {
      return Some(ReadyFailed(readyErr.value)), events + [Closed(k)], connected, attempt;
    }
    connected := true;
    var ran, ended := RunControl(r, k);
    if r.lasted >= STABLE_FOR { attempt := 0; }
    stop, events, attempt := Retry(cfg, r, connected, attempt, ended, events + ran);
  }

  /** Serve's loop. */
  method Serve(cfg: Config, rounds: seq<Round>) returns (stop: Option<Stop>, trace: seq<Event>)
    ensures Outcome(stop, trace) == Served(cfg, rounds)
  {
    hide PassThrough;
    var connected, attempt := false, 0;
    trace := [];
    for k := 0 to |rounds|
      invariant Served(cfg, rounds).stop == ServeFrom(cfg, rounds, k, connected, attempt).stop
      invariant Served(cfg, rounds).trace == trace + ServeFrom(cfg, rounds, k, connected, attempt).trace
    {
      var events;
      stop, events, connected, attempt := Once(cfg, rounds[k], k, connected, attempt);
      trace := trace + events;
      if stop.Some? { return; }
    }
    stop := None;
  }
}
