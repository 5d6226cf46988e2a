/**
 The two-way copy between a pair of streams (internal/streamio/splice.go), and its counters.

 A direction is one goroutine: io.CopyBuffer's loop over a destination that may be wrapped
 for counting, then the destination's Close. Its statements are the functions of `Direction`;
 a splice is two directions interleaved in any order, over streams that return what they like.
 */
module Splice {
  import opened Common

  /** Where a direction stands; `buf` is what the last Read put in the buffer, `last` that Read's error. */
  datatype Phase =
    | Reading
    | Writing(buf: Bytes, last: bool)
    | Counting(size: nat, last: bool, n: int, failed: bool)
    | Accounting(size: nat, last: bool, n: int, failed: bool)
    | Closing
    | Finished

  datatype IO = IO(data: Bytes, last: bool, taken: nat, n: int, failed: bool)

  /**
   `read` and `accepted` are the bytes taken from the source and by the destination so far;
   `written` is the loop's own total; `honest` says that every Write so far reported a count
   between zero and the length it was given, as io.Writer demands.
   */
  datatype Direction = Direction(
    counted: bool, phase: Phase, read: Bytes, accepted: Bytes, counter: int, written: int, closed: bool, honest: bool, over: bool)
  {
    /** src.Read into the buffer. */
    function DoRead(data: Bytes, last: bool): Direction {
      if !phase.Reading? then this
      else if data == [] then this.(phase := if last then Closing else Reading)
      else this.(phase := Writing(data, last), read := read + data)
    }

    /** The underlying Write: a count within bounds is the truth, otherwise `taken` bytes went in. */
    function DoWrite(taken: nat, n: int, failed: bool): Direction {
      if !phase.Writing? then this
      else
        var size := |phase.buf|;
        var k := if 0 <= n <= size then n else if taken <= size then taken else size;
        this.(phase := Counting(size, phase.last, n, failed), accepted := accepted + phase.buf[..k],
              honest := honest && 0 <= n <= size, over := over || n > size)
    }

    /** countingWriter's atomic add, when there is a counter. */
    function DoCount(): Direction {
      if !phase.Counting? then this
      else this.(phase := Accounting(phase.size, phase.last, phase.n, phase.failed),
                 counter := counter + if counted && phase.n > 0 then phase.n else 0)
    }

    /** CopyBuffer's bookkeeping: an impossible count reads as zero and an error, and any shortfall ends the copy. */
    function DoAccount(): Direction {
      if !phase.Accounting? then this
      else
        var valid := 0 <= phase.n <= phase.size;
        this.(written := written + (if valid then phase.n else 0),
              phase := if phase.failed || !valid || phase.n != phase.size || phase.last then Closing else Reading)
    }

    /** The Close of the side written into. */
    function DoClose(): Direction {
      if phase.Closing? then this.(phase := Finished, closed := true) else this
    }

    /** The next statement, given what the streams answer should it be a Read or a Write. */
    function Step(io: IO): Direction {
      match phase
      case Reading => DoRead(io.data, io.last)
      case Writing(_, _) => DoWrite(io.taken, io.n, io.failed)
      case Counting(_, _, _, _) => DoCount()
      case Accounting(_, _, _, _) => DoAccount()
      case Closing => DoClose()
      case Finished => this
    }
  }

  function Fresh(counted: bool): Direction {
    Direction(counted, Reading, [], [], 0, 0, false, true, false)
  }

  // ---- one direction as a loop -------------------------------------------------------------

  /** One turn of the copy loop. */
  function Turn(d: Direction, io: IO): Direction {
    d.DoRead(io.data, io.last).DoWrite(io.taken, io.n, io.failed).DoCount().DoAccount()
  }

  /** The copy loop over what the streams answer, turn by turn. */
  function Copied(d: Direction, answers: seq<IO>): Direction
    decreases answers
  {
    if answers == [] || !d.phase.Reading? then d else Copied(Turn(d, answers[0]), answers[1..])
  }

  /** The destination, with countingWriter's counter beside it. */
  class Sink {
    const counted: bool
    var accepted: Bytes
    var counter: int
    var closed: bool

    constructor (counted: bool)
      ensures this.counted == counted && accepted == [] && counter == 0 && !closed
    {
      this.counted := counted;
      accepted, counter, closed := [], 0, false;
    }

    /** countingWriter.Write around the stream's own Write. */
    method Write(p: Bytes, io: IO) returns (n: int, failed: bool)
      modifies this
      ensures n == io.n && failed == io.failed && closed == old(closed)
      ensures accepted == old(accepted) + p[..if 0 <= n <= |p| then n else if io.taken <= |p| then io.taken else |p|]
      ensures counter == old(counter) + if counted && n > 0 then n else 0
    {
      n, failed := io.n, io.failed;
      var k := if 0 <= n <= |p| then n else if io.taken <= |p| then io.taken else |p|;
      accepted := accepted + p[..k];
      if counted && n > 0 { counter := counter + n; }
    }

    method Close()
      modifies this
      ensures closed && accepted == old(accepted) && counter == old(counter)
    {
      closed := true;
    }
  }

  lemma CopiedUnfolds(d: Direction, answers: seq<IO>, k: nat)
    requires k < |answers| && d.phase.Reading?
    ensures Copied(d, answers[k..]) == Copied(Turn(d, answers[k]), answers[k + 1..])
  {
    assert answers[k..][1..] == answers[k + 1..];
  }

  lemma CopiedStops(d: Direction, rest: seq<IO>)
    requires rest == [] || !d.phase.Reading?
    ensures Copied(d, rest) == d
  {
  }

  /** A goroutine of splice: copyStream into `dst`, then its Close. None: the answers ran out first. */
  method CopyStream(dst: Sink, answers: seq<IO>) returns (total: Option<int>)
    requires dst.accepted == [] && dst.counter == 0 && !dst.closed
    modifies dst
    ensures var d := Copied(Fresh(dst.counted), answers);
            && dst.accepted == d.accepted && dst.counter == d.counter
            && total == (if d.phase.Closing? then Some(d.written) else None) && dst.closed == d.phase.Closing?
  {
    hide Copied;
    ghost var d := Fresh(dst.counted);
    var written, k, done := 0, 0, false;
    assert answers[0..] == answers;
    while k < |answers| && !done
      invariant k <= |answers| && !dst.closed
      invariant Copied(Fresh(dst.counted), answers) == Copied(d, answers[k..])
      invariant d.counted == dst.counted && d.accepted == dst.accepted && d.counter == dst.counter && d.written == written
      invariant d.phase == if done then Closing else Reading
    {
      var io := answers[k];
      CopiedUnfolds(d, answers, k);
      d := Turn(d, io);
      k := k + 1;
      if io.data != [] {
        var n, failed := dst.Write(io.data, io);
        var size := |io.data|;
        if n < 0 || size < n {
          n, failed := 0, true;
        }
        written := written + n;
        if failed || n != size { done := true; }
      }
      if io.last { done := true; }
    }
    CopiedStops(d, answers[k..]);
    if done {
      dst.Close();
      total := Some(written);
    } else {
      total := None;
    }
  }

  // ---- what a copy moves ---------------------------------------------------------------------

  /** The turn takes the copy no further: the source's last bytes, or a write that failed or fell short. */
  predicate Ends(io: IO) {
    io.last || (io.data != [] && (io.failed || io.n != |io.data|))
  }

  /** The bytes of some reads, one after the other. */
  function Data(answers: seq<IO>): Bytes {
    if answers == [] then [] else answers[0].data + Data(answers[1..])
  }

  /** How much of its last buffer a turn's write put in, and how much it is believed to have. */
  function LastTaken(io: IO): nat {
    if 0 <= io.n <= |io.data| then io.n else if io.taken <= |io.data| then io.taken else |io.data|
  }

  function LastWritten(io: IO): nat {
    if 0 <= io.n <= |io.data| then io.n else 0
  }

  lemma OneTurn(d: Direction, io: IO)
    requires d.phase.Reading?
    ensures var e := Turn(d, io);
            && (e.phase.Closing? <==> Ends(io)) && (!e.phase.Closing? ==> e.phase.Reading?)
            && e.accepted == d.accepted + io.data[..LastTaken(io)]
            && e.written == d.written + LastWritten(io)
            && e.counter == d.counter + (if d.counted && io.data != [] && io.n > 0 then io.n else 0)
            && e.counted == d.counted
  {
    var r := d.DoRead(io.data, io.last);
    if io.data == [] {
      assert io.data[..LastTaken(io)] == [];
    } else {
      assert r.phase == Writing(io.data, io.last);
      var w := r.DoWrite(io.taken, io.n, io.failed);
      assert w.phase == Counting(|io.data|, io.last, io.n, io.failed);
      var c := w.DoCount();
      assert c.phase == Accounting(|io.data|, io.last, io.n, io.failed);
      assert c.accepted == w.accepted && c.written == w.written == d.written;
    }
  }

  lemma WholeTurn(io: IO)
    requires !Ends(io)
    ensures io.data[..LastTaken(io)] == io.data && LastWritten(io) == |io.data|
  {
  }

  lemma DataOfFirst(answers: seq<IO>, k: nat)
    requires 0 < k <= |answers|
    ensures Data(answers[..k]) == answers[0].data + Data(answers[1..][..k - 1])
    ensures Data(answers) == answers[0].data + Data(answers[1..])
  {
    assert answers[..k][1..] == answers[1..][..k - 1];
  }

  /**
   A copy goes on as long as reads bring more and writes take all of it, and so far it has moved
   exactly what was read; it closes on the first turn that ends it, and on no other.
   */
  lemma {:induction false} CopyMovesUntilItEnds(d: Direction, answers: seq<IO>, k: nat)
    requires d.phase.Reading? && k <= |answers| && forall i :: 0 <= i < k ==> !Ends(answers[i])
    ensures k == |answers| ==>
              var e := Copied(d, answers);
              e.phase.Reading? && e.accepted == d.accepted + Data(answers) && e.written == d.written + |Data(answers)|
    ensures k < |answers| && Ends(answers[k]) ==>
              var e := Copied(d, answers);
              var io := answers[k];
              && e.phase.Closing?
              && e.accepted == d.accepted + Data(answers[..k]) + io.data[..LastTaken(io)]
              && e.written == d.written + |Data(answers[..k])| + LastWritten(io)
    decreases k
  {
    hide Turn, Ends;
    if answers == [] {
    } else {
      OneTurn(d, answers[0]);
      var e := Turn(d, answers[0]);
      if k == 0 {
        if Ends(answers[0]) { CopiedStops(e, answers[1..]); }
        assert Data(answers[..0]) == [];
      } else {
        WholeTurn(answers[0]);
        assert forall i :: 0 <= i < k - 1 ==> answers[1..][i] == answers[i + 1];
        CopyMovesUntilItEnds(e, answers[1..], k - 1);
        DataOfFirst(answers, k);
        hide Copied, Data;
        assert k < |answers| ==> answers[1..][k - 1] == answers[k];
        assert d.accepted + answers[0].data + Data(answers[1..]) == d.accepted + (answers[0].data + Data(answers[1..]));
        assert d.accepted + answers[0].data + Data(answers[1..][..k - 1]) == d.accepted + (answers[0].data + Data(answers[1..][..k - 1]));
      }
    }
  }

  // ---- both directions, interleaved --------------------------------------------------------

  /** Both copies: bytes read from b go into a, and the other way round. */
  datatype Pair = Pair(intoA: Direction, intoB: Direction) {
    predicate Returned() { intoA.phase.Finished? && intoB.phase.Finished? }
  }

  datatype Action = Action(intoA: bool, io: IO)

  function Spliced(p: Pair, actions: seq<Action>): Pair
    decreases actions
  {
    if actions == [] then p
    else
      var a := actions[0];
      Spliced(if a.intoA then Pair(p.intoA.Step(a.io), p.intoB) else Pair(p.intoA, p.intoB.Step(a.io)), actions[1..])
  }

  function Start(counted: bool): Pair { Pair(Fresh(counted), Fresh(counted)) }

  /** Bytes taken by the destination that the counter has not been told of yet. */
  function Uncounted(d: Direction): int {
    if d.phase.Counting? && d.phase.n > 0 then d.phase.n else 0
  }

  function Unaccounted(d: Direction): int {
    if (d.phase.Counting? || d.phase.Accounting?) && 0 <= d.phase.n <= d.phase.size then d.phase.n else 0
  }

  ghost predicate BytesOk(d: Direction) {
    && (d.phase.Reading? ==> d.read == d.accepted)
    && (d.phase.Writing? ==> d.phase.buf != [] && d.read == d.accepted + d.phase.buf)
    && d.accepted <= d.read
    && (d.phase.Counting? || d.phase.Accounting? ==> (d.phase.n == d.phase.size ==> d.read == d.accepted) && d.phase.size > 0)
  }

  ghost predicate TotalsOk(d: Direction) {
    && (d.honest ==> d.written + Unaccounted(d) == |d.accepted|)
    && (d.counted && d.honest ==> d.counter + Uncounted(d) == |d.accepted|)
    && (d.counted ==> if d.over then d.counter + Uncounted(d) > d.written + Unaccounted(d)
                      else d.counter + Uncounted(d) == d.written + Unaccounted(d))
    && (!d.counted ==> d.counter == 0)
    && (d.over ==> !d.honest)
    && (d.phase.Reading? || d.phase.Writing? ==> d.honest)
    && (d.honest && (d.phase.Counting? || d.phase.Accounting?) ==> 0 <= d.phase.n <= d.phase.size)
    && (!d.honest && (d.phase.Counting? || d.phase.Accounting?) ==> !(0 <= d.phase.n <= d.phase.size))
    && (d.phase.Counting? || d.phase.Accounting? ==> (d.over <==> d.phase.n > d.phase.size))
    && (d.closed <==> d.phase.Finished?)
  }

  lemma WriteKeepsBytes(d: Direction, taken: nat, n: int, failed: bool)
    requires BytesOk(d) && d.phase.Writing?
    ensures BytesOk(d.DoWrite(taken, n, failed)) && d.accepted <= d.DoWrite(taken, n, failed).accepted
  {
    var buf := d.phase.buf;
    var e := d.DoWrite(taken, n, failed);
    var k := |e.accepted| - |d.accepted|;
    assert e.accepted == d.accepted + buf[..k];
    assert d.read == d.accepted + buf[..k] + buf[k..];
    assert buf[..|buf|] == buf;
  }

  lemma StepKeepsBytes(d: Direction, io: IO)
    requires BytesOk(d)
    ensures BytesOk(d.Step(io)) && d.accepted <= d.Step(io).accepted
  {
    match d.phase {
      case Writing(buf, _) =>
        assert buf[..|buf|] == buf;
        WriteKeepsBytes(d, io.taken, io.n, io.failed);
      case Reading =>
      case Counting(_, _, _, _) =>
      case Accounting(_, _, _, _) =>
      case Closing =>
      case Finished =>
    }
  }

  lemma StepKeepsTotals(d: Direction, io: IO)
    requires TotalsOk(d) && BytesOk(d)
    ensures TotalsOk(d.Step(io)) && d.Step(io).counted == d.counted
  {
  }

  ghost predicate Ok(p: Pair, counted: bool) {
    && BytesOk(p.intoA) && TotalsOk(p.intoA) && p.intoA.counted == counted
    && BytesOk(p.intoB) && TotalsOk(p.intoB) && p.intoB.counted == counted
  }

  lemma {:induction false} SplicedKeeps(p: Pair, actions: seq<Action>, counted: bool)
    requires Ok(p, counted)
    ensures Ok(Spliced(p, actions), counted)
    decreases actions
  {
    if actions != [] {
      var a := actions[0];
      if a.intoA {
        StepKeepsBytes(p.intoA, a.io);
        StepKeepsTotals(p.intoA, a.io);
      } else {
        StepKeepsBytes(p.intoB, a.io);
        StepKeepsTotals(p.intoB, a.io);
      }
      hide BytesOk, TotalsOk, Direction.Step;
      SplicedKeeps(if a.intoA then Pair(p.intoA.Step(a.io), p.intoB) else Pair(p.intoA, p.intoB.Step(a.io)), actions[1..], counted);
    }
  }

  /** Each side has been given a prefix of what the other was read for, and the counter is exact. */
  ghost predicate Exact(d: Direction) {
    d.accepted <= d.read && (d.counted && d.honest ==> d.counter + Uncounted(d) == |d.accepted|)
  }

  /** A direction that is over: closed, its total exact, and its counter exact unless a Write claimed more than it was given. */
  ghost predicate Settled(d: Direction) {
    d.closed && (d.honest ==> d.written == |d.accepted|) && (d.counted ==> (d.counter == d.written <==> !d.over))
  }

  lemma InvariantMeans(d: Direction)
    requires BytesOk(d) && TotalsOk(d)
    ensures Exact(d) && (d.phase.Finished? ==> Settled(d))
  {
  }

  lemma FreshIsOk(counted: bool)
    ensures Ok(Start(counted), counted)
  {
  }

  /** At every moment of every interleaving both directions are exact, and once the splice returns both are settled. */
  lemma SpliceIsExact(counted: bool, actions: seq<Action>)
    ensures var p := Spliced(Start(counted), actions);
            Exact(p.intoA) && Exact(p.intoB) && (p.Returned() ==> Settled(p.intoA) && Settled(p.intoB))
  {
    hide Spliced, BytesOk, TotalsOk, Exact, Settled, Fresh;
    FreshIsOk(counted);
    SplicedKeeps(Start(counted), actions, counted);
    InvariantMeans(Spliced(Start(counted), actions).intoA);
    InvariantMeans(Spliced(Start(counted), actions).intoB);
  }

  lemma FiveSteps(p: Pair, a: Action)
    requires a.intoA
    ensures Spliced(p, [a, a, a, a, a]) ==
            Pair(p.intoA.Step(a.io).Step(a.io).Step(a.io).Step(a.io).Step(a.io), p.intoB)
  {
    hide Direction.Step;
    assert [a, a, a, a, a][1..] == [a, a, a, a] && [a, a, a, a][1..] == [a, a, a] && [a, a, a][1..] == [a, a] && [a, a][1..] == [a];
    assert [a][1..] == [];
    var q := Pair(p.intoA.Step(a.io).Step(a.io), p.intoB);
    assert Spliced(p, [a, a, a, a, a]) == Spliced(q, [a, a, a]);
    var r := Pair(q.intoA.Step(a.io).Step(a.io), p.intoB);
    assert Spliced(q, [a, a, a]) == Spliced(r, [a]);
  }

  /** A direction starts to close for one of three causes, and on each of them; and what it has begun it finishes. */
  lemma StepClosesIff(d: Direction, io: IO)
    ensures d.Step(io).phase.Closing? <==>
            match d.phase
            case Reading => io.data == [] && io.last
            case Accounting(size, last, n, failed) => last || failed || n != size
            case _ => false
    ensures d.phase.Closing? ==> d.Step(io) == d.(phase := Finished, closed := true)
    ensures d.phase.Reading? && io.data != [] ==> d.Step(io).phase == Writing(io.data, io.last) && d.Step(io).read == d.read + io.data
  {
  }

  /** One Write that claims more than it was given, and the counter parts from the returned total for good. */
  lemma OverReportingPartsCounterFromTotal() returns (actions: seq<Action>)
    ensures var p := Spliced(Start(true), actions); p.Returned() && p.intoA.counter == 2 && p.intoA.written == 0
  {
    var lie := IO([1], true, 0, 2, false);
    var a, b := Action(true, lie), Action(false, IO([], true, 0, 0, false));
    actions := [b, b, a, a, a, a, a];
    var p := Start(true);
    assert Spliced(p, actions) == Spliced(Pair(p.intoA, p.intoB.Step(b.io).Step(b.io)), [a, a, a, a, a]) by {
      assert actions[1..] == [b, a, a, a, a, a] && actions[1..][1..] == [a, a, a, a, a];
    }
    var d := p.intoA;
    assert d.Step(lie).Step(lie).Step(lie).Step(lie).phase == Closing;
    FiveSteps(Pair(d, p.intoB.Step(b.io).Step(b.io)), a);
  }

  /** A direction but for its counting. */
  function Bare(d: Direction): Direction { d.(counted := false, counter := 0) }

  lemma BareRead(d: Direction, data: Bytes, last: bool)
    ensures Bare(d.DoRead(data, last)) == Bare(d).DoRead(data, last)
  {
  }

  lemma BareWrite(d: Direction, taken: nat, n: int, failed: bool)
    ensures Bare(d.DoWrite(taken, n, failed)) == Bare(d).DoWrite(taken, n, failed)
  {
  }

  lemma BareCount(d: Direction)
    ensures Bare(d.DoCount()) == Bare(d).DoCount()
  {
  }

  lemma BareAccount(d: Direction)
    ensures Bare(d.DoAccount()) == Bare(d).DoAccount()
  {
  }

  lemma BareClose(d: Direction)
    ensures Bare(d.DoClose()) == Bare(d).DoClose()
  {
  }

  lemma BareStep(d: Direction, io: IO)
    ensures Bare(d.Step(io)) == Bare(d).Step(io)
  {
    hide Direction.DoRead, Direction.DoWrite, Direction.DoCount, Direction.DoAccount, Direction.DoClose;
    BareRead(d, io.data, io.last);
    BareWrite(d, io.taken, io.n, io.failed);
    BareCount(d);
    BareAccount(d);
    BareClose(d);
  }

  /** Counting changes nothing but the counters. */
  lemma {:induction false} CountingMovesTheSameBytes(p: Pair, actions: seq<Action>)
    ensures var q := Spliced(p, actions);
            Spliced(Pair(Bare(p.intoA), Bare(p.intoB)), actions) == Pair(Bare(q.intoA), Bare(q.intoB))
    decreases actions
  {
    if actions != [] {
      var a := actions[0];
      BareStep(p.intoA, a.io);
      BareStep(p.intoB, a.io);
      hide Direction.Step, Bare;
      CountingMovesTheSameBytes(if a.intoA then Pair(p.intoA.Step(a.io), p.intoB) else Pair(p.intoA, p.intoB.Step(a.io)), actions[1..]);
    }
  }
}
