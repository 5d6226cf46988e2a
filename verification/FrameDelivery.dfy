/** Delivery over an intact wire: everything written comes out, into buffers of any size. */
module FrameDelivery {
  import opened Common
  import opened FrameCodec
  import opened FrameReader
  import opened FrameTheorems

  /** Read after read, into buffers of the given sizes. */
  function ReadAll(r: Reader, seal: Cipher, table: Table, caps: seq<nat>): Reader
    decreases caps
  {
    if caps == [] then r else ReadAll(r.Read(seal, table, caps[0]).0, seal, table, caps[1..])
  }

  /** How far into the wire the first `k` frames reach. */
  function Offset(seal: Cipher, prefix: Bytes, log: seq<Bytes>, k: nat): nat
    requires k <= |log|
  {
    NONCE_PREFIX_SIZE + |Frames(seal, prefix, log[..k])|
  }

  lemma {:induction false} FramesMonotone(seal: Cipher, prefix: Bytes, log: seq<Bytes>, k: nat)
    requires k <= |log|
    ensures Frames(seal, prefix, log[..k]) <= Frames(seal, prefix, log)
    decreases |log|
  {
    hide Frame;
    if k < |log| {
      var short := log[..|log| - 1];
      assert short[..k] == log[..k];
      FramesMonotone(seal, prefix, short, k);
    } else {
      TakeAll(log);
    }
  }

  lemma Middle(p: Bytes, a: Bytes, f: Bytes, all: Bytes)
    requires a + f <= all
    ensures (p + all)[|p| + |a|..|p| + |a| + |f|] == f
  {
  }

  /** The k-th frame stands in the stream right behind the first k. */
  lemma FrameInStream(seal: Cipher, prefix: Bytes, log: seq<Bytes>, k: nat)
    requires k < |log| && |prefix| == NONCE_PREFIX_SIZE
    ensures var f := Frame(seal, prefix, k, log[k]);
            && Offset(seal, prefix, log, k + 1) == Offset(seal, prefix, log, k) + |f| <= |Encoded(seal, prefix, log)|
            && Encoded(seal, prefix, log)[Offset(seal, prefix, log, k)..Offset(seal, prefix, log, k + 1)] == f
  {
    hide Frame;
    var more := log[..k + 1];
    assert more[..|more| - 1] == log[..k] && more[|more| - 1] == log[k];
    FramesMonotone(seal, prefix, log, k + 1);
    var a, f := Frames(seal, prefix, log[..k]), Frame(seal, prefix, k, log[k]);
    assert Frames(seal, prefix, more) == a + f;
    Middle(prefix, a, f, Frames(seal, prefix, log));
  }

  /** A reader at the boundary behind `frames` frames of an intact, possibly cut, stream. */
  ghost predicate AtBoundary(r: Reader, w: Writer, seal: Cipher) {
    && r.end.Eof? && r.frames <= |w.log|
    && (match r.prefix
        case None => r.frames == 0 && r.incoming == w.wire
        case Some(p) =>
          && p == w.prefix && w.log != []
          && Offset(seal, w.prefix, w.log, r.frames) <= |w.wire|
          && r.incoming == w.wire[Offset(seal, w.prefix, w.log, r.frames)..])
  }

  /** The error that ends an intact stream: a reader that has used up its counter says so instead. */
  function FinalError(w: Writer): ReadError {
    if |w.log| >= MAX_UINT64 then CounterExhausted else EndOfStream
  }

  /** Where an intact reader can stop: not before the last frame the transport took whole. */
  ghost predicate StoppedProperly(r: Reader, w: Writer) {
    r.err.Some? ==> w.done <= r.frames && (!w.failed ==> r.err == Some(FinalError(w)))
  }

  lemma EmptyFrames(seal: Cipher, prefix: Bytes)
    ensures Frames(seal, prefix, []) == []
  {
  }

  lemma TakePrefixAtBoundary(r: Reader, w: Writer, seal: Cipher)
    requires w.Valid(seal) && AtBoundary(r, w, seal) && r.err.None? && r.frames < MAX_UINT64
    ensures var p := r.TakePrefix();
            if p.err.Some? then StoppedProperly(p, w) && p.frames == 0
            else AtBoundary(p, w, seal) && p.prefix.Some? && p.frames == r.frames && p.plain == r.plain && p.delivered == r.delivered
  {
    hide Frames;
    if r.prefix.None? {
      assert Frames(seal, w.prefix, w.log[..0]) == [] by { assert w.log[..0] == []; EmptyFrames(seal, w.prefix); }
    }
  }

  lemma SameMiddle(a: Bytes, b: Bytes, i: nat, n: nat)
    requires a <= b && i + n <= |a|
    ensures a[i..][..n] == b[i..i + n]
  {
  }

  lemma HeadOfSlice(b: Bytes, i: nat, n: nat, k: nat)
    requires i + n <= |b| && k <= n
    ensures b[i..i + n][..k] == b[i..i + k]
  {
  }

  lemma SplitFrame(incoming: Bytes, f: Bytes)
    requires FRAME_LEN_SIZE <= |f| && f <= incoming
    ensures incoming[..FRAME_LEN_SIZE] == f[..FRAME_LEN_SIZE]
    ensures incoming[FRAME_LEN_SIZE..][..|f| - FRAME_LEN_SIZE] == f[FRAME_LEN_SIZE..]
  {
  }

  /** The whole of frame `frames` is on the wire. */
  lemma WholeFrameOpens(r: Reader, w: Writer, seal: Cipher)
    requires w.Valid(seal) && Lawful(seal) && AtBoundary(r, w, seal) && r.err.None? && r.prefix.Some?
    requires r.frames < |w.log| && Offset(seal, w.prefix, w.log, r.frames + 1) <= |w.wire|
    ensures var u := r.TakeFrame(seal, TableOf(w.prefix, w.log));
            u.err.None? && AtBoundary(u, w, seal) && u.frames == r.frames + 1
  {
    hide Frames, TableOf, Nonce, FrameSize, BigEndian, Encoded;
    var k := r.frames;
    var f := Frame(seal, w.prefix, k, w.log[k]);
    var size := |f| - FRAME_LEN_SIZE;
    FrameInStream(seal, w.prefix, w.log, k);
    SameMiddle(w.wire, Encoded(seal, w.prefix, w.log), Offset(seal, w.prefix, w.log, k), |f|);
    assert r.incoming[..|f|] == f;
    LengthFieldsAreExact(seal, w.prefix, k, w.log[k]);
    SplitFrame(r.incoming, f);
    TableHoldsLog(w.prefix, w.log, w.prefix, k);
    assert r.incoming[FRAME_LEN_SIZE..][size..] == r.incoming[|f|..];
  }

  /** A frame that is not whole on the wire was not counted as done. */
  lemma DoneReach(w: Writer, seal: Cipher, k: nat)
    requires w.Valid(seal) && k < |w.log| && |w.wire| < Offset(seal, w.prefix, w.log, k + 1)
    ensures w.done <= k && w.failed
  {
    hide Frame;
    FrameInStream(seal, w.prefix, w.log, k);
    if k < w.done {
      assert w.log[..w.done][..k + 1] == w.log[..k + 1];
      FrameInStream(seal, w.prefix, w.log[..w.done], k);
    }
  }

  /** Less than the whole of frame `frames` is on the wire, because the transport was lost in it. */
  lemma CutFrameStops(r: Reader, w: Writer, seal: Cipher, table: Table)
    requires w.Valid(seal) && Lawful(seal) && AtBoundary(r, w, seal) && r.err.None? && r.prefix.Some?
    requires r.frames < |w.log| && |w.wire| < Offset(seal, w.prefix, w.log, r.frames + 1)
    ensures var u := r.TakeFrame(seal, table); u.err.Some? && StoppedProperly(u, w) && u.frames == r.frames
  {
    hide Frames, FrameSize, BigEndian, Encoded, Nonce;
    var k := r.frames;
    var f := Frame(seal, w.prefix, k, w.log[k]);
    FrameInStream(seal, w.prefix, w.log, k);
    LengthFieldsAreExact(seal, w.prefix, k, w.log[k]);
    if |r.incoming| >= FRAME_LEN_SIZE {
      var stream, at := Encoded(seal, w.prefix, w.log), Offset(seal, w.prefix, w.log, k);
      SameMiddle(w.wire, stream, at, FRAME_LEN_SIZE);
      HeadOfSlice(stream, at, |f|, FRAME_LEN_SIZE);
      assert r.incoming[..FRAME_LEN_SIZE] == f[..FRAME_LEN_SIZE];
    }
    DoneReach(w, seal, k);
  }

  /** Nothing is left behind the last frame. */
  lemma StreamEnds(r: Reader, w: Writer, seal: Cipher, table: Table)
    requires w.Valid(seal) && AtBoundary(r, w, seal) && r.err.None? && r.prefix.Some? && r.frames == |w.log| < MAX_UINT64
    ensures var u := r.TakeFrame(seal, table); u.err == Some(EndOfStream) && StoppedProperly(u, w) && u.frames == r.frames
  {
    hide Frames;
    TakeAll(w.log);
    assert |w.wire| <= |Encoded(seal, w.prefix, w.log)| == Offset(seal, w.prefix, w.log, |w.log|);
  }

  lemma TakeFrameAtBoundary(r: Reader, w: Writer, seal: Cipher)
    requires w.Valid(seal) && Lawful(seal) && AtBoundary(r, w, seal) && r.err.None? && r.prefix.Some? && r.frames < MAX_UINT64
    ensures var u := r.TakeFrame(seal, TableOf(w.prefix, w.log));
            if u.err.Some? then StoppedProperly(u, w) else AtBoundary(u, w, seal)
  {
    hide Frames, TableOf, Reader.TakeFrame, Encoded, StoppedProperly;
    if r.frames == |w.log| {
      StreamEnds(r, w, seal, TableOf(w.prefix, w.log));
    } else if Offset(seal, w.prefix, w.log, r.frames + 1) <= |w.wire| {
      WholeFrameOpens(r, w, seal);
    } else {
      CutFrameStops(r, w, seal, TableOf(w.prefix, w.log));
    }
  }

  lemma ReadFrameAtBoundary(r: Reader, w: Writer, seal: Cipher)
    requires w.Valid(seal) && Lawful(seal) && AtBoundary(r, w, seal) && r.err.None?
    ensures var u := r.ReadFrame(seal, TableOf(w.prefix, w.log));
            if u.err.Some? then StoppedProperly(u, w) else AtBoundary(u, w, seal)
  {
    hide Frames, TableOf, Reader.TakeFrame, Reader.TakePrefix, Encoded;
    if r.frames < MAX_UINT64 {
      TakePrefixAtBoundary(r, w, seal);
      if r.TakePrefix().err.None? {
        TakeFrameAtBoundary(r.TakePrefix(), w, seal);
      }
    }
  }

  /** An intact reader between two reads. */
  ghost predicate Intact(r: Reader, w: Writer, seal: Cipher) {
    && ReaderProper(r, w)
    && (if r.err.None? then AtBoundary(r, w, seal) else r.plain == [] && StoppedProperly(r, w))
  }

  lemma FailingKeepsPlain(r: Reader, seal: Cipher, table: Table)
    requires r.err.None? && r.ReadFrame(seal, table).err.Some?
    ensures r.ReadFrame(seal, table).plain == r.plain
  {
  }

  lemma {:induction false} FillStaysIntact(r: Reader, w: Writer, seal: Cipher)
    requires w.Valid(seal) && Lawful(seal) && Intact(r, w, seal)
    ensures Intact(r.Fill(seal, TableOf(w.prefix, w.log)), w, seal)
    decreases |r.incoming|
  {
    hide AtBoundary, ReaderProper, StoppedProperly, TableOf, Reader.ReadFrame, Encoded;
    var table := TableOf(w.prefix, w.log);
    if r.err.None? && r.plain == [] {
      var u := r.ReadFrame(seal, table);
      ReadFrameAtBoundary(r, w, seal);
      ReadFrameKeepsProper(r, w, seal);
      r.ReadFrameConsumes(seal, table);
      if u.err.None? {
        FillStaysIntact(u, w, seal);
      } else {
        FailingKeepsPlain(r, seal, table);
      }
    }
  }

  lemma ReadStaysIntact(r: Reader, w: Writer, seal: Cipher, cap: nat)
    requires w.Valid(seal) && Lawful(seal) && Intact(r, w, seal)
    ensures Intact(r.Read(seal, TableOf(w.prefix, w.log), cap).0, w, seal)
  {
    hide ReaderProper, StoppedProperly, TableOf, Reader.Fill, Encoded;
    FillStaysIntact(r, w, seal);
    TakeKeepsProper(r.Fill(seal, TableOf(w.prefix, w.log)), w, cap);
  }

  lemma {:induction false} ReadAllStaysIntact(r: Reader, w: Writer, seal: Cipher, caps: seq<nat>)
    requires w.Valid(seal) && Lawful(seal) && Intact(r, w, seal)
    ensures Intact(ReadAll(r, seal, TableOf(w.prefix, w.log), caps), w, seal)
    decreases caps
  {
    hide Intact, TableOf, Reader.Read;
    if caps == [] {
    } else {
      ReadStaysIntact(r, w, seal, caps[0]);
      ReadAllStaysIntact(r.Read(seal, TableOf(w.prefix, w.log), caps[0]).0, w, seal, caps[1..]);
    }
  }

  lemma {:induction false} ReadAllStops(r: Reader, seal: Cipher, table: Table, caps: seq<nat>)
    requires r.err.Some?
    ensures ReadAll(r, seal, table, caps) == r
    decreases caps
  {
    if caps == [] {
    } else {
      ReadAllStops(r, seal, table, caps[1..]);
    }
  }

  /** Each read with room hands out at least one byte until there is an error. */
  lemma {:induction false} ReadAllProgresses(r: Reader, seal: Cipher, table: Table, caps: seq<nat>)
    requires forall i :: 0 <= i < |caps| ==> caps[i] > 0
    ensures var u := ReadAll(r, seal, table, caps); u.err.Some? || |u.delivered| >= |r.delivered| + |caps|
    decreases caps
  {
    hide Reader.Read;
    if caps == [] {
    } else {
      ReadMakesProgress(r, seal, table, caps[0]);
      var u := r.Read(seal, table, caps[0]).0;
      ReadAllProgresses(u, seal, table, caps[1..]);
      if u.err.Some? {
        ReadAllStops(u, seal, table, caps[1..]);
      }
    }
  }

  lemma DoneIsWithin(w: Writer, seal: Cipher)
    requires w.Valid(seal)
    ensures w.done <= |w.log| && (!w.failed ==> w.done == |w.log|)
  {
  }

  /**
   After any writes (`w` is any state they can leave), a reader of the intact wire that drains
   it, through buffers of any sizes, has handed out everything the writes reported and nothing
   that was not sealed; if no write failed that is exactly what was written, and the end is clean.
   More reads with room than there are bytes do drain it.
   */
  lemma IntactWireDeliversEverything(w: Writer, seal: Cipher, caps: seq<nat>)
    requires w.Valid(seal) && Lawful(seal)
    ensures var u := ReadAll(NewReader(w.wire, Eof), seal, TableOf(w.prefix, w.log), caps);
            && (u.err.Some? ==> Concat(w.log[..w.done]) <= u.delivered <= Concat(w.log))
            && (u.err.Some? && !w.failed ==> u.delivered == Concat(w.log) && u.err == Some(FinalError(w)))
            && ((forall i :: 0 <= i < |caps| ==> caps[i] > 0) && |caps| > |Concat(w.log)| ==> u.err.Some?)
  {
    hide Writer.Valid, TableOf, Encoded, Frames;
    var r, table := NewReader(w.wire, Eof), TableOf(w.prefix, w.log);
    var u := ReadAll(r, seal, table, caps);
    ReadAllStaysIntact(r, w, seal, caps);
    ConcatMonotone(w.log, u.frames);
    if u.err.Some? {
      assert u.delivered == Concat(w.log[..u.frames]);
      DoneIsWithin(w, seal);
      ConcatMonotone(w.log[..u.frames], w.done);
      assert w.log[..u.frames][..w.done] == w.log[..w.done];
      if !w.failed {
        TakeAll(w.log);
      }
    }
    if forall i :: 0 <= i < |caps| ==> caps[i] > 0 {
      ReadAllProgresses(r, seal, table, caps);
    }
  }

  /** The same over any run: with no fault, what is read is exactly what was offered to Write. */
  lemma EverythingWrittenIsRead(seal: Cipher, prefix: Bytes, incoming: Bytes, end: WireEnd, actions: seq<Action>, caps: seq<nat>)
    requires Lawful(seal) && |prefix| == NONCE_PREFIX_SIZE
    requires !Run(Start(prefix, incoming, end), seal, actions).w.failed
    ensures var l := Run(Start(prefix, incoming, end), seal, actions);
            var u := ReadAll(NewReader(l.w.wire, Eof), seal, TableOf(l.w.prefix, l.w.log), caps);
            u.err.Some? ==> u.delivered == l.offered && u.err == Some(FinalError(l.w))
  {
    hide Run, ReadAll, TableOf;
    var l := Run(Start(prefix, incoming, end), seal, actions);
    RunKeepsInv(Start(prefix, incoming, end), seal, prefix, actions);
    IntactWireDeliversEverything(l.w, seal, caps);
  }

  /** `k` one-byte writes, none of which the transport loses. */
  function Singles(k: nat): seq<Action> {
    if k == 0 then [] else Singles(k - 1) + [Write([0], None)]
  }

  lemma {:induction false} RunAppend(l: Link, seal: Cipher, a: seq<Action>, b: Action)
    ensures Run(l, seal, a + [b]) == Apply(Run(l, seal, a), seal, b)
    decreases a
  {
    if a == [] {
      assert (a + [b])[1..] == [];
    } else {
      assert (a + [b])[0] == a[0] && (a + [b])[1..] == a[1..] + [b];
      RunAppend(Apply(l, seal, a[0]), seal, a[1..], b);
    }
  }

  lemma OneMoreFrame(w: Writer, seal: Cipher)
    requires !w.failed && |w.log| < MAX_UINT64
    ensures var u := w.Write(seal, [0], None).0; !u.failed && |u.log| == |w.log| + 1
  {
  }

  lemma {:induction false} SinglesFillTheLog(l: Link, seal: Cipher, k: nat)
    requires !l.w.failed && l.w.log == [] && k <= MAX_UINT64
    ensures var w := Run(l, seal, Singles(k)).w; !w.failed && |w.log| == k
  {
    if k == 0 {
    } else {
      SinglesFillTheLog(l, seal, k - 1);
      RunAppend(l, seal, Singles(k - 1), Write([0], None));
      OneMoreFrame(Run(l, seal, Singles(k - 1)).w, seal);
    }
  }

  /** 2^64 - 1 frames, all of them delivered, and the stream ends in an exhausted counter where one frame fewer ends clean. */
  lemma FullStreamEndsInCounterError(seal: Cipher, prefix: Bytes, k: nat, caps: seq<nat>)
    requires Lawful(seal) && |prefix| == NONCE_PREFIX_SIZE && (k == MAX_UINT64 || k == MAX_UINT64 - 1)
    ensures var l := Run(Start(prefix, [], Eof), seal, Singles(k));
            var u := ReadAll(NewReader(l.w.wire, Eof), seal, TableOf(l.w.prefix, l.w.log), caps);
            && !l.w.failed && |l.w.log| == k
            && (u.err.Some? ==> u.delivered == l.offered && u.err == Some(if k == MAX_UINT64 then CounterExhausted else EndOfStream))
            && ((forall i :: 0 <= i < |caps| ==> caps[i] > 0) && |caps| > |l.offered| ==> u.err.Some?)
  {
    hide Run, ReadAll, TableOf, Singles;
    var s := Start(prefix, [], Eof);
    SinglesFillTheLog(s, seal, k);
    EverythingWrittenIsRead(seal, prefix, [], Eof, Singles(k), caps);
    RunKeepsInv(s, seal, prefix, Singles(k));
    IntactWireDeliversEverything(Run(s, seal, Singles(k)).w, seal, caps);
  }
}
