/**
 What a reader's error says about the bytes that were delivered: how far they were the writer's
 own frames, and what was wrong with what came next.
 */
module FrameFaults {
  import opened Common
  import opened FrameCodec
  import opened FrameReader
  import opened FrameTheorems

  /** The bytes a reader has taken whole: the prefix, once known, and the frames it has opened. */
  function Taken(r: Reader, w: Writer, seal: Cipher): Bytes
    requires r.frames <= |w.log|
  {
    if r.prefix.None? then [] else r.prefix.value + Frames(seal, r.prefix.value, w.log[..r.frames])
  }

  /** The two bytes at the head of a frame, most significant first. */
  function SizeField(b: Bytes): int
    requires |b| >= 2
  {
    var high: int, low: int := b[0], b[1];
    256 * high + low
  }

  /** The bytes stop in the middle, or the transport failed; a clean close between two of them is no error. */
  ghost predicate CutShort(tail: Bytes, end: WireEnd, cause: Cause) {
    if end.Broken? then cause == Failed else cause == Truncated && tail != []
  }

  /** Error `e` tells what is wrong with `tail`, the bytes behind what reader `r` has taken. */
  ghost predicate Explains(e: ReadError, r: Reader, tail: Bytes) {
    match e
    case EndOfStream => tail == [] && r.end.Eof?
    case CounterExhausted => r.frames >= MAX_UINT64
    case NoPrefix(cause) => r.prefix.None? && |tail| < NONCE_PREFIX_SIZE && CutShort(tail, r.end, cause)
    case NoHeader(cause) => r.prefix.Some? && |tail| < FRAME_LEN_SIZE && CutShort(tail, r.end, cause)
    case TooShort(size) => |tail| >= 2 && size == SizeField(tail) && size < OVERHEAD
    case NoBody(cause) =>
      |tail| >= 2 && OVERHEAD <= SizeField(tail) && |tail| - 2 < SizeField(tail)
      && cause == if r.end.Broken? then Failed else if |tail| == 2 then AtEof else Truncated
    case Forged(counter) => counter == r.frames && |tail| >= 2 && OVERHEAD <= SizeField(tail) <= |tail| - 2
  }

  /** What has been delivered is what was taken and what is still to come, or an error explains the rest. */
  ghost predicate Accounted(r: Reader, w: Writer, seal: Cipher, all: Bytes) {
    && r.frames <= |w.log|
    && (r.err.None? ==> all == Taken(r, w, seal) + r.incoming)
    && (r.err.Some? ==> exists tail :: all == Taken(r, w, seal) + tail && Explains(r.err.value, r, tail))
  }

  lemma SizeIsItsHeader(h: Bytes)
    requires |h| == 2
    ensures Header(FrameSize(h)) == h && FrameSize(h) == SizeField(h)
  {
    var high: int, low: int := h[0], h[1];
    var n := high * 256 + low;
    assert n / 256 == high && n % 256 == low;
    assert BigEndian(n, 2) == BigEndian(n / 256, 1) + [n % 256];
    assert BigEndian(n / 256, 1) == BigEndian(n / 256 / 256, 0) + [n / 256 % 256];
  }

  /** A sealed body behind the header that gives its size is a frame. */
  lemma WholeFrameIs(tail: Bytes, seal: Cipher, prefix: Bytes, k: nat, chunk: Bytes)
    requires |tail| >= 2 && FrameSize(tail[..2]) <= |tail| - 2
    requires tail[2..][..FrameSize(tail[..2])] == seal(Nonce(prefix, k), chunk)
    ensures var n := FrameSize(tail[..2]); tail == Frame(seal, prefix, k, chunk) + tail[2..][n..]
  {
    hide Nonce, BigEndian, FrameSize;
    SizeIsItsHeader(tail[..2]);
    var n := FrameSize(tail[..2]);
    assert tail == tail[..2] + (tail[2..][..n] + tail[2..][n..]);
  }

  lemma FramesOneMore(seal: Cipher, prefix: Bytes, log: seq<Bytes>, k: nat)
    requires k < |log|
    ensures Frames(seal, prefix, log[..k + 1]) == Frames(seal, prefix, log[..k]) + Frame(seal, prefix, k, log[k])
  {
    hide Frame;
    assert log[..k + 1][..k] == log[..k];
  }

  lemma NoFrames(seal: Cipher, prefix: Bytes, log: seq<Bytes>)
    ensures Frames(seal, prefix, log[..0]) == []
  {
  }

  lemma TakePrefixAccounts(r: Reader, w: Writer, seal: Cipher, all: Bytes)
    requires r.err.None? && r.prefix.None? && r.frames == 0 && Accounted(r, w, seal, all)
    ensures Accounted(r.TakePrefix(), w, seal, all)
  {
    hide Frames;
    assert Frames(seal, [], w.log[..0]) == [] by { NoFrames(seal, [], w.log); }
    var u := r.TakePrefix();
    if u.err.Some? {
      assert all == Taken(u, w, seal) + r.incoming && Explains(u.err.value, u, r.incoming);
    } else {
      NoFrames(seal, u.prefix.value, w.log);
      assert u.prefix.value + [] == u.prefix.value;
      assert u.prefix.value + u.incoming == r.incoming;
    }
  }

  lemma TakeFrameFails(r: Reader, w: Writer, seal: Cipher, all: Bytes, table: Table)
    requires r.err.None? && r.prefix.Some? && Accounted(r, w, seal, all) && r.TakeFrame(seal, table).err.Some?
    ensures Accounted(r.TakeFrame(seal, table), w, seal, all)
  {
    hide Frames, Open, Nonce;
    var u := r.TakeFrame(seal, table);
    var tail := r.incoming;
    if |tail| >= 2 { SizeIsItsHeader(tail[..2]); }
    hide FrameSize;
    assert all == Taken(u, w, seal) + tail && Explains(u.err.value, u, tail);
  }

  lemma TakeFrameOpens(r: Reader, w: Writer, seal: Cipher, all: Bytes)
    requires r.err.None? && r.prefix.Some? && Accounted(r, w, seal, all) && |w.log| <= MAX_UINT64
    requires |r.prefix.value| == |w.prefix| && r.frames < MAX_UINT64
    requires r.TakeFrame(seal, TableOf(w.prefix, w.log)).err.None?
    ensures Accounted(r.TakeFrame(seal, TableOf(w.prefix, w.log)), w, seal, all)
  {
    hide Frames, Frame, TableOf, Nonce, BigEndian, FrameSize;
    var u := r.TakeFrame(seal, TableOf(w.prefix, w.log));
    var prefix, k, tail := r.prefix.value, r.frames, r.incoming;
    TableHoldsLog(w.prefix, w.log, prefix, k);
    WholeFrameIs(tail, seal, prefix, k, w.log[k]);
    FramesOneMore(seal, prefix, w.log, k);
    var before, f := Frames(seal, prefix, w.log[..k]), Frame(seal, prefix, k, w.log[k]);
    assert (prefix + before) + (f + u.incoming) == (prefix + (before + f)) + u.incoming;
  }

  lemma ReadFrameAccounts(r: Reader, w: Writer, seal: Cipher, all: Bytes)
    requires r.err.None? && r.plain == [] && ReaderProper(r, w) && Accounted(r, w, seal, all)
    requires |w.prefix| == NONCE_PREFIX_SIZE && |w.log| <= MAX_UINT64
    ensures Accounted(r.ReadFrame(seal, TableOf(w.prefix, w.log)), w, seal, all)
  {
    hide Concat, TableOf, Frames, Reader.TakeFrame;
    var table := TableOf(w.prefix, w.log);
    if r.frames >= MAX_UINT64 {
      var u := r.ReadFrame(seal, table);
      assert all == Taken(u, w, seal) + r.incoming && Explains(u.err.value, u, r.incoming);
    } else {
      if r.prefix.None? { TakePrefixAccounts(r, w, seal, all); }
      var p := r.TakePrefix();
      hide Accounted;
      if p.err.None? && p.prefix.Some? {
        if p.TakeFrame(seal, table).err.Some? {
          TakeFrameFails(p, w, seal, all, table);
        } else {
          TakeFrameOpens(p, w, seal, all);
        }
      }
    }
  }

  lemma {:induction false} FillAccounts(r: Reader, w: Writer, seal: Cipher, all: Bytes)
    requires ReaderProper(r, w) && Accounted(r, w, seal, all) && |w.prefix| == NONCE_PREFIX_SIZE && |w.log| <= MAX_UINT64
    ensures Accounted(r.Fill(seal, TableOf(w.prefix, w.log)), w, seal, all)
    decreases |r.incoming|
  {
    hide ReaderProper, TableOf, Reader.ReadFrame, Accounted;
    var table := TableOf(w.prefix, w.log);
    if r.err.Some? || r.plain != [] {
    } else {
      ReadFrameAccounts(r, w, seal, all);
      ReadFrameKeepsProper(r, w, seal);
      r.ReadFrameConsumes(seal, table);
      var u := r.ReadFrame(seal, table);
      if u.err.None? {
        FillAccounts(u, w, seal, all);
      }
    }
  }

  lemma TakeAccounts(r: Reader, w: Writer, seal: Cipher, all: Bytes, cap: nat)
    requires Accounted(r, w, seal, all) && r.err.None?
    ensures Accounted(r.Take(cap).0, w, seal, all)
  {
  }

  lemma ReadAccounts(r: Reader, w: Writer, seal: Cipher, all: Bytes, cap: nat)
    requires ReaderProper(r, w) && Accounted(r, w, seal, all) && |w.prefix| == NONCE_PREFIX_SIZE && |w.log| <= MAX_UINT64
    ensures Accounted(r.Read(seal, TableOf(w.prefix, w.log), cap).0, w, seal, all)
  {
    hide ReaderProper, TableOf, Reader.Fill, Accounted;
    FillAccounts(r, w, seal, all);
    var u := r.Fill(seal, TableOf(w.prefix, w.log));
    if u.err.None? { TakeAccounts(u, w, seal, all, cap); }
  }

  lemma WriteAccounts(r: Reader, w: Writer, u: Writer, seal: Cipher, all: Bytes)
    requires Accounted(r, w, seal, all) && w.log <= u.log
    ensures Accounted(r, u, seal, all)
  {
    hide Frames;
    assert u.log[..r.frames] == w.log[..r.frames];
  }

  lemma WriteExtends(w: Writer, seal: Cipher, p: Bytes, fault: Option<Fault>)
    requires w.Valid(seal)
    ensures w.log <= w.Write(seal, p, fault).0.log
  {
    hide Writer.Write, Writer.Valid;
    WriteIsGood(w, seal, p, fault);
  }

  lemma {:induction false} RunAccounts(l: Link, seal: Cipher, prefix: Bytes, actions: seq<Action>, all: Bytes)
    requires Inv(l, seal, prefix) && |prefix| == NONCE_PREFIX_SIZE && Accounted(l.r, l.w, seal, all)
    ensures Accounted(Run(l, seal, actions).r, Run(l, seal, actions).w, seal, all)
    decreases actions
  {
    hide Accounted, Reader.Read, Writer.Write, ReaderProper, Concat, TableOf;
    if actions == [] {
    } else {
      ApplyKeepsInv(l, seal, prefix, actions[0]);
      match actions[0] {
        case Read(cap) => ReadAccounts(l.r, l.w, seal, all, cap);
        case Write(p, fault) =>
          WriteExtends(l.w, seal, p, fault);
          WriteAccounts(l.r, l.w, l.w.Write(seal, p, fault).0, seal, all);
      }
      hide Inv;
      RunAccounts(Apply(l, seal, actions[0]), seal, prefix, actions[1..], all);
    }
  }

  /**
   Over any run and any bytes delivered, a reader's error accounts for all of them: they begin
   with the prefix it took and exactly the frames it opened, each the writer's own, and what
   comes behind is what the error names.  So a clean end means that nothing but whole frames of
   the writer's came, and nothing after them.
   */
  lemma ErrorsAreExplained(seal: Cipher, prefix: Bytes, incoming: Bytes, end: WireEnd, actions: seq<Action>)
    requires |prefix| == NONCE_PREFIX_SIZE
    ensures var l := Run(Start(prefix, incoming, end), seal, actions);
            l.r.err.Some? ==>
              && l.r.frames <= |l.w.log|
              && (exists tail :: incoming == Taken(l.r, l.w, seal) + tail && Explains(l.r.err.value, l.r, tail))
              && (l.r.err == Some(EndOfStream) ==> incoming == Taken(l.r, l.w, seal) && l.r.end.Eof?)
  {
    var s := Start(prefix, incoming, end);
    assert Inv(s, seal, prefix) by { RunKeepsInv(s, seal, prefix, []); }
    assert Taken(s.r, s.w, seal) + incoming == incoming;
    RunAccounts(s, seal, prefix, actions, incoming);
    hide Run, Taken;
  }
}
