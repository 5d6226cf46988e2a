/** One direction of a tunnel: a writer, a reader, and a relay that delivers what it likes. */
module FrameTheorems {
  import opened Common
  import opened FrameCodec
  import opened FrameReader

  /** `offered` is every byte ever passed to Write, `reported` every byte a Write said it had written. */
  datatype Link = Link(w: Writer, r: Reader, offered: Bytes, reported: Bytes)

  datatype Action = Write(p: Bytes, fault: Option<Fault>) | Read(cap: nat)

  function Apply(l: Link, seal: Cipher, a: Action): Link {
    match a
    case Write(p, fault) =>
      var (w, n, _) := l.w.Write(seal, p, fault);
      Link(w, l.r, l.offered + p, l.reported + (if n <= |p| then p[..n] else p))
    case Read(cap) =>
      Link(l.w, l.r.Read(seal, TableOf(l.w.prefix, l.w.log), cap).0, l.offered, l.reported)
  }

  function Run(l: Link, seal: Cipher, actions: seq<Action>): Link
    decreases actions
  {
    if actions == [] then l else Run(Apply(l, seal, actions[0]), seal, actions[1..])
  }

  /** A fresh link over which the relay will deliver exactly `incoming`, whatever that is. */
  function Start(prefix: Bytes, incoming: Bytes, end: WireEnd): Link {
    Link(NewWriter(prefix), NewReader(incoming, end), [], [])
  }

  // ---- the writer's side of the invariant --------------------------------------------------

  ghost predicate WriterProper(w: Writer, seal: Cipher, offered: Bytes, reported: Bytes) {
    && w.Valid(seal)
    && reported == Concat(w.log[..w.done])
    && Concat(w.log) <= offered
    && (!w.failed ==> Concat(w.log) == offered)
  }

  /** The reader has opened the first `frames` chunks, in order, and handed them out but for `plain`. */
  ghost predicate ReaderProper(r: Reader, w: Writer) {
    && r.frames <= |w.log|
    && r.delivered + r.plain == Concat(w.log[..r.frames])
    && (r.frames > 0 ==> r.prefix == Some(w.prefix))
    && (r.prefix.Some? ==> |r.prefix.value| == NONCE_PREFIX_SIZE)
  }

  lemma TakeOfPrefix<T>(a: seq<T>, b: seq<T>, n: nat)
    requires a <= b && n <= |a|
    ensures a[..n] == b[..n]
  {
  }

  lemma PrefixesCompose(a: Bytes, b: Bytes, c: Bytes)
    requires a <= b
    ensures a <= b + c
  {
  }

  lemma NotFailedIsDone(w: Writer, seal: Cipher)
    requires w.Valid(seal) && !w.failed
    ensures w.log[..w.done] == w.log
  {
  }

  lemma WriteKeepsProper(l: Link, seal: Cipher, p: Bytes, fault: Option<Fault>)
    requires WriterProper(l.w, seal, l.offered, l.reported) && ReaderProper(l.r, l.w)
    ensures var m := Apply(l, seal, Write(p, fault));
            WriterProper(m.w, seal, m.offered, m.reported) && ReaderProper(m.r, m.w) && m.w.prefix == l.w.prefix && l.w.log <= m.w.log
  {
    hide Writer.Write, Writer.Valid, Concat;
    WriteIsGood(l.w, seal, p, fault);
    var (u, n, ok) := l.w.Write(seal, p, fault);
    if l.w.failed {
      PrefixesCompose(Concat(l.w.log), l.offered, p);
      assert p[..0] == [];
    } else {
      NotFailedIsDone(l.w, seal);
      TakeAll(p);
      if ok {
        NotFailedIsDone(u, seal);
      }
      TakeOfPrefix(l.w.log, u.log, l.r.frames);
    }
  }

  lemma ConcatTakeOne(log: seq<Bytes>, k: nat)
    requires k < |log|
    ensures Concat(log[..k + 1]) == Concat(log[..k]) + log[k]
  {
    assert log[..k + 1] == log[..k] + [log[k]];
    ConcatAppend(log[..k], [log[k]]);
    ConcatOne(log[k]);
  }

  /** Whatever bytes arrive, a frame that opens is the writer's next one. */
  lemma ReadFrameKeepsProper(r: Reader, w: Writer, seal: Cipher)
    requires ReaderProper(r, w) && r.err.None? && r.plain == [] && |w.prefix| == NONCE_PREFIX_SIZE && |w.log| <= MAX_UINT64
    ensures ReaderProper(r.ReadFrame(seal, TableOf(w.prefix, w.log)), w)
  {
    hide Concat, TableOf, Nonce;
    var table := TableOf(w.prefix, w.log);
    var p := r.TakePrefix();
    var u := r.ReadFrame(seal, table);
    if u.err.None? {
      TableHoldsLog(w.prefix, w.log, p.prefix.value, r.frames);
      ConcatTakeOne(w.log, r.frames);
    }
  }

  lemma {:induction false} FillKeepsProper(r: Reader, w: Writer, seal: Cipher)
    requires ReaderProper(r, w) && |w.prefix| == NONCE_PREFIX_SIZE && |w.log| <= MAX_UINT64
    ensures ReaderProper(r.Fill(seal, TableOf(w.prefix, w.log)), w)
    decreases |r.incoming|
  {
    hide ReaderProper, TableOf, Reader.ReadFrame;
    var table := TableOf(w.prefix, w.log);
    if r.err.Some? || r.plain != [] {
    } else {
      ReadFrameKeepsProper(r, w, seal);
      r.ReadFrameConsumes(seal, table);
      var u := r.ReadFrame(seal, table);
      if u.err.None? {
        FillKeepsProper(u, w, seal);
      }
    }
  }

  lemma TakeKeepsProper(r: Reader, w: Writer, cap: nat)
    requires ReaderProper(r, w)
    ensures ReaderProper(r.Take(cap).0, w)
  {
    hide Concat;
    var n := if cap < |r.plain| then cap else |r.plain|;
    assert (r.delivered + r.plain[..n]) + r.plain[n..] == r.delivered + r.plain;
  }

  lemma ReadKeepsProper(r: Reader, w: Writer, seal: Cipher, cap: nat)
    requires ReaderProper(r, w) && |w.prefix| == NONCE_PREFIX_SIZE && |w.log| <= MAX_UINT64
    ensures ReaderProper(r.Read(seal, TableOf(w.prefix, w.log), cap).0, w)
  {
    hide ReaderProper, TableOf, Reader.Fill;
    var table := TableOf(w.prefix, w.log);
    FillKeepsProper(r, w, seal);
    TakeKeepsProper(r.Fill(seal, table), w, cap);
  }

  // ---- any run -------------------------------------------------------------------------------

  ghost predicate Inv(l: Link, seal: Cipher, prefix: Bytes) {
    l.w.prefix == prefix && WriterProper(l.w, seal, l.offered, l.reported) && ReaderProper(l.r, l.w)
  }

  lemma ApplyKeepsInv(l: Link, seal: Cipher, prefix: Bytes, a: Action)
    requires Inv(l, seal, prefix)
    ensures Inv(Apply(l, seal, a), seal, prefix)
  {
    hide Concat, ReaderProper, Writer.Write, Reader.Read;
    match a
    case Write(p, fault) => WriteKeepsProper(l, seal, p, fault);
    case Read(cap) => ReadKeepsProper(l.r, l.w, seal, cap);
  }

  lemma {:induction false} RunKeepsInv(l: Link, seal: Cipher, prefix: Bytes, actions: seq<Action>)
    requires Inv(l, seal, prefix)
    ensures Inv(Run(l, seal, actions), seal, prefix)
    decreases actions
  {
    hide Inv, Apply;
    if actions == [] {
    } else {
      ApplyKeepsInv(l, seal, prefix, actions[0]);
      RunKeepsInv(Apply(l, seal, actions[0]), seal, prefix, actions[1..]);
    }
  }

  lemma {:induction false} ConcatMonotone(log: seq<Bytes>, k: nat)
    requires k <= |log|
    ensures Concat(log[..k]) <= Concat(log)
  {
    assert log == log[..k] + log[k..];
    ConcatAppend(log[..k], log[k..]);
  }

  /**
   Over any bytes the relay delivers, any interleaving of writes of any size, transport faults
   and reads into any buffers: what the reader has handed out is a prefix of what was sealed,
   which is a prefix of what the writer was offered; and what the writes reported is a prefix
   of what was sealed too.
   */
  lemma PlaintextIsPrefix(seal: Cipher, prefix: Bytes, incoming: Bytes, end: WireEnd, actions: seq<Action>)
    requires |prefix| == NONCE_PREFIX_SIZE
    ensures var l := Run(Start(prefix, incoming, end), seal, actions);
            && l.r.delivered <= Concat(l.w.log) <= l.offered
            && l.reported <= Concat(l.w.log)
            && (!l.w.failed ==> l.reported == Concat(l.w.log) == l.offered)
  {
    var s := Start(prefix, incoming, end);
    RunKeepsInv(s, seal, prefix, actions);
    var l := Run(s, seal, actions);
    ConcatMonotone(l.w.log, l.r.frames);
    ConcatMonotone(l.w.log, l.w.done);
    assert l.r.delivered <= l.r.delivered + l.r.plain;
    TakeAll(l.w.log);
  }

  /** The wire only ever carries the prefix once, then frame after frame, the i-th sealed under counter i. */
  lemma WireIsWellFormed(seal: Cipher, prefix: Bytes, incoming: Bytes, end: WireEnd, actions: seq<Action>)
    requires |prefix| == NONCE_PREFIX_SIZE
    ensures var w := Run(Start(prefix, incoming, end), seal, actions).w;
            && w.prefix == prefix && w.done <= |w.log| <= w.done + 1 && |w.log| <= MAX_UINT64
            && Encoded(seal, w.prefix, w.log[..w.done]) <= w.wire <= Encoded(seal, w.prefix, w.log)
            && forall i :: 0 <= i < |w.log| ==> |w.log[i]| <= MAX_FRAME_PLAINTEXT
  {
    RunKeepsInv(Start(prefix, incoming, end), seal, prefix, actions);
  }

  /** No two frames a writer ever seals share a nonce, whatever failed in between. */
  lemma NoncesNeverRepeat(seal: Cipher, prefix: Bytes, incoming: Bytes, end: WireEnd, actions: seq<Action>, i: nat, j: nat)
    requires |prefix| == NONCE_PREFIX_SIZE
    requires var w := Run(Start(prefix, incoming, end), seal, actions).w; i < j < |w.log|
    ensures Nonce(prefix, i) != Nonce(prefix, j)
  {
    WireIsWellFormed(seal, prefix, incoming, end, actions);
    if Nonce(prefix, i) == Nonce(prefix, j) {
      NonceInjective(prefix, i, prefix, j);
    }
  }

  /** After its first error a half of the connection never changes again. */
  lemma {:induction false} ErrorsAreFinal(l: Link, seal: Cipher, actions: seq<Action>)
    ensures l.w.failed ==> Run(l, seal, actions).w == l.w
    ensures l.r.err.Some? ==> Run(l, seal, actions).r == l.r
    decreases actions
  {
    if actions == [] {
    } else {
      ErrorsAreFinal(Apply(l, seal, actions[0]), seal, actions[1..]);
    }
  }

  /** Every length field is exact and fits its 16 bits. */
  lemma LengthFieldsAreExact(seal: Cipher, prefix: Bytes, counter: nat, chunk: Bytes)
    requires Lawful(seal) && |chunk| <= MAX_FRAME_PLAINTEXT
    ensures var f := Frame(seal, prefix, counter, chunk);
            |f| == FRAME_LEN_SIZE + |chunk| + OVERHEAD && FrameSize(f[..FRAME_LEN_SIZE]) == |f| - FRAME_LEN_SIZE <= MAX_UINT16
    ensures Frame(seal, prefix, counter, chunk)[FRAME_LEN_SIZE..] == seal(Nonce(prefix, counter), chunk)
  {
    HeaderIsExact(|chunk| + OVERHEAD);
    var f := Frame(seal, prefix, counter, chunk);
    assert f[..FRAME_LEN_SIZE] == Header(|chunk| + OVERHEAD);
  }

  // ---- the bare EOF ----------------------------------------------------------------------------

  /** Judged against everything the relay will ever deliver. */
  ghost predicate EndJudged(r: Reader, incoming: Bytes, end: WireEnd) {
    && r.end == end
    && (r.err.None? ==> (EndsWhole(r) <==> WholeStream(incoming)))
    && (r.err.Some? && AboutTheEnd(r.err.value) ==> (r.err == Some(EndOfStream) <==> end.Eof? && WholeStream(incoming)))
  }

  lemma ReadKeepsJudgement(r: Reader, seal: Cipher, table: Table, cap: nat, incoming: Bytes, end: WireEnd)
    requires EndJudged(r, incoming, end)
    ensures EndJudged(r.Read(seal, table, cap).0, incoming, end)
  {
    hide WholeStream, WholeFrames, Reader.Fill;
    if r.err.None? {
      FillJudgesTheEnd(r, seal, table);
    }
  }

  lemma {:induction false} RunKeepsJudgement(l: Link, seal: Cipher, actions: seq<Action>, incoming: Bytes, end: WireEnd)
    requires EndJudged(l.r, incoming, end)
    ensures EndJudged(Run(l, seal, actions).r, incoming, end)
    decreases actions
  {
    hide EndJudged, Reader.Read, Writer.Write;
    if actions == [] {
    } else {
      if actions[0].Read? {
        ReadKeepsJudgement(l.r, seal, TableOf(l.w.prefix, l.w.log), actions[0].cap, incoming, end);
      }
      RunKeepsJudgement(Apply(l, seal, actions[0]), seal, actions[1..], incoming, end);
    }
  }

  /**
   The reader's first error is the bare io.EOF only when the wire was closed cleanly before the
   prefix, right after it, or after a whole frame; an error about any other ending is not it.
   */
  lemma BareEofIffWholeStream(seal: Cipher, prefix: Bytes, incoming: Bytes, end: WireEnd, actions: seq<Action>)
    requires var r := Run(Start(prefix, incoming, end), seal, actions).r; r.err.Some? && AboutTheEnd(r.err.value)
    ensures Run(Start(prefix, incoming, end), seal, actions).r.err == Some(EndOfStream)
            <==> end.Eof? && WholeStream(incoming)
  {
    RunKeepsJudgement(Start(prefix, incoming, end), seal, actions, incoming, end);
  }
}
