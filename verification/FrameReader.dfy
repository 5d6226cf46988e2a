/** The reading half of the codec: Read and readFrame over any bytes the relay delivers. */
module FrameReader {
  import opened Common
  import opened FrameCodec

  /** How the incoming bytes end: a clean close, or a failing transport. */
  datatype WireEnd = Eof | Broken

  /** Why io.ReadFull came up short: nothing before a clean close, something before one, or a failure. */
  datatype Cause = AtEof | Truncated | Failed

  /** `EndOfStream` is the bare io.EOF; every other error is wrapped. */
  datatype ReadError =
    | EndOfStream
    | CounterExhausted
    | NoPrefix(cause: Cause)
    | NoHeader(cause: Cause)
    | TooShort(size: nat)
    | NoBody(cause: Cause)
    | Forged(counter: nat)

  function ShortRead(incoming: Bytes, end: WireEnd): Cause {
    if end.Broken? then Failed else if incoming == [] then AtEof else Truncated
  }

  /**
   `incoming` is what is still to come, `frames` how many were opened, `plain` what is opened
   and not yet handed out, and `delivered` everything handed out so far.
   */
  datatype Reader = Reader(incoming: Bytes, end: WireEnd, prefix: Option<Bytes>, frames: nat, plain: Bytes,
                           err: Option<ReadError>, delivered: Bytes)
  {
    /** A failed reader never looks at its transport again, so what is left there is forgotten. */
    function Fail(e: ReadError): Reader { this.(err := Some(e), incoming := []) }

    /** The peer's prefix, once, ahead of its first frame. */
    function TakePrefix(): Reader {
      if prefix.Some? then this
      else if |incoming| < NONCE_PREFIX_SIZE then
        var cause := ShortRead(incoming, end);
        Fail(if cause.AtEof? then EndOfStream else NoPrefix(cause))
      else this.(prefix := Some(incoming[..NONCE_PREFIX_SIZE]), incoming := incoming[NONCE_PREFIX_SIZE..])
    }

    /** One frame, once the prefix is known. */
    function TakeFrame(seal: Cipher, table: Table): Reader
      requires prefix.Some?
    {
      if |incoming| < FRAME_LEN_SIZE then
        var cause := ShortRead(incoming, end);
        Fail(if cause.AtEof? then EndOfStream else NoHeader(cause))
      else
        var size := FrameSize(incoming[..FRAME_LEN_SIZE]);
        var rest := incoming[FRAME_LEN_SIZE..];
        if size < OVERHEAD then Fail(TooShort(size))
        else if |rest| < size then Fail(NoBody(ShortRead(rest, end)))
        else
          match Open(seal, table, Nonce(prefix.value, frames), rest[..size])
          case None => Fail(Forged(frames))
          case Some(plaintext) => this.(incoming := rest[size..], frames := frames + 1, plain := plaintext)
    }

    function ReadFrame(seal: Cipher, table: Table): Reader {
      if frames >= MAX_UINT64 then Fail(CounterExhausted)
      else
        var r := TakePrefix();
        if r.err.Some? || r.prefix.None? then r else r.TakeFrame(seal, table)
    }

    /** Every frame that is opened takes at least 18 bytes off the wire. */
    lemma ReadFrameConsumes(seal: Cipher, table: Table)
      requires err.None?
      ensures var r := ReadFrame(seal, table); r.err.Some? || |r.incoming| + FRAME_LEN_SIZE + OVERHEAD <= |incoming|
    {
    }

    /** The loop of Read: skip empty frames until there is plaintext or an error. */
    function Fill(seal: Cipher, table: Table): Reader
      decreases |incoming|
    {
      if err.Some? || plain != [] then this
      else
        var r := ReadFrame(seal, table);
        ReadFrameConsumes(seal, table);
        if r.err.Some? then r else r.Fill(seal, table)
    }

    /** Hand out up to `cap` bytes of what is opened. */
    function Take(cap: nat): (Reader, Bytes) {
      var n := if cap < |plain| then cap else |plain|;
      (this.(plain := plain[n..], delivered := delivered + plain[..n]), plain[..n])
    }

    /** A Read into a buffer of `cap` bytes. */
    function Read(seal: Cipher, table: Table, cap: nat): (Reader, Bytes, Option<ReadError>) {
      if cap == 0 then (this, [], None)
      else if err.Some? then (this, [], err)
      else
        var r := Fill(seal, table);
        if r.err.Some? then (r, [], r.err)
        else var (u, data) := r.Take(cap); (u, data, None)
    }
  }

  function NewReader(incoming: Bytes, end: WireEnd): Reader {
    Reader(incoming, end, None, 0, [], None, [])
  }

  // ---- errors are permanent, and a read without one makes progress ----------------------------

  lemma {:induction false} FillIsDone(r: Reader, seal: Cipher, table: Table)
    ensures var u := r.Fill(seal, table); u.err.Some? || u.plain != []
    ensures r.Fill(seal, table).delivered == r.delivered && r.Fill(seal, table).end == r.end
    ensures r.err.None? && r.Fill(seal, table).err.Some? ==> r.Fill(seal, table).plain == []
    decreases |r.incoming|
  {
    if r.err.Some? || r.plain != [] {
    } else {
      r.ReadFrameConsumes(seal, table);
      var u := r.ReadFrame(seal, table);
      if u.err.None? {
        FillIsDone(u, seal, table);
      }
    }
  }

  /**
   Into a buffer with room, a Read returns at least one byte, and as many as are opened or fit,
   or an error; and an error repeats forever.
   */
  lemma ReadMakesProgress(r: Reader, seal: Cipher, table: Table, cap: nat)
    requires cap > 0
    ensures var (u, data, e) := r.Read(seal, table, cap);
            && (e.None? ==> 0 < |data| <= cap && u.delivered == r.delivered + data && (|data| == cap || u.plain == []))
            && (r.err.None? && r.plain != [] ==> e.None? && r.plain == data + u.plain && u.incoming == r.incoming)
            && (e.Some? ==> data == [] && u.delivered == r.delivered && u.err == e && u.Read(seal, table, cap) == (u, [], e))
  {
    FillIsDone(r, seal, table);
  }

  /** A Read without room returns nothing, no error even after one, and changes nothing. */
  lemma EmptyReadChangesNothing(r: Reader, seal: Cipher, table: Table)
    ensures r.Read(seal, table, 0) == (r, [], None)
  {
  }

  // ---- where a clean end of stream can be ------------------------------------------------------

  /** `b` is a run of complete frames and nothing else. */
  ghost predicate WholeFrames(b: Bytes)
    decreases |b|
  {
    b == [] || (|b| >= FRAME_LEN_SIZE && var size := FrameSize(b[..FRAME_LEN_SIZE]);
                |b| >= FRAME_LEN_SIZE + size && WholeFrames(b[FRAME_LEN_SIZE + size..]))
  }

  /** `b` ends before the prefix, right after it, or after a whole frame. */
  ghost predicate WholeStream(b: Bytes) {
    b == [] || (|b| >= NONCE_PREFIX_SIZE && WholeFrames(b[NONCE_PREFIX_SIZE..]))
  }

  /** What is still to come completes a whole stream. */
  ghost predicate EndsWhole(r: Reader) {
    if r.prefix.None? then WholeStream(r.incoming) else WholeFrames(r.incoming)
  }

  /** The errors that are about where the bytes ended, not about what they were. */
  predicate AboutTheEnd(e: ReadError) {
    e.EndOfStream? || e.NoPrefix? || e.NoHeader? || e.NoBody?
  }

  lemma ReadFrameJudgesTheEnd(r: Reader, seal: Cipher, table: Table)
    requires r.err.None?
    ensures var u := r.ReadFrame(seal, table);
            && u.end == r.end
            && (u.err.None? ==> (EndsWhole(u) <==> EndsWhole(r)))
            && (u.err.Some? && AboutTheEnd(u.err.value) ==> (u.err == Some(EndOfStream) <==> r.end.Eof? && EndsWhole(r)))
  {
    var p := r.TakePrefix();
    if r.frames < MAX_UINT64 && p.err.None? && |p.incoming| >= FRAME_LEN_SIZE {
      var size := FrameSize(p.incoming[..FRAME_LEN_SIZE]);
      var rest := p.incoming[FRAME_LEN_SIZE..];
      if |rest| >= size {
        assert p.incoming[FRAME_LEN_SIZE + size..] == rest[size..];
      }
    }
  }

  lemma {:induction false} FillJudgesTheEnd(r: Reader, seal: Cipher, table: Table)
    requires r.err.None?
    ensures var u := r.Fill(seal, table);
            && u.end == r.end
            && (u.err.None? ==> (EndsWhole(u) <==> EndsWhole(r)))
            && (u.err.Some? && AboutTheEnd(u.err.value) ==> (u.err == Some(EndOfStream) <==> r.end.Eof? && EndsWhole(r)))
    decreases |r.incoming|
  {
    if r.plain != [] {
    } else {
      ReadFrameJudgesTheEnd(r, seal, table);
      r.ReadFrameConsumes(seal, table);
      var u := r.ReadFrame(seal, table);
      if u.err.None? {
        FillJudgesTheEnd(u, seal, table);
      }
    }
  }
}
