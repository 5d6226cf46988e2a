/**
 The encrypted frame codec (internal/proto/frame_conn.go) as values: what a Write seals and
 puts on the wire, and what a Read makes of whatever bytes the relay delivers.

 The cipher is an arbitrary function `seal(nonce, plaintext)` that adds a tag.  Opening is
 ideal: it succeeds exactly on what was sealed under that nonce with the same key, which the
 table of the key records.
 */
module FrameCodec {
  import opened Common

  type Cipher = (Bytes, Bytes) -> Bytes

  const FRAME_LEN_SIZE := 2
  const NONCE_PREFIX_SIZE := 16
  const OVERHEAD := 16
  const MAX_UINT16 := 0xFFFF
  const MAX_FRAME_PLAINTEXT := MAX_UINT16 - OVERHEAD
  const MAX_UINT64 := 0xFFFF_FFFF_FFFF_FFFF

  /** Sealing adds exactly the tag. */
  ghost predicate Lawful(seal: Cipher) {
    forall n, p :: |seal(n, p)| == |p| + OVERHEAD
  }

  // ---- nonces ------------------------------------------------------------------------

  /** The low `width` bytes of `n`, most significant first. */
  function BigEndian(n: nat, width: nat): (b: Bytes)
    ensures |b| == width
  {
    if width == 0 then [] else BigEndian(n / 256, width - 1) + [n % 256]
  }

  lemma {:induction false} BigEndianInjective(m: nat, n: nat, width: nat)
    requires m < Pow(256, width) && n < Pow(256, width) && BigEndian(m, width) == BigEndian(n, width)
    ensures m == n
  {
    if width == 0 {
    } else {
      var a, b := BigEndian(m, width), BigEndian(n, width);
      assert a[..width - 1] == BigEndian(m / 256, width - 1) && b[..width - 1] == BigEndian(n / 256, width - 1);
      assert a[width - 1] == m % 256 && b[width - 1] == n % 256;
      BigEndianInjective(m / 256, n / 256, width - 1);
    }
  }

  function Nonce(prefix: Bytes, counter: nat): Bytes {
    prefix + BigEndian(counter, 8)
  }

  /** Two nonces of one key agree only when prefix and counter both do (section 2.1 of RFC 5116). */
  lemma NonceInjective(p: Bytes, i: nat, q: Bytes, j: nat)
    requires |p| == |q| && i <= MAX_UINT64 && j <= MAX_UINT64 && Nonce(p, i) == Nonce(q, j)
    ensures p == q && i == j
  {
    assert p == Nonce(p, i)[..|p|] && q == Nonce(q, j)[..|q|];
    assert BigEndian(i, 8) == Nonce(p, i)[|p|..] && BigEndian(j, 8) == Nonce(q, j)[|q|..];
    assert Pow(256, 8) == MAX_UINT64 + 1 by {
      assert Pow(256, 2) == 0x1_0000 && Pow(256, 4) == 0x1_0000_0000 && Pow(256, 6) == 0x1_0000_0000_0000;
    }
    BigEndianInjective(i, j, 8);
  }

  // ---- what a key has sealed ----------------------------------------------------------------

  type Table = map<Bytes, Bytes>

  /** The table of a key after sealing `log` under `prefix`, counting from zero. */
  function TableOf(prefix: Bytes, log: seq<Bytes>): Table {
    if log == [] then map[]
    else TableOf(prefix, log[..|log| - 1])[Nonce(prefix, |log| - 1) := log[|log| - 1]]
  }

  function Open(seal: Cipher, table: Table, nonce: Bytes, sealed: Bytes): Option<Bytes> {
    if nonce in table && sealed == seal(nonce, table[nonce]) then Some(table[nonce]) else None
  }

  /** The table holds exactly the log, each chunk under its own counter. */
  lemma {:induction false} TableHoldsLog(prefix: Bytes, log: seq<Bytes>, q: Bytes, j: nat)
    requires |log| <= MAX_UINT64 && j <= MAX_UINT64 && |q| == |prefix|
    ensures Nonce(q, j) in TableOf(prefix, log) <==> q == prefix && j < |log|
    ensures q == prefix && j < |log| ==> TableOf(prefix, log)[Nonce(q, j)] == log[j]
    decreases |log|
  {
    if log == [] {
    } else {
      TableHoldsLog(prefix, log[..|log| - 1], q, j);
      if Nonce(q, j) == Nonce(prefix, |log| - 1) {
        NonceInjective(q, j, prefix, |log| - 1);
      }
    }
  }

  // ---- frames ------------------------------------------------------------------------------------

  /** The two length bytes; a longer count would be cut to 16 bits. */
  function Header(n: nat): Bytes { BigEndian(n, 2) }

  function FrameSize(header: Bytes): nat
    requires |header| == 2
  {
    var high: int, low: int := header[0], header[1];
    high * 256 + low
  }

  lemma HeaderIsExact(n: nat)
    requires n <= MAX_UINT16
    ensures |Header(n)| == 2 && FrameSize(Header(n)) == n
  {
    assert BigEndian(n, 2) == BigEndian(n / 256, 1) + [n % 256];
    assert BigEndian(n / 256, 1) == BigEndian(n / 256 / 256, 0) + [n / 256 % 256];
  }

  function Frame(seal: Cipher, prefix: Bytes, counter: nat, chunk: Bytes): Bytes {
    var sealed := seal(Nonce(prefix, counter), chunk);
    Header(|sealed|) + sealed
  }

  /** The frames of `log`, the i-th sealed under counter i. */
  function Frames(seal: Cipher, prefix: Bytes, log: seq<Bytes>): Bytes {
    if log == [] then []
    else Frames(seal, prefix, log[..|log| - 1]) + Frame(seal, prefix, |log| - 1, log[|log| - 1])
  }

  /** A whole stream: the prefix once, ahead of the first frame, and nothing at all before there is one. */
  function Encoded(seal: Cipher, prefix: Bytes, log: seq<Bytes>): Bytes {
    if log == [] then [] else prefix + Frames(seal, prefix, log)
  }

  lemma Associative(a: Bytes, b: Bytes, c: Bytes)
    ensures (a + b) + c == a + (b + c)
  {
  }

  lemma EncodedAppend(seal: Cipher, prefix: Bytes, log: seq<Bytes>, chunk: Bytes)
    ensures Encoded(seal, prefix, log + [chunk])
            == Encoded(seal, prefix, log) + ((if log == [] then prefix else []) + Frame(seal, prefix, |log|, chunk))
  {
    hide Frame;
    var more := log + [chunk];
    assert more[..|more| - 1] == log && more[|more| - 1] == chunk;
    var f, last := Frames(seal, prefix, log), Frame(seal, prefix, |log|, chunk);
    assert Encoded(seal, prefix, more) == prefix + (f + last);
    Associative(prefix, f, last);
    if log == [] {
      assert f == [];
    }
  }

  // ---- writing --------------------------------------------------------------------------------------

  /** The transport fails on the `frame`-th frame of the call, having taken `bytes` bytes of it. */
  datatype Fault = Fault(frame: nat, bytes: nat)

  function FirstChunk(p: Bytes): Bytes {
    if |p| > MAX_FRAME_PLAINTEXT then p[..MAX_FRAME_PLAINTEXT] else p
  }

  function NextFrame(fault: Option<Fault>): Option<Fault> {
    if fault.Some? && fault.value.frame > 0 then Some(Fault(fault.value.frame - 1, fault.value.bytes)) else None
  }

  /** `log` is every chunk sealed so far, `done` how many of their frames the transport took whole. */
  datatype Writer = Writer(prefix: Bytes, prefixSent: bool, failed: bool, log: seq<Bytes>, done: nat, wire: Bytes) {

    function Buffer(seal: Cipher, chunk: Bytes): Bytes {
      (if prefixSent then [] else prefix) + Frame(seal, prefix, |log|, chunk)
    }

    /** Seal `chunk`, and lose the transport after `n` bytes of its frame. */
    function SendCut(seal: Cipher, chunk: Bytes, n: nat): Writer {
      var buffer := Buffer(seal, chunk);
      this.(failed := true, log := log + [chunk], wire := wire + (if n <= |buffer| then buffer[..n] else buffer))
    }

    function SendWhole(seal: Cipher, chunk: Bytes): Writer {
      this.(prefixSent := true, log := log + [chunk], done := done + 1, wire := wire + Buffer(seal, chunk))
    }

    /** The loop of Write: the state it leaves, the count it returns, and whether it succeeds. */
    function WriteFrames(seal: Cipher, p: Bytes, fault: Option<Fault>): (Writer, nat, bool)
      decreases |p|
    {
      if |log| >= MAX_UINT64 then (this.(failed := true), 0, false)
      else
        var chunk := FirstChunk(p);
        if fault.Some? && fault.value.frame == 0 then (SendCut(seal, chunk, fault.value.bytes), 0, false)
        else if |chunk| == |p| then (SendWhole(seal, chunk), |p|, true)
        else
          var (w, n, ok) := SendWhole(seal, chunk).WriteFrames(seal, p[|chunk|..], NextFrame(fault));
          (w, |chunk| + n, ok)
    }

    function Write(seal: Cipher, p: Bytes, fault: Option<Fault>): (Writer, nat, bool) {
      if failed then (this, 0, false)
      else if p == [] then (this, 0, true)
      else WriteFrames(seal, p, fault)
    }

    /** The wire carries every finished frame and at most a piece of one more. */
    ghost predicate Valid(seal: Cipher) {
      && |prefix| == NONCE_PREFIX_SIZE
      && done <= |log| <= done + 1 && |log| <= MAX_UINT64
      && (forall i :: 0 <= i < |log| ==> |log[i]| <= MAX_FRAME_PLAINTEXT)
      && (prefixSent <==> done > 0)
      && Encoded(seal, prefix, log[..done]) <= wire <= Encoded(seal, prefix, log)
      && (!failed ==> done == |log| && wire == Encoded(seal, prefix, log))
    }
  }

  function NewWriter(prefix: Bytes): Writer {
    Writer(prefix, false, false, [], 0, [])
  }

  lemma TakeAll<T>(s: seq<T>)
    ensures s[..|s|] == s
  {
  }

  lemma SendWholeKeepsValid(w: Writer, seal: Cipher, chunk: Bytes)
    requires w.Valid(seal) && !w.failed && |w.log| < MAX_UINT64 && |chunk| <= MAX_FRAME_PLAINTEXT
    ensures var u := w.SendWhole(seal, chunk); u.Valid(seal) && !u.failed && Concat(u.log) == Concat(w.log) + chunk
  {
    hide Encoded, Frame, Concat;
    var u := w.SendWhole(seal, chunk);
    EncodedAppend(seal, w.prefix, w.log, chunk);
    TakeAll(u.log);
    ConcatAppend(w.log, [chunk]);
    ConcatOne(chunk);
  }

  lemma PrefixCut(a: Bytes, b: Bytes, n: nat)
    requires n <= |b|
    ensures a <= a + b[..n] <= a + b
  {
  }

  lemma SendCutKeepsValid(w: Writer, seal: Cipher, chunk: Bytes, n: nat)
    requires w.Valid(seal) && !w.failed && |w.log| < MAX_UINT64 && |chunk| <= MAX_FRAME_PLAINTEXT
    ensures var u := w.SendCut(seal, chunk, n);
            u.Valid(seal) && u.log[..u.done] == w.log && Concat(u.log) == Concat(w.log) + chunk
  {
    hide Encoded, Frame, Concat;
    var u := w.SendCut(seal, chunk, n);
    EncodedAppend(seal, w.prefix, w.log, chunk);
    var buffer := w.Buffer(seal, chunk);
    PrefixCut(w.wire, buffer, if n <= |buffer| then n else |buffer|);
    TakeAll(buffer);
    assert u.log[..u.done] == w.log;
    ConcatAppend(w.log, [chunk]);
    ConcatOne(chunk);
  }

  /** What a Write makes of a writer: `w` before, `u` after, `n` and `ok` returned. */
  ghost predicate GoodWrite(w: Writer, seal: Cipher, p: Bytes, u: Writer, n: nat, ok: bool) {
    && u.Valid(seal) && u.prefix == w.prefix
    && n <= |p| && (ok <==> n == |p|) && (ok <==> !u.failed)
    && w.log <= u.log && w.wire <= u.wire
    && Concat(u.log[..u.done]) == Concat(w.log) + p[..n]
    && Concat(u.log) <= Concat(w.log) + p
  }

  lemma GoodWriteCompose(w: Writer, seal: Cipher, chunk: Bytes, rest: Bytes, u: Writer, v: Writer, n: nat, ok: bool)
    requires GoodWrite(u, seal, rest, v, n, ok)
    requires u.prefix == w.prefix && w.log <= u.log && w.wire <= u.wire && Concat(u.log) == Concat(w.log) + chunk
    ensures GoodWrite(w, seal, chunk + rest, v, |chunk| + n, ok)
  {
    hide Writer.Valid, Concat;
    var p := chunk + rest;
    assert p[..|chunk| + n] == chunk + rest[..n];
    Associative(Concat(w.log), chunk, rest);
    Associative(Concat(w.log), chunk, rest[..n]);
  }

  lemma SendWholeGrows(w: Writer, seal: Cipher, chunk: Bytes)
    ensures var u := w.SendWhole(seal, chunk); u.prefix == w.prefix && w.log <= u.log && w.wire <= u.wire
  {
  }

  lemma ExhaustedIsGood(w: Writer, seal: Cipher, p: Bytes)
    requires w.Valid(seal) && !w.failed && p != []
    ensures GoodWrite(w, seal, p, w.(failed := true), 0, false)
  {
    hide Concat, Encoded;
    TakeAll(w.log);
    assert Concat(w.log) + p[..0] == Concat(w.log);
  }

  lemma CutIsGood(w: Writer, seal: Cipher, p: Bytes, chunk: Bytes, n: nat)
    requires w.Valid(seal) && !w.failed && |w.log| < MAX_UINT64 && p != []
    requires |chunk| <= MAX_FRAME_PLAINTEXT && chunk <= p
    ensures GoodWrite(w, seal, p, w.SendCut(seal, chunk, n), 0, false)
  {
    hide Concat, Encoded, Writer.Valid;
    SendCutKeepsValid(w, seal, chunk, n);
    assert Concat(w.log) + p[..0] == Concat(w.log);
    assert p == chunk + p[|chunk|..];
    Associative(Concat(w.log), chunk, p[|chunk|..]);
  }

  lemma WholeIsGood(w: Writer, seal: Cipher, p: Bytes)
    requires w.Valid(seal) && !w.failed && |w.log| < MAX_UINT64 && |p| <= MAX_FRAME_PLAINTEXT
    ensures GoodWrite(w, seal, p, w.SendWhole(seal, p), |p|, true)
  {
    hide Concat, Encoded;
    SendWholeKeepsValid(w, seal, p);
    TakeAll(w.SendWhole(seal, p).log);
    TakeAll(p);
  }

  /**
   A Write keeps the stream well formed; the count it returns is exactly the plaintext of the
   frames the transport took whole; and what was sealed is a prefix of what was offered.
   */
  lemma {:induction false} WriteFramesIsGood(w: Writer, seal: Cipher, p: Bytes, fault: Option<Fault>)
    requires w.Valid(seal) && !w.failed && p != []
    ensures var (u, n, ok) := w.WriteFrames(seal, p, fault); GoodWrite(w, seal, p, u, n, ok)
    decreases |p|
  {
    hide Concat, Encoded, Writer.SendCut, Writer.SendWhole, GoodWrite;
    var chunk := FirstChunk(p);
    var rest := p[|chunk|..];
    assert chunk + rest == p;
    if |w.log| >= MAX_UINT64 {
      ExhaustedIsGood(w, seal, p);
    } else if fault.Some? && fault.value.frame == 0 {
      CutIsGood(w, seal, p, chunk, fault.value.bytes);
    } else {
      var u := w.SendWhole(seal, chunk);
      SendWholeKeepsValid(w, seal, chunk);
      SendWholeGrows(w, seal, chunk);
      if rest == [] {
        assert chunk == p;
        WholeIsGood(w, seal, p);
      } else {
        WriteFramesIsGood(u, seal, rest, NextFrame(fault));
        var (v, n, ok) := u.WriteFrames(seal, rest, NextFrame(fault));
        GoodWriteCompose(w, seal, chunk, rest, u, v, n, ok);
      }
    }
  }

  lemma WriteIsGood(w: Writer, seal: Cipher, p: Bytes, fault: Option<Fault>)
    requires w.Valid(seal)
    ensures var (u, n, ok) := w.Write(seal, p, fault);
            if w.failed then u == w && n == 0 && !ok else GoodWrite(w, seal, p, u, n, ok)
  {
    hide Concat, Encoded;
    if !w.failed {
      if p == [] {
        TakeAll(w.log);
        assert Concat(w.log) + p[..0] == Concat(w.log);
      } else {
        WriteFramesIsGood(w, seal, p, fault);
      }
    }
  }

  /** How many frames `n` bytes of plaintext make, at most 65519 bytes each. */
  function ChunksOf(n: nat): nat { (n + 65518) / 65519 }

  lemma OneChunkLess(p: Bytes)
    ensures |p| > MAX_FRAME_PLAINTEXT ==> ChunksOf(|p|) == ChunksOf(|p[MAX_FRAME_PLAINTEXT..]|) + 1
    ensures 0 < |p| <= MAX_FRAME_PLAINTEXT ==> ChunksOf(|p|) == 1
  {
  }

  /** The frames a Write gets through before its fault, or before the counter runs out, whichever comes first. */
  function Reaches(w: Writer, fault: Option<Fault>): nat
    requires |w.log| <= MAX_UINT64
  {
    var room := MAX_UINT64 - |w.log|;
    if fault.Some? && fault.value.frame < room then fault.value.frame else room
  }

  lemma {:induction false} WriteFramesSucceedIff(w: Writer, seal: Cipher, p: Bytes, fault: Option<Fault>)
    requires |w.log| <= MAX_UINT64 && p != []
    ensures var (u, n, ok) := w.WriteFrames(seal, p, fault);
            && (ok <==> |w.log| + ChunksOf(|p|) <= MAX_UINT64 && (fault.None? || fault.value.frame >= ChunksOf(|p|)))
            && n == if ok then |p| else Reaches(w, fault) * MAX_FRAME_PLAINTEXT
    decreases |p|
  {
    hide Writer.SendCut, Frame;
    OneChunkLess(p);
    if |w.log| >= MAX_UINT64 || (fault.Some? && fault.value.frame == 0) || |p| <= MAX_FRAME_PLAINTEXT {
    } else {
      var u := w.SendWhole(seal, FirstChunk(p));
      assert |u.log| == |w.log| + 1;
      WriteFramesSucceedIff(u, seal, p[MAX_FRAME_PLAINTEXT..], NextFrame(fault));
      assert Reaches(w, fault) == Reaches(u, NextFrame(fault)) + 1;
    }
  }

  lemma ValidLog(w: Writer, seal: Cipher)
    requires w.Valid(seal)
    ensures |w.log| <= MAX_UINT64
  {
  }

  /**
   A writer that has not failed writes all of `p` exactly when the counter has room for its
   frames and the transport takes them all; if not, it has written exactly the frames before
   the fault or before the counter ran out.
   */
  lemma WriteSucceedsIff(w: Writer, seal: Cipher, p: Bytes, fault: Option<Fault>)
    requires w.Valid(seal) && !w.failed
    ensures var (u, n, ok) := w.Write(seal, p, fault);
            && (ok <==> |w.log| + ChunksOf(|p|) <= MAX_UINT64 && (fault.None? || fault.value.frame >= ChunksOf(|p|)))
            && n == if ok then |p| else Reaches(w, fault) * MAX_FRAME_PLAINTEXT
  {
    hide Writer.WriteFrames, Writer.Valid;
    assert |w.log| <= MAX_UINT64 by { ValidLog(w, seal); }
    if p == [] {
    } else {
      WriteFramesSucceedIff(w, seal, p, fault);
    }
  }
}
