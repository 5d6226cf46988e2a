/**
 The connection object of internal/proto/frame_conn.go: both halves, their counters, buffers
 and sticky errors, updated in place and proved against the functions of FrameCodec and
 FrameReader.
 */
module EncryptedConn {
  import opened Common
  import opened FrameCodec
  import opened FrameReader

  /**
   One key, shared by the writer that seals under it and the reader that opens.  Sealing
   demands a nonce that key has never been used with.
   */
  class Aead {
    const seal: Cipher
    var table: Table

    constructor (seal: Cipher)
      ensures this.seal == seal && table == map[]
    {
      this.seal := seal;
      table := map[];
    }

    method Seal(nonce: Bytes, plaintext: Bytes) returns (sealed: Bytes)
      requires nonce !in table
      modifies this
      ensures sealed == seal(nonce, plaintext) && table == old(table)[nonce := plaintext]
    {
      sealed := seal(nonce, plaintext);
      table := table[nonce := plaintext];
    }

    method OpenFrame(nonce: Bytes, sealed: Bytes) returns (plaintext: Option<Bytes>)
      ensures plaintext == Open(seal, table, nonce, sealed)
    {
      if nonce in table && sealed == seal(nonce, table[nonce]) {
        return Some(table[nonce]);
      }
      return None;
    }
  }

  /** The relay-facing transport: it may fail at any byte of a write, and ends as `end` says. */
  class Transport {
    var wire: Bytes
    var incoming: Bytes
    const end: WireEnd
    var broken: bool    // a write has failed

    constructor (incoming: Bytes, end: WireEnd)
      ensures wire == [] && this.incoming == incoming && this.end == end && !broken
    {
      wire, broken := [], false;
      this.incoming, this.end := incoming, end;
    }

    method WriteFull(buffer: Bytes) returns (ok: bool, ghost taken: nat)
      modifies this`wire, this`broken
      ensures taken <= |buffer| && wire == old(wire) + buffer[..taken] && (ok ==> taken == |buffer|)
      ensures broken == (old(broken) || !ok)
    {
      var n: nat :| n <= |buffer|;
      var error: bool := *;
      ok := n == |buffer| && !error;
      taken := n;
      wire := wire + buffer[..n];
      broken := broken || !ok;
    }

    /** io.ReadFull: exactly `n` bytes, or why not. */
    method ReadFull(n: nat) returns (data: Bytes, short: Option<Cause>)
      modifies this`incoming
      ensures n <= |old(incoming)| ==> short.None? && data == old(incoming)[..n] && incoming == old(incoming)[n..]
      ensures n > |old(incoming)| ==> short == Some(ShortRead(old(incoming), end)) && incoming == []
    {
      if |incoming| < n {
        data, short := [], Some(ShortRead(incoming, end));
        incoming := [];
      } else {
        data, short := incoming[..n], None;
        incoming := incoming[n..];
      }
    }
  }

  /** A fault in the frame `k` frames further on. */
  function Later(f: Option<Fault>, k: nat): Option<Fault> {
    if f.Some? then Some(Fault(f.value.frame + k, f.value.bytes)) else None
  }

  function Plus(n: nat, result: (Writer, nat, bool)): (Writer, nat, bool) {
    (result.0, n + result.1, result.2)
  }

  /** `w` is what `k` whole frames, `n` bytes of `p`, made of `w0`. */
  ghost predicate Continues(w0: Writer, w: Writer, seal: Cipher, p: Bytes, n: nat, k: nat) {
    n < |p| && var rest := p[n..];
    forall f :: w0.WriteFrames(seal, p, Later(f, k)) == Plus(n, w.WriteFrames(seal, rest, f))
  }

  lemma ContinuesAtStart(w: Writer, seal: Cipher, p: Bytes)
    requires p != []
    ensures Continues(w, w, seal, p, 0, 0)
  {
    assert p[0..] == p;
    forall f ensures w.WriteFrames(seal, p, Later(f, 0)) == Plus(0, w.WriteFrames(seal, p[0..], f)) {
      assert Later(f, 0) == f;
    }
  }

  lemma ContinuesAfterFrame(w0: Writer, w: Writer, seal: Cipher, p: Bytes, n: nat, k: nat, chunk: Bytes)
    requires Continues(w0, w, seal, p, n, k) && |w.log| < MAX_UINT64
    requires chunk == FirstChunk(p[n..]) && n + |chunk| < |p|
    ensures Continues(w0, w.SendWhole(seal, chunk), seal, p, n + |chunk|, k + 1)
  {
    hide Writer.SendWhole, Writer.SendCut;
    var u := w.SendWhole(seal, chunk);
    var rest := p[n + |chunk|..];
    assert p[n..][|chunk|..] == rest;
    forall f ensures w0.WriteFrames(seal, p, Later(f, k + 1)) == Plus(n + |chunk|, u.WriteFrames(seal, rest, f)) {
      var g := Later(f, 1);
      assert Later(g, k) == Later(f, k + 1) && NextFrame(g) == f;
      assert w.WriteFrames(seal, p[n..], g) == Plus(|chunk|, u.WriteFrames(seal, rest, f));
    }
  }

  /** The three ways the loop ends, seen from the start of the call. */
  lemma ContinuesToEnd(w0: Writer, w: Writer, seal: Cipher, p: Bytes, n: nat, k: nat)
    requires Continues(w0, w, seal, p, n, k)
    ensures w0.WriteFrames(seal, p, None) == Plus(n, w.WriteFrames(seal, p[n..], None))
    ensures forall t: nat :: w0.WriteFrames(seal, p, Some(Fault(k, t))) == Plus(n, w.WriteFrames(seal, p[n..], Some(Fault(0, t))))
  {
    hide Writer.WriteFrames;
    assert Later(None, k) == None;
    forall t: nat ensures w0.WriteFrames(seal, p, Some(Fault(k, t))) == Plus(n, w.WriteFrames(seal, p[n..], Some(Fault(0, t)))) {
      assert Later(Some(Fault(0, t)), k) == Some(Fault(k, t));
    }
  }

  lemma GivingUpKeepsValid(w: Writer, seal: Cipher)
    requires w.Valid(seal)
    ensures w.(failed := true).Valid(seal)
  {
  }

  class EncryptedConn {
    const conn: Transport
    const writeAEAD: Aead
    const readAEAD: Aead
    const writePrefix: Bytes

    var writeErr: bool
    var writeSeq: nat
    var prefixSent: bool
    ghost var log: seq<Bytes>
    ghost var done: nat

    var readErr: Option<ReadError>
    var readSeq: nat
    var readPrefix: Option<Bytes>
    var plain: Bytes
    ghost var delivered: Bytes

    ghost function W(): Writer
      reads this, conn
    {
      Writer(writePrefix, prefixSent, writeErr, log, done, conn.wire)
    }

    ghost function R(): Reader
      reads this, conn
    {
      Reader(if readErr.Some? then [] else conn.incoming, conn.end, readPrefix, readSeq, plain, readErr, delivered)
    }

    /** The counter is where the log ends, and the write key has sealed exactly the log. */
    ghost predicate Valid()
      reads this, conn, writeAEAD
    {
      && writeSeq == |log| && (conn.broken ==> writeErr)
      && W().Valid(writeAEAD.seal)
      && writeAEAD.table == TableOf(writePrefix, log)
    }

    constructor (conn: Transport, writeAEAD: Aead, readAEAD: Aead, prefix: Bytes)
      requires |prefix| == NONCE_PREFIX_SIZE && conn.wire == [] && !conn.broken && writeAEAD.table == map[]
      ensures Valid() && this.conn == conn && this.writeAEAD == writeAEAD && this.readAEAD == readAEAD
      ensures W() == NewWriter(prefix) && R() == NewReader(conn.incoming, conn.end)
    {
      this.conn, this.writeAEAD, this.readAEAD, this.writePrefix := conn, writeAEAD, readAEAD, prefix;
      writeErr, writeSeq, prefixSent, log, done := false, 0, false, [], 0;
      readErr, readSeq, readPrefix, plain, delivered := None, 0, None, [], [];
    }

    /** The frame counter makes every nonce new to the key. */
    lemma NextNonceIsNew()
      requires Valid() && writeSeq < MAX_UINT64
      ensures Nonce(writePrefix, writeSeq) !in writeAEAD.table
    {
      TableHoldsLog(writePrefix, log, writePrefix, writeSeq);
    }

    lemma SealedTable(chunk: Bytes)
      ensures TableOf(writePrefix, log + [chunk]) == TableOf(writePrefix, log)[Nonce(writePrefix, |log|) := chunk]
    {
      assert (log + [chunk])[..|log|] == log;
    }

    /** Seal one chunk and hand its frame, behind the prefix if that is still due, to the transport in one write. */
    method SendFrame(chunk: Bytes) returns (sent: bool, ghost taken: nat)
      requires Valid() && !writeErr && writeSeq < MAX_UINT64 && |chunk| <= MAX_FRAME_PLAINTEXT
      modifies this`writeErr, this`writeSeq, this`prefixSent, this`log, this`done, conn`wire, conn`broken, writeAEAD
      ensures Valid()
      ensures sent <==> !writeErr
      ensures conn.broken <==> !sent
      ensures W() == if sent then old(W()).SendWhole(writeAEAD.seal, chunk) else old(W()).SendCut(writeAEAD.seal, chunk, taken)
    {
      hide TableOf, Encoded, Frames, Concat, Nonce, BigEndian;
      ghost var w, seal := W(), writeAEAD.seal;
      var buffer := [];
      if !prefixSent {
        buffer := writePrefix;
      }
      NextNonceIsNew();
      SealedTable(chunk);
      var sealed := writeAEAD.Seal(Nonce(writePrefix, writeSeq), chunk);
      buffer := buffer + (Header(|sealed|) + sealed);
      assert buffer == w.Buffer(seal, chunk);
      writeSeq := writeSeq + 1;
      log := log + [chunk];
      sent, taken := conn.WriteFull(buffer);
      if sent {
        prefixSent := true;
        done := done + 1;
        TakeAll(buffer);
        SendWholeKeepsValid(w, seal, chunk);
      } else {
        writeErr := true;
        SendCutKeepsValid(w, seal, chunk, taken);
      }
    }

    method Write(p: Bytes) returns (n: nat, ok: bool, ghost fault: Option<Fault>)
      requires Valid()
      modifies this`writeErr, this`writeSeq, this`prefixSent, this`log, this`done, conn`wire, conn`broken, writeAEAD
      ensures Valid()
      ensures (W(), n, ok) == old(W()).Write(writeAEAD.seal, p, fault)
      ensures fault.Some? <==> conn.broken && !old(conn.broken)
      ensures fault.Some? ==> !ok
    {
      hide TableOf, Encoded, Frames, Concat, Nonce, BigEndian, Writer.SendWhole, Writer.SendCut;
      n, ok, fault := 0, false, None;
      if writeErr {
        return;
      }
      if p == [] {
        ok := true;
        return;
      }
      ghost var w0, k, seal := W(), 0, writeAEAD.seal;
      ContinuesAtStart(w0, seal, p);
      while true
        invariant Valid() && !writeErr && Continues(w0, W(), seal, p, n, k)
        decreases |p| - n
      {
        hide Continues, Writer.Valid;
        ContinuesToEnd(w0, W(), seal, p, n, k);
        if writeSeq == MAX_UINT64 {
          GivingUpKeepsValid(W(), seal);
          writeErr := true;
          return n, false, None;
        }
        var chunk := p[n..];
        if |chunk| > MAX_FRAME_PLAINTEXT {
          chunk := chunk[..MAX_FRAME_PLAINTEXT];
        }
        ghost var w := W();
        var sent, taken := SendFrame(chunk);
        if !sent {
          return n, false, Some(Fault(k, taken));
        }
        if n + |chunk| == |p| {
          return |p|, true, None;
        }
        ContinuesAfterFrame(w0, w, seal, p, n, k, chunk);
        n := n + |chunk|;
        k := k + 1;
      }
    }

    /** Pull one frame off the wire; the caller makes an error stick. */
    method ReadFrame() returns (err: Option<ReadError>)
      requires readErr.None? && plain == []
      modifies this`readSeq, this`readPrefix, this`plain, conn`incoming
      ensures old(R()).ReadFrame(readAEAD.seal, readAEAD.table) == if err.None? then R() else R().Fail(err.value)
    {
      hide Open, Nonce, FrameSize;
      if readSeq >= MAX_UINT64 {
        return Some(CounterExhausted);
      }
      if readPrefix.None? {
        var prefix, short := conn.ReadFull(NONCE_PREFIX_SIZE);
        if short.Some? {
          return Some(if short.value.AtEof? then EndOfStream else NoPrefix(short.value));
        }
        readPrefix := Some(prefix);
      }
      var header, noHeader := conn.ReadFull(FRAME_LEN_SIZE);
      if noHeader.Some? {
        return Some(if noHeader.value.AtEof? then EndOfStream else NoHeader(noHeader.value));
      }
      var size := FrameSize(header);
      if size < OVERHEAD {
        return Some(TooShort(size));
      }
      var body, noBody := conn.ReadFull(size);
      if noBody.Some? {
        return Some(NoBody(noBody.value));
      }
      var unsealed := readAEAD.OpenFrame(Nonce(readPrefix.value, readSeq), body);
      if unsealed.None? {
        return Some(Forged(readSeq));
      }
      readSeq := readSeq + 1;
      plain := unsealed.value;
      return None;
    }

    method Read(cap: nat) returns (data: Bytes, err: Option<ReadError>)
      modifies this, conn`incoming
      ensures (R(), data, err) == old(R()).Read(readAEAD.seal, readAEAD.table, cap)
      ensures W() == old(W()) && writeSeq == old(writeSeq)
    {
      hide Reader.ReadFrame;
      if cap == 0 {
        return [], None;
      }
      if readErr.Some? {
        return [], readErr;
      }
      ghost var seal, table := readAEAD.seal, readAEAD.table;
      while |plain| == 0
        invariant readErr.None? && R().Fill(seal, table) == old(R()).Fill(seal, table)
        invariant readAEAD.table == table && W() == old(W()) && writeSeq == old(writeSeq)
        decreases |conn.incoming|
      {
        R().ReadFrameConsumes(seal, table);
        var e := ReadFrame();
        if e.Some? {
          readErr := e;
          return [], e;
        }
      }
      var n := if cap < |plain| then cap else |plain|;
      data := plain[..n];
      plain := plain[n..];
      delivered := delivered + data;
      return data, None;
    }
  }
}
