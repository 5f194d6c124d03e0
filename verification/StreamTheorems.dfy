/** Whole-run guarantees of two streams over an adversarial network. */
module StreamTheorems {
  import opened Bytes
  import opened Frames
  import opened Security
  import opened Channel
  import opened StreamSpec
  import opened StreamSystem

  function StepOf(y: Sys, left: bool, op: Op): Sys {
    if left then StreamSystem.Step(y, op)
    else StreamSystem.Swap(StreamSystem.Step(StreamSystem.Swap(y), op))
  }

  ghost predicate May(y: Sys, left: bool, op: Op) {
    Allowed(if left then y else StreamSystem.Swap(y), op)
  }

  /** `ops` is a run from y: each operation is one the network allows in the state it meets. */
  ghost predicate Runs(y: Sys, ops: seq<(bool, Op)>)
    decreases |ops|
  {
    ops == [] || (May(y, ops[0].0, ops[0].1) && Runs(StepOf(y, ops[0].0, ops[0].1), ops[1..]))
  }

  function After(y: Sys, ops: seq<(bool, Op)>): Sys
    decreases |ops|
  {
    if ops == [] then y else After(StepOf(y, ops[0].0, ops[0].1), ops[1..])
  }

  lemma OneStepKeeps(y: Sys, left: bool, op: Op)
    requires Inv(y) && May(y, left, op)
    ensures Inv(StepOf(y, left, op))
  {
    hide Inv, StreamSystem.Step;
    if left {
      StreamSystem.StepKeeps(y, op);
    } else {
      SwapKeeps(y);
      StreamSystem.StepKeeps(StreamSystem.Swap(y), op);
      SwapKeeps(StreamSystem.Step(StreamSystem.Swap(y), op));
    }
  }

  lemma {:induction false} RunKeeps(y: Sys, ops: seq<(bool, Op)>)
    requires Inv(y) && Runs(y, ops)
    ensures Inv(After(y, ops))
    decreases |ops|
  {
    hide Inv, May, StepOf;
    if ops != [] {
      OneStepKeeps(y, ops[0].0, ops[0].1);
      RunKeeps(StepOf(y, ops[0].0, ops[0].1), ops[1..]);
    }
  }

  // ---------- start ----------

  /** Two new streams: both plain, or both sealed under one key with distinct nonzero
      challenges. Everything else about them is arbitrary. */
  ghost predicate Starts(y: Sys) {
    && y.fromA == {} && y.fromB == {}
    && y.a == NewNode(NewStream(y.a.s.peer, y.a.s.cipher, y.a.s.hadRx, y.a.s.liveness, y.a.s.lastRx))
    && y.b == NewNode(NewStream(y.b.s.peer, y.b.s.cipher, y.b.s.hadRx, y.b.s.liveness, y.b.s.lastRx))
    && (y.a.s.cipher.Some? <==> y.b.s.cipher.Some?)
    && (y.a.s.cipher.Some? ==>
          var (p, q) := (y.a.s.cipher.value, y.b.s.cipher.value);
          && p == Fresh(p.key, p.local) && q == Fresh(p.key, q.local)
          && p.local != q.local && p.local != NO_ECHO && q.local != NO_ECHO)
  }

  lemma StartIsOk(y: Sys)
    requires Starts(y)
    ensures Inv(y)
  {}

  // ---------- delivery ----------

  /** What r read, with what waits for it, is a prefix of what s accepted. */
  ghost predicate Delivered(s: Node, r: Node) {
    && 0 < r.s.nextExpected <= |s.log| + 1
    && r.read + r.s.rxBuf == LogBytes(s.log[..r.s.nextExpected - 1])
    && r.read + r.s.rxBuf <= s.written
    && r.read <= s.written
  }

  /** The send window lies around the receiver's position. */
  ghost predicate WindowAround(s: Node, r: Node) {
    && |s.s.unacked| <= SEND_WINDOW
    && (forall i | 0 <= i < |s.s.unacked| :: s.s.unacked[i].0 == s.s.nextSeq - |s.s.unacked| + i)
    && s.s.nextSeq - |s.s.unacked| <= r.s.nextExpected <= s.s.nextSeq
    && s.s.outQueueLen == QueueLen(s.s.outQueue) <= OUT_CAP
    && |r.s.rxBuf| <= RX_CAP
  }

  lemma FollowsDelivers(s: Node, r: Node)
    requires Sender(s) && Follows(s, r)
    ensures Delivered(s, r) && WindowAround(s, r)
  {
    hide LogBytes;
    LogPrefix(s.log, r.s.nextExpected - 1);
    assert LogBytes(s.log) <= s.written;
  }

  /** Stream delivery, plain or sealed, in every reachable state and both directions. */
  lemma DeliveryTheorem(y: Sys, ops: seq<(bool, Op)>)
    requires Starts(y) && Runs(y, ops)
    ensures var z := After(y, ops);
      && Delivered(z.a, z.b) && Delivered(z.b, z.a)
      && WindowAround(z.a, z.b) && WindowAround(z.b, z.a)
  {
    StartIsOk(y);
    RunKeeps(y, ops);
    var z := After(y, ops);
    FollowsDelivers(z.a, z.b);
    FollowsDelivers(z.b, z.a);
  }

  /** Sealed frames: what an end opened is a loss and reordering of what the other sealed. */
  lemma OpenedOnceTheorem(y: Sys, ops: seq<(bool, Op)>)
    requires Starts(y) && Runs(y, ops) && After(y, ops).a.s.cipher.Some?
    ensures var z := After(y, ops);
      && multiset(Messages(z.a.accepted)) <= multiset(z.b.sealed)
      && multiset(Messages(z.b.accepted)) <= multiset(z.a.sealed)
  {
    StartIsOk(y);
    RunKeeps(y, ops);
    var z := After(y, ops);
    OpenedIsSubcollection(z.a.accepted, z.b.sealed);
    OpenedIsSubcollection(z.b.accepted, z.a.sealed);
  }

  // ---------- close ----------

  ghost predicate Closes(s: Node, r: Node) {
    && (s.s.finSent ==> s.s.finSeq == s.s.nextSeq - 1 && s.s.outQueue == [] && s.s.writeClosed)
    && (r.s.rxClosed ==> s.s.finSent && r.read + r.s.rxBuf == s.written)
    && (s.s.finAcked && !s.gaveUp ==> r.s.rxClosed)
  }

  lemma FollowsCloses(s: Node, r: Node)
    requires Sender(s) && Follows(s, r)
    ensures Closes(s, r)
  {
    hide LogBytes;
    if r.s.rxClosed {
      var k := r.s.nextExpected - 1;
      var i :| 0 <= i < k && s.log[..k][i] == End;
      assert s.log[i].End?;
      assert s.log[..k] == s.log;
      assert LogBytes(s.log) + Concat([]) == LogBytes(s.log);
    }
  }

  /** The end of the stream means every byte; an acknowledged FIN means the peer saw it. */
  lemma CloseTheorem(y: Sys, ops: seq<(bool, Op)>)
    requires Starts(y) && Runs(y, ops)
    ensures var z := After(y, ops); Closes(z.a, z.b) && Closes(z.b, z.a)
  {
    StartIsOk(y);
    RunKeeps(y, ops);
    var z := After(y, ops);
    FollowsCloses(z.a, z.b);
    FollowsCloses(z.b, z.a);
  }

  // ---------- reading ----------

  /** What a read with room yields: an error only from a failed stream; nothing at all exactly
      when every byte s accepted has been read and its FIN has come; else the next bytes, as
      many as fit or are there. */
  ghost predicate Yields(s: Node, r: Node, room: nat) {
    && 0 < r.s.nextExpected <= |s.log| + 1
    && var come := s.log[..r.s.nextExpected - 1];
       var (after, got) := PollRead(r.s, room);
       && (got.ReadError? <==> r.s.err.Some?)
       && (got == ReadResult.Bytes([]) <==> r.s.err.None? && End in come && r.read == s.written)
       && (got.Bytes? && got.bytes != [] ==>
             && r.read + got.bytes + after.rxBuf == LogBytes(come)
             && |got.bytes| <= room && (|got.bytes| == room || after.rxBuf == []))
       && (got.ReadPending? ==> r.read == LogBytes(come) && End !in come)
  }

  lemma ReadYields(s: Node, r: Node, room: nat)
    requires Sender(s) && Follows(s, r) && Closes(s, r) && room > 0
    ensures Yields(s, r, room)
  {
    FollowsDelivers(s, r);
    var come := s.log[..r.s.nextExpected - 1];
    assert r.s.rxClosed ==> r.read + r.s.rxBuf == s.written;
    assert (r.s.rxClosed <==> End in come) && r.read + r.s.rxBuf == LogBytes(come);
    hide *;
    YieldsSplit(s, r, room, come);
  }

  lemma YieldsSplit(s: Node, r: Node, room: nat, come: seq<Item>)
    requires 0 < r.s.nextExpected <= |s.log| + 1 && come == s.log[..r.s.nextExpected - 1] && room > 0
    requires (r.s.rxClosed <==> End in come) && r.read + r.s.rxBuf == LogBytes(come)
    requires r.s.rxClosed ==> r.read + r.s.rxBuf == s.written
    ensures Yields(s, r, room)
  {
    hide LogBytes;
    var (after, got) := PollRead(r.s, room);
    if got.Bytes? {
      assert got.bytes + after.rxBuf == r.s.rxBuf;
      assert r.read + got.bytes + after.rxBuf == r.read + (got.bytes + after.rxBuf);
    }
    assert r.s.rxBuf == [] ==> r.read + r.s.rxBuf == r.read;
    assert r.read == r.read + r.s.rxBuf ==> |r.s.rxBuf| == 0;
  }

  /** In every run and at either end. */
  lemma ReadTheorem(y: Sys, ops: seq<(bool, Op)>, room: nat)
    requires Starts(y) && Runs(y, ops) && room > 0
    ensures var z := After(y, ops); Yields(z.a, z.b, room) && Yields(z.b, z.a, room)
  {
    StartIsOk(y);
    RunKeeps(y, ops);
    CloseTheorem(y, ops);
    var z := After(y, ops);
    ReadYields(z.a, z.b, room);
    ReadYields(z.b, z.a, room);
  }

  // ---------- writing and closing ----------

  /** What a write accepts: nothing after an error, a shutdown, or with 256 KiB queued; else as
      much as there is room for below that. */
  lemma WriteMeans(n: Node, buf: seq<byte>)
    ensures var (s, r) := PollWrite(n.s, buf);
      var free := 262144 - n.s.outQueueLen;
      && (r.WriteError? <==> n.s.err.Some?)
      && (r.BrokenPipe? <==> n.s.err.None? && n.s.writeClosed)
      && (r.WritePending? <==> n.s.err.None? && !n.s.writeClosed && free <= 0)
      && (r.Written? ==> r.count == if |buf| <= free then |buf| else free)
      && NodeStep(n, Write(buf)).0.written == n.written + (if r.Written? then buf[..r.count] else [])
      && (!r.Written? ==> s == n.s)
  {
    hide Chunks;
  }

  /** It is queued in pieces that fit a frame, 1136 bytes of a sealed stream and 1200 of a plain
      one: all of that size but the last, which is not empty. */
  lemma WriteQueues(s: Stream, buf: seq<byte>)
    requires PollWrite(s, buf).1.Written?
    ensures var (t, size) := (PollWrite(s, buf).0, if s.cipher.Some? then 1136 else 1200);
      && |s.outQueue| <= |t.outQueue| && t.outQueue[..|s.outQueue|] == s.outQueue
      && var more := t.outQueue[|s.outQueue|..];
         && Concat(more) == buf[..PollWrite(s, buf).1.count]
         && (forall i | 0 <= i < |more| - 1 :: |more[i]| == size)
         && (more != [] ==> 0 < |more[|more| - 1]| <= size)
  {
    var size := if s.cipher.Some? then 1136 else 1200;
    var part := buf[..PollWrite(s, buf).1.count];
    ChunksWhole(part, size);
    ChunksFull(part, size);
    hide Chunks, Concat;
    assert (s.outQueue + Chunks(part, size))[|s.outQueue|..] == Chunks(part, size);
  }

  lemma {:induction false} ChunksFull(buf: seq<byte>, size: nat)
    requires size > 0
    ensures var c := Chunks(buf, size);
      (forall i | 0 <= i < |c| - 1 :: |c[i]| == size) && (c != [] ==> 0 < |c[|c| - 1]| <= size)
    decreases |buf|
  {
    if |buf| > size {
      ChunksFull(buf[size..], size);
      assert Chunks(buf[size..], size) != [];
    }
  }

  // ---------- flushing ----------

  /** The stream may send. */
  predicate Ready(s: Stream) {
    s.err.None? && (s.cipher.Some? ==> s.cipher.value.remote.Some?)
  }

  /** There is a number and room in the window for one more frame. */
  predicate Free(s: Stream) {
    s.nextSeq != 0xFFFF_FFFF && |s.unacked| < 32
  }

  lemma MoveMeans(s: Stream)
    ensures var move := NextMove(s);
      && (move.SendData? <==> Ready(s) && Free(s) && s.outQueue != [])
      && (move.SendFin? <==> Ready(s) && Free(s) && s.outQueue == [] && s.writeClosed && !s.finSent)
      && (move.Exhausted? <==> Ready(s) && s.nextSeq == 0xFFFF_FFFF)
  {}

  /** The frame goes out under the next number and waits for its acknowledgement. */
  ghost predicate SentNext(n: Node, k: Node, out: seq<Datagram>, item: Item, f: Frame) {
    && k.log == n.log + [item] && k.s.nextSeq == n.s.nextSeq + 1 && k.s.err == n.s.err
    && f.number == n.s.nextSeq && f.ack == n.s.nextExpected
    && k.s.unacked == n.s.unacked + [(n.s.nextSeq, EncodeFrame(f))]
    && (n.s.cipher.None? ==> out == [Raw(EncodeFrame(f))])
  }

  /** One pass of a flush. Nothing goes out of a failed stream, before the handshake, after the
      last number, or with 32 frames unacknowledged; else the oldest piece does, and when there
      is none, after a shutdown, the FIN, once. */
  lemma FlushMeans(n: Node)
    ensures var (k, out) := NodeStep(n, Flush);
      if Ready(n.s) && Free(n.s) && n.s.outQueue != [] then
        && SentNext(n, k, out, Chunk(n.s.outQueue[0]), Frame(FrameKind.Data, n.s.nextSeq, n.s.nextExpected, n.s.outQueue[0]))
        && k.s.outQueue == n.s.outQueue[1..] && k.s.finSent == n.s.finSent
      else if Ready(n.s) && Free(n.s) && n.s.writeClosed && !n.s.finSent then
        && SentNext(n, k, out, End, Frame(Fin, n.s.nextSeq, n.s.nextExpected, []))
        && k.s.outQueue == [] && k.s.finSent && k.s.finSeq == n.s.nextSeq
      else
        && out == []
        && k == n.(s := n.s.(err := if Ready(n.s) && n.s.nextSeq == 0xFFFF_FFFF then Some(SequenceExhausted) else n.s.err))
  {
    MoveMeans(n.s);
    hide EncodeFrame, NextMove;
    match NextMove(n.s) {
      case SendData => DataSent(n);
      case SendFin => FinSent(n);
      case _ => assert n.sealed + [] == n.sealed;
    }
  }

  lemma TransmitPlain(s: Stream, frame: seq<byte>)
    ensures var (t, out) := Transmit(s, frame);
      t == s.(cipher := t.cipher) && (s.cipher.None? ==> out == [Raw(frame)])
  {}

  lemma DataSent(n: Node)
    requires NextMove(n.s).SendData? && n.s.outQueue != []
    ensures var (k, out) := NodeStep(n, Flush);
      && SentNext(n, k, out, Chunk(n.s.outQueue[0]), Frame(FrameKind.Data, n.s.nextSeq, n.s.nextExpected, n.s.outQueue[0]))
      && k.s.outQueue == n.s.outQueue[1..] && k.s.finSent == n.s.finSent
  {
    hide EncodeFrame, Transmit, NextMove;
    var s := Dequeued(n.s);
    var frame := EncodeFrame(Frame(FrameKind.Data, s.nextSeq, s.nextExpected, n.s.outQueue[0]));
    TransmitPlain(s.(nextSeq := s.nextSeq + 1, unacked := s.unacked + [(s.nextSeq, frame)]), frame);
  }

  lemma FinSent(n: Node)
    requires NextMove(n.s).SendFin? && n.s.outQueue == []
    ensures var (k, out) := NodeStep(n, Flush);
      && SentNext(n, k, out, End, Frame(Fin, n.s.nextSeq, n.s.nextExpected, []))
      && k.s.outQueue == [] && k.s.finSent && k.s.finSeq == n.s.nextSeq
  {
    hide EncodeFrame, Transmit, NextMove;
    var s := n.s.(finSent := true, finSeq := n.s.nextSeq);
    var frame := EncodeFrame(Frame(Fin, s.nextSeq, s.nextExpected, []));
    TransmitPlain(s.(nextSeq := s.nextSeq + 1, unacked := s.unacked + [(s.nextSeq, frame)]), frame);
  }

  /** A whole flush: passes until one sends nothing. On a plain stream exactly the frames that are
      unacknowledged since go out, in order. */
  lemma {:induction false} FlushOutMeans(s: Stream)
    ensures var (t, out) := FlushOut(s);
      && |s.unacked| <= |t.unacked| && t.unacked[..|s.unacked|] == s.unacked
      && !(Ready(t) && Free(t) && (t.outQueue != [] || (t.writeClosed && !t.finSent)))
      && (s.cipher.None? ==> out == RawFrames(t.unacked[|s.unacked|..]))
    decreases SEND_WINDOW - |s.unacked|
  {
    hide EncodeFrame;
    var n := NewNode(s);
    MoveMeans(s);
    FlushMeans(n);
    match FlushOne(s) {
      case Stop(t) =>
        assert t.unacked[..|s.unacked|] == s.unacked && RawFrames(t.unacked[|s.unacked|..]) == [];
      case Sent(s1, out1) =>
        FlushOutMeans(s1);
        hide FlushOne;
        var (t, out2) := FlushOut(s1);
        assert s1.unacked[..|s.unacked|] == s.unacked;
        assert t.unacked[..|s.unacked|] == s.unacked by {
          assert t.unacked[..|s1.unacked|][..|s.unacked|] == t.unacked[..|s.unacked|];
        }
        if s.cipher.None? {
          assert t.unacked[|s.unacked|..] == [s1.unacked[|s.unacked|]] + t.unacked[|s1.unacked|..] by {
            assert t.unacked[|s.unacked|] == t.unacked[..|s1.unacked|][|s.unacked|];
          }
          assert RawFrames(t.unacked[|s.unacked|..]) == out1 + RawFrames(t.unacked[|s1.unacked|..]);
        }
    }
  }

  // ---------- a frame from the peer ----------

  /** The frames an acknowledgement leaves, numbered in increasing order: those not below it. */
  lemma {:induction false} DropsBelow(unacked: seq<(nat, seq<byte>)>, ack: nat, e: (nat, seq<byte>))
    requires forall i, j | 0 <= i < j < |unacked| :: unacked[i].0 < unacked[j].0
    ensures e in DropAcked(unacked, ack) <==> e in unacked && e.0 >= ack
    decreases |unacked|
  {
    if unacked != [] && unacked[0].0 < ack {
      DropsBelow(unacked[1..], ack, e);
      assert e in unacked <==> e == unacked[0] || e in unacked[1..];
    } else if e in unacked {
      var i :| 0 <= i < |unacked| && unacked[i] == e;
      assert i > 0 ==> unacked[0].0 < unacked[i].0;
    }
  }

  /** Everything a frame from the peer does. It renews the silence and the address. An
      acknowledgement that is not beyond the next number drops what is below it, and may
      acknowledge the FIN. The next frame, if the buffer has room, is delivered; past the last
      number its bytes are taken, but it is neither counted nor answered. A ping and every frame
      that is not the next one are answered. */
  lemma FrameMeans(s: Stream, f: Frame, src: Option<Addr>, now: nat)
    ensures var (t, answer) := Absorb(s, f, src, now);
      var acks := 0 < f.ack <= s.nextSeq;
      var next := f.kind != Ack && f.number == s.nextExpected;
      var fits := f.kind == Fin || |s.rxBuf| + |f.payload| <= 1048576;
      var counts := next && fits && s.nextExpected != 0xFFFF_FFFF;
      && t == s.(peer := if src.Some? then src.value else s.peer, lastRx := now, hadRx := true,
                 unacked := if acks then DropAcked(s.unacked, f.ack) else s.unacked,
                 finAcked := s.finAcked || (acks && s.finSent && s.finSeq < f.ack),
                 rxBuf := if next && fits && f.kind != Fin then s.rxBuf + f.payload else s.rxBuf,
                 nextExpected := if counts then s.nextExpected + 1 else s.nextExpected,
                 rxClosed := s.rxClosed || (counts && f.kind == Fin))
      && (answer <==> if f.kind == Ack then f.payload == [0x70] else !next || counts)
  {
    hide DropAcked;
  }

  /** What a shutdown reports, in every run: an error only from a failed stream; done only if the
      FIN was given up on, or the other end has seen it and with it every byte. From then on
      nothing can be written. */
  lemma ShutdownTheorem(y: Sys, ops: seq<(bool, Op)>, buf: seq<byte>)
    requires Starts(y) && Runs(y, ops)
    ensures var z := After(y, ops);
      var (s, r) := PollShutdown(z.a.s);
      && (r.ShutdownError? <==> z.a.s.err.Some?)
      && (r.ShutdownError? ==> s == z.a.s)
      && (r.ShutdownDone? <==> z.a.s.err.None? && z.a.s.finAcked)
      && (r.ShutdownDone? ==> z.a.gaveUp || (z.b.s.rxClosed && z.b.read + z.b.s.rxBuf == z.a.written))
      && (!r.ShutdownError? ==> s == z.a.s.(writeClosed := true) && PollWrite(s, buf).1 == BrokenPipe)
  {
    CloseTheorem(y, ops);
    hide Runs, After, Starts;
  }

  // ---------- the timer ----------

  /** When a tick does what: five seconds of silence end the wait for the FIN's acknowledgement;
      the liveness time, or five times that before the first frame, loses the peer; otherwise
      what is unacknowledged goes out again, or a probe after a second without sending. */
  lemma TickMeans(s: Stream, lastTx: nat, now: nat)
    ensures var silent := now - s.lastRx;
      var closing := s.finSent && !s.finAcked && silent > 5000;
      var lost := s.err.None? && silent > (if s.hadRx then s.liveness else 5 * s.liveness);
      var (t, sent, _) := OnTimer(s, lastTx, now);
      && t == s.(finAcked := s.finAcked || closing, cipher := t.cipher,
                 err := if !closing && lost then Some(ConnectionLost) else s.err)
      && (Resends(s, now) <==> !closing && !lost && s.err.None? && s.unacked != [])
      && (Probes(s, lastTx, now) <==> !closing && !lost && s.err.None? && s.unacked == [] && now - lastTx >= 1000)
      && sent == if Resends(s, now) || Probes(s, lastTx, now) then now else lastTx
  {
    hide AckFrame, Greeting, TransmitAll;
    TransmitAllCipher(s, s.unacked);
  }

  predicate Resends(s: Stream, now: nat) { TickOf(s, 0, now).Resend? }

  predicate Probes(s: Stream, lastTx: nat, now: nat) { TickOf(s, lastTx, now).Probe? }

  /** What goes out: before the peer is known a hello alone. */
  lemma TickSays(s: Stream, lastTx: nat, now: nat)
    requires s.cipher.Some? ==> s.cipher.value.remote.None?
    ensures OnTimer(s, lastTx, now).2
      == if s.cipher.Some? then [HelloFrom(s.cipher.value, NO_ECHO)]
         else if Resends(s, now) then RawFrames(s.unacked)
         else if Probes(s, lastTx, now) then [Raw(EncodeFrame(Frame(Ack, s.nextSeq, s.nextExpected, [0x70])))]
         else []
  {
    hide EncodeFrame, TransmitAll;
    if s.cipher.None? {
      PlainFrames(s, s.unacked);
    } else {
      NoneSealed(s, s.unacked);
    }
  }

  /** Frames as a plain stream sends them. */
  function RawFrames(unacked: seq<(nat, seq<byte>)>): seq<Datagram> {
    seq(|unacked|, i requires 0 <= i < |unacked| => Raw(unacked[i].1))
  }

  lemma PlainFrames(s: Stream, frames: seq<(nat, seq<byte>)>)
    requires s.cipher.None?
    ensures TransmitAll(s, frames) == (s, RawFrames(frames))
    decreases |frames|
  {
    if frames != [] {
      PlainFrames(s, frames[1..]);
      assert TransmitAll(s, frames) == (s, [Raw(frames[0].1)] + RawFrames(frames[1..]));
      assert [Raw(frames[0].1)] + RawFrames(frames[1..]) == RawFrames(frames);
    } else {
      assert RawFrames(frames) == [];
    }
  }

  lemma NoneSealed(s: Stream, frames: seq<(nat, seq<byte>)>)
    requires s.cipher.Some? && s.cipher.value.remote.None?
    ensures TransmitAll(s, frames) == (s, [])
    decreases |frames|
  {
    if frames != [] {
      NoneSealed(s, frames[1..]);
      var none: seq<Datagram> := [];
      assert Transmit(s, frames[0].1) == (s, none) && none + none == none;
      assert TransmitAll(s, frames) == (s, none + none);
    }
  }

  // ---------- the peer's address ----------

  /** The address in use moves exactly when something from elsewhere, which the caller vouches
      for, deciphers to a frame; a foreign sender moves nothing. */
  lemma PeerMoves(n: Node, op: Op)
    ensures var n' := NodeStep(n, op).0;
      && (n'.s.peer != n.s.peer <==>
            op.Take? && op.trusted && op.src.Some? && op.src.value != n.s.peer
            && var r := Decipher(n.s, op.d).1; r.Data? && ParseFrame(r.msg).Some?)
      && (n'.s.peer != n.s.peer ==> n'.s.peer == op.src.value)
  {
    if op.Take? {
      hide *;
      TakePeer(n, op);
    } else {
      OtherPeer(n, op);
    }
  }

  lemma OtherPeer(n: Node, op: Op)
    requires !op.Take?
    ensures NodeStep(n, op).0.s.peer == n.s.peer
  {
    match op {
      case Flush => FlushPeer(n.s);
      case Timer(lastTx, now) => TickPeer(n.s, lastTx, now);
      case _ => hide Chunks;
    }
    hide FlushOne, OnTimer;
  }

  lemma FlushPeer(s: Stream)
    ensures FlushOne(s).s.peer == s.peer
  {
    hide Transmit, EncodeFrame;
  }

  lemma TickPeer(s: Stream, lastTx: nat, now: nat)
    ensures OnTimer(s, lastTx, now).0.peer == s.peer
  {
    hide Transmit, TransmitAll, AckFrame, Greeting;
    TransmitAllCipher(s, s.unacked);
  }

  lemma TakePeer(n: Node, op: Op)
    requires op.Take?
    ensures NodeStep(n, op).0.s.peer
         == if !Foreign(n.s, op) && op.src.Some?
               && Decipher(n.s, op.d).1.Data? && ParseFrame(Decipher(n.s, op.d).1.msg).Some?
            then op.src.value else n.s.peer
  {
    hide Receive, ParseFrame, AckFrame, Absorb, Transmit;
    var (s1, r) := Decipher(n.s, op.d);
    if r.Data? && ParseFrame(r.msg).Some? {
      AbsorbPeer(s1, ParseFrame(r.msg).value, op.src, op.now);
    }
  }

  lemma AbsorbPeer(s: Stream, f: Frame, src: Option<Addr>, now: nat)
    ensures Absorb(s, f, src, now).0.peer == if src.Some? then src.value else s.peer
  {}

  /** Nobody vouches for another address of this side. */
  predicate Unvouched(left: bool, ops: seq<(bool, Op)>) {
    forall i | 0 <= i < |ops| :: ops[i].0 == left && ops[i].1.Take? ==> !ops[i].1.trusted
  }

  /** Whatever strangers send, in any run, the stream stays with the address it was made for. */
  lemma {:induction false} PeerTheorem(y: Sys, ops: seq<(bool, Op)>)
    requires Unvouched(true, ops)
    ensures After(y, ops).a.s.peer == y.a.s.peer
    decreases |ops|
  {
    hide NodeStep, StreamSpec.Decipher;
    if ops != [] {
      var (left, op) := (ops[0].0, ops[0].1);
      assert Unvouched(true, ops[1..]) by { assert forall i | 0 <= i < |ops[1..]| :: ops[1..][i] == ops[i + 1]; }
      PeerMoves(y.a, op);
      PeerTheorem(StepOf(y, left, op), ops[1..]);
    }
  }

  lemma TransmitAllCipher(s: Stream, frames: seq<(nat, seq<byte>)>)
    ensures var s' := TransmitAll(s, frames).0; s' == s.(cipher := s'.cipher)
    decreases |frames|
  {
    if frames != [] {
      TransmitAllCipher(Transmit(s, frames[0].1).0, frames[1..]);
    }
  }

  lemma AbsorbLeavesSendSide(s: Stream, f: Frame, src: Option<Addr>, now: nat)
    ensures var s' := Absorb(s, f, src, now).0;
      s'.nextSeq == s.nextSeq && s'.finSent == s.finSent && s'.finSeq == s.finSeq
  {}

  lemma IncomingLeavesSendSide(s: Stream, d: Datagram, src: Option<Addr>, trusted: bool, now: nat)
    ensures var s' := HandleIncoming(s, d, src, trusted, now).0;
      s'.nextSeq == s.nextSeq && s'.finSent == s.finSent && s'.finSeq == s.finSeq
  {
    hide Receive, ParseFrame, AckFrame, Absorb, Transmit;
    var (s1, r) := Decipher(s, d);
    if r.Data? && ParseFrame(r.msg).Some? {
      AbsorbLeavesSendSide(s1, ParseFrame(r.msg).value, src, now);
    }
  }

  /** After the FIN no step numbers or accepts anything more. */
  lemma FinIsLast(n: Node, op: Op)
    requires FinLast(n) && n.s.finSent
    ensures var n' := NodeStep(n, op).0;
      && n'.s.finSent && n'.s.nextSeq == n.s.nextSeq && n'.s.finSeq == n.s.finSeq
      && n'.log == n.log && n'.written == n.written
  {
    hide HandleIncoming, TransmitAll, AckFrame, Chunks, Seal;
    assert n.written + [] == n.written;
    TransmitAllCipher(n.s, n.s.unacked);
    if op.Take? {
      IncomingLeavesSendSide(n.s, op.d, op.src, op.trusted, op.now);
    }
  }

  /** The timeout path is different: a FIN nobody received counts as acknowledged, and
      shutdown then succeeds. */
  lemma GivingUpProvesNothing(y: Sys)
    requires Starts(y) && y.a.s.cipher.None?
    ensures
      var late := y.a.s.lastRx + CLOSE_TIMEOUT_MS + 1;
      var ops := [(true, Shutdown), (true, Flush), (true, Timer(0, late))];
      var z := After(y, ops);
      && Runs(y, ops)
      && z.a.gaveUp && z.a.s.finAcked && !z.b.s.rxClosed
      && PollShutdown(z.a.s).1 == ShutdownDone
  {
    var late := y.a.s.lastRx + CLOSE_TIMEOUT_MS + 1;
    var ops := [(true, Shutdown), (true, Flush), (true, Timer(0, late))];
    var y1 := StreamSystem.Step(y, Shutdown);
    var y2 := StreamSystem.Step(y1, Flush);
    var y3 := StreamSystem.Step(y2, Timer(0, late));
    assert ops[1..] == [(true, Flush), (true, Timer(0, late))] && ops[1..][1..] == [(true, Timer(0, late))];
    assert ops[1..][1..][1..] == [];
    assert NextMove(y1.a.s).SendFin?;
    assert y2.a.s.finSent && !y2.a.s.finAcked && y2.a.s.lastRx == y.a.s.lastRx && y2.a.s.err.None?;
    assert Runs(y3, []) && After(y3, []) == y3;
    assert Runs(y2, ops[1..][1..]) && After(y2, ops[1..][1..]) == y3;
    assert Runs(y1, ops[1..]) && After(y1, ops[1..]) == y3;
  }
}
