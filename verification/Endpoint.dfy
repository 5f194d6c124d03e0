/** The stream's shared state as the object the source mutates under its lock. `out` holds
    the datagrams a handler passes to the socket. */
module Endpoint {
  import opened Bytes
  import opened Frames
  import opened Security
  import opened StreamSpec

  lemma ChunksFrom(buf: seq<byte>, chunk: nat, at: nat)
    requires chunk > 0 && at < |buf|
    ensures var end := Min(at + chunk, |buf|);
      Chunks(buf[at..], chunk) == [buf[at..end]] + Chunks(buf[end..], chunk)
  {
    var rest, end := buf[at..], Min(at + chunk, |buf|);
    if |rest| > chunk {
      assert rest[..chunk] == buf[at..end] && rest[chunk..] == buf[end..];
    } else {
      assert rest == buf[at..end] && buf[end..] == [];
    }
  }

  class Shared {
    var peer: Addr
    var rxBuf: seq<byte>
    var rxClosed: bool
    var nextExpected: nat
    var outQueue: seq<seq<byte>>
    var outQueueLen: nat
    var unacked: seq<(nat, seq<byte>)>
    var nextSeq: nat
    var finSent: bool
    var finSeq: nat
    var finAcked: bool
    var writeClosed: bool
    var lastRx: nat
    const liveness: nat
    var hadRx: bool
    var err: Option<Failure>
    const cipher: DatagramSecurity?

    ghost function Repr(): set<object>
    {
      if cipher == null then {this} else {this, cipher}
    }

    ghost function View(): Stream
      reads Repr()
    {
      Stream(peer, rxBuf, rxClosed, nextExpected, outQueue, outQueueLen, unacked, nextSeq,
             finSent, finSeq, finAcked, writeClosed, lastRx, liveness, hadRx, err,
             if cipher == null then None else Some(cipher.View()))
    }

    constructor (peer: Addr, cipher: DatagramSecurity?, hadRx: bool, liveness: nat, now: nat)
      ensures this.cipher == cipher
      ensures View() == NewStream(peer, if cipher == null then None else Some(cipher.View()),
                                  hadRx, liveness, now)
    {
      this.peer, this.cipher, this.hadRx, this.liveness, lastRx := peer, cipher, hadRx, liveness, now;
      rxBuf, rxClosed, nextExpected := [], false, 1;
      outQueue, outQueueLen, unacked, nextSeq := [], 0, [], 1;
      finSent, finSeq, finAcked, writeClosed, err := false, 0, false, false, None;
    }

    method PollWrite(buf: seq<byte>) returns (r: WriteResult)
      modifies this
      ensures (View(), r) == StreamSpec.PollWrite(old(View()), buf)
    {
      if err.Some? {
        return WriteError;
      }
      if writeClosed {
        return BrokenPipe;
      }
      if outQueueLen >= OUT_CAP {
        return WritePending;
      }
      var toTake := Min(|buf|, OUT_CAP - outQueueLen);
      QueueChunks(buf[..toTake], if cipher != null then MAX_PLAINTEXT else MAX_PAYLOAD);
      r := Written(toTake);
    }

    method QueueChunks(buf: seq<byte>, chunk: nat)
      requires chunk > 0
      modifies `outQueue, `outQueueLen
      ensures outQueue == old(outQueue) + Chunks(buf, chunk)
      ensures outQueueLen == old(outQueueLen) + |buf|
    {
      var written := 0;
      ghost var q := outQueue;
      ghost var done: seq<seq<byte>> := [];
      assert buf[0..] == buf;
      while written < |buf|
        invariant written <= |buf|
        invariant done + Chunks(buf[written..], chunk) == Chunks(buf, chunk)
        invariant outQueue == q + done
        invariant outQueueLen == old(outQueueLen) + written
      {
        var end := Min(written + chunk, |buf|);
        ChunksFrom(buf, chunk, written);
        var piece := buf[written..end];
        outQueue := outQueue + [piece];
        outQueueLen := outQueueLen + (end - written);
        written := end;
        done := done + [piece];
      }
      assert buf[written..] == [];
    }

    method PollRead(room: nat) returns (r: ReadResult)
      modifies this
      ensures (View(), r) == StreamSpec.PollRead(old(View()), room)
    {
      if err.Some? {
        return ReadError;
      }
      if rxBuf != [] {
        var n := Min(room, |rxBuf|);
        r := ReadResult.Bytes(rxBuf[..n]);
        rxBuf := rxBuf[n..];
        return;
      }
      if rxClosed {
        return ReadResult.Bytes([]);
      }
      r := ReadPending;
    }

    method PollShutdown() returns (r: ShutdownResult)
      modifies this
      ensures (View(), r) == StreamSpec.PollShutdown(old(View()))
    {
      if err.Some? {
        return ShutdownError;
      }
      if !writeClosed {
        writeClosed := true;
      } else if finAcked {
        return ShutdownDone;
      }
      r := if finAcked then ShutdownDone else ShutdownPending;
    }

    method SendFrame(frame: seq<byte>) returns (out: seq<Datagram>)
      modifies Repr() - {this}
      ensures (View(), out) == Transmit(old(View()), frame)
    {
      if cipher == null {
        out := [Raw(frame)];
      } else {
        var d := cipher.SealNext(frame);
        out := if d.Some? then [d.value] else [];
      }
    }

    method ChooseMove() returns (m: Move)
      ensures m == NextMove(View())
    {
      if err.Some? {
        return Wait;
      }
      if cipher != null && !cipher.Ready() {
        return Wait;
      }
      if nextSeq == LAST_NUMBER {
        return Exhausted;
      }
      if |unacked| >= SEND_WINDOW {
        return Wait;
      }
      m := if outQueue != [] then SendData else if writeClosed && !finSent then SendFin else Wait;
    }

    method Dequeue() returns (payload: seq<byte>)
      requires outQueue != []
      modifies this
      ensures payload == old(outQueue[0]) && View() == Dequeued(old(View()))
    {
      payload := outQueue[0];
      outQueue := outQueue[1..];
      outQueueLen := if |payload| <= outQueueLen then outQueueLen - |payload| else 0;
    }

    method FlushPass() returns (more: bool, out: seq<Datagram>)
      modifies Repr()
      ensures FlushOne(old(View())) == if more then Sent(View(), out) else Stop(View())
      ensures more ==> |unacked| == old(|unacked|) + 1 <= SEND_WINDOW
      ensures !more ==> out == []
    {
      more, out := false, [];
      var move := ChooseMove();
      match move {
        case Wait =>
        case Exhausted =>
          err := Some(SequenceExhausted);
        case SendData =>
          var payload := Dequeue();
          out := Enqueue(FrameKind.Data, payload);
          more := true;
        case SendFin =>
          finSent, finSeq := true, nextSeq;
          out := Enqueue(Fin, []);
          more := true;
      }
    }

    method Enqueue(kind: FrameKind, payload: seq<byte>) returns (out: seq<Datagram>)
      modifies Repr()
      ensures (View(), out) == Enqueued(old(View()), kind, payload)
      ensures |unacked| == old(|unacked|) + 1
    {
      var frame := EncodeFrame(Frame(kind, nextSeq, nextExpected, payload));
      unacked := unacked + [(nextSeq, frame)];
      nextSeq := nextSeq + 1;
      out := SendFrame(frame);
    }

    method Flush() returns (out: seq<Datagram>)
      modifies Repr()
      ensures (View(), out) == FlushOut(old(View()))
    {
      out := [];
      var more := true;
      ghost var goal := FlushOut(View());
      assert [] + goal.1 == goal.1;
      while more
        invariant more ==> goal == (FlushOut(View()).0, out + FlushOut(View()).1)
        invariant !more ==> goal == (View(), out)
        decreases more, SEND_WINDOW - |unacked|
      {
        ghost var rest := FlushOut(View()).1;
        var sent;
        more, sent := FlushPass();
        assert more ==> out + rest == out + sent + FlushOut(View()).1;
        out := out + sent;
      }
    }

    method TakeDatagram(d: Datagram) returns (r: Incoming)
      modifies Repr() - {this}
      ensures (View(), r) == Decipher(old(View()), d)
    {
      if cipher == null {
        r := if d.Raw? then Incoming.Data(d.bytes) else Ignore;
      } else {
        r := cipher.Take(d);
      }
    }

    method HandleIncoming(d: Datagram, src: Option<Addr>, trusted: bool, now: nat)
      returns (out: seq<Datagram>)
      modifies Repr()
      ensures (View(), out) == StreamSpec.HandleIncoming(old(View()), d, src, trusted, now)
    {
      if !trusted && src.Some? && src.value != peer {
        return [];
      }
      var incoming := TakeDatagram(d);
      match incoming {
        case Ignore => return [];
        case Reply(h) => return [h];
        case Data(bytes) =>
          var f := ParseFrame(bytes);
          if f.None? {
            return [];
          }
          out := HandleFrame(f.value, src, now);
      }
    }

    method HandleAck(ack: nat)
      modifies this
      ensures View() == TakeAck(old(View()), ack)
    {
      ghost var s0 := View();
      if ack > 0 && ack <= nextSeq {
        while unacked != [] && unacked[0].0 < ack
          invariant DropAcked(unacked, ack) == DropAcked(s0.unacked, ack)
          invariant View() == s0.(unacked := unacked)
          decreases |unacked|
        {
          unacked := unacked[1..];
        }
        if finSent && ack > finSeq && !finAcked {
          finAcked := true;
        }
      }
    }

    method HandleInOrder(f: Frame) returns (answer: bool)
      modifies this
      ensures (View(), answer) == TakeInOrder(old(View()), f)
    {
      if f.kind == FrameKind.Data {
        if |rxBuf| + |f.payload| > RX_CAP {
          return false;
        }
        rxBuf := rxBuf + f.payload;
      }
      if nextExpected == LAST_NUMBER {
        return false;
      }
      nextExpected := nextExpected + 1;
      if f.kind == Fin {
        rxClosed := true;
      }
      answer := true;
    }

    method HandleFrame(f: Frame, src: Option<Addr>, now: nat) returns (out: seq<Datagram>)
      modifies Repr()
      ensures (View(), out) == TakeFrame(old(View()), f, src, now)
    {
      peer := if src.Some? then src.value else peer;
      lastRx, hadRx := now, true;
      HandleAck(f.ack);
      var answer := f.kind != Ack || f.payload == PING;
      if f.kind != Ack && f.number == nextExpected {
        answer := HandleInOrder(f);
      }
      if !answer {
        return [];
      }
      out := SendFrame(EncodeFrame(Frame(Ack, nextSeq, nextExpected, [])));
    }

    method Retransmit() returns (out: seq<Datagram>)
      modifies Repr() - {this}
      ensures (View(), out) == TransmitAll(old(View()), old(unacked))
    {
      out := [];
      ghost var goal := TransmitAll(View(), unacked);
      assert unacked[0..] == unacked && [] + goal.1 == goal.1;
      var i := 0;
      while i < |unacked|
        invariant i <= |unacked|
        invariant goal == (TransmitAll(View(), unacked[i..]).0, out + TransmitAll(View(), unacked[i..]).1)
      {
        ghost var rest := TransmitAll(View(), unacked[i..]).1;
        var sent := SendFrame(unacked[i].1);
        assert unacked[i..][1..] == unacked[i + 1..];
        assert out + rest == out + sent + TransmitAll(View(), unacked[i + 1..]).1;
        out := out + sent;
        i := i + 1;
      }
      assert unacked[i..] == [] && out + [] == out;
    }

    method ChooseTick(lastTx: nat, now: nat) returns (t: Tick)
      ensures t == TickOf(View(), lastTx, now)
    {
      if finSent && !finAcked && Since(now, lastRx) > CLOSE_TIMEOUT_MS {
        return GiveUpClosing;
      }
      if err.None? {
        var limit := if hadRx then liveness else liveness * 5;
        if Since(now, lastRx) > limit {
          return LosePeer;
        }
      }
      if err.Some? {
        return Rest;
      }
      if unacked != [] {
        return Resend;
      }
      t := if Since(now, lastTx) >= KEEPALIVE_MS then Probe else Rest;
    }

    method Greet() returns (out: seq<Datagram>)
      ensures out == Greeting(View())
    {
      out := [];
      if cipher != null && !cipher.Ready() {
        var h := cipher.SayHello(NO_ECHO);
        out := [h];
      }
    }

    method Timer(lastTx: nat, now: nat) returns (sentAt: nat, out: seq<Datagram>)
      modifies Repr()
      ensures (View(), sentAt, out) == OnTimer(old(View()), lastTx, now)
    {
      out := Greet();
      sentAt := lastTx;
      var t := ChooseTick(lastTx, now);
      match t {
        case GiveUpClosing => finAcked := true;
        case LosePeer => err := Some(ConnectionLost);
        case Resend =>
          var sent := Retransmit();
          sentAt, out := now, out + sent;
        case Probe =>
          var sent := SendFrame(EncodeFrame(Frame(Ack, nextSeq, nextExpected, PING)));
          sentAt, out := now, out + sent;
        case Rest =>
      }
    }
  }
}
