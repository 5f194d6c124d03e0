/** One end of the FRS2 stream as a value: go-back-N with cumulative acknowledgements, a
    window of 32 frames, retransmission and a FIN handshake. Each function is what one
    handler does to the state and the datagrams it hands to the socket. */
module StreamSpec {
  import opened Bytes
  import opened Frames
  import opened Security

  const MAX_PAYLOAD: nat := 1200
  const MAX_PLAINTEXT: nat := MAX_PAYLOAD - 64
  const SEND_WINDOW: nat := 32
  const KEEPALIVE_MS: nat := 1000
  const OUT_CAP: nat := 256 * 1024
  const RX_CAP: nat := 1024 * 1024
  const CLOSE_TIMEOUT_MS: nat := 5000
  const LAST_NUMBER: nat := U32 - 1
  const PING: seq<byte> := [0x70]

  type Addr = nat

  datatype Failure = SequenceExhausted | ConnectionLost

  datatype Stream = Stream(
    peer: Addr,
    rxBuf: seq<byte>,
    rxClosed: bool,
    nextExpected: nat,
    outQueue: seq<seq<byte>>,
    outQueueLen: nat,
    unacked: seq<(nat, seq<byte>)>,
    nextSeq: nat,
    finSent: bool,
    finSeq: nat,
    finAcked: bool,
    writeClosed: bool,
    lastRx: nat,
    liveness: nat,
    hadRx: bool,
    err: Option<Failure>,
    cipher: Option<Session>)

  function NewStream(peer: Addr, cipher: Option<Session>, hadRx: bool, liveness: nat, now: nat): Stream {
    Stream(peer, [], false, 1, [], 0, [], 1, false, 0, false, false, now, liveness, hadRx, None, cipher)
  }

  // ---------- the application's side ----------

  datatype WriteResult = WriteError | BrokenPipe | WritePending | Written(count: nat)

  function ChunkSize(s: Stream): (n: nat)
    ensures 0 < n <= MAX_PAYLOAD
  {
    if s.cipher.Some? then MAX_PLAINTEXT else MAX_PAYLOAD
  }

  function Chunks(buf: seq<byte>, size: nat): seq<seq<byte>>
    requires size > 0
    decreases |buf|
  {
    if buf == [] then []
    else if |buf| <= size then [buf]
    else [buf[..size]] + Chunks(buf[size..], size)
  }

  function Min(a: nat, b: nat): nat { if a <= b then a else b }

  function PollWrite(s: Stream, buf: seq<byte>): (Stream, WriteResult) {
    if s.err.Some? then (s, WriteError)
    else if s.writeClosed then (s, BrokenPipe)
    else if s.outQueueLen >= OUT_CAP then (s, WritePending)
    else
      var n := Min(|buf|, OUT_CAP - s.outQueueLen);
      (s.(outQueue := s.outQueue + Chunks(buf[..n], ChunkSize(s)), outQueueLen := s.outQueueLen + n),
       Written(n))
  }

  datatype ReadResult = ReadError | ReadPending | Bytes(bytes: seq<byte>)

  /** An empty `Bytes` from an empty buffer is the end of the stream. */
  function PollRead(s: Stream, room: nat): (Stream, ReadResult) {
    if s.err.Some? then (s, ReadError)
    else if s.rxBuf != [] then
      var n := Min(room, |s.rxBuf|);
      (s.(rxBuf := s.rxBuf[n..]), Bytes(s.rxBuf[..n]))
    else if s.rxClosed then (s, Bytes([]))
    else (s, ReadPending)
  }

  datatype ShutdownResult = ShutdownError | ShutdownPending | ShutdownDone

  function PollShutdown(s: Stream): (Stream, ShutdownResult) {
    if s.err.Some? then (s, ShutdownError)
    else (s.(writeClosed := true), if s.finAcked then ShutdownDone else ShutdownPending)
  }

  // ---------- sending ----------

  /** `send_frame`: a frame that cannot be sealed is not sent. */
  function Transmit(s: Stream, frame: seq<byte>): (r: (Stream, seq<Datagram>))
    ensures r.0 == s.(cipher := r.0.cipher)
    ensures |r.1| <= 1
  {
    match s.cipher
    case None => (s, [Raw(frame)])
    case Some(c) =>
      var (c', d) := Seal(c, frame);
      (s.(cipher := Some(c')), if d.Some? then [d.value] else [])
  }

  function TransmitAll(s: Stream, frames: seq<(nat, seq<byte>)>): (Stream, seq<Datagram>)
    decreases |frames|
  {
    if frames == [] then (s, [])
    else
      var (s1, out1) := Transmit(s, frames[0].1);
      var (s2, out2) := TransmitAll(s1, frames[1..]);
      (s2, out1 + out2)
  }

  datatype FlushStep = Stop(s: Stream) | Sent(s: Stream, out: seq<Datagram>)

  function Enqueued(s: Stream, kind: FrameKind, payload: seq<byte>): (Stream, seq<Datagram>) {
    var frame := EncodeFrame(Frame(kind, s.nextSeq, s.nextExpected, payload));
    Transmit(s.(nextSeq := s.nextSeq + 1, unacked := s.unacked + [(s.nextSeq, frame)]), frame)
  }

  datatype Move = Wait | Exhausted | SendData | SendFin

  /** What the flush loop does next. */
  function NextMove(s: Stream): Move {
    if s.err.Some? then Wait
    else if s.cipher.Some? && s.cipher.value.remote.None? then Wait
    else if s.nextSeq == LAST_NUMBER then Exhausted
    else if |s.unacked| >= SEND_WINDOW then Wait
    else if s.outQueue != [] then SendData
    else if s.writeClosed && !s.finSent then SendFin
    else Wait
  }

  function Dequeued(s: Stream): Stream
    requires s.outQueue != []
  {
    var len := |s.outQueue[0]|;
    s.(outQueue := s.outQueue[1..], outQueueLen := if len <= s.outQueueLen then s.outQueueLen - len else 0)
  }

  /** One pass of the flush loop. */
  function FlushOne(s: Stream): (r: FlushStep)
    ensures r.Sent? ==> |r.s.unacked| == |s.unacked| + 1 <= SEND_WINDOW
  {
    match NextMove(s)
    case Wait => Stop(s)
    case Exhausted => Stop(s.(err := Some(SequenceExhausted)))
    case SendData =>
      var (s', out) := Enqueued(Dequeued(s), FrameKind.Data, s.outQueue[0]);
      Sent(s', out)
    case SendFin =>
      var (s', out) := Enqueued(s.(finSent := true, finSeq := s.nextSeq), Fin, []);
      Sent(s', out)
  }

  function FlushOut(s: Stream): (Stream, seq<Datagram>)
    decreases SEND_WINDOW - |s.unacked|
  {
    match FlushOne(s)
    case Stop(s1) => (s1, [])
    case Sent(s1, out1) =>
      var (s2, out2) := FlushOut(s1);
      (s2, out1 + out2)
  }

  // ---------- receiving ----------

  /** The cumulative acknowledgement: everything below `ack` leaves the queue's front. */
  function DropAcked(unacked: seq<(nat, seq<byte>)>, ack: nat): seq<(nat, seq<byte>)> {
    if unacked != [] && unacked[0].0 < ack then DropAcked(unacked[1..], ack) else unacked
  }

  function TakeAck(s: Stream, ack: nat): (r: Stream)
    ensures r == s.(unacked := r.unacked, finAcked := r.finAcked)
  {
    if 0 < ack <= s.nextSeq then
      s.(unacked := DropAcked(s.unacked, ack),
         finAcked := s.finAcked || (s.finSent && ack > s.finSeq))
    else s
  }

  /** The frame at `nextExpected`; false when the frame gets no answer. */
  function TakeInOrder(s: Stream, f: Frame): (r: (Stream, bool))
    ensures r.0 == s.(rxBuf := r.0.rxBuf, nextExpected := r.0.nextExpected, rxClosed := r.0.rxClosed)
  {
    if f.kind == FrameKind.Data && |s.rxBuf| + |f.payload| > RX_CAP then (s, false)
    else
      var s1 := if f.kind == FrameKind.Data then s.(rxBuf := s.rxBuf + f.payload) else s;
      if s1.nextExpected == LAST_NUMBER then (s1, false)
      else (s1.(nextExpected := s1.nextExpected + 1, rxClosed := s1.rxClosed || f.kind == Fin), true)
  }

  function AckFrame(s: Stream, payload: seq<byte>): seq<byte> {
    EncodeFrame(Frame(Ack, s.nextSeq, s.nextExpected, payload))
  }

  /** The state after a frame from the peer, and whether the frame is answered. */
  function Absorb(s: Stream, f: Frame, src: Option<Addr>, now: nat): (Stream, bool) {
    var s1 := s.(peer := if src.Some? then src.value else s.peer, lastRx := now, hadRx := true);
    var s2 := TakeAck(s1, f.ack);
    if f.kind == Ack then (s2, f.payload == PING)
    else if f.number == s2.nextExpected then TakeInOrder(s2, f)
    else (s2, true)
  }

  function TakeFrame(s: Stream, f: Frame, src: Option<Addr>, now: nat): (Stream, seq<Datagram>) {
    var (s', answer) := Absorb(s, f, src, now);
    if answer then Transmit(s', AckFrame(s', [])) else (s', [])
  }

  /** What the cipher, when there is one, makes of a datagram. Without one, only a raw
      datagram can hold a frame: the other two have a byte that no frame has as its flags. */
  function Decipher(s: Stream, d: Datagram): (Stream, Incoming) {
    match s.cipher
    case None => (s, if d.Raw? then Incoming.Data(d.bytes) else Ignore)
    case Some(c) =>
      var (c', r) := Receive(c, d);
      (s.(cipher := Some(c')), r)
  }

  function HandleIncoming(s: Stream, d: Datagram, src: Option<Addr>, trusted: bool, now: nat)
    : (Stream, seq<Datagram>)
  {
    if !trusted && src.Some? && src.value != s.peer then (s, [])
    else
      var (s1, incoming) := Decipher(s, d);
      match incoming
      case Ignore => (s1, [])
      case Reply(h) => (s1, [h])
      case Data(bytes) =>
        match ParseFrame(bytes)
        case None => (s1, [])
        case Some(f) => TakeFrame(s1, f, src, now)
  }

  // ---------- the timer ----------

  function Since(now: nat, earlier: nat): nat { if now >= earlier then now - earlier else 0 }

  predicate CloseTimedOut(s: Stream, now: nat) {
    s.finSent && !s.finAcked && Since(now, s.lastRx) > CLOSE_TIMEOUT_MS
  }

  predicate PeerLost(s: Stream, now: nat) {
    s.err.None? && Since(now, s.lastRx) > (if s.hadRx then s.liveness else s.liveness * 5)
  }

  function Greeting(s: Stream): seq<Datagram> {
    if s.cipher.Some? && s.cipher.value.remote.None? then [HelloFrom(s.cipher.value, NO_ECHO)] else []
  }

  datatype Tick = GiveUpClosing | LosePeer | Resend | Probe | Rest

  function TickOf(s: Stream, lastTx: nat, now: nat): Tick {
    if CloseTimedOut(s, now) then GiveUpClosing
    else if PeerLost(s, now) then LosePeer
    else if s.err.Some? then Rest
    else if s.unacked != [] then Resend
    else if Since(now, lastTx) >= KEEPALIVE_MS then Probe
    else Rest
  }

  function OnTimer(s: Stream, lastTx: nat, now: nat): (Stream, nat, seq<Datagram>) {
    match TickOf(s, lastTx, now)
    case GiveUpClosing => (s.(finAcked := true), lastTx, Greeting(s))
    case LosePeer => (s.(err := Some(ConnectionLost)), lastTx, Greeting(s))
    case Resend => var (s', out) := TransmitAll(s, s.unacked); (s', now, Greeting(s) + out)
    case Probe => var (s', out) := Transmit(s, AckFrame(s, PING)); (s', now, Greeting(s) + out)
    case Rest => (s, lastTx, Greeting(s))
  }
}
