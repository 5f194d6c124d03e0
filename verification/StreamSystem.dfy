/** Two streams and the network between them, plain or sealed. */
module StreamSystem {
  import opened Bytes
  import opened Frames
  import opened Security
  import opened ReplayWindow
  import opened Channel
  import opened StreamSpec

  /** What a number stands for. */
  datatype Item = Chunk(payload: seq<byte>) | End

  /** A stream with its history: what each number carried, what the application wrote and
      read, whether the FIN was given up on, and the cipher's own history. */
  datatype Node = Node(
    s: Stream,
    log: seq<Item>,
    written: seq<byte>,
    read: seq<byte>,
    gaveUp: bool,
    sealed: seq<seq<byte>>,
    accepted: seq<(nat, seq<byte>)>)

  function NewNode(s: Stream): Node { Node(s, [], [], [], false, [], []) }

  function PartyOf(n: Node): Party
    requires n.s.cipher.Some?
  {
    Party(n.s.cipher.value, n.sealed, n.accepted)
  }

  function ItemBytes(i: Item): seq<byte> { if i.Chunk? then i.payload else [] }

  function LogBytes(log: seq<Item>): seq<byte> {
    if log == [] then [] else LogBytes(log[..|log| - 1]) + ItemBytes(log[|log| - 1])
  }

  function SealedIn(out: seq<Datagram>): seq<seq<byte>> {
    if out == [] then []
    else (if out[0].Envelope? && out[0].body.Sealed? then [out[0].body.msg] else []) + SealedIn(out[1..])
  }

  function SetOf(out: seq<Datagram>): set<Datagram> { set d | d in out }

  datatype Sys = Sys(a: Node, b: Node, fromA: set<Datagram>, fromB: set<Datagram>)

  // ---------- steps ----------

  datatype Op =
    | Write(buf: seq<byte>)
    | Read(room: nat)
    | Shutdown
    | Flush
    | Timer(lastTx: nat, now: nat)
    | Take(d: Datagram, src: Option<Addr>, trusted: bool, now: nat)

  /** The handler's result with the history brought up to date. */
  function Settle(n: Node, s: Stream, out: seq<Datagram>): Node {
    n.(s := s, sealed := n.sealed + SealedIn(out))
  }

  /** The window moved, so d was opened. */
  function Heard(n: Node, s: Stream, d: Datagram): seq<(nat, seq<byte>)> {
    if n.s.cipher.Some? && s.cipher.Some? && d.Envelope? && d.body.Sealed?
       && (s.cipher.value.high != n.s.cipher.value.high || s.cipher.value.seen != n.s.cipher.value.seen)
    then n.accepted + [(d.number, d.body.msg)]
    else n.accepted
  }

  function NodeStep(n: Node, op: Op): (Node, seq<Datagram>) {
    match op
    case Write(buf) =>
      var (s, r) := PollWrite(n.s, buf);
      (n.(s := s, written := n.written + if r.Written? && r.count <= |buf| then buf[..r.count] else []), [])
    case Read(room) =>
      var (s, r) := PollRead(n.s, room);
      (n.(s := s, read := n.read + if r.Bytes? then r.bytes else []), [])
    case Shutdown => (n.(s := PollShutdown(n.s).0), [])
    case Flush =>
      (match FlushOne(n.s)
       case Stop(s) => (n.(s := s), [])
       case Sent(s, out) =>
         var item := if NextMove(n.s).SendData? then Chunk(n.s.outQueue[0]) else End;
         (Settle(n, s, out).(log := n.log + [item]), out))
    case Timer(lastTx, now) =>
      var (s, _, out) := OnTimer(n.s, lastTx, now);
      (Settle(n, s, out).(gaveUp := n.gaveUp || CloseTimedOut(n.s, now)), out)
    case Take(d, src, trusted, now) =>
      var (s, out) := HandleIncoming(n.s, d, src, trusted, now);
      (Settle(n, s, out).(accepted := Heard(n, s, d)), out)
  }

  function Step(y: Sys, op: Op): Sys {
    var (a, out) := NodeStep(y.a, op);
    Sys(a, y.b, y.fromA + SetOf(out), y.fromB)
  }

  /** The datagram is for an address in use, but comes from another. */
  predicate Foreign(s: Stream, op: Op) {
    op.Take? && !op.trusted && op.src.Some? && op.src.value != s.peer
  }

  /** Without a cipher the network delivers, from the address in use, what the other end sent,
      any number of times, in any order, or never; from other addresses it delivers anything.
      With a cipher it may deliver anything from anywhere that needs no key. */
  ghost predicate Allowed(y: Sys, op: Op) {
    op.Take? ==>
      match y.a.s.cipher
      case None => op.d in y.fromB || Foreign(y.a.s, op)
      case Some(c) => CanArrive(op.d, y.fromA + y.fromB, c.key)
  }

  // ---------- the invariant ----------

  ghost predicate Carries(n: Node, f: Frame) {
    && 0 < f.ack <= n.s.nextExpected
    && (f.kind != Ack ==>
          && 0 < f.number <= |n.log|
          && n.log[f.number - 1] == if f.kind == Fin then End else Chunk(f.payload))
  }

  ghost predicate Good(n: Node, m: seq<byte>) {
    ParseFrame(m).Some? && Carries(n, ParseFrame(m).value)
  }

  ghost predicate Numbered(n: Node, m: seq<byte>, number: nat) {
    Good(n, m) && ParseFrame(m).value.kind != Ack && ParseFrame(m).value.number == number
  }

  /** Everything ever said by n is a frame of its log. */
  ghost predicate Spoken(n: Node, sent: set<Datagram>) {
    && (forall m | m in n.sealed :: Good(n, m))
    && (n.s.cipher.None? ==> forall d | d in sent :: d.Raw? && Good(n, d.bytes))
  }

  ghost predicate Secured(y: Sys) {
    && (y.a.s.cipher.Some? <==> y.b.s.cipher.Some?)
    && (y.a.s.cipher.Some? ==> Paired(PartyOf(y.a), PartyOf(y.b), y.fromA + y.fromB))
  }

  function QueueLen(q: seq<seq<byte>>): nat {
    if q == [] then 0 else |q[0]| + QueueLen(q[1..])
  }

  /** The unacknowledged frames are the contiguous run of numbers below `nextSeq`. */
  ghost predicate Window(n: Node) {
    && n.s.nextSeq == |n.log| + 1 <= LAST_NUMBER
    && |n.s.unacked| <= SEND_WINDOW && |n.s.unacked| <= |n.log|
    && (forall i | 0 <= i < |n.s.unacked| ::
          && n.s.unacked[i].0 == n.s.nextSeq - |n.s.unacked| + i
          && Numbered(n, n.s.unacked[i].1, n.s.unacked[i].0))
  }

  /** The queue's length is exact and capped, and everything written is numbered or queued. */
  ghost predicate Queue(n: Node) {
    && n.s.outQueueLen == QueueLen(n.s.outQueue) <= OUT_CAP
    && (forall c | c in n.s.outQueue :: 0 < |c| <= MAX_PAYLOAD)
    && (forall i | 0 <= i < |n.log| :: |ItemBytes(n.log[i])| <= MAX_PAYLOAD)
    && n.written == LogBytes(n.log) + Concat(n.s.outQueue)
  }

  /** The FIN has the highest number ever used and nothing follows it. */
  ghost predicate FinLast(n: Node) {
    && (forall i | 0 <= i < |n.log| :: n.log[i].End? ==> i == |n.log| - 1 && n.s.finSent)
    && (n.s.finSent ==>
          && n.s.finSeq == |n.log| > 0 && n.log[|n.log| - 1].End?
          && n.s.outQueue == [] && n.s.writeClosed)
  }

  ghost predicate Sender(n: Node) {
    Window(n) && Queue(n) && FinLast(n)
  }

  /** What r has received is a prefix of what s numbered. */
  ghost predicate Follows(s: Node, r: Node) {
    && s.s.nextSeq - |s.s.unacked| <= r.s.nextExpected <= s.s.nextSeq
    && 0 < r.s.nextExpected <= |s.log| + 1
    && r.read + r.s.rxBuf == LogBytes(s.log[..r.s.nextExpected - 1])
    && |r.s.rxBuf| <= RX_CAP
    && (r.s.rxClosed <==> End in s.log[..r.s.nextExpected - 1])
    && (s.s.finAcked && !s.gaveUp ==> r.s.rxClosed)
    && (s.s.finSent && s.s.unacked == [] ==> s.s.finAcked)
  }

  ghost predicate Inv(y: Sys) {
    && Sender(y.a) && Sender(y.b)
    && Follows(y.a, y.b) && Follows(y.b, y.a)
    && Spoken(y.a, y.fromA) && Spoken(y.b, y.fromB)
    && Secured(y)
  }

  function Swap(y: Sys): Sys { Sys(y.b, y.a, y.fromB, y.fromA) }

  lemma SwapKeeps(y: Sys)
    requires Inv(y)
    ensures Inv(Swap(y))
  {}

  // ---------- sequences ----------

  lemma LogSnoc(log: seq<Item>, i: Item)
    ensures LogBytes(log + [i]) == LogBytes(log) + ItemBytes(i)
  {}

  lemma {:induction false} LogPrefix(log: seq<Item>, k: nat)
    requires k <= |log|
    ensures LogBytes(log[..k]) <= LogBytes(log)
  {
    if k < |log| {
      LogPrefix(log[..|log| - 1], k);
      assert log[..|log| - 1][..k] == log[..k];
    } else {
      assert log[..k] == log;
    }
  }

  lemma {:induction false} QueueLenAppend(a: seq<seq<byte>>, b: seq<seq<byte>>)
    ensures QueueLen(a + b) == QueueLen(a) + QueueLen(b)
  {
    if a == [] {
      assert a + b == b;
    } else {
      QueueLenAppend(a[1..], b);
      assert (a + b)[1..] == a[1..] + b;
    }
  }

  /** Cutting into chunks loses nothing and makes no empty or oversized chunk. */
  lemma {:induction false} ChunksWhole(buf: seq<byte>, size: nat)
    requires size > 0
    ensures Concat(Chunks(buf, size)) == buf
    ensures QueueLen(Chunks(buf, size)) == |buf|
    ensures forall c | c in Chunks(buf, size) :: 0 < |c| <= size
    decreases |buf|
  {
    if |buf| > size {
      ChunksWhole(buf[size..], size);
      assert buf == buf[..size] + buf[size..];
    } else if buf != [] {
      assert Concat([buf]) == buf + Concat([]);
    }
  }

  /** Dropping acknowledged frames drops a front run, all of it below the acknowledgement. */
  lemma {:induction false} DropAckedFront(unacked: seq<(nat, seq<byte>)>, ack: nat) returns (gone: nat)
    ensures gone <= |unacked| && DropAcked(unacked, ack) == unacked[gone..]
    ensures gone > 0 ==> unacked[gone - 1].0 < ack
    ensures gone < |unacked| ==> unacked[gone].0 >= ack
    decreases |unacked|
  {
    gone := 0;
    if unacked != [] && unacked[0].0 < ack {
      var more := DropAckedFront(unacked[1..], ack);
      gone := more + 1;
      assert unacked[1..][more..] == unacked[gone..];
    }
  }

  // ---------- sending ----------

  lemma GoodGrows(n: Node, n': Node, m: seq<byte>)
    requires Good(n, m)
    requires n.log <= n'.log && n.s.nextExpected <= n'.s.nextExpected
    ensures Good(n', m)
  {}

  lemma SealedInAppend(x: seq<Datagram>, y: seq<Datagram>)
    ensures SealedIn(x + y) == SealedIn(x) + SealedIn(y)
    decreases |x|
  {
    if x == [] {
      assert x + y == y && [] + SealedIn(y) == SealedIn(y);
    } else {
      SealedInAppend(x[1..], y);
      assert (x + y)[0] == x[0] && (x + y)[1..] == x[1..] + y;
      var first := if x[0].Envelope? && x[0].body.Sealed? then [x[0].body.msg] else [];
      assert SealedIn(x) == first + SealedIn(x[1..]);
      assert SealedIn(x + y) == first + SealedIn((x + y)[1..]);
      assert first + (SealedIn(x[1..]) + SealedIn(y)) == first + SealedIn(x[1..]) + SealedIn(y);
    }
  }

  lemma SetOfAppend(x: seq<Datagram>, y: seq<Datagram>)
    ensures SetOf(x + y) == SetOf(x) + SetOf(y)
  {}

  function Emit(y: Sys, s: Stream, out: seq<Datagram>): Sys {
    Sys(Settle(y.a, s, out), y.b, y.fromA + SetOf(out), y.fromB)
  }

  lemma EmitTwice(y: Sys, s1: Stream, out1: seq<Datagram>, s2: Stream, out2: seq<Datagram>)
    ensures Emit(Emit(y, s1, out1), s2, out2) == Emit(y, s2, out1 + out2)
  {
    SealedInAppend(out1, out2);
    SetOfAppend(out1, out2);
    assert y.a.sealed + SealedIn(out1) + SealedIn(out2) == y.a.sealed + (SealedIn(out1) + SealedIn(out2));
    assert y.fromA + SetOf(out1) + SetOf(out2) == y.fromA + (SetOf(out1) + SetOf(out2));
  }

  lemma EmitNothing(y: Sys)
    ensures Emit(y, y.a.s, []) == y
  {}

  lemma SendPlainKeeps(y: Sys, frame: seq<byte>)
    requires y.a.s.cipher.None?
    requires Spoken(y.a, y.fromA) && Secured(y) && Good(y.a, frame)
    ensures var y' := Emit(y, y.a.s, [Raw(frame)]); Spoken(y'.a, y'.fromA) && Secured(y')
  {
    hide Paired, ParseFrame;
    var out := [Raw(frame)];
    assert SealedIn(out) == [] by { assert out[1..] == []; }
    assert y.a.sealed + [] == y.a.sealed;
    assert Emit(y, y.a.s, out).a == y.a;
    assert SetOf(out) == {Raw(frame)};
  }

  lemma SendSealedKeeps(y: Sys, frame: seq<byte>)
    requires y.a.s.cipher.Some?
    requires Spoken(y.a, y.fromA) && Secured(y) && Good(y.a, frame)
    ensures
      var (s, out) := Transmit(y.a.s, frame);
      var y' := Emit(y, s, out);
      s.cipher.Some? && Spoken(y'.a, y'.fromA) && Secured(y')
  {
    hide Paired, ParseFrame, Seal;
    var p := PartyOf(y.a);
    var (s, out) := Transmit(y.a.s, frame);
    var y' := Emit(y, s, out);
    SealKeeps(p, PartyOf(y.b), y.fromA + y.fromB, frame);
    var (p', d) := SealAs(p, frame);
    if d.Some? {
      assert out == [d.value] && SealedIn(out) == [frame] by { assert out[1..] == []; }
      assert SetOf(out) == {d.value};
      assert y'.fromA + y'.fromB == y.fromA + y.fromB + {d.value};
    } else {
      EmitNothing(y);
      assert out == [];
    }
    assert PartyOf(y'.a) == p';
    forall m | m in y'.a.sealed ensures Good(y'.a, m) {
      assert Good(y.a, m);
      GoodGrows(y.a, y'.a, m);
    }
  }

  /** Sending one good frame keeps what is said and what is sealed in order. */
  lemma SendKeeps(y: Sys, frame: seq<byte>)
    requires Spoken(y.a, y.fromA) && Secured(y) && Good(y.a, frame)
    ensures
      var (s, out) := Transmit(y.a.s, frame);
      var y' := Emit(y, s, out);
      && s == y.a.s.(cipher := s.cipher) && s.cipher.Some? == y.a.s.cipher.Some?
      && Spoken(y'.a, y'.fromA) && Secured(y')
  {
    hide Spoken, Secured, Good, Emit, Seal;
    if y.a.s.cipher.None? {
      SendPlainKeeps(y, frame);
    } else {
      SendSealedKeeps(y, frame);
    }
  }

  lemma {:induction false} SendAllKeeps(y: Sys, frames: seq<(nat, seq<byte>)>)
    requires Spoken(y.a, y.fromA) && Secured(y)
    requires forall i | 0 <= i < |frames| :: Good(y.a, frames[i].1)
    ensures
      var (s, out) := TransmitAll(y.a.s, frames);
      var y' := Emit(y, s, out);
      && s == y.a.s.(cipher := s.cipher) && s.cipher.Some? == y.a.s.cipher.Some?
      && Spoken(y'.a, y'.fromA) && Secured(y')
    decreases |frames|
  {
    if frames == [] {
      EmitNothing(y);
    } else {
      var (s1, out1) := Transmit(y.a.s, frames[0].1);
      SendKeeps(y, frames[0].1);
      var y1 := Emit(y, s1, out1);
      forall i | 0 <= i < |frames[1..]| ensures Good(y1.a, frames[1..][i].1) {
        assert frames[1..][i] == frames[i + 1];
        GoodGrows(y.a, y1.a, frames[i + 1].1);
      }
      SendAllKeeps(y1, frames[1..]);
      var (s2, out2) := TransmitAll(s1, frames[1..]);
      EmitTwice(y, s1, out1, s2, out2);
    }
  }

  lemma AckIsGood(n: Node, payload: seq<byte>)
    requires 0 < n.s.nextExpected < U32 && n.s.nextSeq < U32 && |payload| < U16
    ensures Good(n, AckFrame(n.s, payload))
  {
    ParseEncode(Frame(Ack, n.s.nextSeq, n.s.nextExpected, payload));
  }

  // ---------- each handler keeps the invariant ----------

  lemma WindowSame(n: Node, n': Node)
    requires Window(n) && n'.log == n.log
    requires n'.s.nextSeq == n.s.nextSeq && n'.s.unacked == n.s.unacked
    requires n'.s.nextExpected >= n.s.nextExpected
    ensures Window(n')
  {}

  /** A step that neither sends nor touches what the other parts read. */
  lemma QuietKeeps(y: Sys, a': Node)
    requires Spoken(y.a, y.fromA) && Secured(y)
    requires a'.sealed == y.a.sealed && a'.accepted == y.a.accepted && y.a.log <= a'.log
    requires a'.s.cipher == y.a.s.cipher && a'.s.nextExpected >= y.a.s.nextExpected
    ensures Spoken(a', y.fromA) && Secured(y.(a := a'))
  {}

  lemma QueueMore(n: Node, n': Node, buf: seq<byte>, size: nat)
    requires Queue(n) && |buf| <= OUT_CAP - n.s.outQueueLen && 0 < size <= MAX_PAYLOAD
    requires n'.s.outQueue == n.s.outQueue + Chunks(buf, size)
    requires n'.s.outQueueLen == n.s.outQueueLen + |buf|
    requires n'.log == n.log && n'.written == n.written + buf
    ensures Queue(n')
  {
    hide LogBytes, Concat, QueueLen, Chunks;
    var more := Chunks(buf, size);
    ChunksWhole(buf, size);
    QueueLenAppend(n.s.outQueue, more);
    ConcatAppend(n.s.outQueue, more);
    assert LogBytes(n.log) + Concat(n.s.outQueue) + buf == LogBytes(n.log) + (Concat(n.s.outQueue) + buf);
  }

  lemma WriteKeeps(y: Sys, buf: seq<byte>)
    requires Inv(y)
    ensures Inv(Step(y, Write(buf)))
  {
    hide Secured, Spoken, Queue, LogBytes;
    var (s, r) := PollWrite(y.a.s, buf);
    var a' := NodeStep(y.a, Write(buf)).0;
    EmitNothing(y);
    assert Step(y, Write(buf)) == y.(a := a');
    QuietKeeps(y, a');
    WindowSame(y.a, a');
    if r.Written? {
      QueueMore(y.a, a', buf[..r.count], ChunkSize(y.a.s));
    } else {
      assert a' == y.a by { assert y.a.written + [] == y.a.written; }
    }
  }

  /** Reading moves bytes from the buffer to the application. */
  lemma ReadMoves(n: Node, room: nat)
    ensures var n' := NodeStep(n, Read(room)).0;
      && n'.read + n'.s.rxBuf == n.read + n.s.rxBuf && |n'.s.rxBuf| <= |n.s.rxBuf|
      && n' == n.(read := n'.read, s := n.s.(rxBuf := n'.s.rxBuf))
  {}

  lemma ReadKeeps(y: Sys, room: nat)
    requires Inv(y)
    ensures Inv(Step(y, Read(room)))
  {
    hide Secured, Spoken, LogBytes, PollRead, Window, Queue, FinLast;
    var a' := NodeStep(y.a, Read(room)).0;
    ReadMoves(y.a, room);
    EmitNothing(y);
    assert Step(y, Read(room)) == y.(a := a');
    QuietKeeps(y, a');
    WindowSame(y.a, a');
    QueueSame(y.a, a');
  }

  lemma ShutdownKeeps(y: Sys)
    requires Inv(y)
    ensures Inv(Step(y, Shutdown))
  {
    hide Secured, Spoken, LogBytes, Window, Numbered;
    var a' := NodeStep(y.a, Shutdown).0;
    EmitNothing(y);
    assert Step(y, Shutdown) == y.(a := a');
    QuietKeeps(y, a');
    WindowSame(y.a, a');
  }

  /** The node after the flush loop took the next item but before its frame is sent. */
  function TookData(n: Node): Node
    requires n.s.outQueue != []
  {
    var s := Dequeued(n.s);
    var frame := EncodeFrame(Frame(FrameKind.Data, s.nextSeq, s.nextExpected, n.s.outQueue[0]));
    n.(s := s.(nextSeq := s.nextSeq + 1, unacked := s.unacked + [(s.nextSeq, frame)]),
       log := n.log + [Chunk(n.s.outQueue[0])])
  }

  function TookFin(n: Node): Node {
    var s := n.s.(finSent := true, finSeq := n.s.nextSeq);
    var frame := EncodeFrame(Frame(Fin, s.nextSeq, s.nextExpected, []));
    n.(s := s.(nextSeq := s.nextSeq + 1, unacked := s.unacked + [(s.nextSeq, frame)]),
       log := n.log + [End])
  }

  lemma WindowMore(n: Node, n': Node, kind: FrameKind, payload: seq<byte>)
    requires Window(n) && |n.s.unacked| < SEND_WINDOW && n.s.nextSeq < LAST_NUMBER
    requires kind != Ack && |payload| < U16 && 0 < n.s.nextExpected < U32
    requires n'.log == n.log + [if kind == Fin then End else Chunk(payload)]
    requires n'.s.nextSeq == n.s.nextSeq + 1 && n'.s.nextExpected == n.s.nextExpected
    requires n'.s.unacked == n.s.unacked
        + [(n.s.nextSeq, EncodeFrame(Frame(kind, n.s.nextSeq, n.s.nextExpected, payload)))]
    ensures Window(n') && Good(n', EncodeFrame(Frame(kind, n.s.nextSeq, n.s.nextExpected, payload)))
  {
    hide EncodeFrame, ParseFrame;
    var f := Frame(kind, n.s.nextSeq, n.s.nextExpected, payload);
    ParseEncode(f);
    assert Numbered(n', EncodeFrame(f), n.s.nextSeq);
    forall i | 0 <= i < |n'.s.unacked| ensures Numbered(n', n'.s.unacked[i].1, n'.s.unacked[i].0) {
      if i < |n.s.unacked| {
        assert Numbered(n, n.s.unacked[i].1, n.s.unacked[i].0);
        GoodGrows(n, n', n.s.unacked[i].1);
      }
    }
  }

  lemma TookDataKeeps(n: Node)
    requires Queue(n) && n.s.outQueue != [] && FinLast(n)
    ensures Queue(TookData(n)) && FinLast(TookData(n)) && !n.s.finSent
  {}

  lemma TookFinKeeps(n: Node)
    requires Window(n) && Queue(n) && n.s.outQueue == [] && FinLast(n) && n.s.writeClosed && !n.s.finSent
    ensures Queue(TookFin(n)) && FinLast(TookFin(n))
  {}

  /** A longer log and one more unacknowledged frame leave what was received as it was. */
  lemma FollowsMore(n: Node, n': Node, r: Node)
    requires Follows(n, r) && Follows(r, n)
    requires Window(n) && Window(n') && n.log <= n'.log && n'.s.unacked != []
    requires n'.s.nextSeq - |n'.s.unacked| == n.s.nextSeq - |n.s.unacked|
    requires n'.s.rxBuf == n.s.rxBuf && n'.read == n.read && n'.s.rxClosed == n.s.rxClosed
    requires n'.s.nextExpected == n.s.nextExpected
    requires n'.s.finAcked == n.s.finAcked && n'.gaveUp == n.gaveUp
    ensures Follows(n', r) && Follows(r, n')
  {
    hide LogBytes;
    assert n'.log[..r.s.nextExpected - 1] == n.log[..r.s.nextExpected - 1];
  }

  lemma FlushKeeps(y: Sys)
    requires Inv(y)
    ensures Inv(Step(y, Flush))
  {
    hide Secured, Spoken, LogBytes, EncodeFrame, Numbered, Follows, Inv;
    InvParts(y);
    var move := NextMove(y.a.s);
    if move.SendData? {
      TookDataKeeps(y.a);
      WindowMore(y.a, TookData(y.a), FrameKind.Data, y.a.s.outQueue[0]);
      FlushIsData(y);
      TookKeeps(y, TookData(y.a));
    } else if move.SendFin? {
      TookFinKeeps(y.a);
      WindowMore(y.a, TookFin(y.a), Fin, []);
      FlushIsFin(y);
      TookKeeps(y, TookFin(y.a));
    } else {
      EmitNothing(y);
      var a' := NodeStep(y.a, Flush).0;
      assert Step(y, Flush) == y.(a := a');
      StoppedKeeps(y, a');
    }
  }

  lemma InvParts(y: Sys)
    requires Inv(y)
    ensures Sender(y.a) && 0 < y.a.s.nextExpected < U32
  {}

  /** The flush loop stopping can only record a failure. */
  lemma StoppedKeeps(y: Sys, a': Node)
    requires Inv(y) && a' == y.a.(s := y.a.s.(err := a'.s.err))
    ensures Inv(y.(a := a'))
  {
    hide Secured, Spoken, LogBytes, Window, Queue, FinLast;
    QuietKeeps(y, a');
    WindowSame(y.a, a');
    QueueSame(y.a, a');
  }

  function LastFrame(n: Node): seq<byte>
    requires n.s.unacked != []
  {
    n.s.unacked[|n.s.unacked| - 1].1
  }

  /** The handler is: take the item, then send its frame. */
  ghost predicate FlushedVia(y: Sys, a1: Node) {
    && a1.s.unacked != [] && y.a.log <= a1.log
    && a1.s.nextSeq - |a1.s.unacked| == y.a.s.nextSeq - |y.a.s.unacked|
    && a1 == y.a.(s := a1.s, log := a1.log)
    && a1.s == y.a.s.(nextSeq := a1.s.nextSeq, unacked := a1.s.unacked, outQueue := a1.s.outQueue,
                      outQueueLen := a1.s.outQueueLen, finSent := a1.s.finSent, finSeq := a1.s.finSeq)
    && var (s, out) := Transmit(a1.s, LastFrame(a1)); Step(y, Flush) == Emit(y.(a := a1), s, out)
  }

  lemma FlushIsData(y: Sys)
    requires NextMove(y.a.s).SendData?
    ensures FlushedVia(y, TookData(y.a))
  {
    hide EncodeFrame, Transmit;
    var a1 := TookData(y.a);
    var (s, out) := Transmit(a1.s, LastFrame(a1));
    assert FlushOne(y.a.s) == Sent(s, out);
  }

  lemma FlushIsFin(y: Sys)
    requires NextMove(y.a.s).SendFin?
    ensures FlushedVia(y, TookFin(y.a))
  {}

  lemma TookKeeps(y: Sys, a1: Node)
    requires Inv(y) && FlushedVia(y, a1)
    requires Sender(a1) && a1.s.unacked != [] && Good(a1, LastFrame(a1))
    ensures Inv(Step(y, Flush))
  {
    hide Secured, Spoken, LogBytes, Good, Queue, FinLast, Window, Follows, LastFrame, NodeStep;
    var y1 := y.(a := a1);
    QuietKeeps(y, a1);
    FollowsMore(y.a, a1, y.b);
    var (s, out) := Transmit(a1.s, LastFrame(a1));
    SendKeeps(y1, LastFrame(a1));
    SameSides(y1, s, out);
  }

  /** Sending changes only the cipher and its history, which neither side predicate reads. */
  lemma SameSides(y: Sys, s: Stream, out: seq<Datagram>)
    requires Sender(y.a) && Follows(y.a, y.b) && Follows(y.b, y.a)
    requires s == y.a.s.(cipher := s.cipher)
    ensures var a' := Emit(y, s, out).a;
      Sender(a') && Follows(a', y.b) && Follows(y.b, a')
  {}

  // ---------- the timer ----------

  lemma UnackedAreGood(n: Node)
    requires Window(n)
    ensures forall i | 0 <= i < |n.s.unacked| :: Good(n, n.s.unacked[i].1)
  {}

  lemma GreetingKeeps(y: Sys)
    requires Spoken(y.a, y.fromA) && Secured(y)
    ensures var y' := Emit(y, y.a.s, Greeting(y.a.s)); Spoken(y'.a, y'.fromA) && Secured(y') && y'.a == y.a
  {
    var out := Greeting(y.a.s);
    if out == [] {
      EmitNothing(y);
    } else {
      GreetKeeps(PartyOf(y.a), PartyOf(y.b), y.fromA + y.fromB);
      assert SealedIn(out) == [] by { assert out[1..] == []; }
      assert y.a.sealed + [] == y.a.sealed;
      assert SetOf(out) == {HelloFrom(y.a.s.cipher.value, NO_ECHO)};
      assert y.fromA + SetOf(out) + y.fromB == y.fromA + y.fromB + SetOf(out);
    }
  }

  /** What the timer sends, as greeting first and frames after. */
  function TimerNode(n: Node, now: nat): Node {
    n.(s := n.s.(finAcked := n.s.finAcked || CloseTimedOut(n.s, now),
                 err := if !CloseTimedOut(n.s, now) && PeerLost(n.s, now) then Some(ConnectionLost) else n.s.err),
       gaveUp := n.gaveUp || CloseTimedOut(n.s, now))
  }

  function TimerFrames(n: Node, lastTx: nat, now: nat): seq<(nat, seq<byte>)> {
    match TickOf(n.s, lastTx, now)
    case Resend => n.s.unacked
    case Probe => [(0, AckFrame(n.s, PING))]
    case _ => []
  }

  lemma TimerShape(n: Node, lastTx: nat, now: nat)
    ensures
      var (s, _, out) := OnTimer(n.s, lastTx, now);
      var (s', out') := TransmitAll(TimerNode(n, now).s, TimerFrames(n, lastTx, now));
      s == s' && out == Greeting(n.s) + out'
  {
    hide AckFrame, Greeting;
    assert Greeting(n.s) + [] == Greeting(n.s);
    if TickOf(n.s, lastTx, now).Probe? {
      var (s1, out1) := Transmit(n.s, AckFrame(n.s, PING));
      assert TransmitAll(s1, TimerFrames(n, lastTx, now)[1..]) == (s1, []);
      assert out1 + [] == out1;
    }
  }

  lemma TimerKeeps(y: Sys, lastTx: nat, now: nat)
    requires Inv(y)
    ensures Inv(Step(y, Timer(lastTx, now)))
  {
    hide Secured, Spoken, LogBytes, AckFrame, Queue, FinLast, Good, Numbered, OnTimer, Greeting, TransmitAll;
    var a1 := TimerNode(y.a, now);
    var y1 := y.(a := a1);
    var frames := TimerFrames(y.a, lastTx, now);
    QuietKeeps(y, a1);
    WindowSame(y.a, a1);
    QueueSame(y.a, a1);
    TimerNodeSame(y.a, now);
    GreetingKeeps(y1);
    var y2 := Emit(y1, a1.s, Greeting(y.a.s));
    UnackedAreGood(a1);
    AckIsGood(a1, PING);
    SendAllKeeps(y2, frames);
    var (s, out) := TransmitAll(a1.s, frames);
    EmitTwice(y1, a1.s, Greeting(y.a.s), s, out);
    TimerShape(y.a, lastTx, now);
    assert Step(y, Timer(lastTx, now)) == Emit(y1, s, Greeting(y.a.s) + out);
    SameSides(y1, s, Greeting(y.a.s) + out);
  }

  lemma TimerNodeSame(n: Node, now: nat)
    ensures Greeting(TimerNode(n, now).s) == Greeting(n.s)
    ensures AckFrame(TimerNode(n, now).s, PING) == AckFrame(n.s, PING)
  {}

  lemma QueueSame(n: Node, n': Node)
    requires Queue(n) && FinLast(n)
    requires n'.log == n.log && n'.written == n.written
    requires n'.s.outQueue == n.s.outQueue && n'.s.outQueueLen == n.s.outQueueLen
    requires n'.s.finSent == n.s.finSent && n'.s.finSeq == n.s.finSeq && n'.s.writeClosed == n.s.writeClosed
    ensures Queue(n') && FinLast(n')
  {}

  // ---------- an arrival ----------

  /** A datagram from a foreign address changes nothing and draws no answer. */
  lemma ForeignIgnored(n: Node, op: Op)
    requires Foreign(n.s, op)
    ensures NodeStep(n, op) == (n, [])
  {
    assert n.sealed + [] == n.sealed;
  }

  /** Deciphering moves the window exactly when it opens d. */
  lemma HeardIs(n: Node, s: Stream, d: Datagram)
    requires n.s.cipher.Some? ==> s.cipher.Some?
    requires n.s.cipher.Some? ==> s.cipher.value == Receive(n.s.cipher.value, d).0.(tx := s.cipher.value.tx)
    ensures n.s.cipher.None? ==> Heard(n, s, d) == n.accepted
    ensures n.s.cipher.Some? ==>
      var r := Receive(n.s.cipher.value, d).1;
      Heard(n, s, d) == if r.Data? && d.Envelope? then n.accepted + [(d.number, r.msg)] else n.accepted
  {
    if n.s.cipher.Some? {
      NoDataNoMark(n.s.cipher.value, d);
      if d.Envelope? && !Refused(n.s.cipher.value, d.number) {
        MarkShows(n.s.cipher.value, d.number);
      }
    }
  }

  /** Whatever a datagram deciphers to was said by the other end. */
  lemma ArrivalKeeps(y: Sys, d: Datagram)
    requires Spoken(y.a, y.fromA) && Spoken(y.b, y.fromB) && Secured(y)
    requires Allowed(y, Take(d, None, true, 0))
    ensures
      var (s, r) := Decipher(y.a.s, d);
      var a1 := y.a.(s := s, accepted := Heard(y.a, s, d));
      var sent := y.fromA + if r.Reply? then {r.answer} else {};
      && s == y.a.s.(cipher := s.cipher)
      && Spoken(a1, sent) && Secured(Sys(a1, y.b, sent, y.fromB))
      && (r.Reply? ==> r.answer.Hello?)
      && (r.Data? && ParseFrame(r.msg).Some? ==> Carries(y.b, ParseFrame(r.msg).value))
  {
    hide Paired, ParseFrame, Receive, Heard;
    var (s, r) := Decipher(y.a.s, d);
    var a1 := y.a.(s := s, accepted := Heard(y.a, s, d));
    HeardIs(y.a, s, d);
    var more := if r.Reply? then {r.answer} else {};
    var sent := y.fromA + more;
    if y.a.s.cipher.Some? {
      ReceiveKeeps(PartyOf(y.a), PartyOf(y.b), y.fromA + y.fromB, d);
      ReplyIsHello(y.a.s.cipher.value, d);
      assert PartyOf(a1) == ReceiveAs(PartyOf(y.a), d).0;
      assert sent + y.fromB == y.fromA + y.fromB + more;
      assert !r.Reply? ==> sent + y.fromB == y.fromA + y.fromB;
      if r.Data? && ParseFrame(r.msg).Some? {
        assert Good(y.b, r.msg);
      }
      forall m | m in a1.sealed ensures Good(a1, m) {
        assert Good(y.a, m);
        GoodGrows(y.a, a1, m);
      }
    } else {
      assert sent == y.fromA && a1 == y.a;
      assert r.Data? ==> Good(y.b, r.msg);
    }
  }

  lemma ReplyIsHello(c: Session, d: Datagram)
    ensures var r := Receive(c, d).1;
      && (r.Reply? ==> r.answer.Hello?)
      && (r.Data? ==> d.Envelope?)
  {}

  lemma WindowTail(n: Node, n': Node, gone: nat)
    requires Window(n) && gone <= |n.s.unacked| && n'.s.unacked == n.s.unacked[gone..]
    requires n'.log == n.log && n'.s.nextSeq == n.s.nextSeq && n'.s.nextExpected == n.s.nextExpected
    ensures Window(n')
  {}

  lemma AckShortensWindow(n: Node, n': Node, ack: nat)
    requires Window(n) && n' == n.(s := TakeAck(n.s, ack)) && ack <= n.s.nextSeq
    ensures Window(n') && |n'.s.unacked| <= |n.s.unacked|
    ensures |n'.s.unacked| < |n.s.unacked| ==> n'.s.nextSeq - |n'.s.unacked| <= ack
  {
    hide Numbered, DropAcked;
    var gone := DropAckedFront(n.s.unacked, ack);
    WindowTail(n, n', if 0 < ack then gone else 0);
  }

  /** An acknowledgement from the other end never drops a frame it has not received. */
  lemma TakeAckKeeps(n: Node, n': Node, r: Node, ack: nat)
    requires Window(n) && FinLast(n) && Follows(n, r) && 0 < ack <= r.s.nextExpected
    requires n' == n.(s := TakeAck(n.s, ack))
    ensures Window(n') && FinLast(n') && Follows(n', r)
  {
    hide LogBytes, Window, DropAcked;
    AckShortensWindow(n, n', ack);
    WindowCounts(n);
    if n.s.finSent && ack > n.s.finSeq {
      assert n.log[..r.s.nextExpected - 1] == n.log;
      assert n.log[|n.log| - 1] == End;
    }
  }

  lemma NumberedSame(n: Node, n': Node, m: seq<byte>, number: nat)
    requires Numbered(n, m, number)
    requires n'.log == n.log && n'.s.nextExpected >= n.s.nextExpected
    ensures Numbered(n', m, number)
  {}

  /** The frame at `nextExpected` is the other end's item with that number. */
  lemma TakeInOrderKeeps(s: Node, r: Node, f: Frame)
    requires Window(s) && FinLast(s) && Follows(s, r)
    requires Carries(s, f) && f.kind != Ack && f.number == r.s.nextExpected
    ensures var r' := r.(s := TakeInOrder(r.s, f).0);
      && Follows(s, r')
      && r.s.nextExpected <= r'.s.nextExpected
      && (r.s.rxClosed ==> r'.s.rxClosed)
      && r'.s == r.s.(rxBuf := r'.s.rxBuf, nextExpected := r'.s.nextExpected, rxClosed := r'.s.rxClosed)
  {
    hide LogBytes, Window;
    assert 0 < r.s.nextExpected <= s.s.nextSeq - 1 < LAST_NUMBER by { WindowCounts(s); }
    var k := r.s.nextExpected - 1;
    OneMore(s.log, k);
    assert r.read + (r.s.rxBuf + f.payload) == r.read + r.s.rxBuf + f.payload;
  }

  lemma WindowCounts(n: Node)
    requires Window(n)
    ensures n.s.nextSeq == |n.log| + 1 <= LAST_NUMBER
  {}

  lemma OneMore(log: seq<Item>, k: nat)
    requires k < |log|
    ensures LogBytes(log[..k + 1]) == LogBytes(log[..k]) + ItemBytes(log[k])
    ensures End in log[..k + 1] <==> End in log[..k] || log[k] == End
    ensures log[k].End? ==> LogBytes(log[..k + 1]) == LogBytes(log[..k])
  {
    assert log[..k + 1] == log[..k] + [log[k]];
    LogSnoc(log[..k], log[k]);
  }

  lemma CarriesAck(n: Node, f: Frame)
    requires Carries(n, f)
    ensures 0 < f.ack <= n.s.nextExpected
  {}

  lemma AbsorbKeeps(y: Sys, f: Frame, src: Option<Addr>, now: nat)
    requires Sender(y.a) && Sender(y.b) && Follows(y.a, y.b) && Follows(y.b, y.a) && Carries(y.b, f)
    ensures var a' := y.a.(s := Absorb(y.a.s, f, src, now).0);
      && Sender(a') && Follows(a', y.b) && Follows(y.b, a')
      && a'.s.nextExpected >= y.a.s.nextExpected && a'.s.cipher == y.a.s.cipher
  {
    hide LogBytes, Numbered, DropAcked, Queue, Window, TakeInOrder, Carries;
    assert 0 < f.ack <= y.b.s.nextExpected by { CarriesAck(y.b, f); }
    var s1 := y.a.s.(peer := if src.Some? then src.value else y.a.s.peer, lastRx := now, hadRx := true);
    var a1 := y.a.(s := s1);
    WindowSame(y.a, a1);
    assert Follows(a1, y.b);
    var a2 := a1.(s := TakeAck(s1, f.ack));
    TakeAckKeeps(a1, a2, y.b, f.ack);
    assert Queue(a2) by { QueueSame(y.a, a2.(s := a2.s.(finAcked := y.a.s.finAcked))); QueueSame(y.a, a2); }
    if f.kind != Ack && f.number == a2.s.nextExpected {
      TakeInOrderKeeps(y.b, a2, f);
      var a3 := a2.(s := TakeInOrder(a2.s, f).0);
      WindowSame(a2, a3);
      QueueSame(a2, a3);
    }
  }

  lemma TakeKeeps(y: Sys, d: Datagram, src: Option<Addr>, trusted: bool, now: nat)
    requires Inv(y) && Allowed(y, Take(d, src, trusted, now))
    ensures Inv(Step(y, Take(d, src, trusted, now)))
  {
    hide Secured, Spoken, LogBytes, Queue, FinLast, Window, Decipher, Absorb, AckFrame;
    var op := Take(d, src, trusted, now);
    EmitNothing(y);
    if Foreign(y.a.s, op) {
      ForeignIgnored(y.a, op);
      assert Step(y, op) == y;
      return;
    }
    ArrivalKeeps(y, d);
    var (s1, r) := Decipher(y.a.s, d);
    var a1 := y.a.(s := s1, accepted := Heard(y.a, s1, d));
    var y1 := Sys(a1, y.b, y.fromA + if r.Reply? then {r.answer} else {}, y.fromB);
    SidesSame(y, a1);
    if r.Reply? {
      assert Step(y, op) == y1 by { OneHello(y.a.sealed, r.answer); }
    } else if r.Data? && ParseFrame(r.msg).Some? {
      FrameKeeps(y1, ParseFrame(r.msg).value, src, now);
      AnswerSameWindow(s1, ParseFrame(r.msg).value, src, now);
      assert y1.fromA == y.fromA;
      assert Step(y, op) == AfterFrame(y1, ParseFrame(r.msg).value, src, now);
    } else {
      EmitNothing(y1);
      assert Step(y, op) == y1;
    }
  }

  /** Taking a frame changes no more of the cipher than the count of what it sealed. */
  lemma AnswerSameWindow(s: Stream, f: Frame, src: Option<Addr>, now: nat)
    ensures var s' := TakeFrame(s, f, src, now).0;
      && (s'.cipher.Some? <==> s.cipher.Some?)
      && (s.cipher.Some? ==> s'.cipher.value == s.cipher.value.(tx := s'.cipher.value.tx))
  {
    hide Absorb, Transmit, AckFrame;
    var (s1, answer) := Absorb(s, f, src, now);
    AbsorbSameCipher(s, f, src, now);
    TransmitSameWindow(s1, AckFrame(s1, []));
  }

  lemma AbsorbSameCipher(s: Stream, f: Frame, src: Option<Addr>, now: nat)
    ensures Absorb(s, f, src, now).0.cipher == s.cipher
  {}

  lemma TransmitSameWindow(s: Stream, frame: seq<byte>)
    ensures var s' := Transmit(s, frame).0;
      && s' == s.(cipher := s'.cipher) && (s'.cipher.Some? <==> s.cipher.Some?)
      && (s.cipher.Some? ==> s'.cipher.value == s.cipher.value.(tx := s'.cipher.value.tx))
  {}

  lemma OneHello(sealed: seq<seq<byte>>, h: Datagram)
    requires h.Hello?
    ensures sealed + SealedIn([h]) == sealed && SetOf([h]) == {h}
  {}

  function AfterFrame(y: Sys, f: Frame, src: Option<Addr>, now: nat): Sys {
    var (s, out) := TakeFrame(y.a.s, f, src, now);
    Emit(y, s, out)
  }

  lemma FrameKeeps(y: Sys, f: Frame, src: Option<Addr>, now: nat)
    requires Inv(y) && Carries(y.b, f)
    ensures Inv(AfterFrame(y, f, src, now))
  {
    hide Secured, Spoken, LogBytes, Queue, FinLast, Window, Absorb, AckFrame;
    var (s2, answer) := Absorb(y.a.s, f, src, now);
    AbsorbKeeps(y, f, src, now);
    var a2 := y.a.(s := s2);
    QuietKeeps(y, a2);
    var y2 := y.(a := a2);
    if answer {
      var frame := AckFrame(s2, []);
      AckIsGood(a2, []) by { WindowBound(a2); WindowBound(y.b); }
      SendKeeps(y2, frame);
      var (s3, out) := Transmit(s2, frame);
      SameSides(y2, s3, out);
      assert AfterFrame(y, f, src, now) == Emit(y2, s3, out);
    } else {
      EmitNothing(y2);
      assert AfterFrame(y, f, src, now) == y2;
    }
  }

  lemma WindowBound(n: Node)
    requires Window(n)
    ensures n.s.nextSeq <= LAST_NUMBER
  {}

  lemma SidesSame(y: Sys, a': Node)
    requires Sender(y.a) && Follows(y.a, y.b) && Follows(y.b, y.a)
    requires a'.s == y.a.s.(cipher := a'.s.cipher)
    requires a' == y.a.(s := a'.s, accepted := a'.accepted)
    ensures Sender(a') && Follows(a', y.b) && Follows(y.b, a')
  {}

  // ---------- runs ----------

  lemma StepKeeps(y: Sys, op: Op)
    requires Inv(y) && Allowed(y, op)
    ensures Inv(Step(y, op))
  {
    match op {
      case Write(buf) => WriteKeeps(y, buf);
      case Read(room) => ReadKeeps(y, room);
      case Shutdown => ShutdownKeeps(y);
      case Flush => FlushKeeps(y);
      case Timer(lastTx, now) => TimerKeeps(y, lastTx, now);
      case Take(d, src, trusted, now) => TakeKeeps(y, d, src, trusted, now);
    }
  }
}
