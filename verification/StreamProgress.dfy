/** While no timeout fires and the receiver has room, retransmission makes progress: one
    tick whose frames and answers arrive in order, however interleaved, empties the
    unacknowledged queue, and repeating that delivers everything. Nothing else that is in
    flight is ever delivered here. */
module StreamProgress {
  import opened Bytes
  import opened Frames
  import opened Security
  import opened ReplayWindow
  import opened Channel
  import opened StreamSpec
  import opened StreamSystem
  import opened StreamTheorems

  // ---------- composing runs ----------

  lemma {:induction false} RunsCompose(y: Sys, first: seq<(bool, Op)>, second: seq<(bool, Op)>)
    requires StreamTheorems.Runs(y, first) && StreamTheorems.Runs(StreamTheorems.After(y, first), second)
    ensures StreamTheorems.Runs(y, first + second)
    ensures StreamTheorems.After(y, first + second) == StreamTheorems.After(StreamTheorems.After(y, first), second)
    decreases |first|
  {
    hide May, StreamTheorems.StepOf;
    if first == [] {
      assert first + second == second;
    } else {
      RunsCompose(StreamTheorems.StepOf(y, first[0].0, first[0].1), first[1..], second);
      assert (first + second)[0] == first[0] && (first + second)[1..] == first[1..] + second;
    }
  }

  lemma RunOne(y: Sys, left: bool, op: Op)
    requires May(y, left, op)
    ensures StreamTheorems.Runs(y, [(left, op)])
    ensures StreamTheorems.After(y, [(left, op)]) == StreamTheorems.StepOf(y, left, op)
  {}

  // ---------- when a datagram is taken ----------

  /** Both ends may send: plain, or the handshake is complete. */
  ghost predicate Open(y: Sys) {
    && (y.a.s.cipher.Some? ==> y.a.s.cipher.value.remote.Some?)
    && (y.b.s.cipher.Some? ==> y.b.s.cipher.value.remote.Some?)
  }

  /** d is the s-to-r datagram for m, numbered above everything r has opened. */
  ghost predicate Fresh4(s: Node, r: Node, d: Datagram, m: seq<byte>) {
    match r.s.cipher
    case None => d == Raw(m)
    case Some(c) =>
      && s.s.cipher.Some? && c.remote == Some(s.s.cipher.value.local)
      && d.Envelope? && d.from == s.s.cipher.value.local
      && d.body == Sealed(c.key, d.from, d.number, c.local, m)
      && (c.high.Some? ==> c.high.value < d.number)
  }

  /** The node after deciphering d. */
  function Deciphered(r: Node, d: Datagram): Node {
    r.(s := Decipher(r.s, d).0, accepted := Heard(r, Decipher(r.s, d).0, d))
  }

  lemma FreshIsTaken(s: Node, r: Node, d: Datagram, m: seq<byte>)
    requires Fresh4(s, r, d, m)
    ensures Decipher(r.s, d).1 == Incoming.Data(m)
    ensures var c' := Deciphered(r, d).s.cipher;
      && Deciphered(r, d).s == r.s.(cipher := c')
      && (c'.Some? <==> r.s.cipher.Some?)
      && (c'.Some? ==>
            && c'.value == r.s.cipher.value.(high := c'.value.high, seen := c'.value.seen)
            && c'.value.high == Some(d.number))
  {}

  /** An arrival from the address in use is the deciphering, the frame and the answer. */
  lemma TakeIs(r: Node, d: Datagram, m: seq<byte>, now: nat)
    requires Decipher(r.s, d).1 == Incoming.Data(m) && ParseFrame(m).Some?
    ensures
      var (s1, out) := TakeFrame(Decipher(r.s, d).0, ParseFrame(m).value, Some(r.s.peer), now);
      NodeStep(r, Take(d, Some(r.s.peer), false, now)) == (Settle(Deciphered(r, d), s1, out), out)
  {
    var s0 := Decipher(r.s, d).0;
    var s1 := TakeFrame(s0, ParseFrame(m).value, Some(r.s.peer), now).0;
    AnswerSameWindow(s0, ParseFrame(m).value, Some(r.s.peer), now);
    hide TakeFrame, ParseFrame, Receive;
    assert Heard(r, s1, d) == Heard(r, s0, d);
  }

  predicate SameSession(n: Node, n': Node) {
    && (n.s.cipher.Some? <==> n'.s.cipher.Some?)
    && (n.s.cipher.Some? ==>
          var (c, c') := (n.s.cipher.value, n'.s.cipher.value);
          c'.key == c.key && c'.local == c.local && c'.remote == c.remote)
  }

  function Tx(n: Node): nat { if n.s.cipher.Some? then n.s.cipher.value.tx else 0 }

  /** Numbers left for k more sealed datagrams. */
  predicate Spare(n: Node, k: nat) { Tx(n) + k < U64 }

  /** The receive-buffer room a frame needs. */
  function Size(f: Frame): nat { if f.kind == FrameKind.Data then |f.payload| else 0 }

  /** What taking the data frame m does to b. */
  ghost predicate Advanced(r: Node, r': Node, f: Frame, d: Datagram) {
    && r'.s.nextExpected == r.s.nextExpected + (if f.number == r.s.nextExpected then 1 else 0)
    && |r'.s.rxBuf| <= |r.s.rxBuf| + Size(f)
    && Tx(r') == Tx(r) + (if r.s.cipher.Some? then 1 else 0)
    && r'.read == r.read && r'.s.err == r.s.err && r'.s.peer == r.s.peer
    && SameSession(r, r')
    && (r'.s.cipher.Some? ==> d.Envelope? && r'.s.cipher.value.high == Some(d.number))
  }

  lemma HearData(s: Node, r: Node, d: Datagram, m: seq<byte>, now: nat) returns (ack: Datagram)
    requires Fresh4(s, r, d, m) && Spare(r, 1) && Peered(s, r) && Peered(r, s)
    requires ParseFrame(m).Some? && ParseFrame(m).value.kind != Ack
    requires |r.s.rxBuf| + Size(ParseFrame(m).value) <= RX_CAP
    requires ParseFrame(m).value.number == r.s.nextExpected ==> r.s.nextExpected < LAST_NUMBER
    ensures
      var (r', out) := NodeStep(r, Take(d, Some(r.s.peer), false, now));
      && out == [ack] && Fresh4(r', s, ack, AckFrame(r'.s, []))
      && (r.s.cipher.Some? ==> ack.Envelope? && ack.number == Tx(r))
      && Advanced(r, r', ParseFrame(m).value, d)
  {
    hide AckFrame, ParseFrame, Transmit, Decipher, TakeFrame, Absorb, NodeStep;
    var f := ParseFrame(m).value;
    FreshIsTaken(s, r, d, m);
    TakeIs(r, d, m, now);
    var r1 := Deciphered(r, d);
    assert r1.s == r.s.(cipher := r1.s.cipher);
    AbsorbData(r1.s, f, Some(r.s.peer), now);
    var s2 := Absorb(r1.s, f, Some(r.s.peer), now).0;
    var (s3, out) := Transmit(s2, AckFrame(s2, []));
    TakeFrameIs(r1.s, f, Some(r.s.peer), now);
    ack := AnswerIsFresh(s, r, r1, s2, AckFrame(s2, []));
    AckFrameSame(s2, s3);
    assert NodeStep(r, Take(d, Some(r.s.peer), false, now)) == (Settle(r1, s3, out), out);
  }

  /** The data or FIN frame m reaches b: it is taken when it is the next one, and answered
      in every case. */
  lemma DeliverData(y: Sys, d: Datagram, m: seq<byte>, now: nat) returns (ack: Datagram)
    requires Inv(y) && Open(y) && d in y.fromA && Fresh4(y.a, y.b, d, m) && Spare(y.b, 1)
    requires Good(y.a, m) && ParseFrame(m).value.kind != Ack
    requires |y.b.s.rxBuf| + Size(ParseFrame(m).value) <= RX_CAP
    ensures
      var op := Take(d, Some(y.b.s.peer), false, now);
      var z := StreamTheorems.StepOf(y, false, op);
      && May(y, false, op) && Inv(z) && Open(z)
      && z.a == y.a && z.fromA == y.fromA && ack in z.fromB && y.fromB <= z.fromB
      && NodeStep(y.b, op).1 == [ack] && Fresh4(z.b, z.a, ack, AckFrame(z.b.s, []))
      && (y.b.s.cipher.Some? ==> ack.Envelope? && ack.number == Tx(y.b))
      && Advanced(y.b, z.b, ParseFrame(m).value, d)
  {
    hide Inv, AckFrame, ParseFrame, NodeStep, Fresh4;
    var op := Take(d, Some(y.b.s.peer), false, now);
    var f := ParseFrame(m).value;
    assert May(y, false, op) by { InNetCanArrive(y.fromB + y.fromA, d); }
    OneStepKeeps(y, false, op);
    OpenIsPeered(y);
    if f.number == y.b.s.nextExpected {
      NextIsBelowLast(y, f);
    }
    ack := HearData(y.a, y.b, d, m, now);
    assert ack in SetOf([ack]);
  }

  lemma AckFrameSame(s: Stream, s': Stream)
    requires s'.nextSeq == s.nextSeq && s'.nextExpected == s.nextExpected
    ensures AckFrame(s', []) == AckFrame(s, [])
  {}

  lemma InNetCanArrive(net: set<Datagram>, d: Datagram)
    requires d in net
    ensures forall key :: CanArrive(d, net, key)
  {}

  lemma NextIsBelowLast(y: Sys, f: Frame)
    requires Inv(y) && Carries(y.a, f) && f.kind != Ack && f.number == y.b.s.nextExpected
    ensures y.b.s.nextExpected < LAST_NUMBER
  {}

  lemma TakeFrameIs(s: Stream, f: Frame, src: Option<Addr>, now: nat)
    requires Absorb(s, f, src, now).1
    ensures TakeFrame(s, f, src, now)
         == Transmit(Absorb(s, f, src, now).0, AckFrame(Absorb(s, f, src, now).0, []))
  {}

  lemma AbsorbData(s: Stream, f: Frame, src: Option<Addr>, now: nat)
    requires f.kind != Ack && |s.rxBuf| + Size(f) <= RX_CAP
    requires f.number == s.nextExpected ==> s.nextExpected < LAST_NUMBER
    ensures
      var (s', answer) := Absorb(s, f, src, now);
      && answer
      && s'.nextExpected == s.nextExpected + (if f.number == s.nextExpected then 1 else 0)
      && |s'.rxBuf| <= |s.rxBuf| + Size(f)
      && s'.cipher == s.cipher && s'.err == s.err && s'.peer == if src.Some? then src.value else s.peer
  {}

  /** What an open, sealed s knows about its peer r: the key, the challenge, and that it has
      opened no number r has not yet used. */
  ghost predicate Peered(s: Node, r: Node) {
    && (s.s.cipher.Some? <==> r.s.cipher.Some?)
    && (s.s.cipher.Some? ==>
          var (c, e) := (s.s.cipher.value, r.s.cipher.value);
          c.key == e.key && c.remote == Some(e.local) && (c.high.Some? ==> c.high.value < e.tx))
  }

  lemma OpenIsPeered(y: Sys)
    requires Inv(y) && Open(y)
    ensures Peered(y.a, y.b) && Peered(y.b, y.a)
  {
    if y.a.s.cipher.Some? {
      HighIsUsed(PartyOf(y.a), PartyOf(y.b), y.fromA + y.fromB);
      HighIsUsed(PartyOf(y.b), PartyOf(y.a), y.fromA + y.fromB);
    }
  }

  lemma HighIsUsed(p: Party, q: Party, net: set<Datagram>)
    requires Paired(p, q, net)
    ensures p.s.high.Some? ==> p.s.high.value < q.s.tx
  {}

  /** The answer of r is one datagram, fresh for s. */
  lemma AnswerIsFresh(s: Node, r: Node, r1: Node, s2: Stream, frame: seq<byte>) returns (ack: Datagram)
    requires Peered(s, r) && Peered(r, s) && Spare(r, 1)
    requires s2.cipher == r1.s.cipher && (r1.s.cipher.Some? <==> r.s.cipher.Some?)
    requires r1.s.cipher.Some? ==>
      r1.s.cipher.value == r.s.cipher.value.(high := r1.s.cipher.value.high, seen := r1.s.cipher.value.seen)
    ensures var (s3, out) := Transmit(s2, frame);
      && out == [ack] && s3 == s2.(cipher := s3.cipher)
      && (s3.cipher.Some? <==> r.s.cipher.Some?)
      && (s3.cipher.Some? ==> s3.cipher.value == r1.s.cipher.value.(tx := r1.s.cipher.value.tx + 1))
      && Fresh4(r1.(s := s3), s, ack, frame)
      && (r.s.cipher.Some? ==> ack.Envelope? && ack.number == Tx(r))
  {
    var (s3, out) := Transmit(s2, frame);
    ack := out[0];
  }

  lemma AbsorbAck(s: Stream, f: Frame, src: Option<Addr>, now: nat)
    requires f.kind == Ack && f.payload == [] && 0 < f.ack <= s.nextSeq
    ensures
      var (s', answer) := Absorb(s, f, src, now);
      && !answer
      && s' == s.(peer := if src.Some? then src.value else s.peer, lastRx := now, hadRx := true,
                  unacked := DropAcked(s.unacked, f.ack), finAcked := s'.finAcked)
      && s'.finAcked == (s.finAcked || (s.finSent && f.ack > s.finSeq))
  {}

  /** An acknowledgement as the receiver answers with: no ping, and not beyond `nextSeq`. */
  ghost predicate Acknowledges(s: Stream, m: seq<byte>) {
    && ParseFrame(m).Some?
    && var f := ParseFrame(m).value; f.kind == Ack && f.payload == [] && 0 < f.ack <= s.nextSeq
  }

  /** b's answer reaches a, which drops everything below the position it names. */
  lemma DeliverAck(y: Sys, d: Datagram, m: seq<byte>, now: nat)
    requires Inv(y) && Open(y) && d in y.fromB && Fresh4(y.b, y.a, d, m) && Acknowledges(y.a.s, m)
    ensures
      var op := Take(d, Some(y.a.s.peer), false, now);
      var z := StreamTheorems.StepOf(y, true, op);
      var ack := ParseFrame(m).value.ack;
      && May(y, true, op) && Inv(z) && Open(z) && NodeStep(y.a, op).1 == []
      && z.b == y.b && z.fromA == y.fromA && z.fromB == y.fromB
      && SameSession(y.a, z.a) && Tx(z.a) == Tx(y.a)
      && (z.a.s.cipher.Some? ==> d.Envelope? && z.a.s.cipher.value.high == Some(d.number))
      && z.a == y.a.(s := z.a.s, accepted := z.a.accepted)
      && z.a.s == y.a.s.(lastRx := now, hadRx := true, finAcked := z.a.s.finAcked,
                         unacked := DropAcked(y.a.s.unacked, ack), cipher := z.a.s.cipher)
      && z.a.s.finAcked == (y.a.s.finAcked || (y.a.s.finSent && ack > y.a.s.finSeq))
  {
    hide Inv, Decipher, ParseFrame, DropAcked, Absorb;
    var op := Take(d, Some(y.a.s.peer), false, now);
    assert May(y, true, op) by { InNetCanArrive(y.fromA + y.fromB, d); }
    OneStepKeeps(y, true, op);
    FreshIsTaken(y.b, y.a, d, m);
    TakeIs(y.a, d, m, now);
    var a1 := Deciphered(y.a, d);
    var f := ParseFrame(m).value;
    AbsorbAck(a1.s, f, Some(y.a.s.peer), now);
    var s2 := Absorb(a1.s, f, Some(y.a.s.peer), now).0;
    assert TakeFrame(a1.s, f, Some(y.a.s.peer), now) == (s2, []);
    var z := StreamTheorems.StepOf(y, true, op);
    assert a1.sealed + [] == a1.sealed && y.fromA + {} == y.fromA;
    assert z == Sys(Settle(a1, s2, []), y.b, y.fromA, y.fromB);
  }

  lemma AckFrameParses(y: Sys)
    requires Inv(y)
    ensures ParseFrame(AckFrame(y.b.s, [])) == Some(Frame(Ack, y.b.s.nextSeq, y.b.s.nextExpected, []))
    ensures Acknowledges(y.a.s, AckFrame(y.b.s, []))
  {
    ParseEncode(Frame(Ack, y.b.s.nextSeq, y.b.s.nextExpected, []));
  }

  // ---------- a batch of frames and its answers ----------

  /** Datagrams for consecutive frames, in order, none opened yet. */
  ghost predicate Batch(y: Sys, outs: seq<Datagram>, frames: seq<(nat, seq<byte>)>) {
    && |outs| == |frames|
    && (forall i | 0 <= i < |outs| ::
          && outs[i] in y.fromA && Fresh4(y.a, y.b, outs[i], frames[i].1)
          && Numbered(y.a, frames[i].1, frames[i].0)
          && frames[i].0 == frames[0].0 + i)
    && (y.b.s.cipher.Some? ==>
          forall i, j | 0 <= i < j < |outs| :: outs[i].number < outs[j].number)
  }

  /** What a run of deliveries leaves alone at a, and how far it moves b. */
  ghost predicate Moved(y: Sys, z: Sys, k: nat) {
    && Inv(z) && Open(z)
    && z.a == y.a.(s := z.a.s, accepted := z.a.accepted)
    && z.a.s == y.a.s.(lastRx := z.a.s.lastRx, hadRx := z.a.s.hadRx, finAcked := z.a.s.finAcked,
                       unacked := z.a.s.unacked, cipher := z.a.s.cipher)
    && SameSession(y.a, z.a) && Tx(z.a) == Tx(y.a)
    && z.b.read == y.b.read && z.b.s.err == y.b.s.err && z.b.s.peer == y.b.s.peer
    && Tx(z.b) <= Tx(y.b) + k
    && |z.b.s.rxBuf| <= |y.b.s.rxBuf| + k * MAX_PAYLOAD
    && y.b.s.nextExpected <= z.b.s.nextExpected
  }

  /** a holds nothing below b's position, and knows when b has its FIN. */
  ghost predicate CaughtUp(z: Sys) {
    && z.b.s.nextExpected <= z.a.s.nextSeq
    && (forall u | u in z.a.s.unacked :: u.0 >= z.b.s.nextExpected)
    && (z.a.s.finSent && z.b.s.nextExpected > z.a.s.finSeq ==> z.a.s.finAcked)
  }

  lemma PayloadIsBounded(n: Node, m: seq<byte>)
    requires Queue(n) && Good(n, m) && ParseFrame(m).value.kind != Ack
    ensures Size(ParseFrame(m).value) <= MAX_PAYLOAD
  {}

  lemma DropAckedLeaves(unacked: seq<(nat, seq<byte>)>, ack: nat)
    requires forall i, j | 0 <= i < j < |unacked| :: unacked[i].0 < unacked[j].0
    ensures forall u | u in DropAcked(unacked, ack) :: u.0 >= ack
  {}

  lemma QueueOf(y: Sys)
    requires Inv(y)
    ensures Queue(y.a)
  {}

  lemma Increasing(y: Sys)
    requires Inv(y)
    ensures forall i, j | 0 <= i < j < |y.a.s.unacked| :: y.a.s.unacked[i].0 < y.a.s.unacked[j].0
    ensures y.b.s.nextExpected <= y.a.s.nextSeq
  {}

  lemma BatchRest(y: Sys, z: Sys, outs: seq<Datagram>, frames: seq<(nat, seq<byte>)>)
    requires Batch(y, outs, frames) && outs != []
    requires Moved(y, z, 1) && z.fromA == y.fromA && SameSession(y.b, z.b)
    requires z.b.s.cipher.Some? ==> outs[0].Envelope? && z.b.s.cipher.value.high == Some(outs[0].number)
    ensures Batch(z, outs[1..], frames[1..])
  {
    hide Inv;
    forall i | 0 <= i < |outs[1..]|
      ensures outs[1..][i] in z.fromA && Fresh4(z.a, z.b, outs[1..][i], frames[1..][i].1)
        && Numbered(z.a, frames[1..][i].1, frames[1..][i].0)
        && frames[1..][i].0 == frames[1..][0].0 + i
    {
      assert outs[1..][i] == outs[i + 1] && frames[1..][i] == frames[i + 1] && frames[1..][0] == frames[1];
      assert Fresh4(y.a, y.b, outs[i + 1], frames[i + 1].1);
      NumberedSame(y.a, z.a, frames[i + 1].1, frames[i + 1].0);
    }
  }

  lemma MovedTrans(x: Sys, y: Sys, z: Sys, j: nat, k: nat)
    requires Moved(x, y, j) && Moved(y, z, k)
    ensures Moved(x, z, j + k)
  {
    hide Inv;
    assert (j + k) * MAX_PAYLOAD == j * MAX_PAYLOAD + k * MAX_PAYLOAD;
  }

  // ---------- two lines, each in order ----------

  /** What is under way to either end, first to arrive first. */
  datatype Line = Line(y: Sys, toB: seq<Datagram>, toA: seq<Datagram>)

  /** One arrival: at a if that is asked for and possible, else at b, else at a. What an end
      sends in return joins the line to the other. */
  function Hop(l: Line, left: bool, now: nat): Line {
    if l.toA == [] && l.toB == [] then l
    else if (left && l.toA != []) || l.toB == [] then
      var op := Take(l.toA[0], Some(l.y.a.s.peer), false, now);
      Line(StreamTheorems.StepOf(l.y, true, op), l.toB + NodeStep(l.y.a, op).1, l.toA[1..])
    else
      var op := Take(l.toB[0], Some(l.y.b.s.peer), false, now);
      Line(StreamTheorems.StepOf(l.y, false, op), l.toB[1..], l.toA + NodeStep(l.y.b, op).1)
  }

  /** Arrivals one after another, at the given times. */
  function Hops(l: Line, schedule: seq<(bool, nat)>): Line
    decreases |schedule|
  {
    if schedule == [] then l else Hops(Hop(l, schedule[0].0, schedule[0].1), schedule[1..])
  }

  /** z can be reached from y by allowed operations. */
  ghost predicate RunsTo(y: Sys, z: Sys) {
    exists ops :: StreamTheorems.Runs(y, ops) && StreamTheorems.After(y, ops) == z
  }

  lemma StaysPut(y: Sys)
    ensures RunsTo(y, y)
  {
    assert StreamTheorems.Runs(y, []) && StreamTheorems.After(y, []) == y;
  }

  lemma OneOp(y: Sys, left: bool, op: Op)
    requires May(y, left, op)
    ensures RunsTo(y, StreamTheorems.StepOf(y, left, op))
  {
    hide May, StreamTheorems.StepOf;
    RunOne(y, left, op);
  }

  lemma RunsToTrans(x: Sys, y: Sys, z: Sys)
    requires RunsTo(x, y) && RunsTo(y, z)
    ensures RunsTo(x, z)
  {
    var first :| StreamTheorems.Runs(x, first) && StreamTheorems.After(x, first) == y;
    var second :| StreamTheorems.Runs(y, second) && StreamTheorems.After(y, second) == z;
    RunsCompose(x, first, second);
  }

  /** The answers on their way to a: fresh, in order, the last one naming b's position. */
  ghost predicate Answers(y: Sys, toA: seq<Datagram>, answers: seq<seq<byte>>) {
    && |toA| == |answers|
    && (forall i | 0 <= i < |toA| ::
          toA[i] in y.fromB && Fresh4(y.b, y.a, toA[i], answers[i]) && Acknowledges(y.a.s, answers[i]))
    && (y.a.s.cipher.Some? ==>
          && (forall i | 0 <= i < |toA| :: toA[i].number < Tx(y.b))
          && (forall i, j | 0 <= i < j < |toA| :: toA[i].number < toA[j].number))
    && (toA != [] ==> ParseFrame(answers[|toA| - 1]).value.ack == y.b.s.nextExpected)
  }

  /** The frames still to arrive at b lead on from its position up to `goal`. */
  ghost predicate Leads(y: Sys, toB: seq<Datagram>, frames: seq<(nat, seq<byte>)>, goal: nat) {
    && Batch(y, toB, frames)
    && (if frames == [] then y.b.s.nextExpected >= goal
        else frames[0].0 <= y.b.s.nextExpected && frames[0].0 + |frames| == goal)
    && |y.b.s.rxBuf| + |toB| * MAX_PAYLOAD <= RX_CAP && Spare(y.b, |toB|)
  }

  ghost predicate InLine(l: Line, frames: seq<(nat, seq<byte>)>, answers: seq<seq<byte>>, goal: nat) {
    && Inv(l.y) && Open(l.y)
    && Leads(l.y, l.toB, frames, goal) && Answers(l.y, l.toA, answers)
    && (l.toB == [] && l.toA == [] ==> CaughtUp(l.y))
  }

  /** A frame arrives at b. */
  lemma HopRight(l: Line, now: nat, frames: seq<(nat, seq<byte>)>, answers: seq<seq<byte>>, goal: nat)
    requires InLine(l, frames, answers, goal) && l.toB != []
    ensures
      var op := Take(l.toB[0], Some(l.y.b.s.peer), false, now);
      var z := StreamTheorems.StepOf(l.y, false, op);
      && |NodeStep(l.y.b, op).1| == 1 && Moved(l.y, z, 1) && RunsTo(l.y, z)
      && InLine(Line(z, l.toB[1..], l.toA + NodeStep(l.y.b, op).1), frames[1..], answers + [AckFrame(z.b.s, [])], goal)
  {
    hide Inv, AckFrame, ParseFrame, NodeStep, Fresh4, May, StreamTheorems.StepOf, Acknowledges, CaughtUp, RunsTo;
    var (y, d, m) := (l.y, l.toB[0], frames[0].1);
    assert Numbered(y.a, m, frames[0].0);
    assert Size(ParseFrame(m).value) <= MAX_PAYLOAD by { QueueOf(y); PayloadIsBounded(y.a, m); }
    var ack := DeliverData(y, d, m, now);
    OpenIsPeered(y);
    var op := Take(d, Some(y.b.s.peer), false, now);
    var z := StreamTheorems.StepOf(y, false, op);
    OneOp(y, false, op);
    AckFrameParses(z);
    LeadsRest(y, z, l.toB, frames, goal);
    AnswersMore(y, z, l.toA, answers, ack);
  }

  lemma LeadsRest(y: Sys, z: Sys, toB: seq<Datagram>, frames: seq<(nat, seq<byte>)>, goal: nat)
    requires Leads(y, toB, frames, goal) && toB != [] && Moved(y, z, 1) && z.fromA == y.fromA
    requires Numbered(y.a, frames[0].1, frames[0].0) && Size(ParseFrame(frames[0].1).value) <= MAX_PAYLOAD
    requires Advanced(y.b, z.b, ParseFrame(frames[0].1).value, toB[0])
    ensures Leads(z, toB[1..], frames[1..], goal)
  {
    hide Inv, ParseFrame, Fresh4, Good;
    BatchRest(y, z, toB, frames);
    if |toB| > 1 {
      assert frames[1..][0] == frames[1];
    }
    assert |toB| * MAX_PAYLOAD == |toB[1..]| * MAX_PAYLOAD + MAX_PAYLOAD;
  }

  lemma AnswersMore(y: Sys, z: Sys, toA: seq<Datagram>, answers: seq<seq<byte>>, ack: Datagram)
    requires Answers(y, toA, answers) && z.a == y.a && SameSession(y.b, z.b) && y.fromB <= z.fromB
    requires Tx(z.b) == Tx(y.b) + (if y.b.s.cipher.Some? then 1 else 0)
    requires y.b.s.cipher.Some? <==> y.a.s.cipher.Some?
    requires ack in z.fromB && Fresh4(z.b, z.a, ack, AckFrame(z.b.s, [])) && Acknowledges(z.a.s, AckFrame(z.b.s, []))
    requires y.b.s.cipher.Some? ==> ack.Envelope? && ack.number == Tx(y.b)
    requires ParseFrame(AckFrame(z.b.s, [])).value.ack == z.b.s.nextExpected
    ensures Answers(z, toA + [ack], answers + [AckFrame(z.b.s, [])])
  {
    hide AckFrame, ParseFrame, Acknowledges;
    forall i | 0 <= i < |toA| ensures Fresh4(z.b, z.a, toA[i], answers[i]) {
      assert Fresh4(y.b, y.a, toA[i], answers[i]);
    }
  }

  /** An answer arrives at a. */
  lemma HopLeft(l: Line, now: nat, frames: seq<(nat, seq<byte>)>, answers: seq<seq<byte>>, goal: nat)
    requires InLine(l, frames, answers, goal) && l.toA != []
    ensures
      var op := Take(l.toA[0], Some(l.y.a.s.peer), false, now);
      var z := StreamTheorems.StepOf(l.y, true, op);
      && NodeStep(l.y.a, op).1 == [] && Moved(l.y, z, 0) && RunsTo(l.y, z)
      && InLine(Line(z, l.toB, l.toA[1..]), frames, answers[1..], goal)
  {
    hide Inv, AckFrame, ParseFrame, NodeStep, Fresh4, May, StreamTheorems.StepOf, RunsTo, DropAcked;
    var (y, d, m) := (l.y, l.toA[0], answers[0]);
    DeliverAck(y, d, m, now);
    var op := Take(d, Some(y.a.s.peer), false, now);
    var z := StreamTheorems.StepOf(y, true, op);
    OneOp(y, true, op);
    LeadsStill(y, z, l.toB, frames, goal);
    AnswersRest(y, z, l.toA, answers);
    if l.toA[1..] == [] {
      Increasing(y);
      DropAckedLeaves(y.a.s.unacked, y.b.s.nextExpected);
    }
  }

  lemma LeadsStill(y: Sys, z: Sys, toB: seq<Datagram>, frames: seq<(nat, seq<byte>)>, goal: nat)
    requires Leads(y, toB, frames, goal) && z.b == y.b && z.fromA == y.fromA && SameSession(y.a, z.a)
    requires z.a.log == y.a.log && z.a.s.nextExpected == y.a.s.nextExpected
    ensures Leads(z, toB, frames, goal)
  {
    forall i | 0 <= i < |toB| ensures Fresh4(z.a, z.b, toB[i], frames[i].1) && Numbered(z.a, frames[i].1, frames[i].0) {
      assert Fresh4(y.a, y.b, toB[i], frames[i].1);
      NumberedSame(y.a, z.a, frames[i].1, frames[i].0);
    }
    hide Fresh4, Numbered;
  }

  lemma AnswersRest(y: Sys, z: Sys, toA: seq<Datagram>, answers: seq<seq<byte>>)
    requires Answers(y, toA, answers) && toA != [] && z.b == y.b && z.fromB == y.fromB && SameSession(y.a, z.a)
    requires z.a.s.nextSeq == y.a.s.nextSeq
    requires z.a.s.cipher.Some? ==> toA[0].Envelope? && z.a.s.cipher.value.high == Some(toA[0].number)
    ensures Answers(z, toA[1..], answers[1..])
  {
    hide ParseFrame;
    forall i | 0 <= i < |toA[1..]|
      ensures Fresh4(z.b, z.a, toA[1..][i], answers[1..][i]) && Acknowledges(z.a.s, answers[1..][i])
    {
      assert Fresh4(y.b, y.a, toA[i + 1], answers[i + 1]) && Acknowledges(y.a.s, answers[i + 1]);
    }
  }

  /** In order on either line, in whatever interleaving: every frame draws one answer, and
      after two arrivals a frame nothing is under way and both ends agree. */
  lemma {:induction false} HopsSettle(l: Line, schedule: seq<(bool, nat)>,
                                      frames: seq<(nat, seq<byte>)>, answers: seq<seq<byte>>, goal: nat)
    requires InLine(l, frames, answers, goal) && |schedule| >= 2 * |l.toB| + |l.toA|
    ensures var z := Hops(l, schedule);
      && z.toB == [] && z.toA == [] && Moved(l.y, z.y, |l.toB|) && RunsTo(l.y, z.y)
      && CaughtUp(z.y) && z.y.b.s.nextExpected >= goal
    decreases |schedule|
  {
    hide Inv, Leads, Answers, NodeStep, StreamTheorems.StepOf, CaughtUp, Moved, RunsTo, AckFrame;
    if l.toB == [] && l.toA == [] {
      HopsRest(l, schedule);
      StaysPut(l.y);
      MovedSelf(l.y);
      assert l.y.b.s.nextExpected >= goal by { LeadsDone(l.y, frames, goal); }
    } else {
      var (left, now, rest) := (schedule[0].0, schedule[0].1, schedule[1..]);
      var k := Hop(l, left, now);
      LineSizes(l, frames, answers, goal);
      if (left && l.toA != []) || l.toB == [] {
        HopLeft(l, now, frames, answers, goal);
        assert l.toB + [] == l.toB;
        HopsSettle(k, rest, frames, answers[1..], goal);
        MovedTrans(l.y, k.y, Hops(k, rest).y, 0, |l.toB|);
      } else {
        HopRight(l, now, frames, answers, goal);
        HopsSettle(k, rest, frames[1..], answers + [AckFrame(k.y.b.s, [])], goal);
        MovedTrans(l.y, k.y, Hops(k, rest).y, 1, |l.toB| - 1);
      }
      RunsToTrans(l.y, k.y, Hops(k, rest).y);
    }
  }

  lemma LineSizes(l: Line, frames: seq<(nat, seq<byte>)>, answers: seq<seq<byte>>, goal: nat)
    requires InLine(l, frames, answers, goal)
    ensures |frames| == |l.toB| && |answers| == |l.toA|
  {}

  lemma {:induction false} HopsRest(l: Line, schedule: seq<(bool, nat)>)
    requires l.toB == [] && l.toA == []
    ensures Hops(l, schedule) == l
    decreases |schedule|
  {
    if schedule != [] {
      HopsRest(l, schedule[1..]);
    }
  }

  lemma MovedSelf(y: Sys)
    requires Inv(y) && Open(y)
    ensures Moved(y, y, 0)
  {
    hide Inv;
  }

  lemma LeadsDone(y: Sys, frames: seq<(nat, seq<byte>)>, goal: nat)
    requires Leads(y, [], frames, goal)
    ensures y.b.s.nextExpected >= goal
  {}

  // ---------- one tick ----------

  /** What the tick sends is a batch. */
  lemma {:induction false} TransmitAllIs(s: Stream, frames: seq<(nat, seq<byte>)>)
    requires s.cipher.Some? ==> s.cipher.value.remote.Some? && s.cipher.value.tx + |frames| < U64
    ensures
      var (s', out) := TransmitAll(s, frames);
      && |out| == |frames|
      && (s.cipher.None? ==> s' == s && forall i | 0 <= i < |out| :: out[i] == Raw(frames[i].1))
      && (s.cipher.Some? ==>
            var c := s.cipher.value;
            && s' == s.(cipher := Some(c.(tx := c.tx + |frames|)))
            && forall i | 0 <= i < |out| :: out[i] == Envelope(c.local, c.tx + i,
                 Sealed(c.key, c.local, c.tx + i, c.remote.value, frames[i].1)))
    decreases |frames|
  {
    if frames != [] {
      var (s1, out1) := Transmit(s, frames[0].1);
      TransmitAllIs(s1, frames[1..]);
    }
  }

  /** Two nodes agree on all but the cipher and its history. */
  ghost predicate SameButCipher(n: Node, n': Node) {
    && n' == n.(s := n'.s, sealed := n'.sealed)
    && n'.s == n.s.(cipher := n'.s.cipher)
    && SameSession(n, n')
  }

  lemma SentFramesAreFresh(n: Node, r: Node, frames: seq<(nat, seq<byte>)>)
    requires Peered(n, r) && Peered(r, n) && Spare(n, |frames|)
    ensures
      var (s', outs) := TransmitAll(n.s, frames);
      var n' := Settle(n, s', outs);
      && |outs| == |frames| && SameButCipher(n, n') && Tx(n') <= Tx(n) + |frames|
      && (forall i | 0 <= i < |outs| :: Fresh4(n', r, outs[i], frames[i].1))
      && (r.s.cipher.Some? ==> forall i, j | 0 <= i < j < |outs| :: outs[i].number < outs[j].number)
  {
    hide TransmitAll;
    TransmitAllIs(n.s, frames);
  }

  lemma TickSends(y: Sys, lastTx: nat, now: nat)
    requires Inv(y) && Open(y) && TickOf(y.a.s, lastTx, now).Resend? && Spare(y.a, |y.a.s.unacked|)
    ensures
      var z := StreamTheorems.StepOf(y, true, Timer(lastTx, now));
      && May(y, true, Timer(lastTx, now)) && Inv(z) && Open(z)
      && z.b == y.b && SameButCipher(y.a, z.a)
      && Tx(z.a) <= Tx(y.a) + |y.a.s.unacked|
      && Batch(z, NodeStep(y.a, Timer(lastTx, now)).1, y.a.s.unacked)
  {
    hide Inv, Numbered, TransmitAll, Fresh4, CloseTimedOut, PeerLost;
    OneStepKeeps(y, true, Timer(lastTx, now));
    OpenIsPeered(y);
    UnackedAreNumbered(y);
    var frames := y.a.s.unacked;
    SentFramesAreFresh(y.a, y.b, frames);
    var outs := TransmitAll(y.a.s, frames).1;
    ResendIs(y.a, lastTx, now);
    var z := StreamTheorems.StepOf(y, true, Timer(lastTx, now));
    forall i | 0 <= i < |outs|
      ensures outs[i] in z.fromA && Numbered(z.a, frames[i].1, frames[i].0)
    {
      assert outs[i] in SetOf(outs);
      NumberedSame(y.a, z.a, frames[i].1, frames[i].0);
    }
  }

  lemma ResendIs(n: Node, lastTx: nat, now: nat)
    requires TickOf(n.s, lastTx, now).Resend?
    requires n.s.cipher.Some? ==> n.s.cipher.value.remote.Some?
    ensures
      var (s', outs) := TransmitAll(n.s, n.s.unacked);
      NodeStep(n, Timer(lastTx, now)) == (Settle(n, s', outs), outs)
  {
    hide TransmitAll;
    var (s', outs) := TransmitAll(n.s, n.s.unacked);
    assert Greeting(n.s) == [] && [] + outs == outs;
  }

  lemma UnackedAreNumbered(y: Sys)
    requires Inv(y)
    ensures var u := y.a.s.unacked;
      && |u| <= SEND_WINDOW
      && (forall i | 0 <= i < |u| :: Numbered(y.a, u[i].1, u[i].0) && u[i].0 == u[0].0 + i)
      && (u != [] ==> u[0].0 == y.a.s.nextSeq - |u| <= y.b.s.nextExpected)
      && (u == [] ==> y.b.s.nextExpected == y.a.s.nextSeq)
      && (u != [] ==> u[0] in u)
      && (forall e | e in u :: e.0 < y.a.s.nextSeq)
  {}

  /** Everything numbered has arrived and is acknowledged. */
  ghost predicate Settled(z: Sys) {
    && z.a.s.unacked == []
    && z.b.s.nextExpected == z.a.s.nextSeq
    && (z.a.s.finSent ==> z.a.s.finAcked)
  }

  /** The tick, and what it sends on its way to b with nothing else on either line. */
  function Ticked(y: Sys, lastTx: nat, now: nat): Line {
    var tick := Timer(lastTx, now);
    Line(StreamTheorems.StepOf(y, true, tick), NodeStep(y.a, tick).1, [])
  }

  /** One retransmission tick whose frames arrive in order, and whose answers do, each after
      its frame and otherwise whenever the schedule says: all of it arrives, the
      unacknowledged queue is empty, and the receiver stands at the sender's next number.
      Each frame followed by its answer and all frames before all answers are two schedules. */
  lemma TickTheorem(y: Sys, lastTx: nat, now: nat, schedule: seq<(bool, nat)>)
    requires Inv(y) && Open(y) && TickOf(y.a.s, lastTx, now).Resend?
    requires |y.b.s.rxBuf| + |y.a.s.unacked| * MAX_PAYLOAD <= RX_CAP
    requires Spare(y.a, |y.a.s.unacked|) && Spare(y.b, |y.a.s.unacked|)
    requires |schedule| >= 2 * |y.a.s.unacked|
    ensures |Ticked(y, lastTx, now).toB| == |y.a.s.unacked|
    ensures var l := Hops(Ticked(y, lastTx, now), schedule);
      && l.toB == [] && l.toA == [] && RunsTo(y, l.y)
      && Settled(l.y) && Undelivered(l.y) == Undelivered(y) - |y.a.s.unacked| < Undelivered(y)
      && Ticks(y, l.y)
  {
    hide *;
    var l := Ticked(y, lastTx, now);
    TickedInLine(y, lastTx, now);
    HopsSettle(l, schedule, y.a.s.unacked, [], y.a.s.nextSeq);
    var z := Hops(l, schedule).y;
    RunsToTrans(y, l.y, z);
    TickSettles(y, l.y, z);
  }

  lemma TickedInLine(y: Sys, lastTx: nat, now: nat)
    requires Inv(y) && Open(y) && TickOf(y.a.s, lastTx, now).Resend?
    requires |y.b.s.rxBuf| + |y.a.s.unacked| * MAX_PAYLOAD <= RX_CAP
    requires Spare(y.a, |y.a.s.unacked|) && Spare(y.b, |y.a.s.unacked|)
    ensures var l := Ticked(y, lastTx, now);
      && |l.toB| == |y.a.s.unacked| > 0 && l.toA == [] && RunsTo(y, l.y)
      && InLine(l, y.a.s.unacked, [], y.a.s.nextSeq) && TickLeaves(y, l.y)
  {
    hide Inv, Numbered, May, StreamTheorems.StepOf, NodeStep, Fresh4, RunsTo, CloseTimedOut, PeerLost;
    UnackedAreNumbered(y);
    TickSends(y, lastTx, now);
    OneOp(y, true, Timer(lastTx, now));
  }

  /** What the tick itself leaves alone. */
  ghost predicate TickLeaves(y: Sys, z: Sys) {
    z.b == y.b && SameButCipher(y.a, z.a) && Tx(z.a) <= Tx(y.a) + |y.a.s.unacked|
  }

  lemma TickSettles(y: Sys, y1: Sys, z: Sys)
    requires TickLeaves(y, y1) && Moved(y1, z, |y.a.s.unacked|) && CaughtUp(z)
    requires z.b.s.nextExpected >= y.a.s.nextSeq
    ensures Settled(z) && Ticks(y, z) && Undelivered(z) == Undelivered(y) - |y.a.s.unacked|
  {
    hide Inv, Numbered;
    UnackedAreNumbered(z);
    FinBelow(z);
  }

  /** What a settled tick leaves alone. */
  ghost predicate Ticks(y: Sys, z: Sys) {
    && Inv(z) && Open(z)
    && z.a.s.outQueue == y.a.s.outQueue && z.a.s.nextSeq == y.a.s.nextSeq
    && z.a.s.finSent == y.a.s.finSent && z.a.s.writeClosed == y.a.s.writeClosed
    && z.a.s.err == y.a.s.err && z.b.s.err == y.b.s.err && z.a.written == y.a.written
    && z.b.read == y.b.read
    && Tx(z.a) <= Tx(y.a) + |y.a.s.unacked| && Tx(z.b) <= Tx(y.b) + |y.a.s.unacked|
  }

  lemma FinBelow(z: Sys)
    requires Inv(z)
    ensures z.a.s.finSent ==> z.a.s.finSeq == z.a.s.nextSeq - 1
  {}

  // ---------- everything is delivered ----------

  /** Items still to be numbered: queued chunks, and the FIN once the application closed. */
  function Left(n: Node): nat {
    |n.s.outQueue| + if n.s.writeClosed && !n.s.finSent then 1 else 0
  }

  function Undelivered(y: Sys): nat { Left(y.a) + |y.a.s.unacked| }

  /** The two streams are healthy and have numbers left for what is to come. A stream fails
      as soon as it has used number 2^32 - 2, so it must stay short of that. */
  ghost predicate Healthy(y: Sys) {
    && Inv(y) && Open(y) && y.a.s.err.None? && y.b.s.err.None?
    && y.a.s.nextSeq + Left(y.a) < LAST_NUMBER
    && Spare(y.a, 2 * Left(y.a) + |y.a.s.unacked|) && Spare(y.b, Undelivered(y))
  }

  lemma FlushOneItem(y: Sys)
    requires Healthy(y) && (NextMove(y.a.s).SendData? || NextMove(y.a.s).SendFin?)
    ensures May(y, true, Flush)
    ensures var z := StreamTheorems.StepOf(y, true, Flush);
      && Healthy(z) && z.b == y.b && z.a.written == y.a.written
      && Left(z.a) == Left(y.a) - 1 && Undelivered(z) == Undelivered(y)
      && z.a.s.writeClosed == y.a.s.writeClosed
  {
    hide Inv, EncodeFrame;
    OneStepKeeps(y, true, Flush);
  }

  /** The application at b reads, with the rooms given, until nothing is buffered. */
  function ReadUp(y: Sys, rooms: seq<nat>): Sys
    decreases |rooms|
  {
    if rooms == [] || y.b.s.rxBuf == [] then y
    else ReadUp(StreamTheorems.StepOf(y, false, Read(rooms[0])), rooms[1..])
  }

  /** Each read has some room, and there are enough of them. */
  predicate Roomy(y: Sys, rooms: seq<nat>) {
    |rooms| >= |y.b.s.rxBuf| && forall i | 0 <= i < |rooms| :: rooms[i] > 0
  }

  /** However small the rooms, reading ends with an empty buffer. */
  lemma {:induction false} ReadAll(y: Sys, rooms: seq<nat>)
    requires Healthy(y) && Roomy(y, rooms)
    ensures var z := ReadUp(y, rooms);
      && Healthy(z) && z.a == y.a && z.b.s == y.b.s.(rxBuf := []) && RunsTo(y, z)
    decreases |rooms|
  {
    hide Inv, RunsTo;
    if y.b.s.rxBuf == [] {
      StaysPut(y);
    } else {
      ReadIs(y, rooms[0]);
      hide Healthy;
      OneOp(y, false, Read(rooms[0]));
      ReadHealthy(y, rooms[0]);
      var z := StreamTheorems.StepOf(y, false, Read(rooms[0]));
      ReadAll(z, rooms[1..]);
      RunsToTrans(y, z, ReadUp(y, rooms));
    }
  }

  lemma ReadIs(y: Sys, room: nat)
    requires y.b.s.err.None? && y.b.s.rxBuf != [] && room > 0
    ensures var z := StreamTheorems.StepOf(y, false, Read(room));
      && z.a == y.a && z.fromA == y.fromA && z.fromB == y.fromB
      && z.b.s == y.b.s.(rxBuf := z.b.s.rxBuf) && |z.b.s.rxBuf| < |y.b.s.rxBuf|
  {
    assert y.fromB + {} == y.fromB;
  }

  lemma ReadHealthy(y: Sys, room: nat)
    requires Healthy(y) && y.b.s.rxBuf != [] && room > 0
    ensures Healthy(StreamTheorems.StepOf(y, false, Read(room)))
  {
    hide Inv;
    ReadIs(y, room);
    OneStepKeeps(y, false, Read(room));
  }

  /** The end state of a delivery: every byte read, and the close completed. */
  ghost predicate AllDelivered(y: Sys, z: Sys) {
    && z.b.read == z.a.written == y.a.written && z.a.s.unacked == [] && z.a.s.outQueue == []
    && (y.a.s.writeClosed ==> z.b.s.rxClosed && z.a.s.finAcked)
  }

  lemma NothingLeft(y: Sys)
    requires Inv(y) && Undelivered(y) == 0 && y.b.s.rxBuf == []
    ensures AllDelivered(y, y)
  {
    hide LogBytes;
    var k := y.b.s.nextExpected - 1;
    assert y.a.log[..k] == y.a.log;
    assert y.b.read + [] == y.b.read;
    assert LogBytes(y.a.log) + Concat([]) == LogBytes(y.a.log);
    if y.a.s.writeClosed {
      assert y.a.log[|y.a.log| - 1] == End;
    }
  }

  // ---------- flush and tick, over and over ----------

  /** a sends as long as it has something and the window has room. */
  function FlushAll(y: Sys): Sys
    decreases SEND_WINDOW - |y.a.s.unacked|
  {
    if NextMove(y.a.s).SendData? || NextMove(y.a.s).SendFin?
    then FlushAll(StreamTheorems.StepOf(y, true, Flush))
    else y
  }

  /** The rooms of b's reads, the clock of one tick, and the order and times of the arrivals
      that follow it. */
  datatype Pace = Pace(rooms: seq<nat>, lastTx: nat, now: nat, schedule: seq<(bool, nat)>)

  /** b reads, a flushes, and if that leaves anything unacknowledged one tick follows, whose
      frames and answers arrive. */
  function Cycle(y: Sys, p: Pace): Sys {
    var f := FlushAll(ReadUp(y, p.rooms));
    if f.a.s.unacked == [] then f else Hops(Ticked(f, p.lastTx, p.now), p.schedule).y
  }

  function Cycles(y: Sys, paces: seq<Pace>): Sys
    decreases |paces|
  {
    if paces == [] then y else Cycles(Cycle(y, paces[0]), paces[1..])
  }

  /** The reads empty the buffer, no timeout fires at the tick, and the schedule is long enough
      for all that it sends. */
  predicate Timely(y: Sys, p: Pace) {
    && Roomy(y, p.rooms)
    && var s := FlushAll(ReadUp(y, p.rooms)).a.s;
       s.unacked != [] ==>
         !CloseTimedOut(s, p.now) && !PeerLost(s, p.now) && |p.schedule| >= 2 * |s.unacked|
  }

  predicate AllTimely(y: Sys, paces: seq<Pace>)
    decreases |paces|
  {
    paces == [] || (Timely(y, paces[0]) && AllTimely(Cycle(y, paces[0]), paces[1..]))
  }

  /** Flushing fills the window or leaves nothing to number. */
  lemma {:induction false} FlushAllKeeps(y: Sys)
    requires Healthy(y)
    ensures var f := FlushAll(y);
      && Healthy(f) && f.b == y.b && f.a.written == y.a.written && f.a.s.writeClosed == y.a.s.writeClosed
      && Undelivered(f) == Undelivered(y) && RunsTo(y, f)
      && |f.a.s.unacked| <= SEND_WINDOW && (|f.a.s.unacked| == SEND_WINDOW || Left(f.a) == 0)
    decreases SEND_WINDOW - |y.a.s.unacked|
  {
    hide Inv, May, RunsTo;
    if NextMove(y.a.s).SendData? || NextMove(y.a.s).SendFin? {
      FlushOneItem(y);
      OneOp(y, true, Flush);
      var z := StreamTheorems.StepOf(y, true, Flush);
      FlushAllKeeps(z);
      RunsToTrans(y, z, FlushAll(z));
    } else {
      StaysPut(y);
      UnackedAreNumbered(y);
    }
  }

  function Minus(n: nat, k: nat): nat { if n <= k then 0 else n - k }

  /** Every cycle delivers a window's worth, or all there is. */
  lemma CycleTheorem(y: Sys, p: Pace)
    requires Healthy(y) && Timely(y, p)
    ensures var z := Cycle(y, p);
      && Healthy(z) && RunsTo(y, z)
      && Undelivered(z) == Minus(Undelivered(y), SEND_WINDOW)
      && z.a.written == y.a.written && z.a.s.writeClosed == y.a.s.writeClosed
  {
    hide Inv, RunsTo, FlushAll, ReadUp, Hops, Ticked, CloseTimedOut, PeerLost;
    var e := ReadUp(y, p.rooms);
    var f := FlushAll(e);
    ReadAll(y, p.rooms);
    FlushAllKeeps(e);
    RunsToTrans(y, e, f);
    if f.a.s.unacked != [] {
      TickTheorem(f, p.lastTx, p.now, p.schedule);
      RunsToTrans(y, f, Cycle(y, p));
    }
  }

  /** While no timeout fires, n cycles leave 32 n items fewer to deliver; as soon as that is
      all of them, b reads every byte a accepted, and the close is complete at both ends. */
  lemma {:induction false} ProgressTheorem(y: Sys, paces: seq<Pace>, rooms: seq<nat>)
    requires Healthy(y) && AllTimely(y, paces) && Roomy(Cycles(y, paces), rooms)
    ensures var (c, z) := (Cycles(y, paces), ReadUp(Cycles(y, paces), rooms));
      && Healthy(c) && Undelivered(c) == Minus(Undelivered(y), SEND_WINDOW * |paces|)
      && RunsTo(y, z)
      && (Undelivered(y) <= SEND_WINDOW * |paces| ==> AllDelivered(y, z))
    decreases |paces|
  {
    hide Inv, RunsTo, Cycle, ReadUp, Timely, Healthy, Undelivered, Roomy;
    if paces == [] {
      ReadAll(y, rooms);
      NothingMissing(y, ReadUp(y, rooms));
    } else {
      CycleTheorem(y, paces[0]);
      ProgressTheorem(Cycle(y, paces[0]), paces[1..], rooms);
      RunsToTrans(y, Cycle(y, paces[0]), ReadUp(Cycles(y, paces), rooms));
    }
  }

  lemma NothingMissing(y: Sys, z: Sys)
    requires Healthy(y) && Healthy(z) && z.a == y.a && z.b.s.rxBuf == []
    ensures Undelivered(y) == 0 ==> AllDelivered(y, z)
  {
    hide Inv, AllDelivered;
    if Undelivered(y) == 0 {
      NothingLeft(z);
      DeliveredSame(y, z);
    }
  }

  lemma DeliveredSame(y: Sys, z: Sys)
    requires AllDelivered(z, z) && z.a == y.a
    ensures AllDelivered(y, z)
  {}

  /** Such cycles always exist: a tick is due when the last datagram has just come. */
  lemma {:induction false} PacesExist(y: Sys, n: nat) returns (paces: seq<Pace>)
    requires Healthy(y)
    ensures |paces| == n && AllTimely(y, paces)
    decreases n
  {
    hide Inv, Cycle, Healthy;
    paces := [];
    if n > 0 {
      var rooms := seq(|y.b.s.rxBuf|, _ => 1);
      var s := FlushAll(ReadUp(y, rooms)).a.s;
      var p := Pace(rooms, 0, s.lastRx, seq(2 * |s.unacked|, _ => (true, s.lastRx)));
      CycleTheorem(y, p);
      var rest := PacesExist(Cycle(y, p), n - 1);
      paces := [p] + rest;
    }
  }
}
