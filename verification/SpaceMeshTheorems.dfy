/** Packets between two devices of a space, end to end over a relay that loses, repeats,
    reorders, redirects and forges, and what a refresh of the peer list leaves of a link. */
module SpaceMeshTheorems {
  import opened Bytes
  import Security
  import opened Channel
  import opened SpaceMeshSpec

  type Datagram = Security.Datagram

  /** One device, with the history of its link to the other: the messages it sealed and
      opened there, the packets it was given to send, and those the link handed up. */
  datatype Side = Side(m: Mesh, other: nat, sealed: seq<seq<byte>>, accepted: seq<(nat, seq<byte>)>,
                       given: seq<seq<byte>>, up: seq<seq<byte>>)

  datatype Op =
    | Sending(p: seq<byte>)
    | Beating(nonces: nat -> seq<byte>)
    | Taking(f: Frame)
    | Refreshing(listed: seq<Entry>, challenges: seq<Security.Challenge>)

  predicate Linked(x: Side) {
    x.other in x.m.peers
  }

  function LinkOf(x: Side): Link
    requires Linked(x)
  {
    x.m.peers[x.other]
  }

  function PartyOf(x: Side): Party
    requires Linked(x)
  {
    Party(LinkOf(x).security, x.sealed, x.accepted)
  }

  function Posted(net: set<Datagram>, d: Option<Datagram>): set<Datagram> {
    if d.Some? then net + {d.value} else net
  }

  function Outgoing(x: Side, out: map<nat, Datagram>): Option<Datagram> {
    if x.other in out then Some(out[x.other]) else None
  }

  function AndSealed(x: Side, d: Option<Datagram>, msg: seq<byte>): seq<seq<byte>> {
    if d.Some? && d.value.Envelope? then x.sealed + [msg] else x.sealed
  }

  function Send(x: Side, net: set<Datagram>, p: seq<byte>): (Side, set<Datagram>) {
    var (m, out) := Forward(x.m, p);
    var d := Outgoing(x, out);
    (x.(m := m, sealed := AndSealed(x, d, [0] + p), given := x.given + [p]), Posted(net, d))
  }

  function Pulse(x: Side, net: set<Datagram>, nonces: nat -> seq<byte>): (Side, set<Datagram>) {
    var (m, out) := Heartbeat(x.m, nonces);
    var d := Outgoing(x, out);
    (x.(m := m, sealed := AndSealed(x, d, [1] + nonces(x.other))), Posted(net, d))
  }

  /** A datagram on the link: what it opens, and the pong it may call for. */
  function Take(x: Side, net: set<Datagram>, f: Frame): (Side, set<Datagram>) {
    var (m, r) := SpaceMeshSpec.Receive(x.m, f);
    if f.Empty? || f.address != x.other || !Linked(x) then (x.(m := m), net)
    else
      var d := if r.reply.Some? && r.reply.value.Frame? then Some(r.reply.value.message) else None;
      match Security.Receive(LinkOf(x).security, f.message).1
      case Data(plain) =>
        (x.(m := m, accepted := x.accepted + [(if f.message.Envelope? then f.message.number else 0, plain)],
            sealed := if plain != [] then AndSealed(x, d, [2] + plain[1..]) else x.sealed,
            up := if r.packet.Some? then x.up + [r.packet.value] else x.up),
         Posted(net, d))
      case _ => (x.(m := m), Posted(net, d))
  }

  function SideStep(x: Side, net: set<Datagram>, op: Op): (Side, set<Datagram>) {
    match op
    case Sending(p) => Send(x, net, p)
    case Beating(nonces) => Pulse(x, net, nonces)
    case Taking(f) => Take(x, net, f)
    case Refreshing(listed, challenges) =>
      if |listed| == |challenges| then (x.(m := Refresh(x.m, listed, challenges).0), net) else (x, net)
  }

  /** On the link anything may arrive that can be made without its key; its peer stays listed. */
  ghost predicate May(x: Side, net: set<Datagram>, op: Op)
    requires Linked(x)
  {
    match op
    case Taking(f) =>
      f.Frame? && f.address == x.other ==> CanArrive(f.message, net, LinkOf(x).security.key)
    case Refreshing(listed, challenges) =>
      |listed| == |challenges| ==>
        var (m, ok) := Refresh(x.m, listed, challenges); ok && x.other in m.peers && m.peers[x.other] == LinkOf(x)
    case _ => true
  }

  // ---------- the invariant ----------

  function Count(s: seq<seq<byte>>, msg: seq<byte>): nat {
    multiset(s)[msg]
  }

  lemma CountSnoc(s: seq<seq<byte>>, x: seq<byte>, msg: seq<byte>)
    ensures Count(s + [x], msg) == Count(s, msg) + if x == msg then 1 else 0
  {}

  lemma MessagesSnoc(a: seq<(nat, seq<byte>)>, n: nat, msg: seq<byte>)
    ensures Messages(a + [(n, msg)]) == Messages(a) + [msg]
  {}

  /** The device's own packets and no others are sealed, the opened ones handed up. */
  ghost predicate Honest(x: Side)
    requires Linked(x)
  {
    && (forall p :: Count(x.sealed, [0] + p) <= Count(x.given, p))
    && (forall p :: Count(x.up, p) <= Count(Messages(x.accepted), [0] + p))
    && (forall p | p in x.up :: Addresses(p).Some? && Addresses(p).value.0 == LinkOf(x).info.address)
  }

  ghost predicate Inv(x: Side, y: Side, net: set<Datagram>) {
    && Linked(x) && Linked(y) && Paired(PartyOf(x), PartyOf(y), net)
    && Honest(x) && Honest(y)
  }

  /** What a step of one side leaves: its link pairs with the other's, and counts up. */
  ghost predicate Kept(x: Side, y: Side, x': Side, net': set<Datagram>) {
    && Linked(x) && Linked(x') && x'.other == x.other && x'.m.local == x.m.local
    && LinkOf(x').info == LinkOf(x).info && LinkOf(x').security.key == LinkOf(x).security.key
    && Linked(y) && Paired(PartyOf(x'), PartyOf(y), net') && Honest(x')
  }

  lemma Prefixes(a: byte, b: byte, p: seq<byte>, q: seq<byte>)
    ensures [a] + p == [b] + q <==> a == b && p == q
  {
    if [a] + p == [b] + q {
      assert ([a] + p)[0] == ([b] + q)[0];
      assert ([a] + p)[1..] == p && ([b] + q)[1..] == q;
    }
  }

  lemma SealedMore(x: Side, msg: seq<byte>, given: seq<seq<byte>>)
    requires forall p :: Count(x.sealed, [0] + p) <= Count(x.given, p)
    requires given == x.given || exists p :: given == x.given + [p]
    requires msg == [] || msg[0] != 0 || given == x.given + [msg[1..]]
    ensures forall p :: Count(x.sealed + [msg], [0] + p) <= Count(given, p)
  {}

  lemma GivenMore(x: Side, q: seq<byte>)
    requires forall p :: Count(x.sealed, [0] + p) <= Count(x.given, p)
    ensures forall p :: Count(x.sealed, [0] + p) <= Count(x.given + [q], p)
  {}

  // ---------- sending ----------

  lemma SendKeeps(x: Side, y: Side, net: set<Datagram>, p: seq<byte>)
    requires Inv(x, y, net)
    ensures var (x', net') := Send(x, net, p); Kept(x, y, x', net')
  {
    hide Paired, Security.Seal, Count, Addresses, ToMany, CanArrive;
    GivenMore(x, p);
    if Forwardable(x.m, p) {
      var to := Addresses(p).value.1;
      if Takes(LinkOf(x), to) {
        SealKeeps(PartyOf(x), PartyOf(y), net, [0] + p);
        SealedMore(x, [0] + p, x.given + [p]);
        assert ([0] + p)[1..] == p;
      }
    }
  }

  lemma PulseKeeps(x: Side, y: Side, net: set<Datagram>, nonces: nat -> seq<byte>)
    requires Inv(x, y, net)
    ensures var (x', net') := Pulse(x, net, nonces); Kept(x, y, x', net')
  {
    hide Paired, Security.Seal, Count, CanArrive;
    var l := LinkOf(x);
    if l.security.remote.None? {
      GreetKeeps(PartyOf(x), PartyOf(y), net);
    } else {
      SealKeeps(PartyOf(x), PartyOf(y), net, [1] + nonces(x.other));
      SealedMore(x, [1] + nonces(x.other), x.given);
    }
  }

  // ---------- receiving ----------

  function Updated(x: Side, l: Link): Side {
    x.(m := x.m.(peers := x.m.peers[x.other := l]))
  }

  /** One more opened message may account for one more packet handed up. */
  lemma OpenedMore(x: Side, n: nat, plain: seq<byte>, up: seq<seq<byte>>)
    requires forall p :: Count(x.up, p) <= Count(Messages(x.accepted), [0] + p)
    requires up == x.up || exists p :: up == x.up + [p] && plain == [0] + p
    ensures forall p :: Count(up, p) <= Count(Messages(x.accepted + [(n, plain)]), [0] + p)
  {
    MessagesSnoc(x.accepted, n, plain);
    forall p ensures Count(up, p) <= Count(Messages(x.accepted + [(n, plain)]), [0] + p) {
      CountSnoc(Messages(x.accepted), plain, [0] + p);
      if up != x.up {
        var q :| up == x.up + [q] && plain == [0] + q;
        CountSnoc(x.up, q, p);
        Prefixes(0, 0, p, q);
      }
    }
  }

  lemma TakeWithoutData(x: Side, y: Side, net: set<Datagram>, f: Frame)
    requires Inv(x, y, net) && May(x, net, Taking(f)) && f.Frame? && f.address == x.other
    requires !Security.Receive(LinkOf(x).security, f.message).1.Data?
    ensures var (x', net') := Take(x, net, f); Kept(x, y, x', net')
  {
    hide Paired, Security.Receive, Count, CanArrive, Addresses;
    ReceiveKeeps(PartyOf(x), PartyOf(y), net, f.message);
  }

  /** After a message opened, before it is looked at. */
  function Unsealed(x: Side, d: Datagram, plain: seq<byte>): Side
    requires Linked(x)
  {
    var l := LinkOf(x).(security := Security.Receive(LinkOf(x).security, d).0);
    Updated(x, l).(accepted := x.accepted + [(if d.Envelope? then d.number else 0, plain)])
  }

  lemma UnsealedKeeps(x: Side, y: Side, net: set<Datagram>, d: Datagram)
    requires Inv(x, y, net) && CanArrive(d, net, LinkOf(x).security.key)
    requires Security.Receive(LinkOf(x).security, d).1.Data?
    ensures var x1 := Unsealed(x, d, Security.Receive(LinkOf(x).security, d).1.msg);
      && Linked(x1) && Paired(PartyOf(x1), PartyOf(y), net) && LinkOf(x1).security.key == LinkOf(x).security.key
  {
    hide Paired, Security.Receive, CanArrive;
    ReceiveKeeps(PartyOf(x), PartyOf(y), net, d);
  }

  /** The side after the opened message has been dealt with. */
  function Dealt(x1: Side, net: set<Datagram>, plain: seq<byte>): (Side, set<Datagram>)
    requires Linked(x1)
  {
    var (l, d, packet) := Opened(x1.m, LinkOf(x1), plain);
    (Updated(x1, l).(sealed := if plain != [] then AndSealed(x1, d, [2] + plain[1..]) else x1.sealed,
                     up := if packet.Some? then x1.up + [packet.value] else x1.up),
     Posted(net, d))
  }

  lemma DealtPairs(x1: Side, y: Side, net: set<Datagram>, plain: seq<byte>)
    requires Linked(x1) && Linked(y) && Paired(PartyOf(x1), PartyOf(y), net)
    ensures var (x', net') := Dealt(x1, net, plain);
      && Linked(x') && Paired(PartyOf(x'), PartyOf(y), net')
      && LinkOf(x').info == LinkOf(x1).info && LinkOf(x').security.key == LinkOf(x1).security.key
  {
    hide Paired, Security.Seal, Genuine;
    if plain != [] && plain[0] == 1 && |plain| == 9 {
      SealKeeps(PartyOf(x1), PartyOf(y), net, [2] + plain[1..]);
    }
  }

  lemma DealtHonest(x: Side, d: Datagram, plain: seq<byte>, net: set<Datagram>)
    requires Linked(x) && Honest(x)
    requires Security.Receive(LinkOf(x).security, d).1 == Security.Data(plain)
    ensures var (x', _) := Dealt(Unsealed(x, d, plain), net, plain); Linked(x') && Honest(x')
  {
    hide Security.Seal, Security.Receive, Count, Addresses, ToMany;
    var x1 := Unsealed(x, d, plain);
    var (x', _) := Dealt(x1, net, plain);
    var n := if d.Envelope? then d.number else 0;
    if x'.up != x.up {
      assert plain == [0] + plain[1..];
      assert x'.up == x.up + [plain[1..]];
    }
    OpenedMore(x, n, plain, x'.up);
    if plain != [] {
      SealedMore(x, [2] + plain[1..], x.given);
    }
  }

  lemma TakeIsDealt(x: Side, net: set<Datagram>, f: Frame)
    requires Linked(x) && f.Frame? && f.address == x.other
    requires Security.Receive(LinkOf(x).security, f.message).1.Data?
    ensures var plain := Security.Receive(LinkOf(x).security, f.message).1.msg;
      Take(x, net, f) == Dealt(Unsealed(x, f.message, plain), net, plain)
  {
    hide Security.Seal, Security.Receive, Genuine;
    var plain := Security.Receive(LinkOf(x).security, f.message).1.msg;
    var x1 := Unsealed(x, f.message, plain);
    var (l, reply, packet) := Opened(x1.m, LinkOf(x1), plain);
    assert Opened(x.m, LinkOf(x1), plain) == (l, reply, packet);
    assert x1.m.peers[x.other := l] == x.m.peers[x.other := l];
  }

  lemma TakeKeeps(x: Side, y: Side, net: set<Datagram>, f: Frame)
    requires Inv(x, y, net) && May(x, net, Taking(f))
    ensures var (x', net') := Take(x, net, f); Kept(x, y, x', net')
  {
    if f.Frame? && f.address == x.other {
      if Security.Receive(LinkOf(x).security, f.message).1.Data? {
        var plain := Security.Receive(LinkOf(x).security, f.message).1.msg;
        hide Paired, Security.Receive, CanArrive, Honest, Take, Unsealed, Dealt;
        TakeIsDealt(x, net, f);
        UnsealedKeeps(x, y, net, f.message);
        UnsealedSame(x, f.message, plain);
        DealtPairs(Unsealed(x, f.message, plain), y, net, plain);
        DealtHonest(x, f.message, plain, net);
        DealtSame(Unsealed(x, f.message, plain), net, plain);
      } else {
        TakeWithoutData(x, y, net, f);
      }
    } else {
      hide Paired, Security.Receive, CanArrive, Honest;
      ElsewhereSame(x, net, f);
    }
  }

  lemma UnsealedSame(x: Side, d: Datagram, plain: seq<byte>)
    requires Linked(x)
    ensures var x1 := Unsealed(x, d, plain);
      Linked(x1) && x1.other == x.other && x1.m.local == x.m.local && LinkOf(x1).info == LinkOf(x).info
  {}

  lemma DealtSame(x: Side, net: set<Datagram>, plain: seq<byte>)
    requires Linked(x)
    ensures var (x', _) := Dealt(x, net, plain); x'.other == x.other && x'.m.local == x.m.local
  {}

  /** A frame from another peer leaves this link alone. */
  lemma ElsewhereSame(x: Side, net: set<Datagram>, f: Frame)
    requires Linked(x) && (f.Empty? || f.address != x.other)
    ensures var (x', net') := Take(x, net, f);
      && net' == net && Linked(x') && LinkOf(x') == LinkOf(x) && x' == x.(m := x'.m) && x'.m.local == x.m.local
      && (Honest(x) ==> Honest(x'))
  {}

  // ---------- both sides ----------

  lemma PairedSwap(p: Party, q: Party, net: set<Datagram>)
    requires Paired(p, q, net)
    ensures Paired(q, p, net)
  {}

  lemma SideKeeps(x: Side, y: Side, net: set<Datagram>, op: Op)
    requires Inv(x, y, net) && May(x, net, op)
    ensures var (x', net') := SideStep(x, net, op); Kept(x, y, x', net')
  {
    hide Paired, Honest, Send, Pulse, Take, CanArrive;
    match op {
      case Sending(p) => SendKeeps(x, y, net, p);
      case Beating(nonces) => PulseKeeps(x, y, net, nonces);
      case Taking(f) => TakeKeeps(x, y, net, f);
      case Refreshing(listed, challenges) =>
        if |listed| == |challenges| {
          RefreshSame(x, listed, challenges);
        }
    }
  }

  lemma RefreshSame(x: Side, listed: seq<Entry>, challenges: seq<Security.Challenge>)
    requires Linked(x) && May(x, {}, Refreshing(listed, challenges)) && |listed| == |challenges|
    ensures var x' := x.(m := Refresh(x.m, listed, challenges).0);
      && Linked(x') && LinkOf(x') == LinkOf(x) && x'.m.local == x.m.local && (Honest(x) ==> Honest(x'))
  {}

  datatype Two = Two(a: Side, b: Side, net: set<Datagram>)

  function StepOf(w: Two, left: bool, op: Op): Two {
    if left then
      var (a, net) := SideStep(w.a, w.net, op);
      Two(a, w.b, net)
    else
      var (b, net) := SideStep(w.b, w.net, op);
      Two(w.a, b, net)
  }

  ghost predicate Possible(w: Two, left: bool, op: Op)
    requires Linked(w.a) && Linked(w.b)
  {
    May(if left then w.a else w.b, w.net, op)
  }

  /** Every step may happen, and both links outlive it. */
  ghost predicate Runs(w: Two, ops: seq<(bool, Op)>)
    decreases |ops|
  {
    && Linked(w.a) && Linked(w.b)
    && (ops != [] ==>
          Possible(w, ops[0].0, ops[0].1) && Runs(StepOf(w, ops[0].0, ops[0].1), ops[1..]))
  }

  function After(w: Two, ops: seq<(bool, Op)>): Two
    decreases |ops|
  {
    if ops == [] then w else After(StepOf(w, ops[0].0, ops[0].1), ops[1..])
  }

  ghost predicate Both(w: Two) {
    Inv(w.a, w.b, w.net)
  }

  lemma StepKeeps(w: Two, left: bool, op: Op)
    requires Both(w) && Possible(w, left, op)
    ensures var w' := StepOf(w, left, op);
      && Both(w') && w'.a.m.local == w.a.m.local && w'.b.m.local == w.b.m.local
      && LinkOf(w'.a).info == LinkOf(w.a).info && LinkOf(w'.b).info == LinkOf(w.b).info
  {
    hide Paired, Honest, SideStep, CanArrive;
    if left {
      SideKeeps(w.a, w.b, w.net, op);
    } else {
      PairedSwap(PartyOf(w.a), PartyOf(w.b), w.net);
      SideKeeps(w.b, w.a, w.net, op);
      PairedSwap(PartyOf(StepOf(w, left, op).b), PartyOf(w.a), StepOf(w, left, op).net);
    }
  }

  lemma {:induction false} RunKeeps(w: Two, ops: seq<(bool, Op)>)
    requires Both(w) && Runs(w, ops)
    ensures var w' := After(w, ops);
      && Both(w') && w'.a.m.local == w.a.m.local && w'.b.m.local == w.b.m.local
      && LinkOf(w'.a).info == LinkOf(w.a).info && LinkOf(w'.b).info == LinkOf(w.b).info
    decreases |ops|
  {
    if ops != [] {
      hide Inv, StepOf, Possible;
      StepKeeps(w, ops[0].0, ops[0].1);
      RunKeeps(StepOf(w, ops[0].0, ops[0].1), ops[1..]);
    }
  }

  // ---------- the theorems ----------

  /** Two devices that just listed each other under one key. */
  ghost predicate Fresh(w: Two, key: Security.Key) {
    && Linked(w.a) && Linked(w.b) && w.net == {}
    && w.a == Side(w.a.m, w.a.other, [], [], [], []) && w.b == Side(w.b.m, w.b.other, [], [], [], [])
    && (var (s, t) := (LinkOf(w.a).security, LinkOf(w.b).security);
        && s == Security.Fresh(key, s.local) && t == Security.Fresh(key, t.local)
        && s.local != t.local && s.local != Security.NO_ECHO && t.local != Security.NO_ECHO)
    && LinkOf(w.a).info.address == w.b.m.local && LinkOf(w.b).info.address == w.a.m.local
  }

  lemma FreshBoth(w: Two, key: Security.Key)
    requires Fresh(w, key)
    ensures Both(w)
  {}

  /** Of every packet, one device hands up at most as many copies as the other was given to
      send, and its source is that other device's address. */
  lemma PacketTheorem(w: Two, key: Security.Key, ops: seq<(bool, Op)>, p: seq<byte>)
    requires Fresh(w, key) && Runs(w, ops)
    ensures var z := After(w, ops);
      && multiset(z.b.up)[p] <= multiset(z.a.given)[p]
      && multiset(z.a.up)[p] <= multiset(z.b.given)[p]
      && (p in z.b.up ==> Addresses(p).Some? && Addresses(p).value.0 == w.a.m.local)
      && (p in z.a.up ==> Addresses(p).Some? && Addresses(p).value.0 == w.b.m.local)
  {
    FreshBoth(w, key);
    RunKeeps(w, ops);
    var z := After(w, ops);
    OneWay(z.a, z.b, z.net, p);
    OneWay(z.b, z.a, z.net, p);
  }

  lemma OneWay(x: Side, y: Side, net: set<Datagram>, p: seq<byte>)
    requires Linked(x) && Linked(y) && Honest(x) && Honest(y)
    requires Paired(PartyOf(x), PartyOf(y), net) || Paired(PartyOf(y), PartyOf(x), net)
    ensures multiset(y.up)[p] <= multiset(x.given)[p]
    ensures p in y.up ==> Addresses(p).Some? && Addresses(p).value.0 == LinkOf(y).info.address
  {
    hide Addresses;
    OpenedIsSubcollection(y.accepted, x.sealed);
    assert Count(Messages(y.accepted), [0] + p) <= Count(x.sealed, [0] + p);
    assert Count(y.up, p) <= Count(Messages(y.accepted), [0] + p);
    assert Count(x.sealed, [0] + p) <= Count(x.given, p);
  }

  // ---------- a packet gets through ----------

  /** Between two ready ends, a packet for the other device that arrives next is handed up. */
  lemma PacketArrives(x: Side, y: Side, net: set<Datagram>, p: seq<byte>)
    requires Inv(x, y, net) && LinkOf(x).security.remote.Some? && LinkOf(y).security.remote.Some?
    requires LinkOf(x).security.tx < U64 - 1
    requires LinkOf(x).info.address == y.m.local && LinkOf(y).info.address == x.m.local && y.other in y.m.peers
    requires Addresses(p) == Some((x.m.local, y.m.local)) && x.m.local != y.m.local
    ensures var (_, out) := Forward(x.m, p);
      && x.other in out
      && (Take(y, Posted(net, Some(out[x.other])), Frame(y.other, out[x.other])).0.up == y.up + [p])
  {
    hide Addresses, Count;
    var (s, t) := (LinkOf(x).security, LinkOf(y).security);
    assert End(PartyOf(x), PartyOf(y), net) && End(PartyOf(y), PartyOf(x), net);
    var body := Security.Sealed(s.key, s.local, s.tx, t.local, [0] + p);
    ReadyOpens(x.sealed, PartyOf(y), PartyOf(x), net, [0] + p);
    var (_, out) := Forward(x.m, p);
    assert Carry(LinkOf(x), p, y.m.local).1 == Some(Security.Envelope(s.local, s.tx, body));
    assert out[x.other] == Security.Envelope(s.local, s.tx, body);
    assert ([0] + p)[0] == 0 && ([0] + p)[1..] == p;
  }

  /** Between two ready ends, a ping that arrives next is answered, and the answer, when it
      arrives next, settles the ping. */
  lemma PingAnswered(x: Side, y: Side, net: set<Datagram>, nonces: nat -> seq<byte>)
    requires Inv(x, y, net) && LinkOf(x).security.remote.Some? && LinkOf(y).security.remote.Some?
    requires LinkOf(x).security.tx < U64 - 1 && LinkOf(y).security.tx < U64 - 1 && |nonces(x.other)| == 8
    ensures var nonce := nonces(x.other);
      var (l, ping) := Beat(LinkOf(x), nonce);
      && ping.Some? && l.ping == Some(nonce)
      && var (q, pong, _) := Handled(y.m, LinkOf(y), ping.value);
         && pong.Some?
         && Handled(x.m, l, pong.value).0.ping == None
  {}

  /** A number beyond all sealed so far is never refused. */
  lemma ReadyOpens(sealed: seq<seq<byte>>, p: Party, q: Party, net: set<Datagram>, msg: seq<byte>)
    requires Paired(p, q, net) || Paired(q, p, net)
    requires p.s.remote.Some?
    ensures Security.Receive(p.s, Security.Envelope(q.s.local, q.s.tx,
              Security.Sealed(q.s.key, q.s.local, q.s.tx, p.s.local, msg))).1 == Security.Data(msg)
  {}

  // ---------- refreshing the list ----------

  function Octet(e: Entry): nat {
    e.peer.address % 256
  }

  ghost predicate DistinctOctets(listed: seq<Entry>) {
    forall i, j | 0 <= i < j < |listed| :: Octet(listed[i]) != Octet(listed[j])
  }

  /** The entry parses, and its address is one of 10.66.0.1 to 10.66.0.254 but not the device's
      own. */
  predicate Suitable(local: nat, e: Entry) {
    e.wellFormed && 0x0a42_0001 <= e.peer.address <= 0x0a42_00fe && e.peer.address != local
  }

  /** The same device, in the same session, under the same key. */
  predicate Unchanged(a: Peer, b: Peer) {
    a.device == b.device && a.session == b.session && a.key == b.key
  }

  /** All entries fit, none repeats an octet or takes one of `taken`. */
  ghost predicate Fit(local: nat, taken: set<nat>, listed: seq<Entry>) {
    && DistinctOctets(listed)
    && forall k | 0 <= k < |listed| :: Suitable(local, listed[k]) && Octet(listed[k]) !in taken
  }

  /** The entries' links, renewed, joined those of `next`. */
  ghost predicate Moved(held: Links, next: Links, listed: seq<Entry>, challenges: seq<Security.Challenge>, all: Links)
    requires |challenges| == |listed|
  {
    && (forall i | i in next :: i in all && all[i] == next[i])
    && (forall k | 0 <= k < |listed| ::
          Octet(listed[k]) in all && all[Octet(listed[k])] == Renewed(held, listed[k].peer, challenges[k]))
    && (forall i | i in all :: i in next || exists k | 0 <= k < |listed| :: Octet(listed[k]) == i)
  }

  lemma FitCons(local: nat, next: Links, e: Entry, tail: seq<Entry>)
    ensures Fit(local, next.Keys, [e] + tail)
      <==> Acceptable(local, e, next) && Fit(local, next.Keys + {Octet(e)}, tail)
  {
    var listed := [e] + tail;
    if Acceptable(local, e, next) && Fit(local, next.Keys + {Octet(e)}, tail) {
      forall k | 0 < k < |listed| ensures Suitable(local, listed[k]) && Octet(listed[k]) !in next.Keys + {Octet(e)} {
        assert listed[k] == tail[k - 1];
      }
    }
    if Fit(local, next.Keys, listed) {
      assert listed[0] == e;
      forall k | 0 <= k < |tail| ensures Suitable(local, tail[k]) && Octet(tail[k]) !in next.Keys + {Octet(e)} {
        assert tail[k] == listed[k + 1];
      }
      forall i, j | 0 <= i < j < |tail| ensures Octet(tail[i]) != Octet(tail[j]) {
        assert tail[i] == listed[i + 1] && tail[j] == listed[j + 1];
      }
    }
  }

  lemma MovedCons(held: Links, next: Links, e: Entry, tail: seq<Entry>, c: Security.Challenge,
                  more: seq<Security.Challenge>, all: Links)
    requires |more| == |tail| && Octet(e) !in next
    requires forall k | 0 <= k < |tail| :: Octet(tail[k]) != Octet(e)
    requires Moved(held - {Octet(e)}, next[Octet(e) := Renewed(held, e.peer, c)], tail, more, all)
    ensures Moved(held, next, [e] + tail, [c] + more, all)
  {
    var (listed, challenges) := ([e] + tail, [c] + more);
    forall k | 0 <= k < |listed|
      ensures Octet(listed[k]) in all && all[Octet(listed[k])] == Renewed(held, listed[k].peer, challenges[k])
    {
      if k > 0 {
        assert listed[k] == tail[k - 1] && challenges[k] == more[k - 1];
        assert Octet(tail[k - 1]) != Octet(e);
      }
    }
    forall i | i in all ensures i in next || exists k | 0 <= k < |listed| :: Octet(listed[k]) == i {
      if i !in next {
        if i == Octet(e) {
          assert Octet(listed[0]) == i;
        } else {
          var k :| 0 <= k < |tail| && Octet(tail[k]) == i;
          assert listed[k + 1] == tail[k];
        }
      }
    }
  }

  lemma {:induction false} RefreshMeans(local: nat, held: Links, next: Links, listed: seq<Entry>, challenges: seq<Security.Challenge>)
    requires |challenges| == |listed|
    ensures var (ok, rest, all) := RefreshFrom(local, held, next, listed, challenges);
      && (ok <==> Fit(local, next.Keys, listed))
      && (ok ==> Moved(held, next, listed, challenges, all))
    decreases |listed|
  {
    if listed != [] {
      hide Fit, Moved, Acceptable, Renewed;
      var (e, tail, c, more) := (listed[0], listed[1..], challenges[0], challenges[1..]);
      assert listed == [e] + tail && challenges == [c] + more;
      FitCons(local, next, e, tail);
      var after := next[Octet(e) := Renewed(held, e.peer, c)];
      assert after.Keys == next.Keys + {Octet(e)};
      if Acceptable(local, e, next) {
        RefreshMeans(local, held - {Octet(e)}, after, tail, more);
        if Fit(local, after.Keys, tail) {
          AcceptableNew(local, e, next);
          FitApart(local, after.Keys, tail, Octet(e));
          MovedCons(held, next, e, tail, c, more, RefreshFrom(local, held, next, listed, challenges).2);
        }
      }
    }
  }

  lemma AcceptableNew(local: nat, e: Entry, next: Links)
    requires Acceptable(local, e, next)
    ensures Octet(e) !in next
  {}

  lemma FitApart(local: nat, taken: set<nat>, listed: seq<Entry>, o: nat)
    requires Fit(local, taken, listed) && o in taken
    ensures forall k | 0 <= k < |listed| :: Octet(listed[k]) != o
  {}

  /** A list is accepted when it has at most 32 entries, all fit this subnet and none repeats
      an address; then exactly the peers listed have links, and a link keeps its session, and
      with it what it has seen, exactly when device, session and key are what they were. */
  lemma RefreshTheorem(m: Mesh, listed: seq<Entry>, challenges: seq<Security.Challenge>)
    requires |challenges| == |listed|
    ensures var (n, ok) := Refresh(m, listed, challenges);
      && (ok <==> |listed| <= 32 && DistinctOctets(listed) && forall k | 0 <= k < |listed| :: Suitable(m.local, listed[k]))
      && (ok ==>
            && (forall i :: i in n.peers <==> exists k | 0 <= k < |listed| :: Octet(listed[k]) == i)
            && forall k | 0 <= k < |listed| ::
                 var (i, p) := (Octet(listed[k]), listed[k].peer);
                 if i in m.peers && Unchanged(m.peers[i].info, p) then n.peers[i] == m.peers[i]
                 else n.peers[i] == Link(p, Security.Fresh(p.key, challenges[k]), None))
  {
    hide Acceptable, RefreshFrom;
    if |listed| <= MAX_PEERS {
      var none: Links := map[];
      assert none.Keys == {};
      RefreshMeans(m.local, m.peers, map[], listed, challenges);
    }
  }

  /** The octets of the first `k` entries. */
  ghost function Octets(listed: seq<Entry>, k: nat): set<nat>
    requires k <= |listed|
  {
    set i | 0 <= i < k :: Octet(listed[i])
  }

  /** The links left when a list was refused at entry `k`. */
  ghost predicate RefusedAt(local: nat, held: Links, next: Links, listed: seq<Entry>, k: nat, rest: Links) {
    && k < |listed| && rest == held - Octets(listed, k)
    && Fit(local, next.Keys, listed[..k]) && !Fit(local, next.Keys, listed[..k + 1])
  }

  lemma RefusedCons(local: nat, held: Links, next: Links, e: Entry, tail: seq<Entry>, link: Link, k: nat, rest: Links)
    requires Acceptable(local, e, next)
    requires RefusedAt(local, held - {Octet(e)}, next[Octet(e) := link], tail, k, rest)
    ensures RefusedAt(local, held, next, [e] + tail, k + 1, rest)
  {
    hide Fit, Acceptable;
    var listed := [e] + tail;
    assert next[Octet(e) := link].Keys == next.Keys + {Octet(e)};
    assert listed[..k + 1] == [e] + tail[..k] && listed[..k + 2] == [e] + tail[..k + 1] && listed[1..] == tail;
    FitCons(local, next, e, tail[..k]);
    FitCons(local, next, e, tail[..k + 1]);
    OctetsCons(listed, k);
  }

  lemma RefusedFirst(local: nat, held: Links, next: Links, listed: seq<Entry>)
    requires listed != [] && !Acceptable(local, listed[0], next)
    ensures RefusedAt(local, held, next, listed, 0, held)
  {}

  lemma {:induction false} RefusedFrom(local: nat, held: Links, next: Links, listed: seq<Entry>, challenges: seq<Security.Challenge>)
    requires |challenges| == |listed| && !RefreshFrom(local, held, next, listed, challenges).0
    ensures exists k :: RefusedAt(local, held, next, listed, k, RefreshFrom(local, held, next, listed, challenges).1)
    decreases |listed|
  {
    hide RefusedAt, Acceptable, Renewed;
    var e := listed[0];
    if !Acceptable(local, e, next) {
      RefusedFirst(local, held, next, listed);
    } else {
      var (tail, link) := (listed[1..], Renewed(held, e.peer, challenges[0]));
      RefusedFrom(local, held - {Octet(e)}, next[Octet(e) := link], tail, challenges[1..]);
      var rest := RefreshFrom(local, held, next, listed, challenges).1;
      var k :| RefusedAt(local, held - {Octet(e)}, next[Octet(e) := link], tail, k, rest);
      assert listed == [e] + tail;
      RefusedCons(local, held, next, e, tail, link, k, rest);
    }
  }

  /** A list of at most 32 that is refused takes the links of all entries before the first bad
      one with it; a longer one is refused untouched. */
  lemma RefusedTheorem(m: Mesh, listed: seq<Entry>, challenges: seq<Security.Challenge>)
    requires |challenges| == |listed| && !Refresh(m, listed, challenges).1
    ensures var n := Refresh(m, listed, challenges).0;
      if |listed| > 32 then n == m
      else exists k | 0 <= k < |listed| ::
        && Fit(m.local, {}, listed[..k]) && !Fit(m.local, {}, listed[..k + 1])
        && n.peers == m.peers - Octets(listed, k)
  {
    hide RefreshFrom, Fit;
    if |listed| <= MAX_PEERS {
      var none: Links := map[];
      assert none.Keys == {};
      RefusedFrom(m.local, m.peers, none, listed, challenges);
      var k :| RefusedAt(m.local, m.peers, map[], listed, k, RefreshFrom(m.local, m.peers, map[], listed, challenges).1);
    }
  }

  lemma OctetsCons(listed: seq<Entry>, k: nat)
    requires k < |listed|
    ensures Octets(listed, k + 1) == {Octet(listed[0])} + Octets(listed[1..], k)
  {}

  // ---------- a link that started over ----------

  /** What an end makes of a hello and of a sealed message under its key, whoever says it: a
      known peer with another challenge is not heard. */
  lemma RestartedLinkIgnored(held: Security.Session, again: Security.Session, echo: Security.Challenge, msg: seq<byte>)
    requires held.key == again.key
    ensures Security.Receive(held, Security.HelloFrom(again, echo)) != (held, Security.Ignore)
      <==> again.local != held.local && (held.remote.None? || held.remote.value == again.local)
           && (echo == Security.NO_ECHO || (echo == held.local && held.remote.None?))
    ensures again.remote.Some? && again.tx < U64 - 1 ==>
      (Security.Receive(held, Security.Seal(again, msg).1.value) != (held, Security.Ignore)
       <==> held.remote == Some(again.local) && again.remote.value == held.local
            && !Security.Refused(held, again.tx))
  {}

  /** The datagrams that are not hellos of a third challenge. */
  function OldOnly(net: set<Datagram>, h: Security.Challenge, o: Security.Challenge): set<Datagram> {
    set d | d in net && (d.Hello? ==> d.local == h || d.local == o)
  }

  /** A link that met nobody: every hello under way was made by an end, none for it. */
  ghost predicate Unheard(s: Security.Session, t: Security.Session, o: Security.Challenge, net: set<Datagram>) {
    && s == Security.Fresh(t.key, s.local) && s.local != Security.NO_ECHO && s.local != t.local && s.local != o
    && forall d | d in net && d.Hello? :: d.echo != s.local
  }

  /** `was` is the first side as it was when it forgot the link that the second still holds. */
  ghost predicate Estranged(was: Side, w: Two) {
    && Linked(was) && Linked(w.b)
    && var (t, o) := (LinkOf(w.b).security, LinkOf(was).security.local);
       && t.remote == Some(o)
       && Inv(w.b, was, OldOnly(w.net, t.local, o))
       && (forall d | d in w.net && d.Hello? :: d.tag == Security.Mac(t.key, d.local, d.echo))
       && w.a.other == was.other && w.a.sealed == was.sealed && w.a.accepted == was.accepted && w.a.up == was.up
       && (Linked(w.a) ==> Unheard(LinkOf(w.a).security, t, o, w.net))
  }

  /** The first side may drop the link and list it again, any number of times, each time under
      the same key and with a challenge nobody has used; the second keeps its own. */
  ghost predicate MayRestart(was: Side, w: Two, left: bool, op: Op)
    requires Linked(was) && Linked(w.b)
  {
    var (t, o) := (LinkOf(w.b).security, LinkOf(was).security.local);
    if !left then May(w.b, w.net, op)
    else
      match op
      case Taking(f) => f.Frame? ==> CanArrive(f.message, w.net, t.key)
      case Refreshing(listed, challenges) =>
        |listed| == |challenges| ==>
          && (forall k | 0 <= k < |listed| && Octet(listed[k]) == w.a.other :: listed[k].peer.key == t.key)
          && forall c | c in challenges ::
               c != Security.NO_ECHO && c != t.local && c != o
               && forall d | d in w.net && d.Hello? :: d.local != c && d.echo != c
      case _ => true
  }

  ghost predicate RestartRuns(was: Side, w: Two, ops: seq<(bool, Op)>)
    requires Linked(was)
    decreases |ops|
  {
    && Linked(w.b)
    && (ops != [] ==>
          MayRestart(was, w, ops[0].0, ops[0].1) && RestartRuns(was, StepOf(w, ops[0].0, ops[0].1), ops[1..]))
  }

  /** After a refresh a link is the one held before or a new one. */
  lemma RefreshedLink(m: Mesh, listed: seq<Entry>, challenges: seq<Security.Challenge>, i: nat)
    requires |challenges| == |listed| && i in Refresh(m, listed, challenges).0.peers
    ensures var l := Refresh(m, listed, challenges).0.peers[i];
      || (i in m.peers && l == m.peers[i])
      || exists k | 0 <= k < |listed| ::
           Octet(listed[k]) == i && l == Link(listed[k].peer, Security.Fresh(listed[k].peer.key, challenges[k]), None)
  {
    hide Refresh;
    var (n, ok) := Refresh(m, listed, challenges);
    if ok {
      RefreshTheorem(m, listed, challenges);
      var k :| 0 <= k < |listed| && Octet(listed[k]) == i;
      assert (i in m.peers && Unchanged(m.peers[i].info, listed[k].peer))
        || n.peers[i] == Link(listed[k].peer, Security.Fresh(listed[k].peer.key, challenges[k]), None);
    } else {
      RefusedTheorem(m, listed, challenges);
    }
  }

  /** The estranged side says hello at most, and is never heard. */
  lemma HelloPosted(was: Side, w: Two, a: Side, d: Datagram)
    requires Estranged(was, w) && Linked(a) && a == w.a.(m := a.m)
    requires Unheard(LinkOf(a).security, LinkOf(w.b).security, LinkOf(was).security.local, w.net)
    requires d.Hello? && d == Security.HelloFrom(LinkOf(a).security, d.echo) && d.echo != d.local
    ensures Estranged(was, Two(a, w.b, w.net + {d}))
  {
    hide Inv;
    var (t, o) := (LinkOf(w.b).security, LinkOf(was).security.local);
    assert OldOnly(w.net + {d}, t.local, o) == OldOnly(w.net, t.local, o);
  }

  lemma SilentStep(was: Side, w: Two, a: Side)
    requires Estranged(was, w) && a == w.a.(m := a.m, given := a.given)
    requires Linked(a) ==> Unheard(LinkOf(a).security, LinkOf(w.b).security, LinkOf(was).security.local, w.net)
    ensures Estranged(was, Two(a, w.b, w.net))
  {
    hide Inv;
  }

  lemma RestartedTakes(was: Side, w: Two, f: Frame)
    requires Estranged(was, w) && MayRestart(was, w, true, Taking(f))
    ensures Estranged(was, StepOf(w, true, Taking(f)))
  {
    hide Inv;
    var (a, net) := Take(w.a, w.net, f);
    if f.Frame? && f.address == w.a.other && Linked(w.a) {
      var (l, d) := (LinkOf(w.a), f.message);
      var (s, r) := Security.Receive(l.security, d);
      if d.Hello? && d.tag == Security.Mac(l.security.key, d.local, d.echo) {
        var h :| h in w.net && h.Hello? && h.tag == d.tag;
        assert d.echo == h.echo != l.security.local;
      }
      assert s == l.security && !r.Data?;
      if r.Reply? {
        HelloPosted(was, w, a, r.answer);
      } else {
        SilentStep(was, w, a);
      }
    } else {
      SilentStep(was, w, a);
    }
  }

  lemma RestartedBeats(was: Side, w: Two, nonces: nat -> seq<byte>)
    requires Estranged(was, w)
    ensures Estranged(was, StepOf(w, true, Beating(nonces)))
  {
    hide Inv;
    var (a, net) := Pulse(w.a, w.net, nonces);
    if Linked(w.a) {
      HelloPosted(was, w, a, Security.HelloFrom(LinkOf(w.a).security, Security.NO_ECHO));
    } else {
      SilentStep(was, w, a);
    }
  }

  lemma RestartedSends(was: Side, w: Two, p: seq<byte>)
    requires Estranged(was, w)
    ensures Estranged(was, StepOf(w, true, Sending(p)))
  {
    hide Inv, Addresses, ToMany;
    SilentStep(was, w, Send(w.a, w.net, p).0);
  }

  lemma RestartedRefreshes(was: Side, w: Two, listed: seq<Entry>, challenges: seq<Security.Challenge>)
    requires Estranged(was, w) && MayRestart(was, w, true, Refreshing(listed, challenges))
    ensures Estranged(was, StepOf(w, true, Refreshing(listed, challenges)))
  {
    hide Inv, Refresh;
    if |listed| == |challenges| {
      var a := w.a.(m := Refresh(w.a.m, listed, challenges).0);
      RestartedUnheard(was, w, listed, challenges);
      SilentStep(was, w, a);
    } else {
      SilentStep(was, w, w.a);
    }
  }

  lemma RestartedUnheard(was: Side, w: Two, listed: seq<Entry>, challenges: seq<Security.Challenge>)
    requires Linked(was) && Linked(w.b) && MayRestart(was, w, true, Refreshing(listed, challenges)) && |listed| == |challenges|
    ensures var a := w.a.(m := Refresh(w.a.m, listed, challenges).0);
      Linked(a) && (!Linked(w.a) || LinkOf(a) != LinkOf(w.a)) ==>
        Unheard(LinkOf(a).security, LinkOf(w.b).security, LinkOf(was).security.local, w.net)
  {
    hide Refresh;
    var a := w.a.(m := Refresh(w.a.m, listed, challenges).0);
    if Linked(a) && (!Linked(w.a) || LinkOf(a) != LinkOf(w.a)) {
      RefreshedLink(w.a.m, listed, challenges, w.a.other);
      var k :| 0 <= k < |listed| && Octet(listed[k]) == w.a.other
        && LinkOf(a) == Link(listed[k].peer, Security.Fresh(listed[k].peer.key, challenges[k]), None);
      assert challenges[k] in challenges;
    }
  }

  /** The holder's link keeps its challenge and, once known, its peer. */
  lemma HolderSame(x: Side, net: set<Datagram>, op: Op)
    requires Linked(x) && May(x, net, op) && LinkOf(x).security.remote.Some?
    ensures var (x', net') := SideStep(x, net, op);
      && Linked(x') && LinkOf(x').security.local == LinkOf(x).security.local
      && LinkOf(x').security.remote == LinkOf(x).security.remote
      && (forall d | d in net' && d !in net && d.Hello? ::
            d == Security.HelloFrom(LinkOf(x).security, d.echo)
            && (d.echo == LinkOf(x).security.remote.value))
  {
    hide CanArrive, Addresses, ToMany;
  }

  lemma HolderElsewhere(x: Side, net: set<Datagram>, more: set<Datagram>, op: Op)
    requires Linked(x)
    ensures SideStep(x, net + more, op) == (SideStep(x, net, op).0, SideStep(x, net, op).1 + more)
  {
    hide Forward, Heartbeat, Addresses, SpaceMeshSpec.Receive, Security.Receive, Refresh;
    match op {
      case Sending(p) => PostedMore(net, more, Outgoing(x, Forward(x.m, p).1));
      case Beating(nonces) => PostedMore(net, more, Outgoing(x, Heartbeat(x.m, nonces).1));
      case Taking(f) =>
        var r := SpaceMeshSpec.Receive(x.m, f).1;
        PostedMore(net, more, if r.reply.Some? && r.reply.value.Frame? then Some(r.reply.value.message) else None);
      case Refreshing(_, _) =>
    }
  }

  lemma PostedMore(net: set<Datagram>, more: set<Datagram>, d: Option<Datagram>)
    ensures Posted(net + more, d) == Posted(net, d) + more
  {
    if d.Some? {
      assert net + more + {d.value} == net + {d.value} + more;
    }
  }

  /** What reaches the holder is ignored, or could have come without the new hellos. */
  lemma HolderHears(was: Side, w: Two, d: Datagram)
    requires Estranged(was, w) && CanArrive(d, w.net, LinkOf(w.b).security.key)
    ensures var (t, o) := (LinkOf(w.b).security, LinkOf(was).security.local);
      || Security.Receive(t, d) == (t, Security.Ignore)
      || CanArrive(d, OldOnly(w.net, t.local, o), t.key)
  {
    hide Inv;
    var (t, o) := (LinkOf(w.b).security, LinkOf(was).security.local);
    if d.Hello? && d.tag == Security.Mac(t.key, d.local, d.echo) {
      var h :| h in w.net && h.Hello? && h.tag == d.tag;
      assert h.local == d.local;
      if d.local == o {
        assert h in OldOnly(w.net, t.local, o);
      }
    }
  }

  lemma HolderIgnores(x: Side, net: set<Datagram>, f: Frame)
    requires Linked(x) && f.Frame? && f.address == x.other
    requires Security.Receive(LinkOf(x).security, f.message) == (LinkOf(x).security, Security.Ignore)
    ensures Take(x, net, f) == (x, net)
  {
    assert x.m.peers[x.other := x.m.peers[x.other]] == x.m.peers;
  }

  /** Only what was opened is handed up. */
  lemma HandedUpWasOpened(x: Side, net: set<Datagram>, op: Op)
    ensures var x' := SideStep(x, net, op).0;
      && |x'.accepted| >= |x.accepted| && (x'.up == x.up || |x'.accepted| > |x.accepted|)
  {
    hide Forward, Heartbeat, SpaceMeshSpec.Receive, Security.Receive, Refresh;
  }

  lemma HolderSteps(was: Side, w: Two, op: Op)
    requires Estranged(was, w) && MayRestart(was, w, false, op)
    ensures Estranged(was, StepOf(w, false, op))
  {
    hide CanArrive, Inv, SideStep, Security.Receive, Kept;
    var (t, o) := (LinkOf(w.b).security, LinkOf(was).security.local);
    var kept := OldOnly(w.net, t.local, o);
    var more := w.net - kept;
    if op.Taking? && op.f.Frame? && op.f.address == w.b.other {
      HolderHears(was, w, op.f.message);
    }
    if op.Taking? && op.f.Frame? && op.f.address == w.b.other && Security.Receive(t, op.f.message) == (t, Security.Ignore) {
      HolderIgnores(w.b, w.net, op.f);
      TakeStep(w.b, w.net, op.f);
    } else {
      assert May(w.b, kept, op);
      InvLinked(w.b, was, kept);
      SideKeeps(w.b, was, kept, op);
      HolderSame(w.b, kept, op);
      HolderElsewhere(w.b, kept, more, op);
      assert kept + more == w.net;
      var (b, net) := SideStep(w.b, kept, op);
      assert OldOnly(net + more, t.local, o) == net by { NetGrows(w.b, kept, op); }
      KeptInv(w.b, was, b, net, kept);
    }
  }

  lemma TakeStep(x: Side, net: set<Datagram>, f: Frame)
    ensures SideStep(x, net, Taking(f)) == Take(x, net, f)
  {}

  lemma NetGrows(x: Side, net: set<Datagram>, op: Op)
    ensures net <= SideStep(x, net, op).1
  {
    hide Forward, Heartbeat, SpaceMeshSpec.Receive, Security.Receive, Refresh;
  }

  lemma InvLinked(x: Side, y: Side, net: set<Datagram>)
    requires Inv(x, y, net)
    ensures Linked(x) && Linked(y)
  {}

  lemma KeptInv(x: Side, y: Side, x': Side, net': set<Datagram>, net: set<Datagram>)
    requires Inv(x, y, net) && Kept(x, y, x', net')
    ensures Inv(x', y, net') && LinkOf(x').security.key == LinkOf(x).security.key
  {}

  lemma RestartStep(was: Side, w: Two, left: bool, op: Op)
    requires Estranged(was, w) && MayRestart(was, w, left, op)
    ensures Estranged(was, StepOf(w, left, op))
  {
    hide Estranged, MayRestart, StepOf;
    if !left {
      HolderSteps(was, w, op);
    } else {
      match op {
        case Sending(p) => RestartedSends(was, w, p);
        case Beating(nonces) => RestartedBeats(was, w, nonces);
        case Taking(f) => RestartedTakes(was, w, f);
        case Refreshing(listed, challenges) => RestartedRefreshes(was, w, listed, challenges);
      }
    }
  }

  lemma {:induction false} EstrangedStays(was: Side, w: Two, ops: seq<(bool, Op)>)
    requires Estranged(was, w) && RestartRuns(was, w, ops)
    ensures var z := After(w, ops);
      && Estranged(was, z)
      && |z.b.accepted| >= |w.b.accepted| && (z.b.up == w.b.up || |z.b.accepted| > |w.b.accepted|)
    decreases |ops|
  {
    hide Inv, SideStep, MayRestart;
    if ops != [] {
      var (left, op) := (ops[0].0, ops[0].1);
      RestartStep(was, w, left, op);
      HandedUpWasOpened(w.b, w.net, op);
      EstrangedStays(was, StepOf(w, left, op), ops[1..]);
    }
  }

  /** The refresh that drops or restarts one end's link. */
  lemma Estranging(w: Two, listed: seq<Entry>, challenges: seq<Security.Challenge>)
    requires Both(w) && LinkOf(w.b).security.remote.Some? && |listed| == |challenges|
    requires MayRestart(w.a, w, true, Refreshing(listed, challenges))
    requires var a := StepOf(w, true, Refreshing(listed, challenges)).a; !Linked(a) || LinkOf(a) != LinkOf(w.a)
    ensures Estranged(w.a, StepOf(w, true, Refreshing(listed, challenges)))
  {
    hide Refresh, Honest, Count;
    RestartedUnheard(w.a, w, listed, challenges);
    var (t, o) := (LinkOf(w.b).security, LinkOf(w.a).security.local);
    assert OldOnly(w.net, t.local, o) == w.net;
    PairedSwap(PartyOf(w.a), PartyOf(w.b), w.net);
  }

  /** Once one end has dropped its link, and however often it lists it again under the same
      key, the other end hands up no packet beyond those the first end was given before, and
      none at all if all it had sealed was opened; the new link never learns its peer, so it
      seals nothing, and hands up nothing. It stays so until the other end drops its link. */
  lemma RestartTheorem(w: Two, listed: seq<Entry>, challenges: seq<Security.Challenge>, ops: seq<(bool, Op)>)
    requires Both(w) && LinkOf(w.b).security.remote.Some? && |listed| == |challenges|
    requires MayRestart(w.a, w, true, Refreshing(listed, challenges))
    requires var w1 := StepOf(w, true, Refreshing(listed, challenges));
      && (!Linked(w1.a) || LinkOf(w1.a) != LinkOf(w.a))
      && RestartRuns(w.a, w1, ops)
    ensures var z := After(StepOf(w, true, Refreshing(listed, challenges)), ops);
      && (forall p :: Count(z.b.up, p) <= Count(w.a.given, p))
      && (|w.b.accepted| == |w.a.sealed| ==> z.b.up == w.b.up)
      && z.a.up == w.a.up && z.a.sealed == w.a.sealed
      && (Linked(z.a) ==> LinkOf(z.a).security.remote.None?)
      && Linked(z.b) && LinkOf(z.b).security.remote == Some(LinkOf(w.a).security.local)
  {
    hide *;
    Estranging(w, listed, challenges);
    var w1 := StepOf(w, true, Refreshing(listed, challenges));
    EstrangedStays(w.a, w1, ops);
    FirstStep(w, listed, challenges);
    EstrangedMeans(w.a, After(w1, ops));
  }

  lemma FirstStep(w: Two, listed: seq<Entry>, challenges: seq<Security.Challenge>)
    ensures StepOf(w, true, Refreshing(listed, challenges)).b == w.b
  {}

  lemma EstrangedMeans(was: Side, z: Two)
    requires Estranged(was, z)
    ensures forall p :: Count(z.b.up, p) <= Count(was.given, p)
    ensures |z.b.accepted| <= |was.sealed|
    ensures z.a.up == was.up && z.a.sealed == was.sealed
    ensures Linked(z.a) ==> LinkOf(z.a).security.remote.None?
    ensures Linked(was) && Linked(z.b) && LinkOf(z.b).security.remote == Some(LinkOf(was).security.local)
  {
    var net := OldOnly(z.net, LinkOf(z.b).security.local, LinkOf(was).security.local);
    assert Inv(z.b, was, net);
    hide Paired, Addresses;
    forall p ensures Count(z.b.up, p) <= Count(was.given, p) {
      OneWay(was, z.b, net, p);
    }
    AcceptedFew(PartyOf(z.b), PartyOf(was), net);
  }

  lemma AcceptedFew(p: Party, q: Party, net: set<Datagram>)
    requires Paired(p, q, net)
    ensures |p.accepted| <= |q.sealed|
  {
    OpenedIsSubcollection(p.accepted, q.sealed);
    var (few, all) := (multiset(Messages(p.accepted)), multiset(q.sealed));
    assert all == few + (all - few);
    assert |few| == |p.accepted| && |all| == |q.sealed|;
  }
}
