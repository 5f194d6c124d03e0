/** Two honest ends of one key over a network that loses, repeats, reorders, reflects and
    forges datagrams. */
module Channel {
  import opened Bytes
  import opened Security
  import opened ReplayWindow

  /** A session with its history: what it sealed, indexed by number, and what it opened. */
  datatype Party = Party(s: Session, sealed: seq<seq<byte>>, accepted: seq<(nat, seq<byte>)>)

  function Begin(key: Key, local: Challenge): Party {
    Party(Fresh(key, local), [], [])
  }

  function SealAs(p: Party, msg: seq<byte>): (Party, Option<Datagram>) {
    var (s, d) := Seal(p.s, msg);
    (Party(s, if d.Some? then p.sealed + [msg] else p.sealed, p.accepted), d)
  }

  function ReceiveAs(p: Party, d: Datagram): (Party, Incoming) {
    var (s, r) := Receive(p.s, d);
    (Party(s, p.sealed, if r.Data? then p.accepted + [(d.number, r.msg)] else p.accepted), r)
  }

  // ---------- the network ----------

  /** Whoever lacks the key can replay, relabel and invent, but can only repeat tags and
      ciphertexts made under the key that were sent before. */
  ghost predicate CanArrive(d: Datagram, net: set<Datagram>, key: Key) {
    match d
    case Raw(_) => true
    case Hello(_, _, tag) =>
      tag.Mac? && tag.key == key ==> exists h :: h in net && h.Hello? && h.tag == tag
    case Envelope(_, _, body) =>
      body.Sealed? && body.key == key ==> exists e :: e in net && e.Envelope? && e.body == body
  }

  ghost predicate MadeBy(d: Datagram, p: Party, q: Party) {
    match d
    case Raw(_) => true
    case Hello(local, echo, _) =>
      && d == HelloFrom(p.s, echo) && (echo == NO_ECHO || echo == q.s.local)
    case Envelope(from, n, body) =>
      && n < |p.sealed| && from == p.s.local
      && body == Sealed(p.s.key, from, n, q.s.local, p.sealed[n])
  }

  // ---------- the invariant ----------

  ghost function Numbers(accepted: seq<(nat, seq<byte>)>): set<nat> {
    set i | 0 <= i < |accepted| :: accepted[i].0
  }

  ghost predicate OpenedOnce(accepted: seq<(nat, seq<byte>)>) {
    forall i, j | 0 <= i < j < |accepted| :: accepted[i].0 != accepted[j].0
  }

  /** What one end's state says about the other. */
  ghost predicate End(p: Party, q: Party, net: set<Datagram>) {
    && p.s.tx == |p.sealed|
    && (p.s.remote.None? ==> p.sealed == [] && p.accepted == [])
    && (p.s.remote.Some? ==> p.s.remote.value == q.s.local && HelloFrom(q.s, p.s.local) in net)
    && Tracks(p.s.high, p.s.seen, Numbers(p.accepted))
    && OpenedOnce(p.accepted)
    && (forall i | 0 <= i < |p.accepted| ::
          p.accepted[i].0 < |q.sealed| && q.sealed[p.accepted[i].0] == p.accepted[i].1)
  }

  ghost predicate Paired(p: Party, q: Party, net: set<Datagram>) {
    && p.s.key == q.s.key
    && p.s.local != q.s.local && p.s.local != NO_ECHO && q.s.local != NO_ECHO
    && End(p, q, net) && End(q, p, net)
    && (forall d | d in net :: MadeBy(d, p, q) || MadeBy(d, q, p))
  }

  lemma PairedAtStart(key: Key, a: Challenge, b: Challenge)
    requires a != b && a != NO_ECHO && b != NO_ECHO
    ensures Paired(Begin(key, a), Begin(key, b), {})
  {}

  lemma GreetKeeps(p: Party, q: Party, net: set<Datagram>)
    requires Paired(p, q, net)
    ensures Paired(p, q, net + {HelloFrom(p.s, NO_ECHO)})
  {}

  lemma SealKeeps(p: Party, q: Party, net: set<Datagram>, msg: seq<byte>)
    requires Paired(p, q, net)
    ensures
      var (p', d) := SealAs(p, msg);
      && p'.s.local == p.s.local && p'.s.key == p.s.key
      && p'.s.remote == p.s.remote && p'.accepted == p.accepted
      && Paired(p', q, if d.Some? then net + {d.value} else net)
      && (d.Some? ==> d.value == Envelope(p.s.local, |p.sealed|,
                        Sealed(p.s.key, p.s.local, |p.sealed|, q.s.local, msg)))
  {}

  lemma HelloKeeps(p: Party, q: Party, net: set<Datagram>, d: Datagram)
    requires d.Hello? && Paired(p, q, net) && CanArrive(d, net, p.s.key)
    ensures
      var (p', r) := ReceiveAs(p, d);
      && !r.Data? && (p.s.remote.Some? ==> p'.s.remote == p.s.remote)
      && p'.s == p.s.(remote := p'.s.remote)
      && Paired(p', q, if r.Reply? then net + {r.answer} else net)
  {}

  lemma EnvelopeKeeps(p: Party, q: Party, net: set<Datagram>, d: Datagram)
    requires d.Envelope? && Paired(p, q, net) && CanArrive(d, net, p.s.key)
    requires ReceiveAs(p, d).1.Data?
    ensures
      var (p', r) := ReceiveAs(p, d);
      && d.number < |q.sealed| && r.msg == q.sealed[d.number]
      && d.number !in Numbers(p.accepted)
      && p'.s == p.s.(high := p'.s.high, seen := p'.s.seen)
      && End(p', q, net)
  {
    var (p', r) := ReceiveAs(p, d);
    ReceiveRefinesSet(p.s, d.from, d.number, d.body, Numbers(p.accepted));
    var e :| e in net && e.Envelope? && e.body == d.body;
    assert MadeBy(e, q, p);
    NumbersSnoc(p.accepted, (d.number, r.msg));
    forall i, j | 0 <= i < j < |p'.accepted| ensures p'.accepted[i].0 != p'.accepted[j].0 {
      assert p'.accepted[i].0 in Numbers(p.accepted);
    }
  }

  /** The soundness of one arrival: whatever opens was sealed by the other end under that
      number, and had not been opened before. */
  lemma ReceiveKeeps(p: Party, q: Party, net: set<Datagram>, d: Datagram)
    requires Paired(p, q, net) && CanArrive(d, net, p.s.key)
    ensures
      var (p', r) := ReceiveAs(p, d);
      && p'.s.local == p.s.local && p'.s.key == p.s.key && p'.sealed == p.sealed
      && (p.s.remote.Some? ==> p'.s.remote == p.s.remote)
      && Paired(p', q, if r.Reply? then net + {r.answer} else net)
      && (r.Data? ==>
            && d.Envelope? && d.number < |q.sealed| && r.msg == q.sealed[d.number]
            && d.number !in Numbers(p.accepted))
  {
    var (p', r) := ReceiveAs(p, d);
    if d.Hello? {
      HelloKeeps(p, q, net, d);
    } else if r.Data? {
      EnvelopeKeeps(p, q, net, d);
      assert End(q, p', net);
      forall e | e in net ensures MadeBy(e, p', q) || MadeBy(e, q, p') {
        assert MadeBy(e, p, q) ==> MadeBy(e, p', q);
        assert MadeBy(e, q, p) ==> MadeBy(e, q, p');
      }
    } else {
      assert p' == p;
    }
  }

  lemma NumbersSnoc(accepted: seq<(nat, seq<byte>)>, x: (nat, seq<byte>))
    ensures Numbers(accepted + [x]) == Numbers(accepted) + {x.0}
  {
    var all := accepted + [x];
    forall n | n in Numbers(accepted) + {x.0} ensures n in Numbers(all) {
      if n in Numbers(accepted) {
        var i :| 0 <= i < |accepted| && accepted[i].0 == n;
        assert all[i].0 == n;
      } else {
        assert all[|accepted|].0 == n;
      }
    }
  }

  // ---------- runs ----------

  datatype Pair = Pair(p: Party, q: Party, net: set<Datagram>)

  datatype Act = Greet | Send(msg: seq<byte>) | Arrive(d: Datagram)

  function Swap(c: Pair): Pair { Pair(c.q, c.p, c.net) }

  ghost predicate Possible(c: Pair, act: Act) {
    act.Arrive? ==> CanArrive(act.d, c.net, c.p.s.key)
  }

  /** One step of end p. */
  function Step(c: Pair, act: Act): Pair {
    match act
    case Greet => c.(net := c.net + {HelloFrom(c.p.s, NO_ECHO)})
    case Send(msg) =>
      var (p, d) := SealAs(c.p, msg);
      Pair(p, c.q, if d.Some? then c.net + {d.value} else c.net)
    case Arrive(d) =>
      var (p, r) := ReceiveAs(c.p, d);
      Pair(p, c.q, if r.Reply? then c.net + {r.answer} else c.net)
  }

  function StepOf(c: Pair, left: bool, act: Act): Pair {
    if left then Step(c, act) else Swap(Step(Swap(c), act))
  }

  /** Every state of a run satisfies `Possible` for the act that follows it. */
  ghost predicate Runs(c: Pair, acts: seq<(bool, Act)>)
    decreases |acts|
  {
    acts == [] ||
    (Possible(if acts[0].0 then c else Swap(c), acts[0].1)
     && Runs(StepOf(c, acts[0].0, acts[0].1), acts[1..]))
  }

  function After(c: Pair, acts: seq<(bool, Act)>): Pair
    decreases |acts|
  {
    if acts == [] then c else After(StepOf(c, acts[0].0, acts[0].1), acts[1..])
  }

  lemma StepKeeps(c: Pair, left: bool, act: Act)
    requires Paired(c.p, c.q, c.net)
    requires Possible(if left then c else Swap(c), act)
    ensures var c' := StepOf(c, left, act);
      && Paired(c'.p, c'.q, c'.net)
      && c'.p.s.local == c.p.s.local && c'.q.s.local == c.q.s.local
      && (c.p.s.remote.Some? ==> c'.p.s.remote == c.p.s.remote)
      && (c.q.s.remote.Some? ==> c'.q.s.remote == c.q.s.remote)
  {
    var (p, q) := if left then (c.p, c.q) else (c.q, c.p);
    match act {
      case Greet => GreetKeeps(p, q, c.net);
      case Send(msg) => SealKeeps(p, q, c.net, msg);
      case Arrive(d) => ReceiveKeeps(p, q, c.net, d);
    }
  }

  /** Handshake agreement over whole runs: a peer, once fixed, is the other end and stays. */
  lemma {:induction false} Agreement(c: Pair, acts: seq<(bool, Act)>)
    requires Paired(c.p, c.q, c.net) && Runs(c, acts)
    ensures var c' := After(c, acts);
      && Paired(c'.p, c'.q, c'.net)
      && c'.p.s.local == c.p.s.local && c'.q.s.local == c.q.s.local
      && (c.p.s.remote.Some? ==> c'.p.s.remote == c.p.s.remote)
      && (c.q.s.remote.Some? ==> c'.q.s.remote == c.q.s.remote)
    decreases |acts|
  {
    if acts != [] {
      StepKeeps(c, acts[0].0, acts[0].1);
      Agreement(StepOf(c, acts[0].0, acts[0].1), acts[1..]);
    }
  }

  /** From the start of two sessions: ready only after the other's echo was sent, the peer
      is the other end, and what was accepted is a sub-collection of what the other sealed:
      nothing invented, nothing accepted twice. */
  lemma ChannelTheorem(key: Key, a: Challenge, b: Challenge, acts: seq<(bool, Act)>)
    requires a != b && a != NO_ECHO && b != NO_ECHO
    requires Runs(Pair(Begin(key, a), Begin(key, b), {}), acts)
    ensures var c := After(Pair(Begin(key, a), Begin(key, b), {}), acts);
      && (c.p.s.remote.Some? ==> c.p.s.remote.value == b && Hello(b, a, Mac(key, b, a)) in c.net)
      && (c.q.s.remote.Some? ==> c.q.s.remote.value == a && Hello(a, b, Mac(key, a, b)) in c.net)
      && multiset(Messages(c.p.accepted)) <= multiset(c.q.sealed)
      && multiset(Messages(c.q.accepted)) <= multiset(c.p.sealed)
  {
    var c0 := Pair(Begin(key, a), Begin(key, b), {});
    PairedAtStart(key, a, b);
    Agreement(c0, acts);
    KeyStays(c0, acts);
    var c := After(c0, acts);
    OpenedIsSubcollection(c.p.accepted, c.q.sealed);
    OpenedIsSubcollection(c.q.accepted, c.p.sealed);
  }

  lemma {:induction false} KeyStays(c: Pair, acts: seq<(bool, Act)>)
    ensures var c' := After(c, acts); c'.p.s.key == c.p.s.key && c'.q.s.key == c.q.s.key
    decreases |acts|
  {
    if acts != [] {
      KeyStays(StepOf(c, acts[0].0, acts[0].1), acts[1..]);
    }
  }

  // ---------- at most once, as multisets ----------

  function Messages(accepted: seq<(nat, seq<byte>)>): seq<seq<byte>> {
    seq(|accepted|, i requires 0 <= i < |accepted| => accepted[i].1)
  }

  /** Messages picked under distinct numbers form a sub-collection. */
  lemma {:induction false} OpenedIsSubcollection(accepted: seq<(nat, seq<byte>)>, sealed: seq<seq<byte>>)
    requires OpenedOnce(accepted)
    requires forall i | 0 <= i < |accepted| :: accepted[i].0 < |sealed| && sealed[accepted[i].0] == accepted[i].1
    ensures multiset(Messages(accepted)) <= multiset(sealed)
    decreases |sealed|
  {
    if accepted != [] {
      assert accepted[0].0 < |sealed|;
      var last := |sealed| - 1;
      assert sealed == sealed[..last] + [sealed[last]];
      if k :| 0 <= k < |accepted| && accepted[k].0 == last {
        var rest := accepted[..k] + accepted[k + 1..];
        assert accepted == accepted[..k] + [accepted[k]] + accepted[k + 1..];
        assert Messages(accepted) == Messages(accepted[..k]) + [accepted[k].1] + Messages(accepted[k + 1..]);
        assert Messages(rest) == Messages(accepted[..k]) + Messages(accepted[k + 1..]);
        OpenedIsSubcollection(rest, sealed[..last]);
      } else {
        OpenedIsSubcollection(accepted, sealed[..last]);
      }
    }
  }

  // ---------- recovery ----------

  /** However many hellos were lost, one more zero-echo hello and its two answers fix both
      peers. */
  lemma Recover(a: Session, b: Session)
    requires a.key == b.key && a.local != b.local && a.local != NO_ECHO && b.local != NO_ECHO
    requires a.remote.None? && (b.remote.None? || b.remote.value == a.local)
    ensures
      var (b1, r1) := Receive(b, HelloFrom(a, NO_ECHO));
      && r1.Reply?
      && var (a1, r2) := Receive(a, r1.answer);
      && a1.remote == Some(b.local) && r2.Reply?
      && var (b2, _) := Receive(b1, r2.answer);
      && b2.remote == Some(a.local)
  {}

  /** The two conditions on challenges are needed: without them an end is never ready,
      whatever arrives. */
  lemma NeverReady(s: Session, d: Datagram)
    requires s.remote.None?
    requires s.local == NO_ECHO || (d.Hello? && d.local == s.local)
    ensures Receive(s, d).0.remote.None?
  {}
}
