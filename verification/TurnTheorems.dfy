/** What the TURN server guarantees over every run: its limits, and that nothing passes
    between two clients without both having asked for it. */
module TurnTheorems {
  import opened Bytes
  import opened Sets
  import opened Stun
  import opened StunAddress
  import opened StunIntegrity
  import opened Turn

  /** A datagram one relay socket sent, with the allocations and the time it was sent at. */
  datatype Sent = Sent(from: Addr, to: Addr, data: seq<byte>, sender: Addr, before: Allocs, at: Time)

  /** A Data indication, with the allocations and the time of the arrival. */
  datatype Delivery = Delivery(sent: Option<Sent>, client: Addr, peer: Addr, data: seq<byte>,
                               before: Allocs, at: Time)

  datatype Sys = Sys(allocs: Allocs, net: set<Sent>, log: seq<Delivery>, now: Time)

  datatype Op =
    | Client(src: Addr, req: Request, bound: Option<Addr>, now: Time)
    | Arrive(sent: Sent, key: Addr, now: Time)
    | Outside(peer: Addr, relay: Addr, data: seq<byte>, key: Addr, now: Time)
    | Sweep(now: Time)
    | Lose(sent: Sent)

  function Logged(s: Sys, sent: Option<Sent>, r: Reply, now: Time): Sys {
    if r.Deliver?
    then s.(log := s.log + [Delivery(sent, r.client, r.peer, r.data, s.allocs, now)], now := now)
    else s.(now := now)
  }

  function Step(s: Sys, op: Op): Sys {
    match op
    case Client(src, req, bound, now) =>
      var (m, r) := Handle(s.allocs, src, req, bound, now);
      Sys(m, if r.Relay? then s.net + {Sent(r.source, r.target, r.data, src, s.allocs, now)} else s.net,
          s.log, now)
    case Arrive(sent, key, now) =>
      Logged(s, Some(sent), DoArrive(s.allocs, key, sent.to, sent.from, sent.data, now), now)
    case Outside(peer, relay, data, key, now) =>
      Logged(s, None, DoArrive(s.allocs, key, relay, peer, data, now), now)
    case Sweep(now) => s.(allocs := Retain(s.allocs, now), now := now)
    case Lose(sent) => s.(net := s.net - {sent})
  }

  /** The system binds an address only when no live allocation and no datagram under way
      uses it, and nobody outside sends from an address in use. */
  ghost predicate May(s: Sys, op: Op) {
    match op
    case Client(_, _, bound, now) =>
      && s.now <= now
      && (bound.Some? ==>
            && (forall c | c in Retain(s.allocs, now) :: s.allocs[c].relay != bound.value)
            && (forall d | d in s.net :: d.from != bound.value && d.to != bound.value))
    case Arrive(sent, _, now) => s.now <= now && sent in s.net
    case Outside(peer, _, _, _, now) =>
      s.now <= now && forall c | c in s.allocs :: s.allocs[c].relay != peer
    case Sweep(now) => s.now <= now
    case Lose(_) => true
  }

  function After(s: Sys, ops: seq<Op>): Sys {
    if ops == [] then s else Step(After(s, ops[..|ops| - 1]), ops[|ops| - 1])
  }

  ghost predicate Runs(s: Sys, ops: seq<Op>) {
    ops != [] ==>
      Runs(s, ops[..|ops| - 1]) && May(After(s, ops[..|ops| - 1]), ops[|ops| - 1])
  }

  // ---------- the invariant ----------

  ghost predicate Distinct(m: Allocs) {
    forall c, d | c in m && d in m && m[c].relay == m[d].relay :: c == d
  }

  ghost predicate Bounded(m: Allocs) {
    && |m| <= MAX_ALLOCATIONS
    && (forall h: Host :: |OnHost(m, h)| <= MAX_ALLOCATIONS_PER_IP)
    && (forall c | c in m :: |m[c].permissions| <= MAX_PERMISSIONS)
  }

  ghost predicate Owned(m: Allocs, now: Time) {
    forall c | c in m ::
      m[c].client == c && m[c].relay !in m[c].permissions && m[c].expires <= now + LIFETIME
  }

  /** Its sender was live and had permitted the target, a relay of another live client. */
  ghost predicate Consented(d: Sent) {
    && Distinct(d.before)
    && Live(d.before, d.sender, d.at) && d.before[d.sender].relay == d.from
    && d.to in d.before[d.sender].permissions
    && OtherAdvertises(d.before, d.sender, d.to, d.at)
  }

  /** The relays a datagram travels between have not changed hands. */
  ghost predicate Routed(d: Sent, m: Allocs) {
    && (forall c | c in m && m[c].relay == d.to :: c in d.before && d.before[c].relay == d.to)
    && (forall c | c in m && m[c].relay == d.from :: c == d.sender)
  }

  /** The source was permitted by a live client; a relayed datagram had the consent of both. */
  ghost predicate Proper(e: Delivery) {
    && Live(e.before, e.client, e.at) && e.peer in e.before[e.client].permissions
    && (e.sent.Some? ==>
          var d := e.sent.value;
          && d.data == e.data && d.sender != e.client && d.at <= e.at
          && Live(d.before, d.sender, d.at) && d.before[d.sender].relay == e.peer
          && Live(d.before, e.client, d.at)
          && d.before[e.client].relay == e.before[e.client].relay
          && d.before[e.client].relay in d.before[d.sender].permissions)
  }

  ghost predicate Inv(s: Sys) {
    && Distinct(s.allocs) && Bounded(s.allocs) && Owned(s.allocs, s.now)
    && (forall d | d in s.net :: Consented(d) && Routed(d, s.allocs) && d.at <= s.now)
    && (forall e | e in s.log :: Proper(e))
  }

  // ---------- every step keeps it ----------

  lemma RetainSmaller(m: Allocs, now: Time)
    requires Bounded(m)
    ensures Bounded(Retain(m, now))
  {
    var k := Retain(m, now);
    SubmapSize(k, m);
    forall h: Host ensures |OnHost(k, h)| <= MAX_ALLOCATIONS_PER_IP {
      SubsetSize(OnHost(k, h), OnHost(m, h));
    }
  }

  lemma InsertBounded(m: Allocs, src: Addr, a: Allocation)
    requires Bounded(m) && |a.permissions| <= MAX_PERMISSIONS
    requires src !in m ==> !Full(m, src)
    ensures Bounded(m[src := a])
  {
    var n := m[src := a];
    InsertSize(m, src, a);
    forall h: Host ensures |OnHost(n, h)| <= MAX_ALLOCATIONS_PER_IP {
      if HostOf(src) == h && src !in m {
        assert OnHost(n, h) == OnHost(m, h) + {src};
      } else {
        assert OnHost(n, h) == OnHost(m, h);
      }
    }
  }

  lemma RemoveBounded(m: Allocs, src: Addr)
    requires Bounded(m)
    ensures Bounded(m - {src})
  {
    var n := m - {src};
    SubmapSize(n, m);
    forall h: Host ensures |OnHost(n, h)| <= MAX_ALLOCATIONS_PER_IP {
      SubsetSize(OnHost(n, h), OnHost(m, h));
    }
  }

  lemma HandleBounded(m: Allocs, src: Addr, req: Request, bound: Option<Addr>, now: Time)
    requires Bounded(m)
    ensures Bounded(Handle(m, src, req, bound, now).0)
  {
    match req {
      case Allocate =>
        RetainSmaller(m, now);
        if bound.Some? && src !in Retain(m, now) && !Full(Retain(m, now), src) {
          InsertBounded(Retain(m, now), src, Allocation(bound.value, {}, src, now + LIFETIME));
        }
      case Permit(peer) =>
        var (n, r) := DoPermit(m, src, peer, now);
        if r.Permitted? {
          InsertBounded(m, src, n[src]);
        }
      case Refresh =>
        if Live(m, src, now) {
          InsertBounded(m, src, m[src].(expires := now + LIFETIME));
        } else {
          RemoveBounded(m, src);
        }
      case _ =>
    }
  }

  /** Relays stay distinct and owned; only an Allocate adds one. */
  ghost predicate Succeeds(m: Allocs, n: Allocs, src: Addr, bound: Option<Addr>, now: Time) {
    && Distinct(n) && Owned(n, now)
    && forall c | c in n ::
         (c in m && n[c].relay == m[c].relay) || (c == src && bound == Some(n[c].relay))
  }

  lemma AllocateOwned(m: Allocs, src: Addr, bound: Option<Addr>, was: Time, now: Time)
    requires Distinct(m) && Owned(m, was) && was <= now
    requires bound.Some? ==> forall c | c in Retain(m, now) :: m[c].relay != bound.value
    ensures Succeeds(m, DoAllocate(m, src, bound, now).0, src, bound, now)
  {}

  lemma PermitOwned(m: Allocs, src: Addr, peer: Option<Addr>, was: Time, now: Time)
    requires Distinct(m) && Owned(m, was) && was <= now
    ensures Succeeds(m, DoPermit(m, src, peer, now).0, src, None, now)
  {}

  lemma HandleOwned(m: Allocs, src: Addr, req: Request, bound: Option<Addr>, was: Time, now: Time)
    requires Distinct(m) && Owned(m, was) && was <= now
    requires bound.Some? ==> forall c | c in Retain(m, now) :: m[c].relay != bound.value
    ensures Succeeds(m, Handle(m, src, req, bound, now).0, src, bound, now)
  {
    hide DoAllocate, DoPermit, DoSend;
    match req {
      case Allocate => AllocateOwned(m, src, bound, was, now);
      case Permit(peer) => PermitOwned(m, src, peer, was, now);
      case _ =>
    }
  }

  lemma ClientKeeps(s: Sys, op: Op)
    requires op.Client? && Inv(s) && May(s, op)
    ensures Inv(Step(s, op))
  {
    var s' := Step(s, op);
    hide Bounded;
    HandleBounded(s.allocs, op.src, op.req, op.bound, op.now);
    HandleOwned(s.allocs, op.src, op.req, op.bound, s.now, op.now);
    hide Handle;
    forall d | d in s'.net ensures Consented(d) && Routed(d, s'.allocs) && d.at <= s'.now {
      if d in s.net {
        assert Routed(d, s.allocs);
      } else {
        SentProperly(s, op, d);
      }
    }
  }

  lemma SentProperly(s: Sys, op: Op, d: Sent)
    requires op.Client? && Distinct(s.allocs) && d in Step(s, op).net && d !in s.net
    ensures Consented(d) && Routed(d, s.allocs) && d.at == op.now && Step(s, op).allocs == s.allocs
  {}

  lemma ArriveKeeps(s: Sys, op: Op)
    requires op.Arrive? && Inv(s) && May(s, op)
    ensures Inv(Step(s, op))
  {}

  lemma StepKeeps(s: Sys, op: Op)
    requires Inv(s) && May(s, op)
    ensures Inv(Step(s, op))
  {
    match op {
      case Client(_, _, _, _) => ClientKeeps(s, op);
      case Arrive(_, _, _) => ArriveKeeps(s, op);
      case Outside(_, _, _, _, _) => hide Bounded;
      case Sweep(now) =>
        RetainSmaller(s.allocs, now);
        hide Bounded;
      case Lose(_) => hide Bounded;
    }
  }

  lemma {:induction false} RunKeeps(s: Sys, ops: seq<Op>)
    requires Inv(s) && Runs(s, ops)
    ensures Inv(After(s, ops))
  {
    if ops != [] {
      RunKeeps(s, ops[..|ops| - 1]);
      StepKeeps(After(s, ops[..|ops| - 1]), ops[|ops| - 1]);
    }
  }

  // ---------- the theorems ----------

  function Start(now: Time): Sys {
    Sys(map[], {}, [], now)
  }

  /** The limits of sections 6, 7 and 9 of RFC 5766 as this server sets them, in every run:
      each client has one relay of its own that expires within a lifetime. */
  lemma LimitsTheorem(ops: seq<Op>, now: Time)
    requires Runs(Start(now), ops)
    ensures var s := After(Start(now), ops);
      && |s.allocs| <= 256
      && (forall h: Host :: |OnHost(s.allocs, h)| <= 32)
      && (forall c | c in s.allocs ::
            |s.allocs[c].permissions| <= 64 && s.allocs[c].client == c
            && s.allocs[c].expires <= s.now + LIFETIME)
      && (forall c, d | c in s.allocs && d in s.allocs && c != d ::
            s.allocs[c].relay != s.allocs[d].relay)
  {
    assert forall h: Host :: OnHost(map[], h) == {};
    RunKeeps(Start(now), ops);
  }

  /** Every payload a client is handed came from an address it had permitted; one relayed
      from another client was sent while both were live and the sender had permitted the
      receiver's relay, and arrived while the receiver was live, still held that relay and
      had permitted the sender's. */
  lemma MutualConsentTheorem(ops: seq<Op>, now: Time, i: nat)
    requires Runs(Start(now), ops) && i < |After(Start(now), ops).log|
    ensures var e := After(Start(now), ops).log[i];
      && Live(e.before, e.client, e.at) && e.peer in e.before[e.client].permissions
      && (e.sent.Some? ==>
            var d := e.sent.value;
            && d.data == e.data && d.sender != e.client && d.at <= e.at
            && Live(d.before, d.sender, d.at) && d.before[d.sender].relay == e.peer
            && Live(d.before, e.client, d.at)
            && d.before[e.client].relay == e.before[e.client].relay
            && d.before[e.client].relay in d.before[d.sender].permissions)
  {
    assert forall h: Host :: OnHost(map[], h) == {};
    RunKeeps(Start(now), ops);
    var s := After(Start(now), ops);
    assert s.log[i] in s.log && Proper(s.log[i]);
  }

  /** Among the allocated, a payload goes through exactly when both are live and each has
      permitted the other's relay. */
  lemma ConsentSuffices(m: Allocs, a: Addr, b: Addr, data: seq<byte>, now: Time)
    requires Distinct(m) && a in m && b in m && m[b].client == b
    ensures DoSend(m, a, Some(m[b].relay), Some(data), now) == Relay(m[a].relay, m[b].relay, data)
         && DoArrive(m, b, m[b].relay, m[a].relay, data, now) == Deliver(b, m[a].relay, data)
      <==> a != b && Live(m, a, now) && Live(m, b, now)
           && m[b].relay in m[a].permissions && m[a].relay in m[b].permissions
  {}

  /** Every Allocated answer promises a lifetime, and the promise is good exactly when the
      client held no live allocation or that one had as long to go anyway: a repeated
      Allocate names the same relay and leaves its expiry where it was. */
  lemma AllocateAgain(m: Allocs, src: Addr, bound: Option<Addr>, now: Time)
    ensures var (n, r) := DoAllocate(m, src, bound, now);
      && (Live(m, src, now) ==> r == Allocated(m[src].relay, 600) && n == Retain(m, now) && n[src] == m[src])
      && (r.Allocated? ==>
            && r.lifetime == 600 && Live(n, src, now) && n[src].relay == r.relay
            && (n[src].expires >= now + r.lifetime <==> !Live(m, src, now) || m[src].expires >= now + r.lifetime))
  {}

  /** src asks neither for an allocation nor for more time. */
  predicate Quiet(src: Addr, ops: seq<Op>) {
    forall i | 0 <= i < |ops| ::
      ops[i].Client? && ops[i].src == src ==> !ops[i].req.Allocate? && !ops[i].req.Refresh?
  }

  /** An allocation is neither lost before its time nor does it outlive it, whatever anybody
      else does. */
  lemma {:induction false} LivesUntil(s: Sys, ops: seq<Op>, src: Addr)
    requires Runs(s, ops) && Quiet(src, ops) && src in s.allocs
    ensures var z := After(s, ops);
      && s.now <= z.now && (z.now < s.allocs[src].expires ==> src in z.allocs)
      && (src in z.allocs ==>
            z.allocs[src].expires == s.allocs[src].expires && z.allocs[src].relay == s.allocs[src].relay)
  {
    if ops != [] {
      var before := ops[..|ops| - 1];
      LivesUntil(s, before, src);
      assert Quiet(src, ops) && ops[|ops| - 1] == ops[|before|];
      StaysAt(After(s, before), ops[|ops| - 1], src);
    }
  }

  lemma StaysAt(s: Sys, op: Op, src: Addr)
    requires May(s, op) && Quiet(src, [op])
    ensures var z := Step(s, op);
      && s.now <= z.now
      && (src in s.allocs && z.now < s.allocs[src].expires ==> src in z.allocs)
      && (src in z.allocs ==>
            src in s.allocs && z.allocs[src].expires == s.allocs[src].expires
            && z.allocs[src].relay == s.allocs[src].relay)
  {
    assert [op][0] == op;
    hide Full, OtherAdvertises, DoArrive;
  }

  /** Over every run after an answered Allocate in which the client asks for no more time, its
      relay lives exactly until the end of the lifetime promised to it first. */
  lemma PromiseTheorem(s: Sys, src: Addr, bound: Option<Addr>, now: Time, ops: seq<Op>)
    requires May(s, Client(src, Allocate, bound, now))
    requires DoAllocate(s.allocs, src, bound, now).1.Allocated?
    requires Runs(Step(s, Client(src, Allocate, bound, now)), ops) && Quiet(src, ops)
    ensures var z := After(Step(s, Client(src, Allocate, bound, now)), ops);
      Live(z.allocs, src, z.now)
      <==> z.now < if Live(s.allocs, src, now) then s.allocs[src].expires else now + 600
  {
    LivesUntil(Step(s, Client(src, Allocate, bound, now)), ops, src);
  }

  lemma OneMore(s: Sys, ops: seq<Op>, op: Op)
    requires Runs(s, ops) && May(After(s, ops), op)
    ensures Runs(s, ops + [op]) && After(s, ops + [op]) == Step(After(s, ops), op)
  {
    hide May, Step;
    assert (ops + [op])[..|ops|] == ops && (ops + [op])[|ops|] == op;
  }

  /** An allocation for a newcomer while there is room. */
  lemma Newcomer(m: Allocs, src: Addr, relay: Addr, now: Time)
    requires src !in m && |m| < MAX_ALLOCATIONS_PER_IP && Retain(m, now) == m
    ensures DoAllocate(m, src, Some(relay), now)
         == (m[src := Allocation(relay, {}, src, now + LIFETIME)], Allocated(relay, LIFETIME))
  {
    SubsetSize(OnHost(m, HostOf(src)), m.Keys);
    assert |m.Keys| == |m|;
  }

  /** What the server holds in the run below. */
  function Pair(a: Addr, b: Addr, atA: Addr, atB: Addr, permitted: set<Addr>): Allocs {
    map[a := Allocation(atA, permitted, a, 600), b := Allocation(atB, {}, b, 700)]
  }

  function TwoAllocate(a: Addr, b: Addr, atA: Addr, atB: Addr): seq<Op> {
    [Client(a, Allocate, Some(atA), 0), Client(b, Allocate, Some(atB), 100)]
  }

  lemma TwoAllocated(a: Addr, b: Addr, atA: Addr, atB: Addr)
    requires a != b && atA != atB
    ensures Runs(Start(0), TwoAllocate(a, b, atA, atB))
    ensures After(Start(0), TwoAllocate(a, b, atA, atB)) == Sys(Pair(a, b, atA, atB, {}), {}, [], 100)
  {
    hide DoAllocate, DoPermit, DoSend, DoRefresh;
    var first := Client(a, Allocate, Some(atA), 0);
    OneMore(Start(0), [], first);
    assert [] + [first] == [first];
    Newcomer(map[], a, atA, 0);
    var m := map[a := Allocation(atA, {}, a, 600)];
    OneMore(Start(0), [first], Client(b, Allocate, Some(atB), 100));
    Newcomer(m, b, atB, 100);
    assert m[b := Allocation(atB, {}, b, 700)] == Pair(a, b, atA, atB, {});
    assert [first] + [Client(b, Allocate, Some(atB), 100)] == TwoAllocate(a, b, atA, atB);
  }

  lemma AgainAt300(a: Addr, b: Addr, atA: Addr, atB: Addr, data: seq<byte>)
    requires a != b && atA != atB
    ensures var m := Pair(a, b, atA, atB, {atB});
      && DoPermit(Pair(a, b, atA, atB, {}), a, Some(atB), 200) == (m, Permitted)
      && DoAllocate(m, a, None, 300) == (m, Allocated(atA, 600))
      && DoSend(m, a, Some(atB), Some(data), 500) == Relay(atA, atB, data)
      && DoSend(m, a, Some(atB), Some(data), 650) == Silent
      && DoRefresh(m, a, 650).1 == Rejected(437)
      && Live(m, b, 650)
  {
    var m := Pair(a, b, atA, atB, {atB});
    var none := Pair(a, b, atA, atB, {});
    assert none[b].relay == atB && m[b].relay == atB;
    assert OtherAdvertises(none, a, atB, 200) && {} + {atB} == {atB};
    assert none[a := none[a].(permissions := {atB})] == m;
    assert Retain(m, 300) == m;
  }

  /** A run that breaks the promise. Allocated at 0 and again at 300, the client can send to
      a second one at 500 and no more at 650, with 250 seconds of its later answer to go. */
  lemma PromiseBroken(a: Addr, b: Addr, atA: Addr, atB: Addr, data: seq<byte>)
    requires a != b && atA != atB
    ensures
      var early := TwoAllocate(a, b, atA, atB) + [Client(a, Permit(Some(atB)), None, 200)];
      var ops := early + [Client(a, Allocate, None, 300)];
      var m := After(Start(0), ops).allocs;
      && Runs(Start(0), ops)
      && DoAllocate(After(Start(0), early).allocs, a, None, 300) == (m, Allocated(atA, 600))
      && DoSend(m, a, Some(atB), Some(data), 500) == Relay(atA, atB, data)
      && DoSend(m, a, Some(atB), Some(data), 650) == Silent && Live(m, b, 650)
      && DoRefresh(m, a, 650).1 == Rejected(437)
  {
    hide DoAllocate, DoPermit, DoSend, DoRefresh, Pair, Live;
    TwoAllocated(a, b, atA, atB);
    AgainAt300(a, b, atA, atB, data);
    var early := TwoAllocate(a, b, atA, atB) + [Client(a, Permit(Some(atB)), None, 200)];
    OneMore(Start(0), TwoAllocate(a, b, atA, atB), Client(a, Permit(Some(atB)), None, 200));
    OneMore(Start(0), early, Client(a, Allocate, None, 300));
  }

  /** A client that refreshes in time keeps its relay and permissions for another lifetime; one
      that comes late has lost them. */
  lemma RefreshTheorem(m: Allocs, src: Addr, now: Time, later: Time)
    requires now <= later
    ensures var (n, r) := DoRefresh(m, src, now);
      && (r.Refreshed? <==> Live(m, src, now))
      && (Live(n, src, later) <==> r.Refreshed? && later < now + LIFETIME)
      && (r.Refreshed? ==> n[src].relay == m[src].relay && n[src].permissions == m[src].permissions)
      && (forall c | c != src :: c in n <==> c in m)
      && (forall c | c in m && c != src :: n[c] == m[c])
  {}
}
