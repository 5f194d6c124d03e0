/** The mesh data plane: which links there are, which sources they may use and which one a
    packet takes. */
module Plane {
  import opened Bytes
  import opened Cidr

  type Packet = seq<bv8>

  /** A link's token; its writer channel is known by the same number. */
  type Link = nat

  datatype LinkDeath = LinkDeath(uuid: string, lifetime: Link)

  /** The three tables, with the cancelled tokens and the number of the next link. */
  datatype Tables = Tables(
    routes: map<string, seq<Subnet>>,
    writers: map<string, Link>,
    closes: map<string, Link>,
    cancelled: set<Link>,
    next: Link)

  function NoLinks(): Tables {
    Tables(map[], map[], map[], {}, 0)
  }

  function Unregister(t: Tables, uuid: string): Tables {
    t.(routes := t.routes - {uuid}, writers := t.writers - {uuid}, closes := t.closes - {uuid},
       cancelled := t.cancelled + if uuid in t.closes then {t.closes[uuid]} else {})
  }

  function Register(t0: Tables, uuid: string, routes: seq<Subnet>): Tables {
    var t := Unregister(t0, uuid);
    t.(routes := t.routes[uuid := routes], writers := t.writers[uuid := t.next],
       closes := t.closes[uuid := t.next], next := t.next + 1)
  }

  /** A link's reader or writer fails: it reports its death once and cancels its own token. */
  function Die(t: Tables, link: Link): Tables {
    t.(cancelled := t.cancelled + {link})
  }

  predicate IsCurrentDeath(t: Tables, death: LinkDeath) {
    death.uuid in t.closes && t.closes[death.uuid] == death.lifetime
  }

  // ---------- packets ----------

  function Be32(p: Packet, off: nat): Ip
    requires off + 4 <= |p|
  {
    ((p[off] as bv32) << 24) | ((p[off + 1] as bv32) << 16) | ((p[off + 2] as bv32) << 8) | (p[off + 3] as bv32)
  }

  predicate IsIpv4(p: Packet) {
    |p| >= 20 && p[0] >> 4 == 4
  }

  function Source(p: Packet): Ip
    requires IsIpv4(p)
  {
    Be32(p, 12)
  }

  function Destination(p: Packet): Ip
    requires IsIpv4(p)
  {
    Be32(p, 16)
  }

  /** Section 3.1 of RFC 791: version 4 in the first half-byte, the source in bytes 12 to 15 and the
      destination in bytes 16 to 19, most significant first. */
  lemma PacketLayout(p: Packet)
    ensures IsIpv4(p) <==> |p| >= 20 && 0x40 <= p[0] <= 0x4f
    ensures IsIpv4(p) ==> BytesOf(Source(p)) == p[12..16] && BytesOf(Destination(p)) == p[16..20]
  {
    if |p| >= 20 {
      HighHalf(p[0]);
      WordAt(p, 12);
      WordAt(p, 16);
    }
    hide Be32, BytesOf;
  }

  lemma WordAt(p: Packet, off: nat)
    requires off + 4 <= |p|
    ensures BytesOf(Be32(p, off)) == p[off..off + 4]
  {
    WordBytes(p[off], p[off + 1], p[off + 2], p[off + 3]);
    hide BytesOf;
    assert p[off..off + 4] == [p[off], p[off + 1], p[off + 2], p[off + 3]];
  }

  function BytesOf(ip: Ip): seq<bv8> {
    [((ip >> 24) & 0xff) as bv8, ((ip >> 16) & 0xff) as bv8, ((ip >> 8) & 0xff) as bv8, (ip & 0xff) as bv8]
  }

  lemma HighHalf(b: bv8)
    ensures b >> 4 == 4 <==> 0x40 <= b <= 0x4f
  {}

  lemma WordBytes(a: bv8, b: bv8, c: bv8, d: bv8)
    ensures BytesOf(((a as bv32) << 24) | ((b as bv32) << 16) | ((c as bv32) << 8) | (d as bv32)) == [a, b, c, d]
  {}

  predicate RouteMatches(route: Subnet, dst: Ip)
    requires route.1 <= 32
  {
    And(dst, RouteMask(route.1)) == And(route.0, RouteMask(route.1))
  }

  predicate SourceMatches(route: Subnet, src: Ip) {
    route.1 <= 32 && And(src, SourceMask(route.1)) == And(route.0, SourceMask(route.1))
  }

  /** `route_for` shifts by 32 minus the prefix, so no prefix may be longer. */
  predicate Routable(routes: map<string, seq<Subnet>>) {
    forall u | u in routes :: forall r | r in routes[u] :: r.1 <= 32
  }

  /** The tables agree on who is registered, and the link is each one's own. */
  ghost predicate Valid(t: Tables) {
    && t.routes.Keys == t.writers.Keys == t.closes.Keys
    && t.writers == t.closes
    && (forall u | u in t.closes :: t.closes[u] < t.next)
    && (forall u, v | u in t.closes && v in t.closes && u != v :: t.closes[u] != t.closes[v])
    && (forall l | l in t.cancelled :: l < t.next)
  }

  /** `route` of `uuid` matches, and no matching route has a longer prefix. */
  ghost predicate Longest(routes: map<string, seq<Subnet>>, dst: Ip, uuid: string, prefix: Prefix) {
    && uuid in routes
    && (exists r | r in routes[uuid] :: r.1 == prefix && Contains(r, dst))
    && (forall v | v in routes :: forall r | r in routes[v] && Contains(r, dst) :: r.1 <= prefix)
  }

  /** Among the routes of `done` links and the first `k` of `uuid`. */
  ghost predicate BestSoFar(routes: map<string, seq<Subnet>>, dst: Ip, todo: set<string>, uuid: string, k: nat,
                            best: Option<(Prefix, string)>) {
    match best
    case None =>
      forall v, i | v in routes && 0 <= i < |routes[v]| && (v !in todo || (v == uuid && i < k)) ::
        !Contains(routes[v][i], dst)
    case Some((p, u)) =>
      && u in routes && (exists i | 0 <= i < |routes[u]| :: routes[u][i].1 == p && Contains(routes[u][i], dst))
      && (forall v, i | v in routes && 0 <= i < |routes[v]| && (v !in todo || (v == uuid && i < k))
            && Contains(routes[v][i], dst) :: routes[v][i].1 <= p)
  }

  /** All links with a longest matching route have routes of one length, and no shorter one is. */
  lemma LongestMeans(routes: map<string, seq<Subnet>>, dst: Ip, u: string, p: Prefix, v: string, r: Subnet)
    requires Longest(routes, dst, u, p) && v in routes && r in routes[v] && Contains(r, dst)
    ensures r.1 <= p && (Longest(routes, dst, v, r.1) <==> r.1 == p)
  {}

  lemma MatchIsContains(route: Subnet, dst: Ip)
    requires route.1 <= 32
    ensures RouteMatches(route, dst) <==> Contains(route, dst)
    ensures SourceMatches(route, dst) <==> Contains(route, dst)
  {}

  class MeshPlane {
    var routes: map<string, seq<Subnet>>
    var writers: map<string, Link>
    var closes: map<string, Link>
    var cancelled: set<Link>
    var next: Link

    ghost function View(): Tables
      reads this
    {
      Tables(routes, writers, closes, cancelled, next)
    }

    constructor ()
      ensures View() == NoLinks()
    {
      routes, writers, closes, cancelled, next := map[], map[], map[], {}, 0;
    }

    method UnregisterLink(uuid: string)
      modifies this
      ensures View() == Unregister(old(View()), uuid)
    {
      routes := routes - {uuid};
      writers := writers - {uuid};
      if uuid in closes {
        cancelled := cancelled + {closes[uuid]};
        closes := closes - {uuid};
      } else {
        assert closes - {uuid} == closes;
        assert cancelled + {} == cancelled;
      }
    }

    method RegisterLink(uuid: string, allowed: seq<Subnet>) returns (link: Link)
      modifies this
      ensures View() == Register(old(View()), uuid, allowed) && link == old(next)
    {
      UnregisterLink(uuid);
      link := next;
      next := next + 1;
      routes := routes[uuid := allowed];
      writers := writers[uuid := link];
      closes := closes[uuid := link];
    }

    method IsCurrent(death: LinkDeath) returns (b: bool)
      ensures b == IsCurrentDeath(View(), death)
    {
      b := death.uuid in closes && closes[death.uuid] == death.lifetime;
    }

    /** May the link of `uuid` send this packet? */
    method SourceAllowed(uuid: string, p: Packet) returns (b: bool)
      ensures b <==> (IsIpv4(p) && uuid in routes
                      && exists r | r in routes[uuid] :: r.1 <= 32 && Contains(r, Source(p)))
    {
      if !IsIpv4(p) || uuid !in routes {
        return false;
      }
      var src := Source(p);
      var rs := routes[uuid];
      for k := 0 to |rs|
        invariant forall i | 0 <= i < k :: !(rs[i].1 <= 32 && Contains(rs[i], src))
      {
        if rs[k].1 <= 32 {
          MatchIsContains(rs[k], src);
        }
        if SourceMatches(rs[k], src) {
          return true;
        }
      }
      b := false;
    }

    /** The writer of a link with a longest matching prefix; which of several that tie is left
        to the order of the table. */
    method RouteFor(p: Packet) returns (w: Option<Link>)
      requires Valid(View()) && Routable(routes)
      ensures w.Some? <==> IsIpv4(p) && exists v, r | v in routes && r in routes[v] :: Contains(r, Destination(p))
      ensures w.Some? ==> exists u, prefix ::
        Longest(routes, Destination(p), u, prefix) && writers[u] == w.value
    {
      if !IsIpv4(p) {
        return None;
      }
      var dst := Destination(p);
      var best: Option<(Prefix, string)> := None;
      var todo := routes.Keys;
      while todo != {}
        invariant todo <= routes.Keys
        invariant BestSoFar(routes, dst, todo, "", 0, best)
        decreases |todo|
      {
        var uuid :| uuid in todo;
        best := BestOf(uuid, dst, todo, best);
        todo := todo - {uuid};
      }
      if best.None? {
        return None;
      }
      Settled(routes, dst, best.value.1, best.value.0);
      w := Some(writers[best.value.1]);
    }

    /** The inner loop: the routes of one link. */
    method BestOf(uuid: string, dst: Ip, ghost todo: set<string>, before: Option<(Prefix, string)>)
      returns (best: Option<(Prefix, string)>)
      requires Routable(routes) && uuid in routes && uuid in todo && BestSoFar(routes, dst, todo, "", 0, before)
      ensures BestSoFar(routes, dst, todo - {uuid}, "", 0, best)
    {
      hide BestSoFar, Contains, RouteMatches;
      best := before;
      var rs := routes[uuid];
      BestBegins(routes, dst, todo, uuid, best);
      for k := 0 to |rs|
        invariant BestSoFar(routes, dst, todo, uuid, k, best)
      {
        assert rs[k] in rs;
        MatchIsContains(rs[k], dst);
        BestGrows(routes, dst, todo, uuid, k, best);
        if RouteMatches(rs[k], dst) && (best.None? || rs[k].1 > best.value.0) {
          best := Some((rs[k].1, uuid));
        }
      }
      BestEnds(routes, dst, todo, uuid, best);
    }
  }

  lemma BestBegins(routes: map<string, seq<Subnet>>, dst: Ip, todo: set<string>, uuid: string,
                   best: Option<(Prefix, string)>)
    requires uuid in todo && BestSoFar(routes, dst, todo, "", 0, best)
    ensures BestSoFar(routes, dst, todo, uuid, 0, best)
  {}

  /** One route more: it wins if it matches and is longer. */
  lemma BestGrows(routes: map<string, seq<Subnet>>, dst: Ip, todo: set<string>, uuid: string, k: nat,
                  best: Option<(Prefix, string)>)
    requires uuid in routes && uuid in todo && k < |routes[uuid]| && BestSoFar(routes, dst, todo, uuid, k, best)
    ensures var r := routes[uuid][k];
      BestSoFar(routes, dst, todo, uuid, k + 1,
        if Contains(r, dst) && (best.None? || r.1 > best.value.0) then Some((r.1, uuid)) else best)
  {}

  lemma BestEnds(routes: map<string, seq<Subnet>>, dst: Ip, todo: set<string>, uuid: string,
                 best: Option<(Prefix, string)>)
    requires uuid in routes && uuid in todo && BestSoFar(routes, dst, todo, uuid, |routes[uuid]|, best)
    ensures BestSoFar(routes, dst, todo - {uuid}, "", 0, best)
  {}

  lemma Settled(routes: map<string, seq<Subnet>>, dst: Ip, uuid: string, prefix: Prefix)
    requires BestSoFar(routes, dst, {}, "", 0, Some((prefix, uuid)))
    ensures Longest(routes, dst, uuid, prefix)
    ensures exists v, r | v in routes && r in routes[v] :: Contains(r, dst)
  {}

  // ---------- over every sequence of registrations ----------

  datatype Op = Add(uuid: string, routes: seq<Subnet>) | Drop(uuid: string) | Fail(uuid: string)

  function Step(t: Tables, op: Op): Tables {
    match op
    case Add(uuid, routes) => Register(t, uuid, routes)
    case Drop(uuid) => Unregister(t, uuid)
    case Fail(uuid) => if uuid in t.closes then Die(t, t.closes[uuid]) else t
  }

  function After(t: Tables, ops: seq<Op>): Tables {
    if ops == [] then t else Step(After(t, ops[..|ops| - 1]), ops[|ops| - 1])
  }

  lemma StepKeeps(t: Tables, op: Op)
    requires Valid(t)
    ensures Valid(Step(t, op)) && t.next <= Step(t, op).next
  {}

  lemma {:induction false} RunKeeps(t: Tables, ops: seq<Op>)
    requires Valid(t)
    ensures Valid(After(t, ops)) && t.next <= After(t, ops).next
  {
    if ops != [] {
      RunKeeps(t, ops[..|ops| - 1]);
      StepKeeps(After(t, ops[..|ops| - 1]), ops[|ops| - 1]);
    }
  }

  /** The tables never disagree, and a link, once it has been replaced or removed, is not
      taken for current again. */
  lemma DeathTheorem(ops: seq<Op>, more: seq<Op>, death: LinkDeath)
    requires var t := After(NoLinks(), ops);
      death.lifetime < t.next && !IsCurrentDeath(t, death)
    ensures Valid(After(After(NoLinks(), ops), more))
    ensures !IsCurrentDeath(After(After(NoLinks(), ops), more), death)
  {
    RunKeeps(NoLinks(), ops);
    RunKeeps(After(NoLinks(), ops), more);
    StaysDead(After(NoLinks(), ops), more, death);
  }

  lemma {:induction false} StaysDead(t: Tables, ops: seq<Op>, death: LinkDeath)
    requires Valid(t) && death.lifetime < t.next && !IsCurrentDeath(t, death)
    ensures !IsCurrentDeath(After(t, ops), death)
  {
    if ops != [] {
      RunKeeps(t, ops[..|ops| - 1]);
      StaysDead(t, ops[..|ops| - 1], death);
    }
  }
}
