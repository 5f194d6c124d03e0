/** Admission over every run: the limits hold, and within a room names and virtual
    addresses are never shared. */
module RoomTheorems {
  import opened Bytes
  import opened Sets
  import opened RoomSpec
  import opened RelaySpec
  import opened RoomSystem

  ghost predicate DistinctNames(r: Room) {
    forall g, h | g in r.guests && h in r.guests && g != h :: r.guests[g].name != r.guests[h].name
  }

  ghost predicate DistinctAddresses(r: Room) {
    forall g, h | g in r.guests && h in r.guests && g != h ::
      r.guests[g].vnetIp.Some? ==> r.guests[g].vnetIp != r.guests[h].vnetIp
  }

  /** With a pool, an address comes from it and belongs to one device for good. */
  ghost predicate Pooled(r: Room) {
    && (r.guestIps == [] ==> r.assignments == map[])
    && (forall u, v | u in r.assignments && v in r.assignments && u != v :: r.assignments[u] != r.assignments[v])
    && (forall u | u in r.assignments :: r.assignments[u] in r.guestIps)
    && (r.guestIps != [] ==>
          forall g | g in r.guests && r.guests[g].vnetIp.Some? ::
            g in r.assignments && r.assignments[g] == r.guests[g].vnetIp.value)
  }

  /** The host keeps its address, provided it did not put it into the pool. */
  ghost predicate HostApart(r: Room) {
    r.tunIp.Some? && r.tunIp.value !in r.guestIps ==>
      forall g | g in r.guests :: r.guests[g].vnetIp != r.tunIp
  }

  ghost predicate RoomOk(r: Room, lim: Limits) {
    DistinctNames(r) && DistinctAddresses(r) && Pooled(r) && HostApart(r) && Members(r) <= lim.members
  }

  ghost predicate Inv(s: Server, lim: Limits) {
    && |s.rooms| <= lim.rooms && Total(s.rooms) <= lim.total
    && forall id | id in s.rooms :: RoomOk(s.rooms[id], lim)
  }

  // ---------- one room ----------

  lemma {:induction false} FirstFreeMeans(pool: seq<string>, taken: set<string>)
    ensures match FirstFree(pool, taken)
      case None => forall ip | ip in pool :: ip in taken
      case Some(ip) => ip in pool && ip !in taken
  {
    if pool != [] {
      FirstFreeMeans(pool[1..], taken);
    }
  }

  lemma NamesStay(r: Room, req: JoinRequest)
    requires DistinctNames(r)
    ensures DistinctNames(Admit(r, req).0)
  {}

  lemma AssignMeans(r: Room, req: JoinRequest)
    requires Pooled(r)
    ensures var (m, ip) := Assign(r, req);
      && (r.guestIps == [] ==> m == r.assignments && ip == req.requested)
      && (r.guestIps != [] ==>
            (ip.Some? ==> req.visitor.Some? && GuestId(req) in m && m[GuestId(req)] == ip.value))
      && (forall u | u in m :: u in r.assignments || (u == GuestId(req) && Some(m[u]) == ip))
      && (forall u | u in r.assignments :: u in m && m[u] == r.assignments[u])
      && Pooled(r.(assignments := m))
  {
    FirstFreeMeans(r.guestIps, r.assignments.Values);
  }

  lemma AddressesStay(r: Room, req: JoinRequest)
    requires Pooled(r) && DistinctAddresses(r)
    requires req.requested.Some? ==> !Clashes(r, req, req.requested.value)
    ensures Pooled(Admit(r, req).0) && DistinctAddresses(Admit(r, req).0)
  {
    AssignMeans(r, req);
    hide Assign, FreeName, BaseName, TakenNames;
    var uuid := GuestId(req);
    var q := Admit(r, req).0;
    if r.guestIps == [] {
      forall g | g in q.guests && g != uuid && q.guests[uuid].vnetIp.Some?
        ensures q.guests[g].vnetIp != q.guests[uuid].vnetIp
      {
        assert g in r.guests && req.visitor != Some(g);
      }
    }
  }

  lemma HostStays(r: Room, req: JoinRequest)
    requires Pooled(r) && HostApart(r)
    requires req.requested.Some? ==> !Clashes(r, req, req.requested.value)
    ensures HostApart(Admit(r, req).0)
  {
    AssignMeans(r, req);
    hide Assign, FreeName, BaseName, TakenNames;
  }

  lemma AdmitKeeps(r: Room, req: JoinRequest, lim: Limits)
    requires RoomOk(r, lim) && (GuestId(req) !in r.guests ==> Members(r) < lim.members)
    requires req.requested.Some? ==> !Clashes(r, req, req.requested.value)
    ensures RoomOk(Admit(r, req).0, lim)
    ensures Members(Admit(r, req).0) == Members(r) + if GuestId(req) in r.guests then 0 else 1
  {
    hide DistinctNames, DistinctAddresses, Pooled, HostApart, Assign, FreeName, Clashes;
    NamesStay(r, req);
    AddressesStay(r, req);
    HostStays(r, req);
    InsertSize(r.guests, GuestId(req), Admit(r, req).0.guests[GuestId(req)]);
  }

  // ---------- the server ----------

  lemma {:induction false} TotalSubmap(a: Rooms, b: Rooms)
    requires forall id | id in a :: id in b && a[id] == b[id]
    ensures Total(a) <= Total(b)
    decreases |b|
  {
    if b == map[] {
      assert a == map[];
    } else {
      var id :| id in b;
      TotalWithout(b, id);
      InsertSize(b - {id}, id, b[id]);
      assert (b - {id})[id := b[id]] == b;
      TotalSubmap(a - {id}, b - {id});
      if id in a {
        TotalWithout(a, id);
      } else {
        assert a - {id} == a;
      }
    }
  }

  lemma SubmapKeeps(s: Server, s': Server, lim: Limits)
    requires Inv(s, lim)
    requires forall id | id in s'.rooms :: id in s.rooms && s'.rooms[id] == s.rooms[id]
    ensures Inv(s', lim)
  {
    hide RoomOk;
    SubmapSize(s'.rooms, s.rooms);
    TotalSubmap(s'.rooms, s.rooms);
  }

  lemma UpdateKeeps(s: Server, s': Server, id: string, r: Room, lim: Limits)
    requires Inv(s, lim) && s'.rooms == s.rooms[id := r] && RoomOk(r, lim)
    requires id !in s.rooms ==> |s.rooms| < lim.rooms
    requires Total(s.rooms) + Members(r) <= lim.total + if id in s.rooms then Members(s.rooms[id]) else 0
    ensures Inv(s', lim)
  {
    hide RoomOk, Total, Members;
    InsertSize(s.rooms, id, r);
    TotalInsert(s.rooms, id, r);
  }

  lemma RetainKeeps(s: Server, now: nat, lim: Limits)
    requires Inv(s, lim)
    ensures Inv(Retain(s, now), lim)
  {
    hide Inv;
    SubmapKeeps(s, Retain(s, now), lim);
  }

  lemma NewRoomOk(req: CreateRequest, owner: string, token: nat, now: nat, lim: Limits)
    requires lim.Valid()
    ensures var r := NewRoom(req, owner, token, now);
      RoomOk(r, lim) && Members(r) == 1
  {}

  lemma ClearedOk(r: Room, q: Room, lim: Limits)
    requires RoomOk(r, lim) && q.guests == map[]
    requires q.tunIp == r.tunIp && q.guestIps == r.guestIps && q.assignments == r.assignments
    ensures RoomOk(q, lim) && Members(q) <= Members(r)
  {}

  lemma CreateKeeps(s: Server, lim: Limits, req: CreateRequest, draws: seq<string>, owner: string, now: nat)
    requires Inv(s, lim) && lim.Valid() && draws != []
    ensures Inv(Create(s, lim, req, draws, owner, now).0, lim)
  {
    hide PickId, GoodMetadata, Total, NewRoom, RoomOk, Retain, Members;
    var t := Retain(s, now);
    RetainKeeps(s, now, lim);
    var (u, res) := Create(s, lim, req, draws, owner, now);
    if res.Ok? {
      NewRoomOk(req, owner, t.next, now, lim);
      UpdateKeeps(t, u, res.value, NewRoom(req, owner, t.next, now), lim);
    }
  }

  lemma JoinKeeps(s: Server, lim: Limits, id: string, req: JoinRequest, now: nat)
    requires Inv(s, lim)
    ensures Inv(Join(s, lim, id, req, now).0, lim)
  {
    hide Admit, Clashes, GoodMember, RoomOk, Total, Retain;
    var t := Retain(s, now);
    RetainKeeps(s, now, lim);
    var (u, res) := Join(s, lim, id, req, now);
    if res.Ok? {
      var r := t.rooms[id];
      TotalWithout(t.rooms, id);
      RoomBound(r, lim);
      AdmitKeeps(r, req, lim);
      UpdateKeeps(t, u, id, Admit(r, req).0, lim);
    }
  }

  lemma RoomBound(r: Room, lim: Limits)
    requires RoomOk(r, lim)
    ensures Members(r) <= lim.members
  {}

  lemma SecureKeeps(s: Server, lim: Limits, id: string, owner: string, secret: string)
    requires Inv(s, lim) && lim.Valid()
    ensures Inv(Secure(s, id, owner, secret).0, lim)
  {
    hide Total, Pending, RoomOk, Members;
    var (u, res) := Secure(s, id, owner, secret);
    if res.Ok? {
      ClearedOk(s.rooms[id], u.rooms[id], lim);
      UpdateKeeps(s, u, id, u.rooms[id], lim);
    }
  }

  lemma SlotsOnly(s: Server, s': Server, id: string, r: Room, lim: Limits)
    requires Inv(s, lim) && id in s.rooms && SameMembers(s.rooms[id], r) && s'.rooms == s.rooms[id := r]
    ensures Inv(s', lim)
  {
    SameOk(s.rooms[id], r, lim);
    hide RoomOk, Total;
    UpdateKeeps(s, s', id, r, lim);
  }

  lemma SameOk(r: Room, q: Room, lim: Limits)
    requires RoomOk(r, lim) && SameMembers(r, q)
    ensures RoomOk(q, lim) && Members(q) == Members(r)
  {}

  /** Relay handlers touch nothing but slots. */
  lemma ArriveKeeps(s: Server, lim: Limits, conn: Conn, now: nat)
    requires Inv(s, lim)
    ensures Inv(Arrive(s, conn, now).0, lim)
  {
    hide Inv, Waiting, Vacate, SameMembers;
    if conn.room in s.rooms {
      var q := Vacate(s.rooms[conn.room], Opposite(conn.role), conn.uuid);
      VacateKeeps(s.rooms[conn.room], Opposite(conn.role), conn.uuid);
      if Arrive(s, conn, now).1.Paired? {
        SlotsOnly(s, Arrive(s, conn, now).0, conn.room, q, lim);
      }
    }
  }

  lemma ParkKeeps(s: Server, lim: Limits, conn: Conn, token: nat, now: nat)
    requires Inv(s, lim)
    ensures Inv(Park(s, conn, token, now).0, lim)
  {
    hide Inv, Waiting, Vacate, Occupy, SameMembers;
    if conn.room in s.rooms {
      var r := s.rooms[conn.room];
      var (u, o) := Park(s, conn, token, now);
      VacateKeeps(r, Opposite(conn.role), conn.uuid);
      OccupyKeeps(r, conn.role, conn.uuid, conn.id);
      if o.Paired? {
        SlotsOnly(s, u, conn.room, Vacate(r, Opposite(conn.role), conn.uuid), lim);
      } else if o.Parked? {
        SlotsOnly(s, u, conn.room, Occupy(r, conn.role, conn.uuid, conn.id), lim);
      }
    }
  }

  lemma LeaveKeeps(s: Server, lim: Limits, conn: Conn)
    requires Inv(s, lim)
    ensures Inv(Leave(s, conn), lim)
  {
    hide Inv, Waiting, Vacate, SameMembers;
    if conn.room in s.rooms && Waiting(s.rooms[conn.room], conn.role, conn.uuid) == Some(conn.id) {
      VacateKeeps(s.rooms[conn.room], conn.role, conn.uuid);
      SlotsOnly(s, Leave(s, conn), conn.room, Vacate(s.rooms[conn.room], conn.role, conn.uuid), lim);
    }
  }

  lemma StepKeeps(x: Sys, lim: Limits, op: Op)
    requires Inv(x.s, lim) && lim.Valid()
    ensures Inv(Step(x, lim, op).s, lim)
  {
    hide Inv, Create, Join, Lookup, Renew, Secure, Delete, Arrive, Park, Leave, Lapsing, Dropping;
    match op {
      case CreateOp(req, draws, owner, now) =>
        if draws != [] {
          CreateKeeps(x.s, lim, req, draws, owner, now);
        }
      case JoinOp(id, req, now) => JoinKeeps(x.s, lim, id, req, now);
      case LookupOp(id, now) =>
        LookupIs(x.s, id, "", now);
        ForgettingKeeps(x.s, Lookup(x.s, id, now).0, lim, id);
      case RenewOp(id, owner, now) =>
        LookupIs(x.s, id, owner, now);
        ForgettingKeeps(x.s, Renew(x.s, id, owner, now).0, lim, id);
      case SecureOp(id, owner, secret) => SecureKeeps(x.s, lim, id, owner, secret);
      case DeleteOp(id, owner) => DeleteKeeps(x.s, lim, id, owner);
      case ArriveOp(conn, now) => ArriveKeeps(x.s, lim, conn, now);
      case ParkOp(k, now) =>
        if k in x.handlers && x.handlers[k].stage.Told? {
          ParkKeeps(x.s, lim, x.handlers[k].conn, x.handlers[k].token, now);
        }
      case TimeoutOp(k) =>
        if k in x.handlers && x.handlers[k].stage.InSlot? {
          LeaveKeeps(x.s, lim, x.handlers[k].conn);
        }
    }
  }

  lemma LookupIs(s: Server, id: string, owner: string, now: nat)
    ensures Lookup(s, id, now).0 == s || (id in s.rooms && Lookup(s, id, now).0 == Forget(s, id))
    ensures Renew(s, id, owner, now).0 == s || (id in s.rooms && Renew(s, id, owner, now).0 == Forget(s, id))
  {}

  lemma ForgettingKeeps(s: Server, t: Server, lim: Limits, id: string)
    requires Inv(s, lim) && (t == s || (id in s.rooms && t == Forget(s, id)))
    ensures Inv(t, lim)
  {
    hide Inv;
    SubmapKeeps(s, t, lim);
  }

  lemma DeleteKeeps(s: Server, lim: Limits, id: string, owner: string)
    requires Inv(s, lim)
    ensures Inv(Delete(s, id, owner).0, lim)
  {
    hide Inv;
    SubmapKeeps(s, Delete(s, id, owner).0, lim);
  }

  lemma {:induction false} RunKeeps(x: Sys, lim: Limits, ops: seq<Op>)
    requires Inv(x.s, lim) && lim.Valid()
    ensures Inv(After(x, lim, ops).s, lim)
  {
    if ops != [] {
      hide Inv, Step;
      RunKeeps(x, lim, ops[..|ops| - 1]);
      StepKeeps(After(x, lim, ops[..|ops| - 1]), lim, ops[|ops| - 1]);
    }
  }

  // ---------- the theorems ----------

  /** In every run the three limits hold, and in every room no two guests share a display
      name or a virtual address, nor does one hold the host's unless the host offered it. */
  lemma AdmissionTheorem(lim: Limits, ops: seq<Op>)
    requires lim.Valid()
    ensures var s := After(Start(), lim, ops).s;
      && |s.rooms| <= lim.rooms <= 1024 && Total(s.rooms) <= lim.total <= 33792 && lim.members <= 33
      && forall id | id in s.rooms ::
           var r := s.rooms[id];
           && 1 + |r.guests| <= lim.members && DistinctNames(r) && DistinctAddresses(r) && HostApart(r)
  {
    RunKeeps(Start(), lim, ops);
  }

  /** Limits never turn away a guest already in the room, and nobody else is touched. */
  lemma ReconnectAdmitted(s: Server, lim: Limits, id: string, req: JoinRequest, now: nat)
    requires id in s.rooms && !Expired(s.rooms[id], now) && GuestId(req) in s.rooms[id].guests
    requires GoodMember(req) && req.requested.None?
    ensures var (t, j) := Join(s, lim, id, req, now);
      && j.Ok? && id in t.rooms
      && t.rooms[id].guests.Keys == s.rooms[id].guests.Keys
      && (forall g | g in s.rooms[id].guests && g != GuestId(req) :: t.rooms[id].guests[g] == s.rooms[id].guests[g])
      && (forall other | other in t.rooms && other != id :: other in s.rooms && t.rooms[other] == s.rooms[other])
  {}

  /** A device that returns to a room with a pool is given the address it had. */
  lemma ReturnsToItsAddress(r: Room, req: JoinRequest)
    requires Pooled(r) && req.visitor.Some? && req.visitor.value in r.assignments
    ensures Admit(r, req).1.address == Some(r.assignments[req.visitor.value])
    ensures Admit(r, req).0.assignments == r.assignments
  {}

  /** The display name is the one asked for, or the first free one with a suffix. */
  lemma NameMeans(base: string, taken: set<string>)
    ensures FreeName(base, taken) == base <==> base !in taken
    ensures base in taken ==>
      exists n | 2 <= n <= |taken| + 1 ::
        FreeName(base, taken) == Suffixed(base, n) && Suffixed(base, n) !in taken
        && forall i | 2 <= i < n :: Suffixed(base, i) in taken
  {
    if base in taken {
      TriedBase(base);
      SuffixMeans(base, taken, 2);
    }
  }

  lemma {:induction false} SuffixMeans(base: string, taken: set<string>, n: nat)
    requires n >= 2 && Tried(base, n) <= taken
    ensures exists k | n <= k <= |taken| + 1 ::
      FreeSuffix(base, taken, n) == Suffixed(base, k) && Suffixed(base, k) !in taken
      && forall i | 2 <= i < k :: Suffixed(base, i) in taken
    decreases |taken| + 1 - n
  {
    hide Suffixed;
    TriedFew(base, taken, n);
    TriedNext(base, n);
    forall i | 2 <= i < n ensures Suffixed(base, i) in taken {
      assert Suffixed(base, i) in Tried(base, n);
    }
    if Suffixed(base, n) in taken {
      TriedFew(base, taken, n + 1);
      SuffixMeans(base, taken, n + 1);
    }
  }

  // ---------- the host's address ----------

  /** ip is the first address of the pool that nobody was assigned. */
  predicate NextFree(pool: seq<string>, taken: set<string>, ip: string) {
    ip !in taken && exists i :: 0 <= i < |pool| && pool[i] == ip && forall k | 0 <= k < i :: pool[k] in taken
  }

  lemma {:induction false} FirstFreeIs(pool: seq<string>, taken: set<string>, ip: string)
    ensures FirstFree(pool, taken) == Some(ip) <==> NextFree(pool, taken, ip)
  {
    if pool != [] {
      FirstFreeIs(pool[1..], taken, ip);
      if pool[0] in taken {
        if i :| 0 <= i < |pool| && pool[i] == ip && forall k | 0 <= k < i :: pool[k] in taken {
          if ip !in taken {
            assert pool[1..][i - 1] == ip && forall k | 0 <= k < i - 1 :: pool[1..][k] in taken;
          }
        }
        if j :| 0 <= j < |pool[1..]| && pool[1..][j] == ip && forall k | 0 <= k < j :: pool[1..][k] in taken {
          assert pool[j + 1] == ip && forall k | 0 <= k < j + 1 :: pool[k] in taken by {
            forall k | 0 < k < j + 1 ensures pool[k] in taken {
              assert pool[k] == pool[1..][k - 1];
            }
          }
        }
      } else if NextFree(pool, taken, ip) {
        var i :| 0 <= i < |pool| && pool[i] == ip && forall k | 0 <= k < i :: pool[k] in taken;
        assert i == 0;
      }
    }
  }

  /** What the server demands of a join, in a room with `total` members on the server. */
  predicate Admissible(r: Room, total: nat, lim: Limits, req: JoinRequest) {
    && GoodMember(req)
    && (GuestId(req) !in r.guests ==> total < lim.total && Members(r) < lim.members)
    && (req.requested.Some? ==> !Clashes(r, req, req.requested.value))
  }

  /** When a room with a pool gives the host's own address to a guest: to the device that has
      it already, or to a new one that requests no other free address of the pool, when all
      the pool lists before it is assigned. */
  predicate GivesHostAddress(r: Room, req: JoinRequest) {
    && r.tunIp.Some? && req.visitor.Some?
    && var taken := r.assignments.Values;
       if req.visitor.value in r.assignments then r.assignments[req.visitor.value] == r.tunIp.value
       else
         && NextFree(r.guestIps, taken, r.tunIp.value)
         && !(req.requested.Some? && req.requested.value in r.guestIps && req.requested.value !in taken)
  }

  lemma HostAddressGiven(s: Server, lim: Limits, id: string, req: JoinRequest, now: nat)
    requires id in s.rooms && !Expired(s.rooms[id], now)
    requires s.rooms[id].guestIps != [] && s.rooms[id].tunIp.Some?
    ensures var (r, j) := (s.rooms[id], Join(s, lim, id, req, now).1);
      j.Ok? && j.value.address == r.tunIp
      <==> Admissible(r, Total(Retain(s, now).rooms), lim, req) && GivesHostAddress(r, req)
  {
    var r := s.rooms[id];
    FirstFreeIs(r.guestIps, r.assignments.Values, r.tunIp.value);
    hide NextFree, FirstFree, FreeName, Total, BaseName, TakenNames, GoodMember, Expired;
  }

  /** A device that joins without wishes. */
  function Newcomer(visitor: string): JoinRequest {
    JoinRequest(Some(visitor), None, None, false, "h", "h:1", [], [])
  }

  ghost function Joins(s: Server, lim: Limits, id: string, visitors: seq<string>, now: nat): Server
    decreases |visitors|
  {
    if visitors == [] then s else Joins(Join(s, lim, id, Newcomer(visitors[0]), now).0, lim, id, visitors[1..], now)
  }

  /** Where the pool lists, before position n, addresses nobody was assigned. */
  function FreeBefore(r: Room, n: nat): set<nat>
    requires n <= |r.guestIps|
  {
    set i | 0 <= i < n && r.guestIps[i] !in r.assignments.Values
  }

  predicate Strangers(r: Room, visitors: seq<string>) {
    && (forall i | 0 <= i < |visitors| ::
          GoodMember(Newcomer(visitors[i])) && visitors[i] !in r.guests && visitors[i] !in r.assignments)
    && (forall i, j | 0 <= i < j < |visitors| :: visitors[i] != visitors[j])
  }

  /** One stranger joins: it is given the first free address. */
  lemma StrangerJoins(s: Server, lim: Limits, id: string, v: string, now: nat)
    requires id in s.rooms && !Expired(s.rooms[id], now)
    requires Strangers(s.rooms[id], [v]) && s.rooms[id].guestIps != []
    requires Members(s.rooms[id]) < lim.members && Total(s.rooms) < lim.total
    ensures var (r, t) := (s.rooms[id], Join(s, lim, id, Newcomer(v), now).0);
      var ip := FirstFree(r.guestIps, r.assignments.Values);
      && id in t.rooms
      && var q := t.rooms[id];
         && v in q.guests && q.guests[v].vnetIp == ip && q.guests == r.guests[v := q.guests[v]]
         && q == r.(guests := q.guests, assignments := if ip.Some? then r.assignments[v := ip.value] else r.assignments)
         && Members(q) == Members(r) + 1 && Total(t.rooms) <= Total(s.rooms) + 1
  {
    var (r, kept, req) := (s.rooms[id], Retain(s, now), Newcomer(v));
    TotalSubmap(kept.rooms, s.rooms);
    var q := Admit(r, req).0;
    assert v == [v][0];
    InsertSize(r.guests, v, q.guests[v]);
    TotalInsert(kept.rooms, id, q);
    hide Total, FirstFree, Clashes, FreeName;
  }

  /** A room whose pool lists the host's address does give it away: to one of any strangers
      that join without wishes, as soon as they outnumber the free addresses listed before it
      and the limits leave room for them. */
  lemma {:induction false} PoolReachesHost(s: Server, lim: Limits, id: string, visitors: seq<string>, now: nat, n: nat)
    requires id in s.rooms && !Expired(s.rooms[id], now) && s.rooms[id].tunIp.Some?
    requires n < |s.rooms[id].guestIps| && s.rooms[id].guestIps[n] == s.rooms[id].tunIp.value
    requires s.rooms[id].tunIp.value !in s.rooms[id].assignments.Values
    requires Strangers(s.rooms[id], visitors) && |FreeBefore(s.rooms[id], n)| < |visitors|
    requires Members(s.rooms[id]) + |visitors| <= lim.members && Total(s.rooms) + |visitors| <= lim.total
    ensures var t := Joins(s, lim, id, visitors, now);
      && id in t.rooms
      && exists v :: v in visitors && v in t.rooms[id].guests && t.rooms[id].guests[v].vnetIp == s.rooms[id].tunIp
    decreases |visitors|
  {
    hide Total, Join, Members, FirstFree, GoodMember;
    var (r, v, rest) := (s.rooms[id], visitors[0], visitors[1..]);
    assert [v][0] == visitors[0];
    StrangerJoins(s, lim, id, v, now);
    var t := Join(s, lim, id, Newcomer(v), now).0;
    var q := t.rooms[id];
    FirstFreeMeans(r.guestIps, r.assignments.Values);
    var ip := FirstFree(r.guestIps, r.assignments.Values);
    assert r.guestIps[n] in r.guestIps;
    if ip == r.tunIp {
      GuestStays(t, lim, id, rest, now, v);
    } else {
      FirstFreeIs(r.guestIps, r.assignments.Values, ip.value);
      FewerBefore(r, q, v, ip.value, n);
      assert forall i | 0 <= i < |rest| :: rest[i] == visitors[i + 1];
      PoolReachesHost(t, lim, id, rest, now, n);
      assert forall u | u in rest :: u in visitors;
    }
  }

  lemma FewerBefore(r: Room, q: Room, v: string, ip: string, n: nat)
    requires n < |r.guestIps| && q.guestIps == r.guestIps && v !in r.assignments
    requires q.assignments == r.assignments[v := ip] && NextFree(r.guestIps, r.assignments.Values, ip)
    requires r.guestIps[n] !in r.assignments.Values && r.guestIps[n] != ip
    ensures |FreeBefore(q, n)| < |FreeBefore(r, n)| && q.guestIps[n] !in q.assignments.Values
  {
    assert q.assignments.Values == r.assignments.Values + {ip} by {
      assert q.assignments[v] == ip;
      forall u | u in r.assignments ensures r.assignments[u] in q.assignments.Values {
        assert q.assignments[u] == r.assignments[u];
      }
    }
    var i :| 0 <= i < |r.guestIps| && r.guestIps[i] == ip && forall k | 0 <= k < i :: r.guestIps[k] in r.assignments.Values;
    assert i in FreeBefore(r, n) && i !in FreeBefore(q, n);
    assert FreeBefore(q, n) <= FreeBefore(r, n) - {i};
    SubsetSize(FreeBefore(q, n), FreeBefore(r, n) - {i});
  }

  lemma OthersStay(s: Server, lim: Limits, id: string, v: string, now: nat, g: string)
    requires id in s.rooms && !Expired(s.rooms[id], now) && g in s.rooms[id].guests && g != v
    ensures var t := Join(s, lim, id, Newcomer(v), now).0;
      && id in t.rooms && !Expired(t.rooms[id], now)
      && g in t.rooms[id].guests && t.rooms[id].guests[g] == s.rooms[id].guests[g]
  {
    hide Total, FreeName, Assign, GoodMember, Clashes;
  }

  lemma {:induction false} GuestStays(s: Server, lim: Limits, id: string, visitors: seq<string>, now: nat, g: string)
    requires id in s.rooms && !Expired(s.rooms[id], now) && g in s.rooms[id].guests && g !in visitors
    ensures var t := Joins(s, lim, id, visitors, now);
      id in t.rooms && g in t.rooms[id].guests && t.rooms[id].guests[g] == s.rooms[id].guests[g]
    decreases |visitors|
  {
    hide Join, Expired;
    if visitors != [] {
      OthersStay(s, lim, id, visitors[0], now, g);
      GuestStays(Join(s, lim, id, Newcomer(visitors[0]), now).0, lim, id, visitors[1..], now, g);
    }
  }

  /** A run in which it happens. */
  lemma HostAddressRun(lim: Limits, host: string)
    requires lim.Valid() && lim.total >= 2
    ensures var ops := [CreateOp(CreateRequest("", 60, Some(host), [], [], [host]), ["r"], "owner", 0),
                        JoinOp("r", Newcomer("v"), 0)];
      var s := After(Start(), lim, ops).s;
      && "r" in s.rooms && "v" in s.rooms["r"].guests && s.rooms["r"].guests["v"].vnetIp == s.rooms["r"].tunIp == Some(host)
  {
    var req := CreateRequest("", 60, Some(host), [], [], [host]);
    var (c, j) := (CreateOp(req, ["r"], "owner", 0), JoinOp("r", Newcomer("v"), 0));
    hide *;
    FirstRoom(lim, host);
    var x := Step(Start(), lim, c);
    TwoSteps(Start(), lim, c, j);
    FirstGuest(x.s, lim, host);
    JoinStep(x, lim, "r", Newcomer("v"), 0);
  }

  lemma TwoSteps(x: Sys, lim: Limits, a: Op, b: Op)
    ensures After(x, lim, [a, b]) == Step(Step(x, lim, a), lim, b)
  {
    hide Step;
    assert [a, b][..1] == [a] && [a][..0] == [];
    assert After(x, lim, [a]) == Step(x, lim, a);
  }

  lemma JoinStep(x: Sys, lim: Limits, id: string, req: JoinRequest, now: nat)
    ensures Step(x, lim, JoinOp(id, req, now)).s == Join(x.s, lim, id, req, now).0
  {}

  lemma FirstRoom(lim: Limits, host: string)
    requires lim.Valid()
    ensures var req := CreateRequest("", 60, Some(host), [], [], [host]);
      var s := Step(Start(), lim, CreateOp(req, ["r"], "owner", 0)).s;
      s.rooms == map["r" := NewRoom(req, "owner", 0, 0)] && Total(s.rooms) == 1
  {
    assert Retain(Start().s, 0).rooms == map[];
    TotalInsert(map[], "r", NewRoom(CreateRequest("", 60, Some(host), [], [], [host]), "owner", 0, 0));
  }

  lemma FirstGuest(s: Server, lim: Limits, host: string)
    requires lim.Valid() && lim.total >= 2 && Total(s.rooms) == 1
    requires s.rooms == map["r" := NewRoom(CreateRequest("", 60, Some(host), [], [], [host]), "owner", 0, 0)]
    ensures var t := Join(s, lim, "r", Newcomer("v"), 0).0;
      && "r" in t.rooms && "v" in t.rooms["r"].guests && t.rooms["r"].guests["v"].vnetIp == t.rooms["r"].tunIp == Some(host)
  {
    hide Total;
    StrangerJoins(s, lim, "r", "v", 0);
    FirstOfOne(host);
  }

  lemma FirstOfOne(host: string)
    ensures FirstFree([host], {}) == Some(host)
  {}
}
