/** What the signaling server answers to each HTTP request and what it leaves of its rooms, in
    terms of the rooms not yet expired and the people in them. */
module RoomAnswers {
  import opened Bytes
  import opened Sets
  import opened RoomSpec

  // ---------- counting people ----------

  /** The rooms that have not expired. */
  function Standing(s: Server, now: nat): Rooms {
    map id | id in s.rooms && now < s.rooms[id].expiresAt :: s.rooms[id]
  }

  /** Everybody on the server: each room's host, and its guests. */
  function People(rooms: Rooms): set<(string, Option<string>)> {
    (set id | id in rooms :: (id, None))
    + (set id, g | id in rooms && g in rooms[id].guests :: (id, Some(g)))
  }

  lemma {:induction false} TotalCounts(rooms: Rooms)
    ensures Total(rooms) == |People(rooms)|
    decreases |rooms|
  {
    if rooms == map[] {
      assert People(rooms) == {};
    } else {
      var id :| id in rooms;
      var rest := rooms - {id};
      InsertSize(rest, id, rooms[id]);
      assert rest[id := rooms[id]] == rooms;
      TotalWithout(rooms, id);
      TotalCounts(rest);
      PeopleOf(id, rooms[id].guests.Keys);
      PeopleWith(rooms, id);
      assert |rooms[id].guests| == |rooms[id].guests.Keys|;
      hide People, Here, Total;
      assert |People(rest) + Here(id, rooms[id].guests.Keys)| == |People(rest)| + |Here(id, rooms[id].guests.Keys)|;
    }
  }

  lemma PeopleWith(rooms: Rooms, id: string)
    requires id in rooms
    ensures var here := Here(id, rooms[id].guests.Keys);
      People(rooms) == People(rooms - {id}) + here && People(rooms - {id}) !! here
  {
    var rest := rooms - {id};
    forall p: (string, Option<string>)
      ensures p in People(rooms) <==> p in People(rest) || p in Here(id, rooms[id].guests.Keys)
      ensures !(p in People(rest) && p in Here(id, rooms[id].guests.Keys))
    {
      InPeople(rooms, p);
      InPeople(rest, p);
      assert p.0 in rest ==> rest[p.0] == rooms[p.0];
      assert p in Here(id, rooms[id].guests.Keys) <==> p.0 == id && (p.1.Some? ==> p.1.value in rooms[id].guests) by {
        assert p.1.Some? ==> p == (p.0, Some(p.1.value));
        assert p.1.None? ==> p == (p.0, None);
      }
    }
  }

  lemma InPeople(rooms: Rooms, p: (string, Option<string>))
    ensures p in People(rooms) <==> p.0 in rooms && (p.1.Some? ==> p.1.value in rooms[p.0].guests)
  {
    assert p.1.Some? ==> p == (p.0, Some(p.1.value));
    assert p.1.None? ==> p == (p.0, None);
  }

  function Here(id: string, guests: set<string>): set<(string, Option<string>)> {
    {(id, None)} + (set g | g in guests :: (id, Some(g)))
  }

  lemma {:induction false} PeopleOf(id: string, guests: set<string>)
    ensures |Here(id, guests)| == 1 + |guests|
    decreases guests
  {
    if guests == {} {
      assert Here(id, guests) == {(id, None)};
    } else {
      var g :| g in guests;
      PeopleOf(id, guests - {g});
      assert Here(id, guests) == Here(id, guests - {g}) + {(id, Some(g))};
    }
  }

  // ---------- creating ----------

  /** At most 16 LAN addresses and subnets, 32 addresses to give away, and an id prefix of at most
      24 letters, digits, dashes and underscores. */
  predicate Acceptable(req: CreateRequest) {
    && |req.hostLan| <= 16 && |req.hostSubnets| <= 16 && |req.guestIps| <= 32 && |req.prefix| <= 24
    && forall i | 0 <= i < |req.prefix| ::
         var c := req.prefix[i] as int; 97 <= c <= 122 || 65 <= c <= 90 || 48 <= c <= 57 || c == 45 || c == 95
  }

  lemma AcceptableIs(req: CreateRequest)
    ensures Acceptable(req) <==> GoodMetadata(req)
  {
    assert forall i | 0 <= i < |req.prefix| :: req.prefix[i] in req.prefix;
  }

  /** The first draw no room has, if there is one. */
  ghost predicate FirstFreeDraw(rooms: Rooms, draws: seq<string>, id: string) {
    exists i :: 0 <= i < |draws| && draws[i] == id && id !in rooms && forall j | 0 <= j < i :: draws[j] in rooms
  }

  lemma {:induction false} PickIs(rooms: Rooms, draws: seq<string>)
    requires draws != []
    ensures var id := PickId(rooms, draws);
      if id in rooms then forall i | 0 <= i < |draws| :: draws[i] in rooms else FirstFreeDraw(rooms, draws, id)
  {
    if draws[0] in rooms && |draws| > 1 {
      var rest := draws[1..];
      PickIs(rooms, rest);
      var id := PickId(rooms, rest);
      assert forall i | 0 <= i < |rest| :: rest[i] == draws[i + 1];
      if id in rooms {
        assert forall i | 0 < i < |draws| :: draws[i] == rest[i - 1];
      } else {
        var i :| 0 <= i < |rest| && rest[i] == id && forall j | 0 <= j < i :: rest[j] in rooms;
        assert draws[i + 1] == id && forall j | 0 < j < i + 1 :: draws[j] == rest[j - 1];
      }
    } else {
      assert draws[0] == PickId(rooms, draws);
    }
  }

  function Least(a: nat, b: nat): nat { if a <= b then a else b }

  /** Why a room is not created: the server has as many rooms or people as it may, the lifetime is
      none or over a week, no draw is free, or the request asks for too much, in this order. */
  ghost predicate Declined(kept: Rooms, lim: Limits, req: CreateRequest, draws: seq<string>, why: Refusal) {
    if |kept| >= lim.rooms then why == RoomLimit
    else if |People(kept)| >= lim.total then why == MemberLimit
    else if req.ttl < 1 || req.ttl > 604800 then why == InvalidTtl
    else if forall i | 0 <= i < |draws| :: draws[i] in kept then why == NoFreeId
    else !Acceptable(req) && why == InvalidMetadata
  }

  /** Else it stands under the first free draw, empty, its owner's, for the lifetime asked for. The
      expired rooms are gone either way. */
  lemma CreateAnswers(s: Server, lim: Limits, req: CreateRequest, draws: seq<string>, owner: string, now: nat)
    requires draws != []
    ensures var (t, r) := Create(s, lim, req, draws, owner, now);
      var kept := Standing(s, now);
      && t.cancelled == s.cancelled
      && (if r.Err? then Declined(kept, lim, req, draws, r.reason) && t.rooms == kept && t.next == s.next
          else
            && (forall why :: !Declined(kept, lim, req, draws, why)) && FirstFreeDraw(kept, draws, r.value)
            && t.next == s.next + 1
            && t.rooms == kept[r.value := Room(owner, None, s.next, Least(now + req.ttl, 0xFFFF_FFFF_FFFF_FFFF), req.tunIp,
                                                req.guestIps, map[], map[], None, None, map[], map[])])
  {
    var kept := Standing(s, now);
    StandingIs(s, now);
    TotalCounts(kept);
    AcceptableIs(req);
    PickIs(kept, draws);
    hide Total, GoodMetadata, PickId, People, Acceptable, Retain, Standing;
    if FirstFreeDraw(kept, draws, PickId(kept, draws)) {
      var i :| 0 <= i < |draws| && draws[i] == PickId(kept, draws) && draws[i] !in kept;
    }
    hide FirstFreeDraw;
    CreateIs(s, lim, req, draws, owner, now);
    hide Create;
  }

  /** The source's order of checks. */
  lemma CreateIs(s: Server, lim: Limits, req: CreateRequest, draws: seq<string>, owner: string, now: nat)
    requires draws != []
    ensures var (t, r) := Create(s, lim, req, draws, owner, now);
      var k := Retain(s, now);
      var id := PickId(k.rooms, draws);
      if |k.rooms| >= lim.rooms then (t, r) == (k, Err(RoomLimit))
      else if Total(k.rooms) >= lim.total then (t, r) == (k, Err(MemberLimit))
      else if req.ttl < 1 || req.ttl > 604800 then (t, r) == (k, Err(InvalidTtl))
      else if id in k.rooms then (t, r) == (k, Err(NoFreeId))
      else if !GoodMetadata(req) then (t, r) == (k, Err(InvalidMetadata))
      else
        && r == Ok(id) && t.cancelled == k.cancelled && t.next == k.next + 1
        && t.rooms == k.rooms[id := Room(owner, None, k.next, Least(now + req.ttl, 0xFFFF_FFFF_FFFF_FFFF), req.tunIp,
                                         req.guestIps, map[], map[], None, None, map[], map[])]
  {
    hide Total, GoodMetadata, PickId, Retain;
  }

  lemma StandingIs(s: Server, now: nat)
    ensures Retain(s, now) == s.(rooms := Standing(s, now), done := Retain(s, now).done)
  {}

  // ---------- joining ----------

  /** At most 16 LAN addresses and subnets, a device id of at most 128 characters without white
      space, and a name of at most 80 without control characters. */
  predicate Presentable(req: JoinRequest) {
    && |req.lan| <= 16 && |req.subnets| <= 16
    && (req.visitor.Some? ==>
          |req.visitor.value| <= 128
          && forall i | 0 <= i < |req.visitor.value| ::
               var c := req.visitor.value[i] as int; c != 32 && (c < 9 || 13 < c))
    && (req.name.Some? ==>
          |req.name.value| <= 80
          && forall i | 0 <= i < |req.name.value| :: var c := req.name.value[i] as int; 32 <= c != 127)
  }

  lemma PresentableIs(req: JoinRequest)
    ensures Presentable(req) <==> GoodMember(req)
  {
    if req.visitor.Some? {
      assert forall i | 0 <= i < |req.visitor.value| :: req.visitor.value[i] in req.visitor.value;
    }
    if req.name.Some? {
      assert forall i | 0 <= i < |req.name.value| :: req.name.value[i] in req.name.value;
    }
  }

  /** The device the request comes from: itself by its id, or by its address without one. */
  function Device(req: JoinRequest): string {
    match req.visitor case Some(v) => v case None => "anon-" + req.addr
  }

  /** Nobody else has the address, and it is a private one. */
  ghost predicate Available(r: Room, req: JoinRequest, ip: string) {
    && req.privateIp && r.tunIp != Some(ip)
    && forall g | g in r.guests :: r.guests[g].vnetIp == Some(ip) ==> req.visitor == Some(g)
  }

  lemma AvailableIs(r: Room, req: JoinRequest, ip: string)
    ensures Available(r, req, ip) <==> !Clashes(r, req, ip)
  {}

  /** The name asked for unless it is blank, else the sender's host. */
  function Wanted(req: JoinRequest): string {
    if req.name.Some? && exists i :: 0 <= i < |req.name.value| && !Space(req.name.value[i]) then req.name.value else req.host
  }

  predicate Space(c: char) {
    c as int == 32 || 9 <= c as int <= 13
  }

  lemma WantedIs(req: JoinRequest)
    ensures Wanted(req) == BaseName(req)
  {
    if req.name.Some? {
      assert forall c | c in req.name.value :: exists i | 0 <= i < |req.name.value| :: req.name.value[i] == c;
      assert forall c: char :: Space(c) <==> IsSpace(c);
    }
  }

  /** Why a guest is not let in: there is no such room, its description asks for too much, the
      server or the room is full and it is not in it yet, or the address it asks for is not
      available, in this order. */
  ghost predicate Rejected(kept: Rooms, lim: Limits, id: string, req: JoinRequest, why: Refusal) {
    if id !in kept then why == NotFound
    else if !Presentable(req) then why == InvalidMetadata
    else if Device(req) !in kept[id].guests && |People(kept)| >= lim.total then why == MemberLimit
    else if Device(req) !in kept[id].guests && 1 + |kept[id].guests| >= lim.members then why == RoomFull
    else req.requested.Some? && !Available(kept[id], req, req.requested.value) && why == AddressConflict
  }

  /** Else it is in, under the name it wants or the first free one with a suffix. */
  lemma JoinAnswers(s: Server, lim: Limits, id: string, req: JoinRequest, now: nat)
    ensures var (t, j) := Join(s, lim, id, req, now);
      var (kept, d) := (Standing(s, now), Device(req));
      && t.cancelled == s.cancelled && t.next == s.next
      && (if j.Err? then Rejected(kept, lim, id, req, j.reason) && t.rooms == kept
          else
            && (forall why :: !Rejected(kept, lim, id, req, why)) && id in kept
            && var (r, others) := (kept[id], set g | g in kept[id].guests && g != d :: kept[id].guests[g].name);
               && j.value == Joined(Assign(r, req).1, FreeName(Wanted(req), others))
               && t.rooms == kept[id := r.(assignments := Assign(r, req).0,
                                           guests := r.guests[d := Guest(j.value.name, j.value.address)])])
  {
    var kept := Standing(s, now);
    StandingIs(s, now);
    TotalCounts(kept);
    PresentableIs(req);
    WantedIs(req);
    if req.requested.Some? && id in kept {
      AvailableIs(kept[id], req, req.requested.value);
    }
    hide Total, People, Presentable, GoodMember, Available, Clashes, Wanted, BaseName, FreeName, Assign, Retain, Standing;
    JoinIs(s, lim, id, req, now);
    hide Join, TakenNames;
  }

  lemma JoinIs(s: Server, lim: Limits, id: string, req: JoinRequest, now: nat)
    ensures var (t, j) := Join(s, lim, id, req, now);
      var (k, d) := (Retain(s, now), Device(req));
      if id !in k.rooms then (t, j) == (k, Err(NotFound))
      else if !GoodMember(req) then (t, j) == (k, Err(InvalidMetadata))
      else if d !in k.rooms[id].guests && Total(k.rooms) >= lim.total then (t, j) == (k, Err(MemberLimit))
      else if d !in k.rooms[id].guests && 1 + |k.rooms[id].guests| >= lim.members then (t, j) == (k, Err(RoomFull))
      else if req.requested.Some? && Clashes(k.rooms[id], req, req.requested.value) then (t, j) == (k, Err(AddressConflict))
      else
        var (r, others) := (k.rooms[id], set g | g in k.rooms[id].guests && g != d :: k.rooms[id].guests[g].name);
        && j == Ok(Joined(Assign(r, req).1, FreeName(BaseName(req), others)))
        && t == k.(rooms := k.rooms[id := r.(assignments := Assign(r, req).0,
                                             guests := r.guests[d := Guest(j.value.name, j.value.address)])])
  {
    hide Total, GoodMember, Clashes, BaseName, FreeName, Assign, Retain;
    if id in Retain(s, now).rooms {
      assert TakenNames(Retain(s, now).rooms[id], Device(req))
          == set g | g in Retain(s, now).rooms[id].guests && g != Device(req) :: Retain(s, now).rooms[id].guests[g].name;
    }
  }

  /** The address a room gives: without a pool the one asked for, or the one noted for the device;
      with a pool the one the device has, or the one asked for if it is free in the pool, or the
      first that is, which the device then keeps. A device without an id gets none from a pool. */
  lemma AssignAnswers(r: Room, req: JoinRequest)
    ensures var (m, ip) := Assign(r, req);
      var free := set i | 0 <= i < |r.guestIps| && r.guestIps[i] !in r.assignments.Values;
      if r.guestIps == [] then
        && m == r.assignments
        && ip == (if req.requested.Some? then req.requested
                  else if req.visitor.Some? && req.visitor.value in m then Some(m[req.visitor.value]) else None)
      else if req.visitor.None? then m == r.assignments && ip == None
      else if req.visitor.value in r.assignments then m == r.assignments && ip == Some(m[req.visitor.value])
      else
        && (req.requested.Some? && (exists i | i in free :: r.guestIps[i] == req.requested.value) ==> ip == req.requested)
        && (!(req.requested.Some? && exists i | i in free :: r.guestIps[i] == req.requested.value) ==>
              if free == {} then ip == None
              else exists i | i in free :: ip == Some(r.guestIps[i]) && forall j | j in free :: i <= j)
        && m == if ip.Some? then r.assignments[req.visitor.value := ip.value] else r.assignments
  {
    var (pool, taken) := (r.guestIps, r.assignments.Values);
    FirstFreeAt(pool, taken);
    var free := set i | 0 <= i < |pool| && pool[i] !in taken;
    match FirstFree(pool, taken) {
      case None => assert free == {};
      case Some(ip) =>
        var i :| 0 <= i < |pool| && pool[i] == ip && ip !in taken && forall j | 0 <= j < i :: pool[j] in taken;
        assert i in free;
    }
    hide FirstFree;
    if req.requested.Some? && req.requested.value in pool && req.requested.value !in taken {
      var i :| 0 <= i < |pool| && pool[i] == req.requested.value;
      assert i in free;
    }
  }

  lemma {:induction false} FirstFreeAt(pool: seq<string>, taken: set<string>)
    ensures match FirstFree(pool, taken)
      case None => forall i | 0 <= i < |pool| :: pool[i] in taken
      case Some(ip) => exists i :: 0 <= i < |pool| && pool[i] == ip && ip !in taken && forall j | 0 <= j < i :: pool[j] in taken
  {
    if pool != [] && pool[0] in taken {
      var rest := pool[1..];
      FirstFreeAt(rest, taken);
      assert forall i | 0 <= i < |rest| :: rest[i] == pool[i + 1];
      match FirstFree(rest, taken) {
        case None => assert forall i | 0 < i < |pool| :: pool[i] == rest[i - 1];
        case Some(ip) =>
          var i :| 0 <= i < |rest| && rest[i] == ip && ip !in taken && forall j | 0 <= j < i :: rest[j] in taken;
          assert pool[i + 1] == ip && forall j | 0 < j < i + 1 :: pool[j] == rest[j - 1];
      }
    } else if pool != [] {
      assert pool[0] == pool[0];
    }
  }

  // ---------- looking up, renewing, securing, deleting ----------

  /** Looking up is for everybody, the rest for the owner alone; an expired room is not found, and
      gone for having been looked for. */
  lemma OwnerAnswers(s: Server, id: string, owner: string, secret: string, now: nat)
    ensures var known := id in s.rooms;
      var mine := known && s.rooms[id].owner == owner;
      var standing := known && now < s.rooms[id].expiresAt;
      && Lookup(s, id, now).1 == (if standing then Ok(s.rooms[id]) else Err(NotFound))
      && Lookup(s, id, now).0.rooms == (if standing then s.rooms else s.rooms - {id})
      && Renew(s, id, owner, now).1 == (if !known then Err(NotFound) else if !mine then Err(NotOwner)
                                        else if standing then Ok(()) else Err(NotFound))
      && Renew(s, id, owner, now).0.rooms == (if mine && !standing then s.rooms - {id} else s.rooms)
      && Secure(s, id, owner, secret).1 == (if !known then Err(NotFound) else if !mine then Err(NotOwner) else Ok("r3_" + secret))
      && Delete(s, id, owner).1 == (if !known then Err(NotFound) else if !mine then Err(NotOwner) else Ok(()))
      && Delete(s, id, owner).0.rooms == (if mine then s.rooms - {id} else s.rooms)
      && (mine ==>
            && Secure(s, id, owner, secret).0.rooms
               == s.rooms[id := s.rooms[id].(token := s.next, access := Some("r3_" + secret), guests := map[],
                                             relayHost := None, relayGuest := None, relayHosts := map[], relayGuests := map[])]
            && s.rooms[id].token in Secure(s, id, owner, secret).0.cancelled
            && s.rooms[id].token in Delete(s, id, owner).0.cancelled)
      && (!mine ==> Secure(s, id, owner, secret).0 == s && Delete(s, id, owner).0 == s)
  {
    hide Pending;
    assert id !in s.rooms ==> s.rooms - {id} == s.rooms;
  }
}
