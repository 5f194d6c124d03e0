/** The signaling server's shared state and the handlers that update it under its lock. */
module RoomServer {
  import opened Bytes
  import opened Sets
  import opened RoomSpec
  import opened RelaySpec

  class SharedState {
    const limits: Limits
    var rooms: Rooms
    var cancelled: set<nat>
    var done: set<nat>
    var next: nat

    ghost function View(): Server
      reads this
    {
      Server(rooms, cancelled, done, next)
    }

    constructor (limits: Limits)
      ensures View() == Server(map[], {}, {}, 0) && this.limits == limits
    {
      this.limits := limits;
      rooms, cancelled, done, next := map[], {}, {}, 0;
    }

    method DropExpired(now: nat)
      modifies this
      ensures View() == Retain(old(View()), now)
    {
      done := done + (set id, c | id in rooms && Expired(rooms[id], now) && c in Pending(rooms[id]) :: c);
      rooms := map id | id in rooms && !Expired(rooms[id], now) :: rooms[id];
    }

    method CountMembers() returns (n: nat)
      ensures n == Total(rooms)
    {
      n := 0;
      var left := rooms;
      while left != map[]
        invariant left.Keys <= rooms.Keys
        invariant n + Total(left) == Total(rooms)
        decreases |left|
      {
        var id :| id in left;
        TotalWithout(left, id);
        InsertSize(left - {id}, id, left[id]);
        assert (left - {id})[id := left[id]] == left;
        n := n + 1 + |left[id].guests|;
        left := left - {id};
      }
    }

    method DrawId(draws: seq<string>) returns (id: string)
      requires |draws| == ID_DRAWS
      ensures id == PickId(rooms, draws)
    {
      id := draws[0];
      var i := 0;
      while i < 50 && id in rooms
        invariant 0 <= i <= 50 && id == draws[i]
        invariant PickId(rooms, draws) == PickId(rooms, draws[i..])
      {
        i := i + 1;
        id := draws[i];
      }
    }

    method CreateRoom(req: CreateRequest, draws: seq<string>, owner: string, now: nat) returns (r: Result<string>)
      requires |draws| == ID_DRAWS
      modifies this
      ensures (View(), r) == Create(old(View()), limits, req, draws, owner, now)
    {
      DropExpired(now);
      if |rooms| >= limits.rooms {
        return Err(RoomLimit);
      }
      var total := CountMembers();
      if total >= limits.total {
        return Err(MemberLimit);
      }
      if req.ttl == 0 || req.ttl > 7 * 24 * 3600 {
        return Err(InvalidTtl);
      }
      var id := DrawId(draws);
      if id in rooms {
        return Err(NoFreeId);
      }
      if !GoodMetadata(req) {
        return Err(InvalidMetadata);
      }
      rooms := rooms[id := NewRoom(req, owner, next, now)];
      next := next + 1;
      r := Ok(id);
    }

    method JoinRoom(id: string, req: JoinRequest, now: nat) returns (j: Result<Joined>)
      modifies this
      ensures (View(), j) == Join(old(View()), limits, id, req, now)
    {
      DropExpired(now);
      var total := CountMembers();
      if id !in rooms {
        return Err(NotFound);
      }
      var r := rooms[id];
      if !GoodMember(req) {
        return Err(InvalidMetadata);
      }
      var uuid := GuestId(req);
      var reconnect := uuid in r.guests;
      if !reconnect && total >= limits.total {
        return Err(MemberLimit);
      }
      if !reconnect && 1 + |r.guests| >= limits.members {
        return Err(RoomFull);
      }
      if req.requested.Some? && Clashes(r, req, req.requested.value) {
        return Err(AddressConflict);
      }
      var (assignments, ip) := Assign(r, req);
      var name := PickName(BaseName(req), TakenNames(r, uuid));
      rooms := rooms[id := r.(assignments := assignments, guests := r.guests[uuid := Guest(name, ip)])];
      j := Ok(Joined(ip, name));
    }

    method ForgetRoom(id: string)
      requires id in rooms
      modifies this
      ensures View() == Forget(old(View()), id)
    {
      done := done + Pending(rooms[id]);
      rooms := rooms - {id};
    }

    method GetRoom(id: string, now: nat) returns (r: Result<Room>)
      modifies this
      ensures (View(), r) == Lookup(old(View()), id, now)
    {
      if id !in rooms {
        return Err(NotFound);
      }
      var room := rooms[id];
      if Expired(room, now) {
        ForgetRoom(id);
        return Err(NotFound);
      }
      r := Ok(room);
    }

    method RefreshRoom(id: string, owner: string, now: nat) returns (r: Result<()>)
      modifies this
      ensures (View(), r) == Renew(old(View()), id, owner, now)
    {
      if id !in rooms {
        return Err(NotFound);
      }
      var room := rooms[id];
      if owner != room.owner {
        return Err(NotOwner);
      }
      if Expired(room, now) {
        ForgetRoom(id);
        return Err(NotFound);
      }
      r := Ok(());
    }

    method SecureRoom(id: string, owner: string, secret: string) returns (t: Result<string>)
      modifies this
      ensures (View(), t) == Secure(old(View()), id, owner, secret)
    {
      if id !in rooms {
        return Err(NotFound);
      }
      var r := rooms[id];
      if owner != r.owner {
        return Err(NotOwner);
      }
      cancelled := cancelled + {r.token};
      done := done + Pending(r);
      r := r.(token := next, guests := map[], relayHosts := map[], relayGuests := map[],
              relayHost := None, relayGuest := None);
      next := next + 1;
      var token := "r3_" + secret;
      rooms := rooms[id := r.(access := Some(token))];
      t := Ok(token);
    }

    method DeleteRoom(id: string, owner: string) returns (d: Result<()>)
      modifies this
      ensures (View(), d) == Delete(old(View()), id, owner)
    {
      if id !in rooms {
        return Err(NotFound);
      }
      var r := rooms[id];
      if owner != r.owner {
        return Err(NotOwner);
      }
      rooms := rooms - {id};
      cancelled := cancelled + {r.token};
      done := done + Pending(r);
      d := Ok(());
    }

    /** `take()` or `remove(&uuid)` on the counterpart's slot. */
    method TakeOther(conn: Conn) returns (other: Option<nat>)
      requires conn.room in rooms
      modifies this`rooms
      ensures other == Waiting(old(rooms)[conn.room], Opposite(conn.role), conn.uuid)
      ensures rooms == if other.Some?
        then old(rooms)[conn.room := Vacate(old(rooms)[conn.room], Opposite(conn.role), conn.uuid)]
        else old(rooms)
    {
      var r := rooms[conn.room];
      if conn.uuid == "-" {
        if conn.role.Host? {
          other := r.relayGuest;
          r := r.(relayGuest := None);
        } else {
          other := r.relayHost;
          r := r.(relayHost := None);
        }
      } else if conn.role.Host? {
        other := if conn.uuid in r.relayGuests then Some(r.relayGuests[conn.uuid]) else None;
        r := r.(relayGuests := r.relayGuests - {conn.uuid});
      } else {
        other := if conn.uuid in r.relayHosts then Some(r.relayHosts[conn.uuid]) else None;
        r := r.(relayHosts := r.relayHosts - {conn.uuid});
      }
      if other.None? {
        assert r == rooms[conn.room];
      }
      rooms := rooms[conn.room := r];
    }

    method RelayArrive(conn: Conn, now: nat) returns (o: Outcome)
      modifies this
      ensures (View(), o) == Arrive(old(View()), conn, now)
    {
      if conn.room !in rooms {
        return Bail;
      }
      var r := rooms[conn.room];
      if r.access.Some? && conn.selected != Some(conn.room) {
        return Bail;
      }
      if Expired(r, now) || (conn.role.Host? && conn.owner != r.owner) {
        return AuthError;
      }
      var other := TakeOther(conn);
      if other.Some? {
        done := done + {other.value};
        return Paired(other.value, r.token);
      }
      if |r.relayHosts| + |r.relayGuests| >= 128 {
        return Bail;
      }
      o := Wait(r.token);
    }

    method RelayPark(conn: Conn, token: nat, now: nat) returns (o: Outcome)
      modifies this
      ensures (View(), o) == Park(old(View()), conn, token, now)
    {
      if conn.room !in rooms || token in cancelled || Expired(rooms[conn.room], now) {
        return Bail;
      }
      var other := TakeOther(conn);
      if other.Some? {
        done := done + {other.value};
        return Paired(other.value, token);
      }
      var r := rooms[conn.room];
      done := done + Only(Waiting(r, conn.role, conn.uuid));
      if conn.uuid == "-" {
        if conn.role.Host? {
          r := r.(relayHost := Some(conn.id));
        } else {
          r := r.(relayGuest := Some(conn.id));
        }
      } else if conn.role.Host? {
        r := r.(relayHosts := r.relayHosts[conn.uuid := conn.id]);
      } else {
        r := r.(relayGuests := r.relayGuests[conn.uuid := conn.id]);
      }
      rooms := rooms[conn.room := r];
      o := Parked;
    }

    method RelayTimeout(conn: Conn)
      modifies this
      ensures View() == Leave(old(View()), conn)
    {
      if conn.room in rooms {
        var r := rooms[conn.room];
        if Waiting(r, conn.role, conn.uuid) == Some(conn.id) {
          rooms := rooms[conn.room := Vacate(r, conn.role, conn.uuid)];
          done := done + {conn.id};
        }
      }
    }
  }
}
