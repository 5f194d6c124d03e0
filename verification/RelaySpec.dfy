/** The rendezvous of relay connections: the two locked sections of a handler and the one
    after its timeout. */
module RelaySpec {
  import opened Bytes
  import opened RoomSpec

  const MAX_WAITING: nat := 128

  datatype Role = Host | GuestSide

  /** A connection after its hello; `selected` is the room its preface named. */
  datatype Conn = Conn(id: nat, room: string, role: Role, uuid: string, owner: string, selected: Option<string>)

  datatype Outcome =
    | Bail
    | AuthError
    | Paired(other: nat, token: nat)
    | Wait(token: nat)
    | Parked

  function Opposite(role: Role): Role {
    if role.Host? then GuestSide else Host
  }

  /** Who waits in a room as `role` under a key; the key "-" has slots of its own. */
  function Waiting(r: Room, role: Role, uuid: string): Option<nat> {
    if uuid == "-" then (if role.Host? then r.relayHost else r.relayGuest)
    else
      var slots := if role.Host? then r.relayHosts else r.relayGuests;
      if uuid in slots then Some(slots[uuid]) else None
  }

  function Vacate(r: Room, role: Role, uuid: string): Room {
    if uuid == "-" then (if role.Host? then r.(relayHost := None) else r.(relayGuest := None))
    else if role.Host? then r.(relayHosts := r.relayHosts - {uuid})
    else r.(relayGuests := r.relayGuests - {uuid})
  }

  function Occupy(r: Room, role: Role, uuid: string, conn: nat): Room {
    if uuid == "-" then (if role.Host? then r.(relayHost := Some(conn)) else r.(relayGuest := Some(conn)))
    else if role.Host? then r.(relayHosts := r.relayHosts[uuid := conn])
    else r.(relayGuests := r.relayGuests[uuid := conn])
  }

  function Only(c: Option<nat>): set<nat> {
    if c.Some? then {c.value} else {}
  }

  /** Takes the counterpart out of its slot and signals it. */
  function Pair(s: Server, conn: Conn, other: nat): Server
    requires conn.room in s.rooms
  {
    s.(rooms := s.rooms[conn.room := Vacate(s.rooms[conn.room], Opposite(conn.role), conn.uuid)],
       done := s.done + {other})
  }

  /** The first section: admit, then pair or be told to wait. */
  function Arrive(s: Server, conn: Conn, now: nat): (Server, Outcome) {
    if conn.room !in s.rooms then (s, Bail)
    else
      var r := s.rooms[conn.room];
      if r.access.Some? && conn.selected != Some(conn.room) then (s, Bail)
      else if Expired(r, now) || (conn.role.Host? && conn.owner != r.owner) then (s, AuthError)
      else
        var other := Waiting(r, Opposite(conn.role), conn.uuid);
        if other.Some? then (Pair(s, conn, other.value), Paired(other.value, r.token))
        else if |r.relayHosts| + |r.relayGuests| >= MAX_WAITING then (s, Bail)
        else (s, Wait(r.token))
  }

  /** The second section, with the room token cloned in the first: pair after all, or take
      the slot, dropping whoever was in it. */
  function Park(s: Server, conn: Conn, token: nat, now: nat): (Server, Outcome) {
    if conn.room !in s.rooms then (s, Bail)
    else
      var r := s.rooms[conn.room];
      if token in s.cancelled || Expired(r, now) then (s, Bail)
      else
        var other := Waiting(r, Opposite(conn.role), conn.uuid);
        if other.Some? then (Pair(s, conn, other.value), Paired(other.value, token))
        else
          (s.(rooms := s.rooms[conn.room := Occupy(r, conn.role, conn.uuid, conn.id)],
              done := s.done + Only(Waiting(r, conn.role, conn.uuid))),
           Parked)
  }

  /** After the timeout: the slot is emptied if it still holds this connection. */
  function Leave(s: Server, conn: Conn): Server {
    if conn.room !in s.rooms then s
    else
      var r := s.rooms[conn.room];
      if Waiting(r, conn.role, conn.uuid) != Some(conn.id) then s
      else s.(rooms := s.rooms[conn.room := Vacate(r, conn.role, conn.uuid)], done := s.done + {conn.id})
  }
}
