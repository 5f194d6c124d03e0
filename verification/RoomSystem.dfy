/** Runs of the signaling server: its HTTP handlers interleaved with relay handlers. */
module RoomSystem {
  import opened Bytes
  import opened RoomSpec
  import opened RelaySpec

  /** How far a relay handler is: told to wait, in its slot, paired, or finished. */
  datatype Stage = Told | InSlot | Served | Left

  /** A relay handler, with the room token it cloned. */
  datatype Handler = Handler(conn: Conn, stage: Stage, token: nat)

  /** The handler that found `second` waiting is `first`. */
  datatype Pairing = Pairing(first: nat, second: nat)

  /** `lapsed` holds the tokens of rooms that were forgotten when they expired. */
  datatype Sys = Sys(s: Server, handlers: map<nat, Handler>, pairs: seq<Pairing>, lapsed: set<nat>)

  datatype Op =
    | CreateOp(req: CreateRequest, draws: seq<string>, owner: string, now: nat)
    | JoinOp(id: string, joining: JoinRequest, now: nat)
    | LookupOp(id: string, now: nat)
    | RenewOp(id: string, owner: string, now: nat)
    | SecureOp(id: string, owner: string, secret: string)
    | DeleteOp(id: string, owner: string)
    | ArriveOp(conn: Conn, now: nat)
    | ParkOp(k: nat, now: nat)
    | TimeoutOp(k: nat)

  function Lapsing(s: Server, now: nat): set<nat> {
    set id | id in s.rooms && Expired(s.rooms[id], now) :: s.rooms[id].token
  }

  /** The token of a room that was dropped because it was found expired. */
  function Dropping(s: Server, t: Server): set<nat> {
    set id | id in s.rooms && id !in t.rooms :: s.rooms[id].token
  }

  function StageAfter(o: Outcome): Stage {
    match o
    case Wait(_) => Told
    case Parked => InSlot
    case Paired(_, _) => Served
    case _ => Left
  }

  /** What becomes of the handlers when a section of `h` ends with `o`. */
  function Record(x: Sys, s: Server, h: Handler, o: Outcome): Sys {
    var handlers := x.handlers[h.conn.id := h.(stage := StageAfter(o))];
    if o.Paired? && o.other in handlers
    then Sys(s, handlers[o.other := handlers[o.other].(stage := Served)],
             x.pairs + [Pairing(h.conn.id, o.other)], x.lapsed)
    else Sys(s, handlers, x.pairs, x.lapsed)
  }

  function Cloned(o: Outcome): nat {
    if o.Wait? || o.Paired? then o.token else 0
  }

  ghost function Step(x: Sys, lim: Limits, op: Op): Sys {
    match op
    case CreateOp(req, draws, owner, now) =>
      if draws == [] then x
      else x.(s := Create(x.s, lim, req, draws, owner, now).0, lapsed := x.lapsed + Lapsing(x.s, now))
    case JoinOp(id, req, now) =>
      x.(s := Join(x.s, lim, id, req, now).0, lapsed := x.lapsed + Lapsing(x.s, now))
    case LookupOp(id, now) =>
      var s := Lookup(x.s, id, now).0;
      x.(s := s, lapsed := x.lapsed + Dropping(x.s, s))
    case RenewOp(id, owner, now) =>
      var s := Renew(x.s, id, owner, now).0;
      x.(s := s, lapsed := x.lapsed + Dropping(x.s, s))
    case SecureOp(id, owner, secret) => x.(s := Secure(x.s, id, owner, secret).0)
    case DeleteOp(id, owner) => x.(s := Delete(x.s, id, owner).0)
    case ArriveOp(conn, now) =>
      var (s, o) := Arrive(x.s, conn, now);
      Record(x, s, Handler(conn, Left, Cloned(o)), o)
    case ParkOp(k, now) =>
      if k !in x.handlers || !x.handlers[k].stage.Told? then x
      else
        var h := x.handlers[k];
        var (s, o) := Park(x.s, h.conn, h.token, now);
        Record(x, s, h, o)
    case TimeoutOp(k) =>
      if k !in x.handlers || !x.handlers[k].stage.InSlot? then x
      else
        var h := x.handlers[k];
        x.(s := Leave(x.s, h.conn), handlers := x.handlers[k := h.(stage := Left)])
  }

  /** Connection ids never repeat. */
  ghost predicate May(x: Sys, op: Op) {
    op.ArriveOp? ==> op.conn.id !in x.handlers
  }

  ghost function After(x: Sys, lim: Limits, ops: seq<Op>): Sys {
    if ops == [] then x else Step(After(x, lim, ops[..|ops| - 1]), lim, ops[|ops| - 1])
  }

  ghost predicate Runs(x: Sys, lim: Limits, ops: seq<Op>) {
    ops != [] ==>
      Runs(x, lim, ops[..|ops| - 1]) && May(After(x, lim, ops[..|ops| - 1]), ops[|ops| - 1])
  }

  function Start(): Sys {
    Sys(Server(map[], {}, {}, 0), map[], [], {})
  }

  // ---------- slots ----------

  lemma AfterVacate(r: Room, role: Role, uuid: string, role2: Role, uuid2: string)
    ensures Waiting(Vacate(r, role, uuid), role2, uuid2)
         == if role == role2 && uuid == uuid2 then None else Waiting(r, role2, uuid2)
  {}

  lemma AfterOccupy(r: Room, role: Role, uuid: string, k: nat, role2: Role, uuid2: string)
    ensures Waiting(Occupy(r, role, uuid, k), role2, uuid2)
         == if role == role2 && uuid == uuid2 then Some(k) else Waiting(r, role2, uuid2)
  {}

  /** The key "-" has no entry in the tables. */
  predicate NoDash(r: Room) {
    "-" !in r.relayHosts && "-" !in r.relayGuests
  }

  predicate Empty(r: Room) {
    r.relayHost.None? && r.relayGuest.None? && r.relayHosts == map[] && r.relayGuests == map[]
  }

  lemma PendingMeans(r: Room, k: nat)
    requires NoDash(r)
    ensures k in Pending(r) <==> exists role, uuid :: Waiting(r, role, uuid) == Some(k)
  {
    if k in Pending(r) {
      if r.relayHost == Some(k) {
        assert Waiting(r, Host, "-") == Some(k);
      } else if r.relayGuest == Some(k) {
        assert Waiting(r, GuestSide, "-") == Some(k);
      } else if u :| u in r.relayHosts && r.relayHosts[u] == k {
        assert Waiting(r, Host, u) == Some(k);
      } else {
        var u :| u in r.relayGuests && r.relayGuests[u] == k;
        assert Waiting(r, GuestSide, u) == Some(k);
      }
    }
  }

  /** Everything but the slots, the token and the access token. */
  predicate SameMembers(r: Room, q: Room) {
    && q.owner == r.owner && q.tunIp == r.tunIp && q.guestIps == r.guestIps
    && q.assignments == r.assignments && q.guests == r.guests && q.expiresAt == r.expiresAt
    && q.token == r.token && q.access == r.access
  }

  lemma VacateKeeps(r: Room, role: Role, uuid: string)
    ensures SameMembers(r, Vacate(r, role, uuid)) && (NoDash(r) ==> NoDash(Vacate(r, role, uuid)))
  {}

  lemma OccupyKeeps(r: Room, role: Role, uuid: string, k: nat)
    ensures SameMembers(r, Occupy(r, role, uuid, k)) && (NoDash(r) ==> NoDash(Occupy(r, role, uuid, k)))
  {}
}
