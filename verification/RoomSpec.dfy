/** Rooms of the signaling server: creation, joining, securing and deletion. One handler
    under the lock is one step; the clock and everything random are parameters. */
module RoomSpec {
  import opened Bytes
  import opened Sets

  datatype Limits = Limits(rooms: nat, members: nat, total: nat) {
    predicate Valid() {
      1 <= rooms <= 1024 && 2 <= members <= 33 && 1 <= total <= 33792
    }
  }

  const MAX_TTL: nat := 7 * 24 * 3600
  const ID_DRAWS: nat := 51

  datatype Guest = Guest(name: string, vnetIp: Option<string>)

  /** `token` stands for the room's cancellation token; a relay slot holds the id of the
      connection that waits in it. */
  datatype Room = Room(
    owner: string,
    access: Option<string>,
    token: nat,
    expiresAt: nat,
    tunIp: Option<string>,
    guestIps: seq<string>,
    assignments: map<string, string>,
    guests: map<string, Guest>,
    relayHost: Option<nat>,
    relayGuest: Option<nat>,
    relayHosts: map<string, nat>,
    relayGuests: map<string, nat>)

  type Rooms = map<string, Room>

  /** `cancelled` holds the room tokens and `done` the connections whose signal was given;
      `next` numbers the tokens. */
  datatype Server = Server(rooms: Rooms, cancelled: set<nat>, done: set<nat>, next: nat)

  datatype Refusal =
    | NotFound
    | RoomLimit
    | MemberLimit
    | RoomFull
    | InvalidTtl
    | NoFreeId
    | InvalidMetadata
    | AddressConflict
    | NotOwner

  datatype Result<T> = Ok(value: T) | Err(reason: Refusal)

  datatype CreateRequest = CreateRequest(prefix: string, ttl: nat, tunIp: Option<string>,
                                         hostLan: seq<string>, hostSubnets: seq<string>, guestIps: seq<string>)

  /** `host` and `addr` are the sender's address as text, `privateIp` whether the requested
      address parses as a private IPv4 one. */
  datatype JoinRequest = JoinRequest(visitor: Option<string>, name: Option<string>,
                                     requested: Option<string>, privateIp: bool,
                                     host: string, addr: string, lan: seq<string>, subnets: seq<string>)

  datatype Joined = Joined(address: Option<string>, name: string)

  predicate Expired(r: Room, now: nat) {
    now >= r.expiresAt
  }

  /** Forgetting expired rooms drops their waiting connections, but cancels no token. */
  function Retain(s: Server, now: nat): Server {
    s.(rooms := map id | id in s.rooms && !Expired(s.rooms[id], now) :: s.rooms[id],
       done := s.done + (set id, c | id in s.rooms && Expired(s.rooms[id], now) && c in Pending(s.rooms[id]) :: c))
  }

  /** The connections waiting in a room. */
  function Pending(r: Room): set<nat> {
    (if r.relayHost.Some? then {r.relayHost.value} else {})
    + (if r.relayGuest.Some? then {r.relayGuest.value} else {})
    + (set u | u in r.relayHosts :: r.relayHosts[u])
    + (set u | u in r.relayGuests :: r.relayGuests[u])
  }

  function Members(r: Room): nat {
    1 + |r.guests|
  }

  /** The members of all rooms. */
  ghost function Total(rooms: Rooms): nat {
    if rooms == map[] then 0
    else
      var id :| id in rooms;
      Members(rooms[id]) + Total(rooms - {id})
  }

  lemma {:induction false} TotalWithout(rooms: Rooms, id: string)
    requires id in rooms
    ensures Total(rooms) == Members(rooms[id]) + Total(rooms - {id})
    decreases |rooms|
  {
    var first :| first in rooms && Total(rooms) == Members(rooms[first]) + Total(rooms - {first});
    if first != id {
      InsertSize(rooms - {first}, first, rooms[first]);
      InsertSize(rooms - {id}, id, rooms[id]);
      assert (rooms - {first})[first := rooms[first]] == rooms;
      assert (rooms - {id})[id := rooms[id]] == rooms;
      TotalWithout(rooms - {first}, id);
      TotalWithout(rooms - {id}, first);
      assert rooms - {first} - {id} == rooms - {id} - {first};
    }
  }

  lemma TotalInsert(rooms: Rooms, id: string, r: Room)
    ensures Total(rooms[id := r]) + (if id in rooms then Members(rooms[id]) else 0) == Total(rooms) + Members(r)
  {
    hide Total, Members;
    TotalWithout(rooms[id := r], id);
    assert rooms[id := r] - {id} == rooms - {id};
    if id in rooms {
      TotalWithout(rooms, id);
    } else {
      assert rooms - {id} == rooms;
    }
  }

  // ---------- creating ----------

  predicate IdChar(c: char) {
    'a' <= c <= 'z' || 'A' <= c <= 'Z' || '0' <= c <= '9' || c == '-' || c == '_'
  }

  predicate GoodMetadata(req: CreateRequest) {
    && |req.hostLan| <= 16 && |req.hostSubnets| <= 16 && |req.guestIps| <= 32
    && |req.prefix| <= 24 && forall c | c in req.prefix :: IdChar(c)
  }

  /** The first drawn id not in use, or the last draw. */
  function PickId(rooms: Rooms, draws: seq<string>): string
    requires draws != []
  {
    if draws[0] !in rooms || |draws| == 1 then draws[0] else PickId(rooms, draws[1..])
  }

  function NewRoom(req: CreateRequest, owner: string, token: nat, now: nat): Room {
    var expires := if now + req.ttl >= U64 then U64 - 1 else now + req.ttl;
    Room(owner, None, token, expires, req.tunIp, req.guestIps, map[], map[], None, None, map[], map[])
  }

  ghost function Create(s0: Server, lim: Limits, req: CreateRequest, draws: seq<string>, owner: string, now: nat)
    : (Server, Result<string>)
    requires draws != []
  {
    var s := Retain(s0, now);
    if |s.rooms| >= lim.rooms then (s, Err(RoomLimit))
    else if Total(s.rooms) >= lim.total then (s, Err(MemberLimit))
    else if req.ttl == 0 || req.ttl > MAX_TTL then (s, Err(InvalidTtl))
    else
      var id := PickId(s.rooms, draws);
      if id in s.rooms then (s, Err(NoFreeId))
      else if !GoodMetadata(req) then (s, Err(InvalidMetadata))
      else (s.(rooms := s.rooms[id := NewRoom(req, owner, s.next, now)], next := s.next + 1), Ok(id))
  }

  // ---------- joining ----------

  predicate IsControl(c: char) {
    c < ' ' || c == 127 as char
  }

  predicate IsSpace(c: char) {
    c == ' ' || '\t' <= c <= '\r'
  }

  predicate Blank(t: string) {
    forall c | c in t :: IsSpace(c)
  }

  predicate GoodMember(req: JoinRequest) {
    && |req.lan| <= 16 && |req.subnets| <= 16
    && (req.visitor.Some? ==> |req.visitor.value| <= 128 && forall c | c in req.visitor.value :: !IsSpace(c))
    && (req.name.Some? ==> |req.name.value| <= 80 && forall c | c in req.name.value :: !IsControl(c))
  }

  function GuestId(req: JoinRequest): string {
    if req.visitor.Some? then req.visitor.value else "anon-" + req.addr
  }

  predicate Clashes(r: Room, req: JoinRequest, ip: string) {
    || !req.privateIp
    || r.tunIp == Some(ip)
    || exists id | id in r.guests :: req.visitor != Some(id) && r.guests[id].vnetIp == Some(ip)
  }

  /** The first address of the pool that nobody was assigned. */
  function FirstFree(pool: seq<string>, taken: set<string>): Option<string> {
    if pool == [] then None
    else if pool[0] !in taken then Some(pool[0])
    else FirstFree(pool[1..], taken)
  }

  /** The virtual address, and the assignments that go with it. */
  function Assign(r: Room, req: JoinRequest): (map<string, string>, Option<string>) {
    if r.guestIps == [] then
      (r.assignments,
       if req.requested.Some? then req.requested
       else if req.visitor.Some? && req.visitor.value in r.assignments then Some(r.assignments[req.visitor.value])
       else None)
    else if req.visitor.None? then (r.assignments, None)
    else
      var uid, taken := req.visitor.value, r.assignments.Values;
      if uid in r.assignments then (r.assignments, Some(r.assignments[uid]))
      else
        var ip :=
          if req.requested.Some? && req.requested.value in r.guestIps && req.requested.value !in taken
          then req.requested
          else FirstFree(r.guestIps, taken);
        (if ip.Some? then r.assignments[uid := ip.value] else r.assignments, ip)
  }

  // ---------- display names ----------

  function Digit(n: nat): char
    requires n < 10
  {
    "0123456789"[n]
  }

  function Decimal(n: nat): (t: string)
    ensures t != ""
  {
    if n < 10 then [Digit(n)] else Decimal(n / 10) + [Digit(n % 10)]
  }

  function Suffixed(base: string, n: nat): string {
    base + "-" + Decimal(n)
  }

  lemma {:induction false} DecimalInjective(a: nat, b: nat)
    requires Decimal(a) == Decimal(b)
    ensures a == b
  {
    var (x, y) := (Decimal(a), Decimal(b));
    assert x[|x| - 1] == Digit(a % 10) && y[|y| - 1] == Digit(b % 10);
    DigitInjective(a % 10, b % 10);
    if a >= 10 && b >= 10 {
      assert x[..|x| - 1] == Decimal(a / 10) && y[..|y| - 1] == Decimal(b / 10);
      DecimalInjective(a / 10, b / 10);
    }
  }

  lemma DigitInjective(a: nat, b: nat)
    requires a < 10 && b < 10 && Digit(a) == Digit(b)
    ensures a == b
  {}

  lemma SuffixedInjective(base: string, a: nat, b: nat)
    requires Suffixed(base, a) == Suffixed(base, b)
    ensures a == b
  {
    assert Suffixed(base, a)[|base| + 1..] == Decimal(a);
    assert Suffixed(base, b)[|base| + 1..] == Decimal(b);
    DecimalInjective(a, b);
  }

  /** The names the suffix loop has gone through before it tries `n`. */
  ghost function Tried(base: string, n: nat): set<string>
    requires n >= 2
  {
    {base} + set i | 2 <= i < n :: Suffixed(base, i)
  }

  lemma TriedNext(base: string, n: nat)
    requires n >= 2
    ensures Tried(base, n + 1) == Tried(base, n) + {Suffixed(base, n)}
  {}

  lemma TriedBase(base: string)
    ensures Tried(base, 2) == {base}
  {}

  lemma SuffixedNew(base: string, n: nat)
    requires n >= 2
    ensures Suffixed(base, n) !in Tried(base, n)
  {
    var last := Suffixed(base, n);
    assert |last| > |base|;
    if i :| 2 <= i < n && Suffixed(base, i) == last {
      SuffixedInjective(base, i, n);
    }
  }

  lemma {:induction false} TriedSize(base: string, n: nat)
    requires n >= 2
    ensures |Tried(base, n)| == n - 1
  {
    hide *;
    if n == 2 {
      TriedBase(base);
    } else {
      TriedSize(base, n - 1);
      TriedNext(base, n - 1);
      SuffixedNew(base, n - 1);
    }
  }

  /** By pigeonhole the loop ends: it cannot go through more names than are taken. */
  lemma TriedFew(base: string, taken: set<string>, n: nat)
    requires n >= 2 && Tried(base, n) <= taken
    ensures n - 1 <= |taken|
  {
    TriedSize(base, n);
    SubsetSize(Tried(base, n), taken);
  }

  ghost function FreeSuffix(base: string, taken: set<string>, n: nat): (name: string)
    requires n >= 2 && Tried(base, n) <= taken
    ensures name !in taken
    decreases |taken| + 1 - n
  {
    TriedFew(base, taken, n);
    TriedNext(base, n);
    if Suffixed(base, n) !in taken then Suffixed(base, n)
    else
      TriedFew(base, taken, n + 1);
      FreeSuffix(base, taken, n + 1)
  }

  ghost function FreeName(base: string, taken: set<string>): (name: string)
    ensures name !in taken
  {
    if base !in taken then base
    else
      TriedBase(base);
      FreeSuffix(base, taken, 2)
  }

  method PickName(base: string, taken: set<string>) returns (name: string)
    ensures name == FreeName(base, taken)
  {
    name := base;
    var n := 2;
    TriedBase(base);
    while name in taken
      invariant n >= 2 && (name == base ==> n == 2)
      invariant name in taken ==> Tried(base, n) <= taken && FreeName(base, taken) == FreeSuffix(base, taken, n)
      invariant name !in taken ==> name == FreeName(base, taken)
      decreases |taken| + 1 - n, name == base
    {
      TriedFew(base, taken, n);
      TriedNext(base, n);
      name := Suffixed(base, n);
      n := n + 1;
      if name in taken {
        TriedFew(base, taken, n);
      }
    }
  }

  // ---------- joining, securing, deleting ----------

  function TakenNames(r: Room, self: string): set<string> {
    set id | id in r.guests && id != self :: r.guests[id].name
  }

  function BaseName(req: JoinRequest): string {
    if req.name.Some? && !Blank(req.name.value) then req.name.value else req.host
  }

  ghost function Admit(r: Room, req: JoinRequest): (Room, Joined) {
    var (assignments, ip) := Assign(r, req);
    var name := FreeName(BaseName(req), TakenNames(r, GuestId(req)));
    (r.(assignments := assignments, guests := r.guests[GuestId(req) := Guest(name, ip)]), Joined(ip, name))
  }

  ghost function Join(s0: Server, lim: Limits, id: string, req: JoinRequest, now: nat): (Server, Result<Joined>) {
    var s := Retain(s0, now);
    if id !in s.rooms then (s, Err(NotFound))
    else
      var r := s.rooms[id];
      if !GoodMember(req) then (s, Err(InvalidMetadata))
      else if GuestId(req) !in r.guests && Total(s.rooms) >= lim.total then (s, Err(MemberLimit))
      else if GuestId(req) !in r.guests && Members(r) >= lim.members then (s, Err(RoomFull))
      else if req.requested.Some? && Clashes(r, req, req.requested.value) then (s, Err(AddressConflict))
      else
        var (r', j) := Admit(r, req);
        (s.(rooms := s.rooms[id := r']), Ok(j))
  }

  /** A room found expired is dropped as `Retain` drops it. */
  function Forget(s: Server, id: string): Server
    requires id in s.rooms
  {
    s.(rooms := s.rooms - {id}, done := s.done + Pending(s.rooms[id]))
  }

  function Lookup(s: Server, id: string, now: nat): (Server, Result<Room>) {
    if id !in s.rooms then (s, Err(NotFound))
    else if Expired(s.rooms[id], now) then (Forget(s, id), Err(NotFound))
    else (s, Ok(s.rooms[id]))
  }

  /** The owner reports where the host is now, which changes nothing that is modelled. */
  function Renew(s: Server, id: string, owner: string, now: nat): (Server, Result<()>) {
    if id !in s.rooms then (s, Err(NotFound))
    else if owner != s.rooms[id].owner then (s, Err(NotOwner))
    else if Expired(s.rooms[id], now) then (Forget(s, id), Err(NotFound))
    else (s, Ok(()))
  }

  /** The room starts over for its owner: the old token is cancelled, everyone is dropped. */
  function Secure(s: Server, id: string, owner: string, secret: string): (Server, Result<string>) {
    if id !in s.rooms then (s, Err(NotFound))
    else
      var r := s.rooms[id];
      if owner != r.owner then (s, Err(NotOwner))
      else
        var anew := r.(token := s.next, access := Some("r3_" + secret), guests := map[],
                        relayHost := None, relayGuest := None, relayHosts := map[], relayGuests := map[]);
        (Server(s.rooms[id := anew], s.cancelled + {r.token}, s.done + Pending(r), s.next + 1), Ok("r3_" + secret))
  }

  function Delete(s: Server, id: string, owner: string): (Server, Result<()>) {
    if id !in s.rooms then (s, Err(NotFound))
    else
      var r := s.rooms[id];
      if owner != r.owner then (s, Err(NotOwner))
      else (s.(rooms := s.rooms - {id}, cancelled := s.cancelled + {r.token}, done := s.done + Pending(r)), Ok(()))
  }
}
