/** Who is admitted to a room's relay, and who may end a room: the registrations handed out in
    a run, as its operations record them, against what the handlers do later. */
module RelayAdmission {
  import opened Bytes
  import opened Sets
  import opened RoomSpec
  import opened RelaySpec
  import opened RoomSystem
  import RelayTheorems

  /** What creating or securing a room grants under a new token. */
  datatype Registration = Registration(id: string, owner: string, access: Option<string>, until: nat)

  type Registry = map<nat, Registration>

  /** The registration an operation makes: by creating a room under a free id, or by securing the
      room one owns. */
  ghost function Granted(x: Sys, regs: Registry, lim: Limits, op: Op): Option<Registration> {
    match op
    case CreateOp(req, draws, owner, now) =>
      if draws == [] then None
      else
        var r := Create(x.s, lim, req, draws, owner, now).1;
        if r.Ok? then Some(Registration(r.value, owner, None, Least(now + req.ttl, 0xFFFF_FFFF_FFFF_FFFF))) else None
    case SecureOp(id, owner, secret) =>
      if id in x.s.rooms && x.s.rooms[id].token in regs && regs[x.s.rooms[id].token].owner == owner
      then Some(regs[x.s.rooms[id].token].(access := Some("r3_" + secret))) else None
    case _ => None
  }

  function Least(a: nat, b: nat): nat { if a <= b then a else b }

  /** All registrations of a run, by their tokens. */
  ghost function Registered(lim: Limits, ops: seq<Op>): Registry {
    if ops == [] then map[]
    else
      var (before, op) := (ops[..|ops| - 1], ops[|ops| - 1]);
      var (x, regs) := (After(Start(), lim, before), Registered(lim, before));
      var g := Granted(x, regs, lim, op);
      if g.Some? then regs[x.s.next := g.value] else regs
  }

  // ---------- rooms are their registrations ----------

  ghost predicate Is(r: Room, id: string, g: Registration) {
    g == Registration(id, r.owner, r.access, r.expiresAt)
  }

  /** Every room is as its registration says; no token is used before its turn. */
  ghost predicate Backed(s: Server, regs: Registry) {
    && (forall id | id in s.rooms :: s.rooms[id].token in regs && Is(s.rooms[id], id, regs[s.rooms[id].token]))
    && (forall t | t in regs :: t < s.next)
  }

  /** What the handler's arrival proved: a HOST is the owner of the registration whose token it
      cloned, a secured room was selected in the preface, and the room had not expired. */
  ghost predicate Admitted(regs: Registry, c: Conn, token: nat, at: nat) {
    && token in regs
    && var g := regs[token];
       && g.id == c.room && at < g.until
       && (c.role.Host? ==> c.owner == g.owner)
       && (g.access.Some? ==> c.selected == Some(c.room))
  }

  /** The handler arrived in this run, and was admitted. */
  ghost predicate ArrivedIn(regs: Registry, ops: seq<Op>, h: Handler) {
    exists i :: 0 <= i < |ops| && ops[i].ArriveOp? && ops[i].conn == h.conn && Admitted(regs, h.conn, h.token, ops[i].now)
  }

  ghost predicate AllArrived(x: Sys, regs: Registry, ops: seq<Op>) {
    forall k | k in x.handlers && (x.handlers[k].stage.Told? || x.handlers[k].stage.InSlot? || x.handlers[k].stage.Served?) ::
      ArrivedIn(regs, ops, x.handlers[k])
  }

  /** What a handler other than Create and Secure leaves of a room. */
  predicate SameRights(r: Room, q: Room) {
    q.owner == r.owner && q.access == r.access && q.token == r.token && q.expiresAt == r.expiresAt
  }

  ghost predicate OnlyKept(s: Server, t: Server) {
    t.next == s.next && forall id | id in t.rooms :: id in s.rooms && SameRights(s.rooms[id], t.rooms[id])
  }

  lemma KeptBacked(s: Server, t: Server, regs: Registry)
    requires Backed(s, regs) && OnlyKept(s, t)
    ensures Backed(t, regs)
  {}

  lemma RetainOnly(s: Server, now: nat)
    ensures OnlyKept(s, Retain(s, now))
  {}

  lemma JoinOnly(s: Server, lim: Limits, id: string, req: JoinRequest, now: nat)
    ensures OnlyKept(s, Join(s, lim, id, req, now).0)
  {
    var k := Retain(s, now);
    RetainOnly(s, now);
    if id in k.rooms {
      AdmitRights(k.rooms[id], req);
    }
    hide Total, Clashes, GoodMember, Admit, Retain, Members;
  }

  lemma AdmitRights(r: Room, req: JoinRequest)
    ensures SameRights(r, Admit(r, req).0)
  {
    hide Assign, FreeName, BaseName, TakenNames;
  }

  lemma LookOnly(s: Server, id: string, owner: string, now: nat)
    ensures OnlyKept(s, Lookup(s, id, now).0) && OnlyKept(s, Renew(s, id, owner, now).0) && OnlyKept(s, Delete(s, id, owner).0)
  {
    hide Pending;
  }

  lemma SlotsOnly(s: Server, conn: Conn, token: nat, now: nat)
    ensures OnlyKept(s, Arrive(s, conn, now).0) && OnlyKept(s, Park(s, conn, token, now).0) && OnlyKept(s, Leave(s, conn))
  {
    hide Waiting, Vacate, Occupy;
    if conn.room in s.rooms {
      VacateKeeps(s.rooms[conn.room], Opposite(conn.role), conn.uuid);
      VacateKeeps(s.rooms[conn.room], conn.role, conn.uuid);
      OccupyKeeps(s.rooms[conn.room], conn.role, conn.uuid, conn.id);
    }
  }

  lemma CreateBacked(x: Sys, regs: Registry, lim: Limits, op: Op)
    requires Backed(x.s, regs) && op.CreateOp?
    ensures var g := Granted(x, regs, lim, op);
      Backed(Step(x, lim, op).s, if g.Some? then regs[x.s.next := g.value] else regs)
  {
    hide *;
    var k := Retain(x.s, op.now);
    RetainOnly(x.s, op.now);
    KeptBacked(x.s, k, regs);
    CreateStep(x, lim, op);
    GrantedIs(x, regs, lim, op);
    if op.draws != [] {
      CreateIs(x.s, lim, op.req, op.draws, op.owner, op.now);
      NewBacked(k, regs, Created(x.s, lim, op), op.req, op.owner, op.now);
    }
  }

  /** The id of the room created, if one is. */
  ghost function Created(s: Server, lim: Limits, op: Op): string
    requires op.CreateOp? && op.draws != []
  {
    var r := Create(s, lim, op.req, op.draws, op.owner, op.now).1;
    if r.Ok? then r.value else ""
  }

  lemma GrantedIs(x: Sys, regs: Registry, lim: Limits, op: Op)
    requires op.CreateOp?
    ensures Granted(x, regs, lim, op)
         == if op.draws != [] && Create(x.s, lim, op.req, op.draws, op.owner, op.now).1.Ok?
            then Some(Registration(Created(x.s, lim, op), op.owner, None, Least(op.now + op.req.ttl, 0xFFFF_FFFF_FFFF_FFFF)))
            else None
    ensures Retain(x.s, op.now).next == x.s.next
  {
    hide Create;
  }

  lemma CreateStep(x: Sys, lim: Limits, op: Op)
    requires op.CreateOp?
    ensures Step(x, lim, op).s
         == if op.draws == [] then x.s else Create(x.s, lim, op.req, op.draws, op.owner, op.now).0
  {
    hide Create, Lapsing;
  }

  lemma CreateIs(s: Server, lim: Limits, req: CreateRequest, draws: seq<string>, owner: string, now: nat)
    requires draws != []
    ensures var (t, r) := Create(s, lim, req, draws, owner, now);
      var k := Retain(s, now);
      && (r.Err? ==> t == k)
      && (r.Ok? ==>
            && t == k.(rooms := k.rooms[r.value := NewRoom(req, owner, k.next, now)], next := k.next + 1)
            && Created(s, lim, CreateOp(req, draws, owner, now)) == r.value)
  {
    hide Total, GoodMetadata, PickId, Retain, NewRoom;
  }

  lemma NewBacked(s: Server, regs: Registry, id: string, req: CreateRequest, owner: string, now: nat)
    requires Backed(s, regs)
    ensures Backed(s.(rooms := s.rooms[id := NewRoom(req, owner, s.next, now)], next := s.next + 1),
                   regs[s.next := Registration(id, owner, None, Least(now + req.ttl, 0xFFFF_FFFF_FFFF_FFFF))])
  {}

  lemma SecureBacked(x: Sys, regs: Registry, lim: Limits, op: Op)
    requires Backed(x.s, regs) && op.SecureOp?
    ensures var g := Granted(x, regs, lim, op);
      Backed(Step(x, lim, op).s, if g.Some? then regs[x.s.next := g.value] else regs)
  {
    hide Pending;
  }

  lemma StepBacked(x: Sys, regs: Registry, lim: Limits, op: Op)
    requires Backed(x.s, regs)
    ensures var g := Granted(x, regs, lim, op);
      Backed(Step(x, lim, op).s, if g.Some? then regs[x.s.next := g.value] else regs)
  {
    hide Backed, Create, Join, Lookup, Renew, Secure, Delete, Arrive, Park, Leave, Lapsing, Dropping, OnlyKept;
    var y := Step(x, lim, op);
    match op {
      case CreateOp(_, _, _, _) => CreateBacked(x, regs, lim, op);
      case SecureOp(_, _, _) => SecureBacked(x, regs, lim, op);
      case JoinOp(id, req, now) => JoinOnly(x.s, lim, id, req, now); KeptBacked(x.s, y.s, regs);
      case LookupOp(id, now) => LookOnly(x.s, id, "", now); KeptBacked(x.s, y.s, regs);
      case RenewOp(id, owner, now) => LookOnly(x.s, id, owner, now); KeptBacked(x.s, y.s, regs);
      case DeleteOp(id, owner) => LookOnly(x.s, id, owner, 0); KeptBacked(x.s, y.s, regs);
      case ArriveOp(conn, now) => SlotsOnly(x.s, conn, 0, now); KeptBacked(x.s, y.s, regs);
      case ParkOp(k, now) =>
        if k in x.handlers && x.handlers[k].stage.Told? {
          SlotsOnly(x.s, x.handlers[k].conn, x.handlers[k].token, now);
          KeptBacked(x.s, y.s, regs);
        }
      case TimeoutOp(k) =>
        if k in x.handlers && x.handlers[k].stage.InSlot? {
          SlotsOnly(x.s, x.handlers[k].conn, 0, 0);
          KeptBacked(x.s, y.s, regs);
        }
    }
  }

  // ---------- handlers were admitted ----------

  lemma MoreRegs(regs: Registry, t: nat, g: Registration, ops: seq<Op>, op: Op, h: Handler)
    requires ArrivedIn(regs, ops, h)
    ensures ArrivedIn(regs, ops + [op], h) && (t !in regs ==> ArrivedIn(regs[t := g], ops + [op], h))
  {
    var i :| 0 <= i < |ops| && ops[i].ArriveOp? && ops[i].conn == h.conn && Admitted(regs, h.conn, h.token, ops[i].now);
    assert (ops + [op])[i] == ops[i];
  }

  /** A handler keeps its connection and token; one that is not gone was there, or arrives. */
  lemma HandlersStay(x: Sys, lim: Limits, op: Op, k: nat)
    requires k in Step(x, lim, op).handlers
    requires forall j | j in x.handlers :: x.handlers[j].conn.id == j
    requires forall id, role, uuid | id in x.s.rooms && Waiting(x.s.rooms[id], role, uuid).Some? ::
      var w := Waiting(x.s.rooms[id], role, uuid).value; w in x.handlers && x.handlers[w].stage.InSlot?
    ensures var h := Step(x, lim, op).handlers[k];
      || h.stage.Left?
      || (k in x.handlers && !x.handlers[k].stage.Left? && h.conn == x.handlers[k].conn && h.token == x.handlers[k].token)
      || (op.ArriveOp? && h.conn == op.conn
          && var o := Arrive(x.s, op.conn, op.now).1; (o.Wait? || o.Paired?) && h.token == Cloned(o))
  {
    hide Create, Join, Lookup, Renew, Secure, Delete, Lapsing, Dropping, Vacate, Occupy;
  }

  /** What an arrival proves. */
  lemma ArrivalAdmits(s: Server, regs: Registry, conn: Conn, now: nat)
    requires Backed(s, regs)
    ensures var o := Arrive(s, conn, now).1;
      o.Wait? || o.Paired? ==> Admitted(regs, conn, Cloned(o), now)
  {
    hide Waiting, Vacate;
  }

  ghost predicate Holding(x: Sys, regs: Registry, ops: seq<Op>) {
    Backed(x.s, regs) && AllArrived(x, regs, ops)
  }

  lemma StepArrived(x: Sys, regs: Registry, lim: Limits, ops: seq<Op>, op: Op)
    requires Holding(x, regs, ops) && RelayTheorems.Good(x)
    ensures var g := Granted(x, regs, lim, op);
      Holding(Step(x, lim, op), if g.Some? then regs[x.s.next := g.value] else regs, ops + [op])
  {
    var g := Granted(x, regs, lim, op);
    var more := if g.Some? then regs[x.s.next := g.value] else regs;
    var y := Step(x, lim, op);
    StepBacked(x, regs, lim, op);
    assert x.s.next !in regs;
    hide Backed, Step, Granted, ArrivedIn, Admitted, Arrive;
    Occupied(x);
    forall k | k in y.handlers && (y.handlers[k].stage.Told? || y.handlers[k].stage.InSlot? || y.handlers[k].stage.Served?)
      ensures ArrivedIn(more, ops + [op], y.handlers[k])
    {
      HandlersStay(x, lim, op, k);
      if k in x.handlers && !x.handlers[k].stage.Left?
         && y.handlers[k].conn == x.handlers[k].conn && y.handlers[k].token == x.handlers[k].token {
        if g.Some? {
          MoreRegs(regs, x.s.next, g.value, ops, op, x.handlers[k]);
        } else {
          MoreRegs(regs, 0, Registration("", "", None, 0), ops, op, x.handlers[k]);
        }
        SameArrival(more, ops + [op], x.handlers[k], y.handlers[k]);
      } else {
        ArrivalAdmits(x.s, regs, op.conn, op.now);
        NewArrival(regs, more, ops, op, y.handlers[k]);
      }
    }
  }

  lemma SameArrival(regs: Registry, ops: seq<Op>, h: Handler, k: Handler)
    requires ArrivedIn(regs, ops, h) && k.conn == h.conn && k.token == h.token
    ensures ArrivedIn(regs, ops, k)
  {}

  lemma NewArrival(regs: Registry, more: Registry, ops: seq<Op>, op: Op, h: Handler)
    requires op.ArriveOp? && h.conn == op.conn && Admitted(regs, h.conn, h.token, op.now)
    requires forall t | t in regs :: t in more && more[t] == regs[t]
    ensures ArrivedIn(more, ops + [op], h)
  {
    assert (ops + [op])[|ops|] == op;
  }

  lemma Occupied(x: Sys)
    requires RelayTheorems.Good(x)
    ensures forall j | j in x.handlers :: x.handlers[j].conn.id == j
    ensures forall id, role, uuid | id in x.s.rooms && Waiting(x.s.rooms[id], role, uuid).Some? ::
      var w := Waiting(x.s.rooms[id], role, uuid).value; w in x.handlers && x.handlers[w].stage.InSlot?
  {
    hide RelayTheorems.Tokens, RelayTheorems.Bound, RelayTheorems.Placed, RelayTheorems.Alone, RelayTheorems.Matched,
      RelayTheorems.Disjoint, RelayTheorems.DistinctTokens, Waiting;
    forall id, role, uuid | id in x.s.rooms && Waiting(x.s.rooms[id], role, uuid).Some?
      ensures var w := Waiting(x.s.rooms[id], role, uuid).value; w in x.handlers && x.handlers[w].stage.InSlot?
    {
      assert RelayTheorems.Slotted(x.s, x.lapsed, x.handlers, id, role, uuid);
    }
  }

  lemma {:induction false} RunHolds(lim: Limits, ops: seq<Op>)
    requires Runs(Start(), lim, ops)
    ensures Holding(After(Start(), lim, ops), Registered(lim, ops), ops) && RelayTheorems.Good(After(Start(), lim, ops))
  {
    hide Step, RelayTheorems.Good, Holding, Granted;
    if ops == [] {
      RelayTheorems.StartGood();
      assert Holding(Start(), map[], []) by { NothingYet(); }
    } else {
      var (before, op) := (ops[..|ops| - 1], ops[|ops| - 1]);
      RunHolds(lim, before);
      StepArrived(After(Start(), lim, before), Registered(lim, before), lim, before, op);
      RelayTheorems.StepKeeps(After(Start(), lim, before), lim, op);
      assert before + [op] == ops;
    }
  }

  lemma NothingYet()
    ensures Holding(Start(), map[], [])
  {}

  // ---------- the theorems ----------

  /** In every run, whoever was told to wait, waits or is served was admitted when it arrived: as
      a HOST it carried the owner's token of the registration it cloned the token of, and a
      secured room was the one it had selected. */
  lemma AdmittedTheorem(lim: Limits, ops: seq<Op>, k: nat)
    requires Runs(Start(), lim, ops)
    requires k in After(Start(), lim, ops).handlers
    requires var h := After(Start(), lim, ops).handlers[k]; h.stage.Told? || h.stage.InSlot? || h.stage.Served?
    ensures ArrivedIn(Registered(lim, ops), ops, After(Start(), lim, ops).handlers[k])
  {
    hide RelayTheorems.Good, Step, Registered, Granted, Admitted;
    RunHolds(lim, ops);
  }

  /** So the HOST of a pairing is the owner's: of the registration both came with, or, if that
      of either had lapsed, of its own. */
  lemma HostIsOwner(lim: Limits, ops: seq<Op>, i: nat)
    requires Runs(Start(), lim, ops) && i < |After(Start(), lim, ops).pairs|
    ensures var (x, regs) := (After(Start(), lim, ops), Registered(lim, ops));
      var p := x.pairs[i];
      && p.first in x.handlers && p.second in x.handlers
      && var (a, b) := (x.handlers[p.first], x.handlers[p.second]);
         var (host, guest) := if a.conn.role.Host? then (a, b) else (b, a);
         && host.token in regs && guest.token in regs
         && host.conn.role.Host? && guest.conn.role.GuestSide?
         && host.conn.owner == regs[host.token].owner
         && (host.token == guest.token || host.token in x.lapsed || guest.token in x.lapsed)
  {
    RunHolds(lim, ops);
    var x := After(Start(), lim, ops);
    assert RelayTheorems.Matched(x.handlers, x.lapsed, x.pairs[i]);
    var p := x.pairs[i];
    hide RelayTheorems.Good, Step, Registered, Granted, After, Runs;
    AdmittedTheorem(lim, ops, p.first);
    AdmittedTheorem(lim, ops, p.second);
  }

  /** The registration a room stands for now. */
  ghost function Current(x: Sys, regs: Registry, id: string): Option<Registration> {
    if id in x.s.rooms && x.s.rooms[id].token in regs then Some(regs[x.s.rooms[id].token]) else None
  }

  /** Exactly who gets in on arrival, and what becomes of it. */
  lemma ArrivalOutcome(lim: Limits, ops: seq<Op>, conn: Conn, now: nat)
    requires Runs(Start(), lim, ops)
    ensures var x := After(Start(), lim, ops);
      var (g, o) := (Current(x, Registered(lim, ops), conn.room), Arrive(x.s, conn, now).1);
      && (g.None? <==> conn.room !in x.s.rooms)
      && (g.None? ==> o == Bail)
      && (g.Some? ==>
            var (r, secured) := (x.s.rooms[conn.room], g.value.access.Some?);
            var other := Waiting(r, if conn.role.Host? then GuestSide else Host, conn.uuid);
            if secured && conn.selected != Some(conn.room) then o == Bail
            else if now >= g.value.until || (conn.role.Host? && conn.owner != g.value.owner) then o == AuthError
            else if other.Some? then o == Paired(other.value, r.token)
            else if |r.relayHosts| + |r.relayGuests| >= 128 then o == Bail
            else o == Wait(r.token))
  {
    hide RelayTheorems.Good, Step, Registered, Granted, Waiting, After, Runs;
    RunHolds(lim, ops);
  }

  /** Exactly when a handler that was told to wait is paired or takes its slot. */
  lemma ParkOutcome(lim: Limits, ops: seq<Op>, k: nat, now: nat)
    requires Runs(Start(), lim, ops) && k in After(Start(), lim, ops).handlers
    ensures var x := After(Start(), lim, ops);
      var h := x.handlers[k];
      var (g, o) := (Current(x, Registered(lim, ops), h.conn.room), Park(x.s, h.conn, h.token, now).1);
      if g.None? || now >= g.value.until || h.token in x.s.cancelled then o == Bail
      else
        var other := Waiting(x.s.rooms[h.conn.room], if h.conn.role.Host? then GuestSide else Host, h.conn.uuid);
        o == if other.Some? then Paired(other.value, h.token) else Parked
  {
    hide RelayTheorems.Good, Step, Registered, Granted, Waiting, After, Runs;
    RunHolds(lim, ops);
  }

  /** The operation ends the room's registration: it finds it expired, or its owner deletes the
      room or secures it. */
  ghost predicate Ends(s: Server, regs: Registry, op: Op, id: string) {
    && id in s.rooms && s.rooms[id].token in regs
    && var g := regs[s.rooms[id].token];
       match op
       case CreateOp(_, draws, _, now) => draws != [] && now >= g.until
       case JoinOp(_, _, now) => now >= g.until
       case LookupOp(room, now) => room == id && now >= g.until
       case RenewOp(room, owner, now) => room == id && owner == g.owner && now >= g.until
       case DeleteOp(room, owner) => room == id && owner == g.owner
       case SecureOp(room, owner, _) => room == id && owner == g.owner
       case _ => false
  }

  ghost predicate Stands(s: Server, t: Server, id: string) {
    id in s.rooms && id in t.rooms && t.rooms[id].token == s.rooms[id].token
  }

  /** A room's registration ends exactly so, and nobody else can end it. */
  lemma RoomEnds(lim: Limits, ops: seq<Op>, op: Op, id: string)
    requires Runs(Start(), lim, ops) && id in After(Start(), lim, ops).s.rooms
    ensures var x := After(Start(), lim, ops);
      Stands(x.s, Step(x, lim, op).s, id) <==> !Ends(x.s, Registered(lim, ops), op, id)
  {
    RunHolds(lim, ops);
    hide *;
    HoldsBacked(After(Start(), lim, ops), Registered(lim, ops), ops);
    RoomEndsStep(After(Start(), lim, ops), Registered(lim, ops), lim, op, id);
  }

  lemma HoldsBacked(x: Sys, regs: Registry, ops: seq<Op>)
    requires Holding(x, regs, ops)
    ensures Backed(x.s, regs)
  {}

  lemma RoomEndsStep(x: Sys, regs: Registry, lim: Limits, op: Op, id: string)
    requires Backed(x.s, regs) && id in x.s.rooms
    ensures Stands(x.s, Step(x, lim, op).s, id) <==> !Ends(x.s, regs, op, id)
  {
    hide Create, Join, Arrive, Park, Leave, Pending, Lapsing, Dropping;
    match op {
      case CreateOp(_, _, _, _) => CreateEnds(x, regs, lim, op, id);
      case JoinOp(_, _, _) => JoinEnds(x, regs, lim, op, id);
      case ArriveOp(conn, now) => SlotsStand(x.s, conn, 0, now, id);
      case ParkOp(k, now) =>
        if k in x.handlers { SlotsStand(x.s, x.handlers[k].conn, x.handlers[k].token, now, id); }
      case TimeoutOp(k) =>
        if k in x.handlers { SlotsStand(x.s, x.handlers[k].conn, 0, 0, id); }
      case _ => hide Total;
    }
  }

  lemma CreateEnds(x: Sys, regs: Registry, lim: Limits, op: Op, id: string)
    requires Backed(x.s, regs) && id in x.s.rooms && op.CreateOp?
    ensures Stands(x.s, Step(x, lim, op).s, id) <==> !Ends(x.s, regs, op, id)
  {
    hide Total, GoodMetadata, PickId, Pending, Lapsing;
    assert x.s.rooms[id].token < x.s.next;
  }

  lemma JoinEnds(x: Sys, regs: Registry, lim: Limits, op: Op, id: string)
    requires Backed(x.s, regs) && id in x.s.rooms && op.JoinOp?
    ensures Stands(x.s, Step(x, lim, op).s, id) <==> !Ends(x.s, regs, op, id)
  {
    hide Total, GoodMember, Clashes, Assign, FreeName, Pending, Lapsing;
  }

  lemma SlotsStand(s: Server, conn: Conn, token: nat, now: nat, id: string)
    requires id in s.rooms
    ensures Stands(s, Arrive(s, conn, now).0, id) && Stands(s, Park(s, conn, token, now).0, id) && Stands(s, Leave(s, conn), id)
  {
    hide Waiting, Vacate, Occupy;
    if conn.room in s.rooms {
      VacateKeeps(s.rooms[conn.room], Opposite(conn.role), conn.uuid);
      VacateKeeps(s.rooms[conn.room], conn.role, conn.uuid);
      OccupyKeeps(s.rooms[conn.room], conn.role, conn.uuid, conn.id);
    }
  }
}
