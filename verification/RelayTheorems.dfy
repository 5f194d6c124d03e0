/** The relay rendezvous over every interleaving of its locked sections with the handlers
    that create, secure, delete and forget rooms. */
module RelayTheorems {
  import opened Bytes
  import opened RoomSpec
  import opened RelaySpec
  import opened RoomSystem

  // ---------- the invariant ----------

  ghost predicate Tokens(s: Server, lapsed: set<nat>) {
    && (forall id | id in s.rooms ::
          s.rooms[id].token < s.next && s.rooms[id].token !in s.cancelled && s.rooms[id].token !in lapsed)
    && (forall t | t in s.cancelled || t in lapsed :: t < s.next)
    && s.cancelled !! lapsed
  }

  /** The token a handler cloned is its room's, or cancelled, or lapsed. */
  ghost predicate Bound(s: Server, lapsed: set<nat>, h: Handler) {
    && h.token <= s.next
    && (h.stage.Told? || h.stage.InSlot? ==>
          h.token in s.cancelled || h.token in lapsed
          || (h.conn.room in s.rooms && s.rooms[h.conn.room].token == h.token))
  }

  /** Who waits in a slot belongs there, came with the room's token, and has not been signalled. */
  ghost predicate Slotted(s: Server, lapsed: set<nat>, handlers: map<nat, Handler>,
                          id: string, role: Role, uuid: string)
    requires id in s.rooms
  {
    match Waiting(s.rooms[id], role, uuid)
    case None => true
    case Some(k) =>
      && k in handlers && k !in s.done
      && var h := handlers[k];
         && h.stage.InSlot? && h.conn.room == id && h.conn.role == role && h.conn.uuid == uuid
         && (h.token == s.rooms[id].token || h.token in lapsed)
  }

  ghost predicate Alone(r: Room) {
    NoDash(r) && forall uuid :: Waiting(r, Host, uuid).None? || Waiting(r, GuestSide, uuid).None?
  }

  /** A handler in its slot is found there unless it was signalled; before, nobody signals it. */
  ghost predicate Placed(s: Server, h: Handler) {
    && (h.stage.Told? ==> h.conn.id !in s.done)
    && (h.stage.InSlot? && h.conn.id !in s.done ==>
          h.conn.room in s.rooms
          && Waiting(s.rooms[h.conn.room], h.conn.role, h.conn.uuid) == Some(h.conn.id))
  }

  /** One HOST and one GUEST of a room and key. */
  ghost predicate Matched(handlers: map<nat, Handler>, lapsed: set<nat>, p: Pairing) {
    && p.first in handlers && p.second in handlers && p.first != p.second
    && var (a, b) := (handlers[p.first], handlers[p.second]);
       && a.stage.Served? && b.stage.Served?
       && a.conn.room == b.conn.room && a.conn.uuid == b.conn.uuid && b.conn.role == Opposite(a.conn.role)
       && (a.token == b.token || a.token in lapsed || b.token in lapsed)
  }

  ghost predicate Disjoint(pairs: seq<Pairing>) {
    forall i, j | 0 <= i < j < |pairs| ::
      pairs[i].first != pairs[j].first && pairs[i].first != pairs[j].second
      && pairs[i].second != pairs[j].first && pairs[i].second != pairs[j].second
  }

  ghost predicate Inv(x: Sys) {
    && Tokens(x.s, x.lapsed)
    && x.s.done <= x.handlers.Keys
    && (forall k | k in x.handlers ::
          x.handlers[k].conn.id == k && Bound(x.s, x.lapsed, x.handlers[k]) && Placed(x.s, x.handlers[k]))
    && (forall id | id in x.s.rooms :: Alone(x.s.rooms[id]))
    && (forall id, role, uuid | id in x.s.rooms :: Slotted(x.s, x.lapsed, x.handlers, id, role, uuid))
    && (forall i | 0 <= i < |x.pairs| :: Matched(x.handlers, x.lapsed, x.pairs[i]))
    && Disjoint(x.pairs)
  }

  // ---------- HTTP handlers ----------

  ghost predicate SameSlots(r: Room, q: Room) {
    && q.token == r.token && q.relayHost == r.relayHost && q.relayGuest == r.relayGuest
    && q.relayHosts == r.relayHosts && q.relayGuests == r.relayGuests
  }

  ghost predicate Stays(s: Server, s': Server, id: string) {
    id in s.rooms && id in s'.rooms && SameSlots(s.rooms[id], s'.rooms[id])
  }

  /** Every room stays as it is to relay handlers, or goes for good: its token is cancelled or
      lapses and whoever waited is signalled. Every other room is new and empty. */
  ghost predicate Shift(s: Server, s': Server, lapsed: set<nat>, lapsed': set<nat>) {
    && s.next <= s'.next && s.done <= s'.done && s.cancelled <= s'.cancelled && lapsed <= lapsed'
    && (forall id | id in s.rooms && !Stays(s, s', id) ::
          Pending(s.rooms[id]) <= s'.done && (s.rooms[id].token in s'.cancelled || s.rooms[id].token in lapsed'))
    && (forall id | id in s'.rooms && !Stays(s, s', id) ::
          Empty(s'.rooms[id]) && s.next <= s'.rooms[id].token < s'.next)
    && (forall a, b | a in s'.rooms && b in s'.rooms && a != b && !Stays(s, s', a) && !Stays(s, s', b) ::
          s'.rooms[a].token != s'.rooms[b].token)
    && (forall k | k in s'.done && k !in s.done ::
          exists id | id in s.rooms :: !Stays(s, s', id) && k in Pending(s.rooms[id]))
    && (forall t | t in s'.cancelled && t !in s.cancelled ::
          t !in lapsed' && exists id | id in s.rooms :: !Stays(s, s', id) && t == s.rooms[id].token)
    && (forall t | t in lapsed' && t !in lapsed ::
          t !in s'.cancelled && exists id | id in s.rooms :: !Stays(s, s', id) && t == s.rooms[id].token)
  }

  /** Rooms have different tokens. */
  ghost predicate DistinctTokens(s: Server) {
    forall a, b | a in s.rooms && b in s.rooms && s.rooms[a].token == s.rooms[b].token :: a == b
  }

  lemma ShiftTokens(s: Server, s': Server, lapsed: set<nat>, lapsed': set<nat>)
    requires Tokens(s, lapsed) && DistinctTokens(s) && Shift(s, s', lapsed, lapsed')
    ensures Tokens(s', lapsed') && DistinctTokens(s')
  {}

  lemma SameWaiting(r: Room, q: Room, role: Role, uuid: string)
    requires SameSlots(r, q)
    ensures Waiting(q, role, uuid) == Waiting(r, role, uuid) && NoDash(q) == NoDash(r)
  {}

  lemma EmptyWaiting(r: Room, role: Role, uuid: string)
    requires Empty(r)
    ensures Waiting(r, role, uuid).None? && NoDash(r)
  {}

  /** A handler waits in at most one slot. */
  lemma OneSlot(x: Sys, a: string, role: Role, uuid: string, b: string, k: nat)
    requires Inv(x) && a in x.s.rooms && b in x.s.rooms
    requires Waiting(x.s.rooms[a], role, uuid) == Some(k) && k in Pending(x.s.rooms[b])
    ensures a == b
  {
    hide Tokens, Bound, Placed, Matched, Disjoint, Pending;
    assert Slotted(x.s, x.lapsed, x.handlers, a, role, uuid);
    assert Alone(x.s.rooms[b]);
    PendingMeans(x.s.rooms[b], k);
    var role', uuid' :| Waiting(x.s.rooms[b], role', uuid') == Some(k);
    assert Slotted(x.s, x.lapsed, x.handlers, b, role', uuid');
  }

  lemma ShiftSlotted(x: Sys, s': Server, lapsed': set<nat>, id: string, role: Role, uuid: string)
    requires Inv(x) && Shift(x.s, s', x.lapsed, lapsed') && id in s'.rooms
    ensures Slotted(s', lapsed', x.handlers, id, role, uuid)
  {
    if Stays(x.s, s', id) {
      assert Slotted(x.s, x.lapsed, x.handlers, id, role, uuid);
      SameWaiting(x.s.rooms[id], s'.rooms[id], role, uuid);
      var w := Waiting(x.s.rooms[id], role, uuid);
      if w.Some? && w.value in s'.done {
        var d :| d in x.s.rooms && !Stays(x.s, s', d) && w.value in Pending(x.s.rooms[d]);
        OneSlot(x, id, role, uuid, d, w.value);
      }
    } else {
      EmptyWaiting(s'.rooms[id], role, uuid);
    }
  }

  lemma ShiftAlone(x: Sys, s': Server, lapsed': set<nat>, id: string)
    requires Inv(x) && Shift(x.s, s', x.lapsed, lapsed') && id in s'.rooms
    ensures Alone(s'.rooms[id])
  {
    hide Waiting, Pending, Tokens, Bound, Placed, Slotted, Matched, Disjoint, NoDash;
    forall uuid
      ensures NoDash(s'.rooms[id])
      ensures Waiting(s'.rooms[id], Host, uuid).None? || Waiting(s'.rooms[id], GuestSide, uuid).None?
    {
      if Stays(x.s, s', id) {
        assert Alone(x.s.rooms[id]);
        SameWaiting(x.s.rooms[id], s'.rooms[id], Host, uuid);
        SameWaiting(x.s.rooms[id], s'.rooms[id], GuestSide, uuid);
      } else {
        EmptyWaiting(s'.rooms[id], Host, uuid);
        EmptyWaiting(s'.rooms[id], GuestSide, uuid);
      }
    }
    var some := Waiting(s'.rooms[id], Host, "");
    assert NoDash(s'.rooms[id]);
  }

  lemma ShiftHandler(x: Sys, s': Server, lapsed': set<nat>, k: nat)
    requires Inv(x) && Shift(x.s, s', x.lapsed, lapsed') && k in x.handlers
    ensures Bound(s', lapsed', x.handlers[k]) && Placed(s', x.handlers[k])
  {
    hide Waiting, Pending, Tokens, Matched, Disjoint, Empty;
    var h := x.handlers[k];
    assert Bound(x.s, x.lapsed, h) && Placed(x.s, h);
    if h.stage.Told? && k in s'.done {
      var d :| d in x.s.rooms && !Stays(x.s, s', d) && k in Pending(x.s.rooms[d]);
      PendingWaits(x, d, k);
    }
    if h.stage.InSlot? && k !in s'.done {
      var id := h.conn.room;
      assert Alone(x.s.rooms[id]);
      PendingMeans(x.s.rooms[id], k);
      assert Stays(x.s, s', id);
      SameWaiting(x.s.rooms[id], s'.rooms[id], h.conn.role, h.conn.uuid);
    }
  }

  lemma PendingWaits(x: Sys, id: string, k: nat)
    requires Inv(x) && id in x.s.rooms && k in Pending(x.s.rooms[id])
    ensures k in x.handlers && x.handlers[k].stage.InSlot?
  {
    hide Tokens, Bound, Placed, Matched, Disjoint, Pending, Waiting;
    assert Alone(x.s.rooms[id]);
    PendingMeans(x.s.rooms[id], k);
    var role, uuid :| Waiting(x.s.rooms[id], role, uuid) == Some(k);
    assert Slotted(x.s, x.lapsed, x.handlers, id, role, uuid);
  }

  lemma ShiftKeeps(x: Sys, x': Sys)
    requires Inv(x) && DistinctTokens(x.s) && Shift(x.s, x'.s, x.lapsed, x'.lapsed)
    requires x'.handlers == x.handlers && x'.pairs == x.pairs
    ensures Inv(x') && DistinctTokens(x'.s)
  {
    hide Waiting, Pending, Tokens, DistinctTokens, Bound, Placed, Slotted, Alone, Disjoint, Empty, Stays;
    ShiftTokens(x.s, x'.s, x.lapsed, x'.lapsed);
    forall k | k in x'.s.done ensures k in x.handlers {
      if k !in x.s.done {
        var d :| d in x.s.rooms && !Stays(x.s, x'.s, d) && k in Pending(x.s.rooms[d]);
        PendingWaits(x, d, k);
      }
    }
    forall k | k in x.handlers ensures Bound(x'.s, x'.lapsed, x.handlers[k]) && Placed(x'.s, x.handlers[k]) {
      ShiftHandler(x, x'.s, x'.lapsed, k);
    }
    forall id | id in x'.s.rooms ensures Alone(x'.s.rooms[id]) {
      ShiftAlone(x, x'.s, x'.lapsed, id);
    }
    forall id, role, uuid | id in x'.s.rooms ensures Slotted(x'.s, x'.lapsed, x'.handlers, id, role, uuid) {
      ShiftSlotted(x, x'.s, x'.lapsed, id, role, uuid);
    }
    forall i | 0 <= i < |x.pairs| ensures Matched(x'.handlers, x'.lapsed, x'.pairs[i]) {
      assert Matched(x.handlers, x.lapsed, x.pairs[i]);
    }
  }

  lemma RetainShifts(s: Server, lapsed: set<nat>, now: nat)
    requires Tokens(s, lapsed) && DistinctTokens(s)
    ensures Shift(s, Retain(s, now), lapsed, lapsed + Lapsing(s, now))
  {}

  lemma CreateShifts(s: Server, lapsed: set<nat>, id: string, r: Room)
    requires id !in s.rooms && Empty(r) && r.token == s.next
    ensures Shift(s, s.(rooms := s.rooms[id := r], next := s.next + 1), lapsed, lapsed)
  {}

  lemma JoinShifts(s: Server, lapsed: set<nat>, id: string, r: Room)
    requires id in s.rooms && SameSlots(s.rooms[id], r)
    ensures Shift(s, s.(rooms := s.rooms[id := r]), lapsed, lapsed)
  {}

  lemma SecureShifts(s: Server, lapsed: set<nat>, id: string, r: Room)
    requires Tokens(s, lapsed) && id in s.rooms && Empty(r) && r.token == s.next
    ensures Shift(s, Server(s.rooms[id := r], s.cancelled + {s.rooms[id].token},
                            s.done + Pending(s.rooms[id]), s.next + 1), lapsed, lapsed)
  {}

  lemma DeleteShifts(s: Server, lapsed: set<nat>, id: string)
    requires Tokens(s, lapsed) && id in s.rooms
    ensures Shift(s, s.(rooms := s.rooms - {id}, cancelled := s.cancelled + {s.rooms[id].token},
                        done := s.done + Pending(s.rooms[id])), lapsed, lapsed)
  {}

  lemma ForgetShifts(s: Server, lapsed: set<nat>, id: string)
    requires Tokens(s, lapsed) && id in s.rooms
    ensures Dropping(s, Forget(s, id)) == {s.rooms[id].token}
    ensures Shift(s, Forget(s, id), lapsed, lapsed + {s.rooms[id].token})
  {}

  ghost predicate Good(x: Sys) {
    Inv(x) && DistinctTokens(x.s)
  }

  lemma RetainKeeps(x: Sys, now: nat)
    requires Good(x)
    ensures Good(x.(s := Retain(x.s, now), lapsed := x.lapsed + Lapsing(x.s, now)))
  {
    hide *;
    Unpack(x);
    RetainShifts(x.s, x.lapsed, now);
    Shifted(x, x.(s := Retain(x.s, now), lapsed := x.lapsed + Lapsing(x.s, now)));
  }

  lemma Unpack(x: Sys)
    requires Good(x)
    ensures Inv(x) && DistinctTokens(x.s) && Tokens(x.s, x.lapsed)
  {}

  lemma Shifted(x: Sys, x': Sys)
    requires Good(x) && Shift(x.s, x'.s, x.lapsed, x'.lapsed)
    requires x'.handlers == x.handlers && x'.pairs == x.pairs
    ensures Good(x')
  {
    hide Inv, DistinctTokens, Shift;
    ShiftKeeps(x, x');
  }

  lemma CreateKeeps(x: Sys, lim: Limits, op: Op)
    requires op.CreateOp? && Good(x)
    ensures Good(Step(x, lim, op))
  {
    hide Good, Shift, Total, GoodMetadata, PickId, Empty, Retain, Lapsing;
    if op.draws != [] {
      RetainKeeps(x, op.now);
      var y := x.(s := Retain(x.s, op.now), lapsed := x.lapsed + Lapsing(x.s, op.now));
      var (s, r) := Create(x.s, lim, op.req, op.draws, op.owner, op.now);
      if r.Ok? {
        NewEmpty(op.req, op.owner, y.s.next, op.now);
        CreateShifts(y.s, y.lapsed, r.value, NewRoom(op.req, op.owner, y.s.next, op.now));
        Shifted(y, y.(s := s));
      }
    }
  }

  lemma NewEmpty(req: CreateRequest, owner: string, token: nat, now: nat)
    ensures Empty(NewRoom(req, owner, token, now)) && NewRoom(req, owner, token, now).token == token
  {}

  lemma AdmitSlots(r: Room, req: JoinRequest)
    ensures SameSlots(r, Admit(r, req).0)
  {}

  lemma JoinKeeps(x: Sys, lim: Limits, op: Op)
    requires op.JoinOp? && Good(x)
    ensures Good(Step(x, lim, op))
  {
    hide Good, Shift, Total, GoodMember, Clashes, Admit, SameSlots, Retain, Lapsing;
    RetainKeeps(x, op.now);
    var y := x.(s := Retain(x.s, op.now), lapsed := x.lapsed + Lapsing(x.s, op.now));
    var (s, j) := Join(x.s, lim, op.id, op.joining, op.now);
    if j.Ok? {
      AdmitSlots(y.s.rooms[op.id], op.joining);
      JoinShifts(y.s, y.lapsed, op.id, Admit(y.s.rooms[op.id], op.joining).0);
      Shifted(y, y.(s := s));
    }
  }

  lemma SecureKeeps(x: Sys, lim: Limits, op: Op)
    requires op.SecureOp? && Good(x)
    ensures Good(Step(x, lim, op))
  {
    hide *;
    Unpack(x);
    SecureStep(x, lim, op);
    if op.id in x.s.rooms && Step(x, lim, op) != x {
      SecureShifts(x.s, x.lapsed, op.id, Step(x, lim, op).s.rooms[op.id]);
      Shifted(x, Step(x, lim, op));
    }
  }

  lemma SecureStep(x: Sys, lim: Limits, op: Op)
    requires op.SecureOp?
    ensures var y := Step(x, lim, op);
      y == x
      || (op.id in x.s.rooms && op.id in y.s.rooms
          && var r := y.s.rooms[op.id];
             Empty(r) && r.token == x.s.next
             && y == x.(s := Server(x.s.rooms[op.id := r], x.s.cancelled + {x.s.rooms[op.id].token},
                                    x.s.done + Pending(x.s.rooms[op.id]), x.s.next + 1)))
  {}

  lemma DeleteKeeps(x: Sys, lim: Limits, op: Op)
    requires op.DeleteOp? && Good(x)
    ensures Good(Step(x, lim, op))
  {
    Unpack(x);
    hide Good, Shift, Pending, Tokens, Inv, DistinctTokens;
    var (s, d) := Delete(x.s, op.id, op.owner);
    if d.Ok? {
      DeleteShifts(x.s, x.lapsed, op.id);
      Shifted(x, x.(s := s));
    }
  }

  lemma ForgettingKeeps(x: Sys, lim: Limits, op: Op)
    requires (op.LookupOp? || op.RenewOp?) && Good(x)
    ensures Good(Step(x, lim, op))
  {
    Unpack(x);
    hide Good, Shift, Pending, Tokens, Inv, DistinctTokens, Forget, Dropping;
    var y := Step(x, lim, op);
    if y.s == x.s {
      assert Dropping(x.s, x.s) == {} by { NothingDropped(x.s); }
      assert x.lapsed + {} == x.lapsed;
    } else {
      ForgetShifts(x.s, x.lapsed, op.id);
      Shifted(x, y);
    }
  }

  lemma NothingDropped(s: Server)
    ensures Dropping(s, s) == {}
  {}

  // ---------- relay handlers ----------

  /** `k` is new, or was told to wait: it is in no slot and no pairing. */
  ghost predicate Roaming(x: Sys, k: nat) {
    k in x.handlers ==> x.handlers[k].stage.Told?
  }

  /** What changing only handler `k` of those outside slots and pairings preserves. */
  lemma RestageKeeps(x: Sys, h: Handler)
    requires Good(x) && Roaming(x, h.conn.id) && (h.stage.Left? || h.stage.Told?)
    requires Bound(x.s, x.lapsed, h) && Placed(x.s, h)
    ensures Good(x.(handlers := x.handlers[h.conn.id := h]))
  {
    hide Tokens, Bound, Placed, Alone, DistinctTokens, Disjoint, Waiting;
    var x' := x.(handlers := x.handlers[h.conn.id := h]);
    forall id, role, uuid | id in x'.s.rooms ensures Slotted(x'.s, x'.lapsed, x'.handlers, id, role, uuid) {
      assert Slotted(x.s, x.lapsed, x.handlers, id, role, uuid);
    }
    forall i | 0 <= i < |x.pairs| ensures Matched(x'.handlers, x'.lapsed, x'.pairs[i]) {
      assert Matched(x.handlers, x.lapsed, x.pairs[i]);
    }
  }

  /** One room's slots changed, its token did not. */
  lemma SlotTokens(x: Sys, id: string, r: Room, done: set<nat>)
    requires Good(x) && id in x.s.rooms && r.token == x.s.rooms[id].token
    ensures var s' := x.s.(rooms := x.s.rooms[id := r], done := done);
      && Tokens(s', x.lapsed) && DistinctTokens(s')
      && forall k | k in x.handlers :: Bound(s', x.lapsed, x.handlers[k])
  {}

  lemma VacateAlone(r: Room, role: Role, uuid: string)
    requires Alone(r)
    ensures Alone(Vacate(r, role, uuid))
  {
    hide Waiting, Vacate, NoDash;
    VacateKeeps(r, role, uuid);
    forall u
      ensures Waiting(Vacate(r, role, uuid), Host, u).None? || Waiting(Vacate(r, role, uuid), GuestSide, u).None?
    {
      AfterVacate(r, role, uuid, Host, u);
      AfterVacate(r, role, uuid, GuestSide, u);
    }
  }

  lemma OccupyAlone(r: Room, role: Role, uuid: string, k: nat)
    requires Alone(r) && Waiting(r, Opposite(role), uuid).None?
    ensures Alone(Occupy(r, role, uuid, k))
  {
    hide Waiting, Occupy, NoDash;
    OccupyKeeps(r, role, uuid, k);
    forall u
      ensures Waiting(Occupy(r, role, uuid, k), Host, u).None? || Waiting(Occupy(r, role, uuid, k), GuestSide, u).None?
    {
      AfterOccupy(r, role, uuid, k, Host, u);
      AfterOccupy(r, role, uuid, k, GuestSide, u);
    }
  }

  /** The slot of `k` is emptied, `k` is signalled and moves on. */
  function Released(x: Sys, k: nat, stage: Stage): Sys
    requires k in x.handlers && x.handlers[k].conn.room in x.s.rooms
  {
    var h := x.handlers[k];
    x.(s := x.s.(rooms := x.s.rooms[h.conn.room := Vacate(x.s.rooms[h.conn.room], h.conn.role, h.conn.uuid)],
                 done := x.s.done + {k}),
       handlers := x.handlers[k := h.(stage := stage)])
  }

  ghost predicate Holds(x: Sys, k: nat) {
    && k in x.handlers && x.handlers[k].stage.InSlot? && x.handlers[k].conn.room in x.s.rooms
    && var c := x.handlers[k].conn; Waiting(x.s.rooms[c.room], c.role, c.uuid) == Some(k)
  }

  lemma ReleasedSlotted(x: Sys, k: nat, stage: Stage, id: string, role: Role, uuid: string)
    requires Inv(x) && Holds(x, k) && id in x.s.rooms
    ensures var x' := Released(x, k, stage); Slotted(x'.s, x'.lapsed, x'.handlers, id, role, uuid)
  {
    hide Tokens, Bound, Placed, Alone, Matched, Disjoint, Waiting, Vacate;
    assert Slotted(x.s, x.lapsed, x.handlers, id, role, uuid);
    var c := x.handlers[k].conn;
    AfterVacate(x.s.rooms[c.room], c.role, c.uuid, role, uuid);
    VacateKeeps(x.s.rooms[c.room], c.role, c.uuid);
  }

  lemma ReleasedPlaced(x: Sys, k: nat, stage: Stage, j: nat)
    requires Inv(x) && Holds(x, k) && j in x.handlers && (stage.Left? || stage.Served?)
    ensures var x' := Released(x, k, stage); Placed(x'.s, x'.handlers[j])
  {
    hide Tokens, Bound, Slotted, Alone, Matched, Disjoint, Waiting, Vacate;
    assert Placed(x.s, x.handlers[j]);
    var (c, d) := (x.handlers[k].conn, x.handlers[j].conn);
    AfterVacate(x.s.rooms[c.room], c.role, c.uuid, d.role, d.uuid);
  }

  lemma ReleasedKeeps(x: Sys, k: nat, stage: Stage)
    requires Good(x) && Holds(x, k) && (stage.Left? || stage.Served?)
    ensures Good(Released(x, k, stage))
  {
    var x' := Released(x, k, stage);
    var c := x.handlers[k].conn;
    var r := x.s.rooms[c.room];
    VacateKeeps(r, c.role, c.uuid);
    SlotTokens(x, c.room, Vacate(r, c.role, c.uuid), x'.s.done);
    assert Alone(r);
    VacateAlone(r, c.role, c.uuid);
    RestagedBound(x'.s, x.lapsed, x.handlers[k], stage);
    hide Tokens, Bound, Placed, Slotted, Alone, DistinctTokens, Disjoint, Waiting, Vacate, NoDash;
    forall j | j in x'.handlers
      ensures x'.handlers[j].conn.id == j && Bound(x'.s, x'.lapsed, x'.handlers[j]) && Placed(x'.s, x'.handlers[j])
    {
      ReleasedPlaced(x, k, stage, j);
    }
    forall id, role, uuid | id in x'.s.rooms ensures Slotted(x'.s, x'.lapsed, x'.handlers, id, role, uuid) {
      ReleasedSlotted(x, k, stage, id, role, uuid);
    }
    forall i | 0 <= i < |x.pairs| ensures Matched(x'.handlers, x'.lapsed, x'.pairs[i]) {
      assert Matched(x.handlers, x.lapsed, x.pairs[i]);
    }
  }

  lemma RestagedBound(s: Server, lapsed: set<nat>, h: Handler, stage: Stage)
    requires Bound(s, lapsed, h) && (stage.Left? || stage.Served?)
    ensures Bound(s, lapsed, h.(stage := stage))
  {}

  /** Two handlers that have moved on become a pairing. */
  lemma JoinedKeeps(x: Sys, h: Handler, other: nat)
    requires Good(x) && Roaming(x, h.conn.id) && h.stage.Served? && h.token <= x.s.next
    requires other in x.handlers && other != h.conn.id && x.handlers[other].stage.Served?
    requires forall i | 0 <= i < |x.pairs| :: x.pairs[i].first != other && x.pairs[i].second != other
    requires var c := x.handlers[other].conn;
      c.room == h.conn.room && c.uuid == h.conn.uuid && c.role == Opposite(h.conn.role)
    requires h.token == x.handlers[other].token || h.token in x.lapsed || x.handlers[other].token in x.lapsed
    ensures Good(Sys(x.s, x.handlers[h.conn.id := h], x.pairs + [Pairing(h.conn.id, other)], x.lapsed))
  {
    var k := h.conn.id;
    var x' := Sys(x.s, x.handlers[k := h], x.pairs + [Pairing(k, other)], x.lapsed);
    assert Bound(x'.s, x'.lapsed, h) && Placed(x'.s, h);
    forall i | 0 <= i < |x.pairs|
      ensures x.pairs[i].first != k && x.pairs[i].second != k && Matched(x'.handlers, x'.lapsed, x.pairs[i])
    {
      assert Matched(x.handlers, x.lapsed, x.pairs[i]);
    }
    assert Disjoint(x'.pairs) by {
      hide Tokens, Bound, Placed, Slotted, Alone, DistinctTokens, Matched;
    }
    hide Tokens, Bound, Placed, Alone, DistinctTokens, Disjoint, Waiting;
    forall id, role, uuid | id in x'.s.rooms ensures Slotted(x'.s, x'.lapsed, x'.handlers, id, role, uuid) {
      assert Slotted(x.s, x.lapsed, x.handlers, id, role, uuid);
    }
    assert Matched(x'.handlers, x'.lapsed, Pairing(k, other));
  }

  /** A handler told to wait takes its slot, dropping whoever was in it. */
  function Entered(x: Sys, h: Handler): Sys
    requires h.conn.room in x.s.rooms
  {
    var c := h.conn;
    var r := x.s.rooms[c.room];
    x.(s := x.s.(rooms := x.s.rooms[c.room := Occupy(r, c.role, c.uuid, c.id)],
                 done := x.s.done + Only(Waiting(r, c.role, c.uuid))),
       handlers := x.handlers[c.id := h.(stage := InSlot)])
  }

  ghost predicate MayEnter(x: Sys, h: Handler) {
    && h.conn.id in x.handlers && x.handlers[h.conn.id] == h && h.stage.Told?
    && h.conn.room in x.s.rooms
    && Waiting(x.s.rooms[h.conn.room], Opposite(h.conn.role), h.conn.uuid).None?
    && (h.token == x.s.rooms[h.conn.room].token || h.token in x.lapsed)
  }

  lemma Occupant(x: Sys, c: Conn)
    requires Inv(x) && c.room in x.s.rooms
    ensures var w := Waiting(x.s.rooms[c.room], c.role, c.uuid);
      w.Some? ==> w.value in x.handlers && x.handlers[w.value].stage.InSlot?
  {
    assert Slotted(x.s, x.lapsed, x.handlers, c.room, c.role, c.uuid);
  }

  lemma EnteredSlotted(x: Sys, h: Handler, id: string, role: Role, uuid: string)
    requires Inv(x) && MayEnter(x, h) && id in x.s.rooms
    ensures var x' := Entered(x, h); Slotted(x'.s, x'.lapsed, x'.handlers, id, role, uuid)
  {
    Occupant(x, h.conn);
    assert Placed(x.s, h);
    hide Tokens, Bound, Alone, Matched, Disjoint, Waiting, Occupy;
    var c := h.conn;
    assert Slotted(x.s, x.lapsed, x.handlers, id, role, uuid);
    assert Slotted(x.s, x.lapsed, x.handlers, c.room, c.role, c.uuid);
    hide Inv;
    AfterOccupy(x.s.rooms[c.room], c.role, c.uuid, c.id, role, uuid);
    OccupyKeeps(x.s.rooms[c.room], c.role, c.uuid, c.id);
  }

  lemma EnteredPlaced(x: Sys, h: Handler, j: nat)
    requires Inv(x) && MayEnter(x, h) && j in x.handlers
    ensures var x' := Entered(x, h); Placed(x'.s, x'.handlers[j])
  {
    Occupant(x, h.conn);
    hide Tokens, Bound, Slotted, Alone, Matched, Disjoint, Waiting, Occupy;
    assert Placed(x.s, x.handlers[j]);
    var (c, d) := (h.conn, x.handlers[j].conn);
    AfterOccupy(x.s.rooms[c.room], c.role, c.uuid, c.id, d.role, d.uuid);
  }

  lemma EnteredBound(x: Sys, h: Handler)
    requires Good(x) && MayEnter(x, h)
    ensures Bound(Entered(x, h).s, x.lapsed, h.(stage := InSlot))
  {}

  lemma EnteredKeeps(x: Sys, h: Handler)
    requires Good(x) && MayEnter(x, h)
    ensures Good(Entered(x, h))
  {
    var x' := Entered(x, h);
    var c := h.conn;
    var r := x.s.rooms[c.room];
    OccupyKeeps(r, c.role, c.uuid, c.id);
    SlotTokens(x, c.room, Occupy(r, c.role, c.uuid, c.id), x'.s.done);
    assert Alone(r);
    OccupyAlone(r, c.role, c.uuid, c.id);
    Occupant(x, c);
    EnteredBound(x, h);
    hide Tokens, Bound, Placed, Slotted, Alone, DistinctTokens, Disjoint, Waiting, Occupy, NoDash;
    forall j | j in x'.handlers
      ensures x'.handlers[j].conn.id == j && Bound(x'.s, x'.lapsed, x'.handlers[j]) && Placed(x'.s, x'.handlers[j])
    {
      EnteredPlaced(x, h, j);
    }
    forall id, role, uuid | id in x'.s.rooms ensures Slotted(x'.s, x'.lapsed, x'.handlers, id, role, uuid) {
      EnteredSlotted(x, h, id, role, uuid);
    }
    forall i | 0 <= i < |x.pairs| ensures Matched(x'.handlers, x'.lapsed, x'.pairs[i]) {
      assert Matched(x.handlers, x.lapsed, x.pairs[i]);
    }
  }

  // ---------- the three sections ----------

  /** Finding the counterpart in its slot. */
  lemma FoundKeeps(x: Sys, h: Handler, other: nat)
    requires Good(x) && Roaming(x, h.conn.id) && h.conn.room in x.s.rooms
    requires Waiting(x.s.rooms[h.conn.room], Opposite(h.conn.role), h.conn.uuid) == Some(other)
    requires h.token == x.s.rooms[h.conn.room].token || h.token in x.lapsed
    ensures other in x.handlers && other != h.conn.id
    ensures Good(Record(x, Pair(x.s, h.conn, other), h, Paired(other, h.token)))
  {
    assert Slotted(x.s, x.lapsed, x.handlers, h.conn.room, Opposite(h.conn.role), h.conn.uuid);
    assert h.token <= x.s.next;
    forall i | 0 <= i < |x.pairs| ensures x.pairs[i].first != other && x.pairs[i].second != other {
      assert Matched(x.handlers, x.lapsed, x.pairs[i]);
    }
    hide Inv, DistinctTokens, Waiting, Vacate, Slotted;
    ReleasedKeeps(x, other, Served);
    var y := Released(x, other, Served);
    JoinedKeeps(y, h.(stage := Served), other);
    var z := Record(x, Pair(x.s, h.conn, other), h, Paired(other, h.token));
    assert z.handlers == y.handlers[h.conn.id := h.(stage := Served)];
  }

  lemma ArriveKeeps(x: Sys, lim: Limits, op: Op)
    requires op.ArriveOp? && Good(x) && May(x, op)
    ensures Good(Step(x, lim, op))
  {
    var c := op.conn;
    var (s, o) := Arrive(x.s, c, op.now);
    var h := Handler(c, Left, Cloned(o));
    if o.Paired? {
      hide Good;
      FoundKeeps(x, h, o.other);
    } else {
      assert Tokens(x.s, x.lapsed);
      hide Inv, DistinctTokens, Waiting, Tokens;
      ArrivedBound(x, h.(stage := StageAfter(o)), op.now);
      RestageKeeps(x, h.(stage := StageAfter(o)));
    }
  }

  lemma ArrivedBound(x: Sys, h: Handler, now: nat)
    requires Inv(x) && h.conn.id !in x.handlers
    requires var o := Arrive(x.s, h.conn, now).1; !o.Paired? && h.stage == StageAfter(o) && h.token == Cloned(o)
    ensures Bound(x.s, x.lapsed, h) && Placed(x.s, h) && (h.stage.Left? || h.stage.Told?)
  {}

  lemma ParkKeeps(x: Sys, lim: Limits, op: Op)
    requires op.ParkOp? && Good(x)
    ensures Good(Step(x, lim, op))
  {
    if op.k in x.handlers && x.handlers[op.k].stage.Told? {
      var h := x.handlers[op.k];
      assert h.conn.id == op.k && Bound(x.s, x.lapsed, h) && Placed(x.s, h);
      var (s, o) := Park(x.s, h.conn, h.token, op.now);
      hide Good, Waiting, Pair, Occupy, Placed;
      if o.Paired? {
        FoundKeeps(x, h, o.other);
      } else if o.Parked? {
        EnteredKeeps(x, h);
      } else {
        LeftBound(x.s, x.lapsed, h);
        RestageKeeps(x, h.(stage := Left));
      }
    }
  }

  lemma LeftBound(s: Server, lapsed: set<nat>, h: Handler)
    requires Bound(s, lapsed, h)
    ensures Bound(s, lapsed, h.(stage := Left)) && Placed(s, h.(stage := Left))
  {}

  lemma TimeoutKeeps(x: Sys, lim: Limits, op: Op)
    requires op.TimeoutOp? && Good(x)
    ensures Good(Step(x, lim, op))
  {
    if op.k in x.handlers && x.handlers[op.k].stage.InSlot? {
      var h := x.handlers[op.k];
      assert h.conn.id == op.k && Bound(x.s, x.lapsed, h);
      if Holds(x, op.k) {
        hide Good, Waiting, Vacate;
        ReleasedKeeps(x, op.k, Left);
      } else {
        LeftBound(x.s, x.lapsed, h);
        AwayKeeps(x, h);
      }
    }
  }

  /** A handler that is no longer in its slot gives up. */
  lemma AwayKeeps(x: Sys, h: Handler)
    requires Good(x) && h.conn.id in x.handlers && x.handlers[h.conn.id] == h && h.stage.InSlot? && !Holds(x, h.conn.id)
    requires Bound(x.s, x.lapsed, h.(stage := Left)) && Placed(x.s, h.(stage := Left))
    ensures Good(x.(handlers := x.handlers[h.conn.id := h.(stage := Left)]))
  {
    hide Tokens, Bound, Placed, Alone, DistinctTokens, Disjoint, Waiting;
    var x' := x.(handlers := x.handlers[h.conn.id := h.(stage := Left)]);
    forall id, role, uuid | id in x'.s.rooms ensures Slotted(x'.s, x'.lapsed, x'.handlers, id, role, uuid) {
      assert Slotted(x.s, x.lapsed, x.handlers, id, role, uuid);
    }
    forall i | 0 <= i < |x.pairs| ensures Matched(x'.handlers, x'.lapsed, x'.pairs[i]) {
      assert Matched(x.handlers, x.lapsed, x.pairs[i]);
    }
  }

  lemma StepKeeps(x: Sys, lim: Limits, op: Op)
    requires Good(x) && May(x, op)
    ensures Good(Step(x, lim, op))
  {
    hide Good, Step;
    match op {
      case CreateOp(_, _, _, _) => CreateKeeps(x, lim, op);
      case JoinOp(_, _, _) => JoinKeeps(x, lim, op);
      case LookupOp(_, _) => ForgettingKeeps(x, lim, op);
      case RenewOp(_, _, _) => ForgettingKeeps(x, lim, op);
      case SecureOp(_, _, _) => SecureKeeps(x, lim, op);
      case DeleteOp(_, _) => DeleteKeeps(x, lim, op);
      case ArriveOp(_, _) => ArriveKeeps(x, lim, op);
      case ParkOp(_, _) => ParkKeeps(x, lim, op);
      case TimeoutOp(_) => TimeoutKeeps(x, lim, op);
    }
  }

  lemma {:induction false} RunKeeps(x: Sys, lim: Limits, ops: seq<Op>)
    requires Good(x) && Runs(x, lim, ops)
    ensures Good(After(x, lim, ops))
  {
    if ops != [] {
      hide Good, Step, May;
      RunKeeps(x, lim, ops[..|ops| - 1]);
      StepKeeps(After(x, lim, ops[..|ops| - 1]), lim, ops[|ops| - 1]);
    }
  }

  // ---------- the theorems ----------

  /** In every run: a HOST and a GUEST never both wait under one room and key; a connection
      waits in at most the one slot it belongs to; no connection is in two pairings; and a
      pairing joins one HOST and one GUEST of a room and key, who were admitted to the same
      registration of that room unless one of their registrations lapsed. */
  lemma RendezvousTheorem(lim: Limits, ops: seq<Op>)
    requires Runs(Start(), lim, ops)
    ensures var x := After(Start(), lim, ops);
      && (forall id, uuid | id in x.s.rooms ::
            Waiting(x.s.rooms[id], Host, uuid).None? || Waiting(x.s.rooms[id], GuestSide, uuid).None?)
      && (forall id, role, uuid, k | id in x.s.rooms && Waiting(x.s.rooms[id], role, uuid) == Some(k) ::
            k in x.handlers && x.handlers[k].conn.room == id && x.handlers[k].conn.role == role
            && x.handlers[k].conn.uuid == uuid && x.handlers[k].stage.InSlot?)
      && Disjoint(x.pairs)
      && (forall i | 0 <= i < |x.pairs| :: Matched(x.handlers, x.lapsed, x.pairs[i]))
  {
    hide *;
    StartGood();
    RunKeeps(Start(), lim, ops);
    Slots(After(Start(), lim, ops));
  }

  lemma StartGood()
    ensures Good(Start())
  {}

  lemma Slots(x: Sys)
    requires Good(x)
    ensures forall id, uuid | id in x.s.rooms ::
      Waiting(x.s.rooms[id], Host, uuid).None? || Waiting(x.s.rooms[id], GuestSide, uuid).None?
    ensures forall id, role, uuid, k | id in x.s.rooms && Waiting(x.s.rooms[id], role, uuid) == Some(k) ::
      k in x.handlers && x.handlers[k].conn.room == id && x.handlers[k].conn.role == role
      && x.handlers[k].conn.uuid == uuid && x.handlers[k].stage.InSlot?
    ensures Disjoint(x.pairs) && forall i | 0 <= i < |x.pairs| :: Matched(x.handlers, x.lapsed, x.pairs[i])
  {
    hide Alone, Slotted, Tokens, Bound, Placed, Matched, Disjoint, Waiting, DistinctTokens;
    forall id, uuid | id in x.s.rooms
      ensures Waiting(x.s.rooms[id], Host, uuid).None? || Waiting(x.s.rooms[id], GuestSide, uuid).None?
    {
      NotBoth(x.s.rooms[id], uuid);
    }
    forall id, role, uuid, k | id in x.s.rooms && Waiting(x.s.rooms[id], role, uuid) == Some(k)
      ensures k in x.handlers && x.handlers[k].conn.room == id && x.handlers[k].conn.role == role
            && x.handlers[k].conn.uuid == uuid && x.handlers[k].stage.InSlot?
    {
      OwnSlot(x.s, x.lapsed, x.handlers, id, role, uuid, k);
    }
  }

  lemma NotBoth(r: Room, uuid: string)
    requires Alone(r)
    ensures Waiting(r, Host, uuid).None? || Waiting(r, GuestSide, uuid).None?
  {}

  lemma OwnSlot(s: Server, lapsed: set<nat>, handlers: map<nat, Handler>, id: string, role: Role, uuid: string, k: nat)
    requires id in s.rooms && Slotted(s, lapsed, handlers, id, role, uuid)
    requires Waiting(s.rooms[id], role, uuid) == Some(k)
    ensures k in handlers && handlers[k].conn.room == id && handlers[k].conn.role == role
         && handlers[k].conn.uuid == uuid && handlers[k].stage.InSlot?
  {}

  /** Nobody waits unnoticed: a handler in its slot's section is found in the slot exactly
      while it has not been signalled. */
  lemma SignalTheorem(x: Sys, k: nat)
    requires Inv(x) && k in x.handlers && x.handlers[k].stage.InSlot?
    ensures Holds(x, k) <==> k !in x.s.done
  {
    var c := x.handlers[k].conn;
    assert Placed(x.s, x.handlers[k]);
    if Holds(x, k) {
      assert Slotted(x.s, x.lapsed, x.handlers, c.room, c.role, c.uuid);
    }
  }

  /** Two counterparts that were both told to wait meet all the same: whichever section two
      comes second finds the other in its slot. */
  lemma BothToldMeet(x: Sys, lim: Limits, a: nat, b: nat, now: nat)
    requires Good(x) && a in x.handlers && b in x.handlers && a != b
    requires x.handlers[a].stage.Told? && x.handlers[b].stage.Told?
    requires var (c, d) := (x.handlers[a].conn, x.handlers[b].conn);
      && c.room == d.room && c.uuid == d.uuid && d.role == Opposite(c.role)
      && c.room in x.s.rooms && !Expired(x.s.rooms[c.room], now)
      && x.handlers[a].token !in x.s.cancelled && x.handlers[b].token !in x.s.cancelled
      && Waiting(x.s.rooms[c.room], c.role, c.uuid).None? && Waiting(x.s.rooms[c.room], d.role, d.uuid).None?
    ensures var y := Step(Step(x, lim, ParkOp(a, now)), lim, ParkOp(b, now));
      y.pairs == x.pairs + [Pairing(b, a)] && y.handlers[a].stage.Served? && y.handlers[b].stage.Served?
  {
    var (h, g) := (x.handlers[a], x.handlers[b]);
    assert h.conn.id == a && g.conn.id == b;
    var r := x.s.rooms[h.conn.room];
    OccupyKeeps(r, h.conn.role, h.conn.uuid, a);
    AfterOccupy(r, h.conn.role, h.conn.uuid, a, h.conn.role, h.conn.uuid);
    hide Good, Inv, Waiting, Occupy, Vacate;
    var y := Step(x, lim, ParkOp(a, now));
    assert y.s.rooms[h.conn.room] == Occupy(r, h.conn.role, h.conn.uuid, a);
    assert Opposite(g.conn.role) == h.conn.role;
    assert Park(y.s, g.conn, g.token, now).1 == Paired(a, g.token);
  }

  /** After its timeout a handler removes itself and nobody else. */
  lemma TimeoutTheorem(x: Sys, lim: Limits, k: nat, id: string, role: Role, uuid: string)
    requires Inv(x) && k in x.handlers && x.handlers[k].stage.InSlot? && id in x.s.rooms
    ensures var s' := Step(x, lim, TimeoutOp(k)).s;
      && id in s'.rooms
      && Waiting(s'.rooms[id], role, uuid) ==
           if Waiting(x.s.rooms[id], role, uuid) == Some(k) then None else Waiting(x.s.rooms[id], role, uuid)
  {
    assert Slotted(x.s, x.lapsed, x.handlers, id, role, uuid);
    var c := x.handlers[k].conn;
    hide Inv, Waiting, Vacate;
    if c.room in x.s.rooms {
      AfterVacate(x.s.rooms[c.room], c.role, c.uuid, role, uuid);
    }
  }

  /** Securing a room empties it, and no connection that had cloned its token before enters
      a slot afterwards: its second section fails whenever it comes. */
  lemma SecureTheorem(x: Sys, lim: Limits, id: string, owner: string, secret: string, ops: seq<Op>, k: nat, now: nat)
    requires Good(x) && id in x.s.rooms && owner == x.s.rooms[id].owner
    requires k in x.handlers && x.handlers[k].stage.Told? && x.handlers[k].token == x.s.rooms[id].token
    requires var y := Step(x, lim, SecureOp(id, owner, secret));
      Runs(y, lim, ops) && var z := After(y, lim, ops); k in z.handlers && z.handlers[k] == x.handlers[k]
    ensures var y := Step(x, lim, SecureOp(id, owner, secret));
      && (forall role, uuid :: Waiting(y.s.rooms[id], role, uuid).None?)
      && Park(After(y, lim, ops).s, x.handlers[k].conn, x.handlers[k].token, now).1 == Bail
  {
    var y := Step(x, lim, SecureOp(id, owner, secret));
    assert x.handlers[k].token in y.s.cancelled;
    CancelledStays(y, lim, ops);
  }

  lemma CancelledKept(x: Sys, lim: Limits, op: Op)
    ensures x.s.cancelled <= Step(x, lim, op).s.cancelled
  {}

  lemma {:induction false} CancelledStays(x: Sys, lim: Limits, ops: seq<Op>)
    ensures x.s.cancelled <= After(x, lim, ops).s.cancelled
  {
    if ops != [] {
      hide Step;
      CancelledStays(x, lim, ops[..|ops| - 1]);
      CancelledKept(After(x, lim, ops[..|ops| - 1]), lim, ops[|ops| - 1]);
    }
  }

  /** A handler told to wait gets past the token check into a registration other than the one
      that admitted it exactly when that one lapsed: expired rooms are forgotten without
      their token being cancelled. */
  lemma ForeignRegistration(x: Sys, k: nat, now: nat)
    requires Good(x) && k in x.handlers && x.handlers[k].stage.Told? && x.handlers[k].conn.room in x.s.rooms
    requires !Expired(x.s.rooms[x.handlers[k].conn.room], now)
    ensures var h := x.handlers[k];
      (Park(x.s, h.conn, h.token, now).1 != Bail && h.token != x.s.rooms[h.conn.room].token)
      <==> h.token in x.lapsed
  {}

  lemma FourSteps(x: Sys, lim: Limits, a: Op, b: Op, c: Op, d: Op)
    ensures var x1 := Step(x, lim, a); var x2 := Step(x1, lim, b); var x3 := Step(x2, lim, c);
      && After(x, lim, [a, b, c, d]) == Step(x3, lim, d)
      && (Runs(x, lim, [a, b, c, d]) <==> May(x, a) && May(x1, b) && May(x2, c) && May(x3, d))
  {
    hide Step, May;
    var ops := [a, b, c, d];
    assert ops[..3] == [a, b, c] && [a, b, c][..2] == [a, b] && [a, b][..1] == [a] && [a][..0] == [];
    assert After(x, lim, [a]) == Step(x, lim, a);
    assert After(x, lim, [a, b]) == Step(Step(x, lim, a), lim, b);
    assert After(x, lim, [a, b, c]) == Step(Step(Step(x, lim, a), lim, b), lim, c);
    assert After(x, lim, []) == x && Runs(x, lim, []);
    assert Runs(x, lim, [a]) <==> May(x, a);
    assert Runs(x, lim, [a, b]) <==> Runs(x, lim, [a]) && May(Step(x, lim, a), b);
    assert Runs(x, lim, [a, b, c]) <==> Runs(x, lim, [a, b]) && May(Step(Step(x, lim, a), lim, b), c);
  }

  function Brief(): CreateRequest {
    CreateRequest("", 1, None, [], [], [])
  }

  function Early(): Conn {
    Conn(0, "r", Host, "-", "a", None)
  }

  lemma CreateAlone(x: Sys, lim: Limits, owner: string, now: nat)
    requires lim.Valid() && forall id | id in x.s.rooms :: Expired(x.s.rooms[id], now)
    ensures var y := Step(x, lim, CreateOp(Brief(), ["r"], owner, now));
      && y.s.rooms == map["r" := NewRoom(Brief(), owner, x.s.next, now)]
      && y.s.next == x.s.next + 1 && y.s.cancelled == x.s.cancelled
      && y.handlers == x.handlers && y.lapsed == x.lapsed + Lapsing(x.s, now)
  {}

  lemma ArriveFirst(x: Sys, lim: Limits)
    requires x.s.rooms == map["r" := NewRoom(Brief(), "a", 0, 0)] && x.handlers == map[]
    ensures var y := Step(x, lim, ArriveOp(Early(), 0));
      y.s == x.s && y.handlers == map[0 := Handler(Early(), Told, 0)] && y.lapsed == x.lapsed
  {}

  lemma ParkLast(x: Sys, lim: Limits)
    requires x.s.rooms == map["r" := NewRoom(Brief(), "b", 1, 1)] && x.s.cancelled == {}
    requires x.handlers == map[0 := Handler(Early(), Told, 0)]
    ensures var y := Step(x, lim, ParkOp(0, 1));
      "r" in y.s.rooms && y.s.rooms["r"].owner == "b" && y.s.rooms["r"].relayHost == Some(0) && y.lapsed == x.lapsed
  {}

  /** It happens: one host's room expires while its connection is being told to wait, another
      host is given the same id, and the first host's connection takes the second's slot. */
  lemma ReusedId(lim: Limits)
    requires lim.Valid()
    ensures var ops := [CreateOp(Brief(), ["r"], "a", 0), ArriveOp(Early(), 0),
                        CreateOp(Brief(), ["r"], "b", 1), ParkOp(0, 1)];
      var x := After(Start(), lim, ops);
      && Runs(Start(), lim, ops)
      && "r" in x.s.rooms && x.s.rooms["r"].owner == "b" && x.s.rooms["r"].relayHost == Some(0)
      && 0 in x.lapsed
  {
    var (a, b, c, d) := (CreateOp(Brief(), ["r"], "a", 0), ArriveOp(Early(), 0),
                         CreateOp(Brief(), ["r"], "b", 1), ParkOp(0, 1));
    hide Step, After, Runs;
    FourSteps(Start(), lim, a, b, c, d);
    CreateAlone(Start(), lim, "a", 0);
    var x1 := Step(Start(), lim, a);
    ArriveFirst(x1, lim);
    var x2 := Step(x1, lim, b);
    CreateAlone(x2, lim, "b", 1);
    var x3 := Step(x2, lim, c);
    assert x2.s.rooms["r"].token in Lapsing(x2.s, 1);
    assert x3.s.next == 2 && x3.s.cancelled == {};
    ParkLast(x3, lim);
  }
}
