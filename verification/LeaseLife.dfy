/** The life of one lease: which operation ends it, which prolongs it, and what each operation
    answers, in terms of the leases handed out. */
module LeaseLife {
  import opened Bytes
  import opened Sets
  import opened Leases
  import opened LeaseTheorems

  /** Lease i is not cancelled. */
  ghost predicate Alive(h: History, i: nat) {
    i < |h.issued| && i !in h.r.cancelled
  }

  /** When a lease that is alive expires. */
  function Until(h: History, i: nat): nat
    requires i < |h.issued|
  {
    var m := MemberOf(h.issued[i]);
    if m in h.r.members then h.r.members[m].lease.expiresAt else 0
  }

  /** The operation ends the life of lease i: it finds it expired, its device is admitted again,
      its own session closes it, or its member or space is revoked. */
  predicate Ends(h: History, op: Op, i: nat)
    requires i < |h.issued| == |h.granted|
  {
    var l := h.issued[i];
    match op
    case DoIssue(space, device, _, now, _, _) => Until(h, i) <= now || (l.space == space && l.device == device)
    case DoLookup(token, _, now) => token == h.granted[i].token && Until(h, i) <= now
    case DoRefresh(_, _, _, _) => false
    case DoClose(space, device, session) => l.space == space && l.device == device && l.session == session
    case RevokeMember(space, device) => l.space == space && l.device == device
    case RevokeSpace(space) => l.space == space
    case Sweep(now) => Until(h, i) <= now
  }

  /** The operation prolongs it: its own session refreshes it in time. */
  predicate Prolongs(h: History, op: Op, i: nat)
    requires i < |h.issued|
  {
    var l := h.issued[i];
    op.DoRefresh? && op.space == l.space && op.device == l.device && op.session == l.session
    && op.now < Until(h, i) && op.now + 600 < U64
  }

  /** What one step means for lease i. */
  ghost predicate Lives(h: History, op: Op, k: History, i: nat)
    requires i < |h.issued| == |h.granted|
  {
    && |k.issued| >= |h.issued| && k.issued[i] == h.issued[i]
    && (Alive(k, i) <==> !Ends(h, op, i))
    && (Alive(k, i) ==> Until(k, i) == if Prolongs(h, op, i) then op.now + 600 else Until(h, i))
  }

  // ---------- removals ----------

  lemma EntryIs(h: History, i: nat)
    requires Inv(h) && Alive(h, i)
    ensures var m := MemberOf(h.issued[i]);
      && m in h.r.members && h.r.members[m].lease.id == i && h.r.members[m].lease.session == h.issued[i].session
      && h.r.members[m].lease == h.issued[i].(expiresAt := Until(h, i))
      && h.r.members[m].hash == Sha256(h.granted[i].token)
  {
    assert Recorded(h, i) && IsCurrent(h, i);
    hide HexEncode, Inverse, NoRepeats, Entered;
  }

  /** Removing members ends exactly their leases. */
  lemma RemovesExactly(h: History, s: set<Member>, i: nat)
    requires Inv(h) && Alive(h, i)
    ensures var k := h.(r := RemoveAll(h.r, s));
      && Inv(k) && (Alive(k, i) <==> MemberOf(h.issued[i]) !in s)
      && (Alive(k, i) ==> Until(k, i) == Until(h, i))
  {
    EntryIs(h, i);
    RemoveAllKeeps(h, s);
    hide Inv;
    if MemberOf(h.issued[i]) !in s {
      StayIntact(h, s, MemberOf(h.issued[i]));
    }
  }

  lemma RemovesOne(h: History, m: Member, i: nat)
    requires Inv(h) && Alive(h, i)
    ensures var k := h.(r := Remove(h.r, m));
      && Inv(k) && (Alive(k, i) <==> MemberOf(h.issued[i]) != m)
      && (Alive(k, i) ==> Until(k, i) == Until(h, i))
  {
    EntryIs(h, i);
    if m in h.r.members {
      RemoveIsRemoveAll(h.r, m);
      RemovesExactly(h, {m}, i);
    }
    hide Inv;
    assert h.(r := h.r) == h;
  }

  // ---------- one step ----------

  /** The device's own lease, and whatever has expired, ends with an issue; nothing else does. */
  lemma IssueLives(h: History, op: Op, i: nat)
    requires op.DoIssue? && Inv(h) && Alive(h, i)
    ensures Lives(h, op, Step(h, op), i)
  {
    var m := (op.space, op.device);
    var h1 := h.(r := Swept(h.r, op.now));
    EntryIs(h, i);
    SameSizes(h);
    RemovesExactly(h, ExpiredAt(h.r, op.now), i);
    ExpiredMeans(h, i, op.now);
    hide *;
    assert Swept(h.r, op.now) == RemoveAll(h.r, ExpiredAt(h.r, op.now)) by { SweptIs(h.r, op.now); }
    if Alive(h1, i) {
      EntryIs(h1, i);
      RemovesOne(h1, m, i);
      SurvivorLives(h, op, h1, i);
    } else {
      DeadLives(h, op, h1, i);
    }
  }

  lemma SweptIs(r: Registry, now: nat)
    ensures Swept(r, now) == RemoveAll(r, ExpiredAt(r, now))
  {}

  lemma SurvivorLives(h: History, op: Op, h1: History, i: nat)
    requires op.DoIssue? && |h.issued| == |h.granted| && Alive(h, i) && h1 == h.(r := Swept(h.r, op.now))
    requires Alive(h1, i) && MemberOf(h1.issued[i]) in h1.r.members
    requires Until(h1, i) == Until(h, i) && Until(h, i) > op.now
    requires Alive(h1.(r := Remove(h1.r, (op.space, op.device))), i) <==> MemberOf(h1.issued[i]) != (op.space, op.device)
    ensures Lives(h, op, Step(h, op), i)
  {
    hide Swept, Remove, Step, Until;
    IssueAlive(h, op, h1, i);
  }

  lemma DeadLives(h: History, op: Op, h1: History, i: nat)
    requires op.DoIssue? && |h.issued| == |h.granted| && Alive(h, i) && h1 == h.(r := Swept(h.r, op.now))
    requires !Alive(h1, i) && Until(h, i) <= op.now
    ensures Lives(h, op, Step(h, op), i)
  {
    hide Swept, Step, Until;
    IssueDead(h, op, h1, i);
  }

  lemma ExpiredMeans(h: History, i: nat, now: nat)
    requires i < |h.issued| && MemberOf(h.issued[i]) in h.r.members
    ensures MemberOf(h.issued[i]) in ExpiredAt(h.r, now) <==> Until(h, i) <= now
  {}

  lemma IssueDead(h: History, op: Op, h1: History, i: nat)
    requires op.DoIssue? && |h.issued| == |h.granted| && i < |h.issued| && h1 == h.(r := Swept(h.r, op.now)) && i in h1.r.cancelled
    ensures var k := Step(h, op); |k.issued| >= |h.issued| && k.issued[i] == h.issued[i] && !Alive(k, i)
  {
    RemovalsCancel(h1.r, {}, (op.space, op.device));
    hide RemoveAll, Remove, HexEncode, Swept;
  }

  lemma IssueAlive(h: History, op: Op, h1: History, i: nat)
    requires op.DoIssue? && |h.issued| == |h.granted| && i < |h.issued| && h1 == h.(r := Swept(h.r, op.now))
    requires MemberOf(h.issued[i]) in h1.r.members && Alive(h1, i)
    requires var q := Remove(h1.r, (op.space, op.device));
      i !in q.cancelled <==> MemberOf(h.issued[i]) != (op.space, op.device)
    ensures var k := Step(h, op);
      && |k.issued| >= |h.issued| && k.issued[i] == h.issued[i]
      && (Alive(k, i) <==> MemberOf(h.issued[i]) != (op.space, op.device))
      && (Alive(k, i) ==> Until(k, i) == Until(h1, i))
  {
    hide HexEncode, Swept;
  }

  lemma LookupLives(h: History, op: Op, i: nat)
    requires op.DoLookup? && Inv(h) && Alive(h, i)
    ensures Lives(h, op, Step(h, op), i)
  {
    EntryIs(h, i);
    SameSizes(h);
    OwnWellFormed(h, i);
    OwnTokenKnown(h, i);
    if Sha256(op.token) in h.r.tokens {
      OwnToken(h, op.token, i);
    }
    hide Inv, HexEncode, WellFormed, Remove;
    LookupIs(h, op);
    if Step(h, op) == h {
      LookupSpares(h, op, i);
      NothingLives(h, op, i);
    } else {
      OneRemovalLives(h, op, h.r.tokens[Sha256(op.token)], i);
    }
  }

  /** A lookup changes something exactly when it finds the lease of its token expired. */
  lemma LookupIs(h: History, op: Op)
    requires op.DoLookup?
    ensures var found := WellFormed(op.token) && Sha256(op.token) in h.r.tokens && h.r.tokens[Sha256(op.token)] in h.r.members;
      if found && h.r.members[h.r.tokens[Sha256(op.token)]].lease.expiresAt <= op.now
      then Step(h, op) == h.(r := Remove(h.r, h.r.tokens[Sha256(op.token)])) && Step(h, op) != h
      else Step(h, op) == h
  {
    assert h.(r := h.r) == h;
    hide WellFormed;
  }

  lemma LookupSpares(h: History, op: Op, i: nat)
    requires op.DoLookup? && Step(h, op) == h && i < |h.issued| == |h.granted| && MemberOf(h.issued[i]) in h.r.members
    requires WellFormed(h.granted[i].token) && Sha256(h.granted[i].token) in h.r.tokens
    requires Sha256(op.token) in h.r.tokens ==>
      (h.r.tokens[Sha256(op.token)] == MemberOf(h.issued[i]) <==> op.token == h.granted[i].token)
    ensures !Ends(h, op, i)
  {
    hide WellFormed;
    LookupIs(h, op);
  }

  lemma OwnWellFormed(h: History, i: nat)
    requires Inv(h) && Alive(h, i)
    ensures WellFormed(h.granted[i].token)
  {
    assert Recorded(h, i);
    HexWellFormed(h.secrets[i]);
  }

  lemma OwnTokenKnown(h: History, i: nat)
    requires Inv(h) && Alive(h, i)
    ensures Sha256(h.granted[i].token) in h.r.tokens
  {
    assert Recorded(h, i);
    TokenKnown(h, i);
  }

  /** A token leads to the member of lease i exactly when it is its token. */
  lemma OwnToken(h: History, token: string, i: nat)
    requires Inv(h) && Alive(h, i) && Sha256(token) in h.r.tokens
    ensures h.r.tokens[Sha256(token)] == MemberOf(h.issued[i]) <==> token == h.granted[i].token
    ensures h.r.tokens[Sha256(token)] in h.r.members
  {
    assert Recorded(h, i) && IsCurrent(h, i);
    hide HexEncode, NoRepeats, Entered, Recorded;
    var m := MemberOf(h.issued[i]);
    assert h.r.tokens[h.r.members[m].hash] == m;
  }

  lemma RefreshLives(h: History, op: Op, i: nat)
    requires op.DoRefresh? && Inv(h) && Alive(h, i)
    ensures Lives(h, op, Step(h, op), i)
  {
    EntryIs(h, i);
    hide Inv;
  }

  /** Removing members is all the operation does. */
  lemma RemovalLives(h: History, op: Op, s: set<Member>, i: nat)
    requires Inv(h) && Alive(h, i) && Step(h, op) == h.(r := RemoveAll(h.r, s))
    requires !op.DoRefresh? && (MemberOf(h.issued[i]) in s <==> Ends(h, op, i))
    ensures Lives(h, op, Step(h, op), i)
  {
    RemovesExactly(h, s, i);
    SameSizes(h);
    hide Inv, Step, Ends, RemoveAll;
  }

  lemma OneRemovalLives(h: History, op: Op, m: Member, i: nat)
    requires Inv(h) && Alive(h, i) && Step(h, op) == h.(r := Remove(h.r, m))
    requires !op.DoRefresh? && (MemberOf(h.issued[i]) == m <==> Ends(h, op, i))
    ensures Lives(h, op, Step(h, op), i)
  {
    RemovesOne(h, m, i);
    SameSizes(h);
    hide Inv, Step, Ends, Remove;
  }

  lemma NothingLives(h: History, op: Op, i: nat)
    requires Inv(h) && Alive(h, i) && Step(h, op) == h && !Ends(h, op, i) && !Prolongs(h, op, i)
    ensures Lives(h, op, Step(h, op), i)
  {
    SameSizes(h);
    hide Inv, Step, Ends;
  }

  lemma SameSizes(h: History)
    requires Inv(h)
    ensures |h.issued| == |h.granted|
  {}

  lemma CloseLives(h: History, op: Op, i: nat)
    requires op.DoClose? && Inv(h) && Alive(h, i)
    ensures Lives(h, op, Step(h, op), i)
  {
    EntryIs(h, i);
    SameSizes(h);
    var m := (op.space, op.device);
    if m in h.r.members && h.r.members[m].lease.session == op.session {
      hide Inv, Remove;
      OneRemovalLives(h, op, m, i);
    } else {
      hide Inv;
      assert h.(r := h.r) == h;
      NothingLives(h, op, i);
    }
  }

  lemma RevokeLives(h: History, op: Op, i: nat)
    requires (op.RevokeMember? || op.RevokeSpace? || op.Sweep?) && Inv(h) && Alive(h, i)
    ensures Lives(h, op, Step(h, op), i)
  {
    EntryIs(h, i);
    SameSizes(h);
    hide Inv, Remove, RemoveAll;
    match op {
      case RevokeMember(space, device) => OneRemovalLives(h, op, (space, device), i);
      case RevokeSpace(space) => RemovalLives(h, op, InSpace(h.r, space), i);
      case Sweep(now) => RemovalLives(h, op, ExpiredAt(h.r, now), i);
    }
  }

  /** Over every step, a lease that is alive ends exactly when the operation ends it, and expires
      later exactly when the operation prolongs it. */
  lemma LifeTheorem(h: History, op: Op, i: nat)
    requires Inv(h) && Alive(h, i)
    ensures Lives(h, op, Step(h, op), i)
  {
    hide *;
    match op {
      case DoIssue(_, _, _, _, _, _) => IssueLives(h, op, i);
      case DoLookup(_, _, _) => LookupLives(h, op, i);
      case DoRefresh(_, _, _, _) => RefreshLives(h, op, i);
      case DoClose(_, _, _) => CloseLives(h, op, i);
      case _ => RevokeLives(h, op, i);
    }
  }

  // ---------- what the operations answer ----------

  /** The device has no lease in the space. */
  ghost predicate Without(h: History, space: string, device: string) {
    forall i: nat | Alive(h, i) :: h.issued[i].space != space || h.issued[i].device != device
  }

  lemma WithoutMeans(h: History, space: string, device: string)
    requires Inv(h)
    ensures Without(h, space, device) <==> (space, device) !in h.r.members
  {
    var m := (space, device);
    if m in h.r.members {
      assert Entered(h, m);
      assert Alive(h, h.r.members[m].lease.id);
    } else {
      forall i: nat | Alive(h, i) ensures MemberOf(h.issued[i]) != m {
        CurrentEntry(h, i);
      }
    }
  }

  /** Refreshing and closing answer for the lease the device has: a refresh succeeds in time and
      under its session, a close under its session alone. */
  lemma SessionAnswers(h: History, i: nat, session: string, now: nat)
    requires Inv(h) && Alive(h, i)
    ensures var l := h.issued[i];
      && Refresh(h.r, l.space, l.device, session, now).1
         == (if session != l.session || Until(h, i) <= now then Err(Expired)
             else if now + 600 >= U64 then Err(InvalidClock) else Ok(now + 600))
      && Close(h.r, l.space, l.device, session).1 == (if session == l.session then Ok(()) else Err(Replaced))
      && (Peers(h.r, l.space, l.device, session, now).Ok? <==> session == l.session && now < Until(h, i))
  {
    EntryIs(h, i);
    hide Inv, KeyFor;
  }

  /** Without a lease there is nothing to refresh, close or ask for. */
  lemma NobodyAnswers(h: History, space: string, device: string, session: string, now: nat)
    requires Inv(h) && Without(h, space, device)
    ensures Refresh(h.r, space, device, session, now) == (h.r, Err(Unavailable))
    ensures Close(h.r, space, device, session) == (h.r, Err(Unavailable))
    ensures Peers(h.r, space, device, session, now) == Err(Unavailable)
  {
    WithoutMeans(h, space, device);
    hide Inv, Without;
  }

  /** The token of a lease that is alive opens it in time and for its space. */
  lemma TokenAnswers(h: History, i: nat, space: string, now: nat)
    requires Inv(h) && Alive(h, i)
    ensures Lookup(h.r, h.granted[i].token, space, now).1
         == if Until(h, i) <= now then Err(Expired)
            else if space != h.issued[i].space then Err(ScopeMismatch)
            else Ok(h.issued[i].(expiresAt := Until(h, i)))
  {
    EntryIs(h, i);
    OwnTokenKnown(h, i);
    OwnToken(h, h.granted[i].token, i);
    OwnWellFormed(h, i);
    hide Inv, HexEncode, WellFormed;
  }

  /** Admission is refused exactly when the unexpired leases, none of them the device's, are as
      many as may be, or the clock overflows; else the device has a lease for 600 seconds and is
      told so. */
  lemma IssueAnswers(h: History, op: Op)
    requires op.DoIssue? && Inv(h)
    ensures var m := (op.space, op.device);
      var kept := set d | d in h.r.members && h.r.members[d].lease.expiresAt > op.now;
      var (r, a) := Issue(h.r, op.space, op.device, op.address, op.now, HexEncode(op.secret), op.session);
      && (a == Err(CapacityReached) <==> m !in kept && |kept| >= h.r.maximum)
      && (a == Err(InvalidClock) <==> (m in kept || |kept| < h.r.maximum) && op.now + 600 >= U64)
      && (a.Err? ==> a == Err(CapacityReached) || a == Err(InvalidClock))
      && (a.Ok? ==>
            && a.value == Admission(HexEncode(op.secret), op.session, op.space, op.device, op.address, op.now + 600)
            && var k := Step(h, op);
               && |k.issued| == |h.issued| + 1 && Alive(k, |h.issued|) && Until(k, |h.issued|) == op.now + 600
               && k.issued[|h.issued|] == Lease(op.space, op.device, op.session, op.address, op.now + 600, |h.issued|))
  {
    SweptKeys(h.r, op.now);
    NextIsNew(h, op);
    AdmissionIs(h, op);
    hide *;
    RefusalIs(h.r, op);
  }

  lemma RefusalIs(r: Registry, op: Op)
    requires op.DoIssue?
    ensures var (m, k) := ((op.space, op.device), Swept(r, op.now));
      var a := Issue(r, op.space, op.device, op.address, op.now, HexEncode(op.secret), op.session).1;
      && (a == Err(CapacityReached) <==> m !in k.members.Keys && |k.members| >= k.maximum)
      && (a == Err(InvalidClock) <==> (m in k.members.Keys || |k.members| < k.maximum) && op.now + 600 >= U64)
      && (a.Err? ==> a == Err(CapacityReached) || a == Err(InvalidClock))
  {
    hide Swept, Remove, HexEncode;
  }

  lemma SweptKeys(r: Registry, now: nat)
    ensures Swept(r, now).members.Keys == set d | d in r.members && r.members[d].lease.expiresAt > now
    ensures |Swept(r, now).members| == |Swept(r, now).members.Keys| && Swept(r, now).maximum == r.maximum
  {}

  lemma AdmissionIs(h: History, op: Op)
    requires op.DoIssue? && h.r.next == |h.issued|
    requires |h.issued| !in Remove(Swept(h.r, op.now), (op.space, op.device)).cancelled
    ensures var a := Issue(h.r, op.space, op.device, op.address, op.now, HexEncode(op.secret), op.session).1;
      a.Ok? ==>
        && a.value == Admission(HexEncode(op.secret), op.session, op.space, op.device, op.address, op.now + 600)
        && var k := Step(h, op);
           && |k.issued| == |h.issued| + 1 && Alive(k, |h.issued|) && Until(k, |h.issued|) == op.now + 600
           && k.issued[|h.issued|] == Lease(op.space, op.device, op.session, op.address, op.now + 600, |h.issued|)
  {
    RemovedNext(h.r, op);
    hide HexEncode, Swept, Remove;
  }

  lemma RemovedNext(r: Registry, op: Op)
    requires op.DoIssue?
    ensures Remove(Swept(r, op.now), (op.space, op.device)).next == r.next
  {}

  lemma NextIsNew(h: History, op: Op)
    requires op.DoIssue? && Inv(h)
    ensures h.r.next == |h.issued| && |h.issued| !in Remove(Swept(h.r, op.now), (op.space, op.device)).cancelled
  {
    forall m | m in h.r.members ensures h.r.members[m].lease.id < h.r.next {
      assert Entered(h, m);
    }
    hide HexEncode, IsCurrent, Recorded, Inverse, NoRepeats, Entered, Remove, Swept;
    RemovedOld(h.r, op, |h.issued|);
  }

  lemma RemovedOld(r: Registry, op: Op, n: nat)
    requires op.DoIssue? && (forall m | m in r.members :: r.members[m].lease.id < n) && (forall c | c in r.cancelled :: c < n)
    ensures forall c | c in Remove(Swept(r, op.now), (op.space, op.device)).cancelled :: c < n
  {}
}
