/** What each event of the host's mesh loop does to a guest: when it is queued, whom a punch
    comes from, what is tried for it and when, and what a lost link leaves. */
module MeshEvents {
  import opened Bytes
  import opened StunAddress
  import opened Cidr
  import opened Plane
  import opened MeshSpec
  import opened MeshTheorems

  // ---------- polling ----------

  /** Where a guest is listed last. */
  ghost predicate LastListed(guests: seq<GuestInfo>, u: string, i: int) {
    0 <= i < |guests| && guests[i].uuid == u && forall j | i < j < |guests| :: guests[j].uuid != u
  }

  ghost predicate IsListed(guests: seq<GuestInfo>, u: string) {
    exists i | 0 <= i < |guests| :: guests[i].uuid == u
  }

  /** The snapshot is remembered by its last entry for each guest. */
  lemma {:induction false} ListedIs(guests: seq<GuestInfo>, u: string)
    ensures u in Listed(guests) <==> IsListed(guests, u)
    ensures forall i | LastListed(guests, u, i) :: u in Listed(guests) && Listed(guests)[u] == guests[i]
  {
    if guests != [] {
      var shorter := guests[..|guests| - 1];
      ListedIs(shorter, u);
      assert forall i | 0 <= i < |shorter| :: shorter[i] == guests[i];
      if guests[|guests| - 1].uuid == u {
        assert forall i | LastListed(guests, u, i) :: i == |guests| - 1;
      } else {
        assert forall i | LastListed(guests, u, i) :: LastListed(shorter, u, i);
      }
    }
  }

  /** What a guest without a link waits with after a poll, p being what it waited with before, if
      it did and had not started over: a new one for a direct punch, for three seconds before
      anything else is tried. */
  ghost predicate Waits(q: Option<Pending>, p: Option<Pending>, guests: seq<GuestInfo>, now: Time, u: string) {
    if !IsListed(guests, u) then q == p
    else
      q.Some? && forall i | LastListed(guests, u, i) ::
        q.value == if p.Some? then p.value.(info := guests[i]) else Pending(guests[i], false, None, Some(now + 3000))
  }

  function WaitOf(h: Host, u: string): Option<Pending> {
    if u in h.pending then Some(h.pending[u]) else None
  }

  lemma {:induction false} WelcomedAll(h: Host, guests: seq<GuestInfo>, now: Time, u: string)
    ensures var k := WelcomeAll(h, guests, now);
      && k == h.(pending := k.pending)
      && (u !in h.established ==> Waits(WaitOf(k, u), WaitOf(h, u), guests, now, u))
  {
    if guests != [] {
      var (shorter, g) := (guests[..|guests| - 1], guests[|guests| - 1]);
      WelcomedAll(h, shorter, now, u);
      var (j, k) := (WelcomeAll(h, shorter, now), WelcomeAll(h, guests, now));
      assert k == Welcome(j, g, now);
      hide WelcomeAll, Waits;
      WelcomeIs(j, g, now, u);
      hide Welcome;
      if u !in h.established {
        WaitsOneMore(WaitOf(k, u), WaitOf(j, u), WaitOf(h, u), guests, now, u);
      }
    }
  }

  lemma WelcomeIs(j: Host, g: GuestInfo, now: Time, u: string)
    ensures var k := Welcome(j, g, now);
      && k == j.(pending := k.pending)
      && (u !in j.established ==>
            WaitOf(k, u) == if g.uuid != u then WaitOf(j, u)
                            else if u in j.pending then Some(j.pending[u].(info := g))
                            else Some(Pending(g, false, None, Some(now + 3000))))
  {}

  lemma WaitsOneMore(k: Option<Pending>, j: Option<Pending>, p: Option<Pending>, guests: seq<GuestInfo>, now: Time, u: string)
    requires guests != [] && Waits(j, p, guests[..|guests| - 1], now, u)
    requires var g := guests[|guests| - 1];
      k == if g.uuid != u then j
           else if j.Some? then Some(j.value.(info := g))
           else Some(Pending(g, false, None, Some(now + 3000)))
    ensures Waits(k, p, guests, now, u)
  {
    var shorter := guests[..|guests| - 1];
    LastOfLonger(guests, u);
    if IsListed(shorter, u) {
      var l := LastOf(shorter, u);
    }
    hide IsListed, LastListed;
  }

  lemma LastOfLonger(guests: seq<GuestInfo>, u: string)
    requires guests != []
    ensures var (shorter, last) := (guests[..|guests| - 1], |guests| - 1);
      if guests[last].uuid == u then IsListed(guests, u) && forall i :: LastListed(guests, u, i) <==> i == last
      else (IsListed(guests, u) <==> IsListed(shorter, u))
           && (forall i :: LastListed(guests, u, i) <==> LastListed(shorter, u, i))
           && (forall i | LastListed(shorter, u, i) :: shorter[i] == guests[i])
  {
    var shorter := guests[..|guests| - 1];
    assert forall i | 0 <= i < |shorter| :: shorter[i] == guests[i];
  }

  lemma {:induction false} LastOf(guests: seq<GuestInfo>, u: string) returns (i: int)
    requires IsListed(guests, u)
    ensures LastListed(guests, u, i)
  {
    i := |guests| - 1;
    if guests[i].uuid != u {
      var shorter := guests[..i];
      assert forall j | 0 <= j < |shorter| :: shorter[j] == guests[j];
      i := LastOf(shorter, u);
    }
  }

  lemma {:induction false} ForgetPending(h: Host, guests: seq<GuestInfo>, u: string)
    ensures var k := ForgetChanged(h, guests);
      && k.lastGuests == h.lastGuests && k.client == h.client && k.tried == h.tried && k.connected == h.connected
      && (u in k.pending <==> u in h.pending && !Readvertised(h, Polled(guests, 0), u))
      && (u in k.pending ==> k.pending[u] == h.pending[u])
      && (u in k.turnRetry <==> u in h.turnRetry && !Readvertised(h, Polled(guests, 0), u))
      && (u in k.turnRetry ==> k.turnRetry[u] == h.turnRetry[u])
  {
    hide Unregister;
    if guests != [] {
      var (shorter, g) := (guests[..|guests| - 1], guests[|guests| - 1]);
      ForgetPending(h, shorter, u);
      assert forall i | 0 <= i < |shorter| :: shorter[i] == guests[i];
    }
  }

  /** A poll. A guest shown as changed loses all it had; a listed guest without a link is queued
      with its latest description, and waits on if it was waiting; others are left alone. */
  lemma PollTheorem(h: Host, guests: seq<GuestInfo>, now: Time, u: string)
    ensures var k := Poll(h, guests, now);
      var kept := !Readvertised(h, Polled(guests, now), u);
      && k.client == h.client && k.tried == h.tried && k.connected == h.connected
      && (u in k.established <==> u in h.established && kept)
      && (u in k.turnFailed <==> u in h.turnFailed && kept)
      && (u in k.turnRetry <==> u in h.turnRetry && kept) && (u in k.turnRetry ==> k.turnRetry[u] == h.turnRetry[u])
      && (u in k.lastGuests <==> IsListed(guests, u))
      && (forall i | LastListed(guests, u, i) :: k.lastGuests[u] == guests[i])
      && (u !in k.established ==> Waits(WaitOf(k, u), if kept then WaitOf(h, u) else None, guests, now, u))
  {
    hide Unregister, Waits, LastListed;
    var a := ForgetChanged(h, guests);
    var b := a.(lastGuests := Listed(guests));
    ForgetPending(h, guests, u);
    ForgetLinks(h, guests, u);
    WelcomedAll(b, guests, now, u);
    ListedIs(guests, u);
    PollParts(h, guests, now);
    SameReadvertised(h, guests, now, u);
    hide ForgetChanged, WelcomeAll, Listed, Readvertised, Poll;
  }

  lemma SameReadvertised(h: Host, guests: seq<GuestInfo>, now: Time, u: string)
    ensures Readvertised(h, Polled(guests, now), u) == Readvertised(h, Polled(guests, 0), u)
  {}

  /** A host that does not expose its LAN looks at no subnet a guest advertises: all a link of
      such a guest leads to is its virtual address. */
  lemma SeenMeans(guests: seq<GuestInfo>, exposeLan: bool, i: nat)
    requires i < |guests|
    ensures var g := Seen(guests, exposeLan)[i];
      && g.uuid == guests[i].uuid && SameConnection(g, guests[i]) && g.vnet == guests[i].vnet
      && (exposeLan ==> g == guests[i])
      && (!exposeLan ==> forall r | r in RoutesFor(g) :: g.vnet == Some(r.0) && r.1 == 32)
  {
    forall r ensures r in RoutesFor(Seen(guests, exposeLan)[i]) <==>
      (guests[i].vnet.Some? && r == (guests[i].vnet.value, 32))
      || exists j | 0 <= j < |Seen(guests, exposeLan)[i].subnets| ::
           Seen(guests, exposeLan)[i].subnets[j].net == r && Seen(guests, exposeLan)[i].subnets[j].private && r.1 >= 16
    {
      RoutesMean(Seen(guests, exposeLan)[i], r);
    }
    hide RoutesFor;
  }

  // ---------- links made ----------

  /** u has the link: it is of this kind, nothing waits for it any more, the plane has it under a
      token of its own, and its routes are the guest's. */
  ghost predicate Has(h: Host, k: Host, u: string, g: GuestInfo, kind: Kind, from: Option<SocketAddr>) {
    && u in k.established && k.established[u] == kind && u !in k.pending
    && (if from.Some? then u in k.establishedPeer && k.establishedPeer[u] == from.value else u !in k.establishedPeer)
    && Wired(h.plane, k.plane, u, g)
  }

  /** The plane with u's new link, which takes the place of the old. */
  ghost predicate Wired(t: Tables, k: Tables, u: string, g: GuestInfo) {
    && u in k.closes && u in k.routes && u in k.writers
    && k.closes[u] == k.writers[u] == t.next && t.next !in k.cancelled
    && (u in t.closes ==> t.closes[u] in k.cancelled)
    && Leads(k.routes[u], g)
  }

  /** The routes are the guest's virtual address and the private subnets of 16 bits or more it
      advertises. */
  ghost predicate Leads(routes: seq<Subnet>, g: GuestInfo) {
    forall r :: r in routes <==>
      (g.vnet.Some? && r == (g.vnet.value, 32))
      || exists i | 0 <= i < |g.subnets| :: g.subnets[i].net == r && g.subnets[i].private && r.1 >= 16
  }

  /** Everybody else's link is as it was. */
  ghost predicate Beside(h: Host, k: Host, u: string) {
    && k.established - {u} == h.established - {u} && k.pending - {u} == h.pending - {u}
    && k.establishedPeer - {u} == h.establishedPeer - {u}
    && k.plane.closes - {u} == h.plane.closes - {u} && k.plane.routes - {u} == h.plane.routes - {u}
    && k.plane.writers - {u} == h.plane.writers - {u}
  }

  lemma RoutesMean(g: GuestInfo, r: Subnet)
    ensures r in RoutesFor(g) <==>
      (g.vnet.Some? && r == (g.vnet.value, 32))
      || exists i | 0 <= i < |g.subnets| :: g.subnets[i].net == r && g.subnets[i].private && r.1 >= 16
  {
    SubnetRoutesMean(g.subnets, r);
  }

  lemma Without<V>(m: map<string, V>, u: string, x: V)
    ensures m[u := x] - {u} == m - {u} && (m - {u})[u := x] - {u} == m - {u}
  {}

  lemma RoutesLead(g: GuestInfo)
    ensures Leads(RoutesFor(g), g)
  {
    forall r ensures r in RoutesFor(g) <==>
      (g.vnet.Some? && r == (g.vnet.value, 32))
      || exists i | 0 <= i < |g.subnets| :: g.subnets[i].net == r && g.subnets[i].private && r.1 >= 16
    {
      RoutesMean(g, r);
    }
  }

  /** The three tables of the plane with u's new link. */
  lemma NewTables(h: Host, u: string, g: GuestInfo)
    ensures var (t, k) := (h.plane, NewPlane(h, u, g));
      && k.closes == (t.closes - {u})[u := t.next] && k.writers == (t.writers - {u})[u := t.next]
      && k.routes == (t.routes - {u})[u := RoutesFor(g)]
  {
    hide RoutesFor;
    var t := h.plane;
    Twice(t.closes, u);
    Twice(t.writers, u);
    Twice(t.routes, u);
  }

  lemma NewTokens(h: Host, u: string, g: GuestInfo)
    requires Valid(h.plane) && h.plane.closes.Keys == h.established.Keys
    ensures var (t, k) := (h.plane, NewPlane(h, u, g));
      t.next !in k.cancelled && (u in t.closes ==> t.closes[u] in k.cancelled)
  {
    hide RoutesFor;
  }

  lemma PlaneWired(h: Host, u: string, g: GuestInfo)
    requires Valid(h.plane) && h.plane.closes.Keys == h.established.Keys
    ensures var k := NewPlane(h, u, g);
      && Wired(h.plane, k, u, g)
      && k.closes - {u} == h.plane.closes - {u} && k.routes - {u} == h.plane.routes - {u}
      && k.writers - {u} == h.plane.writers - {u}
  {
    RoutesLead(g);
    NewTables(h, u, g);
    NewTokens(h, u, g);
    hide RoutesFor, Leads, NewPlane, Valid;
    Without(h.plane.closes, u, h.plane.next);
    Without(h.plane.writers, u, h.plane.next);
    Without(h.plane.routes, u, RoutesFor(g));
  }

  lemma AttachMeans(h: Host, u: string, g: GuestInfo, kind: Kind)
    requires Core(h)
    ensures Has(h, Attach(h, u, g, kind), u, g, kind, None) && Beside(h, Attach(h, u, g, kind), u)
  {
    PlaneWired(h, u, g);
    hide NewPlane, Core, Wired;
    AttachBeside(h, u, g, kind);
    hide Beside;
  }

  lemma AttachBeside(h: Host, u: string, g: GuestInfo, kind: Kind)
    requires var k := NewPlane(h, u, g);
      && k.closes - {u} == h.plane.closes - {u} && k.routes - {u} == h.plane.routes - {u}
      && k.writers - {u} == h.plane.writers - {u}
    ensures Beside(h, Attach(h, u, g, kind), u)
  {
    hide NewPlane;
    Without(h.established, u, kind);
    Twice(h.pending, u);
    Twice(h.establishedPeer, u);
  }

  lemma Twice<V>(m: map<string, V>, u: string)
    ensures m - {u} - {u} == m - {u}
  {}

  /** A direct link also has the address it was made over. */
  lemma DirectMeans(h: Host, u: string, g: GuestInfo, src: SocketAddr)
    requires Core(h)
    ensures var k := Attach(h, u, g, Direct);
      var q := k.(establishedPeer := k.establishedPeer[u := src]);
      Has(h, q, u, g, Direct, Some(src)) && Beside(h, q, u)
  {
    AttachMeans(h, u, g, Direct);
    hide Attach, Core;
  }

  // ---------- punches ----------

  /** The guest is known under this address, its own or one of its LAN. */
  predicate Known(g: GuestInfo, src: SocketAddr) {
    g.addr == src || exists i | 0 <= i < |g.lan| :: g.lan[i] == src
  }

  /** The first guest of a listing known under the address. */
  ghost predicate FirstKnown(listing: seq<GuestInfo>, src: SocketAddr, found: Option<string>) {
    if found.None? then forall i | 0 <= i < |listing| :: !Known(listing[i], src)
    else exists i :: 0 <= i < |listing| && listing[i].uuid == found.value && Known(listing[i], src)
                     && forall j | 0 <= j < i :: !Known(listing[j], src)
  }

  lemma {:induction false} FirstAtIs(listing: seq<GuestInfo>, src: SocketAddr)
    ensures FirstKnown(listing, src, FirstAt(listing, src))
  {
    if listing != [] && !Reaches(listing[0], src) {
      var rest := listing[1..];
      FirstAtIs(rest, src);
      assert forall i | 0 <= i < |rest| :: rest[i] == listing[i + 1];
      if FirstAt(rest, src).Some? {
        var i :| 0 <= i < |rest| && rest[i].uuid == FirstAt(rest, src).value && Known(rest[i], src)
          && forall j | 0 <= j < i :: !Known(rest[j], src);
        assert listing[i + 1] == rest[i];
        assert forall j | 0 < j < i + 1 :: listing[j] == rest[j - 1];
      } else {
        assert forall i | 0 < i < |listing| :: listing[i] == rest[i - 1];
      }
    }
  }

  /** Whom a punch comes from: a waiting guest known under its address, else one of the last
      snapshot, else the first of a fresh listing. That guest gets a direct link over that
      address if it has none and is known here; nothing else changes. */
  lemma PunchTheorem(h: Host, src: SocketAddr, listing: seq<GuestInfo>, found: Option<string>)
    requires Inv(h) && Located(h, src, listing, found)
    ensures var k := Punched(h, src, found);
      && (if exists u | u in h.pending :: Known(h.pending[u].info, src) then
            found.Some? && found.value in h.pending && Known(h.pending[found.value].info, src)
          else if exists u | u in h.lastGuests :: Known(h.lastGuests[u], src) then
            found.Some? && found.value in h.lastGuests && Known(h.lastGuests[found.value], src)
          else FirstKnown(listing, src, found))
      && (if found.Some? && found.value in h.pending then
            && Has(h, k, found.value, h.pending[found.value].info, Direct, Some(src)) && Beside(h, k, found.value)
          else k == h)
  {
    FirstAtIs(listing, src);
    KnownIs(h, src);
    assert forall u | u in h.lastGuests :: u in h.pending || u in h.established;
    hide Reaches, Known, FirstKnown, FirstAt, Attach, Has, Beside;
    if found.Some? && found.value in h.pending {
      DirectMeans(h, found.value, h.pending[found.value].info, src);
    }
  }

  lemma KnownIs(h: Host, src: SocketAddr)
    ensures forall u | u in h.pending :: Known(h.pending[u].info, src) <==> Reaches(h.pending[u].info, src)
    ensures forall u | u in h.lastGuests :: Known(h.lastGuests[u], src) <==> Reaches(h.lastGuests[u], src)
  {}

  // ---------- falling back ----------

  /** Something is tried for a waiting guest: its three seconds are over or the fallback is
      forced, nothing is being tried, and the last relay was dialled a second ago or more. */
  predicate Tried(p: Pending, force: bool, now: Time) {
    && !p.relayAttempted
    && (force || (p.deadline.Some? && p.deadline.value <= now))
    && (p.relayAt.Some? ==> p.relayAt.value + 1000 <= now)
  }

  /** TURN is open to it: an allocation is ready, the fallback is not forced, and the guest
      advertises a relay and is not barred. */
  predicate TurnOpen(h: Host, u: string, force: bool)
    requires u in h.pending
  {
    h.client && !force && u !in h.turnFailed && h.pending[u].info.turnRelay.Some?
  }

  /** One pass over the waiting guests. At most one of those TURN is open to is chosen for it, and
      one is if there is any; all others that are due have a TCP relay dialled, which is noted
      for a later TURN attempt while an allocation is ready and the guest is not barred. */
  lemma PassTheorem(h: Host, force: bool, now: Time, chosen: Option<string>, dialled: seq<string>, u: string)
    requires Inv(h) && May(h, FellBack(force, now, chosen, dialled, true)) && u in h.pending
    ensures var (k, p) := (Pass(h, force, now, chosen, dialled), h.pending[u]);
      && (chosen == Some(u) ==> Tried(p, force, now) && TurnOpen(h, u, force))
      && (chosen.None? && Tried(p, force, now) ==> !TurnOpen(h, u, force))
      && (u in dialled <==> Tried(p, force, now) && !TurnOpen(h, u, force))
      && u in k.pending
      && k.pending[u] == (if chosen == Some(u) then p.(relayAttempted := true)
                          else if u in dialled then p.(relayAttempted := true, relayAt := Some(now)) else p)
      && (u in k.turnRetry <==> u in h.turnRetry || (u in dialled && h.client && u !in h.turnFailed))
      && (u in k.turnRetry ==>
            k.turnRetry[u] == if u in dialled && h.client && u !in h.turnFailed then now else h.turnRetry[u])
      && k.connected == h.connected + dialled
      && k == h.(pending := k.pending, turnRetry := k.turnRetry, connected := k.connected)
      && k.pending.Keys == h.pending.Keys
  {
    assert u in dialled <==> u in DialSet(h, force, now);
  }

  /** The chosen guest's TURN attempt: the allocation is used up; a link comes of it, or the guest
      is barred and due for TCP at once. */
  lemma AttemptTheorem(h: Host, u: string, ok: bool)
    requires Inv(h) && u in h.pending
    ensures var k := TurnAttempt(h, u, ok);
      && !k.client && k.tried == h.tried + [u] && Beside(h, k, u)
      && (if ok then Has(h, k, u, h.pending[u].info, Turn, None) && k.turnFailed == h.turnFailed
          else && k.turnFailed == h.turnFailed + {u} && k.plane == h.plane && u in k.pending && u !in k.established
               && k.pending[u] == h.pending[u].(relayAttempted := false, relayAt := None))
  {
    var j := h.(client := false, tried := h.tried + [u]);
    if ok {
      assert Core(j);
      AttachMeans(j, u, h.pending[u].info, Turn);
      AttachKeepsRest(j, u, h.pending[u].info, Turn);
      hide Attach, Core, Attended;
      SameBeside(h, j, TurnAttempt(h, u, ok), u);
      hide Has, Beside;
    } else {
      Without(h.pending, u, h.pending[u].(relayAttempted := false, relayAt := None));
      hide Core, Attended;
    }
  }

  lemma AttachKeepsRest(h: Host, u: string, g: GuestInfo, kind: Kind)
    ensures var k := Attach(h, u, g, kind);
      k.client == h.client && k.tried == h.tried && k.turnFailed == h.turnFailed && k.turnRetry == h.turnRetry
  {}

  /** A later TURN attempt is for a guest whose relay was dialled at least five seconds ago and
      that is still waiting and not barred; there is one whenever there is such a guest and an
      allocation. It uses the allocation up, with or without a relay to go to. */
  lemma RetryTheorem(h: Host, now: Time, chosen: Option<string>, advertised: bool, ok: bool)
    requires Inv(h) && May(h, Retried(now, chosen, advertised, ok))
    ensures var k := TurnRetry(h, now, chosen, advertised, ok);
      && (chosen.None? <==> !h.client || forall u | u in h.turnRetry && u in h.pending && u !in h.turnFailed ::
            h.turnRetry[u] + 5000 > now)
      && (chosen.None? ==> k == h)
      && (chosen.Some? ==>
            var u := chosen.value;
            && u in h.turnRetry && u in h.pending && u !in h.turnFailed && h.turnRetry[u] + 5000 <= now
            && !k.client && k.turnRetry == h.turnRetry[u := now] && k.turnFailed == h.turnFailed
            && k.tried == h.tried + (if advertised then [u] else []) && Beside(h, k, u)
            && (if advertised && ok then Has(h, k, u, h.pending[u].info, Turn, None)
                else u in k.pending && k.pending[u] == h.pending[u] && k.established == h.established && k.plane == h.plane))
  {
    hide Attach, RoutesFor, Has, Beside, Core;
    if chosen.Some? {
      var u := chosen.value;
      RetryChosen(h, now, u, advertised, ok);
    } else {
      assert forall u | u in h.turnRetry && u in h.pending && u !in h.turnFailed && h.turnRetry[u] + 5000 <= now ::
        Retriable(h, u, now) by { WaitingUnlinked(h); }
    }
  }

  lemma WaitingUnlinked(h: Host)
    requires Inv(h)
    ensures forall u | u in h.pending :: u !in h.established
  {}

  lemma RetryChosen(h: Host, now: Time, u: string, advertised: bool, ok: bool)
    requires Inv(h) && u in h.pending && u in h.turnRetry
    ensures var k := TurnRetry(h, now, Some(u), advertised, ok);
      && !k.client && k.turnRetry == h.turnRetry[u := now] && k.turnFailed == h.turnFailed
      && k.tried == h.tried + (if advertised then [u] else []) && Beside(h, k, u)
      && (if advertised && ok then Has(h, k, u, h.pending[u].info, Turn, None)
          else u in k.pending && k.pending[u] == h.pending[u] && k.established == h.established && k.plane == h.plane)
  {
    var j := h.(turnRetry := h.turnRetry[u := now], client := false, tried := h.tried + [u]);
    assert Core(j);
    AttachMeans(j, u, h.pending[u].info, Turn);
    AttachKeepsRest(j, u, h.pending[u].info, Turn);
    hide Attach, Core, Attended;
    SameBeside(h, j, TurnRetry(h, now, Some(u), advertised, ok), u);
    if advertised && ok {
      hide Has, Beside;
    } else {
      hide Has;
    }
  }

  /** Neither `Has` nor `Beside` looks at more than links and waiting guests. */
  lemma SameBeside(h: Host, j: Host, k: Host, u: string)
    requires j.pending == h.pending && j.established == h.established && j.establishedPeer == h.establishedPeer && j.plane == h.plane
    ensures Beside(h, k, u) <==> Beside(j, k, u)
    ensures forall g, kind, from :: Has(h, k, u, g, kind, from) <==> Has(j, k, u, g, kind, from)
    ensures Beside(h, h, u) && Beside(h, j, u)
  {}

  /** A dialled relay answers. What was dialled for a guest that is no longer waiting, or has
      changed since, comes to nothing; a failure lets it be dialled again. */
  lemma AnswerTheorem(h: Host, u: string, offer: GuestInfo, ok: bool)
    requires Inv(h)
    ensures var k := RelayResult(h, u, offer, ok);
      if u !in h.pending || !SameConnection(h.pending[u].info, offer) then k == h
      else
        && Beside(h, k, u) && k.client == h.client && k.turnFailed == h.turnFailed
        && (if ok then Has(h, k, u, h.pending[u].info, Relayed, None)
            else k == h.(pending := h.pending[u := h.pending[u].(relayAttempted := false)]))
  {
    if u in h.pending {
      AttachMeans(h, u, h.pending[u].info, Relayed);
      AttachKeepsRest(h, u, h.pending[u].info, Relayed);
      Without(h.pending, u, h.pending[u].(relayAttempted := false));
    }
    hide Attach, Inv, Has;
  }

  // ---------- losing links ----------

  /** A death counts only if it is of the link in use. Then the link is gone, and the guest, if
      the last snapshot had it, starts over with a direct punch. */
  lemma DeathTheorem(h: Host, d: LinkDeath, now: Time)
    requires Inv(h)
    ensures var (k, u) := (Death(h, d, now), d.uuid);
      if u !in h.plane.closes || h.plane.closes[u] != d.lifetime then k == h
      else
        && Beside(h, k, u) && u !in k.established && u !in k.establishedPeer
        && u !in k.plane.closes && u !in k.plane.routes && u !in k.plane.writers && d.lifetime in k.plane.cancelled
        && (u in k.turnFailed <==> u in h.turnFailed || (u in h.established && h.established[u] == Turn))
        && (u in k.pending <==> u in h.lastGuests)
        && (u in h.lastGuests ==> k.pending[u] == Pending(h.lastGuests[u], false, None, Some(now + 3000)))
  {
    var u := d.uuid;
    Twice(h.established, u);
    Twice(h.establishedPeer, u);
    Twice(h.plane.closes, u);
    Twice(h.plane.routes, u);
    Twice(h.plane.writers, u);
    if u in h.lastGuests {
      Without(h.pending, u, Queued(h.lastGuests[u], now));
    }
  }

  /** A link that breaks cancels its own token, and nothing else until its death is dealt with. */
  lemma BrokeTheorem(h: Host, u: string)
    requires u in h.plane.closes
    ensures var k := MeshTheorems.Step(h, Broke(u));
      && h.plane.closes[u] in k.plane.cancelled && IsCurrentDeath(k.plane, LinkDeath(u, h.plane.closes[u]))
      && k == h.(plane := h.plane.(cancelled := k.plane.cancelled))
      && (forall l | l in k.plane.cancelled :: l in h.plane.cancelled || l == h.plane.closes[u])
  {}

  /** The room is gone: no link is left, and every one that was there is closed. */
  lemma GoneTheorem(h: Host)
    requires Inv(h)
    ensures var t := CloseAll(h.plane, h.established.Keys);
      && t.routes == map[] && t.writers == map[] && t.closes == map[]
      && (forall u | u in h.plane.closes :: h.plane.closes[u] in t.cancelled)
      && h.plane.cancelled <= t.cancelled
  {}
}
