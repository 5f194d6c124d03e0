/** The variables of the host's mesh loop, and what each kind of event does to them. */
module MeshHost {
  import opened Bytes
  import opened StunAddress
  import opened Cidr
  import opened Plane
  import opened MeshSpec

  class MeshLoop {
    const plane: MeshPlane
    const exposeLan: bool
    var pending: map<string, Pending>
    var established: map<string, Kind>
    var establishedPeer: map<string, SocketAddr>
    var turnRetry: map<string, Time>
    var turnFailed: set<string>
    var lastGuests: map<string, GuestInfo>
    var client: bool
    ghost var tried: seq<string>
    ghost var connected: seq<string>

    ghost function View(): Host
      reads this, plane
    {
      Host(pending, established, establishedPeer, turnRetry, turnFailed, lastGuests, client, plane.View(),
           tried, connected)
    }

    constructor (client: bool, exposeLan: bool)
      ensures View() == NewHost(client) && this.exposeLan == exposeLan && fresh(plane)
    {
      plane := new MeshPlane();
      this.client, this.exposeLan := client, exposeLan;
      pending, established, establishedPeer, turnRetry := map[], map[], map[], map[];
      turnFailed, lastGuests := {}, map[];
      tried, connected := [], [];
    }

    // ---------- polling ----------

    method ForgetGuest(uuid: string)
      modifies this, plane
      ensures View() == Forget(old(View()), uuid)
    {
      plane.UnregisterLink(uuid);
      established := established - {uuid};
      establishedPeer := establishedPeer - {uuid};
      pending := pending - {uuid};
      turnRetry := turnRetry - {uuid};
      turnFailed := turnFailed - {uuid};
    }

    method OnPoll(listing: seq<GuestInfo>, now: Time)
      modifies this, plane
      ensures View() == Poll(old(View()), Seen(listing, exposeLan), now)
    {
      var guests := Seen(listing, exposeLan);
      ghost var was := View();
      assert guests[..0] == [];
      for i := 0 to |guests|
        invariant View() == ForgetChanged(was, guests[..i]) && lastGuests == was.lastGuests
      {
        assert guests[..i + 1][..i] == guests[..i];
        var g := guests[i];
        if g.uuid in lastGuests && Changed(lastGuests[g.uuid], g) {
          ForgetGuest(g.uuid);
        }
      }
      assert guests[..|guests|] == guests;
      var listed: map<string, GuestInfo> := map[];
      for i := 0 to |guests|
        invariant listed == Listed(guests[..i])
      {
        assert guests[..i + 1][..i] == guests[..i];
        listed := listed[guests[i].uuid := guests[i]];
      }
      lastGuests := listed;
      WelcomeGuests(guests, now);
    }

    method WelcomeGuests(guests: seq<GuestInfo>, now: Time)
      modifies this`pending
      ensures View() == WelcomeAll(old(View()), guests, now)
    {
      ghost var was := View();
      assert guests[..0] == [];
      for i := 0 to |guests|
        invariant View() == WelcomeAll(was, guests[..i], now)
      {
        assert guests[..i + 1][..i] == guests[..i];
        var g := guests[i];
        if g.uuid !in established {
          if g.uuid in pending {
            pending := pending[g.uuid := pending[g.uuid].(info := g)];
          } else {
            pending := pending[g.uuid := Pending(g, false, None, Some(now + PUNCH_WINDOW))];
          }
        }
      }
      assert guests[..|guests|] == guests;
    }

    /** The room was deleted or the credentials refused. */
    method OnRoomGone()
      modifies plane
      ensures plane.View() == CloseAll(old(plane.View()), established.Keys)
    {
      hide CloseAll, Unregister;
      var todo := established.Keys;
      ghost var was := plane.View();
      ClosedNone(was);
      assert established.Keys - todo == {};
      while todo != {}
        invariant todo <= established.Keys
        invariant plane.View() == CloseAll(was, established.Keys - todo)
        decreases |todo|
      {
        var uuid :| uuid in todo;
        ClosedMore(was, established.Keys - todo, uuid);
        assert established.Keys - todo + {uuid} == established.Keys - (todo - {uuid});
        plane.UnregisterLink(uuid);
        todo := todo - {uuid};
      }
      assert established.Keys - {} == established.Keys;
    }

    // ---------- links ----------

    method FindRoutes(g: GuestInfo) returns (routes: seq<Subnet>)
      ensures routes == RoutesFor(g)
    {
      routes := [];
      if g.vnet.Some? {
        routes := [(g.vnet.value, 32)];
      }
      ghost var first := routes;
      assert first + [] == first;
      for i := 0 to |g.subnets|
        invariant routes == first + SubnetRoutes(g.subnets[..i])
      {
        assert g.subnets[..i + 1][..i] == g.subnets[..i];
        var s := g.subnets[i];
        if s.net.1 >= 16 && s.private {
          routes := routes + [s.net];
        }
      }
      assert g.subnets[..|g.subnets|] == g.subnets;
    }

    method Establish(uuid: string, g: GuestInfo, kind: Kind)
      modifies this, plane
      ensures View() == Attach(old(View()), uuid, g, kind)
    {
      pending := pending - {uuid};
      establishedPeer := establishedPeer - {uuid};
      if uuid in established {
        plane.UnregisterLink(uuid);
      }
      var routes := FindRoutes(g);
      var _ := plane.RegisterLink(uuid, routes);
      established := established[uuid := kind];
    }

    method Locate(src: SocketAddr, listing: seq<GuestInfo>) returns (found: Option<string>)
      ensures Located(View(), src, listing, found)
    {
      if u :| u in pending && Reaches(pending[u].info, src) {
        return Some(u);
      }
      if u :| u in lastGuests && Reaches(lastGuests[u], src) {
        return Some(u);
      }
      found := None;
      assert listing[0..] == listing;
      for i := 0 to |listing|
        invariant FirstAt(listing, src) == FirstAt(listing[i..], src)
      {
        if Reaches(listing[i], src) {
          return Some(listing[i].uuid);
        }
      }
    }

    method OnPunch(src: SocketAddr, listing: seq<GuestInfo>) returns (found: Option<string>)
      modifies this, plane
      ensures Located(old(View()), src, listing, found)
      ensures View() == Punched(old(View()), src, found)
    {
      found := Locate(src, listing);
      if found.None? || found.value in established {
        return;
      }
      var u := found.value;
      if u in pending {
        Establish(u, pending[u].info, Direct);
        establishedPeer := establishedPeer[u := src];
      } else if u in lastGuests {
        Establish(u, lastGuests[u], Direct);
        establishedPeer := establishedPeer[u := src];
      }
    }

    // ---------- falling back ----------

    method FallBack(force: bool, now: Time) returns (chosen: Option<string>, dialled: seq<string>)
      modifies this
      ensures Chosen(old(View()), force, now, chosen)
      ensures View() == Pass(old(View()), force, now, chosen, dialled)
      ensures forall u :: u in dialled <==> u in DialSet(old(View()), force, now)
      ensures forall i, j | 0 <= i < j < |dialled| :: dialled[i] != dialled[j]
    {
      hide Passed, Due, Pass, Chosen;
      chosen, dialled := None, [];
      ghost var was := View();
      var todo := pending.Keys;
      PassBegins(was, force, now);
      while todo != {}
        invariant View() == was.(pending := pending, turnRetry := turnRetry)
        invariant Passed(was, force, now, pending, turnRetry, todo, chosen, dialled)
        decreases |todo|
      {
        var u :| u in todo;
        PassedKeys(was, force, now, pending, turnRetry, todo, chosen, dialled);
        var p := pending[u];
        PassStep(was, force, now, pending, turnRetry, todo, chosen, dialled, u);
        if Due(p, force, now) {
          if client && !force && u !in turnFailed && p.info.turnRelay.Some? {
            if chosen.None? {
              pending := pending[u := p.(relayAttempted := true)];
              chosen := Some(u);
            }
          } else {
            pending := pending[u := p.(relayAttempted := true, relayAt := Some(now))];
            if client && u !in turnFailed {
              turnRetry := turnRetry[u := now];
            }
            dialled := dialled + [u];
          }
        }
        todo := todo - {u};
      }
      PassEnds(was, force, now, pending, turnRetry, chosen, dialled);
      connected := connected + dialled;
    }

    method TryTurn(u: string, ok: bool)
      requires u in pending
      modifies this, plane
      ensures View() == TurnAttempt(old(View()), u, ok)
    {
      client := false;
      tried := tried + [u];
      if ok {
        Establish(u, pending[u].info, Turn);
      } else {
        turnFailed := turnFailed + {u};
        pending := pending[u := pending[u].(relayAttempted := false, relayAt := None)];
      }
    }

    method PickRetry(now: Time) returns (chosen: Option<string>)
      ensures ChosenRetry(View(), now, chosen)
    {
      if !client {
        return None;
      }
      if u :| u in turnRetry && u in pending && u !in turnFailed && u !in established
              && now - turnRetry[u] >= TURN_PAUSE {
        return Some(u);
      }
      chosen := None;
    }

    method RetryTurn(now: Time, advertised: bool, ok: bool) returns (chosen: Option<string>)
      modifies this, plane
      ensures ChosenRetry(old(View()), now, chosen)
      ensures View() == TurnRetry(old(View()), now, chosen, advertised, ok)
    {
      chosen := PickRetry(now);
      if chosen.Some? {
        var u := chosen.value;
        turnRetry := turnRetry[u := now];
        client := false;
        if advertised {
          tried := tried + [u];
          if ok {
            Establish(u, pending[u].info, Turn);
          }
        }
      }
    }

    method OnRelayResult(u: string, offer: GuestInfo, ok: bool)
      modifies this, plane
      ensures View() == RelayResult(old(View()), u, offer, ok)
    {
      if u !in pending || Changed(pending[u].info, offer) {
        return;
      }
      if ok {
        Establish(u, pending[u].info, Relayed);
      } else {
        pending := pending[u := pending[u].(relayAttempted := false)];
      }
    }

    // ---------- losing links ----------

    method OnDeath(d: LinkDeath, now: Time)
      modifies this, plane
      ensures View() == Death(old(View()), d, now)
    {
      var current := plane.IsCurrent(d);
      if !current {
        return;
      }
      var u := d.uuid;
      plane.UnregisterLink(u);
      if u in established {
        var wasTurn := established[u].Turn?;
        established := established - {u};
        establishedPeer := establishedPeer - {u};
        if wasTurn {
          turnFailed := turnFailed + {u};
        }
        if u in lastGuests {
          pending := pending[u := Queued(lastGuests[u], now)];
        }
      }
    }
  }

  ghost function Elems(s: seq<string>): set<string> {
    set u | u in s
  }

  /** The pass over the pending guests, but for those still to do. */
  ghost predicate Passed(h: Host, force: bool, now: Time, pending: map<string, Pending>, retry: map<string, Time>,
                         todo: set<string>, chosen: Option<string>, dialled: seq<string>) {
    && pending.Keys == h.pending.Keys && todo <= pending.Keys
    && (forall u | u in todo :: pending[u] == h.pending[u])
    && (forall u | u in pending && u !in todo :: pending[u] == Attempted(h, u, force, now, chosen))
    && (match chosen
        case Some(c) => c in pending && c !in todo && TurnFirst(h, c, force, now)
        case None => forall u | u in pending && u !in todo :: !TurnFirst(h, u, force, now))
    && (forall u :: u in dialled <==> u in pending && u !in todo && TcpNow(h, u, force, now))
    && (forall i, j | 0 <= i < j < |dialled| :: dialled[i] != dialled[j])
    && retry == RetryAfter(h, Elems(dialled), now)
  }

  lemma PassBegins(h: Host, force: bool, now: Time)
    ensures Passed(h, force, now, h.pending, h.turnRetry, h.pending.Keys, None, [])
  {}

  lemma PassedKeys(h: Host, force: bool, now: Time, pending: map<string, Pending>, retry: map<string, Time>,
                   todo: set<string>, chosen: Option<string>, dialled: seq<string>)
    requires Passed(h, force, now, pending, retry, todo, chosen, dialled)
    ensures todo <= pending.Keys && forall u | u in todo :: u in h.pending && pending[u] == h.pending[u]
  {}

  /** One guest: left alone, chosen for TURN, or dialled. */
  lemma PassStep(h: Host, force: bool, now: Time, pending: map<string, Pending>, retry: map<string, Time>,
                 todo: set<string>, chosen: Option<string>, dialled: seq<string>, u: string)
    requires Passed(h, force, now, pending, retry, todo, chosen, dialled) && u in todo && u in h.pending
    ensures var p := h.pending[u];
      if !Due(p, force, now) || (TurnFirst(h, u, force, now) && chosen.Some?) then
        Passed(h, force, now, pending, retry, todo - {u}, chosen, dialled)
      else if TurnFirst(h, u, force, now) then
        Passed(h, force, now, pending[u := p.(relayAttempted := true)], retry, todo - {u}, Some(u), dialled)
      else
        Passed(h, force, now, pending[u := p.(relayAttempted := true, relayAt := Some(now))],
               if h.client && u !in h.turnFailed then retry[u := now] else retry,
               todo - {u}, chosen, dialled + [u])
  {
    hide Due, RetryAfter;
    if TcpNow(h, u, force, now) {
      RetryMore(h, dialled, u, now);
    }
  }

  lemma RetryMore(h: Host, dialled: seq<string>, u: string, now: Time)
    ensures RetryAfter(h, Elems(dialled + [u]), now)
         == var r := RetryAfter(h, Elems(dialled), now);
            if h.client && u !in h.turnFailed then r[u := now] else r
  {}

  lemma PassEnds(h: Host, force: bool, now: Time, pending: map<string, Pending>, retry: map<string, Time>,
                 chosen: Option<string>, dialled: seq<string>)
    requires Passed(h, force, now, pending, retry, {}, chosen, dialled)
    ensures Chosen(h, force, now, chosen)
    ensures Pass(h, force, now, chosen, dialled)
      == h.(pending := pending, turnRetry := retry, connected := h.connected + dialled)
    ensures forall u :: u in dialled <==> u in DialSet(h, force, now)
    ensures forall i, j | 0 <= i < j < |dialled| :: dialled[i] != dialled[j]
  {
    hide Due, RetryAfter;
    assert Elems(dialled) == DialSet(h, force, now);
    assert pending == map u | u in h.pending :: Attempted(h, u, force, now, chosen);
  }

  lemma ClosedNone(t: Tables)
    ensures CloseAll(t, {}) == t
  {}

  lemma ClosedMore(t: Tables, done: set<string>, u: string)
    requires u !in done
    ensures Unregister(CloseAll(t, done), u) == CloseAll(t, done + {u})
  {}
}
