/** What the host's mesh loop keeps, whatever the order of its events. */
module MeshTheorems {
  import opened Bytes
  import opened StunAddress
  import opened Cidr
  import opened Plane
  import opened MeshSpec

  datatype Event =
    | Polled(guests: seq<GuestInfo>, now: Time)
    | PunchFrom(src: SocketAddr, listing: seq<GuestInfo>, found: Option<string>)
    | FellBack(force: bool, now: Time, chosen: Option<string>, dialled: seq<string>, ok: bool)
    | Retried(now: Time, chosen: Option<string>, advertised: bool, ok: bool)
    | Answered(u: string, offer: GuestInfo, ok: bool)
    | Died(d: LinkDeath, now: Time)
    | Broke(u: string)
    | Allocated

  function Step(h: Host, e: Event): Host {
    match e
    case Polled(guests, now) => Poll(h, guests, now)
    case PunchFrom(src, _, found) => Punched(h, src, found)
    case FellBack(force, now, chosen, dialled, ok) =>
      var k := Pass(h, force, now, chosen, dialled);
      if chosen.Some? then TurnAttempt(k, chosen.value, ok) else k
    case Retried(now, chosen, advertised, ok) => TurnRetry(h, now, chosen, advertised, ok)
    case Answered(u, offer, ok) => RelayResult(h, u, offer, ok)
    case Died(d, now) => Death(h, d, now)
    case Broke(u) => if u in h.plane.closes then h.(plane := Die(h.plane, h.plane.closes[u])) else h
    case Allocated => h.(client := true)
  }

  ghost predicate May(h: Host, e: Event) {
    match e
    case PunchFrom(src, listing, found) => Located(h, src, listing, found)
    case FellBack(force, now, chosen, dialled, _) =>
      Chosen(h, force, now, chosen) && forall u :: u in dialled <==> u in DialSet(h, force, now)
    case Retried(now, chosen, _, _) => ChosenRetry(h, now, chosen)
    case _ => true
  }

  function After(h: Host, events: seq<Event>): Host {
    if events == [] then h else Step(After(h, events[..|events| - 1]), events[|events| - 1])
  }

  ghost predicate Runs(h: Host, events: seq<Event>) {
    events != [] ==>
      Runs(h, events[..|events| - 1]) && May(After(h, events[..|events| - 1]), events[|events| - 1])
  }

  // ---------- the invariant ----------

  /** The tables agree with each other and with the plane. */
  ghost predicate Core(h: Host) {
    && h.established.Keys !! h.pending.Keys
    && Valid(h.plane) && h.plane.closes.Keys == h.established.Keys
    && (forall u :: u in h.establishedPeer <==> u in h.established && h.established[u].Direct?)
    && (forall u | u in h.pending :: h.pending[u].info.uuid == u)
    && (forall u | u in h.lastGuests :: h.lastGuests[u].uuid == u)
  }

  /** Every guest listed is being connected or is connected. */
  ghost predicate Attended(h: Host) {
    forall u | u in h.lastGuests :: u in h.pending || u in h.established
  }

  ghost predicate Inv(h: Host) {
    Core(h) && Attended(h)
  }

  /** A change of the pending guests alone. */
  lemma PendingKeeps(h: Host, u: string, p: Pending)
    requires Core(h) && u !in h.established && p.info.uuid == u
    ensures Core(h.(pending := h.pending[u := p]))
  {}

  lemma PlaneAttached(h: Host, u: string, g: GuestInfo)
    requires Valid(h.plane) && h.plane.closes.Keys == h.established.Keys
    ensures Valid(NewPlane(h, u, g)) && NewPlane(h, u, g).closes.Keys == h.established.Keys + {u}
  {
    hide RoutesFor;
  }

  lemma AttachKeeps(h: Host, u: string, g: GuestInfo, kind: Kind)
    requires Core(h) && !kind.Direct?
    ensures Core(Attach(h, u, g, kind)) && (Attended(h) ==> Attended(Attach(h, u, g, kind)))
  {
    hide NewPlane, Valid;
    PlaneAttached(h, u, g);
  }

  lemma AttachDirect(h: Host, u: string, g: GuestInfo, src: SocketAddr)
    requires Core(h)
    ensures var k := Attach(h, u, g, Direct);
      var q := k.(establishedPeer := k.establishedPeer[u := src]);
      Core(q) && (Attended(h) ==> Attended(q))
  {
    hide NewPlane, Valid;
    PlaneAttached(h, u, g);
  }

  lemma ForgetKeeps(h: Host, u: string)
    requires Core(h)
    ensures Core(Forget(h, u)) && Forget(h, u).lastGuests == h.lastGuests
  {}

  lemma {:induction false} ForgetChangedKeeps(h: Host, guests: seq<GuestInfo>)
    requires Core(h)
    ensures Core(ForgetChanged(h, guests)) && ForgetChanged(h, guests).lastGuests == h.lastGuests
  {
    hide Core, Forget;
    if guests != [] {
      ForgetChangedKeeps(h, guests[..|guests| - 1]);
      ForgetKeeps(ForgetChanged(h, guests[..|guests| - 1]), guests[|guests| - 1].uuid);
    }
  }

  lemma WelcomeKeeps(h: Host, g: GuestInfo, now: Time)
    requires Core(h)
    ensures var k := Welcome(h, g, now);
      && Core(k) && k.lastGuests == h.lastGuests && k.established == h.established
      && h.pending.Keys <= k.pending.Keys && (g.uuid in k.pending || g.uuid in k.established)
  {
    hide Core;
    if g.uuid !in h.established {
      if g.uuid in h.pending {
        PendingKeeps(h, g.uuid, h.pending[g.uuid].(info := g));
      } else {
        PendingKeeps(h, g.uuid, Queued(g, now));
      }
    }
  }

  lemma {:induction false} WelcomeAllKeeps(h: Host, guests: seq<GuestInfo>, now: Time)
    requires Core(h)
    ensures var k := WelcomeAll(h, guests, now);
      && Core(k) && k.lastGuests == h.lastGuests && k.established == h.established
      && h.pending.Keys <= k.pending.Keys
      && (forall i | 0 <= i < |guests| :: guests[i].uuid in k.pending || guests[i].uuid in k.established)
  {
    hide Core, Welcome;
    if guests != [] {
      WelcomeAllKeeps(h, guests[..|guests| - 1], now);
      var k := WelcomeAll(h, guests[..|guests| - 1], now);
      WelcomeKeeps(k, guests[|guests| - 1], now);
      forall i | 0 <= i < |guests|
        ensures guests[i].uuid in WelcomeAll(h, guests, now).pending
             || guests[i].uuid in WelcomeAll(h, guests, now).established
      {
        if i < |guests| - 1 {
          assert guests[..|guests| - 1][i] == guests[i];
        }
      }
    }
  }

  lemma {:induction false} ListedMeans(guests: seq<GuestInfo>)
    ensures forall u | u in Listed(guests) ::
      Listed(guests)[u].uuid == u && exists i | 0 <= i < |guests| :: guests[i].uuid == u
  {
    if guests != [] {
      var shorter := guests[..|guests| - 1];
      ListedMeans(shorter);
      forall u | u in Listed(guests)
        ensures Listed(guests)[u].uuid == u && exists i | 0 <= i < |guests| :: guests[i].uuid == u
      {
        if u == guests[|guests| - 1].uuid {
          assert guests[|guests| - 1].uuid == u;
        } else {
          assert u in Listed(shorter);
          var i :| 0 <= i < |shorter| && shorter[i].uuid == u;
          assert guests[i].uuid == u;
        }
      }
    }
  }

  lemma Relisted(h: Host, listed: map<string, GuestInfo>)
    requires Core(h) && forall u | u in listed :: listed[u].uuid == u
    ensures Core(h.(lastGuests := listed))
  {}

  lemma PollKeeps(h: Host, guests: seq<GuestInfo>, now: Time)
    requires Core(h)
    ensures Inv(Poll(h, guests, now))
  {
    hide Core, ForgetChanged, WelcomeAll, Listed;
    ForgetChangedKeeps(h, guests);
    ListedMeans(guests);
    var k := ForgetChanged(h, guests).(lastGuests := Listed(guests));
    Relisted(ForgetChanged(h, guests), Listed(guests));
    WelcomeAllKeeps(k, guests, now);
  }

  lemma PassKeeps(h: Host, force: bool, now: Time, chosen: Option<string>, dialled: seq<string>)
    requires Inv(h)
    ensures var k := Pass(h, force, now, chosen, dialled);
      Inv(k) && k.pending.Keys == h.pending.Keys
  {}

  lemma TurnAttemptKeeps(h: Host, u: string, ok: bool)
    requires Inv(h)
    ensures Inv(TurnAttempt(h, u, ok))
  {
    if u in h.pending {
      if ok {
        hide Attach, Valid;
        AttachKeeps(h.(client := false, tried := h.tried + [u]), u, h.pending[u].info, Turn);
      } else {
        hide Valid;
      }
    }
  }

  lemma RetryKeeps(h: Host, now: Time, chosen: Option<string>, advertised: bool, ok: bool)
    requires Inv(h)
    ensures Inv(TurnRetry(h, now, chosen, advertised, ok))
  {
    hide Attach, Valid;
    if chosen.Some? && chosen.value in h.pending {
      var u := chosen.value;
      AttachKeeps(h.(turnRetry := h.turnRetry[u := now], client := false, tried := h.tried + [u]), u, h.pending[u].info, Turn);
    }
  }

  lemma AnsweredKeeps(h: Host, u: string, offer: GuestInfo, ok: bool)
    requires Inv(h)
    ensures Inv(RelayResult(h, u, offer, ok))
  {
    hide Attach, Valid;
    if u in h.pending {
      AttachKeeps(h, u, h.pending[u].info, Relayed);
    }
  }

  lemma DeathKeeps(h: Host, d: LinkDeath, now: Time)
    requires Inv(h)
    ensures Inv(Death(h, d, now))
  {}

  lemma StepKeeps(h: Host, e: Event)
    requires Inv(h)
    ensures Inv(Step(h, e))
  {
    hide Inv, Core, Attended, Poll, Pass, TurnAttempt, TurnRetry, RelayResult, Death, Attach, Valid;
    match e {
      case Polled(guests, now) =>
        InvCore(h);
        PollKeeps(h, guests, now);
      case PunchFrom(src, _, found) => PunchedKeeps(h, src, found);
      case FellBack(force, now, chosen, dialled, ok) =>
        PassKeeps(h, force, now, chosen, dialled);
        if chosen.Some? {
          TurnAttemptKeeps(Pass(h, force, now, chosen, dialled), chosen.value, ok);
        }
      case Retried(now, chosen, advertised, ok) => RetryKeeps(h, now, chosen, advertised, ok);
      case Answered(u, offer, ok) => AnsweredKeeps(h, u, offer, ok);
      case Died(d, now) => DeathKeeps(h, d, now);
      case Broke(u) =>
        if u in h.plane.closes {
          BrokeKeeps(h, u);
        }
      case Allocated => ClientKeeps(h);
    }
  }

  lemma InvCore(h: Host)
    requires Inv(h)
    ensures Core(h)
  {}

  lemma PunchedKeeps(h: Host, src: SocketAddr, found: Option<string>)
    requires Inv(h)
    ensures Inv(Punched(h, src, found))
  {
    hide Attach, Valid;
    if found.Some? && found.value in h.pending {
      AttachDirect(h, found.value, h.pending[found.value].info, src);
    } else if found.Some? && found.value in h.lastGuests {
      AttachDirect(h, found.value, h.lastGuests[found.value], src);
    }
  }

  lemma BrokeKeeps(h: Host, u: string)
    requires Inv(h) && u in h.plane.closes
    ensures Inv(h.(plane := Die(h.plane, h.plane.closes[u])))
  {}

  lemma ClientKeeps(h: Host)
    requires Inv(h)
    ensures Inv(h.(client := true))
  {}

  lemma {:induction false} RunKeeps(h: Host, events: seq<Event>)
    requires Inv(h)
    ensures Inv(After(h, events))
  {
    hide Inv, Step;
    if events != [] {
      RunKeeps(h, events[..|events| - 1]);
      StepKeeps(After(h, events[..|events| - 1]), events[|events| - 1]);
    }
  }

  // ---------- the theorems ----------

  /** After every event: a guest is never both being connected and connected, and if listed is
      one of the two; the plane has exactly the established links; and exactly the direct ones
      have a peer address. */
  lemma ConsistencyTheorem(client: bool, events: seq<Event>)
    ensures var h := After(NewHost(client), events);
      && h.pending.Keys !! h.established.Keys
      && h.lastGuests.Keys <= h.pending.Keys + h.established.Keys
      && h.plane.routes.Keys == h.plane.writers.Keys == h.plane.closes.Keys == h.established.Keys
      && (forall u :: u in h.establishedPeer <==> u in h.established && h.established[u].Direct?)
  {
    RunKeeps(NewHost(client), events);
  }

  // ---------- how links come and go ----------

  /** The poll that shows a guest with another address, LAN or TURN relay than the one before. */
  predicate Readvertised(h: Host, e: Event, u: string) {
    e.Polled? && u in h.lastGuests
    && exists i | 0 <= i < |e.guests| :: e.guests[i].uuid == u && !SameConnection(h.lastGuests[u], e.guests[i])
  }

  /** The addresses a guest can be reached at are as they were. */
  predicate SameConnection(a: GuestInfo, b: GuestInfo) {
    a.addr == b.addr && a.lan == b.lan && a.turnRelay == b.turnRelay
  }

  /** The link the event makes for u: direct by a punch from a guest without a link, TURN by an
      attempt that worked out, or TCP by a relay that answered with the guest unchanged. */
  ghost function Made(h: Host, links: map<string, Kind>, e: Event, u: string): Option<Kind> {
    match e
    case PunchFrom(_, _, found) =>
      if found == Some(u) && u !in links && (u in h.pending || u in h.lastGuests) then Some(Direct) else None
    case FellBack(_, _, chosen, _, ok) => if chosen == Some(u) && ok then Some(Turn) else None
    case Retried(_, chosen, advertised, ok) => if chosen == Some(u) && advertised && ok then Some(Turn) else None
    case Answered(v, offer, ok) =>
      if u == v && ok && u in h.pending
         && SameConnection(h.pending[u].info, offer) then Some(Relayed) else None
    case _ => None
  }

  /** The event ends u's link: it died and is the one in use, or the guest started over. */
  ghost predicate Ends(h: Host, e: Event, u: string) {
    (e.Died? && e.d.uuid == u && IsCurrentDeath(h.plane, e.d)) || Readvertised(h, e, u)
  }

  /** The links there are after a run, and how each came about, from the events alone. */
  ghost function Links(h: Host, events: seq<Event>): map<string, Kind> {
    if events == [] then map[]
    else
      var before := events[..|events| - 1];
      NextLinks(After(h, before), Links(h, before), events[|events| - 1])
  }

  ghost function NextLinks(h: Host, links: map<string, Kind>, e: Event): map<string, Kind> {
    map u | u in links.Keys + Named(e) && (Made(h, links, e, u).Some? || (u in links && !Ends(h, e, u))) ::
      if Made(h, links, e, u).Some? then Made(h, links, e, u).value else links[u]
  }

  /** Whom an event names. */
  ghost function Named(e: Event): set<string> {
    match e
    case PunchFrom(_, _, found) => if found.Some? then {found.value} else {}
    case FellBack(_, _, chosen, _, _) => if chosen.Some? then {chosen.value} else {}
    case Retried(_, chosen, _, _) => if chosen.Some? then {chosen.value} else {}
    case Answered(u, _, _) => {u}
    case _ => {}
  }

  /** u becomes barred from TURN: the TURN attempt of a pass failed, or a link that TURN made died. */
  ghost predicate Bars(h: Host, links: map<string, Kind>, e: Event, u: string) {
    match e
    case FellBack(_, _, chosen, _, ok) => chosen == Some(u) && !ok
    case Died(d, _) => d.uuid == u && IsCurrentDeath(h.plane, d) && u in links && links[u] == Turn
    case _ => false
  }

  lemma {:induction false} ForgetOnlyChanged(h: Host, guests: seq<GuestInfo>, u: string)
    requires u in h.turnFailed
    requires u in h.lastGuests ==>
      forall i | 0 <= i < |guests| && guests[i].uuid == u :: !Changed(h.lastGuests[u], guests[i])
    ensures u in ForgetChanged(h, guests).turnFailed && ForgetChanged(h, guests).tried == h.tried
  {
    hide Changed;
    if guests != [] {
      var shorter := guests[..|guests| - 1];
      assert forall i | 0 <= i < |shorter| :: shorter[i] == guests[i];
      ForgetOnlyChanged(h, shorter, u);
    }
  }

  lemma {:induction false} WelcomeNoTurn(h: Host, guests: seq<GuestInfo>, now: Time)
    ensures var k := WelcomeAll(h, guests, now); k.turnFailed == h.turnFailed && k.tried == h.tried
  {
    if guests != [] {
      WelcomeNoTurn(h, guests[..|guests| - 1], now);
    }
  }

  lemma BarredStep(h: Host, e: Event, u: string)
    requires u in h.turnFailed && May(h, e) && !Readvertised(h, e, u)
    ensures u in Step(h, e).turnFailed
    ensures multiset(Step(h, e).tried)[u] == multiset(h.tried)[u]
  {
    hide Register, Unregister, RoutesFor, Located, RetryAfter, Due;
    match e {
      case Polled(guests, now) =>
        hide Poll, ForgetChanged, WelcomeAll;
        ForgetOnlyChanged(h, guests, u);
        WelcomeNoTurn(ForgetChanged(h, guests).(lastGuests := Listed(guests)), guests, now);
        PollParts(h, guests, now);
      case _ =>
    }
  }

  /** A link is there after an event when the event made it, or it was there and has not ended;
      its kind is that of the attempt that made it. */
  ghost predicate LinksNext(h: Host, k: Host, e: Event, u: string) {
    && (u in k.established <==>
          Made(h, h.established, e, u).Some? || (u in h.established && !Ends(h, e, u)))
    && (u in k.established ==>
          k.established[u] == if Made(h, h.established, e, u).Some? then Made(h, h.established, e, u).value
                              else h.established[u])
  }

  /** The links of the next state, whatever the event. */
  lemma LinkStep(h: Host, e: Event, u: string)
    requires May(h, e)
    ensures LinksNext(h, Step(h, e), e, u)
  {
    hide *;
    match e {
      case Polled(guests, now) => PolledLinks(h, guests, now, u);
      case FellBack(_, _, _, _, _) => FellBackLinks(h, e, u);
      case Retried(_, _, _, _) => RetriedLinks(h, e, u);
      case Died(_, _) => DiedLinks(h, e, u);
      case _ => OtherLinks(h, e, u);
    }
  }

  lemma PolledLinks(h: Host, guests: seq<GuestInfo>, now: Time, u: string)
    ensures LinksNext(h, Step(h, Polled(guests, now)), Polled(guests, now), u)
  {
    hide Poll;
    PollLinks(h, guests, now, u);
  }

  lemma RetriedLinks(h: Host, e: Event, u: string)
    requires May(h, e) && e.Retried?
    ensures LinksNext(h, Step(h, e), e, u)
  {
    hide NewPlane;
  }

  lemma DiedLinks(h: Host, e: Event, u: string)
    requires e.Died?
    ensures LinksNext(h, Step(h, e), e, u)
  {
    hide Unregister, IsCurrentDeath;
  }

  lemma OtherLinks(h: Host, e: Event, u: string)
    requires !e.Polled? && !e.FellBack? && !e.Retried? && !e.Died?
    ensures LinksNext(h, Step(h, e), e, u)
  {
    hide NewPlane, Poll, Pass, TurnAttempt, TurnRetry, Death, IsCurrentDeath;
    match e {
      case Answered(v, offer, ok) => AnsweredLinks(h, v, offer, ok, u);
      case _ => hide RelayResult, Changed, SameConnection;
    }
  }

  lemma AnsweredLinks(h: Host, v: string, offer: GuestInfo, ok: bool, u: string)
    ensures LinksNext(h, Step(h, Answered(v, offer, ok)), Answered(v, offer, ok), u)
  {
    hide NewPlane, IsCurrentDeath;
  }

  lemma FellBackLinks(h: Host, e: Event, u: string)
    requires May(h, e) && e.FellBack?
    ensures LinksNext(h, Step(h, e), e, u)
  {
    hide NewPlane, RetryAfter, Due;
  }

  lemma {:induction false} ForgetLinks(h: Host, guests: seq<GuestInfo>, u: string)
    ensures var k := ForgetChanged(h, guests);
      && (u in k.established <==> u in h.established && !Readvertised(h, Polled(guests, 0), u))
      && (u in k.established ==> k.established[u] == h.established[u])
      && (u in k.turnFailed <==> u in h.turnFailed && !Readvertised(h, Polled(guests, 0), u))
  {
    hide Unregister;
    if guests != [] {
      var (shorter, g) := (guests[..|guests| - 1], guests[|guests| - 1]);
      ForgetLinks(h, shorter, u);
      assert forall i | 0 <= i < |shorter| :: shorter[i] == guests[i];
    }
  }

  lemma {:induction false} WelcomeLinks(h: Host, guests: seq<GuestInfo>, now: Time)
    ensures var k := WelcomeAll(h, guests, now); k.established == h.established && k.turnFailed == h.turnFailed
  {
    if guests != [] {
      WelcomeLinks(h, guests[..|guests| - 1], now);
    }
  }

  lemma PollLinks(h: Host, guests: seq<GuestInfo>, now: Time, u: string)
    ensures var k := Poll(h, guests, now);
      && (u in k.established <==> u in h.established && !Readvertised(h, Polled(guests, now), u))
      && (u in k.established ==> k.established[u] == h.established[u])
      && (u in k.turnFailed <==> u in h.turnFailed && !Readvertised(h, Polled(guests, now), u))
  {
    hide ForgetChanged, WelcomeAll;
    ForgetLinks(h, guests, u);
    WelcomeLinks(ForgetChanged(h, guests).(lastGuests := Listed(guests)), guests, now);
  }

  /** In every run the established links are those its events made and did not end, each of
      the kind of the attempt that made it. */
  lemma {:induction false} LinksTheorem(client: bool, events: seq<Event>)
    requires Runs(NewHost(client), events)
    ensures After(NewHost(client), events).established == Links(NewHost(client), events)
  {
    if events != [] {
      var (before, e) := (events[..|events| - 1], events[|events| - 1]);
      LinksTheorem(client, before);
      var h := After(NewHost(client), before);
      hide Step, May, LinksNext, NextLinks;
      forall u ensures LinksNext(h, Step(h, e), e, u) {
        LinkStep(h, e, u);
      }
      NextLinksIs(h, Step(h, e), e);
    }
  }

  lemma NextLinksIs(h: Host, k: Host, e: Event)
    requires forall u :: LinksNext(h, k, e, u)
    ensures k.established == NextLinks(h, h.established, e)
  {
    hide Made, Ends;
    var next := NextLinks(h, h.established, e);
    forall u ensures u in k.established <==> u in next
             ensures u in k.established ==> k.established[u] == next[u] {
      assert LinksNext(h, k, e, u);
      NamedOnly(h, h.established, e, u);
    }
  }

  lemma NamedOnly(h: Host, links: map<string, Kind>, e: Event, u: string)
    ensures Made(h, links, e, u).Some? ==> u in Named(e)
  {}

  /** Over every step: barred afterwards is exactly whom the event bars, and whoever was barred
      before and has not been shown as changed. */
  lemma BarStep(h: Host, e: Event, u: string)
    requires May(h, e)
    ensures u in Step(h, e).turnFailed <==>
      Bars(h, h.established, e, u) || (u in h.turnFailed && !Readvertised(h, e, u))
  {
    hide Register, Unregister, RoutesFor, Located, RetryAfter, Due;
    match e {
      case Polled(guests, now) =>
        hide Poll;
        PollLinks(h, guests, now, u);
      case _ =>
    }
  }

  /** In every run u is barred exactly when an event barred it, a failed TURN attempt of a pass
      or the death of the link in use that a TURN attempt had made, and no poll since showed it
      as changed. */
  lemma {:induction false} BarHistory(client: bool, events: seq<Event>, u: string)
    requires Runs(NewHost(client), events)
    ensures u in After(NewHost(client), events).turnFailed <==> exists i :: BarredAt(NewHost(client), events, i, u)
  {
    var h := NewHost(client);
    if events != [] {
      var (before, e) := (events[..|events| - 1], events[|events| - 1]);
      BarHistory(client, before, u);
      LinksTheorem(client, before);
      BarStep(After(h, before), e, u);
      forall i ensures BarredAt(h, events, i, u) <==>
        if i == |before| then Bars(After(h, before), Links(h, before), e, u)
        else BarredAt(h, before, i, u) && !Readvertised(After(h, before), e, u)
      {
        BarredLater(h, events, i, u);
      }
      hide BarredAt, Bars, Readvertised, Links, Step, May;
      assert Bars(After(h, before), Links(h, before), e, u) ==> BarredAt(h, events, |before|, u);
    }
  }

  /** Event i barred u, and no poll since showed it as changed. */
  ghost predicate BarredAt(h: Host, events: seq<Event>, i: int, u: string) {
    && 0 <= i < |events|
    && Bars(After(h, events[..i]), Links(h, events[..i]), events[i], u)
    && forall j | i < j < |events| :: !Readvertised(After(h, events[..j]), events[j], u)
  }

  lemma BarredLater(h: Host, events: seq<Event>, i: int, u: string)
    requires events != []
    ensures var (before, e) := (events[..|events| - 1], events[|events| - 1]);
      BarredAt(h, events, i, u) <==>
        if i == |before| then Bars(After(h, before), Links(h, before), e, u)
        else BarredAt(h, before, i, u) && !Readvertised(After(h, before), e, u)
  {
    hide After, Bars, Links, Readvertised;
    var before := events[..|events| - 1];
    assert forall j | 0 <= j < |before| :: before[..j] == events[..j] && before[j] == events[j];
  }

  lemma PollParts(h: Host, guests: seq<GuestInfo>, now: Time)
    ensures Poll(h, guests, now) == WelcomeAll(ForgetChanged(h, guests).(lastGuests := Listed(guests)), guests, now)
  {}

  /** A guest whose TURN link failed or died gets no TURN attempt, through any events, until a
      poll shows it with another address, LAN or TURN relay than the poll before. */
  lemma {:induction false} BarredTheorem(h: Host, events: seq<Event>, u: string)
    requires Runs(h, events) && u in h.turnFailed
    requires forall i | 0 <= i < |events| :: !Readvertised(After(h, events[..i]), events[i], u)
    ensures u in After(h, events).turnFailed
    ensures multiset(After(h, events).tried)[u] == multiset(h.tried)[u]
  {
    if events != [] {
      var shorter := events[..|events| - 1];
      forall i | 0 <= i < |shorter| ensures !Readvertised(After(h, shorter[..i]), shorter[i], u) {
        assert shorter[..i] == events[..i];
      }
      hide Step, May, Readvertised;
      BarredTheorem(h, shorter, u);
      BarredStep(After(h, shorter), events[|events| - 1], u);
    }
  }

  /** So from the failed attempt or the death of a TURN link on, whatever came before: u gets no
      TURN attempt until it is shown as changed. */
  lemma NoTurnAfterwards(client: bool, events: seq<Event>, e: Event, more: seq<Event>, u: string)
    requires Runs(NewHost(client), events) && May(After(NewHost(client), events), e)
    requires Bars(After(NewHost(client), events), Links(NewHost(client), events), e, u)
    requires var k := Step(After(NewHost(client), events), e);
      Runs(k, more) && forall i | 0 <= i < |more| :: !Readvertised(After(k, more[..i]), more[i], u)
    ensures var k := Step(After(NewHost(client), events), e);
      multiset(After(k, more).tried)[u] == multiset(k.tried)[u]
  {
    var h := After(NewHost(client), events);
    LinksTheorem(client, events);
    hide Step, May, Readvertised, Bars, Links;
    BarStep(h, e, u);
    BarredTheorem(Step(h, e), more, u);
  }

  lemma {:induction false} ForgetsChanged(h: Host, guests: seq<GuestInfo>, i: nat)
    requires i < |guests| && guests[i].uuid in h.lastGuests && Changed(h.lastGuests[guests[i].uuid], guests[i])
    ensures var k := ForgetChanged(h, guests); guests[i].uuid !in k.turnFailed
  {
    hide Changed;
    var shorter := guests[..|guests| - 1];
    if i < |shorter| {
      assert shorter[i] == guests[i];
      ForgetsChanged(h, shorter, i);
    }
  }

  /** A poll lifts the bar exactly when it shows a guest of the poll before it as changed; one
      that was away in between stays barred. */
  lemma PollLiftsBar(h: Host, e: Event, u: string)
    requires e.Polled? && u in h.turnFailed
    ensures u in Step(h, e).turnFailed <==> !Readvertised(h, e, u)
  {
    if Readvertised(h, e, u) {
      var i :| 0 <= i < |e.guests| && e.guests[i].uuid == u && Changed(h.lastGuests[u], e.guests[i]);
      ForgetsChanged(h, e.guests, i);
      hide ForgetChanged, WelcomeAll, Poll;
      PollParts(h, e.guests, e.now);
      WelcomeNoTurn(ForgetChanged(h, e.guests).(lastGuests := Listed(e.guests)), e.guests, e.now);
    } else {
      BarredStep(h, e, u);
    }
  }

  /** When the TURN attempt of a pass fails, the guest is dialled over TCP on the next one. */
  lemma FailedTurnDials(h: Host, force: bool, now: Time, chosen: Option<string>, dialled: seq<string>, later: Time)
    requires chosen.Some? && Chosen(h, force, now, chosen) && now <= later
    ensures var k := Step(h, FellBack(force, now, chosen, dialled, false));
      && chosen.value in k.turnFailed && k.established == h.established
      && chosen.value in DialSet(k, force, later)
  {}

  /** A guest dialled over TCP while TURN was open to it, and still waiting, is offered TURN
      again five seconds later. */
  lemma DialledMayRetry(h: Host, force: bool, now: Time, chosen: Option<string>, dialled: seq<string>,
                        u: string, later: Time)
    requires Inv(h) && h.client && u in DialSet(h, force, now) && u !in h.turnFailed && chosen != Some(u)
    requires later >= now + TURN_PAUSE
    ensures Retriable(Pass(h, force, now, chosen, dialled), u, later)
  {}

  /** A relay that could not be reached is dialled again a second after the last time. */
  lemma FailedRelayDialsAgain(h: Host, u: string, force: bool, at: Time, later: Time)
    requires u in h.pending && h.pending[u].relayAt == Some(at) && later >= at + RELAY_PAUSE
    requires force || (h.pending[u].deadline.Some? && later >= h.pending[u].deadline.value)
    requires !h.client || force || u in h.turnFailed || h.pending[u].info.turnRelay.None?
    ensures u in DialSet(RelayResult(h, u, h.pending[u].info, false), force, later)
  {}

  /** A link is given the guest's virtual address and its private subnets of 16 bits or more. */
  lemma {:induction false} SubnetRoutesMean(subnets: seq<Advertised>, r: Subnet)
    ensures r in SubnetRoutes(subnets) <==>
      exists i | 0 <= i < |subnets| :: subnets[i].net == r && subnets[i].private && r.1 >= 16
  {
    if subnets != [] {
      var shorter := subnets[..|subnets| - 1];
      SubnetRoutesMean(shorter, r);
      if i :| 0 <= i < |subnets| && subnets[i].net == r && subnets[i].private && r.1 >= 16 {
        assert i < |shorter| ==> shorter[i] == subnets[i];
      }
      if i :| 0 <= i < |shorter| && shorter[i].net == r && shorter[i].private && r.1 >= 16 {
        assert subnets[i] == shorter[i];
      }
    }
  }

  /** `route_for` can be used on the routes of a guest exactly when no private subnet it
      advertises has a prefix over 32: nothing checks that on the way. */
  lemma RoutableGuests(g: GuestInfo)
    ensures (forall r | r in RoutesFor(g) :: r.1 <= 32)
      <==> (forall i | 0 <= i < |g.subnets| :: g.subnets[i].private ==> g.subnets[i].net.1 <= 32)
  {
    forall i | 0 <= i < |g.subnets| && g.subnets[i].private && g.subnets[i].net.1 > 32
      ensures g.subnets[i].net in SubnetRoutes(g.subnets)
    {
      SubnetRoutesMean(g.subnets, g.subnets[i].net);
    }
    forall r | r in SubnetRoutes(g.subnets)
      ensures exists i | 0 <= i < |g.subnets| :: g.subnets[i].net == r && g.subnets[i].private
    {
      SubnetRoutesMean(g.subnets, r);
    }
  }
}
