/** The host's mesh session as a state machine: one event of its loop is one step. The guest
    list, the clock, and whether a connection attempt succeeds come from outside; where the
    source takes the first hit of a hash table, the step is told which one it was. */
module MeshSpec {
  import opened Bytes
  import opened StunAddress
  import opened Cidr
  import opened Plane

  type Time = int

  /** Milliseconds. */
  const PUNCH_WINDOW: int := 3000
  const RELAY_PAUSE: int := 1000
  const TURN_PAUSE: int := 5000

  /** A subnet a guest advertises, and whether its address is a private one. */
  datatype Advertised = Advertised(net: Subnet, private: bool)

  /** `vnet` is the guest's virtual address, assigned or derived, if it parses. */
  datatype GuestInfo = GuestInfo(uuid: string, addr: SocketAddr, lan: seq<SocketAddr>,
                                 turnRelay: Option<SocketAddr>, vnet: Option<Ip>, subnets: seq<Advertised>)

  datatype Kind = Direct | Turn | Relayed

  datatype Pending = Pending(info: GuestInfo, relayAttempted: bool, relayAt: Option<Time>, deadline: Option<Time>)

  /** `client`: a TURN allocation is ready. `tried` and `connected` are history: the guests a
      TURN data plane was opened for, and those a TCP relay was dialled for. */
  datatype Host = Host(
    pending: map<string, Pending>,
    established: map<string, Kind>,
    establishedPeer: map<string, SocketAddr>,
    turnRetry: map<string, Time>,
    turnFailed: set<string>,
    lastGuests: map<string, GuestInfo>,
    client: bool,
    plane: Tables,
    tried: seq<string>,
    connected: seq<string>)

  function NewHost(client: bool): Host {
    Host(map[], map[], map[], map[], {}, map[], client, NoLinks(), [], [])
  }

  predicate Changed(a: GuestInfo, b: GuestInfo) {
    a.addr != b.addr || a.lan != b.lan || a.turnRelay != b.turnRelay
  }

  predicate Reaches(g: GuestInfo, src: SocketAddr) {
    g.addr == src || src in g.lan
  }

  function SubnetRoutes(subnets: seq<Advertised>): seq<Subnet> {
    if subnets == [] then []
    else
      var last := subnets[|subnets| - 1];
      SubnetRoutes(subnets[..|subnets| - 1])
      + if last.net.1 >= 16 && last.private then [last.net] else []
  }

  function RoutesFor(g: GuestInfo): seq<Subnet> {
    (if g.vnet.Some? then [(g.vnet.value, 32)] else []) + SubnetRoutes(g.subnets)
  }

  function Queued(g: GuestInfo, now: Time): Pending {
    Pending(g, false, None, Some(now + PUNCH_WINDOW))
  }

  // ---------- polling ----------

  /** A guest that restarted: everything known about it goes. */
  function Forget(h: Host, uuid: string): Host {
    h.(plane := Unregister(h.plane, uuid),
       established := h.established - {uuid},
       establishedPeer := h.establishedPeer - {uuid},
       pending := h.pending - {uuid},
       turnRetry := h.turnRetry - {uuid},
       turnFailed := h.turnFailed - {uuid})
  }

  function ForgetChanged(h: Host, guests: seq<GuestInfo>): Host {
    if guests == [] then h
    else
      var k := ForgetChanged(h, guests[..|guests| - 1]);
      var g := guests[|guests| - 1];
      if g.uuid in h.lastGuests && Changed(h.lastGuests[g.uuid], g) then Forget(k, g.uuid) else k
  }

  function Listed(guests: seq<GuestInfo>): map<string, GuestInfo> {
    if guests == [] then map[]
    else
      var g := guests[|guests| - 1];
      Listed(guests[..|guests| - 1])[g.uuid := g]
  }

  function Welcome(h: Host, g: GuestInfo, now: Time): Host {
    if g.uuid in h.established then h
    else if g.uuid in h.pending then h.(pending := h.pending[g.uuid := h.pending[g.uuid].(info := g)])
    else h.(pending := h.pending[g.uuid := Queued(g, now)])
  }

  function WelcomeAll(h: Host, guests: seq<GuestInfo>, now: Time): Host {
    if guests == [] then h else Welcome(WelcomeAll(h, guests[..|guests| - 1], now), guests[|guests| - 1], now)
  }

  function Poll(h: Host, guests: seq<GuestInfo>, now: Time): Host {
    WelcomeAll(ForgetChanged(h, guests).(lastGuests := Listed(guests)), guests, now)
  }

  /** Without `--expose-lan` the subnets guests advertise are not looked at. */
  function Seen(guests: seq<GuestInfo>, exposeLan: bool): (r: seq<GuestInfo>)
    ensures |r| == |guests|
  {
    seq(|guests|, i requires 0 <= i < |guests| => if exposeLan then guests[i] else guests[i].(subnets := []))
  }

  // ---------- links ----------

  /** The plane once `u` has a link of its own, its old one removed first. */
  function NewPlane(h: Host, u: string, g: GuestInfo): Tables {
    Register(if u in h.established then Unregister(h.plane, u) else h.plane, u, RoutesFor(g))
  }

  /** A link of any kind takes the place of whatever there was. */
  function Attach(h: Host, uuid: string, g: GuestInfo, kind: Kind): Host {
    h.(pending := h.pending - {uuid},
       established := h.established[uuid := kind],
       establishedPeer := h.establishedPeer - {uuid},
       plane := NewPlane(h, uuid, g))
  }

  /** Whom a punch from `src` is taken to come from: a pending guest, else a listed one, else
      the first hit of a fresh listing. */
  ghost predicate Located(h: Host, src: SocketAddr, listing: seq<GuestInfo>, found: Option<string>) {
    if exists u | u in h.pending :: Reaches(h.pending[u].info, src) then
      found.Some? && found.value in h.pending && Reaches(h.pending[found.value].info, src)
    else if exists u | u in h.lastGuests :: Reaches(h.lastGuests[u], src) then
      found.Some? && found.value in h.lastGuests && Reaches(h.lastGuests[found.value], src)
    else found == FirstAt(listing, src)
  }

  function FirstAt(guests: seq<GuestInfo>, src: SocketAddr): Option<string> {
    if guests == [] then None
    else if Reaches(guests[0], src) then Some(guests[0].uuid)
    else FirstAt(guests[1..], src)
  }

  function Punched(h: Host, src: SocketAddr, found: Option<string>): Host {
    if found.None? || found.value in h.established then h
    else
      var u := found.value;
      if u !in h.pending && u !in h.lastGuests then h
      else
        var g := if u in h.pending then h.pending[u].info else h.lastGuests[u];
        var k := Attach(h, u, g, Direct);
        k.(establishedPeer := k.establishedPeer[u := src])
  }

  // ---------- falling back ----------

  predicate Due(p: Pending, force: bool, now: Time) {
    && !p.relayAttempted
    && (force || (p.deadline.Some? && now >= p.deadline.value))
    && (p.relayAt.None? || now - p.relayAt.value >= RELAY_PAUSE)
  }

  /** Due, and TURN is open to it. */
  predicate TurnFirst(h: Host, u: string, force: bool, now: Time)
    requires u in h.pending
  {
    Due(h.pending[u], force, now) && h.client && !force && u !in h.turnFailed && h.pending[u].info.turnRelay.Some?
  }

  /** Due, and TURN is not: a TCP relay is dialled. */
  predicate TcpNow(h: Host, u: string, force: bool, now: Time)
    requires u in h.pending
  {
    Due(h.pending[u], force, now) && !TurnFirst(h, u, force, now)
  }

  /** The guest that gets the TURN attempt of this pass, if any may. */
  ghost predicate Chosen(h: Host, force: bool, now: Time, chosen: Option<string>) {
    match chosen
    case Some(u) => u in h.pending && TurnFirst(h, u, force, now)
    case None => forall u | u in h.pending :: !TurnFirst(h, u, force, now)
  }

  /** What the pass over the pending guests does to one of them. */
  function Attempted(h: Host, u: string, force: bool, now: Time, chosen: Option<string>): Pending
    requires u in h.pending
  {
    var p := h.pending[u];
    if chosen == Some(u) then p.(relayAttempted := true)
    else if TcpNow(h, u, force, now) then p.(relayAttempted := true, relayAt := Some(now))
    else p
  }

  function DialSet(h: Host, force: bool, now: Time): set<string> {
    set u | u in h.pending && TcpNow(h, u, force, now)
  }

  /** A guest dialled while TURN is open to it is noted for TURN retries. */
  function RetryAfter(h: Host, dialled: set<string>, now: Time): map<string, Time> {
    var noted := if h.client then dialled - h.turnFailed else {};
    map u | u in h.turnRetry.Keys + noted :: if u in noted then now else h.turnRetry[u]
  }

  /** `dialled` lists the guests a TCP relay was dialled for, in the order of the pass. */
  function Pass(h: Host, force: bool, now: Time, chosen: Option<string>, dialled: seq<string>): Host {
    h.(pending := map u | u in h.pending :: Attempted(h, u, force, now, chosen),
       turnRetry := RetryAfter(h, DialSet(h, force, now), now),
       connected := h.connected + dialled)
  }

  /** The chosen guest's TURN attempt uses up the allocation. On failure the guest is barred
      from TURN and goes to TCP on the next pass. */
  function TurnAttempt(h: Host, u: string, ok: bool): Host {
    if u !in h.pending then h
    else
      var k := h.(client := false, tried := h.tried + [u]);
      if ok then Attach(k, u, h.pending[u].info, Turn)
      else
        k.(turnFailed := k.turnFailed + {u},
           pending := k.pending[u := k.pending[u].(relayAttempted := false, relayAt := None)])
  }

  /** A guest waiting for its TCP relay whose TURN may be tried again. */
  predicate Retriable(h: Host, u: string, now: Time) {
    && u in h.turnRetry && u in h.pending && u !in h.turnFailed && u !in h.established
    && now - h.turnRetry[u] >= TURN_PAUSE
  }

  ghost predicate ChosenRetry(h: Host, now: Time, chosen: Option<string>) {
    match chosen
    case Some(u) => h.client && Retriable(h, u, now)
    case None => !h.client || forall u :: !Retriable(h, u, now)
  }

  /** `advertised`: the room still lists a TURN relay for the guest. The allocation is gone
      even if it does not. */
  function TurnRetry(h: Host, now: Time, chosen: Option<string>, advertised: bool, ok: bool): Host {
    if chosen.None? || chosen.value !in h.pending then h
    else
      var u := chosen.value;
      var k := h.(turnRetry := h.turnRetry[u := now], client := false);
      if !advertised then k
      else
        var q := k.(tried := k.tried + [u]);
        if ok then Attach(q, u, h.pending[u].info, Turn) else q
  }

  /** A dialled relay answers; `offer` is the guest as it was when dialled. */
  function RelayResult(h: Host, u: string, offer: GuestInfo, ok: bool): Host {
    if u !in h.pending || Changed(h.pending[u].info, offer) then h
    else if ok then Attach(h, u, h.pending[u].info, Relayed)
    else h.(pending := h.pending[u := h.pending[u].(relayAttempted := false)])
  }

  // ---------- losing links ----------

  function Death(h: Host, d: LinkDeath, now: Time): Host {
    if !IsCurrentDeath(h.plane, d) then h
    else
      var u := d.uuid;
      var k := h.(plane := Unregister(h.plane, u));
      if u !in h.established then k
      else
        k.(established := k.established - {u},
           establishedPeer := k.establishedPeer - {u},
           turnFailed := if h.established[u].Turn? then k.turnFailed + {u} else k.turnFailed,
           pending := if u in h.lastGuests then k.pending[u := Queued(h.lastGuests[u], now)] else k.pending)
  }

  /** The room is gone: every link is closed before the session ends. */
  function CloseAll(t: Tables, links: set<string>): Tables {
    t.(routes := t.routes - links, writers := t.writers - links, closes := t.closes - links,
       cancelled := t.cancelled + set u | u in links && u in t.closes :: t.closes[u])
  }
}
