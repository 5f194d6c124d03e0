/** The TURN server: allocations, permissions and what may be relayed between clients.
    Time, the relay address the system binds and the keyed digest are parameters. */
module Turn {
  import opened Bytes
  import opened Stun
  import opened StunAddress
  import opened StunIntegrity

  const LIFETIME: nat := 600
  const MAX_ALLOCATIONS: nat := 256
  const MAX_ALLOCATIONS_PER_IP: nat := 32
  const MAX_PERMISSIONS: nat := 64

  const METHOD_BINDING: nat := 0x001
  const METHOD_ALLOCATE: nat := 0x003
  const METHOD_REFRESH: nat := 0x004
  const METHOD_SEND: nat := 0x006
  const METHOD_CREATE_PERMISSION: nat := 0x008
  const CLASS_REQUEST: nat := 0
  const CLASS_INDICATION: nat := 1

  const ATTR_USERNAME: nat := 0x0006
  const ATTR_REALM: nat := 0x0014
  const ATTR_NONCE: nat := 0x0015
  const ATTR_XOR_PEER_ADDRESS: nat := 0x0012
  const ATTR_DATA: nat := 0x0013

  type Addr = SocketAddr
  type Time = int

  datatype Host = Host4(ip: nat) | Host6(octets: seq<byte>)

  function HostOf(a: Addr): Host {
    if a.V4? then Host4(a.ip) else Host6(a.octets)
  }

  /** `relay` stands for both the relay socket and the address advertised for it. */
  datatype Allocation = Allocation(relay: Addr, permissions: set<Addr>, client: Addr, expires: Time)

  type Allocs = map<Addr, Allocation>

  datatype Request =
    | Allocate
    | Permit(peer: Option<Addr>)
    | Send(peer: Option<Addr>, data: Option<seq<byte>>)
    | Refresh
    | Binding
    | Challenge
    | Dropped

  datatype Reply =
    | Silent
    | Rejected(code: nat)
    | Allocated(relay: Addr, lifetime: nat)
    | Permitted
    | Refreshed(lifetime: nat)
    | Mapped(addr: Addr)
    | Challenged
    | Relay(source: Addr, target: Addr, data: seq<byte>)
    | Deliver(client: Addr, peer: Addr, data: seq<byte>)

  // ---------- which packets are acted on ----------

  /** "frp-sh" */
  const USERNAME: seq<byte> := [102, 114, 112, 45, 115, 104]

  datatype Auth = Auth(realm: seq<byte>, nonce: seq<byte>, mac: seq<byte> -> seq<byte>)

  /** The first attribute of a type. */
  function Get(attrs: seq<Attr>, t: nat): Option<seq<byte>> {
    if attrs == [] then None
    else if attrs[0].0 == t then Some(attrs[0].1)
    else Get(attrs[1..], t)
  }

  predicate Credentials(auth: Auth, attrs: seq<Attr>) {
    && Get(attrs, ATTR_USERNAME) == Some(USERNAME)
    && Get(attrs, ATTR_REALM) == Some(auth.realm)
    && Get(attrs, ATTR_NONCE) == Some(auth.nonce)
  }

  function PeerOf(m: Message): Option<Addr>
    requires |m.txid| == 12
  {
    match Get(m.attrs, ATTR_XOR_PEER_ADDRESS)
    case None => None
    case Some(v) => DecodeSpec(v, m.txid)
  }

  function RequestOf(m: Message): Request
    requires |m.txid| == 12
  {
    if m.action == METHOD_ALLOCATE then Allocate
    else if m.action == METHOD_CREATE_PERMISSION then Permit(PeerOf(m))
    else if m.action == METHOD_SEND then Send(PeerOf(m), Get(m.attrs, ATTR_DATA))
    else if m.action == METHOD_REFRESH then Refresh
    else if m.action == METHOD_BINDING then Binding
    else Dropped
  }

  function Classify(packet: seq<byte>, auth: Option<Auth>): Request {
    match ParseSpec(packet)
    case None => Dropped
    case Some(m) =>
      if auth.Some? && m.action != METHOD_BINDING
         && (!VerifySpec(packet, auth.value.mac) || !Credentials(auth.value, m.attrs)) then Challenge
      else if m.kind != CLASS_REQUEST && !(m.action == METHOD_SEND && m.kind == CLASS_INDICATION) then Dropped
      else RequestOf(m)
  }

  // ---------- what each request does ----------

  predicate Live(m: Allocs, c: Addr, now: Time) {
    c in m && m[c].expires > now
  }

  function Retain(m: Allocs, now: Time): Allocs {
    map c | c in m && m[c].expires > now :: m[c]
  }

  function OnHost(m: Allocs, h: Host): set<Addr> {
    set c | c in m && HostOf(c) == h
  }

  predicate OtherAdvertises(m: Allocs, src: Addr, peer: Addr, now: Time) {
    exists c | c in m :: c != src && m[c].relay == peer && m[c].expires > now
  }

  predicate Full(m: Allocs, src: Addr) {
    |m| >= MAX_ALLOCATIONS || |OnHost(m, HostOf(src))| >= MAX_ALLOCATIONS_PER_IP
  }

  function DoAllocate(m0: Allocs, src: Addr, bound: Option<Addr>, now: Time): (Allocs, Reply) {
    var m := Retain(m0, now);
    if src !in m && Full(m, src) then (m, Rejected(486))
    else if src in m then (m, Allocated(m[src].relay, LIFETIME))
    else if bound.None? then (m, Silent)
    else (m[src := Allocation(bound.value, {}, src, now + LIFETIME)], Allocated(bound.value, LIFETIME))
  }

  function DoPermit(m: Allocs, src: Addr, peer: Option<Addr>, now: Time): (Allocs, Reply) {
    if peer.None? then (m, Silent)
    else if !OtherAdvertises(m, src, peer.value, now) then (m, Rejected(403))
    else if !Live(m, src, now) then (m, Silent)
    else if |m[src].permissions| >= MAX_PERMISSIONS && peer.value !in m[src].permissions then (m, Rejected(486))
    else (m[src := m[src].(permissions := m[src].permissions + {peer.value})], Permitted)
  }

  function DoSend(m: Allocs, src: Addr, peer: Option<Addr>, data: Option<seq<byte>>, now: Time): Reply {
    if peer.None? || data.None? then Silent
    else if !OtherAdvertises(m, src, peer.value, now) || !Live(m, src, now) then Silent
    else if peer.value !in m[src].permissions then Silent
    else Relay(m[src].relay, peer.value, data.value)
  }

  function DoRefresh(m: Allocs, src: Addr, now: Time): (Allocs, Reply) {
    if !Live(m, src, now) then (m - {src}, Rejected(437))
    else (m[src := m[src].(expires := now + LIFETIME)], Refreshed(LIFETIME))
  }

  function Handle(m: Allocs, src: Addr, req: Request, bound: Option<Addr>, now: Time): (Allocs, Reply) {
    match req
    case Allocate => DoAllocate(m, src, bound, now)
    case Permit(peer) => DoPermit(m, src, peer, now)
    case Send(peer, data) => (m, DoSend(m, src, peer, data, now))
    case Refresh => DoRefresh(m, src, now)
    case Binding => (m, Mapped(src))
    case Challenge => (m, Challenged)
    case Dropped => (m, Silent)
  }

  /** The relay task of client `key` on socket `relay`: a datagram from `peer`. */
  function DoArrive(m: Allocs, key: Addr, relay: Addr, peer: Addr, data: seq<byte>, now: Time): Reply {
    if !Live(m, key, now) || m[key].relay != relay || peer !in m[key].permissions then Silent
    else Deliver(m[key].client, peer, data)
  }

  class TurnServer {
    const auth: Option<Auth>
    var allocs: Allocs

    constructor (auth: Option<Auth>)
      ensures allocs == map[] && this.auth == auth
    {
      this.auth, allocs := auth, map[];
    }

    method Cleanup(now: Time)
      modifies this
      ensures allocs == Retain(old(allocs), now)
    {
      allocs := map c | c in allocs && allocs[c].expires > now :: allocs[c];
    }

    method HandleAllocate(src: Addr, bound: Option<Addr>, now: Time) returns (r: Reply)
      modifies this
      ensures (allocs, r) == DoAllocate(old(allocs), src, bound, now)
    {
      Cleanup(now);
      if src !in allocs
         && (|allocs| >= MAX_ALLOCATIONS || |OnHost(allocs, HostOf(src))| >= MAX_ALLOCATIONS_PER_IP) {
        return Rejected(486);
      }
      if src in allocs {
        return Allocated(allocs[src].relay, LIFETIME);
      }
      if bound.None? {
        return Silent;
      }
      var relay := bound.value;
      allocs := allocs[src := Allocation(relay, {}, src, now + LIFETIME)];
      r := Allocated(relay, LIFETIME);
    }

    method HandlePermission(src: Addr, peer: Option<Addr>, now: Time) returns (r: Reply)
      modifies this
      ensures (allocs, r) == DoPermit(old(allocs), src, peer, now)
    {
      if peer.None? {
        return Silent;
      }
      if !OtherAdvertises(allocs, src, peer.value, now) {
        return Rejected(403);
      }
      if src !in allocs {
        return Silent;
      }
      var a := allocs[src];
      if a.expires <= now {
        return Silent;
      }
      if |a.permissions| >= MAX_PERMISSIONS && peer.value !in a.permissions {
        return Rejected(486);
      }
      allocs := allocs[src := a.(permissions := a.permissions + {peer.value})];
      r := Permitted;
    }

    method HandleSend(src: Addr, peer: Option<Addr>, data: Option<seq<byte>>, now: Time) returns (r: Reply)
      ensures r == DoSend(allocs, src, peer, data, now)
    {
      if peer.None? || data.None? {
        return Silent;
      }
      if !OtherAdvertises(allocs, src, peer.value, now) || src !in allocs {
        return Silent;
      }
      var a := allocs[src];
      if a.expires <= now || peer.value !in a.permissions {
        return Silent;
      }
      r := Relay(a.relay, peer.value, data.value);
    }

    method HandleRefresh(src: Addr, now: Time) returns (r: Reply)
      modifies this
      ensures (allocs, r) == DoRefresh(old(allocs), src, now)
    {
      if src !in allocs || allocs[src].expires <= now {
        allocs := allocs - {src};
        return Rejected(437);
      }
      allocs := allocs[src := allocs[src].(expires := now + LIFETIME)];
      r := Refreshed(LIFETIME);
    }

    method TakePacket(packet: seq<byte>, src: Addr, bound: Option<Addr>, now: Time) returns (r: Reply)
      modifies this
      ensures (allocs, r) == Handle(old(allocs), src, Classify(packet, auth), bound, now)
    {
      var parsed := Parse(packet);
      if parsed.None? {
        return Silent;
      }
      var m := parsed.value;
      if auth.Some? && m.action != METHOD_BINDING {
        var ok := VerifyIntegrity(packet, auth.value.mac);
        if !ok || !Credentials(auth.value, m.attrs) {
          return Challenged;
        }
      }
      if m.kind != CLASS_REQUEST && !(m.action == METHOD_SEND && m.kind == CLASS_INDICATION) {
        return Silent;
      }
      r := Dispatch(m, src, bound, now);
    }

    method Dispatch(m: Message, src: Addr, bound: Option<Addr>, now: Time) returns (r: Reply)
      requires |m.txid| == 12
      modifies this
      ensures (allocs, r) == Handle(old(allocs), src, RequestOf(m), bound, now)
    {
      if m.action == METHOD_ALLOCATE {
        r := HandleAllocate(src, bound, now);
      } else if m.action == METHOD_CREATE_PERMISSION {
        r := HandlePermission(src, PeerOf(m), now);
      } else if m.action == METHOD_SEND {
        r := HandleSend(src, PeerOf(m), Get(m.attrs, ATTR_DATA), now);
      } else if m.action == METHOD_REFRESH {
        r := HandleRefresh(src, now);
      } else if m.action == METHOD_BINDING {
        r := Mapped(src);
      } else {
        r := Silent;
      }
    }

    method RelayArrival(key: Addr, relay: Addr, peer: Addr, data: seq<byte>, now: Time) returns (r: Reply)
      ensures r == DoArrive(allocs, key, relay, peer, data, now)
    {
      if key !in allocs {
        return Silent;
      }
      var a := allocs[key];
      if a.expires <= now || a.relay != relay || peer !in a.permissions {
        return Silent;
      }
      r := Deliver(a.client, peer, data);
    }
  }
}
