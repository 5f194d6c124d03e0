/** A device's sealed links to the other devices of its space. Each link's session is its
    own; nonces and challenges are parameters. */
module SpaceMeshSpec {
  import opened Bytes
  import opened Security

  /** `key` is what the server derived for the two sessions. */
  datatype Peer = Peer(device: string, session: string, address: nat, key: Key)

  /** A listed peer, and whether its device key and session id parse. */
  datatype Entry = Entry(peer: Peer, wellFormed: bool)

  datatype Link = Link(info: Peer, security: Session, ping: Option<seq<byte>>)

  type Links = map<nat, Link>

  datatype Mesh = Mesh(local: nat, peers: Links)

  /** What the relay carries: a peer's last octet and a datagram. */
  datatype Frame = Empty | Frame(address: nat, message: Datagram)

  datatype Received = Received(reply: Option<Frame>, packet: Option<seq<byte>>)

  const MAX_PEERS: nat := 32

  /** 10.66.0.x */
  const SUBNET: nat := 0x0A_4200
  const BROADCAST: nat := 0xFFFF_FFFF
  const SUBNET_BROADCAST: nat := 0x0A42_00FF

  // ---------- packets ----------

  /** The source and destination of a whole IPv4 packet. */
  function Addresses(p: seq<byte>): Option<(nat, nat)> {
    if !(20 <= |p| <= 1400) then None
    else
      var first: int := p[0];
      var header := first % 16 * 4;
      if first / 16 != 4 || header < 20 || header > |p| || GetU16(p[2..4]) != |p| then None
      else Some((GetU32(p[12..16]), GetU32(p[16..20])))
  }

  /** Multicast is 224.0.0.0/4. */
  predicate ToMany(destination: nat) {
    destination == BROADCAST || destination == SUBNET_BROADCAST || destination / 0x1000_0000 == 14
  }

  // ---------- the list of peers ----------

  predicate SamePeer(a: Peer, b: Peer) {
    a.device == b.device && a.session == b.session && a.key == b.key
  }

  predicate Acceptable(local: nat, e: Entry, next: Links) {
    && e.wellFormed && e.peer.address / 256 == SUBNET && 1 <= e.peer.address % 256 <= 254
    && e.peer.address != local && e.peer.address % 256 !in next
  }

  /** A link that stays keeps its session; any other starts afresh. */
  function Renewed(held: Links, p: Peer, challenge: Challenge): Link {
    var i := p.address % 256;
    if i in held && SamePeer(held[i].info, p) then held[i] else Link(p, Security.Fresh(p.key, challenge), None)
  }

  /** Links are moved from the old table to the new one as the list is read. */
  function RefreshFrom(local: nat, held: Links, next: Links, listed: seq<Entry>, challenges: seq<Challenge>)
    : (bool, Links, Links)
    requires |challenges| == |listed|
    decreases |listed|
  {
    if listed == [] then (true, held, next)
    else if !Acceptable(local, listed[0], next) then (false, held, next)
    else
      var p := listed[0].peer;
      var i := p.address % 256;
      RefreshFrom(local, held - {i}, next[i := Renewed(held, p, challenges[0])], listed[1..], challenges[1..])
  }

  function Refresh(m: Mesh, listed: seq<Entry>, challenges: seq<Challenge>): (Mesh, bool)
    requires |challenges| == |listed|
  {
    if |listed| > MAX_PEERS then (m, false)
    else
      var (ok, rest, next) := RefreshFrom(m.local, m.peers, map[], listed, challenges);
      (m.(peers := if ok then next else rest), ok)
  }

  // ---------- sending ----------

  /** A ping once the peer is known, a hello until then. */
  function Beat(l: Link, nonce: seq<byte>): (Link, Option<Datagram>) {
    if l.security.remote.None? then (l, Some(HelloFrom(l.security, NO_ECHO)))
    else
      var (s, d) := Seal(l.security, [1] + nonce);
      (l.(security := s, ping := Some(nonce)), d)
  }

  function Heartbeat(m: Mesh, nonces: nat -> seq<byte>): (Mesh, map<nat, Datagram>) {
    (m.(peers := map i | i in m.peers :: Beat(m.peers[i], nonces(i)).0),
     map i | i in m.peers && Beat(m.peers[i], nonces(i)).1.Some? :: Beat(m.peers[i], nonces(i)).1.value)
  }

  predicate Forwardable(m: Mesh, p: seq<byte>) {
    Addresses(p).Some? && Addresses(p).value.0 == m.local && Addresses(p).value.1 != m.local
  }

  predicate Takes(l: Link, destination: nat) {
    ToMany(destination) || destination == l.info.address
  }

  function Carry(l: Link, p: seq<byte>, to: nat): (Link, Option<Datagram>) {
    if !Takes(l, to) then (l, None)
    else
      var (s, d) := Seal(l.security, [0] + p);
      (l.(security := s), d)
  }

  function Forward(m: Mesh, p: seq<byte>): (Mesh, map<nat, Datagram>) {
    if !Forwardable(m, p) then (m, map[])
    else
      var to := Addresses(p).value.1;
      (m.(peers := map i | i in m.peers :: Carry(m.peers[i], p, to).0),
       map i | i in m.peers && Carry(m.peers[i], p, to).1.Some? :: Carry(m.peers[i], p, to).1.value)
  }

  // ---------- receiving ----------

  /** A packet is handed up if it comes from the link's own address, to this device or to all. */
  predicate Genuine(local: nat, l: Link, p: seq<byte>) {
    && Addresses(p).Some? && Addresses(p).value.0 == l.info.address
    && (Addresses(p).value.1 == local || ToMany(Addresses(p).value.1))
  }

  /** The link, its reply and the packet after opening `plain`. */
  function Opened(m: Mesh, l: Link, plain: seq<byte>): (Link, Option<Datagram>, Option<seq<byte>>) {
    if plain == [] then (l, None, None)
    else if plain[0] == 1 && |plain| == 9 then
      var (s, d) := Seal(l.security, [2] + plain[1..]);
      (l.(security := s), d, None)
    else if plain[0] == 2 && |plain| == 9 then
      (if l.ping == Some(plain[1..]) then l.(ping := None) else l, None, None)
    else if plain[0] == 0 && Genuine(m.local, l, plain[1..]) then (l, None, Some(plain[1..]))
    else (l, None, None)
  }

  /** What a datagram does to one link. */
  function Handled(m: Mesh, l: Link, d: Datagram): (Link, Option<Datagram>, Option<seq<byte>>) {
    var (s, r) := Security.Receive(l.security, d);
    var q := l.(security := s);
    match r
    case Reply(answer) => (q, Some(answer), None)
    case Data(plain) => Opened(m, q, plain)
    case Ignore => (q, None, None)
  }

  function Addressed(i: nat, d: Option<Datagram>): Option<Frame> {
    if d.Some? then Some(Frame(i, d.value)) else None
  }

  function Receive(m: Mesh, f: Frame): (Mesh, Received) {
    if f.Empty? || f.address !in m.peers then (m, Received(None, None))
    else
      var (l, reply, packet) := Handled(m, m.peers[f.address], f.message);
      (m.(peers := m.peers[f.address := l]), Received(Addressed(f.address, reply), packet))
  }

  /** The frames of a table of outgoing datagrams, one each, in some order. */
  ghost predicate FramesOf(frames: seq<Frame>, out: map<nat, Datagram>) {
    && (forall f | f in frames :: f.Frame? && f.address in out && out[f.address] == f.message)
    && (forall i | i in out :: Frame(i, out[i]) in frames)
    && (forall j, k | 0 <= j < k < |frames| :: frames[j] != frames[k])
  }
}
