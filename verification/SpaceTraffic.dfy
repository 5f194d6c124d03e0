/** Which packets a device of a space sends on which links, and which it hands up. */
module SpaceTraffic {
  import opened Bytes
  import Security
  import opened SpaceMeshSpec

  // ---------- IPv4 ----------

  /** A packet of section 3.1 of RFC 791, whole and no longer than 1400 bytes: version 4, a header
      of `words` 32-bit words, its own length, and the two addresses. */
  ghost predicate Whole(p: seq<byte>, words: nat, source: nat, destination: nat) {
    && 5 <= words <= 15 && 4 * words <= |p| <= 1400
    && p[0] == 0x40 + words && p[2..4] == [|p| / 0x100, |p| % 0x100]
    && source < 0x1_0000_0000 && destination < 0x1_0000_0000
    && p[12..16] == PutU32(source) && p[16..20] == PutU32(destination)
  }

  lemma AddressesMean(p: seq<byte>, source: nat, destination: nat)
    ensures Addresses(p) == Some((source, destination)) <==> exists words :: Whole(p, words, source, destination)
  {
    if Addresses(p) == Some((source, destination)) {
      HeaderRead(p, source, destination);
    }
    if words :| Whole(p, words, source, destination) {
      HeaderFound(p, words, source, destination);
    }
  }

  lemma HeaderRead(p: seq<byte>, source: nat, destination: nat)
    requires Addresses(p) == Some((source, destination))
    ensures exists words :: Whole(p, words, source, destination)
  {
    var first: int := p[0];
    U32OfBytes(p[12..16]);
    U32OfBytes(p[16..20]);
    U16OfBytes(p[2..4]);
    Bytes16(|p|);
    hide GetU32, GetU16, PutU16, PutU32;
    assert Whole(p, first % 16, source, destination);
  }

  lemma HeaderFound(p: seq<byte>, words: nat, source: nat, destination: nat)
    requires Whole(p, words, source, destination)
    ensures Addresses(p) == Some((source, destination))
  {
    BytesOfU32(source);
    BytesOfU32(destination);
    BytesOfU16(|p|);
    Bytes16(|p|);
    FirstByte(p, words);
    hide GetU32, GetU16, PutU16, PutU32;
  }

  lemma FirstByte(p: seq<byte>, words: nat)
    requires p != [] && words <= 15 && p[0] == 0x40 + words
    ensures var first: int := p[0]; first / 16 == 4 && first % 16 == words
  {}

  /** 255.255.255.255, 10.66.0.255, and everything from 224.0.0.0 to 239.255.255.255. */
  lemma ToManyMeans(destination: nat)
    ensures ToMany(destination)
      <==> destination == 0xffff_ffff || destination == 0x0a42_00ff || 0xe000_0000 <= destination <= 0xefff_ffff
  {}

  // ---------- sending ----------

  /** The link's peer is known and its numbers are not used up. */
  predicate Sealable(s: Security.Session) {
    s.remote.Some? && s.tx != U64 - 1
  }

  /** The packet goes out on exactly the sealable links to its destination, or on all of them if
      it is for many, when it is the device's own and not for itself; sealed once on each, and
      no other link is touched. */
  lemma ForwardMeans(m: Mesh, p: seq<byte>, i: nat)
    requires i in m.peers
    ensures var (n, out) := Forward(m, p);
      var s := m.peers[i].security;
      && n.local == m.local && n.peers.Keys == m.peers.Keys && out.Keys <= m.peers.Keys
      && (i in out <==>
            && Sealable(s)
            && exists to :: Addresses(p) == Some((m.local, to)) && to != m.local
                 && (to == m.peers[i].info.address || ToMany(to)))
      && (i in out ==> out[i] == Security.Envelope(s.local, s.tx, Security.Sealed(s.key, s.local, s.tx, s.remote.value, [0] + p)))
      && n.peers[i] == (if i in out then m.peers[i].(security := s.(tx := s.tx + 1)) else m.peers[i])
  {
    hide Addresses, ToMany;
  }

  /** A heartbeat is one datagram a link: a ping with its nonce when the peer is known, else a
      hello that asks for an echo. */
  lemma HeartbeatMeans(m: Mesh, nonces: nat -> seq<byte>, i: nat)
    requires i in m.peers
    ensures var (n, out) := Heartbeat(m, nonces);
      var (l, s) := (m.peers[i], m.peers[i].security);
      && n.local == m.local && n.peers.Keys == m.peers.Keys && out.Keys <= m.peers.Keys
      && (i in out <==> s.remote.None? || Sealable(s))
      && (i in out && s.remote.None? ==>
            n.peers[i] == l && out[i] == Security.Hello(s.local, 0, Security.Mac(s.key, s.local, 0)))
      && (s.remote.Some? ==> n.peers[i].ping == Some(nonces(i)))
      && (i in out && s.remote.Some? ==>
            && n.peers[i].security == s.(tx := s.tx + 1)
            && out[i] == Security.Envelope(s.local, s.tx, Security.Sealed(s.key, s.local, s.tx, s.remote.value, [1] + nonces(i))))
  {}

  /** A table of datagrams is sent as one frame each, on its own link, in some order. */
  lemma FramesMean(frames: seq<Frame>, out: map<nat, Security.Datagram>)
    requires FramesOf(frames, out)
    ensures forall i | i in out :: exists j :: 0 <= j < |frames| && frames[j] == Frame(i, out[i])
    ensures forall j | 0 <= j < |frames| :: frames[j].Frame? && frames[j].address in out
    ensures forall j, k | 0 <= j < k < |frames| :: frames[j].address != frames[k].address
  {
    forall j | 0 <= j < |frames|
      ensures frames[j].Frame? && frames[j].address in out && frames[j] == Frame(frames[j].address, out[frames[j].address])
    {
      assert frames[j] in frames;
    }
  }

  // ---------- receiving ----------

  /** What a frame on a link opens to, if it opens. */
  function Plain(m: Mesh, f: Frame): Option<seq<byte>> {
    if f.Empty? || f.address !in m.peers then None
    else
      match Security.Receive(m.peers[f.address].security, f.message).1
      case Data(plain) => Some(plain)
      case _ => None
  }

  /** A packet is handed up exactly when a frame opens to it behind a zero byte, it comes from
      the link's own address, and it is for this device or for many. */
  lemma HandedUpMeans(m: Mesh, f: Frame, p: seq<byte>)
    ensures SpaceMeshSpec.Receive(m, f).1.packet == Some(p)
      <==> Plain(m, f) == Some([0] + p)
           && exists to :: Addresses(p) == Some((m.peers[f.address].info.address, to)) && (to == m.local || ToMany(to))
  {
    hide Addresses, ToMany, Security.Receive, Security.Seal;
    assert ([0] + p)[1..] == p;
    match Plain(m, f) {
      case None =>
      case Some(plain) =>
        if plain != [] && plain[0] == 0 {
          assert plain == [0] + plain[1..];
        }
    }
  }

  /** A ping of nine bytes is answered with a pong of the same nonce, a pong of nine settles the
      ping that is out, a hello's answer goes back, and nothing else is answered. */
  lemma AnsweredMeans(m: Mesh, f: Frame)
    requires f.Frame? && f.address in m.peers
    ensures var (n, r) := SpaceMeshSpec.Receive(m, f);
      var l := m.peers[f.address];
      var (s, incoming) := Security.Receive(l.security, f.message);
      && n.local == m.local && n.peers == m.peers[f.address := n.peers[f.address]] && n.peers[f.address].info == l.info
      && (incoming.Reply? ==>
            r.reply == Some(Frame(f.address, incoming.answer)) && n.peers[f.address] == l.(security := s))
      && (incoming.Ignore? ==> r.reply.None? && n.peers[f.address] == l.(security := s))
      && (incoming.Data? ==>
            var plain := incoming.msg;
            if |plain| == 9 && plain[0] == 1 && Sealable(s) then
              && n.peers[f.address] == l.(security := s.(tx := s.tx + 1))
              && r.reply == Some(Frame(f.address, Security.Envelope(s.local, s.tx,
                   Security.Sealed(s.key, s.local, s.tx, s.remote.value, [2] + plain[1..]))))
            else
              && r.reply.None?
              && n.peers[f.address] == l.(security := s,
                   ping := if |plain| == 9 && plain[0] == 2 && l.ping == Some(plain[1..]) then None else l.ping))
  {
    hide Addresses, ToMany, Security.Receive;
  }
}
