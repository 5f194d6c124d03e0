/** What the bytes a client sends make the TURN server do, method by method, with the codes of
    section 13 of RFC 5766 and sections 15 and 18 of RFC 5389. */
module TurnRequests {
  import opened Bytes
  import opened Sets
  import opened Stun
  import opened StunAddress
  import opened StunIntegrity
  import opened Turn
  import opened TurnTheorems

  /** (t, v) is the first attribute of its type. */
  ghost predicate FirstIs(attrs: seq<Attr>, t: nat, v: seq<byte>) {
    exists i :: 0 <= i < |attrs| && attrs[i] == (t, v) && forall k | 0 <= k < i :: attrs[k].0 != t
  }

  predicate Lacks(attrs: seq<Attr>, t: nat) {
    forall i | 0 <= i < |attrs| :: attrs[i].0 != t
  }

  lemma {:induction false} GetMeans(attrs: seq<Attr>, t: nat, v: seq<byte>)
    ensures Get(attrs, t) == Some(v) <==> FirstIs(attrs, t, v)
    ensures Get(attrs, t) == None <==> Lacks(attrs, t)
  {
    if attrs != [] {
      var rest := attrs[1..];
      GetMeans(rest, t, v);
      assert forall i | 0 <= i < |rest| :: rest[i] == attrs[i + 1];
      if attrs[0].0 != t {
        if i :| 0 <= i < |attrs| && attrs[i] == (t, v) && forall k | 0 <= k < i :: attrs[k].0 != t {
          assert rest[i - 1] == (t, v) && forall k | 0 <= k < i - 1 :: rest[k].0 != t;
        }
        if j :| 0 <= j < |rest| && rest[j] == (t, v) && forall k | 0 <= k < j :: rest[k].0 != t {
          assert attrs[j + 1] == (t, v);
          assert forall k | 0 < k < j + 1 :: attrs[k] == rest[k - 1];
        }
      } else if FirstIs(attrs, t, v) {
        var i :| 0 <= i < |attrs| && attrs[i] == (t, v) && forall k | 0 <= k < i :: attrs[k].0 != t;
        assert i == 0;
      }
    }
  }

  /** USERNAME "frp-sh", and the server's REALM and NONCE. */
  ghost predicate Names(auth: Auth, attrs: seq<Attr>) {
    && FirstIs(attrs, 0x0006, [0x66, 0x72, 0x70, 0x2d, 0x73, 0x68])
    && FirstIs(attrs, 0x0014, auth.realm) && FirstIs(attrs, 0x0015, auth.nonce)
  }

  lemma CredentialsMean(auth: Auth, attrs: seq<Attr>)
    ensures Credentials(auth, attrs) <==> Names(auth, attrs)
  {
    hide FirstIs, Lacks, Get;
    GetMeans(attrs, 0x0006, [0x66, 0x72, 0x70, 0x2d, 0x73, 0x68]);
    GetMeans(attrs, 0x0014, auth.realm);
    GetMeans(attrs, 0x0015, auth.nonce);
  }

  /** A message of a client of this server: signed and with credentials if the server wants
      them, and in any case well-formed and without a digest of its own. */
  ghost predicate Proper(auth: Option<Auth>, code: nat, kind: nat, txid: seq<byte>, attrs: seq<Attr>) {
    && code < 128 && kind < 4 && |txid| == 12 && TypesFit(attrs) && Unsigned(attrs)
    && |EncodeAttrs(attrs)| + 24 < U16
    && (auth.Some? ==> IsMac(auth.value.mac) && Names(auth.value, attrs))
  }

  /** Its bytes. */
  function Wire(auth: Option<Auth>, code: nat, kind: nat, txid: seq<byte>, attrs: seq<Attr>): seq<byte> {
    BuildSpec(code, kind, txid,
      if auth.None? then attrs
      else attrs + [(MESSAGE_INTEGRITY, auth.value.mac(Signed(code, kind, txid, attrs)))])
  }

  /** What the server makes of such a message: unless its class is none it serves, the request
      of its method and attributes. */
  lemma ProperIsActedOn(auth: Option<Auth>, code: nat, kind: nat, txid: seq<byte>, attrs: seq<Attr>)
    requires Proper(auth, code, kind, txid, attrs)
    ensures Classify(Wire(auth, code, kind, txid, attrs), auth)
         == if kind == 0 || (code == 0x006 && kind == 1) then RequestOf(Message(code, kind, txid, attrs)) else Dropped
  {
    assert auth.Some? ==> Names(auth.value, attrs);
    hide *;
    if auth.Some? {
      CredentialsMean(auth.value, attrs);
      SignedIsActedOn(auth.value, code, kind, txid, attrs);
    } else {
      PlainIsActedOn(code, kind, txid, attrs);
    }
  }

  lemma PlainIsActedOn(code: nat, kind: nat, txid: seq<byte>, attrs: seq<Attr>)
    requires Proper(None, code, kind, txid, attrs)
    ensures Classify(Wire(None, code, kind, txid, attrs), None)
         == if kind == 0 || (code == 0x006 && kind == 1) then RequestOf(Message(code, kind, txid, attrs)) else Dropped
  {
    hide ParseSpec, BuildSpec, EncodeAttrs, RequestOf;
    BuildParse(code, kind, txid, attrs, []);
    assert BuildSpec(code, kind, txid, attrs) + [] == BuildSpec(code, kind, txid, attrs);
  }

  lemma SignedIsActedOn(auth: Auth, code: nat, kind: nat, txid: seq<byte>, attrs: seq<Attr>)
    requires Proper(Some(auth), code, kind, txid, attrs) && Credentials(auth, attrs)
    ensures Classify(Wire(Some(auth), code, kind, txid, attrs), Some(auth))
         == if kind == 0 || (code == 0x006 && kind == 1) then RequestOf(Message(code, kind, txid, attrs)) else Dropped
  {
    hide ParseSpec, BuildSpec, VerifySpec, EncodeAttrs, Signed, Get, DecodeSpec, Unsigned, FirstIs;
    var digest := auth.mac(Signed(code, kind, txid, attrs));
    var mi: Attr := (MESSAGE_INTEGRITY, digest);
    var packet := BuildSpec(code, kind, txid, attrs + [mi]);
    BuiltVerifies(code, kind, txid, attrs, [], auth.mac);
    EncodeAttrsLast(attrs, mi);
    DigestSize(auth.mac, Signed(code, kind, txid, attrs));
    BuildParse(code, kind, txid, attrs + [mi], []);
    assert packet + [] == packet;
    GetBeforeLast(attrs, mi, ATTR_USERNAME);
    GetBeforeLast(attrs, mi, ATTR_REALM);
    GetBeforeLast(attrs, mi, ATTR_NONCE);
    GetBeforeLast(attrs, mi, ATTR_XOR_PEER_ADDRESS);
    GetBeforeLast(attrs, mi, ATTR_DATA);
  }

  lemma {:induction false} GetBeforeLast(attrs: seq<Attr>, last: Attr, t: nat)
    requires last.0 != t
    ensures Get(attrs + [last], t) == Get(attrs, t)
  {
    if attrs == [] {
      assert attrs + [last] == [last] && [last][1..] == [];
    } else {
      assert (attrs + [last])[1..] == attrs[1..] + [last];
      GetBeforeLast(attrs[1..], last, t);
    }
  }

  // ---------- what each method does ----------

  /** The server's answer to a datagram, and its allocations afterwards. */
  function Answer(m: Allocs, auth: Option<Auth>, packet: seq<byte>, src: Addr, bound: Option<Addr>, now: Time)
    : (Allocs, Reply)
  {
    Handle(m, src, Classify(packet, auth), bound, now)
  }

  /** Everybody else's allocation is as it was. */
  ghost predicate OthersSame(m: Allocs, n: Allocs, src: Addr) {
    forall c | c != src :: (c in n <==> c in m) && (c in m ==> n[c] == m[c])
  }

  function LiveOnes(m: Allocs, now: Time): set<Addr> {
    set c | c in m && m[c].expires > now
  }

  /** Fewer than 256 clients hold a live allocation, and fewer than 32 on src's host. */
  ghost predicate Room(m: Allocs, src: Addr, now: Time) {
    && |LiveOnes(m, now)| < 256
    && |set c | c in LiveOnes(m, now) && HostOf(c) == HostOf(src)| < 32
  }

  lemma RoomIs(m: Allocs, src: Addr, now: Time)
    ensures Room(m, src, now) <==> !Full(Retain(m, now), src)
  {
    assert Retain(m, now).Keys == LiveOnes(m, now);
    assert |Retain(m, now)| == |Retain(m, now).Keys|;
    assert OnHost(Retain(m, now), HostOf(src)) == set c | c in LiveOnes(m, now) && HostOf(c) == HostOf(src);
  }

  /** Two clients are on one host exactly when their addresses differ in nothing but ports and
      what a port goes with. */
  lemma SameHost(a: Addr, b: Addr)
    ensures HostOf(a) == HostOf(b)
      <==> (a.V4? && b.V4? && a.ip == b.ip) || (a.V6? && b.V6? && a.octets == b.octets)
  {}

  /** 0x003, Allocate. The sender holds the relay it is told, whenever it held one or there is
      room and the system binds one; all expired allocations are gone. */
  lemma AllocateRequest(m: Allocs, auth: Option<Auth>, txid: seq<byte>, attrs: seq<Attr>, src: Addr,
                        bound: Option<Addr>, now: Time)
    requires Proper(auth, 0x003, 0, txid, attrs)
    ensures var (n, r) := Answer(m, auth, Wire(auth, 0x003, 0, txid, attrs), src, bound, now);
      && (forall c | c != src :: (c in n <==> Live(m, c, now)) && (c in n ==> n[c] == m[c]))
      && (if Live(m, src, now) then r == Allocated(m[src].relay, 600) && src in n && n[src] == m[src]
          else if !Room(m, src, now) then r == Rejected(486) && src !in n
          else if bound.None? then r == Silent && src !in n
          else r == Allocated(bound.value, 600) && src in n
               && n[src] == Allocation(bound.value, {}, src, now + 600))
  {
    hide Proper, Wire, Classify, Room, Full;
    ProperIsActedOn(auth, 0x003, 0, txid, attrs);
    RoomIs(m, src, now);
  }

  /** 0x004, Refresh. A live allocation lives for another 600 seconds, a late one is lost. */
  lemma RefreshRequest(m: Allocs, auth: Option<Auth>, txid: seq<byte>, attrs: seq<Attr>, src: Addr,
                       bound: Option<Addr>, now: Time)
    requires Proper(auth, 0x004, 0, txid, attrs)
    ensures var (n, r) := Answer(m, auth, Wire(auth, 0x004, 0, txid, attrs), src, bound, now);
      && OthersSame(m, n, src)
      && (if Live(m, src, now) then r == Refreshed(600) && src in n && n[src] == m[src].(expires := now + 600)
          else r == Rejected(437) && src !in n)
  {
    hide Proper, Wire, Classify;
    ProperIsActedOn(auth, 0x004, 0, txid, attrs);
  }

  /** The address an attribute carries under the message's transaction id. */
  lemma PeerNamed(m: Message, peer: Addr)
    requires |m.txid| == 12 && peer.Valid() && FirstIs(m.attrs, 0x0012, EncodeSpec(peer, m.txid))
    ensures PeerOf(m) == Some(Carried(peer))
  {
    hide FirstIs, Get, EncodeSpec, DecodeSpec;
    GetMeans(m.attrs, 0x0012, EncodeSpec(peer, m.txid));
    DecodeEncode(peer, m.txid, []);
    assert EncodeSpec(peer, m.txid) + [] == EncodeSpec(peer, m.txid);
  }

  /** Another client holds it live. */
  ghost predicate Offered(m: Allocs, src: Addr, peer: Addr, now: Time) {
    exists c | c in m :: c != src && m[c].relay == peer && now < m[c].expires
  }

  /** What becomes of a permission asked for. */
  ghost predicate PermissionOutcome(m: Allocs, n: Allocs, r: Reply, src: Addr, peer: Addr, now: Time) {
    && OthersSame(m, n, src) && (src in n <==> src in m)
    && (if !Offered(m, src, peer, now) then r == Rejected(403) && n == m
        else if src !in m || m[src].expires <= now then r == Silent && n == m
        else if |m[src].permissions + {peer}| > 64 then r == Rejected(486) && n == m
        else r == Permitted && n[src] == m[src].(permissions := m[src].permissions + {peer}))
  }

  lemma PermitMeans(m: Allocs, src: Addr, peer: Addr, now: Time)
    requires src in m ==> |m[src].permissions| <= 64
    ensures var (n, r) := DoPermit(m, src, Some(peer), now); PermissionOutcome(m, n, r, src, peer, now)
  {
    if src in m && peer in m[src].permissions {
      assert m[src].permissions + {peer} == m[src].permissions;
    }
  }

  /** The permission and Send requests of a message that names its peer. */
  lemma PeerRequests(auth: Option<Auth>, code: nat, kind: nat, txid: seq<byte>, attrs: seq<Attr>, peer: Addr)
    requires Proper(auth, code, kind, txid, attrs) && peer.Valid() && Carried(peer) == peer
    requires FirstIs(attrs, 0x0012, EncodeSpec(peer, txid))
    ensures code == 0x008 && kind == 0 ==>
      Classify(Wire(auth, code, kind, txid, attrs), auth) == Permit(Some(peer))
    ensures code == 0x006 && kind < 2 ==>
      forall data | FirstIs(attrs, 0x0013, data) ::
        Classify(Wire(auth, code, kind, txid, attrs), auth) == Send(Some(peer), Some(data))
  {
    assert |txid| == 12;
    hide Proper, Wire, Classify, FirstIs, EncodeSpec, DecodeSpec, Get, PeerOf;
    ProperIsActedOn(auth, code, kind, txid, attrs);
    PeerNamed(Message(code, kind, txid, attrs), peer);
    forall data | FirstIs(attrs, 0x0013, data) ensures Get(attrs, 0x0013) == Some(data) {
      GetMeans(attrs, 0x0013, data);
    }
  }

  /** 0x008, CreatePermission. Exactly the address named is permitted, for a live client, a relay
      of another live client, and up to 64 addresses. */
  lemma PermitRequest(m: Allocs, auth: Option<Auth>, txid: seq<byte>, attrs: seq<Attr>, src: Addr, peer: Addr,
                      bound: Option<Addr>, now: Time)
    requires Proper(auth, 0x008, 0, txid, attrs) && peer.Valid() && Carried(peer) == peer
    requires FirstIs(attrs, 0x0012, EncodeSpec(peer, txid)) && Bounded(m)
    ensures var (n, r) := Answer(m, auth, Wire(auth, 0x008, 0, txid, attrs), src, bound, now);
      PermissionOutcome(m, n, r, src, peer, now)
  {
    assert src in m ==> |m[src].permissions| <= 64;
    hide Proper, Wire, Classify, FirstIs, EncodeSpec, DoPermit, PermissionOutcome, Bounded;
    PeerRequests(auth, 0x008, 0, txid, attrs, peer);
    PermitMeans(m, src, peer, now);
  }

  /** 0x006, Send, as a request or an indication. Exactly the DATA given goes from the sender's
      relay to exactly the address named, when both are live and the sender has permitted it. */
  lemma SendRequest(m: Allocs, auth: Option<Auth>, kind: nat, txid: seq<byte>, attrs: seq<Attr>, src: Addr,
                    peer: Addr, data: seq<byte>, bound: Option<Addr>, now: Time)
    requires kind < 2 && Proper(auth, 0x006, kind, txid, attrs) && peer.Valid() && Carried(peer) == peer
    requires FirstIs(attrs, 0x0012, EncodeSpec(peer, txid)) && FirstIs(attrs, 0x0013, data)
    ensures var (n, r) := Answer(m, auth, Wire(auth, 0x006, kind, txid, attrs), src, bound, now);
      && n == m
      && r == if Offered(m, src, peer, now) && Live(m, src, now) && peer in m[src].permissions
              then Relay(m[src].relay, peer, data) else Silent
  {
    hide Proper, Wire, Classify, FirstIs, EncodeSpec;
    PeerRequests(auth, 0x006, kind, txid, attrs, peer);
  }

  /** Neither permits nor sends anything without an address, nor sends without data. */
  lemma Incomplete(m: Allocs, auth: Option<Auth>, code: nat, txid: seq<byte>, attrs: seq<Attr>, src: Addr,
                   bound: Option<Addr>, now: Time)
    requires Proper(auth, code, 0, txid, attrs)
    requires (code == 0x008 && Lacks(attrs, 0x0012)) || (code == 0x006 && (Lacks(attrs, 0x0012) || Lacks(attrs, 0x0013)))
    ensures Answer(m, auth, Wire(auth, code, 0, txid, attrs), src, bound, now) == (m, Silent)
  {
    hide Proper, Wire, Classify, Get, Lacks, DecodeSpec;
    ProperIsActedOn(auth, code, 0, txid, attrs);
    GetMeans(attrs, 0x0012, []);
    GetMeans(attrs, 0x0013, []);
  }

  /** 0x001, Binding, answers the sender's address, authenticated or not. */
  lemma BindingRequest(m: Allocs, auth: Option<Auth>, txid: seq<byte>, attrs: seq<Attr>, extra: seq<byte>,
                       src: Addr, bound: Option<Addr>, now: Time)
    requires |txid| == 12 && TypesFit(attrs) && |EncodeAttrs(attrs)| < U16
    ensures Answer(m, auth, BuildSpec(0x001, 0, txid, attrs) + extra, src, bound, now) == (m, Mapped(src))
  {
    hide ParseSpec, BuildSpec, EncodeAttrs;
    BuildParse(0x001, 0, txid, attrs, extra);
  }

  /** Nothing else is served: other methods, and other classes than request, save the Send
      indication. */
  lemma NotServed(m: Allocs, auth: Option<Auth>, code: nat, kind: nat, txid: seq<byte>, attrs: seq<Attr>, src: Addr,
                  bound: Option<Addr>, now: Time)
    requires Proper(auth, code, kind, txid, attrs)
    requires code !in {0x001, 0x003, 0x004, 0x006, 0x008} || (kind != 0 && !(code == 0x006 && kind == 1))
    ensures Answer(m, auth, Wire(auth, code, kind, txid, attrs), src, bound, now) == (m, Silent)
  {
    hide Proper, Wire, Classify, Get, DecodeSpec;
    ProperIsActedOn(auth, code, kind, txid, attrs);
  }

  // ---------- authentication ----------

  /** With credentials set, a message other than a Binding with a wrong digest or credentials
      is challenged and does nothing. */
  lemma Unauthenticated(m: Allocs, packet: seq<byte>, src: Addr, auth: Auth, bound: Option<Addr>, now: Time)
    requires ParseSpec(packet).Some? && ParseSpec(packet).value.action != 0x001
    ensures Answer(m, Some(auth), packet, src, bound, now) == (m, Challenged)
      <==> !VerifySpec(packet, auth.mac) || !Names(auth, ParseSpec(packet).value.attrs)
  {
    hide ParseSpec, VerifySpec, Names, Get, DecodeSpec, OtherAdvertises, Full;
    CredentialsMean(auth, ParseSpec(packet).value.attrs);
  }

  lemma Unreadable(m: Allocs, auth: Option<Auth>, packet: seq<byte>, src: Addr, bound: Option<Addr>, now: Time)
    requires ParseSpec(packet).None?
    ensures Answer(m, auth, packet, src, bound, now) == (m, Silent)
  {}
}
