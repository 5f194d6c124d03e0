/** Short-lived access leases of a space's devices. Hashes and keyed digests are symbolic
    terms; the clock, the random secret and the new session id are parameters. */
module Leases {
  import opened Bytes
  import opened Sets

  const ACCESS_TTL: nat := 600

  /** A space and a device's public key. */
  type Member = (string, string)

  datatype Hash = Sha256(token: string)

  /** `HMAC(root, ["frp-sh/peer-key/v1", space, [lo, hi]])` */
  datatype PairKey = Hmac(root: nat, space: string, lo: string, hi: string)

  /** `id` stands for the cancellation token every copy of the lease shares. */
  datatype Lease = Lease(space: string, device: string, session: string, address: nat,
                         expiresAt: nat, id: nat)

  datatype Entry = Entry(hash: Hash, lease: Lease)

  datatype Admission = Admission(token: string, session: string, space: string, device: string,
                                 address: nat, expiresAt: nat)

  datatype Peer = Peer(device: string, session: string, address: nat, key: PairKey)

  datatype Refusal =
    | CapacityReached
    | InvalidClock
    | InvalidToken
    | UnknownToken
    | Unavailable
    | Expired
    | ScopeMismatch
    | Replaced

  datatype Result<T> = Ok(value: T) | Err(reason: Refusal)

  /** The registry, with the flags of the cancellation tokens handed out so far. */
  datatype Registry = Registry(
    root: nat,
    maximum: nat,
    members: map<Member, Entry>,
    tokens: map<Hash, Member>,
    cancelled: set<nat>,
    next: nat)

  // ---------- tokens as text ----------

  function HexDigit(n: nat): char
    requires n < 16
  {
    "0123456789abcdef"[n]
  }

  predicate IsHexDigit(c: char) {
    '0' <= c <= '9' || 'a' <= c <= 'f' || 'A' <= c <= 'F'
  }

  /** `hex::encode` */
  function HexEncode(s: seq<byte>): (t: string)
    ensures |t| == 2 * |s|
  {
    if s == [] then ""
    else
      var b: int := s[0];
      [HexDigit(b / 16), HexDigit(b % 16)] + HexEncode(s[1..])
  }

  predicate WellFormed(token: string) {
    |token| == 64 && forall c | c in token :: IsHexDigit(c)
  }

  /** The order `sort_unstable` puts strings in. */
  predicate Before(a: string, b: string) {
    if a == "" || b == "" then a == "" && b != ""
    else if a[0] != b[0] then a[0] < b[0]
    else Before(a[1..], b[1..])
  }

  function KeyFor(root: nat, space: string, a: string, b: string): PairKey {
    if Before(b, a) then Hmac(root, space, b, a) else Hmac(root, space, a, b)
  }

  // ---------- the operations ----------

  function Remove(r: Registry, m: Member): Registry {
    if m !in r.members then r
    else
      var e := r.members[m];
      r.(members := r.members - {m}, tokens := r.tokens - {e.hash}, cancelled := r.cancelled + {e.lease.id})
  }

  /** Removing a set of members, in whatever order. */
  function RemoveAll(r: Registry, s: set<Member>): Registry {
    r.(members := r.members - s,
       tokens := r.tokens - (set m | m in s && m in r.members :: r.members[m].hash),
       cancelled := r.cancelled + (set m | m in s && m in r.members :: r.members[m].lease.id))
  }

  function ExpiredAt(r: Registry, now: nat): set<Member> {
    set m | m in r.members && r.members[m].lease.expiresAt <= now
  }

  function InSpace(r: Registry, space: string): set<Member> {
    set m | m in r.members && m.0 == space
  }

  function Swept(r: Registry, now: nat): Registry {
    RemoveAll(r, ExpiredAt(r, now))
  }

  function Issue(r0: Registry, space: string, device: string, address: nat, now: nat,
                 token: string, session: string): (Registry, Result<Admission>)
  {
    var r, m := Swept(r0, now), (space, device);
    if m !in r.members && |r.members| >= r.maximum then (r, Err(CapacityReached))
    else
      var q := Remove(r, m);
      if now + ACCESS_TTL >= U64 then (q, Err(InvalidClock))
      else
        var lease := Lease(space, device, session, address, now + ACCESS_TTL, q.next);
        (q.(tokens := q.tokens[Sha256(token) := m],
            members := q.members[m := Entry(Sha256(token), lease)],
            next := q.next + 1),
         Ok(Admission(token, session, space, device, address, now + ACCESS_TTL)))
  }

  function Lookup(r: Registry, token: string, space: string, now: nat): (Registry, Result<Lease>) {
    if !WellFormed(token) then (r, Err(InvalidToken))
    else if Sha256(token) !in r.tokens then (r, Err(UnknownToken))
    else
      var m := r.tokens[Sha256(token)];
      if m !in r.members then (r, Err(Unavailable))
      else
        var lease := r.members[m].lease;
        if lease.expiresAt <= now then (Remove(r, m), Err(Expired))
        else if lease.space != space || lease.id in r.cancelled then (r, Err(ScopeMismatch))
        else (r, Ok(lease))
  }

  predicate Current(r: Registry, m: Member, session: string, now: nat) {
    && m in r.members
    && var lease := r.members[m].lease;
       lease.session == session && lease.expiresAt > now && lease.id !in r.cancelled
  }

  function Refresh(r: Registry, space: string, device: string, session: string, now: nat)
    : (Registry, Result<nat>)
  {
    var m := (space, device);
    if m !in r.members then (r, Err(Unavailable))
    else if !Current(r, m, session, now) then (r, Err(Expired))
    else if now + ACCESS_TTL >= U64 then (r, Err(InvalidClock))
    else
      var e := r.members[m];
      (r.(members := r.members[m := e.(lease := e.lease.(expiresAt := now + ACCESS_TTL))]), Ok(now + ACCESS_TTL))
  }

  function Close(r: Registry, space: string, device: string, session: string): (Registry, Result<()>) {
    var m := (space, device);
    if m !in r.members then (r, Err(Unavailable))
    else if r.members[m].lease.session != session then (r, Err(Replaced))
    else (Remove(r, m), Ok(()))
  }

  function PeerTo(r: Registry, space: string, session: string, remote: Lease): Peer {
    Peer(remote.device, remote.session, remote.address, KeyFor(r.root, space, session, remote.session))
  }

  predicate Visible(r: Registry, space: string, session: string, now: nat, remote: Lease) {
    remote.space == space && remote.session != session && remote.expiresAt > now && remote.id !in r.cancelled
  }

  function Peers(r: Registry, space: string, device: string, session: string, now: nat): Result<set<Peer>> {
    if (space, device) !in r.members then Err(Unavailable)
    else if !Current(r, (space, device), session, now) then Err(Replaced)
    else Ok(set m | m in r.members && Visible(r, space, session, now, r.members[m].lease)
              :: PeerTo(r, space, session, r.members[m].lease))
  }

  lemma RemoveOneMore(r: Registry, s: set<Member>, m: Member)
    requires m in r.members && m !in s
    ensures Remove(RemoveAll(r, s), m) == RemoveAll(r, s + {m})
  {}

  lemma RemoveNone(r: Registry)
    ensures RemoveAll(r, {}) == r
  {}

  class AccessLeases {
    const root: nat
    const maximum: nat
    var members: map<Member, Entry>
    var tokens: map<Hash, Member>
    var cancelled: set<nat>
    var next: nat

    ghost function View(): Registry
      reads this
    {
      Registry(root, maximum, members, tokens, cancelled, next)
    }

    constructor (root: nat, maximum: nat)
      ensures View() == Registry(root, maximum, map[], map[], {}, 0)
    {
      this.root, this.maximum := root, maximum;
      members, tokens, cancelled, next := map[], map[], {}, 0;
    }

    method RemoveMember(m: Member)
      modifies this
      ensures View() == Remove(old(View()), m)
    {
      if m in members {
        var e := members[m];
        members := members - {m};
        cancelled := cancelled + {e.lease.id};
        tokens := tokens - {e.hash};
      }
    }

    method RemoveEach(doomed: set<Member>)
      requires doomed <= members.Keys
      modifies this
      ensures View() == RemoveAll(old(View()), doomed)
    {
      hide RemoveAll, Remove;
      var rest := doomed;
      ghost var was := View();
      RemoveNone(was);
      assert doomed - rest == {};
      while rest != {}
        invariant rest <= doomed && View() == RemoveAll(was, doomed - rest)
        decreases |rest|
      {
        var m :| m in rest;
        RemoveOneMore(was, doomed - rest, m);
        assert doomed - rest + {m} == doomed - (rest - {m});
        RemoveMember(m);
        rest := rest - {m};
      }
      assert doomed - {} == doomed;
    }

    method Sweep(now: nat)
      modifies this
      ensures View() == Swept(old(View()), now)
    {
      var expired := set m | m in members && members[m].lease.expiresAt <= now;
      RemoveEach(expired);
    }

    method RevokeSpace(space: string)
      modifies this
      ensures View() == RemoveAll(old(View()), InSpace(old(View()), space))
    {
      var doomed := set m | m in members && m.0 == space;
      RemoveEach(doomed);
    }

    method IssueLease(space: string, device: string, address: nat, now: nat, token: string, session: string)
      returns (a: Result<Admission>)
      modifies this
      ensures (View(), a) == Issue(old(View()), space, device, address, now, token, session)
    {
      Sweep(now);
      var m := (space, device);
      if m !in members && |members| >= maximum {
        return Err(CapacityReached);
      }
      RemoveMember(m);
      var hash := Sha256(token);
      if now + ACCESS_TTL >= U64 {
        return Err(InvalidClock);
      }
      var lease := Lease(space, device, session, address, now + ACCESS_TTL, next);
      next := next + 1;
      tokens := tokens[hash := m];
      members := members[m := Entry(hash, lease)];
      a := Ok(Admission(token, session, space, device, address, lease.expiresAt));
    }

    method LookupToken(token: string, space: string, now: nat) returns (l: Result<Lease>)
      modifies this
      ensures (View(), l) == Lookup(old(View()), token, space, now)
    {
      if !WellFormed(token) {
        return Err(InvalidToken);
      }
      var hash := Sha256(token);
      if hash !in tokens {
        return Err(UnknownToken);
      }
      var m := tokens[hash];
      if m !in members {
        return Err(Unavailable);
      }
      var lease := members[m].lease;
      if lease.expiresAt <= now {
        RemoveMember(m);
        return Err(Expired);
      }
      if lease.space != space || lease.id in cancelled {
        return Err(ScopeMismatch);
      }
      l := Ok(lease);
    }

    method RefreshLease(space: string, device: string, session: string, now: nat) returns (t: Result<nat>)
      modifies this
      ensures (View(), t) == Refresh(old(View()), space, device, session, now)
    {
      var m := (space, device);
      if m !in members {
        return Err(Unavailable);
      }
      var e := members[m];
      if e.lease.session != session || e.lease.expiresAt <= now || e.lease.id in cancelled {
        return Err(Expired);
      }
      if now + ACCESS_TTL >= U64 {
        return Err(InvalidClock);
      }
      members := members[m := e.(lease := e.lease.(expiresAt := now + ACCESS_TTL))];
      t := Ok(now + ACCESS_TTL);
    }

    method CloseLease(space: string, device: string, session: string) returns (r: Result<()>)
      modifies this
      ensures (View(), r) == Close(old(View()), space, device, session)
    {
      var m := (space, device);
      if m !in members {
        return Err(Unavailable);
      }
      if members[m].lease.session != session {
        return Err(Replaced);
      }
      RemoveMember(m);
      r := Ok(());
    }

    /** `Drop` cancels every lease still held. */
    method DropAll()
      modifies this
      ensures View() == old(View()).(cancelled := old(cancelled)
                          + (set m | m in old(members) :: old(members)[m].lease.id))
    {
      var rest := members.Keys;
      ghost var was := cancelled;
      while rest != {}
        invariant rest <= members.Keys && unchanged(`members) && unchanged(`tokens) && unchanged(`next)
        invariant cancelled == was + (set m | m in members && m !in rest :: members[m].lease.id)
        decreases |rest|
      {
        var m :| m in rest;
        cancelled := cancelled + {members[m].lease.id};
        rest := rest - {m};
      }
    }
  }
}
