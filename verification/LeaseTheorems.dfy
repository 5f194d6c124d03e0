/** The lease registry over every sequence of operations, at whatever times. */
module LeaseTheorems {
  import opened Bytes
  import opened Sets
  import opened Leases

  /** The registry with everything it ever handed out, by lease id. */
  datatype History = History(r: Registry, issued: seq<Lease>, granted: seq<Admission>, secrets: seq<seq<byte>>)

  datatype Op =
    | DoIssue(space: string, device: string, address: nat, now: nat, secret: seq<byte>, session: string)
    | DoLookup(token: string, space: string, now: nat)
    | DoRefresh(space: string, device: string, session: string, now: nat)
    | DoClose(space: string, device: string, session: string)
    | RevokeMember(space: string, device: string)
    | RevokeSpace(space: string)
    | Sweep(now: nat)

  function Step(h: History, op: Op): History {
    match op
    case DoIssue(space, device, address, now, secret, session) =>
      var (r, a) := Issue(h.r, space, device, address, now, HexEncode(secret), session);
      if a.Err? then h.(r := r)
      else History(r, h.issued + [r.members[(space, device)].lease], h.granted + [a.value], h.secrets + [secret])
    case DoLookup(token, space, now) => h.(r := Lookup(h.r, token, space, now).0)
    case DoRefresh(space, device, session, now) => h.(r := Refresh(h.r, space, device, session, now).0)
    case DoClose(space, device, session) => h.(r := Close(h.r, space, device, session).0)
    case RevokeMember(space, device) => h.(r := Remove(h.r, (space, device)))
    case RevokeSpace(space) => h.(r := RemoveAll(h.r, InSpace(h.r, space)))
    case Sweep(now) => h.(r := Swept(h.r, now))
  }

  /** Secrets are 32 random bytes and session ids are random: neither ever repeats. */
  ghost predicate May(h: History, op: Op) {
    op.DoIssue? ==>
      && |op.secret| == 32 && op.secret !in h.secrets
      && forall i | 0 <= i < |h.issued| :: h.issued[i].session != op.session
  }

  function After(h: History, ops: seq<Op>): History {
    if ops == [] then h else Step(After(h, ops[..|ops| - 1]), ops[|ops| - 1])
  }

  ghost predicate Runs(h: History, ops: seq<Op>) {
    ops != [] ==>
      Runs(h, ops[..|ops| - 1]) && May(After(h, ops[..|ops| - 1]), ops[|ops| - 1])
  }

  function Start(root: nat, maximum: nat): History {
    History(Registry(root, maximum, map[], map[], {}, 0), [], [], [])
  }

  // ---------- the invariant ----------

  /** `tokens` and `members` are inverse to each other. */
  ghost predicate Inverse(r: Registry) {
    && (forall m | m in r.members :: r.members[m].hash in r.tokens && r.tokens[r.members[m].hash] == m)
    && (forall t | t in r.tokens :: r.tokens[t] in r.members && r.members[r.tokens[t]].hash == t)
  }

  function MemberOf(l: Lease): Member {
    (l.space, l.device)
  }

  /** Lease `i` is the entry of its member, refreshed or not. */
  ghost predicate IsCurrent(h: History, i: nat)
    requires i < |h.issued| == |h.secrets|
  {
    var m := MemberOf(h.issued[i]);
    && m in h.r.members && h.r.members[m].hash == Sha256(HexEncode(h.secrets[i]))
    && h.r.members[m].lease == h.issued[i].(expiresAt := h.r.members[m].lease.expiresAt)
  }

  /** The entry of `m` is a lease issued to it that nobody has cancelled. */
  ghost predicate Entered(h: History, m: Member)
    requires |h.issued| == |h.secrets| && m in h.r.members
  {
    var i := h.r.members[m].lease.id;
    i < |h.issued| && i !in h.r.cancelled && m == MemberOf(h.issued[i]) && IsCurrent(h, i)
  }

  ghost predicate Recorded(h: History, i: nat)
    requires i < |h.issued| == |h.granted| == |h.secrets|
  {
    var l := h.issued[i];
    && l.id == i && |h.secrets[i]| == 32
    && h.granted[i] == Admission(HexEncode(h.secrets[i]), l.session, l.space, l.device, l.address, l.expiresAt)
  }

  /** Nothing random was ever drawn twice. */
  ghost predicate NoRepeats(h: History)
    requires |h.issued| == |h.secrets|
  {
    forall i, j | 0 <= i < j < |h.issued| ::
      h.issued[i].session != h.issued[j].session && h.secrets[i] != h.secrets[j]
  }

  ghost predicate Inv(h: History) {
    && |h.issued| == |h.granted| == |h.secrets| == h.r.next
    && Inverse(h.r) && |h.r.members| <= h.r.maximum && NoRepeats(h)
    && (forall m | m in h.r.members :: Entered(h, m))
    && (forall i | 0 <= i < |h.issued| :: Recorded(h, i))
    && (forall i | 0 <= i < |h.issued| :: i in h.r.cancelled || IsCurrent(h, i))
    && (forall i | i in h.r.cancelled :: i < h.r.next)
  }

  // ---------- text ----------

  lemma {:induction false} HexWellFormed(s: seq<byte>)
    ensures forall c | c in HexEncode(s) :: IsHexDigit(c)
  {
    if s != [] {
      HexWellFormed(s[1..]);
    }
  }

  /** Two lower-case digits a byte, the high one first. */
  lemma {:induction false} HexMeans(s: seq<byte>, i: nat)
    requires i < |s|
    ensures var b: int := s[i];
      HexEncode(s)[2 * i] == "0123456789abcdef"[b / 16] && HexEncode(s)[2 * i + 1] == "0123456789abcdef"[b % 16]
  {
    if i > 0 {
      HexMeans(s[1..], i - 1);
    }
  }

  lemma HexDigitInjective(a: nat, b: nat)
    requires a < 16 && b < 16 && HexDigit(a) == HexDigit(b)
    ensures a == b
  {}

  lemma {:induction false} HexInjective(s: seq<byte>, t: seq<byte>)
    requires HexEncode(s) == HexEncode(t)
    ensures s == t
  {
    if s == [] || t == [] {
      assert |HexEncode(s)| == 2 * |s| && |HexEncode(t)| == 2 * |t|;
    } else {
      var (x, y) := (HexEncode(s), HexEncode(t));
      var a: int, b: int := s[0], t[0];
      assert x[0] == HexDigit(a / 16) && x[1] == HexDigit(a % 16) && x[2..] == HexEncode(s[1..]);
      assert y[0] == HexDigit(b / 16) && y[1] == HexDigit(b % 16) && y[2..] == HexEncode(t[1..]);
      HexDigitInjective(a / 16, b / 16);
      HexDigitInjective(a % 16, b % 16);
      HexInjective(s[1..], t[1..]);
      assert s == [s[0]] + s[1..] && t == [t[0]] + t[1..];
    }
  }

  lemma {:induction false} BeforeTotal(a: string, b: string)
    ensures a == b || (Before(a, b) <==> !Before(b, a))
    ensures a == b ==> !Before(a, b)
  {
    if a != "" && b != "" && a[0] == b[0] {
      BeforeTotal(a[1..], b[1..]);
      assert a == [a[0]] + a[1..] && b == [b[0]] + b[1..];
    }
  }

  // ---------- every step keeps the invariant ----------

  lemma RemoveIsRemoveAll(r: Registry, m: Member)
    requires m in r.members
    ensures Remove(r, m) == RemoveAll(r, {m})
  {
    RemoveNone(r);
    RemoveOneMore(r, {}, m);
    assert {} + {m} == {m};
  }

  lemma IdsDiffer(h: History, m: Member, d: Member)
    requires |h.issued| == |h.secrets| && m in h.r.members && d in h.r.members
    requires Entered(h, m) && Entered(h, d) && h.r.members[m].lease.id == h.r.members[d].lease.id
    ensures m == d
  {}

  lemma HashesDiffer(r: Registry, m: Member, d: Member)
    requires Inverse(r) && m in r.members && d in r.members && r.members[m].hash == r.members[d].hash
    ensures m == d
  {}

  /** The entries that stay keep their hash and their flag. */
  lemma StayIntact(h: History, s: set<Member>, m: Member)
    requires Inv(h) && m in h.r.members && m !in s
    ensures var r := RemoveAll(h.r, s);
      h.r.members[m].lease.id !in r.cancelled && h.r.members[m].hash in r.tokens
  {
    var r := RemoveAll(h.r, s);
    assert Entered(h, m);
    hide IsCurrent, Recorded, NoRepeats;
    if d :| d in s && d in h.r.members && h.r.members[d].lease.id == h.r.members[m].lease.id {
      IdsDiffer(h, m, d);
    }
    if d :| d in s && d in h.r.members && h.r.members[d].hash == h.r.members[m].hash {
      HashesDiffer(h.r, m, d);
    }
  }

  lemma RemoveAllInverse(h: History, s: set<Member>)
    requires Inv(h)
    ensures Inverse(RemoveAll(h.r, s))
  {
    var r := RemoveAll(h.r, s);
    forall m | m in r.members ensures r.members[m].hash in r.tokens && r.tokens[r.members[m].hash] == m {
      StayIntact(h, s, m);
    }
    hide Entered, IsCurrent, Recorded, NoRepeats;
  }

  lemma RemoveAllCurrent(h: History, s: set<Member>, i: nat)
    requires Inv(h) && i < |h.issued|
    ensures var k := h.(r := RemoveAll(h.r, s));
      && Recorded(k, i)
      && (i in k.r.cancelled || IsCurrent(k, i))
      && (IsCurrent(h, i) && MemberOf(h.issued[i]) !in s ==> IsCurrent(k, i))
  {
    var m := MemberOf(h.issued[i]);
    var k := h.(r := RemoveAll(h.r, s));
    assert Recorded(h, i);
    hide HexEncode, NoRepeats, Entered, Inverse;
    if IsCurrent(h, i) && m in s {
      assert m in h.r.members && h.r.members[m].lease.id == i;
    }
  }

  lemma RemoveAllKeeps(h: History, s: set<Member>)
    requires Inv(h)
    ensures Inv(h.(r := RemoveAll(h.r, s)))
  {
    var k := h.(r := RemoveAll(h.r, s));
    SubmapSize(k.r.members, h.r.members);
    RemoveAllInverse(h, s);
    RepeatsSame(h, k);
    hide Inverse, NoRepeats, IsCurrent, Recorded, Entered;
    forall i | 0 <= i < |h.issued|
      ensures Recorded(k, i) && (i in k.r.cancelled || IsCurrent(k, i))
    {
      RemoveAllCurrent(h, s, i);
    }
    forall m | m in k.r.members ensures Entered(k, m) {
      StillEntered(h, s, m);
    }
  }

  lemma StillEntered(h: History, s: set<Member>, m: Member)
    requires Inv(h) && m in h.r.members && m !in s
    ensures Entered(h.(r := RemoveAll(h.r, s)), m)
  {
    assert Entered(h, m);
    hide Inverse, NoRepeats, IsCurrent, Recorded;
    StayIntact(h, s, m);
    RemoveAllCurrent(h, s, h.r.members[m].lease.id);
  }

  lemma RepeatsSame(h: History, k: History)
    requires |h.issued| == |h.secrets| && k.issued == h.issued && k.secrets == h.secrets && NoRepeats(h)
    ensures NoRepeats(k)
  {}

  lemma RemoveKeeps(h: History, m: Member)
    requires Inv(h)
    ensures Inv(h.(r := Remove(h.r, m)))
  {
    if m in h.r.members {
      RemoveIsRemoveAll(h.r, m);
      RemoveAllKeeps(h, {m});
    }
  }

  function Insert(h: History, lease: Lease, secret: seq<byte>): History {
    var m := (lease.space, lease.device);
    var token := HexEncode(secret);
    History(h.r.(tokens := h.r.tokens[Sha256(token) := m],
                 members := h.r.members[m := Entry(Sha256(token), lease)],
                 next := h.r.next + 1),
            h.issued + [lease],
            h.granted + [Admission(token, lease.session, lease.space, lease.device, lease.address, lease.expiresAt)],
            h.secrets + [secret])
  }

  /** A known hash is that of the token of an uncancelled lease. */
  lemma TokenOwner(h: History, token: string) returns (i: nat)
    requires Inv(h) && Sha256(token) in h.r.tokens
    ensures i < |h.issued| && i !in h.r.cancelled && h.r.tokens[Sha256(token)] == MemberOf(h.issued[i])
    ensures token == HexEncode(h.secrets[i]) == h.granted[i].token
  {
    hide HexEncode, NoRepeats;
    var m := h.r.tokens[Sha256(token)];
    i := h.r.members[m].lease.id;
    assert Entered(h, m) && Recorded(h, i);
  }

  lemma FreshHash(h: History, secret: seq<byte>)
    requires Inv(h) && secret !in h.secrets
    ensures Sha256(HexEncode(secret)) !in h.r.tokens
  {
    if Sha256(HexEncode(secret)) in h.r.tokens {
      var i := TokenOwner(h, HexEncode(secret));
      hide HexEncode, Inv;
      HexInjective(secret, h.secrets[i]);
    }
  }

  lemma InverseWith(r: Registry, m: Member, e: Entry, next: nat)
    requires Inverse(r) && m !in r.members && e.hash !in r.tokens
    ensures Inverse(r.(tokens := r.tokens[e.hash := m], members := r.members[m := e], next := next))
  {}

  lemma InsertInverse(h: History, lease: Lease, secret: seq<byte>)
    requires Inv(h) && MemberOf(lease) !in h.r.members && secret !in h.secrets
    ensures Inverse(Insert(h, lease, secret).r)
  {
    FreshHash(h, secret);
    hide HexEncode, Recorded, NoRepeats, Entered, IsCurrent, Inverse;
    InverseWith(h.r, MemberOf(lease), Entry(Sha256(HexEncode(secret)), lease), h.r.next + 1);
  }

  lemma InsertOther(h: History, lease: Lease, secret: seq<byte>, i: nat)
    requires Inv(h) && MemberOf(lease) !in h.r.members && i < |h.issued|
    ensures var k := Insert(h, lease, secret);
      Recorded(k, i) && (IsCurrent(h, i) ==> IsCurrent(k, i))
  {
    assert Recorded(h, i);
    hide HexEncode, NoRepeats, Entered, Inverse;
  }

  lemma InsertNew(h: History, lease: Lease, secret: seq<byte>)
    requires |h.issued| == |h.granted| == |h.secrets| == h.r.next == lease.id && |secret| == 32
    ensures var k := Insert(h, lease, secret);
      Recorded(k, lease.id) && IsCurrent(k, lease.id)
  {}

  lemma InsertFresh(h: History, lease: Lease, secret: seq<byte>)
    requires |h.issued| == |h.secrets| && NoRepeats(h) && secret !in h.secrets
    requires forall i | 0 <= i < |h.issued| :: h.issued[i].session != lease.session
    ensures NoRepeats(Insert(h, lease, secret))
  {
    hide HexEncode;
  }

  lemma InsertKeeps(h: History, lease: Lease, secret: seq<byte>)
    requires Inv(h) && MemberOf(lease) !in h.r.members && |h.r.members| < h.r.maximum
    requires lease.id == h.r.next && |secret| == 32 && secret !in h.secrets
    requires forall i | 0 <= i < |h.issued| :: h.issued[i].session != lease.session
    ensures Inv(Insert(h, lease, secret))
  {
    hide HexEncode, Inverse, NoRepeats, IsCurrent, Recorded;
    var k := Insert(h, lease, secret);
    InsertSize(h.r.members, MemberOf(lease), k.r.members[MemberOf(lease)]);
    InsertInverse(h, lease, secret);
    InsertNew(h, lease, secret);
    InsertFresh(h, lease, secret);
    forall i | 0 <= i < |k.issued|
      ensures Recorded(k, i) && (i in k.r.cancelled || IsCurrent(k, i))
    {
      if i < |h.issued| {
        InsertOther(h, lease, secret, i);
      }
    }
    forall m | m in k.r.members ensures Entered(k, m) {
      if m in h.r.members {
        assert Entered(h, m);
        InsertOther(h, lease, secret, h.r.members[m].lease.id);
      }
    }
  }

  lemma IssueKeeps(h: History, op: Op)
    requires op.DoIssue? && Inv(h) && May(h, op)
    ensures Inv(Step(h, op))
  {
    hide Inv, HexEncode, RemoveAll, Remove;
    var m := (op.space, op.device);
    var h1 := h.(r := Swept(h.r, op.now));
    RemoveAllKeeps(h, ExpiredAt(h.r, op.now));
    if m in h1.r.members || |h1.r.members| < h1.r.maximum {
      var h2 := h1.(r := Remove(h1.r, m));
      RemoveKeeps(h1, m);
      if op.now + ACCESS_TTL < U64 {
        var lease := Lease(op.space, op.device, op.session, op.address, op.now + ACCESS_TTL, h2.r.next);
        Bound(h1);
        RoomAfterRemove(h1.r, m);
        InsertKeeps(h2, lease, op.secret) by {
          Bound(h2);
        }
        assert Step(h, op) == Insert(h2, lease, op.secret);
      }
    }
  }

  lemma Bound(h: History)
    requires Inv(h)
    ensures |h.r.members| <= h.r.maximum
  {}

  lemma RoomAfterRemove(r: Registry, m: Member)
    requires |r.members| <= r.maximum && (m in r.members || |r.members| < r.maximum)
    ensures var q := Remove(r, m);
      && m !in q.members && |q.members| < q.maximum == r.maximum && q.next == r.next
  {
    var n := r.members - {m};
    if m in r.members {
      InsertSize(n, m, r.members[m]);
      assert n[m := r.members[m]] == r.members;
    }
  }

  function Extended(h: History, m: Member, until: nat): History
    requires m in h.r.members
  {
    var e := h.r.members[m];
    h.(r := h.r.(members := h.r.members[m := e.(lease := e.lease.(expiresAt := until))]))
  }

  lemma ExtendedInverse(r: Registry, m: Member, e: Entry)
    requires Inverse(r) && m in r.members && e.hash == r.members[m].hash
    ensures Inverse(r.(members := r.members[m := e]))
  {}

  lemma ExtendedCurrent(h: History, m: Member, until: nat, i: nat)
    requires |h.issued| == |h.granted| == |h.secrets| && m in h.r.members && i < |h.issued|
    ensures var k := Extended(h, m, until);
      && (Recorded(h, i) ==> Recorded(k, i)) && (IsCurrent(h, i) ==> IsCurrent(k, i))
  {
    hide HexEncode;
  }

  lemma ExtendedKeeps(h: History, m: Member, until: nat)
    requires Inv(h) && m in h.r.members
    ensures Inv(Extended(h, m, until))
  {
    hide HexEncode, Inverse, NoRepeats, IsCurrent, Recorded;
    var k := Extended(h, m, until);
    InsertSize(h.r.members, m, k.r.members[m]);
    ExtendedInverse(h.r, m, k.r.members[m]);
    RepeatsSame(h, k);
    forall i | 0 <= i < |h.issued|
      ensures Recorded(k, i) && (IsCurrent(h, i) ==> IsCurrent(k, i))
    {
      ExtendedCurrent(h, m, until, i);
    }
    forall d | d in k.r.members ensures Entered(k, d) {
      assert Entered(h, d);
    }
  }

  lemma StepKeeps(h: History, op: Op)
    requires Inv(h) && May(h, op)
    ensures Inv(Step(h, op))
  {
    hide Inv, RemoveAll, Remove, HexEncode;
    assert h.(r := h.r) == h;
    match op {
      case DoIssue(_, _, _, _, _, _) => IssueKeeps(h, op);
      case DoRefresh(space, device, _, now) =>
        if (space, device) in h.r.members {
          ExtendedKeeps(h, (space, device), now + ACCESS_TTL);
        }
      case DoLookup(token, _, _) =>
        if Sha256(token) in h.r.tokens {
          RemoveKeeps(h, h.r.tokens[Sha256(token)]);
        }
      case DoClose(space, device, _) => RemoveKeeps(h, (space, device));
      case RevokeMember(space, device) => RemoveKeeps(h, (space, device));
      case RevokeSpace(space) => RemoveAllKeeps(h, InSpace(h.r, space));
      case Sweep(now) => RemoveAllKeeps(h, ExpiredAt(h.r, now));
    }
  }

  lemma {:induction false} RunKeeps(h: History, ops: seq<Op>)
    requires Inv(h) && Runs(h, ops)
    ensures Inv(After(h, ops))
  {
    if ops != [] {
      hide Inv, Step, May;
      RunKeeps(h, ops[..|ops| - 1]);
      StepKeeps(After(h, ops[..|ops| - 1]), ops[|ops| - 1]);
    }
  }

  // ---------- the theorems ----------

  lemma TokenCount(r: Registry)
    requires Inverse(r)
    ensures |r.tokens| == |r.members|
  {
    var image := set m | m in r.members :: r.members[m].hash;
    assert image == r.tokens.Keys;
    ImageSize(r, r.members.Keys);
    assert (set m | m in r.members.Keys :: r.members[m].hash) == image;
    assert |r.members| == |r.members.Keys| && |r.tokens| == |r.tokens.Keys|;
  }

  lemma {:induction false} ImageSize(r: Registry, s: set<Member>)
    requires Inverse(r) && s <= r.members.Keys
    ensures |set m | m in s :: r.members[m].hash| == |s|
  {
    if s == {} {
      assert (set m | m in s :: r.members[m].hash) == {};
    } else {
      var x :| x in s;
      var rest := s - {x};
      ImageSize(r, rest);
      var image := set m | m in rest :: r.members[m].hash;
      assert r.members[x].hash !in image;
      assert (set m | m in s :: r.members[m].hash) == image + {r.members[x].hash};
    }
  }

  /** After any operations: the two maps are inverse and within capacity, and every lease
      ever issued is either its member's current entry or cancelled, never both. */
  lemma RegistryTheorem(root: nat, maximum: nat, ops: seq<Op>)
    requires Runs(Start(root, maximum), ops)
    ensures var h := After(Start(root, maximum), ops);
      && Inverse(h.r) && |h.r.tokens| == |h.r.members| <= maximum
      && |h.issued| == |h.secrets|
      && (forall i | 0 <= i < |h.issued| :: i in h.r.cancelled <==> !IsCurrent(h, i))
      && (forall i, j | 0 <= i < j < |h.issued|
            && MemberOf(h.issued[i]) == MemberOf(h.issued[j]) ::
            i in h.r.cancelled || j in h.r.cancelled)
  {
    RunKeeps(Start(root, maximum), ops);
    var h := After(Start(root, maximum), ops);
    TokenCount(h.r);
    MaximumStays(Start(root, maximum), ops);
    forall i | 0 <= i < |h.issued| && IsCurrent(h, i) ensures i !in h.r.cancelled {
      assert Recorded(h, i) && Entered(h, MemberOf(h.issued[i]));
    }
  }

  lemma MaximumKept(h: History, op: Op)
    ensures Step(h, op).r.maximum == h.r.maximum
  {}

  lemma {:induction false} MaximumStays(h: History, ops: seq<Op>)
    ensures After(h, ops).r.maximum == h.r.maximum
  {
    if ops != [] {
      hide Step;
      MaximumStays(h, ops[..|ops| - 1]);
      MaximumKept(After(h, ops[..|ops| - 1]), ops[|ops| - 1]);
    }
  }

  /** A token opens exactly the uncancelled, unexpired lease of that space it was issued with. */
  lemma LookupTheorem(h: History, token: string, space: string, now: nat, i: nat)
    requires Inv(h) && i < |h.issued| && h.granted[i].token == token
    ensures var (r, l) := Lookup(h.r, token, space, now);
      && (l.Ok? <==> i !in h.r.cancelled && h.issued[i].space == space
                     && h.r.members[MemberOf(h.issued[i])].lease.expiresAt > now)
      && (l.Ok? ==> r == h.r && l.value == h.issued[i].(expiresAt := l.value.expiresAt))
      && (i in h.r.cancelled ==> l == Err(UnknownToken))
  {
    assert Recorded(h, i);
    HexWellFormed(h.secrets[i]);
    TokenKnown(h, i);
    hide HexEncode, Inverse, NoRepeats, Entered;
    if i !in h.r.cancelled {
      assert IsCurrent(h, i);
    }
  }

  lemma TokenKnown(h: History, i: nat)
    requires Inv(h) && i < |h.issued|
    ensures Sha256(HexEncode(h.secrets[i])) in h.r.tokens <==> i !in h.r.cancelled
    ensures i !in h.r.cancelled ==> h.r.tokens[Sha256(HexEncode(h.secrets[i]))] == MemberOf(h.issued[i])
  {
    var token := HexEncode(h.secrets[i]);
    hide HexEncode, Entered, Recorded;
    if Sha256(token) in h.r.tokens {
      var j := TokenOwner(h, token);
      HexInjective(h.secrets[i], h.secrets[j]);
      hide IsCurrent, Inverse;
      assert j == i;
    } else {
      assert !IsCurrent(h, i);
    }
  }

  lemma FormMeans(token: string)
    ensures WellFormed(token) <==> |token| == 64 && forall i | 0 <= i < 64 :: token[i] in "0123456789abcdefABCDEF"
  {
    assert forall c: char :: IsHexDigit(c) <==> c in "0123456789abcdefABCDEF";
  }

  /** No other text opens anything: it is not of the form of a token, or it is none. */
  lemma StrangersRejected(h: History, token: string, space: string, now: nat)
    requires Inv(h) && forall i | 0 <= i < |h.granted| :: h.granted[i].token != token
    ensures Lookup(h.r, token, space, now)
         == (h.r, Err(if |token| == 64 && forall i | 0 <= i < 64 :: token[i] in "0123456789abcdefABCDEF"
                      then UnknownToken else InvalidToken))
  {
    FormMeans(token);
    hide WellFormed;
    if Sha256(token) in h.r.tokens {
      var i := TokenOwner(h, token);
    }
  }

  lemma RemovalsCancel(r: Registry, s: set<Member>, m: Member)
    ensures r.cancelled <= RemoveAll(r, s).cancelled && r.cancelled <= Remove(r, m).cancelled
  {}

  lemma CancelledByStep(h: History, op: Op)
    ensures h.r.cancelled <= Step(h, op).r.cancelled
  {
    hide Remove, RemoveAll, HexEncode, WellFormed, Current;
    match op {
      case DoIssue(space, device, _, now, _, _) =>
        RemovalsCancel(h.r, ExpiredAt(h.r, now), (space, device));
        RemovalsCancel(Swept(h.r, now), {}, (space, device));
      case DoLookup(token, _, _) =>
        if Sha256(token) in h.r.tokens {
          RemovalsCancel(h.r, {}, h.r.tokens[Sha256(token)]);
        }
      case DoClose(space, device, _) => RemovalsCancel(h.r, {}, (space, device));
      case RevokeMember(space, device) => RemovalsCancel(h.r, {}, (space, device));
      case RevokeSpace(space) => RemovalsCancel(h.r, InSpace(h.r, space), ("", ""));
      case Sweep(now) => RemovalsCancel(h.r, ExpiredAt(h.r, now), ("", ""));
      case _ =>
    }
  }

  /** What is cancelled stays cancelled. */
  lemma {:induction false} CancelledStays(h: History, ops: seq<Op>)
    ensures h.r.cancelled <= After(h, ops).r.cancelled
  {
    if ops != [] {
      hide Step;
      CancelledStays(h, ops[..|ops| - 1]);
      CancelledByStep(After(h, ops[..|ops| - 1]), ops[|ops| - 1]);
    }
  }

  /** The entry of an uncancelled lease. */
  lemma CurrentEntry(h: History, i: nat)
    requires Inv(h) && i < |h.issued| && i !in h.r.cancelled
    ensures var m := MemberOf(h.issued[i]); m in h.r.members && h.r.members[m].lease.id == i
  {
    assert Recorded(h, i) && IsCurrent(h, i);
    hide HexEncode, Inverse, NoRepeats, Entered;
  }

  /** Removing a member or a space cancels all it was ever given. */
  lemma RevocationTheorem(h: History, space: string, device: string, i: nat)
    requires Inv(h) && i < |h.issued|
    ensures MemberOf(h.issued[i]) == (space, device) ==>
      i in Step(h, RevokeMember(space, device)).r.cancelled
    ensures h.issued[i].space == space ==> i in Step(h, RevokeSpace(space)).r.cancelled
  {
    if i !in h.r.cancelled {
      CurrentEntry(h, i);
    }
    hide Inv;
  }

  /** A sweep cancels exactly what has expired. */
  lemma SweepTheorem(h: History, now: nat, i: nat)
    requires Inv(h) && i < |h.issued| && i !in h.r.cancelled
    ensures MemberOf(h.issued[i]) in h.r.members
    ensures i in Step(h, Sweep(now)).r.cancelled <==>
      h.r.members[MemberOf(h.issued[i])].lease.expiresAt <= now
  {
    var m := MemberOf(h.issued[i]);
    CurrentEntry(h, i);
    hide Inv;
    if m !in ExpiredAt(h.r, now) {
      StayIntact(h, ExpiredAt(h.r, now), m);
    }
  }

  /** A session refreshed in time can be looked up under its token for exactly another lifetime. */
  lemma RefreshTheorem(h: History, now: nat, later: nat, i: nat)
    requires Inv(h) && i < |h.issued| && i !in h.r.cancelled && now + ACCESS_TTL < U64
    requires MemberOf(h.issued[i]) in h.r.members && h.r.members[MemberOf(h.issued[i])].lease.expiresAt > now
    ensures var l := h.issued[i];
      var k := Step(h, DoRefresh(l.space, l.device, l.session, now));
      && Refresh(h.r, l.space, l.device, l.session, now).1 == Ok(now + ACCESS_TTL)
      && (Lookup(k.r, HexEncode(h.secrets[i]), l.space, later).1.Ok? <==> later < now + ACCESS_TTL)
  {
    var l := h.issued[i];
    var k := Step(h, DoRefresh(l.space, l.device, l.session, now));
    assert Recorded(h, i) && IsCurrent(h, i);
    RefreshIs(h, i, now);
    ExtendedKeeps(h, MemberOf(l), now + ACCESS_TTL);
    hide HexEncode, Inverse, NoRepeats, Entered, Lookup, Refresh, IsCurrent, Step;
    LookupTheorem(k, HexEncode(h.secrets[i]), l.space, later, i);
  }

  lemma RefreshIs(h: History, i: nat, now: nat)
    requires Inv(h) && i < |h.issued| && i !in h.r.cancelled && now + ACCESS_TTL < U64
    requires MemberOf(h.issued[i]) in h.r.members && h.r.members[MemberOf(h.issued[i])].lease.expiresAt > now
    ensures var l := h.issued[i];
      && Refresh(h.r, l.space, l.device, l.session, now).1 == Ok(now + ACCESS_TTL)
      && Step(h, DoRefresh(l.space, l.device, l.session, now)) == Extended(h, MemberOf(l), now + ACCESS_TTL)
  {
    CurrentEntry(h, i);
    assert IsCurrent(h, i);
    hide HexEncode, Inverse, NoRepeats, Entered, Recorded;
  }

  /** A failed `issue` leaves what the sweep left exactly when the device had no session then:
      a clock overflow is noticed after its session was taken away. */
  lemma FailedIssue(r: Registry, space: string, device: string, address: nat, now: nat, token: string, session: string)
    requires Issue(r, space, device, address, now, token, session).1.Err?
    ensures var (q, a) := Issue(r, space, device, address, now, token, session);
      q == Swept(r, now) <==> (space, device) !in Swept(r, now).members
  {}

  lemma KeySymmetric(root: nat, space: string, a: string, b: string)
    ensures KeyFor(root, space, a, b) == KeyFor(root, space, b, a)
  {
    BeforeTotal(a, b);
  }

  lemma KeysDiffer(root: nat, space: string, a: string, b: string, c: string, d: string)
    requires KeyFor(root, space, a, b) == KeyFor(root, space, c, d)
    ensures (a == c && b == d) || (a == d && b == c)
  {}

  /** Two live sessions of a space see each other under the same key, and the first sees
      nobody else under it. */
  lemma PeersTheorem(h: History, space: string, d1: string, d2: string, now: nat)
    requires Inv(h) && d1 != d2 && (space, d1) in h.r.members && (space, d2) in h.r.members
    requires h.r.members[(space, d1)].lease.expiresAt > now && h.r.members[(space, d2)].lease.expiresAt > now
    ensures var (l1, l2) := (h.r.members[(space, d1)].lease, h.r.members[(space, d2)].lease);
      var key := KeyFor(h.r.root, space, l1.session, l2.session);
      && (var p1 := Peers(h.r, space, d1, l1.session, now);
          p1.Ok? && Peer(d2, l2.session, l2.address, key) in p1.value)
      && (var p2 := Peers(h.r, space, d2, l2.session, now);
          p2.Ok? && Peer(d1, l1.session, l1.address, key) in p2.value)
      && (forall p | p in Peers(h.r, space, d1, l1.session, now).value && p.key == key :: p.session == l2.session)
  {
    hide HexEncode, KeyFor;
    var (l1, l2) := (h.r.members[(space, d1)].lease, h.r.members[(space, d2)].lease);
    assert Entered(h, (space, d1)) && Entered(h, (space, d2));
    assert l1.id != l2.id && l1.session != l2.session;
    KeySymmetric(h.r.root, space, l1.session, l2.session);
    var key := KeyFor(h.r.root, space, l1.session, l2.session);
    assert PeerTo(h.r, space, l1.session, l2) == Peer(d2, l2.session, l2.address, key);
    assert PeerTo(h.r, space, l2.session, l1) == Peer(d1, l1.session, l1.address, key);
    forall p | p in Peers(h.r, space, d1, l1.session, now).value && p.key == key
      ensures p.session == l2.session
    {
      KeysDiffer(h.r.root, space, l1.session, p.session, l1.session, l2.session);
    }
  }

  /** Only live sessions of the space are listed, never the caller's own. */
  lemma PeersAreLive(r: Registry, space: string, device: string, session: string, now: nat, p: Peer)
    requires Peers(r, space, device, session, now).Ok? && p in Peers(r, space, device, session, now).value
    ensures exists m | m in r.members ::
      var l := r.members[m].lease;
      && l.space == space && l.session == p.session != session && l.device == p.device
      && l.expiresAt > now && l.id !in r.cancelled
  {
    hide KeyFor;
  }
}
