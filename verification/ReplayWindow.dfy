/** The bitmap of Security refines the plain set of accepted numbers. */
module ReplayWindow {
  import opened Bytes
  import opened Bits128
  import opened Security

  /** Bit i of `seen` is set exactly when number `high - i` was accepted. */
  ghost predicate Tracks(high: Option<nat>, seen: Word, accepted: set<nat>) {
    match high
    case None => accepted == {}
    case Some(h) =>
      && h in accepted
      && (forall n | n in accepted :: n <= h)
      && (forall i: nat | i < WINDOW :: Bit(seen, i) <==> i <= h && h - i in accepted)
  }

  lemma BitSlide(seen: Word, distance: nat, i: nat)
    requires 0 < distance && i < WINDOW
    ensures Bit(Slide(seen, distance), i) <==> i == 0 || (distance <= i && Bit(seen, i - distance))
  {
    BitOfOne(i);
    if distance < WINDOW {
      assert Shl(1, 0) == 1;
      if i == 0 {
        BitSetSame(Shl(seen, distance), 0);
      } else {
        BitSetOther(Shl(seen, distance), 0, i);
        BitShl(seen, distance, i);
      }
    }
  }

  lemma BitMark(seen: Word, k: nat, i: nat)
    requires k < WINDOW && i < WINDOW
    ensures Bit(Or(seen, Shl(1, k)), i) <==> i == k || Bit(seen, i)
  {
    if i == k {
      BitSetSame(seen, k);
    } else {
      BitSetOther(seen, k, i);
    }
  }

  /** The bitmap test refuses a number exactly when it was accepted or is 128 or more behind. */
  lemma RefusedMeans(s: Session, n: nat, accepted: set<nat>)
    requires Tracks(s.high, s.seen, accepted)
    ensures Refused(s, n) <==> n in accepted || (s.high.Some? && n + WINDOW <= s.high.value)
  {}

  lemma MarkedBit(s: Session, n: nat, accepted: set<nat>, i: nat)
    requires Tracks(s.high, s.seen, accepted) && !Refused(s, n) && i < WINDOW
    ensures var s' := Mark(s, n); var h' := s'.high.value;
      Bit(s'.seen, i) <==> i <= h' && h' - i in accepted + {n}
  {
    hide Bit, Slide, Or;
    match s.high
    case None => BitOfOne(i);
    case Some(h) =>
      if n > h {
        BitSlide(s.seen, n - h, i);
      } else {
        BitMark(s.seen, h - n, i);
      }
  }

  lemma MarkTracks(s: Session, n: nat, accepted: set<nat>)
    requires Tracks(s.high, s.seen, accepted) && !Refused(s, n)
    ensures var s' := Mark(s, n); Tracks(s'.high, s'.seen, accepted + {n})
  {
    var s' := Mark(s, n);
    var h' := s'.high.value;
    hide Bit, Slide, Or, Refused;
    forall i: nat | i < WINDOW
      ensures Bit(s'.seen, i) <==> i <= h' && h' - i in accepted + {n}
    {
      MarkedBit(s, n, accepted, i);
    }
  }

  /** Marking is visible: a number that was not refused leaves another window. */
  lemma MarkShows(s: Session, n: nat)
    requires !Refused(s, n)
    ensures Mark(s, n).high != s.high || Mark(s, n).seen != s.seen
  {
    if s.high.Some? && n <= s.high.value {
      BitMark(s.seen, s.high.value - n, s.high.value - n);
    }
  }

  /** One envelope, authentic or forged: what is accepted, and what a refusal leaves. */
  lemma ReceiveRefinesSet(s: Session, from: Challenge, n: nat, body: Cipher, accepted: set<nat>)
    requires Tracks(s.high, s.seen, accepted)
    ensures
      var (s', r) := Receive(s, Envelope(from, n, body));
      var authentic := s.remote == Some(from) && body.Sealed?
                       && body == Sealed(s.key, from, n, s.local, body.msg);
      var stale := s.high.Some? && n + WINDOW <= s.high.value;
      && (authentic && n !in accepted && !stale <==> r.Data?)
      && (r.Data? ==> r == Data(body.msg) && Tracks(s'.high, s'.seen, accepted + {n}))
      && (!r.Data? ==> r == Ignore && s' == s)
  {
    RefusedMeans(s, n, accepted);
    if !Refused(s, n) {
      MarkTracks(s, n, accepted);
    }
  }

  /** Numbers accepted while reading a list of arbitrary datagrams, in order. */
  function Accepted(s: Session, ds: seq<Datagram>): (Session, seq<nat>)
    decreases |ds|
  {
    if ds == [] then (s, [])
    else
      var (s1, r) := Receive(s, ds[0]);
      var (s2, rest) := Accepted(s1, ds[1..]);
      (s2, (if r.Data? then [ds[0].number] else []) + rest)
  }

  ghost predicate Distinct(ns: seq<nat>) {
    forall i, j | 0 <= i < j < |ns| :: ns[i] != ns[j]
  }

  lemma NoDataNoMark(s: Session, d: Datagram)
    ensures var (s', r) := Receive(s, d);
      if r.Data? then d.Envelope? else s'.high == s.high && s'.seen == s.seen
  {}

  ghost function Elems(ns: seq<nat>): set<nat> {
    set n | n in ns
  }

  lemma ElemsCons(n: nat, rest: seq<nat>)
    ensures Elems([n] + rest) == {n} + Elems(rest)
    ensures Distinct(rest) && n !in rest ==> Distinct([n] + rest)
  {}

  /** Over any sequence of datagrams the bitmap is the set accepted so far, and no number
      is ever accepted twice. */
  lemma {:induction false} NeverTwice(s: Session, ds: seq<Datagram>, before: set<nat>)
    requires Tracks(s.high, s.seen, before)
    ensures
      var (s', ns) := Accepted(s, ds);
      && Distinct(ns)
      && (forall n | n in ns :: n !in before)
      && Tracks(s'.high, s'.seen, before + Elems(ns))
    decreases |ds|
  {
    if ds == [] {
      assert Elems([]) == {} && before + {} == before;
    } else {
      hide Tracks, Receive, Elems, Distinct;
      var (s1, r) := Receive(s, ds[0]);
      var (s2, rest) := Accepted(s1, ds[1..]);
      NoDataNoMark(s, ds[0]);
      if r.Data? {
        var n := ds[0].number;
        ReceiveRefinesSet(s, ds[0].from, n, ds[0].body, before);
        NeverTwice(s1, ds[1..], before + {n});
        ElemsCons(n, rest);
        assert before + {n} + Elems(rest) == before + ({n} + Elems(rest));
      } else {
        NeverTwice(s1, ds[1..], before);
        assert [] + rest == rest;
      }
    }
  }
}
