/** MESSAGE-INTEGRITY: a digest over a message whose length field already counts the digest.
    The keyed digest is any function to 20 bytes. */
module StunIntegrity {
  import opened Bytes
  import opened Stun

  ghost predicate IsMac(mac: seq<byte> -> seq<byte>) {
    forall m :: |mac(m)| == DIGEST
  }

  /** `b[2..4].copy_from_slice(&n.to_be_bytes())` */
  function Restamp(b: seq<byte>, n: nat): (r: seq<byte>)
    requires |b| >= 4
    ensures |r| == |b|
  {
    b[..2] + PutU16(n) + b[4..]
  }

  /** The input of the digest: the message so far, its length 24 more than its body. */
  function Signed(action: nat, kind: nat, txid: seq<byte>, attrs: seq<Attr>): seq<byte> {
    Restamp(BuildSpec(action, kind, txid, attrs), |EncodeAttrs(attrs)| + 24)
  }

  method BuildWithIntegrity(action: nat, kind: nat, txid: seq<byte>, attrs: seq<Attr>,
                            mac: seq<byte> -> seq<byte>)
    returns (out: seq<byte>)
    requires |txid| == 12 && IsMac(mac)
    ensures out == BuildSpec(action, kind, txid,
                     attrs + [(MESSAGE_INTEGRITY, mac(Signed(action, kind, txid, attrs)))])
  {
    hide PutU16, PutU32, MsgType, EncodeAttrs, GetU32, GetU16, Field;
    out := Build(action, kind, txid, attrs);
    BuiltFields(action, kind, txid, attrs);
    var bodyLen := ((|out| - 20) % U16 + 24) % U16;
    out := out[..2] + PutU16(bodyLen) + out[4..];
    SameU16(bodyLen, |EncodeAttrs(attrs)| + 24);
    assert out == Signed(action, kind, txid, attrs);
    var digest := mac(out);
    out := out + PutU16(MESSAGE_INTEGRITY) + PutU16(20) + digest;
    SignedThenDigest(action, kind, txid, attrs, digest);
  }

  lemma SameU16(a: nat, b: nat)
    requires a % U16 == b % U16
    ensures PutU16(a) == PutU16(b)
  {
    Truncated16(a / U16, a % U16);
    Truncated16(b / U16, b % U16);
  }

  lemma SignedThenDigest(action: nat, kind: nat, txid: seq<byte>, attrs: seq<Attr>, digest: seq<byte>)
    requires |txid| == 12 && |digest| == DIGEST
    ensures Signed(action, kind, txid, attrs) + PutU16(MESSAGE_INTEGRITY) + PutU16(20) + digest
         == BuildSpec(action, kind, txid, attrs + [(MESSAGE_INTEGRITY, digest)])
  {
    hide PutU16, PutU32, MsgType, EncodeAttrs;
    var mi: Attr := (MESSAGE_INTEGRITY, digest);
    var body := EncodeAttrs(attrs);
    assert EncodeAttr(mi) == PutU16(MESSAGE_INTEGRITY) + PutU16(20) + digest;
    EncodeAttrsLast(attrs, mi);
    assert Signed(action, kind, txid, attrs)
        == PutU16(MsgType(action, kind)) + PutU16(|body| + 24) + PutU32(MAGIC_COOKIE) + txid + body;
  }

  /** The last 24 bytes of a signed message: type 0x0008, length 20, and the digest of all before. */
  lemma IntegrityLayout(action: nat, kind: nat, txid: seq<byte>, attrs: seq<Attr>, digest: seq<byte>)
    requires |txid| == 12 && |digest| == 20
    ensures BuildSpec(action, kind, txid, attrs + [(MESSAGE_INTEGRITY, digest)])
         == Signed(action, kind, txid, attrs) + [0x00, 0x08, 0x00, 0x14] + digest
  {
    SignedThenDigest(action, kind, txid, attrs, digest);
    Bytes16(8);
    Bytes16(20);
    hide Signed, BuildSpec, PutU16;
    var s := Signed(action, kind, txid, attrs);
    assert s + [0x00, 0x08] + [0x00, 0x14] == s + [0x00, 0x08, 0x00, 0x14];
  }

  lemma EncodeAttrsLast(attrs: seq<Attr>, a: Attr)
    ensures EncodeAttrs(attrs + [a]) == EncodeAttrs(attrs) + EncodeAttr(a)
  {}

  // ---------- finding and checking it ----------

  function MiFrom(packet: seq<byte>, off: nat, end: nat): (r: Option<nat>)
    ensures r.Some? ==> off <= r.value && r.value + 4 <= |packet|
    decreases |packet| - off
  {
    if off + 4 > end || off + 4 > |packet| then None
    else if Field(packet, off) == MESSAGE_INTEGRITY then Some(off)
    else
      var len := Field(packet, off + 2);
      MiFrom(packet, off + 4 + len + Pad(len), end)
  }

  function MiOffsetSpec(packet: seq<byte>): (r: Option<nat>)
    ensures r.Some? ==> HEADER <= r.value && r.value + 4 <= |packet|
  {
    if |packet| < 24 then None else MiFrom(packet, HEADER, HEADER + Field(packet, 2))
  }

  predicate VerifySpec(packet: seq<byte>, mac: seq<byte> -> seq<byte>) {
    match MiOffsetSpec(packet)
    case None => false
    case Some(off) =>
      && off + 24 <= |packet|
      && mac(Restamp(packet, off + 4)[..off]) == packet[off + 4..off + 24]
  }

  method MiOffset(packet: seq<byte>) returns (r: Option<nat>)
    ensures r == MiOffsetSpec(packet)
  {
    if |packet| < 24 {
      return None;
    }
    var n := Field(packet, 2);
    var off := 20;
    while off + 4 <= 20 + n && off + 4 <= |packet|
      invariant off >= HEADER
      invariant MiOffsetSpec(packet) == MiFrom(packet, off, HEADER + n)
      decreases |packet| - off
    {
      var t := Field(packet, off);
      var l := Field(packet, off + 2);
      if t == MESSAGE_INTEGRITY {
        return Some(off);
      }
      off := off + 4 + l + (4 - l % 4) % 4;
    }
    r := None;
  }

  method VerifyIntegrity(packet: seq<byte>, mac: seq<byte> -> seq<byte>) returns (ok: bool)
    ensures ok == VerifySpec(packet, mac)
  {
    var at := MiOffset(packet);
    if at.None? {
      return false;
    }
    var off := at.value;
    if off + 24 > |packet| {
      return false;
    }
    var expected := packet[off + 4..off + 24];
    var newLen := (off + 4) % U16;
    SameU16(newLen, off + 4);
    var b := packet[..2] + PutU16(newLen) + packet[4..];
    ok := mac(b[..off]) == expected;
  }

  /** The walk over attribute headers from `off` comes to one at `at`: each is whole within both the
      stated length and the packet, and those before it are not of the digest's type. */
  ghost predicate Comes(packet: seq<byte>, off: nat, end: nat, at: nat)
    decreases |packet| - off
  {
    && off + 4 <= end && off + 4 <= |packet|
    && (at == off || (Word(packet, off) != 0x0008
                      && Comes(packet, off + 4 + (Word(packet, off + 2) + 3) / 4 * 4, end, at)))
  }

  /** The search finds the first header of the digest's type the walk comes to. */
  lemma {:induction false} MiMeans(packet: seq<byte>, off: nat, end: nat, at: nat)
    ensures MiFrom(packet, off, end) == Some(at) <==>
      at + 4 <= |packet| && Comes(packet, off, end, at) && Word(packet, at) == 0x0008
    decreases |packet| - off
  {
    if off + 4 <= end && off + 4 <= |packet| {
      FieldIs(packet, off);
      FieldIs(packet, off + 2);
      Padded(Word(packet, off + 2));
      hide Field, Word, Pad;
      MiMeans(packet, off + 4 + (Word(packet, off + 2) + 3) / 4 * 4, end, at);
      ComesLater(packet, off + 4 + (Word(packet, off + 2) + 3) / 4 * 4, end, at);
    }
  }

  lemma {:induction false} ComesLater(packet: seq<byte>, off: nat, end: nat, at: nat)
    ensures Comes(packet, off, end, at) ==> off <= at && at + 4 <= |packet|
    decreases |packet| - off
  {
    hide Word;
    if Comes(packet, off, end, at) && at != off {
      ComesLater(packet, off + 4 + (Word(packet, off + 2) + 3) / 4 * 4, end, at);
    }
  }

  // ---------- the guarantee ----------

  predicate Unsigned(attrs: seq<Attr>) {
    forall i | 0 <= i < |attrs| :: attrs[i].0 != MESSAGE_INTEGRITY
  }

  /** The search skips every whole attribute of another type. */
  lemma {:induction false} MiAfter(buf: seq<byte>, off: nat, end: nat, attrs: seq<Attr>, rest: seq<byte>)
    requires off <= end <= |buf| && end - off < U16
    requires buf[off..end] == EncodeAttrs(attrs) + rest
    requires TypesFit(attrs) && Unsigned(attrs)
    ensures MiFrom(buf, off, end) == MiFrom(buf, off + |EncodeAttrs(attrs)|, end)
    decreases |attrs|
  {
    hide *;
    if attrs == [] {
      NoAttrs();
    } else {
      var (a, tail) := (attrs[0], attrs[1..]);
      FirstAttr(attrs);
      EncodeAttrsCons(a, tail);
      assert EncodeAttr(a) + EncodeAttrs(tail) + rest == EncodeAttr(a) + (EncodeAttrs(tail) + rest);
      MiSkip(buf, off, end, a, EncodeAttrs(tail) + rest);
      MiAfter(buf, off + |EncodeAttr(a)|, end, tail, rest);
    }
  }

  lemma NoAttrs()
    ensures |EncodeAttrs([])| == 0
  {}

  lemma FirstAttr(attrs: seq<Attr>)
    requires TypesFit(attrs) && Unsigned(attrs) && attrs != []
    ensures attrs == [attrs[0]] + attrs[1..] && TypesFit(attrs[1..]) && Unsigned(attrs[1..])
    ensures attrs[0].0 < U16 && attrs[0].0 != MESSAGE_INTEGRITY
  {}

  lemma MiSkip(buf: seq<byte>, off: nat, end: nat, a: Attr, rest: seq<byte>)
    requires off <= end <= |buf| && end - off < U16 && buf[off..end] == EncodeAttr(a) + rest
    requires a.0 < U16 && a.0 != MESSAGE_INTEGRITY
    ensures off + |EncodeAttr(a)| <= end && buf[off + |EncodeAttr(a)|..end] == rest
    ensures MiFrom(buf, off, end) == MiFrom(buf, off + |EncodeAttr(a)|, end)
  {
    hide EncodeAttr, MiFrom, Field, PutU16;
    AttrFields(buf, off, end, a, rest);
    FieldsRead(buf, off, a);
    MiStep(buf, off, end, a);
  }

  lemma MiStep(buf: seq<byte>, off: nat, end: nat, a: Attr)
    requires off + |EncodeAttr(a)| <= end <= |buf|
    requires Field(buf, off) == a.0 != MESSAGE_INTEGRITY && Field(buf, off + 2) == |a.1|
    ensures MiFrom(buf, off, end) == MiFrom(buf, off + |EncodeAttr(a)|, end)
  {}

  /** The whole body, around the first digest. */
  lemma BodyAround(before: seq<Attr>, mi: Attr, after: seq<Attr>)
    ensures EncodeAttrs(before + [mi] + after) == EncodeAttrs(before) + (EncodeAttr(mi) + EncodeAttrs(after))
  {
    hide EncodeAttrs, EncodeAttr;
    assert before + [mi] + after == before + ([mi] + after);
    EncodeAttrsAppend(before, [mi] + after);
    EncodeAttrsCons(mi, after);
  }

  lemma BuiltLength(action: nat, kind: nat, txid: seq<byte>, attrs: seq<Attr>, extra: seq<byte>)
    requires |txid| == 12 && |EncodeAttrs(attrs)| < U16
    ensures var packet := BuildSpec(action, kind, txid, attrs) + extra;
      var end := HEADER + |EncodeAttrs(attrs)|;
      && end <= |packet| && Field(packet, 2) == |EncodeAttrs(attrs)|
      && packet[HEADER..end] == EncodeAttrs(attrs)
  {
    hide BuildSpec, EncodeAttrs, ParseSpec, ParseAttrs, Field, MsgType, GetU32, DecodeMethod, DecodeClass;
    BuiltFields(action, kind, txid, attrs);
    BuiltPrefix(action, kind, txid, attrs, extra);
    var b := BuildSpec(action, kind, txid, attrs);
    PrefixSlice(b, extra, 2, 4);
    FieldsAgree(b + extra, b, 2);
  }

  lemma TailSlice(s: seq<byte>, lo: nat, hi: nat, x: seq<byte>, y: seq<byte>)
    requires lo <= hi <= |s| && s[lo..hi] == x + y
    ensures lo + |x| <= hi && s[lo + |x|..hi] == y && s[lo..lo + |x|] == x
  {
    assert |s[lo..hi]| == |x| + |y|;
    SliceOfSlice(s, lo, hi, 0, |x|);
    SliceOfSlice(s, lo, hi, |x|, |x| + |y|);
  }

  lemma FirstDigest(action: nat, kind: nat, txid: seq<byte>, before: seq<Attr>, value: seq<byte>,
                    after: seq<Attr>, extra: seq<byte>)
    requires |txid| == 12 && TypesFit(before) && Unsigned(before)
    requires |EncodeAttrs(before + [(MESSAGE_INTEGRITY, value)] + after)| < U16
    ensures var packet := BuildSpec(action, kind, txid, before + [(MESSAGE_INTEGRITY, value)] + after) + extra;
      var off := HEADER + |EncodeAttrs(before)|;
      && MiOffsetSpec(packet) == Some(off)
      && packet[off..] == EncodeAttr((MESSAGE_INTEGRITY, value)) + EncodeAttrs(after) + extra
  {
    hide BuildSpec, EncodeAttrs, EncodeAttr, Field, PutU16, GetU16, MiFrom, TypesFit, Unsigned;
    var mi: Attr := (MESSAGE_INTEGRITY, value);
    var all := before + [mi] + after;
    var packet := BuildSpec(action, kind, txid, all) + extra;
    var rest := EncodeAttr(mi) + EncodeAttrs(after);
    var end := HEADER + |EncodeAttrs(all)|;
    var off := HEADER + |EncodeAttrs(before)|;
    BodyAround(before, mi, after);
    BuiltLength(action, kind, txid, all, extra);
    MiAfter(packet, HEADER, end, before, rest);
    TailSlice(packet, HEADER, end, EncodeAttrs(before), rest);
    SizeOfBuilt(action, kind, txid, all);
    TailAndExtra(BuildSpec(action, kind, txid, all), extra, off, rest);
    AttrFields(packet, off, end, mi, EncodeAttrs(after));
    FieldsRead(packet, off, mi);
    MiHere(packet, off, end);
  }

  lemma SizeOfBuilt(action: nat, kind: nat, txid: seq<byte>, attrs: seq<Attr>)
    requires |txid| == 12
    ensures |BuildSpec(action, kind, txid, attrs)| == HEADER + |EncodeAttrs(attrs)|
  {
    hide EncodeAttrs, MsgType;
  }

  lemma TailAndExtra(b: seq<byte>, extra: seq<byte>, off: nat, rest: seq<byte>)
    requires off <= |b| && (b + extra)[off..|b|] == rest
    ensures (b + extra)[off..] == rest + extra
  {}

  lemma MiHere(packet: seq<byte>, off: nat, end: nat)
    requires off + 4 <= end <= |packet| && Field(packet, off) == MESSAGE_INTEGRITY
    ensures MiFrom(packet, off, end) == Some(off)
  {}

  /** What is digested when checking is what was digested when building. */
  lemma SignedPart(action: nat, kind: nat, txid: seq<byte>, before: seq<Attr>, mi: Attr,
                   after: seq<Attr>, extra: seq<byte>)
    requires |txid| == 12
    ensures var packet := BuildSpec(action, kind, txid, before + [mi] + after) + extra;
      var off := HEADER + |EncodeAttrs(before)|;
      && off <= |packet|
      && Restamp(packet, off + 4)[..off] == Signed(action, kind, txid, before)
  {
    hide PutU16, PutU32, MsgType, EncodeAttrs, EncodeAttr;
    BodyAround(before, mi, after);
    var packet := BuildSpec(action, kind, txid, before + [mi] + after) + extra;
    var body := EncodeAttrs(before);
    var off := HEADER + |body|;
    var fixed := PutU32(MAGIC_COOKIE) + txid + body;
    assert packet[..2] == PutU16(MsgType(action, kind));
    assert packet[4..off] == fixed by {
      assert packet == PutU16(MsgType(action, kind)) + PutU16(|EncodeAttrs(before + [mi] + after)|)
        + (fixed + (EncodeAttr(mi) + EncodeAttrs(after) + extra));
    }
    assert Restamp(packet, off + 4)[..off] == packet[..2] + PutU16(off + 4) + packet[4..off];
    assert Signed(action, kind, txid, before) == PutU16(MsgType(action, kind)) + PutU16(|body| + 24) + fixed;
  }

  /** The bytes a check compares with the digest: the 20 behind the attribute's header,
      whatever length the header states, as far as the packet goes. */
  function Compared(value: seq<byte>, follow: seq<byte>): (r: seq<byte>) {
    var b := EncodeAttr((MESSAGE_INTEGRITY, value)) + follow;
    if |b| < 24 then b[4..] else b[4..24]
  }

  /** The first attribute of the digest's type is the one that is checked, whatever its length
      and whatever follows it. Accepted is exactly a message in which the 20 bytes behind that
      attribute's header are the digest of all that precedes it. */
  lemma VerifyMeans(action: nat, kind: nat, txid: seq<byte>, before: seq<Attr>, value: seq<byte>,
                    after: seq<Attr>, extra: seq<byte>, mac: seq<byte> -> seq<byte>)
    requires |txid| == 12 && TypesFit(before) && Unsigned(before) && IsMac(mac)
    requires |EncodeAttrs(before + [(MESSAGE_INTEGRITY, value)] + after)| < U16
    ensures VerifySpec(BuildSpec(action, kind, txid, before + [(MESSAGE_INTEGRITY, value)] + after) + extra, mac)
      <==> Compared(value, EncodeAttrs(after) + extra) == mac(Signed(action, kind, txid, before))
  {
    hide BuildSpec, EncodeAttrs, EncodeAttr, VerifySpec, Signed, Restamp, TypesFit, Unsigned, MiOffsetSpec;
    var mi: Attr := (MESSAGE_INTEGRITY, value);
    var all := before + [mi] + after;
    var packet := BuildSpec(action, kind, txid, all) + extra;
    var off := HEADER + |EncodeAttrs(before)|;
    FirstDigest(action, kind, txid, before, value, after, extra);
    SignedPart(action, kind, txid, before, mi, after, extra);
    VerifyAt(packet, off, mac);
    var b := packet[off..];
    assert b == EncodeAttr(mi) + (EncodeAttrs(after) + extra);
    if off + 24 <= |packet| {
      SliceOfTail(packet, off);
    }
  }

  lemma SliceOfTail(packet: seq<byte>, off: nat)
    requires off + 24 <= |packet|
    ensures |packet[off..]| >= 24 && packet[off..][4..24] == packet[off + 4..off + 24]
  {}

  /** A value of 20 bytes or more is compared by its first 20, a shorter one with its padding
      and the attributes behind it. */
  lemma ComparedIs(value: seq<byte>, follow: seq<byte>)
    ensures |value| >= DIGEST ==> Compared(value, follow) == value[..DIGEST]
    ensures |value| < DIGEST ==>
      var b := value + Zeros(Pad(|value|)) + follow;
      Compared(value, follow) == if |b| < DIGEST then b else b[..DIGEST]
  {
    var head := PutU16(MESSAGE_INTEGRITY) + PutU16(|value|);
    var b := value + Zeros(Pad(|value|)) + follow;
    assert EncodeAttr((MESSAGE_INTEGRITY, value)) + follow == head + b;
    hide *;
    BehindHead(head, b);
    if |value| >= DIGEST {
      assert b[..DIGEST] == value[..DIGEST];
    }
  }

  lemma BehindHead(head: seq<byte>, b: seq<byte>)
    requires |head| == 4
    ensures (head + b)[4..] == b
    ensures |b| >= DIGEST ==> (head + b)[4..24] == b[..DIGEST]
  {}

  lemma DigestSize(mac: seq<byte> -> seq<byte>, m: seq<byte>)
    requires IsMac(mac)
    ensures |mac(m)| == DIGEST && |EncodeAttr((MESSAGE_INTEGRITY, mac(m)))| == 24
  {}

  /** Every message built with integrity is accepted under its key, unless an attribute
      given to it already had the digest's type or the padded body outgrew 16 bits. */
  lemma BuiltVerifies(action: nat, kind: nat, txid: seq<byte>, attrs: seq<Attr>, extra: seq<byte>,
                      mac: seq<byte> -> seq<byte>)
    requires |txid| == 12 && TypesFit(attrs) && Unsigned(attrs) && IsMac(mac)
    requires |EncodeAttrs(attrs)| + 24 < U16
    ensures VerifySpec(BuildSpec(action, kind, txid,
              attrs + [(MESSAGE_INTEGRITY, mac(Signed(action, kind, txid, attrs)))]) + extra, mac)
  {
    hide *;
    var digest := mac(Signed(action, kind, txid, attrs));
    var mi: Attr := (MESSAGE_INTEGRITY, digest);
    DigestSize(mac, Signed(action, kind, txid, attrs));
    EncodeAttrsLast(attrs, mi);
    assert attrs + [mi] + [] == attrs + [mi];
    VerifyMeans(action, kind, txid, attrs, digest, [], extra, mac);
    ComparedIs(digest, EncodeAttrs([]) + extra);
    assert digest[..DIGEST] == digest;
  }

  /** An earlier attribute of the digest's type is taken for the digest: the message built is
      then accepted exactly when the 20 bytes found there are the digest of what precedes it. */
  lemma EarlierDigestDecides(action: nat, kind: nat, txid: seq<byte>, before: seq<Attr>, value: seq<byte>,
                             after: seq<Attr>, mac: seq<byte> -> seq<byte>)
    requires |txid| == 12 && TypesFit(before) && Unsigned(before) && IsMac(mac)
    requires var attrs := before + [(MESSAGE_INTEGRITY, value)] + after;
      |EncodeAttrs(attrs)| + 24 < U16
    ensures var attrs := before + [(MESSAGE_INTEGRITY, value)] + after;
      var mi: Attr := (MESSAGE_INTEGRITY, mac(Signed(action, kind, txid, attrs)));
      VerifySpec(BuildSpec(action, kind, txid, attrs + [mi]), mac)
      <==> Compared(value, EncodeAttrs(after + [mi])) == mac(Signed(action, kind, txid, before))
  {
    var early: Attr := (MESSAGE_INTEGRITY, value);
    var attrs := before + [early] + after;
    hide *;
    var mi: Attr := (MESSAGE_INTEGRITY, mac(Signed(action, kind, txid, attrs)));
    DigestSize(mac, Signed(action, kind, txid, attrs));
    EncodeAttrsLast(attrs, mi);
    assert attrs + [mi] == before + [early] + (after + [mi]);
    VerifyMeans(action, kind, txid, before, value, after + [mi], [], mac);
    assert EncodeAttrs(after + [mi]) + [] == EncodeAttrs(after + [mi]);
    assert BuildSpec(action, kind, txid, attrs + [mi]) + [] == BuildSpec(action, kind, txid, attrs + [mi]);
  }

  /** So an attribute that is longer than a digest, and hence is none, passes for one. */
  lemma LongerPasses(action: nat, kind: nat, txid: seq<byte>, before: seq<Attr>, tail: seq<byte>,
                     extra: seq<byte>, mac: seq<byte> -> seq<byte>)
    requires |txid| == 12 && TypesFit(before) && Unsigned(before) && IsMac(mac) && tail != []
    requires var value := mac(Signed(action, kind, txid, before)) + tail;
      |EncodeAttrs(before + [(MESSAGE_INTEGRITY, value)])| < U16
    ensures var digest := mac(Signed(action, kind, txid, before));
      && digest + tail != digest
      && VerifySpec(BuildSpec(action, kind, txid, before + [(MESSAGE_INTEGRITY, digest + tail)]) + extra, mac)
  {
    var digest := mac(Signed(action, kind, txid, before));
    var value := digest + tail;
    hide *;
    DigestSize(mac, Signed(action, kind, txid, before));
    assert before + [(MESSAGE_INTEGRITY, value)] + [] == before + [(MESSAGE_INTEGRITY, value)];
    VerifyMeans(action, kind, txid, before, value, [], extra, mac);
    ComparedIs(value, EncodeAttrs([]) + extra);
    assert value[..DIGEST] == digest;
    assert |value| > |digest|;
  }

  lemma VerifyAt(packet: seq<byte>, off: nat, mac: seq<byte> -> seq<byte>)
    requires MiOffsetSpec(packet) == Some(off)
    ensures VerifySpec(packet, mac) <==> off + 24 <= |packet| && mac(Restamp(packet, off + 4)[..off]) == packet[off + 4..off + 24]
  {}
}
