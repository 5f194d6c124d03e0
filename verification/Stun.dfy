/** STUN messages: the packed type and the padded attributes. Shifts and masks of fields that
    do not overlap are written as division, remainder and addition. */
module Stun {
  import opened Bytes

  const MAGIC_COOKIE: nat := 0x2112_A442
  const HEADER: nat := 20
  const MESSAGE_INTEGRITY: nat := 0x0008
  const DIGEST: nat := 20

  type Attr = (nat, seq<byte>)

  datatype Message = Message(action: nat, kind: nat, txid: seq<byte>, attrs: seq<Attr>)

  // ---------- the message type ----------

  /** `(m & 0x0F) | ((m & 0x70) << 1) | ((c & 1) << 4) | ((c & 2) << 7)` */
  function MsgType(action: nat, kind: nat): nat {
    action % 0x10 + action / 0x10 % 8 * 0x20 + kind % 2 * 0x10 + kind / 2 % 2 * 0x100
  }

  /** `((t >> 4) & 1) | ((t >> 7) & 2)` */
  function DecodeClass(t: nat): nat {
    t / 0x10 % 2 + t / 0x100 % 2 * 2
  }

  /** `(t & 0x0F) | ((t >> 1) & 0x70)` */
  function DecodeMethod(t: nat): nat {
    t % 0x10 + t / 0x20 % 8 * 0x10
  }

  /** The type keeps exactly the low 7 bits of the method and the low 2 of the class. */
  lemma TypeKeepsLowBits(action: nat, kind: nat)
    ensures var t := MsgType(action, kind);
      t < 0x200 && DecodeMethod(t) == action % 128 && DecodeClass(t) == kind % 4
  {
    hide DecodeMethod, DecodeClass;
    Unpacked(action % 0x10, action / 0x10 % 8, kind % 2, kind / 2 % 2);
    SevenBits(action);
    TwoBits(kind);
  }

  /** The types of Binding, Allocate and Send messages of each class, as section 6 of RFC 5389
      lays them out. */
  lemma KnownTypes()
    ensures MsgType(0x001, 0) == 0x0001 && MsgType(0x001, 2) == 0x0101 && MsgType(0x001, 3) == 0x0111
    ensures MsgType(0x003, 0) == 0x0003 && MsgType(0x003, 2) == 0x0103 && MsgType(0x003, 3) == 0x0113
    ensures MsgType(0x006, 1) == 0x0016 && MsgType(0x007, 1) == 0x0017 && MsgType(0x7f, 3) == 0x01ff
  {}

  lemma SevenBits(n: nat)
    ensures n % 128 == n % 0x10 + n / 0x10 % 8 * 0x10
  {}

  lemma TwoBits(n: nat)
    ensures n % 4 == n % 2 + n / 2 % 2 * 2
  {}

  lemma Unpacked(m0: nat, m1: nat, c0: nat, c1: nat)
    requires m0 < 0x10 && m1 < 8 && c0 < 2 && c1 < 2
    ensures var t := m0 + m1 * 0x20 + c0 * 0x10 + c1 * 0x100;
      t < 0x200 && DecodeMethod(t) == m0 + m1 * 0x10 && DecodeClass(t) == c0 + c1 * 2
  {
    var t := m0 + m1 * 0x20 + c0 * 0x10 + c1 * 0x100;
    assert t / 0x10 == c0 + 2 * m1 + 0x10 * c1;
    assert t / 0x20 == m1 + 8 * c1 by { assert t / 0x20 == t / 0x10 / 2; }
    assert t / 0x100 == c1 by { assert t / 0x100 == t / 0x20 / 8; }
  }

  // ---------- attributes ----------

  function Pad(n: nat): (p: nat)
    ensures p < 4 && (n + p) % 4 == 0
  {
    (4 - n % 4) % 4
  }

  function Zeros(n: nat): (z: seq<byte>)
    ensures |z| == n
  {
    seq(n, _ => 0)
  }

  function EncodeAttr(a: Attr): (b: seq<byte>)
    ensures |b| == 4 + |a.1| + Pad(|a.1|)
  {
    PutU16(a.0) + PutU16(|a.1|) + a.1 + Zeros(Pad(|a.1|))
  }

  function EncodeAttrs(attrs: seq<Attr>): seq<byte> {
    if attrs == [] then [] else EncodeAttrs(attrs[..|attrs| - 1]) + EncodeAttr(attrs[|attrs| - 1])
  }

  function BuildSpec(action: nat, kind: nat, txid: seq<byte>, attrs: seq<Attr>): seq<byte> {
    var body := EncodeAttrs(attrs);
    PutU16(MsgType(action, kind)) + PutU16(|body|) + PutU32(MAGIC_COOKIE) + txid + body
  }

  /** The layout of a message, byte by byte: type, length of the body, magic cookie and transaction
      id, then the body. */
  lemma MessageLayout(action: nat, kind: nat, txid: seq<byte>, attrs: seq<Attr>)
    requires |EncodeAttrs(attrs)| < 0x1_0000
    ensures MsgType(action, kind) < 0x200
    ensures var (t, n) := (MsgType(action, kind), |EncodeAttrs(attrs)|);
      BuildSpec(action, kind, txid, attrs)
        == [t / 0x100, t % 0x100, n / 0x100, n % 0x100, 0x21, 0x12, 0xa4, 0x42] + txid + EncodeAttrs(attrs)
  {
    TypeKeepsLowBits(action, kind);
    Bytes16(MsgType(action, kind));
    Bytes16(|EncodeAttrs(attrs)|);
    Bytes32(0x2112_a442);
    hide MsgType, EncodeAttrs, PutU16, PutU32;
  }

  /** The layout of an attribute: type, length of the value, and the value filled up with zeros to
      a multiple of four. */
  lemma AttrLayout(a: Attr)
    requires a.0 < 0x1_0000 && |a.1| < 0x1_0000
    ensures var b := EncodeAttr(a);
      && |b| % 4 == 0 && |b| < |a.1| + 8
      && b[..4 + |a.1|] == [a.0 / 0x100, a.0 % 0x100, |a.1| / 0x100, |a.1| % 0x100] + a.1
      && forall i | 4 + |a.1| <= i < |b| :: b[i] == 0
  {
    Bytes16(a.0);
    Bytes16(|a.1|);
    hide PutU16;
  }

  method Build(action: nat, kind: nat, txid: seq<byte>, attrs: seq<Attr>) returns (out: seq<byte>)
    ensures out == BuildSpec(action, kind, txid, attrs)
  {
    var body: seq<byte> := [];
    for i := 0 to |attrs|
      invariant body == EncodeAttrs(attrs[..i])
    {
      var v := attrs[i].1;
      body := body + (PutU16(attrs[i].0) + PutU16(|v|) + v + Zeros((4 - |v| % 4) % 4));
      assert attrs[..i + 1][..i] == attrs[..i];
    }
    assert attrs[..|attrs|] == attrs;
    out := PutU16(MsgType(action, kind)) + PutU16(|body|) + PutU32(MAGIC_COOKIE) + txid + body;
  }

  function Field(buf: seq<byte>, off: nat): nat
    requires off + 2 <= |buf|
  {
    GetU16(buf[off..off + 2])
  }

  /** The attributes between `off` and `end`; none when one overruns. */
  function ParseAttrs(buf: seq<byte>, off: nat, end: nat): Option<seq<Attr>>
    requires end <= |buf|
    decreases end - off
  {
    if off + 4 > end then Some([])
    else
      var len := Field(buf, off + 2);
      var start := off + 4;
      if start + len > end then None
      else
        match ParseAttrs(buf, start + len + Pad(len), end)
        case None => None
        case Some(rest) => Some([(Field(buf, off), buf[start..start + len])] + rest)
  }

  function ParseSpec(buf: seq<byte>): (r: Option<Message>)
    ensures r.Some? ==> |r.value.txid| == 12
  {
    if |buf| < HEADER || GetU32(buf[4..8]) != MAGIC_COOKIE then None
    else
      var len := Field(buf, 2);
      if |buf| < HEADER + len then None
      else
        match ParseAttrs(buf, HEADER, HEADER + len)
        case None => None
        case Some(attrs) =>
          var t := Field(buf, 0);
          Some(Message(DecodeMethod(t), DecodeClass(t), buf[8..20], attrs))
  }

  method Parse(buf: seq<byte>) returns (r: Option<Message>)
    ensures r == ParseSpec(buf)
  {
    hide GetU16, GetU32, DecodeMethod, DecodeClass;
    if |buf| < HEADER || GetU32(buf[4..8]) != MAGIC_COOKIE {
      return None;
    }
    var t := Field(buf, 0);
    var len := Field(buf, 2);
    if |buf| < HEADER + len {
      return None;
    }
    var attrs: seq<Attr> := [];
    var off, end := HEADER, HEADER + len;
    ghost var goal := ParseAttrs(buf, off, end);
    assert goal.Some? ==> [] + goal.value == goal.value;
    while off + 4 <= end
      invariant ParseAttrs(buf, off, end).None? ==> goal.None?
      invariant ParseAttrs(buf, off, end).Some? ==> goal == Some(attrs + ParseAttrs(buf, off, end).value)
      decreases end - off
    {
      var alen := Field(buf, off + 2);
      var start := off + 4;
      if start + alen > end {
        return None;
      }
      var a: Attr := (Field(buf, off), buf[start..start + alen]);
      off := start + alen + (4 - alen % 4) % 4;
      ghost var rest := ParseAttrs(buf, off, end);
      assert rest.Some? ==> attrs + ([a] + rest.value) == attrs + [a] + rest.value;
      attrs := attrs + [a];
    }
    assert attrs + [] == attrs;
    r := Some(Message(DecodeMethod(t), DecodeClass(t), buf[8..20], attrs));
  }

  // ---------- what parses ----------

  /** The class is bits 4 and 8 of the type, the method the rest of its low nine, as section 6 of
      RFC 5389 lays them out; whatever is above is not looked at. */
  lemma TypeBits(t: nat)
    ensures DecodeClass(t) < 4 && DecodeClass(t) % 2 == t / 16 % 2 && DecodeClass(t) / 2 == t / 256 % 2
    ensures DecodeMethod(t) < 128 && DecodeMethod(t) % 16 == t % 16 && DecodeMethod(t) / 16 == t / 32 % 8
  {}

  /** Two bytes, the high one first. */
  function Word(buf: seq<byte>, off: nat): nat
    requires off + 2 <= |buf|
  {
    var hi: int, lo: int := buf[off], buf[off + 1];
    hi * 256 + lo
  }

  lemma FieldIs(buf: seq<byte>, off: nat)
    requires off + 2 <= |buf|
    ensures Field(buf, off) == Word(buf, off)
  {}

  /** The attributes laid out from `off` on: type, length and value, filled up to a multiple of
      four, until fewer than four bytes are left. */
  predicate Laid(buf: seq<byte>, off: nat, end: nat, attrs: seq<Attr>)
    requires end <= |buf|
    decreases |attrs|
  {
    if attrs == [] then off + 4 > end
    else
      && off + 4 <= end && attrs[0].0 == Word(buf, off)
      && var len := Word(buf, off + 2);
         && off + 4 + len <= end && attrs[0].1 == buf[off + 4..off + 4 + len]
         && Laid(buf, off + 4 + (len + 3) / 4 * 4, end, attrs[1..])
  }

  lemma {:induction false} ParseAttrsIs(buf: seq<byte>, off: nat, end: nat, attrs: seq<Attr>)
    requires end <= |buf|
    ensures ParseAttrs(buf, off, end) == Some(attrs) <==> Laid(buf, off, end, attrs)
    decreases end - off
  {
    hide *;
    OneAttr(buf, off, end);
    LaidStep(buf, off, end, attrs);
    if off + 4 <= end && off + 4 + Word(buf, off + 2) <= end {
      var (len, next) := (Word(buf, off + 2), off + 4 + (Word(buf, off + 2) + 3) / 4 * 4);
      if attrs != [] {
        ParseAttrsIs(buf, next, end, attrs[1..]);
      }
      ConsIs((Word(buf, off), buf[off + 4..off + 4 + len]), ParseAttrs(buf, next, end), attrs);
    }
  }

  lemma ConsIs(a: Attr, rest: Option<seq<Attr>>, attrs: seq<Attr>)
    ensures (if rest.None? then None else Some([a] + rest.value)) == Some(attrs)
      <==> attrs != [] && attrs[0] == a && rest == Some(attrs[1..])
  {
    if attrs != [] {
      assert [attrs[0]] + attrs[1..] == attrs;
    }
    if rest.Some? {
      assert ([a] + rest.value)[1..] == rest.value;
    }
  }

  lemma OneAttr(buf: seq<byte>, off: nat, end: nat)
    requires end <= |buf|
    ensures off + 4 > end ==> ParseAttrs(buf, off, end) == Some([])
    ensures off + 4 <= end ==>
      var len := Word(buf, off + 2);
      if off + 4 + len > end then ParseAttrs(buf, off, end) == None
      else
        var rest := ParseAttrs(buf, off + 4 + (len + 3) / 4 * 4, end);
        ParseAttrs(buf, off, end)
          == if rest.None? then None else Some([(Word(buf, off), buf[off + 4..off + 4 + len])] + rest.value)
  {
    if off + 4 <= end {
      FieldIs(buf, off);
      FieldIs(buf, off + 2);
      Padded(Word(buf, off + 2));
    }
    hide Field, Word, Pad;
  }

  lemma LaidStep(buf: seq<byte>, off: nat, end: nat, attrs: seq<Attr>)
    requires end <= |buf|
    ensures attrs == [] ==> (Laid(buf, off, end, attrs) <==> off + 4 > end)
    ensures attrs != [] ==>
      (Laid(buf, off, end, attrs) <==>
         && off + 4 <= end && attrs[0].0 == Word(buf, off)
         && var len := Word(buf, off + 2);
            && off + 4 + len <= end && attrs[0].1 == buf[off + 4..off + 4 + len]
            && Laid(buf, off + 4 + (len + 3) / 4 * 4, end, attrs[1..]))
  {
    hide Word;
  }

  lemma Padded(len: nat)
    ensures len + Pad(len) == (len + 3) / 4 * 4
  {}

  /** Exactly the messages that parse, and as what: at least 20 bytes, the magic cookie, as many
      bytes as the length says, and attributes that stay within it. */
  lemma ParseMeans(buf: seq<byte>, m: Message)
    ensures ParseSpec(buf) == Some(m) <==>
      && |buf| >= 20 && buf[4..8] == [0x21, 0x12, 0xa4, 0x42]
      && var (t, len) := (Word(buf, 0), Word(buf, 2));
         && |buf| >= 20 + len
         && m.action == DecodeMethod(t) && m.kind == DecodeClass(t) && m.txid == buf[8..20]
         && Laid(buf, 20, 20 + len, m.attrs)
  {
    ParseSpecIs(buf);
    hide ParseSpec, DecodeMethod, DecodeClass, Word, Laid, ParseAttrs;
    if |buf| >= 20 && |buf| >= 20 + Word(buf, 2) {
      ParseAttrsIs(buf, 20, 20 + Word(buf, 2), m.attrs);
    }
  }

  lemma ParseSpecIs(buf: seq<byte>)
    ensures ParseSpec(buf)
         == if |buf| < 20 || buf[4..8] != [0x21, 0x12, 0xa4, 0x42] || |buf| < 20 + Word(buf, 2) then None
            else
              match ParseAttrs(buf, 20, 20 + Word(buf, 2))
              case None => None
              case Some(attrs) => Some(Message(DecodeMethod(Word(buf, 0)), DecodeClass(Word(buf, 0)), buf[8..20], attrs))
  {
    if |buf| >= 20 {
      CookieIs(buf[4..8]);
      FieldIs(buf, 0);
      FieldIs(buf, 2);
    }
    hide DecodeMethod, DecodeClass, GetU32, Field, Word, ParseAttrs;
  }

  lemma CookieIs(b: seq<byte>)
    requires |b| == 4
    ensures GetU32(b) == MAGIC_COOKIE <==> b == [0x21, 0x12, 0xa4, 0x42]
  {
    U32OfBytes(b);
    Bytes32(0x2112_a442);
    BytesOfU32(0x2112_a442);
    hide GetU32, PutU32;
  }

  // ---------- round trip ----------

  predicate TypesFit(attrs: seq<Attr>) {
    forall i | 0 <= i < |attrs| :: attrs[i].0 < U16
  }

  lemma {:induction false} EncodeAttrsAppend(a: seq<Attr>, b: seq<Attr>)
    ensures EncodeAttrs(a + b) == EncodeAttrs(a) + EncodeAttrs(b)
    decreases |b|
  {
    if b == [] {
      assert a + b == a;
    } else {
      var last := |b| - 1;
      EncodeAttrsAppend(a, b[..last]);
      assert (a + b)[..|a + b| - 1] == a + b[..last] && (a + b)[|a + b| - 1] == b[last];
      assert EncodeAttrs(a + b) == EncodeAttrs(a + b[..last]) + EncodeAttr(b[last]);
      assert EncodeAttrs(a) + EncodeAttrs(b[..last]) + EncodeAttr(b[last])
          == EncodeAttrs(a) + (EncodeAttrs(b[..last]) + EncodeAttr(b[last]));
    }
  }

  lemma EncodeAttrsCons(a: Attr, rest: seq<Attr>)
    ensures EncodeAttrs([a] + rest) == EncodeAttr(a) + EncodeAttrs(rest)
  {
    EncodeAttrsAppend([a], rest);
    assert [a][..0] == [];
  }

  lemma SliceOfSlice(s: seq<byte>, lo: nat, hi: nat, i: nat, j: nat)
    requires i <= j && lo + j <= hi <= |s|
    ensures s[lo..hi][i..j] == s[lo + i..lo + j]
  {
    var w := s[lo..hi];
    forall k | 0 <= k < j - i ensures w[i..j][k] == s[lo + i..lo + j][k] {
      assert w[i..j][k] == w[i + k] == s[lo + i + k];
    }
  }

  /** The three fields of an attribute, and what follows its padding. */
  lemma AttrFields(buf: seq<byte>, off: nat, end: nat, a: Attr, rest: seq<byte>)
    requires off <= end <= |buf| && buf[off..end] == EncodeAttr(a) + rest
    ensures off + |EncodeAttr(a)| <= end
    ensures buf[off..off + 2] == PutU16(a.0) && buf[off + 2..off + 4] == PutU16(|a.1|)
    ensures buf[off + 4..off + 4 + |a.1|] == a.1
    ensures buf[off + |EncodeAttr(a)|..end] == rest
  {
    var (e, n) := (EncodeAttr(a), |EncodeAttr(a)|);
    assert |buf[off..end]| == n + |rest|;
    assert buf[off..off + n] == buf[off..end][..n] == e;
    assert buf[off + n..end] == buf[off..end][n..] == rest;
    assert e[0..2] == PutU16(a.0) && e[2..4] == PutU16(|a.1|) && e[4..4 + |a.1|] == a.1;
    SliceOfSlice(buf, off, off + n, 0, 2);
    SliceOfSlice(buf, off, off + n, 2, 4);
    SliceOfSlice(buf, off, off + n, 4, 4 + |a.1|);
  }

  lemma FieldsRead(buf: seq<byte>, off: nat, a: Attr)
    requires off + 4 <= |buf| && a.0 < U16 && |a.1| < U16
    requires buf[off..off + 2] == PutU16(a.0) && buf[off + 2..off + 4] == PutU16(|a.1|)
    ensures Field(buf, off) == a.0 && Field(buf, off + 2) == |a.1|
  {}

  lemma ParseStep(buf: seq<byte>, off: nat, end: nat, a: Attr, rest: seq<Attr>)
    requires off + |EncodeAttr(a)| <= end <= |buf|
    requires Field(buf, off) == a.0 && Field(buf, off + 2) == |a.1| && buf[off + 4..off + 4 + |a.1|] == a.1
    requires ParseAttrs(buf, off + |EncodeAttr(a)|, end) == Some(rest)
    ensures ParseAttrs(buf, off, end) == Some([a] + rest)
  {}

  /** Reading back the attributes written at `off`, whatever surrounds them. */
  lemma {:induction false} ParseEncodedAttrs(buf: seq<byte>, off: nat, end: nat, attrs: seq<Attr>)
    requires off <= end <= |buf| && buf[off..end] == EncodeAttrs(attrs)
    requires TypesFit(attrs) && end - off < U16
    ensures ParseAttrs(buf, off, end) == Some(attrs)
    decreases |attrs|
  {
    if attrs == [] {
      assert EncodeAttrs(attrs) == [];
      assert |buf[off..end]| == 0;
    } else {
      var (a, rest) := (attrs[0], attrs[1..]);
      assert attrs == [a] + rest && a.0 < U16 && TypesFit(rest);
      hide *;
      EncodeAttrsCons(a, rest);
      AttrFields(buf, off, end, a, EncodeAttrs(rest));
      FieldsRead(buf, off, a);
      ParseEncodedAttrs(buf, off + |EncodeAttr(a)|, end, rest);
      ParseStep(buf, off, end, a, rest);
    }
  }

  /** Parsed attributes cannot re-encode to more than was read, up to the last padding. */
  lemma {:induction false} ParsedAttrsAreShort(buf: seq<byte>, off: nat, end: nat)
    requires off <= end + 3 && end <= |buf| && ParseAttrs(buf, off, end).Some?
    ensures off + |EncodeAttrs(ParseAttrs(buf, off, end).value)| <= end + 3
    decreases end + 4 - off
  {
    if off + 4 <= end {
      var len := Field(buf, off + 2);
      var next := off + 4 + len + Pad(len);
      ParsedAttrsAreShort(buf, next, end);
      var a: Attr := (Field(buf, off), buf[off + 4..off + 4 + len]);
      EncodeAttrsCons(a, ParseAttrs(buf, next, end).value);
    }
  }

  lemma BuiltFields(action: nat, kind: nat, txid: seq<byte>, attrs: seq<Attr>)
    requires |txid| == 12
    ensures var b := BuildSpec(action, kind, txid, attrs);
      var body := EncodeAttrs(attrs);
      && |b| == HEADER + |body|
      && Field(b, 0) == MsgType(action, kind) && Field(b, 2) == |body| % U16
      && GetU32(b[4..8]) == MAGIC_COOKIE && b[8..20] == txid && b[HEADER..] == body
  {
    var b := BuildSpec(action, kind, txid, attrs);
    var body := EncodeAttrs(attrs);
    assert b[0..2] == PutU16(MsgType(action, kind)) && b[2..4] == PutU16(|body|);
    assert b[4..8] == PutU32(MAGIC_COOKIE);
    BytesOfU16(MsgType(action, kind));
    BytesOfU16(|body|);
    BytesOfU32(MAGIC_COOKIE);
    TypeKeepsLowBits(action, kind);
  }

  lemma HeaderParse(buf: seq<byte>, t: nat, len: nat, txid: seq<byte>)
    requires |buf| >= HEADER + len && GetU32(buf[4..8]) == MAGIC_COOKIE
    requires Field(buf, 0) == t && Field(buf, 2) == len && buf[8..20] == txid
    ensures ParseSpec(buf) ==
      match ParseAttrs(buf, HEADER, HEADER + len)
      case None => None
      case Some(parsed) => Some(Message(DecodeMethod(t), DecodeClass(t), txid, parsed))
  {}

  lemma PrefixSlice(b: seq<byte>, extra: seq<byte>, i: nat, j: nat)
    requires i <= j <= |b|
    ensures (b + extra)[i..j] == b[i..j]
  {}

  /** The header of a built message, trailing bytes or not. */
  lemma BuiltPrefix(action: nat, kind: nat, txid: seq<byte>, attrs: seq<Attr>, extra: seq<byte>)
    requires |txid| == 12
    ensures var buf := BuildSpec(action, kind, txid, attrs) + extra;
      var len := |EncodeAttrs(attrs)| % U16;
      && |buf| >= HEADER + |EncodeAttrs(attrs)| >= HEADER + len
      && buf[HEADER..HEADER + |EncodeAttrs(attrs)|] == EncodeAttrs(attrs)
      && ParseSpec(buf) ==
           match ParseAttrs(buf, HEADER, HEADER + len)
           case None => None
           case Some(parsed) => Some(Message(action % 128, kind % 4, txid, parsed))
  {
    hide BuildSpec, EncodeAttrs, ParseSpec, ParseAttrs, Field, MsgType, DecodeMethod, DecodeClass, GetU32;
    BuiltFields(action, kind, txid, attrs);
    TypeKeepsLowBits(action, kind);
    var b := BuildSpec(action, kind, txid, attrs);
    var len := |EncodeAttrs(attrs)| % U16;
    var buf := b + extra;
    PrefixSlice(b, extra, 0, 2);
    PrefixSlice(b, extra, 2, 4);
    PrefixSlice(b, extra, 4, 8);
    PrefixSlice(b, extra, 8, 20);
    PrefixSlice(b, extra, HEADER, |b|);
    assert b[HEADER..|b|] == b[HEADER..];
    FieldsAgree(buf, b, 0);
    FieldsAgree(buf, b, 2);
    HeaderParse(buf, MsgType(action, kind), len, txid);
  }

  lemma FieldsAgree(x: seq<byte>, y: seq<byte>, off: nat)
    requires off + 2 <= |x| && off + 2 <= |y| && x[off..off + 2] == y[off..off + 2]
    ensures Field(x, off) == Field(y, off)
  {}

  /** What was built parses back to itself exactly when the method has 7 bits, the class 2
      and the padded attributes fit the 16-bit length; trailing bytes are ignored. */
  lemma BuildParse(action: nat, kind: nat, txid: seq<byte>, attrs: seq<Attr>, extra: seq<byte>)
    requires |txid| == 12 && TypesFit(attrs)
    ensures ParseSpec(BuildSpec(action, kind, txid, attrs) + extra)
              == Some(Message(action, kind, txid, attrs))
            <==> action < 128 && kind < 4 && |EncodeAttrs(attrs)| < U16
  {
    hide ParseSpec, BuildSpec, ParseAttrs;
    var body := EncodeAttrs(attrs);
    var buf := BuildSpec(action, kind, txid, attrs) + extra;
    BuiltPrefix(action, kind, txid, attrs, extra);
    if |body| < U16 {
      ParseEncodedAttrs(buf, HEADER, HEADER + |body|, attrs);
    } else {
      var len := |body| % U16;
      assert len + U16 <= |body|;
      if ParseAttrs(buf, HEADER, HEADER + len).Some? {
        ParsedAttrsAreShort(buf, HEADER, HEADER + len);
      }
    }
  }
}
