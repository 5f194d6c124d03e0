/** The XOR-ed transport addresses of STUN and TURN. */
module StunAddress {
  import opened Bytes
  import opened Stun

  const V4_FAMILY: byte := 1
  const V6_FAMILY: byte := 2

  /** A socket address; the IPv6 form also has a flow label and a scope. */
  datatype SocketAddr =
    | V4(ip: nat, port: nat)
    | V6(octets: seq<byte>, port: nat, flow: nat, scope: nat)
  {
    predicate Valid() {
      port < U16 && if V4? then ip < U32 else |octets| == 16
    }
  }

  // ---------- exclusive or ----------

  function Pow2(n: nat): (p: nat)
    ensures p > 0
  {
    if n == 0 then 1 else 2 * Pow2(n - 1)
  }

  lemma Powers()
    ensures Pow2(8) == 0x100 && Pow2(16) == U16 && Pow2(32) == U32
  {
    assert Pow2(4) == 0x10 && Pow2(6) == 0x40 && Pow2(8) == 0x100;
    assert Pow2(10) == 0x400 && Pow2(12) == 0x1000 && Pow2(14) == 0x4000 && Pow2(16) == U16;
    assert Pow2(18) == 0x4_0000 && Pow2(20) == 0x10_0000 && Pow2(22) == 0x40_0000 && Pow2(24) == 0x100_0000;
    assert Pow2(26) == 0x400_0000 && Pow2(28) == 0x1000_0000 && Pow2(30) == 0x4000_0000;
  }

  /** Exclusive or of the low `bits` bits. */
  function Xor(a: nat, b: nat, bits: nat): (x: nat)
    ensures x < Pow2(bits)
  {
    if bits == 0 then 0 else Xor(a / 2, b / 2, bits - 1) * 2 + (a + b) % 2
  }

  lemma XorStep(a: nat, b: nat, bits: nat)
    requires bits > 0
    ensures Xor(a, b, bits) / 2 == Xor(a / 2, b / 2, bits - 1)
    ensures Xor(a, b, bits) % 2 == (a + b) % 2
  {}

  lemma {:induction false} XorBit(a: nat, b: nat, bits: nat, i: nat)
    requires i < bits
    ensures Xor(a, b, bits) / Pow2(i) % 2 == (a / Pow2(i) + b / Pow2(i)) % 2
  {
    hide Xor;
    XorStep(a, b, bits);
    var x := Xor(a, b, bits);
    if i == 0 {
      assert Pow2(i) == 1;
      assert x / Pow2(i) == x && a / Pow2(i) == a && b / Pow2(i) == b;
    } else {
      XorBit(a / 2, b / 2, bits - 1, i - 1);
      BitStep(x, a, b, Pow2(i - 1));
    }
  }

  lemma BitStep(x: nat, a: nat, b: nat, p: nat)
    requires p > 0 && x / 2 / p % 2 == (a / 2 / p + b / 2 / p) % 2
    ensures x / (2 * p) % 2 == (a / (2 * p) + b / (2 * p)) % 2
  {
    HalveTwice(a, p);
    HalveTwice(b, p);
    HalveTwice(x, p);
  }

  lemma HalveTwice(x: nat, p: nat)
    requires p > 0
    ensures x / (2 * p) == x / 2 / p
  {
    var q := x / 2 / p;
    var r := x / 2 - p * q;
    assert x == 2 * (p * q + r) + x % 2 == (2 * p) * q + (2 * r + x % 2);
    assert 0 <= 2 * r + x % 2 < 2 * p;
    QuotientIs(x, 2 * p, q, 2 * r + x % 2);
  }

  lemma QuotientIs(x: nat, d: nat, q: nat, r: nat)
    requires d > 0 && r < d && x == d * q + r
    ensures x / d == q
  {
    var e := x / d - q;
    assert d * e == r - x % d by { assert x == d * (x / d) + x % d; }
    MulBound(d, e);
  }

  lemma MulBound(d: int, e: int)
    requires d > 0
    ensures (e >= 1 ==> d * e >= d) && (e <= -1 ==> d * e <= -d)
  {}

  lemma Parity(x: nat, a: nat, b: nat)
    requires x % 2 == (a + b) % 2
    ensures (x + b) % 2 == a % 2
  {}

  lemma {:induction false} XorUndone(a: nat, b: nat, bits: nat)
    requires a < Pow2(bits)
    ensures Xor(Xor(a, b, bits), b, bits) == a
  {
    if bits > 0 {
      assert a / 2 < Pow2(bits - 1);
      XorUndone(a / 2, b / 2, bits - 1);
      hide Xor, Pow2;
      var x := Xor(a, b, bits);
      XorStep(a, b, bits);
      XorStep(x, b, bits);
      Parity(x, a, b);
    }
  }

  function XorBytes(a: seq<byte>, k: seq<byte>): (x: seq<byte>)
    requires |a| == |k|
    ensures |x| == |a|
  {
    Powers();
    seq(|a|, i requires 0 <= i < |a| => Xor(a[i], k[i], 8))
  }

  lemma XorBytesUndone(a: seq<byte>, k: seq<byte>)
    requires |a| == |k|
    ensures XorBytes(XorBytes(a, k), k) == a
  {
    Powers();
    forall i | 0 <= i < |a| ensures XorBytes(XorBytes(a, k), k)[i] == a[i] {
      XorUndone(a[i], k[i], 8);
    }
  }

  // ---------- the codec ----------

  function MaskPort(port: nat): (p: nat)
    ensures p < U16
  {
    Powers();
    Xor(port, MAGIC_COOKIE / U16, 16)
  }

  function MaskIp(ip: nat): (p: nat)
    ensures p < U32
  {
    Powers();
    Xor(ip, MAGIC_COOKIE, 32)
  }

  function Mask(txid: seq<byte>): (m: seq<byte>)
    ensures |m| == 4 + |txid|
  {
    PutU32(MAGIC_COOKIE) + txid
  }

  function EncodeSpec(a: SocketAddr, txid: seq<byte>): seq<byte>
    requires a.Valid() && |txid| == 12
  {
    match a
    case V4(ip, port) => [0, V4_FAMILY] + PutU16(MaskPort(port)) + PutU32(MaskIp(ip))
    case V6(octets, port, _, _) => [0, V6_FAMILY] + PutU16(MaskPort(port)) + XorBytes(octets, Mask(txid))
  }

  function DecodeSpec(v: seq<byte>, txid: seq<byte>): Option<SocketAddr>
    requires |txid| == 12
  {
    if |v| < 4 then None
    else
      var port := MaskPort(GetU16(v[2..4]));
      if v[1] == V4_FAMILY then
        if |v| < 8 then None else Some(V4(MaskIp(GetU32(v[4..8])), port))
      else if v[1] == V6_FAMILY then
        if |v| < 20 then None else Some(V6(XorBytes(v[4..20], Mask(txid)), port, 0, 0))
      else None
  }

  /** `*b ^= k` along two slices. */
  method XorEach(a: seq<byte>, k: seq<byte>) returns (x: seq<byte>)
    requires |a| == |k|
    ensures x == XorBytes(a, k)
  {
    x := [];
    for i := 0 to |a|
      invariant x == XorBytes(a, k)[..i]
    {
      Powers();
      x := x + [Xor(a[i], k[i], 8)];
    }
  }

  method Encode(a: SocketAddr, txid: seq<byte>) returns (v: seq<byte>)
    requires a.Valid() && |txid| == 12
    ensures v == EncodeSpec(a, txid)
  {
    v := [0];
    match a {
      case V4(ip, port) =>
        v := v + [V4_FAMILY] + PutU16(MaskPort(port)) + PutU32(MaskIp(ip));
        assert v == EncodeSpec(a, txid);
      case V6(octets, port, _, _) =>
        var ip := XorEach(octets, Mask(txid));
        v := v + [V6_FAMILY] + PutU16(MaskPort(port)) + ip;
        assert v == EncodeSpec(a, txid);
    }
  }

  method Decode(v: seq<byte>, txid: seq<byte>) returns (r: Option<SocketAddr>)
    requires |txid| == 12
    ensures r == DecodeSpec(v, txid)
  {
    if |v| < 4 {
      return None;
    }
    var port := MaskPort(GetU16(v[2..4]));
    if v[1] == V4_FAMILY {
      if |v| < 8 {
        return None;
      }
      r := Some(V4(MaskIp(GetU32(v[4..8])), port));
    } else if v[1] == V6_FAMILY {
      if |v| < 20 {
        return None;
      }
      var ip := XorEach(v[4..20], Mask(txid));
      r := Some(V6(ip, port, 0, 0));
    } else {
      r := None;
    }
  }

  // ---------- the layout ----------

  /** Section 15.2 of RFC 5389: the family, then the port and the address, each combined with
      the magic cookie, and with the transaction id behind it for IPv6, bit by bit. */
  lemma AddressLayout(ip: nat, octets: seq<byte>, port: nat, flow: nat, scope: nat, txid: seq<byte>)
    requires ip < U32 && |octets| == 16 && port < U16 && |txid| == 12
    ensures EncodeSpec(V4(ip, port), txid)
         == [0x00, 0x01] + PutU16(Xor(port, 0x2112, 16)) + PutU32(Xor(ip, 0x2112_a442, 32))
    ensures var mask := [0x21, 0x12, 0xa4, 0x42] + txid;
      var v := EncodeSpec(V6(octets, port, flow, scope), txid);
      && |v| == 20 && v[..4] == [0x00, 0x02] + PutU16(Xor(port, 0x2112, 16))
      && forall i | 0 <= i < 16 :: v[4 + i] == Xor(octets[i], mask[i], 8)
  {
    hide Xor;
    Bytes32(0x2112_a442);
    assert PutU32(MAGIC_COOKIE) == [0x21, 0x12, 0xa4, 0x42];
  }

  // ---------- round trips ----------

  /** The address without what the wire does not carry. */
  function Carried(a: SocketAddr): SocketAddr {
    match a
    case V4(_, _) => a
    case V6(octets, port, _, _) => V6(octets, port, 0, 0)
  }

  lemma PortKept(port: nat)
    requires port < U16
    ensures MaskPort(MaskPort(port)) == port
  {
    Powers();
    XorUndone(port, MAGIC_COOKIE / U16, 16);
  }

  lemma IpKept(ip: nat)
    requires ip < U32
    ensures MaskIp(MaskIp(ip)) == ip
  {
    Powers();
    XorUndone(ip, MAGIC_COOKIE, 32);
  }

  lemma PortReturns(port: nat)
    requires port < U16
    ensures MaskPort(GetU16(PutU16(MaskPort(port)))) == port
  {
    hide PutU16, GetU16, MaskPort;
    PortKept(port);
    BytesOfU16(MaskPort(port));
  }

  lemma IpReturns(ip: nat)
    requires ip < U32
    ensures MaskIp(GetU32(PutU32(MaskIp(ip)))) == ip
  {
    hide PutU32, GetU32, MaskIp;
    IpKept(ip);
    BytesOfU32(MaskIp(ip));
  }

  /** Whatever follows, an encoded address decodes under the same transaction id to itself;
      an IPv6 flow label or scope is lost. */
  lemma DecodeEncode(a: SocketAddr, txid: seq<byte>, extra: seq<byte>)
    requires a.Valid() && |txid| == 12
    ensures DecodeSpec(EncodeSpec(a, txid) + extra, txid) == Some(Carried(a))
  {
    hide PutU16, PutU32, GetU16, GetU32, MaskPort, MaskIp, Mask, XorBytes;
    var v := EncodeSpec(a, txid) + extra;
    PortReturns(a.port);
    assert v[2..4] == PutU16(MaskPort(a.port));
    match a {
      case V4(ip, port) =>
        IpReturns(ip);
        assert v[4..8] == PutU32(MaskIp(ip));
      case V6(octets, port, _, _) =>
        XorBytesUndone(octets, Mask(txid));
        assert v[4..20] == XorBytes(octets, Mask(txid));
    }
  }

  /** What decodes is an address, and re-encodes to the bytes read but for the reserved one. */
  lemma EncodeDecode(v: seq<byte>, txid: seq<byte>)
    requires |txid| == 12 && DecodeSpec(v, txid).Some?
    ensures var a := DecodeSpec(v, txid).value;
      && a.Valid() && Carried(a) == a
      && EncodeSpec(a, txid) == [0] + v[1..if a.V4? then 8 else 20]
  {
    hide PutU16, PutU32, GetU16, GetU32, XorBytes, MaskPort, MaskIp, Mask;
    PortKept(GetU16(v[2..4]));
    U16OfBytes(v[2..4]);
    var a := DecodeSpec(v, txid).value;
    if a.V4? {
      IpKept(GetU32(v[4..8]));
      U32OfBytes(v[4..8]);
      assert v[1..8] == [v[1]] + v[2..4] + v[4..8];
    } else {
      XorBytesUndone(v[4..20], Mask(txid));
      assert v[1..20] == [v[1]] + v[2..4] + v[4..20];
    }
  }
}
