/** IPv4 prefixes on 32-bit words: the three mask computations and overlap of subnets. */
module Cidr {

  type Ip = bv32

  type Prefix = bv8

  const ONES: Ip := 0xFFFF_FFFF

  type Subnet = (Ip, Prefix)

  function Up(x: Ip, k: bv8): Ip
    requires k <= 32
  {
    x << k
  }

  function Down(x: Ip, k: bv8): Ip
    requires k <= 32
  {
    x >> k
  }

  /** `mask_from_prefix`: 32 and above are one address. */
  function MaskFromPrefix(p: Prefix): Ip {
    if p >= 32 then ONES else if p == 0 then 0 else Up(ONES, 32 - p)
  }

  /** The mask as `route_for` computes it, for a prefix of at most 32. */
  function RouteMask(p: Prefix): Ip
    requires p <= 32
  {
    if p == 0 then 0 else Up(ONES, 32 - p)
  }

  /** `u32::MAX.checked_shl(32 - p).unwrap_or(0)`, as `source_allowed` computes it. */
  function SourceMask(p: Prefix): Ip
    requires p <= 32
  {
    if 32 - p >= 32 then 0 else Up(ONES, 32 - p)
  }

  lemma MasksAgree(p: Prefix)
    requires p <= 32
    ensures RouteMask(p) == SourceMask(p) == MaskFromPrefix(p)
  {}

  function And(x: Ip, m: Ip): Ip {
    x & m
  }

  function NetworkAddr(ip: Ip, p: Prefix): Ip {
    And(ip, MaskFromPrefix(p))
  }

  /** The addresses of a subnet. */
  predicate Contains(s: Subnet, ip: Ip) {
    NetworkAddr(ip, s.1) == NetworkAddr(s.0, s.1)
  }

  /** The first `p` bits, as a number. */
  function TopBits(x: Ip, p: Prefix): Ip {
    if p == 0 then 0 else if p >= 32 then x else Down(x, 32 - p)
  }

  function FromTop(t: Ip, p: Prefix): Ip {
    if p == 0 then 0 else if p >= 32 then t else Up(t, 32 - p)
  }

  lemma ShiftDown(x: Ip, k: bv8)
    requires k < 32
    ensures Down(And(x, Up(ONES, k)), k) == Down(x, k)
  {}

  lemma ShiftBack(x: Ip, k: bv8)
    requires k < 32
    ensures Up(Down(x, k), k) == And(x, Up(ONES, k))
  {}

  lemma Whole(x: Ip)
    ensures And(x, ONES) == x && And(x, 0) == 0
  {}

  /** The network address has the same first bits, and is determined by them. */
  lemma TopOfNetwork(x: Ip, p: Prefix)
    ensures TopBits(NetworkAddr(x, p), p) == TopBits(x, p)
    ensures NetworkAddr(x, p) == FromTop(TopBits(x, p), p)
  {
    hide And, Up, Down;
    Whole(x);
    if 0 < p < 32 {
      ShiftDown(x, 32 - p);
      ShiftBack(x, 32 - p);
    }
  }

  /** An address is in a subnet when it begins with the same `p` bits. */
  lemma ContainsMeans(s: Subnet, ip: Ip)
    ensures Contains(s, ip) <==> TopBits(ip, s.1) == TopBits(s.0, s.1)
  {
    hide TopBits, FromTop, NetworkAddr;
    TopOfNetwork(ip, s.1);
    TopOfNetwork(s.0, s.1);
  }

  function Shorter(a: Prefix, b: Prefix): Prefix {
    if a <= b then a else b
  }

  predicate Overlap(a: Subnet, b: Subnet) {
    var p := Shorter(a.1, b.1);
    NetworkAddr(a.0, p) == NetworkAddr(b.0, p)
  }

  lemma Narrow(x: Ip, p: Prefix, q: Prefix)
    requires p <= q
    ensures NetworkAddr(NetworkAddr(x, q), p) == NetworkAddr(x, p)
  {}

  lemma ShorterIs(a: Prefix, b: Prefix)
    ensures Shorter(a, b) == Shorter(b, a) && (Shorter(a, b) == a <==> a <= b)
    ensures a <= b || b <= a
  {}

  lemma Symmetric(a: Subnet, b: Subnet)
    ensures Overlap(a, b) == Overlap(b, a)
  {
    hide NetworkAddr, Shorter;
    ShorterIs(a.1, b.1);
  }

  /** Two subnets overlap when an address is in both, and then one contains the other. */
  lemma OverlapTheorem(a: Subnet, b: Subnet)
    ensures Overlap(a, b) <==> exists ip :: Contains(a, ip) && Contains(b, ip)
    ensures Overlap(a, b) && a.1 <= b.1 ==> forall ip | Contains(b, ip) :: Contains(a, ip)
    ensures Overlap(a, b) && b.1 <= a.1 ==> forall ip | Contains(a, ip) :: Contains(b, ip)
  {
    hide Overlap, NetworkAddr, Contains, Shorter;
    ShorterIs(a.1, b.1);
    Symmetric(a, b);
    if a.1 <= b.1 {
      Ordered(a, b);
    }
    if b.1 <= a.1 {
      Ordered(b, a);
    }
  }

  /** The longer prefix lies within the shorter, or apart from it. */
  lemma Ordered(a: Subnet, b: Subnet)
    requires a.1 <= b.1
    ensures Contains(b, b.0)
    ensures Overlap(a, b) <==> exists ip :: Contains(a, ip) && Contains(b, ip)
    ensures Overlap(a, b) ==> forall ip | Contains(b, ip) :: Contains(a, ip)
  {
    hide NetworkAddr, Shorter;
    ShorterIs(a.1, b.1);
    assert Contains(b, b.0);
    Narrow(b.0, a.1, b.1);
    forall ip | Contains(b, ip) ensures Contains(a, ip) <==> Overlap(a, b) {
      Narrow(ip, a.1, b.1);
    }
  }
}
