/** IP addresses of three families and their order: net/IPAddress.cpp. An address
    holds the bytes of in_addr or in6_addr, in network order; the endianness of the
    machine shows where the source goes through integers. */
module Addresses {
  import opened Bytes

  function Zeros(n: nat): (s: seq<byte>)
    ensures |s| == n && forall i :: 0 <= i < n ==> s[i] == 0
  {
    seq(n, i => 0)
  }

  type V4Bytes = s: seq<byte> | |s| == 4 witness [0, 0, 0, 0]
  type V6Bytes = s: seq<byte> | |s| == 16 witness Zeros(16)

  datatype IPAddress = Unspec | V4(v4: V4Bytes) | V6(v6: V6Bytes)

  /** ::ffff:0.0.0.0, section 2.5.5.2 of RFC 4291. */
  function MappedPrefix(): V6Bytes
  {
    Zeros(10) + [0xFF, 0xFF] + Zeros(4)
  }

  // ---- Through integers ---------------------------------------------------

  /** The constructor from a host-order integer. */
  function FromHostOrder(v: nat, e: Endian): IPAddress
  {
    V4(Image(HostToNetwork(v, 4, e), 4, e))
  }

  function V4AsHostOrder(ip: IPAddress, e: Endian): nat
  {
    match ip
    case V4(b) => NetworkToHost(ReadImage(b, e), 4, e)
    case _ => 0
  }

  lemma NumberOfV4(b: V4Bytes, e: Endian)
    ensures NetworkToHost(ReadImage(b, e), 4, e) == FromBE(b) < 0x1_0000_0000
  {
    ImageInverse(b, e);
    FromBEBound(b);
    assert Pow256(4) == 0x1_0000_0000 by {
      assert Pow256(1) == 256 * Pow256(0) && Pow256(2) == 256 * Pow256(1) && Pow256(3) == 256 * Pow256(2);
    }
  }

  /** v4 addresses and 32-bit integers correspond one to one, alike on machines of
      either byte order. */
  lemma HostOrderInverse(v: nat, b: V4Bytes, e: Endian)
    requires v < 0x1_0000_0000
    ensures V4AsHostOrder(FromHostOrder(v, e), e) == v
    ensures FromHostOrder(V4AsHostOrder(V4(b), e), e) == V4(b)
    ensures FromHostOrder(v, e) == V4(ToBE(v, 4))
  {
    assert Pow256(4) == 0x1_0000_0000 by {
      assert Pow256(1) == 256 * Pow256(0) && Pow256(2) == 256 * Pow256(1) && Pow256(3) == 256 * Pow256(2);
    }
    HostNetworkInverse(v, 4, e);
    NumberOfV4(b, e);
    HostNetworkInverse(FromBE(b), 4, e);
    BEInverseBytes(b);
  }

  // ---- Comparisons --------------------------------------------------------

  const AF_UNSPEC: nat := 0
  const AF_INET: nat := 2
  const AF_INET6: nat := 10

  function Family(ip: IPAddress): nat
  {
    match ip
    case Unspec => AF_UNSPEC
    case V4(_) => AF_INET
    case V6(_) => AF_INET6
  }

  /** operator==. */
  predicate Equal(a: IPAddress, b: IPAddress)
  {
    if Family(a) != Family(b) then false
    else
      match a
      case V4(x) => !MemLess(x, b.v4) && !MemLess(b.v4, x)
      case V6(x) => !MemLess(x, b.v6) && !MemLess(b.v6, x)
      case Unspec => true
  }

  /** operator<. */
  predicate Less(a: IPAddress, b: IPAddress, e: Endian)
  {
    if Family(a) != Family(b) then a.Unspec? || (a.V4? && b.V6?)
    else
      match a
      case V4(x) => NetworkToHost(ReadImage(x, e), 4, e) < NetworkToHost(ReadImage(b.v4, e), 4, e)
      case V6(x) => MemLess(x, b.v6)
      case Unspec => false
  }

  /** operator>. */
  predicate Greater(a: IPAddress, b: IPAddress, e: Endian)
  {
    !Equal(a, b) && !Less(a, b, e)
  }

  predicate IPIsAny(ip: IPAddress, e: Endian)
  {
    match ip
    case V4(_) => Equal(ip, FromHostOrder(0, e))
    case V6(_) => Equal(ip, V6(Zeros(16))) || Equal(ip, V6(MappedPrefix()))
    case Unspec => false
  }

  /** An address as a number within its family. */
  function Number(ip: IPAddress): nat
  {
    match ip
    case V4(b) => FromBE(b)
    case V6(b) => FromBE(b)
    case Unspec => 0
  }

  lemma ByNumber(x: seq<byte>, y: seq<byte>)
    requires |x| == |y|
    ensures MemLess(x, y) <==> FromBE(x) < FromBE(y)
    ensures MemLess(y, x) <==> FromBE(y) < FromBE(x)
    ensures x == y <==> FromBE(x) == FromBE(y)
  {
    MemLessIsNumericLess(x, y);
    MemLessIsNumericLess(y, x);
    if FromBE(x) == FromBE(y) {
      FromBEInjective(x, y);
    }
  }

  /** operator< goes by family first, then by the number the bytes denote, whether it
      compares integers (v4) or memory (v6), and on either kind of machine. */
  lemma LessIsByFamilyThenNumber(a: IPAddress, b: IPAddress, e: Endian)
    ensures Less(a, b, e) <==> Family(a) < Family(b) || (Family(a) == Family(b) && Number(a) < Number(b))
    ensures Equal(a, b) <==> a == b
    ensures a == b <==> Family(a) == Family(b) && Number(a) == Number(b)
  {
    if a.V4? && b.V4? {
      NumberOfV4(a.v4, e);
      NumberOfV4(b.v4, e);
      ByNumber(a.v4, b.v4);
    } else if a.V6? && b.V6? {
      ByNumber(a.v6, b.v6);
    }
  }

  /** A strict total order that agrees with operator== and operator>. */
  lemma StrictTotalOrder(a: IPAddress, b: IPAddress, c: IPAddress, e: Endian)
    ensures !Less(a, a, e)
    ensures Less(a, b, e) && Less(b, c, e) ==> Less(a, c, e)
    ensures Less(a, b, e) || Equal(a, b) || Less(b, a, e)
    ensures !(Less(a, b, e) && Equal(a, b)) && !(Less(a, b, e) && Less(b, a, e))
    ensures Greater(a, b, e) <==> Less(b, a, e)
    ensures Equal(a, b) <==> a == b
  {
    LessIsByFamilyThenNumber(a, a, e);
    LessIsByFamilyThenNumber(a, b, e);
    LessIsByFamilyThenNumber(b, a, e);
    LessIsByFamilyThenNumber(b, c, e);
    LessIsByFamilyThenNumber(a, c, e);
  }

  // ---- The v4-mapped form -------------------------------------------------

  function AsIPv6Address(ip: IPAddress): IPAddress
  {
    match ip
    case V4(b) => V6(MappedPrefix()[..12] + b)
    case _ => ip
  }

  lemma {:induction false} CommonPrefix(p: seq<byte>, x: seq<byte>, y: seq<byte>)
    requires |x| == |y|
    ensures MemLess(p + x, p + y) <==> MemLess(x, y)
  {
    if p == [] {
      assert p + x == x && p + y == y;
    } else {
      assert (p + x)[1..] == p[1..] + x && (p + y)[1..] == p[1..] + y;
      CommonPrefix(p[1..], x, y);
    }
  }

  /** On addresses of one family the mapping is injective and keeps and reflects
      the order. */
  lemma MappingKeepsOrder(a: IPAddress, b: IPAddress, e: Endian)
    requires Family(a) == Family(b)
    ensures Less(AsIPv6Address(a), AsIPv6Address(b), e) <==> Less(a, b, e)
    ensures Equal(AsIPv6Address(a), AsIPv6Address(b)) <==> Equal(a, b)
  {
    if a.V4? {
      LessIsByFamilyThenNumber(a, b, e);
      LessIsByFamilyThenNumber(AsIPv6Address(a), AsIPv6Address(b), e);
      CommonPrefix(MappedPrefix()[..12], a.v4, b.v4);
      CommonPrefix(MappedPrefix()[..12], b.v4, a.v4);
      ByNumber(a.v4, b.v4);
      ByNumber(MappedPrefix()[..12] + a.v4, MappedPrefix()[..12] + b.v4);
    }
  }

  lemma {:induction false} PrefixFirst(p: seq<byte>, q: seq<byte>, x: seq<byte>, y: seq<byte>)
    requires |p| == |q| && |x| == |y|
    ensures MemLess(p + x, q + y) <==> MemLess(p, q) || (p == q && MemLess(x, y))
  {
    if p == [] {
      assert p + x == x && q + y == y;
    } else {
      assert (p + x)[1..] == p[1..] + x && (q + y)[1..] == q[1..] + y;
      PrefixFirst(p[1..], q[1..], x, y);
      assert p == [p[0]] + p[1..] && q == [q[0]] + q[1..];
    }
  }

  /** On v4 addresses the order is that of their bytes in memory. */
  lemma LessOnV4(x: V4Bytes, y: V4Bytes, e: Endian)
    ensures Less(V4(x), V4(y), e) <==> MemLess(x, y)
  {
    NumberOfV4(x, e);
    NumberOfV4(y, e);
    ByNumber(x, y);
  }

  lemma MappedIs(a: IPAddress, b: IPAddress, e: Endian)
    requires a.V4? && b.V6?
    ensures Equal(AsIPv6Address(a), b) <==> b.v6[..12] == MappedPrefix()[..12] && b.v6[12..] == a.v4
  {
    LessIsByFamilyThenNumber(AsIPv6Address(a), b, e);
    assert b.v6 == b.v6[..12] + b.v6[12..];
    var mapped := MappedPrefix()[..12] + a.v4;
    assert mapped[..12] == MappedPrefix()[..12] && mapped[12..] == a.v4;
  }

  /** Across families it keeps the order of a v4 and a v6 address exactly when the v6
      address lies above all mapped ones, or is itself mapped, from a larger v4 address;
      it merges the two when the v6 address is the mapped form of the other. */
  lemma MappingAcrossFamilies(a: IPAddress, b: IPAddress, e: Endian)
    requires a.V4? && b.V6?
    ensures Less(a, b, e)
    ensures Less(AsIPv6Address(a), AsIPv6Address(b), e) <==>
              MemLess(MappedPrefix()[..12], b.v6[..12])
              || (b.v6[..12] == MappedPrefix()[..12] && Less(a, V4(b.v6[12..]), e))
    ensures Equal(AsIPv6Address(a), AsIPv6Address(b)) <==> b.v6[..12] == MappedPrefix()[..12] && b.v6[12..] == a.v4
  {
    var prefix, low := b.v6[..12], b.v6[12..];
    assert b.v6 == prefix + low;
    PrefixFirst(MappedPrefix()[..12], prefix, a.v4, low);
    LessOnV4(a.v4, low, e);
    MappedIs(a, b, e);
  }

  lemma ToBEZero()
    ensures ToBE(0, 4) == Zeros(4)
  {
    assert ToBE(0, 1) == ToBE(0, 0) + [0];
    assert ToBE(0, 2) == ToBE(0, 1) + [0];
    assert ToBE(0, 3) == ToBE(0, 2) + [0];
    assert ToBE(0, 4) == ToBE(0, 3) + [0];
  }

  /** The mapping never moves an address into or out of the "any" addresses. */
  lemma MappingKeepsAny(ip: IPAddress, e: Endian)
    ensures IPIsAny(AsIPv6Address(ip), e) <==> IPIsAny(ip, e)
    ensures ip.V4? ==> (IPIsAny(ip, e) <==> ip.v4 == Zeros(4))
  {
    if ip.V4? {
      var m := AsIPv6Address(ip);
      HostOrderInverse(0, ip.v4, e);
      ToBEZero();
      LessIsByFamilyThenNumber(ip, FromHostOrder(0, e), e);
      LessIsByFamilyThenNumber(m, V6(Zeros(16)), e);
      LessIsByFamilyThenNumber(m, V6(MappedPrefix()), e);
      assert m.v6[10] == 0xFF;
      assert m.v6[12..] == ip.v4 && MappedPrefix()[12..] == Zeros(4);
      if ip.v4 == Zeros(4) {
        assert m.v6 == MappedPrefix();
      }
    }
  }

  /** 0.0.0.0, :: and ::ffff:0.0.0.0 are the "any" addresses. */
  lemma AnyAddresses(ip: IPAddress, e: Endian)
    ensures IPIsAny(ip, e) <==>
              ip == V4([0, 0, 0, 0])
              || ip == V6([0, 0, 0, 0, 0, 0, 0, 0, 0, 0, 0, 0, 0, 0, 0, 0])
              || ip == V6([0, 0, 0, 0, 0, 0, 0, 0, 0, 0, 0xFF, 0xFF, 0, 0, 0, 0])
  {
    assert Zeros(4) == [0, 0, 0, 0];
    assert Zeros(16) == [0, 0, 0, 0, 0, 0, 0, 0, 0, 0, 0, 0, 0, 0, 0, 0];
    assert MappedPrefix() == [0, 0, 0, 0, 0, 0, 0, 0, 0, 0, 0xFF, 0xFF, 0, 0, 0, 0];
    if ip.V4? {
      MappingKeepsAny(ip, e);
    } else if ip.V6? {
      LessIsByFamilyThenNumber(ip, V6(Zeros(16)), e);
      LessIsByFamilyThenNumber(ip, V6(MappedPrefix()), e);
    }
  }

  /** ::ffff:a.b.c.d of a v4 address, any other address itself; the host-order number of
      a v4 address, 0 of any other. */
  lemma MappedForm(ip: IPAddress, e: Endian)
    ensures ip.V4? ==>
              AsIPv6Address(ip) == V6([0, 0, 0, 0, 0, 0, 0, 0, 0, 0, 0xFF, 0xFF, ip.v4[0], ip.v4[1], ip.v4[2], ip.v4[3]])
    ensures !ip.V4? ==> AsIPv6Address(ip) == ip && V4AsHostOrder(ip, e) == 0
  {
    if ip.V4? {
      var mapped := MappedPrefix()[..12] + ip.v4;
      assert mapped == [0, 0, 0, 0, 0, 0, 0, 0, 0, 0, 0xFF, 0xFF, ip.v4[0], ip.v4[1], ip.v4[2], ip.v4[3]];
    }
  }
}
