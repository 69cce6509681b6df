/** Socket addresses and the structures they are written to: net/SocketAddress.cpp.
    A sockaddr_storage is 128 bytes laid out as on Linux: family (2 bytes, host
    order), port (2), then for v4 the address (4), for v6 flow information (4),
    address (16) and scope id (4, host order). */
module SocketAddr {
  import opened Bytes
  import opened Addresses
  import opened Wrappers

  const STORAGE: nat := 128
  const SIZE_IN: nat := 16
  const SIZE_IN6: nat := 28

  type Port = p: int | 0 <= p < 0x1_0000
  type Int32 = i: int | -0x8000_0000 <= i < 0x8000_0000

  /** What a storage structure can carry of a socket address. */
  datatype Endpoint = Endpoint(ip: IPAddress, port: Port, scopeId: Int32)

  function ToUnsigned(i: Int32): (u: nat)
    ensures u < 0x1_0000_0000 && (u == i || u == i + 0x1_0000_0000)
  {
    if i < 0 then i + 0x1_0000_0000 else i
  }

  function ToSigned(u: nat): Int32
    requires u < 0x1_0000_0000
  {
    if u < 0x8000_0000 then u else u - 0x1_0000_0000
  }

  /** A port as the structures hold it. */
  function PortBytes(port: Port, e: Endian): (s: seq<byte>)
    ensures |s| == 2
  {
    Image(HostToNetwork(port, 2, e), 2, e)
  }

  lemma Widths()
    ensures Pow256(2) == 0x1_0000 && Pow256(4) == 0x1_0000_0000
  {
    assert Pow256(1) == 256 * Pow256(0) && Pow256(2) == 256 * Pow256(1) && Pow256(3) == 256 * Pow256(2);
  }

  lemma NumberOfPort(s: seq<byte>, e: Endian)
    requires |s| == 2
    ensures NetworkToHost(ReadImage(s, e), 2, e) == FromBE(s) < 0x1_0000
  {
    ImageInverse(s, e);
    FromBEBound(s);
    Widths();
  }

  function ReadPort(s: seq<byte>, e: Endian): Port
    requires |s| == 2
  {
    NumberOfPort(s, e);
    NetworkToHost(ReadImage(s, e), 2, e)
  }

  /** The other two members that are integers, in the machine's own order. */
  function FamilyBytes(family: nat, e: Endian): (s: seq<byte>)
    ensures |s| == 2
  {
    Image(family, 2, e)
  }

  function ReadFamily(s: seq<byte>, e: Endian): nat
  {
    ReadImage(s, e)
  }

  function ScopeBytes(scope: Int32, e: Endian): (s: seq<byte>)
    ensures |s| == 4
  {
    Image(ToUnsigned(scope), 4, e)
  }

  lemma ReadScopeBound(s: seq<byte>, e: Endian)
    requires |s| == 4
    ensures ReadImage(s, e) < 0x1_0000_0000
  {
    FromBEBound(s);
    FromBEBound(Reverse(s));
    Widths();
  }

  function ReadScope(s: seq<byte>, e: Endian): Int32
    requires |s| == 4
  {
    ReadScopeBound(s, e);
    ToSigned(ReadImage(s, e))
  }

  // ---- The structures -----------------------------------------------------

  function SizeOf(ip: IPAddress): nat
  {
    match ip
    case V4(_) => SIZE_IN
    case V6(_) => SIZE_IN6
    case Unspec => 0
  }

  function Layout4(family: seq<byte>, port: seq<byte>, b: V4Bytes, rest: nat): seq<byte>
  {
    family + port + b + Zeros(rest)
  }

  function Layout6(family: seq<byte>, port: seq<byte>, b: V6Bytes, scope: seq<byte>): seq<byte>
  {
    family + port + Zeros(4) + b + scope + Zeros(100)
  }

  /** The storage structure that holds an address. */
  function Storage(p: Endpoint, e: Endian): (s: seq<byte>)
    ensures |s| == STORAGE
  {
    match p.ip
    case Unspec => Zeros(128)
    case V4(b) => Layout4(FamilyBytes(AF_INET, e), PortBytes(p.port, e), b, 120)
    case V6(b) => Layout6(FamilyBytes(AF_INET6, e), PortBytes(p.port, e), b, ScopeBytes(p.scopeId, e))
  }

  /** The address a storage structure holds. */
  function Parsed(s: seq<byte>, e: Endian): Option<Endpoint>
    requires |s| == STORAGE
  {
    if ReadFamily(s[..2], e) == AF_INET then
      Some(Endpoint(V4(s[4..8]), ReadPort(s[2..4], e), 0))
    else if ReadFamily(s[..2], e) == AF_INET6 then
      Some(Endpoint(V6(s[8..24]), ReadPort(s[2..4], e), ReadScope(s[24..28], e)))
    else None
  }

  // ---- Round trips --------------------------------------------------------

  lemma PortRoundTrip(p: Port, e: Endian)
    ensures ReadPort(PortBytes(p, e), e) == p
    ensures PortBytes(p, e) == ToBE(p, 2)
  {
    Widths();
    HostNetworkInverse(p, 2, e);
    NumberOfPort(PortBytes(p, e), e);
    BEInverse(p, 2);
    SmallMod(p, Pow256(2));
  }

  lemma PortReprints(s: seq<byte>, e: Endian)
    requires |s| == 2
    ensures PortBytes(ReadPort(s, e), e) == s
  {
    Widths();
    NumberOfPort(s, e);
    HostNetworkInverse(FromBE(s), 2, e);
    BEInverseBytes(s);
  }

  /** A machine reads back the integers it stores. */
  lemma HostRoundTrip(v: nat, n: nat, e: Endian)
    requires v < Pow256(n)
    ensures ReadImage(Image(v, n, e), e) == v
  {
    BEInverse(v, n);
    SmallMod(v, Pow256(n));
    assert Reverse(Reverse(ToBE(v, n))) == ToBE(v, n);
  }

  lemma FamilyRoundTrip(e: Endian)
    ensures ReadFamily(FamilyBytes(AF_INET, e), e) == AF_INET
    ensures ReadFamily(FamilyBytes(AF_INET6, e), e) == AF_INET6
    ensures ReadFamily(Zeros(2), e) == AF_UNSPEC
  {
    Widths();
    HostRoundTrip(AF_INET, 2, e);
    HostRoundTrip(AF_INET6, 2, e);
    assert Reverse(Zeros(2)) == Zeros(2);
    assert Zeros(2)[..1] == Zeros(1) && Zeros(1)[..0] == [];
    assert FromBE(Zeros(1)) == 0;
  }

  lemma FamilyReprints(s: seq<byte>, e: Endian)
    requires |s| == 2
    ensures FamilyBytes(ReadFamily(s, e), e) == s
  {
    ImageInverse(s, e);
  }

  lemma ScopeRoundTrip(scope: Int32, e: Endian)
    ensures ReadScope(ScopeBytes(scope, e), e) == scope
  {
    Widths();
    HostRoundTrip(ToUnsigned(scope), 4, e);
  }

  lemma ScopeReprints(s: seq<byte>, e: Endian)
    requires |s| == 4
    ensures ScopeBytes(ReadScope(s, e), e) == s
  {
    ReadScopeBound(s, e);
    ImageInverse(s, e);
    assert ToUnsigned(ToSigned(ReadImage(s, e))) == ReadImage(s, e);
  }

  lemma MembersV4(family: seq<byte>, port: seq<byte>, b: V4Bytes, rest: nat)
    requires |family| == 2 && |port| == 2
    ensures var s := Layout4(family, port, b, rest);
            s[..2] == family && s[2..4] == port && s[4..8] == b
  {}

  lemma MembersV6(family: seq<byte>, port: seq<byte>, b: V6Bytes, scope: seq<byte>)
    requires |family| == 2 && |port| == 2 && |scope| == 4
    ensures var s := Layout6(family, port, b, scope);
            s[..2] == family && s[2..4] == port && s[8..24] == b && s[24..28] == scope
  {}

  lemma UnspecFails(e: Endian)
    ensures Parsed(Zeros(128), e) == None
  {
    FamilyRoundTrip(e);
    assert Zeros(128)[..2] == Zeros(2);
  }

  lemma RoundTripV4(b: V4Bytes, port: Port, e: Endian)
    ensures Parsed(Layout4(FamilyBytes(AF_INET, e), PortBytes(port, e), b, 120), e) == Some(Endpoint(V4(b), port, 0))
  {
    var family, bytes := FamilyBytes(AF_INET, e), PortBytes(port, e);
    FamilyRoundTrip(e);
    PortRoundTrip(port, e);
    MembersV4(family, bytes, b, 120);
  }

  lemma RoundTripV6(b: V6Bytes, port: Port, scope: Int32, e: Endian)
    ensures Parsed(Layout6(FamilyBytes(AF_INET6, e), PortBytes(port, e), b, ScopeBytes(scope, e)), e)
         == Some(Endpoint(V6(b), port, scope))
  {
    var family, bytes, id := FamilyBytes(AF_INET6, e), PortBytes(port, e), ScopeBytes(scope, e);
    FamilyRoundTrip(e);
    PortRoundTrip(port, e);
    ScopeRoundTrip(scope, e);
    MembersV6(family, bytes, b, id);
  }

  /** Writing then reading returns IP and port, and the scope id for v6, 0 for v4;
      it fails exactly for an unspecified address. */
  lemma StorageRoundTrip(p: Endpoint, e: Endian)
    ensures Parsed(Storage(p, e), e) ==
            match p.ip
            case Unspec => None
            case V4(_) => Some(Endpoint(p.ip, p.port, 0))
            case V6(_) => Some(p)
  {
    match p.ip
    case Unspec => UnspecFails(e);
    case V4(b) => RoundTripV4(b, p.port, e);
    case V6(b) => RoundTripV6(b, p.port, p.scopeId, e);
  }

  /** A structure with the bytes cleared that no member of its family covers. */
  function Members(s: seq<byte>, e: Endian): seq<byte>
    requires |s| == STORAGE
  {
    if ReadFamily(s[..2], e) == AF_INET then Layout4(s[..2], s[2..4], s[4..8], 120)
    else Layout6(s[..2], s[2..4], s[8..24], s[24..28])
  }

  /** Reading then writing restores every member of the structure that was read. */
  lemma ParseReprints(s: seq<byte>, e: Endian)
    requires |s| == STORAGE && Parsed(s, e).Some?
    ensures Storage(Parsed(s, e).value, e) == Members(s, e)
  {
    FamilyReprints(s[..2], e);
    PortReprints(s[2..4], e);
    ScopeReprints(s[24..28], e);
  }

  lemma RestV4(family: seq<byte>, port: seq<byte>, b: V4Bytes)
    requires |family| == 2 && |port| == 2
    ensures var s := Layout4(family, port, b, 120);
            |s| == 128 && forall i :: 8 <= i < 128 ==> s[i] == 0
  {}

  lemma RestV6(family: seq<byte>, port: seq<byte>, b: V6Bytes, scope: seq<byte>)
    requires |family| == 2 && |port| == 2 && |scope| == 4
    ensures var s := Layout6(family, port, b, scope);
            |s| == 128 && (forall i :: 4 <= i < 8 ==> s[i] == 0) && forall i :: 28 <= i < 128 ==> s[i] == 0
  {}

  /** Where everything stands: the family in host order, the port in network order, the
      address; for v6 the scope id in host order; zero everywhere else. */
  lemma StorageLayout(p: Endpoint, e: Endian)
    ensures var s := Storage(p, e);
            && (p.ip.V4? ==>
                  && ReadImage(s[..2], e) == 2 && s[2..4] == ToBE(p.port, 2) && s[4..8] == p.ip.v4
                  && forall i :: 8 <= i < 128 ==> s[i] == 0)
            && (p.ip.V6? ==>
                  && ReadImage(s[..2], e) == 10 && s[2..4] == ToBE(p.port, 2) && s[8..24] == p.ip.v6
                  && ReadImage(s[24..28], e) == ToUnsigned(p.scopeId)
                  && (forall i :: 4 <= i < 8 ==> s[i] == 0) && forall i :: 28 <= i < 128 ==> s[i] == 0)
            && (p.ip.Unspec? ==> forall i :: 0 <= i < 128 ==> s[i] == 0)
  {
    FamilyRoundTrip(e);
    PortRoundTrip(p.port, e);
    match p.ip
    case Unspec =>
    case V4(b) =>
      MembersV4(FamilyBytes(AF_INET, e), PortBytes(p.port, e), b, 120);
      RestV4(FamilyBytes(AF_INET, e), PortBytes(p.port, e), b);
    case V6(b) =>
      MembersV6(FamilyBytes(AF_INET6, e), PortBytes(p.port, e), b, ScopeBytes(p.scopeId, e));
      RestV6(FamilyBytes(AF_INET6, e), PortBytes(p.port, e), b, ScopeBytes(p.scopeId, e));
      Widths();
      HostRoundTrip(ToUnsigned(p.scopeId), 4, e);
  }

  /** The dual-stack form returns the v6 image of the address. */
  lemma DualStackRoundTrip(p: Endpoint, e: Endian)
    ensures Parsed(Storage(p.(ip := AsIPv6Address(p.ip)), e), e) ==
            if p.ip.Unspec? then None else Some(p.(ip := AsIPv6Address(p.ip)))
  {
    StorageRoundTrip(p.(ip := AsIPv6Address(p.ip)), e);
  }

  /** The plain form does not turn mapped addresses back into v4 ones. */
  lemma MappedStaysV6(b: V4Bytes, port: Port, scope: Int32, e: Endian)
    ensures var back := Parsed(Storage(Endpoint(AsIPv6Address(V4(b)), port, scope), e), e);
            back.Some? && back.value.ip.V6? && back.value.ip.v6[12..] == b
  {
    StorageRoundTrip(Endpoint(AsIPv6Address(V4(b)), port, scope), e);
  }

  predicate IsMapped(ip: IPAddress)
  {
    ip.V6? && ip.v6[..12] == MappedPrefix()[..12]
  }

  /** The family the header documents for the plain form: v4 for v4 and mapped
      addresses, v6 for all others. */
  function PlainFamily(ip: IPAddress): nat
  {
    if ip.V4? || IsMapped(ip) then AF_INET else AF_INET6
  }

  function WrittenFamily(p: Endpoint, e: Endian): nat
  {
    ReadFamily(Storage(p, e)[..2], e)
  }

  lemma WrittenIsFamily(p: Endpoint, e: Endian)
    ensures WrittenFamily(p, e) == Family(p.ip)
  {
    FamilyRoundTrip(e);
    match p.ip
    case Unspec => assert Zeros(128)[..2] == Zeros(2);
    case V4(b) => MembersV4(FamilyBytes(AF_INET, e), PortBytes(p.port, e), b, 120);
    case V6(b) => MembersV6(FamilyBytes(AF_INET6, e), PortBytes(p.port, e), b, ScopeBytes(p.scopeId, e));
  }

  /** The plain form writes the documented family exactly for addresses that are
      neither mapped nor unspecified; the dual-stack form, documented as always v6,
      for all but unspecified ones. */
  lemma FamilyAsDocumented(p: Endpoint, e: Endian)
    ensures WrittenFamily(p, e) == PlainFamily(p.ip) <==> !IsMapped(p.ip) && !p.ip.Unspec?
    ensures WrittenFamily(p.(ip := AsIPv6Address(p.ip)), e) == AF_INET6 <==> !p.ip.Unspec?
  {
    WrittenIsFamily(p, e);
    WrittenIsFamily(p.(ip := AsIPv6Address(p.ip)), e);
  }

  /** Two addresses write the same bytes only if they are the same, scope ids of v4
      addresses aside, or both unspecified. */
  lemma StorageInjective(p: Endpoint, q: Endpoint, e: Endian)
    requires Storage(p, e) == Storage(q, e)
    ensures p.ip == q.ip
    ensures !p.ip.Unspec? ==> p.port == q.port
    ensures p.ip.V6? ==> p.scopeId == q.scopeId
  {
    StorageRoundTrip(p, e);
    StorageRoundTrip(q, e);
  }

  // ---- sockaddr_in --------------------------------------------------------

  /** ToSockAddr. */
  function SockAddrIn(ip: IPAddress, port: Port, e: Endian): (s: seq<byte>)
    ensures |s| == SIZE_IN
  {
    match ip
    case V4(b) =>
      Layout4(FamilyBytes(AF_INET, e), PortBytes(port, e), if IPIsAny(ip, e) then Zeros(4) else b, 8)
    case _ => Zeros(16)
  }

  /** The case for "any" writes what was there. */
  lemma V4Members(ip: IPAddress, port: Port, e: Endian)
    requires ip.V4?
    ensures SockAddrIn(ip, port, e) == Layout4(FamilyBytes(AF_INET, e), PortBytes(port, e), ip.v4, 8)
  {
    MappingKeepsAny(ip, e);
  }

  /** It is the head of the storage form of a v4 address. */
  lemma SockAddrInIsStorage(p: Endpoint, e: Endian)
    requires p.ip.V4?
    ensures SockAddrIn(p.ip, p.port, e) == Storage(p, e)[..16]
  {
    V4Members(p.ip, p.port, e);
    assert Zeros(120)[..8] == Zeros(8);
  }

  /** The address member, by way of a host-order integer. */
  function AddressIn(s: seq<byte>, e: Endian): IPAddress
    requires |s| == SIZE_IN
  {
    FromHostOrder(NetworkToHost(ReadImage(s[4..8], e), 4, e), e)
  }

  /** FromSockAddr; it leaves the receiver alone when it returns None. */
  function FromSockAddrIn(s: seq<byte>, e: Endian): Option<Endpoint>
    requires |s| == SIZE_IN
  {
    if ReadFamily(s[..2], e) != AF_INET then None
    else Some(Endpoint(AddressIn(s, e), ReadPort(s[2..4], e), 0))
  }

  /** The two are inverse on v4 addresses, and refuse all others. */
  lemma SockAddrInRoundTrip(ip: IPAddress, port: Port, e: Endian)
    ensures FromSockAddrIn(SockAddrIn(ip, port, e), e) ==
            if ip.V4? then Some(Endpoint(ip, port, 0)) else None
  {
    FamilyRoundTrip(e);
    if ip.V4? {
      V4Members(ip, port, e);
      MembersV4(FamilyBytes(AF_INET, e), PortBytes(port, e), ip.v4, 8);
      PortRoundTrip(port, e);
      HostOrderInverse(0, ip.v4, e);
    } else {
      assert Zeros(16)[..2] == Zeros(2);
    }
  }

  /** Reading and writing restores the members and clears the padding. */
  lemma SockAddrInReprints(s: seq<byte>, e: Endian)
    requires |s| == SIZE_IN && FromSockAddrIn(s, e).Some?
    ensures var p := FromSockAddrIn(s, e).value;
            SockAddrIn(p.ip, p.port, e) == Layout4(s[..2], s[2..4], s[4..8], 8)
  {
    var p := FromSockAddrIn(s, e).value;
    HostOrderInverse(0, s[4..8], e);
    assert p.ip == V4(s[4..8]);
    V4Members(p.ip, p.port, e);
    FamilyReprints(s[..2], e);
    PortReprints(s[2..4], e);
  }

  /** A storage structure is understood exactly if its family is v4 or v6, a sockaddr_in
      exactly if it is v4. */
  lemma UnderstoodIff(s: seq<byte>, e: Endian)
    ensures |s| == 128 ==> (Parsed(s, e) == None <==> ReadImage(s[..2], e) != 2 && ReadImage(s[..2], e) != 10)
    ensures |s| == 16 ==> (FromSockAddrIn(s, e) == None <==> ReadImage(s[..2], e) != 2)
  {}

  // ---- Nil addresses ------------------------------------------------------

  /** IsNil, and what the header says it is: "any" in place of unspecified. */
  predicate Nil(hostname: string, ip: IPAddress, port: Port)
  {
    hostname == "" && ip.Unspec? && port == 0
  }

  predicate NilAsDocumented(hostname: string, ip: IPAddress, port: Port, e: Endian)
  {
    hostname == "" && IPIsAny(ip, e) && port == 0
  }

  /** The two agree exactly where neither holds: with a host name, with a port, or with
      an address that is neither unspecified nor any. A cleared address is nil and not
      documented so; 0.0.0.0 is documented so and not nil. */
  lemma NilMeans(hostname: string, ip: IPAddress, port: Port, e: Endian)
    ensures (Nil(hostname, ip, port) <==> NilAsDocumented(hostname, ip, port, e)) <==>
              hostname != "" || port != 0 || !(ip.Unspec? || IPIsAny(ip, e))
    ensures Nil("", Unspec, 0) && !NilAsDocumented("", Unspec, 0, e)
    ensures !Nil("", V4(Zeros(4)), 0) && NilAsDocumented("", V4(Zeros(4)), 0, e)
  {
    MappingKeepsAny(V4(Zeros(4)), e);
  }

  // ---- In place -----------------------------------------------------------

  function Put(s: seq<byte>, at: nat, value: seq<byte>): (r: seq<byte>)
    requires at + |value| <= |s|
    ensures |r| == |s|
    ensures forall i :: 0 <= i < |s| ==> r[i] == if at <= i < at + |value| then value[i - at] else s[i]
  {
    s[..at] + value + s[at + |value|..]
  }

  lemma PutV4(n: nat, family: seq<byte>, port: seq<byte>, b: V4Bytes)
    requires n >= 8 && |family| == 2 && |port| == 2
    ensures Put(Put(Put(Zeros(n), 0, family), 4, b), 2, port) == Layout4(family, port, b, n - 8)
    ensures Put(Put(Put(Zeros(n), 0, family), 2, port), 4, b) == Layout4(family, port, b, n - 8)
  {}

  lemma PutV6(family: seq<byte>, port: seq<byte>, b: V6Bytes, scope: seq<byte>)
    requires |family| == 2 && |port| == 2 && |scope| == 4
    ensures Put(Put(Put(Put(Zeros(128), 0, family), 8, b), 2, port), 24, scope)
         == Layout6(family, port, b, scope)
  {}

  lemma PutZeros(n: nat, k: nat)
    requires k <= n
    ensures Put(Zeros(n), 0, Zeros(k)) == Zeros(n)
  {}

  /** Assigns one member of a structure. */
  method SetMember(memory: array<byte>, at: nat, value: seq<byte>)
    requires at + |value| <= memory.Length
    modifies memory
    ensures memory[..] == Put(old(memory[..]), at, value)
  {
    forall i | 0 <= i < |value| {
      memory[at + i] := value[i];
    }
  }

  method ClearMemory(memory: array<byte>)
    modifies memory
    ensures memory[..] == Zeros(memory.Length)
  {
    forall i | 0 <= i < memory.Length {
      memory[i] := 0;
    }
  }

  lemma FamilyOfUnspec(e: Endian)
    ensures FamilyBytes(AF_UNSPEC, e) == Zeros(2)
  {
    assert ToBE(0, 1) == ToBE(0, 0) + [0] && ToBE(0, 2) == ToBE(0, 1) + [0];
  }

  method ToSockAddrStorageHelper(storage: array<byte>, ip: IPAddress, port: Port, scopeId: Int32, e: Endian)
    returns (size: nat)
    requires storage.Length == STORAGE
    modifies storage
    ensures storage[..] == Storage(Endpoint(ip, port, scopeId), e) && size == SizeOf(ip)
    ensures size == match ip case Unspec => 0 case V4(_) => 16 case V6(_) => 28
  {
    ClearMemory(storage);
    FamilyOfUnspec(e);
    SetMember(storage, 0, FamilyBytes(Family(ip), e));
    if ip.V6? {
      PutV6(FamilyBytes(AF_INET6, e), PortBytes(port, e), ip.v6, ScopeBytes(scopeId, e));
      SetMember(storage, 8, ip.v6);
      SetMember(storage, 2, PortBytes(port, e));
      SetMember(storage, 24, ScopeBytes(scopeId, e));
      return SIZE_IN6;
    } else if ip.V4? {
      PutV4(STORAGE, FamilyBytes(AF_INET, e), PortBytes(port, e), ip.v4);
      SetMember(storage, 4, ip.v4);
      SetMember(storage, 2, PortBytes(port, e));
      return SIZE_IN;
    }
    PutZeros(STORAGE, 2);
    return 0;
  }

  class SocketAddress {
    var hostname: string
    var ip: IPAddress
    var port: Port
    var literal: bool
    var scopeId: Int32

    ghost function Value(): Endpoint
      reads this
    {
      Endpoint(ip, port, scopeId)
    }

    constructor ()
      ensures Value() == Endpoint(Unspec, 0, 0) && hostname == "" && !literal
    {
      hostname, literal, ip, port, scopeId := "", false, Unspec, 0, 0;
    }

    constructor FromIP(address: IPAddress, portNumber: int)
      ensures Value() == Endpoint(address, portNumber % 0x1_0000, 0) && hostname == "" && !literal
    {
      hostname, literal, ip, scopeId := "", false, address, 0;
      port := portNumber % 0x1_0000;
    }

    method SetIP(address: IPAddress)
      modifies this
      ensures Value() == Endpoint(address, old(port), 0) && hostname == "" && !literal
    {
      hostname, literal, ip, scopeId := "", false, address, 0;
    }

    /** static_cast<uint16>. */
    method SetPort(portNumber: int)
      modifies this`port
      ensures port == portNumber % 0x1_0000
    {
      port := portNumber % 0x1_0000;
    }

    method Clear()
      modifies this
      ensures Value() == Endpoint(Unspec, 0, 0) && hostname == "" && !literal
      ensures Nil(hostname, ip, port)
    {
      hostname, literal, ip, port, scopeId := "", false, Unspec, 0, 0;
    }

    method IsNil() returns (nil: bool)
      ensures nil <==> Nil(hostname, ip, port)
    {
      nil := hostname == "" && ip == Unspec && port == 0;
    }

    method ToSockAddr(saddr: array<byte>, e: Endian)
      requires saddr.Length == SIZE_IN
      modifies saddr
      ensures saddr[..] == SockAddrIn(ip, port, e)
    {
      ClearMemory(saddr);
      if !ip.V4? {
        FamilyOfUnspec(e);
        PutZeros(SIZE_IN, 2);
        SetMember(saddr, 0, FamilyBytes(AF_UNSPEC, e));
        return;
      }
      PutV4(SIZE_IN, FamilyBytes(AF_INET, e), PortBytes(port, e), if IPIsAny(ip, e) then Zeros(4) else ip.v4);
      SetMember(saddr, 0, FamilyBytes(AF_INET, e));
      SetMember(saddr, 2, PortBytes(port, e));
      if IPIsAny(ip, e) {
        SetMember(saddr, 4, Zeros(4));
      } else {
        SetMember(saddr, 4, ip.v4);
      }
    }

    method FromSockAddr(saddr: array<byte>, e: Endian) returns (ok: bool)
      requires saddr.Length == SIZE_IN
      modifies this
      ensures ok <==> FromSockAddrIn(saddr[..], e).Some?
      ensures ok ==> Value() == FromSockAddrIn(saddr[..], e).value && hostname == "" && !literal
      ensures !ok ==> Value() == old(Value()) && hostname == old(hostname) && literal == old(literal)
    {
      var s := saddr[..];
      if ReadFamily(s[..2], e) != AF_INET {
        return false;
      }
      SetIP(AddressIn(s, e));
      SetPort(ReadPort(s[2..4], e));
      literal := false;
      return true;
    }

    method ToSockAddrStorage(storage: array<byte>, e: Endian) returns (size: nat)
      requires storage.Length == STORAGE
      modifies storage
      ensures storage[..] == Storage(Value(), e) && size == SizeOf(ip)
      ensures size == match ip case Unspec => 0 case V4(_) => 16 case V6(_) => 28
    {
      size := ToSockAddrStorageHelper(storage, ip, port, scopeId, e);
    }

    method ToDualStackSockAddrStorage(storage: array<byte>, e: Endian) returns (size: nat)
      requires storage.Length == STORAGE
      modifies storage
      ensures storage[..] == Storage(Value().(ip := AsIPv6Address(ip)), e) && size == SizeOf(AsIPv6Address(ip))
      ensures size == if ip.Unspec? then 0 else 28
    {
      size := ToSockAddrStorageHelper(storage, AsIPv6Address(ip), port, scopeId, e);
    }
  }

  method SocketAddressFromSockAddrStorage(storage: array<byte>, out: SocketAddress?, e: Endian) returns (ok: bool)
    requires storage.Length == STORAGE
    modifies out
    ensures ok <==> out != null && Parsed(storage[..], e).Some?
    ensures ok ==> out.Value() == Parsed(storage[..], e).value && out.hostname == "" && !out.literal
    ensures !ok && out != null ==> unchanged(out)
  {
    if out == null {
      return false;
    }
    var s := storage[..];
    if ReadFamily(s[..2], e) == AF_INET {
      out.SetIP(V4(s[4..8]));
      out.SetPort(ReadPort(s[2..4], e));
      return true;
    } else if ReadFamily(s[..2], e) == AF_INET6 {
      out.SetIP(V6(s[8..24]));
      out.SetPort(ReadPort(s[2..4], e));
      out.scopeId := ReadScope(s[24..28], e);
      return true;
    }
    return false;
  }
}
