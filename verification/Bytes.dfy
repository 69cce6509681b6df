/** Byte-order codecs: the Set/Get helpers of base/Common.h and the
    host/network conversions built on them. */
module Bytes {

  newtype byte = x: int | 0 <= x < 256

  /** Byte order of the machine the code runs on. */
  datatype Endian = Little | Big

  function Pow256(n: nat): (p: nat)
    ensures p > 0
  {
    if n == 0 then 1 else 256 * Pow256(n - 1)
  }

  /** The number a byte string denotes, most significant byte first. */
  function FromBE(s: seq<byte>): nat
  {
    if s == [] then 0 else FromBE(s[..|s| - 1]) * 256 + s[|s| - 1] as int
  }

  /** The low `n` bytes of `v`, most significant byte first. */
  function ToBE(v: nat, n: nat): (s: seq<byte>)
    ensures |s| == n
  {
    if n == 0 then [] else ToBE(v / 256, n - 1) + [(v % 256) as byte]
  }

  function Reverse(s: seq<byte>): (r: seq<byte>)
    ensures |r| == |s|
    ensures forall i :: 0 <= i < |s| ==> r[i] == s[|s| - 1 - i]
  {
    seq(|s|, i requires 0 <= i < |s| => s[|s| - 1 - i])
  }

  /** The `n`-byte memory image of the integer `v` on a machine of order `e`. */
  function Image(v: nat, n: nat, e: Endian): (s: seq<byte>)
    ensures |s| == n
  {
    if e.Big? then ToBE(v, n) else Reverse(ToBE(v, n))
  }

  /** The integer a machine of order `e` reads from a memory image. */
  function ReadImage(s: seq<byte>, e: Endian): nat
  {
    if e.Big? then FromBE(s) else FromBE(Reverse(s))
  }

  // ---- The source's accessors ------------------------------------------

  method SetBE16(memory: array<byte>, at: nat, v: nat)
    requires at + 2 <= memory.Length
    requires v < 0x1_0000
    modifies memory
    ensures memory[..] == old(memory[..at]) + ToBE(v, 2) + old(memory[at + 2..])
  {
    memory[at] := (v / 0x100 % 0x100) as byte;
    memory[at + 1] := (v % 0x100) as byte;
    assert ToBE(v / 256, 1) == ToBE(v / 256 / 256, 0) + [(v / 256 % 256) as byte];
    assert ToBE(v, 2) == [memory[at], memory[at + 1]];
  }

  lemma FourBytes(v: nat)
    ensures ToBE(v, 4) == [(v / 0x100_0000 % 0x100) as byte, (v / 0x1_0000 % 0x100) as byte,
                           (v / 0x100 % 0x100) as byte, (v % 0x100) as byte]
  {
    var w := v / 256;
    var x := w / 256;
    var y := x / 256;
    assert x == v / 0x1_0000 && y == v / 0x100_0000;
    assert ToBE(y, 1) == ToBE(y / 256, 0) + [(y % 256) as byte] == [(y % 256) as byte];
    assert ToBE(x, 2) == ToBE(y, 1) + [(x % 256) as byte];
    assert ToBE(w, 3) == ToBE(x, 2) + [(w % 256) as byte];
  }

  method SetBE32(memory: array<byte>, at: nat, v: nat)
    requires at + 4 <= memory.Length
    requires v < 0x1_0000_0000
    modifies memory
    ensures memory[..] == old(memory[..at]) + ToBE(v, 4) + old(memory[at + 4..])
  {
    memory[at] := (v / 0x100_0000 % 0x100) as byte;
    memory[at + 1] := (v / 0x1_0000 % 0x100) as byte;
    memory[at + 2] := (v / 0x100 % 0x100) as byte;
    memory[at + 3] := (v % 0x100) as byte;
    FourBytes(v);
    assert ToBE(v, 4) == [memory[at], memory[at + 1], memory[at + 2], memory[at + 3]];
  }

  function GetBE16(s: seq<byte>): (v: nat)
    requires |s| >= 2
    ensures v == FromBE(s[..2])
    ensures v < 0x1_0000
  {
    assert s[..2][..1] == [s[0]];
    assert FromBE([s[0]]) == FromBE([s[0]][..0]) * 256 + s[0] as int;
    s[0] as int * 0x100 + s[1] as int
  }

  function GetBE32(s: seq<byte>): (v: nat)
    requires |s| >= 4
    ensures v == FromBE(s[..4])
    ensures v < 0x1_0000_0000
  {
    assert s[..4][..3] == s[..3] && s[..3][..2] == s[..2];
    assert FromBE(s[..3]) == GetBE16(s) * 256 + s[2] as int;
    s[0] as int * 0x100_0000 + s[1] as int * 0x1_0000 + s[2] as int * 0x100 + s[3] as int
  }

  /** HostToNetwork16/32: write big-endian into a local, read the local back in
      host order. */
  function HostToNetwork(v: nat, n: nat, e: Endian): nat
  {
    ReadImage(ToBE(v, n), e)
  }

  /** NetworkToHost16/32: read the local's own memory image as big-endian. */
  function NetworkToHost(v: nat, n: nat, e: Endian): nat
  {
    FromBE(Image(v, n, e))
  }

  // ---- Laws ------------------------------------------------------------

  lemma {:induction false} FromBEBound(s: seq<byte>)
    ensures FromBE(s) < Pow256(|s|)
  {
    if s != [] {
      FromBEBound(s[..|s| - 1]);
    }
  }

  lemma MulDiff(a: int, b: int, d: int)
    ensures (a - b) * d == a * d - b * d
  {}

  lemma MulAtLeast(a: int, d: nat)
    ensures a >= 1 ==> a * d >= d
  {
    if a >= 1 {
      assert a * d == (a - 1) * d + d;
      assert (a - 1) * d >= 0;
    }
  }

  lemma ModUnique(v: nat, d: nat, q: nat, m: nat)
    requires d > 0 && m < d && v == q * d + m
    ensures v % d == m
  {
    var q', m' := v / d, v % d;
    assert v == q' * d + m';
    MulDiff(q', q, d);
    MulAtLeast(q' - q, d);
    MulAtLeast(q - q', d);
    assert (q - q') * d == -((q' - q) * d);
  }

  lemma DivModSplit(v: nat, p: nat)
    requires p > 0
    ensures v % (256 * p) == (v / 256) % p * 256 + v % 256
  {
    var q, r := v / 256 / p, v / 256 % p;
    assert v / 256 == q * p + r;
    assert v == 256 * (q * p + r) + v % 256;
    var m := r * 256 + v % 256;
    assert r <= p - 1;
    assert m < 256 * p;
    assert v == q * (256 * p) + m;
    ModUnique(v, 256 * p, q, m);
  }

  /** Writing then reading returns the number modulo the width. */
  lemma {:induction false} BEInverse(v: nat, n: nat)
    ensures FromBE(ToBE(v, n)) == v % Pow256(n)
  {
    if n > 0 {
      BEInverse(v / 256, n - 1);
      var s := ToBE(v, n);
      assert s[..n - 1] == ToBE(v / 256, n - 1);
      DivModSplit(v, Pow256(n - 1));
    }
  }

  /** Reading then writing returns the bytes. */
  lemma {:induction false} BEInverseBytes(s: seq<byte>)
    ensures ToBE(FromBE(s), |s|) == s
  {
    if s != [] {
      var t := s[..|s| - 1];
      BEInverseBytes(t);
      assert FromBE(s) / 256 == FromBE(t) && FromBE(s) % 256 == s[|s| - 1] as int;
    }
  }

  lemma SmallMod(v: nat, p: nat)
    requires v < p
    ensures v % p == v
  {}

  /** A machine's own integers and their images correspond one to one. */
  lemma ImageInverse(s: seq<byte>, e: Endian)
    ensures Image(ReadImage(s, e), |s|, e) == s
  {
    BEInverseBytes(s);
    BEInverseBytes(Reverse(s));
    assert Reverse(Reverse(s)) == s;
  }

  /** NetworkToHost undoes HostToNetwork on either kind of machine, and the
      memory image of the network-order integer is the big-endian string. */
  lemma HostNetworkInverse(v: nat, n: nat, e: Endian)
    requires v < Pow256(n)
    ensures Image(HostToNetwork(v, n, e), n, e) == ToBE(v, n)
    ensures NetworkToHost(HostToNetwork(v, n, e), n, e) == v
  {
    ImageInverse(ToBE(v, n), e);
    BEInverse(v, n);
    SmallMod(v, Pow256(n));
  }

  /** memcmp(a, b, n) < 0. */
  predicate MemLess(a: seq<byte>, b: seq<byte>)
    requires |a| == |b|
  {
    a != [] && (a[0] < b[0] || (a[0] == b[0] && MemLess(a[1..], b[1..])))
  }

  /** Splitting off the most significant byte instead of the least. */
  lemma {:induction false} FromBEHead(s: seq<byte>)
    requires s != []
    ensures FromBE(s) == s[0] as int * Pow256(|s| - 1) + FromBE(s[1..])
  {
    if |s| == 1 {
      assert s[..0] == [] && s[1..] == [];
    } else {
      var t := s[..|s| - 1];
      FromBEHead(t);
      assert t[1..] == s[1..][..|s| - 2];
      assert s[1..][|s| - 2] == s[|s| - 1];
      var h, p := s[0] as int, Pow256(|s| - 2);
      assert (h * p) * 256 == h * (256 * p);
    }
  }

  lemma HeadDominates(h: nat, x: nat, k: nat, y: nat, p: nat)
    requires x < p && y < p
    ensures h * p + x < k * p + y <==> h < k || (h == k && x < y)
  {
    MulDiff(k, h, p);
    MulDiff(h, k, p);
    MulAtLeast(k - h, p);
    MulAtLeast(h - k, p);
  }

  /** Big-endian numbers compare as memcmp compares their bytes. */
  lemma {:induction false} MemLessIsNumericLess(a: seq<byte>, b: seq<byte>)
    requires |a| == |b|
    ensures MemLess(a, b) <==> FromBE(a) < FromBE(b)
  {
    if a != [] {
      FromBEHead(a);
      FromBEHead(b);
      FromBEBound(a[1..]);
      FromBEBound(b[1..]);
      MemLessIsNumericLess(a[1..], b[1..]);
      HeadDominates(a[0] as int, FromBE(a[1..]), b[0] as int, FromBE(b[1..]), Pow256(|a| - 1));
    }
  }

  /** A byte string is determined by its number. */
  lemma FromBEInjective(a: seq<byte>, b: seq<byte>)
    requires |a| == |b| && FromBE(a) == FromBE(b)
    ensures a == b
  {
    BEInverseBytes(a);
    BEInverseBytes(b);
  }
}
