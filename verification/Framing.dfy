/** The packet format NetCenter puts on the wire: a 16-bit big-endian length
    followed by that many payload bytes. The printer and the parser are
    specifications; SocketObj runs them in place on its buffers. */
module Framing {
  import opened Bytes
  import opened Sequences

  type Packet = seq<byte>

  /** kPacketLenSize */
  const HEADER: nat := 2

  /** Largest length a header can carry. */
  const MAX_PAYLOAD: nat := 0xFFFF

  /** What SendDataWithFD appends: the length argument is converted to uint16,
      all of the payload is copied. */
  function Frame(p: Packet): (f: seq<byte>)
    ensures |f| == HEADER + |p|
  {
    ToBE(|p| % 0x1_0000, HEADER) + p
  }

  function Frames(ps: seq<Packet>): seq<byte>
  {
    if ps == [] then [] else Frame(ps[0]) + Frames(ps[1..])
  }

  predicate Fits(ps: seq<Packet>)
  {
    forall i :: 0 <= i < |ps| ==> |ps[i]| <= MAX_PAYLOAD
  }

  /** The reader waits: not even a header, or less than the header announces. */
  predicate Incomplete(s: seq<byte>)
  {
    |s| < HEADER || |s| < HEADER + GetBE16(s)
  }

  datatype Parsed = Parsed(packets: seq<Packet>, rest: seq<byte>)

  /** Peel complete frames off the front of a byte string. */
  function Parse(s: seq<byte>): Parsed
    decreases |s|
  {
    if Incomplete(s) then
      Parsed([], s)
    else
      var n := HEADER + GetBE16(s);
      var tail := Parse(s[n..]);
      Parsed([s[HEADER..n]] + tail.packets, tail.rest)
  }

  // ---- What Parse means ------------------------------------------------

  /** The header is the length it announces. */
  lemma HeaderBytes(s: seq<byte>)
    requires |s| >= HEADER
    ensures ToBE(GetBE16(s), HEADER) == s[..HEADER] && GetBE16(s) % 0x1_0000 == GetBE16(s)
  {
    BEInverseBytes(s[..HEADER]);
  }

  lemma FramesFirst(p: Packet, ps: seq<Packet>)
    ensures Frames([p] + ps) == Frame(p) + Frames(ps)
    ensures Fits([p] + ps) <==> |p| <= MAX_PAYLOAD && Fits(ps)
  {
    assert ([p] + ps)[1..] == ps;
    assert forall i :: 0 <= i < |ps| ==> ([p] + ps)[i + 1] == ps[i];
  }

  /** Parse loses nothing, reports no packet too long for a header, and stops
      only in front of an incomplete frame. */
  lemma {:induction false} ParseReprints(s: seq<byte>)
    ensures Frames(Parse(s).packets) + Parse(s).rest == s
    ensures Fits(Parse(s).packets)
    ensures Incomplete(Parse(s).rest)
    decreases |s|
  {
    if !Incomplete(s) {
      var n := HEADER + GetBE16(s);
      var tail := Parse(s[n..]);
      ParseReprints(s[n..]);
      HeaderBytes(s);
      FramesFirst(s[HEADER..n], tail.packets);
      Associative(Frame(s[HEADER..n]), Frames(tail.packets), tail.rest);
      assert Frame(s[HEADER..n]) == s[..n] && s == s[..n] + s[n..];
    } else {
      assert Frames([]) + s == s;
    }
  }

  /** The header of a frame whose payload fits gives the payload's length back. */
  lemma HeaderReads(p: Packet, rest: seq<byte>)
    ensures GetBE16(Frame(p) + rest) == |p| % 0x1_0000
  {
    var s := Frame(p) + rest;
    assert s[..HEADER] == ToBE(|p| % 0x1_0000, HEADER);
    BEInverse(|p| % 0x1_0000, HEADER);
    assert Pow256(2) == 256 * Pow256(1) && Pow256(1) == 256 * Pow256(0);
    SmallMod(|p| % 0x1_0000, 0x1_0000);
  }

  /** Parse is the only way to cut a byte string into frames that fit and an
      incomplete remainder. */
  lemma {:induction false} ParseUnique(ps: seq<Packet>, rest: seq<byte>)
    requires Fits(ps) && Incomplete(rest)
    ensures Parse(Frames(ps) + rest) == Parsed(ps, rest)
    decreases |ps|
  {
    if ps == [] {
      assert Frames(ps) + rest == rest;
    } else {
      var p, more := ps[0], Frames(ps[1..]) + rest;
      var s := Frames(ps) + rest;
      assert s == Frame(p) + more;
      HeaderReads(p, more);
      var n := HEADER + |p|;
      assert |p| % 0x1_0000 == |p|;
      assert s[n..] == more && s[HEADER..n] == p;
      ParseUnique(ps[1..], rest);
      assert ps == [p] + ps[1..];
    }
  }

  /** A complete frame at the front stays in front when more bytes follow. */
  lemma ParseStep(a: seq<byte>, b: seq<byte>)
    requires !Incomplete(a)
    ensures !Incomplete(a + b)
    ensures var n := HEADER + GetBE16(a);
            var tail := Parse(a[n..] + b);
            Parse(a + b) == Parsed([a[HEADER..n]] + tail.packets, tail.rest)
  {
    var s := a + b;
    assert GetBE16(s) == GetBE16(a) by {
      assert s[..HEADER] == a[..HEADER];
    }
    var n := HEADER + GetBE16(a);
    assert s[n..] == a[n..] + b && s[HEADER..n] == a[HEADER..n];
  }

  /** Reading in pieces: parse what came first, keep the remainder, parse the
      rest behind it. */
  lemma {:induction false} ParseChunks(a: seq<byte>, b: seq<byte>)
    ensures Parse(a + b).packets == Parse(a).packets + Parse(Parse(a).rest + b).packets
    ensures Parse(a + b).rest == Parse(Parse(a).rest + b).rest
    decreases |a|
  {
    if !Incomplete(a) {
      ParseStep(a, b);
      var n := HEADER + GetBE16(a);
      ParseChunks(a[n..], b);
      var first, tail := [a[HEADER..n]], Parse(a[n..]);
      assert Parse(a) == Parsed(first + tail.packets, tail.rest);
      var later := Parse(tail.rest + b).packets;
      assert first + (tail.packets + later) == (first + tail.packets) + later;
    }
  }

  lemma {:induction false} FramesConcat(ps: seq<Packet>, qs: seq<Packet>)
    ensures Frames(ps + qs) == Frames(ps) + Frames(qs)
    decreases |ps|
  {
    if ps == [] {
      assert ps + qs == qs;
    } else {
      assert (ps + qs)[1..] == ps[1..] + qs;
      FramesConcat(ps[1..], qs);
    }
  }

  /** The retained remainder is shorter than the longest frame. */
  lemma RestIsShort(s: seq<byte>)
    requires Incomplete(s)
    ensures |s| < HEADER + MAX_PAYLOAD
    ensures Parse(s) == Parsed([], s)
  {}

  /** Two strings that begin with a frame that fits begin with the same one. */
  lemma SameHead(p: Packet, more: seq<byte>, q: Packet, qmore: seq<byte>)
    requires |p| <= MAX_PAYLOAD && |q| <= MAX_PAYLOAD
    requires Frame(p) + more == Frame(q) + qmore
    ensures p == q && more == qmore
  {
    var s := Frame(p) + more;
    HeaderReads(p, more);
    HeaderReads(q, qmore);
    assert |p| == |q|;
    assert s[HEADER..HEADER + |p|] == p && s[HEADER..HEADER + |q|] == q;
    assert s[HEADER + |p|..] == more && s[HEADER + |q|..] == qmore;
  }

  /** The packets up to the k-th are there, or those that are there are the first. */
  predicate Intact(ps: seq<Packet>, qs: seq<Packet>, k: nat)
    requires k <= |qs|
  {
    if |ps| <= k then ps <= qs else qs[..k] <= ps
  }

  /** Frames cut out of a string can be matched from the front, as far as what was
      printed fits. */
  lemma {:induction false} FramesPrefix(ps: seq<Packet>, rest: seq<byte>, qs: seq<Packet>, k: nat)
    requires k <= |qs| && Fits(ps) && Fits(qs[..k])
    requires Frames(ps) + rest == Frames(qs)
    ensures Intact(ps, qs, k)
    ensures |ps| <= k ==> rest == Frames(qs[|ps|..])
    decreases |ps|
  {
    if ps == [] {
      assert Frames(ps) + rest == rest;
    } else if k > 0 {
      var more := Frames(ps[1..]) + rest;
      assert Frames(qs) == Frame(ps[0]) + more;
      assert qs[..k][0] == qs[0] && qs[1..][..k - 1] == qs[..k][1..];
      SameHead(ps[0], more, qs[0], Frames(qs[1..]));
      FramesPrefix(ps[1..], rest, qs[1..], k - 1);
      assert ps == [ps[0]] + ps[1..] && qs == [qs[0]] + qs[1..];
      if |ps| <= k {
        assert qs[1..][|ps| - 1..] == qs[|ps|..];
      }
    }
  }

  /** No more packets than were printed, if all of those fit. */
  lemma {:induction false} FramesCount(ps: seq<Packet>, rest: seq<byte>, qs: seq<Packet>)
    requires Fits(ps) && Fits(qs) && Frames(ps) + rest == Frames(qs)
    ensures |ps| <= |qs|
    decreases |ps|
  {
    if ps != [] {
      var more := Frames(ps[1..]) + rest;
      assert Frames(qs) == Frame(ps[0]) + more;
      SameHead(ps[0], more, qs[0], Frames(qs[1..]));
      FramesCount(ps[1..], rest, qs[1..]);
    }
  }

  /** A single packet survives printing and parsing exactly when its length
      fits in the header. */
  lemma FrameRoundTrip(p: Packet)
    ensures Parse(Frame(p)) == Parsed([p], []) <==> |p| <= MAX_PAYLOAD
  {
    assert Frame(p) + [] == Frame(p);
    if |p| <= MAX_PAYLOAD {
      assert Frames([p]) == Frame(p) + Frames([]) == Frame(p);
      ParseUnique([p], []);
    } else {
      HeaderReads(p, []);
      assert GetBE16(Frame(p)) < |p|;
      assert Parse(Frame(p)).packets != [] ==> |Parse(Frame(p)).packets[0]| < |p|;
    }
  }
}
