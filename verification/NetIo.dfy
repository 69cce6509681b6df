/** The objects behind a channel, with their fields and in-place buffers:
    SocketDispatcher (with PhysicalSocket), NetCenter's per-descriptor record,
    PhysicalSocketServer's dispatcher list and NetCenter itself. Every method is
    proved against the functions of Channel. */
module NetIo {
  import opened Bytes
  import opened Sequences
  import opened Framing
  import opened Channel

  /** What the kernel answers while one dispatcher is visited. */
  datatype Probe = Probe(err: int, peek: SysResult, io: Io)

  /** SocketDispatcher together with the PhysicalSocket it derives from. */
  class SocketDispatcher {
    var fd: int
    var state: ConnState
    var enabledEvents: set<Event>
    var error: int

    ghost function Abs(): Sock
      reads this
    {
      Sock(fd, state, enabledEvents, error)
    }

    constructor ()
      ensures Abs() == FreshSock(INVALID_SOCKET)
      ensures fd == -1 && state == CsClosed && enabledEvents == {} && error == 0
    {
      fd, state, enabledEvents, error := INVALID_SOCKET, CsClosed, {}, 0;
    }

    method Close(errno: int)
      modifies this
      ensures Abs() == Channel.Close(old(Abs()), errno)
      ensures fd == INVALID_SOCKET
      ensures old(fd) != INVALID_SOCKET ==> state == CsClosed && enabledEvents == {} && error == errno
      ensures old(fd) == INVALID_SOCKET ==> unchanged(this)
    {
      if fd == INVALID_SOCKET {
        return;
      }
      error := errno;
      fd := INVALID_SOCKET;
      state := CsClosed;
      enabledEvents := {};
    }

    /** PhysicalSocket::Create for a stream socket. */
    method Create(closeErrno: int, r: SysResult) returns (ok: bool)
      modifies this
      ensures ok <==> r.value != INVALID_SOCKET
      ensures ok ==> Abs() == Channel.Close(old(Abs()), closeErrno).(fd := r.value)
      ensures !ok ==> Abs() == Channel.Close(old(Abs()), closeErrno).(fd := INVALID_SOCKET, error := r.errno)
      ensures fd == r.value
      ensures old(fd) != INVALID_SOCKET ==> state == CsClosed && enabledEvents == {}
      ensures old(fd) == INVALID_SOCKET ==> state == old(state) && enabledEvents == old(enabledEvents)
    {
      Close(closeErrno);
      fd := r.value;
      if fd == INVALID_SOCKET {
        error := r.errno;
        return false;
      }
      return true;
    }

    method Connect(made: SysResult, r: SysResult) returns (res: int)
      modifies this
      ensures (Abs(), res) == Channel.Connect(old(Abs()), made, r)
    {
      if state != CsClosed {
        error := EALREADY;
        return -1;
      }
      if fd == INVALID_SOCKET {
        var ok := Create(0, made);
        if !ok {
          return -1;
        }
      }
      error := r.errno;
      if r.value == 0 {
        state := CsConnected;
      } else if IsBlockingError(error) {
        state := CsConnecting;
        enabledEvents := enabledEvents + {DeConnect};
      } else {
        return -1;
      }
      enabledEvents := enabledEvents + {DeRead, DeWrite};
      assert Channel.Connect(old(Abs()), made, r).0.events == enabledEvents;
      return 0;
    }

    method Send(r: SysResult) returns (sent: int)
      modifies this
      ensures sent == r.value
      ensures Abs() == Channel.Send(old(Abs()), r)
    {
      sent := r.value;
      error := r.errno;
      if sent < 0 && IsBlockingError(error) {
        enabledEvents := enabledEvents + {DeWrite};
      }
    }

    /** Recv into buffer[at..at + length]. */
    method Recv(buffer: array<byte>, at: nat, length: nat, r: RecvResult) returns (received: int)
      requires at + length <= buffer.Length
      modifies this, buffer
      ensures (Abs(), received) == (Channel.Recv(old(Abs()), length, r).0, Channel.Recv(old(Abs()), length, r).1)
      ensures var d := Channel.Recv(old(Abs()), length, r).2;
              buffer[..] == old(buffer[..at]) + d + old(buffer[at + |d|..])
    {
      match r
      case Bytes(data, errno) =>
        var d := Clip(data, length);
        forall i | 0 <= i < |d| {
          buffer[at + i] := d[i];
        }
        received := |d|;
        enabledEvents := enabledEvents + {DeRead};
        if received == 0 && length != 0 {
          error := EAGAIN;
          received := -1;
        } else {
          error := errno;
        }
      case Failed(errno) =>
        received := -1;
        error := errno;
        if IsBlockingError(error) {
          enabledEvents := enabledEvents + {DeRead};
        }
    }

    /** `peek` answers the one-byte MSG_PEEK receive. */
    method IsDescriptorClosed(peek: SysResult) returns (closed: bool)
      ensures closed <==> Eof(peek)
    {
      if peek.value > 0 {
        return false;
      } else if peek.value == 0 {
        return true;
      } else {
        return peek.errno == EBADF || peek.errno == ECONNRESET;
      }
    }

    /** The event mask Wait builds for this dispatcher. */
    method ReadyEvents(readBit: bool, writeBit: bool, probe: Probe) returns (ff: set<Event>)
      ensures ff == EventMask(readBit, writeBit, enabledEvents, probe.err, Eof(probe.peek))
    {
      ff := {};
      var errcode := if readBit || writeBit then probe.err else 0;
      if readBit {
        if DeAccept in enabledEvents {
          ff := ff + {DeAccept};
        } else {
          var closed := IsDescriptorClosed(probe.peek);
          ff := ff + if errcode != 0 || closed then {DeClose} else {DeRead};
        }
      }
      if writeBit {
        if DeConnect in enabledEvents {
          ff := ff + if errcode == 0 then {DeConnect} else {DeClose};
        } else {
          ff := ff + {DeWrite};
        }
      }
    }

    method OnPreEvent(ff: set<Event>)
      modifies this
      ensures Abs() == PreEvent(old(Abs()), ff)
    {
      if DeConnect in ff {
        state := CsConnected;
      }
      if DeClose in ff {
        state := CsClosed;
      }
    }
  }

  /** memmove(buffer, buffer + from, count) */
  method MoveToFront(buffer: array<byte>, from: nat, count: nat)
    requires from + count <= buffer.Length
    modifies buffer
    ensures buffer[..count] == old(buffer[from..from + count])
  {
    forall i | 0 <= i < count {
      buffer[i] := buffer[from + i];
    }
  }

  lemma ArraySlice(a: array<byte>, n: nat, i: nat, j: nat)
    requires i <= j <= n <= a.Length
    ensures a[..n][i..j] == a[i..j]
  {}

  /** The loop has taken `packets` off the front of `all` and has `left`. */
  ghost predicate Peeled(packets: seq<Packet>, left: seq<byte>, all: seq<byte>)
  {
    Parse(all) == Parsed(packets + Parse(left).packets, Parse(left).rest)
  }

  lemma PeelStep(packets: seq<Packet>, s: seq<byte>, all: seq<byte>)
    requires Peeled(packets, s, all) && !Incomplete(s)
    ensures var n := HEADER + GetBE16(s);
            Peeled(packets + [s[HEADER..n]], s[n..], all)
  {
    var n := HEADER + GetBE16(s);
    var p, later := [s[HEADER..n]], Parse(s[n..]);
    assert Parse(s) == Parsed(p + later.packets, later.rest);
    assert packets + (p + later.packets) == (packets + p) + later.packets;
  }

  lemma PeelDone(packets: seq<Packet>, s: seq<byte>, all: seq<byte>)
    requires Peeled(packets, s, all) && Incomplete(s)
    ensures Parse(all) == Parsed(packets, s)
  {
    assert packets + [] == packets;
  }

  function Visited(c: Chan, readBit: bool, writeBit: bool, probe: Probe): (Chan, seq<Note>)
    requires c.Valid()
  {
    Dispatch(c, readBit, writeBit, probe.err, Eof(probe.peek), probe.io)
  }

  /** NetCenter::stSocketObj */
  class SocketObj {
    const inbuf: array<byte>
    const outbuf: array<byte>
    const dispatch: SocketDispatcher
    var inpos: nat
    var outpos: nat

    function Footprint(): set<object>
    {
      {this, inbuf, outbuf, dispatch}
    }

    ghost predicate Valid()
      reads this, inbuf, outbuf
    {
      && inbuf != outbuf
      && inbuf.Length == IN_SIZE && outbuf.Length == OUT_SIZE
      && inpos <= IN_SIZE && outpos <= OUT_SIZE
      && Incomplete(inbuf[..inpos])
    }

    ghost function Abs(): Chan
      requires Valid()
      reads this, inbuf, outbuf, dispatch
      ensures Abs().Valid()
    {
      Chan(dispatch.Abs(), outbuf[..outpos], inbuf[..inpos])
    }

    constructor (d: SocketDispatcher)
      ensures Valid() && dispatch == d
      ensures Abs() == Chan(d.Abs(), [], [])
      ensures fresh(inbuf) && fresh(outbuf)
    {
      inbuf := new byte[IN_SIZE];
      outbuf := new byte[OUT_SIZE];
      inpos, outpos := 0, 0;
      dispatch := d;
    }

    /** Header and payload go behind what is already queued. */
    method Append(pv: Packet)
      requires Valid() && outpos + |pv| + HEADER <= OUT_SIZE
      modifies this`outpos, outbuf
      ensures Valid()
      ensures outbuf[..outpos] == old(outbuf[..outpos]) + Frame(pv)
    {
      SetBE16(outbuf, outpos, |pv| % 0x1_0000);
      forall i | 0 <= i < |pv| {
        outbuf[outpos + HEADER + i] := pv[i];
      }
      outpos := outpos + |pv| + HEADER;
    }

    /** Offer the whole output buffer to the socket and drop what it took. */
    method Flush(r: SysResult) returns (res: int)
      requires Valid()
      modifies this`outpos, outbuf, dispatch
      ensures Valid()
      ensures dispatch.Abs() == Channel.Send(old(dispatch.Abs()), r)
      ensures outbuf[..outpos] == old(outbuf[..outpos])[Taken(r, old(outpos))..]
      ensures res == if r.value <= old(outpos) then r.value else -1
    {
      ghost var queued := outbuf[..outpos];
      assert queued[0..] == queued;
      res := dispatch.Send(r);
      if res <= 0 {
        return;
      }
      if res <= outpos {
        outpos := outpos - res;
      } else {
        return -1;
      }
      if outpos > 0 {
        MoveToFront(outbuf, res, outpos);
      }
    }

    /** SendDataWithFD once the descriptor has been found. */
    method SendData(pv: Packet, r: SysResult) returns (res: int)
      requires Valid()
      modifies Footprint()
      ensures Valid()
      ensures (Abs(), res) == SendPacket(old(Abs()), pv, r)
    {
      if outpos + |pv| + HEADER > OUT_SIZE {
        dispatch.error := EMSGSIZE;
        return -1;
      }
      ghost var was := Abs();
      Append(pv);
      res := Flush(r);
      assert Abs() == SendPacket(was, pv, r).0;
    }

    method OnWriteEvent(r: SysResult)
      requires Valid()
      modifies Footprint()
      ensures Valid()
      ensures Abs() == WriteEvent(old(Abs()), r)
    {
      if outpos > 0 {
        ghost var was := Abs();
        var res := Flush(r);
        assert Abs() == WriteEvent(was, r);
      }
    }

    /** The frame loop of OnReadEvent. */
    method PeelFrames() returns (packets: seq<Packet>)
      requires inbuf.Length == IN_SIZE && inpos <= IN_SIZE
      modifies this`inpos, inbuf
      ensures inpos <= IN_SIZE
      ensures Parsed(packets, inbuf[..inpos]) == Parse(old(inbuf[..inpos]))
      ensures Incomplete(inbuf[..inpos])
    {
      packets := [];
      ghost var all := inbuf[..inpos];
      ghost var here := all;
      while true
        invariant inpos <= IN_SIZE
        invariant here == inbuf[..inpos]
        invariant Peeled(packets, here, all)
        decreases inpos
      {
        if inpos < HEADER {
          break;
        }
        var pktLen := GetBE16(inbuf[..HEADER]);
        ArraySlice(inbuf, inpos, 0, HEADER);
        assert pktLen == GetBE16(here);
        if inpos < HEADER + pktLen {
          break;
        }
        PeelStep(packets, here, all);
        ArraySlice(inbuf, inpos, HEADER, HEADER + pktLen);
        packets := packets + [inbuf[HEADER..HEADER + pktLen]];
        inpos := inpos - (HEADER + pktLen);
        here := here[HEADER + pktLen..];
        if inpos > 0 {
          MoveToFront(inbuf, HEADER + pktLen, inpos);
        }
      }
      PeelDone(packets, here, all);
    }

    method OnReadEvent(r: RecvResult) returns (packets: seq<Packet>)
      requires Valid()
      modifies Footprint()
      ensures Valid()
      ensures (Abs(), packets) == ReadEvent(old(Abs()), r)
    {
      RestIsShort(inbuf[..inpos]);
      ghost var was := Abs();
      var len := dispatch.Recv(inbuf, inpos, IN_SIZE - inpos, r);
      if len < 0 {
        assert inbuf[..inpos] == was.residual;
        return [];
      }
      inpos := inpos + len;
      ghost var all := inbuf[..inpos];
      assert all == was.residual + Channel.Recv(was.sock, IN_SIZE - |was.residual|, r).2;
      packets := PeelFrames();
      RestIsShort(inbuf[..inpos]);
      if inpos >= IN_SIZE {
        // the overflow reset of the source: no remainder is ever that long
        assert false;
      }
    }

    /** enabled_events_ &= ~gone */
    method Ignore(gone: set<Event>)
      requires Valid()
      modifies dispatch
      ensures Valid()
      ensures Abs() == Without(old(Abs()), gone)
    {
      dispatch.enabledEvents := dispatch.enabledEvents - gone;
    }

    /** The branch of OnEvent for accept or read. */
    method SignalRead(ff: set<Event>, e: Event, r: RecvResult) returns (notes: seq<Note>)
      requires Valid()
      modifies Footprint()
      ensures Valid()
      ensures (Abs(), notes) == ReadPart(old(Abs()), ff, e, r)
    {
      notes := [];
      if e in ff {
        Ignore({e});
        var packets := OnReadEvent(r);
        notes := NoteOf(packets);
      }
    }

    method SignalConnect(ff: set<Event>) returns (notes: seq<Note>)
      requires Valid()
      modifies dispatch
      ensures Valid()
      ensures (Abs(), notes) == ConnectPart(old(Abs()), ff)
    {
      notes := [];
      if DeConnect in ff {
        Ignore({DeConnect});
        notes := [Connected];
      }
    }

    method SignalWrite(ff: set<Event>, r: SysResult)
      requires Valid()
      modifies Footprint()
      ensures Valid()
      ensures Abs() == WritePart(old(Abs()), ff, r)
    {
      if DeWrite in ff {
        Ignore({DeWrite});
        OnWriteEvent(r);
      }
    }

    method SignalClose(ff: set<Event>) returns (notes: seq<Note>)
      requires Valid()
      modifies dispatch
      ensures Valid()
      ensures (Abs(), notes) == ClosePart(old(Abs()), ff)
    {
      notes := [];
      if DeClose in ff {
        Ignore(dispatch.enabledEvents);
        notes := [Closed];
      }
    }

    /** SocketDispatcher::OnEvent, its signals connected to this record:
        connect and accept first, close last. */
    method OnEvent(ff: set<Event>, io: Io) returns (notes: seq<Note>)
      requires Valid()
      modifies Footprint()
      ensures Valid()
      ensures (Abs(), notes) == Channel.OnEvent(old(Abs()), ff, io)
    {
      var n1 := SignalConnect(ff);
      var n2 := SignalRead(ff, DeAccept, io.accept);
      var n3 := SignalRead(ff, DeRead, io.read);
      SignalWrite(ff, io.write);
      var n5 := SignalClose(ff);
      notes := n1 + n2 + n3 + n5;
    }

    /** The body of the dispatch loop: mask, OnPreEvent, OnEvent. */
    method Dispatch(readBit: bool, writeBit: bool, probe: Probe) returns (notes: seq<Note>)
      requires Valid()
      modifies Footprint()
      ensures Valid() && dispatch.fd == old(dispatch.fd)
      ensures (Abs(), notes) == Visited(old(Abs()), readBit, writeBit, probe)
    {
      DispatchKeepsFd(Abs(), readBit, writeBit, probe.err, Eof(probe.peek), probe.io);
      var ff := dispatch.ReadyEvents(readBit, writeBit, probe);
      notes := [];
      if ff != {} {
        dispatch.OnPreEvent(ff);
        notes := OnEvent(ff, probe.io);
      }
    }
  }

  function DropAt<T>(s: seq<T>, at: nat): (t: seq<T>)
    requires at < |s|
    ensures |t| == |s| - 1
    ensures forall k :: 0 <= k < |t| ==> t[k] == s[if k < at then k else k + 1]
  {
    s[..at] + s[at + 1..]
  }

  lemma DropAtUnique<T>(s: seq<T>, at: nat)
    requires NoDuplicates(s) && at < |s|
    ensures NoDuplicates(DropAt(s, at))
    ensures forall x :: x in DropAt(s, at) <==> x in s && x != s[at]
  {
    var t := DropAt(s, at);
    forall x | x in s && x != s[at]
      ensures x in t
    {
      var k :| 0 <= k < |s| && s[k] == x;
      assert t[if k < at then k else k - 1] == x;
    }
  }

  /** A dispatch round under way: the channels, the bits not yet consumed, and
      what each visit so far reported. */
  datatype RoundState = RoundState(chans: map<int, Chan>, r: set<int>, w: set<int>, notes: seq<seq<Note>>)
  {
    predicate Valid()
    {
      forall fd :: fd in chans ==> chans[fd].Valid()
    }
  }

  /** Sound channels, and an order that names each of them once. */
  ghost predicate Complete(chans: map<int, Chan>, order: seq<int>)
  {
    && (forall fd :: fd in chans ==> chans[fd].Valid())
    && (forall fd :: fd in order <==> fd in chans)
    && NoDuplicates(order)
  }

  function VisitFd(s: RoundState, fd: int, probe: Probe): (t: RoundState)
    requires s.Valid() && fd in s.chans
    ensures t.Valid() && t.chans.Keys == s.chans.Keys
  {
    var (chan, notes) := Visited(s.chans[fd], fd in s.r, fd in s.w, probe);
    RoundState(s.chans[fd := chan], s.r - {fd}, s.w - {fd}, s.notes + [notes])
  }

  /** Visiting the descriptors of `order` one after the other. */
  function Round(s: RoundState, order: seq<int>, probes: int -> Probe): (t: RoundState)
    requires s.Valid() && forall fd :: fd in order ==> fd in s.chans
    ensures t.Valid() && t.chans.Keys == s.chans.Keys
    decreases |order|
  {
    if order == [] then s
    else
      var n := |order| - 1;
      VisitFd(Round(s, order[..n], probes), order[n], probes(order[n]))
  }

  lemma RoundNext(s: RoundState, order: seq<int>, i: nat, probes: int -> Probe)
    requires s.Valid() && (forall fd :: fd in order ==> fd in s.chans) && i < |order|
    ensures Round(s, order[..i + 1], probes) == VisitFd(Round(s, order[..i], probes), order[i], probes(order[i]))
  {
    assert order[..i + 1][..i] == order[..i];
  }

  /** A round consumes exactly the bits of the descriptors it visits. */
  lemma {:induction false} RoundConsumes(s: RoundState, order: seq<int>, probes: int -> Probe)
    requires s.Valid() && forall fd :: fd in order ==> fd in s.chans
    ensures var t := Round(s, order, probes);
            && |t.notes| == |s.notes| + |order|
            && t.r == s.r - (set fd | fd in order) && t.w == s.w - (set fd | fd in order)
    decreases |order|
  {
    if order != [] {
      var n := |order| - 1;
      RoundConsumes(s, order[..n], probes);
      assert order == order[..n] + [order[n]];
    }
  }

  lemma RoundEmpties(s: RoundState, order: seq<int>, probes: int -> Probe)
    requires s.Valid() && Complete(s.chans, order)
    ensures var t := Round(s, order, probes);
            |t.notes| == |s.notes| + |order| && t.r == s.r - s.chans.Keys && t.w == s.w - s.chans.Keys
  {
    RoundConsumes(s, order, probes);
    var visited := set fd | fd in order;
    assert forall fd :: fd in s.chans ==> fd in order;
    assert visited <= s.chans.Keys && s.chans.Keys <= visited;
  }

  /** What a visit of `fd` makes of it in state `s`. */
  predicate VisitIs(s: RoundState, fd: int, probe: Probe, chan: Chan, notes: seq<Note>)
    requires s.Valid() && fd in s.chans
  {
    (chan, notes) == Visited(s.chans[fd], fd in s.r, fd in s.w, probe)
  }

  lemma VisitFdMeans(s: RoundState, fd: int, probe: Probe)
    requires s.Valid() && fd in s.chans
    ensures var t := VisitFd(s, fd, probe);
            && |t.notes| == |s.notes| + 1 && t.notes[..|s.notes|] == s.notes
            && VisitIs(s, fd, probe, t.chans[fd], t.notes[|s.notes|])
            && forall g :: g in s.chans && g != fd ==> t.chans[g] == s.chans[g]
  {}

  /** State `t` has of the k-th descriptor of `order` what a visit in state `s` makes of it. */
  predicate Kth(s: RoundState, t: RoundState, order: seq<int>, probes: int -> Probe, k: nat)
    requires s.Valid()
  {
    && k < |order| && order[k] in s.chans && order[k] in t.chans && |s.notes| + k < |t.notes|
    && VisitIs(s, order[k], probes(order[k]), t.chans[order[k]], t.notes[|s.notes| + k])
  }

  /** One visit more leaves the earlier ones. */
  lemma KthStays(s: RoundState, u: RoundState, order: seq<int>, last: int, probes: int -> Probe, k: nat)
    requires s.Valid() && u.Valid() && last in u.chans
    requires Kth(s, u, order, probes, k) && last !in order
    ensures Kth(s, VisitFd(u, last, probes(last)), order + [last], probes, k)
  {
    var t := VisitFd(u, last, probes(last));
    VisitFdMeans(u, last, probes(last));
    assert t.notes[|s.notes| + k] == t.notes[..|u.notes|][|s.notes| + k];
    assert (order + [last])[k] == order[k] && order[k] in order;
  }

  /** The visit of a descriptor that earlier visits left alone. */
  lemma KthNew(s: RoundState, u: RoundState, order: seq<int>, last: int, probes: int -> Probe)
    requires s.Valid() && u.Valid() && last in s.chans && last in u.chans && |u.notes| == |s.notes| + |order|
    requires u.chans[last] == s.chans[last] && (last in u.r <==> last in s.r) && (last in u.w <==> last in s.w)
    ensures Kth(s, VisitFd(u, last, probes(last)), order + [last], probes, |order|)
  {
    VisitFdMeans(u, last, probes(last));
  }

  /** State `t` comes of one visit each, in state `s`, and nothing else. */
  ghost predicate OnceEach(s: RoundState, t: RoundState, order: seq<int>, probes: int -> Probe)
    requires s.Valid()
  {
    && t.Valid() && t.chans.Keys == s.chans.Keys && |t.notes| == |s.notes| + |order|
    && (forall k: nat :: k < |order| ==> Kth(s, t, order, probes, k))
    && (forall fd :: fd in s.chans && fd !in order ==> t.chans[fd] == s.chans[fd])
  }

  lemma OnceMore(s: RoundState, u: RoundState, order: seq<int>, last: int, probes: int -> Probe)
    requires s.Valid() && OnceEach(s, u, order, probes) && last in s.chans && last !in order
    requires (last in u.r <==> last in s.r) && (last in u.w <==> last in s.w)
    ensures OnceEach(s, VisitFd(u, last, probes(last)), order + [last], probes)
  {
    var t := VisitFd(u, last, probes(last));
    VisitFdMeans(u, last, probes(last));
    forall k: nat | k < |order + [last]|
      ensures Kth(s, t, order + [last], probes, k)
    {
      if k < |order| {
        KthStays(s, u, order, last, probes, k);
      } else {
        KthNew(s, u, order, last, probes);
      }
    }
  }

  /** A round over distinct descriptors visits each once, with the bits the round
      began with, whatever the earlier visits did, and touches no other. */
  lemma {:induction false} RoundVisitsOnce(s: RoundState, order: seq<int>, probes: int -> Probe)
    requires s.Valid() && (forall fd :: fd in order ==> fd in s.chans) && NoDuplicates(order)
    ensures OnceEach(s, Round(s, order, probes), order, probes)
    decreases |order|
  {
    if order != [] {
      var n := |order| - 1;
      var last, first := order[n], order[..n];
      RoundConsumes(s, first, probes);
      RoundVisitsOnce(s, first, probes);
      assert order == first + [last] && last !in first;
      OnceMore(s, Round(s, first, probes), first, last, probes);
    }
  }

  /** PhysicalSocketServer's dispatcher list and the two stages of Wait. */
  class PhysicalSocketServer {
    var dispatchers: seq<SocketDispatcher>

    constructor ()
      ensures dispatchers == []
    {
      dispatchers := [];
    }

    method Add(d: SocketDispatcher)
      requires NoDuplicates(dispatchers)
      modifies this
      ensures NoDuplicates(dispatchers)
      ensures dispatchers == if d in old(dispatchers) then old(dispatchers) else old(dispatchers) + [d]
    {
      if d in dispatchers {
        return;
      }
      dispatchers := dispatchers + [d];
    }

    /** A dispatcher not in the list is ignored; `pos` is where it stood. */
    method Remove(d: SocketDispatcher) returns (pos: nat)
      requires NoDuplicates(dispatchers)
      modifies this
      ensures NoDuplicates(dispatchers)
      ensures d !in old(dispatchers) ==> dispatchers == old(dispatchers)
      ensures d in old(dispatchers) ==>
                && pos < |old(dispatchers)| && old(dispatchers)[pos] == d
                && dispatchers == DropAt(old(dispatchers), pos)
    {
      pos := 0;
      while pos < |dispatchers| && dispatchers[pos] != d
        invariant pos <= |dispatchers|
        invariant d !in dispatchers[..pos]
      {
        pos := pos + 1;
      }
      if pos == |dispatchers| {
        return;
      }
      DropAtUnique(dispatchers, pos);
      dispatchers := dispatchers[..pos] + dispatchers[pos + 1..];
    }

    /** The gather loop with process_io set: bits are only ever added. */
    method Gather(fdsRead: set<int>, fdsWrite: set<int>) returns (r: set<int>, w: set<int>, fdmax: int)
      ensures r == fdsRead + set d | d in dispatchers && !(d.enabledEvents !! {DeRead, DeAccept}) :: d.fd
      ensures w == fdsWrite + set d | d in dispatchers && !(d.enabledEvents !! {DeWrite, DeConnect}) :: d.fd
      ensures forall d :: d in dispatchers ==> d.fd <= fdmax
    {
      r, w, fdmax := fdsRead, fdsWrite, -1;
      for i := 0 to |dispatchers|
        invariant r == fdsRead + set d | d in dispatchers[..i] && !(d.enabledEvents !! {DeRead, DeAccept}) :: d.fd
        invariant w == fdsWrite + set d | d in dispatchers[..i] && !(d.enabledEvents !! {DeWrite, DeConnect}) :: d.fd
        invariant forall d :: d in dispatchers[..i] ==> d.fd <= fdmax
      {
        var d := dispatchers[i];
        assert dispatchers[..i + 1] == dispatchers[..i] + [d];
        if d.fd > fdmax {
          fdmax := d.fd;
        }
        var ff := d.enabledEvents;
        if DeRead in ff || DeAccept in ff {
          r := r + {d.fd};
        }
        if DeWrite in ff || DeConnect in ff {
          w := w + {d.fd};
        }
      }
    }
  }

  /** Gathering adds bits of `live` descriptors only, and a round consumes those. */
  lemma TurnSets(before: set<int>, gathered: set<int>, ready: set<int>, live: set<int>)
    requires before <= gathered <= before + live
    ensures gathered * ready - live == before * ready - live
    ensures before <= live ==> gathered * ready - live == {}
  {}

  /** `s` is `was` without `x`, in the same order. */
  ghost predicate Dropped<T(!new)>(s: seq<T>, was: seq<T>, x: T)
  {
    exists at :: 0 <= at < |was| && was[at] == x && s == DropAt(was, at)
  }

  predicate Sound(chans: map<int, Chan>)
  {
    forall fd :: fd in chans ==> chans[fd].Valid()
  }

  /** SendDataWithFD's result; `false` for an unknown descriptor is 0. */
  function SendResult(chans: map<int, Chan>, fd: int, p: Packet, r: SysResult): int
    requires Sound(chans)
  {
    if fd in chans then SendPacket(chans[fd], p, r).1 else 0
  }

  /** 0 says that the frame was taken in and -1 that it was not, as the Java interface
      documents, exactly when the descriptor is known and the buffer refuses the frame
      or the kernel takes nothing without an error. */
  lemma SendDataAsDocumented(chans: map<int, Chan>, fd: int, p: Packet, r: SysResult)
    requires Sound(chans)
    ensures SendResult(chans, fd, p, r) == (if fd in chans && Accepts(chans[fd], p) then 0 else -1) <==>
              fd in chans && (Accepts(chans[fd], p) ==> r.value == 0)
  {
    if fd in chans {
      SendResultAsDocumented(chans[fd], p, r);
    }
  }

  /** NetCenter: the descriptor table beside the dispatcher list. `chans` is
      every channel's abstract value, by descriptor; `owner` says which
      descriptor each object in the table belongs to; `listed` gives the
      descriptors in the order of the dispatcher list. */
  class NetCenter {
    var runFlag: bool
    var socketObjs: map<int, SocketObj>
    const server: PhysicalSocketServer
    ghost var chans: map<int, Chan>
    ghost var owner: map<object, int>
    ghost var listed: seq<int>

    ghost function Objects(): set<object>
      reads `socketObjs
    {
      (set fd | fd in socketObjs :: socketObjs[fd] as object)
      + (set fd | fd in socketObjs :: socketObjs[fd].inbuf as object)
      + (set fd | fd in socketObjs :: socketObjs[fd].outbuf as object)
      + (set fd | fd in socketObjs :: socketObjs[fd].dispatch as object)
    }

    /** One entry is filed under its dispatcher's descriptor, has a valid record,
        is what `chans` says, and shares nothing. */
    ghost predicate EntryOk(fd: int)
      requires fd in socketObjs
      reads this, server, socketObjs[fd], socketObjs[fd].inbuf, socketObjs[fd].outbuf, socketObjs[fd].dispatch
    {
      var obj := socketObjs[fd];
      && obj.Valid()
      && obj.dispatch.fd == fd != INVALID_SOCKET
      && fd in chans && chans[fd] == obj.Abs()
      && forall o :: o in obj.Footprint() ==> o in owner && owner[o] == fd
    }

    /** The loop's list holds the dispatchers of `fds`, once each. */
    ghost predicate Listing(fds: set<int>)
      reads this, server
    {
      && NoDuplicates(server.dispatchers) && NoDuplicates(listed)
      && |listed| == |server.dispatchers|
      && (forall fd :: fd in fds <==> fd in listed)
      && (forall k :: 0 <= k < |listed| ==> listed[k] in socketObjs && server.dispatchers[k] == socketObjs[listed[k]].dispatch)
    }

    /** The entries are sound, and the loop's list holds their dispatchers, once
        each, and no others. */
    ghost predicate Valid()
      reads this, server, Objects()
    {
      && chans.Keys == socketObjs.Keys
      && (forall fd :: fd in socketObjs ==> EntryOk(fd))
      && Listing(socketObjs.Keys)
    }

    twostate predicate Untouched(obj: SocketObj)
      reads obj, obj.inbuf, obj.outbuf, obj.dispatch
    {
      unchanged(obj) && unchanged(obj.inbuf) && unchanged(obj.outbuf) && unchanged(obj.dispatch)
    }

    /** After work on one entry alone the table is sound again. */
    twostate lemma OneChanged(fd: int)
      requires old(Valid()) && fd in old(socketObjs)
      requires socketObjs == old(socketObjs) && unchanged(server)
      requires forall g :: g in socketObjs && g != fd ==> Untouched(socketObjs[g])
      requires socketObjs[fd].Valid() && socketObjs[fd].dispatch.fd == fd
      requires chans == old(chans)[fd := socketObjs[fd].Abs()] && owner == old(owner) && listed == old(listed)
      ensures Valid()
    {
      forall g | g in socketObjs
        ensures EntryOk(g)
      {
        assert old(EntryOk(g));
      }
    }

    constructor ()
      ensures Valid() && socketObjs == map[] && runFlag && fresh(server) && server.dispatchers == []
    {
      runFlag := true;
      socketObjs := map[];
      chans := map[];
      owner := map[];
      listed := [];
      server := new PhysicalSocketServer();
    }

    /** A record made of new objects may join under an unused descriptor. */
    twostate lemma OneAdded(fd: int)
      requires old(Valid()) && fd !in old(socketObjs) && fd != INVALID_SOCKET
      requires fd in socketObjs && socketObjs == old(socketObjs)[fd := socketObjs[fd]]
      requires forall g :: g in old(socketObjs) ==> Untouched(old(socketObjs)[g])
      requires forall o :: o in old(owner) && o !in socketObjs[fd].Footprint() ==> o in owner && owner[o] == old(owner)[o]
      requires forall o :: o in socketObjs[fd].Footprint() ==> o !in old(owner) && o in owner && owner[o] == fd
      requires socketObjs[fd].Valid() && socketObjs[fd].dispatch.fd == fd
      requires server.dispatchers == old(server.dispatchers) + [socketObjs[fd].dispatch]
      requires chans == old(chans)[fd := socketObjs[fd].Abs()] && listed == old(listed) + [fd]
      requires NoDuplicates(server.dispatchers)
      ensures Valid()
    {
      forall g | g in socketObjs
        ensures EntryOk(g)
      {
        if g != fd {
          assert old(EntryOk(g)) && Untouched(old(socketObjs)[g]);
        }
      }
    }

    /** `objects` come to belong to `fd`. */
    static ghost function Owning(owners: map<object, int>, objects: set<object>, fd: int): (all: map<object, int>)
      ensures forall o :: o in owners && o !in objects ==> o in all && all[o] == owners[o]
      ensures forall o :: o in objects ==> o in all && all[o] == fd
    {
      map o | o in owners.Keys + objects :: if o in objects then fd else owners[o]
    }

    /** The part of CreateFD done under the table's lock, with a new record. */
    method Install(fd: int, obj: SocketObj)
      requires Valid() && fd !in socketObjs && fd != INVALID_SOCKET
      requires obj.Valid() && obj.dispatch.fd == fd && obj.Footprint() !! owner.Keys
      requires obj.dispatch !in server.dispatchers
      modifies this`socketObjs, this`chans, this`owner, this`listed, server
      ensures Valid()
      ensures chans == old(chans)[fd := old(obj.Abs())] && socketObjs == old(socketObjs)[fd := obj]
      ensures server.dispatchers == old(server.dispatchers) + [obj.dispatch] && listed == old(listed) + [fd]
    {
      socketObjs := socketObjs[fd := obj];
      chans := chans[fd := obj.Abs()];
      owner := Owning(owner, obj.Footprint(), fd);
      listed := listed + [fd];
      server.Add(obj.dispatch);
      OneAdded(fd);
    }

    /** CreateFD; `r` is the kernel's answer to socket(), which never is a
        descriptor still open. */
    method CreateFD(r: SysResult) returns (fd: int)
      requires Valid()
      requires r.value !in socketObjs
      modifies this, server
      ensures Valid() && runFlag == old(runFlag)
      ensures !old(runFlag) || r.value == INVALID_SOCKET ==>
                fd == -1 && chans == old(chans) && socketObjs == old(socketObjs)
                && server.dispatchers == old(server.dispatchers)
      ensures old(runFlag) && r.value != INVALID_SOCKET ==>
                && fd == r.value && chans == old(chans)[fd := Chan(FreshSock(fd), [], [])]
                && fd in socketObjs && socketObjs == old(socketObjs)[fd := socketObjs[fd]]
                && server.dispatchers == old(server.dispatchers) + [socketObjs[fd].dispatch]
    {
      if !runFlag {
        return -1;
      }
      var dispatcher := new SocketDispatcher();
      var ok := dispatcher.Create(0, r);
      if !ok {
        return -1;
      }
      fd := dispatcher.fd;
      var obj := new SocketObj(dispatcher);
      assert obj.Footprint() !! owner.Keys;
      Install(fd, obj);
    }

    /** The part of CloseFD that takes the dispatcher out of the loop's list. */
    method Unlist(fd: int)
      requires Valid() && fd in socketObjs
      modifies this`listed, server
      ensures Listing(socketObjs.Keys - {fd})
      ensures Dropped(listed, old(listed), fd)
    {
      ghost var at :| 0 <= at < |listed| && listed[at] == fd;
      assert server.dispatchers[at] == socketObjs[fd].dispatch;
      ghost var pos := server.Remove(socketObjs[fd].dispatch);
      DropAtUnique(listed, at);
      listed := DropAt(listed, at);
    }

    twostate lemma OneRemoved(fd: int)
      requires old(Valid()) && fd in old(socketObjs)
      requires socketObjs == old(socketObjs) - {fd} && chans == old(chans) - {fd} && owner == old(owner)
      requires forall g :: g in socketObjs ==> Untouched(socketObjs[g])
      requires Listing(socketObjs.Keys)
      ensures Valid()
    {
      forall g | g in socketObjs
        ensures EntryOk(g)
      {
        assert old(EntryOk(g));
      }
    }

    /** CloseFD: an unknown descriptor is ignored. Deleting the record deletes its
        dispatcher, whose destructor closes the descriptor, with `errno` afterwards. */
    method CloseFD(fd: int, errno: int)
      requires Valid()
      modifies this, server, if fd in socketObjs then {socketObjs[fd].dispatch} else {}
      ensures Valid() && runFlag == old(runFlag)
      ensures socketObjs == if old(runFlag) then old(socketObjs) - {fd} else old(socketObjs)
      ensures chans == if old(runFlag) then old(chans) - {fd} else old(chans)
      ensures old(runFlag) && fd in old(socketObjs) ==>
                && Dropped(listed, old(listed), fd)
                && old(socketObjs)[fd].dispatch.Abs() == Channel.Close(old(chans)[fd].sock, errno)
                && var d := old(socketObjs)[fd].dispatch;
                   d.fd == INVALID_SOCKET && d.state == CsClosed && d.enabledEvents == {}
      ensures !old(runFlag) || fd !in old(socketObjs) ==>
                && listed == old(listed) && unchanged(server)
                && (fd in socketObjs ==> unchanged(socketObjs[fd].dispatch))
    {
      if !runFlag {
        return;
      }
      if fd in socketObjs {
        assert EntryOk(fd);
        Unlist(fd);
        socketObjs[fd].dispatch.Close(errno);
        socketObjs := socketObjs - {fd};
        chans := chans - {fd};
        OneRemoved(fd);
      }
      assert old(socketObjs) - {fd} == socketObjs && old(chans) - {fd} == chans;
    }

    /** ConnectServiceWhitFD; `notes` is what happens to the descriptor. */
    method ConnectServiceWithFD(fd: int, r: SysResult) returns (ok: bool, notes: seq<Note>)
      requires Valid()
      modifies this`chans, if fd in socketObjs then socketObjs[fd].Footprint() else {}
      ensures Valid()
      ensures !runFlag || fd !in socketObjs ==> !ok && notes == [] && chans == old(chans)
      ensures runFlag && fd in socketObjs ==>
                var (sock, res) := Connect(old(chans)[fd].sock, SysResult(INVALID_SOCKET, 0), r);
                && chans == old(chans)[fd := old(chans)[fd].(sock := sock)]
                && (ok <==> res == 0)
                && notes == if !ok then [] else if sock.state == CsConnected then [Opened, Connected] else [Opened]
    {
      if !runFlag {
        return false, [];
      }
      if fd !in socketObjs {
        return false, [];
      }
      assert EntryOk(fd);
      var dispatch := socketObjs[fd].dispatch;
      var res := dispatch.Connect(SysResult(INVALID_SOCKET, 0), r);
      chans := chans[fd := socketObjs[fd].Abs()];
      OneChanged(fd);
      if res != 0 {
        return false, [];
      }
      notes := [Opened];
      if dispatch.state == CsConnected {
        notes := notes + [Connected];
      }
      return true, notes;
    }

    /** SendDataWithFD: an unknown descriptor gives `false`, that is 0. */
    method SendDataWithFD(fd: int, pv: Packet, r: SysResult) returns (res: int)
      requires Valid()
      modifies this`chans, if fd in socketObjs then socketObjs[fd].Footprint() else {}
      ensures Valid()
      ensures res == SendResult(old(chans), fd, pv, r)
      ensures chans == if fd in socketObjs then old(chans)[fd := SendPacket(old(chans)[fd], pv, r).0] else old(chans)
    {
      if fd !in socketObjs {
        return 0;
      }
      assert EntryOk(fd);
      res := socketObjs[fd].SendData(pv, r);
      chans := chans[fd := socketObjs[fd].Abs()];
      OneChanged(fd);
    }

    method DispatchEntry(fd: int, readBit: bool, writeBit: bool, probe: Probe) returns (notes: seq<Note>)
      requires Valid() && fd in socketObjs
      modifies this`chans, socketObjs[fd].Footprint()
      ensures Valid() && socketObjs == old(socketObjs) && listed == old(listed) && unchanged(server)
      ensures chans == old(chans)[fd := Visited(old(chans)[fd], readBit, writeBit, probe).0]
      ensures notes == Visited(old(chans)[fd], readBit, writeBit, probe).1
    {
      assert EntryOk(fd);
      var obj := socketObjs[fd];
      notes := obj.Dispatch(readBit, writeBit, probe);
      chans := chans[fd := obj.Abs()];
      OneChanged(fd);
    }

    /** One turn of the dispatch loop, for the dispatcher at position `k`. The
        slots find the record under the dispatcher's descriptor. */
    method Visit(k: nat, r: set<int>, w: set<int>, probes: int -> Probe) returns (fd: int, notes: seq<Note>)
      requires Valid() && k < |server.dispatchers|
      modifies this`chans, Objects()
      ensures Valid() && socketObjs == old(socketObjs) && listed == old(listed) && unchanged(server)
      ensures fd == listed[k] && fd in old(chans)
      ensures chans == old(chans)[fd := Visited(old(chans)[fd], fd in r, fd in w, probes(fd)).0]
      ensures notes == Visited(old(chans)[fd], fd in r, fd in w, probes(fd)).1
    {
      fd := server.dispatchers[k].fd;
      assert EntryOk(listed[k]);
      notes := DispatchEntry(fd, fd in r, fd in w, probes(fd));
    }

    /** The dispatch loop of Wait after a positive select: one visit per
        dispatcher in list order. */
    method DispatchRound(fdsRead: set<int>, fdsWrite: set<int>, probes: int -> Probe)
      returns (r: set<int>, w: set<int>, notes: seq<seq<Note>>)
      requires Valid()
      modifies this`chans, Objects()
      ensures Valid() && socketObjs == old(socketObjs) && listed == old(listed)
      ensures Complete(old(chans), old(listed))
      ensures RoundState(chans, r, w, notes) == Round(RoundState(old(chans), fdsRead, fdsWrite, []), old(listed), probes)
      ensures |notes| == |listed| && r == fdsRead - socketObjs.Keys && w == fdsWrite - socketObjs.Keys
    {
      r, w, notes := fdsRead, fdsWrite, [];
      ghost var order := listed;
      ghost var start := RoundState(chans, fdsRead, fdsWrite, []);
      assert Complete(chans, order) by {
        assert forall fd :: fd in chans ==> EntryOk(fd);
      }
      for i := 0 to |server.dispatchers|
        invariant |order| == |server.dispatchers|
        invariant Valid() && unchanged(server) && socketObjs == old(socketObjs) && listed == order
        invariant RoundState(chans, r, w, notes) == Round(start, order[..i], probes)
      {
        var fd, visit := Visit(i, r, w, probes);
        r, w := r - {fd}, w - {fd};
        notes := notes + [visit];
        RoundNext(start, order, i, probes);
      }
      assert order[..|order|] == order;
      RoundEmpties(start, order, probes);
    }

    /** The loop's list holds only descriptors of the table. */
    lemma ListedFds()
      requires Valid()
      ensures forall d :: d in server.dispatchers ==> d.fd in socketObjs
    {
      forall k | 0 <= k < |listed|
        ensures server.dispatchers[k].fd in socketObjs
      {
        assert EntryOk(listed[k]);
      }
    }

    /** The gather loop sets bits of live descriptors only. */
    method GatherListed(fdsRead: set<int>, fdsWrite: set<int>) returns (r: set<int>, w: set<int>)
      requires Valid()
      ensures fdsRead <= r <= fdsRead + socketObjs.Keys
      ensures fdsWrite <= w <= fdsWrite + socketObjs.Keys
    {
      ListedFds();
      var fdmax;
      r, w, fdmax := server.Gather(fdsRead, fdsWrite);
    }

    /** One turn of Wait's loop in which `select` finds something ready: it takes bits
        away from what was gathered, and the round consumes the rest. What is left
        over was there before and belongs to no live descriptor; if there was nothing
        of the kind, both sets are empty again. */
    method WaitTurn(fdsRead: set<int>, fdsWrite: set<int>, readable: set<int>, writable: set<int>, probes: int -> Probe)
      returns (r: set<int>, w: set<int>, notes: seq<seq<Note>>)
      requires Valid()
      modifies this`chans, Objects()
      ensures Valid() && socketObjs == old(socketObjs) && listed == old(listed)
      ensures |notes| == |listed|
      ensures r == fdsRead * readable - socketObjs.Keys
      ensures w == fdsWrite * writable - socketObjs.Keys
      ensures fdsRead <= socketObjs.Keys ==> r == {}
      ensures fdsWrite <= socketObjs.Keys ==> w == {}
    {
      var gatheredRead, gatheredWrite := GatherListed(fdsRead, fdsWrite);
      TurnSets(fdsRead, gatheredRead, readable, socketObjs.Keys);
      TurnSets(fdsWrite, gatheredWrite, writable, socketObjs.Keys);
      r, w, notes := DispatchRound(gatheredRead * readable, gatheredWrite * writable, probes);
    }
  }
}
