/** Whole runs of two NetCenter endpoints over one TCP connection. The kernel is
    free to take any part of what a send offers, to block, to fail, and to cut
    the received bytes anywhere; it only keeps bytes in order. Both directions
    run at once and share each endpoint's record. */
module Stream {
  import opened Bytes
  import opened Sequences
  import opened Framing
  import opened Channel

  /** An endpoint with its history: packets the capacity check let in, packets
      handed to the application, bytes given to and taken from the kernel. */
  datatype Peer = Peer(chan: Chan, accepted: seq<Packet>, handed: seq<byte>,
                       read: seq<byte>, delivered: seq<Packet>)

  /** `ab` holds the bytes in flight from `a` to `b`, `ba` the others. */
  datatype Link = Link(a: Peer, b: Peer, ab: seq<byte>, ba: seq<byte>)

  datatype Action =
    | SendCall(byA: bool, p: Packet, r: SysResult)
    | Writable(byA: bool, r: SysResult)
    | Readable(byA: bool, n: nat, errno: int)
    | ReadFails(byA: bool, errno: int)

  function Flip(l: Link): Link
  {
    Link(l.b, l.a, l.ba, l.ab)
  }

  /** SendDataWithFD at `p`; the kernel appends what it takes to `wire`. */
  function SendAt(p: Peer, wire: seq<byte>, packet: Packet, r: SysResult): (Peer, seq<byte>)
    requires p.chan.Valid()
  {
    var chan := SendPacket(p.chan, packet, r).0;
    if Accepts(p.chan, packet) then
      var queued := p.chan.out + Frame(packet);
      var taken := queued[..Taken(r, |queued|)];
      (p.(chan := chan, accepted := p.accepted + [packet], handed := p.handed + taken), wire + taken)
    else
      (p.(chan := chan), wire)
  }

  function WriteAt(p: Peer, wire: seq<byte>, r: SysResult): (Peer, seq<byte>)
    requires p.chan.Valid()
  {
    var taken := p.chan.out[..Taken(r, |p.chan.out|)];
    (p.(chan := WriteEvent(p.chan, r), handed := p.handed + taken), wire + taken)
  }

  /** OnReadEvent at `p` when the kernel makes up to `n` bytes of `wire` ready. */
  function ReadAt(p: Peer, wire: seq<byte>, n: nat, errno: int): (Peer, seq<byte>)
    requires p.chan.Valid()
  {
    RestIsShort(p.chan.residual);
    var ready := Clip(wire, n);
    var (chan, packets) := ReadEvent(p.chan, Bytes(ready, errno));
    var got := Clip(ready, IN_SIZE - |p.chan.residual|);
    (p.(chan := chan, read := p.read + got, delivered := p.delivered + packets), wire[|got|..])
  }

  function FailAt(p: Peer, errno: int): Peer
    requires p.chan.Valid()
  {
    p.(chan := ReadEvent(p.chan, Failed(errno)).0)
  }

  predicate Ready(l: Link)
  {
    l.a.chan.Valid() && l.b.chan.Valid()
  }

  function StepA(l: Link, act: Action): (m: Link)
    requires Ready(l)
    ensures Ready(m)
  {
    match act
    case SendCall(_, p, r) => var (a, ab) := SendAt(l.a, l.ab, p, r); l.(a := a, ab := ab)
    case Writable(_, r) => var (a, ab) := WriteAt(l.a, l.ab, r); l.(a := a, ab := ab)
    case Readable(_, n, e) => var (a, ba) := ReadAt(l.a, l.ba, n, e); l.(a := a, ba := ba)
    case ReadFails(_, e) => l.(a := FailAt(l.a, e))
  }

  function Step(l: Link, act: Action): (m: Link)
    requires Ready(l)
    ensures Ready(m)
  {
    if act.byA then StepA(l, act) else Flip(StepA(Flip(l), act))
  }

  function Run(l: Link, acts: seq<Action>): (m: Link)
    requires Ready(l)
    ensures Ready(m)
    decreases |acts|
  {
    if acts == [] then l else Run(Step(l, acts[0]), acts[1..])
  }

  /** A fresh record on any socket. */
  function Fresh(s: Sock): Peer
  {
    Peer(Chan(s, [], []), [], [], [], [])
  }

  function Start(s: Sock, t: Sock): (l: Link)
    ensures Ready(l)
  {
    Link(Fresh(s), Fresh(t), [], [])
  }

  // ---- Invariants ------------------------------------------------------

  /** Output: what the kernel was given, then what is queued, is exactly the
      frames accepted, each whole. */
  predicate OutputConserved(p: Peer)
  {
    p.handed + p.chan.out == Frames(p.accepted)
  }

  /** Input: the application has exactly the complete frames of what was read. */
  predicate InputParsed(p: Peer)
  {
    Parse(p.read) == Parsed(p.delivered, p.chan.residual)
  }

  predicate Direction(s: Peer, wire: seq<byte>, t: Peer)
  {
    OutputConserved(s) && s.handed == t.read + wire && InputParsed(t)
  }

  predicate Inv(l: Link)
  {
    Ready(l) && Direction(l.a, l.ab, l.b) && Direction(l.b, l.ba, l.a)
  }

  lemma SplitTaken(handed: seq<byte>, queued: seq<byte>, n: nat)
    requires n <= |queued|
    ensures (handed + queued[..n]) + queued[n..] == handed + queued
  {}

  lemma FrameAppended(handed: seq<byte>, out: seq<byte>, accepted: seq<Packet>, packet: Packet)
    requires handed + out == Frames(accepted)
    ensures handed + (out + Frame(packet)) == Frames(accepted + [packet])
  {
    FramesConcat(accepted, [packet]);
    assert [packet][1..] == [];
    assert Frames([packet]) == Frame(packet) + Frames([]) == Frame(packet);
    assert handed + (out + Frame(packet)) == (handed + out) + Frame(packet);
  }

  lemma SendKeeps(p: Peer, wire: seq<byte>, packet: Packet, r: SysResult, t: Peer)
    requires p.chan.Valid() && Direction(p, wire, t)
    ensures var (q, w) := SendAt(p, wire, packet, r);
            && Direction(q, w, t)
            && q.read == p.read && q.delivered == p.delivered && q.chan.residual == p.chan.residual
  {
    if Accepts(p.chan, packet) {
      var queued := p.chan.out + Frame(packet);
      var taken := queued[..Taken(r, |queued|)];
      FrameAppended(p.handed, p.chan.out, p.accepted, packet);
      SplitTaken(p.handed, queued, |taken|);
      assert (t.read + wire) + taken == t.read + (wire + taken);
    }
  }

  lemma WriteKeeps(p: Peer, wire: seq<byte>, r: SysResult, t: Peer)
    requires p.chan.Valid() && Direction(p, wire, t)
    ensures var (q, w) := WriteAt(p, wire, r);
            && Direction(q, w, t)
            && q.read == p.read && q.delivered == p.delivered && q.chan.residual == p.chan.residual
  {
    var n := Taken(r, |p.chan.out|);
    SplitTaken(p.handed, p.chan.out, n);
    assert (t.read + wire) + p.chan.out[..n] == t.read + (wire + p.chan.out[..n]);
  }

  /** What one read event takes off the wire, and what it makes of it. */
  lemma ReadAtMeans(p: Peer, wire: seq<byte>, n: nat, errno: int) returns (got: seq<byte>)
    requires p.chan.Valid()
    ensures var (q, w) := ReadAt(p, wire, n, errno);
            && wire == got + w
            && q.accepted == p.accepted && q.handed == p.handed && q.chan.out == p.chan.out
            && q.read == p.read + got
            && q.delivered == p.delivered + Parse(p.chan.residual + got).packets
            && q.chan.residual == Parse(p.chan.residual + got).rest
  {
    RestIsShort(p.chan.residual);
    got := Clip(Clip(wire, n), IN_SIZE - |p.chan.residual|);
    assert wire == got + wire[|got|..];
    if got == [] {
      assert p.chan.residual + got == p.chan.residual && p.delivered + [] == p.delivered;
    }
  }

  lemma ReadKeeps(s: Peer, wire: seq<byte>, p: Peer, n: nat, errno: int)
    requires p.chan.Valid() && Direction(s, wire, p)
    ensures var (q, w) := ReadAt(p, wire, n, errno);
            && Direction(s, w, q)
            && q.accepted == p.accepted && q.handed == p.handed && q.chan.out == p.chan.out
  {
    var got := ReadAtMeans(p, wire, n, errno);
    var (q, w) := ReadAt(p, wire, n, errno);
    Associative(p.read, got, w);
    ParseChunks(p.read, got);
    assert InputParsed(q);
  }

  lemma FailKeeps(l: Link, errno: int)
    requires Inv(l)
    ensures Inv(l.(a := FailAt(l.a, errno)))
  {
    RestIsShort(l.a.chan.residual);
  }

  lemma StepAKeeps(l: Link, act: Action)
    requires Inv(l)
    ensures Inv(StepA(l, act))
  {
    match act
    case SendCall(_, p, r) =>
      SendKeeps(l.a, l.ab, p, r, l.b);
      assert InputParsed(StepA(l, act).a);
    case Writable(_, r) =>
      WriteKeeps(l.a, l.ab, r, l.b);
      assert InputParsed(StepA(l, act).a);
    case Readable(_, n, e) =>
      ReadKeeps(l.b, l.ba, l.a, n, e);
      assert OutputConserved(StepA(l, act).a);
    case ReadFails(_, e) => FailKeeps(l, e);
  }

  lemma {:induction false} RunKeeps(l: Link, acts: seq<Action>)
    requires Inv(l)
    ensures Inv(Run(l, acts))
    decreases |acts|
  {
    if acts != [] {
      if acts[0].byA {
        StepAKeeps(l, acts[0]);
      } else {
        StepAKeeps(Flip(l), acts[0]);
      }
      RunKeeps(Step(l, acts[0]), acts[1..]);
    }
  }

  lemma StartInv(s: Sock, t: Sock)
    ensures Inv(Start(s, t))
  {}

  // ---- Main results ----------------------------------------------------

  /** Send-buffer conservation over every run: nothing is lost, repeated or torn,
      whatever the send calls returned, and the buffer never overflows. */
  lemma OutputConservedAlways(s: Sock, t: Sock, acts: seq<Action>)
    ensures var l := Run(Start(s, t), acts);
            && l.a.handed + l.a.chan.out == Frames(l.a.accepted)
            && l.b.handed + l.b.chan.out == Frames(l.b.accepted)
            && |l.a.chan.out| <= OUT_SIZE && |l.b.chan.out| <= OUT_SIZE
  {
    StartInv(s, t);
    RunKeeps(Start(s, t), acts);
  }

  /** The reader never holds as much as the longest frame, so its buffer always
      has room and the overflow reset is never taken. */
  lemma ReaderBound(s: Sock, t: Sock, acts: seq<Action>)
    ensures var l := Run(Start(s, t), acts);
            && |l.a.chan.residual| < HEADER + MAX_PAYLOAD < IN_SIZE
            && |l.b.chan.residual| < HEADER + MAX_PAYLOAD < IN_SIZE
  {
    var l := Run(Start(s, t), acts);
    RestIsShort(l.a.chan.residual);
    RestIsShort(l.b.chan.residual);
  }

  /** What was delivered, then what is on its way, is what was accepted. */
  lemma DirectionFrames(s: Peer, wire: seq<byte>, t: Peer)
    requires Direction(s, wire, t)
    ensures Fits(t.delivered) && Incomplete(t.chan.residual)
    ensures Frames(t.delivered) + (t.chan.residual + wire + s.chan.out) == Frames(s.accepted)
  {
    ParseReprints(t.read);
    Associative(Frames(t.delivered), t.chan.residual, wire);
    Associative(Frames(t.delivered), t.chan.residual + wire, s.chan.out);
  }

  /** A complete frame is not the start of an incomplete string. */
  lemma FramesComplete(ps: seq<Packet>)
    requires Incomplete(Frames(ps))
    ensures ps == []
  {
    if ps != [] {
      HeaderReads(ps[0], Frames(ps[1..]));
    }
  }

  /** All bytes are there: packets that fit were delivered, and all of them. */
  lemma AllThere(delivered: seq<Packet>, residual: seq<byte>, accepted: seq<Packet>)
    requires Fits(delivered) && Fits(accepted) && Incomplete(residual)
    requires Frames(delivered) + residual == Frames(accepted)
    ensures delivered == accepted && residual == []
  {
    var n := |accepted|;
    assert accepted[..n] == accepted;
    FramesCount(delivered, residual, accepted);
    FramesPrefix(delivered, residual, accepted, n);
    FramesComplete(accepted[|delivered|..]);
    assert accepted == delivered + accepted[|delivered|..];
  }

  /** If what was delivered begins what was accepted, and only an incomplete frame is
      left over, it is all of it. */
  lemma PrefixIsAll(delivered: seq<Packet>, residual: seq<byte>, accepted: seq<Packet>)
    requires Incomplete(residual) && delivered <= accepted
    requires Frames(delivered) + residual == Frames(accepted)
    ensures delivered == accepted
  {
    var more := accepted[|delivered|..];
    assert accepted == delivered + more;
    FramesConcat(delivered, more);
    assert (Frames(delivered) + residual)[|Frames(delivered)|..] == residual;
    assert (Frames(delivered) + Frames(more))[|Frames(delivered)|..] == Frames(more);
    FramesComplete(more);
  }

  lemma DirectionDrained(s: Peer, wire: seq<byte>, t: Peer)
    requires Direction(s, wire, t)
    requires wire == [] && s.chan.out == []
    ensures t.delivered == s.accepted <==> Fits(s.accepted)
    ensures t.delivered <= s.accepted <==> Fits(s.accepted)
    ensures Fits(s.accepted) ==> t.chan.residual == []
  {
    DirectionFrames(s, wire, t);
    assert t.chan.residual + wire + s.chan.out == t.chan.residual;
    if Fits(s.accepted) {
      AllThere(t.delivered, t.chan.residual, s.accepted);
    }
    if t.delivered <= s.accepted {
      PrefixIsAll(t.delivered, t.chan.residual, s.accepted);
    }
  }

  /** As far as the accepted packets fit, they arrive first, in order and intact. */
  ghost predicate IntactWhileFitting(delivered: seq<Packet>, accepted: seq<Packet>)
  {
    forall k: nat :: k <= |accepted| && Fits(accepted[..k]) ==> Intact(delivered, accepted, k)
  }

  lemma DirectionPrefix(s: Peer, wire: seq<byte>, t: Peer)
    requires Direction(s, wire, t)
    ensures IntactWhileFitting(t.delivered, s.accepted)
    ensures Fits(s.accepted) ==> t.delivered <= s.accepted
  {
    DirectionFrames(s, wire, t);
    var rest := t.chan.residual + wire + s.chan.out;
    forall k: nat | k <= |s.accepted| && Fits(s.accepted[..k])
      ensures Intact(t.delivered, s.accepted, k)
    {
      FramesPrefix(t.delivered, rest, s.accepted, k);
    }
    if Fits(s.accepted) {
      var n := |s.accepted|;
      assert s.accepted[..n] == s.accepted;
      FramesCount(t.delivered, rest, s.accepted);
      assert Intact(t.delivered, s.accepted, n);
    }
  }

  /** In every run each endpoint receives, in order and whole, the packets accepted at
      the other, up to the first that does not fit its header: all it has received is
      a prefix of those, or those are a prefix of it. If all fit, it is a prefix. */
  lemma DeliveredIsPrefix(s: Sock, t: Sock, acts: seq<Action>)
    ensures var l := Run(Start(s, t), acts);
            && IntactWhileFitting(l.b.delivered, l.a.accepted)
            && IntactWhileFitting(l.a.delivered, l.b.accepted)
            && (Fits(l.a.accepted) ==> l.b.delivered <= l.a.accepted)
            && (Fits(l.b.accepted) ==> l.a.delivered <= l.b.accepted)
  {
    StartInv(s, t);
    RunKeeps(Start(s, t), acts);
    var l := Run(Start(s, t), acts);
    DirectionPrefix(l.a, l.ab, l.b);
    DirectionPrefix(l.b, l.ba, l.a);
  }

  /** Once the sender's output and the wire are empty, what has been delivered is what
      was accepted, and even only a prefix of it, exactly when everything accepted fit
      its header; the reader then holds no partial frame. */
  lemma DrainedIsDelivered(s: Sock, t: Sock, acts: seq<Action>)
    ensures var l := Run(Start(s, t), acts);
            && (l.a.chan.out == [] && l.ab == [] ==>
                  && (l.b.delivered == l.a.accepted <==> Fits(l.a.accepted))
                  && (l.b.delivered <= l.a.accepted <==> Fits(l.a.accepted))
                  && (Fits(l.a.accepted) ==> l.b.chan.residual == []))
            && (l.b.chan.out == [] && l.ba == [] ==>
                  && (l.a.delivered == l.b.accepted <==> Fits(l.b.accepted))
                  && (l.a.delivered <= l.b.accepted <==> Fits(l.b.accepted))
                  && (Fits(l.b.accepted) ==> l.a.chan.residual == []))
  {
    StartInv(s, t);
    RunKeeps(Start(s, t), acts);
    var l := Run(Start(s, t), acts);
    if l.a.chan.out == [] && l.ab == [] {
      DirectionDrained(l.a, l.ab, l.b);
    }
    if l.b.chan.out == [] && l.ba == [] {
      DirectionDrained(l.b, l.ba, l.a);
    }
  }

  // ---- Nothing gets stuck inside the two endpoints ----------------------

  /** Read events at one endpoint and nothing else. */
  predicate AllReads(acts: seq<Action>, byA: bool)
  {
    forall i :: 0 <= i < |acts| ==> acts[i].Readable? && acts[i].byA == byA
  }

  predicate EmptiesWire(l: Link, events: seq<Action>)
    requires Ready(l)
  {
    AllReads(events, false) && Run(l, events).a == l.a && Run(l, events).ab == []
  }

  lemma ReadOnce(l: Link)
    requires Inv(l) && l.ab != []
    ensures var m := Step(l, Readable(false, |l.ab|, 0));
            Inv(m) && m.a == l.a && |m.ab| < |l.ab|
  {
    RestIsShort(l.b.chan.residual);
    StepAKeeps(Flip(l), Readable(false, |l.ab|, 0));
  }

  lemma RunFirst(l: Link, act: Action, rest: seq<Action>)
    requires Ready(l)
    ensures Run(l, [act] + rest) == Run(Step(l, act), rest)
  {
    assert ([act] + rest)[1..] == rest;
  }

  lemma EmptiesMore(l: Link, act: Action, rest: seq<Action>)
    requires Ready(l) && act.Readable? && !act.byA && Step(l, act).a == l.a
    requires EmptiesWire(Step(l, act), rest)
    ensures EmptiesWire(l, [act] + rest)
  {
    RunFirst(l, act, rest);
    forall i | 0 <= i < |[act] + rest|
      ensures ([act] + rest)[i].Readable? && !([act] + rest)[i].byA
    {
      assert i > 0 ==> ([act] + rest)[i] == rest[i - 1];
    }
  }

  /** Reading everything that is ready, again and again, empties the wire. */
  lemma {:induction false} ReadingEmptiesWire(l: Link)
    requires Inv(l)
    ensures exists events :: EmptiesWire(l, events)
    decreases |l.ab|
  {
    if l.ab == [] {
      assert EmptiesWire(l, []);
    } else {
      var act := Readable(false, |l.ab|, 0);
      ReadOnce(l);
      var m := Step(l, act);
      ReadingEmptiesWire(m);
      var rest :| EmptiesWire(m, rest);
      EmptiesMore(l, act, rest);
    }
  }

  /** One write event that takes all that is queued at `a`, then reads at `b`. */
  function FlushAndRead(l: Link, events: seq<Action>): seq<Action>
  {
    [Writable(true, SysResult(|l.a.chan.out|, 0))] + events
  }

  predicate AllArrive(l: Link, events: seq<Action>)
    requires Ready(l)
  {
    AllReads(events, false) && Run(l, FlushAndRead(l, events)).b.delivered == l.a.accepted
  }

  lemma FlushThenRead(l: Link)
    requires Inv(l) && Fits(l.a.accepted)
    ensures exists events :: AllArrive(l, events)
  {
    var flush := Writable(true, SysResult(|l.a.chan.out|, 0));
    StepAKeeps(l, flush);
    var m := Step(l, flush);
    assert m.a.chan.out == [] && m.a.accepted == l.a.accepted;
    ReadingEmptiesWire(m);
    var events :| EmptiesWire(m, events);
    RunKeeps(m, events);
    var n := Run(m, events);
    DirectionDrained(n.a, n.ab, n.b);
    RunFirst(l, flush, events);
    assert AllArrive(l, events);
  }

  lemma FlipInv(l: Link)
    requires Inv(l)
    ensures Inv(Flip(l))
  {}

  /** From wherever a run has come to, one write event that takes the queue and enough
      read events at the other end deliver every accepted packet that is still under
      way, in either direction. */
  lemma EverythingCanArrive(s: Sock, t: Sock, acts: seq<Action>)
    ensures var l := Run(Start(s, t), acts);
            && (Fits(l.a.accepted) ==> exists events :: AllArrive(l, events))
            && (Fits(l.b.accepted) ==> exists events :: AllArrive(Flip(l), events))
  {
    StartInv(s, t);
    RunKeeps(Start(s, t), acts);
    var l := Run(Start(s, t), acts);
    FlipInv(l);
    if Fits(l.a.accepted) {
      FlushThenRead(l);
    }
    if Fits(l.b.accepted) {
      FlushThenRead(Flip(l));
    }
  }

  // ---- Packets too long for the header ------------------------------------

  /** A run in which `p` alone is accepted at `a`, and all bytes arrive at `b`. */
  predicate ArrivesAlone(l: Link, p: Packet)
  {
    l.a.accepted == [p] && l.a.chan.out == [] && l.ab == []
  }

  lemma SentWhole(s: Sock, t: Sock, p: Packet)
    requires |p| <= OUT_SIZE - HEADER
    ensures Accepts(Start(s, t).a.chan, p)
    ensures var m := Step(Start(s, t), SendCall(true, p, SysResult(HEADER + |p|, 0)));
            Inv(m) && m.a.accepted == [p] && m.a.chan.out == []
  {
    var l, act := Start(s, t), SendCall(true, p, SysResult(HEADER + |p|, 0));
    StartInv(s, t);
    StepAKeeps(l, act);
    assert Step(l, act) == StepA(l, act);
    assert |l.a.chan.out + Frame(p)| == HEADER + |p|;
    assert [] + [p] == [p];
  }

  lemma CanArriveAlone(m: Link, p: Packet) returns (events: seq<Action>)
    requires Inv(m) && m.a.accepted == [p] && m.a.chan.out == []
    ensures EmptiesWire(m, events) && ArrivesAlone(Run(m, events), p)
  {
    ReadingEmptiesWire(m);
    events :| EmptiesWire(m, events);
  }

  lemma SomeRunArrives(s: Sock, t: Sock, p: Packet)
    requires |p| <= OUT_SIZE - HEADER
    ensures exists acts :: ArrivesAlone(Run(Start(s, t), acts), p)
  {
    var l, send := Start(s, t), SendCall(true, p, SysResult(HEADER + |p|, 0));
    SentWhole(s, t, p);
    var events := CanArriveAlone(Step(l, send), p);
    RunFirst(l, send, events);
  }

  lemma FitsOne(p: Packet)
    ensures Fits([p]) <==> |p| <= MAX_PAYLOAD
  {
    assert [p][0] == p;
  }

  lemma DeliveredAlone(s: Sock, t: Sock, p: Packet, acts: seq<Action>)
    requires ArrivesAlone(Run(Start(s, t), acts), p)
    ensures var got := Run(Start(s, t), acts).b.delivered;
            (got == [p] <==> |p| <= MAX_PAYLOAD) && (got <= [p] <==> |p| <= MAX_PAYLOAD)
  {
    DrainedIsDelivered(s, t, acts);
    FitsOne(p);
  }

  /** A packet that finds room in the buffer is accepted, and can be sent and read to
      the last byte. When it has been, it is delivered exactly if it fits its header;
      otherwise what was delivered is not even a beginning of it. */
  lemma LongPacketIsLost(s: Sock, t: Sock, p: Packet)
    requires |p| <= OUT_SIZE - HEADER
    ensures Accepts(Start(s, t).a.chan, p)
    ensures exists acts :: ArrivesAlone(Run(Start(s, t), acts), p)
    ensures forall acts :: ArrivesAlone(Run(Start(s, t), acts), p) ==>
              var got := Run(Start(s, t), acts).b.delivered;
              (got == [p] <==> |p| <= MAX_PAYLOAD) && (got <= [p] <==> |p| <= MAX_PAYLOAD)
  {
    SentWhole(s, t, p);
    SomeRunArrives(s, t, p);
    forall acts | ArrivesAlone(Run(Start(s, t), acts), p)
      ensures var got := Run(Start(s, t), acts).b.delivered;
              (got == [p] <==> |p| <= MAX_PAYLOAD) && (got <= [p] <==> |p| <= MAX_PAYLOAD)
    {
      DeliveredAlone(s, t, p, acts);
    }
  }

  // ---- Which packets are accepted -----------------------------------------

  /** Sends of `ps` at `a`, one after another, with these answers from the kernel. */
  function Sends(ps: seq<Packet>, rs: seq<SysResult>): (acts: seq<Action>)
    requires |ps| == |rs|
    ensures |acts| == |ps|
  {
    seq(|ps|, i requires 0 <= i < |ps| => SendCall(true, ps[i], rs[i]))
  }

  /** In every reachable state a send is turned away exactly when what is queued and the
      new frame exceed 1048576 bytes together; otherwise its packet is accepted, whatever
      the kernel answers. */
  lemma RefusedIff(s: Sock, t: Sock, acts: seq<Action>, p: Packet, r: SysResult)
    ensures var l := Run(Start(s, t), acts);
            var m := Step(l, SendCall(true, p, r));
            && (m.a.accepted == l.a.accepted <==> |l.a.chan.out| + 2 + |p| > 1048576)
            && (m.a.accepted == l.a.accepted + [p] <==> |l.a.chan.out| + 2 + |p| <= 1048576)
  {
    var l := Run(Start(s, t), acts);
    assert |l.a.accepted + [p]| == |l.a.accepted| + 1;
  }

  lemma QueueWithin(l: Link)
    requires Inv(l)
    ensures |l.a.chan.out| <= |Frames(l.a.accepted)|
  {
    assert |l.a.handed + l.a.chan.out| == |l.a.handed| + |l.a.chan.out|;
  }

  lemma SendAccepts(l: Link, p: Packet, r: SysResult)
    requires Inv(l) && |Frames(l.a.accepted + [p])| <= 1048576
    ensures var m := Step(l, SendCall(true, p, r));
            Inv(m) && m.a.accepted == l.a.accepted + [p]
  {
    QueueWithin(l);
    FramesConcat(l.a.accepted, [p]);
    FramesFirst(p, []);
    assert [p] + [] == [p];
    StepAKeeps(l, SendCall(true, p, r));
  }

  lemma FirstSend(l: Link, ps: seq<Packet>, rs: seq<SysResult>)
    requires Ready(l) && |ps| == |rs| && ps != []
    ensures Run(l, Sends(ps, rs)) == Run(Step(l, SendCall(true, ps[0], rs[0])), Sends(ps[1..], rs[1..]))
  {
    var first := SendCall(true, ps[0], rs[0]);
    assert Sends(ps, rs) == [first] + Sends(ps[1..], rs[1..]);
    RunFirst(l, first, Sends(ps[1..], rs[1..]));
  }

  lemma FramesOfFirst(done: seq<Packet>, ps: seq<Packet>)
    requires ps != []
    ensures done + ps == (done + [ps[0]]) + ps[1..]
    ensures |Frames(done + [ps[0]])| <= |Frames(done + ps)|
  {
    assert done + ps == (done + [ps[0]]) + ps[1..];
    FramesConcat(done + [ps[0]], ps[1..]);
  }

  lemma {:induction false} SendsAccept(l: Link, ps: seq<Packet>, rs: seq<SysResult>)
    requires Inv(l) && |ps| == |rs| && |Frames(l.a.accepted + ps)| <= 1048576
    ensures Run(l, Sends(ps, rs)).a.accepted == l.a.accepted + ps
    decreases |ps|
  {
    if ps == [] {
      assert l.a.accepted + ps == l.a.accepted;
    } else {
      FirstSend(l, ps, rs);
      FramesOfFirst(l.a.accepted, ps);
      SendAccepts(l, ps[0], rs[0]);
      SendsAccept(Step(l, SendCall(true, ps[0], rs[0])), ps[1..], rs[1..]);
    }
  }

  /** Packets whose frames fit the buffer together are all accepted, even if the kernel
      takes none of them in between. */
  lemma AllAccepted(s: Sock, t: Sock, ps: seq<Packet>, rs: seq<SysResult>)
    requires |ps| == |rs| && |Frames(ps)| <= 1048576
    ensures Run(Start(s, t), Sends(ps, rs)).a.accepted == ps
  {
    var l := Start(s, t);
    assert l.a.accepted + ps == ps;
    assert Inv(l) by {
      StartInv(s, t);
    }
    SendsAccept(l, ps, rs);
  }
}
