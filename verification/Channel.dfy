/** One TCP channel as a value: the socket's connection state and interest set
    (PhysicalSocket, SocketDispatcher) and the two buffers NetCenter keeps
    beside it. System calls are oracles. These functions specify the methods of
    NetIo and are the steps of the runs in Reactor and Stream. */
module Channel {
  import opened Bytes
  import opened Framing

  datatype ConnState = CsClosed | CsConnecting | CsConnected

  /** DispatcherEvent; a mask of them is a set. */
  datatype Event = DeRead | DeWrite | DeConnect | DeClose | DeAccept

  const INVALID_SOCKET: int := -1
  const EBADF: int := 9
  const EAGAIN: int := 11          // EWOULDBLOCK has the same number
  const EMSGSIZE: int := 90
  const ECONNRESET: int := 104
  const ECONNREFUSED: int := 111
  const EALREADY: int := 114
  const EINPROGRESS: int := 115

  /** MAX_RECV_DATA_SIZE and MAX_SEND_DATA_SIZE */
  const IN_SIZE: nat := 1024 * 1024
  const OUT_SIZE: nat := 1024 * 1024

  predicate IsBlockingError(e: int)
  {
    e == EAGAIN || e == EINPROGRESS
  }

  /** What a system call returned, and errno after it. */
  datatype SysResult = SysResult(value: int, errno: int)

  /** What recv offered: bytes (none means end of stream) or a failure. */
  datatype RecvResult = Bytes(data: seq<byte>, errno: int) | Failed(errno: int)

  /** IsDescriptorClosed's verdict on a one-byte peek. */
  predicate Eof(peek: SysResult)
  {
    peek.value == 0 || (peek.value < 0 && (peek.errno == EBADF || peek.errno == ECONNRESET))
  }

  datatype Sock = Sock(fd: int, state: ConnState, events: set<Event>, error: int)

  datatype Chan = Chan(sock: Sock, out: seq<byte>, residual: seq<byte>)
  {
    /** The output fits its buffer; the input holds no complete frame. */
    predicate Valid()
    {
      |out| <= OUT_SIZE && Incomplete(residual)
    }
  }

  /** What the application is told about one descriptor, and what it did. */
  datatype Note =
    | Opened                        // Connect returned success
    | Connected                     // ENE_CONNECTED reported
    | Delivered(packets: seq<Packet>)
    | Closed                        // ENE_CLOSE reported

  // ---- PhysicalSocket ---------------------------------------------------

  function FreshSock(fd: int): Sock
  {
    Sock(fd, CsClosed, {}, 0)
  }

  /** Connect and DoConnect; `made` is the answer of socket() should the
      descriptor have to be created first. */
  function Connect(s: Sock, made: SysResult, r: SysResult): (t: (Sock, int))
  {
    if s.state != CsClosed then
      (s.(error := EALREADY), -1)
    else if s.fd == INVALID_SOCKET && made.value == INVALID_SOCKET then
      (s.(error := made.errno), -1)
    else
      var s1 := s.(fd := if s.fd == INVALID_SOCKET then made.value else s.fd, error := r.errno);
      if r.value == 0 then
        (s1.(state := CsConnected, events := s1.events + {DeRead, DeWrite}), 0)
      else if IsBlockingError(r.errno) then
        (s1.(state := CsConnecting, events := s1.events + {DeConnect, DeRead, DeWrite}), 0)
      else
        (s1, -1)
  }

  function Send(s: Sock, r: SysResult): Sock
  {
    s.(error := r.errno,
       events := if r.value < 0 && IsBlockingError(r.errno) then s.events + {DeWrite} else s.events)
  }

  /** The kernel hands over at most `length` bytes. */
  function Clip(data: seq<byte>, length: nat): (d: seq<byte>)
    ensures |d| <= length && d <= data
  {
    if |data| <= length then data else data[..length]
  }

  /** Recv: the socket afterwards, the return value, the bytes copied out. Zero
      is never the answer to a request for something, and read interest rises
      exactly when the call did not fail for good. */
  function Recv(s: Sock, length: nat, r: RecvResult): (t: (Sock, int, seq<byte>))
    ensures t.1 >= 0 ==> t.1 == |t.2| <= length
    ensures t.1 < 0 ==> t.2 == []
    ensures t.1 == 0 ==> length == 0
    ensures t.0.events == if t.1 >= 0 || IsBlockingError(t.0.error) then s.events + {DeRead} else s.events
  {
    match r
    case Bytes(data, errno) =>
      var d := Clip(data, length);
      if d == [] && length != 0 then
        (s.(error := EAGAIN, events := s.events + {DeRead}), -1, [])
      else
        (s.(error := errno, events := s.events + {DeRead}), |d|, d)
    case Failed(errno) =>
      (s.(error := errno, events := if IsBlockingError(errno) then s.events + {DeRead} else s.events), -1, [])
  }

  function Close(s: Sock, errno: int): Sock
  {
    if s.fd == INVALID_SOCKET then s else Sock(INVALID_SOCKET, CsClosed, {}, errno)
  }

  // ---- NetCenter's send and receive paths --------------------------------

  /** How much of `length` offered bytes a send call took. */
  function Taken(r: SysResult, length: nat): (n: nat)
    ensures n <= length
  {
    if 0 < r.value <= length then r.value else 0
  }

  predicate Accepts(c: Chan, p: Packet)
  {
    |c.out| + |p| + HEADER <= OUT_SIZE
  }

  /** SendDataWithFD on a descriptor in the table: the channel afterwards and
      the return value. */
  function SendPacket(c: Chan, p: Packet, r: SysResult): (t: (Chan, int))
    requires c.Valid()
    ensures t.0.Valid()
  {
    if !Accepts(c, p) then
      (c.(sock := c.sock.(error := EMSGSIZE)), -1)
    else
      var queued := c.out + Frame(p);
      (c.(sock := Send(c.sock, r), out := queued[Taken(r, |queued|)..]),
       if r.value <= |queued| then r.value else -1)
  }

  /** OnWriteEvent */
  function WriteEvent(c: Chan, r: SysResult): (d: Chan)
    requires c.Valid()
    ensures d.Valid()
  {
    if c.out == [] then c
    else c.(sock := Send(c.sock, r), out := c.out[Taken(r, |c.out|)..])
  }

  /** OnReadEvent: the channel afterwards and the packets delivered. */
  function ReadEvent(c: Chan, r: RecvResult): (t: (Chan, seq<Packet>))
    requires c.Valid()
    ensures t.0.Valid()
  {
    RestIsShort(c.residual);
    var (sock, len, data) := Recv(c.sock, IN_SIZE - |c.residual|, r);
    if len < 0 then
      (c.(sock := sock), [])
    else
      var parsed := Parse(c.residual + data);
      ParseReprints(c.residual + data);
      (c.(sock := sock, residual := parsed.rest), parsed.packets)
  }

  // ---- Readiness to callbacks -------------------------------------------

  /** The event mask Wait computes for one dispatcher: its two ready bits, the
      interest it has when it is visited, the reaped error code, and what
      IsDescriptorClosed would answer. */
  function EventMask(readBit: bool, writeBit: bool, requested: set<Event>, err: int, eof: bool): set<Event>
  {
    (if !readBit then {}
     else if DeAccept in requested then {DeAccept}
     else if err != 0 || eof then {DeClose}
     else {DeRead})
    +
    (if !writeBit then {}
     else if DeConnect !in requested then {DeWrite}
     else if err == 0 then {DeConnect}
     else {DeClose})
  }

  function PreEvent(s: Sock, ff: set<Event>): Sock
  {
    var s1 := if DeConnect in ff then s.(state := CsConnected) else s;
    if DeClose in ff then s1.(state := CsClosed) else s1
  }

  /** Oracles for the handlers OnEvent runs. */
  datatype Io = Io(accept: RecvResult, read: RecvResult, write: SysResult)

  /** enabled_events_ &= ~gone */
  function Without(c: Chan, gone: set<Event>): (d: Chan)
    ensures c.Valid() ==> d.Valid()
  {
    c.(sock := c.sock.(events := c.sock.events - gone))
  }

  function NoteOf(packets: seq<Packet>): seq<Note>
  {
    if packets == [] then [] else [Delivered(packets)]
  }

  /** One `if` of OnEvent whose handler is OnReadEvent. */
  function ReadPart(c: Chan, ff: set<Event>, e: Event, r: RecvResult): (t: (Chan, seq<Note>))
    requires c.Valid()
    ensures t.0.Valid()
  {
    if e !in ff then (c, [])
    else
      var (c1, packets) := ReadEvent(Without(c, {e}), r);
      (c1, NoteOf(packets))
  }

  function ConnectPart(c: Chan, ff: set<Event>): (t: (Chan, seq<Note>))
    requires c.Valid()
    ensures t.0.Valid()
  {
    if DeConnect in ff then (Without(c, {DeConnect}), [Connected]) else (c, [])
  }

  function WritePart(c: Chan, ff: set<Event>, r: SysResult): (d: Chan)
    requires c.Valid()
    ensures d.Valid()
  {
    if DeWrite in ff then WriteEvent(Without(c, {DeWrite}), r) else c
  }

  function ClosePart(c: Chan, ff: set<Event>): (t: (Chan, seq<Note>))
    requires c.Valid()
    ensures t.0.Valid()
  {
    if DeClose in ff then (Without(c, c.sock.events), [Closed]) else (c, [])
  }

  /** SocketDispatcher::OnEvent with NetCenter's slots connected. */
  function OnEvent(c: Chan, ff: set<Event>, io: Io): (t: (Chan, seq<Note>))
    requires c.Valid()
    ensures t.0.Valid()
  {
    var (c1, n1) := ConnectPart(c, ff);
    var (c2, n2) := ReadPart(c1, ff, DeAccept, io.accept);
    var (c3, n3) := ReadPart(c2, ff, DeRead, io.read);
    var (c5, n5) := ClosePart(WritePart(c3, ff, io.write), ff);
    (c5, n1 + n2 + n3 + n5)
  }

  /** One visit of the dispatch loop: mask, OnPreEvent, OnEvent. */
  function Dispatch(c: Chan, readBit: bool, writeBit: bool, err: int, eof: bool, io: Io): (t: (Chan, seq<Note>))
    requires c.Valid()
    ensures t.0.Valid()
  {
    var ff := EventMask(readBit, writeBit, c.sock.events, err, eof);
    if ff == {} then (c, []) else OnEvent(c.(sock := PreEvent(c.sock, ff)), ff, io)
  }

  // ---- Laws ------------------------------------------------------------

  /** Reading, accepting and a read-side close exclude one another, and data is
      never read in the visit that reports the close. */
  lemma MaskExclusive(readBit: bool, writeBit: bool, requested: set<Event>, err: int, eof: bool)
    ensures var ff := EventMask(readBit, writeBit, requested, err, eof);
            && (ff == {} <==> !readBit && !writeBit)
            && !(DeRead in ff && DeAccept in ff)
            && !(DeRead in ff && DeClose in ff)
            && !(DeConnect in ff && DeWrite in ff)
            && (DeClose in ff <==>
                  (readBit && DeAccept !in requested && (err != 0 || eof))
                  || (writeBit && DeConnect in requested && err != 0))
  {}

  /** Reading touches neither descriptor nor state, and of the interest set at
      most the read flag. */
  lemma ReadKeepsState(c: Chan, r: RecvResult)
    requires c.Valid()
    ensures var s := ReadEvent(c, r).0.sock;
            && s.fd == c.sock.fd && s.state == c.sock.state
            && c.sock.events <= s.events <= c.sock.events + {DeRead}
  {
    RestIsShort(c.residual);
  }

  lemma ReadPartKeepsFd(c: Chan, ff: set<Event>, e: Event, r: RecvResult)
    requires c.Valid()
    ensures ReadPart(c, ff, e, r).0.sock.fd == c.sock.fd
  {
    ReadKeepsState(Without(c, {e}), r);
  }

  lemma OnEventKeepsFd(d: Chan, ff: set<Event>, io: Io)
    requires d.Valid()
    ensures OnEvent(d, ff, io).0.sock.fd == d.sock.fd
  {
    var d1 := ConnectPart(d, ff).0;
    ReadPartKeepsFd(d1, ff, DeAccept, io.accept);
    ReadPartKeepsFd(ReadPart(d1, ff, DeAccept, io.accept).0, ff, DeRead, io.read);
  }

  lemma DispatchKeepsFd(c: Chan, readBit: bool, writeBit: bool, err: int, eof: bool, io: Io)
    requires c.Valid()
    ensures Dispatch(c, readBit, writeBit, err, eof, io).0.sock.fd == c.sock.fd
  {
    var ff := EventMask(readBit, writeBit, c.sock.events, err, eof);
    var d := c.(sock := PreEvent(c.sock, ff));
    OnEventKeepsFd(d, ff, io);
  }

  /** Within one visit CONNECTED comes first and CLOSE last. */
  lemma VisitOrder(c: Chan, readBit: bool, writeBit: bool, err: int, eof: bool, io: Io)
    requires c.Valid()
    ensures var notes := Dispatch(c, readBit, writeBit, err, eof, io).1;
            forall i :: 0 <= i < |notes| ==>
              (notes[i] == Connected ==> i == 0) && (notes[i] == Closed ==> i == |notes| - 1)
  {
    MaskExclusive(readBit, writeBit, c.sock.events, err, eof);
  }

  // ---- Output that nobody waits to send ----------------------------------

  /** Output left over is watched for writability. */
  predicate Watched(c: Chan)
  {
    c.out != [] ==> DeWrite in c.sock.events
  }

  /** A send call that was offered `length` bytes took them all, or will be tried
      again because it blocked. */
  predicate DrainsOrBlocks(r: SysResult, length: nat)
  {
    r.value == length || (r.value < 0 && IsBlockingError(r.errno))
  }

  predicate SendLeavesWatched(c: Chan, p: Packet, r: SysResult)
  {
    if Accepts(c, p) then
      DeWrite in c.sock.events || DrainsOrBlocks(r, |c.out| + HEADER + |p|)
    else Watched(c)
  }

  /** After SendDataWithFD output is watched exactly when write interest was up
      already, or the attempt drained or blocked. A positive partial send is the
      gap: bytes stay queued and nobody waits. */
  lemma PendingOutputIsWatched(c: Chan, p: Packet, r: SysResult)
    requires c.Valid()
    ensures Watched(SendPacket(c, p, r).0) <==> SendLeavesWatched(c, p, r)
  {
    var queued := c.out + Frame(p);
    assert |queued[Taken(r, |queued|)..]| == |queued| - Taken(r, |queued|);
  }

  /** OnEvent takes write interest down before OnWriteEvent runs, so there the
      flag does not help: only an attempt that drains or blocks will do. */
  lemma WriteEventIsWatched(c: Chan, ff: set<Event>, r: SysResult)
    requires c.Valid() && DeWrite in ff && c.out != []
    ensures Watched(WritePart(c, ff, r)) <==> DrainsOrBlocks(r, |c.out|)
  {
    assert |c.out[Taken(r, |c.out|)..]| == |c.out| - Taken(r, |c.out|);
  }

  predicate VisitLeavesWatched(c: Chan, ff: set<Event>, r: SysResult)
  {
    if DeClose in ff then c.out == [] || (DeWrite in ff && r.value == |c.out|)
    else if DeWrite in ff && c.out != [] then DrainsOrBlocks(r, |c.out|)
    else Watched(c)
  }

  /** The read handlers leave output and write interest alone. */
  lemma ReadPartKeepsWatch(c: Chan, ff: set<Event>, e: Event, r: RecvResult)
    requires c.Valid() && e != DeWrite
    ensures var d := ReadPart(c, ff, e, r).0;
            d.out == c.out && (DeWrite in d.sock.events <==> DeWrite in c.sock.events)
  {
    ReadKeepsState(Without(c, {e}), r);
  }

  /** The handlers of one visit, whatever is ready: a close must find the output
      empty or drain it, a write event must drain it or block. */
  lemma VisitIsWatched(c: Chan, ff: set<Event>, io: Io)
    requires c.Valid()
    ensures Watched(OnEvent(c, ff, io).0) <==> VisitLeavesWatched(c, ff, io.write)
  {
    var c1 := ConnectPart(c, ff).0;
    ReadPartKeepsWatch(c1, ff, DeAccept, io.accept);
    var c2 := ReadPart(c1, ff, DeAccept, io.accept).0;
    ReadPartKeepsWatch(c2, ff, DeRead, io.read);
    var c3 := ReadPart(c2, ff, DeRead, io.read).0;
    if DeWrite in ff && c3.out != [] {
      WriteEventIsWatched(c3, ff, io.write);
      assert |c3.out[Taken(io.write, |c3.out|)..]| == |c3.out| - Taken(io.write, |c3.out|);
    }
  }

  // ---- What the result of a send says -------------------------------------

  /** The return value is what the kernel took, and then the queue has lost
      exactly that; or it is negative. */
  lemma SendResultMeans(c: Chan, p: Packet, r: SysResult)
    requires c.Valid()
    ensures var (d, res) := SendPacket(c, p, r);
            var queued := c.out + Frame(p);
            && (res >= 0 <==> Accepts(c, p) && 0 <= r.value <= |queued|)
            && (res >= 0 ==> d.out == queued[res..])
            && (res < 0 ==> d.out == if Accepts(c, p) then queued else c.out)
  {}

  /** The result the Java interface documents: 0 for a frame that was taken in, -1
      for one that was not. The code keeps to it exactly when it refuses the frame
      or the kernel takes nothing without an error. */
  lemma SendResultAsDocumented(c: Chan, p: Packet, r: SysResult)
    requires c.Valid()
    ensures SendPacket(c, p, r).1 == (if Accepts(c, p) then 0 else -1) <==> !Accepts(c, p) || r.value == 0
  {}

  /** A negative result means that the frame is not queued exactly when the buffer
      refused the frame or the kernel's answer was a number of bytes. */
  lemma NegativeMeansNotQueued(c: Chan, p: Packet, r: SysResult)
    requires c.Valid()
    ensures (SendPacket(c, p, r).1 < 0 ==> SendPacket(c, p, r).0.out == c.out) <==>
              !Accepts(c, p) || 0 <= r.value <= |c.out| + HEADER + |p|
  {
    assert |c.out + Frame(p)| > |c.out|;
  }

  /** The result is 0 or -1 exactly when the frame is refused, or the kernel's
      answer is one of the two or more than it was offered. */
  lemma ResultIsZeroOrMinusOne(c: Chan, p: Packet, r: SysResult)
    requires c.Valid()
    ensures SendPacket(c, p, r).1 in {0, -1} <==>
              !Accepts(c, p) || r.value in {0, -1} || r.value > |c.out| + HEADER + |p|
  {}

  /** A one-byte packet on an idle connection: the whole frame taken gives 3; a send
      that blocks gives -1 with the frame queued and watched; one that fails otherwise
      gives -1 with the frame queued and unwatched. */
  lemma SendResultSurprises()
    ensures var c := Chan(Sock(5, CsConnected, {DeRead}, 0), [], []);
            && c.Valid()
            && SendPacket(c, [7], SysResult(3, 0)).1 == 3
            && (var (d, res) := SendPacket(c, [7], SysResult(-1, EAGAIN));
                res == -1 && d.out == Frame([7]) && Watched(d))
            && (var (d, res) := SendPacket(c, [7], SysResult(-1, ECONNRESET));
                res == -1 && d.out == Frame([7]) && !Watched(d))
  {
    var c := Chan(Sock(5, CsConnected, {DeRead}, 0), [], []);
    assert c.out + Frame([7]) == Frame([7]);
  }
}
