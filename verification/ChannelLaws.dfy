/** What each operation of a channel does, said of the kernel's answers and of errno
    numbers as Linux has them, and not by way of the operations' own parts: connect,
    send, receive, close, and a whole visit of the dispatch loop. */
module ChannelLaws {
  import opened Bytes
  import opened Framing
  import opened Channel
  import opened Sequences

  /** EAGAIN and EINPROGRESS. */
  predicate WouldBlock(errno: int)
  {
    errno == 11 || errno == 115
  }

  lemma Numbers()
    ensures forall e :: IsBlockingError(e) <==> WouldBlock(e)
    ensures HEADER == 2 && MAX_PAYLOAD == 65535 && IN_SIZE == 1048576 && OUT_SIZE == 1048576
    ensures EMSGSIZE == 90 && EALREADY == 114
  {}

  /** EBADF and ECONNRESET are the errors that mean a closed descriptor. */
  lemma EofMeans(peek: SysResult)
    ensures Eof(peek) <==> peek.value == 0 || (peek.value < 0 && (peek.errno == 9 || peek.errno == 104))
  {}

  // ---- System calls -------------------------------------------------------

  /** A connect attempt on a closed socket with a descriptor succeeds exactly if the
      kernel connected it or would block. It is connected then exactly in the first
      case; in the second it is connecting, and waits for the end of that. */
  lemma ConnectMeans(s: Sock, made: SysResult, r: SysResult)
    requires s.state == CsClosed && s.fd != INVALID_SOCKET
    ensures var (t, res) := Connect(s, made, r);
            && t.fd == s.fd && t.error == r.errno
            && (res == 0 || res == -1)
            && (res == 0 <==> r.value == 0 || WouldBlock(r.errno))
            && (t.state == CsConnected <==> r.value == 0)
            && (t.state == CsConnecting <==> r.value != 0 && WouldBlock(r.errno))
            && t.events == s.events
                           + (if res == 0 then {DeRead, DeWrite} else {})
                           + (if t.state == CsConnecting then {DeConnect} else {})
  {}

  /** It is refused with EALREADY on a socket that is not closed; one without a
      descriptor gets one first, or fails as the making of it fails. */
  lemma ConnectOtherwise(s: Sock, made: SysResult, r: SysResult)
    ensures s.state != CsClosed ==> Connect(s, made, r) == (s.(error := 114), -1)
    ensures s.state == CsClosed && s.fd == INVALID_SOCKET && made.value == INVALID_SOCKET ==>
              Connect(s, made, r) == (s.(error := made.errno), -1)
    ensures s.state == CsClosed && s.fd == INVALID_SOCKET && made.value != INVALID_SOCKET ==>
              Connect(s, made, r) == Connect(s.(fd := made.value), made, r)
  {}

  /** Sending changes the error, and raises write interest exactly when it would block. */
  lemma SendMeans(s: Sock, r: SysResult)
    ensures var t := Send(s, r);
            && t.fd == s.fd && t.state == s.state && t.error == r.errno
            && t.events == s.events + (if r.value < 0 && WouldBlock(r.errno) then {DeWrite} else {})
  {}

  /** What of `data` fits into `length` bytes. */
  function Fitting(data: seq<byte>, length: nat): (d: seq<byte>)
    ensures |d| == if |data| < length then |data| else length
  {
    data[..if |data| < length then |data| else length]
  }

  /** A receive copies all that fits. The end of the stream looks like a call that would
      block; read interest goes up in each case but that of a lasting error. */
  lemma RecvMeans(s: Sock, length: nat, r: RecvResult)
    requires length > 0
    ensures var (t, n, d) := Recv(s, length, r);
            && t.fd == s.fd && t.state == s.state
            && d == (if r.Bytes? then Fitting(r.data, length) else [])
            && n == (if d == [] then -1 else |d|)
            && t.error == (if r.Bytes? && r.data == [] then 11 else r.errno)
            && t.events == s.events + (if r.Bytes? || WouldBlock(r.errno) then {DeRead} else {})
  {}

  /** A new socket is closed, waits for nothing and has no error. */
  lemma FreshMeans(fd: int)
    ensures FreshSock(fd) == Sock(fd, CsClosed, {}, 0)
  {}

  /** Closing an open descriptor leaves no descriptor, no state and no interest. */
  lemma CloseMeans(s: Sock, errno: int)
    ensures s.fd != INVALID_SOCKET ==>
              var t := Close(s, errno);
              t.fd == -1 && t.state == CsClosed && t.events == {} && t.error == errno
    ensures s.fd == INVALID_SOCKET ==> Close(s, errno) == s
  {}

  // ---- Sending a packet ---------------------------------------------------

  /** A packet is refused exactly when queue and frame exceed the buffer; then nothing
      changes but the error. Otherwise all of the queue is offered, the packet's frame
      behind the rest, and what the kernel took is gone. */
  lemma SendPacketMeans(c: Chan, p: Packet, r: SysResult)
    requires c.Valid()
    ensures var (d, res) := SendPacket(c, p, r);
            var queued := c.out + Frame(p);
            && d.residual == c.residual
            && (|c.out| + |p| + 2 > 1048576 ==> d == c.(sock := c.sock.(error := 90)) && res == -1)
            && (|c.out| + |p| + 2 <= 1048576 ==>
                  && d.sock == Send(c.sock, r)
                  && res == (if r.value <= |queued| then r.value else -1)
                  && d.out == (if 0 < r.value <= |queued| then queued[r.value..] else queued))
  {}

  // ---- A visit ------------------------------------------------------------

  /** Which events a visit signals: each exactly on its ready bit, the interest of the
      descriptor, the error and the peek. */
  lemma MaskMeans(readBit: bool, writeBit: bool, requested: set<Event>, err: int, eof: bool)
    ensures var ff := EventMask(readBit, writeBit, requested, err, eof);
            && (DeConnect in ff <==> writeBit && DeConnect in requested && err == 0)
            && (DeWrite in ff <==> writeBit && DeConnect !in requested)
            && (DeAccept in ff <==> readBit && DeAccept in requested)
            && (DeRead in ff <==> readBit && DeAccept !in requested && err == 0 && !eof)
            && (DeClose in ff <==>
                  || (readBit && DeAccept !in requested && (err != 0 || eof))
                  || (writeBit && DeConnect in requested && err != 0))
  {}

  /** What a visit sees. */
  datatype Seen = Seen(readBit: bool, writeBit: bool, err: int, eof: bool, io: Io)

  predicate SeesConnect(c: Chan, v: Seen)
  {
    v.writeBit && DeConnect in c.sock.events && v.err == 0
  }

  predicate SeesWrite(c: Chan, v: Seen)
  {
    v.writeBit && DeConnect !in c.sock.events
  }

  predicate SeesClose(c: Chan, v: Seen)
  {
    || (v.readBit && DeAccept !in c.sock.events && (v.err != 0 || v.eof))
    || (v.writeBit && DeConnect in c.sock.events && v.err != 0)
  }

  /** The read handler runs. */
  predicate SeesRead(c: Chan, v: Seen)
  {
    v.readBit && (DeAccept in c.sock.events || (v.err == 0 && !v.eof))
  }

  function ReadAnswer(c: Chan, v: Seen): RecvResult
  {
    if DeAccept in c.sock.events then v.io.accept else v.io.read
  }

  /** The bytes it reads. */
  function BytesRead(c: Chan, v: Seen): seq<byte>
  {
    var r := ReadAnswer(c, v);
    if SeesRead(c, v) && r.Bytes? && |c.residual| < 1048576 then Fitting(r.data, 1048576 - |c.residual|) else []
  }

  function Visited(c: Chan, v: Seen): (t: (Chan, seq<Note>))
    requires c.Valid()
  {
    Dispatch(c, v.readBit, v.writeBit, v.err, v.eof, v.io)
  }

  /** What the handlers start from. */
  function Begun(c: Chan, v: Seen): (d: Chan)
    requires c.Valid()
    ensures d.Valid()
  {
    c.(sock := PreEvent(c.sock, EventMask(v.readBit, v.writeBit, c.sock.events, v.err, v.eof)))
  }

  /** The read handler, from any channel, in terms of the bytes that come. */
  lemma ReadMeans(c: Chan, r: RecvResult)
    requires c.Valid()
    ensures |c.residual| < 65537
    ensures var got := if r.Bytes? then Fitting(r.data, 1048576 - |c.residual|) else [];
            var (d, packets) := ReadEvent(c, r);
            && packets == Parse(c.residual + got).packets && d.residual == Parse(c.residual + got).rest
            && d.out == c.out && d.sock.state == c.sock.state && d.sock.fd == c.sock.fd
            && d.sock.events == c.sock.events + (if r.Bytes? || WouldBlock(r.errno) then {DeRead} else {})
  {
    RestIsShort(c.residual);
    RecvMeans(c.sock, IN_SIZE - |c.residual|, r);
    assert c.residual + [] == c.residual;
  }

  /** The socket after the read handler, run or not. */
  lemma ReadPartSock(c: Chan, ff: set<Event>, e: Event, r: RecvResult)
    requires c.Valid()
    ensures var again := if e in ff && (r.Bytes? || WouldBlock(r.errno)) then {DeRead} else {};
            ReadPart(c, ff, e, r).0.sock.(error := 0) ==
            c.sock.(error := 0, events := (if e in ff then c.sock.events - {e} else c.sock.events) + again)
  {
    if e in ff {
      ReadMeans(Channel.Without(c, {e}), r);
    }
  }

  /** The state after a visit: closed if it saw the end, else connected if it saw the
      connection, else what it was. */
  lemma VisitState(c: Chan, v: Seen)
    requires c.Valid()
    ensures var s := Visited(c, v).0.sock;
            s.fd == c.sock.fd
            && s.state == if SeesClose(c, v) then CsClosed else if SeesConnect(c, v) then CsConnected else c.sock.state
  {
    MaskMeans(v.readBit, v.writeBit, c.sock.events, v.err, v.eof);
    var ff := EventMask(v.readBit, v.writeBit, c.sock.events, v.err, v.eof);
    var c1 := ConnectPart(Begun(c, v), ff).0;
    ReadPartSock(c1, ff, DeAccept, v.io.accept);
    ReadPartSock(ReadPart(c1, ff, DeAccept, v.io.accept).0, ff, DeRead, v.io.read);
  }

  /** What one receive brings. */
  function Got(c: Chan, r: RecvResult): seq<byte>
  {
    if r.Bytes? && |c.residual| < 1048576 then Fitting(r.data, 1048576 - |c.residual|) else []
  }

  function Report(packets: seq<Packet>): seq<Note>
  {
    if packets == [] then [] else [Delivered(packets)]
  }

  /** The bytes a visit with mask `ff` brings. */
  function GotBy(c: Chan, ff: set<Event>, io: Io): seq<byte>
  {
    if DeAccept in ff then Got(c, io.accept) else if DeRead in ff then Got(c, io.read) else []
  }

  lemma NothingRead(c: Chan)
    requires c.Valid()
    ensures Parse(c.residual + []) == Parsed([], c.residual)
  {
    RestIsShort(c.residual);
    assert c.residual + [] == c.residual;
  }

  lemma OneRead(c: Chan, ff: set<Event>, e: Event, r: RecvResult)
    requires c.Valid() && e in ff
    ensures var (d, notes) := ReadPart(c, ff, e, r);
            && d.out == c.out && d.residual == Parse(c.residual + Got(c, r)).rest
            && notes == Report(Parse(c.residual + Got(c, r)).packets)
  {
    var without := Channel.Without(c, {e});
    assert Got(without, r) == Got(c, r) && without.residual == c.residual;
    ReadMeans(without, r);
  }

  /** At most one of the two read handlers of a visit runs. */
  lemma ReadsMean(c: Chan, ff: set<Event>, io: Io)
    requires c.Valid() && !(DeAccept in ff && DeRead in ff)
    ensures var (c2, n2) := ReadPart(c, ff, DeAccept, io.accept);
            var (c3, n3) := ReadPart(c2, ff, DeRead, io.read);
            && c3.out == c.out && c3.residual == Parse(c.residual + GotBy(c, ff, io)).rest
            && n2 + n3 == Report(Parse(c.residual + GotBy(c, ff, io)).packets)
  {
    if DeAccept in ff {
      OneRead(c, ff, DeAccept, io.accept);
      var n2 := ReadPart(c, ff, DeAccept, io.accept).1;
      assert n2 + [] == n2;
    } else if DeRead in ff {
      OneRead(c, ff, DeRead, io.read);
      var n3 := ReadPart(c, ff, DeRead, io.read).1;
      assert [] + n3 == n3;
    } else {
      NothingRead(c);
    }
  }

  /** The handlers start from the channel's own buffers, and read what the visit sees. */
  lemma SameBuffers(c: Chan, v: Seen)
    requires c.Valid()
    ensures var ff := EventMask(v.readBit, v.writeBit, c.sock.events, v.err, v.eof);
            var c1 := ConnectPart(Begun(c, v), ff).0;
            && c1.Valid() && c1.out == c.out && c1.residual == c.residual
            && GotBy(c1, ff, v.io) == BytesRead(c, v)
  {
    MaskMeans(v.readBit, v.writeBit, c.sock.events, v.err, v.eof);
  }

  /** The write handler and the close leave the input alone. */
  lemma LastParts(c: Chan, ff: set<Event>, r: SysResult)
    requires c.Valid()
    ensures var d := ClosePart(WritePart(c, ff, r), ff).0;
            && d.residual == c.residual
            && d.out == if DeWrite in ff && 0 < r.value <= |c.out| then c.out[r.value..] else c.out
  {}

  /** The bytes after a visit: those read are parsed behind the rest kept before, those
      the kernel took are gone from the output. */
  lemma VisitBuffers(c: Chan, v: Seen)
    requires c.Valid()
    ensures var d := Visited(c, v).0;
            && d.residual == Parse(c.residual + BytesRead(c, v)).rest
            && d.out == if SeesWrite(c, v) && 0 < v.io.write.value <= |c.out| then c.out[v.io.write.value..] else c.out
  {
    var ff := EventMask(v.readBit, v.writeBit, c.sock.events, v.err, v.eof);
    MaskMeans(v.readBit, v.writeBit, c.sock.events, v.err, v.eof);
    if ff == {} {
      NothingRead(c);
    } else {
      var c1 := ConnectPart(Begun(c, v), ff).0;
      SameBuffers(c, v);
      ReadsMean(c1, ff, v.io);
      var c3 := ReadPart(ReadPart(c1, ff, DeAccept, v.io.accept).0, ff, DeRead, v.io.read).0;
      LastParts(c3, ff, v.io.write);
    }
  }

  lemma NotesOf(c: Chan, ff: set<Event>, io: Io)
    requires c.Valid()
    ensures var (c1, n1) := ConnectPart(c, ff);
            var (c2, n2) := ReadPart(c1, ff, DeAccept, io.accept);
            var n3 := ReadPart(c2, ff, DeRead, io.read).1;
            OnEvent(c, ff, io).1 == n1 + n2 + n3 + (if DeClose in ff then [Closed] else [])
  {}

  /** The reports of a visit, in order: CONNECTED if it saw the connection, the complete
      packets among the bytes if there are any, CLOSE if it saw the end. */
  lemma VisitNotes(c: Chan, v: Seen)
    requires c.Valid()
    ensures Visited(c, v).1 == (if SeesConnect(c, v) then [Connected] else [])
                               + Report(Parse(c.residual + BytesRead(c, v)).packets)
                               + (if SeesClose(c, v) then [Closed] else [])
  {
    var ff := EventMask(v.readBit, v.writeBit, c.sock.events, v.err, v.eof);
    MaskMeans(v.readBit, v.writeBit, c.sock.events, v.err, v.eof);
    if ff == {} {
      NothingRead(c);
    } else {
      var (c1, n1) := ConnectPart(Begun(c, v), ff);
      SameBuffers(c, v);
      ReadsMean(c1, ff, v.io);
      var (c2, n2) := ReadPart(c1, ff, DeAccept, v.io.accept);
      var (c3, n3) := ReadPart(c2, ff, DeRead, v.io.read);
      Associative(n1, n2, n3);
      NotesOf(Begun(c, v), ff, v.io);
    }
  }

  lemma ReadsInterest(c: Chan, ff: set<Event>, io: Io)
    requires c.Valid() && !(DeAccept in ff && DeRead in ff)
    ensures var r := if DeAccept in ff then io.accept else io.read;
            var again := (DeAccept in ff || DeRead in ff) && (r.Bytes? || WouldBlock(r.errno));
            var c3 := ReadPart(ReadPart(c, ff, DeAccept, io.accept).0, ff, DeRead, io.read).0;
            && c3.out == c.out
            && c3.sock.events == c.sock.events - ff * {DeAccept, DeRead} + (if again then {DeRead} else {})
  {
    ReadPartSock(c, ff, DeAccept, io.accept);
    ReadPartSock(ReadPart(c, ff, DeAccept, io.accept).0, ff, DeRead, io.read);
    ReadsMean(c, ff, io);
  }

  lemma LastInterest(c: Chan, ff: set<Event>, r: SysResult)
    requires c.Valid()
    ensures var blocks := DeWrite in ff && c.out != [] && r.value < 0 && WouldBlock(r.errno);
            ClosePart(WritePart(c, ff, r), ff).0.sock.events ==
            if DeClose in ff then {} else c.sock.events - ff * {DeWrite} + (if blocks then {DeWrite} else {})
  {}

  /** The interest after a visit: none after the end; otherwise connect and accept
      interest last until they are seen, write interest survives a write event only if
      there was output and the send would block, and read interest survives a read
      unless that failed for good. */
  lemma VisitInterest(c: Chan, v: Seen)
    requires c.Valid()
    ensures var e, f := c.sock.events, Visited(c, v).0.sock.events;
            var again := var r := ReadAnswer(c, v); r.Bytes? || WouldBlock(r.errno);
            && (SeesClose(c, v) ==> f == {})
            && (!SeesClose(c, v) ==>
                  && (DeClose in f <==> DeClose in e)
                  && (DeConnect in f <==> DeConnect in e && !SeesConnect(c, v))
                  && (DeAccept in f <==> DeAccept in e && !v.readBit)
                  && (DeWrite in f <==>
                        if SeesWrite(c, v) then c.out != [] && v.io.write.value < 0 && WouldBlock(v.io.write.errno)
                        else DeWrite in e)
                  && (DeRead in f <==>
                        if !SeesRead(c, v) then DeRead in e
                        else again || (DeAccept in e && DeRead in e)))
  {
    var ff := EventMask(v.readBit, v.writeBit, c.sock.events, v.err, v.eof);
    MaskMeans(v.readBit, v.writeBit, c.sock.events, v.err, v.eof);
    if ff != {} {
      var c1 := ConnectPart(Begun(c, v), ff).0;
      SameBuffers(c, v);
      ReadsInterest(c1, ff, v.io);
      LastInterest(ReadPart(ReadPart(c1, ff, DeAccept, v.io.accept).0, ff, DeRead, v.io.read).0, ff, v.io.write);
    }
  }
}
