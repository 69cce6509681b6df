/** What the application is told, over whole runs of the loop: which report enters a
    descriptor's log with which action, and that all data read is reported. */
module Reports {
  import opened Bytes
  import opened Framing
  import opened Channel
  import opened ChannelLaws
  import opened Reactor
  import opened Sequences

  function See(l: Loop, visit: Action): Seen
    requires visit.Visit?
  {
    Seen(visit.fd in l.fdsRead, visit.fd in l.fdsWrite, visit.err, visit.eof, visit.io)
  }

  /** A connect call on a closed descriptor is answered with a connection, or with one
      under way, and nothing else reports anything at once. */
  function ConnectNotes(c: Chan, r: SysResult): seq<Note>
  {
    if c.sock.state != CsClosed then []
    else if r.value == 0 then [Opened, Connected]
    else if WouldBlock(r.errno) then [Opened]
    else []
  }

  function NewNotes(l: Loop, act: Action, fd: int): seq<Note>
    requires fd in l.table
  {
    var c := l.table[fd].chan;
    if act.ConnectCall? && act.fd == fd then ConnectNotes(c, act.r)
    else if act.Visit? && act.fd == fd then
      var v := See(l, act);
      (if SeesConnect(c, v) then [Connected] else [])
      + Report(Parse(c.residual + BytesRead(c, v)).packets)
      + (if SeesClose(c, v) then [Closed] else [])
    else []
  }

  lemma ConnectCallNotes(e: Entry, r: SysResult)
    requires e.chan.sock.fd != INVALID_SOCKET
    ensures ConnectEntry(e, r).log == e.log + ConnectNotes(e.chan, r)
    ensures ConnectEntry(e, r).chan.residual == e.chan.residual && ConnectEntry(e, r).read == e.read
  {
    ConnectOtherwise(e.chan.sock, SysResult(INVALID_SOCKET, 0), r);
    if e.chan.sock.state == CsClosed {
      ConnectMeans(e.chan.sock, SysResult(INVALID_SOCKET, 0), r);
    }
  }

  lemma StepNotes(l: Loop, act: Action, fd: int)
    requires Valid(l) && fd in l.table && act != Shut(fd)
    ensures fd in Step(l, act).table
    ensures Step(l, act).table[fd].log == l.table[fd].log + NewNotes(l, act, fd)
  {
    var e := l.table[fd];
    assert e.log + [] == e.log;
    if act.ConnectCall? && act.fd == fd {
      ConnectCallNotes(e, act.r);
    } else if act.Visit? && act.fd == fd {
      VisitNotes(e.chan, See(l, act));
    }
  }

  /** In every run exactly these reports enter a live descriptor's log with an action. */
  lemma ReportsExactly(acts: seq<Action>, act: Action, fd: int)
    requires fd in Run(START, acts).table && act != Shut(fd)
    ensures var l := Run(START, acts);
            && fd in Step(l, act).table
            && Step(l, act).table[fd].log == l.table[fd].log + NewNotes(l, act, fd)
  {
    StepNotes(Run(START, acts), act, fd);
  }

  /** A call connects at once. */
  predicate CallConnects(l: Loop, act: Action, fd: int)
    requires fd in l.table
  {
    act.ConnectCall? && act.fd == fd && l.table[fd].chan.sock.state == CsClosed && act.r.value == 0
  }

  /** A visit finds the connection made. */
  predicate VisitConnects(l: Loop, act: Action, fd: int)
    requires fd in l.table
  {
    && act.Visit? && act.fd == fd && act.err == 0
    && fd in l.fdsWrite && DeConnect in l.table[fd].chan.sock.events
  }

  /** In every run CONNECTED is reported exactly by a connect call on a closed descriptor
      that the kernel connects, and by a visit that finds the write bit, connect interest
      and no error. */
  lemma ConnectedEntersIff(acts: seq<Action>, act: Action, fd: int)
    requires fd in Run(START, acts).table && act != Shut(fd)
    ensures var l := Run(START, acts);
            && fd in Step(l, act).table
            && l.table[fd].log <= Step(l, act).table[fd].log
            && (Connected in Step(l, act).table[fd].log[|l.table[fd].log|..] <==>
                  CallConnects(l, act, fd) || VisitConnects(l, act, fd))
  {
    var l := Run(START, acts);
    ReportsExactly(acts, act, fd);
    assert Step(l, act).table[fd].log[|l.table[fd].log|..] == NewNotes(l, act, fd);
  }

  /** Such a visit leaves the descriptor connected, unless the same visit sees its end;
      a connect under way is not connected before. */
  lemma ConnectionIsSeen(acts: seq<Action>, act: Action, fd: int)
    requires fd in Run(START, acts).table
    ensures var l := Run(START, acts);
            var c := l.table[fd].chan;
            && (VisitConnects(l, act, fd) ==>
                  var e := Step(l, act).table[fd];
                  && |e.log| > |l.table[fd].log| && e.log[|l.table[fd].log|] == Connected
                  && (e.chan.sock.state == if fd in l.fdsRead && act.eof then CsClosed else CsConnected))
            && (act.ConnectCall? && act.fd == fd && c.sock.state == CsClosed && act.r.value != 0 && WouldBlock(act.r.errno) ==>
                  var s := Step(l, act).table[fd].chan.sock;
                  s.state == CsConnecting && DeConnect in s.events)
  {
    var l := Run(START, acts);
    RunKeeps(START, acts);
    if VisitConnects(l, act, fd) {
      ReportsExactly(acts, act, fd);
      VisitState(l.table[fd].chan, See(l, act));
    }
    if act.ConnectCall? && act.fd == fd && l.table[fd].chan.sock.state == CsClosed {
      ConnectMeans(l.table[fd].chan.sock, SysResult(INVALID_SOCKET, 0), act.r);
    }
  }

  // ---- Data ---------------------------------------------------------------

  /** The packets of a log, in order. */
  function Payloads(log: seq<Note>): seq<Packet>
  {
    if log == [] then []
    else (if log[0].Delivered? then log[0].packets else []) + Payloads(log[1..])
  }

  lemma {:induction false} PayloadsConcat(a: seq<Note>, b: seq<Note>)
    ensures Payloads(a + b) == Payloads(a) + Payloads(b)
  {
    if a == [] {
      assert a + b == b;
    } else {
      var first := if a[0].Delivered? then a[0].packets else [];
      assert (a + b)[1..] == a[1..] + b && (a + b)[0] == a[0];
      PayloadsConcat(a[1..], b);
      Associative(first, Payloads(a[1..]), Payloads(b));
    }
  }

  lemma PayloadsOne(n: Note)
    ensures Payloads([n]) == if n.Delivered? then n.packets else []
  {
    assert [n][1..] == [];
  }

  lemma PayloadsReport(packets: seq<Packet>)
    ensures Payloads(Report(packets)) == packets
  {
    PayloadsOne(Delivered(packets));
  }

  /** All that was read has been reported, but for the incomplete rest. */
  ghost predicate ReadReported(e: Entry)
  {
    Parse(e.read) == Parsed(Payloads(e.log), e.chan.residual)
  }

  lemma {:induction false} NoPayloads(notes: seq<Note>)
    requires forall i :: 0 <= i < |notes| ==> !notes[i].Delivered?
    ensures Payloads(notes) == []
  {
    if notes != [] {
      NoPayloads(notes[1..]);
    }
  }

  lemma VisitPayloads(c: Chan, v: Seen)
    requires c.Valid()
    ensures Payloads(Visited(c, v).1) == Parse(c.residual + BytesRead(c, v)).packets
  {
    var packets := Parse(c.residual + BytesRead(c, v)).packets;
    var first := if SeesConnect(c, v) then [Connected] else [];
    var last := if SeesClose(c, v) then [Closed] else [];
    VisitNotes(c, v);
    PayloadsConcat(first + Report(packets), last);
    PayloadsConcat(first, Report(packets));
    NoPayloads(first);
    NoPayloads(last);
    PayloadsReport(packets);
  }

  lemma VisitReported(e: Entry, v: Seen, f: Entry)
    requires e.chan.Valid() && ReadReported(e)
    requires f.chan == Visited(e.chan, v).0 && f.log == e.log + Visited(e.chan, v).1
    requires f.read == e.read + BytesRead(e.chan, v)
    ensures ReadReported(f)
  {
    VisitBuffers(e.chan, v);
    VisitPayloads(e.chan, v);
    PayloadsConcat(e.log, Visited(e.chan, v).1);
    ParseChunks(e.read, BytesRead(e.chan, v));
  }

  lemma ConnectReported(e: Entry, r: SysResult)
    requires e.chan.sock.fd != INVALID_SOCKET && ReadReported(e)
    ensures ReadReported(ConnectEntry(e, r))
  {
    var notes := ConnectNotes(e.chan, r);
    ConnectCallNotes(e, r);
    PayloadsConcat(e.log, notes);
    assert forall i :: 0 <= i < |notes| ==> !notes[i].Delivered?;
    NoPayloads(notes);
    assert Payloads(e.log) + [] == Payloads(e.log);
  }

  ghost predicate AllReported(l: Loop)
  {
    forall fd :: fd in l.table ==> ReadReported(l.table[fd])
  }

  lemma StepReported(l: Loop, act: Action)
    requires Valid(l) && AllReported(l)
    ensures AllReported(Step(l, act))
  {
    match act
    case ConnectCall(fd, r) =>
      if fd in l.table {
        ConnectReported(l.table[fd], r);
      }
    case Visit(fd, _, _, _) =>
      if fd in l.table {
        VisitReported(l.table[fd], See(l, act), Step(l, act).table[fd]);
      }
    case SendCall(fd, p, r) =>
      if fd in l.table {
        SendPacketMeans(l.table[fd].chan, p, r);
      }
    case Open(fd) => assert Parse([]) == Parsed([], []);
    case _ =>
  }

  lemma {:induction false} RunReported(l: Loop, acts: seq<Action>)
    requires Valid(l) && AllReported(l)
    ensures AllReported(Run(l, acts))
    decreases |acts|
  {
    if acts != [] {
      StepReported(l, acts[0]);
      RunReported(Step(l, acts[0]), acts[1..]);
    }
  }

  /** In every run the packets reported for a descriptor, in order, are exactly the
      complete packets of the bytes its receives have brought, and what is kept is the
      incomplete rest. */
  lemma DataIsReported(acts: seq<Action>, fd: int)
    requires fd in Run(START, acts).table
    ensures var e := Run(START, acts).table[fd];
            Payloads(e.log) == Parse(e.read).packets && e.chan.residual == Parse(e.read).rest
  {
    RunReported(START, acts);
  }
}
