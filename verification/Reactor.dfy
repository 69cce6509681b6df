/** Whole runs of the event loop against any number of channels: application
    calls, the gather, select and dispatch stages of Wait, descriptors closed
    and their numbers reused, in any order and with any answers from the
    kernel. Proves the order of the reports each channel produces. */
module Reactor {
  import opened Framing
  import opened Bytes
  import opened Channel
  import ChannelLaws

  /** A live descriptor: its channel, whether its number came without a ready
      bit left over from an earlier owner, its reports since creation, and all the
      bytes its receives have brought. */
  datatype Entry = Entry(chan: Chan, clean: bool, log: seq<Note>, read: seq<byte>)

  /** `fdsRead` and `fdsWrite` are Wait's fd_sets. */
  datatype Loop = Loop(table: map<int, Entry>, fdsRead: set<int>, fdsWrite: set<int>)

  datatype Action =
    | Open(fd: int)                                     // CreateFD, number chosen by the kernel
    | Shut(fd: int)                                     // CloseFD
    | ConnectCall(fd: int, r: SysResult)                // ConnectServiceWhitFD
    | SendCall(fd: int, p: Packet, r: SysResult)        // SendDataWithFD
    | Gather(fd: int)                                   // one turn of the gather loop
    | Select(readable: set<int>, writable: set<int>)    // something was ready, if only the wakeup pipe
    | Interrupted                                       // EINTR: the sets stay as they were
    | NewWait                                           // Wait returned; the next has empty sets
    | Visit(fd: int, err: int, eof: bool, io: Io)       // one turn of the dispatch loop

  predicate Valid(l: Loop)
  {
    forall fd :: fd in l.table ==> l.table[fd].chan.Valid() && l.table[fd].chan.sock.fd == fd != INVALID_SOCKET
  }

  function ConnectEntry(e: Entry, r: SysResult): Entry
  {
    var (sock, res) := Connect(e.chan.sock, SysResult(INVALID_SOCKET, 0), r);
    e.(chan := e.chan.(sock := sock),
       log := e.log + (if res != 0 then [] else if sock.state == CsConnected then [Opened, Connected] else [Opened]))
  }

  function Step(l: Loop, act: Action): (m: Loop)
    requires Valid(l)
    ensures Valid(m)
  {
    match act
    case Open(fd) =>
      if fd == INVALID_SOCKET || fd in l.table then l
      else l.(table := l.table[fd := Entry(Chan(FreshSock(fd), [], []), fd !in l.fdsRead, [], [])])
    case Shut(fd) =>
      l.(table := l.table - {fd})
    case ConnectCall(fd, r) =>
      if fd !in l.table then l else l.(table := l.table[fd := ConnectEntry(l.table[fd], r)])
    case SendCall(fd, p, r) =>
      if fd !in l.table then l
      else var e := l.table[fd]; l.(table := l.table[fd := e.(chan := SendPacket(e.chan, p, r).0)])
    case Gather(fd) =>
      if fd !in l.table then l
      else
        var wants := l.table[fd].chan.sock.events;
        l.(fdsRead := if wants !! {DeRead, DeAccept} then l.fdsRead else l.fdsRead + {fd},
           fdsWrite := if wants !! {DeWrite, DeConnect} then l.fdsWrite else l.fdsWrite + {fd})
    case Select(readable, writable) =>
      l.(fdsRead := l.fdsRead * readable, fdsWrite := l.fdsWrite * writable)
    case Interrupted => l
    case NewWait => l.(fdsRead := {}, fdsWrite := {})
    case Visit(fd, err, eof, io) =>
      if fd !in l.table then l
      else
        var e := l.table[fd];
        DispatchKeepsFd(e.chan, fd in l.fdsRead, fd in l.fdsWrite, err, eof, io);
        var (chan, notes) := Dispatch(e.chan, fd in l.fdsRead, fd in l.fdsWrite, err, eof, io);
        var brought := ChannelLaws.BytesRead(e.chan, ChannelLaws.Seen(fd in l.fdsRead, fd in l.fdsWrite, err, eof, io));
        Loop(l.table[fd := e.(chan := chan, log := e.log + notes, read := e.read + brought)],
             l.fdsRead - {fd}, l.fdsWrite - {fd})
  }

  function Run(l: Loop, acts: seq<Action>): (m: Loop)
    requires Valid(l)
    ensures Valid(m)
    decreases |acts|
  {
    if acts == [] then l else Run(Step(l, acts[0]), acts[1..])
  }

  const START := Loop(map[], {}, {})

  // ---- The lifecycle as a language of reports ----------------------------

  /** Idle: never connected and possibly visited on a leftover bit. Down: not
      connected and silent. Bad: a report out of order. */
  datatype Phase = Idle | Pending | Up | Down | Bad

  function Next(ph: Phase, n: Note): Phase
  {
    match n
    case Opened => if ph == Idle || ph == Down then Pending else Bad
    case Connected => if ph == Pending then Up else Bad
    case Delivered(_) => if ph == Down then Bad else ph
    case Closed => if ph == Down || ph == Bad then Bad else Down
  }

  function Follow(ph: Phase, log: seq<Note>): Phase
    decreases |log|
  {
    if log == [] then ph else Next(Follow(ph, log[..|log| - 1]), log[|log| - 1])
  }

  function PhaseOf(e: Entry): Phase
  {
    Follow(if e.clean then Down else Idle, e.log)
  }

  function StateOf(ph: Phase): ConnState
  {
    match ph
    case Pending => CsConnecting
    case Up => CsConnected
    case _ => CsClosed
  }

  /** What every step keeps for every live descriptor. */
  predicate EntryInv(e: Entry, readBit: bool)
  {
    var events := e.chan.sock.events;
    && PhaseOf(e) != Bad
    && e.chan.sock.state == StateOf(PhaseOf(e))
    && (e.chan.sock.state == CsConnecting <==> DeConnect in events)
    && DeAccept !in events
    && (PhaseOf(e) == Down ==> events <= {DeWrite} && !readBit)
  }

  predicate Inv(l: Loop)
  {
    Valid(l) && forall fd :: fd in l.table ==> EntryInv(l.table[fd], fd in l.fdsRead)
  }

  lemma {:induction false} FollowAppend(ph: Phase, log: seq<Note>, more: seq<Note>)
    ensures Follow(ph, log + more) == Follow(Follow(ph, log), more)
    decreases |more|
  {
    if more == [] {
      assert log + more == log;
    } else {
      var all := log + more;
      assert all[..|all| - 1] == log + more[..|more| - 1];
      FollowAppend(ph, log, more[..|more| - 1]);
    }
  }

  lemma FollowOne(ph: Phase, n: Note)
    ensures Follow(ph, [n]) == Next(ph, n)
  {
    assert [n][..0] == [];
    assert Follow(ph, []) == ph;
  }

  lemma FollowTwo(ph: Phase, n: Note, m: Note)
    ensures Follow(ph, [n, m]) == Next(Next(ph, n), m)
  {
    FollowOne(ph, n);
    assert [n, m][..1] == [n];
  }

  /** A successful connect opens a new stretch of reports. */
  lemma FollowConnect(e: Entry)
    requires PhaseOf(e) == Idle || PhaseOf(e) == Down
    ensures PhaseOf(e.(log := e.log + [Opened])) == Pending
    ensures PhaseOf(e.(log := e.log + [Opened, Connected])) == Up
  {
    var start := if e.clean then Down else Idle;
    FollowAppend(start, e.log, [Opened]);
    FollowAppend(start, e.log, [Opened, Connected]);
    FollowOne(PhaseOf(e), Opened);
    FollowTwo(PhaseOf(e), Opened, Connected);
  }

  /** What a connect attempt makes of the socket. */
  lemma ConnectShape(s: Sock, r: SysResult)
    requires s.fd != INVALID_SOCKET
    ensures var (t, res) := Connect(s, SysResult(INVALID_SOCKET, 0), r);
            && (res != 0 ==> t.state == s.state && t.events == s.events)
            && (res == 0 ==>
                  && s.state == CsClosed
                  && (t.state == CsConnected || t.state == CsConnecting)
                  && t.events == s.events + {DeRead, DeWrite} + (if t.state == CsConnecting then {DeConnect} else {}))
  {}

  lemma ConnectFails(e: Entry, r: SysResult, readBit: bool)
    requires EntryInv(e, readBit) && e.chan.sock.fd != INVALID_SOCKET
    requires Connect(e.chan.sock, SysResult(INVALID_SOCKET, 0), r).1 != 0
    ensures EntryInv(ConnectEntry(e, r), readBit)
  {
    ConnectShape(e.chan.sock, r);
    assert ConnectEntry(e, r).log == e.log;
    assert PhaseOf(ConnectEntry(e, r)) == PhaseOf(e);
  }

  lemma SamePhase(e: Entry, f: Entry)
    requires e.clean == f.clean && e.log == f.log
    ensures PhaseOf(e) == PhaseOf(f)
  {}

  lemma ConnectPhase(e: Entry, r: SysResult)
    requires PhaseOf(e) == Idle || PhaseOf(e) == Down
    requires Connect(e.chan.sock, SysResult(INVALID_SOCKET, 0), r).1 == 0
    ensures var f := ConnectEntry(e, r);
            PhaseOf(f) == if f.chan.sock.state == CsConnected then Up else Pending
  {
    var f := ConnectEntry(e, r);
    FollowConnect(e);
    SamePhase(f, e.(log := f.log));
  }

  lemma ConnectSucceeds(e: Entry, r: SysResult, readBit: bool)
    requires EntryInv(e, readBit) && e.chan.sock.fd != INVALID_SOCKET
    requires Connect(e.chan.sock, SysResult(INVALID_SOCKET, 0), r).1 == 0
    ensures EntryInv(ConnectEntry(e, r), readBit)
  {
    ConnectShape(e.chan.sock, r);
    ConnectPhase(e, r);
  }

  lemma ConnectKeeps(e: Entry, r: SysResult, readBit: bool)
    requires EntryInv(e, readBit) && e.chan.sock.fd != INVALID_SOCKET
    ensures EntryInv(ConnectEntry(e, r), readBit)
  {
    if Connect(e.chan.sock, SysResult(INVALID_SOCKET, 0), r).1 == 0 {
      ConnectSucceeds(e, r, readBit);
    } else {
      ConnectFails(e, r, readBit);
    }
  }

  /** The reports of one visit, in order. */
  function Reports(connected: bool, packets: seq<Packet>, closed: bool): seq<Note>
  {
    (if connected then [Connected] else []) + NoteOf(packets) + (if closed then [Closed] else [])
  }

  /** The packets one visit reads. */
  function PacketsRead(c: Chan, ff: set<Event>, io: Io): seq<Packet>
    requires c.Valid()
  {
    if DeRead !in ff then []
    else ReadEvent(Without(ConnectPart(c, ff).0, {DeRead}), io.read).1
  }

  lemma ReadPartShape(c: Chan, ff: set<Event>, e: Event, r: RecvResult)
    requires c.Valid()
    ensures var s := ReadPart(c, ff, e, r).0.sock;
            && s.state == c.sock.state
            && c.sock.events - {e} <= s.events <= c.sock.events + (if e in ff then {DeRead} else {})
  {
    ReadKeepsState(Without(c, {e}), r);
  }

  lemma WritePartShape(c: Chan, ff: set<Event>, r: SysResult)
    requires c.Valid()
    ensures var s := WritePart(c, ff, r).sock;
            && s.state == c.sock.state
            && c.sock.events - {DeWrite} <= s.events <= c.sock.events + {DeWrite}
  {}

  /** The reports of one visit. */
  lemma VisitReports(c: Chan, ff: set<Event>, io: Io)
    requires c.Valid() && DeAccept !in ff
    ensures OnEvent(c, ff, io).1 == Reports(DeConnect in ff, PacketsRead(c, ff, io), DeClose in ff)
  {
    var c1 := ConnectPart(c, ff).0;
    assert ReadPart(c1, ff, DeAccept, io.accept) == (c1, []);
    var n1 := ConnectPart(c, ff).1;
    assert n1 + [] == n1;
  }

  /** State and interest after one visit's handlers. */
  lemma VisitShape(c: Chan, ff: set<Event>, io: Io)
    requires c.Valid() && DeAccept !in ff
    ensures var d := OnEvent(c, ff, io).0;
            && d.sock.state == c.sock.state
            && (DeClose in ff ==> d.sock.events == {})
            && (DeClose !in ff ==>
                  && (DeConnect in d.sock.events <==> DeConnect in c.sock.events && DeConnect !in ff)
                  && (DeAccept in d.sock.events ==> DeAccept in c.sock.events)
                  && d.sock.events <= c.sock.events + (if DeRead in ff then {DeRead} else {}) + {DeWrite})
  {
    var c1 := ConnectPart(c, ff).0;
    assert ReadPart(c1, ff, DeAccept, io.accept) == (c1, []);
    ReadPartShape(c1, ff, DeRead, io.read);
    var c3 := ReadPart(c1, ff, DeRead, io.read).0;
    WritePartShape(c3, ff, io.write);
  }

  lemma FollowData(ph: Phase, packets: seq<Packet>)
    requires ph != Down
    ensures Follow(ph, NoteOf(packets)) == ph
  {
    if packets != [] {
      FollowOne(ph, Delivered(packets));
    }
  }

  /** Where the reports of one visit lead. */
  lemma FollowVisit(ph: Phase, connected: bool, packets: seq<Packet>, closed: bool)
    requires ph != Bad
    requires connected ==> ph == Pending
    requires packets != [] || closed ==> ph != Down
    ensures Follow(ph, Reports(connected, packets, closed)) ==
            if closed then Down else if connected then Up else ph
  {
    var first := if connected then [Connected] else [];
    var last := if closed then [Closed] else [];
    FollowOne(ph, Connected);
    var mid := if connected then Up else ph;
    assert Follow(ph, first) == mid;
    FollowAppend(ph, first, NoteOf(packets));
    if packets != [] {
      FollowData(mid, packets);
    }
    assert Follow(ph, first + NoteOf(packets)) == mid;
    FollowAppend(ph, first + NoteOf(packets), last);
    FollowOne(mid, Closed);
  }

  /** The phase after a visit that signals `ff`. */
  lemma VisitPhase(e: Entry, readBit: bool, writeBit: bool, ff: set<Event>, d: Chan, packets: seq<Packet>)
    requires EntryInv(e, readBit)
    requires DeConnect in ff ==> DeConnect in e.chan.sock.events
    requires DeRead in ff || (DeClose in ff && DeConnect !in e.chan.sock.events) ==> readBit
    requires packets != [] ==> DeRead in ff
    ensures PhaseOf(e.(chan := d, log := e.log + Reports(DeConnect in ff, packets, DeClose in ff))) ==
            if DeClose in ff then Down else if DeConnect in ff then Up else PhaseOf(e)
  {
    FollowVisit(PhaseOf(e), DeConnect in ff, packets, DeClose in ff);
    FollowAppend(if e.clean then Down else Idle, e.log, Reports(DeConnect in ff, packets, DeClose in ff));
  }

  lemma SignalledKeeps(e: Entry, readBit: bool, writeBit: bool, ff: set<Event>, io: Io)
    requires e.chan.Valid() && EntryInv(e, readBit)
    requires DeAccept !in ff && !(DeRead in ff && DeClose in ff)
    requires DeConnect in ff ==> DeConnect in e.chan.sock.events
    requires DeRead in ff || (DeClose in ff && DeConnect !in e.chan.sock.events) ==> readBit
    ensures var (d, notes) := OnEvent(e.chan.(sock := PreEvent(e.chan.sock, ff)), ff, io);
            EntryInv(e.(chan := d, log := e.log + notes), false)
  {
    var c := e.chan.(sock := PreEvent(e.chan.sock, ff));
    VisitShape(c, ff, io);
    VisitReports(c, ff, io);
    VisitPhase(e, readBit, writeBit, ff, OnEvent(c, ff, io).0, PacketsRead(c, ff, io));
  }

  lemma DispatchKeeps(e: Entry, readBit: bool, writeBit: bool, err: int, eof: bool, io: Io)
    requires e.chan.Valid() && EntryInv(e, readBit)
    ensures var (chan, notes) := Dispatch(e.chan, readBit, writeBit, err, eof, io);
            EntryInv(e.(chan := chan, log := e.log + notes), false)
  {
    var s := e.chan.sock;
    var ff := EventMask(readBit, writeBit, s.events, err, eof);
    MaskExclusive(readBit, writeBit, s.events, err, eof);
    if ff == {} {
      assert e.log + [] == e.log;
    } else {
      SignalledKeeps(e, readBit, writeBit, ff, io);
    }
  }

  lemma ConnectCallKeeps(l: Loop, fd: int, r: SysResult)
    requires Inv(l)
    ensures Inv(Step(l, ConnectCall(fd, r)))
  {
    if fd in l.table {
      ConnectKeeps(l.table[fd], r, fd in l.fdsRead);
    }
  }

  lemma VisitKeeps(l: Loop, act: Action)
    requires Inv(l) && act.Visit?
    ensures Inv(Step(l, act))
  {
    var fd := act.fd;
    if fd in l.table {
      DispatchKeeps(l.table[fd], fd in l.fdsRead, fd in l.fdsWrite, act.err, act.eof, act.io);
    }
  }

  lemma SendKeeps(l: Loop, fd: int, p: Packet, r: SysResult)
    requires Inv(l)
    ensures Inv(Step(l, SendCall(fd, p, r)))
  {}

  /** Gathering adds read bits only for descriptors that want them; select, an
      interruption and a new Wait only take bits away. */
  lemma BitsKeep(l: Loop, act: Action)
    requires Inv(l) && (act.Gather? || act.Select? || act.Interrupted? || act.NewWait?)
    ensures Inv(Step(l, act))
  {}

  lemma StepKeeps(l: Loop, act: Action)
    requires Inv(l)
    ensures Inv(Step(l, act))
  {
    match act
    case ConnectCall(fd, r) => ConnectCallKeeps(l, fd, r);
    case Visit(_, _, _, _) => VisitKeeps(l, act);
    case Open(_) =>
    case Shut(_) =>
    case SendCall(fd, p, r) => SendKeeps(l, fd, p, r);
    case _ => BitsKeep(l, act);
  }

  lemma {:induction false} RunKeeps(l: Loop, acts: seq<Action>)
    requires Inv(l)
    ensures Inv(Run(l, acts))
    decreases |acts|
  {
    if acts != [] {
      StepKeeps(l, acts[0]);
      RunKeeps(Step(l, acts[0]), acts[1..]);
    }
  }

  // ---- Main results ----------------------------------------------------

  /** After any run, every live descriptor's reports are in order, its state is
      the one the reports say, and its interest agrees: it watches for the end
      of a connect exactly while connecting, and after CLOSE (or before the
      first connect, on a number with no leftover bit) for writability at most. */
  lemma LifecycleAlways(acts: seq<Action>, fd: int)
    requires fd in Run(START, acts).table
    ensures var l := Run(START, acts);
            var e := l.table[fd];
            && PhaseOf(e) != Bad
            && e.chan.sock.state == StateOf(PhaseOf(e))
            && (e.chan.sock.state == CsConnecting <==> DeConnect in e.chan.sock.events)
            && (PhaseOf(e) == Down ==> e.chan.sock.events <= {DeWrite} && fd !in l.fdsRead)
  {
    RunKeeps(START, acts);
  }

  lemma {:induction false} FollowPrefix(ph: Phase, log: seq<Note>, i: nat)
    requires i <= |log| && Follow(ph, log) != Bad
    ensures Follow(ph, log[..i]) != Bad
    decreases |log|
  {
    if i < |log| {
      FollowPrefix(ph, log[..|log| - 1], i);
      assert log[..|log| - 1][..i] == log[..i];
    } else {
      assert log[..i] == log;
    }
  }

  lemma FollowAt(ph: Phase, log: seq<Note>, i: nat)
    requires i < |log| && Follow(ph, log) != Bad
    ensures Follow(ph, log[..i]) != Bad
    ensures Follow(ph, log[..i + 1]) == Next(Follow(ph, log[..i]), log[i]) != Bad
  {
    FollowPrefix(ph, log, i);
    FollowPrefix(ph, log, i + 1);
    assert log[..i + 1][..i] == log[..i];
  }

  /** Nothing but a successful connect follows CLOSE: no second CLOSE, no
      CONNECTED, no data. */
  lemma ClosedIsFinal(acts: seq<Action>, fd: int, i: nat)
    requires fd in Run(START, acts).table
    requires var log := Run(START, acts).table[fd].log;
             i + 1 < |log| && log[i] == Closed
    ensures Run(START, acts).table[fd].log[i + 1] == Opened
  {
    RunKeeps(START, acts);
    var e := Run(START, acts).table[fd];
    var ph := if e.clean then Down else Idle;
    FollowAt(ph, e.log, i);
    FollowAt(ph, e.log, i + 1);
  }

  /** Between two positions with no CLOSE the phase only moves forward. */
  lemma {:induction false} StaysUp(ph: Phase, log: seq<Note>, i: nat, j: nat)
    requires i <= j <= |log| && Follow(ph, log) != Bad
    requires forall k :: i <= k < j ==> log[k] != Opened
    requires Follow(ph, log[..i]) == Up || Follow(ph, log[..i]) == Down
    ensures Follow(ph, log[..j]) == Up || Follow(ph, log[..j]) == Down
  {
    if i < j {
      StaysUp(ph, log, i, j - 1);
      FollowAt(ph, log, j - 1);
    }
  }

  /** Two CONNECTED reports have a successful connect between them. */
  lemma ConnectedOncePerConnect(acts: seq<Action>, fd: int, i: nat, j: nat)
    requires fd in Run(START, acts).table
    requires var log := Run(START, acts).table[fd].log;
             i < j < |log| && log[i] == Connected && log[j] == Connected
    ensures exists k :: i < k < j && Run(START, acts).table[fd].log[k] == Opened
  {
    RunKeeps(START, acts);
    var e := Run(START, acts).table[fd];
    var ph := if e.clean then Down else Idle;
    if forall k :: i + 1 <= k < j ==> e.log[k] != Opened {
      FollowAt(ph, e.log, i);
      StaysUp(ph, e.log, i + 1, j);
      FollowAt(ph, e.log, j);
    }
  }

  lemma {:induction false} StaysOpen(ph: Phase, log: seq<Note>, i: nat, j: nat)
    requires i <= j <= |log| && Follow(ph, log) != Bad
    requires forall k :: i <= k < j ==> log[k] != Closed
    requires Follow(ph, log[..i]) == Up || Follow(ph, log[..i]) == Pending
    ensures Follow(ph, log[..j]) == Up || Follow(ph, log[..j]) == Pending
  {
    if i < j {
      StaysOpen(ph, log, i, j - 1);
      FollowAt(ph, log, j - 1);
    }
  }

  /** A descriptor connects again only after its CLOSE was reported. */
  lemma ReconnectNeedsClose(acts: seq<Action>, fd: int, i: nat, j: nat)
    requires fd in Run(START, acts).table
    requires var log := Run(START, acts).table[fd].log;
             i < j < |log| && log[i] == Opened && log[j] == Opened
    ensures exists k :: i < k < j && Run(START, acts).table[fd].log[k] == Closed
  {
    RunKeeps(START, acts);
    var e := Run(START, acts).table[fd];
    var ph := if e.clean then Down else Idle;
    if forall k :: i + 1 <= k < j ==> e.log[k] != Closed {
      FollowAt(ph, e.log, i);
      StaysOpen(ph, e.log, i + 1, j);
      FollowAt(ph, e.log, j);
    }
  }

  predicate StartsWithConnect(l: Loop, fd: int)
  {
    fd in l.table && (l.table[fd].log == [] || l.table[fd].log[0] == Opened)
  }

  /** On a number that came without a leftover bit the first report is a
      successful connect. */
  lemma CleanStartsWithConnect(l: Loop, fd: int)
    requires Inv(l) && fd in l.table && l.table[fd].clean
    ensures StartsWithConnect(l, fd)
  {
    var log := l.table[fd].log;
    if log != [] {
      FollowAt(Down, log, 0);
      assert log[..0] == [];
    }
  }
}
