/** Output that the loop forgets: over whole runs, when queued bytes are always watched
    for writability and when they are not. */
module Watching {
  import opened Framing
  import opened Channel
  import opened Reactor
  import opened LoopOrder

  ghost predicate AllWatched(l: Loop)
  {
    forall fd :: fd in l.table ==> Watched(l.table[fd].chan)
  }

  /** What one action must see to, checked before it is taken. */
  predicate LeavesWatched(l: Loop, act: Action)
  {
    match act
    case SendCall(fd, p, r) => fd in l.table ==> SendLeavesWatched(l.table[fd].chan, p, r)
    case Visit(fd, err, eof, io) =>
      fd in l.table ==>
        var c := l.table[fd].chan;
        VisitLeavesWatched(c, EventMask(fd in l.fdsRead, fd in l.fdsWrite, c.sock.events, err, eof), io.write)
    case _ => true
  }

  lemma DispatchIsWatched(c: Chan, readBit: bool, writeBit: bool, err: int, eof: bool, io: Io)
    requires c.Valid()
    ensures Watched(Dispatch(c, readBit, writeBit, err, eof, io).0) <==>
              VisitLeavesWatched(c, EventMask(readBit, writeBit, c.sock.events, err, eof), io.write)
  {
    var ff := EventMask(readBit, writeBit, c.sock.events, err, eof);
    VisitIsWatched(c.(sock := PreEvent(c.sock, ff)), ff, io);
  }

  lemma OneChanged(l: Loop, m: Loop, fd: int)
    requires AllWatched(l) && fd in m.table && m.table == l.table[fd := m.table[fd]]
    ensures AllWatched(m) <==> Watched(m.table[fd].chan)
  {
    if Watched(m.table[fd].chan) {
      forall g | g in m.table
        ensures Watched(m.table[g].chan)
      {
        assert g != fd ==> m.table[g] == l.table[g];
      }
    }
  }

  lemma StepWatched(l: Loop, act: Action)
    requires Valid(l) && AllWatched(l)
    ensures AllWatched(Step(l, act)) <==> LeavesWatched(l, act)
  {
    match act
    case SendCall(fd, p, r) =>
      if fd in l.table {
        PendingOutputIsWatched(l.table[fd].chan, p, r);
        OneChanged(l, Step(l, act), fd);
      }
    case Visit(fd, err, eof, io) =>
      if fd in l.table {
        DispatchIsWatched(l.table[fd].chan, fd in l.fdsRead, fd in l.fdsWrite, err, eof, io);
        OneChanged(l, Step(l, act), fd);
      }
    case _ =>
  }

  ghost predicate WatchedThroughout(l: Loop, acts: seq<Action>)
    requires Valid(l)
    decreases |acts|
  {
    AllWatched(l) && (acts != [] ==> WatchedThroughout(Step(l, acts[0]), acts[1..]))
  }

  predicate Careful(l: Loop, acts: seq<Action>)
    requires Valid(l)
    decreases |acts|
  {
    acts == [] || (LeavesWatched(l, acts[0]) && Careful(Step(l, acts[0]), acts[1..]))
  }

  lemma {:induction false} WatchedFrom(l: Loop, acts: seq<Action>)
    requires Valid(l) && AllWatched(l)
    ensures WatchedThroughout(l, acts) <==> Careful(l, acts)
    decreases |acts|
  {
    if acts != [] {
      StepWatched(l, acts[0]);
      if LeavesWatched(l, acts[0]) {
        WatchedFrom(Step(l, acts[0]), acts[1..]);
      }
    }
  }

  /** Throughout a run pending output is watched for writability exactly when each send
      drains the queue, blocks, or finds write interest up; each write event drains it
      or blocks; and each close finds it empty or drains it. */
  lemma WatchedAlways(acts: seq<Action>)
    ensures WatchedThroughout(START, acts) <==> Careful(START, acts)
  {
    WatchedFrom(START, acts);
  }

  ghost predicate Strands(k: Control, l: Loop, fd: int, acts: seq<Action>)
    requires Valid(l)
  {
    Orderly(k, l, acts) && fd in Run(l, acts).table && !Watched(Run(l, acts).table[fd].chan)
  }

  lemma Earlier(k: Control, l: Loop, fd: int, act: Action)
    requires Valid(l) && Allowed(k, l, act)
    requires exists acts :: Strands(NextControl(k, l, act), Step(l, act), fd, acts)
    ensures exists acts :: Strands(k, l, fd, acts)
  {
    var rest :| Strands(NextControl(k, l, act), Step(l, act), fd, rest);
    var acts := [act] + rest;
    assert acts[0] == act && acts[1..] == rest;
    assert Strands(k, l, fd, acts);
  }

  /** A connected descriptor whose frame went out by one byte, just gathered: the next
      byte goes with a write event, and the last is left for nobody. */
  lemma WriteEventStrands(k: Control, l: Loop, fd: int)
    requires Valid(l) && k.stage == Selecting && fd in l.table && fd in l.fdsWrite
    requires |l.table[fd].chan.out| == 2 && DeConnect !in l.table[fd].chan.sock.events
    ensures exists acts :: Strands(k, l, fd, acts)
  {
    var one := SysResult(1, 0);
    var ready, visit := Select({}, {fd}), Visit(fd, 0, false, Io(Failed(0), Failed(0), one));
    var l1, k1 := Step(l, ready), NextControl(k, l, ready);
    DispatchIsWatched(l1.table[fd].chan, false, true, 0, false, visit.io);
    assert Strands(NextControl(k1, l1, visit), Step(l1, visit), fd, []);
    Earlier(k1, l1, fd, visit);
    Earlier(k, l, fd, ready);
  }

  /** It happens: a new connection sends a one-byte packet that goes out in part. */
  lemma OutputCanStrand()
    ensures exists acts :: Strands(IDLE, START, 5, acts)
  {
    var connect, send := ConnectCall(5, SysResult(0, 0)), SendCall(5, [7], SysResult(1, 0));
    var l1, k1 := Step(START, Open(5)), NextControl(IDLE, START, Open(5));
    var l2, k2 := Step(l1, connect), NextControl(k1, l1, connect);
    var l3, k3 := Step(l2, send), NextControl(k2, l2, send);
    assert |l3.table[5].chan.out| == 2 && l3.table[5].chan.sock.events == {DeRead, DeWrite};
    var l4, k4 := Step(l3, Gather(5)), NextControl(k3, l3, Gather(5));
    assert ToGather(k3.stage, l3) - {5} == {};
    WriteEventStrands(k4, l4, 5);
    Earlier(k3, l3, 5, Gather(5));
    Earlier(k2, l2, 5, send);
    Earlier(k1, l1, 5, connect);
    Earlier(IDLE, START, 5, Open(5));
  }
}
