/** The order in which Wait takes its own steps, and what the kernel can answer: the
    runs of Reactor that the code has. Decides when a reused descriptor number can
    report CLOSE before it was ever connected, and where its ready bit came from. */
module LoopOrder {
  import opened Channel
  import opened Reactor

  /** Where the loop thread is. The list cannot change while it holds the lock. */
  datatype Stage =
    | Between                      // about to gather
    | Gathering(todo: set<int>)    // under the lock
    | Selecting
    | Selected                     // something was ready, the lock not yet taken
    | Dispatching(todo: set<int>)  // under the lock

  /** `tried`: descriptors that a connect was attempted on. */
  datatype Control = Control(stage: Stage, tried: set<int>)

  const IDLE := Control(Between, {})

  predicate LockFree(st: Stage)
  {
    st.Between? || st.Selecting? || st.Selected?
  }

  /** A round over no dispatchers is over at once. */
  predicate AtHead(st: Stage, l: Loop)
  {
    st.Between? || (st.Selected? && l.table == map[])
  }

  function ToGather(st: Stage, l: Loop): set<int>
  {
    if st.Gathering? then st.todo else if AtHead(st, l) then l.table.Keys else {}
  }

  predicate CanSelect(st: Stage, l: Loop)
  {
    st.Selecting? || (AtHead(st, l) && l.table == map[])
  }

  function ToVisit(st: Stage, l: Loop): set<int>
  {
    if st.Dispatching? then st.todo else if st.Selected? then l.table.Keys else {}
  }

  /** A socket that no connect was attempted on has no error to reap and is not at the
      end of its stream: recv fails with ENOTCONN. */
  predicate Allowed(k: Control, l: Loop, act: Action)
  {
    match act
    case Open(fd) => LockFree(k.stage) && fd != INVALID_SOCKET && fd !in l.table
    case Shut(fd) => LockFree(k.stage) && fd in l.table
    case ConnectCall(_, _) => true
    case SendCall(_, _, _) => true
    case Gather(fd) => fd in ToGather(k.stage, l)
    case Select(_, _) => CanSelect(k.stage, l)
    case Interrupted => CanSelect(k.stage, l)
    case NewWait => CanSelect(k.stage, l) || AtHead(k.stage, l)
    case Visit(fd, err, eof, _) => fd in ToVisit(k.stage, l) && (err != 0 || eof ==> fd in k.tried)
  }

  function NextControl(k: Control, l: Loop, act: Action): Control
  {
    match act
    case Open(fd) => k.(tried := k.tried - {fd})
    case Shut(fd) => k.(tried := k.tried - {fd})
    case ConnectCall(fd, _) => k.(tried := k.tried + {fd})
    case SendCall(_, _, _) => k
    case Gather(fd) =>
      var rest := ToGather(k.stage, l) - {fd};
      k.(stage := if rest == {} then Selecting else Gathering(rest))
    case Select(_, _) => k.(stage := Selected)
    case Interrupted => k.(stage := Between)
    case NewWait => k.(stage := Between)
    case Visit(fd, _, _, _) =>
      var rest := ToVisit(k.stage, l) - {fd};
      k.(stage := if rest == {} then Between else Dispatching(rest))
  }

  ghost predicate Orderly(k: Control, l: Loop, acts: seq<Action>)
    requires Valid(l)
    decreases |acts|
  {
    acts == []
    || (Allowed(k, l, acts[0]) && Orderly(NextControl(k, l, acts[0]), Step(l, acts[0]), acts[1..]))
  }

  function ControlAfter(k: Control, l: Loop, acts: seq<Action>): Control
    requires Valid(l)
    decreases |acts|
  {
    if acts == [] then k else ControlAfter(NextControl(k, l, acts[0]), Step(l, acts[0]), acts[1..])
  }

  // ---- Reused numbers -----------------------------------------------------

  /** A run that ends with CLOSE as the only report on `fd`, and, if `keep`, does not
      shut it on the way. */
  ghost predicate EndsClosed(k: Control, l: Loop, fd: int, keep: bool, acts: seq<Action>)
    requires Valid(l)
  {
    && Orderly(k, l, acts)
    && (keep ==> Shut(fd) !in acts)
    && fd in Run(l, acts).table && Run(l, acts).table[fd].log == [Closed]
  }

  lemma Before(k: Control, l: Loop, fd: int, keep: bool, act: Action)
    requires Valid(l) && Allowed(k, l, act) && (keep ==> act != Shut(fd))
    requires exists acts :: EndsClosed(NextControl(k, l, act), Step(l, act), fd, keep, acts)
    ensures exists acts :: EndsClosed(k, l, fd, keep, acts)
  {
    var rest :| EndsClosed(NextControl(k, l, act), Step(l, act), fd, keep, rest);
    var acts := [act] + rest;
    assert acts[0] == act && acts[1..] == rest;
    assert EndsClosed(k, l, fd, keep, acts);
  }

  /** A descriptor whose only connect attempt failed, and whose ready bit is set. */
  predicate Refused(k: Control, l: Loop, fd: int)
  {
    && fd in l.table && fd in l.fdsRead && fd in k.tried
    && l.table[fd].log == [] && l.table[fd].chan.sock.events == {}
  }

  lemma ClosesWhenVisited(k: Control, l: Loop, fd: int)
    requires Valid(l) && Refused(k, l, fd) && k.stage == Selected
    ensures exists acts :: EndsClosed(k, l, fd, true, acts)
  {
    var io := Io(Failed(0), Failed(0), SysResult(-1, 0));
    var visit := Visit(fd, 0, true, io);
    var c := l.table[fd].chan;
    var ff := EventMask(true, fd in l.fdsWrite, {}, 0, true);
    VisitReports(c.(sock := PreEvent(c.sock, ff)), ff, io);
    assert EndsClosed(NextControl(k, l, visit), Step(l, visit), fd, true, []);
    Before(k, l, fd, true, visit);
  }

  lemma ClosesWhenSelected(k: Control, l: Loop, fd: int)
    requires Valid(l) && Refused(k, l, fd) && k.stage == Selecting
    ensures exists acts :: EndsClosed(k, l, fd, true, acts)
  {
    var ready := Select({fd}, {});
    ClosesWhenVisited(NextControl(k, l, ready), Step(l, ready), fd);
    Before(k, l, fd, true, ready);
  }

  lemma AnyOf<T>(fds: set<T>) returns (fd: T)
    requires fds != {}
    ensures fd in fds
  {
    fd :| fd in fds;
  }

  lemma {:induction false} ClosesWhenGathered(k: Control, l: Loop, fd: int)
    requires Valid(l) && Refused(k, l, fd) && (k.stage == Between || (k.stage.Gathering? && k.stage.todo != {}))
    ensures exists acts :: EndsClosed(k, l, fd, true, acts)
    decreases |ToGather(k.stage, l)|
  {
    var g := fd;
    if k.stage.Gathering? {
      g := AnyOf(k.stage.todo);
    }
    var act := Gather(g);
    var k1, l1 := NextControl(k, l, act), Step(l, act);
    if ToGather(k.stage, l) - {g} == {} {
      ClosesWhenSelected(k1, l1, fd);
    } else {
      ClosesWhenGathered(k1, l1, fd);
    }
    Before(k, l, fd, true, act);
  }

  /** The connection is refused on the spot, which leaves a socket at its end. */
  lemma UncleanCanClose(k: Control, l: Loop, fd: int)
    requires Valid(l) && Allowed(k, l, Open(fd)) && fd in l.fdsRead
    ensures exists acts :: EndsClosed(NextControl(k, l, Open(fd)), Step(l, Open(fd)), fd, true, acts)
  {
    var k1, l1 := NextControl(k, l, Open(fd)), Step(l, Open(fd));
    var refused := ConnectCall(fd, SysResult(-1, ECONNREFUSED));
    var k2, l2 := NextControl(k1, l1, refused), Step(l1, refused);
    assert l2.table[fd].log == [] + [];
    match k.stage {
      case Between => ClosesWhenGathered(k2, l2, fd);
      case Selecting => ClosesWhenSelected(k2, l2, fd);
      case Selected => ClosesWhenVisited(k2, l2, fd);
    }
    Before(k1, l1, fd, true, refused);
  }

  lemma {:induction false} CleanStays(l: Loop, acts: seq<Action>, fd: int)
    requires Valid(l) && fd in l.table && l.table[fd].clean && Shut(fd) !in acts
    ensures fd in Run(l, acts).table && Run(l, acts).table[fd].clean
    decreases |acts|
  {
    if acts != [] {
      assert acts[0] in acts;
      CleanStays(Step(l, acts[0]), acts[1..], fd);
    }
  }

  /** A descriptor opened now will have a successful connect as its first report, in
      whatever follows until it is shut, exactly when its number has no ready bit left
      over in Wait's read set. */
  lemma OpensCleanIff(acts: seq<Action>, fd: int)
    requires Orderly(IDLE, START, acts)
    requires Allowed(ControlAfter(IDLE, START, acts), Run(START, acts), Open(fd))
    ensures var k, l := ControlAfter(IDLE, START, acts), Run(START, acts);
            var k1, l1 := NextControl(k, l, Open(fd)), Step(l, Open(fd));
            (forall more :: Orderly(k1, l1, more) && Shut(fd) !in more ==> StartsWithConnect(Run(l1, more), fd))
            <==> fd !in l.fdsRead
  {
    var k, l := ControlAfter(IDLE, START, acts), Run(START, acts);
    var k1, l1 := NextControl(k, l, Open(fd)), Step(l, Open(fd));
    RunKeeps(START, acts);
    StepKeeps(l, Open(fd));
    if fd in l.fdsRead {
      UncleanCanClose(k, l, fd);
      var more :| EndsClosed(k1, l1, fd, true, more);
      assert !StartsWithConnect(Run(l1, more), fd);
    } else {
      forall more | Orderly(k1, l1, more) && Shut(fd) !in more
        ensures StartsWithConnect(Run(l1, more), fd)
      {
        CleanStays(l1, more, fd);
        RunKeeps(l1, more);
        CleanStartsWithConnect(Run(l1, more), fd);
      }
    }
  }

  /** It happens: a number is closed and reused between select and dispatch, and the
      new connect is refused; the application hears CLOSE and nothing before it. */
  lemma LeftoverBitReportsClose()
    ensures exists acts :: EndsClosed(IDLE, START, 5, false, acts)
  {
    var connect, ready := ConnectCall(5, SysResult(0, 0)), Select({5}, {});
    var l1 := Step(START, Open(5));
    var l2 := Step(l1, connect);
    var l3 := Step(l2, Gather(5));
    var l4 := Step(l3, ready);
    var l5 := Step(l4, Shut(5));
    var k1 := NextControl(IDLE, START, Open(5));
    var k2 := NextControl(k1, l1, connect);
    assert ToGather(k2.stage, l2) - {5} == {};
    var k3 := NextControl(k2, l2, Gather(5));
    var k4 := NextControl(k3, l3, ready);
    var k5 := NextControl(k4, l4, Shut(5));
    assert 5 in l5.fdsRead;
    UncleanCanClose(k5, l5, 5);
    var rest :| EndsClosed(NextControl(k5, l5, Open(5)), Step(l5, Open(5)), 5, true, rest);
    assert EndsClosed(NextControl(k5, l5, Open(5)), Step(l5, Open(5)), 5, false, rest);
    Before(k5, l5, 5, false, Open(5));
    Before(k4, l4, 5, false, Shut(5));
    Before(k3, l3, 5, false, ready);
    Before(k2, l2, 5, false, Gather(5));
    Before(k1, l1, 5, false, connect);
    Before(IDLE, START, 5, false, Open(5));
  }

  // ---- Where a left-over bit comes from -----------------------------------

  lemma {:induction false} RunLast(l: Loop, acts: seq<Action>)
    requires Valid(l) && acts != []
    ensures Run(l, acts) == Step(Run(l, acts[..|acts| - 1]), acts[|acts| - 1])
    decreases |acts|
  {
    var n := |acts| - 1;
    if n > 0 {
      RunLast(Step(l, acts[0]), acts[1..]);
      assert acts[1..][..n - 1] == acts[..n][1..];
    }
  }

  /** Wait's read set, or its write set. */
  function Bits(l: Loop, write: bool): set<int>
  {
    if write then l.fdsWrite else l.fdsRead
  }

  /** Takes the bit of `fd` out of the set. */
  predicate Clears(l: Loop, act: Action, fd: int, write: bool)
  {
    || act.NewWait?
    || (act.Select? && fd !in if write then act.writable else act.readable)
    || (act.Visit? && act.fd == fd && fd in l.table)
  }

  predicate Wants(l: Loop, fd: int, write: bool)
  {
    && fd in l.table
    && var events := l.table[fd].chan.sock.events;
       !(events !! if write then {DeWrite, DeConnect} else {DeRead, DeAccept})
  }

  /** `fd` was gathered at step `i`, and not deselected or visited since. */
  ghost predicate GatheredAt(acts: seq<Action>, fd: int, write: bool, i: nat)
  {
    && i < |acts| && acts[i] == Gather(fd) && Wants(Run(START, acts[..i]), fd, write)
    && forall j :: i < j < |acts| ==> !Clears(Run(START, acts[..j]), acts[j], fd, write)
  }

  lemma GatheredLonger(acts: seq<Action>, act: Action, fd: int, write: bool, i: nat)
    requires i < |acts|
    ensures GatheredAt(acts + [act], fd, write, i) <==>
              GatheredAt(acts, fd, write, i) && !Clears(Run(START, acts), act, fd, write)
  {
    var more := acts + [act];
    assert more[..|acts|] == acts;
    assert forall j :: 0 <= j < |acts| ==> more[..j] == acts[..j] && more[j] == acts[j];
    assert more[|acts|] == act;
  }

  lemma BitAfter(l: Loop, act: Action, fd: int, write: bool)
    requires Valid(l)
    ensures fd in Bits(Step(l, act), write) <==>
              (act == Gather(fd) && Wants(l, fd, write)) || (fd in Bits(l, write) && !Clears(l, act, fd, write))
  {}

  /** A bit is set exactly when its descriptor was gathered with an interest in it and
      has not been deselected or visited since, in this Wait. */
  lemma {:induction false} BitMeansGathered(acts: seq<Action>, fd: int, write: bool)
    ensures fd in Bits(Run(START, acts), write) <==> exists i: nat :: GatheredAt(acts, fd, write, i)
    decreases |acts|
  {
    if acts != [] {
      var n := |acts| - 1;
      var before, act := acts[..n], acts[n];
      BitMeansGathered(before, fd, write);
      RunLast(START, acts);
      BitAfter(Run(START, before), act, fd, write);
      assert acts == before + [act];
      forall i: nat | i < n
        ensures GatheredAt(acts, fd, write, i) <==>
                  GatheredAt(before, fd, write, i) && !Clears(Run(START, before), act, fd, write)
      {
        GatheredLonger(before, act, fd, write, i);
      }
      assert forall i: nat :: GatheredAt(acts, fd, write, i) ==> i < n || i == n;
      assert GatheredAt(acts, fd, write, n) <==> act == Gather(fd) && Wants(Run(START, before), fd, write);
    }
  }

  /** The last select: nothing has been gathered, interrupted or begun anew since. */
  ghost predicate SelectAt(acts: seq<Action>, j: nat)
  {
    && j < |acts| && acts[j].Select?
    && forall k :: j < k < |acts| ==>
         !acts[k].Gather? && !acts[k].Select? && !acts[k].Interrupted? && !acts[k].NewWait?
  }

  ghost predicate RoundHasSelect(k: Control, past: seq<Action>)
  {
    k.stage.Selected? || k.stage.Dispatching? ==> exists j: nat :: SelectAt(past, j)
  }

  lemma StepHasSelect(k: Control, l: Loop, past: seq<Action>, act: Action)
    requires Valid(l) && Allowed(k, l, act) && RoundHasSelect(k, past)
    ensures RoundHasSelect(NextControl(k, l, act), past + [act])
  {
    var all := past + [act];
    if act.Select? {
      assert SelectAt(all, |past|);
    } else if k.stage.Selected? || k.stage.Dispatching? {
      var j: nat :| SelectAt(past, j);
      assert forall i :: 0 <= i < |past| ==> all[i] == past[i];
      assert act.Gather? || act.Interrupted? || act.NewWait? || SelectAt(all, j);
    }
  }

  lemma {:induction false} RunHasSelect(k: Control, l: Loop, past: seq<Action>, acts: seq<Action>)
    requires Valid(l) && Orderly(k, l, acts) && RoundHasSelect(k, past)
    ensures RoundHasSelect(ControlAfter(k, l, acts), past + acts)
    decreases |acts|
  {
    if acts == [] {
      assert past + acts == past;
    } else {
      StepHasSelect(k, l, past, acts[0]);
      RunHasSelect(NextControl(k, l, acts[0]), Step(l, acts[0]), past + [acts[0]], acts[1..]);
      assert past + [acts[0]] + acts[1..] == past + acts;
    }
  }

  /** In every run of the code, a descriptor is visited only in a round that follows a
      select, after which nothing was gathered; and a bit that is set then was reported
      by that select, whatever was left in the sets by an interrupted one. */
  lemma VisitedBitWasReported(acts: seq<Action>, visit: Action, write: bool)
    requires Orderly(IDLE, START, acts) && visit.Visit?
    requires Allowed(ControlAfter(IDLE, START, acts), Run(START, acts), visit)
    ensures exists j: nat ::
              && SelectAt(acts, j)
              && (visit.fd in Bits(Run(START, acts), write) ==> visit.fd in if write then acts[j].writable else acts[j].readable)
  {
    RunHasSelect(IDLE, START, [], acts);
    assert [] + acts == acts;
    var j: nat :| SelectAt(acts, j);
    if visit.fd in Bits(Run(START, acts), write) {
      BitMeansGathered(acts, visit.fd, write);
      var i: nat :| GatheredAt(acts, visit.fd, write, i);
      assert i < j;
      assert !Clears(Run(START, acts[..j]), acts[j], visit.fd, write);
    }
  }

  /** A descriptor that is live at step `i` and no longer at the end was shut between. */
  lemma {:induction false} GoneMeansShut(acts: seq<Action>, fd: int, i: nat)
    requires i <= |acts| && fd in Run(START, acts[..i]).table && fd !in Run(START, acts).table
    ensures exists j: nat :: i <= j < |acts| && acts[j] == Shut(fd)
    decreases |acts|
  {
    assert acts[..|acts|] == acts;
    var n := |acts| - 1;
    RunLast(START, acts);
    if acts[n] != Shut(fd) {
      assert acts[..n][..i] == acts[..i];
      GoneMeansShut(acts[..n], fd, i);
      var j: nat :| i <= j < n && acts[..n][j] == Shut(fd);
      assert acts[j] == Shut(fd);
    }
  }

  /** A number comes with a left-over bit only if its owner was shut after the loop
      gathered it and before the loop deselected or visited it; interrupted selects
      lengthen that time. */
  lemma LeftoverMeansShutInFlight(acts: seq<Action>, fd: int, write: bool)
    requires fd in Bits(Run(START, acts), write) && fd !in Run(START, acts).table
    ensures exists i: nat, j: nat :: i < j < |acts| && GatheredAt(acts, fd, write, i) && acts[j] == Shut(fd)
  {
    BitMeansGathered(acts, fd, write);
    var i: nat :| GatheredAt(acts, fd, write, i);
    GoneMeansShut(acts, fd, i);
    var j: nat :| i <= j < |acts| && acts[j] == Shut(fd);
    assert i != j;
  }

  // ---- Both sets at the end of a round --------------------------------------

  /** In a dispatch round the bits left of live descriptors are those still to visit. */
  predicate BitsDue(k: Control, l: Loop)
  {
    k.stage.Dispatching? ==> (l.fdsRead + l.fdsWrite) * l.table.Keys <= k.stage.todo
  }

  lemma DueKeeps(k: Control, l: Loop, act: Action)
    requires Valid(l) && BitsDue(k, l) && Allowed(k, l, act)
    ensures BitsDue(NextControl(k, l, act), Step(l, act))
  {}

  lemma {:induction false} DueAlways(k: Control, l: Loop, acts: seq<Action>)
    requires Valid(l) && BitsDue(k, l) && Orderly(k, l, acts)
    ensures BitsDue(ControlAfter(k, l, acts), Run(l, acts))
    decreases |acts|
  {
    if acts != [] {
      DueKeeps(k, l, acts[0]);
      DueAlways(NextControl(k, l, acts[0]), Step(l, acts[0]), acts[1..]);
    }
  }

  /** Whatever the application does meanwhile, at the end of a round neither set holds a
      bit of a live descriptor. */
  lemma RoundLeavesNothing(acts: seq<Action>, visit: Action)
    requires Orderly(IDLE, START, acts) && visit.Visit?
    requires Allowed(ControlAfter(IDLE, START, acts), Run(START, acts), visit)
    requires NextControl(ControlAfter(IDLE, START, acts), Run(START, acts), visit).stage == Between
    ensures var m := Step(Run(START, acts), visit);
            m.fdsRead !! m.table.Keys && m.fdsWrite !! m.table.Keys
  {
    var k, l := ControlAfter(IDLE, START, acts), Run(START, acts);
    DueAlways(IDLE, START, acts);
    var todo := ToVisit(k.stage, l);
    assert todo - {visit.fd} == {};
    forall fd | fd in l.table && (fd in l.fdsRead || fd in l.fdsWrite)
      ensures fd == visit.fd
    {
      assert fd in (l.fdsRead + l.fdsWrite) * l.table.Keys;
      assert fd in todo;
      assert fd !in todo - {visit.fd};
    }
  }
}
