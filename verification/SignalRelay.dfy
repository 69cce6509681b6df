/** POSIX signals on their way to the loop thread: an asynchronous handler sets a
    flag and then writes a byte to a non-blocking pipe; the dispatcher drains up to
    sixteen bytes, then scans all flags, clearing each before it calls. Handlers
    interrupt anywhere, also between the dispatcher's single steps and between
    the two halves of one another. */
module SignalRelay {
  import opened Wrappers

  const NUM_SIGNALS: nat := 128

  type Signum = nat

  /** A handler is named by its address. */
  type Handler = int

  /** `Served`: the dispatcher reached the signal's turn, and called that handler, or
      none when none was registered. */
  datatype Note = Got(s: Signum) | Served(s: Signum, called: Option<Handler>)

  datatype Pc =
    | Waiting
    | Scanning(i: nat)   // about to test flag i
    | Clearing(i: nat)   // found flag i up
    | Calling(i: nat)    // flag i cleared

  /** `writing` holds one entry per handler that has set its flag and not yet
      written; `room` is the pipe's capacity; `installed` says that the server has its
      dispatcher, which it makes with the first handler and deletes with the last. */
  datatype State = State(flags: set<Signum>, pipe: nat, room: nat, writing: multiset<Signum>,
                         handlers: map<Signum, Handler>, installed: bool, pc: Pc, log: seq<Note>)

  datatype Action =
    | Receive(s: Signum)      // first half of OnPosixSignalReceived
    | Write(s: Signum)        // second half
    | Drain                   // OnPreEvent
    | Advance                 // one step of OnEvent
    | SetHandler(s: Signum, h: Handler)
    | ClearHandler(s: Signum)
    | Uninstall               // waits for the end of a dispatch round

  predicate Enabled(s: State, a: Action)
  {
    match a
    case Write(n) => n in s.writing
    case Drain => s.installed && s.pc.Waiting? && s.pipe > 0
    case Advance => !s.pc.Waiting?
    case ClearHandler(_) => s.installed
    case Uninstall => s.installed && s.handlers == map[] && s.pc.Waiting?
    case _ => true
  }

  /** What OnEvent finds in the handler map. */
  function HandlerOf(handlers: map<Signum, Handler>, n: Signum): Option<Handler>
  {
    if n in handlers then Some(handlers[n]) else None
  }

  function Step(s: State, a: Action): State
    requires Enabled(s, a)
  {
    match a
    case Receive(n) =>
      if n >= NUM_SIGNALS then s
      else s.(flags := s.flags + {n}, writing := s.writing + multiset{n}, log := s.log + [Got(n)])
    case Write(n) =>
      s.(writing := s.writing - multiset{n}, pipe := if s.pipe < s.room then s.pipe + 1 else s.pipe)
    case Drain => s.(pipe := if s.pipe <= 16 then 0 else s.pipe - 16, pc := Scanning(0))
    case Advance =>
      (match s.pc
       case Waiting => s
       case Scanning(i) =>
         if i >= NUM_SIGNALS then s.(pc := Waiting)
         else if i in s.flags then s.(pc := Clearing(i))
         else s.(pc := Scanning(i + 1))
       case Clearing(i) => s.(flags := s.flags - {i}, pc := Calling(i))
       case Calling(i) => s.(log := s.log + [Served(i, HandlerOf(s.handlers, i))], pc := Scanning(i + 1)))
    case SetHandler(n, h) => s.(handlers := s.handlers[n := h], installed := true)
    case ClearHandler(n) => s.(handlers := s.handlers - {n})
    case Uninstall => s.(installed := false)
  }

  ghost predicate Reaches(s: State, acts: seq<Action>, t: State)
    decreases |acts|
  {
    if acts == [] then s == t
    else Enabled(s, acts[0]) && Reaches(Step(s, acts[0]), acts[1..], t)
  }

  function Start(room: nat): State
  {
    State({}, 0, room, multiset{}, map[], false, Waiting, [])
  }

  /** Signals received after their last turn. */
  function Owed(log: seq<Note>): set<Signum>
    decreases |log|
  {
    if log == [] then {}
    else
      var before := Owed(log[..|log| - 1]);
      match log[|log| - 1]
      case Got(s) => before + {s}
      case Served(s, _) => before - {s}
  }

  lemma OwedNext(log: seq<Note>, n: Note)
    ensures Owed(log + [n]) == if n.Got? then Owed(log) + {n.s} else Owed(log) - {n.s}
  {
    assert (log + [n])[..|log|] == log;
  }

  /** The scan under way has yet to test flag `n`. */
  predicate Ahead(pc: Pc, n: Signum)
  {
    match pc
    case Waiting => false
    case Scanning(i) => i <= n
    case Clearing(i) => i <= n
    case Calling(i) => i < n
  }

  ghost predicate Inv(s: State)
  {
    && s.room > 0
    && (!s.installed ==> s.pc.Waiting? && s.handlers == map[])
    && (forall n :: n in s.flags ==> n < NUM_SIGNALS && (s.pipe > 0 || n in s.writing || Ahead(s.pc, n)))
    && (forall n :: n in Owed(s.log) ==> n in s.flags || s.pc == Calling(n))
    && (s.pc.Clearing? ==> s.pc.i in s.flags)
    && (s.pc.Calling? ==> s.pc.i < NUM_SIGNALS)
    && (s.pc.Scanning? ==> s.pc.i <= NUM_SIGNALS)
  }

  lemma ReceiveKeeps(s: State, n: Signum)
    requires Inv(s)
    ensures Inv(Step(s, Receive(n)))
  {
    OwedNext(s.log, Got(n));
  }

  lemma WriteKeeps(s: State, n: Signum)
    requires Inv(s) && n in s.writing
    ensures Inv(Step(s, Write(n)))
  {
    assert Step(s, Write(n)).pipe > 0;
  }

  lemma DrainKeeps(s: State)
    requires Inv(s) && Enabled(s, Drain)
    ensures Inv(Step(s, Drain))
  {
    assert forall n :: n in s.flags ==> Ahead(Scanning(0), n);
  }

  lemma AdvanceKeeps(s: State)
    requires Inv(s) && Enabled(s, Advance)
    ensures Inv(Step(s, Advance))
  {
    var t := Step(s, Advance);
    if s.pc.Calling? {
      OwedNext(s.log, Served(s.pc.i, HandlerOf(s.handlers, s.pc.i)));
    }
    forall n | n in t.flags
      ensures t.pipe > 0 || n in t.writing || Ahead(t.pc, n)
    {
      assert n in s.flags;
    }
  }

  lemma StepKeeps(s: State, a: Action)
    requires Inv(s) && Enabled(s, a)
    ensures Inv(Step(s, a))
  {
    match a
    case Receive(n) => ReceiveKeeps(s, n);
    case Write(n) => WriteKeeps(s, n);
    case Drain => DrainKeeps(s);
    case Advance => AdvanceKeeps(s);
    case _ =>
  }

  lemma {:induction false} RunKeeps(s: State, acts: seq<Action>, t: State)
    requires Inv(s) && Reaches(s, acts, t)
    ensures Inv(t)
    decreases |acts|
  {
    if acts != [] {
      StepKeeps(s, acts[0]);
      RunKeeps(Step(s, acts[0]), acts[1..], t);
    }
  }

  // ---- Main results ------------------------------------------------------

  /** In every run a raised flag is never stranded: there is a byte to wake the
      loop, a handler about to write one, or a scan that has yet to pass it. */
  lemma FlagNeverStranded(room: nat, acts: seq<Action>, s: State, n: Signum)
    requires room > 0 && Reaches(Start(room), acts, s) && n in s.flags
    ensures s.pipe > 0 || n in s.writing || Ahead(s.pc, n)
  {
    RunKeeps(Start(room), acts, s);
  }

  /** Nothing left to do: no handler mid-way, no byte, no scan. */
  predicate Quiet(s: State)
  {
    s.writing == multiset{} && s.pipe == 0 && s.pc.Waiting?
  }

  lemma {:induction false} OwedMeans(log: seq<Note>, i: nat)
    requires i < |log| && log[i].Got? && log[i].s !in Owed(log)
    ensures exists j :: i < j < |log| && log[j].Served? && log[j].s == log[i].s
    decreases |log|
  {
    var n := |log| - 1;
    if i < n {
      var last := log[n];
      if !(last.Served? && last.s == log[i].s) {
        assert log[..n][i] == log[i];
        OwedMeans(log[..n], i);
        var j :| i < j < n && log[..n][j].Served? && log[..n][j].s == log[i].s;
        assert log[j] == log[..n][j];
      }
    }
  }

  /** Whenever the relay is quiet, every signal received so far has had its turn
      after it arrived; several arrivals may share one turn. */
  lemma QuietMeansServed(room: nat, acts: seq<Action>, s: State, i: nat)
    requires room > 0 && Reaches(Start(room), acts, s) && Quiet(s)
    requires i < |s.log| && s.log[i].Got?
    ensures exists j :: i < j < |s.log| && s.log[j].Served? && s.log[j].s == s.log[i].s
  {
    RunKeeps(Start(room), acts, s);
    OwedMeans(s.log, i);
  }

  lemma {:induction false} LogGrows(s: State, acts: seq<Action>, t: State)
    requires Reaches(s, acts, t)
    ensures s.log <= t.log
    decreases |acts|
  {
    if acts != [] {
      LogGrows(Step(s, acts[0]), acts[1..], t);
    }
  }

  /** From the moment a handler is registered until it is cleared or replaced, every
      turn of its signal calls that handler. */
  lemma {:induction false} RegisteredIsCalled(s: State, acts: seq<Action>, t: State, n: Signum, h: Handler, j: nat)
    requires Reaches(s, acts, t) && n in s.handlers && s.handlers[n] == h && ClearHandler(n) !in acts
    requires forall a :: a in acts && a.SetHandler? && a.s == n ==> a.h == h
    requires |s.log| <= j < |t.log| && t.log[j].Served? && t.log[j].s == n
    ensures t.log[j].called == Some(h)
    decreases |acts|
  {
    if acts != [] {
      var m := Step(s, acts[0]);
      LogGrows(m, acts[1..], t);
      assert acts[0] in acts;
      if |m.log| <= j {
        RegisteredIsCalled(m, acts[1..], t, n, h, j);
      }
    }
  }

  /** Steps the relay still needs if no further signal arrives. */
  function Work(s: State): nat
    requires Inv(s)
  {
    (3 * NUM_SIGNALS + 3) * |s.writing| + (3 * NUM_SIGNALS + 2) * s.pipe
    + match s.pc
      case Waiting => 0
      case Scanning(i) => 3 * (NUM_SIGNALS - i) + 1
      case Clearing(i) => 3 * (NUM_SIGNALS - i)
      case Calling(i) => 3 * (NUM_SIGNALS - i) - 1
  }

  predicate Relays(a: Action)
  {
    a.Write? || a.Drain? || a.Advance?
  }

  lemma WorkShrinks(s: State, a: Action)
    requires Inv(s) && Enabled(s, a) && Relays(a)
    ensures Inv(Step(s, a)) && Work(Step(s, a)) < Work(s)
  {
    StepKeeps(s, a);
    if a.Write? {
      assert s.writing == (s.writing - multiset{a.s}) + multiset{a.s};
    }
  }

  /** There is a step to take exactly when there is work and somebody to do it. */
  lemma SomethingToDo(s: State)
    requires Inv(s)
    ensures (exists a :: Relays(a) && Enabled(s, a)) <==> !Quiet(s) && (s.installed || s.writing != multiset{})
  {
    if s.writing != multiset{} {
      var n :| n in s.writing;
      assert Relays(Write(n)) && Enabled(s, Write(n));
    } else if s.installed && s.pc.Waiting? && s.pipe > 0 {
      assert Relays(Drain) && Enabled(s, Drain);
    } else if !s.pc.Waiting? {
      assert Relays(Advance) && Enabled(s, Advance);
    }
  }

  lemma {:induction false} WorkBounds(s: State, acts: seq<Action>, t: State)
    requires Inv(s) && Reaches(s, acts, t)
    requires forall i :: 0 <= i < |acts| ==> Relays(acts[i])
    ensures Inv(t) && |acts| + Work(t) <= Work(s)
    decreases |acts|
  {
    if acts != [] {
      WorkShrinks(s, acts[0]);
      WorkBounds(Step(s, acts[0]), acts[1..], t);
    }
  }

  /** What a deleted dispatcher leaves behind wakes the next one. */
  lemma PendingStays(s: State)
    requires Inv(s) && !s.installed && s.flags != {} && s.writing == multiset{}
    ensures s.pipe > 0
    ensures forall n, h :: Enabled(Step(s, SetHandler(n, h)), Drain)
  {
    var n :| n in s.flags;
    assert n !in s.writing && !Ahead(s.pc, n);
  }

  /** Once signals stop arriving the relay takes at most `Work` steps more, in any
      order. It has one to take until it is quiet, or its dispatcher has been deleted
      with its last handler and no handler is half-way; what is pending then has its
      byte in the pipe still, and the next handler to be registered sets it going. */
  lemma RelayFinishes(room: nat, before: seq<Action>, s: State, after: seq<Action>, t: State)
    requires room > 0 && Reaches(Start(room), before, s) && Reaches(s, after, t)
    requires forall i :: 0 <= i < |after| ==> Relays(after[i])
    ensures Inv(s) && |after| <= Work(s)
    ensures (exists a :: Relays(a) && Enabled(t, a)) <==> !Quiet(t) && (t.installed || t.writing != multiset{})
    ensures !t.installed && t.flags != {} && t.writing == multiset{} ==>
              t.pipe > 0 && forall n, h :: Enabled(Step(t, SetHandler(n, h)), Drain)
  {
    RunKeeps(Start(room), before, s);
    WorkBounds(s, after, t);
    SomethingToDo(t);
    if !t.installed && t.flags != {} && t.writing == multiset{} {
      PendingStays(t);
    }
  }

  // ---- The scan as a whole ------------------------------------------------

  /** `turns` names each of `flags` once, in ascending order. */
  ghost predicate Lists(turns: seq<Signum>, flags: set<Signum>)
  {
    && (forall j, k :: 0 <= j < k < |turns| ==> turns[j] < turns[k])
    && (forall n: Signum :: n in turns <==> n in flags)
  }

  function ServedAll(turns: seq<Signum>, handlers: map<Signum, Handler>): (log: seq<Note>)
    ensures |log| == |turns|
  {
    seq(|turns|, k requires 0 <= k < |turns| => Served(turns[k], HandlerOf(handlers, turns[k])))
  }

  function Scanned(s: State, turns: seq<Signum>): State
  {
    s.(flags := {}, pc := Waiting, log := s.log + ServedAll(turns, s.handlers))
  }

  lemma ReachesFirst(s: State, a: Action, acts: seq<Action>, t: State)
    requires Enabled(s, a) && Reaches(Step(s, a), acts, t)
    ensures Reaches(s, [a] + acts, t)
  {
    assert ([a] + acts)[1..] == acts;
  }

  lemma ListsRest(turns: seq<Signum>, flags: set<Signum>, i: Signum)
    requires Lists(turns, flags) && i in flags && forall n :: n in flags ==> i <= n
    ensures turns != [] && turns[0] == i && Lists(turns[1..], flags - {i})
  {
    assert i in turns;
    var k :| 0 <= k < |turns| && turns[k] == i;
    assert turns[0] in turns;
    forall n: Signum | n in flags - {i}
      ensures n in turns[1..]
    {
      assert n in turns;
      var m :| 0 <= m < |turns| && turns[m] == n;
      assert turns[1..][m - 1] == n;
    }
    assert forall m :: 0 <= m < |turns[1..]| ==> turns[1..][m] == turns[m + 1];
  }

  /** The three steps that serve the flag under the scan. */
  function AfterTurn(s: State): State
    requires s.pc.Scanning?
  {
    s.(flags := s.flags - {s.pc.i}, pc := Scanning(s.pc.i + 1),
       log := s.log + [Served(s.pc.i, HandlerOf(s.handlers, s.pc.i))])
  }

  lemma ThreeSteps(s: State)
    requires s.pc.Scanning? && s.pc.i < NUM_SIGNALS && s.pc.i in s.flags
    ensures !Step(s, Advance).pc.Waiting? && !Step(Step(s, Advance), Advance).pc.Waiting?
    ensures Step(Step(Step(s, Advance), Advance), Advance) == AfterTurn(s)
  {}

  lemma ReachesThird(s1: State, s2: State, s3: State, acts: seq<Action>, t: State)
    requires !s1.pc.Waiting? && s2 == Step(s1, Advance)
    requires !s2.pc.Waiting? && s3 == Step(s2, Advance)
    requires Reaches(s3, acts, t)
    ensures Reaches(s1, [Advance] + ([Advance] + acts), t)
  {
    ReachesFirst(s2, Advance, acts, t);
    ReachesFirst(s1, Advance, [Advance] + acts, t);
  }

  lemma ServeOne(s: State, acts: seq<Action>, t: State)
    requires s.pc.Scanning? && s.pc.i < NUM_SIGNALS && s.pc.i in s.flags
    requires Reaches(AfterTurn(s), acts, t)
    ensures Reaches(s, [Advance] + ([Advance] + ([Advance] + acts)), t)
  {
    var s1 := Step(s, Advance);
    ThreeSteps(s);
    ReachesThird(s1, Step(s1, Advance), AfterTurn(s), acts, t);
    ReachesFirst(s, Advance, [Advance] + ([Advance] + acts), t);
  }

  lemma ScannedRest(s: State, turns: seq<Signum>)
    requires s.pc.Scanning? && turns != [] && turns[0] == s.pc.i
    ensures Scanned(AfterTurn(s), turns[1..]) == Scanned(s, turns)
  {
    assert ServedAll(turns, s.handlers)
        == [Served(s.pc.i, HandlerOf(s.handlers, s.pc.i))] + ServedAll(turns[1..], s.handlers);
  }

  /** Left undisturbed, the stepwise scan serves exactly the raised flags in ascending
      order, each with the handler registered for it. */
  lemma {:induction false} ScanAlone(s: State, turns: seq<Signum>)
    requires s.pc.Scanning? && s.pc.i <= NUM_SIGNALS
    requires forall n :: n in s.flags ==> s.pc.i <= n < NUM_SIGNALS
    requires Lists(turns, s.flags)
    ensures exists acts :: Reaches(s, acts, Scanned(s, turns))
    decreases NUM_SIGNALS - s.pc.i
  {
    var i, done := s.pc.i, Scanned(s, turns);
    assert turns != [] ==> turns[0] in turns;
    if i == NUM_SIGNALS {
      assert turns == [] && s.flags == {} && s.log + ServedAll(turns, s.handlers) == s.log;
      ReachesFirst(s, Advance, [], done);
    } else if i in s.flags {
      ListsRest(turns, s.flags, i);
      var s3 := AfterTurn(s);
      ScanAlone(s3, turns[1..]);
      ScannedRest(s, turns);
      var acts :| Reaches(s3, acts, done);
      ServeOne(s, acts, done);
    } else {
      var s1 := Step(s, Advance);
      ScanAlone(s1, turns);
      var acts :| Reaches(s1, acts, done);
      ReachesFirst(s, Advance, acts, done);
    }
  }

  // ---- One turn of the scan ------------------------------------------------

  function RaisedBelow(received: seq<bool>, n: nat): set<Signum>
    requires n <= |received|
  {
    set k | 0 <= k < n && received[k]
  }

  lemma TurnsMore(turns: seq<Signum>, received: seq<bool>, n: nat)
    requires n < |received| && Lists(turns, RaisedBelow(received, n))
    ensures Lists(if received[n] then turns + [n] else turns, RaisedBelow(received, n + 1))
  {
    assert forall k :: 0 <= k < |turns| ==> turns[k] in turns;
  }

  /** The one call of a turn, if a handler is registered. */
  function CallAt(n: Signum, handlers: map<Signum, Handler>): seq<(Signum, Handler)>
  {
    if n in handlers then [(n, handlers[n])] else []
  }

  /** The handlers called at those turns. */
  function CallsOf(turns: seq<Signum>, handlers: map<Signum, Handler>): seq<(Signum, Handler)>
  {
    if turns == [] then []
    else
      CallsOf(turns[..|turns| - 1], handlers) + CallAt(turns[|turns| - 1], handlers)
  }

  lemma CallsMore(turns: seq<Signum>, n: Signum, handlers: map<Signum, Handler>)
    ensures CallsOf(turns + [n], handlers) == CallsOf(turns, handlers) + CallAt(n, handlers)
  {
    assert (turns + [n])[..|turns|] == turns;
  }

  /** The flags when those below `n` have been cleared. */
  function ClearedBelow(received: seq<bool>, n: nat): (s: seq<bool>)
    ensures |s| == |received|
  {
    seq(|received|, k requires 0 <= k < |received| => k >= n && received[k])
  }

  /** The turns and calls of the flags below `n`. */
  ghost predicate Turned(turns: seq<Signum>, calls: seq<(Signum, Handler)>, received: seq<bool>, n: nat,
                         handlers: map<Signum, Handler>)
    requires n <= |received|
  {
    Lists(turns, RaisedBelow(received, n)) && calls == CallsOf(turns, handlers)
  }

  lemma ClearedMore(received: seq<bool>, n: nat)
    requires n < |received|
    ensures ClearedBelow(received, n)[n] == received[n]
    ensures ClearedBelow(received, n + 1) ==
            if received[n] then ClearedBelow(received, n)[n := false] else ClearedBelow(received, n)
  {}

  lemma TurnedMore(turns: seq<Signum>, calls: seq<(Signum, Handler)>, received: seq<bool>, n: nat,
                   handlers: map<Signum, Handler>)
    requires n < |received| && Turned(turns, calls, received, n, handlers)
    ensures received[n] ==> Turned(turns + [n], calls + CallAt(n, handlers), received, n + 1, handlers)
    ensures !received[n] ==> Turned(turns, calls, received, n + 1, handlers)
  {
    TurnsMore(turns, received, n);
    CallsMore(turns, n, handlers);
  }

  lemma AllTurned(received: seq<bool>)
    ensures RaisedBelow(ClearedBelow(received, |received|), |received|) == {}
  {}

  // ---- The objects -------------------------------------------------------

  /** PosixSignalHandler's flags and pipe, PosixSignalDispatcher's handler map. The
      ghost fields are what has happened, and where the dispatcher is. */
  class PosixSignalDispatcher {
    const received: array<bool>
    const room: nat
    var pipe: nat
    var handlers: map<Signum, Handler>
    var installed: bool
    ghost var pc: Pc
    ghost var log: seq<Note>

    ghost predicate Valid()
    {
      received.Length == NUM_SIGNALS
    }

    ghost function Flags(): set<Signum>
      requires Valid()
      reads received
    {
      set n | 0 <= n < NUM_SIGNALS && received[n]
    }

    /** The state between the methods: no handler is half-way. */
    ghost function Abs(): State
      requires Valid()
      reads this, received
    {
      State(Flags(), pipe, room, multiset{}, handlers, installed, pc, log)
    }

    constructor (capacity: nat)
      ensures Valid() && Abs() == Start(capacity)
      ensures fresh(received)
    {
      received := new bool[NUM_SIGNALS](_ => false);
      room, pipe, handlers, installed, pc, log := capacity, 0, map[], false, Waiting, [];
    }

    /** PhysicalSocketServer::SetPosixSignalHandler, which keeps the dispatcher; no
        handler stands for SIG_IGN and SIG_DFL. `ok` is the kernel's answer to the
        change of the signal's action, which comes first or last. */
    method SetPosixSignalHandler(signum: Signum, handler: Option<Handler>, ok: bool) returns (done: bool)
      requires Valid() && pc == Waiting
      modifies this
      ensures done == ok
      ensures handler.Some? ==> Abs() == Step(old(Abs()), SetHandler(signum, handler.value))
      ensures handler.None? && ok && old(installed) ==>
                var cleared := Step(old(Abs()), ClearHandler(signum));
                Abs() == if cleared.handlers == map[] then Step(cleared, Uninstall) else cleared
      ensures handler.None? && !(ok && old(installed)) ==> Abs() == old(Abs())
      ensures handler.Some? ==> handlers == old(handlers)[signum := handler.value] && installed
      ensures handler.None? && ok && old(installed) ==>
                handlers == old(handlers) - {signum} && (installed <==> handlers != map[])
    {
      match handler {
        case None =>
          if !ok {
            return false;
          }
          if installed {
            handlers := handlers - {signum};
            if handlers == map[] {
              installed := false;
            }
          }
        case Some(h) =>
          installed := true;
          handlers := handlers[signum := h];
          if !ok {
            return false;
          }
      }
      return true;
    }

    /** Both halves of the handler; the write to a full pipe fails. */
    method OnPosixSignalReceived(signum: Signum)
      requires Valid()
      modifies this, received
      ensures signum >= NUM_SIGNALS ==> Abs() == old(Abs())
      ensures signum < NUM_SIGNALS ==> Abs() == Step(Step(old(Abs()), Receive(signum)), Write(signum))
      ensures signum < 128 ==> Flags() == old(Flags()) + {signum} && log == old(log) + [Got(signum)]
      ensures pipe == if signum < 128 && old(pipe) < room then old(pipe) + 1 else old(pipe)
    {
      if signum >= NUM_SIGNALS {
        return;
      }
      received[signum] := true;
      log := log + [Got(signum)];
      if pipe < room {
        pipe := pipe + 1;
      }
    }

    /** Called when select found the pipe readable: reads up to sixteen bytes. */
    method OnPreEvent()
      requires Valid() && installed && pipe > 0 && pc == Waiting
      modifies this
      ensures Abs() == Step(old(Abs()), Drain)
      ensures pipe + 16 == old(pipe) || (pipe == 0 && old(pipe) <= 16)
    {
      var read := if pipe < 16 then pipe else 16;
      pipe := pipe - read;
      pc := Scanning(0);
    }

    /** The loop of OnEvent. */
    method ScanFlags() returns (ghost turns: seq<Signum>, calls: seq<(Signum, Handler)>)
      requires Valid()
      modifies received
      ensures Lists(turns, old(Flags())) && Flags() == {}
      ensures calls == CallsOf(turns, handlers)
    {
      turns, calls := [], [];
      ghost var was := received[..];
      for signum := 0 to NUM_SIGNALS
        invariant received[..] == ClearedBelow(was, signum)
        invariant Turned(turns, calls, was, signum, handlers)
      {
        ClearedMore(was, signum);
        TurnedMore(turns, calls, was, signum, handlers);
        if received[signum] {
          received[signum] := false;
          turns := turns + [signum];
          calls := calls + CallAt(signum, handlers);
        }
      }
      AllTurned(was);
      assert old(Flags()) == RaisedBelow(was, NUM_SIGNALS);
      assert Flags() == RaisedBelow(received[..], NUM_SIGNALS);
    }

    /** OnEvent, undisturbed: every raised flag has one turn, in ascending order, and
        `calls` are the handlers called. These are the steps the dispatcher takes. */
    method OnEvent() returns (ghost turns: seq<Signum>, calls: seq<(Signum, Handler)>)
      requires Valid() && pc == Scanning(0)
      modifies this, received
      ensures Lists(turns, old(Flags())) && Abs() == Scanned(old(Abs()), turns)
      ensures calls == CallsOf(turns, handlers)
      ensures exists acts :: Reaches(old(Abs()), acts, Abs())
    {
      ghost var start := Abs();
      turns, calls := ScanFlags();
      log, pc := log + ServedAll(turns, handlers), Waiting;
      ScanAlone(start, turns);
    }
  }
}
