/** The self-pipe that wakes the event loop, and the loop's shutdown. Signal may be
    called by any number of threads at any time; the loop thread is modelled
    down to the gap between OnPreEvent, which drains the pipe, and OnEvent, which
    ends the current Wait. */
module Wakeup {

  /** EventDispatcher: the flag, and how many bytes sit in the pipe. */
  datatype Event = Event(fSignaled: bool, pipe: nat)

  /** EventDispatcher::Signal; `ok`: the one-byte write succeeds. */
  function SignalEvent(e: Event, ok: bool): Event
  {
    if !e.fSignaled && ok then Event(true, e.pipe + 1) else e
  }

  /** EventDispatcher::OnPreEvent: a read of at most four bytes. */
  function DrainEvent(e: Event): Event
  {
    if e.fSignaled then Event(false, if e.pipe <= 4 then 0 else e.pipe - 4) else e
  }

  class EventDispatcher {
    var fSignaled: bool
    var pipe: seq<int>

    ghost function Abs(): Event
      reads this
    {
      Event(fSignaled, |pipe|)
    }

    /** The flag says exactly whether the pipe holds its one byte. */
    ghost predicate Valid()
      reads this
    {
      |pipe| == if fSignaled then 1 else 0
    }

    constructor ()
      ensures Valid() && Abs() == Event(false, 0)
    {
      fSignaled := false;
      pipe := [];
    }

    /** `ok` is the kernel's answer to the write, which finds an empty pipe. */
    method Signal(ok: bool)
      requires Valid()
      modifies this
      ensures Valid() && Abs() == SignalEvent(old(Abs()), ok)
      ensures fSignaled <==> old(fSignaled) || ok
    {
      if !fSignaled {
        assert pipe == [];
        if ok {
          pipe := pipe + [0];
          fSignaled := true;
        }
      }
    }

    /** The blocking read always finds its byte. */
    method OnPreEvent()
      requires Valid()
      modifies this
      ensures Valid() && Abs() == DrainEvent(old(Abs()))
      ensures !fSignaled && pipe == []
    {
      if fSignaled {
        assert pipe != [];
        pipe := pipe[if |pipe| <= 4 then |pipe| else 4..];
        fSignaled := false;
      }
    }
  }

  /** Where the loop thread is. Visiting: the dispatch loop is about to look at
      position `i` of `n`; `hit` says whether select reported the wakeup pipe,
      whose dispatcher stands at position 0. */
  datatype Pc =
    | AtCheck                             // while (_run_flg)
    | Entering                            // Wait called, fWait_ not yet set
    | Head                                // while (fWait_)
    | Selecting                           // gather done
    | Visiting(i: nat, n: nat, hit: bool)
    | Drained(n: nat)                     // OnPreEvent done, OnEvent to come
    | Exited

  /** `owed`: WakeUp was called and Wait has not returned since. */
  datatype State = State(runFlag: bool, event: Event, fWait: bool, pc: Pc, owed: bool)

  /** How select may return. */
  datatype Choice =
    | Positive(n: nat)     // n dispatchers are in the list when the round starts
    | Timeout
    | Interrupted          // EINTR
    | Error

  datatype Action =
    | Signal(ok: bool)     // WakeUp, by any thread
    | ClearRun             // NetExit
    | LoopStep(c: Choice)

  /** The wakeup dispatcher is always in the list; select reports it whenever its
      pipe holds a byte, and never times out over it. */
  predicate Possible(s: State, a: Action)
  {
    a.LoopStep? && s.pc.Selecting? ==>
      && (a.c.Positive? ==> a.c.n >= 1)
      && (a.c.Timeout? ==> s.event.pipe == 0)
  }

  function Returned(s: State): State
  {
    s.(pc := AtCheck, owed := false)
  }

  function Step(s: State, a: Action): State
    requires Possible(s, a)
  {
    match a
    case Signal(ok) =>
      var e := SignalEvent(s.event, ok);
      s.(event := e, owed := s.owed || e.fSignaled)
    case ClearRun => s.(runFlag := false)
    case LoopStep(c) =>
      match s.pc
      case AtCheck => s.(pc := if s.runFlag then Entering else Exited)
      case Entering => s.(fWait := true, pc := Head)
      case Head => if s.fWait then s.(pc := Selecting) else Returned(s)
      case Selecting =>
        (match c
         case Positive(n) => s.(pc := Visiting(0, n, s.event.pipe > 0))
         case Timeout => Returned(s)
         case Interrupted => s.(pc := Head)
         case Error => Returned(s))
      case Visiting(i, n, hit) =>
        if i >= n then s.(pc := Head)
        else if i == 0 && hit then s.(event := DrainEvent(s.event), pc := Drained(n))
        else s.(pc := Visiting(i + 1, n, hit))
      case Drained(n) => s.(fWait := false, pc := Visiting(1, n, true))
      case Exited => s
  }

  ghost predicate Reaches(s: State, acts: seq<Action>, t: State)
    decreases |acts|
  {
    if acts == [] then s == t
    else Possible(s, acts[0]) && Reaches(Step(s, acts[0]), acts[1..], t)
  }

  const START := State(true, Event(false, 0), false, AtCheck, false)

  // ---- Invariant ---------------------------------------------------------

  /** A wakeup that has not been answered is still in the pipe, or the loop has
      drained it and is on its way out of Wait. */
  predicate Remembered(s: State)
  {
    || s.event.fSignaled
    || s.pc.Drained?
    || (!s.fWait && (s.pc.Head? || (s.pc.Visiting? && s.pc.i >= 1)))
  }

  predicate Inv(s: State)
  {
    && s.event.pipe == (if s.event.fSignaled then 1 else 0)
    && (s.owed ==> Remembered(s))
    && (s.pc.Visiting? ==> s.pc.i <= s.pc.n && s.pc.n >= 1)
    && (s.pc.Visiting? && s.pc.i == 0 && s.pc.hit ==> s.event.fSignaled)
    && (s.pc.Visiting? && s.pc.i == 0 ==> s.fWait)
    && (s.pc.Selecting? ==> s.fWait)
    && (s.pc.Drained? ==> s.pc.n >= 1)
    && (s.pc.Exited? ==> !s.runFlag)
  }

  lemma StepKeeps(s: State, a: Action)
    requires Inv(s) && Possible(s, a)
    ensures Inv(Step(s, a))
  {}

  lemma {:induction false} RunKeeps(s: State, acts: seq<Action>, t: State)
    requires Inv(s) && Reaches(s, acts, t)
    ensures Inv(t)
    decreases |acts|
  {
    if acts != [] {
      StepKeeps(s, acts[0]);
      RunKeeps(Step(s, acts[0]), acts[1..], t);
    }
  }

  // ---- Main results ------------------------------------------------------

  /** In every run the pipe holds one byte exactly when the flag is up: Signal
      finds it empty when it writes, OnPreEvent finds a byte when it reads. */
  lemma OneByteAlways(acts: seq<Action>, s: State)
    requires Reaches(START, acts, s)
    ensures s.event.pipe <= 1 && (s.event.pipe == 1 <==> s.event.fSignaled)
    ensures s.pc.Visiting? && s.pc.i == 0 && s.pc.hit ==> s.event.pipe == 1
  {
    RunKeeps(START, acts, s);
  }

  /** No wakeup is lost: while one is unanswered the loop is not waiting in a
      select that could sleep, whether the call came before the pipe was
      drained, between OnPreEvent and OnEvent, or between two Waits. */
  lemma NeverSleepsOverWakeup(acts: seq<Action>, s: State)
    requires Reaches(START, acts, s) && s.owed
    ensures s.pc.Selecting? ==> s.event.pipe == 1 && !Possible(s, LoopStep(Timeout))
    ensures Remembered(s)
  {
    RunKeeps(START, acts, s);
  }

  /** The loop thread ends only after NetExit has cleared the flag, and until then every
      turn begins another Wait. */
  lemma RunsUntilStopped(acts: seq<Action>, s: State)
    requires Reaches(START, acts, s)
    ensures s.pc.Exited? ==> !s.runFlag
    ensures forall c :: s.pc.AtCheck? && s.runFlag ==> Step(s, LoopStep(c)).pc.Entering?
  {
    RunKeeps(START, acts, s);
  }

  predicate InWait(s: State)
  {
    !s.pc.AtCheck? && !s.pc.Exited?
  }

  /** The loop answers a wakeup on the way. */
  ghost predicate Answers(s: State, acts: seq<Action>, t: State)
    requires Reaches(s, acts, t)
    decreases |acts|
  {
    s.pc.Drained? || (acts != [] && Answers(Step(s, acts[0]), acts[1..], t))
  }

  ghost predicate SelectEnds(s: State, acts: seq<Action>, t: State)
    requires Reaches(s, acts, t)
    decreases |acts|
  {
    acts != [] &&
    ((s.pc.Selecting? && acts[0].LoopStep? && (acts[0].c.Timeout? || acts[0].c.Error?))
     || SelectEnds(Step(s, acts[0]), acts[1..], t))
  }

  /** Until one or the other happens, the loop is in Wait with its flag up. */
  lemma {:induction false} WaitHolds(s: State, acts: seq<Action>, t: State)
    requires Inv(s) && Reaches(s, acts, t) && (s.pc.Entering? || (InWait(s) && s.fWait))
    ensures t.pc.AtCheck? || t.pc.Exited? ==> Answers(s, acts, t) || SelectEnds(s, acts, t)
    decreases |acts|
  {
    if acts != [] && !s.pc.Drained? {
      StepKeeps(s, acts[0]);
      var m := Step(s, acts[0]);
      if !(s.pc.Selecting? && acts[0].LoopStep? && (acts[0].c.Timeout? || acts[0].c.Error?)) {
        WaitHolds(m, acts[1..], t);
      }
    }
  }

  /** A Wait that has begun comes back only if on the way a wakeup was answered, or a
      select timed out or failed, and then at once; an interrupted select goes on. */
  lemma WaitReturnsOnly(before: seq<Action>, s: State, acts: seq<Action>, t: State)
    requires Reaches(START, before, s) && s.pc.Entering? && Reaches(s, acts, t)
    ensures t.pc.AtCheck? || t.pc.Exited? ==> Answers(s, acts, t) || SelectEnds(s, acts, t)
    ensures t.pc.Selecting? && Possible(t, LoopStep(Timeout)) ==> Step(t, LoopStep(Timeout)).pc.AtCheck?
    ensures t.pc.Selecting? ==> Step(t, LoopStep(Error)).pc.AtCheck? && Step(t, LoopStep(Interrupted)).pc.Head?
  {
    RunKeeps(START, before, s);
    WaitHolds(s, acts, t);
  }

  /** The stop request is in force: the flag is down and either a wakeup is
      unanswered or the loop is past its last Wait. */
  predicate Stopping(s: State)
  {
    !s.runFlag && (s.owed || s.pc.AtCheck? || s.pc.Exited?)
  }

  /** Steps the loop still needs when rounds visit at most `size` dispatchers. */
  function Distance(s: State, size: nat): nat
    requires Inv(s)
  {
    match s.pc
    case Exited => 0
    case AtCheck => 1
    case Head => if s.fWait then size + 6 else 2
    case Visiting(i, n, hit) =>
      if i == 0 && hit then n + 4
      else if !s.fWait then n - i + 3
      else n - i + size + 7
    case Drained(n) => n + 3
    case Selecting => size + 5
    case Entering => size + 7
  }

  predicate Small(a: Action, size: nat)
  {
    a.LoopStep? && a.c.Positive? ==> a.c.n <= size
  }

  function Count(acts: seq<Action>, interrupted: bool): nat
  {
    if acts == [] then 0
    else (if acts[0].LoopStep? && acts[0].c.Interrupted? == interrupted then 1 else 0) + Count(acts[1..], interrupted)
  }

  lemma StoppingStep(s: State, a: Action, size: nat)
    requires Inv(s) && Stopping(s) && Possible(s, a) && Small(a, size)
    ensures Inv(Step(s, a)) && Stopping(Step(s, a))
    ensures !a.LoopStep? ==> Distance(Step(s, a), size) <= Distance(s, size)
    ensures a.LoopStep? && !a.c.Interrupted? && !s.pc.Exited? ==> Distance(Step(s, a), size) < Distance(s, size)
    ensures a.LoopStep? && a.c.Interrupted? ==> Distance(Step(s, a), size) <= Distance(s, size) + 1
  {}

  lemma {:induction false} StaysExited(s: State, acts: seq<Action>, t: State)
    requires Reaches(s, acts, t) && s.pc.Exited?
    ensures t.pc.Exited?
    decreases |acts|
  {
    if acts != [] {
      StaysExited(Step(s, acts[0]), acts[1..], t);
    }
  }

  lemma {:induction false} StoppingRun(s: State, acts: seq<Action>, t: State, size: nat)
    requires Inv(s) && Stopping(s) && Reaches(s, acts, t)
    requires forall i :: 0 <= i < |acts| ==> Small(acts[i], size)
    ensures Inv(t) && Stopping(t)
    ensures t.pc.Exited? || Count(acts, false) + Distance(t, size) <= Distance(s, size) + Count(acts, true)
    decreases |acts|
  {
    if acts != [] {
      var m := Step(s, acts[0]);
      StoppingStep(s, acts[0], size);
      if s.pc.Exited? {
        StaysExited(m, acts[1..], t);
      }
      StoppingRun(m, acts[1..], t, size);
    }
  }

  /** Shutdown: once NetExit has cleared the flag and its wakeup got through, the
      loop thread exits within a bounded number of its own steps, wherever it
      was; only interrupted selects can add to the bound, one step each. */
  lemma ShutdownIsBounded(before: seq<Action>, s: State, after: seq<Action>, t: State, size: nat)
    requires Reaches(START, before, s) && !s.runFlag
    requires Reaches(Step(s, Signal(true)), after, t)
    requires s.pc.Visiting? ==> s.pc.n <= size
    requires s.pc.Drained? ==> s.pc.n <= size
    requires forall i :: 0 <= i < |after| ==> Small(after[i], size)
    ensures t.pc.Exited? || Count(after, false) <= 2 * size + 7 + Count(after, true)
  {
    RunKeeps(START, before, s);
    var m := Step(s, Signal(true));
    StepKeeps(s, Signal(true));
    StoppingRun(m, after, t, size);
  }
}
