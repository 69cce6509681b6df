/** The event of base/Event.cpp. Every piece that a thread runs under the event's
    mutex is one step: Set, Reset, the entry of Wait, and each return from the
    condition variable inside Wait, which may be by broadcast, spurious, or by
    timeout. */
module AutoEvent {

  type Tid = nat

  /** A thread inside Wait: asleep on the condition variable, or out of it but not yet
      holding the mutex again, with the error code the wait is going to return. */
  datatype Pc = Asleep | Returning(error: bool)

  datatype Event = Event(manual: bool, status: bool, waiters: map<Tid, Pc>)

  datatype Action =
    | Set
    | Reset
    | Enter(t: Tid)     // Wait, up to its first sleep or its return
    | Spurious(t: Tid)
    | Timeout(t: Tid)
    | Resume(t: Tid)    // takes the mutex, looks again, sleeps again or returns

  predicate Enabled(e: Event, a: Action)
  {
    match a
    case Set => true
    case Reset => true
    case Enter(t) => t !in e.waiters
    case Spurious(t) => t in e.waiters && e.waiters[t] == Asleep
    case Timeout(t) => t in e.waiters && e.waiters[t] == Asleep
    case Resume(t) => t in e.waiters && e.waiters[t].Returning?
  }

  /** The end of Wait: an automatic event is reset by the wait it satisfies. */
  function Taken(e: Event): Event
  {
    if e.manual then e else e.(status := false)
  }

  function Step(e: Event, a: Action): Event
    requires Enabled(e, a)
  {
    match a
    case Set =>
      e.(status := true,
         waiters := map t | t in e.waiters :: if e.waiters[t].Asleep? then Returning(false) else e.waiters[t])
    case Reset => e.(status := false)
    case Enter(t) => if e.status then Taken(e) else e.(waiters := e.waiters[t := Asleep])
    case Spurious(t) => e.(waiters := e.waiters[t := Returning(false)])
    case Timeout(t) => e.(waiters := e.waiters[t := Returning(true)])
    case Resume(t) =>
      if e.waiters[t].error then e.(waiters := e.waiters - {t})
      else if e.status then Taken(e.(waiters := e.waiters - {t}))
      else e.(waiters := e.waiters[t := Asleep])
  }

  /** Does this step end a Wait successfully? */
  predicate Succeeds(e: Event, a: Action)
    requires Enabled(e, a)
  {
    || (a.Enter? && e.status)
    || (a.Resume? && !e.waiters[a.t].error && e.status)
  }

  // ---- Runs ---------------------------------------------------------------

  ghost predicate Runs(e: Event, acts: seq<Action>)
    decreases |acts|
  {
    acts == [] || (Enabled(e, acts[0]) && Runs(Step(e, acts[0]), acts[1..]))
  }

  function After(e: Event, acts: seq<Action>): Event
    requires Runs(e, acts)
    decreases |acts|
  {
    if acts == [] then e else After(Step(e, acts[0]), acts[1..])
  }

  /** Sets and Resets that changed something, and successful Waits. */
  ghost function Sets(e: Event, acts: seq<Action>): nat
    requires Runs(e, acts)
    decreases |acts|
  {
    if acts == [] then 0
    else (if acts[0].Set? && !e.status then 1 else 0) + Sets(Step(e, acts[0]), acts[1..])
  }

  ghost function Resets(e: Event, acts: seq<Action>): nat
    requires Runs(e, acts)
    decreases |acts|
  {
    if acts == [] then 0
    else (if acts[0].Reset? && e.status then 1 else 0) + Resets(Step(e, acts[0]), acts[1..])
  }

  ghost function Waits(e: Event, acts: seq<Action>): nat
    requires Runs(e, acts)
    decreases |acts|
  {
    if acts == [] then 0
    else (if Succeeds(e, acts[0]) then 1 else 0) + Waits(Step(e, acts[0]), acts[1..])
  }

  function Level(e: Event): nat
  {
    if e.status then 1 else 0
  }

  /** No signal is made or lost: what was there and what was set is what was waited
      for, what was reset and what is there. A Wait that times out consumes nothing,
      even if the event was set meanwhile, and a manual event is never used up. */
  lemma {:induction false} Conservation(e: Event, acts: seq<Action>)
    requires Runs(e, acts)
    ensures Level(e) + Sets(e, acts) ==
            (if e.manual then 0 else Waits(e, acts)) + Resets(e, acts) + Level(After(e, acts))
    decreases |acts|
  {
    if acts != [] {
      assert Step(e, acts[0]).manual == e.manual;
      Conservation(Step(e, acts[0]), acts[1..]);
    }
  }

  /** While the event is set nobody sleeps. */
  ghost predicate NoSleeper(e: Event)
  {
    e.status ==> forall t: Tid :: t in e.waiters ==> e.waiters[t] != Asleep
  }

  /** No wake-up is lost: from a consistent start, whenever the event is set every
      thread inside Wait is on its way out of it, and the next one to arrive without a
      timeout succeeds. */
  lemma {:induction false} SetIsNoticed(e: Event, acts: seq<Action>, t: Tid)
    requires NoSleeper(e) && Runs(e, acts)
    ensures NoSleeper(After(e, acts))
    ensures var f := After(e, acts);
            f.status && t in f.waiters ==>
              Enabled(f, Resume(t)) && (f.waiters[t].error || Succeeds(f, Resume(t)))
    decreases |acts|
  {
    if acts != [] {
      SetIsNoticed(Step(e, acts[0]), acts[1..], t);
    }
  }

  /** Between two successful Waits on an automatic event somebody has set it. */
  lemma {:induction false} OneWaitPerSet(e: Event, acts: seq<Action>)
    requires Runs(e, acts) && !e.manual && Sets(e, acts) == 0
    ensures Waits(e, acts) <= Level(e)
  {
    Conservation(e, acts);
  }

  /** A thread that times out leaves Wait without success and without touching the event;
      one that wakes for no reason sleeps again, unless the event is set by then. */
  lemma LeavingTheCondition(e: Event, t: Tid)
    requires t in e.waiters && e.waiters[t].Asleep?
    ensures var f := Step(e, Timeout(t));
            && Enabled(f, Resume(t)) && !Succeeds(f, Resume(t))
            && Step(f, Resume(t)) == e.(waiters := e.waiters - {t})
    ensures var f := Step(e, Spurious(t));
            && Enabled(f, Resume(t)) && (Succeeds(f, Resume(t)) <==> e.status)
            && (!e.status ==> Step(f, Resume(t)) == e)
  {
    assert e.waiters[t := Returning(true)] - {t} == e.waiters - {t};
    assert e.waiters[t := Returning(false)][t := Asleep] == e.waiters;
  }

  /** A time-out is final: whatever the others do before the thread has the mutex again,
      also a Set, its Wait fails. */
  lemma {:induction false} TimeoutIsFinal(e: Event, acts: seq<Action>, t: Tid)
    requires Runs(e, acts) && Resume(t) !in acts
    requires t in e.waiters && e.waiters[t] == Returning(true)
    ensures var f := After(e, acts);
            && t in f.waiters && Enabled(f, Resume(t)) && !Succeeds(f, Resume(t))
            && t !in Step(f, Resume(t)).waiters
    decreases |acts|
  {
    if acts != [] {
      TimeoutIsFinal(Step(e, acts[0]), acts[1..], t);
    }
  }

  /** A manual event stays set until it is reset. */
  lemma {:induction false} ManualStaysSet(e: Event, acts: seq<Action>)
    requires Runs(e, acts) && e.manual && e.status && Resets(e, acts) == 0
    ensures After(e, acts).status
    decreases |acts|
  {
    Conservation(e, acts);
    if acts != [] {
      ManualStaysSet(Step(e, acts[0]), acts[1..]);
    }
  }

  // ---- The object ---------------------------------------------------------

  lemma {:induction false} RunAppend(e: Event, acts: seq<Action>, a: Action)
    requires Runs(e, acts) && Enabled(After(e, acts), a)
    ensures Runs(e, acts + [a]) && After(e, acts + [a]) == Step(After(e, acts), a)
    decreases |acts|
  {
    if acts != [] {
      assert (acts + [a])[1..] == acts[1..] + [a];
      RunAppend(Step(e, acts[0]), acts[1..], a);
    }
  }

  lemma {:induction false} RunConcat(e: Event, a: seq<Action>, b: seq<Action>)
    requires Runs(e, a) && Runs(After(e, a), b)
    ensures Runs(e, a + b) && After(e, a + b) == After(After(e, a), b)
    decreases |a|
  {
    if a == [] {
      assert a + b == b;
    } else {
      assert (a + b)[1..] == a[1..] + b;
      RunConcat(Step(e, a[0]), a[1..], b);
    }
  }

  datatype Outcome = StillWaiting | Done(ok: bool)

  /** `others[i]` is what happens while `t` sleeps for the i-th time; it ends when `t`
      has left the condition variable, and does not contain steps of `t` itself. */
  ghost predicate WakesUp(e: Event, t: Tid, others: seq<seq<Action>>)
    decreases |others|
  {
    others != [] && t in e.waiters && e.waiters[t].Asleep? ==>
      && Runs(e, others[0]) && Enter(t) !in others[0] && Resume(t) !in others[0]
      && t in After(e, others[0]).waiters && After(e, others[0]).waiters[t].Returning?
      && WakesUp(Step(After(e, others[0]), Resume(t)), t, others[1..])
  }

  lemma {:induction false} AfterManual(e: Event, acts: seq<Action>)
    requires Runs(e, acts)
    ensures After(e, acts).manual == e.manual
    decreases |acts|
  {
    if acts != [] {
      AfterManual(Step(e, acts[0]), acts[1..]);
    }
  }

  /** `waiters` are the threads inside Wait, as the condition variable knows them. */
  class EventObject {
    const manual: bool
    var status: bool
    var waiters: map<Tid, Pc>

    function Abs(): Event
      reads this
    {
      Event(manual, status, waiters)
    }

    constructor (manualReset: bool, initiallySignaled: bool)
      ensures Abs() == Event(manualReset, initiallySignaled, map[])
    {
      manual, status, waiters := manualReset, initiallySignaled, map[];
    }

    /** Sets the status and broadcasts. */
    method SetEvent()
      modifies this
      ensures Abs() == Step(old(Abs()), Set)
    {
      status := true;
      waiters := map t | t in waiters :: if waiters[t].Asleep? then Returning(false) else waiters[t];
    }

    method ResetEvent()
      modifies this
      ensures Abs() == Step(old(Abs()), Reset)
    {
      status := false;
    }

    /** pthread_cond_wait: the mutex is given up, the other threads do `during`, and
        the thread comes back with an error or without. */
    method Sleep(t: Tid, during: seq<Action>) returns (error: bool)
      requires Runs(Abs(), during)
      requires t in After(Abs(), during).waiters && After(Abs(), during).waiters[t].Returning?
      requires After(Abs(), during).manual == manual
      modifies this
      ensures Abs() == After(old(Abs()), during)
      ensures t in waiters && waiters[t] == Returning(error)
    {
      ghost var e := Abs();
      status, waiters := After(Abs(), during).status, After(Abs(), during).waiters;
      error := waiters[t].error;
    }

    /** Wait by thread `t`: it enters, and each time it comes back from the condition
        variable it returns or sleeps again. `acts` is the run this makes with what
        the others do; a thread for which `others` runs out is still asleep. */
    method Wait(t: Tid, others: seq<seq<Action>>) returns (outcome: Outcome, ghost acts: seq<Action>)
      requires t !in waiters && WakesUp(Step(Abs(), Enter(t)), t, others)
      modifies this
      ensures Runs(old(Abs()), acts) && Abs() == After(old(Abs()), acts)
      ensures acts != [] && acts[0] == Enter(t)
      ensures outcome.StillWaiting? <==> t in waiters
      ensures outcome.Done? ==>
                && (acts[|acts| - 1] == Enter(t) || acts[|acts| - 1] == Resume(t))
                && Runs(old(Abs()), acts[..|acts| - 1])
                && var last := After(old(Abs()), acts[..|acts| - 1]);
                   Enabled(last, acts[|acts| - 1]) && (outcome.ok <==> Succeeds(last, acts[|acts| - 1]))
    {
      var error, used := false, 0;
      acts := [];
      ghost var next := Enter(t);
      while !status && !error
        invariant used <= |others|
        invariant Runs(old(Abs()), acts) && Abs() == After(old(Abs()), acts)
        invariant next == if used == 0 then Enter(t) else Resume(t)
        invariant used == 0 ==> acts == [] && !error
        invariant used > 0 ==> acts != [] && acts[0] == Enter(t) && t in waiters && waiters[t] == Returning(error)
        invariant Enabled(Abs(), next) && WakesUp(Step(Abs(), next), t, others[used..])
        decreases |others| - used
      {
        ghost var before := Abs();
        waiters := waiters[t := Asleep];
        assert Abs() == Step(before, next);
        RunAppend(old(Abs()), acts, next);
        acts := acts + [next];
        if used == |others| {
          return StillWaiting, acts;
        }
        AfterManual(Abs(), others[used]);
        ghost var asleep := Abs();
        error := Sleep(t, others[used]);
        RunConcat(old(Abs()), acts, others[used]);
        acts := acts + others[used];
        assert others[used..][1..] == others[used + 1..];
        used, next := used + 1, Resume(t);
      }
      ghost var last := Abs();
      RunAppend(old(Abs()), acts, next);
      waiters := waiters - {t};
      if !error && !manual {
        status := false;
      }
      assert Abs() == Step(last, next);
      assert (acts + [next])[..|acts|] == acts;
      acts := acts + [next];
      outcome := Done(!error);
    }
  }
}
