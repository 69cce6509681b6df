/** The two tables that share a dispatcher, NetCenter's socket_objs (under cs_)
    and the server's dispatchers_ (under crit_), with any number of application
    threads inside CreateFD, CloseFD, Clear and the calls that only look a
    descriptor up, and the loop thread inside a dispatch round. The kernel
    reuses descriptor numbers and the allocator reuses addresses as soon as they
    are free. Each step is one action of one thread between lock operations. */
module LiveTable {
  import opened Wrappers

  /** The address of a dispatcher (and of the record that owns it). */
  type Addr = nat
  type Tid = nat

  datatype Pc =
    | Idle
    | Made(d: Addr)              // CreateFD: dispatcher made and slots connected
    | Holding(d: Addr)           // CreateFD: cs_ taken
    | Filed(d: Addr)             // CreateFD: entry in socket_objs
    | Added(d: Addr)             // CreateFD: known to the loop
    | Closing(fd: int)           // CloseFD: cs_ taken
    | Found(fd: int, d: Addr)    // CloseFD: entry found, slots disconnected
    | Removed(fd: int, d: Addr)  // CloseFD: unknown to the loop
    | Freed(fd: int, d: Addr)    // CloseFD: record deleted, descriptor closed

  datatype State = State(
    objs: map<int, Addr>,        // socket_objs
    dispatchers: seq<Addr>,
    alive: map<Addr, int>,       // allocated dispatchers and the descriptor each owns
    threads: map<Tid, Pc>,
    cs: Option<Tid>,             // holder of cs_
    round: Option<nat>)          // the loop holds crit_ and is at this position

  datatype Action =
    | Make(t: Tid, d: Addr, fd: int)
    | LockCreate(t: Tid)
    | File(t: Tid)
    | Add(t: Tid)
    | ReturnCreate(t: Tid)
    | LockClose(t: Tid, fd: int)
    | Find(t: Tid)
    | Remove(t: Tid)
    | Free(t: Tid)
    | Erase(t: Tid, more: Option<int>)   // Clear goes on with another entry under the lock
    | BeginRound
    | VisitNext
    | EndRound

  function PcOf(s: State, t: Tid): Pc
  {
    if t in s.threads then s.threads[t] else Idle
  }

  function At(s: State, t: Tid, pc: Pc): State
  {
    s.(threads := s.threads[t := pc])
  }

  function Without(l: seq<Addr>, d: Addr): (r: seq<Addr>)
    ensures forall x :: x in r <==> x in l && x != d
  {
    if l == [] then [] else (if l[0] == d then [] else [l[0]]) + Without(l[1..], d)
  }

  /** When may each action happen: program counters, locks, and the kernel and
      allocator handing out only what is free. */
  predicate Enabled(s: State, a: Action)
  {
    match a
    case Make(t, d, fd) => PcOf(s, t) == Idle && d !in s.alive && fd !in s.alive.Values
    case LockCreate(t) => PcOf(s, t).Made? && s.cs == None
    case File(t) => PcOf(s, t).Holding? && PcOf(s, t).d in s.alive
    case Add(t) => PcOf(s, t).Filed? && s.round == None
    case ReturnCreate(t) => PcOf(s, t).Added?
    case LockClose(t, _) => PcOf(s, t) == Idle && s.cs == None
    case Find(t) => PcOf(s, t).Closing?
    case Remove(t) => PcOf(s, t).Found? && s.round == None
    case Free(t) => PcOf(s, t).Removed?
    case Erase(t, _) => PcOf(s, t).Freed?
    case BeginRound => s.round == None
    case VisitNext => s.round.Some? && s.round.value < |s.dispatchers|
    case EndRound => s.round.Some? && s.round.value >= |s.dispatchers|
  }

  function Step(s: State, a: Action): State
    requires Enabled(s, a)
  {
    match a
    case Make(t, d, fd) => At(s, t, Made(d)).(alive := s.alive[d := fd])
    case LockCreate(t) => At(s, t, Holding(PcOf(s, t).d)).(cs := Some(t))
    case File(t) =>
      var d := PcOf(s, t).d;
      At(s, t, Filed(d)).(objs := s.objs[s.alive[d] := d])
    case Add(t) =>
      var d := PcOf(s, t).d;
      At(s, t, Added(d)).(dispatchers := if d in s.dispatchers then s.dispatchers else s.dispatchers + [d])
    case ReturnCreate(t) => At(s, t, Idle).(cs := None)
    case LockClose(t, fd) => At(s, t, Closing(fd)).(cs := Some(t))
    case Find(t) =>
      var fd := PcOf(s, t).fd;
      if fd in s.objs then At(s, t, Found(fd, s.objs[fd])) else At(s, t, Idle).(cs := None)
    case Remove(t) =>
      var pc := PcOf(s, t);
      At(s, t, Removed(pc.fd, pc.d)).(dispatchers := Without(s.dispatchers, pc.d))
    case Free(t) =>
      var pc := PcOf(s, t);
      At(s, t, Freed(pc.fd, pc.d)).(alive := s.alive - {pc.d})
    case Erase(t, more) =>
      var s1 := s.(objs := s.objs - {PcOf(s, t).fd});
      if more.Some? then At(s1, t, Closing(more.value)) else At(s1, t, Idle).(cs := None)
    case BeginRound => s.(round := Some(0))
    case VisitNext => s.(round := Some(s.round.value + 1))
    case EndRound => s.(round := None)
  }

  const START := State(map[], [], map[], map[], None, None)

  /** A run: every action is enabled where it happens. */
  ghost predicate Reaches(s: State, acts: seq<Action>, t: State)
    decreases |acts|
  {
    if acts == [] then s == t
    else Enabled(s, acts[0]) && Reaches(Step(s, acts[0]), acts[1..], t)
  }

  // ---- Invariant -------------------------------------------------------

  predicate InSection(pc: Pc)
  {
    !pc.Idle? && !pc.Made?
  }

  /** The one entry whose record is deleted but not yet erased. */
  predicate Stale(s: State, fd: int)
  {
    s.cs.Some? && PcOf(s, s.cs.value).Freed? && PcOf(s, s.cs.value).fd == fd
  }

  /** cs_ is held by the one thread inside its section. */
  ghost predicate Mutex(s: State)
  {
    forall t: Tid :: InSection(PcOf(s, t)) <==> s.cs == Some(t)
  }

  ghost predicate DistinctFds(s: State)
  {
    forall d, e :: d in s.alive && e in s.alive && s.alive[d] == s.alive[e] ==> d == e
  }

  /** Entries other than the stale one name the live dispatcher of their key. */
  ghost predicate EntriesLive(s: State)
  {
    forall fd :: fd in s.objs && !Stale(s, fd) ==> s.objs[fd] in s.alive && s.alive[s.objs[fd]] == fd
  }

  /** Everything the loop may visit is alive and filed under its descriptor. */
  ghost predicate ListedFiled(s: State)
  {
    forall d :: d in s.dispatchers ==>
      d in s.alive && s.alive[d] in s.objs && !Stale(s, s.alive[d]) && s.objs[s.alive[d]] == d
  }

  predicate Unfiled(s: State, pc: Pc)
  {
    pc.Made? || pc.Holding?
  }

  /** A dispatcher still being created belongs to its creator alone. */
  ghost predicate Private(s: State)
  {
    && (forall t: Tid :: Unfiled(s, PcOf(s, t)) ==>
          && PcOf(s, t).d in s.alive
          && forall fd :: fd in s.objs && !Stale(s, fd) ==> s.objs[fd] != PcOf(s, t).d)
    && (forall t: Tid, u: Tid :: t != u && Unfiled(s, PcOf(s, t)) && Unfiled(s, PcOf(s, u)) ==> PcOf(s, t).d != PcOf(s, u).d)
  }

  ghost predicate PcOk(s: State, pc: Pc)
  {
    match pc
    case Filed(d) => d in s.alive && s.alive[d] in s.objs && s.objs[s.alive[d]] == d && d !in s.dispatchers
    case Found(fd, d) => fd in s.objs && s.objs[fd] == d
    case Removed(fd, d) => fd in s.objs && s.objs[fd] == d && d !in s.dispatchers
    case Freed(fd, d) => fd in s.objs
    case _ => true
  }

  ghost predicate Inv(s: State)
  {
    && Mutex(s) && DistinctFds(s) && EntriesLive(s) && ListedFiled(s) && Private(s)
    && forall t: Tid :: PcOk(s, PcOf(s, t))
  }

  lemma MakeKeeps(s: State, a: Action)
    requires Inv(s) && a.Make? && Enabled(s, a)
    ensures Inv(Step(s, a))
  {}

  lemma LockCreateKeeps(s: State, a: Action)
    requires Inv(s) && a.LockCreate? && Enabled(s, a)
    ensures Inv(Step(s, a))
  {}

  lemma FileKeeps(s: State, a: Action)
    requires Inv(s) && a.File? && Enabled(s, a)
    ensures Inv(Step(s, a))
  {}

  lemma AddKeeps(s: State, a: Action)
    requires Inv(s) && a.Add? && Enabled(s, a)
    ensures Inv(Step(s, a))
  {}

  lemma ReturnCreateKeeps(s: State, a: Action)
    requires Inv(s) && a.ReturnCreate? && Enabled(s, a)
    ensures Inv(Step(s, a))
  {}

  lemma LockCloseKeeps(s: State, a: Action)
    requires Inv(s) && a.LockClose? && Enabled(s, a)
    ensures Inv(Step(s, a))
  {}

  lemma FindKeeps(s: State, a: Action)
    requires Inv(s) && a.Find? && Enabled(s, a)
    ensures Inv(Step(s, a))
  {}

  lemma RemoveKeeps(s: State, a: Action)
    requires Inv(s) && a.Remove? && Enabled(s, a)
    ensures Inv(Step(s, a))
  {}

  lemma FreeKeeps(s: State, a: Action)
    requires Inv(s) && a.Free? && Enabled(s, a)
    ensures Inv(Step(s, a))
  {}

  lemma EraseKeeps(s: State, a: Action)
    requires Inv(s) && a.Erase? && Enabled(s, a)
    ensures Inv(Step(s, a))
  {}

  lemma SameTables(s: State, t: State)
    requires Inv(s) && t == s.(round := t.round)
    ensures Inv(t)
  {
    assert forall u: Tid :: PcOf(t, u) == PcOf(s, u);
    assert forall fd :: Stale(t, fd) <==> Stale(s, fd);
    forall u: Tid
      ensures PcOk(t, PcOf(t, u))
    {
      assert PcOk(s, PcOf(s, u));
    }
  }

  /** The loop changes only its own position. */
  lemma RoundKeeps(s: State, a: Action)
    requires Inv(s) && (a.BeginRound? || a.VisitNext? || a.EndRound?) && Enabled(s, a)
    ensures Inv(Step(s, a))
  {
    var t := Step(s, a);
    SameTables(s, t);
  }

  lemma StepKeeps(s: State, a: Action)
    requires Inv(s) && Enabled(s, a)
    ensures Inv(Step(s, a))
  {
    match a
    case Make(_, _, _) => MakeKeeps(s, a);
    case LockCreate(_) => LockCreateKeeps(s, a);
    case File(_) => FileKeeps(s, a);
    case Add(_) => AddKeeps(s, a);
    case ReturnCreate(_) => ReturnCreateKeeps(s, a);
    case LockClose(_, _) => LockCloseKeeps(s, a);
    case Find(_) => FindKeeps(s, a);
    case Remove(_) => RemoveKeeps(s, a);
    case Free(_) => FreeKeeps(s, a);
    case Erase(_, _) => EraseKeeps(s, a);
    case BeginRound => RoundKeeps(s, a);
    case VisitNext => RoundKeeps(s, a);
    case EndRound => RoundKeeps(s, a);
  }

  lemma {:induction false} RunKeeps(s: State, acts: seq<Action>, t: State)
    requires Inv(s) && Reaches(s, acts, t)
    ensures Inv(t)
    decreases |acts|
  {
    if acts != [] {
      StepKeeps(s, acts[0]);
      RunKeeps(Step(s, acts[0]), acts[1..], t);
    }
  }

  // ---- Nothing is forgotten ----------------------------------------------

  /** A record that the loop does not know is being created or deleted. */
  ghost predicate FiledListed(s: State)
  {
    forall fd :: fd in s.objs && s.objs[fd] !in s.dispatchers ==>
      s.cs.Some? &&
      match PcOf(s, s.cs.value)
      case Filed(d) => d == s.objs[fd]
      case Removed(f, _) => f == fd
      case Freed(f, _) => f == fd
      case _ => false
  }

  ghost predicate Creates(s: State, t: Tid, d: Addr)
  {
    Unfiled(s, PcOf(s, t)) && PcOf(s, t).d == d
  }

  ghost predicate HasRecord(s: State, d: Addr)
  {
    d in s.alive && s.alive[d] in s.objs && !Stale(s, s.alive[d]) && s.objs[s.alive[d]] == d
  }

  /** A dispatcher that is not filed has its creator on the way. */
  ghost predicate NoLeak(s: State)
  {
    forall d :: d in s.alive && !HasRecord(s, d) ==> exists t: Tid :: Creates(s, t, d)
  }

  lemma StepFiledListed(s: State, a: Action)
    requires Inv(s) && FiledListed(s) && Enabled(s, a)
    ensures FiledListed(Step(s, a))
  {}

  /** A record is lost to its dispatcher only when that is freed, and a creator only
      when it files. */
  lemma StepRecord(s: State, a: Action, d: Addr)
    requires Inv(s) && Enabled(s, a) && HasRecord(s, d) && d in Step(s, a).alive
    ensures HasRecord(Step(s, a), d)
  {}

  lemma StepCreator(s: State, a: Action, d: Addr, t: Tid)
    requires Inv(s) && Enabled(s, a) && Creates(s, t, d)
    ensures Creates(Step(s, a), t, d) || HasRecord(Step(s, a), d)
  {}

  lemma StepNoLeak(s: State, a: Action)
    requires Inv(s) && NoLeak(s) && Enabled(s, a)
    ensures NoLeak(Step(s, a))
  {
    var m := Step(s, a);
    forall d | d in m.alive && !HasRecord(m, d)
      ensures exists t: Tid :: Creates(m, t, d)
    {
      if a.Make? && a.d == d {
        assert Creates(m, a.t, d);
      } else if HasRecord(s, d) {
        StepRecord(s, a, d);
      } else {
        var t :| Creates(s, t, d);
        StepCreator(s, a, d, t);
        assert Creates(m, t, d);
      }
    }
  }

  lemma {:induction false} RunForgetsNothing(s: State, acts: seq<Action>, t: State)
    requires Inv(s) && FiledListed(s) && NoLeak(s) && Reaches(s, acts, t)
    ensures FiledListed(t) && NoLeak(t)
    decreases |acts|
  {
    if acts != [] {
      StepKeeps(s, acts[0]);
      StepFiledListed(s, acts[0]);
      StepNoLeak(s, acts[0]);
      RunForgetsNothing(Step(s, acts[0]), acts[1..], t);
    }
  }

  // ---- Main results ----------------------------------------------------

  ghost predicate HasEntry(s: State, d: Addr)
  {
    exists fd :: fd in s.objs && s.objs[fd] == d
  }

  /** In every run, while nobody has cs_ the two tables agree: exactly the dispatchers
      filed are known to the loop, and nothing is allocated besides but what a thread in
      CreateFD has just made. */
  lemma TablesAgree(acts: seq<Action>, s: State, d: Addr)
    requires Reaches(START, acts, s) && s.cs == None
    ensures d in s.dispatchers <==> HasEntry(s, d)
    ensures d in s.alive <==> HasEntry(s, d) || exists t: Tid :: PcOf(s, t) == Made(d)
  {
    RunKeeps(START, acts, s);
    RunForgetsNothing(START, acts, s);
    if HasEntry(s, d) {
      var fd :| fd in s.objs && s.objs[fd] == d;
      assert !Stale(s, fd);
    }
    if d in s.alive && !HasRecord(s, d) {
      var t :| Creates(s, t, d);
      assert PcOf(s, t) == Made(d);
    }
  }

  /** In every run, whatever the loop visits is an unfreed dispatcher, and the
      table maps its descriptor to its own record, which is not being deleted:
      the slots' lookups never create an entry and never see a dead one. */
  lemma VisitIsSafe(acts: seq<Action>, s: State)
    requires Reaches(START, acts, s)
    requires s.round.Some? && s.round.value < |s.dispatchers|
    ensures var d := s.dispatchers[s.round.value];
            && d in s.alive
            && s.alive[d] in s.objs && s.objs[s.alive[d]] == d
            && !Stale(s, s.alive[d])
  {
    RunKeeps(START, acts, s);
  }

  /** While a round is under way the list it walks does not change. */
  lemma {:induction false} RoundListFrozen(s: State, acts: seq<Action>, t: State)
    requires Reaches(s, acts, t) && s.round.Some?
    requires EndRound !in acts
    ensures t.round.Some? && t.dispatchers == s.dispatchers
    decreases |acts|
  {
    if acts != [] {
      var m := Step(s, acts[0]);
      assert m.round.Some? && m.dispatchers == s.dispatchers;
      RoundListFrozen(m, acts[1..], t);
    }
  }

  /** CreateFD files its entry under a free key although the kernel may have
      handed out a number closed a moment ago, and the loop's duplicate check
      never mistakes a new dispatcher for an old one at the same address. */
  lemma FilingNeverOverwrites(acts: seq<Action>, s: State, t: Tid)
    requires Reaches(START, acts, s)
    ensures PcOf(s, t).Holding? ==> PcOf(s, t).d in s.alive && s.alive[PcOf(s, t).d] !in s.objs
    ensures PcOf(s, t).Filed? ==> PcOf(s, t).d !in s.dispatchers
  {
    RunKeeps(START, acts, s);
  }

  /** A caller that finds cs_ free, or holds it outside a deletion, sees only
      live records, each under its own descriptor; and CloseFD deletes a record
      only while it is alive, so never twice. */
  lemma LookupsAreLive(acts: seq<Action>, s: State, t: Tid)
    requires Reaches(START, acts, s)
    ensures s.cs == None || (s.cs == Some(t) && !PcOf(s, t).Freed?) ==>
              forall fd :: fd in s.objs ==> s.objs[fd] in s.alive && s.alive[s.objs[fd]] == fd
    ensures PcOf(s, t).Removed? ==> PcOf(s, t).d in s.alive && s.alive[PcOf(s, t).d] == PcOf(s, t).fd
  {
    RunKeeps(START, acts, s);
  }

  /** No step of a thread inside its section waits for another application
      thread: only the loop's round can hold it up, and a round always ends. */
  lemma SectionMakesProgress(acts: seq<Action>, s: State, t: Tid)
    requires Reaches(START, acts, s) && InSection(PcOf(s, t))
    ensures s.round.Some? || exists a :: Enabled(s, a) && PcOf(Step(s, a), t) != PcOf(s, t)
  {
    RunKeeps(START, acts, s);
    if s.round == None {
      var a := match PcOf(s, t)
        case Holding(_) => File(t)
        case Filed(_) => Add(t)
        case Added(_) => ReturnCreate(t)
        case Closing(_) => Find(t)
        case Found(_, _) => Remove(t)
        case Removed(_, _) => Free(t)
        case _ => Erase(t, None);
      assert Enabled(s, a) && PcOf(Step(s, a), t) != PcOf(s, t);
    }
  }
}
