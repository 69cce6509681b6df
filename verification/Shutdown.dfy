/** NetExit resets the server while calls of other threads may be under way: each tests
    _run_flg once, at its start, and uses the server later. On top of the tables of
    LiveTable, this says exactly when such a call can still come to use a server that
    is gone. */
module Shutdown {
  import opened Wrappers
  import opened LiveTable

  /** What a thread that has passed the test of _run_flg is about to do. */
  datatype Intent = ToCreate | ToClose(fd: int)

  datatype World = World(tables: State, run: bool, server: bool, asked: map<Tid, Intent>)

  datatype Event =
    | Ask(t: Tid, i: Intent)           // passes the test
    | Tables(a: LiveTable.Action)
    | Stop                             // NetExit clears the flag
    | Reset                            // and, at its end, the server

  /** The thread in NetExit. It clears the tables before it resets the server. */
  const EXIT: Tid := 0

  predicate Clearing(w: World, t: Tid)
  {
    t == EXIT && !w.run && w.server && t !in w.asked
  }

  predicate Possible(w: World, e: Event)
  {
    match e
    case Ask(t, _) => w.run && t !in w.asked && PcOf(w.tables, t) == Idle
    case Stop => true
    case Reset => Clearing(w, EXIT) && PcOf(w.tables, EXIT) == Idle && w.tables.round == None
    case Tables(a) =>
      && Enabled(w.tables, a)
      && match a
         case Make(t, _, _) => w.server && t in w.asked && w.asked[t] == ToCreate
         case LockClose(t, fd) => (t in w.asked && w.asked[t] == ToClose(fd)) || Clearing(w, t)
         case Erase(t, more) => more == None || Clearing(w, t)
         case LockCreate(_) => true
         case File(_) => true
         case Find(_) => true
         case _ => w.server
  }

  function Next(w: World, e: Event): World
    requires Possible(w, e)
  {
    match e
    case Ask(t, i) => w.(asked := w.asked[t := i])
    case Stop => w.(run := false)
    case Reset => w.(server := false)
    case Tables(a) =>
      var rest := match a
        case Make(t, _, _) => w.asked - {t}
        case LockClose(t, _) => w.asked - {t}
        case _ => w.asked;
      w.(tables := LiveTable.Step(w.tables, a), asked := rest)
  }

  const START := World(LiveTable.START, true, true, map[])

  ghost predicate Leads(w: World, events: seq<Event>, v: World)
    decreases |events|
  {
    if events == [] then w == v
    else Possible(w, events[0]) && Leads(Next(w, events[0]), events[1..], v)
  }

  ghost predicate Sound(w: World)
  {
    && Inv(w.tables)
    && (!w.server ==> !w.run && w.tables.round == None)
    && forall t :: t in w.asked ==> PcOf(w.tables, t) == Idle
  }

  lemma NextSound(w: World, e: Event)
    requires Sound(w) && Possible(w, e)
    ensures Sound(Next(w, e))
  {
    if e.Tables? {
      StepKeeps(w.tables, e.a);
    }
  }

  lemma {:induction false} LeadsSound(w: World, events: seq<Event>, v: World)
    requires Sound(w) && Leads(w, events, v)
    ensures Sound(v)
    decreases |events|
  {
    if events != [] {
      NextSound(w, events[0]);
      LeadsSound(Next(w, events[0]), events[1..], v);
    }
  }

  // ---- Using a server that is gone ----------------------------------------

  /** The next thing thread `t` does is to use the server: to have a socket made, to add
      or remove a dispatcher, or to wake the loop. */
  predicate AtServer(w: World, t: Tid)
  {
    var pc := PcOf(w.tables, t);
    || (t in w.asked && w.asked[t] == ToCreate)
    || pc.Filed? || pc.Added? || pc.Found? || pc.Removed?
  }

  ghost predicate Met(w: World)
  {
    !w.server && exists t: Tid :: AtServer(w, t)
  }

  ghost predicate MetAfter(w: World, events: seq<Event>)
    decreases |events|
  {
    if events == [] then Met(w)
    else Possible(w, events[0]) && MetAfter(Next(w, events[0]), events[1..])
  }

  /** A thread is inside CreateFD, or inside CloseFD of a descriptor it is going to
      find. */
  predicate Underway(w: World, t: Tid)
  {
    var pc := PcOf(w.tables, t);
    || AtServer(w, t)
    || pc.Made? || pc.Holding?
    || (pc.Closing? && pc.fd in w.tables.objs)
    || (t in w.asked && w.asked[t].ToClose? && w.asked[t].fd in w.tables.objs && !Stale(w.tables, w.asked[t].fd))
  }

  lemma FirstEvent(w: World, e: Event)
    requires Possible(w, e) && exists events :: MetAfter(Next(w, e), events)
    ensures exists events :: MetAfter(w, events)
  {
    var rest :| MetAfter(Next(w, e), rest);
    var events := [e] + rest;
    assert events[0] == e && events[1..] == rest;
    assert MetAfter(w, events);
  }

  lemma MetNow(w: World, t: Tid)
    requires !w.server && AtServer(w, t)
    ensures exists events :: MetAfter(w, events)
  {
    assert MetAfter(w, []);
  }

  /** Whoever holds cs_ meets the reset, or lets go of the lock. */
  lemma HolderMeetsOrLeaves(w: World, u: Tid) returns (e: Event)
    requires Sound(w) && !w.server && w.tables.cs == Some(u)
    requires var pc := PcOf(w.tables, u); pc.Freed? || (pc.Closing? && pc.fd !in w.tables.objs)
    ensures Possible(w, e)
    ensures var v := Next(w, e);
            && !v.server && v.tables.cs == None && v.asked == w.asked
            && (forall t: Tid :: t != u ==> PcOf(v.tables, t) == PcOf(w.tables, t))
            && (forall fd :: fd in w.tables.objs && !Stale(w.tables, fd) ==> fd in v.tables.objs)
  {
    if PcOf(w.tables, u).Freed? {
      e := Tables(Erase(u, None));
    } else {
      e := Tables(Find(u));
    }
  }

  lemma HoldingGetsThere(w: World, t: Tid)
    requires Sound(w) && !w.server && PcOf(w.tables, t).Holding?
    ensures exists events :: MetAfter(w, events)
  {
    var file := Tables(File(t));
    MetNow(Next(w, file), t);
    FirstEvent(w, file);
  }

  lemma ClosingGetsThere(w: World, t: Tid)
    requires Sound(w) && !w.server && PcOf(w.tables, t).Closing? && PcOf(w.tables, t).fd in w.tables.objs
    ensures exists events :: MetAfter(w, events)
  {
    var find := Tables(Find(t));
    MetNow(Next(w, find), t);
    FirstEvent(w, find);
  }

  /** With the lock free, or in hand, a thread under way gets to the server. */
  lemma GetsThere(w: World, t: Tid)
    requires Sound(w) && !w.server && Underway(w, t)
    requires w.tables.cs == None || w.tables.cs == Some(t)
    ensures exists events :: MetAfter(w, events)
  {
    var pc := PcOf(w.tables, t);
    if AtServer(w, t) {
      MetNow(w, t);
    } else if pc.Made? {
      var lock := Tables(LockCreate(t));
      NextSound(w, lock);
      HoldingGetsThere(Next(w, lock), t);
      FirstEvent(w, lock);
    } else if pc.Holding? {
      HoldingGetsThere(w, t);
    } else if pc.Closing? && pc.fd in w.tables.objs {
      ClosingGetsThere(w, t);
    } else {
      var lock := Tables(LockClose(t, w.asked[t].fd));
      NextSound(w, lock);
      ClosingGetsThere(Next(w, lock), t);
      FirstEvent(w, lock);
    }
  }

  lemma UnderwayMeets(w: World, t: Tid)
    requires Sound(w) && !w.server && Underway(w, t)
    ensures exists events :: MetAfter(w, events)
  {
    if w.tables.cs == None || w.tables.cs == Some(t) {
      GetsThere(w, t);
    } else {
      var u := w.tables.cs.value;
      assert InSection(PcOf(w.tables, u));
      if Underway(w, u) {
        GetsThere(w, u);
      } else {
        var e := HolderMeetsOrLeaves(w, u);
        NextSound(w, e);
        GetsThere(Next(w, e), t);
        FirstEvent(w, e);
      }
    }
  }

  /** Once nobody is under way, nobody will be: the flag is down. */
  lemma NobodyStarts(w: World, e: Event)
    requires Sound(w) && !w.server && Possible(w, e)
    requires forall t: Tid :: !Underway(w, t)
    ensures var v := Next(w, e); !v.server && forall t: Tid :: !Underway(v, t)
  {
    var v := Next(w, e);
    forall t: Tid
      ensures var pc := PcOf(w.tables, t); !AtServer(w, t) && !pc.Made? && !pc.Holding?
    {
      assert !Underway(w, t);
    }
    forall t: Tid
      ensures !Underway(v, t)
    {
      assert !Underway(w, t);
      if e.Tables? && e.a.LockClose? {
        assert !Underway(w, e.a.t);
      }
    }
  }

  lemma {:induction false} NobodyMeets(w: World, events: seq<Event>)
    requires Sound(w) && !w.server && forall t: Tid :: !Underway(w, t)
    ensures !MetAfter(w, events)
    decreases |events|
  {
    if events == [] {
      assert forall t: Tid :: AtServer(w, t) ==> Underway(w, t);
    } else if Possible(w, events[0]) {
      NextSound(w, events[0]);
      NobodyStarts(w, events[0]);
      NobodyMeets(Next(w, events[0]), events[1..]);
    }
  }

  /** After the reset some thread can still come to use the server exactly if one is
      under way at that moment. */
  lemma ResetIsMetIff(before: seq<Event>, w: World)
    requires Leads(START, before, w) && !w.server
    ensures (exists events :: MetAfter(w, events)) <==> exists t: Tid :: Underway(w, t)
  {
    LeadsSound(START, before, w);
    if t: Tid :| Underway(w, t) {
      UnderwayMeets(w, t);
    } else {
      forall events
        ensures !MetAfter(w, events)
      {
        NobodyMeets(w, events);
      }
    }
  }

  /** It can happen: a thread passes the test of CreateFD, and NetExit runs to its end. */
  lemma ResetCanBeMet()
    ensures exists events, w :: Leads(START, events, w) && Met(w)
  {
    var ask := Ask(1, ToCreate);
    var w1 := Next(START, ask);
    var w2 := Next(w1, Stop);
    var w3 := Next(w2, Reset);
    assert AtServer(w3, 1);
    var events := [ask, Stop, Reset];
    assert events[1..] == [Stop, Reset] && [Stop, Reset][1..] == [Reset] && [Reset][1..] == [];
    assert Leads(w2, [Reset], w3);
    assert Leads(w1, [Stop, Reset], w3);
    assert Leads(START, events, w3);
  }
}
