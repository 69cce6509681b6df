/** Which locks each call of NetCenter and each round of the event loop takes, and
    why no interleaving of them can deadlock. A scoped lock (CriticalSectionScoped,
    lock_block) is a block; a program is the sequence of lock operations its
    blocks flatten to. */
module Locks {
  import opened Sequences
  import opened Wrappers

  type Tid = nat
  type SocketId = nat

  datatype Lock =
    | Cs                     // NetCenter::cs_
    | Crit                   // PhysicalSocketServer::crit_
    | ReadSig(d: SocketId)   // mutex of SignalReadEvent
    | WriteSig(d: SocketId)  // mutex of SignalWriteEvent
    | NewRead(d: SocketId)   // the same two of a dispatcher that only its creator
    | NewWrite(d: SocketId)  // knows yet
    | Slots                  // mutex of NetCenter's has_slots
    | Err(d: SocketId)       // PhysicalSocket::crit_, guards error_
    | Wake                   // EventDispatcher::crit_ of the wakeup pipe

  /** CriticalSection is a recursive mutex, the signal policies are not. */
  predicate Recursive(l: Lock)
  {
    l.Cs? || l.Crit? || l.Err? || l.Wake?
  }

  const TOP_RANK: nat := 5

  function Rank(l: Lock): (r: nat)
    ensures r <= TOP_RANK
  {
    match l
    case Cs => 0
    case Crit => 1
    case ReadSig(_) => 2
    case WriteSig(_) => 2
    case NewRead(_) => 3
    case NewWrite(_) => 3
    case Slots => 4
    case Err(_) => 5
    case Wake => 5
  }

  datatype Block = With(lock: Lock, body: seq<Block>) | JoinThread(t: Tid)

  datatype Op = Acquire(l: Lock) | Release(l: Lock) | Join(t: Tid)

  function Flatten(blocks: seq<Block>): seq<Op>
    decreases blocks
  {
    if blocks == [] then []
    else
      (match blocks[0]
       case With(l, body) => [Acquire(l)] + Flatten(body) + [Release(l)]
       case JoinThread(t) => [Join(t)])
      + Flatten(blocks[1..])
  }

  // ---- The calls, block by block ----------------------------------------

  function Touch(l: Lock): Block
  {
    With(l, [])
  }

  function Times(n: nat, b: Block): seq<Block>
  {
    seq(n, _ => b)
  }

  /** Connecting the four slots of a new dispatcher; two of its signals have no mutex. */
  function ConnectSlots(d: SocketId): seq<Block>
  {
    [Touch(Slots), Touch(Slots), With(NewWrite(d), [Touch(Slots)]), With(NewRead(d), [Touch(Slots)])]
  }

  /** ~SocketDispatcher: close the socket, then the signals' disconnect_all. */
  function DeleteDispatcher(d: SocketId, connected: bool): seq<Block>
  {
    var drop := if connected then [Touch(Slots)] else [];
    [Touch(Err(d))] + drop + drop + [With(WriteSig(d), drop), With(ReadSig(d), drop)]
  }

  /** `errors` counts accesses to error_, none for an unknown descriptor; `hook` is what
      the delegate does if the connection is there at once. */
  datatype Call =
    | CreateFD(d: SocketId, made: bool)
    | CloseFD(d: SocketId, found: bool)
    | ConnectFD(d: SocketId, errors: nat, hook: seq<Block>)
    | SendData(d: SocketId, errors: nat)
    | NetExit(live: seq<SocketId>)
    | Refused   // any of them but SendData while _run_flg is down

  /** The thread NetExit joins. */
  const LOOP: Tid := 0

  function ClearEntries(live: seq<SocketId>): seq<Block>
  {
    if live == [] then []
    else [Touch(Crit)] + DeleteDispatcher(live[0], true) + ClearEntries(live[1..])
  }

  function CallBlocks(c: Call): seq<Block>
  {
    match c
    case CreateFD(d, made) =>
      if !made then
        [Touch(Err(d)), Touch(NewWrite(d)), Touch(NewRead(d))]
      else
        ConnectSlots(d) + [With(Cs, [Touch(Crit), Touch(Wake)])]
    case CloseFD(d, found) =>
      [With(Cs,
            if !found then []
            else [Touch(Slots), Touch(Slots), With(WriteSig(d), [Touch(Slots)]), With(ReadSig(d), [Touch(Slots)]),
                  Touch(Crit), Touch(Wake)] + DeleteDispatcher(d, false))]
    case ConnectFD(d, errors, hook) => [With(Cs, Times(errors, Touch(Err(d))) + hook)]
    case SendData(d, errors) => [With(Cs, Times(errors, Touch(Err(d))))]
    case Refused => []
    case NetExit(live) =>
      [Touch(Wake), JoinThread(LOOP), With(Cs, ClearEntries(live) + [Touch(Wake)]), Touch(Crit)]
  }

  /** One visit of the dispatch loop, with what the delegate's callbacks do: inside the
      read handler, `onData`; when it is told CONNECTED or CLOSE, whose signals have no
      mutex, `onConnect` and `onClose`. Without the event there is nothing. */
  datatype Visit =
    | VisitWakeup
    | VisitSocket(d: SocketId, onConnect: seq<Block>, read: bool, readErrors: nat, onData: seq<Block>,
                  write: bool, writeErrors: nat, onClose: seq<Block>)

  function VisitBlocks(v: Visit): seq<Block>
  {
    match v
    case VisitWakeup => [Touch(Wake)]
    case VisitSocket(d, onConnect, read, readErrors, onData, write, writeErrors, onClose) =>
      onConnect
      + (if read then [With(ReadSig(d), Times(readErrors, Touch(Err(d))) + onData)] else [])
      + (if write then [With(WriteSig(d), Times(writeErrors, Touch(Err(d))))] else [])
      + onClose
  }

  function VisitsBlocks(vs: seq<Visit>): seq<Block>
  {
    if vs == [] then [] else VisitBlocks(vs[0]) + VisitsBlocks(vs[1..])
  }

  /** Any number of turns of Wait's loop: gather under the lock, select without
      it, dispatch under the lock. */
  function LoopBlocks(rounds: seq<seq<Visit>>): seq<Block>
  {
    if rounds == [] then []
    else [Touch(Crit), With(Crit, VisitsBlocks(rounds[0]))] + LoopBlocks(rounds[1..])
  }

  function CallsBlocks(calls: seq<Call>): seq<Block>
  {
    if calls == [] then [] else CallBlocks(calls[0]) + CallsBlocks(calls[1..])
  }

  // ---- Order -----------------------------------------------------------

  predicate MayTake(held: seq<Lock>, l: Lock)
  {
    (Recursive(l) && l in held) || forall i :: 0 <= i < |held| ==> Rank(held[i]) < Rank(l)
  }

  /** The loop never takes cs_, so its end may be awaited under it. */
  predicate MayJoin(held: seq<Lock>)
  {
    forall i :: 0 <= i < |held| ==> held[i] == Cs
  }

  predicate OrderedBlocks(held: seq<Lock>, blocks: seq<Block>)
    decreases blocks
  {
    forall i :: 0 <= i < |blocks| ==> OrderedBlock(held, blocks[i])
  }

  predicate OrderedBlock(held: seq<Lock>, b: Block)
    decreases b
  {
    match b
    case With(l, body) => MayTake(held, l) && OrderedBlocks(held + [l], body)
    case JoinThread(_) => MayJoin(held)
  }

  /** A program that, started with `held`, takes locks in rank order, releases
      them last in first out, joins with nothing but cs_ in hand, and ends with nothing. */
  predicate Ordered(held: seq<Lock>, ops: seq<Op>)
    decreases |ops|
  {
    if ops == [] then held == []
    else
      match ops[0]
      case Acquire(l) => MayTake(held, l) && Ordered(held + [l], ops[1..])
      case Release(l) => held != [] && held[|held| - 1] == l && Ordered(held[..|held| - 1], ops[1..])
      case Join(_) => MayJoin(held) && Ordered(held, ops[1..])
  }

  lemma {:induction false} FlattenConcat(a: seq<Block>, b: seq<Block>)
    ensures Flatten(a + b) == Flatten(a) + Flatten(b)
    decreases |a|
  {
    if a == [] {
      assert a + b == b;
    } else {
      assert (a + b)[1..] == a[1..] + b;
      FlattenConcat(a[1..], b);
    }
  }

  lemma FlattenWith(l: Lock, body: seq<Block>)
    ensures Flatten([With(l, body)]) == [Acquire(l)] + Flatten(body) + [Release(l)]
  {
    assert [With(l, body)][1..] == [];
  }

  lemma FlattenFirst(blocks: seq<Block>, tail: seq<Op>)
    requires blocks != []
    ensures var rest := Flatten(blocks[1..]) + tail;
            Flatten(blocks) + tail ==
            (match blocks[0]
             case With(l, body) => [Acquire(l)] + (Flatten(body) + ([Release(l)] + rest))
             case JoinThread(t) => [Join(t)] + rest)
  {}

  lemma OrderedAcquire(held: seq<Lock>, l: Lock, ops: seq<Op>)
    requires MayTake(held, l) && Ordered(held + [l], ops)
    ensures Ordered(held, [Acquire(l)] + ops)
  {
    assert ([Acquire(l)] + ops)[1..] == ops;
  }

  lemma OrderedRelease(held: seq<Lock>, l: Lock, ops: seq<Op>)
    requires Ordered(held, ops)
    ensures Ordered(held + [l], [Release(l)] + ops)
  {
    assert ([Release(l)] + ops)[1..] == ops;
    assert (held + [l])[..|held|] == held;
  }

  lemma OrderedJoin(held: seq<Lock>, t: Tid, ops: seq<Op>)
    requires MayJoin(held) && Ordered(held, ops)
    ensures Ordered(held, [Join(t)] + ops)
  {
    assert ([Join(t)] + ops)[1..] == ops;
  }

  /** Scoping turns block order into program order. */
  lemma {:induction false} FlattenOrdered(held: seq<Lock>, blocks: seq<Block>, tail: seq<Op>)
    requires OrderedBlocks(held, blocks) && Ordered(held, tail)
    ensures Ordered(held, Flatten(blocks) + tail)
    decreases blocks
  {
    if blocks == [] {
      assert Flatten(blocks) + tail == tail;
    } else {
      var rest := Flatten(blocks[1..]) + tail;
      FlattenOrdered(held, blocks[1..], tail);
      FlattenFirst(blocks, tail);
      assert OrderedBlock(held, blocks[0]);
      match blocks[0]
      case With(l, body) =>
        OrderedRelease(held, l, rest);
        FlattenOrdered(held + [l], body, [Release(l)] + rest);
        OrderedAcquire(held, l, Flatten(body) + ([Release(l)] + rest));
      case JoinThread(t) =>
        OrderedJoin(held, t, rest);
    }
  }

  // ---- Every call and every round keeps the order ------------------------

  lemma OrderedConcat(held: seq<Lock>, a: seq<Block>, b: seq<Block>)
    requires OrderedBlocks(held, a) && OrderedBlocks(held, b)
    ensures OrderedBlocks(held, a + b)
  {}

  /** Locks of rank 2 and up may be taken under locks of rank 0 and 1. */
  predicate Low(held: seq<Lock>)
  {
    forall i :: 0 <= i < |held| ==> Rank(held[i]) <= 1
  }

  lemma TouchOrdered(held: seq<Lock>, l: Lock)
    requires forall i :: 0 <= i < |held| ==> Rank(held[i]) < Rank(l)
    ensures OrderedBlock(held, Touch(l))
  {}

  lemma SignalOrdered(held: seq<Lock>, l: Lock, slots: bool)
    requires Low(held) && 2 <= Rank(l) <= 3
    ensures OrderedBlock(held, With(l, if slots then [Touch(Slots)] else []))
  {
    TouchOrdered(held + [l], Slots);
  }

  lemma DeleteOrdered(held: seq<Lock>, d: SocketId, connected: bool)
    requires Low(held)
    ensures OrderedBlocks(held, DeleteDispatcher(d, connected))
  {
    TouchOrdered(held, Err(d));
    TouchOrdered(held, Slots);
    SignalOrdered(held, WriteSig(d), connected);
    SignalOrdered(held, ReadSig(d), connected);
  }

  lemma ErrorsOrdered(held: seq<Lock>, d: SocketId, n: nat)
    requires forall i :: 0 <= i < |held| ==> Rank(held[i]) < TOP_RANK
    ensures OrderedBlocks(held, Times(n, Touch(Err(d))))
  {
    TouchOrdered(held, Err(d));
  }

  /** Whether a lock is held once or twice makes no difference. */
  lemma {:induction false} SameLocks(held: seq<Lock>, other: seq<Lock>, blocks: seq<Block>)
    requires forall l: Lock :: l in held <==> l in other
    requires OrderedBlocks(held, blocks)
    ensures OrderedBlocks(other, blocks)
    decreases blocks
  {
    forall i | 0 <= i < |blocks|
      ensures OrderedBlock(other, blocks[i])
    {
      assert OrderedBlock(held, blocks[i]);
      assert forall j :: 0 <= j < |other| ==> other[j] in held;
      if blocks[i].With? {
        SameLocks(held + [blocks[i].lock], other + [blocks[i].lock], blocks[i].body);
      }
    }
  }

  lemma {:induction false} ClearOrdered(held: seq<Lock>, live: seq<SocketId>)
    requires MayJoin(held)
    ensures OrderedBlocks(held, ClearEntries(live))
  {
    if live != [] {
      TouchOrdered(held, Crit);
      DeleteOrdered(held, live[0], true);
      ClearOrdered(held, live[1..]);
      OrderedConcat(held, [Touch(Crit)], DeleteDispatcher(live[0], true));
      OrderedConcat(held, [Touch(Crit)] + DeleteDispatcher(live[0], true), ClearEntries(live[1..]));
    }
  }

  lemma ConnectSlotsOrdered(held: seq<Lock>, d: SocketId)
    requires Low(held)
    ensures OrderedBlocks(held, ConnectSlots(d))
  {
    TouchOrdered(held, Slots);
    SignalOrdered(held, NewWrite(d), true);
    SignalOrdered(held, NewRead(d), true);
  }

  lemma CreateOrdered(held: seq<Lock>, d: SocketId)
    requires MayJoin(held)
    ensures OrderedBlocks(held, CallBlocks(CreateFD(d, true)))
  {
    ConnectSlotsOrdered(held, d);
    TouchOrdered(held + [Cs], Crit);
    TouchOrdered(held + [Cs], Wake);
    assert OrderedBlocks(held + [Cs], [Touch(Crit), Touch(Wake)]);
    OrderedConcat(held, ConnectSlots(d), [With(Cs, [Touch(Crit), Touch(Wake)])]);
  }

  lemma CreateFails(held: seq<Lock>, d: SocketId)
    requires forall i :: 0 <= i < |held| ==> Rank(held[i]) <= 2
    ensures OrderedBlocks(held, CallBlocks(CreateFD(d, false)))
  {
    TouchOrdered(held, Err(d));
    TouchOrdered(held, NewWrite(d));
    TouchOrdered(held, NewRead(d));
  }

  lemma CloseOrdered(held: seq<Lock>, d: SocketId, found: bool)
    requires MayJoin(held)
    ensures OrderedBlocks(held, CallBlocks(CloseFD(d, found)))
  {
    var under := held + [Cs];
    if found {
      TouchOrdered(under, Slots);
      SignalOrdered(under, WriteSig(d), true);
      SignalOrdered(under, ReadSig(d), true);
      TouchOrdered(under, Crit);
      TouchOrdered(under, Wake);
      DeleteOrdered(under, d, false);
      OrderedConcat(under,
                    [Touch(Slots), Touch(Slots), With(WriteSig(d), [Touch(Slots)]), With(ReadSig(d), [Touch(Slots)]),
                     Touch(Crit), Touch(Wake)],
                    DeleteDispatcher(d, false));
    }
  }

  lemma ExitOrdered(held: seq<Lock>, live: seq<SocketId>)
    requires MayJoin(held)
    ensures OrderedBlocks(held, CallBlocks(NetExit(live)))
  {
    var under := held + [Cs];
    TouchOrdered(held, Wake);
    TouchOrdered(held, Crit);
    TouchOrdered(under, Wake);
    ClearOrdered(under, live);
    OrderedConcat(under, ClearEntries(live), [Touch(Wake)]);
  }

  lemma ConnectOrdered(held: seq<Lock>, d: SocketId, errors: nat, hook: seq<Block>)
    requires MayJoin(held) && OrderedBlocks([Cs], hook)
    ensures OrderedBlocks(held, CallBlocks(ConnectFD(d, errors, hook)))
  {
    var under := held + [Cs];
    assert under[|held|] == Cs;
    ErrorsOrdered(under, d, errors);
    SameLocks([Cs], under, hook);
    OrderedConcat(under, Times(errors, Touch(Err(d))), hook);
  }

  /** Every join in the blocks, at any depth, is of the loop, if allowed at all. */
  predicate JoinsIn(blocks: seq<Block>, allowed: bool)
    decreases blocks
  {
    forall i :: 0 <= i < |blocks| ==>
      match blocks[i]
      case With(_, body) => JoinsIn(body, allowed)
      case JoinThread(t) => allowed && t == LOOP
  }

  /** What the delegate may do when ConnectServiceWhitFD tells it CONNECTED, which is
      under cs_: keep to the order. */
  predicate CallSafe(c: Call)
  {
    c.ConnectFD? ==> OrderedBlocks([Cs], c.hook) && JoinsIn(c.hook, true)
  }

  predicate CallsSafe(calls: seq<Call>)
  {
    forall i :: 0 <= i < |calls| ==> CallSafe(calls[i])
  }

  /** Every call keeps the order, also under cs_. */
  lemma CallOrdered(held: seq<Lock>, c: Call)
    requires MayJoin(held) && CallSafe(c)
    ensures OrderedBlocks(held, CallBlocks(c))
  {
    match c
    case CreateFD(d, made) =>
      if made {
        CreateOrdered(held, d);
      } else {
        CreateFails(held, d);
      }
    case CloseFD(d, found) => CloseOrdered(held, d, found);
    case NetExit(live) => ExitOrdered(held, live);
    case ConnectFD(d, errors, hook) => ConnectOrdered(held, d, errors, hook);
    case SendData(d, errors) => ErrorsOrdered(held + [Cs], d, errors);
    case Refused =>
  }

  /** What a callback of the loop may do about locks: keep to the order under those that
      the loop holds around it. That leaves it the server's lock again, a dispatcher
      nobody knows, the slot mutex and the leaves, and no join. */
  predicate HookSafe(v: Visit)
  {
    v.VisitSocket? ==>
      && OrderedBlocks([Crit], v.onConnect)
      && OrderedBlocks([Crit, ReadSig(v.d)], v.onData)
      && OrderedBlocks([Crit], v.onClose)
  }

  predicate HooksSafe(vs: seq<Visit>)
  {
    forall i :: 0 <= i < |vs| ==> HookSafe(vs[i])
  }

  lemma VisitOrdered(v: Visit)
    requires HookSafe(v)
    ensures OrderedBlocks([Crit], VisitBlocks(v))
  {
    match v
    case VisitWakeup => TouchOrdered([Crit], Wake);
    case VisitSocket(d, onConnect, read, readErrors, onData, write, writeErrors, onClose) =>
      assert [Crit] + [ReadSig(d)] == [Crit, ReadSig(d)];
      ErrorsOrdered([Crit, ReadSig(d)], d, readErrors);
      OrderedConcat([Crit, ReadSig(d)], Times(readErrors, Touch(Err(d))), onData);
      ErrorsOrdered([Crit] + [WriteSig(d)], d, writeErrors);
      var reading := if read then [With(ReadSig(d), Times(readErrors, Touch(Err(d))) + onData)] else [];
      var writing := if write then [With(WriteSig(d), Times(writeErrors, Touch(Err(d))))] else [];
      OrderedConcat([Crit], onConnect, reading);
      OrderedConcat([Crit], onConnect + reading, writing);
      OrderedConcat([Crit], onConnect + reading + writing, onClose);
  }

  lemma {:induction false} VisitsOrdered(vs: seq<Visit>)
    requires HooksSafe(vs)
    ensures OrderedBlocks([Crit], VisitsBlocks(vs))
  {
    if vs != [] {
      VisitOrdered(vs[0]);
      VisitsOrdered(vs[1..]);
      OrderedConcat([Crit], VisitBlocks(vs[0]), VisitsBlocks(vs[1..]));
    }
  }

  lemma {:induction false} LoopOrdered(rounds: seq<seq<Visit>>)
    requires forall i :: 0 <= i < |rounds| ==> HooksSafe(rounds[i])
    ensures OrderedBlocks([], LoopBlocks(rounds))
  {
    if rounds != [] {
      TouchOrdered([], Crit);
      VisitsOrdered(rounds[0]);
      assert [] + [Crit] == [Crit];
      assert OrderedBlocks([], [Touch(Crit), With(Crit, VisitsBlocks(rounds[0]))]);
      LoopOrdered(rounds[1..]);
      OrderedConcat([], [Touch(Crit), With(Crit, VisitsBlocks(rounds[0]))], LoopBlocks(rounds[1..]));
    }
  }

  lemma {:induction false} CallsOrdered(calls: seq<Call>)
    requires CallsSafe(calls)
    ensures OrderedBlocks([], CallsBlocks(calls))
  {
    if calls != [] {
      CallOrdered([], calls[0]);
      CallsOrdered(calls[1..]);
      OrderedConcat([], CallBlocks(calls[0]), CallsBlocks(calls[1..]));
    }
  }

  /** A block under `outer` that takes `inner`. */
  predicate TakesUnder(blocks: seq<Block>, outer: Lock, inner: Lock)
  {
    exists i, j :: 0 <= i < |blocks| && blocks[i].With? && blocks[i].lock == outer
                   && 0 <= j < |blocks[i].body| && blocks[i].body[j] == Touch(inner)
  }

  /** The loop's list is changed under both locks, by a creation, by the closing of a
      known descriptor, and by NetExit if there is one left; then the loop is woken. */
  lemma ListChangesUnderBoth(c: Call)
    requires (c.CreateFD? && c.made) || (c.CloseFD? && c.found) || (c.NetExit? && c.live != [])
    ensures TakesUnder(CallBlocks(c), Cs, Crit) && TakesUnder(CallBlocks(c), Cs, Wake)
  {
    var blocks := CallBlocks(c);
    match c
    case CreateFD(d, _) =>
      assert blocks[4] == With(Cs, [Touch(Crit), Touch(Wake)]);
      assert blocks[4].body[0] == Touch(Crit) && blocks[4].body[1] == Touch(Wake);
    case CloseFD(d, _) =>
      assert blocks[0].body[4] == Touch(Crit) && blocks[0].body[5] == Touch(Wake);
    case NetExit(live) =>
      var body := blocks[2].body;
      assert body[0] == Touch(Crit) && body[|body| - 1] == Touch(Wake);
  }

  // ---- Threads ----------------------------------------------------------

  /** What a thread still has to do, and the locks it holds, innermost last. */
  datatype Thread = Thread(ops: seq<Op>, held: seq<Lock>)

  type State = seq<Thread>

  predicate HeldByOther(s: State, t: Tid, l: Lock)
  {
    exists u :: 0 <= u < |s| && u != t && l in s[u].held
  }

  /** A mutex is taken when nobody else has it; only a recursive one again by its
      holder. A join waits for the other thread's end. */
  predicate CanStep(s: State, t: Tid)
  {
    && t < |s| && s[t].ops != []
    && match s[t].ops[0]
       case Acquire(l) => !HeldByOther(s, t, l) && (l in s[t].held ==> Recursive(l))
       case Release(l) => s[t].held != [] && s[t].held[|s[t].held| - 1] == l
       case Join(u) => u < |s| ==> s[u].ops == []
  }

  function StepThread(th: Thread): Thread
    requires th.ops != []
    requires th.ops[0].Release? ==> th.held != []
  {
    var rest := th.ops[1..];
    match th.ops[0]
    case Acquire(l) => Thread(rest, th.held + [l])
    case Release(l) => Thread(rest, th.held[..|th.held| - 1])
    case Join(_) => Thread(rest, th.held)
  }

  function Step(s: State, t: Tid): (r: State)
    requires CanStep(s, t)
    ensures |r| == |s|
  {
    s[t := StepThread(s[t])]
  }

  /** `t` is what `s` becomes when the threads move in the order of `schedule`. */
  ghost predicate Reaches(s: State, schedule: seq<Tid>, t: State)
    decreases |schedule|
  {
    if schedule == [] then s == t
    else CanStep(s, schedule[0]) && Reaches(Step(s, schedule[0]), schedule[1..], t)
  }

  /** The loop thread, then any number of application threads. */
  function Program(rounds: seq<seq<Visit>>, apps: seq<seq<Call>>): (s: State)
    ensures |s| == 1 + |apps|
  {
    [Thread(Flatten(LoopBlocks(rounds)), [])]
    + seq(|apps|, i requires 0 <= i < |apps| => Thread(Flatten(CallsBlocks(apps[i])), []))
  }

  // ---- Invariant ---------------------------------------------------------

  /** No join and no cs_, which holds of the loop. */
  predicate StaysOut(ops: seq<Op>)
  {
    forall i :: 0 <= i < |ops| ==> !ops[i].Join? && ops[i] != Acquire(Cs)
  }

  predicate JoinsLoopOnly(ops: seq<Op>)
  {
    forall i :: 0 <= i < |ops| && ops[i].Join? ==> ops[i].t == LOOP
  }

  predicate Exclusive(s: State)
  {
    forall t, u, l: Lock :: 0 <= t < |s| && 0 <= u < |s| && t != u && l in s[t].held ==> l !in s[u].held
  }

  ghost predicate Inv(s: State)
  {
    && |s| > 0
    && Exclusive(s)
    && (forall t :: 0 <= t < |s| ==> Ordered(s[t].held, s[t].ops) && JoinsLoopOnly(s[t].ops))
    && StaysOut(s[LOOP].ops)
  }

  lemma StepKeeps(s: State, t: Tid)
    requires Inv(s) && CanStep(s, t)
    ensures Inv(Step(s, t))
  {
    var r := Step(s, t);
    var th, th' := s[t], r[t];
    assert Ordered(th.held, th.ops);
    assert forall i :: 0 <= i < |th'.ops| ==> th'.ops[i] == th.ops[i + 1];
    match th.ops[0]
    case Acquire(l) =>
      assert forall u :: 0 <= u < |s| && u != t ==> l !in s[u].held;
    case Release(l) =>
      assert forall x :: x in th'.held ==> x in th.held;
    case Join(_) =>
  }

  lemma {:induction false} RunKeeps(s: State, schedule: seq<Tid>, t: State)
    requires Inv(s) && Reaches(s, schedule, t)
    ensures Inv(t) && |t| == |s|
    decreases |schedule|
  {
    if schedule != [] {
      StepKeeps(s, schedule[0]);
      RunKeeps(Step(s, schedule[0]), schedule[1..], t);
    }
  }

  /** If a thread holding `l` cannot move, it waits for a higher lock, or for the loop,
      which waits for a lock higher than cs_; ranks are bounded, so somebody up the
      chain can. */
  lemma {:induction false} HolderChain(s: State, t: Tid, l: Lock)
    requires Inv(s) && t < |s| && l in s[t].held
    ensures exists u :: CanStep(s, u)
    decreases TOP_RANK - Rank(l), 0
  {
    var th := s[t];
    assert Ordered(th.held, th.ops);
    var i :| 0 <= i < |th.held| && th.held[i] == l;
    if !CanStep(s, t) {
      match th.ops[0]
      case Acquire(m) =>
        var u :| 0 <= u < |s| && u != t && m in s[u].held;
        assert Rank(l) < Rank(m);
        HolderChain(s, u, m);
      case Release(_) =>
      case Join(_) =>
        assert th.held[i] == Cs;
        LoopMoves(s);
    }
  }

  lemma {:induction false} LoopMoves(s: State)
    requires Inv(s) && s[LOOP].ops != []
    ensures exists u :: CanStep(s, u)
    decreases TOP_RANK - 1, 1
  {
    assert Ordered(s[LOOP].held, s[LOOP].ops);
    if !CanStep(s, LOOP) {
      var l := s[LOOP].ops[0].l;
      var u :| 0 <= u < |s| && u != LOOP && l in s[u].held;
      HolderChain(s, u, l);
    }
  }

  lemma UnfinishedMoves(s: State, t: Tid)
    requires Inv(s) && t < |s| && s[t].ops != []
    ensures exists u :: CanStep(s, u)
  {
    assert Ordered(s[t].held, s[t].ops);
    if s[t].held != [] {
      HolderChain(s, t, s[t].held[0]);
    } else if !CanStep(s, t) {
      match s[t].ops[0]
      case Acquire(l) =>
        var u :| 0 <= u < |s| && u != t && l in s[u].held;
        HolderChain(s, u, l);
      case Release(_) =>
      case Join(_) =>
        LoopMoves(s);
    }
  }

  // ---- Main results ------------------------------------------------------

  predicate JoinsOps(ops: seq<Op>, allowed: bool)
  {
    forall i :: 0 <= i < |ops| && ops[i].Join? ==> allowed && ops[i].t == LOOP
  }

  lemma {:induction false} FlattenJoins(blocks: seq<Block>, allowed: bool)
    requires JoinsIn(blocks, allowed)
    ensures JoinsOps(Flatten(blocks), allowed)
    decreases blocks
  {
    if blocks != [] {
      assert forall i :: 0 <= i < |blocks[1..]| ==> blocks[1..][i] == blocks[i + 1];
      FlattenJoins(blocks[1..], allowed);
      if blocks[0].With? {
        FlattenJoins(blocks[0].body, allowed);
      }
    }
  }

  lemma {:induction false} ClearJoins(live: seq<SocketId>)
    ensures JoinsIn(ClearEntries(live), false)
  {
    if live != [] {
      ClearJoins(live[1..]);
    }
  }

  lemma {:induction false} JoinsMonotone(blocks: seq<Block>)
    requires JoinsIn(blocks, false)
    ensures JoinsIn(blocks, true)
    decreases blocks
  {
    forall i | 0 <= i < |blocks| && blocks[i].With?
      ensures JoinsIn(blocks[i].body, true)
    {
      assert JoinsIn(blocks[i].body, false);
      JoinsMonotone(blocks[i].body);
    }
  }

  lemma JoinsConcat(a: seq<Block>, b: seq<Block>, allowed: bool)
    requires JoinsIn(a, allowed) && JoinsIn(b, allowed)
    ensures JoinsIn(a + b, allowed)
  {}

  lemma CallJoins(c: Call)
    requires CallSafe(c)
    ensures JoinsIn(CallBlocks(c), true)
  {
    match c
    case NetExit(live) =>
      ClearJoins(live);
      JoinsMonotone(ClearEntries(live));
      JoinsConcat(ClearEntries(live), [Touch(Wake)], true);
    case ConnectFD(d, errors, hook) => JoinsConcat(Times(errors, Touch(Err(d))), hook, true);
    case _ =>
  }

  lemma {:induction false} CallsJoins(calls: seq<Call>)
    requires CallsSafe(calls)
    ensures JoinsIn(CallsBlocks(calls), true)
  {
    if calls != [] {
      CallJoins(calls[0]);
      CallsJoins(calls[1..]);
      JoinsConcat(CallBlocks(calls[0]), CallsBlocks(calls[1..]), true);
    }
  }

  lemma StaysOutConcat(a: seq<Op>, b: seq<Op>)
    requires StaysOut(a) && StaysOut(b)
    ensures StaysOut(a + b)
  {}

  /** What keeps to the order under a lock other than cs_ takes no cs_, nor joins. */
  lemma {:induction false} OrderedStaysOut(held: seq<Lock>, blocks: seq<Block>, tail: seq<Op>)
    requires held != [] && Cs !in held && OrderedBlocks(held, blocks) && StaysOut(tail)
    ensures StaysOut(Flatten(blocks) + tail)
    decreases blocks
  {
    if blocks == [] {
      assert Flatten(blocks) + tail == tail;
    } else {
      var rest := Flatten(blocks[1..]) + tail;
      OrderedStaysOut(held, blocks[1..], tail);
      FlattenFirst(blocks, tail);
      assert OrderedBlock(held, blocks[0]);
      assert held[0] in held;
      var l := blocks[0].lock;
      StaysOutConcat([Release(l)], rest);
      OrderedStaysOut(held + [l], blocks[0].body, [Release(l)] + rest);
      StaysOutConcat([Acquire(l)], Flatten(blocks[0].body) + ([Release(l)] + rest));
    }
  }

  lemma RoundStaysOut(visits: seq<Block>)
    requires OrderedBlocks([Crit], visits)
    ensures StaysOut(Flatten([Touch(Crit), With(Crit, visits)]))
  {
    assert [Touch(Crit), With(Crit, visits)] == [Touch(Crit)] + [With(Crit, visits)];
    FlattenConcat([Touch(Crit)], [With(Crit, visits)]);
    FlattenWith(Crit, []);
    FlattenWith(Crit, visits);
    OrderedStaysOut([Crit], visits, [Release(Crit)]);
    StaysOutConcat([Acquire(Crit)], Flatten(visits) + [Release(Crit)]);
    Associative([Acquire(Crit)], Flatten(visits), [Release(Crit)]);
    StaysOutConcat(Flatten([Touch(Crit)]), Flatten([With(Crit, visits)]));
  }

  lemma {:induction false} LoopStaysOut(rounds: seq<seq<Visit>>)
    requires forall i :: 0 <= i < |rounds| ==> HooksSafe(rounds[i])
    ensures StaysOut(Flatten(LoopBlocks(rounds)))
  {
    if rounds != [] {
      var first := [Touch(Crit), With(Crit, VisitsBlocks(rounds[0]))];
      VisitsOrdered(rounds[0]);
      RoundStaysOut(VisitsBlocks(rounds[0]));
      LoopStaysOut(rounds[1..]);
      FlattenConcat(first, LoopBlocks(rounds[1..]));
      StaysOutConcat(Flatten(first), Flatten(LoopBlocks(rounds[1..])));
    }
  }

  lemma LoopProgram(rounds: seq<seq<Visit>>)
    requires forall i :: 0 <= i < |rounds| ==> HooksSafe(rounds[i])
    ensures Ordered([], Flatten(LoopBlocks(rounds))) && StaysOut(Flatten(LoopBlocks(rounds)))
  {
    LoopOrdered(rounds);
    FlattenOrdered([], LoopBlocks(rounds), []);
    assert Flatten(LoopBlocks(rounds)) + [] == Flatten(LoopBlocks(rounds));
    LoopStaysOut(rounds);
  }

  lemma AppProgram(calls: seq<Call>)
    requires CallsSafe(calls)
    ensures Ordered([], Flatten(CallsBlocks(calls))) && JoinsLoopOnly(Flatten(CallsBlocks(calls)))
  {
    CallsOrdered(calls);
    FlattenOrdered([], CallsBlocks(calls), []);
    assert Flatten(CallsBlocks(calls)) + [] == Flatten(CallsBlocks(calls));
    CallsJoins(calls);
    FlattenJoins(CallsBlocks(calls), true);
  }

  predicate AllSafe(rounds: seq<seq<Visit>>, apps: seq<seq<Call>>)
  {
    && (forall i :: 0 <= i < |rounds| ==> HooksSafe(rounds[i]))
    && (forall i :: 0 <= i < |apps| ==> CallsSafe(apps[i]))
  }

  lemma ProgramInv(rounds: seq<seq<Visit>>, apps: seq<seq<Call>>)
    requires AllSafe(rounds, apps)
    ensures Inv(Program(rounds, apps))
  {
    var s := Program(rounds, apps);
    LoopProgram(rounds);
    forall t | 1 <= t < |s|
      ensures Ordered(s[t].held, s[t].ops) && JoinsLoopOnly(s[t].ops)
    {
      AppProgram(apps[t - 1]);
    }
  }

  /** In every interleaving of any calls with any rounds of the loop, as long as
      a thread is unfinished some thread can move, provided the delegate's
      callbacks keep to the lock order, as one does that stays out of the library. */
  lemma DeadlockFree(rounds: seq<seq<Visit>>, apps: seq<seq<Call>>, schedule: seq<Tid>, s: State)
    requires AllSafe(rounds, apps)
    requires Reaches(Program(rounds, apps), schedule, s)
    ensures (forall t :: 0 <= t < |s| ==> s[t].ops == []) || exists u :: CanStep(s, u)
  {
    ProgramInv(rounds, apps);
    RunKeeps(Program(rounds, apps), schedule, s);
    if t :| 0 <= t < |s| && s[t].ops != [] {
      UnfinishedMoves(s, t);
    }
  }

  /** Nobody ever asks again for a signal or slot mutex it holds, and two threads
      never hold one lock together. */
  lemma NoReentry(rounds: seq<seq<Visit>>, apps: seq<seq<Call>>, schedule: seq<Tid>, s: State, t: Tid)
    requires AllSafe(rounds, apps)
    requires Reaches(Program(rounds, apps), schedule, s) && t < |s| && s[t].ops != []
    ensures s[t].ops[0].Acquire? && s[t].ops[0].l in s[t].held ==> Recursive(s[t].ops[0].l)
    ensures Exclusive(s)
  {
    ProgramInv(rounds, apps);
    RunKeeps(Program(rounds, apps), schedule, s);
    assert Ordered(s[t].held, s[t].ops);
  }

  // ---- Calls from callbacks ----------------------------------------------

  /** Nobody can move and somebody is not done. */
  predicate Stuck(s: State)
  {
    (forall u :: 0 <= u < |s| ==> !CanStep(s, u)) && exists t :: 0 <= t < |s| && s[t].ops != []
  }

  /** A creation that fails takes only locks of its own, a refused call none. */
  predicate Harmless(c: Call)
  {
    c.Refused? || (c.CreateFD? && !c.made)
  }

  datatype Place = OnConnect | OnData | OnClose

  function HeldAt(place: Place): seq<Lock>
  {
    if place.OnData? then [Crit, ReadSig(7)] else [Crit]
  }

  /** One visit, of socket 7, in which one callback does `hook`. */
  function OneCallback(place: Place, hook: seq<Block>): Visit
  {
    match place
    case OnConnect => VisitSocket(7, hook, false, 0, [], false, 0, [])
    case OnData => VisitSocket(7, [], true, 0, hook, false, 0, [])
    case OnClose => VisitSocket(7, [], false, 0, [], false, 0, hook)
  }

  /** Harmless calls, and no others, keep to the order in a callback of the loop. */
  lemma CallInCallback(place: Place, c: Call)
    ensures OrderedBlocks(HeldAt(place), CallBlocks(c)) <==> Harmless(c)
  {
    var held, blocks := HeldAt(place), CallBlocks(c);
    assert held[0] == Crit;
    match c
    case CreateFD(d, made) =>
      if made {
        assert blocks[4].lock == Cs;
        assert !OrderedBlock(held, blocks[4]);
      } else {
        CreateFails(held, d);
      }
    case NetExit(_) => assert !OrderedBlock(held, blocks[1]);
    case Refused =>
    case _ => assert !OrderedBlock(held, blocks[0]);
  }

  /** The locks held after performing `ops` alone, if nobody else is in the way
      and no mutex is asked for twice. */
  function After(held: seq<Lock>, ops: seq<Op>): Option<seq<Lock>>
    decreases |ops|
  {
    if ops == [] then Some(held)
    else
      match ops[0]
      case Acquire(l) => if l in held then None else After(held + [l], ops[1..])
      case Release(l) =>
        if held != [] && held[|held| - 1] == l then After(held[..|held| - 1], ops[1..]) else None
      case Join(_) => None
  }

  predicate Avoids(ops: seq<Op>, locks: seq<Lock>)
  {
    forall i :: 0 <= i < |ops| && ops[i].Acquire? ==> ops[i].l !in locks
  }

  function Solo(t: Tid, n: nat): seq<Tid>
  {
    seq(n, _ => t)
  }

  lemma {:induction false} RunsAlone(s: State, t: Tid, ops: seq<Op>, rest: seq<Op>, held: seq<Lock>)
    requires t < |s| && s[t].ops == ops + rest && After(s[t].held, ops) == Some(held)
    requires forall u :: 0 <= u < |s| && u != t ==> Avoids(ops, s[u].held)
    ensures Reaches(s, Solo(t, |ops|), s[t := Thread(rest, held)])
    decreases |ops|
  {
    if ops == [] {
      assert ops + rest == rest && s[t := s[t]] == s;
    } else {
      assert (ops + rest)[0] == ops[0] && (ops + rest)[1..] == ops[1..] + rest;
      var r := Step(s, t);
      assert forall i :: 0 <= i < |ops[1..]| ==> ops[1..][i] == ops[i + 1];
      RunsAlone(r, t, ops[1..], rest, held);
      assert Solo(t, |ops|)[1..] == Solo(t, |ops| - 1);
      assert r[t := Thread(rest, held)] == s[t := Thread(rest, held)];
    }
  }

  lemma {:induction false} ReachesThen(s: State, a: seq<Tid>, m: State, b: seq<Tid>, r: State)
    requires Reaches(s, a, m) && Reaches(m, b, r)
    ensures Reaches(s, a + b, r)
    decreases |a|
  {
    if a == [] {
      assert a + b == b;
    } else {
      assert (a + b)[1..] == a[1..] + b;
      ReachesThen(Step(s, a[0]), a[1..], m, b, r);
    }
  }

  /** Blocks that ask for nothing twice, nor for what is held, nor for a join. */
  predicate Independent(held: seq<Lock>, blocks: seq<Block>)
    decreases blocks
  {
    forall i :: 0 <= i < |blocks| ==>
      match blocks[i]
      case With(l, body) => l !in held && Independent(held + [l], body)
      case JoinThread(_) => false
  }

  /** They leave the locks as they were. */
  lemma {:induction false} AfterBlocks(held: seq<Lock>, blocks: seq<Block>, tail: seq<Op>)
    requires Independent(held, blocks)
    ensures After(held, Flatten(blocks) + tail) == After(held, tail)
    decreases blocks
  {
    if blocks == [] {
      assert Flatten(blocks) + tail == tail;
    } else {
      var l, body := blocks[0].lock, blocks[0].body;
      var rest := Flatten(blocks[1..]) + tail;
      FlattenFirst(blocks, tail);
      AfterBlocks(held + [l], body, [Release(l)] + rest);
      AfterBlocks(held, blocks[1..], tail);
      assert ([Acquire(l)] + (Flatten(body) + ([Release(l)] + rest)))[1..] == Flatten(body) + ([Release(l)] + rest);
      assert ([Release(l)] + rest)[1..] == rest && (held + [l])[..|held|] == held;
    }
  }

  lemma {:induction false} FlattenAvoids(blocks: seq<Block>, held: seq<Lock>)
    requires Independent(held, blocks)
    ensures Avoids(Flatten(blocks), held)
    decreases blocks
  {
    if blocks != [] {
      FlattenAvoids(blocks[0].body, held + [blocks[0].lock]);
      FlattenAvoids(blocks[1..], held);
    }
  }

  /** What the loop does up to the callback. */
  function Approach(place: Place): seq<Op>
  {
    [Acquire(Crit), Release(Crit), Acquire(Crit)] + if place.OnData? then [Acquire(ReadSig(7))] else []
  }

  lemma AfterAcquire(held: seq<Lock>, l: Lock, rest: seq<Op>)
    requires l !in held
    ensures After(held, [Acquire(l)] + rest) == After(held + [l], rest)
  {
    assert ([Acquire(l)] + rest)[1..] == rest;
  }

  lemma AfterRelease(held: seq<Lock>, l: Lock, rest: seq<Op>)
    ensures After(held + [l], [Release(l)] + rest) == After(held, rest)
  {
    assert ([Release(l)] + rest)[1..] == rest && (held + [l])[..|held|] == held;
  }

  lemma AfterApproach(place: Place, tail: seq<Op>)
    ensures After([], Approach(place) + tail) == After(HeldAt(place), tail)
  {
    var last := (if place.OnData? then [Acquire(ReadSig(7))] else []) + tail;
    assert Approach(place) + tail == [Acquire(Crit)] + ([Release(Crit)] + ([Acquire(Crit)] + last));
    AfterAcquire([], Crit, [Release(Crit)] + ([Acquire(Crit)] + last));
    AfterRelease([], Crit, [Acquire(Crit)] + last);
    AfterAcquire([], Crit, last);
    assert [] + [Crit] == [Crit];
    if place.OnData? {
      AfterAcquire([Crit], ReadSig(7), tail);
      assert [Crit] + [ReadSig(7)] == [Crit, ReadSig(7)];
    } else {
      assert last == tail;
    }
  }

  lemma VisitShape(place: Place, hook: seq<Block>)
    ensures var blocks := VisitBlocks(OneCallback(place, hook));
            blocks == if place.OnData? then [With(ReadSig(7), hook)] else hook
  {
    assert Times(0, Touch(Err(7))) + hook == hook;
  }

  lemma LoopBlocksShape(place: Place, hook: seq<Block>)
    ensures var blocks := if place.OnData? then [With(ReadSig(7), hook)] else hook;
            LoopBlocks([[OneCallback(place, hook)]]) == [Touch(Crit)] + [With(Crit, blocks)]
  {
    var visits := [OneCallback(place, hook)];
    var rounds: seq<seq<Visit>> := [visits];
    VisitShape(place, hook);
    assert visits[1..] == [] && VisitsBlocks(visits) == VisitBlocks(visits[0]) + [];
    assert VisitsBlocks(visits) == VisitBlocks(visits[0]);
    assert rounds[1..] == [];
    assert [Touch(Crit), With(Crit, VisitsBlocks(visits))] == [Touch(Crit)] + [With(Crit, VisitsBlocks(visits))];
    assert LoopBlocks(rounds) == [Touch(Crit), With(Crit, VisitsBlocks(visits))] + [];
  }

  lemma DataOps(ops: seq<Op>)
    ensures [Acquire(Crit)] + [] + [Release(Crit)]
            + ([Acquire(Crit)] + ([Acquire(ReadSig(7))] + ops + [Release(ReadSig(7))]) + [Release(Crit)])
         == Approach(OnData) + (ops + [Release(ReadSig(7)), Release(Crit)])
  {}

  lemma StatusOps(ops: seq<Op>)
    ensures [Acquire(Crit)] + [] + [Release(Crit)] + ([Acquire(Crit)] + ops + [Release(Crit)])
         == Approach(OnConnect) + (ops + [Release(Crit)])
    ensures Approach(OnConnect) == Approach(OnClose)
  {}

  lemma LoopShape(place: Place, hook: seq<Block>) returns (tail: seq<Op>)
    ensures Flatten(LoopBlocks([[OneCallback(place, hook)]])) == Approach(place) + (Flatten(hook) + tail)
  {
    LoopBlocksShape(place, hook);
    if place.OnData? {
      var blocks := [With(ReadSig(7), hook)];
      tail := [Release(ReadSig(7)), Release(Crit)];
      FlattenConcat([Touch(Crit)], [With(Crit, blocks)]);
      FlattenWith(Crit, []);
      FlattenWith(Crit, blocks);
      FlattenWith(ReadSig(7), hook);
      DataOps(Flatten(hook));
    } else {
      tail := [Release(Crit)];
      FlattenConcat([Touch(Crit)], [With(Crit, hook)]);
      FlattenWith(Crit, []);
      FlattenWith(Crit, hook);
      StatusOps(Flatten(hook));
    }
  }

  lemma UnderCs(body: seq<Block>) returns (before: seq<Block>, next: Op, tail: seq<Op>)
    ensures Flatten([With(Cs, body)]) == Flatten(before) + ([next] + tail)
    ensures before == [] && next == Acquire(Cs)
  {
    before, next, tail := [], Acquire(Cs), Flatten(body) + [Release(Cs)];
    FlattenWith(Cs, body);
    Associative([Acquire(Cs)], Flatten(body), [Release(Cs)]);
    assert Flatten(before) + ([next] + tail) == [next] + tail;
  }

  lemma SlotsIndependent(held: seq<Lock>, d: SocketId)
    requires Slots !in held && NewWrite(d) !in held && NewRead(d) !in held
    ensures Independent(held, ConnectSlots(d))
  {
    assert Independent(held + [NewWrite(d)], [Touch(Slots)]);
    assert Independent(held + [NewRead(d)], [Touch(Slots)]);
  }

  /** A call that is not harmless comes, after blocks that block nobody, to cs_ or to
      the join of the loop. */
  lemma CallShape(c: Call, held: seq<Lock>) returns (before: seq<Block>, next: Op, tail: seq<Op>)
    requires !Harmless(c) && (held == [Crit] || held == [Crit, ReadSig(7)])
    ensures Flatten(CallBlocks(c)) == Flatten(before) + ([next] + tail)
    ensures Independent(held, before) && (next == Acquire(Cs) || next == Join(LOOP))
  {
    match c
    case CreateFD(d, _) =>
      before := ConnectSlots(d);
      var body := [Touch(Crit), Touch(Wake)];
      next, tail := Acquire(Cs), Flatten(body) + [Release(Cs)];
      FlattenConcat(before, [With(Cs, body)]);
      FlattenWith(Cs, body);
      assert [next] + tail == [Acquire(Cs)] + Flatten(body) + [Release(Cs)];
      SlotsIndependent(held, d);
    case NetExit(live) =>
      before, next := [Touch(Wake)], Join(LOOP);
      var rest := [With(Cs, ClearEntries(live) + [Touch(Wake)]), Touch(Crit)];
      tail := Flatten(rest);
      assert CallBlocks(c) == before + ([JoinThread(LOOP)] + rest);
      FlattenConcat(before, [JoinThread(LOOP)] + rest);
      FlattenConcat([JoinThread(LOOP)], rest);
      assert [JoinThread(LOOP)][1..] == [];
    case CloseFD(_, _) => before, next, tail := UnderCs(CallBlocks(c)[0].body);
    case ConnectFD(_, _, _) => before, next, tail := UnderCs(CallBlocks(c)[0].body);
    case SendData(_, _) => before, next, tail := UnderCs(CallBlocks(c)[0].body);
    case Refused => assert false;
  }

  lemma CreatorTakes(held: seq<Lock>)
    requires held == [Crit] || held == [Crit, ReadSig(7)]
    ensures var ops := Flatten(ConnectSlots(8)) + [Acquire(Cs)];
            After([], ops) == Some([Cs]) && Avoids(ops, held)
  {
    SlotsIndependent([], 8);
    AfterBlocks([], ConnectSlots(8), [Acquire(Cs)]);
    AfterAcquire([], Cs, []);
    assert [Acquire(Cs)] + [] == [Acquire(Cs)] && [] + [Cs] == [Cs];
    SlotsIndependent(held, 8);
    FlattenAvoids(ConnectSlots(8), held);
  }

  lemma CreatorBlocks(body: seq<Block>)
    requires body == [Touch(Crit), Touch(Wake)]
    ensures CallsBlocks([CreateFD(8, true)]) == ConnectSlots(8) + [With(Cs, body)]
  {
    var calls := [CreateFD(8, true)];
    assert calls[1..] == [] && CallsBlocks(calls) == CallBlocks(calls[0]) + [];
  }

  lemma FlattenTwo(body: seq<Block>)
    requires body == [Touch(Crit), Touch(Wake)]
    ensures Flatten(body) != [] && Flatten(body)[0] == Acquire(Crit)
  {
    assert body == [Touch(Crit)] + [Touch(Wake)];
    FlattenConcat([Touch(Crit)], [Touch(Wake)]);
    FlattenWith(Crit, []);
  }

  /** Another thread that creates a descriptor gets as far as the server's lock. */
  lemma CreatorShape(held: seq<Lock>) returns (ops: seq<Op>, rest: seq<Op>)
    requires held == [Crit] || held == [Crit, ReadSig(7)]
    ensures Flatten(CallsBlocks([CreateFD(8, true)])) == ops + rest
    ensures After([], ops) == Some([Cs]) && Avoids(ops, held)
    ensures rest != [] && rest[0] == Acquire(Crit)
  {
    var body := [Touch(Crit), Touch(Wake)];
    CreatorBlocks(body);
    FlattenConcat(ConnectSlots(8), [With(Cs, body)]);
    FlattenWith(Cs, body);
    var slots := Flatten(ConnectSlots(8));
    ops, rest := slots + [Acquire(Cs)], Flatten(body) + [Release(Cs)];
    Associative([Acquire(Cs)], Flatten(body), [Release(Cs)]);
    Associative(slots, [Acquire(Cs)], rest);
    CreatorTakes(held);
    FlattenTwo(body);
  }

  lemma Regroup(a: seq<Op>, b: seq<Op>, c: seq<Op>, d: seq<Op>)
    ensures a + ((b + c) + d) == (a + b) + (c + d)
  {}

  lemma Interlock(loopOps: seq<Op>, loopRest: seq<Op>, held: seq<Lock>, ops: seq<Op>, rest: seq<Op>)
    requires After([], loopOps) == Some(held) && Crit in held
    requires loopRest != [] && (loopRest[0] == Acquire(Cs) || loopRest[0] == Join(LOOP))
    requires After([], ops) == Some([Cs]) && Avoids(ops, held)
    requires rest != [] && rest[0] == Acquire(Crit)
    ensures exists schedule, s ::
              Reaches([Thread(loopOps + loopRest, []), Thread(ops + rest, [])], schedule, s) && Stuck(s)
  {
    var s0 := [Thread(loopOps + loopRest, []), Thread(ops + rest, [])];
    RunsAlone(s0, 0, loopOps, loopRest, held);
    var s1 := s0[0 := Thread(loopRest, held)];
    RunsAlone(s1, 1, ops, rest, [Cs]);
    var s2 := s1[1 := Thread(rest, [Cs])];
    ReachesThen(s0, Solo(0, |loopOps|), s1, Solo(1, |ops|), s2);
    assert Cs in s2[1].held && Crit in s2[0].held;
    assert HeldByOther(s2, 0, Cs) && HeldByOther(s2, 1, Crit);
    assert Stuck(s2);
  }

  /** The loop has the server's lock and wants cs_, or its own end; the creating thread
      has cs_ and wants the server's lock. */
  lemma CallbackGetsStuck(place: Place, c: Call)
    requires !Harmless(c)
    ensures exists schedule, s ::
              Reaches(Program([[OneCallback(place, CallBlocks(c))]], [[CreateFD(8, true)]]), schedule, s) && Stuck(s)
  {
    var held := HeldAt(place);
    var s0 := Program([[OneCallback(place, CallBlocks(c))]], [[CreateFD(8, true)]]);
    var tail := LoopShape(place, CallBlocks(c));
    var before, next, more := CallShape(c, held);
    var loopOps := Approach(place) + Flatten(before);
    var loopRest := [next] + more + tail;
    Regroup(Approach(place), Flatten(before), [next] + more, tail);
    AfterApproach(place, Flatten(before));
    AfterBlocks(held, before, []);
    assert Flatten(before) + [] == Flatten(before);
    var ops, rest := CreatorShape(held);
    assert s0 == [Thread(loopOps + loopRest, []), Thread(ops + rest, [])];
    Interlock(loopOps, loopRest, held, ops, rest);
  }

  /** A call from a callback of the loop can get the program stuck, with other threads
      that do no wrong, exactly when it is not harmless. */
  lemma CallbackStuckIff(place: Place, c: Call)
    ensures (exists apps, schedule, s ::
              && AllSafe([], apps)
              && Reaches(Program([[OneCallback(place, CallBlocks(c))]], apps), schedule, s) && Stuck(s))
            <==> !Harmless(c)
  {
    var rounds := [[OneCallback(place, CallBlocks(c))]];
    if Harmless(c) {
      CallInCallback(place, c);
      forall apps, schedule, s | AllSafe([], apps) && Reaches(Program(rounds, apps), schedule, s)
        ensures !Stuck(s)
      {
        assert HookSafe(rounds[0][0]);
        DeadlockFree(rounds, apps, schedule, s);
      }
    } else {
      CallbackGetsStuck(place, c);
      var schedule, s :| Reaches(Program(rounds, [[CreateFD(8, true)]]), schedule, s) && Stuck(s);
      assert AllSafe([], [[CreateFD(8, true)]]);
    }
  }

  /** When ConnectServiceWhitFD tells the delegate CONNECTED, every call is safe: the
      caller's own lock can be taken again, and the loop does not need it. */
  lemma CallInConnect(d: SocketId, errors: nat, c: Call)
    requires CallSafe(c)
    ensures CallSafe(ConnectFD(d, errors, CallBlocks(c)))
  {
    CallOrdered([Cs], c);
    CallJoins(c);
  }
}
