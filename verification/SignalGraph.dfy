/** The sigslot graph as a value: each signal's connection list and each
    receiver's sender set. The operations are those of signal1, _signal_base1 and
    has_slots; Sigslot.dfy performs them on objects. One arity stands for all. */
module SignalGraph {
  import opened Sequences

  /** A connection calls slot `slot` of `dest`. */
  datatype Conn<R> = Conn(dest: R, slot: int)

  datatype Graph<S, R> = Graph(conns: map<S, seq<Conn<R>>>, senders: map<R, set<S>>)

  // ---- Connection lists ---------------------------------------------------

  predicate Reaches<R(==)>(l: seq<Conn<R>>, r: R)
  {
    exists i :: 0 <= i < |l| && l[i].dest == r
  }

  function Count<R(==)>(l: seq<Conn<R>>, r: R): nat
  {
    if l == [] then 0 else (if l[0].dest == r then 1 else 0) + Count(l[1..], r)
  }

  /** disconnect erases the first connection to `r` only. */
  function WithoutFirst<R(==)>(l: seq<Conn<R>>, r: R): seq<Conn<R>>
  {
    if l == [] then [] else if l[0].dest == r then l[1..] else [l[0]] + WithoutFirst(l[1..], r)
  }

  /** slot_disconnect erases every connection to `r`. */
  function WithoutAll<R(==)>(l: seq<Conn<R>>, r: R): seq<Conn<R>>
  {
    if l == [] then [] else (if l[0].dest == r then [] else [l[0]]) + WithoutAll(l[1..], r)
  }

  /** What slot_duplicate appends: for each connection to `r` one to `q`, same slot. */
  function Duplicates<R(==)>(l: seq<Conn<R>>, r: R, q: R): seq<Conn<R>>
  {
    if l == [] then [] else (if l[0].dest == r then [Conn(q, l[0].slot)] else []) + Duplicates(l[1..], r, q)
  }

  lemma {:induction false} CountReaches<R>(l: seq<Conn<R>>, r: R)
    ensures Count(l, r) > 0 <==> Reaches(l, r)
  {
    if l != [] {
      CountReaches(l[1..], r);
      if Reaches(l[1..], r) {
        var i :| 0 <= i < |l[1..]| && l[1..][i].dest == r;
        assert l[i + 1].dest == r;
      }
      if Reaches(l, r) && l[0].dest != r {
        var i :| 0 <= i < |l| && l[i].dest == r;
        assert l[1..][i - 1].dest == r;
      }
    }
  }

  lemma {:induction false} CountConcat<R>(a: seq<Conn<R>>, b: seq<Conn<R>>, r: R)
    ensures Count(a + b, r) == Count(a, r) + Count(b, r)
  {
    if a == [] {
      assert a + b == b;
    } else {
      assert (a + b)[1..] == a[1..] + b;
      CountConcat(a[1..], b, r);
    }
  }

  lemma {:induction false} CountWithoutFirst<R>(l: seq<Conn<R>>, r: R, q: R)
    ensures Count(WithoutFirst(l, r), q) == if q == r && Count(l, r) > 0 then Count(l, q) - 1 else Count(l, q)
  {
    if l != [] && l[0].dest != r {
      CountWithoutFirst(l[1..], r, q);
      assert ([l[0]] + WithoutFirst(l[1..], r))[1..] == WithoutFirst(l[1..], r);
    }
  }

  lemma {:induction false} CountWithoutAll<R>(l: seq<Conn<R>>, r: R, q: R)
    ensures Count(WithoutAll(l, r), q) == if q == r then 0 else Count(l, q)
  {
    if l != [] {
      CountWithoutAll(l[1..], r, q);
      if l[0].dest != r {
        assert ([l[0]] + WithoutAll(l[1..], r))[1..] == WithoutAll(l[1..], r);
      } else {
        assert [] + WithoutAll(l[1..], r) == WithoutAll(l[1..], r);
      }
    }
  }

  lemma {:induction false} CountDuplicates<R>(l: seq<Conn<R>>, r: R, q: R, x: R)
    ensures Count(Duplicates(l, r, q), x) == if x == q then Count(l, r) else 0
  {
    if l != [] {
      CountDuplicates(l[1..], r, q, x);
      if l[0].dest == r {
        assert ([Conn(q, l[0].slot)] + Duplicates(l[1..], r, q))[1..] == Duplicates(l[1..], r, q);
      } else {
        assert [] + Duplicates(l[1..], r, q) == Duplicates(l[1..], r, q);
      }
    }
  }

  /** The slots a list calls on `r`, in order. */
  function SlotsOf<R(==)>(l: seq<Conn<R>>, r: R): seq<int>
  {
    if l == [] then [] else (if l[0].dest == r then [l[0].slot] else []) + SlotsOf(l[1..], r)
  }

  lemma {:induction false} SlotsConcat<R>(a: seq<Conn<R>>, b: seq<Conn<R>>, r: R)
    ensures SlotsOf(a + b, r) == SlotsOf(a, r) + SlotsOf(b, r)
  {
    if a == [] {
      assert a + b == b;
    } else {
      var h := if a[0].dest == r then [a[0].slot] else [];
      assert (a + b)[1..] == a[1..] + b && (a + b)[0] == a[0];
      SlotsConcat(a[1..], b, r);
      Associative(h, SlotsOf(a[1..], r), SlotsOf(b, r));
    }
  }

  lemma SlotsOne<R>(l: seq<Conn<R>>, r: R)
    requires |l| <= 1
    ensures SlotsOf(l, r) == if l != [] && l[0].dest == r then [l[0].slot] else []
  {
    if l != [] {
      assert l[1..] == [];
    }
  }

  lemma {:induction false} SlotsDuplicates<R>(l: seq<Conn<R>>, r: R, q: R, x: R)
    ensures SlotsOf(Duplicates(l, r, q), x) == if x == q then SlotsOf(l, r) else []
  {
    if l != [] {
      var first := if l[0].dest == r then [Conn(q, l[0].slot)] else [];
      SlotsDuplicates(l[1..], r, q, x);
      SlotsConcat(first, Duplicates(l[1..], r, q), x);
      SlotsOne(first, x);
    }
  }

  lemma {:induction false} SlotsNone<R>(l: seq<Conn<R>>, r: R)
    requires Count(l, r) == 0
    ensures SlotsOf(l, r) == []
  {
    if l != [] {
      SlotsNone(l[1..], r);
    }
  }

  // ---- Operations ---------------------------------------------------------

  datatype Action<S, R> =
    | NewSignal(s: S)
    | NewReceiver(r: R)
    | Connect(s: S, r: R, slot: int)
    | Disconnect(s: S, r: R)
    | ClearSignal(s: S)          // signal's disconnect_all
    | ClearReceiver(r: R)        // has_slots' disconnect_all
    | DeleteSignal(s: S)
    | DeleteReceiver(r: R)
    | CopySignal(s: S, t: S)     // t is constructed as a copy of s
    | CopyReceiver(r: R, q: R)   // q is constructed as a copy of r

  /** Operations use objects that exist, constructors make ones that do not. */
  predicate Enabled<S(==), R(==)>(g: Graph<S, R>, a: Action<S, R>)
  {
    match a
    case NewSignal(s) => s !in g.conns
    case NewReceiver(r) => r !in g.senders
    case Connect(s, r, _) => s in g.conns && r in g.senders
    case Disconnect(s, r) => s in g.conns && r in g.senders
    case ClearSignal(s) => s in g.conns
    case ClearReceiver(r) => r in g.senders
    case DeleteSignal(s) => s in g.conns
    case DeleteReceiver(r) => r in g.senders
    case CopySignal(s, t) => s in g.conns && t !in g.conns
    case CopyReceiver(r, q) => r in g.senders && q !in g.senders
  }

  /** Every receiver `l` reaches forgets, or learns, the signal `s`. */
  function Forget<S(==), R(==)>(senders: map<R, set<S>>, l: seq<Conn<R>>, s: S): map<R, set<S>>
  {
    map r | r in senders :: if Reaches(l, r) then senders[r] - {s} else senders[r]
  }

  function Learn<S(==), R(==)>(senders: map<R, set<S>>, l: seq<Conn<R>>, s: S): map<R, set<S>>
  {
    map r | r in senders :: if Reaches(l, r) then senders[r] + {s} else senders[r]
  }

  function ClearSignalOf<S(==), R(==)>(g: Graph<S, R>, s: S): Graph<S, R>
    requires s in g.conns
  {
    Graph(g.conns[s := []], Forget(g.senders, g.conns[s], s))
  }

  function ClearReceiverOf<S(==), R(==)>(g: Graph<S, R>, r: R): Graph<S, R>
    requires r in g.senders
  {
    Graph(map s | s in g.conns :: if s in g.senders[r] then WithoutAll(g.conns[s], r) else g.conns[s],
          g.senders[r := {}])
  }

  function Step<S(==), R(==)>(g: Graph<S, R>, a: Action<S, R>): Graph<S, R>
    requires Enabled(g, a)
  {
    match a
    case NewSignal(s) => g.(conns := g.conns[s := []])
    case NewReceiver(r) => g.(senders := g.senders[r := {}])
    case Connect(s, r, slot) =>
      Graph(g.conns[s := g.conns[s] + [Conn(r, slot)]], g.senders[r := g.senders[r] + {s}])
    case Disconnect(s, r) =>
      if Reaches(g.conns[s], r) then
        Graph(g.conns[s := WithoutFirst(g.conns[s], r)], g.senders[r := g.senders[r] - {s}])
      else g
    case ClearSignal(s) => ClearSignalOf(g, s)
    case ClearReceiver(r) => ClearReceiverOf(g, r)
    case DeleteSignal(s) => var h := ClearSignalOf(g, s); h.(conns := h.conns - {s})
    case DeleteReceiver(r) => var h := ClearReceiverOf(g, r); h.(senders := h.senders - {r})
    case CopySignal(s, t) =>
      Graph(g.conns[t := g.conns[s]], Learn(g.senders, g.conns[s], t))
    case CopyReceiver(r, q) =>
      Graph(map s | s in g.conns ::
              if s in g.senders[r] then g.conns[s] + Duplicates(g.conns[s], r, q) else g.conns[s],
            g.senders[q := g.senders[r]])
  }

  // ---- Consistency --------------------------------------------------------

  /** Nothing refers to an object that does not exist (any more). */
  ghost predicate NoDangling<S, R>(g: Graph<S, R>)
  {
    && (forall s :: s in g.conns ==> forall c :: c in g.conns[s] ==> c.dest in g.senders)
    && (forall r :: r in g.senders ==> g.senders[r] <= g.conns.Keys)
  }

  /** A sender a receiver remembers has a connection to it. */
  ghost predicate SendersConnect<S, R>(g: Graph<S, R>)
  {
    forall r, s :: r in g.senders && s in g.senders[r] && s in g.conns ==> Count(g.conns[s], r) > 0
  }

  /** A receiver remembers every signal with a connection to it. */
  ghost predicate ConnectionsKnown<S, R>(g: Graph<S, R>)
  {
    forall s, r :: s in g.conns && r in g.senders && Count(g.conns[s], r) > 0 ==> s in g.senders[r]
  }

  ghost predicate Consistent<S, R>(g: Graph<S, R>)
  {
    NoDangling(g) && SendersConnect(g) && ConnectionsKnown(g)
  }

  lemma {:induction false} WithoutFirstKeeps<R>(l: seq<Conn<R>>, r: R)
    ensures forall c :: c in WithoutFirst(l, r) ==> c in l
  {
    if l != [] {
      WithoutFirstKeeps(l[1..], r);
    }
  }

  lemma {:induction false} WithoutAllKeeps<R>(l: seq<Conn<R>>, r: R)
    ensures forall c :: c in WithoutAll(l, r) ==> c in l && c.dest != r
  {
    if l != [] {
      WithoutAllKeeps(l[1..], r);
    }
  }

  lemma {:induction false} DuplicatesKeep<R>(l: seq<Conn<R>>, r: R, q: R)
    ensures forall c :: c in Duplicates(l, r, q) ==> c.dest == q
  {
    if l != [] {
      DuplicatesKeep(l[1..], r, q);
    }
  }

  lemma MemberCount<R>(l: seq<Conn<R>>, r: R)
    ensures Count(l, r) > 0 <==> exists c :: c in l && c.dest == r
  {
    CountReaches(l, r);
    if c :| c in l && c.dest == r {
      var i :| 0 <= i < |l| && l[i] == c;
      assert Reaches(l, r);
    }
    if Reaches(l, r) {
      var i :| 0 <= i < |l| && l[i].dest == r;
      assert l[i] in l;
    }
  }

  // ---- What each operation keeps ------------------------------------------

  lemma NewSignalKeeps<S, R>(g: Graph<S, R>, s: S)
    requires Consistent(g) && s !in g.conns
    ensures Consistent(Step(g, NewSignal(s)))
  {}

  lemma NewReceiverKeeps<S, R>(g: Graph<S, R>, r: R)
    requires Consistent(g) && r !in g.senders
    ensures Consistent(Step(g, NewReceiver(r)))
  {
    forall s | s in g.conns
      ensures Count(g.conns[s], r) == 0
    {
      MemberCount(g.conns[s], r);
    }
  }

  lemma ConnectKeeps<S, R>(g: Graph<S, R>, s: S, r: R, slot: int)
    requires Consistent(g) && s in g.conns && r in g.senders
    ensures Consistent(Step(g, Connect(s, r, slot)))
  {
    forall q | q in g.senders
      ensures Count(g.conns[s] + [Conn(r, slot)], q) == Count(g.conns[s], q) + (if q == r then 1 else 0)
    {
      CountConcat(g.conns[s], [Conn(r, slot)], q);
      assert [Conn(r, slot)][1..] == [];
      assert Count([Conn(r, slot)], q) == if q == r then 1 else 0;
    }
  }

  /** disconnect forgets the sender after erasing one connection, so it keeps the
      graph consistent exactly when there was no second one. */
  lemma DisconnectKeeps<S, R>(g: Graph<S, R>, s: S, r: R)
    requires Consistent(g) && s in g.conns && r in g.senders
    ensures Consistent(Step(g, Disconnect(s, r))) <==> Count(g.conns[s], r) <= 1
  {
    var l := g.conns[s];
    var h := Step(g, Disconnect(s, r));
    CountReaches(l, r);
    if Reaches(l, r) {
      WithoutFirstKeeps(l, r);
      forall q | q in g.senders
        ensures Count(h.conns[s], q) == if q == r then Count(l, r) - 1 else Count(l, q)
      {
        CountWithoutFirst(l, r, q);
      }
      if Count(l, r) > 1 {
        assert s in h.conns && Count(h.conns[s], r) > 0 && s !in h.senders[r];
      }
    }
  }

  lemma ClearSignalKeeps<S, R>(g: Graph<S, R>, s: S)
    requires Consistent(g) && s in g.conns
    ensures Consistent(ClearSignalOf(g, s))
    ensures forall r :: r in g.senders ==> s !in ClearSignalOf(g, s).senders[r]
  {
    forall r | r in g.senders
      ensures Count(g.conns[s], r) > 0 <==> Reaches(g.conns[s], r)
    {
      CountReaches(g.conns[s], r);
    }
  }

  lemma ClearReceiverKeeps<S, R>(g: Graph<S, R>, r: R)
    requires Consistent(g) && r in g.senders
    ensures Consistent(ClearReceiverOf(g, r))
    ensures forall s :: s in g.conns ==> forall c :: c in ClearReceiverOf(g, r).conns[s] ==> c.dest != r
  {
    var h := ClearReceiverOf(g, r);
    forall s | s in g.conns
      ensures forall c :: c in h.conns[s] ==> c in g.conns[s] && c.dest != r
      ensures forall q :: q in g.senders ==> Count(h.conns[s], q) == if q == r then 0 else Count(g.conns[s], q)
    {
      WithoutAllKeeps(g.conns[s], r);
      MemberCount(g.conns[s], r);
      forall q | q in g.senders
        ensures Count(h.conns[s], q) == if q == r then 0 else Count(g.conns[s], q)
      {
        CountWithoutAll(g.conns[s], r, q);
      }
    }
  }

  lemma CopySignalKeeps<S, R>(g: Graph<S, R>, s: S, t: S)
    requires Consistent(g) && s in g.conns && t !in g.conns
    ensures Consistent(Step(g, CopySignal(s, t)))
  {
    forall r | r in g.senders
      ensures Count(g.conns[s], r) > 0 <==> Reaches(g.conns[s], r)
      ensures t !in g.senders[r]
    {
      CountReaches(g.conns[s], r);
    }
  }

  lemma CopyReceiverKeeps<S, R>(g: Graph<S, R>, r: R, q: R)
    requires Consistent(g) && r in g.senders && q !in g.senders
    ensures Consistent(Step(g, CopyReceiver(r, q)))
  {
    var h := Step(g, CopyReceiver(r, q));
    forall s | s in g.conns
      ensures Count(g.conns[s], q) == 0
      ensures forall c :: c in h.conns[s] ==> c.dest in h.senders
      ensures forall x :: x in h.senders ==>
                Count(h.conns[s], x) == if x == q && s in g.senders[r] then Count(g.conns[s], r) else Count(g.conns[s], x)
    {
      var d := Duplicates(g.conns[s], r, q);
      DuplicatesKeep(g.conns[s], r, q);
      MemberCount(g.conns[s], q);
      forall x | x in h.senders
        ensures Count(h.conns[s], x) == if x == q && s in g.senders[r] then Count(g.conns[s], r) else Count(g.conns[s], x)
      {
        CountConcat(g.conns[s], d, x);
        CountDuplicates(g.conns[s], r, q, x);
      }
    }
  }

  /** The one thing a caller has to see to. */
  predicate Careful<S(==), R(==)>(g: Graph<S, R>, a: Action<S, R>)
    requires Enabled(g, a)
  {
    a.Disconnect? ==> Count(g.conns[a.s], a.r) <= 1
  }

  /** An operation keeps the graph consistent exactly when it is not a disconnect
      of a receiver connected twice to that signal. */
  lemma StepKeeps<S, R>(g: Graph<S, R>, a: Action<S, R>)
    requires Consistent(g) && Enabled(g, a)
    ensures Consistent(Step(g, a)) <==> Careful(g, a)
  {
    match a
    case Connect(s, r, slot) => ConnectKeeps(g, s, r, slot);
    case Disconnect(s, r) => DisconnectKeeps(g, s, r);
    case ClearSignal(s) => ClearSignalKeeps(g, s);
    case ClearReceiver(r) => ClearReceiverKeeps(g, r);
    case DeleteSignal(s) => ClearSignalKeeps(g, s);
    case DeleteReceiver(r) => ClearReceiverKeeps(g, r);
    case CopySignal(s, t) => CopySignalKeeps(g, s, t);
    case CopyReceiver(r, q) => CopyReceiverKeeps(g, r, q);
    case NewSignal(s) => NewSignalKeeps(g, s);
    case NewReceiver(r) => NewReceiverKeeps(g, r);
  }

  // ---- Main results -------------------------------------------------------

  /** A run of actions, each on objects that exist (or, constructed, do not yet). */
  ghost predicate Runs<S, R>(g: Graph<S, R>, acts: seq<Action<S, R>>)
    decreases |acts|
  {
    acts == [] || (Enabled(g, acts[0]) && Runs(Step(g, acts[0]), acts[1..]))
  }

  ghost function After<S, R>(g: Graph<S, R>, acts: seq<Action<S, R>>): Graph<S, R>
    requires Runs(g, acts)
    decreases |acts|
  {
    if acts == [] then g else After(Step(g, acts[0]), acts[1..])
  }

  ghost predicate CarefulRun<S, R>(g: Graph<S, R>, acts: seq<Action<S, R>>)
    requires Runs(g, acts)
    decreases |acts|
  {
    acts == [] || (Careful(g, acts[0]) && CarefulRun(Step(g, acts[0]), acts[1..]))
  }

  ghost predicate ConsistentThroughout<S, R>(g: Graph<S, R>, acts: seq<Action<S, R>>)
    requires Runs(g, acts)
    decreases |acts|
  {
    && Consistent(g)
    && (acts != [] ==> ConsistentThroughout(Step(g, acts[0]), acts[1..]))
  }

  /** Along a run from a consistent graph the two structures agree in both
      directions, and refer to no destroyed object, exactly when no disconnect
      names a receiver connected twice at that moment. */
  lemma {:induction false} ConsistentAlways<S, R>(g: Graph<S, R>, acts: seq<Action<S, R>>)
    requires Consistent(g) && Runs(g, acts)
    ensures CarefulRun(g, acts) <==> ConsistentThroughout(g, acts)
    ensures CarefulRun(g, acts) ==> Consistent(After(g, acts))
    decreases |acts|
  {
    if acts != [] {
      StepKeeps(g, acts[0]);
      if Careful(g, acts[0]) {
        ConsistentAlways(Step(g, acts[0]), acts[1..]);
      }
    }
  }

  /** The half that survives even careless runs: a remembered sender exists and has
      a connection to the receiver that remembers it. */
  ghost predicate Backed<S, R>(g: Graph<S, R>)
  {
    && (forall r :: r in g.senders ==> g.senders[r] <= g.conns.Keys)
    && SendersConnect(g)
  }

  lemma StepCounts<S, R>(g: Graph<S, R>, a: Action<S, R>, s: S, r: R)
    requires Backed(g) && Enabled(g, a)
    requires r in Step(g, a).senders && s in Step(g, a).senders[r] && s in Step(g, a).conns
    ensures Count(Step(g, a).conns[s], r) > 0
  {
    match a
    case Connect(s', r', slot) =>
      CountConcat(g.conns[s'], [Conn(r', slot)], r);
    case Disconnect(s', r') => CountWithoutFirst(g.conns[s'], r', r);
    case ClearSignal(s') => CountReaches(g.conns[s'], r);
    case ClearReceiver(r') => CountWithoutAll(g.conns[s], r', r);
    case DeleteSignal(s') =>
    case DeleteReceiver(r') => CountWithoutAll(g.conns[s], r', r);
    case CopySignal(s', t) => CountReaches(g.conns[s'], r);
    case CopyReceiver(r', q) =>
      CountConcat(g.conns[s], Duplicates(g.conns[s], r', q), r);
      CountDuplicates(g.conns[s], r', q, r);
    case _ =>
  }

  lemma StepKeepsBacked<S, R>(g: Graph<S, R>, a: Action<S, R>)
    requires Backed(g) && Enabled(g, a)
    ensures Backed(Step(g, a))
  {
    var h := Step(g, a);
    forall r, s | r in h.senders && s in h.senders[r] && s in h.conns
      ensures Count(h.conns[s], r) > 0
    {
      StepCounts(g, a, s, r);
    }
    if a.DeleteSignal? {
      forall r | r in g.senders
        ensures a.s !in h.senders[r]
      {
        CountReaches(g.conns[a.s], r);
      }
    }
  }

  /** A signal in a receiver's sender set has a connection to that receiver, after any
      run at all. The model's run goes on where a careless one has called a destroyed
      object, after which the code has no defined behaviour. */
  lemma {:induction false} SendersAlwaysConnect<S, R>(g: Graph<S, R>, acts: seq<Action<S, R>>)
    requires Backed(g) && Runs(g, acts)
    ensures Backed(After(g, acts))
    decreases |acts|
  {
    if acts != [] {
      StepKeepsBacked(g, acts[0]);
      SendersAlwaysConnect(Step(g, acts[0]), acts[1..]);
    }
  }

  /** What holds of a program's runs, which start with no signals and no receivers. */
  lemma RunsFromEmpty<S, R>(empty: Graph<S, R>, acts: seq<Action<S, R>>)
    requires empty == Graph(map[], map[]) && Runs(empty, acts)
    ensures CarefulRun(empty, acts) <==> ConsistentThroughout(empty, acts)
    ensures CarefulRun(empty, acts) ==> Consistent(After(empty, acts))
    ensures Backed(After(empty, acts))
  {
    ConsistentAlways(empty, acts);
    SendersAlwaysConnect(empty, acts);
  }

  /** The objects an operation calls into: receivers of a cleared or copied signal,
      senders of a cleared or copied receiver. All must exist still. */
  ghost predicate CallsLiveObjects<S, R>(g: Graph<S, R>, a: Action<S, R>)
    requires Enabled(g, a)
  {
    match a
    case ClearSignal(s) => forall c :: c in g.conns[s] ==> c.dest in g.senders
    case DeleteSignal(s) => forall c :: c in g.conns[s] ==> c.dest in g.senders
    case CopySignal(s, _) => forall c :: c in g.conns[s] ==> c.dest in g.senders
    case ClearReceiver(r) => g.senders[r] <= g.conns.Keys
    case DeleteReceiver(r) => g.senders[r] <= g.conns.Keys
    case CopyReceiver(r, _) => g.senders[r] <= g.conns.Keys
    case _ => true
  }

  /** In a careful run no operation calls a destroyed object. */
  lemma NothingDeadIsCalled<S, R>(g: Graph<S, R>, acts: seq<Action<S, R>>, a: Action<S, R>)
    requires Consistent(g) && Runs(g, acts) && CarefulRun(g, acts)
    requires Enabled(After(g, acts), a)
    ensures CallsLiveObjects(After(g, acts), a)
  {
    ConsistentAlways(g, acts);
  }

  /** After its destructor a receiver is the target of no connection, and after its
      own no signal is among anybody's senders. */
  lemma DestroyedIsForgotten<S, R>(g: Graph<S, R>)
    requires Consistent(g)
    ensures forall r :: r in g.senders ==>
              forall s :: s in g.conns ==>
                forall c :: c in Step(g, DeleteReceiver(r)).conns[s] ==> c.dest != r
    ensures forall s :: s in g.conns ==>
              forall r :: r in g.senders ==> s !in Step(g, DeleteSignal(s)).senders[r]
  {
    forall r | r in g.senders
      ensures forall s :: s in g.conns ==>
                forall c :: c in Step(g, DeleteReceiver(r)).conns[s] ==> c.dest != r
    {
      ClearReceiverKeeps(g, r);
    }
    forall s | s in g.conns
      ensures forall r :: r in g.senders ==> s !in Step(g, DeleteSignal(s)).senders[r]
    {
      ClearSignalKeeps(g, s);
    }
  }

  /** Whether signal and receiver are new with this operation. */
  predicate Made<S(==), R(==)>(a: Action<S, R>, s: S, r: R)
  {
    (a.NewSignal? && a.s == s) || (a.NewReceiver? && a.r == r)
  }

  lemma {:induction false} SlotsCount<R>(l: seq<Conn<R>>, r: R)
    ensures |SlotsOf(l, r)| == Count(l, r)
  {
    if l != [] {
      SlotsCount(l[1..], r);
    }
  }

  lemma SlotsNoneIff<R>(l: seq<Conn<R>>, r: R)
    ensures SlotsOf(l, r) == [] <==> Count(l, r) == 0
  {
    SlotsCount(l, r);
  }

  lemma {:induction false} SlotsWithoutFirst<R>(l: seq<Conn<R>>, r: R, x: R)
    ensures SlotsOf(WithoutFirst(l, r), x) ==
            if x == r && SlotsOf(l, r) != [] then SlotsOf(l, r)[1..] else SlotsOf(l, x)
  {
    if l != [] {
      if l[0].dest == r {
        assert SlotsOf(l, r) == [l[0].slot] + SlotsOf(l[1..], r);
      } else {
        SlotsWithoutFirst(l[1..], r, x);
        SlotsConcat([l[0]], WithoutFirst(l[1..], r), x);
        SlotsOne([l[0]], x);
      }
    }
  }

  lemma {:induction false} SlotsWithoutAll<R>(l: seq<Conn<R>>, r: R, x: R)
    ensures SlotsOf(WithoutAll(l, r), x) == if x == r then [] else SlotsOf(l, x)
  {
    if l != [] {
      var first := if l[0].dest == r then [] else [l[0]];
      SlotsWithoutAll(l[1..], r, x);
      SlotsConcat(first, WithoutAll(l[1..], r), x);
      SlotsOne(first, x);
    }
  }

  lemma ClearedSlots<S, R>(g: Graph<S, R>, r: R, s: S, x: R)
    requires Consistent(g) && r in g.senders && s in g.conns && x in g.senders
    ensures SlotsOf(ClearReceiverOf(g, r).conns[s], x) == if x == r then [] else SlotsOf(g.conns[s], x)
  {
    SlotsWithoutAll(g.conns[s], r, x);
    if s !in g.senders[r] && x == r {
      SlotsNone(g.conns[s], r);
    }
  }

  /** The slots of `r` that `s` calls after an operation, in terms of those before:
      connect adds one at the end, disconnect takes the first, clearing and destroying
      take all that are concerned, a copy calls what its original calls or is called on
      what its original is called on, and nothing else changes. */
  lemma StepCalls<S, R>(g: Graph<S, R>, a: Action<S, R>, s: S, r: R)
    requires Consistent(g) && Enabled(g, a)
    requires s in Step(g, a).conns && r in Step(g, a).senders
    ensures var now := SlotsOf(Step(g, a).conns[s], r);
            if Made(a, s, r) then now == []
            else if a.CopySignal? && a.t == s then now == SlotsOf(g.conns[a.s], r)
            else if a.CopyReceiver? && a.q == r then now == SlotsOf(g.conns[s], a.r)
            else
              && s in g.conns
              && var was := SlotsOf(g.conns[s], r);
                 match a
                 case Connect(s', r', slot) => now == if s == s' && r == r' then was + [slot] else was
                 case Disconnect(s', r') => now == if s == s' && r == r' && was != [] then was[1..] else was
                 case ClearSignal(s') => now == if s == s' then [] else was
                 case ClearReceiver(r') => now == if r == r' then [] else was
                 case _ => now == was
  {
    match a
    case NewReceiver(r') =>
      if r == r' {
        MemberCount(g.conns[s], r);
        SlotsNone(g.conns[s], r);
      }
    case Connect(s', r', slot) =>
      SlotsConcat(g.conns[s'], [Conn(r', slot)], r);
      SlotsOne([Conn(r', slot)], r);
    case Disconnect(s', r') =>
      CountReaches(g.conns[s'], r');
      SlotsWithoutFirst(g.conns[s'], r', r);
      SlotsNoneIff(g.conns[s'], r);
    case ClearReceiver(r') =>
      ClearedSlots(g, r', s, r);
    case DeleteReceiver(r') =>
      ClearedSlots(g, r', s, r);
    case CopyReceiver(r', q) =>
      MemberCount(g.conns[s], q);
      SlotsNone(g.conns[s], q);
      SlotsConcat(g.conns[s], Duplicates(g.conns[s], r', q), r);
      SlotsDuplicates(g.conns[s], r', q, r);
      if s !in g.senders[r'] {
        SlotsNone(g.conns[s], r');
      }
    case _ =>
  }

  /** A copied receiver is called by exactly the signals that call the original,
      on the same slots in the same order; nobody else's calls change. */
  lemma CopyReceiverCalls<S, R>(g: Graph<S, R>, r: R, q: R, s: S, x: R)
    requires Consistent(g) && r in g.senders && q !in g.senders && s in g.conns && x in g.senders
    ensures var h := Step(g, CopyReceiver(r, q));
            && SlotsOf(h.conns[s], q) == SlotsOf(g.conns[s], r)
            && SlotsOf(h.conns[s], x) == SlotsOf(g.conns[s], x)
  {
    var l := g.conns[s];
    var d := Duplicates(l, r, q);
    MemberCount(l, q);
    SlotsNone(l, q);
    SlotsConcat(l, d, q);
    SlotsConcat(l, d, x);
    SlotsDuplicates(l, r, q, q);
    SlotsDuplicates(l, r, q, x);
    if s !in g.senders[r] {
      SlotsNone(l, r);
    }
  }

  /** A copied signal makes the original's calls. */
  lemma CopySignalCalls<S, R>(g: Graph<S, R>, s: S, t: S)
    requires Consistent(g) && s in g.conns && t !in g.conns
    ensures var h := Step(g, CopySignal(s, t));
            && h.conns[t] == h.conns[s] == g.conns[s]
            && forall r :: r in g.senders ==> (t in h.senders[r] <==> s in h.senders[r])
  {
    forall r | r in g.senders
      ensures Reaches(g.conns[s], r) <==> s in g.senders[r]
    {
      CountReaches(g.conns[s], r);
    }
    assert forall r :: r in g.senders ==> t !in g.senders[r];
  }

  /** A signal 1 and a receiver 2 that is connected to it twice. */
  const TWICE: Graph<int, int> := Graph(map[1 := [Conn(2, 0), Conn(2, 5)]], map[2 := {1}])

  const CONNECT_TWICE: seq<Action<int, int>> :=
    [NewSignal(1), NewReceiver(2), Connect(1, 2, 0), Connect(1, 2, 5)]

  lemma RunsFirst<S, R>(g: Graph<S, R>, a: Action<S, R>, rest: seq<Action<S, R>>)
    requires Enabled(g, a) && Runs(Step(g, a), rest)
    ensures Runs(g, [a] + rest) && After(g, [a] + rest) == After(Step(g, a), rest)
  {
    assert ([a] + rest)[1..] == rest;
  }

  lemma TwiceIsReached()
    ensures var empty: Graph<int, int> := Graph(map[], map[]);
            Runs(empty, CONNECT_TWICE) && After(empty, CONNECT_TWICE) == TWICE
  {
    var empty: Graph<int, int> := Graph(map[], map[]);
    var g1 := Step(empty, NewSignal(1));
    var g2 := Step(g1, NewReceiver(2));
    var g3 := Step(g2, Connect(1, 2, 0));
    var g4 := Step(g3, Connect(1, 2, 5));
    assert g4.conns[1] == ([] + [Conn(2, 0)]) + [Conn(2, 5)] == [Conn(2, 0), Conn(2, 5)];
    assert g4.senders[2] == ({} + {1}) + {1} == {1};
    assert g4.conns == TWICE.conns && g4.senders == TWICE.senders;
    var a3 := [Connect(1, 2, 5)] + [];
    var a2 := [Connect(1, 2, 0)] + a3;
    var a1 := [NewReceiver(2)] + a2;
    RunsFirst(g3, Connect(1, 2, 5), []);
    RunsFirst(g2, Connect(1, 2, 0), a3);
    RunsFirst(g1, NewReceiver(2), a2);
    RunsFirst(empty, NewSignal(1), a1);
    assert CONNECT_TWICE == [NewSignal(1)] + a1;
  }

  lemma TwiceIsConsistent()
    ensures Consistent(TWICE)
  {
    var l := TWICE.conns[1];
    assert l[0].dest == 2 && Reaches(l, 2);
    CountReaches(l, 2);
  }

  /** The proviso is needed: from an empty graph connect twice, disconnect, and destroy
      the receiver, and the signal keeps a connection to it. */
  lemma DoubleConnectDangles()
    ensures var empty: Graph<int, int> := Graph(map[], map[]);
            && Runs(empty, CONNECT_TWICE)
            && var g := After(empty, CONNECT_TWICE);
               && Consistent(g) && Enabled(g, Disconnect(1, 2)) && !Careful(g, Disconnect(1, 2))
               && var h := Step(Step(g, Disconnect(1, 2)), DeleteReceiver(2));
                  h.conns[1] == [Conn(2, 5)] && 2 !in h.senders
  {
    TwiceIsReached();
    var l := TWICE.conns[1];
    assert l[1..] == [Conn(2, 5)] && l[1..][1..] == [];
    assert Count(l, 2) == 2;
    assert Reaches(l, 2) by {
      assert l[0].dest == 2;
    }
    TwiceIsConsistent();
    var d := Step(TWICE, Disconnect(1, 2));
    assert d.conns[1] == [Conn(2, 5)] && d.senders[2] == {};
  }
}
