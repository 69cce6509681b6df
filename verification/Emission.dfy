/** signal1::emit over a list that its own callbacks change. A node of the list is
    named by its identity, so that a node that was freed stays distinguishable. The
    callbacks are a script: the k-th call performs the k-th edit, later ones none. */
module Emission {
  import opened Sequences
  import opened Wrappers

  type Id = nat

  /** What one callback does to the signal that calls it. */
  datatype Edit = Edit(erased: set<Id>, added: seq<Id>)

  function EditAt(edits: seq<Edit>, k: nat): Edit
  {
    if k < |edits| then edits[k] else Edit({}, [])
  }

  /** What the first `k` calls append, in order. */
  function Added(edits: seq<Edit>, k: nat): seq<Id>
  {
    if k == 0 then [] else Added(edits, k - 1) + EditAt(edits, k - 1).added
  }

  /** Every node there is ever to be is a different one. */
  ghost predicate FreshNodes(nodes: seq<Id>, edits: seq<Edit>)
  {
    forall k: nat :: NoDuplicates(nodes + Added(edits, k))
  }

  function Without(s: seq<Id>, erased: set<Id>): (r: seq<Id>)
    ensures forall x :: x in r <==> x in s && x !in erased
  {
    if s == [] then [] else (if s[0] in erased then [] else [s[0]]) + Without(s[1..], erased)
  }

  lemma {:induction false} WithoutConcat(a: seq<Id>, b: seq<Id>, erased: set<Id>)
    ensures Without(a + b, erased) == Without(a, erased) + Without(b, erased)
  {
    if a == [] {
      assert a + b == b;
    } else {
      assert (a + b)[1..] == a[1..] + b && (a + b)[0] == a[0];
      WithoutConcat(a[1..], b, erased);
      var h := if a[0] in erased then [] else [a[0]];
      assert h + (Without(a[1..], erased) + Without(b, erased)) == (h + Without(a[1..], erased)) + Without(b, erased);
    }
  }

  lemma {:induction false} WithoutNone(s: seq<Id>, erased: set<Id>)
    requires forall x :: x in s ==> x !in erased
    ensures Without(s, erased) == s
  {
    if s != [] {
      assert s[0] in s;
      WithoutNone(s[1..], erased);
    }
  }

  lemma {:induction false} WithoutDistinct(s: seq<Id>, erased: set<Id>)
    requires NoDuplicates(s)
    ensures NoDuplicates(Without(s, erased))
  {
    if s != [] {
      WithoutDistinct(s[1..], erased);
      assert s[0] !in s[1..];
    }
  }

  function Index(list: seq<Id>, x: Id): (i: nat)
    ensures i <= |list|
    ensures i < |list| ==> list[i] == x
    ensures i == |list| ==> x !in list
    ensures forall j :: 0 <= j < i ==> list[j] != x
  {
    if list == [] then 0 else if list[0] == x then 0 else 1 + Index(list[1..], x)
  }

  /** The iterator after the one at `x`, end() being None. */
  function Following(list: seq<Id>, x: Id): Option<Id>
    requires x in list
  {
    if Index(list, x) + 1 < |list| then Some(list[Index(list, x) + 1]) else None
  }

  method Next(list: seq<Id>, it: Id) returns (next: Option<Id>)
    requires it in list
    ensures next == Following(list, it)
  {
    var i := 0;
    while list[i] != it
      invariant 0 <= i < |list|
      invariant forall j :: 0 <= j < i ==> list[j] != it
      invariant i <= Index(list, it) < |list|
      decreases |list| - i
    {
      i := i + 1;
    }
    next := if i + 1 < |list| then Some(list[i + 1]) else None;
  }

  /** What an edit makes of the list. */
  function Edited(list: seq<Id>, e: Edit): seq<Id>
  {
    Without(list, e.erased) + e.added
  }

  lemma EditKeeps(list: seq<Id>, all: seq<Id>, e: Edit)
    requires NoDuplicates(list) && NoDuplicates(all + e.added)
    requires forall x :: x in list ==> x in all
    ensures NoDuplicates(Edited(list, e))
    ensures forall x :: x in Edited(list, e) ==> x in all + e.added
    ensures forall x :: x in list ==> (x in Edited(list, e) <==> x !in e.erased)
  {
    WithoutDistinct(list, e.erased);
    var kept := Without(list, e.erased);
    forall i, j | 0 <= i < |all| && 0 <= j < |e.added|
      ensures all[i] != e.added[j]
    {
      assert (all + e.added)[i] == all[i];
      assert (all + e.added)[|all| + j] == e.added[j];
    }
    forall i, j | 0 <= i < j < |Edited(list, e)|
      ensures Edited(list, e)[i] != Edited(list, e)[j]
    {
      if j < |kept| {
        assert kept[i] != kept[j];
      } else if i < |kept| {
        assert kept[i] in all;
      } else {
        assert (all + e.added)[|all| + (i - |kept|)] == e.added[i - |kept|];
        assert (all + e.added)[|all| + (j - |kept|)] == e.added[j - |kept|];
      }
    }
  }

  lemma NoEdit(list: seq<Id>, edits: seq<Edit>, k: nat)
    requires k >= |edits|
    ensures Edited(list, EditAt(edits, k)) == list
  {
    WithoutNone(list, {});
  }

  /** A callback at `x` that erases nothing behind `x`. */
  lemma SparingEdit(done: seq<Id>, x: Id, rest: seq<Id>, e: Edit)
    requires forall y :: y in rest ==> y !in e.erased
    ensures Edited(done + ([x] + rest), e) == Without(done + [x], e.erased) + (rest + e.added)
  {
    Associative(done, [x], rest);
    WithoutConcat(done + [x], rest, e.erased);
    WithoutNone(rest, e.erased);
    Associative(Without(done + [x], e.erased), rest, e.added);
  }

  /** Every node that was ever in the list when `k` calls have been made. */
  function Nodes(nodes: seq<Id>, edits: seq<Edit>, k: nat): seq<Id>
  {
    nodes + Added(edits, k)
  }

  lemma NodesMore(nodes: seq<Id>, edits: seq<Edit>, k: nat)
    ensures Nodes(nodes, edits, k + 1) == Nodes(nodes, edits, k) + EditAt(edits, k).added
    ensures Nodes(nodes, edits, 0) == nodes
  {
    Associative(nodes, Added(edits, k), EditAt(edits, k).added);
  }

  /** What is in the list after `k` calls. */
  function ListAfter(nodes: seq<Id>, edits: seq<Edit>, k: nat): seq<Id>
  {
    if k == 0 then nodes else Edited(ListAfter(nodes, edits, k - 1), EditAt(edits, k - 1))
  }

  // ---- The condition -------------------------------------------------------

  /** Nothing behind position `k` is erased. */
  predicate Spares(all: seq<Id>, k: nat, erased: set<Id>)
  {
    forall i :: k < i < |all| ==> all[i] !in erased
  }

  /** The k-th callback erases no connection that has not been called. */
  predicate SparesAt(nodes: seq<Id>, edits: seq<Edit>, k: nat)
  {
    Spares(Nodes(nodes, edits, k), k, EditAt(edits, k).erased)
  }

  /** There is a k-th call if every connection has its turn: itNext was read before the
      call before it, so that one's additions come too late for it. */
  predicate Turn(nodes: seq<Id>, edits: seq<Edit>, k: nat)
  {
    if k == 0 then nodes != [] else Turn(nodes, edits, k - 1) && k < |Nodes(nodes, edits, k - 1)|
  }

  /** Each callback, at its turn, spares the connections that have not been called: it
      may erase its own and any called before. */
  ghost predicate Considerate(nodes: seq<Id>, edits: seq<Edit>)
  {
    forall k: nat :: Turn(nodes, edits, k) ==> SparesAt(nodes, edits, k)
  }

  lemma {:induction false} TurnsBefore(nodes: seq<Id>, edits: seq<Edit>, k: nat, j: nat)
    requires Turn(nodes, edits, k) && j <= k
    ensures Turn(nodes, edits, j)
    decreases k
  {
    if j < k {
      TurnsBefore(nodes, edits, k - 1, j);
    }
  }

  /** Callbacks that disconnect at most their own connection are considerate, and so are
      those that disconnect only connections called already. */
  lemma ErasingCalledIsConsiderate(nodes: seq<Id>, edits: seq<Edit>)
    requires FreshNodes(nodes, edits)
    requires forall k: nat :: Turn(nodes, edits, k) ==>
               forall y :: y in EditAt(edits, k).erased ==> y !in Nodes(nodes, edits, k) || y in Nodes(nodes, edits, k)[..k + 1]
    ensures Considerate(nodes, edits)
  {
    forall k: nat | Turn(nodes, edits, k)
      ensures SparesAt(nodes, edits, k)
    {
      var all := Nodes(nodes, edits, k);
      assert NoDuplicates(nodes + Added(edits, k));
      forall i | k < i < |all|
        ensures all[i] !in EditAt(edits, k).erased
      {
        assert all[i] in all && all[i] !in all[..k + 1];
      }
    }
  }

  // ---- One turn of the loop ------------------------------------------------

  lemma NextIsLater(list: seq<Id>, x: Id, next: Option<Id>)
    requires NoDuplicates(list) && x in list && next == Following(list, x)
    ensures next.Some? ==> next.value in list && next.value != x && Index(list, next.value) == Index(list, x) + 1
  {}

  /** itNext is the connection called next, unless the callback freed it. */
  ghost predicate Walks(calls: seq<Id>, saved: seq<Option<Id>>)
  {
    && |saved| == |calls|
    && forall k :: 0 <= k < |calls| - 1 ==> saved[k] == Some(calls[k + 1])
  }

  ghost predicate NoneFreed(saved: seq<Option<Id>>, edits: seq<Edit>)
  {
    forall k :: 0 <= k < |saved| && saved[k].Some? ==> saved[k].value !in EditAt(edits, k).erased
  }

  lemma NoneFreedMore(saved: seq<Option<Id>>, next: Option<Id>, edits: seq<Edit>)
    requires NoneFreed(saved, edits)
    ensures NoneFreed(saved + [next], edits) <==> next.None? || next.value !in EditAt(edits, |saved|).erased
  {
    var more := saved + [next];
    assert more[|saved|] == next;
    assert forall k :: 0 <= k < |saved| ==> more[k] == saved[k];
  }

  ghost predicate Emitting(nodes: seq<Id>, edits: seq<Edit>, calls: seq<Id>, saved: seq<Option<Id>>,
                           list: seq<Id>, it: Option<Id>)
  {
    && NoDuplicates(list) && Walks(calls, saved) && NoneFreed(saved, edits)
    && list == ListAfter(nodes, edits, |calls|)
    && (forall x :: x in list ==> x in Nodes(nodes, edits, |calls|))
    && (it.Some? ==> it.value in list)
    && (|calls| > 0 ==> saved[|calls| - 1] == it)
  }

  /** How many nodes the loop has before it. */
  function ToGo(list: seq<Id>, it: Option<Id>): nat
  {
    if it.Some? then |list| - Index(list, it.value) else 0
  }

  lemma TurnWalks(calls: seq<Id>, saved: seq<Option<Id>>, x: Id, next: Option<Id>)
    requires Walks(calls, saved) && (|calls| > 0 ==> saved[|calls| - 1] == Some(x))
    ensures Walks(calls + [x], saved + [next])
  {}

  lemma TurnEdits(nodes: seq<Id>, edits: seq<Edit>, k: nat, list: seq<Id>)
    requires FreshNodes(nodes, edits) && NoDuplicates(list) && list == ListAfter(nodes, edits, k)
    requires forall x :: x in list ==> x in Nodes(nodes, edits, k)
    ensures var after := Edited(list, EditAt(edits, k));
            && NoDuplicates(after) && after == ListAfter(nodes, edits, k + 1)
            && (forall x :: x in after ==> x in Nodes(nodes, edits, k + 1))
            && (forall x :: x in list ==> (x in after <==> x !in EditAt(edits, k).erased))
  {
    NodesMore(nodes, edits, k);
    assert Nodes(nodes, edits, k + 1) == nodes + Added(edits, k + 1);
    EditKeeps(list, Nodes(nodes, edits, k), EditAt(edits, k));
  }

  lemma TurnShortens(edits: seq<Edit>, k: nat, list: seq<Id>, x: Id)
    requires k >= |edits| && NoDuplicates(list) && x in list
    ensures ToGo(Edited(list, EditAt(edits, k)), Following(list, x)) < ToGo(list, Some(x))
  {
    NoEdit(list, edits, k);
    NextIsLater(list, x, Following(list, x));
  }

  lemma TurnKeeps(nodes: seq<Id>, edits: seq<Edit>, calls: seq<Id>, saved: seq<Option<Id>>, list: seq<Id>, x: Id)
    requires FreshNodes(nodes, edits) && Emitting(nodes, edits, calls, saved, list, Some(x))
    ensures var next := Following(list, x);
            var after := Edited(list, EditAt(edits, |calls|));
            && Walks(calls + [x], saved + [next]) && after == ListAfter(nodes, edits, |calls| + 1)
            && (next.Some? && next.value !in after <==> !NoneFreed(saved + [next], edits))
            && (next.None? || next.value in after ==> Emitting(nodes, edits, calls + [x], saved + [next], after, next))
  {
    var next := Following(list, x);
    TurnEdits(nodes, edits, |calls|, list);
    TurnWalks(calls, saved, x, next);
    NextIsLater(list, x, next);
    NoneFreedMore(saved, next, edits);
    assert |calls + [x]| == |calls| + 1;
  }

  /** The nodes were called in order, and the list is some of the called ones, then
      the rest. */
  ghost predicate InOrder(all: seq<Id>, calls: seq<Id>, list: seq<Id>, done: seq<Id>)
  {
    && |calls| <= |all| && calls == all[..|calls|]
    && list == done + all[|calls|..]
    && forall y :: y in done ==> y in calls
  }

  lemma TurnInOrder(all: seq<Id>, calls: seq<Id>, list: seq<Id>, done: seq<Id>, e: Edit)
    requires InOrder(all, calls, list, done) && |calls| < |all| && Spares(all, |calls|, e.erased)
    ensures InOrder(all + e.added, calls + [all[|calls|]], Edited(list, e), Without(done + [all[|calls|]], e.erased))
  {
    var k := |calls|;
    assert all[k..] == [all[k]] + all[k + 1..];
    SparingEdit(done, all[k], all[k + 1..], e);
    assert (all + e.added)[k + 1..] == all[k + 1..] + e.added;
    assert (all + e.added)[..k + 1] == all[..k] + [all[k]];
  }

  /** Where the iterator is then, and where it goes. */
  lemma NextInOrder(all: seq<Id>, calls: seq<Id>, list: seq<Id>, done: seq<Id>, e: Edit)
    requires InOrder(all, calls, list, done) && |calls| < |all| && NoDuplicates(list) && Spares(all, |calls|, e.erased)
    ensures var x := all[|calls|];
            && x in list
            && Following(list, x) == (if |calls| + 1 < |all| then Some(all[|calls| + 1]) else None)
            && (|calls| + 1 < |all| ==> all[|calls| + 1] in Edited(list, e))
  {
    assert list[|done|] == all[|calls|];
    assert Index(list, all[|calls|]) == |done|;
    if |calls| + 1 < |all| {
      assert list[|done| + 1] == all[|calls| + 1];
    }
  }

  /** The iterator is at the k-th connection, if it has a turn. */
  ghost predicate OnTime(nodes: seq<Id>, edits: seq<Edit>, k: nat, it: Option<Id>)
  {
    var all := Nodes(nodes, edits, k);
    && (it.Some? <==> Turn(nodes, edits, k))
    && (it.Some? ==> k < |all| && it.value == all[k])
    && (k > 0 ==> Turn(nodes, edits, k - 1))
  }

  lemma NextOnTime(nodes: seq<Id>, edits: seq<Edit>, k: nat, x: Id, next: Option<Id>)
    requires OnTime(nodes, edits, k, Some(x))
    requires var all := Nodes(nodes, edits, k); next == if k + 1 < |all| then Some(all[k + 1]) else None
    ensures OnTime(nodes, edits, k + 1, next)
  {
    NodesMore(nodes, edits, k);
    assert Turn(nodes, edits, k + 1) <==> k + 1 < |Nodes(nodes, edits, k)|;
  }

  ghost predicate SparedUntil(nodes: seq<Id>, edits: seq<Edit>, n: nat)
  {
    forall k: nat :: k < n ==> SparesAt(nodes, edits, k)
  }

  lemma SparedMore(nodes: seq<Id>, edits: seq<Edit>, n: nat)
    requires SparedUntil(nodes, edits, n) && SparesAt(nodes, edits, n)
    ensures SparedUntil(nodes, edits, n + 1)
  {
    forall k: nat | k < n + 1
      ensures SparesAt(nodes, edits, k)
    {
      assert k < n || k == n;
    }
  }

  /** Considerate so far. */
  ghost predicate Ordered(nodes: seq<Id>, edits: seq<Edit>, calls: seq<Id>,
                          list: seq<Id>, it: Option<Id>, done: seq<Id>)
  {
    && InOrder(Nodes(nodes, edits, |calls|), calls, list, done)
    && OnTime(nodes, edits, |calls|, it)
    && SparedUntil(nodes, edits, |calls|)
  }

  lemma TurnNodes(nodes: seq<Id>, edits: seq<Edit>, calls: seq<Id>, list: seq<Id>, done: seq<Id>)
    requires var all := Nodes(nodes, edits, |calls|);
             InOrder(all, calls, list, done) && |calls| < |all| && SparesAt(nodes, edits, |calls|)
    ensures var (e, x) := (EditAt(edits, |calls|), Nodes(nodes, edits, |calls|)[|calls|]);
            InOrder(Nodes(nodes, edits, |calls| + 1), calls + [x], Edited(list, e), Without(done + [x], e.erased))
  {
    NodesMore(nodes, edits, |calls|);
    TurnInOrder(Nodes(nodes, edits, |calls|), calls, list, done, EditAt(edits, |calls|));
  }

  /** A turn with a callback that spares the connections behind it. */
  lemma TurnOrdered(nodes: seq<Id>, edits: seq<Edit>, calls: seq<Id>, list: seq<Id>, x: Id, done: seq<Id>)
    requires NoDuplicates(list) && Ordered(nodes, edits, calls, list, Some(x), done)
    requires x in list && SparesAt(nodes, edits, |calls|)
    ensures var next := Following(list, x);
            var e := EditAt(edits, |calls|);
            && (next.Some? ==> next.value in Edited(list, e))
            && Ordered(nodes, edits, calls + [x], Edited(list, e), next, Without(done + [x], e.erased))
  {
    var k := |calls|;
    NextInOrder(Nodes(nodes, edits, k), calls, list, done, EditAt(edits, k));
    TurnNodes(nodes, edits, calls, list, done);
    NextOnTime(nodes, edits, k, x, Following(list, x));
    SparedMore(nodes, edits, k);
    var more := calls + [x];
    assert |more| == k + 1;
    assert SparedUntil(nodes, edits, |more|) && OnTime(nodes, edits, |more|, Following(list, x));
  }

  /** Not considerate at this turn: a connection that should have had its turn is gone
      from the list, and cannot come back. */
  ghost predicate Lost(nodes: seq<Id>, edits: seq<Edit>, calls: seq<Id>, list: seq<Id>, y: Id)
  {
    calls != [] && y in Nodes(nodes, edits, |calls| - 1) && y !in calls && y !in list
  }

  lemma NotAdded(all: seq<Id>, added: seq<Id>, i: nat)
    requires NoDuplicates(all + added) && i < |all|
    ensures all[i] !in added
  {
    forall j | 0 <= j < |added|
      ensures added[j] != all[i]
    {
      assert (all + added)[i] == all[i] && (all + added)[|all| + j] == added[j];
    }
  }

  /** A node there has been is not made again. */
  lemma NeverAdded(nodes: seq<Id>, edits: seq<Edit>, k: nat, y: Id)
    requires FreshNodes(nodes, edits) && y in Nodes(nodes, edits, k)
    ensures y !in EditAt(edits, k).added && y in Nodes(nodes, edits, k + 1)
  {
    var all := Nodes(nodes, edits, k);
    NodesMore(nodes, edits, k);
    assert NoDuplicates(nodes + Added(edits, k + 1));
    var i :| 0 <= i < |all| && all[i] == y;
    NotAdded(all, EditAt(edits, k).added, i);
  }

  lemma InconsiderateLoses(nodes: seq<Id>, edits: seq<Edit>, calls: seq<Id>, list: seq<Id>, x: Id, done: seq<Id>) returns (y: Id)
    requires FreshNodes(nodes, edits) && Ordered(nodes, edits, calls, list, Some(x), done)
    requires !SparesAt(nodes, edits, |calls|)
    ensures Lost(nodes, edits, calls + [x], Edited(list, EditAt(edits, |calls|)), y)
    ensures !Considerate(nodes, edits)
  {
    var k := |calls|;
    var all, e := Nodes(nodes, edits, k), EditAt(edits, k);
    var i :| k < i < |all| && all[i] in e.erased;
    y := all[i];
    assert NoDuplicates(nodes + Added(edits, k));
    NeverAdded(nodes, edits, k, y);
  }

  lemma LostStays(nodes: seq<Id>, edits: seq<Edit>, calls: seq<Id>, list: seq<Id>, x: Id, y: Id)
    requires FreshNodes(nodes, edits) && Lost(nodes, edits, calls, list, y) && x in list
    ensures Lost(nodes, edits, calls + [x], Edited(list, EditAt(edits, |calls|)), y)
  {
    NeverAdded(nodes, edits, |calls| - 1, y);
    NeverAdded(nodes, edits, |calls|, y);
  }

  /** The connections there were at the start, then those that the calls before the
      last one appended. Nodes are distinct, so each is called once. */
  ghost predicate EveryoneOnce(nodes: seq<Id>, edits: seq<Edit>, calls: seq<Id>)
  {
    calls == Nodes(nodes, edits, if calls == [] then 0 else |calls| - 1)
  }

  lemma Finished(nodes: seq<Id>, edits: seq<Edit>, calls: seq<Id>, list: seq<Id>, done: seq<Id>)
    requires Ordered(nodes, edits, calls, list, None, done)
    ensures EveryoneOnce(nodes, edits, calls)
    ensures Considerate(nodes, edits)
  {
    NodesMore(nodes, edits, 0);
    if calls != [] {
      NodesMore(nodes, edits, |calls| - 1);
    }
    forall k: nat | Turn(nodes, edits, k)
      ensures k < |calls|
    {
      if k >= |calls| {
        TurnsBefore(nodes, edits, k, |calls|);
      }
    }
  }

  /** How far the loop has come: considerate, with `done` left of the nodes called, or
      not, with `lost` gone for good. */
  ghost predicate Progress(nodes: seq<Id>, edits: seq<Edit>, calls: seq<Id>, list: seq<Id>, it: Option<Id>,
                           done: seq<Id>, lost: Option<Id>)
  {
    match lost
    case None => Ordered(nodes, edits, calls, list, it, done)
    case Some(y) => Lost(nodes, edits, calls, list, y) && !Considerate(nodes, edits)
  }

  lemma TurnProgress(nodes: seq<Id>, edits: seq<Edit>, calls: seq<Id>, list: seq<Id>, x: Id,
                     done: seq<Id>, lost: Option<Id>)
    returns (done': seq<Id>, lost': Option<Id>)
    requires FreshNodes(nodes, edits) && NoDuplicates(list) && x in list
    requires Progress(nodes, edits, calls, list, Some(x), done, lost)
    ensures var after := Edited(list, EditAt(edits, |calls|));
            && Progress(nodes, edits, calls + [x], after, Following(list, x), done', lost')
            && (lost' == None && Following(list, x).Some? ==> Following(list, x).value in after)
  {
    var e := EditAt(edits, |calls|);
    done', lost' := done, lost;
    if lost.Some? {
      LostStays(nodes, edits, calls, list, x, lost.value);
    } else if SparesAt(nodes, edits, |calls|) {
      TurnOrdered(nodes, edits, calls, list, x, done);
      done' := Without(done + [x], e.erased);
    } else {
      var y := InconsiderateLoses(nodes, edits, calls, list, x, done);
      lost' := Some(y);
    }
  }

  /** After the last call, or after the loop has touched a freed node. */
  lemma Verdict(nodes: seq<Id>, edits: seq<Edit>, calls: seq<Id>, list: seq<Id>,
                done: seq<Id>, lost: Option<Id>)
    requires Progress(nodes, edits, calls, list, None, done, lost)
    ensures lost == None <==> EveryoneOnce(nodes, edits, calls)
    ensures lost == None <==> Considerate(nodes, edits)
  {
    if lost == None {
      Finished(nodes, edits, calls, list, done);
    }
  }

  /** The loop is at `it`, and no freed node has been touched. */
  ghost predicate Running(nodes: seq<Id>, edits: seq<Edit>, calls: seq<Id>, saved: seq<Option<Id>>, list: seq<Id>,
                          it: Option<Id>, done: seq<Id>, lost: Option<Id>)
  {
    Emitting(nodes, edits, calls, saved, list, it) && Progress(nodes, edits, calls, list, it, done, lost)
  }

  /** What is to be shown when the loop ends. */
  ghost predicate Ended(nodes: seq<Id>, edits: seq<Edit>, calls: seq<Id>, saved: seq<Option<Id>>, list: seq<Id>, safe: bool)
  {
    && Walks(calls, saved) && list == ListAfter(nodes, edits, |calls|)
    && (safe <==> NoneFreed(saved, edits))
    && (safe && EveryoneOnce(nodes, edits, calls) <==> Considerate(nodes, edits))
  }

  lemma Begin(nodes: seq<Id>, edits: seq<Edit>)
    requires FreshNodes(nodes, edits)
    ensures Running(nodes, edits, [], [], nodes, if nodes == [] then None else Some(nodes[0]), [], None)
  {
    assert Nodes(nodes, edits, 0) == nodes + Added(edits, 0);
    NodesMore(nodes, edits, 0);
  }

  lemma OneTurn(nodes: seq<Id>, edits: seq<Edit>, calls: seq<Id>, saved: seq<Option<Id>>, list: seq<Id>, x: Id,
                done: seq<Id>, lost: Option<Id>)
    returns (done': seq<Id>, lost': Option<Id>)
    requires FreshNodes(nodes, edits) && Running(nodes, edits, calls, saved, list, Some(x), done, lost)
    ensures x in list
    ensures var next := Following(list, x);
            var after := Edited(list, EditAt(edits, |calls|));
            && (|calls| >= |edits| ==> ToGo(after, next) < ToGo(list, Some(x)))
            && (next.Some? && next.value !in after ==> Ended(nodes, edits, calls + [x], saved + [next], after, false))
            && (next.None? || next.value in after ==>
                  Running(nodes, edits, calls + [x], saved + [next], after, next, done', lost'))
  {
    TurnKeeps(nodes, edits, calls, saved, list, x);
    done', lost' := TurnProgress(nodes, edits, calls, list, x, done, lost);
    if |calls| >= |edits| {
      TurnShortens(edits, |calls|, list, x);
    }
    assert |calls + [x]| == |calls| + 1;
  }

  lemma Finish(nodes: seq<Id>, edits: seq<Edit>, calls: seq<Id>, saved: seq<Option<Id>>, list: seq<Id>,
               done: seq<Id>, lost: Option<Id>)
    requires Running(nodes, edits, calls, saved, list, None, done, lost)
    ensures Ended(nodes, edits, calls, saved, list, true)
  {
    Verdict(nodes, edits, calls, list, done, lost);
  }

  /** `calls` are the connections called, in order; `saved` what the loop kept in
      itNext during each call; `safe` says that no freed node was touched. Everybody
      is called once, in order, and no freed node is touched exactly when the callbacks
      are considerate. */
  method Emit(nodes: seq<Id>, edits: seq<Edit>)
    returns (calls: seq<Id>, saved: seq<Option<Id>>, left: seq<Id>, safe: bool)
    requires FreshNodes(nodes, edits)
    ensures safe && EveryoneOnce(nodes, edits, calls) <==> Considerate(nodes, edits)
    ensures left == ListAfter(nodes, edits, |calls|)
    ensures Walks(calls, saved)
    ensures safe <==> NoneFreed(saved, edits)
  {
    left := nodes;
    var it := if nodes == [] then None else Some(nodes[0]);
    calls, saved, safe := [], [], true;
    ghost var done, lost := [], None;
    Begin(nodes, edits);
    while it != None
      invariant safe && Running(nodes, edits, calls, saved, left, it, done, lost)
      decreases if |calls| < |edits| then |edits| - |calls| else 0, ToGo(left, it)
    {
      var x := it.value;
      done, lost := OneTurn(nodes, edits, calls, saved, left, x, done, lost);
      var itNext := Next(left, x);
      left := Edited(left, EditAt(edits, |calls|));
      calls, saved := calls + [x], saved + [itNext];
      if itNext.Some? && itNext.value !in left {
        safe := false;
        return;
      }
      it := itNext;
    }
    Finish(nodes, edits, calls, saved, left, done, lost);
  }
}
