/** signal1 and has_slots as objects that refer to each other. Every method is
    proved to take the step of SignalGraph that bears its name, on the graph formed
    by all signals `sigs` and all receivers `recvs` there are. */
module Sigslot {
  import opened Sequences
  import opened SignalGraph

  type Net = Graph<Signal, HasSlots>

  /** The graph the objects form. */
  ghost function Snapshot(sigs: set<Signal>, recvs: set<HasSlots>): (g: Net)
    reads sigs, recvs
    ensures g.conns.Keys == sigs && g.senders.Keys == recvs
  {
    Graph(map s | s in sigs :: s.connected, map r | r in recvs :: r.senders)
  }

  // ---- Walks over a connection list ---------------------------------------

  lemma {:induction false} WithoutAllConcat<R>(a: seq<Conn<R>>, b: seq<Conn<R>>, r: R)
    ensures WithoutAll(a + b, r) == WithoutAll(a, r) + WithoutAll(b, r)
  {
    if a == [] {
      assert a + b == b;
    } else {
      var h := if a[0].dest == r then [] else [a[0]];
      assert (a + b)[1..] == a[1..] + b && (a + b)[0] == a[0];
      WithoutAllConcat(a[1..], b, r);
      Associative(h, WithoutAll(a[1..], r), WithoutAll(b, r));
    }
  }

  lemma {:induction false} DuplicatesConcat<R>(a: seq<Conn<R>>, b: seq<Conn<R>>, r: R, q: R)
    ensures Duplicates(a + b, r, q) == Duplicates(a, r, q) + Duplicates(b, r, q)
  {
    if a == [] {
      assert a + b == b;
    } else {
      var h := if a[0].dest == r then [Conn(q, a[0].slot)] else [];
      assert (a + b)[1..] == a[1..] + b && (a + b)[0] == a[0];
      DuplicatesConcat(a[1..], b, r, q);
      Associative(h, Duplicates(a[1..], r, q), Duplicates(b, r, q));
    }
  }

  lemma {:induction false} WithoutFirstAt<R>(l: seq<Conn<R>>, i: nat, r: R)
    requires i < |l| && l[i].dest == r
    requires forall j :: 0 <= j < i ==> l[j].dest != r
    ensures WithoutFirst(l, r) == l[..i] + l[i + 1..]
  {
    if i > 0 {
      WithoutFirstAt(l[1..], i - 1, r);
      assert l[1..][..i - 1] == l[1..i];
      assert l[..i] == [l[0]] + l[1..i];
    }
  }

  lemma OneMore<R>(l: seq<Conn<R>>, i: nat, r: R, q: R)
    requires i < |l|
    ensures WithoutAll(l[..i + 1], r) == WithoutAll(l[..i], r) + (if l[i].dest == r then [] else [l[i]])
    ensures Duplicates(l[..i + 1], r, q) == Duplicates(l[..i], r, q) + (if l[i].dest == r then [Conn(q, l[i].slot)] else [])
  {
    assert l[..i + 1] == l[..i] + [l[i]];
    WithoutAllConcat(l[..i], [l[i]], r);
    DuplicatesConcat(l[..i], [l[i]], r, q);
    assert [l[i]][1..] == [];
  }

  /** One turn of slot_disconnect, whose list is what is kept of the first `i`
      connections followed by the rest. */
  lemma EraseTurn<R>(l: seq<Conn<R>>, i: nat, r: R)
    requires i < |l|
    ensures var kept := WithoutAll(l[..i], r);
            var now := kept + l[i..];
            var next := WithoutAll(l[..i + 1], r);
            && now[|kept|] == l[i]
            && (l[i].dest == r ==> |next| == |kept| && now[..|kept|] + now[|kept| + 1..] == next + l[i + 1..])
            && (l[i].dest != r ==> |next| == |kept| + 1 && now == next + l[i + 1..])
  {
    OneMore(l, i, r, r);
    assert l[i..] == [l[i]] + l[i + 1..];
  }

  /** The receivers of the first `i` connections. */
  function Dests<R(==)>(l: seq<Conn<R>>, i: nat): set<R>
    requires i <= |l|
  {
    set j | 0 <= j < i :: l[j].dest
  }

  lemma DestsAreReached<R>(l: seq<Conn<R>>)
    ensures forall r :: r in Dests(l, |l|) <==> Reaches(l, r)
  {}

  lemma DestsMore<R>(l: seq<Conn<R>>, i: nat)
    requires i < |l|
    ensures Dests(l, i + 1) == Dests(l, i) + {l[i].dest}
  {}

  // ---- Steps of the graph, object by object -------------------------------

  /** Each lemma compares the graph the objects form now with `g`, the one before. */
  lemma ReceiverCopied(g: Net, sigs: set<Signal>, recvs: set<HasSlots>, hs: HasSlots, q: HasSlots)
    requires g.conns.Keys == sigs && g.senders.Keys == recvs
    requires hs in recvs && q !in recvs
    requires q.senders == g.senders[hs]
    requires forall r :: r in recvs ==> r.senders == g.senders[r]
    requires forall s :: s in sigs ==>
               s.connected == if s in q.senders then g.conns[s] + Duplicates(g.conns[s], hs, q) else g.conns[s]
    ensures Snapshot(sigs, recvs + {q}) == Step(g, CopyReceiver(hs, q))
  {}

  lemma SignalCopied(g: Net, sigs: set<Signal>, recvs: set<HasSlots>, s: Signal, t: Signal)
    requires g.conns.Keys == sigs && g.senders.Keys == recvs
    requires s in sigs && t !in sigs
    requires t.connected == g.conns[s]
    requires forall x :: x in sigs ==> x.connected == g.conns[x]
    requires forall r :: r in recvs ==>
               r.senders == if r in Dests(t.connected, |t.connected|) then g.senders[r] + {t} else g.senders[r]
    ensures Snapshot(sigs + {t}, recvs) == Step(g, CopySignal(s, t))
  {
    DestsAreReached(t.connected);
  }

  lemma SignalCleared(g: Net, sigs: set<Signal>, recvs: set<HasSlots>, s: Signal)
    requires g.conns.Keys == sigs && g.senders.Keys == recvs
    requires s in sigs && s.connected == []
    requires forall x :: x in sigs && x != s ==> x.connected == g.conns[x]
    requires forall r :: r in recvs ==>
               r.senders == if r in Dests(g.conns[s], |g.conns[s]|) then g.senders[r] - {s} else g.senders[r]
    ensures Snapshot(sigs, recvs) == ClearSignalOf(g, s)
  {
    DestsAreReached(g.conns[s]);
  }

  lemma ReceiverCleared(g: Net, sigs: set<Signal>, recvs: set<HasSlots>, r: HasSlots)
    requires g.conns.Keys == sigs && g.senders.Keys == recvs
    requires r in recvs && r.senders == {}
    requires forall x :: x in recvs && x != r ==> x.senders == g.senders[x]
    requires forall s :: s in sigs ==>
               s.connected == if s in g.senders[r] then WithoutAll(g.conns[s], r) else g.conns[s]
    ensures Snapshot(sigs, recvs) == ClearReceiverOf(g, r)
  {}

  /** A set of senders is walked in the order of their addresses: any order. */
  method AnyOf(signals: set<Signal>) returns (s: Signal)
    requires signals != {}
    ensures s in signals
  {
    s :| s in signals;
  }

  // ---- Receivers ----------------------------------------------------------

  class HasSlots {
    var senders: set<Signal>

    constructor ()
      ensures senders == {}
    {
      senders := {};
    }

    method SignalConnect(sender: Signal)
      modifies this
      ensures senders == old(senders) + {sender}
    {
      senders := senders + {sender};
    }

    method SignalDisconnect(sender: Signal)
      modifies this
      ensures senders == old(senders) - {sender}
    {
      senders := senders - {sender};
    }

    method DisconnectAll(ghost sigs: set<Signal>, ghost recvs: set<HasSlots>)
      requires this in recvs && senders <= sigs
      modifies this, sigs
      ensures Snapshot(sigs, recvs) == old(ClearReceiverOf(Snapshot(sigs, recvs), this))
    {
      var todo := senders;
      while todo != {}
        invariant todo <= senders == old(senders)
        invariant forall s :: s in sigs ==>
                    s.connected == if s in senders - todo then WithoutAll(old(s.connected), this) else old(s.connected)
        decreases |todo|
      {
        var it := AnyOf(todo);
        it.SlotDisconnect(this);
        todo := todo - {it};
      }
      senders := {};
      ReceiverCleared(old(Snapshot(sigs, recvs)), sigs, recvs, this);
    }

    /** The loop of the copy constructor. */
    method JoinSenders(hs: HasSlots, ghost sigs: set<Signal>)
      requires this != hs && senders == {} && hs.senders <= sigs
      modifies this, sigs
      ensures senders == old(hs.senders)
      ensures forall s :: s in sigs ==>
                s.connected == if s in senders then old(s.connected) + Duplicates(old(s.connected), hs, this) else old(s.connected)
    {
      ghost var all := hs.senders;
      var todo := hs.senders;
      while todo != {}
        invariant todo <= all && senders <= all && hs.senders == all
        invariant forall s :: s in all ==> (s in senders <==> s !in todo)
        invariant forall s :: s in sigs && s !in senders ==> s.connected == old(s.connected)
        invariant forall s :: s in senders ==>
                    s.connected == old(s.connected) + Duplicates(old(s.connected), hs, this)
        decreases |todo|
      {
        var it := AnyOf(todo);
        it.SlotDuplicate(hs, this);
        senders := senders + {it};
        todo := todo - {it};
      }
    }

    /** has_slots' copy constructor: `this` is the copy of `hs`. */
    constructor Copy(hs: HasSlots, ghost sigs: set<Signal>, ghost recvs: set<HasSlots>)
      requires hs in recvs && hs.senders <= sigs
      modifies sigs
      ensures this !in recvs
      ensures Snapshot(sigs, recvs + {this}) == Step(old(Snapshot(sigs, recvs)), CopyReceiver(hs, this))
    {
      senders := {};
      new;
      JoinSenders(hs, sigs);
      ReceiverCopied(old(Snapshot(sigs, recvs)), sigs, recvs, hs, this);
    }
  }

  // ---- Signals ------------------------------------------------------------

  class Signal {
    var connected: seq<Conn<HasSlots>>

    constructor ()
      ensures connected == []
    {
      connected := [];
    }

    method IsEmpty() returns (e: bool)
      ensures e <==> forall r :: !Reaches(connected, r)
    {
      e := connected == [];
      if !e {
        assert connected[0].dest == connected[0].dest;
        assert Reaches(connected, connected[0].dest);
      }
    }

    method Connect(pclass: HasSlots, slot: int, ghost sigs: set<Signal>, ghost recvs: set<HasSlots>)
      requires this in sigs && pclass in recvs
      modifies this, pclass
      ensures Snapshot(sigs, recvs) == old(Step(Snapshot(sigs, recvs), SignalGraph.Connect(this, pclass, slot)))
    {
      connected := connected + [Conn(pclass, slot)];
      pclass.SignalConnect(this);
    }

    method Disconnect(pclass: HasSlots, ghost sigs: set<Signal>, ghost recvs: set<HasSlots>)
      requires this in sigs && pclass in recvs
      modifies this, pclass
      ensures Snapshot(sigs, recvs) == old(Step(Snapshot(sigs, recvs), SignalGraph.Disconnect(this, pclass)))
    {
      var it := 0;
      while it < |connected|
        invariant 0 <= it <= |connected|
        invariant connected == old(connected) && pclass.senders == old(pclass.senders)
        invariant forall j :: 0 <= j < it ==> connected[j].dest != pclass
      {
        if connected[it].dest == pclass {
          WithoutFirstAt(connected, it, pclass);
          assert Reaches(connected, pclass);
          connected := connected[..it] + connected[it + 1..];
          pclass.SignalDisconnect(this);
          return;
        }
        it := it + 1;
      }
    }

    method SlotDisconnect(pslot: HasSlots)
      modifies this
      ensures connected == WithoutAll(old(connected), pslot)
    {
      ghost var was := connected;
      ghost var seen := 0;
      var it := 0;
      while it < |connected|
        invariant 0 <= seen <= |was|
        invariant it == |WithoutAll(was[..seen], pslot)|
        invariant connected == WithoutAll(was[..seen], pslot) + was[seen..]
        decreases |was| - seen
      {
        EraseTurn(was, seen, pslot);
        if connected[it].dest == pslot {
          connected := connected[..it] + connected[it + 1..];
        } else {
          it := it + 1;
        }
        seen := seen + 1;
      }
      assert was[..seen] == was;
    }

    /** Appends to the list it walks. It ends because what it appends is for
        `newtarget`, which is not what it looks for. */
    method SlotDuplicate(oldtarget: HasSlots, newtarget: HasSlots)
      requires oldtarget != newtarget
      modifies this
      ensures connected == old(connected) + Duplicates(old(connected), oldtarget, newtarget)
    {
      ghost var was := connected;
      var it := 0;
      DuplicatesKeep(was, oldtarget, newtarget);
      while it < |connected|
        invariant 0 <= it <= |connected|
        invariant it <= |was| ==> connected == was + Duplicates(was[..it], oldtarget, newtarget)
        invariant it > |was| ==> connected == was + Duplicates(was, oldtarget, newtarget)
        decreases if it < |was| then |was| - it else 0, |connected| - it
      {
        if it < |was| {
          OneMore(was, it, oldtarget, newtarget);
        } else {
          assert was[..|was|] == was;
          assert connected[it] in Duplicates(was, oldtarget, newtarget);
        }
        if connected[it].dest == oldtarget {
          connected := connected + [Conn(newtarget, connected[it].slot)];
        }
        it := it + 1;
      }
      assert was[..|was|] == was;
    }

    method DisconnectAll(ghost sigs: set<Signal>, ghost recvs: set<HasSlots>)
      requires this in sigs && forall c :: c in connected ==> c.dest in recvs
      modifies this, recvs
      ensures Snapshot(sigs, recvs) == old(ClearSignalOf(Snapshot(sigs, recvs), this))
    {
      var it := 0;
      while it < |connected|
        invariant 0 <= it <= |connected|
        invariant connected == old(connected)
        invariant forall r :: r in recvs ==>
                    r.senders == if r in Dests(connected, it) then old(r.senders) - {this} else old(r.senders)
      {
        DestsMore(connected, it);
        connected[it].dest.SignalDisconnect(this);
        it := it + 1;
      }
      connected := [];
      SignalCleared(old(Snapshot(sigs, recvs)), sigs, recvs, this);
    }

    /** The signal's copy constructor: `this` is the copy of `s`. */
    constructor Copy(s: Signal, ghost sigs: set<Signal>, ghost recvs: set<HasSlots>)
      requires s in sigs && forall c :: c in s.connected ==> c.dest in recvs
      modifies recvs
      ensures this !in sigs
      ensures Snapshot(sigs + {this}, recvs) == Step(old(Snapshot(sigs, recvs)), CopySignal(s, this))
    {
      connected := [];
      new;
      var it := 0;
      while it < |s.connected|
        invariant 0 <= it <= |s.connected|
        invariant connected == s.connected[..it]
        invariant forall x :: x in sigs ==> x.connected == old(x.connected)
        invariant forall r :: r in recvs ==>
                    r.senders == if r in Dests(s.connected, it) then old(r.senders) + {this} else old(r.senders)
      {
        DestsMore(s.connected, it);
        s.connected[it].dest.SignalConnect(this);
        connected := connected + [s.connected[it]];
        it := it + 1;
      }
      SignalCopied(old(Snapshot(sigs, recvs)), sigs, recvs, s, this);
    }
  }
}
