/**
 Lower bounds under concurrent writers: when they ascend along the places of a level.
 */
module BlinkCuts {
  import opened BlinkState
  import opened BlinkLocks

  ghost predicate Ascending(s: State) {
    forall a, b {:trigger NextTo(s, a, b)} :: NextTo(s, a, b) ==> Lt(s.nodes[a].low, s.nodes[b].low)
  }

  // A cut of node n strictly between its own lower bound and those of all nodes to its right.
  ghost predicate CutInside(s: State, n: Id, low: Bound)
    requires n in s.nodes
  {
    Lt(s.nodes[n].low, low) && forall b {:trigger NextTo(s, n, b)} :: NextTo(s, n, b) ==> Lt(low, s.nodes[b].low)
  }

  // No node is above the root but the one its owner is about to make the root, and its halves.
  ghost predicate GrowsRoot(s: State, t: Tid) {
    t in s.pc && s.pc[t].Growing? && s.pc[t].lc == s.root
  }

  // Whoever has found left_child to be Root, or is growing it, is right about it.
  ghost predicate AtRoot(s: State, t: Tid) {
    t in s.pc && (s.pc[t].Growing? || s.pc[t].Topmost? ==> s.pc[t].lc == s.root)
  }

  ghost predicate TopOk(s: State) {
    && s.root in s.nodes
    && (forall t {:trigger AtRoot(s, t)} :: t in s.pc ==> AtRoot(s, t))
    && forall n {:trigger s.nodes[n]} :: n in s.nodes ==>
         s.nodes[n].level <= s.nodes[s.root].level
         || (s.nodes[n].level == s.nodes[s.root].level + 1 && exists t :: GrowsRoot(s, t))
  }

  // Only the thread that holds the lock of the root can be growing it.
  lemma OneGrows(s: State, t: Tid, u: Tid)
    requires Inv(s) && GrowsRoot(s, t) && u in s.pc && s.root in Held(s.pc[u])
    ensures t == u
  {
    hide LinkOk, FreshOk, PcOk;
    assert OwnsOk(s, t) && OwnsOk(s, u);
  }

  ghost predicate RootIsStored(s: State, t: Tid, a: Action)
    requires Enabled(s, t, a)
  {
    a.RootStore? && s.pc[t].stores == 2
  }

  lemma OwnGrower(s: State, t: Tid, a: Action)
    requires Enabled(s, t, a) && PcOk(s, s.pc[t]) && AtRoot(s, t)
    ensures AtRoot(Do(s, t, a), t)
    ensures GrowsRoot(s, t) && !RootIsStored(s, t, a) ==> GrowsRoot(Do(s, t, a), t)
  {
    hide Stored, Placed, Locked, SameLevel, OneUp;
  }

  lemma StepKeepsGrower(s: State, t: Tid, a: Action, u: Tid)
    requires Inv(s) && TopOk(s) && Enabled(s, t, a) && u in s.pc
    ensures AtRoot(Do(s, t, a), u)
    ensures GrowsRoot(s, u) && !RootIsStored(s, t, a) ==> GrowsRoot(Do(s, t, a), u)
  {
    hide Stored, Placed, Locked, Next, LinkOk, FreshOk, PcOk, OwnsOk;
    assert AtRoot(s, u) && AtRoot(s, t);
    if u == t {
      assert PcOk(s, s.pc[t]);
      OwnGrower(s, t, a);
    } else if RootIsStored(s, t, a) && (s.pc[u].Growing? || s.pc[u].Topmost?) {
      OneGrows(s, t, u);
    }
  }

  lemma StepLevel(s: State, t: Tid, a: Action, n: Id)
    requires Inv(s) && TopOk(s) && Enabled(s, t, a) && n in Stored(s, t, a)
    ensures Stored(s, t, a)[n].level <= s.nodes[s.root].level + 1
    ensures Stored(s, t, a)[n].level == s.nodes[s.root].level + 1 ==> a.AllocRoot? || exists u :: GrowsRoot(s, u)
  {
    hide LinkOk, FreshOk, PcOk, OwnsOk, Placed, Locked, Next;
    assert AtRoot(s, t);
    StepKeys(s, t, a);
    if n in s.nodes {
      hide Enabled, Stored;
      StepStores(s, t, a, n);
    } else if a.Alloc? {
      assert s.nodes[s.pc[t].curr].level <= s.nodes[s.root].level + 1;
    }
  }

  lemma StoredRootTop(s: State, t: Tid, a: Action)
    requires Inv(s) && TopOk(s) && Enabled(s, t, a) && RootIsStored(s, t, a)
    ensures var s' := Do(s, t, a);
      s'.root in s'.nodes && forall n :: n in s'.nodes ==> s'.nodes[n].level <= s'.nodes[s'.root].level
  {
    var s' := Do(s, t, a);
    assert PcOk(s, s.pc[t]) && AtRoot(s, t);
    hide LinkOk, FreshOk, OwnsOk, Stored, Placed, Locked, Next;
    StepStores(s, t, a, s.pc[t].top);
    hide PcOk, Enabled;
    forall n | n in s'.nodes ensures s'.nodes[n].level <= s'.nodes[s'.root].level {
      StepLevel(s, t, a, n);
    }
  }

  lemma SameRootTop(s: State, t: Tid, a: Action, n: Id)
    requires Inv(s) && TopOk(s) && Enabled(s, t, a) && !RootIsStored(s, t, a) && n in Stored(s, t, a)
    ensures var s' := Do(s, t, a);
      s'.nodes[n].level <= s.nodes[s.root].level
      || (s'.nodes[n].level == s.nodes[s.root].level + 1 && exists u :: GrowsRoot(s', u))
  {
    hide PcOk, LinkOk, FreshOk, OwnsOk, Stored, Placed, Locked;
    assert AtRoot(s, t);
    StepLevel(s, t, a, n);
    if a.AllocRoot? {
      assert GrowsRoot(Do(s, t, a), t);
    } else {
      hide Enabled, Next;
      if u :| GrowsRoot(s, u) {
        StepKeepsGrower(s, t, a, u);
      }
    }
  }

  lemma StepKeepsTop(s: State, t: Tid, a: Action)
    requires Inv(s) && TopOk(s) && Enabled(s, t, a)
    ensures TopOk(Do(s, t, a))
  {
    var s' := Do(s, t, a);
    var pc := s.pc[t];
    StepStores(s, t, a, s.root);
    hide PcOk, LinkOk, FreshOk, OwnsOk, Stored, Placed, Locked, Enabled, Next;
    forall u | u in s'.pc ensures AtRoot(s', u) {
      StepKeepsGrower(s, t, a, u);
    }
    if RootIsStored(s, t, a) {
      StoredRootTop(s, t, a);
    } else {
      forall n | n in s'.nodes
        ensures s'.nodes[n].level <= s.nodes[s.root].level
          || (s'.nodes[n].level == s.nodes[s.root].level + 1 && exists u :: GrowsRoot(s', u))
      {
        SameRootTop(s, t, a, n);
      }
    }
  }

  // A new root is alone on its level.
  lemma TopIsAlone(s: State, t: Tid, top: Id, n: Id)
    requires Inv(s) && TopOk(s) && Enabled(s, t, AllocRoot(top)) && n in s.nodes
    ensures s.nodes[n].level <= s.nodes[s.root].level
  {
    hide LinkOk, FreshOk, PcOk, OwnsOk;
    assert AtRoot(s, t);
    if u :| GrowsRoot(s, u) {
      OneGrows(s, u, t);
    }
  }

  // ---- the order of lower bounds stands and falls with the cuts

  // Nothing is next to a new root.
  lemma TopHasNoNext(s: State, t: Tid, top: Id, x: Id)
    requires Inv(s) && TopOk(s) && Enabled(s, t, AllocRoot(top))
    ensures !NextTo(Do(s, t, AllocRoot(top)), x, top) && !NextTo(Do(s, t, AllocRoot(top)), top, x)
  {
    hide LinkOk, FreshOk, PcOk, OwnsOk, Placed, Locked, Next;
    assert AtRoot(s, t);
    if x in s.nodes {
      TopIsAlone(s, t, top, x);
    }
  }

  // Who is next to whom changes only with a new right half.
  lemma SameNext(s: State, t: Tid, a: Action, x: Id, y: Id)
    requires Inv(s) && TopOk(s) && Enabled(s, t, a) && !a.Alloc?
    ensures NextTo(Do(s, t, a), x, y) <==> NextTo(s, x, y)
  {
    StepGrows(s, t, a);
    StepKeys(s, t, a);
    hide Stored, Placed, Locked, Next, LinkOk, FreshOk, PcOk, OwnsOk;
    if a.AllocRoot? {
      TopHasNoNext(s, t, a.top, x);
      TopHasNoNext(s, t, a.top, y);
    }
    hide TopOk, Enabled;
  }

  lemma StepKeepsOrder(s: State, t: Tid, a: Action)
    requires Inv(s) && TopOk(s) && Enabled(s, t, a) && !a.Alloc?
    ensures Ascending(Do(s, t, a)) <==> Ascending(s)
  {
    hide Inv, TopOk, Enabled, Stored, Placed, Locked, Next;
    var s' := Do(s, t, a);
    forall x, y
      ensures NextTo(s', x, y) <==> NextTo(s, x, y)
      ensures NextTo(s, x, y) ==> s'.nodes[x].low == s.nodes[x].low && s'.nodes[y].low == s.nodes[y].low
    {
      SameNext(s, t, a, x, y);
      if NextTo(s, x, y) {
        StepStores(s, t, a, x);
        StepStores(s, t, a, y);
      }
    }
    hide NextTo;
  }

  // The new node's neighbours: those of the node it is cut from, and that node itself.
  lemma CutNext(s: State, t: Tid, m: Id, low: Bound, x: Id)
    requires Inv(s) && Enabled(s, t, Alloc(m, low)) && x in s.nodes
    ensures var s', c := Do(s, t, Alloc(m, low)), s.pc[t].curr;
      && s'.nodes[x].low == s.nodes[x].low && m in s'.nodes && s'.nodes[m].low == low
      && (NextTo(s', m, x) <==> NextTo(s, c, x))
      && (NextTo(s', x, m) <==> x == c || NextTo(s, x, c))
  {
    hide LinkOk, FreshOk, PcOk, OwnsOk, Locked, Next;
  }

  lemma CutOthers(s: State, t: Tid, m: Id, low: Bound, x: Id, y: Id)
    requires Inv(s) && Enabled(s, t, Alloc(m, low)) && x in s.nodes && y in s.nodes
    ensures NextTo(Do(s, t, Alloc(m, low)), x, y) <==> NextTo(s, x, y)
  {
    StepGrows(s, t, Alloc(m, low));
    hide LinkOk, FreshOk, PcOk, OwnsOk, Locked, Next, Stored, Placed;
  }

  lemma CutKeepsOrder(s: State, t: Tid, m: Id, low: Bound)
    requires Inv(s) && Enabled(s, t, Alloc(m, low))
    ensures Ascending(Do(s, t, Alloc(m, low))) <==> Ascending(s) && CutInside(s, s.pc[t].curr, low)
  {
    var s', c := Do(s, t, Alloc(m, low)), s.pc[t].curr;
    assert s'.nodes.Keys == s.nodes.Keys + {m};
    hide Inv, Enabled, Do, NextTo;
    forall x | x in s.nodes
      ensures s'.nodes[x].low == s.nodes[x].low && s'.nodes[m].low == low
      ensures NextTo(s', m, x) <==> NextTo(s, c, x)
      ensures NextTo(s', x, m) <==> x == c || NextTo(s, x, c)
    {
      CutNext(s, t, m, low, x);
    }
    if Ascending(s') {
      forall x, y | NextTo(s, x, y) ensures Lt(s.nodes[x].low, s.nodes[y].low) {
        InNodes(s, x, y);
        CutOthers(s, t, m, low, x, y);
      }
      assert NextTo(s', c, m);
      forall y | NextTo(s, c, y) ensures Lt(low, s.nodes[y].low) {
        InNodes(s, c, y);
        assert NextTo(s', m, y);
      }
    }
    if Ascending(s) && CutInside(s, c, low) {
      forall x, y | NextTo(s', x, y) ensures Lt(s'.nodes[x].low, s'.nodes[y].low) {
        InNodes(s', x, y);
        if x != m && y != m {
          CutOthers(s, t, m, low, x, y);
        }
      }
    }
  }

  lemma InNodes(s: State, x: Id, y: Id)
    requires NextTo(s, x, y)
    ensures x in s.nodes && y in s.nodes && x != y
  {
  }

  lemma {:induction false} RunKeepsTop(states: seq<State>, moves: seq<Move>, i: nat)
    requires Run(states, moves) && i < |states|
    ensures Inv(states[i]) && TopOk(states[i])
  {
    RunKeepsInv(states, moves, i);
    if i > 0 {
      hide Init, Inv, Enabled, Do, TopOk;
      RunKeepsTop(states, moves, i - 1);
      StepKeepsTop(states[i - 1], moves[i - 1].t, moves[i - 1].a);
    }
  }

  ghost predicate CutsInside(states: seq<State>, moves: seq<Move>, i: nat)
    requires Run(states, moves) && i < |states|
  {
    forall k {:trigger moves[k]} :: 0 <= k < i && moves[k].a.Alloc? ==>
      CutInside(states[k], states[k].pc[moves[k].t].curr, moves[k].a.low)
  }

  // For every run: lower bounds ascend along the places of every level if and only if every cut was inside.
  lemma {:induction false} LowerBoundsIff(states: seq<State>, moves: seq<Move>, i: nat)
    requires Run(states, moves) && i < |states|
    ensures Ascending(states[i]) <==> CutsInside(states, moves, i)
  {
    hide Inv, TopOk, Do, CutInside;
    if i == 0 {
      hide Enabled;
    } else {
      var s, t, a := states[i - 1], moves[i - 1].t, moves[i - 1].a;
      hide Ascending, Init;
      LowerBoundsIff(states, moves, i - 1);
      RunKeepsTop(states, moves, i - 1);
      assert CutsInside(states, moves, i) <==>
        CutsInside(states, moves, i - 1) && (a.Alloc? ==> CutInside(s, s.pc[t].curr, a.low));
      if a.Alloc? {
        CutKeepsOrder(s, t, a.m, a.low);
      } else {
        StepKeepsOrder(s, t, a);
      }
    }
  }
}
