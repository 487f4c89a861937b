/**
 The leaf level under concurrent writers. A leaf that is being split off shows itself to
 nobody before line 323: no child slot, no right link and no parent field leads to it. So
 on this level no right link is ever lost, however many writers there are and whatever
 happens above.
 */
module BlinkLeafLinks {
  import opened BlinkLocks
  import opened BlinkCuts
  import opened BlinkLinks

  // find_leaf ends with the root or with what it has read from a child slot.
  ghost predicate EntersWell(s: State, a: Action) {
    a.Enter? ==> a.leaf == s.root || exists p :: p in s.nodes && a.leaf in s.nodes[p].kids
  }

  ghost function InJob(j: Job): set<Id> {
    match j
    case Key => {}
    case Halves(lc, rc) => {lc, rc}
  }

  // The nodes a thread knows, but for the right half it is making and the link it has copied.
  ghost function Knows(pc: Pc): set<Id> {
    match pc
    case Idle => {}
    case WantLeaf(n) => {n}
    case WantNext(j, n, m) => InJob(j) + {n, m}
    case Passing(j, n, m) => InJob(j) + {n, m}
    case Splitting(j, n, _, temp) => InJob(j) + {n} + temp
    case Climbing(j, n, m) => InJob(j) + {n, m}
    case Up(lc, rc) => {lc, rc}
    case Topmost(lc, rc) => {lc, rc}
    case Inner(lc, rc) => {lc, rc}
    case Growing(lc, rc, top, _) => {lc, rc, top}
    case WantParent(lc, rc, p) => {lc, rc, p}
    case _ => InJob(pc.job) + {pc.curr}
  }

  // Nothing leads to m.
  ghost predicate Hidden(s: State, m: Id) {
    && m != s.root
    && (forall p {:trigger s.nodes[p]} :: p in s.nodes ==> m !in s.nodes[p].kids)
    && forall u {:trigger s.pc[u]} :: u in s.pc ==> m !in Knows(s.pc[u])
  }

  ghost predicate LeavesHidden(s: State) {
    forall t {:trigger SplitsOn(s, t, 0)} :: SplitsOn(s, t, 0) ==> Hidden(s, s.pc[t].m)
  }

  // What a step adds to what its thread knows.
  ghost function Learns(s: State, t: Tid, a: Action): set<Id>
    requires Enabled(s, t, a)
  {
    var pc := s.pc[t];
    match a
    case Enter(leaf) => {leaf}
    case GoRight => {s.nodes[pc.curr].right.id}
    case Alloc(_, _) => s.nodes[pc.curr].kids
    case LinkLeft => {pc.m}
    case AllocRoot(top) => {top}
    case ReadParent => {s.nodes[pc.lc].parent.id}
    case _ => {}
  }

  lemma KnowsAfter(s: State, t: Tid, a: Action)
    requires Enabled(s, t, a)
    ensures Knows(Next(s, t, a)) <= Knows(s.pc[t]) + Learns(s, t, a)
  {
  }

  lemma KidsAfter(s: State, t: Tid, a: Action, p: Id)
    requires Enabled(s, t, a) && p in Stored(s, t, a)
    ensures Stored(s, t, a)[p].kids <= (if p in s.nodes then s.nodes[p].kids else {}) + Knows(s.pc[t])
  {
  }

  lemma NotLearned(s: State, t: Tid, a: Action, u: Tid)
    requires Inv(s) && Enabled(s, t, a) && EntersWell(s, a) && SplitsOn(s, u, 0) && Hidden(s, s.pc[u].m)
    requires u == t ==> !a.LinkLeft?
    ensures s.pc[u].m !in Learns(s, t, a)
  {
    FreshNode(s, u);
    var m := s.pc[u].m;
    if a.ReadParent? || a.GoRight? {
      assert PcOk(s, s.pc[t]);
      var n := if a.GoRight? then s.pc[t].curr else s.pc[t].lc;
      assert LinkOk(s, n) && !Links(s, n, m);
    }
    if a.LinkLeft? {
      assert Making(s.pc[t]) != Just(m);
    }
    hide Inv, Knows;
  }

  lemma StaysHidden(s: State, t: Tid, a: Action, m: Id)
    requires Inv(s) && Enabled(s, t, a) && m !in Learns(s, t, a) && Hidden(s, m)
    ensures Hidden(Do(s, t, a), m)
  {
    hide Inv, Placed, Locked, Stored, Next, Learns;
    var s' := Do(s, t, a);
    assert m !in Knows(s.pc[t]);
    KnowsAfter(s, t, a);
    forall p | p in s'.nodes ensures m !in s'.nodes[p].kids {
      KidsAfter(s, t, a, p);
    }
    hide Enabled;
    forall u | u in s'.pc ensures m !in Knows(s'.pc[u]) {
      assert u != t ==> s'.pc[u] == s.pc[u];
    }
    TopIsKnown(s, t);
  }

  lemma TopIsKnown(s: State, t: Tid)
    ensures t in s.pc && s.pc[t].Growing? ==> s.pc[t].top in Knows(s.pc[t])
  {
  }

  lemma KnowsNodes(s: State, u: Tid)
    requires Inv(s) && u in s.pc
    ensures Knows(s.pc[u]) <= s.nodes.Keys
  {
    hide OwnsOk, LinkOk, FreshOk;
    assert PcOk(s, s.pc[u]);
  }

  // A leaf that has just been allocated is known to nobody.
  lemma AllocHides(s: State, t: Tid, a: Action)
    requires Inv(s) && TopOk(s) && Enabled(s, t, a) && a.Alloc?
    ensures Hidden(Do(s, t, a), a.m)
  {
    hide OwnsOk, FreshOk, PcOk, Placed, Locked, Stored, Next;
    var s', m := Do(s, t, a), a.m;
    KnowsAfter(s, t, a);
    KnowsNodes(s, t);
    assert LinkOk(s, s.pc[t].curr);
    forall p | p in s'.nodes ensures m !in s'.nodes[p].kids {
      KidsAfter(s, t, a, p);
      assert p in s.nodes ==> LinkOk(s, p);
    }
    hide LinkOk, Knows;
    forall u | u in s'.pc ensures m !in Knows(s'.pc[u]) {
      if u != t {
        KnowsNodes(s, u);
      }
    }
  }

  lemma StepKeepsHidden(s: State, t: Tid, a: Action)
    requires Inv(s) && TopOk(s) && Enabled(s, t, a) && EntersWell(s, a) && LeavesHidden(s)
    ensures LeavesHidden(Do(s, t, a))
  {
    var s' := Do(s, t, a);
    hide Inv, TopOk, Stored, Placed, Locked, Knows, Learns, EntersWell, Hidden;
    forall u | SplitsOn(s', u, 0) ensures Hidden(s', s'.pc[u].m) {
      SamePc(s, t, a, u, 0);
      SplitterAfter(s, t, a, u, 0);
      if u == t && a.Alloc? {
        AllocHides(s, t, a);
      } else {
        if u == t {
          OwnSplitter(s, t, a);
        }
        NotLearned(s, t, a, u);
        StaysHidden(s, t, a, s.pc[u].m);
      }
    }
  }

  // All insertions so far have entered by find_leaf.
  ghost predicate EnterWell(states: seq<State>, moves: seq<Move>, i: nat)
    requires Run(states, moves) && i < |states|
  {
    forall k {:trigger moves[k]} :: 0 <= k < i ==> EntersWell(states[k], moves[k].a)
  }

  lemma {:induction false} RunKeepsHidden(states: seq<State>, moves: seq<Move>, i: nat)
    requires Run(states, moves) && i < |states| && EnterWell(states, moves, i)
    ensures LeavesHidden(states[i])
  {
    if i > 0 {
      hide Inv, TopOk, Enabled, Do, LeavesHidden, Init;
      RunKeepsHidden(states, moves, i - 1);
      RunKeepsTop(states, moves, i - 1);
      StepKeepsHidden(states[i - 1], moves[i - 1].t, moves[i - 1].a);
    }
  }

  lemma HiddenIsNotCopied(s: State, move: Move)
    requires Inv(s) && LeavesHidden(s)
    ensures !EarlyCopy(s, move, 0)
  {
    if EarlyCopy(s, move, 0) {
      var u :| u in s.pc && Early(s.pc[u]) && s.pc[u].m == s.pc[move.t].curr;
      FreshNode(s, u);
      hide Inv;
      assert SplitsOn(s, u, 0);
      CurrIsKnown(s.pc[move.t]);
    }
  }

  lemma CurrIsKnown(pc: Pc)
    ensures pc.Splitting? ==> pc.curr in Knows(pc)
  {
  }

  /**
   In every run in which insertions enter by find_leaf, whatever is lost on the levels above:
   on the leaf level no right link is ever lost.
   */
  lemma LeafLevelIsWhole(states: seq<State>, moves: seq<Move>, i: nat)
    requires Run(states, moves) && i < |states| && EnterWell(states, moves, i)
    ensures WholeUpTo(states, i, 0)
  {
    hide Inv, LeavesHidden, EarlyCopy, Do, Enabled, Init, WholeUpTo;
    forall k | 0 <= k < i ensures !EarlyCopy(states[k], moves[k], 0) {
      RunKeepsHidden(states, moves, k);
      RunKeepsInv(states, moves, k);
      HiddenIsNotCopied(states[k], moves[k]);
    }
    NoEarlyCopyIsWhole(states, moves, i, 0);
  }
}
