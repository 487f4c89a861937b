/**
 Concurrent insertions do not deadlock: locks are wanted only beyond those held, in
 the order of level and place.
 */
module BlinkWaits {
  import opened BlinkLocks

  // t waits for a lock that u holds.
  ghost predicate WaitsFor(s: State, t: Tid, u: Tid) {
    t in s.pc && Wants(s.pc[t]).Just? && Wants(s.pc[t]).id in s.owner && s.owner[Wants(s.pc[t]).id] == u
  }

  ghost predicate WantsNode(s: State, t: Tid) {
    t in s.pc && Wants(s.pc[t]).Just? && Wants(s.pc[t]).id in s.nodes && Wants(s.pc[t]).id in s.place
  }

  // A thread wants a lock only beyond all locks it holds.
  lemma WantsBeyondHeld(s: State, t: Tid, n: Id)
    requires Inv(s) && t in s.pc && Wants(s.pc[t]).Just? && n in Held(s.pc[t])
    ensures WantsNode(s, t) && n in s.nodes && n in s.place && Before(s, n, Wants(s.pc[t]).id)
  {
    hide OwnsOk, LinkOk, FreshOk;
    assert PcOk(s, s.pc[t]);
  }

  // A waiting thread wants a node that the thread it waits for holds.
  lemma WaitingClimbs(s: State, t: Tid, u: Tid)
    requires Inv(s) && WaitsFor(s, t, u) && u in s.pc && Wants(s.pc[u]).Just?
    ensures WantsNode(s, t) && WantsNode(s, u) && Before(s, Wants(s.pc[t]).id, Wants(s.pc[u]).id)
  {
    assert OwnsOk(s, u);
    hide PcOk, LinkOk, FreshOk, OwnsOk, Held;
    WantsBeyondHeld(s, u, Wants(s.pc[t]).id);
  }

  // ts[0] waits for ts[1], and so on.
  ghost predicate WaitingChain(s: State, ts: seq<Tid>) {
    |ts| > 0 && forall i :: 0 < i < |ts| ==> WaitsFor(s, ts[i - 1], ts[i])
  }

  lemma {:induction false} ChainClimbs(s: State, ts: seq<Tid>, i: nat)
    requires Inv(s) && WaitingChain(s, ts) && 0 < i < |ts|
    requires ts[i] in s.pc && Wants(s.pc[ts[i]]).Just?
    ensures WantsNode(s, ts[0]) && WantsNode(s, ts[i]) && Before(s, Wants(s.pc[ts[0]]).id, Wants(s.pc[ts[i]]).id)
  {
    hide Inv;
    WaitingClimbs(s, ts[i - 1], ts[i]);
    if i > 1 {
      assert WaitsFor(s, ts[i - 1], ts[i]);
      ChainClimbs(s, ts, i - 1);
    }
  }

  /**
   In no state of any run, of any number of threads, do threads wait for one another in
   a circle; in particular no thread waits for a lock it holds itself.
   */
  lemma NoWaitingCycle(states: seq<State>, moves: seq<Move>, i: nat, ts: seq<Tid>)
    requires Run(states, moves) && i < |states|
    requires |ts| > 1 && WaitingChain(states[i], ts)
    ensures ts[0] != ts[|ts| - 1]
  {
    RunKeepsInv(states, moves, i);
    hide Run, Inv;
    if ts[0] == ts[|ts| - 1] {
      assert WaitsFor(states[i], ts[0], ts[1]);
      ChainClimbs(states[i], ts, |ts| - 1);
    }
  }

  // Blocked threads wait for a lock that is taken.
  ghost predicate Blocked(s: State, t: Tid) {
    t in s.pc && Wants(s.pc[t]).Just? && Wants(s.pc[t]).id in s.owner
  }

  lemma BlockedWantsNode(s: State, t: Tid)
    requires Inv(s) && Blocked(s, t)
    ensures WantsNode(s, t)
  {
    hide OwnsOk, LinkOk, FreshOk;
    assert PcOk(s, s.pc[t]);
  }

  // Of a nonempty set of blocked threads, one waits for a node that no other waits beyond.
  lemma {:induction false} FarthestWaiter(s: State, ts: set<Tid>) returns (t: Tid)
    requires Inv(s) && ts != {} && forall x :: x in ts ==> Blocked(s, x)
    ensures t in ts && WantsNode(s, t)
    ensures forall x :: x in ts ==> WantsNode(s, x) && !Before(s, Wants(s.pc[t]).id, Wants(s.pc[x]).id)
    decreases |ts|
  {
    hide Inv, Blocked, Wants;
    var x :| x in ts;
    BlockedWantsNode(s, x);
    if ts == {x} {
      t := x;
    } else {
      var rest := ts - {x};
      assert ts == rest + {x};
      var y := FarthestWaiter(s, rest);
      t := if Before(s, Wants(s.pc[y]).id, Wants(s.pc[x]).id) then x else y;
    }
  }

  // insert_in_parent is about to lock the parent of a node that has none, and was not Root.
  ghost predicate AtNullParent(s: State, t: Tid) {
    t in s.pc && s.pc[t].Inner? && s.pc[t].lc in s.nodes && s.nodes[s.pc[t].lc].parent == Nothing
  }

  ghost predicate CanStep(s: State, t: Tid) {
    exists a :: Enabled(s, t, a)
  }

  lemma {:induction false} Outside(ids: set<Id>) returns (m: Id)
    ensures m !in ids && forall n :: n in ids ==> n < m
    decreases |ids|
  {
    m := 0;
    if ids != {} {
      var x :| x in ids;
      var rest := ids - {x};
      assert forall n :: n in ids ==> n in rest || n == x;
      var y := Outside(rest);
      m := if x < y then y else x + 1;
    }
  }

  // A thread inside an insertion has a next step, unless a lock or a parent is missing.
  lemma HasStep(s: State, t: Tid)
    requires Inv(s) && t in s.pc && !Blocked(s, t) && !AtNullParent(s, t) && !s.pc[t].Idle?
    ensures CanStep(s, t)
  {
    hide OwnsOk, LinkOk, FreshOk;
    assert PcOk(s, s.pc[t]);
    var m := Outside(s.nodes.Keys);
    var a := match s.pc[t]
      case Walking(_, _) => Look
      case Seen(_, _) => Stay
      case Passing(_, _, _) => LetGo
      case Arrived(_, _) => Room
      case Freeing(_, _) => FreeOne
      case Splitting(_, _, _, _) => LoadLink
      case Loaded(_, _, _, _) => LinkRight
      case HalfLinked(_, _, _, _) => LinkLeft
      case Climbing(_, _, _) => DropChild
      case Up(_, _) => TestRoot
      case Topmost(_, _) => AllocRoot(m)
      case Inner(_, _) => ReadParent
      case Growing(_, _, _, _) => RootStore
      case _ => TakeLock;
    assert Enabled(s, t, a);
  }

  /**
   Someone can always go on: whenever some thread is blocked, the holder of some wanted
   lock is not blocked itself, and has a next step unless the parent it needs is NULL.
   */
  lemma SomeHolderRuns(states: seq<State>, moves: seq<Move>, i: nat, t: Tid) returns (u: Tid)
    requires Run(states, moves) && i < |states| && Blocked(states[i], t)
    ensures u in states[i].pc && Held(states[i].pc[u]) != {} && !Blocked(states[i], u)
    ensures exists x :: WaitsFor(states[i], x, u)
    ensures AtNullParent(states[i], u) || CanStep(states[i], u)
  {
    var s := states[i];
    RunKeepsInv(states, moves, i);
    hide Run, LinkOk, FreshOk, PcOk, Held;
    var ts := set x | x in s.pc && Blocked(s, x);
    assert t in ts;
    var f := FarthestWaiter(s, ts);
    u := s.owner[Wants(s.pc[f]).id];
    assert WaitsFor(s, f, u) && OwnsOk(s, u);
    if Blocked(s, u) {
      assert u in ts;
      WaitingClimbs(s, f, u);
    }
    assert !s.pc[u].Idle? by {
      IdleHoldsNone(s.pc[u]);
    }
    if !AtNullParent(s, u) {
      HasStep(s, u);
    }
  }

  lemma IdleHoldsNone(pc: Pc)
    ensures pc.Idle? ==> Held(pc) == {}
  {
  }

  // At most MAX_LOCKS = 3 locks at once, and none between insertions.
  lemma LocksOf(states: seq<State>, moves: seq<Move>, i: nat, t: Tid)
    requires Run(states, moves) && i < |states| && t in states[i].pc
    ensures var s := states[i];
      var mine := set n | n in s.owner && s.owner[n] == t;
      |mine| <= 3 && (s.pc[t].Idle? ==> mine == {})
  {
    RunKeepsInv(states, moves, i);
    hide Run, LinkOk, FreshOk, PcOk;
    var s := states[i];
    assert OwnsOk(s, t);
    var mine := set n | n in s.owner && s.owner[n] == t;
    assert mine == Held(s.pc[t]);
    SmallHeld(s.pc[t]);
  }

  lemma SmallHeld(pc: Pc)
    ensures |Held(pc)| <= 3
  {
  }

  // ---- move_right goes right

  /**
   At every node with a right link, whatever it is looking for, a thread in move_right can see the
   link and go on to it; once that lock is free it has both locks, and then only the right one.
   */
  lemma GoesRight(s: State, t: Tid, x: Id)
    requires t in s.pc && s.pc[t].Walking? && s.pc[t].curr in s.nodes && s.nodes[s.pc[t].curr].right == Just(x)
    ensures var job, n := s.pc[t].job, s.pc[t].curr;
      && Enabled(s, t, Look) && Enabled(Do(s, t, Look), t, GoRight)
      && var s2 := Do(Do(s, t, Look), t, GoRight);
      && s2 == s.(pc := s.pc[t := WantNext(job, n, x)]) && Wants(s2.pc[t]) == Just(x)
      && Held(s2.pc[t]) == Held(s.pc[t])
      && (x !in s.owner ==>
        && Enabled(s2, t, TakeLock)
        && var s3 := Do(s2, t, TakeLock);
        && Held(s3.pc[t]) == Held(s.pc[t]) + {x} && s3.owner == s.owner[x := t]
        && Enabled(s3, t, LetGo)
        && Do(s3, t, LetGo) == s.(owner := s.owner[x := t] - {n}, pc := s.pc[t := Walking(job, x)]))
  {
    var job, n := s.pc[t].job, s.pc[t].curr;
    var s2 := Do(Do(s, t, Look), t, GoRight);
    assert s2.pc == s.pc[t := WantNext(job, n, x)];
    if x !in s.owner {
      var s3 := Do(s2, t, TakeLock);
      assert Do(s3, t, LetGo).pc == s.pc[t := Walking(job, x)];
    }
  }

  // Where there is no right link it stops.
  lemma StopsAtLast(s: State, t: Tid)
    requires t in s.pc && s.pc[t].Walking? && s.pc[t].curr in s.nodes && s.nodes[s.pc[t].curr].right == Nothing
    ensures Enabled(s, t, Look) && Do(s, t, Look) == s.(pc := s.pc[t := Arrived(s.pc[t].job, s.pc[t].curr)])
  {
  }
}
