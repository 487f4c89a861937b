/**
 In every state of every run of any number of writers lower bounds ascend along the leaves,
 every leaf holds only keys of its own range, and no key that was put in is lost.
 */
module BlinkRanges {
  import opened BlinkState
  import opened BlinkLocks
  import opened BlinkCuts
  import opened BlinkLinks
  import opened BlinkLeafLinks
  import opened BlinkKeyRuns

  // ---- the invariant

  // An insertion is at leaves that start below its key, and has stopped where it should.
  ghost predicate KeyOk(s: State, f: Filling, t: Tid) {
    t in s.pc &&
    var pc := s.pc[t];
    match pc
    case WantLeaf(n) => t in f.key && StartsBelow(s, n, f.key[t])
    case Walking(Key, n) => t in f.key && StartsBelow(s, n, f.key[t])
    case Seen(Key, n) => t in f.key && StartsBelow(s, n, f.key[t])
    case WantNext(Key, _, m) => t in f.key && StartsBelow(s, m, f.key[t])
    case Passing(Key, _, m) => t in f.key && StartsBelow(s, m, f.key[t])
    case Arrived(Key, n) => t in f.key && StartsBelow(s, n, f.key[t]) && !GoesOn(s.nodes, n, f.key[t])
    case _ => true
  }

  ghost predicate StartsBelow(s: State, n: Id, k: int) {
    OnLevel(s, n, 0) && Below(s.nodes[n].low, k)
  }

  // Every key a leaf holds is above its lower bound and not above the one of any leaf further right.
  ghost predicate InRange(s: State, f: Filling, n: Id) {
    n in f.keys && forall k :: k in f.keys[n] ==> Covered(s, n, k)
  }

  ghost predicate Covered(s: State, n: Id, k: int) {
    && n in s.nodes && Below(s.nodes[n].low, k)
    && forall b {:trigger NextTo(s, n, b)} :: NextTo(s, n, b) ==> Le(At(k), s.nodes[b].low)
  }

  ghost predicate LeavesAscend(s: State) {
    forall a, b {:trigger NextTo(s, a, b)} :: OnLevel(s, a, 0) && NextTo(s, a, b) ==> Lt(s.nodes[a].low, s.nodes[b].low)
  }

  ghost predicate Ranged(s: State, f: Filling) {
    && LeavesAscend(s)
    && (forall t {:trigger KeyOk(s, f, t)} :: t in s.pc ==> KeyOk(s, f, t))
    && forall n {:trigger InRange(s, f, n)} :: OnLevel(s, n, 0) ==> InRange(s, f, n)
  }

  // ---- a leaf and what is to its right

  // The right half of a leaf is linked to the right once line 279 is done, and not before.
  ghost predicate HalfRight(s: State, u: Tid) {
    SplitsOn(s, u, 0) ==>
      s.pc[u].m in s.nodes && s.nodes[s.pc[u].m].right == if s.pc[u].HalfLinked? then s.pc[u].x else Nothing
  }

  ghost predicate HalvesRight(s: State) {
    forall u {:trigger HalfRight(s, u)} :: HalfRight(s, u)
  }

  // A leaf that some thread knows is finished.
  lemma KnownIsFinished(s: State, t: Tid, n: Id)
    requires Inv(s) && LeavesHidden(s) && t in s.pc && n in Knows(s.pc[t]) && OnLevel(s, n, 0)
    ensures Finished(s, n)
  {
    forall u | u in s.pc ensures Making(s.pc[u]) != Just(n) {
      assert SplitsOn(s, u, 0) ==> Hidden(s, s.pc[u].m);
      if Making(s.pc[u]) == Just(n) {
        FreshNode(s, u);
      }
    }
  }

  // A link that leads from a half in the making also leads from the leaf it is split off.
  lemma AlsoFromLeft(s: State, u: Tid, n: Id)
    requires Inv(s) && Whole(s, 0) && LeavesHidden(s) && HalvesRight(s) && SplitsOn(s, u, 0) && Links(s, s.pc[u].m, n)
    ensures Links(s, s.pc[u].curr, n) && Finished(s, s.pc[u].curr)
  {
    assert HalfRight(s, u) && CopyHolds(s, u);
    SplitterKnows(s.pc[u]);
    KnownIsFinished(s, u, s.pc[u].curr);
  }

  lemma SplitterKnows(pc: Pc)
    ensures Making(pc).Just? ==> pc.curr in Knows(pc)
  {
  }

  ghost function Maker(s: State, n: Id): (u: Tid)
    requires exists t :: t in s.pc && Making(s.pc[t]) == Just(n)
    ensures u in s.pc && Making(s.pc[u]) == Just(n)
  {
    var u :| u in s.pc && Making(s.pc[u]) == Just(n);
    u
  }

  lemma MakesOn(s: State, u: Tid, n: Id, level: nat)
    requires Inv(s) && u in s.pc && Making(s.pc[u]) == Just(n) && OnLevel(s, n, level)
    ensures SplitsOn(s, u, level)
  {
    FreshNode(s, u);
  }

  // The finished leaf from which a link leads: the one given, or the one that it is split off.
  lemma FinishedSource(s: State, q: Id, n: Id) returns (p: Id)
    requires Inv(s) && Whole(s, 0) && LeavesHidden(s) && HalvesRight(s) && OnLevel(s, n, 0) && Links(s, q, n)
    ensures Links(s, p, n) && Finished(s, p) && p in s.place && q in s.place
    ensures p == q || (!Finished(s, q) && s.place[q] == s.place[p] + 1)
  {
    PlacedLink(s, q, n);
    if Finished(s, q) {
      p := q;
    } else {
      var u := Maker(s, q);
      FreshNode(s, u);
      MakesOn(s, u, q, 0);
      p := s.pc[u].curr;
      AlsoFromLeft(s, u, n);
    }
  }

  // No right link skips a finished leaf.
  lemma {:induction false} LinksSkipNoLeaf(s: State, p: Id, z: Id, n: Id)
    requires Inv(s) && Whole(s, 0) && LeavesHidden(s) && HalvesRight(s) && OnLevel(s, n, 0)
    requires Links(s, p, n) && Finished(s, p) && Finished(s, z)
    ensures !Between(s, p, z, n)
    decreases if z in s.place then s.place[z] else 0
  {
    if Between(s, p, z, n) {
      assert OnLevel(s, z, 0) && HasLeft(s, z) && Found(s, z);
      var q0 :| Links(s, q0, z);
      var q := FinishedSource(s, q0, z);
      PlacedLink(s, q, z);
      PlacedLink(s, p, n);
      OnlyOnePlace(s, p, q);
      hide Inv, Whole, LeavesHidden, HalvesRight, Finished;
      if s.place[p] < s.place[q] {
        LinksSkipNoLeaf(s, p, q, n);
      } else if s.place[q] < s.place[p] {
        LinksSkipNoLeaf(s, q, p, z);
      }
    }
  }

  // What is further right than a leaf that nobody splits is not left of its right link.
  lemma {:induction false} RightIsNext(s: State, n: Id, b: Id)
    requires Inv(s) && Whole(s, 0) && LeavesHidden(s) && HalvesRight(s) && OnLevel(s, n, 0) && Finished(s, n)
    requires forall u :: SplitsOn(s, u, 0) ==> s.pc[u].curr != n
    requires NextTo(s, n, b)
    ensures s.nodes[n].right.Just? && (s.nodes[n].right == Just(b) || NextTo(s, s.nodes[n].right.id, b))
    decreases s.place[b]
  {
    if Finished(s, b) {
      assert OnLevel(s, b, 0) && HasLeft(s, b) && Found(s, b);
      var q0 :| Links(s, q0, b);
      var q := FinishedSource(s, q0, b);
      PlacedLink(s, q, b);
      OnlyOnePlace(s, n, q);
      LinksSkipNoLeaf(s, q, n, b);
      hide Inv, Whole, LeavesHidden, HalvesRight, Finished;
      if q != n {
        RightIsNext(s, n, q);
      }
    } else {
      var u := Maker(s, b);
      FreshNode(s, u);
      MakesOn(s, u, b, 0);
      var c := s.pc[u].curr;
      OnlyOnePlace(s, n, c);
      hide Inv, Whole, LeavesHidden, HalvesRight, Finished;
      RightIsNext(s, n, c);
    }
  }

  lemma StepKeepsHalfRight(s: State, t: Tid, a: Action, u: Tid)
    requires Inv(s) && Enabled(s, t, a) && LeavesHidden(s) && (SplitsOn(s, u, 0) ==> HalfRight(s, u))
    requires SplitsOn(Do(s, t, a), u, 0)
    ensures HalfRight(Do(s, t, a), u)
  {
    SamePc(s, t, a, u, 0);
    SplitterAfter(s, t, a, u, 0);
    hide OwnsOk, LinkOk, PcOk, FreshOk;
    if u == t {
      OwnHalfRight(s, t, a);
    } else {
      FreshNode(s, u);
      SplitterKnows(s.pc[t]);
      assert Hidden(s, s.pc[u].m);
      StepKeys(s, t, a);
      hide Inv, Knows, Placed, Locked, Next;
    }
  }

  lemma OwnHalfRight(s: State, t: Tid, a: Action)
    requires Inv(s) && Enabled(s, t, a) && (SplitsOn(s, t, 0) ==> HalfRight(s, t)) && SplitsOn(Do(s, t, a), t, 0)
    requires SplitsOn(s, t, 0) || a.Alloc?
    ensures HalfRight(Do(s, t, a), t)
  {
    hide Inv, Placed, Locked, OnLevel, Held;
    if SplitsOn(s, t, 0) {
      FreshNode(s, t);
    }
  }

  lemma StepKeepsHalvesRight(s: State, t: Tid, a: Action)
    requires Inv(s) && Enabled(s, t, a) && LeavesHidden(s) && HalvesRight(s)
    ensures HalvesRight(Do(s, t, a))
  {
    var s' := Do(s, t, a);
    hide Inv, Enabled, LeavesHidden, Stored, Placed, Locked, Next;
    forall u ensures HalfRight(s', u) {
      assert HalfRight(s, u);
      hide HalfRight;
      if SplitsOn(s', u, 0) {
        StepKeepsHalfRight(s, t, a, u);
      } else {
        NoHalf(s', u);
      }
    }
  }

  lemma NoHalf(s: State, u: Tid)
    requires !SplitsOn(s, u, 0)
    ensures HalfRight(s, u)
  {
  }

  // ---- a step keeps all keys in range

  // What holds on the leaf level for any number of writers.
  ghost predicate LeavesOk(s: State) {
    Inv(s) && TopOk(s) && Whole(s, 0) && LeavesHidden(s) && HalvesRight(s)
  }

  // A leaf with the lock of an insertion that has arrived there covers its key.
  lemma ArrivedCovers(s: State, f: Filling, t: Tid)
    requires LeavesOk(s) && LeavesAscend(s) && KeyOk(s, f, t) && s.pc[t].Arrived? && s.pc[t].job.Key?
    ensures t in f.key && OnLevel(s, s.pc[t].curr, 0) && Covered(s, s.pc[t].curr, f.key[t])
  {
    var n, k := s.pc[t].curr, f.key[t];
    ArrivedKnows(s.pc[t]);
    KnownIsFinished(s, t, n);
    forall u | SplitsOn(s, u, 0) ensures s.pc[u].curr != n {
      if s.pc[u].curr == n {
        SplitterHolds(s.pc[u]);
        OneHolder(s, t, u, n);
      }
    }
    forall b | NextTo(s, n, b) ensures Le(At(k), s.nodes[b].low) {
      RightIsNext(s, n, b);
      var y := s.nodes[n].right.id;
      assert Links(s, n, y);
      PlacedLink(s, n, y);
      hide Inv, TopOk, Whole, LeavesHidden, HalvesRight;
    }
  }

  lemma ArrivedKnows(pc: Pc)
    ensures pc.Arrived? ==> pc.curr in Knows(pc) && pc.curr in Held(pc)
  {
  }

  ghost predicate BelowStays(s: State, s': State) {
    forall n, k {:trigger StartsBelow(s', n, k)} :: StartsBelow(s, n, k) ==> StartsBelow(s', n, k)
  }

  lemma StepKeepsBelow(s: State, t: Tid, a: Action)
    requires Enabled(s, t, a)
    ensures BelowStays(s, Do(s, t, a))
  {
    hide Enabled, Stored, Placed, Locked, Next;
    var s' := Do(s, t, a);
    forall n, k | StartsBelow(s, n, k) ensures StartsBelow(s', n, k) {
      StepStores(s, t, a, n);
    }
  }

  // Nobody relinks a leaf that another thread has arrived at.
  lemma StopsStill(s: State, t: Tid, a: Action, u: Tid, k: int)
    requires Inv(s) && Enabled(s, t, a) && LeavesHidden(s) && u in s.pc && u != t
    requires s.pc[u].Arrived? && OnLevel(s, s.pc[u].curr, 0) && !GoesOn(s.nodes, s.pc[u].curr, k)
    ensures !GoesOn(Stored(s, t, a), s.pc[u].curr, k)
  {
    var n := s.pc[u].curr;
    ArrivedKnows(s.pc[u]);
    if a.LinkRight? || a.LinkLeft? {
      FreshNode(s, t);
      SplitterHolds(s.pc[t]);
      if s.pc[t].curr == n {
        OneHolder(s, t, u, n);
      }
      assert SplitsOn(s, t, 0) ==> Hidden(s, s.pc[t].m);
    }
    SameRight(s, t, a, n);
    if s.nodes[n].right.Just? {
      var y := s.nodes[n].right.id;
      assert Links(s, n, y);
      PlacedLink(s, n, y);
      StepStores(s, t, a, y);
    }
    hide Inv, Enabled, Stored, Placed, Locked, Next;
  }

  lemma SameRight(s: State, t: Tid, a: Action, n: Id)
    requires Enabled(s, t, a) && n in s.nodes
    requires a.LinkRight? ==> s.pc[t].m != n
    requires a.LinkLeft? ==> s.pc[t].curr != n
    ensures n in Stored(s, t, a) && Stored(s, t, a)[n].right == s.nodes[n].right
  {
  }

  lemma OthersKeyOk(s: State, f: Filling, t: Tid, a: Action, k: int, u: Tid)
    requires Inv(s) && LeavesHidden(s) && Fits(s, f, t, a, k) && KeyOk(s, f, u) && u != t
    ensures KeyOk(Do(s, t, a), Filled(s, f, t, a, k), u)
  {
    StepKeepsBelow(s, t, a);
    OthersKey(s, f, t, a, k, u);
    if s.pc[u].Arrived? && s.pc[u].job.Key? {
      StopsStill(s, t, a, u, f.key[u]);
    }
    hide Inv, LeavesHidden, Fits, Filled, Stored, Placed, Locked, Next, StartsBelow, GoesOn;
  }

  lemma OthersKey(s: State, f: Filling, t: Tid, a: Action, k: int, u: Tid)
    requires Fits(s, f, t, a, k) && u != t
    ensures u in f.key ==> u in Filled(s, f, t, a, k).key && Filled(s, f, t, a, k).key[u] == f.key[u]
  {
  }

  lemma OwnKeyOk(s: State, f: Filling, t: Tid, a: Action, k: int)
    requires Inv(s) && Fits(s, f, t, a, k) && KeyOk(s, f, t)
    ensures KeyOk(Do(s, t, a), Filled(s, f, t, a, k), t)
  {
    StepKeepsBelow(s, t, a);
    if a.GoRight? && s.pc[t].job.Key? {
      GoesToLeaf(s, f, t);
    }
    hide Inv;
    NextKeyOk(s, f, t, a, k);
  }

  lemma GoesToLeaf(s: State, f: Filling, t: Tid)
    requires Inv(s) && t in s.pc && s.pc[t].Seen? && t in f.key && StartsBelow(s, s.pc[t].curr, f.key[t])
    requires GoesOn(s.nodes, s.pc[t].curr, f.key[t])
    ensures StartsBelow(s, s.nodes[s.pc[t].curr].right.id, f.key[t])
  {
    assert Links(s, s.pc[t].curr, s.nodes[s.pc[t].curr].right.id);
    PlacedLink(s, s.pc[t].curr, s.nodes[s.pc[t].curr].right.id);
    hide Inv;
  }

  lemma NextKeyOk(s: State, f: Filling, t: Tid, a: Action, k: int)
    requires Fits(s, f, t, a, k) && KeyOk(s, f, t) && BelowStays(s, Do(s, t, a))
    requires a.GoRight? && s.pc[t].job.Key? ==> StartsBelow(s, s.nodes[s.pc[t].curr].right.id, f.key[t])
    ensures KeyOk(Do(s, t, a), Filled(s, f, t, a, k), t)
  {
    if a.Enter? {
      assert StartsBelow(s, a.leaf, k);
    }
    StillStops(s, t, a);
    hide Stored, Placed, Locked;
  }

  // Looking at a leaf stores nothing.
  lemma StillStops(s: State, t: Tid, a: Action)
    requires Enabled(s, t, a)
    ensures a.Look? || a.Stay? ==> Stored(s, t, a) == s.nodes
  {
  }

  // ---- leaves and keys

  ghost predicate CutsLeaf(s: State, t: Tid, a: Action) {
    a.Alloc? && t in s.pc && s.pc[t].Arrived? && OnLevel(s, s.pc[t].curr, 0)
  }

  lemma StaysCovered(s: State, t: Tid, a: Action, n: Id, k: int)
    requires Inv(s) && TopOk(s) && Enabled(s, t, a) && OnLevel(s, n, 0) && Covered(s, n, k)
    requires CutsLeaf(s, t, a) && (NextTo(s, n, s.pc[t].curr) || n == s.pc[t].curr) ==> Le(At(k), a.low)
    ensures Covered(Do(s, t, a), n, k)
  {
    var s' := Do(s, t, a);
    StepStores(s, t, a, n);
    forall b | NextTo(s', n, b) ensures Le(At(k), s'.nodes[b].low) {
      NextAfter(s, t, a, n, b);
    }
  }

  // Who is next to a leaf after a step: who was, or the leaf that it has been cut from.
  lemma NextAfter(s: State, t: Tid, a: Action, n: Id, b: Id)
    requires Inv(s) && TopOk(s) && Enabled(s, t, a) && OnLevel(s, n, 0) && NextTo(Do(s, t, a), n, b)
    ensures b in s.nodes ==> NextTo(s, n, b) && Stored(s, t, a)[b].low == s.nodes[b].low
    ensures b !in s.nodes ==> CutsLeaf(s, t, a) && b == a.m && Stored(s, t, a)[b].low == a.low
    ensures b !in s.nodes ==> n == s.pc[t].curr || NextTo(s, n, s.pc[t].curr)
  {
    StepKeys(s, t, a);
    InNodes(Do(s, t, a), n, b);
    hide Inv, TopOk, Enabled, Stored, Placed, Locked, Next;
    if b in s.nodes {
      StepStores(s, t, a, b);
      if a.Alloc? {
        CutOthers(s, t, a.m, a.low, n, b);
      } else {
        SameNext(s, t, a, n, b);
      }
    } else if a.Alloc? {
      CutNext(s, t, a.m, a.low, n);
      CutsOnLevel(s, t, a, n);
    } else {
      SameNext(s, t, a, n, b);
    }
  }

  lemma CutsOnLevel(s: State, t: Tid, a: Action, n: Id)
    requires Enabled(s, t, a) && a.Alloc? && OnLevel(s, n, 0) && (n == s.pc[t].curr || NextTo(s, n, s.pc[t].curr))
    ensures CutsLeaf(s, t, a)
  {
  }

  // Above the leaves every job is a pair of halves.
  lemma LeafJobIsKey(s: State, t: Tid)
    requires Inv(s) && t in s.pc && s.pc[t].Arrived? && OnLevel(s, s.pc[t].curr, 0)
    ensures s.pc[t].job.Key?
  {
    hide OwnsOk, LinkOk, FreshOk;
    assert PcOk(s, s.pc[t]);
  }

  /**
   A leaf is cut inside its range: above its own lower bound, and below the lower bounds of all
   leaves to its right.
   */
  lemma LeafCutIsInside(s: State, f: Filling, t: Tid, a: Action, k: int)
    requires LeavesOk(s) && Ranged(s, f) && Fits(s, f, t, a, k) && CutsLeaf(s, t, a)
    ensures CutInside(s, s.pc[t].curr, a.low) && s.pc[t].job.Key? && t in f.key && s.pc[t].curr in f.keys
    ensures forall x :: x in f.keys[s.pc[t].curr] + {f.key[t]} ==> Covered(s, s.pc[t].curr, x)
  {
    var n := s.pc[t].curr;
    LeafJobIsKey(s, t);
    assert KeyOk(s, f, t) && InRange(s, f, n);
    ArrivedCovers(s, f, t);
    hide LeavesOk, LeavesAscend;
    var x :| x in f.keys[n] + {f.key[t]} && a.low.v < x;
    assert Covered(s, n, x) && Covered(s, n, a.low.v);
  }

  lemma StepKeepsAscent(s: State, t: Tid, a: Action)
    requires Inv(s) && TopOk(s) && LeavesAscend(s) && Enabled(s, t, a)
    requires CutsLeaf(s, t, a) ==> CutInside(s, s.pc[t].curr, a.low)
    ensures LeavesAscend(Do(s, t, a))
  {
    var s' := Do(s, t, a);
    forall x, y | OnLevel(s', x, 0) && NextTo(s', x, y) ensures Lt(s'.nodes[x].low, s'.nodes[y].low) {
      LeafAfter(s, t, a, x);
      if x in s.nodes {
        StepStores(s, t, a, x);
        NextAfter(s, t, a, x, y);
      } else {
        CutNextLeaf(s, t, a, y);
      }
      hide Inv, TopOk, Enabled, Stored, Placed, Locked, Next;
    }
  }

  // A new leaf is the right half of one.
  lemma LeafAfter(s: State, t: Tid, a: Action, n: Id)
    requires Enabled(s, t, a) && OnLevel(Do(s, t, a), n, 0)
    ensures OnLevel(s, n, 0) || (CutsLeaf(s, t, a) && n == a.m && n !in s.nodes && Stored(s, t, a)[n].low == a.low)
  {
    if n in s.nodes {
      StepStores(s, t, a, n);
    }
    hide Placed, Locked, Next;
  }

  lemma CutNextLeaf(s: State, t: Tid, a: Action, y: Id)
    requires Inv(s) && Enabled(s, t, a) && a.Alloc? && NextTo(Do(s, t, a), a.m, y)
    ensures NextTo(s, s.pc[t].curr, y) && Stored(s, t, a)[y].low == s.nodes[y].low
  {
    StepKeys(s, t, a);
    InNodes(Do(s, t, a), a.m, y);
    CutNext(s, t, a.m, a.low, y);
  }

  // ---- what the leaves hold after a step

  lemma OtherRange(s: State, f: Filling, t: Tid, a: Action, k: int, n: Id)
    requires LeavesOk(s) && Ranged(s, f) && Fits(s, f, t, a, k) && OnLevel(s, n, 0)
    requires (a.Room? && s.pc[t].job.Key?) || CutsLeaf(s, t, a) ==> n != s.pc[t].curr
    ensures InRange(Do(s, t, a), Filled(s, f, t, a, k), n)
  {
    assert InRange(s, f, n);
    SameKeys(s, f, t, a, k, n);
    if CutsLeaf(s, t, a) {
      LeafCutIsInside(s, f, t, a, k);
    }
    hide Filled, Fits, LeavesOk;
    forall x | x in f.keys[n] ensures Covered(Do(s, t, a), n, x) {
      OtherCovered(s, f, t, a, n, x);
    }
  }

  lemma OtherCovered(s: State, f: Filling, t: Tid, a: Action, n: Id, x: int)
    requires LeavesOk(s) && Enabled(s, t, a) && OnLevel(s, n, 0) && Covered(s, n, x)
    requires CutsLeaf(s, t, a) ==> n != s.pc[t].curr && CutInside(s, s.pc[t].curr, a.low)
    ensures Covered(Do(s, t, a), n, x)
  {
    StaysCovered(s, t, a, n, x);
  }

  lemma SameKeys(s: State, f: Filling, t: Tid, a: Action, k: int, n: Id)
    requires Inv(s) && Fits(s, f, t, a, k) && n in f.keys && OnLevel(s, n, 0)
    requires (a.Room? && s.pc[t].job.Key?) || CutsLeaf(s, t, a) ==> n != s.pc[t].curr
    ensures n in Filled(s, f, t, a, k).keys && Filled(s, f, t, a, k).keys[n] == f.keys[n]
  {
  }

  // A leaf with room takes the key.
  lemma RoomRange(s: State, f: Filling, t: Tid, k: int)
    requires LeavesOk(s) && Ranged(s, f) && Fits(s, f, t, Room, k) && s.pc[t].job.Key?
    ensures InRange(Do(s, t, Room), Filled(s, f, t, Room, k), s.pc[t].curr)
  {
    var n := s.pc[t].curr;
    assert KeyOk(s, f, t);
    ArrivedCovers(s, f, t);
    assert InRange(s, f, n);
    assert Filled(s, f, t, Room, k).keys[n] == f.keys[n] + {f.key[t]};
    hide Fits, Filled, LeavesOk, KeyOk;
    forall x | x in f.keys[n] + {f.key[t]} ensures Covered(Do(s, t, Room), n, x) {
      OtherCovered(s, f, t, Room, n, x);
    }
  }

  lemma CutRange(s: State, f: Filling, t: Tid, a: Action, k: int)
    requires LeavesOk(s) && Ranged(s, f) && Fits(s, f, t, a, k) && CutsLeaf(s, t, a)
    ensures InRange(Do(s, t, a), Filled(s, f, t, a, k), s.pc[t].curr)
    ensures InRange(Do(s, t, a), Filled(s, f, t, a, k), a.m)
  {
    var s', f', n := Do(s, t, a), Filled(s, f, t, a, k), s.pc[t].curr;
    LeafCutIsInside(s, f, t, a, k);
    CutKeys(s, f, t, a, k);
    hide Fits, Filled;
    forall x | x in f'.keys[n] ensures Covered(s', n, x) {
      StaysCovered(s, t, a, n, x);
    }
    forall x | x in f'.keys[a.m] ensures Covered(s', a.m, x) {
      RightCovered(s, t, a, x);
    }
  }

  lemma CutKeys(s: State, f: Filling, t: Tid, a: Action, k: int)
    requires Fits(s, f, t, a, k) && CutsLeaf(s, t, a) && s.pc[t].job.Key?
    ensures var f', n, temp := Filled(s, f, t, a, k), s.pc[t].curr, f.keys[s.pc[t].curr] + {f.key[t]};
      && a.low.At? && n in f'.keys && a.m in f'.keys
      && (forall x :: x in f'.keys[n] <==> x in temp && x <= a.low.v)
      && (forall x :: x in f'.keys[a.m] <==> x in temp && a.low.v < x)
  {
  }

  lemma RightCovered(s: State, t: Tid, a: Action, x: int)
    requires LeavesOk(s) && Enabled(s, t, a) && CutsLeaf(s, t, a) && Covered(s, s.pc[t].curr, x)
    requires a.low.At? && a.low.v < x
    ensures Covered(Do(s, t, a), a.m, x)
  {
    var s' := Do(s, t, a);
    assert a.m in s'.nodes && s'.nodes[a.m].low == a.low;
    hide LeavesOk, Stored, Placed, Locked, Next;
    forall b | NextTo(s', a.m, b) ensures Le(At(x), s'.nodes[b].low) {
      CutNextLeaf(s, t, a, b);
    }
  }

  lemma StepKeepsRanged(s: State, f: Filling, t: Tid, a: Action, k: int)
    requires LeavesOk(s) && Ranged(s, f) && Fits(s, f, t, a, k)
    ensures Ranged(Do(s, t, a), Filled(s, f, t, a, k))
  {
    var s', f' := Do(s, t, a), Filled(s, f, t, a, k);
    if CutsLeaf(s, t, a) {
      LeafCutIsInside(s, f, t, a, k);
    }
    StepKeepsAscent(s, t, a);
    forall u | u in s'.pc ensures KeyOk(s', f', u) {
      assert u in s.pc && KeyOk(s, f, u) && KeyOk(s, f, t);
      if u == t {
        OwnKeyOk(s, f, t, a, k);
      } else {
        OthersKeyOk(s, f, t, a, k, u);
      }
    }
    forall n | OnLevel(s', n, 0) ensures InRange(s', f', n) {
      LeafAfter(s, t, a, n);
      KeepsRange(s, f, t, a, k, n);
    }
  }

  lemma KeepsRange(s: State, f: Filling, t: Tid, a: Action, k: int, n: Id)
    requires LeavesOk(s) && Ranged(s, f) && Fits(s, f, t, a, k)
    requires OnLevel(s, n, 0) || (CutsLeaf(s, t, a) && n == a.m)
    ensures InRange(Do(s, t, a), Filled(s, f, t, a, k), n)
  {
    hide LeavesOk, Ranged, Filled, InRange;
    if CutsLeaf(s, t, a) && n in {a.m, s.pc[t].curr} {
      CutRange(s, f, t, a, k);
    } else if a.Room? && s.pc[t].job.Key? && n == s.pc[t].curr {
      RoomRange(s, f, t, k);
    } else {
      OtherRange(s, f, t, a, k, n);
    }
  }

  // ---- runs

  lemma InitIsRanged(s: State, f: Filling)
    requires Init(s) && f.keys == map[s.root := {}]
    ensures Ranged(s, f) && HalvesRight(s)
  {
  }

  lemma FitsEntersWell(s: State, f: Filling, t: Tid, a: Action, k: int)
    requires Fits(s, f, t, a, k)
    ensures EntersWell(s, a)
  {
  }

  lemma KeyRunEntersWell(states: seq<State>, moves: seq<Move>, fs: seq<Filling>, ks: seq<int>, i: nat)
    requires KeyRun(states, moves, fs, ks) && i < |states|
    ensures EnterWell(states, moves, i)
  {
    hide Init, Enabled, Do, Fits, Filled, EntersWell;
    forall j | 0 <= j < i ensures EntersWell(states[j], moves[j].a) {
      FitsEntersWell(states[j], fs[j], moves[j].t, moves[j].a, ks[j]);
    }
  }

  lemma {:induction false} RunKeepsHalvesRight(states: seq<State>, moves: seq<Move>, i: nat)
    requires Run(states, moves) && i < |states| && EnterWell(states, moves, i)
    ensures HalvesRight(states[i])
  {
    hide Inv, Enabled, Do, LeavesHidden, HalvesRight;
    if i > 0 {
      hide Init;
      RunKeepsHalvesRight(states, moves, i - 1);
      RunKeepsInv(states, moves, i - 1);
      RunKeepsHidden(states, moves, i - 1);
      StepKeepsHalvesRight(states[i - 1], moves[i - 1].t, moves[i - 1].a);
    } else {
      InitHalves(states[0]);
    }
  }

  lemma InitHalves(s: State)
    requires Init(s)
    ensures HalvesRight(s)
  {
  }

  lemma RunKeepsLeavesOk(states: seq<State>, moves: seq<Move>, i: nat)
    requires Run(states, moves) && i < |states| && EnterWell(states, moves, i)
    ensures LeavesOk(states[i])
  {
    hide Run, Inv, TopOk, Whole, LeavesHidden, HalvesRight, EnterWell;
    RunKeepsTop(states, moves, i);
    LeafLevelIsWhole(states, moves, i);
    RunKeepsHidden(states, moves, i);
    RunKeepsHalvesRight(states, moves, i);
  }

  /**
   In every state of every run of any number of writers: along the leaves lower bounds ascend,
   every leaf holds only keys of its own range, and every insertion is at a leaf that starts
   below its key.
   */
  lemma {:induction false} KeysStayInRange(
    states: seq<State>, moves: seq<Move>, fs: seq<Filling>, ks: seq<int>, i: nat)
    requires KeyRun(states, moves, fs, ks) && i < |states|
    ensures LeavesOk(states[i]) && Ranged(states[i], fs[i])
  {
    hide Inv, Enabled, Do, LeavesOk, Ranged, Fits, Filled;
    KeyRunEntersWell(states, moves, fs, ks, i);
    RunKeepsLeavesOk(states, moves, i);
    if i > 0 {
      hide Init;
      KeysStayInRange(states, moves, fs, ks, i - 1);
      StepKeepsRanged(states[i - 1], fs[i - 1], moves[i - 1].t, moves[i - 1].a, ks[i - 1]);
    } else {
      InitIsRanged(states[0], fs[0]);
    }
  }

  /**
   Every split of a leaf, in every run, cuts inside the leaf's range.
   */
  lemma LeafCutsAreInside(states: seq<State>, moves: seq<Move>, fs: seq<Filling>, ks: seq<int>, i: nat)
    requires KeyRun(states, moves, fs, ks) && i < |moves| && CutsLeaf(states[i], moves[i].t, moves[i].a)
    ensures CutInside(states[i], states[i].pc[moves[i].t].curr, moves[i].a.low)
  {
    hide Inv, Enabled, Do, LeavesOk, Ranged, Fits, Filled, Init;
    KeysStayInRange(states, moves, fs, ks, i);
    LeafCutIsInside(states[i], fs[i], moves[i].t, moves[i].a, ks[i]);
  }

  // ---- what is stored

  ghost predicate Holds(f: Filling, x: int) {
    exists n :: HasKey(f, n, x)
  }

  ghost predicate HasKey(f: Filling, n: Id, x: int) {
    n in f.keys && x in f.keys[n]
  }

  ghost predicate KeysInLeaves(s: State, f: Filling) {
    forall n :: n in f.keys ==> OnLevel(s, n, 0)
  }

  // The step puts the key of its insertion into a leaf.
  ghost predicate Puts(s: State, f: Filling, t: Tid, a: Action, x: int) {
    (a.Room? || a.Alloc?) && t in s.pc && s.pc[t].Arrived? && s.pc[t].job.Key? && t in f.key && f.key[t] == x
  }

  lemma StepKeepsKeysInLeaves(s: State, f: Filling, t: Tid, a: Action, k: int)
    requires Fits(s, f, t, a, k) && KeysInLeaves(s, f)
    ensures KeysInLeaves(Do(s, t, a), Filled(s, f, t, a, k))
  {
    hide Placed, Locked, Next;
    var f' := Filled(s, f, t, a, k);
    forall n | n in f'.keys ensures OnLevel(Do(s, t, a), n, 0) {
      if n in f.keys {
        StepStores(s, t, a, n);
      }
    }
  }

  lemma StepKeepsKeys(s: State, f: Filling, t: Tid, a: Action, k: int, x: int)
    requires Fits(s, f, t, a, k) && KeysInLeaves(s, f)
    ensures Holds(Filled(s, f, t, a, k), x) <==> Holds(f, x) || Puts(s, f, t, a, x)
  {
    hide Fits, Filled, Puts, HasKey, KeysInLeaves;
    var f' := Filled(s, f, t, a, k);
    if n :| HasKey(f, n, x) {
      KeyGoesTo(s, f, t, a, k, n, x);
    }
    if Puts(s, f, t, a, x) {
      PutGoesTo(s, f, t, a, k, x);
    }
    if n :| HasKey(f', n, x) {
      KeyComesFrom(s, f, t, a, k, n, x);
    }
  }

  lemma KeyGoesTo(s: State, f: Filling, t: Tid, a: Action, k: int, n: Id, x: int)
    requires Fits(s, f, t, a, k) && KeysInLeaves(s, f) && HasKey(f, n, x)
    ensures Holds(Filled(s, f, t, a, k), x)
  {
    var f' := Filled(s, f, t, a, k);
    assert OnLevel(s, n, 0);
    assert HasKey(f', if a.Alloc? && s.pc[t].job.Key? && n == s.pc[t].curr && a.low.v < x then a.m else n, x);
  }

  lemma PutGoesTo(s: State, f: Filling, t: Tid, a: Action, k: int, x: int)
    requires Fits(s, f, t, a, k) && KeysInLeaves(s, f) && Puts(s, f, t, a, x)
    ensures Holds(Filled(s, f, t, a, k), x)
  {
    var f' := Filled(s, f, t, a, k);
    assert OnLevel(s, s.pc[t].curr, 0);
    assert HasKey(f', if a.Alloc? && a.low.v < x then a.m else s.pc[t].curr, x);
  }

  lemma KeyComesFrom(s: State, f: Filling, t: Tid, a: Action, k: int, n: Id, x: int)
    requires Fits(s, f, t, a, k) && HasKey(Filled(s, f, t, a, k), n, x)
    ensures Holds(f, x) || Puts(s, f, t, a, x)
  {
    if !HasKey(f, n, x) {
      assert HasKey(f, s.pc[t].curr, x) || x == f.key[t];
    }
  }

  // Some step before the i-th state has put x into a leaf.
  ghost predicate PutBefore(states: seq<State>, moves: seq<Move>, fs: seq<Filling>, i: nat, x: int)
    requires i <= |moves| && i <= |states| && i <= |fs|
  {
    exists j {:trigger moves[j]} :: 0 <= j < i && Puts(states[j], fs[j], moves[j].t, moves[j].a, x)
  }

  /**
   No key is lost and none appears: after any number of steps of any number of writers the
   leaves hold exactly the keys that insertions have put in.
   */
  lemma {:induction false} HoldsIff(
    states: seq<State>, moves: seq<Move>, fs: seq<Filling>, ks: seq<int>, i: nat, x: int)
    requires KeyRun(states, moves, fs, ks) && i < |states|
    ensures Holds(fs[i], x) <==> PutBefore(states, moves, fs, i, x)
    ensures KeysInLeaves(states[i], fs[i])
  {
    if i > 0 {
      hide Init, Do, Enabled, Holds, Puts, Fits, Filled, KeysInLeaves;
      HoldsIff(states, moves, fs, ks, i - 1, x);
      assert PutBefore(states, moves, fs, i, x) <==>
        PutBefore(states, moves, fs, i - 1, x)
        || Puts(states[i - 1], fs[i - 1], moves[i - 1].t, moves[i - 1].a, x);
      StepKeepsKeys(states[i - 1], fs[i - 1], moves[i - 1].t, moves[i - 1].a, ks[i - 1], x);
      StepKeepsKeysInLeaves(states[i - 1], fs[i - 1], moves[i - 1].t, moves[i - 1].a, ks[i - 1]);
    }
  }

  // Two leaves whose ranges share a key are one.
  lemma OneLeafCovers(s: State, p: Id, q: Id, x: int)
    requires Inv(s) && OnLevel(s, p, 0) && OnLevel(s, q, 0) && Covered(s, p, x) && Covered(s, q, x)
    ensures p == q
  {
    hide LinkOk, FreshOk, PcOk, OwnsOk;
    assert p == q || NextTo(s, p, q) || NextTo(s, q, p);
  }

  /**
   An insertion that has arrived is at the only leaf whose range its key is in: the key has
   been put in before, by any writer, if and only if this leaf holds it.
   */
  lemma ArrivedDecides(states: seq<State>, moves: seq<Move>, fs: seq<Filling>, ks: seq<int>, i: nat, t: Tid)
    requires KeyRun(states, moves, fs, ks) && i < |states|
    requires t in states[i].pc && states[i].pc[t].Arrived? && states[i].pc[t].job.Key?
    ensures t in fs[i].key
    ensures HasKey(fs[i], states[i].pc[t].curr, fs[i].key[t]) <==> PutBefore(states, moves, fs, i, fs[i].key[t])
  {
    hide Init, Do, Enabled, Fits, Filled, PutBefore, Ranged, LeavesOk, KeysInLeaves;
    KeysStayInRange(states, moves, fs, ks, i);
    ArrivedHasRange(states[i], fs[i], t);
    HoldsIff(states, moves, fs, ks, i, fs[i].key[t]);
    ArrivedHolds(states[i], fs[i], t);
  }

  lemma ArrivedHasRange(s: State, f: Filling, t: Tid)
    requires LeavesOk(s) && Ranged(s, f) && t in s.pc && s.pc[t].Arrived? && s.pc[t].job.Key?
    ensures t in f.key && OnLevel(s, s.pc[t].curr, 0) && Covered(s, s.pc[t].curr, f.key[t])
  {
    hide LeavesOk;
    assert KeyOk(s, f, t);
    ArrivedCovers(s, f, t);
  }

  lemma ArrivedHolds(s: State, f: Filling, t: Tid)
    requires LeavesOk(s) && Ranged(s, f) && t in s.pc && s.pc[t].Arrived? && s.pc[t].job.Key? && KeysInLeaves(s, f)
    ensures t in f.key && (HasKey(f, s.pc[t].curr, f.key[t]) <==> Holds(f, f.key[t]))
  {
    ArrivedHasRange(s, f, t);
    if n :| HasKey(f, n, f.key[t]) {
      assert OnLevel(s, n, 0) && InRange(s, f, n);
      hide Inv, TopOk, Whole, LeavesHidden, HalvesRight, Ranged;
      OneLeafCovers(s, n, s.pc[t].curr, f.key[t]);
    }
  }
}
