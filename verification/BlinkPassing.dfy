/**
 A run of the program at fan-out 4 in which a writer waits for a parent that another writer
 is splitting. When it gets the lock its place is in the right half, so move_right goes on
 there, above the leaves, holding three locks on the way.
 */
module BlinkPassing {
  import opened BlinkState
  import opened BlinkLocks
  import opened BlinkPlay
  import opened BlinkWindow

  // Keys 91 and 92 by thread 1: leaf 5 is split, while thread 0 holds the full node 6.
  ghost predicate SplitBeside(w0: World, w: World) {
    && FullNode(w0)
    && w.s == w0.s.(
         nodes := Linked(w0.s.nodes[10 := Spot(0, At(91), Nothing, Just(6), {})], 5, 10),
         place := Squeezed(w0.s.place, 5, 10), owner := w0.s.owner[5 := 1], pc := w0.s.pc[1 := Up(5, 10)])
  }

  lemma FullFinds(w: World, k: int)
    requires FullNode(w) && 80 < k <= 100
    ensures Enters(w.s, k, 5)
  {
    FindsTwo(w.s, k, 6, 5);
  }

  lemma SplitsBeside() returns (w: World, w0: World)
    ensures Played(N, w) && SplitBeside(w0, w)
  {
    w0 := FillsNode();
    hide Played, NextTo, Squeezed, Enters, UpTo, Linked;
    FullFinds(w0, 91);
    FullFinds(w0, 92);
    UpToFresh(w0.s, 10);
    assert {90, 100} + {91} + {92} == {90, 91} + {92, 100};
    w := AddAndSplit(N, w0, 1, 5, 91, 92, 10, 91, {90, 91}, {92, 100});
  }

  // It has read node 6 as the parent, and waits for its lock.
  ghost predicate Waiting(w: World) {
    && w.s.owner == map[8 := 0, 6 := 0, 5 := 1]
    && w.s.pc == Threads(Arrived(Halves(8, 9), 6), WantParent(5, 10, 6))
    && UpTo(w.s, 11) && w.s.root == 7
    && NextTo(w.s, 3, 4) && NextTo(w.s, 4, 5) && NextTo(w.s, 5, 8) && NextTo(w.s, 8, 9)
    && LeafAt(w.s, 3, At(40), 6) && LeafAt(w.s, 4, At(60), 6) && LeafAt(w.s, 5, At(80), 6)
    && LeafAt(w.s, 8, At(100), 6) && LeafAt(w.s, 9, At(120), 6) && LeafAt(w.s, 10, At(91), 6)
    && Is(w.s, 6, Spot(1, At(40), Nothing, Just(7), {3, 4, 5, 8})) && Is(w.s, 7, Spot(2, Bot, Nothing, Nothing, {2, 6}))
  }

  lemma SplitOrder(w0: World, w: World)
    requires SplitBeside(w0, w)
    ensures Keeps(w0.s, w.s) && w.s.place.Keys == w0.s.place.Keys + {10} && UpTo(w.s, 11)
  {
    hide Squeezed, NextTo, LeafAt;
    CutPlaces(w0.s, w.s, 5, 10);
  }

  lemma Waits() returns (w: World)
    ensures Played(N, w) && Waiting(w)
  {
    var w1, w0 := SplitsBeside();
    SplitOrder(w0, w1);
    hide Played, NextTo, Squeezed, UpTo, LeafAt;
    w := ReadsParent(N, w1, 1, 6);
    BecomesWaiting(w0, w1, w);
  }

  lemma BecomesWaiting(w0: World, w1: World, w: World)
    requires SplitBeside(w0, w1) && Keeps(w0.s, w1.s) && UpTo(w1.s, 11)
    requires w == w1.(s := w1.s.(pc := w1.s.pc[1 := WantParent(5, 10, 6)]))
    ensures Waiting(w)
  {
    SameOrder(w1.s, w.s);
    SameUpTo(w1.s, w.s, 11);
    hide NextTo, Squeezed, UpTo;
  }

  lemma SameUpTo(s: State, s': State, n: Id)
    requires UpTo(s, n) && s'.nodes == s.nodes && s'.place == s.place
    ensures UpTo(s', n)
  {
  }

  // Thread 0 splits node 6; the children of the right half 11 get it as their parent, and node 5 is one of them.
  ghost predicate Halved(w0: World, w: World) {
    Waiting(w0) && w == w0.(s := w0.s.(
      nodes := ThreeParented(w0.s.nodes[11 := Spot(1, At(80), Nothing, Just(7), {5, 8, 9})], 5, 8, 9, 11),
      place := Squeezed(w0.s.place, 6, 11), pc := w0.s.pc[0 := Splitting(Halves(8, 9), 6, 11, {3, 4, 5, 8} + {9})]))
  }

  lemma Halves6() returns (w: World, w0: World)
    ensures Played(N, w) && Halved(w0, w)
  {
    w0 := Waits();
    hide Played, Squeezed, UpTo;
    UpToFresh(w0.s, 11);
    assert {3, 4, 5, 8} + {9} == {3, 4, 5, 8, 9};
    FiveCut(w0.s, 3, 4, 5, 8, 9);
    hide NextTo, KidCut;
    w := ShareOut(w0, 0, 11, At(80), {3, 4}, 5, 8, 9);
  }

  ghost predicate ReadyToLink(w: World) {
    && w.s.owner == map[8 := 0, 6 := 0, 5 := 1]
    && w.s.pc == Threads(Splitting(Halves(8, 9), 6, 11, {3, 4, 5, 8, 9}), WantParent(5, 10, 6)) && w.s.root == 7
    && NextTo(w.s, 3, 4) && NextTo(w.s, 4, 5) && NextTo(w.s, 5, 8) && NextTo(w.s, 8, 9)
    && LeafAt(w.s, 3, At(40), 6) && LeafAt(w.s, 4, At(60), 6) && LeafAt(w.s, 5, At(80), 11)
    && LeafAt(w.s, 8, At(100), 11) && LeafAt(w.s, 9, At(120), 11) && LeafAt(w.s, 10, At(91), 6)
    && Is(w.s, 6, Spot(1, At(40), Nothing, Just(7), {3, 4, 5, 8})) && Is(w.s, 7, Spot(2, Bot, Nothing, Nothing, {2, 6}))
    && Is(w.s, 11, Spot(1, At(80), Nothing, Just(7), {5, 8, 9}))
  }

  lemma HalvedOrder(w0: World, w: World)
    requires Halved(w0, w)
    ensures Keeps(w0.s, w.s)
  {
    hide Squeezed, NextTo;
    CutPlaces(w0.s, w.s, 6, 11);
  }

  lemma HalvedIsReady(w0: World, w: World)
    requires Halved(w0, w)
    ensures ReadyToLink(w)
  {
    HalvedOrder(w0, w);
    hide Squeezed, NextTo, UpTo;
    assert {3, 4, 5, 8} + {9} == {3, 4, 5, 8, 9};
  }

  // Node 6 is linked to node 11, and its separator is in the root: thread 0 is done.
  ghost predicate Released(w: World) {
    && w.s.owner == map[5 := 1] && w.s.pc == Threads(Idle, WantParent(5, 10, 6)) && w.s.root == 7
    && LeafAt(w.s, 10, At(91), 6)
    && Is(w.s, 6, Spot(1, At(40), Just(11), Just(7), {3, 4}))
    && Is(w.s, 11, Spot(1, At(80), Nothing, Just(7), {5, 8, 9}))
  }

  ghost predicate LinkedTo11(w0: World, w: World) {
    ReadyToLink(w0) && w == w0.(s := w0.s.(
      nodes := w0.s.nodes[6 := w0.s.nodes[6].(kids := {3, 4}, right := Just(11))]
                         [11 := w0.s.nodes[11].(right := Nothing)],
      owner := map[6 := 0, 5 := 1], pc := Threads(Up(6, 11), WantParent(5, 10, 6))))
  }

  lemma CanLink(w: World)
    requires ReadyToLink(w)
    ensures KidCut(N, w.s, {3, 4, 5, 8, 9}, {3, 4}, {5, 8, 9}) && Elsewhere(w.s, {5, 8, 9}, 6)
      && Adopted(w.s, {3, 4}, 6)
  {
    FiveCut(w.s, 3, 4, 5, 8, 9);
  }

  lemma Links6(w0: World) returns (w: World)
    requires Played(N, w0) && ReadyToLink(w0)
    ensures Played(N, w) && LinkedTo11(w0, w)
  {
    hide Played, KidCut, NextTo, Elsewhere, Adopted, LeafAt;
    CanLink(w0);
    w := KeepAndClose(N, w0, 0, {3, 4}, {5, 8, 9});
    assert w.s.owner == map[6 := 0, 5 := 1];
  }

  lemma Releases(w0: World, w1: World) returns (w: World)
    requires Played(N, w1) && LinkedTo11(w0, w1)
    ensures Played(N, w) && Released(w)
  {
    hide Played, NextTo, LeafAt, Released;
    w := ClimbAndClose(N, w1, 0, 7, 80);
    IsReleased(w0, w1, w);
  }

  lemma IsReleased(w0: World, w1: World, w: World)
    requires LinkedTo11(w0, w1)
    requires w == w1.(s := w1.s.(
      nodes := w1.s.nodes[7 := w1.s.nodes[7].(kids := w1.s.nodes[7].kids + {11})],
      owner := w1.s.owner - {6}, pc := w1.s.pc[0 := Idle]))
    ensures Released(w)
  {
    hide NextTo;
    assert w.s.owner == map[5 := 1];
  }

  lemma Reaches6() returns (w: World)
    ensures Played(N, w) && Released(w)
  {
    hide Played, Halved, ReadyToLink, LinkedTo11, Released;
    var w0;
    w, w0 := Halves6();
    HalvedIsReady(w0, w);
    var w1 := Links6(w);
    w := Releases(w, w1);
  }

  // Thread 1 holds its left half 5, the parent 6 it had read, and the parent 11 it should go to.
  ghost predicate ThreeHeld(s: State) {
    && s.pc == Threads(Idle, Passing(Halves(5, 10), 6, 11)) && Held(s.pc[1]) == {5, 6, 11}
    && s.owner == map[5 := 1, 6 := 1, 11 := 1]
    && Is(s, 6, Spot(1, At(40), Just(11), Just(7), {3, 4})) && Is(s, 11, Spot(1, At(80), Nothing, Just(7), {5, 8, 9}))
  }

  lemma Passes() returns (w: World)
    ensures Played(N, w) && ThreeHeld(w.s)
  {
    hide Played;
    w := Reaches6();
    w := Go(N, w, 1, TakeLock, 0);
    assert Target(w, 1, 91);
    w := BesideNext(N, w, 1, 11, 91);
    assert w.s.owner == map[5 := 1, 6 := 1, 11 := 1];
  }

  // The right half 10 of node 5 has become a child of node 11, and both threads are idle.
  ghost predicate Joined(s: State) {
    Quiet(s) && Is(s, 6, Spot(1, At(40), Just(11), Just(7), {3, 4}))
    && Is(s, 11, Spot(1, At(80), Nothing, Just(7), {5, 8, 9, 10}))
  }

  /**
   A run of the program at fan-out 4, from the empty tree, in which three locks are held at once, on a
   node and on two nodes of the level above...
   */
  lemma ThreeLocksAreHeld() returns (ws: seq<World>, moves: seq<Move>, ks: seq<int>)
    ensures Play(N, ws, moves, ks) && ThreeHeld(ws[|moves|].s)
  {
    hide ThreeHeld;
    var w := Passes();
    ws, moves, ks :| Play(N, ws, moves, ks) && ws[|moves|] == w;
  }

  /** ... and how it goes on, until the new node is a child of the right one of the two. */
  lemma Joins(w0: World) returns (w: World)
    requires Played(N, w0) && ThreeHeld(w0.s)
    ensures Played(N, w) && Joined(w.s)
  {
    hide Played;
    w := Go(N, w0, 1, LetGo, 0);
    w := Go(N, w, 1, Look, 0);
    w := Close(N, w, 1);
    assert {5, 8, 9} + {10} == {5, 8, 9, 10};
  }
}
