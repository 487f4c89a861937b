/**
 The window between the allocation of a right half and line 279, in a run of the program
 at fan-out 4: other insertions reach the half through its children's parent fields, fill
 it, split it, and the link they store is overwritten.
 */
module BlinkWindow {
  import opened BlinkState
  import opened BlinkLocks
  import opened BlinkLinks
  import opened BlinkKeyRuns
  import opened BlinkPlay

  const N: Fanout := 4

  function Threads(a: Pc, b: Pc): map<Tid, Pc> {
    map[0 := a, 1 := b]
  }

  // The nodes so far are below n.
  ghost predicate UpTo(s: State, n: Id) {
    && s.place.Keys == s.nodes.Keys
    && forall x {:trigger s.nodes[x]} :: x in s.nodes ==> x < n && (s.nodes[x].right.Just? ==> s.nodes[x].right.id < n)
  }

  ghost predicate Is(s: State, n: Id, spot: Spot) {
    n in s.nodes && s.nodes[n] == spot
  }

  ghost predicate LeafAt(s: State, n: Id, low: Bound, parent: Id) {
    n in s.nodes && s.nodes[n].level == 0 && s.nodes[n].low == low && s.nodes[n].parent == Just(parent)
  }

  ghost predicate Holds(w: World, n: Id, keys: set<int>) {
    n in w.f.keys && w.f.keys[n] == keys
  }

  ghost predicate Quiet(s: State) {
    s.owner == map[] && s.pc == Threads(Idle, Idle)
  }

  lemma FindsOne(s: State, k: int, leaf: Id)
    requires s.root in s.nodes && s.nodes[s.root].level == 1 && Picks(s.nodes, s.root, leaf, k)
      && s.nodes[leaf].level == 0
    ensures Enters(s, k, leaf)
  {
    assert Descends(s.nodes, leaf, k, leaf, 0);
  }

  lemma FindsTwo(s: State, k: int, p: Id, leaf: Id)
    requires s.root in s.nodes && s.nodes[s.root].level == 2 && Picks(s.nodes, s.root, p, k)
    requires s.nodes[p].level == 1 && Picks(s.nodes, p, leaf, k) && s.nodes[leaf].level == 0
    ensures Enters(s, k, leaf)
  {
    assert Descends(s.nodes, leaf, k, leaf, 0);
    assert Descends(s.nodes, p, k, leaf, 1);
  }

  // ---- one thread builds the tree

  function OneLeaf(): State {
    State(map[0 := Spot(0, Bot, Nothing, Nothing, {})], 0, map[0 := 0], map[], Threads(Idle, Idle))
  }

  lemma Begin() returns (w: World)
    ensures Played(N, w) && w.s == OneLeaf()
    ensures w.f.keys == map[0 := {}]
  {
    w := World(OneLeaf(), Filling(map[0 := {}], map[]));
    var moves: seq<Move>, ks: seq<int> := [], [];
    assert Play(N, [w], moves, ks) && [w][|moves|] == w;
  }

  lemma FirstKeys() returns (w: World)
    ensures Played(N, w) && w.s == OneLeaf()
    ensures w.f.keys == map[0 := {10, 20}]
  {
    hide Played;
    w := Begin();
    w := Add(N, w, 0, 0, 10);
    w := Add(N, w, 0, 0, 20);
    assert {} + {10} + {20} == {10, 20};
  }

  // Keys 30 and 40: the first leaf is split, and the tree gets a root.
  ghost predicate Two(w: World) {
    && Quiet(w.s) && UpTo(w.s, 3) && w.s.root == 2 && NextTo(w.s, 0, 1)
    && LeafAt(w.s, 0, Bot, 2) && Is(w.s, 1, Spot(0, At(20), Nothing, Just(2), {})) && Holds(w, 1, {30, 40})
    && Is(w.s, 2, Spot(1, Bot, Nothing, Nothing, {0, 1}))
  }

  ghost predicate Split(w: World) {
    && w.s.owner == map[0 := 0] && w.s.pc == Threads(Up(0, 1), Idle) && UpTo(w.s, 2) && w.s.root == 0
      && NextTo(w.s, 0, 1)
    && Is(w.s, 0, Spot(0, Bot, Just(1), Nothing, {})) && Is(w.s, 1, Spot(0, At(20), Nothing, Nothing, {}))
    && Holds(w, 1, {30, 40})
  }

  lemma SplitsFirst() returns (w: World)
    ensures Played(N, w) && Split(w)
  {
    var w0 := FirstKeys();
    hide Played, NextTo, Squeezed;
    assert {10, 20} + {30} + {40} == {10, 20} + {30, 40};
    w := AddAndSplit(N, w0, 0, 0, 30, 40, 1, 20, {10, 20}, {30, 40});
    CutPlaces(w0.s, w.s, 0, 1);
  }

  lemma GrowsTwo() returns (w: World)
    ensures Played(N, w) && Two(w)
  {
    var w0 := SplitsFirst();
    hide Played, NextTo, Squeezed;
    w := GrowTree(N, w0, 0, 2);
    CutPlaces(w0.s, w.s, 0, 2);
  }

  // Keys 50 and 60, 70 and 80: the last leaf is split, and its parent has room.
  ghost predicate Three(w: World) {
    && Quiet(w.s) && UpTo(w.s, 4) && w.s.root == 2 && NextTo(w.s, 0, 1) && NextTo(w.s, 1, 3)
    && LeafAt(w.s, 0, Bot, 2) && LeafAt(w.s, 1, At(20), 2)
    && Is(w.s, 3, Spot(0, At(40), Nothing, Just(2), {})) && Holds(w, 3, {50, 60})
    && Is(w.s, 2, Spot(1, Bot, Nothing, Nothing, {0, 1, 3}))
  }

  lemma TwoFinds(w: World, k: int)
    requires Two(w) && k > 20
    ensures Enters(w.s, k, 1)
  {
    FindsOne(w.s, k, 1);
  }

  lemma GrowsThree() returns (w: World)
    ensures Played(N, w) && Three(w)
  {
    var w0 := GrowsTwo();
    hide Played, NextTo, Squeezed, Enters, UpTo, WithLeaf;
    TwoFinds(w0, 50);
    TwoFinds(w0, 60);
    UpToFresh(w0.s, 3);
    assert {30, 40} + {50} + {60} == {30, 40} + {50, 60};
    w := GrowLeaf(N, w0, 0, 1, 50, 60, 3, 40, 2, {30, 40}, {50, 60});
    TwoBecomesThree(w0, w);
  }

  lemma UpToFresh(s: State, n: Id)
    requires UpTo(s, n)
    ensures n !in s.nodes && s.place.Keys == s.nodes.Keys
  {
  }

  lemma TwoBecomesThree(w0: World, w: World)
    requires Two(w0) && w == WithLeaf(w0, 0, 1, 60, 3, 40, 2, {30, 40}, {50, 60})
    ensures Three(w)
  {
    hide Squeezed, NextTo;
    assert {0, 1} + {3} == {0, 1, 3};
    CutPlaces(w0.s, w.s, 1, 3);
  }

  // Keys 70 and 80: the root is full.
  ghost predicate Four(w: World) {
    && Quiet(w.s) && UpTo(w.s, 5) && w.s.root == 2 && NextTo(w.s, 0, 1) && NextTo(w.s, 1, 3) && NextTo(w.s, 3, 4)
    && LeafAt(w.s, 0, Bot, 2) && LeafAt(w.s, 1, At(20), 2) && LeafAt(w.s, 3, At(40), 2)
    && Is(w.s, 4, Spot(0, At(60), Nothing, Just(2), {})) && Holds(w, 4, {70, 80})
    && Is(w.s, 2, Spot(1, Bot, Nothing, Nothing, {0, 1, 3, 4}))
  }

  lemma ThreeFinds(w: World, k: int)
    requires Three(w) && k > 40
    ensures Enters(w.s, k, 3)
  {
    FindsOne(w.s, k, 3);
  }

  lemma ThreeBecomesFour(w0: World, w: World)
    requires Three(w0) && w == WithLeaf(w0, 0, 3, 80, 4, 60, 2, {50, 60}, {70, 80})
    ensures Four(w)
  {
    hide Squeezed, NextTo;
    assert {0, 1, 3} + {4} == {0, 1, 3, 4};
    CutPlaces(w0.s, w.s, 3, 4);
  }

  lemma GrowsFour() returns (w: World)
    ensures Played(N, w) && Four(w)
  {
    var w0 := GrowsThree();
    hide Played, NextTo, Squeezed, Enters, UpTo, WithLeaf;
    ThreeFinds(w0, 70);
    ThreeFinds(w0, 80);
    UpToFresh(w0.s, 4);
    assert {50, 60} + {70} + {80} == {50, 60} + {70, 80};
    w := GrowLeaf(N, w0, 0, 3, 70, 80, 4, 60, 2, {50, 60}, {70, 80});
    ThreeBecomesFour(w0, w);
  }

  // Keys 90 and 100: the last leaf is split, and the full root is locked.
  ghost predicate FullRoot(w: World) {
    && w.s.owner == map[4 := 0, 2 := 0] && w.s.pc == Threads(Arrived(Halves(4, 5), 2), Idle)
    && UpTo(w.s, 6) && w.s.root == 2
    && NextTo(w.s, 0, 1) && NextTo(w.s, 1, 3) && NextTo(w.s, 3, 4) && NextTo(w.s, 4, 5)
    && LeafAt(w.s, 0, Bot, 2) && LeafAt(w.s, 1, At(20), 2) && LeafAt(w.s, 3, At(40), 2) && LeafAt(w.s, 4, At(60), 2)
    && Is(w.s, 5, Spot(0, At(80), Nothing, Just(2), {})) && Holds(w, 5, {90, 100})
    && Is(w.s, 2, Spot(1, Bot, Nothing, Nothing, {0, 1, 3, 4}))
  }

  lemma FourFinds(w: World, k: int)
    requires Four(w) && k > 60
    ensures Enters(w.s, k, 4)
  {
    FindsOne(w.s, k, 4);
  }

  lemma FourBecomesFull(w0: World, w: World)
    requires Four(w0) && w == WithHalves(w0, 0, 4, 100, 5, 80, 2, {70, 80}, {90, 100})
    ensures FullRoot(w)
  {
    hide Squeezed, NextTo;
    CutPlaces(w0.s, w.s, 4, 5);
  }

  lemma FillsRoot() returns (w: World)
    ensures Played(N, w) && FullRoot(w)
  {
    var w0 := GrowsFour();
    hide Played, NextTo, Squeezed, Enters, UpTo, WithHalves;
    FourFinds(w0, 90);
    FourFinds(w0, 100);
    UpToFresh(w0.s, 5);
    assert {70, 80} + {90} + {100} == {70, 80} + {90, 100};
    w := SplitAndClimb(N, w0, 0, 4, 90, 100, 5, 80, 2, {70, 80}, {90, 100});
    FourBecomesFull(w0, w);
  }

  // The root is being split: its right half 6 is filled.
  ghost predicate SharedRoot(w: World) {
    && w.s.owner == map[4 := 0, 2 := 0] && w.s.pc == Threads(Splitting(Halves(4, 5), 2, 6, {0, 1, 3, 4, 5}), Idle)
    && UpTo(w.s, 7) && w.s.root == 2
    && NextTo(w.s, 0, 1) && NextTo(w.s, 1, 3) && NextTo(w.s, 3, 4) && NextTo(w.s, 4, 5) && NextTo(w.s, 2, 6)
    && LeafAt(w.s, 0, Bot, 2) && LeafAt(w.s, 1, At(20), 2) && LeafAt(w.s, 3, At(40), 6) && LeafAt(w.s, 4, At(60), 6)
    && Is(w.s, 5, Spot(0, At(80), Nothing, Just(6), {})) && Holds(w, 5, {90, 100})
    && Is(w.s, 2, Spot(1, Bot, Nothing, Nothing, {0, 1, 3, 4}))
      && Is(w.s, 6, Spot(1, At(40), Nothing, Nothing, {3, 4, 5}))
  }

  ghost predicate RootShared(w0: World, w: World) {
    FullRoot(w0) && w == w0.(s := w0.s.(
      nodes := ThreeParented(w0.s.nodes[6 := Spot(1, At(40), Nothing, Nothing, {3, 4, 5})], 3, 4, 5, 6),
      place := Squeezed(w0.s.place, 2, 6), pc := w0.s.pc[0 := Splitting(Halves(4, 5), 2, 6, {0, 1, 3, 4} + {5})]))
  }

  lemma RootSharedUpTo(w0: World, w: World)
    requires RootShared(w0, w)
    ensures UpTo(w.s, 7)
  {
    hide Squeezed, NextTo;
    RootSharedOrder(w0, w);
  }

  lemma RootSharedOrder(w0: World, w: World)
    requires RootShared(w0, w)
    ensures NextTo(w.s, 2, 6) && Keeps(w0.s, w.s) && w.s.place.Keys == w0.s.place.Keys + {6}
  {
    hide Squeezed, NextTo;
    CutPlaces(w0.s, w.s, 2, 6);
  }

  lemma FullBecomesShared(w0: World, w: World)
    requires RootShared(w0, w)
    ensures SharedRoot(w)
  {
    hide Squeezed, NextTo, UpTo;
    RootSharedOrder(w0, w);
    RootSharedUpTo(w0, w);
    assert {0, 1, 3, 4} + {5} == {0, 1, 3, 4, 5};
  }

  lemma SharesRoot() returns (w: World)
    ensures Played(N, w) && SharedRoot(w)
  {
    var w0 := FillsRoot();
    hide Played, Squeezed, UpTo;
    UpToFresh(w0.s, 6);
    assert {0, 1, 3, 4} + {5} == {0, 1, 3, 4, 5};
    FiveCut(w0.s, 0, 1, 3, 4, 5);
    hide NextTo, KidCut;
    w := ShareOut(w0, 0, 6, At(40), {0, 1}, 3, 4, 5);
    FullBecomesShared(w0, w);
  }

  // The tree has a new root 7 over 2 and 6.
  ghost predicate Tall(w: World) {
    && Quiet(w.s) && UpTo(w.s, 8) && w.s.root == 7 && NextTo(w.s, 3, 4) && NextTo(w.s, 4, 5)
    && LeafAt(w.s, 3, At(40), 6) && LeafAt(w.s, 4, At(60), 6)
    && Is(w.s, 5, Spot(0, At(80), Nothing, Just(6), {})) && Holds(w, 5, {90, 100})
    && 2 in w.s.nodes && w.s.nodes[2].low == Bot && Is(w.s, 6, Spot(1, At(40), Nothing, Just(7), {3, 4, 5}))
    && Is(w.s, 7, Spot(2, Bot, Nothing, Nothing, {2, 6}))
  }

  lemma LinksRoot() returns (w: World, w0: World)
    ensures Played(N, w) && SharedRoot(w0)
    ensures w == w0.(s := w0.s.(
      nodes := w0.s.nodes[2 := w0.s.nodes[2].(kids := {0, 1}, right := Just(6))],
      owner := map[2 := 0], pc := Threads(Up(2, 6), Idle)))
  {
    w0 := SharesRoot();
    hide Played, Squeezed, UpTo;
    FiveCut(w0.s, 0, 1, 3, 4, 5);
    hide NextTo, KidCut;
    w := KeepAndClose(N, w0, 0, {0, 1}, {3, 4, 5});
    assert w.s.owner == map[2 := 0] && w.s.pc == Threads(Up(2, 6), Idle);
    assert w.s.nodes == w0.s.nodes[2 := w0.s.nodes[2].(kids := {0, 1}, right := Just(6))];
  }

  lemma GrowsTall() returns (w: World)
    ensures Played(N, w) && Tall(w)
  {
    hide Squeezed, NextTo, Played;
    var w1, w0 := LinksRoot();
    w := GrowTree(N, w1, 0, 7);
    SharedBecomesTall(w0, w1, w);
  }

  ghost predicate RootGrown(w0: World, w1: World, w: World) {
    && SharedRoot(w0)
    && w1 == w0.(s := w0.s.(
         nodes := w0.s.nodes[2 := w0.s.nodes[2].(kids := {0, 1}, right := Just(6))],
         owner := map[2 := 0], pc := Threads(Up(2, 6), Idle)))
    && w == w1.(s := State(
         w1.s.nodes[7 := Spot(2, Bot, Nothing, Nothing, {2, 6})]
                   [6 := w1.s.nodes[6].(parent := Just(7))][2 := w1.s.nodes[2].(parent := Just(7))],
         7, Squeezed(w1.s.place, 2, 7), w1.s.owner - {2}, w1.s.pc[0 := Idle]))
  }

  lemma RootGrownOrder(w0: World, w1: World, w: World)
    requires RootGrown(w0, w1, w)
    ensures Keeps(w0.s, w.s) && w.s.place.Keys == w0.s.place.Keys + {7} && UpTo(w.s, 8)
  {
    hide Squeezed, NextTo, LeafAt;
    CutPlaces(w0.s, w.s, 2, 7);
  }

  lemma SharedBecomesTall(w0: World, w1: World, w: World)
    requires RootGrown(w0, w1, w)
    ensures Tall(w)
  {
    hide Squeezed, NextTo, UpTo;
    RootGrownOrder(w0, w1, w);
  }

  // Keys 110 and 120: node 6 is full.
  ghost predicate Wide(w: World) {
    && Quiet(w.s) && UpTo(w.s, 9) && w.s.root == 7 && NextTo(w.s, 3, 4) && NextTo(w.s, 4, 5) && NextTo(w.s, 5, 8)
    && LeafAt(w.s, 3, At(40), 6) && LeafAt(w.s, 4, At(60), 6)
    && Is(w.s, 5, Spot(0, At(80), Just(8), Just(6), {})) && Holds(w, 5, {90, 100})
    && Is(w.s, 8, Spot(0, At(100), Nothing, Just(6), {})) && Holds(w, 8, {110, 120})
    && 2 in w.s.nodes && w.s.nodes[2].low == Bot && Is(w.s, 6, Spot(1, At(40), Nothing, Just(7), {3, 4, 5, 8}))
    && Is(w.s, 7, Spot(2, Bot, Nothing, Nothing, {2, 6}))
  }

  lemma TallFinds(w: World, k: int)
    requires Tall(w) && k > 80
    ensures Enters(w.s, k, 5)
  {
    FindsTwo(w.s, k, 6, 5);
  }

  lemma TallBecomesWide(w0: World, w: World)
    requires Tall(w0) && w == WithLeaf(w0, 0, 5, 120, 8, 100, 6, {90, 100}, {110, 120})
    ensures Wide(w)
  {
    hide Squeezed, NextTo;
    assert {3, 4, 5} + {8} == {3, 4, 5, 8};
    CutPlaces(w0.s, w.s, 5, 8);
  }

  lemma GrowsWide() returns (w: World)
    ensures Played(N, w) && Wide(w)
  {
    var w0 := GrowsTall();
    hide Played, NextTo, Squeezed, Enters, UpTo, WithLeaf;
    TallFinds(w0, 110);
    TallFinds(w0, 120);
    UpToFresh(w0.s, 8);
    assert {90, 100} + {110} + {120} == {90, 100} + {110, 120};
    w := GrowLeaf(N, w0, 0, 5, 110, 120, 8, 100, 6, {90, 100}, {110, 120});
    TallBecomesWide(w0, w);
  }

  // ---- thread 0 splits node 6

  // Keys 130 and 140: the last leaf is split, and the full node 6 is locked.
  ghost predicate FullNode(w: World) {
    && w.s.owner == map[8 := 0, 6 := 0] && w.s.pc == Threads(Arrived(Halves(8, 9), 6), Idle)
    && UpTo(w.s, 10) && w.s.root == 7
    && NextTo(w.s, 3, 4) && NextTo(w.s, 4, 5) && NextTo(w.s, 5, 8) && NextTo(w.s, 8, 9)
    && LeafAt(w.s, 3, At(40), 6) && LeafAt(w.s, 4, At(60), 6)
    && Is(w.s, 5, Spot(0, At(80), Just(8), Just(6), {})) && Holds(w, 5, {90, 100})
    && LeafAt(w.s, 8, At(100), 6) && LeafAt(w.s, 9, At(120), 6)
    && 2 in w.s.nodes && w.s.nodes[2].low == Bot && Is(w.s, 6, Spot(1, At(40), Nothing, Just(7), {3, 4, 5, 8}))
    && Is(w.s, 7, Spot(2, Bot, Nothing, Nothing, {2, 6}))
  }

  lemma WideFinds(w: World, k: int)
    requires Wide(w) && k > 100
    ensures Enters(w.s, k, 8)
  {
    FindsTwo(w.s, k, 6, 8);
  }

  lemma WideBecomesFull(w0: World, w: World)
    requires Wide(w0) && w == WithHalves(w0, 0, 8, 140, 9, 120, 6, {110, 120}, {130, 140})
    ensures FullNode(w)
  {
    hide Squeezed, NextTo;
    CutPlaces(w0.s, w.s, 8, 9);
  }

  lemma FillsNode() returns (w: World)
    ensures Played(N, w) && FullNode(w)
  {
    var w0 := GrowsWide();
    hide Played, NextTo, Squeezed, Enters, UpTo, WithHalves;
    WideFinds(w0, 130);
    WideFinds(w0, 140);
    UpToFresh(w0.s, 9);
    assert {110, 120} + {130} + {140} == {110, 120} + {130, 140};
    w := SplitAndClimb(N, w0, 0, 8, 130, 140, 9, 120, 6, {110, 120}, {130, 140});
    WideBecomesFull(w0, w);
  }

  /**
   Before line 278: the right half 10 is filled, its children show it as their parent, and no
   right link leads to it.
   */
  ghost predicate Exposed(w: World) {
    && w.s.owner == map[8 := 0, 6 := 0] && w.s.pc == Threads(Splitting(Halves(8, 9), 6, 10, {3, 4, 5, 8, 9}), Idle)
    && UpTo(w.s, 11) && w.s.root == 7
    && NextTo(w.s, 3, 4) && NextTo(w.s, 4, 5) && NextTo(w.s, 5, 8) && NextTo(w.s, 8, 9) && NextTo(w.s, 6, 10)
    && LeafAt(w.s, 3, At(40), 6) && LeafAt(w.s, 4, At(60), 6)
    && Is(w.s, 5, Spot(0, At(80), Just(8), Just(10), {})) && Holds(w, 5, {90, 100})
    && LeafAt(w.s, 8, At(100), 10) && LeafAt(w.s, 9, At(120), 10)
    && 2 in w.s.nodes && w.s.nodes[2].low == Bot && Is(w.s, 6, Spot(1, At(40), Nothing, Just(7), {3, 4, 5, 8}))
    && Is(w.s, 7, Spot(2, Bot, Nothing, Nothing, {2, 6})) && Is(w.s, 10, Spot(1, At(80), Nothing, Just(7), {5, 8, 9}))
  }

  ghost predicate NodeShared(w0: World, w: World) {
    FullNode(w0) && w == w0.(s := w0.s.(
      nodes := ThreeParented(w0.s.nodes[10 := Spot(1, At(80), Nothing, Just(7), {5, 8, 9})], 5, 8, 9, 10),
      place := Squeezed(w0.s.place, 6, 10), pc := w0.s.pc[0 := Splitting(Halves(8, 9), 6, 10, {3, 4, 5, 8} + {9})]))
  }

  lemma NodeSharedUpTo(w0: World, w: World)
    requires NodeShared(w0, w)
    ensures UpTo(w.s, 11)
  {
    hide Squeezed, NextTo;
    NodeSharedOrder(w0, w);
  }

  lemma NodeSharedOrder(w0: World, w: World)
    requires NodeShared(w0, w)
    ensures NextTo(w.s, 6, 10) && Keeps(w0.s, w.s) && w.s.place.Keys == w0.s.place.Keys + {10}
  {
    hide Squeezed, NextTo;
    CutPlaces(w0.s, w.s, 6, 10);
  }

  lemma FullBecomesExposed(w0: World, w: World)
    requires NodeShared(w0, w)
    ensures Exposed(w)
  {
    hide Squeezed, NextTo, UpTo;
    NodeSharedOrder(w0, w);
    NodeSharedUpTo(w0, w);
    assert {3, 4, 5, 8} + {9} == {3, 4, 5, 8, 9};
  }

  lemma ExposesHalf() returns (w: World)
    ensures Played(N, w) && Exposed(w)
  {
    var w0 := FillsNode();
    hide Played, Squeezed, UpTo;
    UpToFresh(w0.s, 10);
    assert {3, 4, 5, 8} + {9} == {3, 4, 5, 8, 9};
    FiveCut(w0.s, 3, 4, 5, 8, 9);
    hide NextTo, KidCut;
    w := ShareOut(w0, 0, 10, At(80), {3, 4}, 5, 8, 9);
    FullBecomesExposed(w0, w);
  }

  // ---- thread 1 fills the half and splits it

  // Keys 91 and 92: leaf 5 is split, and node 10 has room.
  ghost predicate HalfFull(w: World) {
    && w.s.owner == map[8 := 0, 6 := 0] && w.s.pc == Threads(Splitting(Halves(8, 9), 6, 10, {3, 4, 5, 8, 9}), Idle)
    && UpTo(w.s, 12) && w.s.root == 7
    && NextTo(w.s, 3, 4) && NextTo(w.s, 4, 5) && NextTo(w.s, 5, 11) && NextTo(w.s, 11, 8) && NextTo(w.s, 8, 9)
    && NextTo(w.s, 6, 10)
    && LeafAt(w.s, 3, At(40), 6) && LeafAt(w.s, 4, At(60), 6)
    && Is(w.s, 5, Spot(0, At(80), Just(11), Just(10), {})) && Holds(w, 5, {90, 91})
    && LeafAt(w.s, 11, At(91), 10) && LeafAt(w.s, 8, At(100), 10) && LeafAt(w.s, 9, At(120), 10)
    && 2 in w.s.nodes && w.s.nodes[2].low == Bot && Is(w.s, 6, Spot(1, At(40), Nothing, Just(7), {3, 4, 5, 8}))
    && Is(w.s, 7, Spot(2, Bot, Nothing, Nothing, {2, 6}))
      && Is(w.s, 10, Spot(1, At(80), Nothing, Just(7), {5, 8, 9, 11}))
  }

  lemma ExposedFinds(w: World, k: int)
    requires Exposed(w) && 80 < k <= 100
    ensures Enters(w.s, k, 5)
  {
    FindsTwo(w.s, k, 6, 5);
  }

  lemma ExposedOrder(w0: World, w: World)
    requires Exposed(w0) && w == WithLeaf(w0, 1, 5, 92, 11, 91, 10, {90, 91}, {92, 100})
    ensures NextTo(w.s, 5, 11) && NextTo(w.s, 11, 8) && Keeps(w0.s, w.s) && w.s.place.Keys == w0.s.place.Keys + {11}
  {
    hide Squeezed, NextTo;
    CutPlaces(w0.s, w.s, 5, 11);
  }

  lemma ExposedBecomesFilled(w0: World, w: World)
    requires Exposed(w0) && w == WithLeaf(w0, 1, 5, 92, 11, 91, 10, {90, 91}, {92, 100})
    ensures HalfFull(w)
  {
    ExposedOrder(w0, w);
    hide Squeezed, NextTo;
    assert {5, 8, 9} + {11} == {5, 8, 9, 11};
  }

  lemma FillsHalf() returns (w: World)
    ensures Played(N, w) && HalfFull(w)
  {
    var w0 := ExposesHalf();
    hide Played, NextTo, Squeezed, Enters, UpTo, WithLeaf;
    ExposedFinds(w0, 91);
    ExposedFinds(w0, 92);
    UpToFresh(w0.s, 11);
    assert {90, 100} + {91} + {92} == {90, 91} + {92, 100};
    w := GrowLeaf(N, w0, 1, 5, 91, 92, 11, 91, 10, {90, 91}, {92, 100});
    ExposedBecomesFilled(w0, w);
  }

  // Keys 88 and 89: leaf 5 is split again, and the full half 10 is locked.
  ghost predicate FullHalf(w: World) {
    && w.s.owner == map[8 := 0, 6 := 0, 5 := 1, 10 := 1]
    && w.s.pc == Threads(Splitting(Halves(8, 9), 6, 10, {3, 4, 5, 8, 9}), Arrived(Halves(5, 12), 10))
    && UpTo(w.s, 13) && w.s.root == 7
    && NextTo(w.s, 3, 4) && NextTo(w.s, 4, 5) && NextTo(w.s, 5, 12) && NextTo(w.s, 12, 11) && NextTo(w.s, 11, 8)
    && NextTo(w.s, 8, 9) && NextTo(w.s, 6, 10)
    && LeafAt(w.s, 3, At(40), 6) && LeafAt(w.s, 4, At(60), 6) && LeafAt(w.s, 5, At(80), 10)
      && LeafAt(w.s, 12, At(89), 10)
    && LeafAt(w.s, 11, At(91), 10) && LeafAt(w.s, 8, At(100), 10) && LeafAt(w.s, 9, At(120), 10)
    && Is(w.s, 6, Spot(1, At(40), Nothing, Just(7), {3, 4, 5, 8}))
    && Is(w.s, 7, Spot(2, Bot, Nothing, Nothing, {2, 6}))
      && Is(w.s, 10, Spot(1, At(80), Nothing, Just(7), {5, 8, 9, 11}))
  }

  lemma FilledFinds(w: World, k: int)
    requires HalfFull(w) && 80 < k <= 100
    ensures Enters(w.s, k, 5)
  {
    FindsTwo(w.s, k, 6, 5);
  }

  lemma FilledOrder(w0: World, w: World)
    requires HalfFull(w0) && w == WithHalves(w0, 1, 5, 89, 12, 89, 10, {88, 89}, {90, 91})
    ensures NextTo(w.s, 5, 12) && NextTo(w.s, 12, 11) && Keeps(w0.s, w.s) && w.s.place.Keys == w0.s.place.Keys + {12}
  {
    hide Squeezed, NextTo;
    CutPlaces(w0.s, w.s, 5, 12);
  }

  lemma FilledBecomesFull(w0: World, w: World)
    requires HalfFull(w0) && w == WithHalves(w0, 1, 5, 89, 12, 89, 10, {88, 89}, {90, 91})
    ensures FullHalf(w)
  {
    FilledOrder(w0, w);
    hide Squeezed, NextTo;
  }

  lemma LocksHalf() returns (w: World)
    ensures Played(N, w) && FullHalf(w)
  {
    var w0 := FillsHalf();
    hide Played, NextTo, Squeezed, Enters, UpTo, WithHalves;
    FilledFinds(w0, 88);
    FilledFinds(w0, 89);
    UpToFresh(w0.s, 12);
    assert {90, 91} + {88} + {89} == {88, 89} + {90, 91};
    w := SplitAndClimb(N, w0, 1, 5, 88, 89, 12, 89, 10, {88, 89}, {90, 91});
    FilledBecomesFull(w0, w);
  }

  // The half 10 is being split: its own right half 13 is filled.
  ghost predicate SharedHalf(w: World) {
    && w.s.owner == map[8 := 0, 6 := 0, 5 := 1, 10 := 1]
    && w.s.pc == Threads(Splitting(Halves(8, 9), 6, 10, {3, 4, 5, 8, 9}),
      Splitting(Halves(5, 12), 10, 13, {5, 8, 9, 11, 12}))
    && UpTo(w.s, 14) && w.s.root == 7
    && NextTo(w.s, 3, 4) && NextTo(w.s, 4, 5) && NextTo(w.s, 5, 12) && NextTo(w.s, 12, 11) && NextTo(w.s, 11, 8)
    && NextTo(w.s, 8, 9) && NextTo(w.s, 6, 10) && NextTo(w.s, 10, 13)
    && LeafAt(w.s, 3, At(40), 6) && LeafAt(w.s, 4, At(60), 6) && LeafAt(w.s, 5, At(80), 10)
      && LeafAt(w.s, 12, At(89), 10)
    && LeafAt(w.s, 11, At(91), 13) && LeafAt(w.s, 8, At(100), 13) && LeafAt(w.s, 9, At(120), 13)
    && Is(w.s, 6, Spot(1, At(40), Nothing, Just(7), {3, 4, 5, 8})) && Is(w.s, 7, Spot(2, Bot, Nothing, Nothing, {2, 6}))
    && Is(w.s, 10, Spot(1, At(80), Nothing, Just(7), {5, 8, 9, 11}))
    && Is(w.s, 13, Spot(1, At(91), Nothing, Just(7), {11, 8, 9}))
    && OnlyFrom(w.s, 10, 13)
  }

  // No right link leads to n but perhaps that of p.
  ghost predicate OnlyFrom(s: State, p: Id, n: Id) {
    forall x {:trigger s.nodes[x]} :: x in s.nodes && x != p ==> s.nodes[x].right != Just(n)
  }

  ghost predicate HalfShared(w0: World, w: World) {
    FullHalf(w0) && w == w0.(s := w0.s.(
      nodes := ThreeParented(w0.s.nodes[13 := Spot(1, At(91), Nothing, Just(7), {11, 8, 9})], 11, 8, 9, 13),
      place := Squeezed(w0.s.place, 10, 13), pc := w0.s.pc[1 :=
        Splitting(Halves(5, 12), 10, 13, {5, 8, 9, 11} + {12})]))
  }

  lemma HalfSharedUpTo(w0: World, w: World)
    requires HalfShared(w0, w)
    ensures UpTo(w.s, 14)
  {
    hide Squeezed, NextTo;
    HalfSharedOrder(w0, w);
  }

  lemma HalfSharedOrder(w0: World, w: World)
    requires HalfShared(w0, w)
    ensures NextTo(w.s, 10, 13) && Keeps(w0.s, w.s) && w.s.place.Keys == w0.s.place.Keys + {13}
  {
    hide Squeezed, NextTo;
    CutPlaces(w0.s, w.s, 10, 13);
  }

  lemma NoneTo13(w0: World, w: World)
    requires HalfShared(w0, w)
    ensures OnlyFrom(w.s, 10, 13)
  {
    hide Squeezed, NextTo;
  }

  lemma FullBecomesHalfShared(w0: World, w: World)
    requires HalfShared(w0, w)
    ensures SharedHalf(w)
  {
    hide Squeezed, NextTo, UpTo, OnlyFrom;
    HalfSharedOrder(w0, w);
    HalfSharedUpTo(w0, w);
    NoneTo13(w0, w);
    assert {5, 8, 9, 11} + {12} == {5, 8, 9, 11, 12};
  }

  lemma SharesHalf() returns (w: World)
    ensures Played(N, w) && SharedHalf(w)
  {
    var w0 := LocksHalf();
    hide Played, Squeezed, UpTo;
    UpToFresh(w0.s, 13);
    FiveCut(w0.s, 5, 12, 11, 8, 9);
    assert {5, 12, 11, 8, 9} == {5, 8, 9, 11} + {12};
    hide NextTo, KidCut;
    w := ShareOut(w0, 1, 13, At(91), {5, 12}, 11, 8, 9);
    FullBecomesHalfShared(w0, w);
  }

  // ---- line 279 of thread 0 comes after line 282 of thread 1

  ghost predicate HalfLinkedTo13(w: World) {
    && w.s.owner == map[8 := 0, 6 := 0, 10 := 1]
    && w.s.pc == Threads(Splitting(Halves(8, 9), 6, 10, {3, 4, 5, 8, 9}), Up(10, 13)) && w.s.root == 7
    && NextTo(w.s, 3, 4) && NextTo(w.s, 4, 5) && NextTo(w.s, 5, 8) && NextTo(w.s, 8, 9)
    && NextTo(w.s, 6, 10) && NextTo(w.s, 10, 13)
    && LeafAt(w.s, 3, At(40), 6) && LeafAt(w.s, 4, At(60), 6) && LeafAt(w.s, 5, At(80), 10)
    && LeafAt(w.s, 8, At(100), 13) && LeafAt(w.s, 9, At(120), 13)
    && Is(w.s, 6, Spot(1, At(40), Nothing, Just(7), {3, 4, 5, 8})) && Is(w.s, 7, Spot(2, Bot, Nothing, Nothing, {2, 6}))
    && Is(w.s, 10, Spot(1, At(80), Just(13), Just(7), {5, 12}))
      && Is(w.s, 13, Spot(1, At(91), Nothing, Just(7), {11, 8, 9}))
    && OnlyFrom(w.s, 10, 13)
  }

  lemma Skip(s: State, a: Id, b: Id, c: Id, d: Id)
    requires NextTo(s, a, b) && NextTo(s, b, c) && NextTo(s, c, d)
    ensures NextTo(s, a, d)
  {
  }

  ghost predicate HalfLinkedFrom(w0: World, w: World) {
    SharedHalf(w0) && w == w0.(s := w0.s.(
      nodes := w0.s.nodes[10 := w0.s.nodes[10].(kids := {5, 12}, right := Just(13))],
      owner := map[8 := 0, 6 := 0, 10 := 1],
      pc := Threads(Splitting(Halves(8, 9), 6, 10, {3, 4, 5, 8, 9}), Up(10, 13))))
  }

  lemma LinksTo13() returns (w: World, w0: World)
    ensures Played(N, w) && HalfLinkedFrom(w0, w)
  {
    w0 := SharesHalf();
    hide Played, Squeezed, UpTo;
    FiveCut(w0.s, 5, 12, 11, 8, 9);
    assert {5, 12, 11, 8, 9} == {5, 8, 9, 11, 12};
    hide KidCut, NextTo;
    w := KeepAndClose(N, w0, 1, {5, 12}, {11, 8, 9});
    assert w.s.nodes == w0.s.nodes[10 := w0.s.nodes[10].(kids := {5, 12}, right := Just(13))];
  }

  lemma HalfLinks(w0: World, w: World)
    requires HalfLinkedFrom(w0, w)
    ensures HalfLinkedTo13(w)
  {
    Skip(w0.s, 5, 12, 11, 8);
    SameOrder(w0.s, w.s);
    hide NextTo, UpTo;
  }

  lemma SameOrder(s: State, s': State)
    requires s'.place == s.place && SameLevels(s.nodes, s'.nodes)
    ensures Keeps(s, s')
  {
  }

  // Thread 0 overwrites that link, and links node 10.
  ghost predicate OverwrittenFrom(w0: World, w: World) {
    HalfLinkedTo13(w0) && w == w0.(s := w0.s.(
      nodes := w0.s.nodes[6 := w0.s.nodes[6].(kids := {3, 4}, right := Just(10))]
                         [10 := w0.s.nodes[10].(right := Nothing)],
      owner := map[6 := 0, 10 := 1], pc := Threads(Up(6, 10), Up(10, 13))))
  }

  lemma CanOverwrite(w: World)
    requires HalfLinkedTo13(w)
    ensures KidCut(N, w.s, {3, 4, 5, 8, 9}, {3, 4}, {5, 8, 9}) && Elsewhere(w.s, {5, 8, 9}, 6)
      && Adopted(w.s, {3, 4}, 6)
  {
    FiveCut(w.s, 3, 4, 5, 8, 9);
  }

  lemma OverwritesLink(w0: World) returns (w: World)
    requires Played(N, w0) && HalfLinkedTo13(w0)
    ensures Played(N, w) && OverwrittenFrom(w0, w)
  {
    hide Played, KidCut, NextTo, OnlyFrom, Elsewhere, Adopted, LeafAt;
    CanOverwrite(w0);
    w := KeepAndClose(N, w0, 0, {3, 4}, {5, 8, 9});
    assert w.s.owner == map[6 := 0, 10 := 1];
  }

  lemma Overwrites() returns (w: World, w0: World)
    ensures Played(N, w) && OverwrittenFrom(w0, w)
  {
    hide Played, HalfLinkedFrom, HalfLinkedTo13, OverwrittenFrom;
    var w1;
    w0, w1 := LinksTo13();
    HalfLinks(w1, w0);
    w := OverwritesLink(w0);
  }

  // Both separators go into the root, and both insertions are over.
  ghost predicate FinishedFrom(w0: World, w: World) {
    HalfLinkedTo13(w0) && Quiet(w.s) && w.s.place == w0.s.place && w.s.root == 7
    && w.s.nodes == w0.s.nodes[6 := w0.s.nodes[6].(kids := {3, 4}, right := Just(10))]
                              [10 := w0.s.nodes[10].(right := Nothing)]
                              [7 := w0.s.nodes[7].(kids := {2, 6, 10, 13})]
  }

  ghost predicate OneOver(w0: World, w: World) {
    HalfLinkedTo13(w0) && w == w0.(s := w0.s.(
      nodes := w0.s.nodes[6 := w0.s.nodes[6].(kids := {3, 4}, right := Just(10))]
                         [10 := w0.s.nodes[10].(right := Nothing)]
                         [7 := w0.s.nodes[7].(kids := {2, 6} + {13})],
      owner := map[6 := 0], pc := Threads(Up(6, 10), Idle)))
  }

  lemma FinishOne(w1: World, w0: World) returns (w: World)
    requires Played(N, w1) && OverwrittenFrom(w0, w1)
    ensures Played(N, w) && OneOver(w0, w)
  {
    hide Played, NextTo, OnlyFrom, LeafAt;
    w := ClimbAndClose(N, w1, 1, 7, 91);
    assert w.s.owner == map[6 := 0];
  }

  lemma FinishBoth(w1: World, w0: World) returns (w: World)
    requires Played(N, w1) && OneOver(w0, w1)
    ensures Played(N, w) && FinishedFrom(w0, w)
  {
    hide Played, NextTo, OnlyFrom, LeafAt;
    w := ClimbAndClose(N, w1, 0, 7, 80);
    assert {2, 6} + {13} + {10} == {2, 6, 10, 13};
  }

  lemma Finishes() returns (w: World, w0: World)
    ensures Played(N, w) && FinishedFrom(w0, w)
  {
    hide Played, OverwrittenFrom, OneOver, FinishedFrom;
    var w1;
    w1, w0 := Overwrites();
    w := FinishOne(w1, w0);
    w := FinishBoth(w, w0);
  }

  // In what is left node 13 is on no right link.
  ghost predicate Lost13(s: State) {
    && Quiet(s) && NextTo(s, 6, 10) && NextTo(s, 10, 13)
    && Links(s, 6, 10) && s.nodes[10].right == Nothing && !IsLinked(s, 13) && !Whole(s, 1)
  }

  lemma FinallyLost(w0: World, w: World)
    requires FinishedFrom(w0, w)
    ensures Lost13(w.s)
  {
    SameOrder(w0.s, w.s);
    hide NextTo, LeafAt;
    assert NextTo(w.s, 10, 13);
    forall p ensures !Links(w.s, p, 13) {
    }
    assert OnLevel(w.s, 13, 1);
    assert HasLeft(w.s, 13) && Finished(w.s, 13) && !Found(w.s, 13);
  }

  /**
   A run of the program at fan-out 4 that begins with the empty tree and ends with both threads
   idle, after 18 insertions (keys 10 to 140 in tens by thread 0, then 91, 92, 88 and 89 by thread
   1 while thread 0 is between lines 275 and 278 of its last one). Node 13 has been split off node
   10, but node 10's right link is NULL and no right link leads to node 13: right links no longer
   reach it. Line 279 of thread 0 has overwritten the link of line 282 of thread 1.
   */
  lemma LinkIsLost() returns (ws: seq<World>, moves: seq<Move>, ks: seq<int>)
    ensures Play(N, ws, moves, ks) && KeyRun(StatesOf(ws), moves, FillingsOf(ws), ks)
    ensures Lost13(ws[|moves|].s)
  {
    var w, w0 := Finishes();
    FinallyLost(w0, w);
    hide KeyRun, FinishedFrom, Lost13;
    ws, moves, ks :| Play(N, ws, moves, ks) && ws[|moves|] == w;
    PlayIsRun(N, ws, moves, ks);
  }
}
