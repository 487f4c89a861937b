/**
 The lock protocol with its choices made as the program makes them: keys decide where
 find_leaf and move_right end, a node is split exactly when it is full, and its halves
 get the lower and the upper part of the TEMP. Runs here are runs of BlinkLocks.
 */
module BlinkPlay {
  import opened BlinkState
  import opened BlinkLocks
  import opened BlinkLeafLinks
  import opened BlinkKeyRuns

  datatype World = World(s: State, f: Filling)

  // The child of p that find_leaf goes to: the last one that starts below k.
  ghost predicate Picks(nodes: map<Id, Spot>, p: Id, c: Id, k: int) {
    && p in nodes && c in nodes && c in nodes[p].kids && Below(nodes[c].low, k)
    && forall d :: d in nodes[p].kids && d != c ==>
         d in nodes && (Below(nodes[d].low, k) ==> Lt(nodes[d].low, nodes[c].low))
  }

  // find_leaf(n, k) is leaf, levels below n.
  ghost predicate Descends(nodes: map<Id, Spot>, n: Id, k: int, leaf: Id, levels: nat)
    decreases levels
  {
    n in nodes && nodes[n].level == levels &&
    if levels == 0 then n == leaf
    else exists c :: Picks(nodes, n, c, k) && Descends(nodes, c, k, leaf, levels - 1)
  }

  ghost predicate FindsLeaf(s: State, k: int, leaf: Id) {
    s.root in s.nodes && Descends(s.nodes, s.root, k, leaf, s.nodes[s.root].level)
  }

  // find_leaf(Root, k) returns this leaf, as it does in a tree, where it starts below k.
  ghost predicate Enters(s: State, k: int, leaf: Id) {
    FindsLeaf(s, k, leaf) && leaf in s.nodes && Below(s.nodes[leaf].low, k) && EntersWell(s, Enter(leaf))
  }

  // What move_right compares: the key, or the separator, where the right half starts.
  ghost predicate Target(w: World, t: Tid, v: int) {
    t in w.s.pc && (w.s.pc[t].Walking? || w.s.pc[t].Seen?) &&
    match w.s.pc[t].job
    case Key => t in w.f.key && v == w.f.key[t]
    case Halves(_, rc) => rc in w.s.nodes && w.s.nodes[rc].low == At(v)
  }

  // The keys of a TEMP and where they are cut.
  ghost predicate KeyCut(N: Fanout, temp: set<int>, v: int, left: set<int>, right: set<int>) {
    && left + right == temp && |left| == |right| == N / 2 && v in left
    && (forall k :: k in left ==> k <= v) && (forall k :: k in right ==> v < k)
  }

  // The children in a TEMP and where they are cut.
  ghost predicate KidCut(N: Fanout, s: State, temp: set<Id>, left: set<Id>, right: set<Id>) {
    && left + right == temp && |left| == N / 2 && |right| == N / 2 + 1
    && forall a, b {:trigger NextTo(s, a, b)} :: a in left && b in right ==> NextTo(s, a, b)
  }

  ghost predicate Adopted(s: State, kids: set<Id>, p: Id) {
    forall c :: c in kids ==> c in s.nodes && s.nodes[c].parent == Just(p)
  }

  ghost predicate Elsewhere(s: State, kids: set<Id>, p: Id) {
    forall c :: c in kids ==> c in s.nodes && s.nodes[c].parent != Just(p)
  }

  // Adopted and filled as the loops of a parent split leave the halves before line 278.
  ghost predicate Distributed(N: Fanout, s: State, pc: Pc, left: set<Id>, right: set<Id>) {
    && pc.Splitting? && pc.curr in s.nodes && KidCut(N, s, pc.temp, left, right)
    && s.nodes[pc.curr].kids == left && Adopted(s, left, pc.curr) && Elsewhere(s, right, pc.curr)
  }

  // A step the program can take; k is the key of an insertion that starts.
  ghost predicate Allowed(N: Fanout, w: World, t: Tid, a: Action, k: int) {
    var s := w.s;
    Fits(s, w.f, t, a, k) &&
    var pc := s.pc[t];
    match a
    case Enter(leaf) =>
      Enters(s, k, leaf) && leaf in w.f.keys && k !in w.f.keys[leaf]
    case Stay => exists v :: Target(w, t, v) && !GoesOn(s.nodes, pc.curr, v)
    case GoRight => exists v :: Target(w, t, v) && GoesOn(s.nodes, pc.curr, v)
    case Room =>
      if s.nodes[pc.curr].level == 0 then t in w.f.key && pc.curr in w.f.keys && |w.f.keys[pc.curr]| < N - 1
      else |s.nodes[pc.curr].kids| < N
    case Alloc(m, low) =>
      if s.nodes[pc.curr].level == 0 then
        && t in w.f.key && pc.curr in w.f.keys && |w.f.keys[pc.curr]| == N - 1 && low.At?
        && exists left, right :: KeyCut(N, w.f.keys[pc.curr] + {w.f.key[t]}, low.v, left, right)
      else |s.nodes[pc.curr].kids| == N
    case Fill(n, kids) =>
      if n == pc.m then
        && s.nodes[n].kids == {} && (exists left :: KidCut(N, s, pc.temp, left, kids))
        && exists c :: c in kids && c in s.nodes && s.nodes[c].low == s.nodes[n].low
      else exists right :: KidCut(N, s, pc.temp, kids, right) && Elsewhere(s, right, n)
    case LoadLink =>
      s.nodes[pc.curr].level > 0 ==> exists left, right :: Distributed(N, s, pc, left, right)
    case _ => true
  }

  ghost function After(N: Fanout, w: World, t: Tid, a: Action, k: int): World
    requires Allowed(N, w, t, a, k)
  {
    World(Do(w.s, t, a), Filled(w.s, w.f, t, a, k))
  }

  // A run of the program from the empty tree, at fan-out N.
  ghost predicate Play(N: Fanout, ws: seq<World>, moves: seq<Move>, ks: seq<int>) {
    && |ws| == |moves| + 1 && |ks| == |moves|
    && Init(ws[0].s) && ws[0].f.keys == map[ws[0].s.root := {}]
    && forall i {:trigger moves[i]} :: 0 <= i < |moves| ==>
         && Allowed(N, ws[i], moves[i].t, moves[i].a, ks[i])
         && ws[i + 1] == After(N, ws[i], moves[i].t, moves[i].a, ks[i])
  }

  function StatesOf(ws: seq<World>): (states: seq<State>) {
    seq(|ws|, i requires 0 <= i < |ws| => ws[i].s)
  }

  function FillingsOf(ws: seq<World>): (fs: seq<Filling>) {
    seq(|ws|, i requires 0 <= i < |ws| => ws[i].f)
  }

  // It is one of the runs of any number of writers with their keys.
  lemma PlayIsRun(N: Fanout, ws: seq<World>, moves: seq<Move>, ks: seq<int>)
    requires Play(N, ws, moves, ks)
    ensures KeyRun(StatesOf(ws), moves, FillingsOf(ws), ks)
  {
    hide Init, Enabled, Do, Fits, Filled;
    var states, fs := StatesOf(ws), FillingsOf(ws);
    forall i | 0 <= i < |moves|
      ensures Fits(states[i], fs[i], moves[i].t, moves[i].a, ks[i])
      ensures Enabled(states[i], moves[i].t, moves[i].a) && states[i + 1] == Do(states[i], moves[i].t, moves[i].a)
      ensures fs[i + 1] == Filled(states[i], fs[i], moves[i].t, moves[i].a, ks[i])
    {
      AllowedFits(N, ws[i], moves[i].t, moves[i].a, ks[i]);
    }
  }

  lemma AllowedFits(N: Fanout, w: World, t: Tid, a: Action, k: int)
    requires Allowed(N, w, t, a, k)
    ensures Fits(w.s, w.f, t, a, k) && Enabled(w.s, t, a)
  {
  }

  // What was next to each other still is.
  ghost predicate Keeps(s: State, s': State) {
    forall x, y {:trigger NextTo(s, x, y)} {:trigger NextTo(s', x, y)} :: NextTo(s, x, y) ==> NextTo(s', x, y)
  }

  ghost predicate SameLevels(nodes: map<Id, Spot>, nodes': map<Id, Spot>) {
    forall x {:trigger nodes[x]} {:trigger nodes'[x]} :: x in nodes ==> x in nodes' && nodes'[x].level == nodes[x].level
  }

  // A node m put in right after n.
  lemma CutPlaces(s: State, s': State, n: Id, m: Id)
    requires n in s.place && n in s.nodes && m !in s.place && m in s'.nodes
    requires s'.place == Squeezed(s.place, n, m) && SameLevels(s.nodes, s'.nodes)
    ensures Keeps(s, s') && s'.place.Keys == s.place.Keys + {m}
    ensures s'.nodes[m].level == s.nodes[n].level ==>
      NextTo(s', n, m) && forall x {:trigger NextTo(s', m, x)} :: NextTo(s, n, x) ==> NextTo(s', m, x)
  {
  }

  // ---- such runs, put together

  ghost predicate Played(N: Fanout, w: World) {
    exists ws, moves, ks :: Play(N, ws, moves, ks) && ws[|moves|] == w
  }

  lemma Go(N: Fanout, w: World, t: Tid, a: Action, k: int) returns (w': World)
    requires Played(N, w) && Allowed(N, w, t, a, k)
    ensures Played(N, w') && w' == After(N, w, t, a, k)
  {
    hide Init, Allowed, After;
    var ws, moves, ks :| Play(N, ws, moves, ks) && ws[|moves|] == w;
    w' := After(N, w, t, a, k);
    assert Play(N, ws + [w'], moves + [Move(t, a)], ks + [k]);
  }

  // A free wanted lock is taken, and move_right stays where it is.
  lemma Arrive(N: Fanout, w: World, t: Tid, n: Id, v: int) returns (w': World)
    requires Played(N, w) && t in w.s.pc && Wants(w.s.pc[t]) == Just(n) && n !in w.s.owner && n in w.s.nodes
    requires w.s.pc[t].WantLeaf? || w.s.pc[t].WantParent?
    requires !GoesOn(w.s.nodes, n, v)
    requires w.s.pc[t].WantLeaf? ==> t in w.f.key && w.f.key[t] == v
    requires w.s.pc[t].WantParent? ==> w.s.pc[t].rc in w.s.nodes && w.s.nodes[w.s.pc[t].rc].low == At(v)
    ensures Played(N, w')
    ensures w' == w.(s := w.s.(owner := w.s.owner[n := t], pc := w.s.pc[t := Arrived(Taken(w.s.pc[t]).job, n)]))
  {
    hide Played;
    w' := Go(N, w, t, TakeLock, 0);
    w' := Go(N, w', t, Look, 0);
    if w.s.nodes[n].right.Just? {
      assert Target(w', t, v);
      w' := Go(N, w', t, Stay, 0);
    }
  }

  // high_key is below what move_right looks for: it goes on to the right neighbour, which is free.
  lemma WalkRight(N: Fanout, w: World, t: Tid, x: Id, v: int) returns (w': World)
    requires Played(N, w) && t in w.s.pc && w.s.pc[t].Walking?
    requires Target(w, t, v) && GoesOn(w.s.nodes, w.s.pc[t].curr, v)
    requires w.s.nodes[w.s.pc[t].curr].right == Just(x) && x !in w.s.owner
    ensures Played(N, w') && w' == w.(s := w.s.(
      owner := w.s.owner[x := t] - {w.s.pc[t].curr}, pc := w.s.pc[t := Walking(w.s.pc[t].job, x)]))
  {
    hide Played;
    w' := BesideNext(N, w, t, x, v);
    w' := Go(N, w', t, LetGo, 0);
  }

  // On the way it holds both locks.
  lemma BesideNext(N: Fanout, w: World, t: Tid, x: Id, v: int) returns (w': World)
    requires Played(N, w) && t in w.s.pc && w.s.pc[t].Walking?
    requires Target(w, t, v) && GoesOn(w.s.nodes, w.s.pc[t].curr, v)
    requires w.s.nodes[w.s.pc[t].curr].right == Just(x) && x !in w.s.owner
    ensures Played(N, w') && w' == w.(s := w.s.(
      owner := w.s.owner[x := t], pc := w.s.pc[t := Passing(w.s.pc[t].job, w.s.pc[t].curr, x)]))
  {
    hide Played;
    w' := Go(N, w, t, Look, 0);
    assert Target(w', t, v);
    w' := Go(N, w', t, GoRight, 0);
    w' := Go(N, w', t, TakeLock, 0);
  }

  lemma Start(N: Fanout, w: World, t: Tid, n: Id, k: int) returns (w': World)
    requires Played(N, w) && t in w.s.pc && w.s.pc[t].Idle?
    requires n !in w.s.owner && n in w.s.nodes && w.s.nodes[n].level == 0
    requires Enters(w.s, k, n) && n in w.f.keys && k !in w.f.keys[n] && !GoesOn(w.s.nodes, n, k)
    ensures Played(N, w')
    ensures w' == World(w.s.(owner := w.s.owner[n := t], pc := w.s.pc[t := Arrived(Key, n)]),
      Filling(w.f.keys, w.f.key[t := k]))
  {
    hide Played, FindsLeaf;
    w' := Go(N, w, t, Enter(n), k);
    w' := Arrive(N, w', t, n, k);
  }

  // A key goes into a leaf with room.
  lemma Add(N: Fanout, w: World, t: Tid, n: Id, k: int) returns (w': World)
    requires Played(N, w) && t in w.s.pc && w.s.pc[t].Idle?
    requires n !in w.s.owner && n in w.s.nodes && w.s.nodes[n].level == 0
    requires Enters(w.s, k, n) && n in w.f.keys && k !in w.f.keys[n] && !GoesOn(w.s.nodes, n, k)
      && |w.f.keys[n]| < N - 1
    ensures Played(N, w') && w' == World(w.s, Filling(w.f.keys[n := w.f.keys[n] + {k}], w.f.key[t := k]))
  {
    hide Played, Enters, GoesOn;
    w' := Start(N, w, t, n, k);
    w' := Go(N, w', t, Room, 0);
    w' := Go(N, w', t, FreeOne, 0);
    assert w'.s.nodes == w.s.nodes && w'.s.owner == w.s.owner && w'.s.pc == w.s.pc;
  }

  ghost function Linked(nodes: map<Id, Spot>, n: Id, m: Id): map<Id, Spot>
    requires n in nodes && m in nodes
  {
    nodes[m := nodes[m].(right := nodes[n].right)][n := nodes[n].(right := Just(m))]
  }

  // A full leaf is cut around a key, and the halves are linked.
  lemma SplitLeaf(N: Fanout, w: World, t: Tid, n: Id, k: int, m: Id, v: int, left: set<int>, right: set<int>)
    returns (w': World)
    requires Played(N, w) && t in w.s.pc && w.s.pc[t].Idle?
    requires n !in w.s.owner && n in w.s.nodes && w.s.nodes[n].level == 0
    requires Enters(w.s, k, n) && n in w.f.keys && k !in w.f.keys[n] && !GoesOn(w.s.nodes, n, k)
      && |w.f.keys[n]| == N - 1
    requires n in w.s.place && m !in w.s.nodes && KeyCut(N, w.f.keys[n] + {k}, v, left, right)
    ensures Played(N, w')
    ensures w' == World(
      w.s.(nodes := Linked(w.s.nodes[m := Spot(0, At(v), Nothing, w.s.nodes[n].parent, {})], n, m),
           place := Squeezed(w.s.place, n, m), owner := w.s.owner[n := t], pc := w.s.pc[t := Up(n, m)]),
      Filling(w.f.keys[n := left][m := right], w.f.key[t := k]))
  {
    w' := Start(N, w, t, n, k);
    hide Played, Enters, GoesOn, Squeezed;
    w' := CutLeaf(N, w', t, n, k, m, v, left, right);
    w' := LinkRightHalf(N, w', t);
    w' := LinkLeftHalf(N, w', t);
  }

  lemma HalfNotEmpty(N: Fanout, temp: set<int>, v: int, left: set<int>, right: set<int>)
    requires KeyCut(N, temp, v, left, right)
    ensures exists x :: x in temp && v < x
  {
    var x := SomeMember(right);
    assert x in left + right;
  }

  lemma SomeMember<T>(s: set<T>) returns (x: T)
    requires |s| != 0
    ensures x in s
  {
    x :| x in s;
  }

  lemma CutLeaf(N: Fanout, w: World, t: Tid, n: Id, k: int, m: Id, v: int, left: set<int>, right: set<int>)
    returns (w': World)
    requires Played(N, w) && t in w.s.pc && w.s.pc[t] == Arrived(Key, n) && n in w.s.nodes && w.s.nodes[n].level == 0
    requires n in w.f.keys && t in w.f.key && w.f.key[t] == k && |w.f.keys[n]| == N - 1
    requires n in w.s.place && m !in w.s.nodes && KeyCut(N, w.f.keys[n] + {k}, v, left, right)
    ensures Played(N, w')
    ensures w' == World(
      w.s.(nodes := w.s.nodes[m := Spot(0, At(v), Nothing, w.s.nodes[n].parent, {})],
           place := Squeezed(w.s.place, n, m), pc := w.s.pc[t := Splitting(Key, n, m, w.s.nodes[n].kids)]),
      Filling(w.f.keys[n := left][m := right], w.f.key))
  {
    hide Played, Squeezed;
    var temp := w.f.keys[n] + {k};
    HalfNotEmpty(N, temp, v, left, right);
    w' := Go(N, w, t, Alloc(m, At(v)), 0);
    assert (set x | x in temp && x <= v) == left;
    assert (set x | x in temp && v < x) == right;
    assert w.s.nodes[n].kids + {} == w.s.nodes[n].kids;
  }

  lemma LinkRightHalf(N: Fanout, w: World, t: Tid) returns (w': World)
    requires Played(N, w) && t in w.s.pc && w.s.pc[t].Splitting?
    requires w.s.pc[t].curr in w.s.nodes && w.s.pc[t].m in w.s.nodes
    requires w.s.nodes[w.s.pc[t].curr].level > 0 ==> exists left, right :: Distributed(N, w.s, w.s.pc[t], left, right)
    ensures var pc := w.s.pc[t];
      var n, m, x := pc.curr, pc.m, w.s.nodes[pc.curr].right;
      Played(N, w') && w' == w.(s := w.s.(
        nodes := w.s.nodes[m := w.s.nodes[m].(right := x)], pc := w.s.pc[t := HalfLinked(pc.job, n, m, x)]))
  {
    hide Played, Distributed;
    w' := Go(N, w, t, LoadLink, 0);
    w' := Go(N, w', t, LinkRight, 0);
  }

  lemma LinkLeftHalf(N: Fanout, w: World, t: Tid) returns (w': World)
    requires Played(N, w) && t in w.s.pc && w.s.pc[t].HalfLinked? && w.s.pc[t].curr in w.s.nodes
    ensures var pc := w.s.pc[t];
      Played(N, w') && w' == w.(s := w.s.(
        nodes := w.s.nodes[pc.curr := w.s.nodes[pc.curr].(right := Just(pc.m))],
        owner := w.s.owner - Child(pc.job), pc := w.s.pc[t := Up(pc.curr, pc.m)]))
  {
    hide Played;
    w' := Go(N, w, t, LinkLeft, 0);
    w' := Go(N, w', t, DropChild, 0);
  }

  // left_child is not Root: its parent field is read.
  lemma ReadsParent(N: Fanout, w: World, t: Tid, p: Id) returns (w': World)
    requires Played(N, w) && t in w.s.pc && w.s.pc[t].Up? && w.s.pc[t].lc in w.s.nodes
    requires w.s.pc[t].lc != w.s.root && w.s.nodes[w.s.pc[t].lc].parent == Just(p)
    ensures Played(N, w')
    ensures w' == w.(s := w.s.(pc := w.s.pc[t := WantParent(w.s.pc[t].lc, w.s.pc[t].rc, p)]))
  {
    hide Played;
    w' := Go(N, w, t, TestRoot, 0);
    w' := Go(N, w', t, ReadParent, 0);
  }

  // The parent is locked.
  lemma Climb(N: Fanout, w: World, t: Tid, p: Id, v: int) returns (w': World)
    requires Played(N, w) && t in w.s.pc && w.s.pc[t].Up? && {w.s.pc[t].lc, w.s.pc[t].rc} <= w.s.nodes.Keys
    requires w.s.pc[t].lc != w.s.root && w.s.nodes[w.s.pc[t].lc].parent == Just(p)
    requires w.s.nodes[w.s.pc[t].rc].low == At(v) && p in w.s.nodes && p !in w.s.owner && !GoesOn(w.s.nodes, p, v)
    ensures Played(N, w')
    ensures w' == w.(s := w.s.(owner := w.s.owner[p := t],
      pc := w.s.pc[t := Arrived(Halves(w.s.pc[t].lc, w.s.pc[t].rc), p)]))
  {
    hide Played, GoesOn;
    w' := ReadsParent(N, w, t, p);
    w' := Arrive(N, w', t, p, v);
  }

  // The parent has room.
  lemma Close(N: Fanout, w: World, t: Tid) returns (w': World)
    requires Played(N, w) && t in w.s.pc && w.s.pc[t].Arrived? && w.s.pc[t].job.Halves?
    requires w.s.pc[t].curr in w.s.nodes && w.s.nodes[w.s.pc[t].curr].level > 0
    requires |w.s.nodes[w.s.pc[t].curr].kids| < N
    ensures var p, j := w.s.pc[t].curr, w.s.pc[t].job;
      Played(N, w') && w' == w.(s := w.s.(
        nodes := w.s.nodes[p := w.s.nodes[p].(kids := w.s.nodes[p].kids + {j.rc})],
        owner := w.s.owner - {j.lc, p}, pc := w.s.pc[t := Idle]))
  {
    hide Played;
    var p, lc := w.s.pc[t].curr, w.s.pc[t].job.lc;
    w' := Go(N, w, t, Room, 0);
    w' := Go(N, w', t, FreeOne, 0);
    w' := Go(N, w', t, FreeOne, 0);
    assert w.s.owner - {lc} - {p} == w.s.owner - {lc, p};
  }

  // A leaf with N - 2 keys gets two more and is split.
  lemma AddAndSplit(N: Fanout, w: World, t: Tid, n: Id, k: int, k': int, m: Id, v: int, left: set<int>, right: set<int>)
    returns (w': World)
    requires Played(N, w) && t in w.s.pc && w.s.pc[t].Idle? && n in w.s.nodes && w.s.nodes[n].level == 0
    requires n in w.s.place && m !in w.s.nodes && n !in w.s.owner && Enters(w.s, k, n) && Enters(w.s, k', n)
    requires !GoesOn(w.s.nodes, n, k) && !GoesOn(w.s.nodes, n, k')
    requires n in w.f.keys && k !in w.f.keys[n] && k' !in w.f.keys[n] + {k} && |w.f.keys[n]| == N - 2
    requires KeyCut(N, w.f.keys[n] + {k} + {k'}, v, left, right)
    ensures Played(N, w')
    ensures w' == World(
      w.s.(nodes := Linked(w.s.nodes[m := Spot(0, At(v), Nothing, w.s.nodes[n].parent, {})], n, m),
           place := Squeezed(w.s.place, n, m), owner := w.s.owner[n := t], pc := w.s.pc[t := Up(n, m)]),
      Filling(w.f.keys[n := left][m := right], w.f.key[t := k']))
  {
    hide Played, Enters, KeyCut, Squeezed, GoesOn, Linked;
    w' := Add(N, w, t, n, k);
    w' := SplitLeaf(N, w', t, n, k', m, v, left, right);
  }

  // The separator goes into a parent with room.
  lemma ClimbAndClose(N: Fanout, w: World, t: Tid, p: Id, v: int) returns (w': World)
    requires Played(N, w) && t in w.s.pc && w.s.pc[t].Up? && {w.s.pc[t].lc, w.s.pc[t].rc} <= w.s.nodes.Keys
    requires w.s.pc[t].lc != w.s.root && w.s.nodes[w.s.pc[t].lc].parent == Just(p)
    requires w.s.nodes[w.s.pc[t].rc].low == At(v) && p in w.s.nodes && p !in w.s.owner && !GoesOn(w.s.nodes, p, v)
    requires w.s.nodes[p].level > 0 && |w.s.nodes[p].kids| < N
    ensures Played(N, w')
    ensures w' == w.(s := w.s.(
      nodes := w.s.nodes[p := w.s.nodes[p].(kids := w.s.nodes[p].kids + {w.s.pc[t].rc})],
      owner := w.s.owner - {w.s.pc[t].lc}, pc := w.s.pc[t := Idle]))
  {
    hide Played, GoesOn;
    w' := Climb(N, w, t, p, v);
    w' := Close(N, w', t);
    assert w'.s.owner == w.s.owner - {w.s.pc[t].lc};
  }

  ghost function WithLeaf(w: World, t: Tid, n: Id, k: int, m: Id, v: int, p: Id, left: set<int>, right: set<int>): World
    requires n in w.s.nodes && p in w.s.nodes && n in w.s.place
  {
    World(
      w.s.(nodes := w.s.nodes[m := Spot(0, At(v), w.s.nodes[n].right, Just(p), {})]
                             [n := w.s.nodes[n].(right := Just(m))]
                             [p := w.s.nodes[p].(kids := w.s.nodes[p].kids + {m})],
           place := Squeezed(w.s.place, n, m)),
      Filling(w.f.keys[n := left][m := right], w.f.key[t := k]))
  }

  // A leaf with N - 2 keys gets two more and is split, and its parent has room.
  lemma GrowLeaf(N: Fanout, w: World, t: Tid, n: Id, k: int, k': int, m: Id, v: int, p: Id, left: set<int>,
    right: set<int>)
    returns (w': World)
    requires Played(N, w) && t in w.s.pc && w.s.pc[t].Idle? && n in w.s.nodes && w.s.nodes[n].level == 0
    requires n in w.s.place && m !in w.s.nodes && n !in w.s.owner && Enters(w.s, k, n) && Enters(w.s, k', n)
    requires !GoesOn(w.s.nodes, n, k) && !GoesOn(w.s.nodes, n, k')
    requires n in w.f.keys && k !in w.f.keys[n] && k' !in w.f.keys[n] + {k} && |w.f.keys[n]| == N - 2
    requires KeyCut(N, w.f.keys[n] + {k} + {k'}, v, left, right)
    requires n != w.s.root && w.s.nodes[n].parent == Just(p) && p in w.s.nodes && p !in w.s.owner
    requires w.s.nodes[p].level > 0 && |w.s.nodes[p].kids| < N && w.s.nodes[p].right == Nothing
    ensures Played(N, w') && w' == WithLeaf(w, t, n, k', m, v, p, left, right)
  {
    hide Played, Enters, KeyCut, Squeezed;
    w' := AddAndSplit(N, w, t, n, k, k', m, v, left, right);
    w' := ClimbAndClose(N, w', t, p, v);
    assert w'.s.owner == w.s.owner && w'.s.pc == w.s.pc;
  }

  ghost function WithHalves(w: World, t: Tid, n: Id, k: int, m: Id, v: int, p: Id, left: set<int>,
    right: set<int>): World
    requires n in w.s.nodes && n in w.s.place
  {
    World(
      w.s.(nodes := w.s.nodes[m := Spot(0, At(v), w.s.nodes[n].right, Just(p), {})][n :=
        w.s.nodes[n].(right := Just(m))],
           place := Squeezed(w.s.place, n, m), owner := w.s.owner[n := t][p := t],
           pc := w.s.pc[t := Arrived(Halves(n, m), p)]),
      Filling(w.f.keys[n := left][m := right], w.f.key[t := k]))
  }

  // A leaf with N - 2 keys gets two more and is split, and its parent is locked.
  lemma SplitAndClimb(N: Fanout, w: World, t: Tid, n: Id, k: int, k': int, m: Id, v: int, p: Id, left: set<int>,
    right: set<int>)
    returns (w': World)
    requires Played(N, w) && t in w.s.pc && w.s.pc[t].Idle? && n in w.s.nodes && w.s.nodes[n].level == 0
    requires n in w.s.place && m !in w.s.nodes && n !in w.s.owner && Enters(w.s, k, n) && Enters(w.s, k', n)
    requires !GoesOn(w.s.nodes, n, k) && !GoesOn(w.s.nodes, n, k')
    requires n in w.f.keys && k !in w.f.keys[n] && k' !in w.f.keys[n] + {k} && |w.f.keys[n]| == N - 2
    requires KeyCut(N, w.f.keys[n] + {k} + {k'}, v, left, right)
    requires n != w.s.root && w.s.nodes[n].parent == Just(p) && p in w.s.nodes && p !in w.s.owner && p != n
    requires w.s.nodes[p].right == Nothing
    ensures Played(N, w') && w' == WithHalves(w, t, n, k', m, v, p, left, right)
  {
    hide Played, Enters, KeyCut, Squeezed;
    w' := AddAndSplit(N, w, t, n, k, k', m, v, left, right);
    w' := Climb(N, w', t, p, v);
  }

  // A full internal node: the right half is allocated and filled.
  lemma CutNode(N: Fanout, w: World, t: Tid, m: Id, low: Bound, left: set<Id>, right: set<Id>, first: Id)
    returns (w': World)
    requires Played(N, w) && t in w.s.pc && w.s.pc[t].Arrived? && w.s.pc[t].job.Halves?
    requires w.s.pc[t].curr in w.s.nodes && w.s.pc[t].curr in w.s.place && m !in w.s.nodes && m !in w.s.place
    requires w.s.nodes[w.s.pc[t].curr].level > 0 && |w.s.nodes[w.s.pc[t].curr].kids| == N
    requires first in right && first in w.s.nodes && w.s.nodes[first].low == low
    requires KidCut(N, w.s, w.s.nodes[w.s.pc[t].curr].kids + {w.s.pc[t].job.rc}, left, right)
    ensures var n, j := w.s.pc[t].curr, w.s.pc[t].job;
      Played(N, w') && w' == w.(s := w.s.(
        nodes := w.s.nodes[m := Spot(w.s.nodes[n].level, low, Nothing, w.s.nodes[n].parent, right)],
        place := Squeezed(w.s.place, n, m),
        pc := w.s.pc[t := Splitting(j, n, m, w.s.nodes[n].kids + {j.rc})]))
  {
    hide Played, Squeezed, KidCut;
    w' := Go(N, w, t, Alloc(m, low), 0);
    CutPlaces(w.s, w'.s, w.s.pc[t].curr, m);
    KeepsCut(N, w.s, w'.s, w'.s.pc[t].temp, left, right);
    w' := Go(N, w', t, Fill(m, right), 0);
  }

  lemma KeepsCut(N: Fanout, s: State, s': State, temp: set<Id>, left: set<Id>, right: set<Id>)
    requires KidCut(N, s, temp, left, right) && Keeps(s, s')
    ensures KidCut(N, s', temp, left, right) && left <= temp && right <= temp
  {
    hide NextTo;
  }

  lemma HandOver(N: Fanout, w: World, t: Tid, c: Id) returns (w': World)
    requires Played(N, w) && t in w.s.pc && w.s.pc[t].Splitting? && w.s.pc[t].m in w.s.nodes
    requires c in w.s.nodes[w.s.pc[t].m].kids && c in w.s.nodes
    ensures Played(N, w')
    ensures w' == w.(s := w.s.(nodes := w.s.nodes[c := w.s.nodes[c].(parent := Just(w.s.pc[t].m))]))
  {
    hide Played;
    w' := Go(N, w, t, Adopt(c, w.s.pc[t].m), 0);
    assert w'.s.pc == w.s.pc;
  }

  // The left half keeps its part.
  lemma KeepLeft(N: Fanout, w: World, t: Tid, left: set<Id>, right: set<Id>) returns (w': World)
    requires Played(N, w) && t in w.s.pc && w.s.pc[t].Splitting? && w.s.pc[t].curr in w.s.nodes
    requires w.s.pc[t].curr != w.s.pc[t].m
    requires KidCut(N, w.s, w.s.pc[t].temp, left, right) && Elsewhere(w.s, right, w.s.pc[t].curr)
    ensures var n := w.s.pc[t].curr;
      Played(N, w') && w' == w.(s := w.s.(nodes := w.s.nodes[n := w.s.nodes[n].(kids := left)]))
  {
    hide Played;
    w' := Go(N, w, t, Fill(w.s.pc[t].curr, left), 0);
    assert w'.s.pc == w.s.pc;
  }

  ghost function Parented(nodes: map<Id, Spot>, c: Id, p: Id): map<Id, Spot>
    requires c in nodes
  {
    nodes[c := nodes[c].(parent := Just(p))]
  }

  ghost function ThreeParented(nodes: map<Id, Spot>, c: Id, d: Id, e: Id, p: Id): map<Id, Spot>
    requires {c, d, e} <= nodes.Keys
  {
    Parented(Parented(Parented(nodes, c, p), d, p), e, p)
  }

  // At fan-out 4: the right half is allocated, and filled with its three children.
  lemma ShareOut(w: World, t: Tid, m: Id, low: Bound, left: set<Id>, c: Id, d: Id, e: Id) returns (w': World)
    requires Played(4, w) && t in w.s.pc && w.s.pc[t].Arrived? && w.s.pc[t].job.Halves?
    requires w.s.pc[t].curr in w.s.nodes && w.s.pc[t].curr in w.s.place && m !in w.s.nodes && m !in w.s.place
    requires w.s.nodes[w.s.pc[t].curr].level > 0 && |w.s.nodes[w.s.pc[t].curr].kids| == 4
    requires {c, d, e} <= w.s.nodes.Keys && w.s.nodes[c].low == low
    requires KidCut(4, w.s, w.s.nodes[w.s.pc[t].curr].kids + {w.s.pc[t].job.rc}, left, {c, d, e})
    ensures var n, j := w.s.pc[t].curr, w.s.pc[t].job;
      var nodes := w.s.nodes[m := Spot(w.s.nodes[n].level, low, Nothing, w.s.nodes[n].parent, {c, d, e})];
      Played(4, w') && w' == w.(s := w.s.(
        nodes := ThreeParented(nodes, c, d, e, m),
        place := Squeezed(w.s.place, n, m),
        pc := w.s.pc[t := Splitting(j, n, m, w.s.nodes[n].kids + {j.rc})]))
  {
    hide Played, Squeezed, KidCut;
    w' := CutNode(4, w, t, m, low, left, {c, d, e}, c);
    w' := HandOver(4, w', t, c);
    w' := HandOver(4, w', t, d);
    w' := HandOver(4, w', t, e);
  }

  lemma FiveCut(s: State, a: Id, b: Id, c: Id, d: Id, e: Id)
    requires NextTo(s, a, b) && NextTo(s, b, c) && NextTo(s, c, d) && NextTo(s, d, e)
    ensures KidCut(4, s, {a, b, c, d, e}, {a, b}, {c, d, e})
  {
    assert {a, b} + {c, d, e} == {a, b, c, d, e};
    forall x, y | x in {a, b} && y in {c, d, e} ensures NextTo(s, x, y) {
    }
  }

  // The rest of a parent split up to line 279.
  lemma KeepAndLink(N: Fanout, w: World, t: Tid, left: set<Id>, right: set<Id>) returns (w': World)
    requires Played(N, w) && t in w.s.pc && w.s.pc[t].Splitting?
    requires w.s.pc[t].curr in w.s.nodes && w.s.pc[t].m in w.s.nodes
    requires w.s.pc[t].curr != w.s.pc[t].m && w.s.pc[t].curr !in left + right
    requires KidCut(N, w.s, w.s.pc[t].temp, left, right) && Elsewhere(w.s, right, w.s.pc[t].curr)
    requires Adopted(w.s, left, w.s.pc[t].curr)
    ensures var pc := w.s.pc[t];
      var n, m, x := pc.curr, pc.m, w.s.nodes[pc.curr].right;
      Played(N, w') && w' == w.(s := w.s.(
        nodes := w.s.nodes[n := w.s.nodes[n].(kids := left)][m := w.s.nodes[m].(right := x)],
        pc := w.s.pc[t := HalfLinked(pc.job, n, m, x)]))
  {
    hide Played, KidCut;
    w' := KeepLeft(N, w, t, left, right);
    assert Keeps(w.s, w'.s);
    KeepsCut(N, w.s, w'.s, w.s.pc[t].temp, left, right);
    hide Keeps;
    assert Distributed(N, w'.s, w'.s.pc[t], left, right);
    w' := LinkRightHalf(N, w', t);
  }

  // The rest of a parent split, with nobody in between.
  lemma KeepAndClose(N: Fanout, w: World, t: Tid, left: set<Id>, right: set<Id>) returns (w': World)
    requires Played(N, w) && t in w.s.pc && w.s.pc[t].Splitting?
    requires w.s.pc[t].curr in w.s.nodes && w.s.pc[t].m in w.s.nodes
    requires w.s.pc[t].curr != w.s.pc[t].m && w.s.pc[t].curr !in left + right
    requires KidCut(N, w.s, w.s.pc[t].temp, left, right) && Elsewhere(w.s, right, w.s.pc[t].curr)
    requires Adopted(w.s, left, w.s.pc[t].curr)
    ensures var pc := w.s.pc[t];
      var n, m, x := pc.curr, pc.m, w.s.nodes[pc.curr].right;
      Played(N, w') && w' == w.(s := w.s.(
        nodes := w.s.nodes[n := w.s.nodes[n].(kids := left, right := Just(m))][m := w.s.nodes[m].(right := x)],
        owner := w.s.owner - Child(pc.job), pc := w.s.pc[t := Up(n, m)]))
  {
    hide Played, KidCut, Elsewhere, Adopted;
    w' := KeepAndLink(N, w, t, left, right);
    w' := LinkLeftHalf(N, w', t);
  }

  // left_child is Root: it gets a new root above it.
  lemma GrowTree(N: Fanout, w: World, t: Tid, top: Id) returns (w': World)
    requires Played(N, w) && t in w.s.pc && w.s.pc[t].Up? && w.s.pc[t].lc == w.s.root && w.s.root in w.s.place
    requires {w.s.pc[t].lc, w.s.pc[t].rc} <= w.s.nodes.Keys && w.s.pc[t].lc != w.s.pc[t].rc && top !in w.s.nodes
    ensures var lc, rc := w.s.pc[t].lc, w.s.pc[t].rc;
      Played(N, w') && w' == w.(s := State(
        w.s.nodes[top := Spot(w.s.nodes[lc].level + 1, Bot, Nothing, Nothing, {lc, rc})]
                 [rc := w.s.nodes[rc].(parent := Just(top))][lc := w.s.nodes[lc].(parent := Just(top))],
        top, Squeezed(w.s.place, lc, top), w.s.owner - {lc}, w.s.pc[t := Idle]))
  {
    hide Played, Squeezed;
    w' := Go(N, w, t, TestRoot, 0);
    w' := Go(N, w', t, AllocRoot(top), 0);
    w' := StoreRoot(N, w', t, w.s.pc[t].lc, w.s.pc[t].rc, top);
  }

  lemma StoreRoot(N: Fanout, w: World, t: Tid, lc: Id, rc: Id, top: Id) returns (w': World)
    requires Played(N, w) && t in w.s.pc && w.s.pc[t] == Growing(lc, rc, top, 0) && {lc, rc} <= w.s.nodes.Keys
      && lc != rc
    ensures Played(N, w') && w' == w.(s := w.s.(
      nodes := w.s.nodes[rc := w.s.nodes[rc].(parent := Just(top))][lc := w.s.nodes[lc].(parent := Just(top))],
      root := top, owner := w.s.owner - {lc}, pc := w.s.pc[t := Idle]))
  {
    hide Played;
    w' := Go(N, w, t, RootStore, 0);
    w' := Go(N, w', t, RootStore, 0);
    w' := ShowRoot(N, w', t, lc, rc, top);
  }

  lemma ShowRoot(N: Fanout, w: World, t: Tid, lc: Id, rc: Id, top: Id) returns (w': World)
    requires Played(N, w) && t in w.s.pc && w.s.pc[t] == Growing(lc, rc, top, 2) && {lc, rc} <= w.s.nodes.Keys
    ensures Played(N, w') && w' == w.(s := w.s.(root := top, owner := w.s.owner - {lc}, pc := w.s.pc[t := Idle]))
  {
    hide Played;
    w' := Go(N, w, t, RootStore, 0);
    w' := Go(N, w', t, FreeOne, 0);
  }
}
