/**
 What the program's runs at a fan-out N make of the choices that the lock protocol leaves
 open: find_leaf and the cut of a leaf are determined, and no node overflows.
 */
module BlinkSizes {
  import opened BlinkState
  import opened BlinkLocks
  import opened BlinkKeyRuns
  import opened BlinkPlay
  import opened BlinkRanges

  // ---- no choice is left

  lemma OnePick(nodes: map<Id, Spot>, p: Id, k: int, c: Id, d: Id)
    requires Picks(nodes, p, c, k) && Picks(nodes, p, d, k)
    ensures c == d
  {
  }

  lemma {:induction false} OneLeafIsFound(nodes: map<Id, Spot>, n: Id, k: int, leaf: Id, leaf': Id, levels: nat)
    requires Descends(nodes, n, k, leaf, levels) && Descends(nodes, n, k, leaf', levels)
    ensures leaf == leaf'
    decreases levels
  {
    if levels > 0 {
      var c :| Picks(nodes, n, c, k) && Descends(nodes, c, k, leaf, levels - 1);
      var d :| Picks(nodes, n, d, k) && Descends(nodes, d, k, leaf', levels - 1);
      OnePick(nodes, n, k, c, d);
      OneLeafIsFound(nodes, c, k, leaf, leaf', levels - 1);
    }
  }

  lemma SmallerCut(N: Fanout, temp: set<int>, v: int, left: set<int>, right: set<int>, v': int, left': set<int>,
    right': set<int>)
    requires KeyCut(N, temp, v, left, right) && KeyCut(N, temp, v', left', right')
    ensures v' <= v
  {
    if v < v' {
      assert forall x :: x in left ==> x in temp && x !in right';
      assert left <= left' && v' in left' && v' !in left;
      assert left + {v'} <= left';
      Subset(left + {v'}, left');
    }
  }

  lemma {:induction false} Subset<T>(a: set<T>, b: set<T>)
    requires a <= b
    ensures |a| <= |b|
  {
    if a != {} {
      var x :| x in a;
      Subset(a - {x}, b - {x});
    }
  }

  // A full leaf is cut in one way only.
  lemma OneCut(N: Fanout, temp: set<int>, v: int, left: set<int>, right: set<int>, v': int, left': set<int>,
    right': set<int>)
    requires KeyCut(N, temp, v, left, right) && KeyCut(N, temp, v', left', right')
    ensures v == v' && left == left' && right == right'
  {
    SmallerCut(N, temp, v, left, right, v', left', right');
    SmallerCut(N, temp, v', left', right', v, left, right);
    forall x ensures x in left <==> x in left' {
      assert x in left <==> x in temp && x <= v;
      assert x in left' <==> x in temp && x <= v;
    }
    forall x ensures x in right <==> x in right' {
      assert x in right <==> x in temp && v < x;
      assert x in right' <==> x in temp && v < x;
    }
  }

  // ---- no node overflows

  // The first leaf may hold few keys; once there are two, each holds at least half of what it can.
  ghost predicate LeafSize(N: Fanout, keys: map<Id, set<int>>, n: Id) {
    n in keys ==> |keys[n]| <= N - 1 && (|keys| > 1 ==> |keys[n]| >= N / 2)
  }

  ghost predicate NodeSize(N: Fanout, nodes: map<Id, Spot>, n: Id) {
    n in nodes && nodes[n].level > 0 ==> |nodes[n].kids| <= N
  }

  ghost predicate Sizes(N: Fanout, w: World) {
    && (forall n {:trigger LeafSize(N, w.f.keys, n)} :: LeafSize(N, w.f.keys, n))
    && (forall n {:trigger NodeSize(N, w.s.nodes, n)} :: NodeSize(N, w.s.nodes, n))
  }

  // Every insertion carries its key, and only insertions look at leaves.
  lemma StepKeepsLeafSize(N: Fanout, w: World, t: Tid, a: Action, k: int, n: Id)
    requires Allowed(N, w, t, a, k) && Sizes(N, w) && |w.f.keys| > 0
    requires a.Room? || a.Alloc? ==> (w.s.pc[t].job.Key? <==> w.s.nodes[w.s.pc[t].curr].level == 0)
    ensures LeafSize(N, After(N, w, t, a, k).f.keys, n) && |After(N, w, t, a, k).f.keys| > 0
  {
    assert LeafSize(N, w.f.keys, n);
    var keys, keys' := w.f.keys, After(N, w, t, a, k).f.keys;
    if a.Room? && w.s.pc[t].job.Key? {
      var c := w.s.pc[t].curr;
      assert LeafSize(N, keys, c);
      assert |keys[c]| < N - 1 && keys' == keys[c := keys[c] + {w.f.key[t]}];
      hide Allowed, After, Sizes;
      Subset(keys[c], keys'[c]);
      Counted(keys, keys');
    } else if a.Alloc? && w.s.pc[t].job.Key? {
      CutSizes(N, w, t, a, k, n);
    }
  }

  lemma Counted(a: map<Id, set<int>>, b: map<Id, set<int>>)
    requires a.Keys == b.Keys
    ensures |a| == |b|
  {
    assert |a| == |a.Keys| && |b| == |b.Keys|;
  }

  lemma CutSizes(N: Fanout, w: World, t: Tid, a: Action, k: int, n: Id)
    requires Allowed(N, w, t, a, k) && a.Alloc? && LeafSize(N, w.f.keys, n) && |w.f.keys| > 0
    requires w.s.pc[t].job.Key? && w.s.nodes[w.s.pc[t].curr].level == 0
    ensures LeafSize(N, After(N, w, t, a, k).f.keys, n) && |After(N, w, t, a, k).f.keys| > 0
  {
    var c, keys, keys' := w.s.pc[t].curr, w.f.keys, After(N, w, t, a, k).f.keys;
    var left, right := CutHalves(N, w, t, a, k);
    hide Allowed, After;
    assert keys'.Keys == keys.Keys + {a.m};
    if n in keys && |keys'| > 1 && n != c && n != a.m {
      assert |keys| > 1 by {
        TwoKeys(keys, n, c);
      }
    }
  }

  lemma TwoKeys(keys: map<Id, set<int>>, n: Id, c: Id)
    requires n in keys && c in keys && n != c
    ensures |keys| > 1
  {
    Subset({n, c}, keys.Keys);
    assert |keys| == |keys.Keys|;
  }

  lemma CutHalves(N: Fanout, w: World, t: Tid, a: Action, k: int) returns (left: set<int>, right: set<int>)
    requires Allowed(N, w, t, a, k) && a.Alloc?
    requires w.s.pc[t].job.Key? && w.s.nodes[w.s.pc[t].curr].level == 0
    ensures w.s.pc[t].curr in w.f.keys && |left| == N / 2 && |right| == N / 2
    ensures After(N, w, t, a, k).f.keys == w.f.keys[w.s.pc[t].curr := left][a.m := right]
  {
    var temp := w.f.keys[w.s.pc[t].curr] + {w.f.key[t]};
    left, right :| KeyCut(N, temp, a.low.v, left, right);
    assert (set x | x in temp && x <= a.low.v) == left;
    assert (set x | x in temp && a.low.v < x) == right;
  }

  lemma StepKeepsNodeSize(N: Fanout, w: World, t: Tid, a: Action, k: int, n: Id)
    requires Allowed(N, w, t, a, k) && NodeSize(N, w.s.nodes, n)
    ensures NodeSize(N, Stored(w.s, t, a), n)
  {
    hide KeyCut, Enters, Elsewhere, Distributed, NextTo;
  }

  lemma StepKeepsSizes(N: Fanout, w: World, t: Tid, a: Action, k: int)
    requires Allowed(N, w, t, a, k) && Sizes(N, w) && |w.f.keys| > 0
    requires a.Room? || a.Alloc? ==> (w.s.pc[t].job.Key? <==> w.s.nodes[w.s.pc[t].curr].level == 0)
    ensures Sizes(N, After(N, w, t, a, k)) && |After(N, w, t, a, k).f.keys| > 0
  {
    var w' := After(N, w, t, a, k);
    hide Allowed;
    forall n ensures LeafSize(N, w'.f.keys, n) && NodeSize(N, w'.s.nodes, n) {
      StepKeepsLeafSize(N, w, t, a, k, n);
      assert NodeSize(N, w.s.nodes, n);
      StepKeepsNodeSize(N, w, t, a, k, n);
    }
    StepKeepsLeafSize(N, w, t, a, k, 0);
  }

  // Insertions are at leaves, pairs of halves above them.
  lemma JobFitsLevel(N: Fanout, w: World, t: Tid, a: Action, k: int)
    requires LeavesOk(w.s) && Ranged(w.s, w.f) && Allowed(N, w, t, a, k) && (a.Room? || a.Alloc?)
    ensures w.s.pc[t].job.Key? <==> w.s.nodes[w.s.pc[t].curr].level == 0
  {
    assert KeyOk(w.s, w.f, t);
    if w.s.nodes[w.s.pc[t].curr].level == 0 {
      LeafJobIsKey(w.s, t);
    }
  }

  /**
   In every state of every run of the program at fan-out N: no leaf holds more than N - 1 keys and no
   node above has more than N children; and with more than one leaf, each holds at least N / 2 keys.
   */
  lemma {:induction false} PlayKeepsSizes(N: Fanout, ws: seq<World>, moves: seq<Move>, ks: seq<int>, i: nat)
    requires Play(N, ws, moves, ks) && i < |ws|
    ensures Sizes(N, ws[i]) && |ws[i].f.keys| > 0
  {
    hide Allowed, After, LeavesOk, Ranged, KeyRun;
    if i == 0 {
      FirstSizes(N, ws[0]);
    } else {
      hide Init, Sizes;
      PlayKeepsSizes(N, ws, moves, ks, i - 1);
      PlayIsRun(N, ws, moves, ks);
      KeysStayInRange(StatesOf(ws), moves, FillingsOf(ws), ks, i - 1);
      var w, m := ws[i - 1], moves[i - 1];
      if m.a.Room? || m.a.Alloc? {
        JobFitsLevel(N, w, m.t, m.a, ks[i - 1]);
      }
      StepKeepsSizes(N, w, m.t, m.a, ks[i - 1]);
    }
  }

  lemma FirstSizes(N: Fanout, w: World)
    requires Init(w.s) && w.f.keys == map[w.s.root := {}]
    ensures Sizes(N, w) && |w.f.keys| > 0
  {
  }
}
