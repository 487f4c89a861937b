/**
 The leaf level on its own. Whatever is going on above it (separators shifting, halves of
 internal nodes not linked yet, the root being replaced), right links lead from any leaf
 below a key to the leaf that decides about it.
 */
module BlinkLeaves {
  import opened BlinkState
  import opened BlinkShape
  import opened BlinkReader
  import opened BlinkWalk
  import opened BlinkPairs

  // Every leaf is in order and linked exactly, and no two leaves share a key. Nothing is said of other nodes.
  ghost predicate LeafLevel(N: Fanout, h: Heap) {
    AllBase(N, LeafView(h)) && AllApart(LeafView(h))
  }

  lemma ViewBase(N: Fanout, h: Heap, n: Node)
    requires n in h && h[n].isLeaf && AllBase(N, h)
    ensures n in LeafView(h) && Base(N, LeafView(h), LeafView(h)[n])
  {
    assert Base(N, h, h[n]);
    if h[n].right != null {
      assert Base(N, h, h[h[n].right]);
    }
  }

  // The leaf level of a tree is one, also while a split is on its way up.
  lemma TreeHasLeafLevel(N: Fanout, h: Heap, root: Node, pend: Node?)
    requires Tree(N, h, root, pend)
    ensures LeafLevel(N, h)
  {
    var v := LeafView(h);
    forall n | n in v ensures Base(N, v, v[n]) {
      ViewBase(N, h, n);
    }
    forall n, m | n in v && m in v ensures Apart(v, n, m) {
      assert Apart(h, n, m);
    }
  }

  lemma ViewStores(h: Heap)
    ensures SameStored(h, LeafView(h))
  {
    var v := LeafView(h);
    forall k, a ensures Stored(v, k, a) <==> Stored(h, k, a) {
      if Stored(h, k, a) {
        var n :| n in h && InLeaf(h[n], k, Item(a));
        SameIn(h[n], v[n], k, Item(a));
      }
      if Stored(v, k, a) {
        var n :| n in v && InLeaf(v[n], k, Item(a));
        SameIn(h[n], v[n], k, Item(a));
      }
    }
    forall k ensures Has(v, k) <==> Has(h, k) {
      if Has(h, k) {
        var n :| n in h && KeyIn(h[n], k);
        SameIn(h[n], v[n], k, Null);
      }
      if Has(v, k) {
        var n :| n in v && KeyIn(v[n], k);
        SameIn(h[n], v[n], k, Null);
      }
    }
  }

  // Where move_right stops on the leaf level.
  ghost function LeafWalk(N: Fanout, h: Heap, n: Node, k: int): Node
    requires LeafLevel(N, h) && n in h && h[n].isLeaf
  {
    Walk(N, LeafView(h), n, k)
  }

  // In a tree it is where move_right stops.
  lemma {:induction false} WalkOnLeaves(N: Fanout, h: Heap, n: Node, k: int)
    requires AllBase(N, h) && LeafLevel(N, h) && n in h && h[n].isLeaf
    ensures LeafWalk(N, h, n, k) == Walk(N, h, n, k)
    decreases Rights(h, n)
  {
    if h[n].right != null && h[n].high < k {
      RightIsFurther(N, h, n);
      ViewBase(N, h, n);
      RightIsFurther(N, LeafView(h), n);
      WalkOnLeaves(N, h, h[n].right, k);
    }
  }

  /**
   As long as the leaf level is in order, whatever the state of the levels above: any leaf
   that starts below k leads move_right to the leaf that covers k, and that one holds k, and
   the data pointer of k, if and only if some leaf does.
   */
  lemma WalkFindsStored(N: Fanout, h: Heap, n: Node, k: int, a: int)
    requires LeafLevel(N, h) && n in h && h[n].isLeaf && Below(h[n].low, k)
    ensures var m := LeafWalk(N, h, n, k);
      && m in h && h[m].isLeaf && Covers(h[m], k)
      && (Stored(h, k, a) <==> InLeaf(h[m], k, Item(a)))
      && (Has(h, k) <==> KeyIn(h[m], k))
  {
    var v := LeafView(h);
    WalkCovers(N, v, n, k);
    var m := Walk(N, v, n, k);
    KeyIsInItsLeaf(N, v, m, k, a);
    ViewStores(h);
    SameIn(h[m], v[m], k, Item(a));
  }

  // All starting points below k lead to the same leaf.
  lemma WalkIsUnique(N: Fanout, h: Heap, n: Node, m: Node, k: int)
    requires LeafLevel(N, h) && n in h && m in h && h[n].isLeaf && h[m].isLeaf
    requires Below(h[n].low, k) && Below(h[m].low, k)
    ensures LeafWalk(N, h, n, k) == LeafWalk(N, h, m, k)
  {
    var v := LeafView(h);
    WalkCovers(N, v, n, k);
    WalkCovers(N, v, m, k);
    assert Base(N, v, v[n]) && Base(N, v, v[m]);
    CoverIsUnique(v, Walk(N, v, n, k), Walk(N, v, m, k), k);
  }

  // ---- between the stores above the leaf level

  // From snapshot i on, the leaf level is in order and stores the pairs of h.
  ghost predicate Settled(N: Fanout, hist: seq<Snap>, i: nat, h: Heap) {
    forall j {:trigger hist[j]} :: i <= j < |hist| ==> LeafLevel(N, hist[j].h) && SameStored(h, hist[j].h)
  }

  lemma CalmSettles(N: Fanout, hist: seq<Snap>, calm: nat, i: nat, h: Heap)
    requires Calm(hist, calm) && calm <= i < |hist| && LeafView(h) == LeafView(hist[|hist| - 1].h) && LeafLevel(N, h)
    ensures Settled(N, hist, i, h)
  {
    forall j | i <= j < |hist| ensures LeafLevel(N, hist[j].h) && SameStored(h, hist[j].h) {
      assert LeafView(hist[j].h) == LeafView(h);
      hide LeafView;
      ViewStores(h);
      ViewStores(hist[j].h);
    }
  }

  // Stores that change nothing on the leaf level leave it in order, each of them.
  lemma StaysSettled(N: Fanout, hist0: seq<Snap>, h0: Heap, hist: seq<Snap>, calm: nat)
    requires Calm(hist0, calm) && hist0[|hist0| - 1].h == h0 && LeafLevel(N, h0)
    requires Calm(hist, calm) && hist0 <= hist
    ensures Settled(N, hist, |hist0| - 1, h0)
  {
    hide LeafView, LeafLevel, Settled;
    assert hist[|hist0| - 1].h == h0;
    CalmSettles(N, hist, calm, |hist0| - 1, h0);
  }

  // Snapshot i comes right after the last store that changes the leaf level.
  ghost predicate LastLeafStore(hist: seq<Snap>, i: nat) {
    && 0 < i < |hist| && LeafView(hist[i - 1].h) != LeafView(hist[i].h)
    && forall j {:trigger hist[j]} :: i <= j < |hist| ==> LeafView(hist[j].h) == LeafView(hist[i].h)
  }

  // An insertion makes such a store, and from there on its outcome is settled.
  lemma InsertionSettles(N: Fanout, hist0: seq<Snap>, h0: Heap, hist: seq<Snap>, h: Heap, root: Node, calm: nat, k: int,
    a: int)
    requires |hist0| > 0 && hist0 <= hist && hist0[|hist0| - 1].h == h0 && Tree(N, h, root, null)
    requires Calm(hist, calm) && hist[|hist| - 1].h == h && OneMore(h0, h, k, a) && !Has(h0, k)
    ensures |hist0| <= calm && LastLeafStore(hist, calm) && Settled(N, hist, calm, h)
  {
    TreeHasLeafLevel(N, h, root, null);
    CalmSettles(N, hist, calm, calm, h);
    hide LeafLevel, Settled, Tree;
    if calm < |hist0| {
      assert hist[|hist0| - 1].h == h0;
      assert LeafView(h0) == LeafView(h);
      hide LeafView, Has;
      ViewStores(h0);
      ViewStores(h);
    }
  }

  // ---- descents across insertions

  /**
   A descent that was interleaved with any stores still serves its purpose later: in any
   later snapshot whose leaf level is in order, in the middle of the stores of a split above
   it or not, move_right from the leaf it found ends at the one leaf that covers k, and finds
   what is stored for k.
   */
  lemma DescentThenWalk(N: Fanout, hist: seq<Snap>, k: int, run: seq<Moment>, u: nat, a: int)
    requires Safe(N, hist) && Descent(hist, k, run) && run[|run| - 1].reader.Done?
    requires run[|run| - 1].time <= u < |hist| && LeafLevel(N, hist[u].h)
    ensures var h, leaf := hist[u].h, run[|run| - 1].reader.leaf;
            leaf in h && h[leaf].isLeaf &&
            var m := LeafWalk(N, h, leaf, k);
            && m in h && h[m].isLeaf && Covers(h[m], k)
            && (Stored(h, k, a) <==> InLeaf(h[m], k, Item(a)))
            && (Has(h, k) <==> KeyIn(h[m], k))
  {
    DescentEndsBelowKey(N, hist, k, run, u);
    WalkFindsStored(N, hist[u].h, run[|run| - 1].reader.leaf, k, a);
  }
}
