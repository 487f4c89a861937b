/**
 Splits: of a leaf, of an internal node, and of the root.
 */
module BlinkSplit {
  import opened Slots
  import opened BlinkState
  import opened BlinkShape
  import opened BlinkStep
  import opened BlinkKeep

  // ---- a full leaf

  // The TEMP with the new key: N keys in order and in range.
  lemma WideLeaf(N: Fanout, h: Heap, r: Rec, k: int, p: Ptr)
    requires Base(N, h, r) && r.isLeaf && r.nkey == N - 1 && Covers(r, k) && !KeyIn(r, k)
    ensures var t := AddKey(Wide(r), k, p);
            && |t.key| == N && |t.chi| == N + 1 && t.nkey == N
            && Ascending(t.key, N)
            && (forall i :: 0 <= i < N ==> Below(r.low, t.key[i]))
            && (r.right != null ==> t.key[N - 1] == r.high)
  {
    var w := Wide(r);
    assert forall i :: 0 <= i < N - 1 ==> w.key[i] == r.key[i];
    AddKeyAscends(w, k, p);
    hide PutAt, FirstAbove;
    if r.right != null {
      assert r.key[N - 2] == r.high && r.high != k;
    }
  }

  lemma LeftLeafBase(N: Fanout, h: Heap, r: Rec, t: Rec, m: Node)
    requires |r.key| == N - 1 && |r.chi| == N && |t.key| == N && |t.chi| == N + 1
    requires RecOk(N, h, r) && r.isLeaf && Ascending(t.key, N)
    requires forall i :: 0 <= i < N ==> Below(r.low, t.key[i])
    requires m in h && h[m].level == r.level && h[m].low == At(t.key[N / 2 - 1])
    ensures Base(N, h, LeftLeaf(N, r, t, m)) && Filled(N, LeftLeaf(N, r, t, m))
  {
    var a := LeftLeaf(N, r, t, m);
    assert forall i :: 0 <= i < N / 2 ==> a.key[i] == t.key[i];
    assert Keys(a);
  }

  lemma RightLeafBase(N: Fanout, h: Heap, r: Rec, t: Rec)
    requires |t.key| == N && |t.chi| == N + 1
    requires r.isLeaf && r.level == 0 && Linked(h, r) && Ascending(t.key, N)
    requires r.right != null ==> t.key[N - 1] == r.high
    ensures Base(N, h, RightLeaf(N, r, t)) && Filled(N, RightLeaf(N, r, t))
  {
    var b := RightLeaf(N, r, t);
    assert forall i :: 0 <= i < N / 2 ==> b.key[i] == t.key[i + N / 2];
    assert t.key[N / 2 - 1] < t.key[N - 1];
    assert Keys(b);
  }

  lemma KidsAreNodes(h: Heap, n: Node, c: Node)
    requires n in h && Kids(h, n, h[n]) && !h[n].isLeaf && HasKid(h[n], c)
    ensures c in h && h[c].level + 1 == h[n].level && h[c].parent == n
  {
    var j :| KidIs(h[n], j, c);
    assert KidAt(h, n, h[n], j);
  }

  // n and its new right sibling m; every other node as it was.
  ghost predicate SplitHeap(h: Heap, h': Heap, n: Node, m: Node) {
    && n in h && m !in h && h'.Keys == h.Keys + {m}
    && (forall x :: x in h && x != n ==> h'[x] == h[x])
    && h'[n].parent == h[n].parent && h'[m].parent == h[n].parent
    && h'[n].level == h[n].level && h'[m].level == h[n].level && h'[n].low == h[n].low
    && h'[n].isLeaf && h'[m].isLeaf && h[n].isLeaf
  }

  lemma LeafSplitPlaces(N: Fanout, h: Heap, h': Heap, root: Node, n: Node, m: Node)
    requires root in h && AllPlaced(N, h, root, null) && SplitHeap(h, h', n, m)
    requires Filled(N, h'[n]) && Filled(N, h'[m])
    ensures AllPlaced(N, h', root, m)
  {
    forall x | x in h' ensures Place(N, h', root, m, x) {
      if x in h {
        assert Place(N, h, root, null, x);
      } else {
        assert Place(N, h, root, null, n);
      }
    }
  }

  lemma LeafSplitKids(h: Heap, h': Heap, n: Node, m: Node)
    requires AllKids(h) && SplitHeap(h, h', n, m)
    ensures AllKids(h') && Unheld(h', m)
  {
    assert Fixed(h, h');
    forall x | x in h' ensures Kids(h', x, h'[x]) {
      if x in h && x != n {
        assert Kids(h, x, h[x]);
        KidsCarry(h, h', x, h[x]);
      }
    }
    forall x | x in h' && !h'[x].isLeaf ensures !HasKid(h'[x], m) {
      assert Kids(h, x, h[x]);
      if HasKid(h[x], m) {
        KidsAreNodes(h, x, m);
      }
    }
  }

  lemma LeafSplitBases(N: Fanout, h: Heap, h': Heap, n: Node, m: Node)
    requires AllBase(N, h) && SplitHeap(h, h', n, m) && Base(N, h', h'[n]) && Base(N, h', h'[m])
    ensures AllBase(N, h')
  {
    assert Fixed(h, h');
    forall x | x in h' ensures Base(N, h', h'[x]) {
      if x in h && x != n {
        assert Base(N, h, h[x]);
        BaseCarries(N, h, h', h[x]);
      }
    }
  }

  // Splitting a full leaf leaves a half-split tree.
  lemma LeafSplitKeepsTree(N: Fanout, h: Heap, root: Node, n: Node, m: Node, k: int, p: Ptr)
    requires Tree(N, h, root, null) && n in h && h[n].isLeaf && h[n].nkey == N - 1 && m !in h
    requires Covers(h[n], k) && !Has(h, k)
    requires Base(N, h, h[n])
    ensures var t := AddKey(Wide(h[n]), k, p);
            Half(N, h[n := LeftLeaf(N, h[n], t, m)][m := RightLeaf(N, h[n], t)], root, n, m)
  {
    var r := h[n];
    assert !KeyIn(r, k);
    var t := AddKey(Wide(r), k, p);
    WideLeaf(N, h, r, k, p);
    var mid := t.key[N / 2 - 1];
    var h' := h[n := LeftLeaf(N, r, t, m)][m := RightLeaf(N, r, t)];
    assert SplitHeap(h, h', n, m);
    assert Fixed(h, h');
    BaseCarries(N, h, h', r);
    LeftLeafBase(N, h', r, t, m);
    RightLeafBase(N, h', r, t);
    hide AllBase, AllKids, AllApart, AllPlaced, Has, KeyIn, Ascending, AddKey;
    LeafSplitBases(N, h, h', n, m);
    LeafSplitKids(h, h', n, m);
    LeafSplitPlaces(N, h, h', root, n, m);
    assert t.key[N / 2 - 1] < t.key[N - 1];
    SplitAllApart(h, h', n, m, mid);
  }

  // ---- a new root

  // alloc_root and the two parent stores.
  function Grown(N: Fanout, h: Heap, lc: Node, rc: Node, nr: Node): Heap
    requires lc in h && rc in h
  {
    h[nr := RootRec(N, h[lc].level + 1, lc, h[lc].high, rc)][rc := h[rc].(parent := nr)][lc := h[lc].(parent := nr)]
  }

  ghost predicate IsGrown(N: Fanout, h: Heap, h': Heap, lc: Node, rc: Node, nr: Node) {
    && lc in h && rc in h && nr !in h && lc != rc && h'.Keys == h.Keys + {nr}
    && h'[nr] == RootRec(N, h[lc].level + 1, lc, h[lc].high, rc)
    && h'[lc] == h[lc].(parent := nr) && h'[rc] == h[rc].(parent := nr)
    && (forall x :: x in h && x != lc && x != rc ==> h'[x] == h[x])
  }

  // Nothing about a node's keys, links or children depends on its own parent field.
  lemma ParentIsFree(N: Fanout, h: Heap, n: Node, r: Rec, p: Node?)
    ensures Base(N, h, r) ==> Base(N, h, r.(parent := p))
    ensures Kids(h, n, r) ==> Kids(h, n, r.(parent := p))
    ensures forall c :: HasKid(r, c) <==> HasKid(r.(parent := p), c)
  {
    var q := r.(parent := p);
    if Base(N, h, r) && !r.isLeaf && r.pub > 0 {
      forall j: nat | j < q.pub ensures SlotOk(h, q, j) {
        assert SlotOk(h, r, j);
      }
      forall j ensures StaleSlot(q, j) {
        assert StaleSlot(r, j);
      }
    }
    if Kids(h, n, r) && !r.isLeaf {
      forall j: nat | j <= q.nkey ensures KidAt(h, n, q, j) {
        assert KidAt(h, n, r, j);
      }
    }
    forall c ensures HasKid(r, c) <==> HasKid(q, c) {
      if HasKid(r, c) {
        var j :| KidIs(r, j, c);
        assert KidIs(q, j, c);
      }
      if HasKid(q, c) {
        var j :| KidIs(q, j, c);
        assert KidIs(r, j, c);
      }
    }
  }

  lemma RootBase(N: Fanout, h: Heap, h': Heap, lc: Node, rc: Node, nr: Node)
    requires IsGrown(N, h, h', lc, rc, nr) && h[lc].right == rc
    requires Base(N, h, h[lc]) && Base(N, h, h[rc]) && Place(N, h, lc, rc, lc)
    ensures Base(N, h', h'[nr]) && Kids(h', nr, h'[nr])
  {
    var q := h'[nr];
    assert q.key[0] == h[lc].high && q.chi[0] == Kid(lc) && q.chi[1] == Kid(rc);
    assert KidAt(h', nr, q, 0) && KidAt(h', nr, q, 1);
    assert SlotOk(h', q, 0) && SlotOk(h', q, 1);
    assert RecOk(N, h', q) && Keys(q) && Stale(q);
  }

  lemma GrownBases(N: Fanout, h: Heap, h': Heap, lc: Node, rc: Node, nr: Node)
    requires AllBase(N, h) && IsGrown(N, h, h', lc, rc, nr) && Base(N, h', h'[nr])
    ensures Fixed(h, h') && AllBase(N, h')
  {
    assert Fixed(h, h');
    forall x | x in h' ensures Base(N, h', h'[x]) {
      if x in h {
        assert Base(N, h, h[x]);
        BaseCarries(N, h, h', h[x]);
        ParentIsFree(N, h', x, h[x], nr);
      }
    }
  }

  lemma GrownKids(N: Fanout, h: Heap, h': Heap, lc: Node, rc: Node, nr: Node)
    requires AllKids(h) && IsGrown(N, h, h', lc, rc, nr) && Fixed(h, h') && Kids(h', nr, h'[nr])
    requires h[lc].parent == null && h[rc].parent == null
    ensures AllKids(h')
  {
    forall x | x in h' ensures Kids(h', x, h'[x]) {
      if x in h {
        assert Kids(h, x, h[x]);
        KidsCarry(h, h', x, h[x]);
        ParentIsFree(N, h', x, h[x], nr);
      }
    }
  }

  lemma GrownPlaces(N: Fanout, h: Heap, h': Heap, lc: Node, rc: Node, nr: Node)
    requires IsGrown(N, h, h', lc, rc, nr) && AllPlaced(N, h, lc, rc) && Filled(N, h[lc])
    ensures AllPlaced(N, h', nr, null)
  {
    assert Place(N, h, lc, rc, lc) && Place(N, h, lc, rc, rc);
    forall x | x in h' ensures Place(N, h', nr, null, x) {
      if x == lc || x == rc {
        assert KidIs(h'[nr], 0, lc) && KidIs(h'[nr], 1, rc);
      } else if x in h {
        assert Place(N, h, lc, rc, x);
        ParentIsFree(N, h, h[x].parent, h[h[x].parent], nr);
        assert HasKid(h'[h[x].parent], x);
      }
    }
  }

  lemma GrownApart(N: Fanout, h: Heap, h': Heap, lc: Node, rc: Node, nr: Node)
    requires IsGrown(N, h, h', lc, rc, nr) && AllApart(h) && AllPlaced(N, h, lc, rc)
    ensures AllApart(h')
  {
    forall a, b | a in h' && b in h' ensures Apart(h', a, b) {
      if a in h && b in h {
        assert Apart(h, a, b);
      } else if a in h {
        assert Place(N, h, lc, rc, a);
      } else if b in h {
        assert Place(N, h, lc, rc, b);
      }
    }
  }

  // The old root was split: a new root over both halves completes the tree.
  lemma GrowthKeepsTree(N: Fanout, h: Heap, lc: Node, rc: Node, nr: Node)
    requires Half(N, h, lc, lc, rc) && nr !in h
    ensures Tree(N, Grown(N, h, lc, rc, nr), nr, null)
  {
    var h' := Grown(N, h, lc, rc, nr);
    assert IsGrown(N, h, h', lc, rc, nr);
    assert Base(N, h, h[lc]) && Base(N, h, h[rc]) && Place(N, h, lc, rc, lc);
    hide AllBase, AllKids, AllApart, AllPlaced;
    RootBase(N, h, h', lc, rc, nr);
    GrownBases(N, h, h', lc, rc, nr);
    GrownKids(N, h, h', lc, rc, nr);
    GrownPlaces(N, h, h', lc, rc, nr);
    GrownApart(N, h, h', lc, rc, nr);
  }
}
