/**
 The split of a full internal node: the cascade moves one level up.
 */
module BlinkCascade {
  import opened Slots
  import opened BlinkState
  import opened BlinkShape
  import opened BlinkStep
  import opened BlinkKeep
  import opened BlinkSplit

  // p keeps the left half of t, its new right sibling m takes the right half and becomes
  // the parent of the children there.
  ghost function InternalSplit(N: Fanout, h: Heap, p: Node, m: Node, t: Rec): Heap
    requires p in h && |h[p].key| == N - 1 && |h[p].chi| == N && |t.key| == N && |t.chi| == N + 1
  {
    map x | x in h.Keys + {m} ::
      if x == m then RightInternal(N, h[p], t)
      else if x == p then LeftInternal(N, h[p], t, m)
      else if HasKid(RightInternal(N, h[p], t), x) then h[x].(parent := m)
      else h[x]
  }

  // What is known of the TEMP once the separator is in place.
  ghost predicate TempOk(N: Fanout, h: Heap, p: Node, r: Rec, t: Rec, rc: Node) {
    && |r.key| == N - 1 && |r.chi| == N && r.nkey == N - 1 && !r.isLeaf
    && |t.key| == N && |t.chi| == N + 1 && t.nkey == N && !t.isLeaf
    && t.low == r.low && t.level == r.level
    && Ascending(t.key, N)
    && (forall i :: 0 <= i < N ==> Below(r.low, t.key[i]) && (r.right != null ==> t.key[i] < r.high))
    && (forall i {:trigger t.key[i]} {:trigger r.key[i]} :: 0 <= i < N - 1 ==> t.key[i] <= r.key[i])
    && Kids(h, p, t)
    && (forall c :: c in h ==> (HasKid(t, c) <==> HasKid(r, c) || c == rc))
  }

  lemma WideKids(h: Heap, n: Node, r: Rec)
    requires Kids(h, n, r) && !r.isLeaf && r.nkey == |r.key|
    ensures Kids(h, n, Wide(r))
    ensures forall c :: HasKid(Wide(r), c) <==> HasKid(r, c)
  {
    var w := Wide(r);
    forall j: nat | j <= w.nkey ensures KidAt(h, n, w, j) {
      assert KidAt(h, n, r, j);
    }
    forall c ensures HasKid(w, c) <==> HasKid(r, c) {
      if HasKid(w, c) {
        var j :| KidIs(w, j, c);
        assert KidIs(r, j, c);
      }
      if HasKid(r, c) {
        var j :| KidIs(r, j, c);
        assert KidIs(w, j, c);
      }
    }
  }

  lemma WideKeys(N: Fanout, r: Rec, k: int, c: Node, j: nat)
    requires |r.key| == N - 1 && |r.chi| == N && r.nkey == N - 1 && !r.isLeaf && Keys(r) && Fits(r, k, j)
    requires Covers(r, k) && (r.right != null ==> k < r.high)
    ensures var t := AddSep(Wide(r), k, c);
            && Ascending(t.key, N)
            && (forall i :: 0 <= i < N ==> Below(r.low, t.key[i]) && (r.right != null ==> t.key[i] < r.high))
            && (forall i :: 0 <= i < N - 1 ==> t.key[i] <= r.key[i])
  {
    var w := Wide(r);
    var t := AddSep(w, k, c);
    assert forall i :: 0 <= i < N - 1 ==> w.key[i] == r.key[i];
    AddSepAscends(w, k, c, j);
    hide PutAt, FirstAbove;
    forall i | 0 <= i < N
      ensures Below(r.low, t.key[i]) && (r.right != null ==> t.key[i] < r.high)
      ensures i < N - 1 ==> t.key[i] <= r.key[i]
    {
      AddSepSlots(w, k, c, j, i);
    }
  }

  lemma TempIsOk(N: Fanout, h: Heap, root: Node, lc: Node, rc: Node)
    requires Half(N, h, root, lc, rc) && lc != root
    requires Place(N, h, root, rc, lc) && Home(h, lc) && h[h[lc].parent].nkey == N - 1
    requires var p: Node := h[lc].parent; Base(N, h, h[p]) && Kids(h, p, h[p])
    ensures var p: Node := h[lc].parent; TempOk(N, h, p, h[p], AddSep(Wide(h[p]), h[lc].high, rc), rc)
  {
    var p: Node := h[lc].parent;
    var r, k := h[p], h[lc].high;
    var j :| KidIs(r, j, lc);
    SeparatorFits(N, h, root, lc, rc, j);
    RightFits(N, h, root, lc, rc, j);
    TempOfSlot(N, h, p, r, k, rc, j);
  }

  // The new child is one level below p, starts at the separator, and has p as its parent.
  lemma RightFits(N: Fanout, h: Heap, root: Node, lc: Node, rc: Node, j: nat)
    requires Half(N, h, root, lc, rc) && lc != root && Home(h, lc) && KidIs(h[h[lc].parent], j, lc)
    requires var p: Node := h[lc].parent; Kids(h, p, h[p])
    ensures var p: Node := h[lc].parent;
            rc in h && h[rc].level + 1 == h[p].level && h[rc].low == At(h[lc].high) && h[rc].parent == p
  {
    var p: Node := h[lc].parent;
    assert KidAt(h, p, h[p], j);
    assert Base(N, h, h[lc]);
  }

  lemma TempOfSlot(N: Fanout, h: Heap, p: Node, r: Rec, k: int, rc: Node, j: nat)
    requires Base(N, h, r) && Kids(h, p, r) && !r.isLeaf && r.nkey == N - 1
    requires Fits(r, k, j) && Covers(r, k) && (r.right != null ==> k < r.high)
    requires rc in h && h[rc].level + 1 == r.level && h[rc].low == At(k) && h[rc].parent == p
    ensures TempOk(N, h, p, r, AddSep(Wide(r), k, rc), rc)
  {
    hide PutAt, FirstAbove, Kids, HasKid;
    WideKeys(N, r, k, rc, j);
    WideKids(h, p, r);
    assert Fits(Wide(r), k, j);
    AddSepKids(h, p, Wide(r), k, rc, j);
  }

  // ---- the two halves

  // h' is the heap after the split, seen from the nodes of h.
  ghost predicate Halves(N: Fanout, h: Heap, h': Heap, p: Node, m: Node, t: Rec, rc: Node) {
    && p in h && m !in h && TempOk(N, h, p, h[p], t, rc)
    && h' == InternalSplit(N, h, p, m, t)
    && h[p].pub == N && h[p].parent != p
  }

  lemma RightKids(N: Fanout, r: Rec, t: Rec, c: Node)
    requires |t.key| == N && |t.chi| == N + 1 && t.nkey == N && HasKid(RightInternal(N, r, t), c)
    ensures exists i: nat :: N / 2 <= i <= N && KidIs(t, i, c)
  {
    var q := RightInternal(N, r, t);
    var j :| KidIs(q, j, c);
    assert KidIs(t, j + N / 2, c);
  }

  // A child of t is a child of exactly one half.
  lemma KidOfOneHalf(N: Fanout, h: Heap, p: Node, m: Node, t: Rec, rc: Node, i: nat, c: Node)
    requires p in h && TempOk(N, h, p, h[p], t, rc) && KidIs(t, i, c)
    ensures i < N / 2 ==> KidIs(LeftInternal(N, h[p], t, m), i, c) && !HasKid(RightInternal(N, h[p], t), c)
    ensures i >= N / 2 ==> KidIs(RightInternal(N, h[p], t), i - N / 2, c)
  {
    if i < N / 2 {
      forall i': nat | N / 2 <= i' <= N ensures !KidIs(t, i', c) {
        SlotsDiffer(h, p, t, i, i');
      }
      if HasKid(RightInternal(N, h[p], t), c) {
        RightKids(N, h[p], t, c);
      }
    }
  }

  lemma SlotsDiffer(h: Heap, p: Node, t: Rec, i: nat, i': nat)
    requires Kids(h, p, t) && !t.isLeaf && Ascending(t.key, t.nkey) && i < i' <= t.nkey
    requires forall x :: 0 <= x < t.nkey ==> Below(t.low, t.key[x])
    ensures t.chi[i] != t.chi[i']
  {
    assert KidAt(h, p, t, i) && KidAt(h, p, t, i');
    assert Below(t.low, t.key[i' - 1]);
    assert i > 0 ==> t.key[i - 1] < t.key[i' - 1];
  }

  // The children that move to m were children of p (or the pending node).
  lemma MovedFromP(N: Fanout, h: Heap, p: Node, t: Rec, rc: Node, c: Node)
    requires p in h && TempOk(N, h, p, h[p], t, rc) && HasKid(RightInternal(N, h[p], t), c)
    ensures c in h && h[c].parent == p && h[c].level + 1 == h[p].level
  {
    RightKids(N, h[p], t, c);
    var i: nat :| N / 2 <= i <= N && KidIs(t, i, c);
    assert KidAt(h, p, t, i);
  }

  lemma HalvesFixed(N: Fanout, h: Heap, h': Heap, p: Node, m: Node, t: Rec, rc: Node)
    requires Halves(N, h, h', p, m, t, rc)
    ensures Fixed(h, h')
  {
  }

  lemma LeftKidsStay(N: Fanout, h: Heap, h': Heap, p: Node, m: Node, t: Rec, rc: Node)
    requires Halves(N, h, h', p, m, t, rc)
    ensures Kids(h', p, h'[p])
  {
    var q := h'[p];
    forall i: nat | i <= q.nkey ensures KidAt(h', p, q, i) {
      assert KidAt(h, p, t, i);
      assert KidIs(t, i, t.chi[i].node);
      KidOfOneHalf(N, h, p, m, t, rc, i, t.chi[i].node);
    }
  }

  lemma RightKidsMove(N: Fanout, h: Heap, h': Heap, p: Node, m: Node, t: Rec, rc: Node)
    requires Halves(N, h, h', p, m, t, rc)
    ensures Kids(h', m, h'[m])
  {
    var q := h'[m];
    forall i: nat | i <= q.nkey ensures KidAt(h', m, q, i) {
      assert KidAt(h, p, t, i + N / 2);
      var c := t.chi[i + N / 2].node;
      assert KidIs(q, i, c);
    }
  }

  lemma OtherKidsStay(N: Fanout, h: Heap, h': Heap, p: Node, m: Node, t: Rec, rc: Node, x: Node)
    requires Halves(N, h, h', p, m, t, rc) && x in h && x != p && Kids(h, x, h[x])
    ensures Kids(h', x, h'[x])
  {
    HalvesFixed(N, h, h', p, m, t, rc);
    forall c | c in h && c in h' && h[c].parent == x && HasKid(h[x], c) ensures h'[c].parent == x {
      if HasKid(RightInternal(N, h[p], t), c) {
        MovedFromP(N, h, p, t, rc, c);
      }
    }
    KidsCarry(h, h', x, h[x]);
    ParentIsFree(N, h', x, h[x], m);
  }

  lemma LeftSlots(N: Fanout, h: Heap, h': Heap, p: Node, m: Node, t: Rec, rc: Node, j: nat)
    requires Halves(N, h, h', p, m, t, rc) && Base(N, h, h[p]) && AllBase(N, h) && j < N
    ensures SlotOk(h', h'[p], j)
  {
    var r := h[p];
    HalvesFixed(N, h, h', p, m, t, rc);
    if j < N / 2 {
      assert KidAt(h, p, t, j);
      assert Base(N, h, h[t.chi[j].node]);
      assert FixedRec(h[t.chi[j].node], h'[t.chi[j].node]);
    } else {
      assert SlotOk(h, r, j);
      assert FixedRec(h[r.chi[j].node], h'[r.chi[j].node]);
    }
  }

  lemma LeftBase(N: Fanout, h: Heap, h': Heap, p: Node, m: Node, t: Rec, rc: Node)
    requires Halves(N, h, h', p, m, t, rc) && Base(N, h, h[p]) && AllBase(N, h)
    ensures Base(N, h', h'[p])
  {
    var r, q := h[p], h'[p];
    forall j: nat | j < q.pub ensures SlotOk(h', q, j) {
      LeftSlots(N, h, h', p, m, t, rc, j);
    }
    assert RecOk(N, h', q);
    hide AllBase, SlotOk, Kids;
    assert Keys(q);
    assert Linked(h', q);
    assert t.key[N / 2 - 1] <= r.key[N / 2 - 1];
    assert Stale(q);
  }

  lemma RightBase(N: Fanout, h: Heap, h': Heap, p: Node, m: Node, t: Rec, rc: Node)
    requires Halves(N, h, h', p, m, t, rc) && Base(N, h, h[p]) && AllBase(N, h)
    ensures Base(N, h', h'[m])
  {
    var r, q := h[p], h'[m];
    HalvesFixed(N, h, h', p, m, t, rc);
    forall j: nat | j < q.pub ensures SlotOk(h', q, j) {
      assert KidAt(h, p, t, j + N / 2);
      var c := t.chi[j + N / 2].node;
      assert Base(N, h, h[c]);
      assert FixedRec(h[c], h'[c]);
    }
    assert RecOk(N, h', q);
    assert forall i :: 0 <= i < q.nkey ==> q.key[i] == t.key[i + N / 2];
    assert Keys(q);
    if r.right != null {
      var x: Node := r.right;
      assert FixedRec(h[x], h'[x]);
    }
    assert Linked(h', q);
    assert Stale(q);
  }

  lemma HalvesBases(N: Fanout, h: Heap, h': Heap, p: Node, m: Node, t: Rec, rc: Node)
    requires Halves(N, h, h', p, m, t, rc) && AllBase(N, h)
    ensures AllBase(N, h')
  {
    assert Base(N, h, h[p]);
    LeftBase(N, h, h', p, m, t, rc);
    RightBase(N, h, h', p, m, t, rc);
    HalvesFixed(N, h, h', p, m, t, rc);
    forall x | x in h' ensures Base(N, h', h'[x]) {
      if x in h && x != p {
        assert Base(N, h, h[x]);
        BaseCarries(N, h, h', h[x]);
        ParentIsFree(N, h', x, h[x], m);
      }
    }
  }

  lemma HalvesKids(N: Fanout, h: Heap, h': Heap, p: Node, m: Node, t: Rec, rc: Node)
    requires Halves(N, h, h', p, m, t, rc) && AllKids(h)
    ensures AllKids(h') && Unheld(h', m)
  {
    LeftKidsStay(N, h, h', p, m, t, rc);
    RightKidsMove(N, h, h', p, m, t, rc);
    forall x | x in h' ensures Kids(h', x, h'[x]) {
      if x in h && x != p {
        assert Kids(h, x, h[x]);
        OtherKidsStay(N, h, h', p, m, t, rc, x);
      }
    }
    forall x | x in h' && !h'[x].isLeaf ensures !HasKid(h'[x], m) {
      if HasKid(h'[x], m) {
        NoKidIsNew(N, h, h', p, m, t, rc, x);
      }
    }
  }

  lemma NoKidIsNew(N: Fanout, h: Heap, h': Heap, p: Node, m: Node, t: Rec, rc: Node, x: Node)
    requires Halves(N, h, h', p, m, t, rc) && AllKids(h) && x in h' && !h'[x].isLeaf
    ensures !HasKid(h'[x], m)
  {
    if x == p || x == m {
      forall i | KidIs(h'[x], i, m) ensures false {
        assert KidIs(t, if x == p then i else i + N / 2, m);
        TempKidsAreNodes(h, p, t, if x == p then i else i + N / 2, m);
      }
    } else {
      assert Kids(h, x, h[x]);
      ParentIsFree(N, h, x, h[x], m);
      if HasKid(h[x], m) {
        KidsAreNodes(h, x, m);
      }
    }
  }

  lemma TempKidsAreNodes(h: Heap, p: Node, t: Rec, i: nat, c: Node)
    requires Kids(h, p, t) && !t.isLeaf && KidIs(t, i, c)
    ensures c in h
  {
    assert KidAt(h, p, t, i);
  }

  // ---- where every node hangs afterwards

  lemma SplitPlaceOf(N: Fanout, h: Heap, h': Heap, root: Node, p: Node, m: Node, t: Rec, rc: Node, x: Node)
    requires Halves(N, h, h', p, m, t, rc) && root in h && rc in h && AllPlaced(N, h, root, rc) && x in h && rc != root
    ensures Place(N, h', root, m, x)
  {
    assert Place(N, h, root, rc, x) && Place(N, h, root, rc, root) && Place(N, h, root, rc, p);
    var q := RightInternal(N, h[p], t);
    if HasKid(q, root) {
      MovedFromP(N, h, p, t, rc, root);
    }
    if HasKid(q, p) {
      MovedFromP(N, h, p, t, rc, p);
    }
    if x != root {
      NewHome(N, h, h', root, p, m, t, rc, x);
    }
  }

  lemma NewHome(N: Fanout, h: Heap, h': Heap, root: Node, p: Node, m: Node, t: Rec, rc: Node, x: Node)
    requires Halves(N, h, h', p, m, t, rc) && root in h && rc in h && x in h && x != root
    requires Place(N, h, root, rc, x) && Place(N, h, root, rc, p)
    ensures h'[x].level < h[root].level && Home(h', x)
  {
    if HasKid(h[p], x) || x == rc {
      assert HasKid(t, x);
      var i :| KidIs(t, i, x);
      assert KidAt(h, p, t, i);
      KidOfOneHalf(N, h, p, m, t, rc, i, x);
    } else {
      if HasKid(RightInternal(N, h[p], t), x) {
        RightKids(N, h[p], t, x);
      }
      var y: Node := h[x].parent;
      ParentIsFree(N, h, y, h[y], m);
    }
  }

  lemma SplitPlaces(N: Fanout, h: Heap, h': Heap, root: Node, p: Node, m: Node, t: Rec, rc: Node)
    requires Halves(N, h, h', p, m, t, rc) && root in h && rc in h && AllPlaced(N, h, root, rc) && rc != root
    ensures AllPlaced(N, h', root, m)
  {
    forall x | x in h' ensures Place(N, h', root, m, x) {
      if x in h {
        SplitPlaceOf(N, h, h', root, p, m, t, rc, x);
      } else {
        assert Place(N, h, root, rc, p) && Place(N, h, root, rc, root);
        SplitPlaceOf(N, h, h', root, p, m, t, rc, root);
      }
    }
  }

  lemma SplitSpans(N: Fanout, h: Heap, h': Heap, p: Node, m: Node, t: Rec, rc: Node)
    requires Halves(N, h, h', p, m, t, rc) && AllApart(h)
    ensures AllApart(h')
  {
    assert SplitSpan(h, h', p, m, t.key[N / 2 - 1]);
    SplitAllApart(h, h', p, m, t.key[N / 2 - 1]);
  }

  lemma HalvesHold(N: Fanout, h: Heap, root: Node, lc: Node, rc: Node, m: Node)
    requires Half(N, h, root, lc, rc) && lc != root && m !in h
    requires Place(N, h, root, rc, lc) && Home(h, lc) && h[h[lc].parent].nkey == N - 1
    requires var p: Node := h[lc].parent; Base(N, h, h[p]) && Kids(h, p, h[p]) && Place(N, h, root, rc, p)
    ensures var p: Node := h[lc].parent;
            var t := AddSep(Wide(h[p]), h[lc].high, rc);
            Halves(N, h, InternalSplit(N, h, p, m, t), p, m, t, rc)
  {
    var p: Node := h[lc].parent;
    TempIsOk(N, h, root, lc, rc);
    var j :| KidIs(h[p], j, lc);
    assert KidAt(h, p, h[p], j);
    assert Base(N, h, h[lc]);
    hide AllBase, AllKids, AllApart, AllPlaced, Unheld, AddSep, Wide, TempOk, InternalSplit;
    if h[p].parent == p && p != root {
      KidsAreNodes(h, p, p);
    }
  }

  lemma SplitLinks(N: Fanout, h: Heap, h': Heap, root: Node, p: Node, m: Node, t: Rec, rc: Node)
    requires Halves(N, h, h', p, m, t, rc) && root in h && Place(N, h, root, rc, root)
    ensures h'[p].right == m && h'[m].parent == h'[p].parent && Filled(N, h'[p]) && Fixed(h, h') && m != root
  {
  }

  /**
   The parent is full: splitting it leaves a tree that is half-split one level higher.
   */
  lemma SplitParentKeepsTree(N: Fanout, h: Heap, root: Node, lc: Node, rc: Node, m: Node)
    requires Half(N, h, root, lc, rc) && lc != root && m !in h
    requires Place(N, h, root, rc, lc) && Home(h, lc) && h[h[lc].parent].nkey == N - 1
    requires var p: Node := h[lc].parent; Base(N, h, h[p]) && Kids(h, p, h[p]) && Place(N, h, root, rc, p)
    ensures var p: Node := h[lc].parent;
            Half(N, InternalSplit(N, h, p, m, AddSep(Wide(h[p]), h[lc].high, rc)), root, p, m)
  {
    var p: Node := h[lc].parent;
    var t := AddSep(Wide(h[p]), h[lc].high, rc);
    HalvesHold(N, h, root, lc, rc, m);
    assert Place(N, h, root, rc, root);
    hide AllBase, AllKids, AllApart, AllPlaced, Unheld, AddSep, Wide, Halves, InternalSplit, Base, Kids, Place, Home;
    var h' := InternalSplit(N, h, p, m, t);
    SplitLinks(N, h, h', root, p, m, t, rc);
    HalvesBases(N, h, h', p, m, t, rc);
    HalvesKids(N, h, h', p, m, t, rc);
    SplitPlaces(N, h, h', root, p, m, t, rc);
    SplitSpans(N, h, h', p, m, t, rc);
  }
}
