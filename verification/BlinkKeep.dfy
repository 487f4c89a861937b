/**
 Each step of an insertion keeps the tree: in-place insertion, the split of a
 node, the separator reaching the parent, and the growth of a new root.
 */
module BlinkKeep {
  import opened Slots
  import opened BlinkState
  import opened BlinkShape
  import opened BlinkStep

  // ---- nodes that keep what others rely on

  predicate FixedRec(r: Rec, r': Rec) {
    r'.level == r.level && r'.low == r.low && r'.isLeaf == r.isLeaf && (Published(r) ==> Published(r'))
  }

  ghost predicate Fixed(h: Heap, h': Heap) {
    && h.Keys <= h'.Keys
    && forall n {:trigger FixedRec(h[n], h'[n])} :: n in h && n in h' ==> FixedRec(h[n], h'[n])
  }

  lemma BaseCarries(N: Fanout, h: Heap, h': Heap, r: Rec)
    requires Fixed(h, h') && Base(N, h, r)
    ensures Base(N, h', r)
  {
    if !r.isLeaf && r.pub > 0 {
      forall j: nat | j < r.pub ensures SlotOk(h', r, j) {
        assert SlotOk(h, r, j);
        var c := r.chi[j].node;
        assert FixedRec(h[c], h'[c]);
      }
    }
    if r.right != null {
      var m: Node := r.right;
      assert FixedRec(h[m], h'[m]);
    }
  }

  lemma KidsCarry(h: Heap, h': Heap, n: Node, r: Rec)
    requires Fixed(h, h') && Kids(h, n, r)
    requires forall c :: c in h && c in h' && h[c].parent == n && HasKid(r, c) ==> h'[c].parent == n
    ensures Kids(h', n, r)
  {
    if !r.isLeaf {
      forall j: nat | j <= r.nkey ensures KidAt(h', n, r, j) {
        assert KidAt(h, n, r, j);
        var c := r.chi[j].node;
        assert KidIs(r, j, c);
        assert FixedRec(h[c], h'[c]);
      }
    }
  }

  // ---- one node rewritten in place

  predicate SameFace(r: Rec, r': Rec) {
    && r'.isLeaf == r.isLeaf && r'.level == r.level && r'.low == r.low && r'.parent == r.parent
    && r'.right == r.right && (r.right != null ==> r'.high == r.high)
    && r'.pub >= r.pub && r'.nkey >= r.nkey
  }

  lemma AllBaseCarries(N: Fanout, h: Heap, n: Node, r: Rec)
    requires AllBase(N, h) && n in h && FixedRec(h[n], r) && Base(N, h, r)
    ensures Fixed(h, h[n := r]) && AllBase(N, h[n := r])
  {
    var h' := h[n := r];
    assert Fixed(h, h');
    forall m | m in h' ensures Base(N, h', h'[m]) {
      assert m != n ==> Base(N, h, h[m]);
      BaseCarries(N, h, h', h'[m]);
    }
  }

  lemma AllKidsCarry(h: Heap, n: Node, r: Rec)
    requires AllKids(h) && n in h && FixedRec(h[n], r) && r.parent == h[n].parent && Kids(h, n, r)
    ensures AllKids(h[n := r])
  {
    var h' := h[n := r];
    assert Fixed(h, h');
    forall m | m in h' ensures Kids(h', m, h'[m]) {
      assert m != n ==> Kids(h, m, h[m]);
      KidsCarry(h, h', m, h'[m]);
    }
  }

  lemma AllApartCarries(h: Heap, n: Node, r: Rec)
    requires AllApart(h) && n in h && SameFace(h[n], r)
    ensures AllApart(h[n := r])
  {
    var h' := h[n := r];
    forall a, b | a in h' && b in h' ensures Apart(h', a, b) {
      assert Apart(h, a, b);
    }
  }

  lemma InPlaceKeepsPlace(N: Fanout, h: Heap, root: Node, pend: Node?, pend': Node?, n: Node, r: Rec, m: Node)
    requires n in h && m in h && root in h && Place(N, h, root, pend, m) && Place(N, h, root, pend, n)
    requires SameFace(h[n], r) && Kids(h, n, r) && pend != root
    requires !r.isLeaf ==> forall c :: HasKid(h[n], c) ==> HasKid(r, c)
    requires pend' == pend || (pend' == null && pend != null && !r.isLeaf && HasKid(r, pend))
    ensures Place(N, h[n := r], root, pend', m)
  {
    var h' := h[n := r];
    if m != root && m == pend && pend' == null {
      var j :| KidIs(r, j, m);
      assert KidAt(h, n, r, j);
    }
  }

  lemma InPlace(N: Fanout, h: Heap, root: Node, pend: Node?, pend': Node?, n: Node, r: Rec)
    requires Tree(N, h, root, pend) && n in h
    requires SameFace(h[n], r) && Base(N, h, r) && Kids(h, n, r)
    requires !r.isLeaf ==> forall m :: HasKid(h[n], m) ==> HasKid(r, m)
    requires !r.isLeaf ==> forall m :: HasKid(r, m) ==> HasKid(h[n], m) || (m == pend && pend' == null)
    requires pend' == pend || (pend' == null && pend != null && !r.isLeaf && HasKid(r, pend))
    ensures Tree(N, h[n := r], root, pend')
  {
    var h' := h[n := r];
    AllBaseCarries(N, h, n, r);
    AllKidsCarry(h, n, r);
    AllApartCarries(h, n, r);
    assert AllPlaced(N, h', root, pend') by {
      hide AllBase, AllKids, AllApart, Base, Kids;
      forall m | m in h' ensures Place(N, h', root, pend', m) {
        assert Place(N, h, root, pend, m) && Place(N, h, root, pend, n);
        InPlaceKeepsPlace(N, h, root, pend, pend', n, r, m);
      }
    }
    hide AllBase, AllKids, AllApart, Base, Kids, AllPlaced;
    if pend' != null {
      forall m | m in h' && !h'[m].isLeaf ensures !HasKid(h'[m], pend') {
        assert m != n ==> !HasKid(h[m], pend');
        assert !h[n].isLeaf ==> !HasKid(h[n], pend');
      }
    }
  }

  // ---- insert_in_leaf

  lemma LeafInsertedBase(N: Fanout, h: Heap, r: Rec, k: int, p: Ptr)
    requires Base(N, h, r) && r.isLeaf && r.nkey < N - 1 && Covers(r, k) && !KeyIn(r, k)
    ensures Base(N, h, LeafInserted(r, k, p)) && SameFace(r, LeafInserted(r, k, p))
  {
    AddKeyAscends(r, k, p);
    hide PutAt, FirstAbove;
    if r.right != null {
      assert r.key[r.nkey - 1] == r.high && r.high != k;
    }
  }

  // A leaf with room takes the key.
  lemma LeafInsertKeepsTree(N: Fanout, h: Heap, root: Node, n: Node, k: int, p: Ptr)
    requires Tree(N, h, root, null) && n in h && h[n].isLeaf && h[n].nkey < N - 1
    requires Covers(h[n], k) && !Has(h, k)
    requires Base(N, h, h[n])
    ensures Tree(N, h[n := LeafInserted(h[n], k, p)], root, null)
  {
    LeafInsertedBase(N, h, h[n], k, p);
    InPlace(N, h, root, null, null, n, LeafInserted(h[n], k, p));
  }

  // ---- finalize_parent

  lemma AddSepBase(N: Fanout, h: Heap, n: Node, r: Rec, k: int, c: Node, j: nat)
    requires Base(N, h, r) && !r.isLeaf && r.nkey < N - 1 && Fits(r, k, j) && Covers(r, k)
    requires r.right != null ==> k < r.high
    requires AllBase(N, h) && Kids(h, n, AddSep(r, k, c))
    ensures Base(N, h, AddSep(r, k, c))
  {
    var t := AddSep(r, k, c);
    AddSepAscends(r, k, c, j);
    PlacedByKey(r, k, j);
    hide PutAt, FirstAbove;
    forall i | 0 <= i < t.nkey ensures Below(t.low, t.key[i]) && (t.right != null ==> t.key[i] < t.high) {
      AddSepSlots(r, k, c, j, i);
    }
    forall i: nat | i < t.pub ensures SlotOk(h, t, i) {
      if i <= t.nkey {
        assert KidAt(h, n, t, i);
        assert Base(N, h, h[t.chi[i].node]);
      } else {
        assert SlotOk(h, r, i);
      }
    }
    assert RecOk(N, h, t);
    assert Keys(t);
    assert Linked(h, t);
    forall i ensures StaleSlot(t, i) {
      assert StaleSlot(r, i);
    }
  }

  // The separator reaches a parent with room, and the split is complete.
  lemma AddSepKeepsTree(N: Fanout, h: Heap, root: Node, lc: Node, rc: Node)
    requires Half(N, h, root, lc, rc) && lc != root
    requires Place(N, h, root, rc, lc) && Home(h, lc) && h[h[lc].parent].nkey < N - 1
    requires var p: Node := h[lc].parent; Base(N, h, h[p]) && Kids(h, p, h[p])
    ensures var p: Node := h[lc].parent; Tree(N, h[p := AddSep(h[p], h[lc].high, rc)], root, null)
  {
    var p: Node := h[lc].parent;
    var k := h[lc].high;
    var j :| KidIs(h[p], j, lc);
    SeparatorFits(N, h, root, lc, rc, j);
    assert KidAt(h, p, h[p], j);
    assert Base(N, h, h[lc]);
    AddSepKids(h, p, h[p], k, rc, j);
    AddSepBase(N, h, p, h[p], k, rc, j);
    hide Base, Kids, AllBase, AllKids, AllApart, AllPlaced, Unheld, PutAt, FirstAbove, Home, HasKid, Place;
    InPlace(N, h, root, rc, null, p, AddSep(h[p], k, rc));
  }

  // ---- linking a new right sibling

  predicate SameSpan(r: Rec, r': Rec) {
    r'.level == r.level && r'.low == r.low && r'.right == r.right && r'.high == r.high
  }

  // n becomes (low, mid] with right link m, and m takes over (mid, high].
  ghost predicate SplitSpan(h: Heap, h': Heap, n: Node, m: Node, mid: int) {
    && n in h && m !in h && h'.Keys == h.Keys + {m}
    && (forall x {:trigger SameSpan(h[x], h'[x])} :: x in h && x != n ==> SameSpan(h[x], h'[x]))
    && h'[n].level == h[n].level && h'[n].low == h[n].low && h'[n].right == m && h'[n].high == mid
    && h'[m].level == h[n].level && h'[m].low == At(mid) && h'[m].right == h[n].right && h'[m].high == h[n].high
    && Below(h[n].low, mid) && (h[n].right != null ==> mid < h[n].high)
  }

  lemma SplitApart(h: Heap, h': Heap, n: Node, m: Node, mid: int, a: Node, b: Node)
    requires AllApart(h) && SplitSpan(h, h', n, m, mid) && a in h' && b in h'
    ensures Apart(h', a, b)
  {
    if a in h && b in h {
      assert Apart(h, a, b);
      assert a != n ==> SameSpan(h[a], h'[a]);
      assert b != n ==> SameSpan(h[b], h'[b]);
    } else if a in h {
      assert Apart(h, a, n) && Apart(h, n, a);
      assert a != n ==> SameSpan(h[a], h'[a]);
    } else if b in h {
      assert Apart(h, b, n) && Apart(h, n, b);
      assert b != n ==> SameSpan(h[b], h'[b]);
    }
  }

  lemma SplitAllApart(h: Heap, h': Heap, n: Node, m: Node, mid: int)
    requires AllApart(h) && SplitSpan(h, h', n, m, mid)
    ensures AllApart(h')
  {
    forall a, b | a in h' && b in h' ensures Apart(h', a, b) {
      SplitApart(h, h', n, m, mid, a, b);
    }
  }
}
