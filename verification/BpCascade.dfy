/**
 The split of a full internal node: the next pending split, one level up.
 */
module BpCascade {
  import opened Slots
  import opened BpShape
  import opened BpStep
  import opened BpSplit

  // The children of the new right half get it as their parent.
  ghost function Adopted(h: Heap, rq: Rec, q: Node): Heap {
    map n | n in h :: if HasKid(rq, n) then h[n].(parent := q) else h[n]
  }

  // p split into p and q, where t is the TEMP copy of p with the separator in.
  ghost function ParentSplit(N: Fanout, h: Heap, p: Node, t: Rec, q: Node): Heap
    requires p in h && |t.key| == N && |t.chi| == N + 1
  {
    Adopted(h, RightInternal(N, h[p], t), q)[p := LeftInternal(N, h[p], t)][q := RightInternal(N, h[p], t)]
  }

  // What is known of the TEMP.
  ghost predicate TempOk(N: Fanout, h: Heap, p: Node, t: Rec) {
    && p in h && t.nkey == N == |t.key| && |t.chi| == N + 1 && !t.isLeaf && !h[p].isLeaf
    && t.level == h[p].level && t.lo == h[p].lo && t.hi == h[p].hi
    && Ascending(t.key, N)
    && (forall i :: 0 <= i < N ==> Inner(t, t.key[i]))
    && Kids(h, Nothing, p, t)
  }

  ghost predicate Splitting(N: Fanout, h: Heap, root: Node, pend: Pending, p: Node, j: nat, t: Rec) {
    && Entering(N, h, root, pend, p, j)
    && h[p].nkey == N - 1 == |h[p].key| && |h[p].chi| == N
    && j < N && t == AddSep(Wide(h[p]), j, h[pend.right].lo.v, pend.right)
  }

  lemma TempIsOk(N: Fanout, h: Heap, root: Node, pend: Pending, p: Node, j: nat, t: Rec)
    requires Splitting(N, h, root, pend, p, j, t)
    ensures TempOk(N, h, p, t)
    ensures forall n :: HasKid(t, n) <==> HasKid(h[p], n) || n == pend.right
  {
    var r := h[p];
    var w := Wide(r);
    var sep := h[pend.right].lo.v;
    assert Base(N, r);
    AddSepKids(N, h, root, pend, p, j, w);
    SeparatorFits(N, h, root, pend, j);
    assert forall i :: 0 <= i < N - 1 ==> w.key[i] == r.key[i];
    AddSepAscends(w, j, sep, pend.right);
    forall i | 0 <= i < N ensures Inner(t, t.key[i]) {
      if i < j {
        assert Inner(r, r.key[i]);
      } else if i > j {
        assert Inner(r, r.key[i - 1]);
      }
    }
    forall n: Node ensures HasKid(t, n) <==> HasKid(r, n) || n == pend.right {
      AddSepHasKids(r, w, j, sep, pend.right, n);
    }
  }

  lemma KidsAreDistinct(N: Fanout, h: Heap, p: Node, t: Rec, i: nat, x: nat)
    requires TempOk(N, h, p, t) && i < x <= N
    ensures t.chi[i] != t.chi[x]
  {
    assert KidAt(h, Nothing, p, t, i) && KidAt(h, Nothing, p, t, x);
    if i > 0 {
      assert t.key[i - 1] < t.key[x - 1];
    } else {
      assert Inner(t, t.key[x - 1]);
    }
  }

  // The two halves share out the TEMP's children; none is in both.
  lemma HalvesShare(N: Fanout, h: Heap, p: Node, t: Rec, n: Node)
    requires TempOk(N, h, p, t)
    ensures HasKid(t, n) <==> HasKid(LeftInternal(N, h[p], t), n) || HasKid(RightInternal(N, h[p], t), n)
    ensures HasKid(LeftInternal(N, h[p], t), n) ==> !HasKid(RightInternal(N, h[p], t), n)
  {
    var a, b := LeftInternal(N, h[p], t), RightInternal(N, h[p], t);
    if HasKid(t, n) {
      var i :| KidIs(t, i, n);
      assert if i <= N / 2 then KidIs(a, i, n) else KidIs(b, i - N / 2 - 1, n);
    }
    if HasKid(a, n) {
      var i :| KidIs(a, i, n);
      assert KidIs(t, i, n);
      if HasKid(b, n) {
        var x :| KidIs(b, x, n);
        KidsAreDistinct(N, h, p, t, i, x + N / 2 + 1);
      }
    }
    if HasKid(b, n) {
      var x :| KidIs(b, x, n);
      assert KidIs(t, x + N / 2 + 1, n);
    }
  }

  lemma HalfBases(N: Fanout, h: Heap, p: Node, t: Rec)
    requires TempOk(N, h, p, t) && Base(N, h[p])
    ensures Base(N, LeftInternal(N, h[p], t)) && Base(N, RightInternal(N, h[p], t))
    ensures Inner(h[p], t.key[N / 2])
  {
    hide Kids;
    var a, b := LeftInternal(N, h[p], t), RightInternal(N, h[p], t);
    assert Inner(t, t.key[N / 2]);
    assert forall i :: 0 <= i < N / 2 ==> a.key[i] == t.key[i];
    assert forall i :: 0 <= i < N / 2 - 1 ==> b.key[i] == t.key[N / 2 + 1 + i];
  }

  lemma LeftKids(N: Fanout, h: Heap, p: Node, t: Rec, q: Node)
    requires TempOk(N, h, p, t) && q !in h
    ensures Kids(ParentSplit(N, h, p, t, q), Split(p, q), p, LeftInternal(N, h[p], t))
  {
    var h' := ParentSplit(N, h, p, t, q);
    var a := LeftInternal(N, h[p], t);
    forall i: nat | i <= a.nkey ensures KidAt(h', Split(p, q), p, a, i) {
      assert KidAt(h, Nothing, p, t, i);
      assert KidIs(a, i, t.chi[i]);
      HalvesShare(N, h, p, t, t.chi[i]);
    }
  }

  lemma RightKids(N: Fanout, h: Heap, p: Node, t: Rec, q: Node)
    requires TempOk(N, h, p, t) && q !in h
    ensures Kids(ParentSplit(N, h, p, t, q), Split(p, q), q, RightInternal(N, h[p], t))
  {
    var h' := ParentSplit(N, h, p, t, q);
    var b := RightInternal(N, h[p], t);
    forall i: nat | i <= b.nkey ensures KidAt(h', Split(p, q), q, b, i) {
      assert KidAt(h, Nothing, p, t, i + N / 2 + 1);
      assert KidIs(b, i, t.chi[i + N / 2 + 1]);
    }
  }

  // A moved child was p's, and is not p.
  lemma MovedIsKid(N: Fanout, h: Heap, p: Node, t: Rec, n: Node)
    requires TempOk(N, h, p, t) && HasKid(RightInternal(N, h[p], t), n)
    ensures n in h && n != p && h[n].parent == p
  {
    var b := RightInternal(N, h[p], t);
    var i :| KidIs(b, i, n);
    assert KidAt(h, Nothing, p, t, i + N / 2 + 1);
  }

  // What the split leaves of another node.
  lemma OtherRecord(N: Fanout, h: Heap, p: Node, t: Rec, q: Node, n: Node)
    requires TempOk(N, h, p, t) && q !in h && n in h && n != p
    ensures var h' := ParentSplit(N, h, p, t, q);
            h'[n] == if HasKid(RightInternal(N, h[p], t), n) then h[n].(parent := q) else h[n]
  {
  }

  // Everyone else's children look the same as before.
  lemma OthersKids(N: Fanout, h: Heap, root: Node, pend: Pending, p: Node, j: nat, t: Rec, q: Node, n: Node)
    requires Splitting(N, h, root, pend, p, j, t) && TempOk(N, h, p, t) && q !in h && n in h && n != p
    ensures var h' := ParentSplit(N, h, p, t, q); Kids(h', Split(p, q), n, h'[n])
  {
    var h' := ParentSplit(N, h, p, t, q);
    assert Kids(h, pend, n, h[n]);
    OtherRecord(N, h, p, t, q, n);
    if !h[n].isLeaf {
      forall c | c in h && HasKid(h[n], c) ensures Same(h, pend, h', Split(p, q), c) {
        var i :| KidIs(h[n], i, c);
        assert KidAt(h, pend, n, h[n], i);
        if HasKid(RightInternal(N, h[p], t), c) {
          MovedIsKid(N, h, p, t, c);
        }
        if c != p {
          OtherRecord(N, h, p, t, q, c);
        }
      }
      KidsCarry(h, pend, h', Split(p, q), n, h[n], h'[n]);
    }
  }

  lemma OthersPlace(N: Fanout, h: Heap, root: Node, pend: Pending, p: Node, j: nat, t: Rec, q: Node, n: Node)
    requires Splitting(N, h, root, pend, p, j, t) && TempOk(N, h, p, t) && q !in h && n in h
    requires HasKid(t, n) <==> HasKid(h[p], n) || n == pend.right
    ensures Place(N, ParentSplit(N, h, p, t, q), root, Split(p, q), n)
  {
    var h' := ParentSplit(N, h, p, t, q);
    assert Place(N, h, root, pend, n) && Place(N, h, root, pend, pend.left);
    HalvesShare(N, h, p, t, n);
    if HasKid(RightInternal(N, h[p], t), n) {
      MovedIsKid(N, h, p, t, n);
      OtherRecord(N, h, p, t, q, n);
      assert n != root;
    } else if n != p {
      OtherRecord(N, h, p, t, q, n);
    }
    if n != root && h[n].parent != null && h[n].parent != p {
      var up: Node := h[n].parent;
      if up in h {
        OtherRecord(N, h, p, t, q, up);
        if i: nat :| KidIs(h[up], i, n) {
          assert KidIs(h'[up], i, n);
        }
      }
    }
  }

  lemma ParentSplitKeepsTree(N: Fanout, h: Heap, root: Node, pend: Pending, p: Node, j: nat, t: Rec, q: Node)
    requires Splitting(N, h, root, pend, p, j, t) && q !in h
    ensures Tree(N, ParentSplit(N, h, p, t, q), root, Split(p, q))
  {
    assert Base(N, h[p]);
    hide Tree, Base, Kids, TempOk, Splitting, Place, Adopted;
    var h' := ParentSplit(N, h, p, t, q);
    TempIsOk(N, h, root, pend, p, j, t);
    HalfBases(N, h, p, t);
    LeftKids(N, h, p, t, q);
    RightKids(N, h, p, t, q);
    SplitNodesAre(N, h, p, t, q);
    forall n | n in h && n != p ensures Base(N, h'[n]) && Kids(h', Split(p, q), n, h'[n]) {
      OthersBase(N, h, root, pend, p, j, t, q, n);
      OthersKids(N, h, root, pend, p, j, t, q, n);
    }
    forall n | n in h ensures Place(N, h', root, Split(p, q), n) {
      OthersPlace(N, h, root, pend, p, j, t, q, n);
    }
    RangesApart(N, h, root, pend, p, j, t, q);
    HalvesPlaced(N, h, root, pend, p, j, t, q);
    AllTogether(N, h', root, p, q);
  }

  lemma SplitNodesAre(N: Fanout, h: Heap, p: Node, t: Rec, q: Node)
    requires TempOk(N, h, p, t) && q !in h
    ensures var h' := ParentSplit(N, h, p, t, q);
            h'.Keys == h.Keys + {q} && h'[p] == LeftInternal(N, h[p], t) && h'[q] == RightInternal(N, h[p], t)
  {
  }

  lemma OthersBase(N: Fanout, h: Heap, root: Node, pend: Pending, p: Node, j: nat, t: Rec, q: Node, n: Node)
    requires Splitting(N, h, root, pend, p, j, t) && TempOk(N, h, p, t) && q !in h && n in h && n != p
    ensures Base(N, ParentSplit(N, h, p, t, q)[n])
  {
    assert Base(N, h[n]);
    OtherRecord(N, h, p, t, q, n);
  }

  lemma RangesApart(N: Fanout, h: Heap, root: Node, pend: Pending, p: Node, j: nat, t: Rec, q: Node)
    requires Splitting(N, h, root, pend, p, j, t) && TempOk(N, h, p, t) && Inner(h[p], t.key[N / 2]) && q !in h
    ensures AllApart(ParentSplit(N, h, p, t, q))
  {
    var h' := ParentSplit(N, h, p, t, q);
    forall n | n in h && n != p ensures h'[n].level == h[n].level && h'[n].lo == h[n].lo && h'[n].hi == h[n].hi {
      OtherRecord(N, h, p, t, q, n);
    }
    hide AllBase, AllKids, AllPlaced, Kids;
    CutKeepsApart(h, h', p, q);
  }

  lemma HalvesPlaced(N: Fanout, h: Heap, root: Node, pend: Pending, p: Node, j: nat, t: Rec, q: Node)
    requires Splitting(N, h, root, pend, p, j, t) && TempOk(N, h, p, t) && q !in h
    ensures var h' := ParentSplit(N, h, p, t, q);
            root in h' && Halves(N, h', root, Split(p, q)) && Place(N, h', root, Split(p, q), q)
  {
    assert Place(N, h, root, pend, p);
    hide AllBase, AllKids, AllPlaced, AllApart, Kids;
  }

  lemma AllTogether(N: Fanout, h: Heap, root: Node, p: Node, q: Node)
    requires root in h && p in h && q in h && Halves(N, h, root, Split(p, q)) && AllApart(h)
    requires forall n :: n in h ==> Base(N, h[n]) && Kids(h, Split(p, q), n, h[n]) && Place(N, h, root, Split(p, q), n)
    ensures Tree(N, h, root, Split(p, q))
  {
    hide Base, Kids, Place, Halves, AllApart;
  }
}
