/**
 Splits of the B+ tree, and what takes their separators in.
 */
module BpSplit {
  import opened Slots
  import opened BpShape
  import opened BpStep

  // ---- a full leaf

  lemma TempKeys(N: Fanout, r: Rec, k: int)
    requires Base(N, r) && r.isLeaf && r.nkey == N - 1 && Covers(r, k) && !KeyIn(r, k)
    ensures var t := AddKey(Wide(r), k);
            && |t.key| == N && Ascending(t.key, N) && (forall i :: 0 <= i < N ==> Covers(r, t.key[i]))
            && (forall k' :: KeyIn(t, k') <==> KeyIn(r, k') || k' == k)
  {
    var w := Wide(r);
    var t := AddKey(w, k);
    assert forall i :: 0 <= i < N - 1 ==> w.key[i] == r.key[i];
    forall k' ensures KeyIn(w, k') <==> KeyIn(r, k') {
      if KeyIn(r, k') {
        var i :| 0 <= i < r.nkey && r.key[i] == k';
        assert w.key[i] == k';
      }
    }
    forall i | 0 <= i < N - 1 ensures w.key[i] != k {
      assert w.key[i] == k ==> KeyIn(r, k);
    }
    AddKeyAscends(w, k);
    forall k' ensures KeyIn(t, k') <==> KeyIn(r, k') || k' == k {
      AddKeyKeys(w, k, k');
    }
    forall i | 0 <= i < N ensures Covers(r, t.key[i]) {
      assert KeyIn(t, t.key[i]);
    }
  }

  lemma LeftHalf(N: Fanout, r: Rec, t: Rec)
    requires Base(N, r) && r.isLeaf && |t.key| == N && Ascending(t.key, N) && forall i :: 0 <= i < N ==>
      Covers(r, t.key[i])
    ensures Base(N, LeftLeaf(N, r, t)) && (r.lo.At? ==> r.lo.v < t.key[N / 2])
  {
    var a := LeftLeaf(N, r, t);
    assert Covers(r, t.key[0]) && t.key[0] < t.key[N / 2];
    forall i | 0 <= i < N / 2 ensures a.key[i] == t.key[i] && Covers(a, a.key[i]) {
      assert Covers(r, t.key[i]) && t.key[i] < t.key[N / 2];
    }
  }

  lemma RightHalf(N: Fanout, r: Rec, t: Rec)
    requires Base(N, r) && r.isLeaf && |t.key| == N && Ascending(t.key, N) && forall i :: 0 <= i < N ==>
      Covers(r, t.key[i])
    ensures Base(N, RightLeaf(N, r, t)) && (r.hi.At? ==> t.key[N / 2] < r.hi.v)
  {
    var b := RightLeaf(N, r, t);
    assert Covers(r, t.key[N / 2]);
    forall i | 0 <= i < N / 2 ensures b.key[i] == t.key[N / 2 + i] && Covers(b, b.key[i]) {
      assert Covers(r, t.key[N / 2 + i]) && (i > 0 ==> t.key[N / 2] < t.key[N / 2 + i]);
    }
  }

  ghost function LeafSplit(N: Fanout, h: Heap, left: Node, right: Node, k: int): Heap
    requires left in h && h[left].nkey == N - 1 == |h[left].key|
  {
    var t := AddKey(Wide(h[left]), k);
    h[left := LeftLeaf(N, h[left], t)][right := RightLeaf(N, h[left], t)]
  }

  lemma LeafSplitKeepsTree(N: Fanout, h: Heap, root: Node, left: Node, right: Node, k: int)
    requires LeafGets(N, h, root, left, k) && right !in h && h[left].nkey == N - 1 == |h[left].key|
    ensures Tree(N, LeafSplit(N, h, left, right, k), root, Split(left, right))
  {
    var r := h[left];
    var t := AddKey(Wide(r), k);
    assert Base(N, r) && Place(N, h, root, Nothing, left);
    hide Base, Kids, Place, AddKey, Ascending;
    TempKeys(N, r, k);
    LeftHalf(N, r, t);
    RightHalf(N, r, t);
    LeavesOfSplit(N, h, root, left, right, LeftLeaf(N, r, t), RightLeaf(N, r, t));
  }

  // A leaf in two: everybody else is as before.
  lemma LeavesOfSplit(N: Fanout, h: Heap, root: Node, left: Node, right: Node, a: Rec, b: Rec)
    requires Tree(N, h, root, Nothing) && left in h && h[left].isLeaf && right !in h
    requires Base(N, a) && Base(N, b) && a.isLeaf && b.isLeaf && Filled(N, a) && Filled(N, b)
    requires a.parent == b.parent == h[left].parent && a.lo == h[left].lo && b.hi == h[left].hi && b.lo.At?
      && a.hi == b.lo
    ensures Tree(N, h[left := a][right := b], root, Split(left, right))
  {
    var h' := h[left := a][right := b];
    assert Base(N, h[left]);
    CutKeepsApart(h, h', left, right);
    hide Apart;
    forall n | n in h' ensures Base(N, h'[n]) && Kids(h', Split(left, right), n, h'[n])
      && Place(N, h', root, Split(left, right), n) {
      if n in h {
        assert Base(N, h[n]) && Kids(h, Nothing, n, h[n]) && Place(N, h, root, Nothing, n);
        hide Base;
        if !h[n].isLeaf {
          KidsCarry(h, Nothing, h', Split(left, right), n, h[n], h'[n]);
        }
      } else {
        assert Place(N, h, root, Nothing, left);
      }
    }
  }

  // ---- a separator into a parent

  // The pending separator, about to enter the parent p of left at slot j; r is p's record or
  // the TEMP copy of it.
  ghost predicate Entering(N: Fanout, h: Heap, root: Node, pend: Pending, p: Node, j: nat) {
    && Tree(N, h, root, pend) && pend.Split? && pend.left != root
    && p in h && h[pend.left].parent == p && !h[p].isLeaf && KidIs(h[p], j, pend.left)
  }

  // With the separator in, every child's range is exact again.
  lemma AddSepKids(N: Fanout, h: Heap, root: Node, pend: Pending, p: Node, j: nat, r: Rec)
    requires Entering(N, h, root, pend, p, j)
    requires r.isLeaf == h[p].isLeaf && r.level == h[p].level && r.lo == h[p].lo && r.hi == h[p].hi
      && r.nkey == h[p].nkey
    requires h[p].key <= r.key && h[p].chi <= r.chi && r.nkey < |r.key| && r.nkey + 1 < |r.chi|
    ensures j <= r.nkey && Kids(h, Nothing, p, AddSep(r, j, h[pend.right].lo.v, pend.right))
  {
    hide PutAt;
    var sep := h[pend.right].lo.v;
    var t := AddSep(r, j, sep, pend.right);
    assert Kids(h, pend, p, h[p]) && Base(N, h[p]);
    assert KidAt(h, pend, p, h[p], j);
    forall i: nat | i <= t.nkey ensures KidAt(h, Nothing, p, t, i) {
      if i <= j {
        assert KidAt(h, pend, p, h[p], i);
        if i < j {
          LeftIsOnce(N, h, pend, p, i, j);
        }
      } else if i > j + 1 {
        assert KidAt(h, pend, p, h[p], i - 1);
        LeftIsOnce(N, h, pend, p, j, i - 1);
      }
    }
  }

  // Two slots hold different children.
  lemma LeftIsOnce(N: Fanout, h: Heap, pend: Pending, p: Node, i: nat, j: nat)
    requires p in h && (pend.Split? ==> pend.right in h) && Kids(h, pend, p, h[p]) && Base(N, h[p]) && !h[p].isLeaf
    requires i < j <= h[p].nkey
    ensures h[p].chi[i] != h[p].chi[j]
  {
    assert KidAt(h, pend, p, h[p], i) && KidAt(h, pend, p, h[p], j);
    if i > 0 {
      assert h[p].key[i - 1] < h[p].key[j - 1];
    } else {
      assert Inner(h[p], h[p].key[j - 1]);
    }
  }

  lemma AddSepHasKids(r: Rec, w: Rec, j: nat, k: int, c: Node, n: Node)
    requires w.nkey == r.nkey && r.chi <= w.chi && j <= r.nkey < |w.key| && r.nkey + 1 < |w.chi| && r.nkey < |r.chi|
    ensures HasKid(AddSep(w, j, k, c), n) <==> HasKid(r, n) || n == c
  {
    hide PutAt;
    var t := AddSep(w, j, k, c);
    assert KidIs(t, j + 1, c);
    if HasKid(r, n) {
      var i :| KidIs(r, i, n);
      assert KidIs(t, if i <= j then i else i + 1, n);
    }
    if HasKid(t, n) {
      var i :| KidIs(t, i, n);
      assert i == j + 1 || KidIs(r, if i <= j then i else i - 1, n);
    }
  }

  lemma AddSepBase(N: Fanout, h: Heap, root: Node, pend: Pending, p: Node, j: nat)
    requires Entering(N, h, root, pend, p, j) && h[p].nkey < N - 1 == |h[p].key| && |h[p].chi| == N
    ensures j <= h[p].nkey && Base(N, AddSep(h[p], j, h[pend.right].lo.v, pend.right))
  {
    var r := h[p];
    var sep := h[pend.right].lo.v;
    assert Base(N, r);
    SeparatorFits(N, h, root, pend, j);
    AddSepAscends(r, j, sep, pend.right);
    var t := AddSep(r, j, sep, pend.right);
    forall i | 0 <= i < t.nkey ensures Inner(t, t.key[i]) {
      if i < j {
        assert Inner(r, r.key[i]);
      } else if i > j {
        assert Inner(r, r.key[i - 1]);
      }
    }
  }

  // Everyone else's children look the same without the pending split.
  lemma AddSepOthers(N: Fanout, h: Heap, root: Node, pend: Pending, p: Node, t: Rec, n: Node)
    requires Tree(N, h, root, pend) && pend.Split? && pend.left in h && p in h && h[pend.left].parent == p && n in h
      && n != p
    requires t.level == h[p].level && t.lo == h[p].lo && t.hi == h[p].hi && t.parent == h[p].parent
    requires h[pend.left].level < h[p].level
    ensures Kids(h[p := t], Nothing, n, h[n])
  {
    var h' := h[p := t];
    assert Kids(h, pend, n, h[n]);
    if !h[n].isLeaf {
      hide Tree, Kids;
      forall c | c in h && HasKid(h[n], c) ensures Same(h, pend, h', Nothing, c) {
        KidOf(h, pend, n, c);
      }
      KidsCarry(h, pend, h', Nothing, n, h[n], h[n]);
    }
  }

  lemma KidOf(h: Heap, pend: Pending, n: Node, c: Node)
    requires n in h && (pend.Split? ==> pend.right in h) && Kids(h, pend, n, h[n]) && !h[n].isLeaf && HasKid(h[n], c)
    ensures c in h && h[c].parent == n && h[c].level + 1 == h[n].level
  {
    var i :| KidIs(h[n], i, c);
    assert KidAt(h, pend, n, h[n], i);
  }

  lemma AddSepKeepsTree(N: Fanout, h: Heap, root: Node, pend: Pending, p: Node, j: nat)
    requires Entering(N, h, root, pend, p, j) && h[p].nkey < N - 1 == |h[p].key| && |h[p].chi| == N
    ensures j <= h[p].nkey && Tree(N, h[p := AddSep(h[p], j, h[pend.right].lo.v, pend.right)], root, Nothing)
  {
    hide PutAt, Base, Kids, Place, Apart;
    var r := h[p];
    AddSepBase(N, h, root, pend, p, j);
    AddSepKids(N, h, root, pend, p, j, r);
    LeftIsBelow(N, h, root, pend, p, j);
    var t := AddSep(r, j, h[pend.right].lo.v, pend.right);
    var h' := h[p := t];
    forall n: Node | n in h ensures HasKid(t, n) <==> HasKid(r, n) || n == pend.right {
      AddSepHasKids(r, r, j, h[pend.right].lo.v, pend.right, n);
    }
    hide AddSep, HasKid;
    SelfKids(h, h', p, t);
    forall n | n in h' && n != p ensures Kids(h', Nothing, n, h'[n]) {
      AddSepOthers(N, h, root, pend, p, t, n);
    }
    forall n | n in h' ensures Place(N, h', root, Nothing, n) {
      if n == root {
        RootStays(N, h, root, pend, p, t);
      } else {
        PlacedAfter(N, h, root, pend, p, t, n);
      }
    }
    forall n, m | n in h' && m in h' ensures Apart(h', n, m) {
      SameRangesApart(h, h', n, m);
    }
  }

  lemma LeftIsBelow(N: Fanout, h: Heap, root: Node, pend: Pending, p: Node, j: nat)
    requires Entering(N, h, root, pend, p, j)
    ensures pend.left in h && h[pend.left].level < h[p].level
  {
    assert Kids(h, pend, p, h[p]);
    KidOf(h, pend, p, pend.left);
  }

  // p's children do not depend on p's own record.
  lemma SelfKids(h: Heap, h': Heap, p: Node, t: Rec)
    requires p in h && h' == h[p := t] && Kids(h, Nothing, p, t) && t.level == h[p].level
    ensures Kids(h', Nothing, p, t)
  {
    if !t.isLeaf {
      forall i: nat | i <= t.nkey ensures KidAt(h', Nothing, p, t, i) {
        assert KidAt(h, Nothing, p, t, i);
      }
    }
  }

  lemma RootStays(N: Fanout, h: Heap, root: Node, pend: Pending, p: Node, t: Rec)
    requires Tree(N, h, root, pend) && p in h && pend.Split? && pend.left != root
    requires t.lo == h[p].lo && t.hi == h[p].hi && t.parent == h[p].parent && t.isLeaf == h[p].isLeaf
      && t.nkey >= h[p].nkey
    ensures Place(N, h[p := t], root, Nothing, root)
  {
    assert Place(N, h, root, pend, root);
  }

  lemma SameRangesApart(h: Heap, h': Heap, n: Node, m: Node)
    requires AllApart(h) && n in h && m in h && n in h' && m in h'
    requires forall x :: x in {n, m} ==> h'[x].level == h[x].level && h'[x].lo == h[x].lo && h'[x].hi == h[x].hi
    ensures Apart(h', n, m)
  {
    assert Apart(h, n, m);
  }

  lemma PlacedAfter(N: Fanout, h: Heap, root: Node, pend: Pending, p: Node, t: Rec, n: Node)
    requires Tree(N, h, root, pend) && pend.Split? && p in h && h[pend.left].parent == p && pend.left != root
    requires t.isLeaf == h[p].isLeaf && !t.isLeaf && t.level == h[p].level && t.parent == h[p].parent
      && t.nkey >= h[p].nkey
    requires n in h && n != root && (HasKid(t, n) <==> HasKid(h[p], n) || n == pend.right)
    ensures Place(N, h[p := t], root, Nothing, n)
  {
    var h' := h[p := t];
    assert Place(N, h, root, pend, n);
    if n == pend.right {
      assert Place(N, h, root, pend, pend.left);
    }
  }

  // ---- a new root

  ghost function Grown(N: Fanout, h: Heap, root: Node, right: Node, top: Node): Heap
    requires root in h && right in h && root != right && h[right].lo.At?
  {
    h[root := h[root].(parent := top)][right := h[right].(parent := top)]
      [top := RootRec(N, h[root].level + 1, root, h[right].lo.v, right)]
  }

  lemma RootKids(N: Fanout, h: Heap, root: Node, right: Node, top: Node)
    requires Tree(N, h, root, Split(root, right)) && top !in h
    ensures var h' := Grown(N, h, root, right, top);
            Base(N, h'[top]) && Kids(h', Nothing, top, h'[top]) && HasKid(h'[top], root) && HasKid(h'[top], right)
  {
    var h' := Grown(N, h, root, right, top);
    assert Place(N, h, root, Split(root, right), root);
    assert KidAt(h', Nothing, top, h'[top], 0);
    assert KidAt(h', Nothing, top, h'[top], 1);
    assert KidIs(h'[top], 0, root) && KidIs(h'[top], 1, right);
  }

  lemma GrowthKeepsNode(N: Fanout, h: Heap, root: Node, right: Node, top: Node, n: Node)
    requires Tree(N, h, root, Split(root, right)) && top !in h && n in h
    requires HasKid(Grown(N, h, root, right, top)[top], root) && HasKid(Grown(N, h, root, right, top)[top], right)
    ensures var h' := Grown(N, h, root, right, top);
            Base(N, h'[n]) && Kids(h', Nothing, n, h'[n]) && Place(N, h', top, Nothing, n)
  {
    var pend := Split(root, right);
    var h' := Grown(N, h, root, right, top);
    assert Base(N, h[n]) && Kids(h, pend, n, h[n]) && Place(N, h, root, pend, n) && Place(N, h, root, pend, root);
    if !h[n].isLeaf {
      RightIsUnheld(N, h, root, pend, n);
      forall c | c in h && HasKid(h[n], c) ensures Same(h, pend, h', Nothing, c) {
        var i :| KidIs(h[n], i, c);
        assert KidAt(h, pend, n, h[n], i);
      }
      KidsCarry(h, pend, h', Nothing, n, h[n], h'[n]);
    }
    hide AllBase, AllKids, AllApart;
    if n != root && n != right {
      var up: Node := h[n].parent;
      var i :| KidIs(h[up], i, n);
      assert KidIs(h'[up], i, n);
      HomeCarries(h, h', n);
    }
  }

  lemma GrowthKeepsApart(N: Fanout, h: Heap, root: Node, right: Node, top: Node)
    requires Tree(N, h, root, Split(root, right)) && top !in h
    ensures AllApart(Grown(N, h, root, right, top))
  {
    var h' := Grown(N, h, root, right, top);
    hide AllBase, AllKids, Base, Kids;
    forall n, m | n in h' && m in h' ensures Apart(h', n, m) {
      if n in h && m in h {
        assert Apart(h, n, m);
      } else {
        assert n in h ==> Place(N, h, root, Split(root, right), n);
        assert m in h ==> Place(N, h, root, Split(root, right), m);
      }
    }
  }

  lemma GrowthKeepsTree(N: Fanout, h: Heap, root: Node, right: Node, top: Node)
    requires Tree(N, h, root, Split(root, right)) && top !in h
    ensures Tree(N, Grown(N, h, root, right, top), top, Nothing)
  {
    hide Base, Kids, AllApart, Place;
    RootKids(N, h, root, right, top);
    GrowthKeepsApart(N, h, root, right, top);
    TopIsPlaced(N, h, root, right, top);
    forall n | n in h
      ensures var h' := Grown(N, h, root, right, top);
              Base(N, h'[n]) && Kids(h', Nothing, n, h'[n]) && Place(N, h', top, Nothing, n)
    {
      GrowthKeepsNode(N, h, root, right, top, n);
    }
  }

  lemma TopIsPlaced(N: Fanout, h: Heap, root: Node, right: Node, top: Node)
    requires root in h && right in h && root != right && h[right].lo.At? && top !in h
    ensures var h' := Grown(N, h, root, right, top); Halves(N, h', top, Nothing) && Place(N, h', top, Nothing, top)
  {
  }
}
