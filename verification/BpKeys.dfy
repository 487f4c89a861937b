/**
 The keys of the B+ tree: what each step does to them, and the in-order walk.
 */
module BpKeys {
  import opened Slots
  import opened BpShape
  import opened BpStep
  import opened BpSplit

  ghost predicate SameKeys(h: Heap, h': Heap) {
    forall k :: Has(h', k) <==> Has(h, k)
  }

  ghost predicate OneMore(h: Heap, h': Heap, k: int) {
    forall k' :: Has(h', k') <==> Has(h, k') || k' == k
  }

  // Leaves keep their keys, and only internal nodes are new.
  lemma LeavesCarry(h: Heap, h': Heap)
    requires h.Keys <= h'.Keys
    requires forall n {:trigger h'[n]} :: n in h ==>
      h'[n].isLeaf == h[n].isLeaf && (h[n].isLeaf ==> h'[n].key == h[n].key && h'[n].nkey == h[n].nkey)
    requires forall n {:trigger h'[n]} :: n in h' && n !in h ==> !h'[n].isLeaf
    ensures SameKeys(h, h')
  {
    forall k ensures Has(h', k) <==> Has(h, k) {
      if Has(h, k) {
        var n :| n in h && KeyIn(h[n], k);
        assert KeyIn(h'[n], k);
      }
      if Has(h', k) {
        var n :| n in h' && KeyIn(h'[n], k);
        assert KeyIn(h[n], k);
      }
    }
  }

  lemma InsertKeys(N: Fanout, h: Heap, root: Node, leaf: Node, k: int)
    requires LeafGets(N, h, root, leaf, k) && 0 <= h[leaf].nkey < N - 1 == |h[leaf].key|
    ensures OneMore(h, h[leaf := AddKey(h[leaf], k)], k)
  {
    var t := AddKey(h[leaf], k);
    var h' := h[leaf := t];
    forall k' ensures KeyIn(t, k') <==> KeyIn(h[leaf], k') || k' == k {
      AddKeyKeys(h[leaf], k, k');
    }
    hide AddKey, KeyIn, Tree;
    forall k' ensures Has(h', k') <==> Has(h, k') || k' == k {
      if Has(h, k') {
        var n: Node :| n in h && KeyIn(h[n], k');
        assert KeyIn(h'[n], k');
      }
      if Has(h', k') {
        var n: Node :| n in h' && KeyIn(h'[n], k');
        assert n != leaf ==> KeyIn(h[n], k');
      }
      assert KeyIn(h'[leaf], k);
    }
  }

  // The halves of a leaf hold the keys of the TEMP.
  lemma HalfLeafKeys(N: Fanout, r: Rec, t: Rec, k: int)
    requires |t.key| == N == t.nkey && t.isLeaf && r.isLeaf
    ensures KeyIn(t, k) <==> KeyIn(LeftLeaf(N, r, t), k) || KeyIn(RightLeaf(N, r, t), k)
  {
    var a, b := LeftLeaf(N, r, t), RightLeaf(N, r, t);
    if KeyIn(t, k) {
      var i :| 0 <= i < N && t.key[i] == k;
      assert if i < N / 2 then a.key[i] == k else b.key[i - N / 2] == k;
    }
    if KeyIn(b, k) {
      var i :| 0 <= i < N / 2 && b.key[i] == k;
      assert t.key[i + N / 2] == k;
    }
  }

  lemma LeafSplitKeys(N: Fanout, h: Heap, root: Node, left: Node, right: Node, k: int)
    requires LeafGets(N, h, root, left, k) && right !in h && h[left].nkey == N - 1 == |h[left].key|
    ensures OneMore(h, LeafSplit(N, h, left, right, k), k)
  {
    var r := h[left];
    var t := AddKey(Wide(r), k);
    var h' := LeafSplit(N, h, left, right, k);
    assert Base(N, r);
    TempKeys(N, r, k);
    forall k' ensures KeyIn(r, k') || k' == k <==> KeyIn(h'[left], k') || KeyIn(h'[right], k') {
      HalfLeafKeys(N, r, t, k');
    }
    hide AddKey, KeyIn, Tree, LeftLeaf, RightLeaf;
    forall k' ensures Has(h', k') <==> Has(h, k') || k' == k {
      if Has(h, k') {
        var n: Node :| n in h && KeyIn(h[n], k');
        assert n != left ==> KeyIn(h'[n], k');
      }
      if Has(h', k') {
        var n: Node :| n in h' && KeyIn(h'[n], k');
        assert n != left && n != right ==> KeyIn(h[n], k');
      }
    }
  }

  // ---- the in-order walk

  ghost function InOrderKeys(N: Fanout, h: Heap, n: Node): seq<int>
    requires AllBase(N, h) && AllKids(h, Nothing) && n in h
    decreases h[n].level, N + 1
  {
    assert Base(N, h[n]) && Kids(h, Nothing, n, h[n]);
    if h[n].isLeaf then h[n].key[..h[n].nkey] else FirstKids(N, h, n, h[n].nkey + 1)
  }

  // What is below the first j children of n.
  ghost function FirstKids(N: Fanout, h: Heap, n: Node, j: nat): seq<int>
    requires AllBase(N, h) && AllKids(h, Nothing) && n in h && !h[n].isLeaf && j <= h[n].nkey + 1
    decreases h[n].level, j
  {
    assert Kids(h, Nothing, n, h[n]);
    if j == 0 then []
    else
      assert KidAt(h, Nothing, n, h[n], j - 1);
      FirstKids(N, h, n, j - 1) + InOrderKeys(N, h, h[n].chi[j - 1])
  }

  // A search for k does not go past the first j children.
  predicate Within(r: Rec, j: nat, k: int)
    requires r.nkey <= |r.key|
  {
    j > 0 && (r.lo.At? ==> r.lo.v <= k) && (var t := To(r, j - 1); t.At? ==> k < t.v)
  }

  lemma {:induction false} WalkAscends(N: Fanout, h: Heap, n: Node)
    requires AllBase(N, h) && AllKids(h, Nothing) && n in h
    ensures InOrder(InOrderKeys(N, h, n)) && forall k :: k in InOrderKeys(N, h, n) ==> Covers(h[n], k)
    decreases h[n].level, N + 1
  {
    var r := h[n];
    assert Base(N, r) && Kids(h, Nothing, n, r);
    if r.isLeaf {
      assert forall k :: k in r.key[..r.nkey] ==> Covers(r, k);
    } else {
      FirstKidsAscend(N, h, n, r.nkey + 1);
    }
  }

  lemma {:induction false} FirstKidsAscend(N: Fanout, h: Heap, n: Node, j: nat)
    requires AllBase(N, h) && AllKids(h, Nothing) && n in h && !h[n].isLeaf && j <= h[n].nkey + 1
    ensures h[n].nkey <= |h[n].key|
    ensures InOrder(FirstKids(N, h, n, j)) && forall k :: k in FirstKids(N, h, n, j) ==> Within(h[n], j, k)
    decreases h[n].level, j
  {
    var r := h[n];
    assert Kids(h, Nothing, n, r) && Base(N, r);
    if j > 0 {
      assert KidAt(h, Nothing, n, r, j - 1);
      var c: Node := r.chi[j - 1];
      FirstKidsAscend(N, h, n, j - 1);
      WalkAscends(N, h, c);
      var a, b := FirstKids(N, h, n, j - 1), InOrderKeys(N, h, c);
      hide InOrderKeys;
      assert FirstKids(N, h, n, j) == a + b;
      assert j > 1 ==> From(r, j - 1) == To(r, j - 2);
      assert j > 1 ==> Inner(r, r.key[j - 2]);
      assert j > 1 && j <= r.nkey ==> r.key[j - 2] < r.key[j - 1];
      assert forall k :: k in a ==> Within(r, j, k);
      assert forall k :: k in b ==> Within(r, j, k);
      JoinInOrder(a, b);
    }
  }

  lemma JoinInOrder(a: seq<int>, b: seq<int>)
    requires InOrder(a) && InOrder(b) && forall x, y :: x in a && y in b ==> x < y
    ensures InOrder(a + b)
  {
    var s := a + b;
    forall i, j | 0 <= i < j < |s| ensures s[i] < s[j] {
      if i < |a| && j >= |a| { assert s[i] in a && s[j] in b; }
    }
  }

  // What the walk from n finds is what is stored in n's range.
  lemma {:induction false} WalkIsContents(N: Fanout, h: Heap, root: Node, n: Node, k: int)
    requires Tree(N, h, root, Nothing) && n in h
    ensures k in InOrderKeys(N, h, n) <==> Has(h, k) && Covers(h[n], k)
    decreases h[n].level, N + 1
  {
    var r := h[n];
    assert Base(N, r) && Kids(h, Nothing, n, r);
    if r.isLeaf {
      var s := r.key[..r.nkey];
      if k in s {
        var i :| 0 <= i < |s| && s[i] == k;
        assert r.key[i] == k;
      }
      if KeyIn(r, k) {
        var i :| 0 <= i < r.nkey && r.key[i] == k;
        assert s[i] == k;
      }
      if Covers(r, k) {
        KeyIsInItsLeaf(N, h, root, Nothing, n, k);
      }
    } else {
      if k in FirstKids(N, h, n, r.nkey + 1) {
        WalkAscends(N, h, n);
        WalkFindsStored(N, h, root, n, r.nkey + 1, k);
      }
      if Has(h, k) && Covers(r, k) {
        SlotCovers(N, h, root, n, k);
        var j := FirstAbove(r.key, r.nkey, k);
        WalkIsContents(N, h, root, r.chi[j], k);
        KidIsInWalk(N, h, n, r.nkey + 1, j, k);
      }
    }
  }

  lemma {:induction false} WalkFindsStored(N: Fanout, h: Heap, root: Node, n: Node, j: nat, k: int)
    requires Tree(N, h, root, Nothing) && n in h && !h[n].isLeaf && j <= h[n].nkey + 1
    requires k in FirstKids(N, h, n, j)
    ensures Has(h, k)
    decreases h[n].level, j
  {
    assert Kids(h, Nothing, n, h[n]);
    assert KidAt(h, Nothing, n, h[n], j - 1);
    if k in FirstKids(N, h, n, j - 1) {
      WalkFindsStored(N, h, root, n, j - 1, k);
    } else {
      WalkIsContents(N, h, root, h[n].chi[j - 1], k);
    }
  }

  // What is below child j is among what is below the first m.
  lemma {:induction false} KidIsInWalk(N: Fanout, h: Heap, n: Node, m: nat, j: nat, k: int)
    requires AllBase(N, h) && AllKids(h, Nothing) && n in h && !h[n].isLeaf && j < m <= h[n].nkey + 1
    requires j < |h[n].chi| && h[n].chi[j] != null && h[n].chi[j] in h && k in InOrderKeys(N, h, h[n].chi[j])
    ensures k in FirstKids(N, h, n, m)
    decreases m
  {
    if m > j + 1 {
      KidIsInWalk(N, h, n, m - 1, j, k);
    }
  }

  /** One key more in the tree is that key put in its place on the walk. */
  lemma InsertOnWalk(N: Fanout, h: Heap, root: Node, h': Heap, root': Node, k: int)
    requires Tree(N, h, root, Nothing) && Tree(N, h', root', Nothing)
    requires !Has(h, k) && OneMore(h, h', k)
    ensures InOrderKeys(N, h', root') == PutInOrder(InOrderKeys(N, h, root), k)
  {
    var s, s' := InOrderKeys(N, h, root), InOrderKeys(N, h', root');
    assert Place(N, h, root, Nothing, root) && Place(N, h', root', Nothing, root');
    WalkAscends(N, h, root);
    WalkAscends(N, h', root');
    forall x ensures (x in s <==> Has(h, x)) && (x in s' <==> Has(h', x)) {
      WalkIsContents(N, h, root, root, x);
      WalkIsContents(N, h', root', root', x);
    }
    hide Tree, Has, InOrderKeys;
    PutInOrderElements(s, k);
    SameElements(s', PutInOrder(s, k));
  }
}
