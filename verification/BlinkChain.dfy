/**
 The leaves read left to right: their keys in order, and what an insertion means there.
 */
module BlinkChain {
  import opened Slots
  import opened BlinkState
  import opened BlinkShape
  import opened BlinkWalk
  import opened BlinkPairs

  // The used keys of n and of everything its right links lead to.
  ghost function ChainKeys(N: Fanout, h: Heap, n: Node): seq<int>
    requires AllBase(N, h) && n in h
    decreases Rights(h, n)
  {
    assert Base(N, h, h[n]);
    var own := h[n].key[..h[n].nkey];
    if h[n].right == null then own
    else
      RightIsFurther(N, h, n);
      own + ChainKeys(N, h, h[n].right)
  }

  // Along a chain of leaves the keys ascend, from the lower end of its first leaf on.
  lemma {:induction false} ChainAscends(N: Fanout, h: Heap, n: Node)
    requires AllBase(N, h) && n in h && h[n].isLeaf
    ensures InOrder(ChainKeys(N, h, n))
    ensures forall i :: 0 <= i < |ChainKeys(N, h, n)| ==> Below(h[n].low, ChainKeys(N, h, n)[i])
    decreases Rights(h, n)
  {
    var r := h[n];
    assert Base(N, h, r);
    if r.right != null {
      var m: Node := r.right;
      RightIsFurther(N, h, n);
      assert Base(N, h, h[m]);
      ChainAscends(N, h, m);
      var own, rest := r.key[..r.nkey], ChainKeys(N, h, m);
      assert forall i :: 0 <= i < |own| ==> own[i] <= r.high;
      assert forall i :: 0 <= i < |rest| ==> r.high < rest[i];
      assert ChainKeys(N, h, n) == own + rest;
    }
  }

  // A key on the chain is in a leaf.
  lemma {:induction false} ChainIsStored(N: Fanout, h: Heap, n: Node, k: int)
    requires AllBase(N, h) && n in h && h[n].isLeaf && k in ChainKeys(N, h, n)
    ensures Has(h, k)
    decreases Rights(h, n)
  {
    var r := h[n];
    assert Base(N, h, r);
    var own := r.key[..r.nkey];
    if k in own {
      var i :| 0 <= i < |own| && own[i] == k;
      assert r.key[i] == k;
      assert KeyIn(r, k);
    } else {
      RightIsFurther(N, h, n);
      assert Base(N, h, h[r.right]);
      ChainIsStored(N, h, r.right, k);
    }
  }

  // A leaf to the right of n is on n's chain.
  lemma {:induction false} ChainReaches(N: Fanout, h: Heap, root: Node, n: Node, m: Node, k: int)
    requires Tree(N, h, root, null) && n in h && m in h && h[n].isLeaf && KeyIn(h[m], k)
    requires n == m || Lt(h[n].low, h[m].low)
    ensures AllBase(N, h)
    ensures k in ChainKeys(N, h, n)
    decreases Rights(h, n)
  {
    assert Base(N, h, h[n]) && Base(N, h, h[m]);
    if n == m {
      var i :| 0 <= i < h[m].nkey && h[m].key[i] == k;
      assert h[m].key[..h[m].nkey][i] == k;
    } else {
      assert Apart(h, n, m);
      RightIsFurther(N, h, n);
      var x: Node := h[n].right;
      assert Base(N, h, h[x]);
      assert Apart(h, x, m);
      ChainReaches(N, h, root, x, m, k);
    }
  }

  // The keys read along the chain from the first leaf are exactly the stored keys, in order.
  lemma ChainIsContents(N: Fanout, h: Heap, root: Node, first: Node)
    requires Tree(N, h, root, null) && first in h && h[first].isLeaf && h[first].low == Bot
    ensures AllBase(N, h)
    ensures InOrder(ChainKeys(N, h, first))
    ensures forall k :: k in ChainKeys(N, h, first) <==> Has(h, k)
  {
    ChainAscends(N, h, first);
    forall k ensures k in ChainKeys(N, h, first) <==> Has(h, k) {
      if k in ChainKeys(N, h, first) {
        ChainIsStored(N, h, first, k);
      }
      if Has(h, k) {
        var m :| m in h && KeyIn(h[m], k);
        assert Base(N, h, h[first]) && Base(N, h, h[m]);
        assert Apart(h, first, m);
        ChainReaches(N, h, root, first, m, k);
      }
    }
  }

  // ---- insertion on the chain

  /**
   Whatever happened inside, if a step from one tree to the next added exactly the key k,
   the chain of leaf keys is the old one with k put in its place.
   */
  lemma InsertOnChain(N: Fanout, h: Heap, root: Node, first: Node, h': Heap, root': Node, first': Node, k: int, a: int)
    requires Tree(N, h, root, null) && first in h && h[first].isLeaf && h[first].low == Bot
    requires Tree(N, h', root', null) && first' in h' && h'[first'].isLeaf && h'[first'].low == Bot
    requires !Has(h, k) && OneMore(h, h', k, a)
    ensures AllBase(N, h) && AllBase(N, h')
    ensures ChainKeys(N, h', first') == PutInOrder(ChainKeys(N, h, first), k)
  {
    ChainIsContents(N, h, root, first);
    ChainIsContents(N, h', root', first');
    hide Tree, Has;
    PutInOrderElements(ChainKeys(N, h, first), k);
    SameElements(ChainKeys(N, h', first'), PutInOrder(ChainKeys(N, h, first), k));
  }

  // The leftmost leaf, by first children.
  ghost function FirstLeaf(N: Fanout, h: Heap, root: Node, n: Node): (m: Node)
    requires Tree(N, h, root, null) && n in h && h[n].low == Bot
    ensures m in h && h[m].isLeaf && h[m].low == Bot
    decreases h[n].level
  {
    assert Base(N, h, h[n]) && Kids(h, n, h[n]);
    if h[n].isLeaf then n
    else
      assert KidAt(h, n, h[n], 0);
      FirstLeaf(N, h, root, h[n].chi[0].node)
  }

  // The contents of the tree: all keys, along the chain of leaves.
  ghost function LeafKeys(N: Fanout, h: Heap, root: Node): seq<int>
    requires Tree(N, h, root, null)
  {
    assert Place(N, h, root, null, root);
    ChainKeys(N, h, FirstLeaf(N, h, root, root))
  }

  lemma LeafKeysAreStored(N: Fanout, h: Heap, root: Node)
    requires Tree(N, h, root, null)
    ensures InOrder(LeafKeys(N, h, root)) && forall k :: k in LeafKeys(N, h, root) <==> Has(h, k)
  {
    assert Place(N, h, root, null, root);
    ChainIsContents(N, h, root, FirstLeaf(N, h, root, root));
  }

  lemma InsertOnLeaves(N: Fanout, h: Heap, root: Node, h': Heap, root': Node, k: int, a: int)
    requires Tree(N, h, root, null) && Tree(N, h', root', null) && !Has(h, k) && OneMore(h, h', k, a)
    ensures LeafKeys(N, h', root') == PutInOrder(LeafKeys(N, h, root), k)
  {
    assert Place(N, h, root, null, root) && Place(N, h', root', null, root');
    InsertOnChain(N, h, root, FirstLeaf(N, h, root, root), h', root', FirstLeaf(N, h', root', root'), k, a);
  }
}
