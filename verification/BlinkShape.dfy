/**
 The structural invariant of the B-link tree, for quiescent trees and for trees
 in which one split has been linked but not yet reported to the parent level.
 Every node n is responsible for the keys in (low, high_key]; the last node of a
 level has no right link and no upper end, and its high_key means nothing.
 */
module BlinkShape {
  import opened Slots
  import opened BlinkState

  predicate Covers(r: Rec, k: int) {
    Below(r.low, k) && (r.right != null ==> k <= r.high)
  }

  // The used keys are in order and in range; high_key is exact where there is a right
  // link: the last key of a leaf, the separator that moved up for an internal node.
  ghost predicate Keys(r: Rec) {
    && 0 <= r.nkey <= |r.key|
    && Ascending(r.key, r.nkey)
    && (forall i :: 0 <= i < r.nkey ==> Below(r.low, r.key[i]))
    && (r.right != null ==>
          if r.isLeaf then r.nkey > 0 && r.key[r.nkey - 1] == r.high
          else forall i :: 0 <= i < r.nkey ==> r.key[i] < r.high)
  }

  // The right link leads to the node that starts where this one ends.
  ghost predicate Linked(h: Heap, r: Rec) {
    r.right != null ==>
      var m: Node := r.right;
      m in h && h[m].level == r.level && h[m].low == At(r.high) && Below(r.low, r.high)
  }

  ghost predicate KidAt(h: Heap, n: Node, r: Rec, j: nat)
    requires j < |r.chi| && j <= |r.key|
  {
    && r.chi[j].Kid?
    && r.chi[j].node in h
    && h[r.chi[j].node].level + 1 == r.level
    && h[r.chi[j].node].low == Sep(r, j)
    && h[r.chi[j].node].parent == n
  }

  ghost predicate Kids(h: Heap, n: Node, r: Rec) {
    !r.isLeaf ==>
      && 0 <= r.nkey < |r.chi| && r.nkey <= |r.key|
      && forall j: nat :: j <= r.nkey ==> KidAt(h, n, r, j)
  }

  // A slot given up by a split keeps a separator at or above high_key.
  ghost predicate StaleSlot(r: Rec, j: int) {
    r.nkey <= j < r.pub - 1 && 0 <= j < |r.key| ==> r.right != null && r.high <= r.key[j]
  }

  ghost predicate Stale(r: Rec) {
    !r.isLeaf ==> r.nkey < r.pub && forall j {:trigger StaleSlot(r, j)} :: StaleSlot(r, j)
  }

  ghost predicate Base(N: Fanout, h: Heap, r: Rec) {
    RecOk(N, h, r) && Keys(r) && Linked(h, r) && Stale(r)
  }

  // On one level the ranges (low, high_key] are disjoint.
  ghost predicate Apart(h: Heap, n: Node, m: Node)
    requires n in h && m in h
  {
    n != m && h[n].level == h[m].level ==>
      && h[n].low != h[m].low
      && (Lt(h[n].low, h[m].low) ==> h[n].right != null && Le(At(h[n].high), h[m].low))
  }

  ghost predicate KidIs(r: Rec, j: int, n: Node) {
    0 <= j <= r.nkey && j < |r.chi| && r.chi[j] == Kid(n)
  }

  ghost predicate HasKid(r: Rec, n: Node) {
    exists j :: KidIs(r, j, n)
  }

  // The parent field is exact.
  ghost predicate Home(h: Heap, n: Node)
    requires n in h
  {
    h[n].parent != null &&
    var p: Node := h[n].parent;
    p in h && !h[p].isLeaf && HasKid(h[p], n)
  }

  // Occupancy of every node but the root.
  predicate Filled(N: Fanout, r: Rec) {
    r.nkey >= if r.isLeaf then N / 2 else N / 2 - 1
  }

  ghost predicate Place(N: Fanout, h: Heap, root: Node, pend: Node?, n: Node)
    requires n in h && root in h
  {
    if n == root then
      h[n].low == Bot && h[n].parent == null && (!h[n].isLeaf ==> h[n].nkey >= 1)
    else
      && Filled(N, h[n])
      && (if n == pend then h[n].level <= h[root].level else h[n].level < h[root].level && Home(h, n))
  }

  ghost predicate AllBase(N: Fanout, h: Heap) {
    forall n {:trigger Base(N, h, h[n])} :: n in h ==> Base(N, h, h[n])
  }

  ghost predicate AllKids(h: Heap) {
    forall n {:trigger Kids(h, n, h[n])} :: n in h ==> Kids(h, n, h[n])
  }

  ghost predicate AllApart(h: Heap) {
    forall n, m {:trigger Apart(h, n, m)} :: n in h && m in h ==> Apart(h, n, m)
  }

  ghost predicate AllPlaced(N: Fanout, h: Heap, root: Node, pend: Node?)
    requires root in h
  {
    forall n {:trigger Place(N, h, root, pend, n)} :: n in h ==> Place(N, h, root, pend, n)
  }

  ghost predicate Unheld(h: Heap, m: Node) {
    forall n {:trigger HasKid(h[n], m)} :: n in h && !h[n].isLeaf ==> !HasKid(h[n], m)
  }

  // The tree, where pend (if any) is a new right sibling that no internal node points to yet.
  ghost predicate Tree(N: Fanout, h: Heap, root: Node, pend: Node?) {
    && root in h
    && AllBase(N, h)
    && AllKids(h)
    && AllApart(h)
    && AllPlaced(N, h, root, pend)
    && pend != root
    && (pend != null ==> pend in h && Unheld(h, pend))
  }

  // A split of lc into lc and rc has been linked, and its separator high_key(lc) is on its way up.
  ghost predicate Half(N: Fanout, h: Heap, root: Node, lc: Node, rc: Node) {
    && Tree(N, h, root, rc)
    && lc in h
    && h[lc].right == rc
    && h[rc].parent == h[lc].parent
    && Filled(N, h[lc])
  }

  ghost predicate PairAt(r: Rec, j: int, k: int, p: Ptr) {
    0 <= j < r.nkey && j < |r.key| && j < |r.chi| && r.key[j] == k && r.chi[j] == p
  }

  ghost predicate InLeaf(r: Rec, k: int, p: Ptr) {
    r.isLeaf && exists j :: PairAt(r, j, k, p)
  }

  // Key k with the data at address a is in some leaf.
  ghost predicate Stored(h: Heap, k: int, a: int) {
    exists n :: n in h && InLeaf(h[n], k, Item(a))
  }

  ghost predicate KeyIn(r: Rec, k: int) {
    r.isLeaf && exists j :: 0 <= j < r.nkey && j < |r.key| && r.key[j] == k
  }

  ghost predicate Has(h: Heap, k: int) {
    exists n :: n in h && KeyIn(h[n], k)
  }

  // ---- what the invariant says about one key

  // On one level exactly one node covers k.
  lemma CoverIsUnique(h: Heap, n: Node, m: Node, k: int)
    requires AllApart(h) && n in h && m in h && h[n].level == h[m].level
    requires Covers(h[n], k) && Covers(h[m], k)
    ensures n == m
  {
    assert Apart(h, n, m) && Apart(h, m, n);
  }

  // A key is only ever in the leaf that covers it.
  lemma KeyIsInItsLeaf(N: Fanout, h: Heap, n: Node, k: int, a: int)
    requires AllBase(N, h) && AllApart(h) && n in h && h[n].isLeaf && Covers(h[n], k)
    ensures Stored(h, k, a) <==> InLeaf(h[n], k, Item(a))
    ensures Has(h, k) <==> KeyIn(h[n], k)
  {
    assert Base(N, h, h[n]);
    if Stored(h, k, a) {
      var m :| m in h && InLeaf(h[m], k, Item(a));
      assert Base(N, h, h[m]);
      var j :| PairAt(h[m], j, k, Item(a));
      assert Covers(h[m], k);
      CoverIsUnique(h, n, m, k);
    }
    if Has(h, k) {
      var m :| m in h && KeyIn(h[m], k);
      assert Base(N, h, h[m]);
      var j :| 0 <= j < h[m].nkey && h[m].key[j] == k;
      assert Covers(h[m], k);
      CoverIsUnique(h, n, m, k);
    }
  }

  // In a half-split tree the separator of the split fits strictly into the parent's slot.
  lemma SeparatorFits(N: Fanout, h: Heap, root: Node, lc: Node, rc: Node, j: nat)
    requires Half(N, h, root, lc, rc) && lc != root
    requires Place(N, h, root, rc, lc) && Home(h, lc)
    requires var r := h[h[lc].parent]; r.nkey <= |r.key| && KidIs(r, j, lc)
    ensures var r := h[h[lc].parent];
            && (j > 0 ==> r.key[j - 1] < h[lc].high)
            && (j < r.nkey ==> h[lc].high < r.key[j])
            && Covers(r, h[lc].high)
            && (r.right != null ==> h[lc].high < r.high)
  {
    var p: Node := h[lc].parent;
    var r := h[p];
    assert Base(N, h, h[lc]) && Base(N, h, r) && Kids(h, p, r);
    assert KidAt(h, p, r, j);
    if j < r.nkey {
      assert KidAt(h, p, r, j + 1);
      NextKidIsAbove(N, h, root, lc, rc, p, j + 1);
    } else if r.right != null {
      var q: Node := r.right;
      assert Base(N, h, h[q]) && Kids(h, q, h[q]);
      assert KidAt(h, q, h[q], 0);
      NextKidIsAbove(N, h, root, lc, rc, q, 0);
    }
  }

  lemma NextKidIsAbove(N: Fanout, h: Heap, root: Node, lc: Node, rc: Node, q: Node, i: nat)
    requires Half(N, h, root, lc, rc)
    requires q in h && !h[q].isLeaf && i <= h[q].nkey < |h[q].chi| && h[q].nkey <= |h[q].key|
    requires KidAt(h, q, h[q], i) && h[q].level == h[lc].level + 1 && Lt(h[lc].low, Sep(h[q], i))
    ensures Sep(h[q], i).At? && h[lc].high < Sep(h[q], i).v
  {
    var c := h[q].chi[i].node;
    assert Apart(h, lc, c);
    assert Base(N, h, h[lc]);
    assert KidIs(h[q], i, c);
    assert HasKid(h[q], c);
    assert Apart(h, rc, c);
  }
}
