/**
 The B+ tree: nodes, their values, and the invariant of the whole tree. A separator is the
 smallest key to its right, and parent fields are exact. Every node n is responsible for the
 keys from lo up to, but not including, hi.
 */
module BpShape {
  import opened Slots

  // N: chi[N] and key[N-1].
  type Fanout = n: int | 4 <= n && n % 2 == 0 witness 4

  // One end of a range of keys; Open is no bound.
  datatype End = Open | At(v: int)

  datatype Rec = Rec(
    isLeaf: bool, key: seq<int>, chi: seq<Node?>, nkey: int, parent: Node?, level: nat, lo: End, hi: End)

  /**
   A node. chi[] and key[] are stored inline, so they are fixed-length sequences updated one
   slot at a time. Data pointers of leaves are not modelled: a leaf's chi holds no nodes.
   */
  class Node {
    var isLeaf: bool
    var chi: seq<Node?>
    var key: seq<int>
    var nkey: int
    var parent: Node?
    ghost var level: nat
    ghost var lo: End
    ghost var hi: End

    // calloc, isLeaf, parent, and nkey = 0
    constructor (N: Fanout, isLeaf: bool, parent: Node?, ghost level: nat, ghost lo: End, ghost hi: End)
      ensures ToRec() == Rec(isLeaf, Zeros(N - 1), NoKids(N), 0, parent, level, lo, hi)
    {
      this.isLeaf, this.key, this.chi, this.nkey, this.parent := isLeaf, Zeros(N - 1), NoKids(N), 0, parent;
      this.level, this.lo, this.hi := level, lo, hi;
    }

    ghost function ToRec(): Rec
      reads this
    {
      Rec(isLeaf, key, chi, nkey, parent, level, lo, hi)
    }
  }

  type Heap = map<Node, Rec>

  function NoKids(n: nat): (s: seq<Node?>)
    ensures |s| == n
  {
    seq(n, i => null)
  }

  predicate Covers(r: Rec, k: int) {
    (r.lo.At? ==> r.lo.v <= k) && (r.hi.At? ==> k < r.hi.v)
  }

  // A split that was made, and whose separator lo(right) is on its way to the parent of left.
  datatype Pending = Nothing | Split(left: Node, right: Node)

  // The upper end that the parent still has on record for c.
  function Known(h: Heap, pend: Pending, c: Node): End
    requires c in h && (pend.Split? ==> pend.right in h)
  {
    if pend.Split? && c == pend.left then h[pend.right].hi else h[c].hi
  }

  // Ends of the range of child slot j.
  function From(r: Rec, j: nat): End
    requires j <= |r.key|
  {
    if j == 0 then r.lo else At(r.key[j - 1])
  }

  function To(r: Rec, j: nat): End
    requires r.nkey <= |r.key|
  {
    if j >= r.nkey then r.hi else At(r.key[j])
  }

  ghost predicate KidAt(h: Heap, pend: Pending, n: Node, r: Rec, j: nat)
    requires j <= r.nkey <= |r.key| && j < |r.chi| && (pend.Split? ==> pend.right in h)
  {
    r.chi[j] != null &&
    var c: Node := r.chi[j];
    && c in h
    && h[c].level + 1 == r.level
    && h[c].parent == n
    && h[c].lo == From(r, j)
    && Known(h, pend, c) == To(r, j)
  }

  ghost predicate Kids(h: Heap, pend: Pending, n: Node, r: Rec)
    requires pend.Split? ==> pend.right in h
  {
    !r.isLeaf ==>
      && 0 <= r.nkey < |r.chi| && r.nkey <= |r.key|
      && forall j: nat :: j <= r.nkey ==> KidAt(h, pend, n, r, j)
  }

  // Used keys are in order and inside the range; a separator is not its lower end.
  ghost predicate Base(N: Fanout, r: Rec) {
    && |r.key| == N - 1 && |r.chi| == N
    && (r.isLeaf <==> r.level == 0)
    && (r.isLeaf ==> r.chi == NoKids(N))
    && 0 <= r.nkey <= N - 1
    && Ascending(r.key, r.nkey)
    && (r.lo.At? && r.hi.At? ==> r.lo.v < r.hi.v)
    && (forall i :: 0 <= i < r.nkey ==> (if r.isLeaf then Covers(r, r.key[i]) else Inner(r, r.key[i])))
  }

  // k is inside the range and can be a separator.
  predicate Inner(r: Rec, k: int) {
    (r.lo.At? ==> r.lo.v < k) && (r.hi.At? ==> k < r.hi.v)
  }

  // On one level the ranges are disjoint.
  ghost predicate Apart(h: Heap, n: Node, m: Node)
    requires n in h && m in h
  {
    n != m && h[n].level == h[m].level ==>
      || (h[n].hi.At? && h[m].lo.At? && h[n].hi.v <= h[m].lo.v)
      || (h[m].hi.At? && h[n].lo.At? && h[m].hi.v <= h[n].lo.v)
  }

  ghost predicate KidIs(r: Rec, j: int, n: Node) {
    0 <= j <= r.nkey && j < |r.chi| && r.chi[j] == n
  }

  ghost predicate HasKid(r: Rec, n: Node) {
    exists j :: KidIs(r, j, n)
  }

  ghost predicate Home(h: Heap, n: Node)
    requires n in h
  {
    h[n].parent != null &&
    var p: Node := h[n].parent;
    p in h && !h[p].isLeaf && HasKid(h[p], n)
  }

  // Occupancy of every node but the root.
  predicate Filled(N: Fanout, r: Rec) {
    r.nkey >= if r.isLeaf then N / 2 else N / 2 - 1
  }

  ghost predicate Place(N: Fanout, h: Heap, root: Node, pend: Pending, n: Node)
    requires n in h && root in h && (pend.Split? ==> pend.right in h)
  {
    if n == root then
      h[n].lo == Open && Known(h, pend, n) == Open && h[n].parent == null && (!h[n].isLeaf ==> h[n].nkey >= 1)
    else
      && Filled(N, h[n])
      && (if pend.Split? && n == pend.right then h[n].level <= h[root].level
          else h[n].level < h[root].level && Home(h, n))
  }

  ghost predicate AllBase(N: Fanout, h: Heap) {
    forall n {:trigger Base(N, h[n])} :: n in h ==> Base(N, h[n])
  }

  ghost predicate AllKids(h: Heap, pend: Pending)
    requires pend.Split? ==> pend.right in h
  {
    forall n {:trigger Kids(h, pend, n, h[n])} :: n in h ==> Kids(h, pend, n, h[n])
  }

  ghost predicate AllApart(h: Heap) {
    forall n, m {:trigger Apart(h, n, m)} :: n in h && m in h ==> Apart(h, n, m)
  }

  ghost predicate AllPlaced(N: Fanout, h: Heap, root: Node, pend: Pending)
    requires root in h && (pend.Split? ==> pend.right in h)
  {
    forall n {:trigger Place(N, h, root, pend, n)} :: n in h ==> Place(N, h, root, pend, n)
  }

  // The two halves of the pending split.
  ghost predicate Halves(N: Fanout, h: Heap, root: Node, pend: Pending) {
    pend.Split? ==>
      && pend.left in h && pend.right in h && pend.left != pend.right && pend.right != root
      && h[pend.left].level == h[pend.right].level
      && h[pend.left].parent == h[pend.right].parent
      && h[pend.right].lo.At? && h[pend.left].hi == h[pend.right].lo
      && Filled(N, h[pend.left])
  }

  /** The whole tree, but for a split that is still on its way up. */
  ghost predicate Tree(N: Fanout, h: Heap, root: Node, pend: Pending) {
    && root in h
    && Halves(N, h, root, pend)
    && AllBase(N, h)
    && AllKids(h, pend)
    && AllApart(h)
    && AllPlaced(N, h, root, pend)
  }

  ghost predicate KeyIn(r: Rec, k: int) {
    r.isLeaf && exists j :: 0 <= j < r.nkey && j < |r.key| && r.key[j] == k
  }

  ghost predicate Has(h: Heap, k: int) {
    exists n :: n in h && KeyIn(h[n], k)
  }

  // ---- what the invariant says about one key

  lemma CoverIsUnique(N: Fanout, h: Heap, root: Node, pend: Pending, n: Node, m: Node, k: int)
    requires Tree(N, h, root, pend) && n in h && m in h && h[n].level == h[m].level
    requires Covers(h[n], k) && Covers(h[m], k)
    ensures n == m
  {
    assert Apart(h, n, m);
  }

  // A key is only ever in the leaf that covers it.
  lemma KeyIsInItsLeaf(N: Fanout, h: Heap, root: Node, pend: Pending, n: Node, k: int)
    requires Tree(N, h, root, pend) && n in h && h[n].isLeaf && Covers(h[n], k)
    ensures Has(h, k) <==> KeyIn(h[n], k)
  {
    assert Base(N, h[n]);
    if Has(h, k) {
      var m :| m in h && KeyIn(h[m], k);
      assert Base(N, h[m]);
      CoverIsUnique(N, h, root, pend, n, m, k);
    }
  }

  // The child slot a search for k takes leads to a node that covers k.
  lemma SlotCovers(N: Fanout, h: Heap, root: Node, n: Node, k: int)
    requires Tree(N, h, root, Nothing) && n in h && !h[n].isLeaf && Covers(h[n], k)
    ensures 0 <= h[n].nkey <= |h[n].key|
    ensures var j := FirstAbove(h[n].key, h[n].nkey, k);
            && j < |h[n].chi| && h[n].chi[j] != null && h[n].chi[j] in h
            && h[h[n].chi[j]].level < h[n].level && Covers(h[h[n].chi[j]], k)
  {
    assert Base(N, h[n]) && Kids(h, Nothing, n, h[n]);
    var j := FirstAbove(h[n].key, h[n].nkey, k);
    assert KidAt(h, Nothing, n, h[n], j);
  }

  // ---- the place of a pending separator

  // k fits strictly into child slot j.
  ghost predicate Fits(r: Rec, k: int, j: nat) {
    && j <= r.nkey <= |r.key|
    && (j > 0 ==> r.key[j - 1] < k)
    && (j < r.nkey ==> k < r.key[j])
  }

  lemma SeparatorFits(N: Fanout, h: Heap, root: Node, pend: Pending, j: nat)
    requires Tree(N, h, root, pend) && pend.Split? && pend.left != root
    requires Home(h, pend.left) && KidIs(h[h[pend.left].parent], j, pend.left)
    ensures var r := h[h[pend.left].parent]; Fits(r, h[pend.right].lo.v, j) && Inner(r, h[pend.right].lo.v)
  {
    var p: Node := h[pend.left].parent;
    var r := h[p];
    assert Base(N, r) && Kids(h, pend, p, r) && Base(N, h[pend.left]) && Base(N, h[pend.right]);
    assert KidAt(h, pend, p, r, j);
    assert j > 0 ==> r.key[j - 1] == h[pend.left].lo.v;
    assert j > 0 && r.lo.At? ==> r.lo.v < r.key[j - 1];
    assert j < r.nkey ==> r.key[j] == h[pend.right].hi.v;
  }

  // The first pointer to the left child is found by the comparison loop.
  ghost predicate FirstKid(r: Rec, j: nat, n: Node) {
    KidIs(r, j, n) && forall i :: 0 <= i < j ==> !KidIs(r, i, n)
  }

  /**
   Placing the new right child by key (when the parent splits) and by the pointer to its left
   sibling (when there is room) gives the same slot.
   */
  lemma PlacementsAgree(N: Fanout, h: Heap, root: Node, pend: Pending, i: nat)
    requires Tree(N, h, root, pend) && pend.Split? && pend.left != root
    requires Home(h, pend.left)
    requires var r := h[h[pend.left].parent]; r.nkey <= |r.key|
    ensures var r := h[h[pend.left].parent];
            FirstKid(r, i, pend.left) <==> i == FirstAbove(r.key, r.nkey, h[pend.right].lo.v)
  {
    var p: Node := h[pend.left].parent;
    var r := h[p];
    assert Base(N, r);
    var sep := h[pend.right].lo.v;
    forall j: nat | KidIs(r, j, pend.left) ensures j == FirstAbove(r.key, r.nkey, sep) {
      SeparatorFits(N, h, root, pend, j);
      PlacedByKey(r, sep, j);
    }
    var j :| KidIs(r, j, pend.left);
  }

  lemma PlacedByKey(r: Rec, k: int, j: nat)
    requires 0 <= r.nkey <= |r.key| && Ascending(r.key, r.nkey) && Fits(r, k, j)
    ensures FirstAbove(r.key, r.nkey, k) == j
  {
    forall i | 0 <= i < j ensures r.key[i] <= k {
      if i < j - 1 { assert r.key[i] < r.key[j - 1]; }
    }
    FirstAboveIs(r.key, r.nkey, k, j);
  }

  // No internal node points to the new right half yet.
  lemma RightIsUnheld(N: Fanout, h: Heap, root: Node, pend: Pending, n: Node)
    requires Tree(N, h, root, pend) && pend.Split? && n in h && !h[n].isLeaf
    ensures !HasKid(h[n], pend.right)
  {
    if j: nat :| KidIs(h[n], j, pend.right) {
      assert Kids(h, pend, n, h[n]) && Base(N, h[n]);
      assert KidAt(h, pend, n, h[n], j);
      assert Place(N, h, root, pend, pend.left);
      assert h[pend.left].parent == n;
      assert Home(h, pend.left);
      var i :| KidIs(h[n], i, pend.left);
      SeparatorFits(N, h, root, pend, i);
    }
  }
}
