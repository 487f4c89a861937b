/**
 The shared memory of the B-link tree: node records, snapshots of the whole heap,
 and the two facts that an unlocked descent relies on (readable snapshots, and
 stores that never raise a published key slot).
 */
module BlinkState {

  // The fan-out N of a node: chi[N] and key[N-1].
  type Fanout = n: int | 4 <= n && n % 2 == 0 witness 4

  // Exclusive lower end of the keys a node is responsible for.
  datatype Bound = Bot | At(v: int)

  predicate Below(b: Bound, k: int) {
    b.At? ==> b.v < k
  }

  predicate Le(a: Bound, b: Bound) {
    a.At? ==> b.At? && a.v <= b.v
  }

  predicate Lt(a: Bound, b: Bound) {
    b.At? && (a.At? ==> a.v < b.v)
  }

  // What a slot of chi[] holds: children in internal nodes, data pointers in leaves.
  datatype Ptr = Null | Kid(node: Node) | Item(addr: int)

  // The value of all fields of one node.
  datatype Rec = Rec(
    isLeaf: bool, key: seq<int>, chi: seq<Ptr>, nkey: int, high: int,
    right: Node?, parent: Node?, level: nat, low: Bound, pub: nat)

  /**
   A node. chi[] and key[] are stored inline in the structure, so they are
   fixed-length sequences updated one slot at a time. The ghost fields never
   change after allocation, except pub: the number of child slots that have
   been visible to descents so far (0 until the node is complete).
   */
  class Node {
    var isLeaf: bool
    var chi: seq<Ptr>
    var key: seq<int>
    var nkey: int
    var high_key: int
    var right_link: Node?
    var parent: Node?
    ghost var level: nat
    ghost var low: Bound
    ghost var pub: nat

    constructor (isLeaf: bool, chi: seq<Ptr>, key: seq<int>, nkey: int, parent: Node?,
                 ghost level: nat, ghost low: Bound, ghost pub: nat)
      ensures ToRec() == Rec(isLeaf, key, chi, nkey, 0, null, parent, level, low, pub)
    {
      this.isLeaf, this.chi, this.key, this.nkey := isLeaf, chi, key, nkey;
      this.high_key, this.right_link, this.parent := 0, null, parent;
      this.level, this.low, this.pub := level, low, pub;
    }

    ghost function ToRec(): Rec
      reads this
    {
      Rec(isLeaf, key, chi, nkey, high_key, right_link, parent, level, low, pub)
    }
  }

  type Heap = map<Node, Rec>

  datatype Snap = Snap(h: Heap, root: Node)

  // A descent may enter the node.
  predicate Published(r: Rec) {
    r.isLeaf || r.pub > 0
  }

  // The separator to the left of child slot j.
  function Sep(r: Rec, j: nat): Bound
    requires j <= |r.key|
  {
    if j == 0 then r.low else At(r.key[j - 1])
  }

  // Child slot j of r points one level down, not beyond the separator on its left.
  ghost predicate SlotOk(h: Heap, r: Rec, j: nat)
    requires j < |r.chi| && j <= |r.key|
  {
    && r.chi[j].Kid?
    && r.chi[j].node in h
    && h[r.chi[j].node].level + 1 == r.level
    && Published(h[r.chi[j].node])
    && Le(h[r.chi[j].node].low, Sep(r, j))
  }

  ghost predicate RecOk(N: Fanout, h: Heap, r: Rec) {
    && |r.key| == N - 1
    && |r.chi| == N
    && (r.isLeaf <==> r.level == 0)
    && (r.isLeaf ==> r.pub == 0)
    && (!r.isLeaf && r.pub > 0 ==>
          && 0 <= r.nkey < r.pub <= N
          && forall j: nat :: j < r.pub ==> SlotOk(h, r, j))
  }

  // A snapshot that any descent may read.
  ghost predicate Readable(N: Fanout, s: Snap) {
    && s.root in s.h
    && s.h[s.root].low == Bot
    && Published(s.h[s.root])
    && forall n {:trigger RecOk(N, s.h, s.h[n])} :: n in s.h ==> RecOk(N, s.h, s.h[n])
  }

  // One record changed in place: identity fields stay, published slots only grow in
  // number and their keys only decrease.
  ghost predicate RecStep(r: Rec, r': Rec) {
    && r'.isLeaf == r.isLeaf
    && r'.level == r.level
    && r'.low == r.low
    && r'.pub >= r.pub
    && |r'.key| == |r.key|
    && |r'.chi| == |r.chi|
    && forall j :: 0 <= j < r.pub - 1 && j < |r.key| ==> r'.key[j] <= r.key[j]
  }

  ghost predicate SnapStep(s: Snap, s': Snap) {
    && s.h.Keys <= s'.h.Keys
    && forall n {:trigger RecStep(s.h[n], s'.h[n])} :: n in s.h && n in s'.h ==> RecStep(s.h[n], s'.h[n])
  }

  // The history of all snapshots, one after every store.
  ghost predicate Safe(N: Fanout, hist: seq<Snap>) {
    && |hist| > 0
    && (forall i :: 0 <= i < |hist| ==> Readable(N, hist[i]))
    && (forall i :: 0 < i < |hist| ==> SnapStep(hist[i - 1], hist[i]))
  }

  // What is on the leaf level; parent fields are no part of it.
  ghost function LeafView(h: Heap): Heap {
    map n | n in h && h[n].isLeaf :: h[n].(parent := null)
  }

  // Snapshot calm is the last that differs from the one before it on the leaf level.
  ghost predicate Calm(hist: seq<Snap>, calm: nat) {
    && calm < |hist|
    && (forall i {:trigger hist[i]} :: calm <= i < |hist| ==> LeafView(hist[i].h) == LeafView(hist[|hist| - 1].h))
    && (calm > 0 ==> LeafView(hist[calm - 1].h) != LeafView(hist[calm].h))
  }

  lemma StaysCalm(hist: seq<Snap>, calm: nat, s: Snap)
    requires Calm(hist, calm)
    ensures Calm(hist + [s], if LeafView(s.h) == LeafView(hist[|hist| - 1].h) then calm else |hist|)
  {
    hide LeafView;
  }

  lemma SameView(h: Heap, n: Node, r: Rec)
    requires n in h ==> h[n].isLeaf == r.isLeaf
    requires r.isLeaf ==> n in h && r.(parent := null) == h[n].(parent := null)
    ensures LeafView(h[n := r]) == LeafView(h)
  {
  }

  lemma NewView(h: Heap, n: Node, r: Rec)
    requires r.isLeaf && (n in h ==> r.(parent := null) != h[n].(parent := null))
    ensures LeafView(h[n := r]) != LeafView(h)
  {
    assert n in LeafView(h[n := r]) && LeafView(h[n := r])[n] == r.(parent := null);
  }

  // ---- one store keeps the history safe

  lemma StoreKeepsReadable(N: Fanout, s: Snap, n: Node, r: Rec)
    requires Readable(N, s) && n in s.h
    requires RecStep(s.h[n], r) && RecOk(N, s.h, r)
    ensures Readable(N, Snap(s.h[n := r], s.root))
    ensures SnapStep(s, Snap(s.h[n := r], s.root))
  {
    var h' := s.h[n := r];
    forall m | m in h' ensures RecOk(N, h', h'[m]) {
      SameTargets(N, s.h, n, r, h'[m]);
    }
  }

  lemma SameTargets(N: Fanout, h: Heap, n: Node, r: Rec, q: Rec)
    requires n in h && RecStep(h[n], r) && RecOk(N, h, q)
    ensures RecOk(N, h[n := r], q)
  {
    if !q.isLeaf && q.pub > 0 {
      var h' := h[n := r];
      forall j: nat | j < q.pub ensures SlotOk(h', q, j) {
        assert SlotOk(h, q, j);
      }
    }
  }

  lemma AllocKeepsReadable(N: Fanout, s: Snap, n: Node, r: Rec)
    requires Readable(N, s) && n !in s.h && RecOk(N, s.h, r)
    ensures Readable(N, Snap(s.h[n := r], s.root))
    ensures SnapStep(s, Snap(s.h[n := r], s.root))
  {
    var h' := s.h[n := r];
    forall m | m in h' ensures RecOk(N, h', h'[m]) {
      NewTargets(N, s.h, n, r, h'[m]);
    }
  }

  lemma NewTargets(N: Fanout, h: Heap, n: Node, r: Rec, q: Rec)
    requires n !in h && RecOk(N, h, q)
    ensures RecOk(N, h[n := r], q)
  {
    if !q.isLeaf && q.pub > 0 {
      var h' := h[n := r];
      forall j: nat | j < q.pub ensures SlotOk(h', q, j) {
        assert SlotOk(h, q, j);
      }
    }
  }

  lemma ExtendHistory(N: Fanout, hist: seq<Snap>, s: Snap)
    requires Safe(N, hist) && Readable(N, s) && SnapStep(hist[|hist| - 1], s)
    ensures Safe(N, hist + [s])
  {
  }

  // One store, appended to a safe history.
  lemma StoreExtends(N: Fanout, hist: seq<Snap>, s: Snap, n: Node, r: Rec)
    requires Safe(N, hist) && hist[|hist| - 1] == s && n in s.h
    requires RecStep(s.h[n], r) && RecOk(N, s.h, r)
    ensures Safe(N, hist + [Snap(s.h[n := r], s.root)])
  {
    StoreKeepsReadable(N, s, n, r);
    ExtendHistory(N, hist, Snap(s.h[n := r], s.root));
  }
}
