/**
 The shared memory of the B-link tree as the program stores to it: every method
 here is one store, one allocation or one lock operation.
 */
module BlinkMemory {
  import opened Slots
  import opened BlinkState
  import opened BlinkStep

  // The order in which locks are taken: by level, and left to right on one level.
  predicate Before(a: Rec, b: Rec) {
    a.level < b.level || (a.level == b.level && Lt(a.low, b.low))
  }

  // Records that differ only in fields a descent does not read.
  predicate SameToReaders(r: Rec, r': Rec) {
    && r'.isLeaf == r.isLeaf && r'.key == r.key && r'.chi == r.chi && r'.nkey == r.nkey
    && r'.level == r.level && r'.low == r.low && r'.pub == r.pub
  }

  lemma UnreadFieldsAreFree(N: Fanout, h: Heap, r: Rec, r': Rec)
    requires RecOk(N, h, r) && SameToReaders(r, r')
    ensures RecOk(N, h, r') && RecStep(r, r')
  {
    if !r.isLeaf && r.pub > 0 {
      forall j: nat | j < r'.pub ensures SlotOk(h, r', j) {
        assert SlotOk(h, r, j);
      }
    }
  }

  lemma LastIsReadable(N: Fanout, hist: seq<Snap>, n: Node)
    requires Safe(N, hist) && n in hist[|hist| - 1].h
    ensures RecOk(N, hist[|hist| - 1].h, hist[|hist| - 1].h[n])
  {
    assert Readable(N, hist[|hist| - 1]);
  }

  lemma LastReadable(N: Fanout, hist: seq<Snap>)
    requires Safe(N, hist)
    ensures Readable(N, hist[|hist| - 1])
  {
  }

  datatype LockOp = Took(n: Node) | Left(n: Node)

  class Memory {
    const N: Fanout
    var Root: Node
    ghost var h: Heap           // the fields of all nodes
    ghost var hist: seq<Snap>   // a snapshot after every store
    ghost var calm: nat         // the last snapshot that differs from the one before on the leaf level
    ghost var held: set<Node>       // the locks of the running insertion
    ghost var trail: seq<LockOp>    // what it has locked and unlocked, in order
    ghost var unlinked: set<Node>   // its new nodes to which neither a right link nor Root leads yet

    ghost predicate Valid()
      reads this, h.Keys
    {
      (forall n :: n in h ==> n.ToRec() == h[n]) && Tracked()
    }

    ghost predicate Tracked()
      reads this`Root, this`h, this`hist, this`calm
    {
      Root in h && Safe(N, hist) && hist[|hist| - 1] == Snap(h, Root) && Calm(hist, calm)
    }

    // Fields that others may look at are stored only under the node's lock.
    ghost predicate MayStore(n: Node)
      reads this`held, this`unlinked
    {
      n in held || n in unlinked
    }

    // Stores to a leaf may change calm.
    ghost function Leafy(n: Node): set<Memory>
      reads this
    {
      if n in h && h[n].isLeaf then {this} else {}
    }

    // The record of n becomes r, by a store to its field that is done next.
    ghost method Record(n: Node, r: Rec)
      requires Valid() && n in h && RecStep(h[n], r) && RecOk(N, h, r)
      modifies this`h, this`hist, (if h[n].(parent := null) == r.(parent := null) then {} else Leafy(n))`calm
      ensures old(hist) <= hist && h == old(h)[n := r]
      ensures Tracked()
    {
      hide Safe, RecOk, Calm, LeafView;
      var s := Snap(h[n := r], Root);
      StoreExtends(N, hist, Snap(h, Root), n, r);
      StaysCalm(hist, calm, s);
      if h[n].isLeaf && h[n].(parent := null) != r.(parent := null) {
        NewView(h, n, r);
        calm := |hist|;
      } else {
        SameView(h, n, r);
      }
      h := h[n := r];
      hist := hist + [s];
    }

    // A new node n is recorded.
    ghost method RecordNew(n: Node, r: Rec)
      requires Tracked() && n !in h && RecOk(N, h, r)
      modifies this`h, this`hist, this`unlinked, (if r.isLeaf then {this} else {})`calm
      ensures old(hist) <= hist && h == old(h)[n := r] && unlinked == old(unlinked) + {n}
      ensures Tracked()
    {
      hide Safe, RecOk, Calm, LeafView;
      var s := Snap(h[n := r], Root);
      LastReadable(N, hist);
      AllocKeepsReadable(N, Snap(h, Root), n, r);
      ExtendHistory(N, hist, s);
      StaysCalm(hist, calm, s);
      if r.isLeaf {
        NewView(h, n, r);
        calm := |hist|;
      } else {
        SameView(h, n, r);
      }
      h := h[n := r];
      hist := hist + [s];
      unlinked := unlinked + {n};
    }

    lemma Look(n: Node)
      requires Valid() && n in h
      ensures n.ToRec() == h[n]
    {
    }

    // What a descent may rely on at n.
    lemma LookSlots(n: Node)
      requires Valid() && n in h
      ensures RecOk(N, h, h[n]) && n.ToRec() == h[n]
    {
      LastIsReadable(N, hist, n);
    }

    lemma LookCalm()
      requires Valid()
      ensures Calm(hist, calm) && hist[|hist| - 1].h == h
    {
    }

    lemma LookHistory()
      requires Valid()
      ensures Safe(N, hist) && hist[|hist| - 1] == Snap(h, Root)
    {
    }

    lemma LookRoot()
      requires Valid()
      ensures Root in h && h[Root].low == Bot && Published(h[Root])
    {
      assert Readable(N, hist[|hist| - 1]);
    }

    // init_parameter: the root is an empty leaf.
    constructor (N: Fanout)
      ensures Valid() && this.N == N && fresh(h.Keys) && held == unlinked == {}
      ensures h == map[Root := Rec(true, Zeros(N - 1), Nulls(N), 0, 0, null, null, 0, Bot, 0)]
    {
      var n := new Node(true, Nulls(N), Zeros(N - 1), 0, null, 0, Bot, 0);
      this.N, Root, h := N, n, map[n := n.ToRec()];
      hist := [Snap(map[n := n.ToRec()], n)];
      held, trail, unlinked, calm := {}, [], {}, 0;
      new;
      assert RecOk(N, h, h[n]);
      assert Readable(N, hist[0]);
    }

    lemma FreeStore(n: Node, r: Rec)
      requires Valid() && n in h && SameToReaders(h[n], r)
      ensures RecStep(h[n], r) && RecOk(N, h, r)
    {
      LastIsReadable(N, hist, n);
      UnreadFieldsAreFree(N, h, h[n], r);
    }

    // n->key[i] = v
    method SetKey(n: Node, i: nat, v: int)
      requires Valid() && n in h && MayStore(n) && i < |h[n].key|
      requires var r := h[n].(key := h[n].key[i := v]); RecStep(h[n], r) && RecOk(N, h, r)
      modifies this`h, this`hist, n`key, Leafy(n)`calm
      ensures Valid() && old(hist) <= hist
      ensures h == old(h)[n := old(h)[n].(key := old(h)[n].key[i := v])]
    {
      hide Tracked, RecStep, RecOk;
      ghost var r := h[n].(key := h[n].key[i := v]);
      Record(n, r);
      n.key := n.key[i := v];
    }

    // n->chi[i] = v
    method SetChi(n: Node, i: nat, v: Ptr)
      requires Valid() && n in h && MayStore(n) && i < |h[n].chi|
      requires var r := h[n].(chi := h[n].chi[i := v]); RecStep(h[n], r) && RecOk(N, h, r)
      modifies this`h, this`hist, n`chi, Leafy(n)`calm
      ensures Valid() && old(hist) <= hist
      ensures h == old(h)[n := old(h)[n].(chi := old(h)[n].chi[i := v])]
    {
      hide Tracked, RecStep, RecOk;
      ghost var r := h[n].(chi := h[n].chi[i := v]);
      Record(n, r);
      n.chi := n.chi[i := v];
    }

    // n->nkey = v; pub is the number of child slots shown from now on
    method SetNkey(n: Node, v: int, ghost pub: nat)
      requires Valid() && n in h && MayStore(n)
      requires var r := h[n].(nkey := v, pub := pub); RecStep(h[n], r) && RecOk(N, h, r)
      modifies this`h, this`hist, n`nkey, n`pub, (if v == n.nkey && pub == n.pub then {} else Leafy(n))`calm
      ensures Valid() && old(hist) <= hist
      ensures h == old(h)[n := old(h)[n].(nkey := v, pub := pub)]
    {
      hide Tracked, RecStep, RecOk;
      ghost var r := h[n].(nkey := v, pub := pub);
      Record(n, r);
      n.nkey, n.pub := v, pub;
    }

    // n->high_key = v
    method SetHigh(n: Node, v: int)
      requires Valid() && n in h && MayStore(n)
      modifies this`h, this`hist, n`high_key, Leafy(n)`calm
      ensures Valid() && old(hist) <= hist
      ensures h == old(h)[n := old(h)[n].(high := v)]
    {
      hide Tracked, RecStep, RecOk;
      ghost var r := h[n].(high := v);
      FreeStore(n, r);
      Record(n, r);
      n.high_key := v;
    }

    // A right link leads to m from now on.
    ghost method Linking(m: Node?)
      requires Valid()
      modifies this`unlinked
      ensures Valid() && unlinked == set x | x in old(unlinked) && x != m
    {
      hide Tracked;
      unlinked := set x | x in unlinked && x != m;
    }

    // n->right_link = m
    method SetRight(n: Node, m: Node?)
      requires Valid() && n in h && MayStore(n)
      modifies this`h, this`hist, this`unlinked, n`right_link, Leafy(n)`calm
      ensures Valid() && old(hist) <= hist && unlinked == (set x | x in old(unlinked) && x != m)
      ensures h == old(h)[n := old(h)[n].(right := m)]
    {
      hide Tracked, RecStep, RecOk;
      ghost var r := h[n].(right := m);
      FreeStore(n, r);
      Record(n, r);
      n.right_link := m;
      Linking(m);
    }

    // n->parent = p; children get it while others hold their locks.
    method SetParent(n: Node, p: Node?)
      requires Valid() && n in h
      modifies this`h, this`hist, n`parent
      ensures Valid() && old(hist) <= hist
      ensures h == old(h)[n := old(h)[n].(parent := p)]
    {
      hide Tracked, RecStep, RecOk;
      ghost var r := h[n].(parent := p);
      FreeStore(n, r);
      Record(n, r);
      n.parent := p;
    }

    // A complete node is shown to descents. Not a store: the node becomes reachable later.
    ghost method Publish(n: Node, pub: nat)
      requires Valid() && n in h && !h[n].isLeaf
      requires var r := h[n].(pub := pub); RecStep(h[n], r) && RecOk(N, h, r)
      modifies this`h, this`hist, n`pub
      ensures Valid() && old(hist) <= hist
      ensures h == old(h)[n := old(h)[n].(pub := pub)]
    {
      hide Tracked, RecStep, RecOk;
      ghost var r := h[n].(pub := pub);
      Record(n, r);
      n.pub := pub;
    }

    // Root = n
    method SetRoot(n: Node)
      requires Valid() && n in h && h[n].low == Bot && Published(h[n])
      modifies this`Root, this`hist, this`unlinked
      ensures Valid() && old(hist) <= hist && Root == n && unlinked == old(unlinked) - {n}
    {
      Root := n;
      assert SnapStep(hist[|hist| - 1], Snap(h, Root)) by {
        assert forall m :: m in h ==> RecStep(h[m], h[m]);
      }
      assert Readable(N, hist[|hist| - 1]);
      ExtendHistory(N, hist, Snap(h, Root));
      StaysCalm(hist, calm, Snap(h, Root));
      hist := hist + [Snap(h, Root)];
      unlinked := unlinked - {n};
    }

    // calloc and the initialisation of a node nobody else can see yet.
    method Alloc(isLeaf: bool, chi: seq<Ptr>, key: seq<int>, nkey: int, parent: Node?,
                 ghost level: nat, ghost low: Bound, ghost pub: nat)
      returns (n: Node)
      requires Valid() && RecOk(N, h, Rec(isLeaf, key, chi, nkey, 0, null, parent, level, low, pub))
      modifies this`h, this`hist, this`unlinked, (if isLeaf then {this} else {})`calm
      ensures Valid() && old(hist) <= hist && unlinked == old(unlinked) + {n}
      ensures fresh(n) && n !in old(h)
      ensures h == old(h)[n := Rec(isLeaf, key, chi, nkey, 0, null, parent, level, low, pub)]
    {
      n := new Node(isLeaf, chi, key, nkey, parent, level, low, pub);
      RecordNew(n, Rec(isLeaf, key, chi, nkey, 0, null, parent, level, low, pub));
    }

    method AllocLeaf(parent: Node?, ghost low: Bound) returns (n: Node)
      requires Valid()
      modifies this`h, this`hist, this`unlinked, this`calm
      ensures Valid() && old(hist) <= hist && fresh(n) && n !in old(h) && unlinked == old(unlinked) + {n}
      ensures h == old(h)[n := Rec(true, Zeros(N - 1), Nulls(N), 0, 0, null, parent, 0, low, 0)]
    {
      n := Alloc(true, Nulls(N), Zeros(N - 1), 0, parent, 0, low, 0);
    }

    method AllocInternal(parent: Node?, ghost level: nat, ghost low: Bound) returns (n: Node)
      requires Valid() && level > 0
      modifies this`h, this`hist, this`unlinked
      ensures Valid() && old(hist) <= hist && fresh(n) && n !in old(h) && unlinked == old(unlinked) + {n}
      ensures h == old(h)[n := Rec(false, Zeros(N - 1), Nulls(N), 0, 0, null, parent, level, low, 0)]
    {
      n := Alloc(false, Nulls(N), Zeros(N - 1), 0, parent, level, low, 0);
    }

    method AllocRoot(left: Node, lm_key: int, right: Node) returns (n: Node)
      requires Valid() && left in h && right in h && RecOk(N, h, RootRec(N, h[left].level + 1, left, lm_key, right))
      modifies this`h, this`hist, this`unlinked
      ensures Valid() && old(hist) <= hist && fresh(n) && n !in old(h) && unlinked == old(unlinked) + {n}
      ensures h == old(h)[n := RootRec(N, old(h)[left].level + 1, left, lm_key, right)]
    {
      n := Alloc(false, [Kid(left), Kid(right)] + Nulls(N - 2), [lm_key] + Zeros(N - 2), 1, null,
                 h[left].level + 1, Bot, 2);
    }

    // Locks are taken in order, at most MAX_LOCKS = 3 at once, and none twice.
    method Lock(n: Node)
      requires Valid() && n in h && |held| < 3 && forall m :: m in held ==> m in h && Before(h[m], h[n])
      modifies this`held, this`trail
      ensures Valid() && held == old(held) + {n} && n !in old(held) && trail == old(trail) + [Took(n)]
    {
      held, trail := held + {n}, trail + [Took(n)];
    }

    method Unlock(n: Node)
      requires Valid() && n in held
      modifies this`held, this`trail
      ensures Valid() && held == old(held) - {n} && trail == old(trail) + [Left(n)]
    {
      held, trail := held - {n}, trail + [Left(n)];
    }
  }
}
