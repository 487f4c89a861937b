/**
 The B-link tree program: unlocked descent, move_right under locks, and insertion
 whose splits climb through the parents.
 */
module BlinkTree {
  import opened Slots
  import opened BlinkState
  import opened BlinkReader
  import opened BlinkShape
  import opened BlinkStep
  import opened BlinkKeep
  import opened BlinkSplit
  import opened BlinkCascade
  import opened BlinkStores
  import opened BlinkMemory
  import opened BlinkNode
  import opened BlinkParent
  import opened BlinkWalk
  import opened BlinkLeaves
  import opened BlinkPairs
  import opened BlinkChain

  // ---- find_leaf

  // One round of the loop: the child to the left of the first separator that is not below key.
  method PickChild(mem: Memory, n: Node, key: int) returns (c: Node)
    requires mem.Valid() && n in mem.h && Published(mem.h[n]) && !mem.h[n].isLeaf && Below(mem.h[n].low, key)
    ensures c in mem.h && mem.h[c].level + 1 == mem.h[n].level && Published(mem.h[c]) && Below(mem.h[c].low, key)
    ensures Tree(mem.N, mem.h, mem.Root, null) && Covers(mem.h[n], key) ==> Covers(mem.h[c], key)
  {
    hide Memory.Valid, Tree;
    mem.LookSlots(n);
    var nkey := n.nkey;
    var kid := 0;
    while kid < nkey
      invariant 0 <= kid <= nkey
      invariant kid > 0 ==> n.key[kid - 1] < key
    {
      if key <= n.key[kid] { break; }
      kid := kid + 1;
    }
    assert SlotOk(mem.h, mem.h[n], kid);
    c := n.chi[kid].node;
    if Tree(mem.N, mem.h, mem.Root, null) && Covers(mem.h[n], key) {
      TreeKids(mem.N, mem.h, mem.Root, n);
      ChildCovers(mem.N, mem.h, mem.Root, n, key, kid);
    }
  }

  /**
   Run alone, find_leaf ends at a leaf that starts below the key; in a quiescent tree
   that leaf covers the key, so no move to the right is needed.
   */
  method FindLeaf(mem: Memory, node: Node, key: int) returns (leaf: Node)
    requires mem.Valid() && node in mem.h && Published(mem.h[node]) && Below(mem.h[node].low, key)
    ensures leaf in mem.h && mem.h[leaf].isLeaf && Below(mem.h[leaf].low, key)
    ensures Tree(mem.N, mem.h, mem.Root, null) && Covers(mem.h[node], key) ==> Covers(mem.h[leaf], key)
  {
    hide Memory.Valid, Tree;
    leaf := node;
    mem.LookSlots(leaf);
    while !leaf.isLeaf
      invariant leaf in mem.h && Published(mem.h[leaf]) && Below(mem.h[leaf].low, key) && leaf.ToRec() == mem.h[leaf]
      invariant Tree(mem.N, mem.h, mem.Root, null) && Covers(mem.h[node], key) ==> Covers(mem.h[leaf], key)
      decreases mem.h[leaf].level
    {
      leaf := PickChild(mem, leaf, key);
      mem.LookSlots(leaf);
    }
  }

  // The scan goes one slot too far: the first unused slot of the covering leaf holds k.
  ghost predicate BeyondHolds(h: Heap, k: int) {
    exists n :: n in h && h[n].isLeaf && Covers(h[n], k) && 0 <= h[n].nkey < |h[n].key| && h[n].key[h[n].nkey] == k
  }

  /**
   search_core: a key that is stored is found by plain find_leaf; another one exactly if it
   happens to be in the first unused slot of its leaf.
   */
  method SearchCore(mem: Memory, key: int) returns (found: bool)
    requires mem.Valid() && Tree(mem.N, mem.h, mem.Root, null)
    ensures found <==> Has(mem.h, key) || BeyondHolds(mem.h, key)
  {
    hide Memory.Valid, Tree, Has, BeyondHolds;
    mem.LookRoot();
    RootCoversAll(mem.N, mem.h, mem.Root, key);
    var n := FindLeaf(mem, mem.Root, key);
    mem.LookSlots(n);
    TreeKids(mem.N, mem.h, mem.Root, n);
    var i := 0;
    while i < n.nkey + 1 && i < |n.key|
      invariant 0 <= i <= |n.key| && i <= n.nkey + 1
      invariant forall x :: 0 <= x < i ==> n.key[x] != key
    {
      if n.key[i] == key {
        ScanDecides(mem.N, mem.h, mem.Root, n, key);
        return true;
      }
      i := i + 1;
    }
    ScanDecides(mem.N, mem.h, mem.Root, n, key);
    found := false;
  }

  // What the scan of the covering leaf can see.
  lemma ScanDecides(N: Fanout, h: Heap, root: Node, n: Node, k: int)
    requires Tree(N, h, root, null) && n in h && h[n].isLeaf && Covers(h[n], k)
    ensures 0 <= h[n].nkey <= |h[n].key|
    ensures Has(h, k) || BeyondHolds(h, k) <==> exists i :: 0 <= i <= h[n].nkey && i < |h[n].key| && h[n].key[i] == k
  {
    assert Base(N, h, h[n]);
    KeyIsInItsLeaf(N, h, n, k, 0);
    if BeyondHolds(h, k) {
      var m :| m in h && h[m].isLeaf && Covers(h[m], k) && 0 <= h[m].nkey < |h[m].key| && h[m].key[h[m].nkey] == k;
      assert Base(N, h, h[m]);
      CoverIsUnique(h, n, m, k);
    }
  }

  // ---- move_right

  // The lock of the next node is taken before that of the current one is released.
  method HandOver(mem: Memory, curr: Node, next: Node)
    requires mem.Valid() && curr in mem.held && curr in mem.h && next in mem.h && |mem.held| <= 2
    requires mem.h[next].level == mem.h[curr].level && Lt(mem.h[curr].low, mem.h[next].low)
    requires forall m :: m in mem.held && m != curr ==> m in mem.h && mem.h[m].level < mem.h[curr].level
    modifies mem`held, mem`trail
    ensures mem.Valid() && mem.held == old(mem.held) - {curr} + {next} && |mem.held| <= 2
    ensures mem.trail == old(mem.trail) + [Took(next), Left(curr)]
  {
    hide Memory.Valid;
    assert next !in mem.held;
    mem.Lock(next);
    mem.Unlock(curr);
    assert mem.held == (old(mem.held) - {curr}) + {next};
  }

  /**
   Lock-coupled walk along right links. The caller holds node and at most one lock
   below it; the walk returns holding its result instead of node.
   */
  method MoveRight(mem: Memory, node: Node, key: int) returns (curr: Node)
    requires mem.Valid() && AllBase(mem.N, mem.h) && node in mem.h && node in mem.held
    requires Below(mem.h[node].low, key) && |mem.held| <= 2
    requires forall m :: m in mem.held && m != node ==> m in mem.h && mem.h[m].level < mem.h[node].level
    modifies mem`held, mem`trail
    ensures mem.Valid()
    ensures curr == Walk(mem.N, mem.h, node, key)
    ensures curr in mem.h && mem.h[curr].level == mem.h[node].level && Covers(mem.h[curr], key)
    ensures mem.held == old(mem.held) - {node} + {curr}
    ensures mem.trail == old(mem.trail) + Coupled(mem.N, mem.h, node, key)
  {
    hide Memory.Valid, AllBase, Walk, Rights, Coupled;
    curr := node;
    var prev: Node?, prev_hk := null, 0;
    while true
      invariant mem.Valid() && curr in mem.h && mem.h[curr].level == mem.h[node].level && Below(mem.h[curr].low, key)
      invariant Walk(mem.N, mem.h, curr, key) == Walk(mem.N, mem.h, node, key)
      invariant mem.held == old(mem.held) - {node} + {curr} && |mem.held| <= 2
      invariant mem.trail + Coupled(mem.N, mem.h, curr, key) == old(mem.trail) + Coupled(mem.N, mem.h, node, key)
      invariant prev != null ==> prev_hk < key
      decreases Rights(mem.h, curr)
    {
      mem.Look(curr);
      WalkStep(mem.N, mem.h, curr, key);
      CoupledStep(mem.N, mem.h, curr, key);
      if curr.right_link == null { break; }
      assert !(prev != null && prev_hk >= key);   // the disorder check
      var next: Node := curr.right_link;
      if curr.high_key < key {
        prev_hk := curr.high_key;
        prev := curr;
        ghost var trail := mem.trail;
        HandOver(mem, curr, next);
        AppendTwo(trail, Took(next), Left(curr), Coupled(mem.N, mem.h, next, key));
        curr := next;
      } else {
        break;
      }
    }
  }

  lemma AppendTwo(s: seq<LockOp>, a: LockOp, b: LockOp, t: seq<LockOp>)
    ensures s + [a, b] + t == s + ([a, b] + t)
  {
  }

  // The locks of the walk: each is taken before the one to its left is released.
  ghost function Coupled(N: Fanout, h: Heap, n: Node, k: int): seq<LockOp>
    requires AllBase(N, h) && n in h
    decreases Rights(h, n)
  {
    if h[n].right == null || h[n].high >= k then []
    else
      RightIsFurther(N, h, n);
      [Took(h[n].right), Left(n)] + Coupled(N, h, h[n].right, k)
  }

  lemma CoupledStep(N: Fanout, h: Heap, n: Node, k: int)
    requires AllBase(N, h) && n in h
    ensures if h[n].right == null || h[n].high >= k then Coupled(N, h, n, k) == []
            else
              var m: Node := h[n].right;
              m in h && Coupled(N, h, n, k) == [Took(m), Left(n)] + Coupled(N, h, m, k)
  {
    if h[n].right != null && h[n].high < k {
      RightIsFurther(N, h, n);
    }
  }

  // One round of the walk.
  lemma WalkStep(N: Fanout, h: Heap, n: Node, k: int)
    requires AllBase(N, h) && n in h
    ensures if h[n].right == null || h[n].high >= k then Walk(N, h, n, k) == n
            else
              var m: Node := h[n].right;
              && m in h && h[m].level == h[n].level && h[m].low == At(h[n].high) && Lt(h[n].low, h[m].low)
              && Walk(N, h, n, k) == Walk(N, h, m, k) && Rights(h, m) < Rights(h, n)
  {
    if h[n].right != null && h[n].high < k {
      RightIsFurther(N, h, n);
      assert Base(N, h, h[n]);
    }
  }

  // ---- insert_in_parent

  // The "subtle change" stores: nkey already has that value after a split of even N.
  method RewriteNkey(mem: Memory, n: Node)
    requires mem.Valid() && n in mem.held && n in mem.h
    requires mem.h[n].nkey == if mem.h[n].isLeaf then mem.N / 2 else mem.N / 2 - 1
    modifies mem`h, mem`hist, n`nkey, n`pub
    ensures mem.Valid() && old(mem.hist) <= mem.hist && mem.h == old(mem.h)
  {
    hide Memory.Valid;
    mem.LookSlots(n);
    assert mem.h[n := mem.h[n]] == mem.h;
    if n.isLeaf {
      mem.SetNkey(n, (mem.N + 1) / 2, mem.h[n].pub);
    } else {
      mem.SetNkey(n, (mem.N + 1) / 2 - 1, mem.h[n].pub);
    }
  }

  lemma RootRecOk(N: Fanout, h: Heap, lc: Node, rc: Node)
    requires Half(N, h, lc, lc, rc)
    ensures RecOk(N, h, RootRec(N, h[lc].level + 1, lc, h[lc].high, rc))
  {
    var q := RootRec(N, h[lc].level + 1, lc, h[lc].high, rc);
    assert Base(N, h, h[lc]) && Base(N, h, h[rc]) && Place(N, h, lc, rc, lc);
    assert SlotOk(h, q, 0) && SlotOk(h, q, 1);
  }

  lemma HalfHasLeafLevel(N: Fanout, h: Heap, root: Node, lc: Node, rc: Node)
    requires Half(N, h, root, lc, rc)
    ensures LeafLevel(N, h)
  {
    TreeHasLeafLevel(N, h, root, rc);
  }

  // A new root over the halves of the old one.
  method GrowRoot(mem: Memory, lc: Node, lm_key: int, rc: Node)
    requires mem.Valid() && lc == mem.Root && Half(mem.N, mem.h, lc, lc, rc) && lm_key == mem.h[lc].high
    modifies mem`h, mem`hist, mem`unlinked, mem`Root, lc`parent, rc`parent
    ensures mem.Valid() && old(mem.hist) <= mem.hist && mem.unlinked <= old(mem.unlinked)
    ensures fresh(mem.Root) && mem.Root !in old(mem.h)
    ensures mem.h == Grown(mem.N, old(mem.h), lc, rc, mem.Root)
    ensures Settled(mem.N, mem.hist, |old(mem.hist)| - 1, old(mem.h))
  {
    hide Memory.Valid, LeafLevel, Settled, Calm;
    ghost var h0 := mem.h;
    mem.LookCalm();
    RootRecOk(mem.N, h0, lc, rc);
    HalfHasLeafLevel(mem.N, h0, lc, lc, rc);
    hide Tree, Half;
    var new_root := mem.AllocRoot(lc, lm_key, rc);
    mem.SetParent(rc, new_root);
    mem.SetParent(lc, new_root);
    mem.SetRoot(new_root);
    mem.LookCalm();
    StaysSettled(mem.N, old(mem.hist), h0, mem.hist, mem.calm);
  }

  lemma SepIsTaken(N: Fanout, h: Heap, root: Node, lc: Node, rc: Node)
    requires Half(N, h, root, lc, rc) && lc != root && Home(h, lc) && h[h[lc].parent].nkey < N - 1
    ensures var p: Node := h[lc].parent; TakesSep(N, h, p, h[lc].high, rc)
  {
    var p: Node := h[lc].parent;
    var k := h[lc].high;
    ParentOfPending(N, h, root, lc, rc);
    var j :| KidIs(h[p], j, lc);
    SeparatorFits(N, h, root, lc, rc, j);
    assert KidAt(h, p, h[p], j);
    assert Base(N, h, h[lc]) && Base(N, h, h[rc]);
    AddSepKids(h, p, h[p], k, rc, j);
    AddSepBase(N, h, p, h[p], k, rc, j);
  }

  // The parent has room.
  method CompleteSplit(mem: Memory, p: Node, lc: Node, lm_key: int, rc: Node)
    requires mem.Valid() && p in mem.held && Half(mem.N, mem.h, mem.Root, lc, rc) && lc != mem.Root && Home(mem.h, lc)
    requires p == mem.h[lc].parent && lm_key == mem.h[lc].high && mem.h[p].nkey < mem.N - 1
    modifies mem`h, mem`hist, p
    ensures mem.Valid() && old(mem.hist) <= mem.hist && mem.h.Keys == old(mem.h).Keys
    ensures Tree(mem.N, mem.h, mem.Root, null) && SameStored(old(mem.h), mem.h)
    ensures Settled(mem.N, mem.hist, |old(mem.hist)| - 1, old(mem.h))
  {
    hide Memory.Valid, Calm, Settled, LeafLevel;
    mem.LookCalm();
    HalfHasLeafLevel(mem.N, mem.h, mem.Root, lc, rc);
    ParentOfPending(mem.N, mem.h, mem.Root, lc, rc);
    SepIsTaken(mem.N, mem.h, mem.Root, lc, rc);
    AddSepKeepsTree(mem.N, mem.h, mem.Root, lc, rc);
    InternalChange(mem.h, p, AddSep(mem.h[p], lm_key, rc));
    hide Tree, Half, Home, TakesSep, SameStored, AddSep, Base, Kids, Place;
    FinalizeParent(mem, p, rc, lm_key);
    mem.LookCalm();
    StaysSettled(mem.N, old(mem.hist), old(mem.h), mem.hist, mem.calm);
  }

  // The parent is full: it is split, and the tree is half-split one level up.
  method PassSplitUp(mem: Memory, p: Node, lc: Node, lm_key: int, rc: Node) returns (m: Node)
    requires mem.Valid() && p in mem.held && Half(mem.N, mem.h, mem.Root, lc, rc) && lc != mem.Root && Home(mem.h, lc)
    requires p == mem.h[lc].parent && lm_key == mem.h[lc].high && mem.h[p].nkey == mem.N - 1
    modifies mem`h, mem`hist, mem`unlinked, mem.h.Keys
    ensures mem.Valid() && old(mem.hist) <= mem.hist && mem.unlinked <= old(mem.unlinked)
    ensures fresh(m) && mem.h.Keys == old(mem.h).Keys + {m}
    ensures Half(mem.N, mem.h, mem.Root, p, m) && SameStored(old(mem.h), mem.h)
    ensures mem.h[p].nkey == mem.N / 2 - 1 && !mem.h[p].isLeaf
    ensures forall x :: x in old(mem.h) ==> mem.h[x].level == old(mem.h)[x].level
    ensures Settled(mem.N, mem.hist, |old(mem.hist)| - 1, old(mem.h))
  {
    hide Memory.Valid, Calm, Settled, LeafLevel, Tree, Half, SameStored, Kids, Place, Home, Base, InternalSplit, AddSep,
      Wide;
    ghost var h, root := mem.h, mem.Root;
    mem.LookCalm();
    HalfHasLeafLevel(mem.N, h, root, lc, rc);
    FullParent(mem.N, h, root, lc, rc);
    m := SplitParent(mem, p, lm_key, rc, lc);
    SplitGoesUp(mem.N, h, root, lc, rc, m);
    mem.LookCalm();
    StaysSettled(mem.N, old(mem.hist), h, mem.hist, mem.calm);
  }

  lemma FullParent(N: Fanout, h: Heap, root: Node, lc: Node, rc: Node)
    requires Half(N, h, root, lc, rc) && lc != root
    ensures h[lc].parent != null && h[lc].parent in h
    ensures var r := h[h[lc].parent]; |r.key| == N - 1 && |r.chi| == N && !r.isLeaf
  {
    ParentOfPending(N, h, root, lc, rc);
  }

  // What the split of the full parent has come to.
  lemma SplitGoesUp(N: Fanout, h: Heap, root: Node, lc: Node, rc: Node, m: Node)
    requires Half(N, h, root, lc, rc) && lc != root && Home(h, lc) && m !in h
    requires var r := h[h[lc].parent]; r.nkey == |r.key| == N - 1 && |r.chi| == N && !r.isLeaf
    ensures var p: Node, t := h[lc].parent, AddSep(Wide(h[h[lc].parent]), h[lc].high, rc);
      |t.key| == N && |t.chi| == N + 1 &&
      var h' := InternalSplit(N, h, p, m, t);
      && Half(N, h', root, p, m) && SameStored(h, h') && h'.Keys == h.Keys + {m}
      && h'[p].nkey == N / 2 - 1 && !h'[p].isLeaf && (forall x :: x in h ==> h'[x].level == h[x].level)
  {
    var p: Node := h[lc].parent;
    ParentOfPending(N, h, root, lc, rc);
    var t := AddSep(Wide(h[p]), h[lc].high, rc);
    hide Tree, Half, SameStored, Kids, Place, InternalSplit, Base, Home;
    SplitParentKeepsTree(N, h, root, lc, rc, m);
    InternalSplitPairs(N, h, p, m, t);
    SplitLevels(N, h, p, m, t);
  }

  lemma SplitLevels(N: Fanout, h: Heap, p: Node, m: Node, t: Rec)
    requires p in h && m !in h && |h[p].key| == N - 1 && |h[p].chi| == N && |t.key| == N && |t.chi| == N + 1
      && !h[p].isLeaf
    ensures var h' := InternalSplit(N, h, p, m, t);
            && h'.Keys == h.Keys + {m}
            && h'[p].nkey == N / 2 - 1 && !h'[p].isLeaf
            && (forall x :: x in h ==> h'[x].level == h[x].level)
  {
  }

  // With exact parents, move_right stays at the parent.
  lemma ParentCovers(N: Fanout, h: Heap, root: Node, lc: Node, rc: Node)
    requires Half(N, h, root, lc, rc) && lc != root && Home(h, lc)
    ensures AllBase(N, h)
    ensures var p: Node := h[lc].parent; Walk(N, h, p, h[lc].high) == p
  {
    ParentOfPending(N, h, root, lc, rc);
  }

  method LockParent(mem: Memory, lc: Node, lm_key: int, ghost rc: Node) returns (left_parent: Node)
    requires mem.Valid() && Half(mem.N, mem.h, mem.Root, lc, rc) && lc != mem.Root && Home(mem.h, lc)
    requires mem.held == {lc} && lm_key == mem.h[lc].high
    modifies mem`held, mem`trail
    ensures mem.Valid() && left_parent == mem.h[lc].parent && mem.held == {lc, left_parent} && left_parent != lc
  {
    hide Memory.Valid;
    ParentCovers(mem.N, mem.h, mem.Root, lc, rc);
    ParentOfPending(mem.N, mem.h, mem.Root, lc, rc);
    hide Tree, Half, Home, Walk, AllBase, Place, Kids, Base;
    mem.Look(lc);
    left_parent := lc.parent;
    mem.Lock(left_parent);
    assert |{lc, left_parent}| == 2;
    left_parent := MoveRight(mem, left_parent, lm_key);
  }

  /**
   Completes a pending split, through as many levels as are full; no pair is added or lost.
   */
  method InsertInParent(mem: Memory, left_child: Node, lm_key: int, right_child: Node)
    requires mem.Valid() && Half(mem.N, mem.h, mem.Root, left_child, right_child)
    requires lm_key == mem.h[left_child].high && mem.held == {left_child}
    requires mem.h[left_child].nkey == if mem.h[left_child].isLeaf then mem.N / 2 else mem.N / 2 - 1
    modifies mem`h, mem`hist, mem`unlinked, mem`Root, mem`held, mem`trail, mem.h.Keys
    ensures mem.Valid() && old(mem.hist) <= mem.hist && mem.unlinked <= old(mem.unlinked) && mem.held == {}
    ensures old(mem.h).Keys <= mem.h.Keys && fresh(mem.h.Keys - old(mem.h).Keys)
    ensures Tree(mem.N, mem.h, mem.Root, null)
    ensures SameStored(old(mem.h), mem.h)
    ensures Settled(mem.N, mem.hist, |old(mem.hist)| - 1, old(mem.h))
    decreases mem.h[mem.Root].level - mem.h[left_child].level, 1
  {
    hide Memory.Valid, Memory.MayStore, Memory.Leafy, Tree, Half, SameStored, Calm, Settled, LeafLevel, Home, Place;
    hide Kids, Base, Covers;
    mem.LookCalm();
    HalfHasLeafLevel(mem.N, mem.h, mem.Root, left_child, right_child);
    HalfNodes(mem.N, mem.h, mem.Root, left_child, right_child);
    if left_child == mem.Root {
      GrowAndRelease(mem, left_child, lm_key, right_child);
      return;
    }
    RewriteNkey(mem, left_child);
    ParentOfPending(mem.N, mem.h, mem.Root, left_child, right_child);
    var left_parent := LockParent(mem, left_child, lm_key, right_child);
    mem.Look(left_parent);
    if left_parent.nkey < mem.N - 1 {
      CompleteHere(mem, left_parent, left_child, lm_key, right_child);
    } else {
      InsertAbove(mem, left_parent, left_child, lm_key, right_child);
    }
    mem.LookCalm();
    StaysSettled(mem.N, old(mem.hist), old(mem.h), mem.hist, mem.calm);
  }

  // The parent is full: it is split, and the pending split completed further up.
  method InsertAbove(mem: Memory, p: Node, lc: Node, lm_key: int, rc: Node)
    requires mem.Valid() && Half(mem.N, mem.h, mem.Root, lc, rc) && lc != mem.Root && Home(mem.h, lc) && lc in mem.h
    requires p == mem.h[lc].parent && lm_key == mem.h[lc].high && mem.h[p].nkey >= mem.N - 1
    requires mem.held == {lc, p} && lc != p && p in mem.h
    modifies mem`h, mem`hist, mem`unlinked, mem`Root, mem`held, mem`trail, mem.h.Keys
    ensures mem.Valid() && old(mem.hist) <= mem.hist && mem.unlinked <= old(mem.unlinked) && mem.held == {}
    ensures old(mem.h).Keys <= mem.h.Keys && fresh(mem.h.Keys - old(mem.h).Keys)
    ensures Tree(mem.N, mem.h, mem.Root, null) && SameStored(old(mem.h), mem.h)
    decreases mem.h[mem.Root].level - mem.h[lc].level, 0
  {
    hide Memory.Valid, Memory.MayStore, Tree, Half, SameStored, Calm, Settled, LeafLevel, Home, Place, Kids, Base;
    var m := ClimbOne(mem, p, lc, lm_key, rc);
    ghost var h1 := mem.h;
    mem.Look(p);
    InsertInParent(mem, p, p.high_key, m);
    StoredChain(old(mem.h), h1, mem.h);
  }

  method CompleteHere(mem: Memory, p: Node, lc: Node, lm_key: int, rc: Node)
    requires mem.Valid() && Half(mem.N, mem.h, mem.Root, lc, rc) && lc != mem.Root && Home(mem.h, lc)
    requires p == mem.h[lc].parent && lm_key == mem.h[lc].high && mem.h[p].nkey < mem.N - 1
    requires mem.held == {lc, p} && lc != p
    modifies mem`h, mem`hist, mem`held, mem`trail, p
    ensures mem.Valid() && old(mem.hist) <= mem.hist && mem.h.Keys == old(mem.h).Keys && mem.held == {}
    ensures Tree(mem.N, mem.h, mem.Root, null) && SameStored(old(mem.h), mem.h)
  {
    hide Memory.Valid, Tree, Half, SameStored, Settled, Home;
    CompleteSplit(mem, p, lc, lm_key, rc);
    mem.Unlock(lc);
    mem.Unlock(p);
  }

  method ClimbOne(mem: Memory, p: Node, lc: Node, lm_key: int, rc: Node) returns (m: Node)
    requires mem.Valid() && Half(mem.N, mem.h, mem.Root, lc, rc) && lc != mem.Root && Home(mem.h, lc)
    requires p == mem.h[lc].parent && lm_key == mem.h[lc].high && mem.h[p].nkey >= mem.N - 1
    requires mem.held == {lc, p} && lc != p
    modifies mem`h, mem`hist, mem`unlinked, mem`held, mem`trail, mem.h.Keys
    ensures mem.Valid() && old(mem.hist) <= mem.hist && mem.unlinked <= old(mem.unlinked) && mem.held == {p}
    ensures fresh(m) && mem.h.Keys == old(mem.h).Keys + {m}
    ensures Half(mem.N, mem.h, mem.Root, p, m) && SameStored(old(mem.h), mem.h)
    ensures mem.h[p].nkey == mem.N / 2 - 1 && !mem.h[p].isLeaf
    ensures mem.h[mem.Root].level == old(mem.h)[mem.Root].level
      && mem.h[p].level == old(mem.h)[p].level == old(mem.h)[lc].level + 1
    ensures mem.h[p].level <= mem.h[mem.Root].level
  {
    hide Memory.Valid, Tree, Half, SameStored;
    HalfNodes(mem.N, mem.h, mem.Root, lc, rc);
    ParentOfPending(mem.N, mem.h, mem.Root, lc, rc);
    hide Home, Place;
    m := PassSplitUp(mem, p, lc, lm_key, rc);
    mem.Unlock(lc);
  }

  lemma StoredChain(h0: Heap, h1: Heap, h2: Heap)
    requires SameStored(h0, h1) && SameStored(h1, h2)
    ensures SameStored(h0, h2)
  {
  }

  lemma HalfNodes(N: Fanout, h: Heap, root: Node, lc: Node, rc: Node)
    requires Half(N, h, root, lc, rc)
    ensures lc in h && rc in h && lc != rc && root in h
  {
    assert Base(N, h, h[lc]);
  }

  method GrowAndRelease(mem: Memory, lc: Node, lm_key: int, rc: Node)
    requires mem.Valid() && lc == mem.Root && Half(mem.N, mem.h, lc, lc, rc) && lm_key == mem.h[lc].high && lc in mem.h
      && rc in mem.h && lc != rc
    requires mem.held == {lc} && mem.h[lc].nkey == if mem.h[lc].isLeaf then mem.N / 2 else mem.N / 2 - 1
    modifies mem`h, mem`hist, mem`unlinked, mem`Root, mem`held, mem`trail, lc, rc
    ensures mem.Valid() && old(mem.hist) <= mem.hist && mem.unlinked <= old(mem.unlinked) && mem.held == {}
    ensures old(mem.h).Keys <= mem.h.Keys && fresh(mem.h.Keys - old(mem.h).Keys)
    ensures Tree(mem.N, mem.h, mem.Root, null) && SameStored(old(mem.h), mem.h)
    ensures Settled(mem.N, mem.hist, |old(mem.hist)| - 1, old(mem.h))
  {
    hide Memory.Valid, Tree, Half, SameStored, Calm, Settled, LeafLevel;
    ghost var h := mem.h;
    mem.LookCalm();
    HalfHasLeafLevel(mem.N, h, lc, lc, rc);
    GrowRoot(mem, lc, lm_key, rc);
    GrowthKeepsTree(mem.N, h, lc, rc, mem.Root);
    GrowthPairs(mem.N, h, lc, rc, mem.Root);
    RewriteNkey(mem, lc);
    mem.Unlock(lc);
    mem.LookCalm();
    StaysSettled(mem.N, old(mem.hist), h, mem.hist, mem.calm);
  }

  // ---- insert

  // The TEMP of a leaf split, with the new key in place.
  method PrepareLeafTemp(mem: Memory, leaf: Node, key: int, data: int, ghost r: Rec) returns (temp: Temp)
    requires mem.Valid() && leaf in mem.h && mem.h[leaf] == r && r.nkey == mem.N - 1
    ensures fresh(temp) && |r.key| == mem.N - 1 && |r.chi| == mem.N
    ensures var t := AddKey(Wide(r), key, Item(data)); temp.key == t.key && temp.chi == t.chi
  {
    hide Memory.Valid, PutAt, FirstAbove;
    mem.LookSlots(leaf);
    temp := new Temp();
    CopyFromLeftToTemp(mem, temp, leaf);
    InsertInTemp(temp, key, Item(data));
  }

  lemma LeafLinksAreExact(N: Fanout, h: Heap, n: Node, m: Node, r: Rec, t: Rec)
    requires |r.key| == N - 1 && |r.chi| == N && |t.key| == N && |t.chi| == N + 1
    requires n in h && m !in h && h[n] == r
    ensures var b := RightLeaf(N, r, t);
            var a := LeftLeaf(N, r, t, n).(high := r.high, right := r.right);
            var h0: Heap := h[m := b.(high := 0, right := null)];
            var h1: Heap := h0[n := a];
            var h2: Heap := h1[m := h1[m].(high := a.high, right := a.right)];
            var h3: Heap := h[n := LeftLeaf(N, r, t, m)];
            h2[n := a.(high := t.key[N / 2 - 1], right := m)] == h3[m := b]
            && |a.key| == N - 1 && a.key[N / 2 - 1] == t.key[N / 2 - 1]
  {
  }

  // A full leaf is split around the new key.
  method SplitLeaf(mem: Memory, leaf: Node, key: int, data: int) returns (right: Node)
    requires mem.Valid() && leaf in mem.held && leaf in mem.h && mem.h[leaf].isLeaf
    requires var r := mem.h[leaf]; r.nkey == |r.key| == mem.N - 1 && |r.chi| == mem.N && r.level == 0 && r.pub == 0
    modifies mem`h, mem`hist, mem`unlinked, mem`calm, leaf
    ensures mem.Valid() && old(mem.hist) <= mem.hist && mem.unlinked <= old(mem.unlinked) && fresh(right)
      && right !in old(mem.h)
    ensures var h, t := old(mem.h), AddKey(Wide(old(mem.h)[leaf]), key, Item(data));
            var h1: Heap := h[leaf := LeftLeaf(mem.N, h[leaf], t, right)];
            mem.h == h1[right := RightLeaf(mem.N, h[leaf], t)]
  {
    hide Memory.Valid, RightLeaf, LeftLeaf;
    ghost var h, r := mem.h, mem.h[leaf];
    ghost var t := AddKey(Wide(r), key, Item(data));
    mem.Look(leaf);
    right := mem.AllocLeaf(leaf.parent, At(t.key[mem.N / 2 - 1]));
    var temp := PrepareLeafTemp(mem, leaf, key, data, r);
    hide AddKey, Wide;
    DistributeLeaf(mem, temp, leaf, right, h, t);
  }

  // Both halves are filled and not linked yet.
  method FillHalves(mem: Memory, temp: Temp, leaf: Node, right: Node, ghost h: Heap, ghost t: Rec)
    requires leaf in h && right !in h && |h[leaf].key| == mem.N - 1 && |h[leaf].chi| == mem.N && h[leaf].isLeaf
    requires mem.Valid() && leaf in mem.held && mem.MayStore(right) && |t.key| == mem.N && |t.chi| == mem.N + 1
      && temp.key == t.key && temp.chi == t.chi
    requires mem.h == h[right := EmptyLeaf(mem.N, h[leaf].parent, At(t.key[mem.N / 2 - 1]))]
    modifies mem`h, mem`hist, mem`calm, leaf, right
    ensures mem.Valid() && old(mem.hist) <= mem.hist
    ensures var r := h[leaf];
            mem.h == h[right := RightLeaf(mem.N, r, t).(high := 0, right := null)]
                      [leaf := LeftLeaf(mem.N, r, t, leaf).(high := r.high, right := r.right)]
  {
    hide Memory.Valid, RightLeaf, LeftLeaf, Zeros, Nulls, RecOk, Memory.Leafy;
    assert mem.h[leaf] == h[leaf];
    mem.LookSlots(leaf);
    CopyFromTempToRight(mem, temp, right, h[leaf], t);
    assert mem.h[leaf] == h[leaf];
    mem.LookSlots(leaf);
    CopyFromTempToLeft(mem, temp, leaf, t);
  }

  function EmptyLeaf(N: Fanout, parent: Node?, low: Bound): Rec {
    Rec(true, Zeros(N - 1), Nulls(N), 0, 0, null, parent, 0, low, 0)
  }

  method DistributeLeaf(mem: Memory, temp: Temp, leaf: Node, right: Node, ghost h: Heap, ghost t: Rec)
    requires leaf in h && right !in h && |h[leaf].key| == mem.N - 1 && |h[leaf].chi| == mem.N && h[leaf].isLeaf
    requires mem.Valid() && leaf in mem.held && mem.MayStore(right) && |t.key| == mem.N && |t.chi| == mem.N + 1
      && temp.key == t.key && temp.chi == t.chi
    requires mem.h == h[right := EmptyLeaf(mem.N, h[leaf].parent, At(t.key[mem.N / 2 - 1]))]
    modifies mem`h, mem`hist, mem`unlinked, mem`calm, leaf, right
    ensures mem.Valid() && old(mem.hist) <= mem.hist && mem.unlinked <= old(mem.unlinked) - {right}
    ensures var h1: Heap := h[leaf := LeftLeaf(mem.N, h[leaf], t, right)];
            mem.h == h1[right := RightLeaf(mem.N, h[leaf], t)]
  {
    hide Memory.Valid, RightLeaf, LeftLeaf, EmptyLeaf;
    FillHalves(mem, temp, leaf, right, h, t);
    LeafLinksAreExact(mem.N, h, leaf, right, h[leaf], t);
    mem.Look(leaf);
    LinkHalves(mem, leaf, right, leaf.key[mem.N / 2 - 1]);
  }

  // What insert needs to know of the leaf it has locked.
  lemma LeafToInsert(N: Fanout, h: Heap, root: Node, leaf: Node, key: int)
    requires Tree(N, h, root, null) && leaf in h && h[leaf].level == 0 && Covers(h[leaf], key) && !Has(h, key)
    ensures Base(N, h, h[leaf]) && h[leaf].isLeaf && |h[leaf].key| == N - 1 && |h[leaf].chi| == N
    ensures 0 <= h[leaf].nkey <= N - 1 && h[leaf].pub == 0
  {
    assert Base(N, h, h[leaf]);
  }

  // The leaf has room.
  method InsertRoom(mem: Memory, leaf: Node, key: int, data: int)
    requires mem.Valid() && leaf in mem.held && Tree(mem.N, mem.h, mem.Root, null) && !Has(mem.h, key)
    requires leaf in mem.h && mem.h[leaf].level == 0 && Covers(mem.h[leaf], key) && mem.h[leaf].nkey < mem.N - 1
    modifies mem`h, mem`hist, mem`calm, leaf
    ensures mem.Valid() && old(mem.hist) <= mem.hist && mem.h.Keys == old(mem.h).Keys
    ensures Tree(mem.N, mem.h, mem.Root, null) && OneMore(old(mem.h), mem.h, key, data)
  {
    hide Memory.Valid;
    LeafToInsert(mem.N, mem.h, mem.Root, leaf, key);
    LeafInsertKeepsTree(mem.N, mem.h, mem.Root, leaf, key, Item(data));
    LeafInsertPairs(mem.h, leaf, key, data);
    hide Tree, OneMore, LeafInserted;
    InsertInLeaf(mem, leaf, key, Item(data));
  }

  // The leaf is full: it is split, and the tree is half-split.
  method InsertSplit(mem: Memory, leaf: Node, key: int, data: int) returns (right: Node)
    requires mem.Valid() && leaf in mem.held && Tree(mem.N, mem.h, mem.Root, null) && !Has(mem.h, key)
    requires leaf in mem.h && mem.h[leaf].level == 0 && Covers(mem.h[leaf], key) && mem.h[leaf].nkey >= mem.N - 1
    modifies mem`h, mem`hist, mem`unlinked, mem`calm, leaf
    ensures mem.Valid() && old(mem.hist) <= mem.hist && mem.unlinked <= old(mem.unlinked) && fresh(right)
      && mem.h.Keys == old(mem.h).Keys + {right}
    ensures Half(mem.N, mem.h, mem.Root, leaf, right) && OneMore(old(mem.h), mem.h, key, data)
    ensures mem.h[leaf].isLeaf && mem.h[leaf].nkey == mem.N / 2
  {
    hide Memory.Valid;
    ghost var h := mem.h;
    LeafToInsert(mem.N, h, mem.Root, leaf, key);
    hide Tree, Half, OneMore, RightLeaf;
    right := SplitLeaf(mem, leaf, key, data);
    LeafSplitKeepsTree(mem.N, h, mem.Root, leaf, right, key, Item(data));
    LeafSplitPairs(mem.N, h, leaf, right, key, data);
  }

  lemma OneMoreThenSame(h0: Heap, h1: Heap, h2: Heap, k: int, a: int)
    requires OneMore(h0, h1, k, a) && SameStored(h1, h2)
    ensures OneMore(h0, h2, k, a)
  {
  }

  /**
   The critical section of insert: it may start from any leaf below the key, however old
   the descent that found it.
   */
  method InsertFrom(mem: Memory, leaf0: Node, key: int, data: int)
    requires mem.Valid() && Tree(mem.N, mem.h, mem.Root, null) && mem.held == {} && !Has(mem.h, key)
    requires leaf0 in mem.h && mem.h[leaf0].isLeaf && Below(mem.h[leaf0].low, key)
    modifies mem, mem.h.Keys
    ensures mem.Valid() && old(mem.hist) <= mem.hist && mem.unlinked <= old(mem.unlinked) && mem.held == {}
    ensures old(mem.h).Keys <= mem.h.Keys && fresh(mem.h.Keys - old(mem.h).Keys)
    ensures Tree(mem.N, mem.h, mem.Root, null)
    ensures OneMore(old(mem.h), mem.h, key, data)
  {
    hide Memory.Valid, Has, OneMore, SameStored;
    mem.LookSlots(leaf0);
    assert AllBase(mem.N, mem.h);
    hide Tree, AllBase, Walk;
    mem.Lock(leaf0);
    var leaf := MoveRight(mem, leaf0, key);
    mem.Look(leaf);
    if leaf.nkey < mem.N - 1 {
      InsertRoom(mem, leaf, key, data);
      mem.Unlock(leaf);
    } else {
      var right := InsertSplit(mem, leaf, key, data);
      ghost var h1 := mem.h;
      mem.Look(leaf);
      InsertInParent(mem, leaf, leaf.high_key, right);
      OneMoreThenSame(old(mem.h), h1, mem.h, key, data);
    }
  }

  /**
   insert: puts the key in its place on the chain of leaves and adds exactly the new pair, keeps
   the tree, releases every lock, and makes only stores that keep all descents safe. From its
   last store to the leaf level on, every snapshot finds exactly the pairs of the final one.
   */
  method Insert(mem: Memory, key: int, data: int)
    requires mem.Valid() && Tree(mem.N, mem.h, mem.Root, null) && mem.held == {} && !Has(mem.h, key)
    modifies mem, mem.h.Keys
    ensures mem.Valid() && old(mem.hist) <= mem.hist && mem.unlinked <= old(mem.unlinked) && mem.held == {}
    ensures old(mem.h).Keys <= mem.h.Keys && fresh(mem.h.Keys - old(mem.h).Keys)
    ensures Tree(mem.N, mem.h, mem.Root, null)
    ensures OneMore(old(mem.h), mem.h, key, data)
    ensures LeafKeys(mem.N, mem.h, mem.Root) == PutInOrder(old(LeafKeys(mem.N, mem.h, mem.Root)), key)
    ensures |old(mem.hist)| <= mem.calm && LastLeafStore(mem.hist, mem.calm)
    ensures Settled(mem.N, mem.hist, mem.calm, mem.h)
  {
    hide Memory.Valid, Tree, Has, OneMore, LeafKeys, Settled, LastLeafStore, Calm;
    mem.LookCalm();
    ghost var h0, root0 := mem.h, mem.Root;
    mem.LookRoot();
    var leaf := FindLeaf(mem, mem.Root, key);
    InsertFrom(mem, leaf, key, data);
    InsertOnLeaves(mem.N, h0, root0, mem.h, mem.Root, key, data);
    mem.LookCalm();
    InsertionSettles(mem.N, old(mem.hist), h0, mem.hist, mem.h, mem.Root, mem.calm, key, data);
  }

  /**
   insert with its descent spread over the history so far: whatever others stored between the
   accesses of the descent, and after it, the leaf it found serves.
   */
  method InsertAfterDescent(mem: Memory, leaf0: Node, key: int, data: int, ghost run: seq<Moment>)
    requires mem.Valid() && Tree(mem.N, mem.h, mem.Root, null) && mem.held == {} && !Has(mem.h, key)
    requires Descent(mem.hist, key, run) && run[|run| - 1].reader == Done(leaf0)
    modifies mem, mem.h.Keys
    ensures mem.Valid() && old(mem.hist) <= mem.hist && mem.unlinked <= old(mem.unlinked) && mem.held == {}
    ensures old(mem.h).Keys <= mem.h.Keys && fresh(mem.h.Keys - old(mem.h).Keys)
    ensures Tree(mem.N, mem.h, mem.Root, null)
    ensures OneMore(old(mem.h), mem.h, key, data)
    ensures LeafKeys(mem.N, mem.h, mem.Root) == PutInOrder(old(LeafKeys(mem.N, mem.h, mem.Root)), key)
    ensures |old(mem.hist)| <= mem.calm && LastLeafStore(mem.hist, mem.calm)
    ensures Settled(mem.N, mem.hist, mem.calm, mem.h)
  {
    hide Memory.Valid, Tree, Has, OneMore, LeafKeys, Settled, LastLeafStore, Calm;
    mem.LookCalm();
    ghost var h0, root0 := mem.h, mem.Root;
    mem.LookHistory();
    DescentEndsBelowKey(mem.N, mem.hist, key, run, |mem.hist| - 1);
    InsertFrom(mem, leaf0, key, data);
    InsertOnLeaves(mem.N, h0, root0, mem.h, mem.Root, key, data);
    mem.LookCalm();
    InsertionSettles(mem.N, old(mem.hist), h0, mem.hist, mem.h, mem.Root, mem.calm, key, data);
  }

  // An empty tree is a tree.
  lemma EmptyTree(N: Fanout, root: Node)
    ensures var h := map[root := Rec(true, Zeros(N - 1), Nulls(N), 0, 0, null, null, 0, Bot, 0)];
            Tree(N, h, root, null) && forall k :: !Has(h, k)
  {
  }

  // The worker's loop: from an empty tree, inserts of distinct keys store exactly those keys.
  method InsertAll(mem: Memory, keys: seq<int>, data: int)
    requires mem.Valid() && Tree(mem.N, mem.h, mem.Root, null) && mem.held == {}
    requires forall i, j :: 0 <= i < j < |keys| ==> keys[i] != keys[j]
    requires forall i :: 0 <= i < |keys| ==> !Has(mem.h, keys[i])
    modifies mem, mem.h.Keys
    ensures mem.Valid() && old(mem.hist) <= mem.hist && mem.unlinked <= old(mem.unlinked) && mem.held == {}
    ensures Tree(mem.N, mem.h, mem.Root, null)
    ensures forall k :: Has(mem.h, k) <==> Has(old(mem.h), k) || k in keys
    ensures forall k, a :: Stored(mem.h, k, a) <==> Stored(old(mem.h), k, a) || (k in keys && a == data)
  {
    hide Memory.Valid, Tree, Has, Stored, Settled, LastLeafStore;
    ghost var h0, hist0 := mem.h, mem.hist;
    var i := 0;
    while i < |keys|
      invariant 0 <= i <= |keys| && mem.Valid() && hist0 <= mem.hist && mem.held == {}
      invariant mem.unlinked <= old(mem.unlinked)
      invariant Tree(mem.N, mem.h, mem.Root, null)
      invariant h0.Keys <= mem.h.Keys && fresh(mem.h.Keys - h0.Keys)
      invariant forall k :: Has(mem.h, k) <==> Has(h0, k) || k in keys[..i]
      invariant forall k, a :: Stored(mem.h, k, a) <==> Stored(h0, k, a) || (k in keys[..i] && a == data)
    {
      Insert(mem, keys[i], data);
      i := i + 1;
    }
    assert keys[..i] == keys;
  }
}
