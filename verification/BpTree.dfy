/**
 The B+ tree program: search, and insertion with splits that climb through the parents.
 */
module BpTree {
  import opened Slots
  import opened BpShape
  import opened BpStep
  import opened BpSplit
  import opened BpCascade
  import opened BpKeys
  import opened BpNode

  class BPlusTree {
    const N: Fanout
    var Root: Node?
    ghost var h: Heap

    ghost predicate Valid()
      reads this, h.Keys
    {
      forall n {:trigger n.ToRec()} {:trigger h[n]} :: n in h ==> n.ToRec() == h[n]
    }

    // A tree with no split under way.
    ghost predicate Whole()
      reads this, h.Keys
    {
      Valid() && if Root == null then h == map[] else Tree(N, h, Root, Nothing)
    }

    // All keys, in order.
    ghost function Contents(): seq<int>
      requires Whole()
      reads this, h.Keys
    {
      if Root == null then [] else InOrderKeys(N, h, Root)
    }

    // init_root
    constructor (N: Fanout)
      ensures Whole() && this.N == N && Root == null && Contents() == []
    {
      this.N, Root, h := N, null, map[];
    }

    // find_leaf ends at the leaf that covers the key.
    method FindLeaf(node: Node, key: int) returns (leaf: Node)
      requires Valid() && Root != null && Tree(N, h, Root, Nothing) && node in h && Covers(h[node], key)
      ensures leaf in h && h[leaf].isLeaf && Covers(h[leaf], key)
      decreases h[node].level
    {
      hide Tree;
      assert node.ToRec() == h[node];
      if node.isLeaf { return node; }
      SlotCovers(N, h, Root, node, key);
      var kid := FindSlot(key, node.key, node.nkey);
      leaf := FindLeaf(node.chi[kid], key);
    }

    /**
     search_core: a key of the tree is found; another one exactly if it happens to be in the
     first unused slot of its leaf.
     */
    method SearchCore(key: int) returns (found: bool)
      requires Whole() && Root != null
      ensures found <==> key in Contents() || BeyondHolds(h, key)
    {
      hide Tree, Has, BeyondHolds, InOrderKeys;
      WalkOf(N, h, Root, key);
      RootCoversAll(N, h, Root, key);
      var n := FindLeaf(Root, key);
      Look(n);
      ScanDecides(N, h, Root, n, key);
      var i := 0;
      while i < n.nkey + 1 && i < |n.key|
        invariant 0 <= i <= |n.key| && i <= n.nkey + 1
        invariant forall x :: 0 <= x < i ==> n.key[x] != key
      {
        if n.key[i] == key { return true; }
        i := i + 1;
      }
      found := false;
    }

    // ---- insert_in_parent

    // The last loop of copy_from_temp_to_right_parent.
    method AdoptChildren(right: Node)
      requires Valid() && right in h && !h[right].isLeaf
      requires 0 <= h[right].nkey < |h[right].chi|
      requires forall i :: 0 <= i <= h[right].nkey ==>
        h[right].chi[i] != null && h[right].chi[i] in h && h[right].chi[i] != right
      modifies this`h, h.Keys
      ensures Valid() && h == Adopted(old(h), old(h)[right], right) && h.Keys == old(h.Keys)
    {
      hide Valid, HeldBelow, KidIs;
      ghost var h0, r := h, h[right];
      NoneHeldBelow(r);
      Look(right);
      var i := 0;
      while i < right.nkey + 1
        invariant 0 <= i <= r.nkey + 1 && h.Keys == h0.Keys && h[right] == r && right.ToRec() == r
        invariant Valid() && AdoptedTo(h0, r, i, right, h)
        modifies this`h, h0.Keys
      {
        AdoptOne(right, i, h0, r);
        Look(right);
        i := i + 1;
      }
      AdoptedAll(h0, r, right, h);
    }

    lemma Look(n: Node)
      requires Valid() && n in h
      ensures n.ToRec() == h[n]
    {
    }

    method AdoptOne(right: Node, i: nat, ghost h0: Heap, ghost r: Rec)
      requires Valid() && right in h && h[right] == r && h.Keys == h0.Keys && i <= r.nkey < |r.chi|
      requires r.chi[i] != null && r.chi[i] in h && r.chi[i] != right
      requires AdoptedTo(h0, r, i, right, h)
      modifies this`h, h.Keys
      ensures Valid() && h.Keys == h0.Keys && AdoptedTo(h0, r, i + 1, right, h) && h[right] == r
    {
      hide HeldBelow;
      Look(right);
      var c: Node := right.chi[i];
      Look(c);
      HeldBelowMore(r, i, c);
      if c.parent != right {
        c.parent := right;
      }
      h := h[c := c.ToRec()];
    }

    // The halves of a full parent, with the separator rs_key and right_child in.
    method SplitParent(left_parent: Node, rs_key: int, right_child: Node, ghost pend: Pending, ghost j: nat)
      returns (right_parent: Node, rs_key_parent: int)
      requires Valid() && Root != null && left_parent in h && h[left_parent].nkey == N - 1
      requires Entering(N, h, Root, pend, left_parent, j)
      requires pend.right == right_child && h[right_child].lo == At(rs_key)
      modifies this`h, h.Keys
      ensures Valid() && fresh(right_parent) && h.Keys == old(h.Keys) + {right_parent}
      ensures Tree(N, h, Root, Split(left_parent, right_parent)) && h[right_parent].lo == At(rs_key_parent)
      ensures SameKeys(old(h), h)
      ensures h[left_parent].level == old(h)[left_parent].level && h[Root].level == old(h)[Root].level
    {
      hide Tree, Entering, Splitting, SameKeys, LeftInternal, RightInternal, AddSep, FirstAbove, Adopted;
      ghost var h0, r := h, h[left_parent];
      ghost var t := ParentTemp(N, h, Root, pend, left_parent, j);
      hide Valid;
      right_parent, rs_key_parent := SplitNodes(left_parent, rs_key, right_child, t);
      SplitOutcome(N, h0, Root, pend, left_parent, j, t, right_parent);
      AdoptChildren(right_parent);
    }

    method SplitNodes(left_parent: Node, rs_key: int, right_child: Node, ghost t: Rec)
      returns (right_parent: Node, rs_key_parent: int)
      requires Valid() && left_parent in h && !h[left_parent].isLeaf
      requires |h[left_parent].key| == N - 1 == h[left_parent].nkey && |h[left_parent].chi| == N
      requires var r := h[left_parent];
               t == AddSep(Wide(r), FirstAbove(Wide(r).key, r.nkey, rs_key), rs_key, right_child)
      modifies this`h, left_parent
      ensures Valid() && fresh(right_parent) && right_parent !in old(h) && rs_key_parent == t.key[N / 2]
      ensures h == old(h)[left_parent := LeftInternal(N, old(h)[left_parent], t)]
                         [right_parent := RightInternal(N, old(h)[left_parent], t)]
    {
      hide LeftInternal, RightInternal, AddSep, FirstAbove, Wide;
      Look(left_parent);
      right_parent, rs_key_parent := DistributeParent(left_parent, rs_key, right_child, t);
      Record(left_parent, right_parent);
    }

    // The ghost heap after n was changed and m was allocated.
    ghost method Record(n: Node, m: Node)
      requires n in h && m !in h && forall x :: x in h && x != n ==> x.ToRec() == h[x]
      modifies this`h
      ensures Valid() && h == old(h)[n := n.ToRec()][m := m.ToRec()]
    {
      h := h[n := n.ToRec()][m := m.ToRec()];
    }

    // Lines of insert_in_parent that fill the two halves through the TEMP.
    method DistributeParent(left_parent: Node, rs_key: int, right_child: Node, ghost t: Rec)
      returns (right_parent: Node, rs_key_parent: int)
      requires |left_parent.key| == N - 1 == left_parent.nkey && |left_parent.chi| == N && !left_parent.isLeaf
      requires var r := left_parent.ToRec();
               t == AddSep(Wide(r), FirstAbove(Wide(r).key, r.nkey, rs_key), rs_key, right_child)
      modifies left_parent`key, left_parent`chi, left_parent`nkey, left_parent`hi
      ensures fresh(right_parent) && rs_key_parent == t.key[N / 2]
      ensures left_parent.ToRec() == LeftInternal(N, old(left_parent.ToRec()), t)
      ensures right_parent.ToRec() == RightInternal(N, old(left_parent.ToRec()), t)
    {
      hide FirstAbove, PutAt;
      var temp := new Temp();
      CopyFromLeftToTemp(N, temp, left_parent);
      InsertInTemp(temp, rs_key, right_child);
      assert temp.key == t.key && temp.chi == t.chi;
      hide AddSep, Wide;
      right_parent, rs_key_parent := ShareOut(temp, left_parent, t);
    }

    method ShareOut(temp: Temp, left_parent: Node, ghost t: Rec) returns (right_parent: Node, rs_key_parent: int)
      requires |temp.key| == N == temp.nkey && |temp.chi| == N + 1 && temp.key == t.key && temp.chi == t.chi
      requires |left_parent.key| == N - 1 && |left_parent.chi| == N && !left_parent.isLeaf
      modifies left_parent`key, left_parent`chi, left_parent`nkey, left_parent`hi
      ensures fresh(right_parent) && rs_key_parent == t.key[N / 2]
      ensures left_parent.ToRec() == LeftInternal(N, old(left_parent.ToRec()), t)
      ensures right_parent.ToRec() == RightInternal(N, old(left_parent.ToRec()), t)
    {
      EraseEntries(N, left_parent);
      right_parent := new Node(N, false, left_parent.parent, left_parent.level, At(t.key[N / 2]), left_parent.hi);
      CopyFromTempToLeftParent(N, temp, left_parent);
      left_parent.hi := At(t.key[N / 2]);
      rs_key_parent := temp.key[N / 2];
      CopyFromTempToRightParent(N, temp, right_parent);
    }

    method AllocRoot(left: Node, rs_key: int, right: Node, ghost level: nat) returns (node: Node)
      ensures fresh(node) && node.ToRec() == RootRec(N, level, left, rs_key, right)
    {
      node := new Node(N, false, null, level, Open, Open);
      node.key := node.key[0 := rs_key];
      node.chi := node.chi[0 := left];
      node.chi := node.chi[1 := right];
      node.nkey := 1;
      assert node.key == [rs_key] + Zeros(N - 2);
      assert node.chi == [left, right] + NoKids(N - 2);
    }

    method GrowRoot(left_child: Node, rs_key: int, right_child: Node)
      requires Valid() && Root == left_child && Tree(N, h, left_child, Split(left_child, right_child))
      requires left_child in h && right_child in h && left_child != right_child && h[right_child].lo == At(rs_key)
      modifies this`h, this`Root, h.Keys
      ensures Valid() && fresh(h.Keys - old(h.Keys)) && Root != null && Tree(N, h, Root, Nothing)
      ensures SameKeys(old(h), h)
    {
      hide Tree, Grown, SameKeys;
      ghost var h0 := h;
      Look(left_child);
      Look(right_child);
      var top := AllocRoot(left_child, rs_key, right_child, h[left_child].level + 1);
      Root := top;
      left_child.parent := Root;
      right_child.parent := Root;
      h := h0[left_child := left_child.ToRec()][right_child := right_child.ToRec()][top := top.ToRec()];
      GrownIs(N, h0, left_child, right_child, top);
    }

    method AddToParent(left_parent: Node, left_child: Node, rs_key: int, right_child: Node, ghost j: nat)
      requires Valid() && Root != null && left_parent in h
      requires Entering(N, h, Root, Split(left_child, right_child), left_parent, j) && h[left_parent].nkey < N - 1
      requires h[right_child].lo == At(rs_key)
      modifies this`h, left_parent
      ensures Valid() && h.Keys == old(h.Keys) && Tree(N, h, Root, Nothing) && SameKeys(old(h), h)
    {
      ghost var h0, pend := h, Split(left_child, right_child);
      assert left_parent.ToRec() == h[left_parent] && Base(N, h[left_parent]);
      hide Tree, PutAt;
      ghost var i := InsertAfterLeftChild(N, left_parent, left_child, rs_key, right_child);
      AddSepKeepsTree(N, h0, Root, pend, left_parent, i);
      h := h0[left_parent := left_parent.ToRec()];
      LeavesCarry(h0, h);
    }

    /**
     The separator goes up: into the parent, through a split of the parent, or into a new root.
     */
    method InsertInParent(left_child: Node, rs_key: int, right_child: Node)
      requires Valid() && Root != null && Tree(N, h, Root, Split(left_child, right_child))
      requires left_child in h && right_child in h && h[right_child].lo == At(rs_key)
      modifies this`h, this`Root, h.Keys
      ensures Valid() && fresh(h.Keys - old(h.Keys)) && Root != null && Tree(N, h, Root, Nothing)
      ensures SameKeys(old(h), h)
      decreases h[Root].level - h[left_child].level
    {
      hide Tree, SameKeys;
      if left_child == Root {
        PendingNodes(N, h, Root, left_child, right_child);
        GrowRoot(left_child, rs_key, right_child);
        return;
      }
      ghost var h0 := h;
      assert left_child.ToRec() == h[left_child];
      ghost var j := ParentOf(N, h, Root, left_child, right_child);
      var left_parent := left_child.parent;
      assert left_parent.ToRec() == h[left_parent];
      if left_parent.nkey < N - 1 {
        AddToParent(left_parent, left_child, rs_key, right_child, j);
      } else {
        var right_parent, rs_key_parent :=
          SplitParent(left_parent, rs_key, right_child, Split(left_child, right_child), j);
        ghost var h1 := h;
        InsertInParent(left_parent, rs_key_parent, right_parent);
        SameKeysTwice(h0, h1, h);
      }
    }

    // ---- insert

    method SplitLeaf(left: Node, key: int) returns (right: Node)
      requires Valid() && Root != null && left in h && h[left].nkey == N - 1 && LeafGets(N, h, Root, left, key)
      modifies this`h, left
      ensures Valid() && fresh(right) && h.Keys == old(h.Keys) + {right}
      ensures Tree(N, h, Root, Split(left, right)) && OneMore(old(h), h, key)
      ensures right.ToRec() == h[right] && h[right].nkey > 0 && |h[right].key| > 0 && h[right].lo == At(h[right].key[0])
    {
      ghost var h0 := h;
      assert left.ToRec() == h[left] && Base(N, h[left]);
      right := DistributeLeaf(left, key);
      LeafSplitKeepsTree(N, h, Root, left, right, key);
      LeafSplitKeys(N, h, Root, left, right, key);
      hide Tree, OneMore, AddKey;
      h := h0[left := left.ToRec()][right := right.ToRec()];
    }

    // Lines of insert that fill the two halves through the TEMP.
    method DistributeLeaf(left: Node, key: int) returns (right: Node)
      requires |left.key| == N - 1 == left.nkey && left.chi == NoKids(N) && left.isLeaf && left.level == 0
      modifies left
      ensures fresh(right)
      ensures var r := old(left.ToRec());
              var t := AddKey(Wide(r), key);
              left.ToRec() == LeftLeaf(N, r, t) && right.ToRec() == RightLeaf(N, r, t)
    {
      hide FirstAbove, PutAt;
      ghost var t := AddKey(Wide(left.ToRec()), key);
      right := new Node(N, true, left.parent, 0, At(t.key[N / 2]), left.hi);
      var temp := new Temp();
      CopyFromLeftToTemp(N, temp, left);
      InsertInTemp(temp, key, null);
      assert temp.key == t.key;
      TempHasNoKids(N, temp.chi, FirstAbove(left.key + [0], N - 1, key));
      FillLeaves(temp, left, right);
      left.hi := At(t.key[N / 2]);
    }

    // The sibling link that is set here is erased again, and the slot it replaces was never used.
    method FillLeaves(temp: Temp, left: Node, right: Node)
      requires |temp.key| == N && temp.chi == NoKids(N + 1) && left != right
      requires |left.key| == N - 1 && left.chi == NoKids(N)
      requires right.key == Zeros(N - 1) && right.chi == NoKids(N) && right.nkey == 0
      modifies left`key, left`chi, left`nkey, right`key, right`chi, right`nkey
      ensures left.key == temp.key[..N / 2] + Zeros(N / 2 - 1) && left.chi == NoKids(N) && left.nkey == N / 2
      ensures right.key == temp.key[N / 2..] + Zeros(N / 2 - 1) && right.chi == NoKids(N) && right.nkey == N / 2
    {
      right.chi := right.chi[N - 1 := left.chi[N - 1]];
      left.chi := left.chi[N - 1 := right];
      EraseEntries(N, left);
      CopyFromTempToLeft(N, temp, left);
      assert left.chi == NoKids(N);
      CopyFromTempToRight(N, temp, right);
      assert right.chi == NoKids(N);
    }

    method InsertInRoom(leaf: Node, key: int)
      requires Valid() && Root != null && leaf in h && h[leaf].nkey < N - 1 && LeafGets(N, h, Root, leaf, key)
      modifies this`h, leaf
      ensures Valid() && h.Keys == old(h.Keys) && Tree(N, h, Root, Nothing) && OneMore(old(h), h, key)
    {
      ghost var h0 := h;
      assert leaf.ToRec() == h[leaf] && Base(N, h[leaf]);
      InsertKeepsTree(N, h, Root, leaf, key);
      InsertKeys(N, h, Root, leaf, key);
      hide Tree, OneMore, AddKey;
      InsertInLeaf(leaf, key);
      h := h0[leaf := leaf.ToRec()];
    }

    // The leaf for a new key; the first one if there is none yet.
    method StartLeaf(key: int) returns (leaf: Node)
      requires Whole() && !Has(h, key)
      modifies this`h, this`Root
      ensures Valid() && fresh(h.Keys - old(h.Keys)) && Root != null && leaf in h && leaf.ToRec() == h[leaf]
      ensures LeafGets(N, h, Root, leaf, key) && SameKeys(old(h), h) && h[leaf].nkey <= N - 1
    {
      hide Tree;
      if Root == null {
        leaf := new Node(N, true, null, 0, Open, Open);
        Root := leaf;
        h := map[leaf := leaf.ToRec()];
        FirstLeaf(N, leaf);
      } else {
        RootCoversAll(N, h, Root, key);
        leaf := FindLeaf(Root, key);
        TreeBase(N, h, Root, leaf);
      }
    }

    method InsertNew(key: int)
      requires Whole() && !Has(h, key)
      modifies this`h, this`Root, h.Keys
      ensures Valid() && fresh(h.Keys - old(h.Keys)) && Root != null && Tree(N, h, Root, Nothing)
      ensures OneMore(old(h), h, key)
    {
      hide Tree, OneMore, SameKeys, LeafGets, Whole, InOrderKeys;
      assert Valid() by { WholeIsValid(); }
      ghost var h0 := h;
      var leaf := StartLeaf(key);
      ghost var h1 := h;
      if leaf.nkey < N - 1 {
        InsertInRoom(leaf, key);
        SameThenOneMore(h0, h1, h, key);
      } else {
        var right := SplitLeaf(leaf, key);
        ghost var h2 := h;
        InsertInParent(leaf, right.key[0], right);
        OneMoreThenSame(h1, h2, h, key);
        SameThenOneMore(h0, h1, h, key);
      }
    }

    lemma WholeIsValid()
      requires Whole()
      ensures Valid()
    {
    }

    /**
     A new key: the tree stays a tree, and its keys in order are the old ones with the key put
     in its place.
     */
    method Insert(key: int)
      requires Whole() && key !in Contents()
      modifies this`h, this`Root, h.Keys
      ensures Whole() && fresh(h.Keys - old(h.Keys)) && Root != null
      ensures Contents() == PutInOrder(old(Contents()), key)
    {
      hide Tree, OneMore, Has, InOrderKeys;
      ghost var h0, root0 := h, Root;
      WalkOf(N, h0, root0, key);
      InsertNew(key);
      WalkGrows(N, h0, root0, h, Root, key);
    }

    /** Any sequence of distinct keys into an empty tree. */
    method InsertAll(keys: seq<int>)
      requires Whole() && Root == null && forall i, j :: 0 <= i < j < |keys| ==> keys[i] != keys[j]
      modifies this`h, this`Root
      ensures Whole() && InOrder(Contents()) && forall k :: k in Contents() <==> k in keys
    {
      hide Tree, InOrderKeys, PutInOrder;
      var i := 0;
      while i < |keys|
        invariant 0 <= i <= |keys| && Whole() && fresh(h.Keys)
        invariant InOrder(Contents()) && forall k :: k in Contents() <==> k in keys[..i]
      {
        PutInOrderElements(Contents(), keys[i]);
        Insert(keys[i]);
        assert keys[..i + 1] == keys[..i] + [keys[i]];
        i := i + 1;
      }
      assert keys[..i] == keys;
    }
  }

  lemma GrownIs(N: Fanout, h: Heap, root: Node, right: Node, top: Node)
    requires Tree(N, h, root, Split(root, right)) && top !in h && root in h && right in h && root != right
      && h[right].lo.At?
    ensures var h': Heap := h[root := h[root].(parent := top)][right := h[right].(parent := top)]
                              [top := RootRec(N, h[root].level + 1, root, h[right].lo.v, right)];
            Tree(N, h', top, Nothing) && SameKeys(h, h')
  {
    GrowthKeepsTree(N, h, root, right, top);
    hide Tree;
    LeavesCarry(h, Grown(N, h, root, right, top));
  }

  lemma PendingNodes(N: Fanout, h: Heap, root: Node, left: Node, right: Node)
    requires Tree(N, h, root, Split(left, right))
    ensures left in h && right in h && left != right
  {
  }

  lemma SameKeysTwice(h0: Heap, h1: Heap, h2: Heap)
    requires SameKeys(h0, h1) && SameKeys(h1, h2)
    ensures SameKeys(h0, h2)
  {
  }

  lemma WalkOf(N: Fanout, h: Heap, root: Node?, k: int)
    requires if root == null then h == map[] else Tree(N, h, root, Nothing)
    ensures root != null ==> (k in InOrderKeys(N, h, root) <==> Has(h, k))
    ensures root == null ==> !Has(h, k)
  {
    if root != null {
      RootCoversAll(N, h, root, k);
      WalkIsContents(N, h, root, root, k);
    }
  }

  lemma WalkGrows(N: Fanout, h: Heap, root: Node?, h': Heap, root': Node, k: int)
    requires if root == null then h == map[] else Tree(N, h, root, Nothing)
    requires Tree(N, h', root', Nothing) && !Has(h, k) && OneMore(h, h', k)
    ensures var s := if root == null then [] else InOrderKeys(N, h, root);
            InOrderKeys(N, h', root') == PutInOrder(s, k)
  {
    if root != null {
      InsertOnWalk(N, h, root, h', root', k);
    } else {
      var s' := InOrderKeys(N, h', root');
      WalkAscends(N, h', root');
      forall x ensures x in s' <==> x == k {
        WalkOf(N, h', root', x);
      }
      hide Tree, Has, InOrderKeys;
      SameElements(s', PutInOrder([], k));
    }
  }

  lemma SameThenOneMore(h0: Heap, h1: Heap, h2: Heap, k: int)
    requires SameKeys(h0, h1) && OneMore(h1, h2, k)
    ensures OneMore(h0, h2, k)
  {
  }

  lemma TempHasNoKids(N: Fanout, chi: seq<Node?>, j: nat)
    requires j < N && chi == PutAt(NoKids(N) + [null], N, j + 1, null)
    ensures chi == NoKids(N + 1)
  {
    hide PutAt;
  }

  lemma OneMoreThenSame(h0: Heap, h1: Heap, h2: Heap, k: int)
    requires OneMore(h0, h1, k) && SameKeys(h1, h2)
    ensures OneMore(h0, h2, k)
  {
  }

  // The slot of the left half in its parent.
  lemma ParentOf(N: Fanout, h: Heap, root: Node, left: Node, right: Node) returns (j: nat)
    requires Tree(N, h, root, Split(left, right)) && left != root && left in h
    ensures h[left].parent != null && h[left].parent in h && 0 <= h[h[left].parent].nkey <= N - 1
    ensures Entering(N, h, root, Split(left, right), h[left].parent, j)
    ensures root in h && h[left].level < h[h[left].parent].level <= h[root].level
  {
    assert Place(N, h, root, Split(left, right), left);
    var p: Node := h[left].parent;
    j :| KidIs(h[p], j, left);
    assert Base(N, h[p]) && Kids(h, Split(left, right), p, h[p]) && Place(N, h, root, Split(left, right), p);
    assert KidAt(h, Split(left, right), p, h[p], j);
  }

  lemma TreeBase(N: Fanout, h: Heap, root: Node, n: Node)
    requires Tree(N, h, root, Nothing) && n in h
    ensures Base(N, h[n])
  {
  }

  lemma FirstLeaf(N: Fanout, leaf: Node)
    ensures var h: Heap := map[leaf := Rec(true, Zeros(N - 1), NoKids(N), 0, null, 0, Open, Open)];
            Tree(N, h, leaf, Nothing) && forall k :: !Has(h, k)
  {
  }

  // The TEMP that placing by key gives.
  lemma ParentTemp(N: Fanout, h: Heap, root: Node, pend: Pending, p: Node, j: nat) returns (t: Rec)
    requires Entering(N, h, root, pend, p, j) && h[p].nkey == N - 1
    ensures |h[p].key| == N - 1 && |h[p].chi| == N && !h[p].isLeaf
    ensures var r, sep := h[p], h[pend.right].lo.v;
            t == AddSep(Wide(r), FirstAbove(Wide(r).key, r.nkey, sep), sep, pend.right)
    ensures Splitting(N, h, root, pend, p, j, t)
  {
    var r, sep := h[p], h[pend.right].lo.v;
    assert Base(N, r);
    SeparatorFits(N, h, root, pend, j);
    var w := Wide(r);
    assert forall i :: 0 <= i < N - 1 ==> w.key[i] == r.key[i];
    PlacedByKey(w, sep, j);
    t := AddSep(w, j, sep, pend.right);
  }

  lemma HalvesHold(N: Fanout, h: Heap, p: Node, t: Rec, q: Node)
    requires TempOk(N, h, p, t) && q !in h
    ensures var b := RightInternal(N, h[p], t);
            forall i :: 0 <= i <= b.nkey ==> b.chi[i] != null && b.chi[i] in h && b.chi[i] != q
  {
    var b := RightInternal(N, h[p], t);
    forall i | 0 <= i <= b.nkey ensures b.chi[i] != null && b.chi[i] in h {
      assert KidAt(h, Nothing, p, t, i + N / 2 + 1);
    }
  }

  lemma SplitIs(N: Fanout, h: Heap, p: Node, t: Rec, q: Node)
    requires TempOk(N, h, p, t) && q !in h
    ensures var b := RightInternal(N, h[p], t);
            Adopted(h[p := LeftInternal(N, h[p], t)][q := b], b, q) == ParentSplit(N, h, p, t, q)
  {
    var b := RightInternal(N, h[p], t);
    forall n: Node | HasKid(b, n) ensures n in h && n != p {
      MovedIsKid(N, h, p, t, n);
    }
  }

  // All that SplitParent promises, of the heap between the copying and the adoption.
  lemma SplitOutcome(N: Fanout, h: Heap, root: Node, pend: Pending, p: Node, j: nat, t: Rec, q: Node)
    requires Splitting(N, h, root, pend, p, j, t) && q !in h
    ensures var b := RightInternal(N, h[p], t);
            var h1 := h[p := LeftInternal(N, h[p], t)][q := b];
            && !b.isLeaf && 0 <= b.nkey < |b.chi|
            && (forall i :: 0 <= i <= b.nkey ==> b.chi[i] != null && b.chi[i] in h && b.chi[i] != q)
            && Tree(N, Adopted(h1, b, q), root, Split(p, q)) && SameKeys(h, Adopted(h1, b, q))
            && Adopted(h1, b, q)[q].lo == At(t.key[N / 2])
            && Adopted(h1, b, q)[p].level == h[p].level && Adopted(h1, b, q)[root].level == h[root].level
  {
    TempIsOk(N, h, root, pend, p, j, t);
    HalvesHold(N, h, p, t, q);
    SplitIs(N, h, p, t, q);
    ParentSplitKeepsTree(N, h, root, pend, p, j, t, q);
    ParentSplitKeys(N, h, root, pend, p, j, t, q);
    if root != p {
      OtherRecord(N, h, p, t, q, root);
    }
    hide Tree, SameKeys, TempOk, Adopted;
  }

  lemma ParentSplitKeys(N: Fanout, h: Heap, root: Node, pend: Pending, p: Node, j: nat, t: Rec, q: Node)
    requires Splitting(N, h, root, pend, p, j, t) && TempOk(N, h, p, t) && q !in h
    ensures SameKeys(h, ParentSplit(N, h, p, t, q))
  {
    var h' := ParentSplit(N, h, p, t, q);
    forall n | n in h && n != p ensures h'[n] == h[n] || h'[n] == h[n].(parent := q) {
      OtherRecord(N, h, p, t, q, n);
    }
    hide Tree;
    LeavesCarry(h, h');
  }

  // The scan goes one slot too far: the first unused slot of the covering leaf holds k.
  ghost predicate BeyondHolds(h: Heap, k: int) {
    exists n :: n in h && h[n].isLeaf && Covers(h[n], k) && 0 <= h[n].nkey < |h[n].key| && h[n].key[h[n].nkey] == k
  }

  // What the scan of the covering leaf can see.
  lemma ScanDecides(N: Fanout, h: Heap, root: Node, n: Node, k: int)
    requires Tree(N, h, root, Nothing) && n in h && h[n].isLeaf && Covers(h[n], k)
    ensures 0 <= h[n].nkey <= |h[n].key|
    ensures Has(h, k) || BeyondHolds(h, k) <==> exists i :: 0 <= i <= h[n].nkey && i < |h[n].key| && h[n].key[i] == k
  {
    assert Base(N, h[n]);
    KeyIsInItsLeaf(N, h, root, Nothing, n, k);
    if BeyondHolds(h, k) {
      var m :| m in h && h[m].isLeaf && Covers(h[m], k) && 0 <= h[m].nkey < |h[m].key| && h[m].key[h[m].nkey] == k;
      assert Base(N, h[m]);
      CoverIsUnique(N, h, root, Nothing, n, m, k);
    }
  }

  // n is among the first i children.
  ghost predicate HeldBelow(r: Rec, i: nat, n: Node) {
    exists j :: 0 <= j < i && KidIs(r, j, n)
  }

  // The first i children have been given their new parent.
  ghost predicate AdoptedTo(h0: Heap, r: Rec, i: nat, right: Node, h: Heap) {
    forall n {:trigger h[n]} :: n in h0 && n in h ==> h[n] == if HeldBelow(r, i, n) then h0[n].(parent := right)
      else h0[n]
  }

  lemma NoneHeldBelow(r: Rec)
    ensures forall n: Node :: !HeldBelow(r, 0, n)
  {
  }

  lemma AdoptedAll(h0: Heap, r: Rec, right: Node, h: Heap)
    requires h.Keys == h0.Keys && AdoptedTo(h0, r, if r.nkey < 0 then 0 else r.nkey + 1, right, h) && 0 <= r.nkey
    ensures h == Adopted(h0, r, right)
  {
    forall n: Node ensures HeldBelow(r, r.nkey + 1, n) == HasKid(r, n) {
    }
  }

  lemma HeldBelowMore(r: Rec, i: nat, c: Node)
    requires i <= r.nkey < |r.chi| && r.chi[i] == c
    ensures forall n: Node :: HeldBelow(r, i + 1, n) <==> HeldBelow(r, i, n) || n == c
  {
    assert KidIs(r, i, c);
    forall n: Node ensures HeldBelow(r, i + 1, n) <==> HeldBelow(r, i, n) || n == c {
      if HeldBelow(r, i, n) {
        var j :| 0 <= j < i && KidIs(r, j, n);
        assert 0 <= j < i + 1 && KidIs(r, j, n);
      }
    }
  }

  lemma RootCoversAll(N: Fanout, h: Heap, root: Node, k: int)
    requires Tree(N, h, root, Nothing)
    ensures root in h && Covers(h[root], k)
  {
    assert Place(N, h, root, Nothing, root);
  }
}
