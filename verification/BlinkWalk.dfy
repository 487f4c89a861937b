/**
 What the invariant gives: move_right ends at the covering node, separators are the
 exact high keys of the children, and each level is one chain of right links.
 */
module BlinkWalk {
  import opened Slots
  import opened BlinkState
  import opened BlinkShape

  // ---- move_right

  ghost function Rights(h: Heap, n: Node): set<Node>
    requires n in h
  {
    set m | m in h && h[m].level == h[n].level && Lt(h[n].low, h[m].low)
  }

  lemma RightIsFurther(N: Fanout, h: Heap, n: Node)
    requires AllBase(N, h) && n in h && h[n].right != null
    ensures var m: Node := h[n].right; m in h && h[m].level == h[n].level && Rights(h, m) < Rights(h, n)
  {
    assert Base(N, h, h[n]);
    var m: Node := h[n].right;
    assert m in Rights(h, n) && m !in Rights(h, m);
  }

  // Where move_right stops.
  ghost function Walk(N: Fanout, h: Heap, n: Node, k: int): Node
    requires AllBase(N, h) && n in h
    decreases Rights(h, n)
  {
    if h[n].right == null || h[n].high >= k then n
    else
      RightIsFurther(N, h, n);
      Walk(N, h, h[n].right, k)
  }

  // From any node that starts below k, move_right ends at the node of that level covering k.
  lemma {:induction false} WalkCovers(N: Fanout, h: Heap, n: Node, k: int)
    requires AllBase(N, h) && n in h && Below(h[n].low, k)
    ensures var m := Walk(N, h, n, k); m in h && h[m].level == h[n].level && Covers(h[m], k)
    decreases Rights(h, n)
  {
    if h[n].right != null && h[n].high < k {
      RightIsFurther(N, h, n);
      assert Base(N, h, h[n]);
      WalkCovers(N, h, h[n].right, k);
    }
  }

  // ---- separators are exact

  // v lies in the range (low, high] of r, the last node having no upper end.
  predicate Within(r: Rec, v: int) {
    (r.low.At? ==> r.low.v <= v) && (r.right != null ==> v < r.high)
  }

  // A node that starts inside the range of n, one level down, is a child of n.
  lemma StartsInside(N: Fanout, h: Heap, root: Node, n: Node, m: Node)
    requires Tree(N, h, root, null) && n in h && !h[n].isLeaf && m in h && h[m].level + 1 == h[n].level
    requires h[m].low.At? && Within(h[n], h[m].low.v)
    ensures h[m].parent == n && HasKid(h[n], m)
  {
    assert Place(N, h, root, null, n) && Place(N, h, root, null, m);
    assert Home(h, m);
    var q: Node := h[m].parent;
    var i :| KidIs(h[q], i, m);
    assert Kids(h, q, h[q]) && KidAt(h, q, h[q], i);
    assert Base(N, h, h[q]) && Base(N, h, h[n]);
    assert i > 0 ==> Below(h[q].low, h[q].key[i - 1]);
    assert i > 0 && h[q].right != null ==> h[q].key[i - 1] < h[q].high;
    assert Apart(h, q, n) && Apart(h, n, q);
  }

  // Child j of n ends exactly where child j + 1 starts, and is linked to it; its high key is key[j].
  lemma SeparatorIsHighKey(N: Fanout, h: Heap, root: Node, n: Node, j: nat)
    requires Tree(N, h, root, null) && n in h && !h[n].isLeaf && Kids(h, n, h[n]) && j < h[n].nkey
    ensures KidAt(h, n, h[n], j) && KidAt(h, n, h[n], j + 1)
    ensures var c := h[n].chi[j].node; h[c].right == h[n].chi[j + 1].node && h[c].high == h[n].key[j]
  {
    var r := h[n];
    assert KidAt(h, n, r, j) && KidAt(h, n, r, j + 1);
    var c, d := r.chi[j].node, r.chi[j + 1].node;
    assert Base(N, h, r) && Base(N, h, h[c]);
    assert j > 0 ==> r.key[j - 1] < r.key[j];
    assert Apart(h, c, d);
    var m: Node := h[c].right;
    if m != d {
      assert Apart(h, m, d) && Apart(h, d, m);
      StartsInside(N, h, root, n, m);
      NoKidBetween(h, n, j, m);
    }
  }

  lemma NoKidBetween(h: Heap, n: Node, j: nat, m: Node)
    requires n in h && !h[n].isLeaf && Kids(h, n, h[n]) && j <= h[n].nkey && Ascending(h[n].key, h[n].nkey)
    requires forall i :: 0 <= i < h[n].nkey ==> Below(h[n].low, h[n].key[i])
    requires HasKid(h[n], m)
    ensures m in h
    ensures Lt(Sep(h[n], j), h[m].low) ==> j < h[n].nkey && Le(At(h[n].key[j]), h[m].low)
  {
    var r := h[n];
    var i :| KidIs(r, i, m);
    assert KidAt(h, n, r, i);
    if i <= j {
      if 0 < i < j { assert r.key[i - 1] < r.key[j - 1]; }
    } else if j + 1 < i {
      assert r.key[j] < r.key[i - 1];
    }
  }

  // The last child of n ends where n ends.
  lemma LastKidEndsAtHighKey(N: Fanout, h: Heap, root: Node, n: Node)
    requires Tree(N, h, root, null) && n in h && !h[n].isLeaf && Kids(h, n, h[n])
    ensures KidAt(h, n, h[n], h[n].nkey)
    ensures var c := h[n].chi[h[n].nkey].node;
            && (h[n].right == null <==> h[c].right == null)
            && (h[n].right != null ==> h[c].high == h[n].high)
  {
    var r := h[n];
    assert KidAt(h, n, r, r.nkey);
    var c := r.chi[r.nkey].node;
    assert Base(N, h, r) && Base(N, h, h[c]);
    if r.right != null {
      LastKidReaches(N, h, root, n, c);
    } else if h[c].right != null {
      var m: Node := h[c].right;
      StartsInside(N, h, root, n, m);
      NoKidBetween(h, n, r.nkey, m);
    }
  }

  lemma LastKidReaches(N: Fanout, h: Heap, root: Node, n: Node, c: Node)
    requires Tree(N, h, root, null) && n in h && !h[n].isLeaf && Kids(h, n, h[n]) && h[n].right != null
    requires Base(N, h, h[n]) && KidAt(h, n, h[n], h[n].nkey) && c == h[n].chi[h[n].nkey].node
    ensures h[c].right != null && h[c].high == h[n].high
  {
    var r := h[n];
    var s: Node := r.right;
    assert Base(N, h, h[s]) && Kids(h, s, h[s]);
    assert KidAt(h, s, h[s], 0);
    var d := h[s].chi[0].node;
    assert Base(N, h, h[c]);
    assert r.nkey > 0 ==> r.key[r.nkey - 1] < r.high;
    assert Apart(h, c, d);
    var m: Node := h[c].right;
    if m != d {
      assert Apart(h, m, d) && Apart(h, d, m);
      StartsInside(N, h, root, n, m);
      NoKidBetween(h, n, r.nkey, m);
    }
  }

  lemma TreeKids(N: Fanout, h: Heap, root: Node, n: Node)
    requires Tree(N, h, root, null) && n in h
    ensures Kids(h, n, h[n]) && Base(N, h, h[n])
  {
  }

  lemma RootCoversAll(N: Fanout, h: Heap, root: Node, k: int)
    requires Tree(N, h, root, null)
    ensures root in h && h[root].low == Bot && h[root].right == null && Covers(h[root], k)
  {
    assert Place(N, h, root, null, root) && Base(N, h, h[root]);
    if h[root].right != null {
      OnlyRootIsTop(N, h, root, h[root].right);
    }
  }

  lemma OnlyRootIsTop(N: Fanout, h: Heap, root: Node, m: Node)
    requires Tree(N, h, root, null) && m in h
    ensures m == root || h[m].level < h[root].level
  {
    assert Place(N, h, root, null, m);
  }

  // In a quiescent tree the child that find_leaf picks covers the key, if the node does.
  lemma ChildCovers(N: Fanout, h: Heap, root: Node, n: Node, k: int, j: nat)
    requires Tree(N, h, root, null) && n in h && !h[n].isLeaf && Kids(h, n, h[n]) && Covers(h[n], k)
    requires j <= h[n].nkey && (j > 0 ==> h[n].key[j - 1] < k) && (j < h[n].nkey ==> k <= h[n].key[j])
    ensures KidAt(h, n, h[n], j) && Covers(h[h[n].chi[j].node], k)
  {
    assert KidAt(h, n, h[n], j);
    if j < h[n].nkey {
      SeparatorIsHighKey(N, h, root, n, j);
    } else {
      LastKidEndsAtHighKey(N, h, root, n);
    }
  }
}
