/**
 What one step of a B+ tree insertion does to the heap, and that the tree stays a tree.
 */
module BpStep {
  import opened Slots
  import opened BpShape

  // ---- the records

  function AddKey(r: Rec, k: int): Rec
    requires 0 <= r.nkey < |r.key|
  {
    r.(key := PutAt(r.key, r.nkey, FirstAbove(r.key, r.nkey, k), k), nkey := r.nkey + 1)
  }

  // A separator at key slot j, the new child to its right.
  function AddSep(r: Rec, j: nat, k: int, c: Node): Rec
    requires j <= r.nkey < |r.key| && r.nkey + 1 < |r.chi|
  {
    r.(key := PutAt(r.key, r.nkey, j, k), chi := PutAt(r.chi, r.nkey + 1, j + 1, c), nkey := r.nkey + 1)
  }

  // The TEMP copy of a full node: one more slot in both arrays.
  function Wide(r: Rec): Rec {
    r.(key := r.key + [0], chi := r.chi + [null])
  }

  // The halves of a split leaf; t is the TEMP with the new key.
  function LeftLeaf(N: Fanout, r: Rec, t: Rec): Rec
    requires |t.key| == N
  {
    r.(key := t.key[..N / 2] + Zeros(N / 2 - 1), chi := NoKids(N), nkey := N / 2, hi := At(t.key[N / 2]))
  }

  function RightLeaf(N: Fanout, r: Rec, t: Rec): Rec
    requires |t.key| == N
  {
    Rec(true, t.key[N / 2..] + Zeros(N / 2 - 1), NoKids(N), N / 2, r.parent, 0, At(t.key[N / 2]), r.hi)
  }

  // The halves of a split internal node; the middle key t.key[N/2] moves up.
  function LeftInternal(N: Fanout, r: Rec, t: Rec): Rec
    requires |t.key| == N && |t.chi| == N + 1
  {
    r.(key := t.key[..N / 2] + Zeros(N / 2 - 1), chi := t.chi[..N / 2 + 1] + NoKids(N / 2 - 1), nkey := N / 2,
       hi := At(t.key[N / 2]))
  }

  function RightInternal(N: Fanout, r: Rec, t: Rec): Rec
    requires |t.key| == N && |t.chi| == N + 1
  {
    Rec(false, t.key[N / 2 + 1..] + Zeros(N / 2), t.chi[N / 2 + 1..] + NoKids(N / 2), N / 2 - 1, r.parent, r.level,
        At(t.key[N / 2]), r.hi)
  }

  // A root over two children.
  function RootRec(N: Fanout, level: nat, lc: Node, k: int, rc: Node): Rec {
    Rec(false, [k] + Zeros(N - 2), [lc, rc] + NoKids(N - 2), 1, null, level, Open, Open)
  }

  // ---- keys of a record

  lemma AddKeyAscends(r: Rec, k: int)
    requires 0 <= r.nkey < |r.key| && Ascending(r.key, r.nkey) && forall i :: 0 <= i < r.nkey ==> r.key[i] != k
    ensures Ascending(AddKey(r, k).key, r.nkey + 1)
  {
    var j := FirstAbove(r.key, r.nkey, k);
    var s := PutAt(r.key, r.nkey, j, k);
    forall a, b | 0 <= a < b < r.nkey + 1 ensures s[a] < s[b] {
      if a < j && j < b { assert r.key[a] < k; }
    }
  }

  lemma AddKeyKeys(r: Rec, k: int, k': int)
    requires 0 <= r.nkey < |r.key| && r.isLeaf
    ensures KeyIn(AddKey(r, k), k') <==> KeyIn(r, k') || k' == k
  {
    hide PutAt, FirstAbove;
    var j := FirstAbove(r.key, r.nkey, k);
    var t := AddKey(r, k);
    assert t.key[j] == k;
    if KeyIn(r, k') {
      var i :| 0 <= i < r.nkey && r.key[i] == k';
      assert t.key[if i < j then i else i + 1] == k';
    }
    if KeyIn(t, k') {
      var i :| 0 <= i < t.nkey && t.key[i] == k';
      assert i == j || r.key[if i < j then i else i - 1] == k';
    }
  }

  lemma AddSepAscends(r: Rec, j: nat, k: int, c: Node)
    requires 0 <= r.nkey < |r.key| && r.nkey + 1 < |r.chi| && Ascending(r.key, r.nkey) && Fits(r, k, j)
    ensures var t := AddSep(r, j, k, c); Ascending(t.key, t.nkey)
  {
    hide PutAt;
    var s := PutAt(r.key, r.nkey, j, k);
    forall a, b | 0 <= a < b < r.nkey + 1 ensures s[a] < s[b] {
      if a < j - 1 && j == b { assert r.key[a] < r.key[j - 1]; }
      if a == j && j + 1 < b { assert r.key[j] < r.key[b - 1]; }
      if a < j < b { assert j > 0 && r.key[a] <= r.key[j - 1]; assert r.key[b - 1] >= r.key[j]; }
    }
  }

  // ---- frames

  // c looks the same to its parent.
  ghost predicate Same(h: Heap, pend: Pending, h': Heap, pend': Pending, c: Node)
    requires (pend.Split? ==> pend.right in h) && (pend'.Split? ==> pend'.right in h')
  {
    && c in h && c in h'
    && h'[c].level == h[c].level && h'[c].lo == h[c].lo && h'[c].parent == h[c].parent
    && Known(h', pend', c) == Known(h, pend, c)
  }

  lemma KidsCarry(h: Heap, pend: Pending, h': Heap, pend': Pending, n: Node, r: Rec, r': Rec)
    requires (pend.Split? ==> pend.right in h) && (pend'.Split? ==> pend'.right in h')
    requires Kids(h, pend, n, r)
    requires r'.isLeaf == r.isLeaf && r'.level == r.level && r'.key == r.key && r'.chi == r.chi && r'.nkey == r.nkey
    requires r'.lo == r.lo && r'.hi == r.hi
    requires forall c {:trigger Same(h, pend, h', pend', c)} :: c in h && HasKid(r, c) ==> Same(h, pend, h', pend', c)
    ensures Kids(h', pend', n, r')
  {
    if !r.isLeaf {
      forall j: nat | j <= r'.nkey ensures KidAt(h', pend', n, r', j) {
        assert KidAt(h, pend, n, r, j);
        assert KidIs(r, j, r.chi[j]);
        assert Same(h, pend, h', pend', r.chi[j]);
      }
    }
  }

  // The parent keeps its children.
  lemma HomeCarries(h: Heap, h': Heap, n: Node)
    requires n in h && n in h' && Home(h, n) && h'[n].parent == h[n].parent
    requires h[n].parent in h' && h'[h[n].parent].isLeaf == h[h[n].parent].isLeaf
    requires HasKid(h[h[n].parent], n) ==> HasKid(h'[h[n].parent], n)
    ensures Home(h', n)
  {
  }

  // One range was cut in two, at the key that starts the new node.
  lemma CutKeepsApart(h: Heap, h': Heap, n: Node, m: Node)
    requires AllApart(h) && n in h && n in h' && m !in h && h'.Keys == h.Keys + {m}
    requires forall c :: c in h && c != n ==> h'[c].level == h[c].level && h'[c].lo == h[c].lo && h'[c].hi == h[c].hi
    requires h'[n].level == h[n].level == h'[m].level && h'[n].lo == h[n].lo && h'[m].hi == h[n].hi
    requires h'[m].lo.At? && h'[n].hi == h'[m].lo
    requires (h[n].lo.At? ==> h[n].lo.v < h'[m].lo.v) && (h[n].hi.At? ==> h'[m].lo.v < h[n].hi.v)
    ensures AllApart(h')
  {
    forall a, b | a in h' && b in h' ensures Apart(h', a, b) {
      var a0, b0 := if a == m then n else a, if b == m then n else b;
      assert Apart(h, a0, b0);
    }
  }

  // ---- a key into a leaf with room

  ghost predicate LeafGets(N: Fanout, h: Heap, root: Node, leaf: Node, k: int) {
    && Tree(N, h, root, Nothing)
    && leaf in h && h[leaf].isLeaf && Covers(h[leaf], k) && !KeyIn(h[leaf], k)
  }

  lemma InsertKeepsTree(N: Fanout, h: Heap, root: Node, leaf: Node, k: int)
    requires LeafGets(N, h, root, leaf, k) && 0 <= h[leaf].nkey < N - 1 == |h[leaf].key|
    ensures Tree(N, h[leaf := AddKey(h[leaf], k)], root, Nothing)
  {
    var r := h[leaf];
    var h' := h[leaf := AddKey(r, k)];
    assert Base(N, r);
    AddKeyAscends(r, k);
    forall i | 0 <= i < r.nkey + 1 ensures Covers(h'[leaf], h'[leaf].key[i]) {
      assert KeyIn(AddKey(r, k), h'[leaf].key[i]);
      AddKeyKeys(r, k, h'[leaf].key[i]);
    }
    assert Base(N, h'[leaf]);
    hide AddKey;
    forall n | n in h' ensures Kids(h', Nothing, n, h'[n]) && Place(N, h', root, Nothing, n) {
      assert Kids(h, Nothing, n, h[n]) && Place(N, h, root, Nothing, n);
      if !h[n].isLeaf {
        KidsCarry(h, Nothing, h', Nothing, n, h[n], h'[n]);
      }
    }
    forall n, m | n in h' && m in h' ensures Apart(h', n, m) {
      assert Apart(h, n, m);
    }
  }
}
