/**
 What each step of an insertion does to the stored pairs of key and data pointer.
 */
module BlinkPairs {
  import opened Slots
  import opened BlinkState
  import opened BlinkShape
  import opened BlinkStep
  import opened BlinkSplit
  import opened BlinkCascade

  // Exactly one pair was added.
  ghost predicate OneMore(h: Heap, h': Heap, k: int, a: int) {
    && (forall k', a' :: Stored(h', k', a') <==> Stored(h, k', a') || (k' == k && a' == a))
    && (forall k' :: Has(h', k') <==> Has(h, k') || k' == k)
  }

  // Nothing was added or lost: the steps above the leaves.
  ghost predicate SameStored(h: Heap, h': Heap) {
    && (forall k', a' :: Stored(h', k', a') <==> Stored(h, k', a'))
    && (forall k' :: Has(h', k') <==> Has(h, k'))
  }

  // ---- above the leaves

  predicate SamePairs(r: Rec, r': Rec) {
    r'.isLeaf == r.isLeaf && (r.isLeaf ==> r'.key == r.key && r'.chi == r.chi && r'.nkey == r.nkey)
  }

  lemma LeavesUntouched(h: Heap, h': Heap)
    requires h.Keys <= h'.Keys
    requires forall n {:trigger SamePairs(h[n], h'[n])} :: n in h && n in h' ==> SamePairs(h[n], h'[n])
    requires forall n :: n in h' && n !in h ==> !h'[n].isLeaf
    ensures SameStored(h, h')
  {
    forall k', a' ensures Stored(h', k', a') <==> Stored(h, k', a') {
      if Stored(h, k', a') {
        var n :| n in h && InLeaf(h[n], k', Item(a'));
        SameIn(h[n], h'[n], k', Item(a'));
      }
      if Stored(h', k', a') {
        var n :| n in h' && InLeaf(h'[n], k', Item(a'));
        SameIn(h[n], h'[n], k', Item(a'));
      }
    }
    forall k' ensures Has(h', k') <==> Has(h, k') {
      if Has(h, k') {
        var n :| n in h && KeyIn(h[n], k');
        SameIn(h[n], h'[n], k', Null);
      }
      if Has(h', k') {
        var n :| n in h' && KeyIn(h'[n], k');
        SameIn(h[n], h'[n], k', Null);
      }
    }
  }

  lemma SameIn(r: Rec, r': Rec, k: int, p: Ptr)
    requires SamePairs(r, r')
    ensures InLeaf(r, k, p) <==> InLeaf(r', k, p)
    ensures KeyIn(r, k) <==> KeyIn(r', k)
  {
    forall j ensures PairAt(r, j, k, p) && r.isLeaf <==> PairAt(r', j, k, p) && r'.isLeaf {
    }
  }

  lemma InternalChange(h: Heap, n: Node, r: Rec)
    requires n in h && !h[n].isLeaf && !r.isLeaf
    ensures SameStored(h, h[n := r])
  {
    LeavesUntouched(h, h[n := r]);
  }

  lemma GrowthPairs(N: Fanout, h: Heap, lc: Node, rc: Node, nr: Node)
    requires lc in h && rc in h && nr !in h && lc != rc
    ensures SameStored(h, Grown(N, h, lc, rc, nr))
  {
    LeavesUntouched(h, Grown(N, h, lc, rc, nr));
  }

  lemma InternalSplitPairs(N: Fanout, h: Heap, p: Node, m: Node, t: Rec)
    requires p in h && |h[p].key| == N - 1 && |h[p].chi| == N && |t.key| == N && |t.chi| == N + 1
    requires m !in h && !h[p].isLeaf
    ensures SameStored(h, InternalSplit(N, h, p, m, t))
  {
    LeavesUntouched(h, InternalSplit(N, h, p, m, t));
  }

  // ---- in the leaves

  lemma AddKeyHas(r: Rec, k: int, p: Ptr, k': int)
    requires 0 <= r.nkey < |r.key| && r.nkey < |r.chi| && r.isLeaf
    ensures KeyIn(AddKey(r, k, p), k') <==> KeyIn(r, k') || k' == k
  {
    hide PutAt, FirstAbove;
    var j := FirstAbove(r.key, r.nkey, k);
    var t := AddKey(r, k, p);
    assert t.key[j] == k;
    if KeyIn(r, k') {
      var i :| 0 <= i < r.nkey && i < |r.key| && r.key[i] == k';
      assert t.key[if i < j then i else i + 1] == k';
    }
    if KeyIn(t, k') {
      var i :| 0 <= i < t.nkey && i < |t.key| && t.key[i] == k';
      assert i == j || r.key[if i < j then i else i - 1] == k';
    }
  }

  lemma SplitLeafHas(N: Fanout, r: Rec, t: Rec, m: Node, k: int)
    requires |r.key| == N - 1 && |r.chi| == N && |t.key| == N && |t.chi| == N + 1
    requires r.isLeaf && t.isLeaf && t.nkey == N
    ensures KeyIn(t, k) <==> KeyIn(LeftLeaf(N, r, t, m), k) || KeyIn(RightLeaf(N, r, t), k)
  {
    var a, b := LeftLeaf(N, r, t, m), RightLeaf(N, r, t);
    if KeyIn(t, k) {
      var i :| 0 <= i < N && t.key[i] == k;
      assert i < N / 2 ==> a.key[i] == k;
      assert i >= N / 2 ==> b.key[i - N / 2] == k;
    }
    if KeyIn(a, k) {
      var i :| 0 <= i < a.nkey && i < |a.key| && a.key[i] == k;
      assert t.key[i] == k;
    }
    if KeyIn(b, k) {
      var i :| 0 <= i < b.nkey && i < |b.key| && b.key[i] == k;
      assert t.key[i + N / 2] == k;
    }
  }

  lemma LeafInsertPairs(h: Heap, n: Node, k: int, a: int)
    requires n in h && h[n].isLeaf && 0 <= h[n].nkey < |h[n].key| && h[n].nkey < |h[n].chi|
    ensures OneMore(h, h[n := LeafInserted(h[n], k, Item(a))], k, a)
  {
    var r := h[n];
    var q := LeafInserted(r, k, Item(a));
    var h' := h[n := q];
    hide AddKey;
    forall k', a' ensures InLeaf(q, k', Item(a')) <==> InLeaf(r, k', Item(a')) || (k' == k && a' == a) {
      AddKeyPairs(r, k, Item(a), k', Item(a'));
      SameIn(AddKey(r, k, Item(a)), q, k', Item(a'));
    }
    forall k' ensures KeyIn(q, k') <==> KeyIn(r, k') || k' == k {
      AddKeyHas(r, k, Item(a), k');
      SameIn(AddKey(r, k, Item(a)), q, k', Null);
    }
    hide InLeaf, KeyIn, LeafInserted;
    LeafChange(h, h', n, n, k, a);
  }

  // One leaf r becomes leaves n and m (possibly the same) that together hold one more pair.
  lemma LeafChange(h: Heap, h': Heap, n: Node, m: Node, k: int, a: int)
    requires n in h && n in h' && m in h' && h'.Keys == h.Keys + {m} && (m == n || m !in h)
    requires forall x :: x in h && x != n ==> h'[x] == h[x]
    requires forall k', a' ::
      InLeaf(h'[n], k', Item(a')) || InLeaf(h'[m], k', Item(a')) <==> InLeaf(h[n], k', Item(a')) || (k' == k && a' == a)
    requires forall k' :: KeyIn(h'[n], k') || KeyIn(h'[m], k') <==> KeyIn(h[n], k') || k' == k
    ensures OneMore(h, h', k, a)
  {
    hide InLeaf, KeyIn;
    forall k', a' ensures Stored(h', k', a') <==> Stored(h, k', a') || (k' == k && a' == a) {
      if Stored(h, k', a') {
        var x :| x in h && InLeaf(h[x], k', Item(a'));
        assert x != n ==> InLeaf(h'[x], k', Item(a'));
      }
      if Stored(h', k', a') {
        var x :| x in h' && InLeaf(h'[x], k', Item(a'));
        assert x != n && x != m ==> InLeaf(h[x], k', Item(a'));
      }
    }
    forall k' ensures Has(h', k') <==> Has(h, k') || k' == k {
      if Has(h, k') {
        var x :| x in h && KeyIn(h[x], k');
        assert x != n ==> KeyIn(h'[x], k');
      }
      if Has(h', k') {
        var x :| x in h' && KeyIn(h'[x], k');
        assert x != n && x != m ==> KeyIn(h[x], k');
      }
    }
  }

  lemma WideIn(r: Rec, k: int, p: Ptr)
    requires r.nkey <= |r.key| && r.nkey <= |r.chi|
    ensures InLeaf(r, k, p) <==> InLeaf(Wide(r), k, p)
    ensures KeyIn(r, k) <==> KeyIn(Wide(r), k)
  {
    var w := Wide(r);
    forall j ensures PairAt(r, j, k, p) <==> PairAt(w, j, k, p) {
    }
    if KeyIn(r, k) {
      var i :| 0 <= i < r.nkey && i < |r.key| && r.key[i] == k;
      assert w.key[i] == k;
    }
    if KeyIn(w, k) {
      var i :| 0 <= i < w.nkey && i < |w.key| && w.key[i] == k;
      assert r.key[i] == k;
    }
  }

  lemma LeafSplitPairs(N: Fanout, h: Heap, n: Node, m: Node, k: int, a: int)
    requires n in h && h[n].isLeaf && h[n].nkey == N - 1 && |h[n].key| == N - 1 && |h[n].chi| == N && m !in h
    ensures var t := AddKey(Wide(h[n]), k, Item(a));
            OneMore(h, h[n := LeftLeaf(N, h[n], t, m)][m := RightLeaf(N, h[n], t)], k, a)
  {
    var r := h[n];
    var w := Wide(r);
    var t := AddKey(w, k, Item(a));
    var x, y := LeftLeaf(N, r, t, m), RightLeaf(N, r, t);
    forall k', a'
      ensures InLeaf(x, k', Item(a')) || InLeaf(y, k', Item(a')) <==> InLeaf(r, k', Item(a')) || (k' == k && a' == a)
    {
      hide AddKey, Wide, LeftLeaf, RightLeaf, InLeaf;
      AddKeyPairs(w, k, Item(a), k', Item(a'));
      WideIn(r, k', Item(a'));
      SplitLeafPairs(N, r, t, m, k', Item(a'));
    }
    forall k' ensures KeyIn(x, k') || KeyIn(y, k') <==> KeyIn(r, k') || k' == k {
      hide AddKey, Wide, LeftLeaf, RightLeaf, KeyIn;
      AddKeyHas(w, k, Item(a), k');
      WideIn(r, k', Null);
      SplitLeafHas(N, r, t, m, k');
    }
    hide InLeaf, KeyIn, AddKey, Wide, LeftLeaf, RightLeaf;
    LeafChange(h, h[n := x][m := y], n, m, k, a);
  }
}
