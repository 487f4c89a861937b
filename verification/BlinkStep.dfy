/**
 What the in-place operations of the B-link tree compute, as functions on node
 records, and the records that come out of them.
 */
module BlinkStep {
  import opened Slots
  import opened BlinkState
  import opened BlinkShape

  // A key and its data pointer put in order into a leaf.
  function AddKey(r: Rec, k: int, p: Ptr): Rec
    requires 0 <= r.nkey < |r.key| && r.nkey < |r.chi|
  {
    var j := FirstAbove(r.key, r.nkey, k);
    r.(key := PutAt(r.key, r.nkey, j, k), chi := PutAt(r.chi, r.nkey, j, p), nkey := r.nkey + 1)
  }

  // insert_in_leaf also raises high_key.
  function LeafInserted(r: Rec, k: int, p: Ptr): Rec
    requires 0 <= r.nkey < |r.key| && r.nkey < |r.chi|
  {
    AddKey(r, k, p).(high := if r.high < k then k else r.high)
  }

  // A separator put in order into an internal node, the new child to its right.
  function AddSep(r: Rec, k: int, c: Node): Rec
    requires 0 <= r.nkey < |r.key| && r.nkey + 1 < |r.chi|
  {
    var j := FirstAbove(r.key, r.nkey, k);
    r.(key := PutAt(r.key, r.nkey, j, k), chi := PutAt(r.chi, r.nkey + 1, j + 1, Kid(c)),
       nkey := r.nkey + 1, pub := if r.pub < r.nkey + 2 then r.nkey + 2 else r.pub)
  }

  // The TEMP copy of a full node: one more slot in both arrays.
  function Wide(r: Rec): Rec {
    r.(key := r.key + [0], chi := r.chi + [Null])
  }

  function Nulls(n: nat): (s: seq<Ptr>)
    ensures |s| == n
  {
    seq(n, i => Null)
  }

  // Left and right half of a split leaf; t is the TEMP with the new key, m the new leaf.
  function LeftLeaf(N: Fanout, r: Rec, t: Rec, m: Node): Rec
    requires |r.key| == N - 1 && |r.chi| == N && |t.key| == N && |t.chi| == N + 1
  {
    r.(nkey := N / 2, key := t.key[..N / 2] + r.key[N / 2..], chi := t.chi[..N / 2] + r.chi[N / 2..],
       high := t.key[N / 2 - 1], right := m)
  }

  function RightLeaf(N: Fanout, r: Rec, t: Rec): Rec
    requires |t.key| == N && |t.chi| == N + 1
  {
    Rec(true, t.key[N / 2..] + Zeros(N / 2 - 1), t.chi[N / 2..N] + Nulls(N / 2), N / 2, r.high,
        r.right, r.parent, 0, At(t.key[N / 2 - 1]), 0)
  }

  // Left and right half of a split internal node; the middle key t.key[N/2 - 1] moves up.
  function LeftInternal(N: Fanout, r: Rec, t: Rec, m: Node): Rec
    requires |r.key| == N - 1 && |r.chi| == N && |t.key| == N && |t.chi| == N + 1
  {
    r.(nkey := N / 2 - 1, key := t.key[..N / 2 - 1] + r.key[N / 2 - 1..],
       chi := t.chi[..N / 2] + r.chi[N / 2..], high := t.key[N / 2 - 1], right := m)
  }

  function RightInternal(N: Fanout, r: Rec, t: Rec): Rec
    requires |t.key| == N && |t.chi| == N + 1
  {
    Rec(false, t.key[N / 2..] + Zeros(N / 2 - 1), t.chi[N / 2..] + Nulls(N / 2 - 1), N / 2, r.high,
        r.right, r.parent, r.level, At(t.key[N / 2 - 1]), N / 2 + 1)
  }

  // A root over two children.
  function RootRec(N: Fanout, level: nat, lc: Node, k: int, rc: Node): Rec {
    Rec(false, [k] + Zeros(N - 2), [Kid(lc), Kid(rc)] + Nulls(N - 2), 1, 0, null, null, level, Bot, 2)
  }

  // ---- keys stay in order

  lemma AddKeyAscends(r: Rec, k: int, p: Ptr)
    requires 0 <= r.nkey < |r.key| && r.nkey < |r.chi| && Ascending(r.key, r.nkey)
    requires forall i :: 0 <= i < r.nkey ==> r.key[i] != k
    ensures Ascending(AddKey(r, k, p).key, r.nkey + 1)
  {
    var j := FirstAbove(r.key, r.nkey, k);
    var s := PutAt(r.key, r.nkey, j, k);
    forall a, b | 0 <= a < b < r.nkey + 1 ensures s[a] < s[b] {
      if a < j && j < b { assert r.key[a] < k; }
    }
  }

  // The pairs of key and pointer are the old ones and the new one.
  lemma AddKeyPairs(r: Rec, k: int, p: Ptr, k': int, p': Ptr)
    requires 0 <= r.nkey < |r.key| && r.nkey < |r.chi| && r.isLeaf
    ensures InLeaf(AddKey(r, k, p), k', p') <==> InLeaf(r, k', p') || (k' == k && p' == p)
  {
    hide PutAt, FirstAbove;
    var j := FirstAbove(r.key, r.nkey, k);
    var t := AddKey(r, k, p);
    assert PairAt(t, j, k, p);
    if InLeaf(r, k', p') {
      var i :| PairAt(r, i, k', p');
      assert PairAt(t, if i < j then i else i + 1, k', p');
    }
    if InLeaf(t, k', p') {
      var i :| PairAt(t, i, k', p');
      assert i == j || PairAt(r, if i < j then i else i - 1, k', p');
    }
  }

  // The two halves of a split leaf hold the pairs of the TEMP.
  lemma SplitLeafPairs(N: Fanout, r: Rec, t: Rec, m: Node, k: int, p: Ptr)
    requires |r.key| == N - 1 && |r.chi| == N && |t.key| == N && |t.chi| == N + 1
    requires r.isLeaf && t.isLeaf && t.nkey == N
    ensures InLeaf(t, k, p) <==> InLeaf(LeftLeaf(N, r, t, m), k, p) || InLeaf(RightLeaf(N, r, t), k, p)
  {
    var a, b := LeftLeaf(N, r, t, m), RightLeaf(N, r, t);
    if InLeaf(t, k, p) {
      var i :| PairAt(t, i, k, p);
      assert PairAt(a, i, k, p) || PairAt(b, i - N / 2, k, p);
    }
    if InLeaf(a, k, p) {
      var i :| PairAt(a, i, k, p);
      assert PairAt(t, i, k, p);
    }
    if InLeaf(b, k, p) {
      var i :| PairAt(b, i, k, p);
      assert PairAt(t, i + N / 2, k, p);
    }
  }

  // ---- a new separator in an internal node

  // k fits strictly into child slot j.
  ghost predicate Fits(r: Rec, k: int, j: nat) {
    && j <= r.nkey <= |r.key|
    && (j > 0 ==> r.key[j - 1] < k)
    && (j < r.nkey ==> k < r.key[j])
  }

  // Placing by key finds the slot of the left child.
  lemma PlacedByKey(r: Rec, k: int, j: nat)
    requires 0 <= r.nkey <= |r.key| && Ascending(r.key, r.nkey) && Fits(r, k, j)
    ensures FirstAbove(r.key, r.nkey, k) == j
  {
    forall i | 0 <= i < j ensures r.key[i] <= k {
      if i < j - 1 { assert r.key[i] < r.key[j - 1]; }
    }
    FirstAboveIs(r.key, r.nkey, k, j);
  }

  lemma AddSepAscends(r: Rec, k: int, c: Node, j: nat)
    requires 0 <= r.nkey < |r.key| && r.nkey + 1 < |r.chi| && Ascending(r.key, r.nkey) && Fits(r, k, j)
    ensures var t := AddSep(r, k, c); Ascending(t.key, t.nkey)
  {
    hide PutAt, FirstAbove;
    PlacedByKey(r, k, j);
    var s := PutAt(r.key, r.nkey, j, k);
    forall a, b | 0 <= a < b < r.nkey + 1 ensures s[a] < s[b] {
      if a < j - 1 && j == b { assert r.key[a] < r.key[j - 1]; }
      if a == j && j + 1 < b { assert r.key[j] < r.key[b - 1]; }
    }
  }

  // Every key slot keeps its key, takes the key to its left, or takes k; none rises.
  lemma AddSepSlots(r: Rec, k: int, c: Node, j: nat, i: nat)
    requires 0 <= r.nkey < |r.key| && r.nkey + 1 < |r.chi| && Ascending(r.key, r.nkey) && Fits(r, k, j)
    requires i <= r.nkey
    ensures var t := AddSep(r, k, c);
            && (t.key[i] == k || (i < r.nkey && t.key[i] == r.key[i]) || (i > 0 && t.key[i] == r.key[i - 1]))
            && (i < r.nkey ==> t.key[i] <= r.key[i])
  {
    hide PutAt, FirstAbove;
    PlacedByKey(r, k, j);
    if j < i < r.nkey { assert r.key[i - 1] < r.key[i]; }
  }

  lemma AddSepKids(h: Heap, n: Node, r: Rec, k: int, c: Node, j: nat)
    requires !r.isLeaf && 0 <= r.nkey < |r.key| && r.nkey + 1 < |r.chi| && Ascending(r.key, r.nkey) && Fits(r, k, j)
    requires Kids(h, n, r)
    requires c in h && h[c].level + 1 == r.level && h[c].low == At(k) && h[c].parent == n
    ensures Kids(h, n, AddSep(r, k, c))
    ensures HasKid(AddSep(r, k, c), c)
    ensures forall m :: HasKid(r, m) ==> HasKid(AddSep(r, k, c), m)
    ensures forall m :: HasKid(AddSep(r, k, c), m) ==> m == c || HasKid(r, m)
  {
    hide PutAt, FirstAbove;
    PlacedByKey(r, k, j);
    var t := AddSep(r, k, c);
    forall i: nat | i <= t.nkey ensures KidAt(h, n, t, i) {
      if i <= j {
        assert KidAt(h, n, r, i);
      } else if i > j + 1 {
        assert KidAt(h, n, r, i - 1);
      }
    }
    assert KidIs(t, j + 1, c);
    forall m | HasKid(r, m) ensures HasKid(t, m) {
      var i :| KidIs(r, i, m);
      assert KidIs(t, if i <= j then i else i + 1, m);
    }
    forall m | HasKid(t, m) ensures m == c || HasKid(r, m) {
      var i :| KidIs(t, i, m);
      assert i == j + 1 || KidIs(r, if i <= j then i else i - 1, m);
    }
  }

  // ---- high_key of a leaf

  // No used key is above high_key. Where there is a right link, high_key is the last used key.
  ghost predicate HighCovers(r: Rec) {
    forall i :: 0 <= i < r.nkey && i < |r.key| ==> r.key[i] <= r.high
  }

  // insert_in_leaf raises high_key to the new key, and no further.
  lemma InsertRaisesHigh(r: Rec, k: int, p: Ptr)
    requires 0 <= r.nkey < |r.key| && r.nkey < |r.chi| && r.isLeaf
    ensures k <= LeafInserted(r, k, p).high && r.high <= LeafInserted(r, k, p).high
    ensures LeafInserted(r, k, p).high in {k, r.high}
    ensures HighCovers(r) ==> HighCovers(LeafInserted(r, k, p))
  {
    hide PutAt, FirstAbove;
    var j := FirstAbove(r.key, r.nkey, k);
    var t := LeafInserted(r, k, p);
    if HighCovers(r) {
      forall i | 0 <= i < t.nkey ensures t.key[i] <= t.high {
        assert i < j ==> t.key[i] == r.key[i];
        assert i > j ==> t.key[i] == r.key[i - 1];
      }
    }
  }

  // The TEMP of a leaf split: in order, and its last key is the larger of the last one and the new one.
  lemma TempKeys(N: Fanout, r: Rec, k: int, p: Ptr)
    requires r.isLeaf && |r.key| == N - 1 && |r.chi| == N && r.nkey == N - 1 && Ascending(r.key, r.nkey)
    requires forall i :: 0 <= i < r.nkey ==> r.key[i] != k
    ensures var t := AddKey(Wide(r), k, p).key;
      |t| == N && Ascending(t, N) && t[N - 1] == if r.key[N - 2] < k then k else r.key[N - 2]
  {
    var w := Wide(r);
    assert forall i :: 0 <= i < r.nkey ==> w.key[i] == r.key[i];
    AddKeyAscends(w, k, p);
    hide Ascending;
  }

  /**
   A split hands the old high_key to the right half, whatever the new key: it covers the right
   half's keys exactly if it was not below the new key. The left half's always does.
   */
  lemma SplitHigh(N: Fanout, r: Rec, k: int, p: Ptr, m: Node)
    requires r.isLeaf && |r.key| == N - 1 && |r.chi| == N && r.nkey == N - 1 && Ascending(r.key, r.nkey)
    requires HighCovers(r) && forall i :: 0 <= i < r.nkey ==> r.key[i] != k
    ensures var t := AddKey(Wide(r), k, p);
      HighCovers(LeftLeaf(N, r, t, m)) && (HighCovers(RightLeaf(N, r, t)) <==> k <= r.high)
  {
    TempKeys(N, r, k, p);
    hide AddKey;
    var t := AddKey(Wide(r), k, p);
    LeftHigh(N, r, t, m);
    RightHigh(N, r, t);
    assert r.key[N - 2] <= r.high;
    hide LeftLeaf, RightLeaf, HighCovers;
  }

  lemma LeftHigh(N: Fanout, r: Rec, t: Rec, m: Node)
    requires |r.key| == N - 1 && |r.chi| == N && |t.key| == N && |t.chi| == N + 1 && Ascending(t.key, N)
    ensures HighCovers(LeftLeaf(N, r, t, m))
  {
    var a := LeftLeaf(N, r, t, m);
    forall i | 0 <= i < a.nkey ensures a.key[i] <= a.high {
      assert i < N / 2 - 1 ==> t.key[i] < t.key[N / 2 - 1];
    }
  }

  lemma RightHigh(N: Fanout, r: Rec, t: Rec)
    requires |t.key| == N && |t.chi| == N + 1 && Ascending(t.key, N)
    ensures HighCovers(RightLeaf(N, r, t)) <==> t.key[N - 1] <= r.high
  {
    var b := RightLeaf(N, r, t);
    assert b.key[N / 2 - 1] == t.key[N - 1];
    forall i | 0 <= i < N / 2 ensures b.key[i] <= t.key[N - 1] {
      assert N / 2 + i < N - 1 ==> t.key[N / 2 + i] < t.key[N - 1];
    }
  }

  // In the last leaf, the key that splits it can be above high_key, and high_key then lags behind.
  lemma HighCanLag(N: Fanout, r: Rec, k: int, p: Ptr)
    requires r.isLeaf && |r.key| == N - 1 && |r.chi| == N && r.nkey == N - 1 && Ascending(r.key, r.nkey)
    requires r.key[N - 2] == r.high < k
    ensures var b := RightLeaf(N, r, AddKey(Wide(r), k, p)); b.key[N / 2 - 1] == k && b.high == r.high < k
  {
    var w := Wide(r);
    assert forall i :: 0 <= i < r.nkey ==> w.key[i] == r.key[i] && (i < r.nkey - 1 ==> r.key[i] < r.key[N - 2]);
    FirstAboveIs(w.key, w.nkey, k, N - 1);
  }
}
