/**
 Between two stores to a node that descents can see, the node stays readable:
 child before key, from the highest slot down, nkey last.
 */
module BlinkStores {
  import opened Slots
  import opened BlinkState
  import opened BlinkShape
  import opened BlinkStep

  // ---- finalize_parent

  // Loop of finalize_parent: key slots above a and child slots above b are shifted.
  function Shifting(r: Rec, a: nat, b: nat): Rec
    requires 0 <= a <= r.nkey < |r.key| && b <= r.nkey + 1 < |r.chi|
  {
    r.(key := Shift(r.key, r.nkey, a), chi := Shift(r.chi, r.nkey + 1, b))
  }

  // A seen key slot is not below its left neighbour, stale slots included.
  lemma SlotsAscend(r: Rec, x: nat)
    requires Keys(r) && Stale(r) && !r.isLeaf && 0 < x <= r.nkey && x < |r.key| && x < r.pub - 1
    ensures r.key[x - 1] <= r.key[x]
  {
    assert StaleSlot(r, x);
  }

  lemma ShiftingIsReadable(N: Fanout, h: Heap, r: Rec, a: nat, b: nat)
    requires Base(N, h, r) && !r.isLeaf && r.pub > 0 && a <= r.nkey < N - 1
    requires b == a + 1 || (b == a && a > 0)
    ensures RecOk(N, h, Shifting(r, a, b))
  {
    hide Shift;
    var q := Shifting(r, a, b);
    forall x: nat | x < q.pub ensures SlotOk(h, q, x) {
      if x <= b || x > r.nkey + 1 {
        assert SlotOk(h, r, x);
      } else {
        assert SlotOk(h, r, x - 1);
        if x == a + 1 && x <= r.nkey + 1 {
          SlotsAscend(r, a);
        }
      }
    }
  }

  lemma ShiftingSteps(N: Fanout, h: Heap, r: Rec, a: nat, b: nat)
    requires Base(N, h, r) && !r.isLeaf && r.pub > 0 && 0 < a <= r.nkey < N - 1 && b <= r.nkey + 1
    ensures RecStep(Shifting(r, a, b), Shifting(r, a - 1, b))
  {
    hide Shift;
    if a < r.pub - 1 {
      SlotsAscend(r, a);
    }
  }

  // What finalize_parent relies on.
  ghost predicate TakesSep(N: Fanout, h: Heap, n: Node, k: int, c: Node) {
    && n in h && Base(N, h, h[n]) && !h[n].isLeaf && h[n].nkey < N - 1
    && Covers(h[n], k) && (h[n].right != null ==> k < h[n].high)
    && c in h && h[c].level + 1 == h[n].level && h[c].low == At(k) && Published(h[c])
    && RecOk(N, h, AddSep(h[n], k, c))
  }

  // All but the last store: the child in its slot, and then the key.
  function WithChild(r: Rec, j: nat, c: Node): Rec
    requires j <= r.nkey < |r.key| && r.nkey + 1 < |r.chi|
  {
    r.(key := Shift(r.key, r.nkey, j), chi := PutAt(r.chi, r.nkey + 1, j + 1, Kid(c)))
  }

  function WithKey(r: Rec, j: nat, k: int, c: Node): Rec
    requires j <= r.nkey < |r.key| && r.nkey + 1 < |r.chi|
  {
    r.(key := PutAt(r.key, r.nkey, j, k), chi := PutAt(r.chi, r.nkey + 1, j + 1, Kid(c)))
  }

  // The key that slot j held until now is not below k.
  lemma OldKeyAbove(N: Fanout, h: Heap, n: Node, k: int, c: Node, j: nat)
    requires TakesSep(N, h, n, k, c) && j == FirstAbove(h[n].key, h[n].nkey, k) && j < h[n].pub - 1
    ensures k <= h[n].key[j]
  {
    assert StaleSlot(h[n], j);
  }

  lemma WithChildIsReadable(N: Fanout, h: Heap, n: Node, k: int, c: Node, j: nat)
    requires TakesSep(N, h, n, k, c) && j == FirstAbove(h[n].key, h[n].nkey, k)
    ensures RecOk(N, h, WithChild(h[n], j, c)) && RecStep(Shifting(h[n], j, j + 1), WithChild(h[n], j, c))
  {
    hide Shift, PutAt, FirstAbove;
    var r, q := h[n], WithChild(h[n], j, c);
    forall x: nat | x < q.pub ensures SlotOk(h, q, x) {
      if x == j + 1 {
        OldKeyAbove(N, h, n, k, c, j);
      } else {
        assert SlotOk(h, r, if x <= j || x > r.nkey + 1 then x else x - 1);
      }
    }
  }

  lemma WithKeyIsReadable(N: Fanout, h: Heap, n: Node, k: int, c: Node, j: nat)
    requires TakesSep(N, h, n, k, c) && j == FirstAbove(h[n].key, h[n].nkey, k)
    ensures RecOk(N, h, WithKey(h[n], j, k, c))
    ensures RecStep(WithChild(h[n], j, c), WithKey(h[n], j, k, c))
    ensures RecStep(WithKey(h[n], j, k, c), AddSep(h[n], k, c))
  {
    hide Shift, PutAt, FirstAbove;
    var r, q := h[n], WithKey(h[n], j, k, c);
    forall x: nat | x < q.pub ensures SlotOk(h, q, x) {
      if x != j + 1 {
        assert SlotOk(h, r, if x <= j || x > r.nkey + 1 then x else x - 1);
      }
    }
    if j < r.pub - 1 {
      OldKeyAbove(N, h, n, k, c, j);
    }
  }

  // ---- copy_from_temp_to_left_parent

  // s with slots a..m taken from t.
  function Splice<T>(s: seq<T>, t: seq<T>, a: nat, m: nat): (q: seq<T>)
    requires a <= m <= |s| && m <= |t|
    ensures |q| == |s|
    ensures forall x {:trigger q[x]} :: a <= x < m ==> q[x] == t[x]
    ensures forall x {:trigger q[x]} :: 0 <= x < a || m <= x < |s| ==> q[x] == s[x]
  {
    s[..a] + t[a..m] + s[m..]
  }

  lemma SpliceLoop<T>(s: seq<T>, t: seq<T>, a: nat, m: nat)
    requires a <= m <= |s| && m <= |t|
    ensures Splice(s, t, m, m) == s && Splice(s, t, 0, m) == t[..m] + s[m..]
    ensures a > 0 ==> Splice(s, t, a, m)[a - 1 := t[a - 1]] == Splice(s, t, a - 1, m)
  {
    hide Splice;
  }

  // Key slots from a on and child slots from b on, within the left half, come from t.
  function Halving(N: Fanout, r: Rec, t: Rec, a: nat, b: nat): Rec
    requires |r.key| == N - 1 && |r.chi| == N && |t.key| == N && |t.chi| == N + 1
    requires a <= N / 2 - 1 && b <= N / 2
  {
    r.(nkey := N / 2 - 1, key := Splice(r.key, t.key, a, N / 2 - 1), chi := Splice(r.chi, t.chi, b, N / 2))
  }

  // The left half of the TEMP in the heap that the copy runs in.
  ghost predicate LeftReady(N: Fanout, h: Heap, r: Rec, t: Rec) {
    && RecOk(N, h, r) && !r.isLeaf && r.pub == N
    && |t.key| == N && |t.chi| == N + 1
    && t.level == r.level && t.low == r.low
    && (forall i :: 0 <= i < N / 2 ==> t.key[i] <= r.key[i])
    && (forall j: nat :: j < N / 2 ==> SlotOk(h, t, j))
  }

  lemma HalvingIsReadable(N: Fanout, h: Heap, r: Rec, t: Rec, a: nat, b: nat)
    requires LeftReady(N, h, r, t) && a <= N / 2 - 1 && (b == a || b == a + 1)
    ensures RecOk(N, h, Halving(N, r, t, a, b))
  {
    hide Splice;
    var q := Halving(N, r, t, a, b);
    forall x: nat | x < q.pub ensures SlotOk(h, q, x) {
      if b <= x < N / 2 {
        assert SlotOk(h, t, x);
      } else {
        assert SlotOk(h, r, x);
      }
    }
  }

  lemma HalvingKeyFalls(N: Fanout, h: Heap, r: Rec, t: Rec, a: nat, b: nat)
    requires LeftReady(N, h, r, t) && 0 < a <= N / 2 - 1 && b <= N / 2
    ensures RecStep(Halving(N, r, t, a, b), Halving(N, r, t, a - 1, b))
  {
    hide Splice;
  }
}
