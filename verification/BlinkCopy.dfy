/**
 The copying of an internal split: both halves of the TEMP and the parent fields
 of the children.
 */
module BlinkCopy {
  import opened Slots
  import opened BlinkState
  import opened BlinkShape
  import opened BlinkStep
  import opened BlinkCascade
  import opened BlinkMemory
  import opened BlinkStores
  import opened BlinkNode

  // ---- the parent fields of the children of n

  ghost predicate KidBefore(r: Rec, i: int, x: Node) {
    exists j :: 0 <= j < i && KidIs(r, j, x)
  }

  // The first i children of record r have n as their parent.
  ghost function Adopt(h: Heap, r: Rec, i: int, n: Node): Heap {
    map x | x in h :: if KidBefore(r, i, x) then h[x].(parent := n) else h[x]
  }

  lemma AdoptLoop(h: Heap, r: Rec, i: int, n: Node)
    requires 0 <= i <= r.nkey < |r.chi| && r.chi[i].Kid? && r.chi[i].node in h
    ensures Adopt(h, r, 0, n) == h
    ensures var c := r.chi[i].node; Adopt(h, r, i, n)[c := Adopt(h, r, i, n)[c].(parent := n)] == Adopt(h, r, i + 1, n)
  {
    var c := r.chi[i].node;
    assert KidIs(r, i, c);
    forall x | x in h ensures KidBefore(r, i + 1, x) <==> KidBefore(r, i, x) || x == c {
      if x == c { assert KidBefore(r, i + 1, x); }
    }
  }

  lemma AdoptAll(h: Heap, r: Rec, n: Node, x: Node)
    ensures KidBefore(r, r.nkey + 1, x) <==> HasKid(r, x)
  {
  }

  // The parent loop of both copies; n is not its own child.
  method AdoptChildren(mem: Memory, n: Node)
    requires mem.Valid() && n in mem.h && 0 <= mem.h[n].nkey < |mem.h[n].chi|
    requires forall j {:trigger mem.h[n].chi[j]} :: 0 <= j <= mem.h[n].nkey ==>
               mem.h[n].chi[j].Kid? && mem.h[n].chi[j].node in mem.h && mem.h[n].chi[j].node != n
    modifies mem`h, mem`hist, mem.h.Keys`parent
    ensures mem.Valid() && old(mem.hist) <= mem.hist
    ensures mem.h == Adopt(old(mem.h), old(mem.h)[n], old(mem.h)[n].nkey + 1, n)
  {
    hide Memory.Valid, Adopt;
    ghost var h0, r := mem.h, mem.h[n];
    ghost var hist0 := mem.hist;
    var i := 0;
    mem.Look(n);
    var nkey := n.nkey;
    AdoptLoop(h0, r, 0, n);
    while i < nkey + 1
      invariant 0 <= i <= nkey + 1 && nkey == r.nkey
      invariant mem.Valid() && hist0 <= mem.hist
      invariant mem.h == Adopt(h0, r, i, n) && mem.h.Keys == h0.Keys && mem.h[n] == r
    {
      AdoptLoop(h0, r, i, n);
      mem.Look(n);
      mem.SetParent(n.chi[i].node, n);
      AdoptKeys(h0, r, i + 1, n);
      i := i + 1;
    }
  }

  lemma AdoptKeys(h: Heap, r: Rec, i: int, n: Node)
    ensures Adopt(h, r, i, n).Keys == h.Keys
    ensures n in h && !KidBefore(r, i, n) ==> Adopt(h, r, i, n)[n] == h[n]
  {
  }

  // ---- the right half

  // The right half as it is before its links are set.
  function Unlinked(r: Rec): Rec {
    r.(high := 0, right := null)
  }

  lemma RightReady(N: Fanout, h: Heap, p: Node, m: Node, t: Rec, rc: Node, x: Rec)
    requires p in h && m !in h && TempOk(N, h, p, h[p], t, rc) && AllBase(N, h)
    ensures h[p].level > 0 && RecOk(N, h[m := x], Unlinked(RightInternal(N, h[p], t)))
  {
    var q := Unlinked(RightInternal(N, h[p], t));
    assert Base(N, h, h[p]);
    forall j: nat | j <= N / 2 ensures SlotOk(h, q, j) {
      assert KidAt(h, p, t, j + N / 2);
      assert Base(N, h, h[t.chi[j + N / 2].node]);
    }
    assert RecOk(N, h, q);
    NewTargets(N, h, m, x, q);
  }

  lemma PubOf(N: Fanout, r: Rec, t: Rec)
    requires |t.key| == N && |t.chi| == N + 1
    ensures RightInternal(N, r, t).pub == N / 2 + 1
  {
  }

  lemma RightChild(N: Fanout, h: Heap, p: Node, t: Rec, rc: Node, j: nat)
    requires p in h && TempOk(N, h, p, h[p], t, rc) && j <= N / 2
    ensures var c := RightInternal(N, h[p], t).chi[j]; c.Kid? && c.node in h
  {
    assert KidAt(h, p, t, j + N / 2);
  }

  lemma RightSlots(N: Fanout, r: Rec, t: Rec)
    requires |t.key| == N && |t.chi| == N + 1
    ensures Fill(Zeros(N - 1), t.key, N / 2, N) == RightInternal(N, r, t).key
    ensures Fill(Nulls(N), t.chi, N / 2, N)[N / 2 := t.chi[N]] == RightInternal(N, r, t).chi
  {
    var a, b := Fill(Nulls(N), t.chi, N / 2, N)[N / 2 := t.chi[N]], RightInternal(N, r, t).chi;
    assert forall x :: 0 <= x < |a| ==> a[x] == b[x];
    var c, d := Fill(Zeros(N - 1), t.key, N / 2, N), RightInternal(N, r, t).key;
    assert forall x :: 0 <= x < |c| ==> c[x] == d[x];
  }

  method CopyRightSlots(mem: Memory, temp: Temp, right: Node, ghost r: Rec, ghost t: Rec)
    requires mem.Valid() && mem.MayStore(right) && right in mem.h && |t.key| == mem.N && |t.chi| == mem.N + 1
    requires temp.key == t.key && temp.chi == t.chi && r.level > 0
    requires mem.h[right] == Rec(false, Zeros(mem.N - 1), Nulls(mem.N), 0, 0, null, r.parent, r.level,
      At(t.key[mem.N / 2 - 1]), 0)
    modifies mem`h, mem`hist, right
    ensures mem.Valid() && old(mem.hist) <= mem.hist
    ensures mem.h == old(mem.h)[right := Unlinked(RightInternal(mem.N, r, t)).(pub := 0)]
  {
    hide Memory.Valid, Fill;
    RightSlots(mem.N, r, t);
    mem.SetNkey(right, 0, 0);
    CopyUpperHalf(mem, temp, right);
    mem.SetChi(right, mem.N / 2, temp.chi[mem.N]);
  }

  method CopyFromTempToRightParent(mem: Memory, temp: Temp, right: Node, ghost h: Heap, ghost p: Node, ghost t: Rec,
    ghost rc: Node)
    requires p in h && right !in h && TempOk(mem.N, h, p, h[p], t, rc) && AllBase(mem.N, h)
    requires mem.Valid() && mem.MayStore(right) && temp.key == t.key && temp.chi == t.chi
    requires mem.h == h[right := Rec(false, Zeros(mem.N - 1), Nulls(mem.N), 0, 0, null, h[p].parent, h[p].level,
      At(t.key[mem.N / 2 - 1]), 0)]
    modifies mem`h, mem`hist, mem.h.Keys
    ensures mem.Valid() && old(mem.hist) <= mem.hist
    ensures var q := Unlinked(RightInternal(mem.N, h[p], t));
            mem.h == Adopt(h[right := q], q, q.nkey + 1, right)
  {
    hide Memory.Valid;
    ghost var q := Unlinked(RightInternal(mem.N, h[p], t));
    RightReady(mem.N, h, p, right, t, rc, q.(pub := 0));
    forall j | 0 <= j <= q.nkey ensures q.chi[j].Kid? && q.chi[j].node in h {
      RightChild(mem.N, h, p, t, rc, j);
    }
    hide TempOk, AllBase, RecOk, RightInternal, Zeros, Nulls;
    CopyRightSlots(mem, temp, right, h[p], t);
    assert mem.h == h[right := q.(pub := 0)];
    assert mem.h[right].(pub := mem.N / 2 + 1) == q by {
      PubOf(mem.N, h[p], t);
    }
    mem.Publish(right, mem.N / 2 + 1);
    assert mem.h == h[right := q];
    AdoptChildren(mem, right);
  }

  // ---- the left half

  method CopyLeftLoop(mem: Memory, temp: Temp, left: Node, ghost h0: Heap, ghost r: Rec, ghost t: Rec)
    requires mem.Valid() && mem.MayStore(left) && left in h0 && h0[left] == r && LeftReady(mem.N, h0, r, t)
    requires temp.key == t.key && temp.chi == t.chi
    requires mem.h == h0[left := Halving(mem.N, r, t, mem.N / 2 - 1, mem.N / 2)]
    requires RecStep(r, Halving(mem.N, r, t, mem.N / 2 - 1, mem.N / 2))
    modifies mem`h, mem`hist, left
    ensures mem.Valid() && old(mem.hist) <= mem.hist
    ensures mem.h == h0[left := Halving(mem.N, r, t, 0, 1)] && RecStep(r, Halving(mem.N, r, t, 0, 1))
  {
    hide Memory.Valid, Splice;
    ghost var hist0 := mem.hist;
    var i := mem.N / 2 - 2;
    while i >= 0
      invariant -1 <= i <= mem.N / 2 - 2
      invariant mem.Valid() && hist0 <= mem.hist
      invariant mem.h == h0[left := Halving(mem.N, r, t, i + 1, i + 2)]
        && RecStep(r, Halving(mem.N, r, t, i + 1, i + 2))
    {
      CopyLeftSlot(mem, temp, left, i, h0, r, t);
      i := i - 1;
    }
  }

  // Child before key.
  method CopyLeftSlot(mem: Memory, temp: Temp, left: Node, i: nat, ghost h0: Heap, ghost r: Rec, ghost t: Rec)
    requires mem.Valid() && mem.MayStore(left) && left in h0 && h0[left] == r && LeftReady(mem.N, h0, r, t)
    requires temp.key == t.key && temp.chi == t.chi && i <= mem.N / 2 - 2
    requires mem.h == h0[left := Halving(mem.N, r, t, i + 1, i + 2)] && RecStep(r, Halving(mem.N, r, t, i + 1, i + 2))
    modifies mem`h, mem`hist, left`key, left`chi
    ensures mem.Valid() && old(mem.hist) <= mem.hist
    ensures mem.h == h0[left := Halving(mem.N, r, t, i, i + 1)] && RecStep(r, Halving(mem.N, r, t, i, i + 1))
  {
    hide Memory.Valid, Splice;
    SpliceLoop(r.chi, t.chi, i + 2, mem.N / 2);
    SpliceLoop(r.key, t.key, i + 1, mem.N / 2 - 1);
    HalvingIsReadable(mem.N, h0, r, t, i + 1, i + 1);
    HalvingIsReadable(mem.N, h0, r, t, i, i + 1);
    HalvingKeyFalls(mem.N, h0, r, t, i + 1, i + 1);
    hide RecOk;
    StoreChi(mem, left, i + 1, temp.chi[i + 1], h0, Halving(mem.N, r, t, i + 1, i + 2),
      Halving(mem.N, r, t, i + 1, i + 1));
    StoreKey(mem, left, i, temp.key[i], h0, Halving(mem.N, r, t, i + 1, i + 1), Halving(mem.N, r, t, i, i + 1));
  }

  lemma HalvingEnds(N: Fanout, h: Heap, r: Rec, t: Rec, left: Node)
    requires LeftReady(N, h, r, t)
    ensures Halving(N, r, t, N / 2 - 1, N / 2) == r.(nkey := N / 2 - 1)
    ensures RecOk(N, h, r.(nkey := N / 2 - 1)) && RecStep(r, r.(nkey := N / 2 - 1))
    ensures Halving(N, r, t, 0, 1).chi[0 := t.chi[0]] == Halving(N, r, t, 0, 0).chi
    ensures Halving(N, r, t, 0, 0) == LeftInternal(N, r, t, left).(high := r.high, right := r.right)
  {
    hide Splice;
    HalvingIsReadable(N, h, r, t, N / 2 - 1, N / 2);
    SpliceLoop(r.key, t.key, N / 2 - 1, N / 2 - 1);
    SpliceLoop(r.chi, t.chi, N / 2, N / 2);
    SpliceLoop(r.chi, t.chi, 1, N / 2);
    SpliceLoop(r.chi, t.chi, 0, N / 2);
    SpliceLoop(r.key, t.key, 0, N / 2 - 1);
  }

  method CopyLeftSlots(mem: Memory, temp: Temp, left: Node, ghost t: Rec)
    requires mem.Valid() && mem.MayStore(left) && left in mem.h && LeftReady(mem.N, mem.h, mem.h[left], t)
    requires temp.key == t.key && temp.chi == t.chi
    modifies mem`h, mem`hist, left
    ensures mem.Valid() && old(mem.hist) <= mem.hist
    ensures var r, N := old(mem.h)[left], mem.N;
            mem.h == old(mem.h)[left := LeftInternal(N, r, t, left).(high := r.high, right := r.right)]
  {
    hide Memory.Valid, Splice;
    ghost var h0, r := mem.h, mem.h[left];
    HalvingEnds(mem.N, h0, r, t, left);
    SameTargets(mem.N, h0, left, r, r.(nkey := mem.N / 2 - 1));
    assert h0[left := r] == h0;
    HalvingIsReadable(mem.N, h0, r, t, 0, 0);
    hide RecOk;
    mem.SetNkey(left, mem.N / 2 - 1, mem.N);
    CopyLeftLoop(mem, temp, left, h0, r, t);
    StoreChi(mem, left, 0, temp.chi[0], h0, Halving(mem.N, r, t, 0, 1), Halving(mem.N, r, t, 0, 0));
  }

  // The children on the left have this parent already.
  lemma AdoptedAlready(h: Heap, n: Node, r: Rec, i: int)
    requires Kids(h, n, r) && !r.isLeaf && i <= r.nkey + 1
    ensures Adopt(h, r, i, n) == h
  {
    forall x | x in h && KidBefore(r, i, x) ensures h[x].parent == n {
      var j :| 0 <= j < i && KidIs(r, j, x);
      assert KidAt(h, n, r, j);
    }
  }

  method CopyFromTempToLeftParent(mem: Memory, temp: Temp, left: Node, ghost t: Rec)
    requires mem.Valid() && mem.MayStore(left) && left in mem.h && LeftReady(mem.N, mem.h, mem.h[left], t)
    requires temp.key == t.key && temp.chi == t.chi
    requires var q := LeftInternal(mem.N, mem.h[left], t, left); Kids(mem.h, left, q) && !HasKid(q, left)
    modifies mem`h, mem`hist, mem.h.Keys
    ensures mem.Valid() && old(mem.hist) <= mem.hist
    ensures var r, N := old(mem.h)[left], mem.N;
            mem.h == old(mem.h)[left := LeftInternal(N, r, t, left).(high := r.high, right := r.right)]
  {
    hide Memory.Valid;
    ghost var h0, r := mem.h, mem.h[left];
    ghost var q := LeftInternal(mem.N, r, t, left).(high := r.high, right := r.right);
    LeftKidsAdopted(mem.N, h0, left, r, t);
    hide LeftInternal, LeftReady, Kids, HasKid, Adopt;
    CopyLeftSlots(mem, temp, left, t);
    assert mem.h[left] == q;
    AdoptChildren(mem, left);
  }

  lemma LeftKidsAdopted(N: Fanout, h: Heap, n: Node, r: Rec, t: Rec)
    requires n in h && h[n] == r && LeftReady(N, h, r, t)
    requires var q := LeftInternal(N, r, t, n); Kids(h, n, q) && !HasKid(q, n)
    ensures var q := LeftInternal(N, r, t, n).(high := r.high, right := r.right);
            && 0 <= q.nkey < |q.chi|
            && Adopt(h[n := q], q, q.nkey + 1, n) == h[n := q]
            && forall j {:trigger q.chi[j]} :: 0 <= j <= q.nkey ==>
              q.chi[j].Kid? && q.chi[j].node in h && q.chi[j].node != n
  {
    var q0 := LeftInternal(N, r, t, n);
    var q := q0.(high := r.high, right := r.right);
    var h' := h[n := q];
    forall j: nat | j <= q.nkey ensures KidAt(h', n, q, j) && q.chi[j].node != n {
      assert KidAt(h, n, q0, j);
      assert KidIs(q0, j, q0.chi[j].node);
    }
    AdoptedAlready(h', n, q, q.nkey + 1);
    forall j | 0 <= j <= q.nkey ensures q.chi[j].Kid? && q.chi[j].node in h && q.chi[j].node != n {
      assert KidAt(h', n, q, j);
    }
  }
}
