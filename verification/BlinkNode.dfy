/**
 The node operations of the B-link tree: in-place insertion and the copying of splits.
 */
module BlinkNode {
  import opened Slots
  import opened BlinkState
  import opened BlinkShape
  import opened BlinkStep
  import opened BlinkMemory
  import opened BlinkStores

  // The private TEMP of a split: one more slot than a node in both arrays.
  class Temp {
    var chi: seq<Ptr>
    var key: seq<int>
    var nkey: int

    constructor () {
      chi, key, nkey := [], [], 0;
    }
  }

  // The first used slot above key.
  method FindSlot(mem: Memory, n: Node, key: int) returns (i: nat)
    requires mem.Valid() && n in mem.h && 0 <= mem.h[n].nkey <= |mem.h[n].key|
    ensures i == FirstAbove(mem.h[n].key, mem.h[n].nkey, key)
  {
    hide FirstAbove, Memory.Valid;
    mem.Look(n);
    i := 0;
    while i < n.nkey
      invariant 0 <= i <= n.nkey
      invariant forall x :: 0 <= x < i ==> n.key[x] <= key
    {
      if key < n.key[i] { break; }
      i := i + 1;
    }
    FirstAboveIs(n.key, n.nkey, key, i);
  }

  // chi[i] and key[i] of a leaf, or of a node not shown yet: no descent reads them.
  method StoreHiddenSlot(mem: Memory, n: Node, i: nat, k: int, p: Ptr)
    requires mem.Valid() && mem.MayStore(n) && n in mem.h
    requires mem.h[n].pub == 0 && RecOk(mem.N, mem.h, mem.h[n]) && i < mem.N - 1
    modifies mem`h, mem`hist, mem.Leafy(n)`calm, n`key, n`chi
    ensures mem.Valid() && old(mem.hist) <= mem.hist
    ensures mem.h == old(mem.h)[n := old(mem.h)[n].(key := old(mem.h)[n].key[i := k], chi := old(mem.h)[n].chi[i := p])]
  {
    hide Memory.Valid;
    mem.SetChi(n, i, p);
    mem.SetKey(n, i, k);
  }

  // chi[i] of a node that descents may be reading; cur and next are its records before and after.
  method StoreChi(mem: Memory, n: Node, i: nat, v: Ptr, ghost h0: Heap, ghost cur: Rec, ghost next: Rec)
    requires mem.Valid() && mem.MayStore(n) && n in h0 && mem.h == h0[n := cur] && i < |cur.chi|
    requires next == cur.(chi := cur.chi[i := v])
    requires !cur.isLeaf && RecStep(h0[n], cur) && RecStep(cur, next) && RecOk(mem.N, h0, next)
    modifies mem`h, mem`hist, n`chi
    ensures mem.Valid() && old(mem.hist) <= mem.hist
    ensures mem.h == h0[n := next] && RecStep(h0[n], next)
  {
    hide Memory.Valid;
    SameTargets(mem.N, h0, n, cur, next);
    hide RecOk;
    mem.SetChi(n, i, v);
  }

  method StoreKey(mem: Memory, n: Node, i: nat, v: int, ghost h0: Heap, ghost cur: Rec, ghost next: Rec)
    requires mem.Valid() && mem.MayStore(n) && n in h0 && mem.h == h0[n := cur] && i < |cur.key|
    requires next == cur.(key := cur.key[i := v])
    requires !cur.isLeaf && RecStep(h0[n], cur) && RecStep(cur, next) && RecOk(mem.N, h0, next)
    modifies mem`h, mem`hist, n`key
    ensures mem.Valid() && old(mem.hist) <= mem.hist
    ensures mem.h == h0[n := next] && RecStep(h0[n], next)
  {
    hide Memory.Valid;
    SameTargets(mem.N, h0, n, cur, next);
    hide RecOk;
    mem.SetKey(n, i, v);
  }

  // The shifting loop of insert_in_leaf.
  method ShiftLeaf(mem: Memory, leaf: Node, i: nat)
    requires mem.Valid() && mem.MayStore(leaf) && leaf in mem.h
    requires var r := mem.h[leaf]; r.isLeaf && RecOk(mem.N, mem.h, r) && i <= r.nkey < mem.N - 1
    modifies mem`h, mem`hist, mem`calm, leaf`key, leaf`chi
    ensures mem.Valid() && old(mem.hist) <= mem.hist
    ensures var r := old(mem.h)[leaf];
            mem.h == old(mem.h)[leaf := r.(key := Shift(r.key, r.nkey, i), chi := Shift(r.chi, r.nkey, i))]
  {
    hide Memory.Valid, Shift, PutAt;
    ghost var h0, r := mem.h, mem.h[leaf];
    ghost var hist0 := mem.hist;
    mem.Look(leaf);
    var j := leaf.nkey;
    ShiftLoop(r.key, r.nkey, j, 0);
    ShiftLoop(r.chi, r.nkey, j, Null);
    while j > i
      invariant i <= j <= r.nkey
      invariant mem.Valid() && hist0 <= mem.hist
      invariant mem.h == h0[leaf := r.(key := Shift(r.key, r.nkey, j), chi := Shift(r.chi, r.nkey, j))]
    {
      ShiftLoop(r.key, r.nkey, j, 0);
      ShiftLoop(r.chi, r.nkey, j, Null);
      mem.Look(leaf);
      StoreHiddenSlot(mem, leaf, j, leaf.key[j - 1], leaf.chi[j - 1]);
      j := j - 1;
    }
  }

  // Both branches of insert_in_leaf shift above the first used slot that holds a larger key.
  method LeafSlot(mem: Memory, leaf: Node, key: int) returns (i: nat)
    requires mem.Valid() && leaf in mem.h && 0 <= mem.h[leaf].nkey < |mem.h[leaf].key|
    ensures i == FirstAbove(mem.h[leaf].key, mem.h[leaf].nkey, key)
  {
    hide FirstAbove, Memory.Valid;
    mem.Look(leaf);
    if key < leaf.key[0] {
      FirstAboveIs(leaf.key, leaf.nkey, key, 0);
      i := 0;
    } else {
      i := FindSlot(mem, leaf, key);
    }
  }

  method InsertInLeaf(mem: Memory, leaf: Node, key: int, data: Ptr)
    requires mem.Valid() && mem.MayStore(leaf) && leaf in mem.h
    requires var r := mem.h[leaf]; r.isLeaf && RecOk(mem.N, mem.h, r) && 0 <= r.nkey < mem.N - 1
    modifies mem`h, mem`hist, mem`calm, leaf
    ensures mem.Valid() && old(mem.hist) <= mem.hist
    ensures mem.h == old(mem.h)[leaf := LeafInserted(old(mem.h)[leaf], key, data)]
  {
    hide Memory.Valid, Shift, PutAt, FirstAbove;
    ghost var r := mem.h[leaf];
    var i := LeafSlot(mem, leaf, key);
    ShiftLeaf(mem, leaf, i);
    ShiftLoop(r.key, r.nkey, i, key);
    ShiftLoop(r.chi, r.nkey, i, data);
    StoreHiddenSlot(mem, leaf, i, key, data);
    CloseLeaf(mem, leaf, key);
  }

  // The new key counts, and may raise high_key.
  method CloseLeaf(mem: Memory, leaf: Node, key: int)
    requires mem.Valid() && mem.MayStore(leaf) && leaf in mem.h
    requires var r := mem.h[leaf]; r.isLeaf && RecOk(mem.N, mem.h, r)
    modifies mem`h, mem`hist, mem`calm, leaf`nkey, leaf`high_key, leaf`pub
    ensures mem.Valid() && old(mem.hist) <= mem.hist
    ensures var r := old(mem.h)[leaf];
            mem.h == old(mem.h)[leaf := r.(nkey := r.nkey + 1, high := if r.high < key then key else r.high)]
  {
    hide Memory.Valid;
    mem.Look(leaf);
    mem.SetNkey(leaf, leaf.nkey + 1, 0);
    mem.Look(leaf);
    if leaf.high_key < key {
      mem.SetHigh(leaf, key);
    }
  }

  // ---- the TEMP

  method CopyFromLeftToTemp(mem: Memory, temp: Temp, left: Node)
    requires mem.Valid() && left in mem.h && RecOk(mem.N, mem.h, mem.h[left])
    modifies temp
    ensures temp.key == mem.h[left].key + [0] && temp.chi == mem.h[left].chi + [Null] && temp.nkey == mem.N - 1
  {
    hide Memory.Valid;
    mem.Look(left);
    var N: int := mem.N;
    temp.chi, temp.key, temp.nkey := Nulls(N + 1), Zeros(N), 0;
    var i := 0;
    while i < N - 1
      invariant 0 <= i <= N - 1 && |temp.chi| == N + 1 && |temp.key| == N
      invariant temp.chi[..i] == left.chi[..i] && temp.key[..i] == left.key[..i]
      invariant temp.chi[N] == Null && temp.key[N - 1] == 0
    {
      temp.chi := temp.chi[i := left.chi[i]];
      temp.key := temp.key[i := left.key[i]];
      i := i + 1;
    }
    temp.chi := temp.chi[i := left.chi[i]];
    temp.nkey := N - 1;
    assert temp.key == temp.key[..N - 1] + [temp.key[N - 1]];
    assert temp.chi == temp.chi[..N - 1] + [temp.chi[N - 1]] + [temp.chi[N]];
    assert left.chi == left.chi[..N - 1] + [left.chi[N - 1]];
  }

  // The search loop over the TEMP.
  method FindTempSlot(temp: Temp, key: int) returns (i: nat)
    requires 0 <= temp.nkey <= |temp.key|
    ensures i == FirstAbove(temp.key, temp.nkey, key)
  {
    hide FirstAbove;
    i := 0;
    while i < temp.nkey
      invariant 0 <= i <= temp.nkey
      invariant forall x :: 0 <= x < i ==> temp.key[x] <= key
    {
      if key < temp.key[i] { break; }
      i := i + 1;
    }
    FirstAboveIs(temp.key, temp.nkey, key, i);
  }

  method InsertInTemp(temp: Temp, key: int, ptr: Ptr)
    requires 0 <= temp.nkey < |temp.key| && temp.nkey < |temp.chi|
    modifies temp
    ensures var j := FirstAbove(old(temp.key), old(temp.nkey), key);
            && temp.key == PutAt(old(temp.key), old(temp.nkey), j, key)
            && temp.chi == PutAt(old(temp.chi), old(temp.nkey), j, ptr)
    ensures temp.nkey == old(temp.nkey) + 1
  {
    hide Shift, PutAt, FirstAbove;
    ghost var ks, cs, n := temp.key, temp.chi, temp.nkey;
    var i := 0;
    if key < temp.key[0] {
      FirstAboveIs(ks, n, key, 0);
    } else {
      i := FindTempSlot(temp, key);
    }
    var j := temp.nkey;
    ShiftLoop(ks, n, j, key);
    ShiftLoop(cs, n, j, ptr);
    while j > i
      invariant i <= j <= n && temp.nkey == n
      invariant temp.key == Shift(ks, n, j) && temp.chi == Shift(cs, n, j)
    {
      ShiftLoop(ks, n, j, key);
      ShiftLoop(cs, n, j, ptr);
      temp.chi := temp.chi[j := temp.chi[j - 1]];
      temp.key := temp.key[j := temp.key[j - 1]];
      j := j - 1;
    }
    ShiftLoop(ks, n, i, key);
    ShiftLoop(cs, n, i, ptr);
    temp.chi := temp.chi[i := ptr];
    temp.key := temp.key[i := key];
    temp.nkey := temp.nkey + 1;
  }

  method FinalizeTemp(temp: Temp, right_child: Node, lm_key: int)
    requires 0 <= temp.nkey < |temp.key| && temp.nkey + 1 < |temp.chi|
    modifies temp
    ensures var j := FirstAbove(old(temp.key), old(temp.nkey), lm_key);
            && temp.key == PutAt(old(temp.key), old(temp.nkey), j, lm_key)
            && temp.chi == PutAt(old(temp.chi), old(temp.nkey) + 1, j + 1, Kid(right_child))
    ensures temp.nkey == old(temp.nkey) + 1
  {
    hide Shift, PutAt, FirstAbove;
    ghost var ks, cs, n := temp.key, temp.chi, temp.nkey;
    var lcid := FindTempSlot(temp, lm_key);
    var i := temp.nkey + 1;
    ShiftLoop(cs, n + 1, i, Kid(right_child));
    while i > lcid + 1
      invariant lcid + 1 <= i <= n + 1 && temp.nkey == n && temp.key == ks
      invariant temp.chi == Shift(cs, n + 1, i)
    {
      ShiftLoop(cs, n + 1, i, Kid(right_child));
      temp.chi := temp.chi[i := temp.chi[i - 1]];
      i := i - 1;
    }
    ShiftLoop(cs, n + 1, i, Kid(right_child));
    i := temp.nkey;
    ShiftLoop(ks, n, i, lm_key);
    while i > lcid
      invariant lcid <= i <= n && temp.nkey == n && temp.chi == Shift(cs, n + 1, lcid + 1)
      invariant temp.key == Shift(ks, n, i)
    {
      ShiftLoop(ks, n, i, lm_key);
      temp.key := temp.key[i := temp.key[i - 1]];
      i := i - 1;
    }
    ShiftLoop(ks, n, i, lm_key);
    temp.chi := temp.chi[lcid + 1 := Kid(right_child)];
    temp.key := temp.key[lcid := lm_key];
    temp.nkey := temp.nkey + 1;
  }

  // ---- finalize_parent

  // Its shifting loop: child before key, from the highest slot down.
  method ShiftParent(mem: Memory, parent: Node, lcid: nat)
    requires mem.Valid() && mem.MayStore(parent) && parent in mem.h
    requires var r := mem.h[parent]; Base(mem.N, mem.h, r) && !r.isLeaf && r.pub > 0 && lcid <= r.nkey < mem.N - 1
    requires |mem.h[parent].key| == mem.N - 1 && |mem.h[parent].chi| == mem.N
    modifies mem`h, mem`hist, parent`key, parent`chi
    ensures mem.Valid() && old(mem.hist) <= mem.hist
    ensures mem.h == old(mem.h)[parent := Shifting(old(mem.h)[parent], lcid, lcid + 1)]
    ensures RecStep(old(mem.h)[parent], mem.h[parent])
  {
    hide Memory.Valid, Shift, PutAt, Base;
    ghost var h0, r := mem.h, mem.h[parent];
    ghost var hist0 := mem.hist;
    mem.Look(parent);
    var i := parent.nkey;
    ShiftLoop(r.key, r.nkey, i, 0);
    ShiftLoop(r.chi, r.nkey + 1, i + 1, Null);
    while i > lcid
      invariant lcid <= i <= r.nkey
      invariant mem.Valid() && hist0 <= mem.hist
      invariant mem.h == h0[parent := Shifting(r, i, i + 1)] && RecStep(r, Shifting(r, i, i + 1))
    {
      ShiftParentSlot(mem, parent, i, h0, r);
      i := i - 1;
    }
  }

  method ShiftParentSlot(mem: Memory, parent: Node, i: nat, ghost h0: Heap, ghost r: Rec)
    requires parent in h0 && h0[parent] == r && Base(mem.N, h0, r) && !r.isLeaf && r.pub > 0
      && 0 < i <= r.nkey < mem.N - 1
    requires |r.key| == mem.N - 1 && |r.chi| == mem.N
    requires mem.Valid() && mem.MayStore(parent) && mem.h == h0[parent := Shifting(r, i, i + 1)]
      && RecStep(r, Shifting(r, i, i + 1))
    modifies mem`h, mem`hist, parent`key, parent`chi
    ensures mem.Valid() && old(mem.hist) <= mem.hist
    ensures mem.h == h0[parent := Shifting(r, i - 1, i)] && RecStep(r, Shifting(r, i - 1, i))
  {
    hide Memory.Valid, Shift, PutAt, Base, RecOk;
    ShiftLoop(r.key, r.nkey, i, 0);
    ShiftLoop(r.chi, r.nkey + 1, i + 1, Null);
    ShiftingIsReadable(mem.N, h0, r, i, i);
    ShiftingIsReadable(mem.N, h0, r, i - 1, i);
    ShiftingSteps(mem.N, h0, r, i, i);
    mem.Look(parent);
    StoreChi(mem, parent, i + 1, parent.chi[i], h0, Shifting(r, i, i + 1), Shifting(r, i, i));
    mem.Look(parent);
    StoreKey(mem, parent, i, parent.key[i - 1], h0, Shifting(r, i, i), Shifting(r, i - 1, i));
  }

  method FinalizeParent(mem: Memory, parent: Node, right_child: Node, lm_key: int)
    requires mem.Valid() && mem.MayStore(parent) && TakesSep(mem.N, mem.h, parent, lm_key, right_child)
    modifies mem`h, mem`hist, parent
    ensures mem.Valid() && old(mem.hist) <= mem.hist
    ensures mem.h == old(mem.h)[parent := AddSep(old(mem.h)[parent], lm_key, right_child)]
  {
    hide Memory.Valid, Shift, PutAt, FirstAbove;
    ghost var h0, r := mem.h, mem.h[parent];
    var lcid := FindSlot(mem, parent, lm_key);
    ShiftParent(mem, parent, lcid);
    WithChildIsReadable(mem.N, h0, parent, lm_key, right_child, lcid);
    WithKeyIsReadable(mem.N, h0, parent, lm_key, right_child, lcid);
    ShiftLoop(r.key, r.nkey, lcid, lm_key);
    ShiftLoop(r.chi, r.nkey + 1, lcid + 1, Kid(right_child));
    hide TakesSep, Base, RecOk;
    StoreChi(mem, parent, lcid + 1, Kid(right_child), h0, Shifting(r, lcid, lcid + 1), WithChild(r, lcid, right_child));
    StoreKey(mem, parent, lcid, lm_key, h0, WithChild(r, lcid, right_child), WithKey(r, lcid, lm_key, right_child));
    CloseParent(mem, parent, lm_key, right_child, h0, lcid);
  }

  // nkey last.
  method CloseParent(mem: Memory, parent: Node, ghost k: int, ghost c: Node, ghost h0: Heap, ghost j: nat)
    requires mem.Valid() && mem.MayStore(parent) && TakesSep(mem.N, h0, parent, k, c)
      && j == FirstAbove(h0[parent].key, h0[parent].nkey, k)
    requires mem.h == h0[parent := WithKey(h0[parent], j, k, c)] && RecStep(h0[parent], WithKey(h0[parent], j, k, c))
    modifies mem`h, mem`hist, parent`nkey, parent`pub
    ensures mem.Valid() && old(mem.hist) <= mem.hist
    ensures mem.h == h0[parent := AddSep(h0[parent], k, c)]
  {
    hide Memory.Valid, Shift, PutAt, FirstAbove;
    ghost var r := h0[parent];
    WithKeyIsReadable(mem.N, h0, parent, k, c, j);
    SameTargets(mem.N, h0, parent, WithKey(r, j, k, c), AddSep(r, k, c));
    mem.Look(parent);
    hide RecOk, Base;
    mem.SetNkey(parent, parent.nkey + 1, if r.pub < r.nkey + 2 then r.nkey + 2 else r.pub);
  }

  // ---- distributing the TEMP

  // The upper half of the TEMP into an empty node that is not shown yet.
  method CopyUpperHalf(mem: Memory, temp: Temp, right: Node)
    requires mem.Valid() && mem.MayStore(right) && right in mem.h && |temp.key| == mem.N && |temp.chi| == mem.N + 1
    requires mem.h[right].pub == 0 && RecOk(mem.N, mem.h, mem.h[right]) && mem.h[right].nkey == 0
    modifies mem`h, mem`hist, mem.Leafy(right)`calm, right
    ensures mem.Valid() && old(mem.hist) <= mem.hist
    ensures var r, N := old(mem.h)[right], mem.N;
            mem.h == old(mem.h)[right := r.(key := Fill(r.key, temp.key, N / 2, N),
              chi := Fill(r.chi, temp.chi, N / 2, N), nkey := N / 2)]
  {
    hide Memory.Valid, Fill;
    ghost var h0, r := mem.h, mem.h[right];
    ghost var hist0 := mem.hist;
    var N: int := mem.N;
    var i := N / 2;
    FillLoop(r.key, temp.key, N / 2, i);
    FillLoop(r.chi, temp.chi, N / 2, i);
    while i < N
      invariant N / 2 <= i <= N
      invariant mem.Valid() && hist0 <= mem.hist
      invariant mem.h == h0[right := r.(key := Fill(r.key, temp.key, N / 2, i),
        chi := Fill(r.chi, temp.chi, N / 2, i), nkey := i - N / 2)]
    {
      FillLoop(r.key, temp.key, N / 2, i);
      FillLoop(r.chi, temp.chi, N / 2, i);
      StoreHiddenSlot(mem, right, i - N / 2, temp.key[i], temp.chi[i]);
      mem.Look(right);
      mem.SetNkey(right, right.nkey + 1, 0);
      i := i + 1;
    }
  }

  // Leaf split, right half.
  method CopyFromTempToRight(mem: Memory, temp: Temp, right: Node, ghost r: Rec, ghost t: Rec)
    requires mem.Valid() && mem.MayStore(right) && right in mem.h && |t.key| == mem.N && |t.chi| == mem.N + 1
    requires temp.key == t.key && temp.chi == t.chi
    requires mem.h[right] == Rec(true, Zeros(mem.N - 1), Nulls(mem.N), 0, 0, null, r.parent, 0,
      At(t.key[mem.N / 2 - 1]), 0)
    modifies mem`h, mem`hist, mem`calm, right
    ensures mem.Valid() && old(mem.hist) <= mem.hist
    ensures mem.h == old(mem.h)[right := RightLeaf(mem.N, r, t).(high := 0, right := null)]
  {
    hide Memory.Valid;
    ghost var N: int := mem.N;
    ghost var q := mem.h[right];
    CopyUpperHalf(mem, temp, right);
    assert t.key[N / 2..N] == t.key[N / 2..];
    assert Zeros(N - 1)[N / 2..] == Zeros(N / 2 - 1);
    assert Nulls(N)[N / 2..] == Nulls(N / 2);
  }

  // Leaf split, left half: nkey first, then the slots from the highest down.
  method CopyFromTempToLeft(mem: Memory, temp: Temp, left: Node, ghost t: Rec)
    requires mem.Valid() && mem.MayStore(left) && left in mem.h && mem.h[left].isLeaf
      && RecOk(mem.N, mem.h, mem.h[left])
    requires |t.key| == mem.N && |t.chi| == mem.N + 1 && temp.key == t.key && temp.chi == t.chi
    modifies mem`h, mem`hist, mem`calm, left
    ensures mem.Valid() && old(mem.hist) <= mem.hist
    ensures var r, N := old(mem.h)[left], mem.N;
            mem.h == old(mem.h)[left := LeftLeaf(N, r, t, left).(high := r.high, right := r.right)]
  {
    hide Memory.Valid, Splice;
    ghost var h0, r := mem.h, mem.h[left];
    ghost var hist0 := mem.hist;
    var N: int := mem.N;
    mem.SetNkey(left, N / 2, 0);
    var i := N / 2 - 1;
    SpliceLoop(r.key, t.key, N / 2, N / 2);
    SpliceLoop(r.chi, t.chi, N / 2, N / 2);
    while i >= 0
      invariant -1 <= i < N / 2
      invariant mem.Valid() && hist0 <= mem.hist
      invariant mem.h == h0[left := r.(nkey := N / 2, key := Splice(r.key, t.key, i + 1, N / 2),
        chi := Splice(r.chi, t.chi, i + 1, N / 2))]
    {
      SpliceLoop(r.key, t.key, i + 1, N / 2);
      SpliceLoop(r.chi, t.chi, i + 1, N / 2);
      StoreHiddenSlot(mem, left, i, temp.key[i], temp.chi[i]);
      i := i - 1;
    }
    SpliceLoop(r.key, t.key, 0, N / 2);
    SpliceLoop(r.chi, t.chi, 0, N / 2);
  }
}
