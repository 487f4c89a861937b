/**
 The split of a full parent, store by store.
 */
module BlinkParent {
  import opened Slots
  import opened BlinkState
  import opened BlinkShape
  import opened BlinkStep
  import opened BlinkKeep
  import opened BlinkSplit
  import opened BlinkCascade
  import opened BlinkStores
  import opened BlinkMemory
  import opened BlinkNode
  import opened BlinkCopy

  // The heap once the right half m is filled and has adopted its children.
  ghost predicate RightDone(N: Fanout, h: Heap, h2: Heap, p: Node, m: Node, t: Rec, rc: Node) {
    && p in h && m !in h && TempOk(N, h, p, h[p], t, rc) && h[p].pub == N && h[p].parent != p
    && h2.Keys == h.Keys + {m}
    && h2[m] == Unlinked(RightInternal(N, h[p], t))
    && (forall x {:trigger h2[x]} :: x in h ==> h2[x] == if HasKid(RightInternal(N, h[p], t), x)
      then h[x].(parent := m) else h[x])
  }

  lemma AdoptedIsDone(N: Fanout, h: Heap, p: Node, m: Node, t: Rec, rc: Node)
    requires p in h && m !in h && TempOk(N, h, p, h[p], t, rc) && h[p].pub == N && h[p].parent != p
    ensures var q := Unlinked(RightInternal(N, h[p], t));
            RightDone(N, h, Adopt(h[m := q], q, q.nkey + 1, m), p, m, t, rc)
  {
    var r := RightInternal(N, h[p], t);
    var q := Unlinked(r);
    forall x ensures KidBefore(q, q.nkey + 1, x) <==> HasKid(r, x) {
      AdoptAll(h, q, m, x);
      SameKids(r, q, x);
    }
    if HasKid(r, m) {
      MovedFromP(N, h, p, t, rc, m);
    }
  }

  lemma SameKids(r: Rec, q: Rec, x: Node)
    requires q.chi == r.chi && q.nkey == r.nkey
    ensures HasKid(r, x) <==> HasKid(q, x)
  {
    forall j ensures KidIs(r, j, x) <==> KidIs(q, j, x) {
    }
  }

  lemma PIsNotMoved(N: Fanout, h: Heap, h2: Heap, p: Node, m: Node, t: Rec, rc: Node)
    requires RightDone(N, h, h2, p, m, t, rc)
    ensures h2[p] == h[p]
  {
    if HasKid(RightInternal(N, h[p], t), p) {
      MovedFromP(N, h, p, t, rc, p);
    }
  }

  // The left copy may start: its children are in place and still point to p.
  lemma LeftCopyReady(N: Fanout, h: Heap, h2: Heap, p: Node, m: Node, t: Rec, rc: Node)
    requires RightDone(N, h, h2, p, m, t, rc) && AllBase(N, h) && Base(N, h, h[p])
    ensures h2[p] == h[p] && LeftReady(N, h2, h[p], t)
    ensures var q := LeftInternal(N, h[p], t, p); Kids(h2, p, q) && !HasKid(q, p)
  {
    PIsNotMoved(N, h, h2, p, m, t, rc);
    var r, q := h[p], LeftInternal(N, h[p], t, p);
    forall j: nat | j < N / 2 ensures SlotOk(h2, t, j) && KidAt(h2, p, q, j) && q.chi[j].node != p {
      LeftChild(N, h, h2, p, m, t, rc, j);
    }
    assert Fixed(h, h2);
    BaseCarries(N, h, h2, r);
  }

  lemma LeftChild(N: Fanout, h: Heap, h2: Heap, p: Node, m: Node, t: Rec, rc: Node, j: nat)
    requires RightDone(N, h, h2, p, m, t, rc) && AllBase(N, h) && j < N / 2
    ensures SlotOk(h2, t, j) && KidAt(h2, p, LeftInternal(N, h[p], t, p), j) && t.chi[j].node != p
  {
    assert KidAt(h, p, t, j);
    var c := t.chi[j].node;
    assert Base(N, h, h[c]);
    KidOfOneHalf(N, h, p, p, t, rc, j, c);
  }

  // The four link stores complete the split.
  lemma LinksComplete(N: Fanout, h: Heap, h2: Heap, p: Node, m: Node, t: Rec, rc: Node)
    requires RightDone(N, h, h2, p, m, t, rc)
    ensures var a := LeftInternal(N, h[p], t, m);
            h2[p := a][m := RightInternal(N, h[p], t)] == InternalSplit(N, h, p, m, t)
  {
  }

  // What is known of a non-root node whose split is pending.
  lemma ParentOfPending(N: Fanout, h: Heap, root: Node, lc: Node, rc: Node)
    requires Half(N, h, root, lc, rc) && lc != root
    ensures Place(N, h, root, rc, lc) && Home(h, lc)
    ensures var p: Node := h[lc].parent;
            && Base(N, h, h[p]) && Kids(h, p, h[p]) && Place(N, h, root, rc, p)
            && h[p].level == h[lc].level + 1 && h[p].level <= h[root].level
            && Covers(h[p], h[lc].high)
            && Below(h[p].low, h[lc].high) && p != rc
  {
    assert Place(N, h, root, rc, lc);
    assert Base(N, h, h[lc]);
    var p: Node := h[lc].parent;
    assert Base(N, h, h[p]) && Kids(h, p, h[p]) && Place(N, h, root, rc, p);
    var j :| KidIs(h[p], j, lc);
    assert KidAt(h, p, h[p], j);
    SeparatorFits(N, h, root, lc, rc, j);
  }

  // What the split of a full parent starts from.
  lemma SplitSetting(N: Fanout, h: Heap, root: Node, lc: Node, rc: Node)
    requires Half(N, h, root, lc, rc) && lc != root && Home(h, lc)
    requires var r := h[h[lc].parent]; r.nkey == |r.key| == N - 1 && |r.chi| == N
    ensures var p: Node := h[lc].parent;
            && TempOk(N, h, p, h[p], AddSep(Wide(h[p]), h[lc].high, rc), rc)
            && AllBase(N, h) && Base(N, h, h[p])
            && h[p].pub == N && h[p].parent != p && h[p].level > 0
  {
    var p: Node := h[lc].parent;
    ParentOfPending(N, h, root, lc, rc);
    TempIsOk(N, h, root, lc, rc);
    hide AllBase, AllKids, AllApart, AllPlaced, TempOk, AddSep, Wide;
    if h[p].parent == p && p != root {
      KidsAreNodes(h, p, p);
    }
  }

  // The TEMP of the split, with the new separator and child in place.
  method PrepareTemp(mem: Memory, p: Node, right_child: Node, lm_key: int, ghost r: Rec) returns (temp: Temp)
    requires mem.Valid() && p in mem.h && mem.h[p] == r && r.nkey == mem.N - 1
    ensures fresh(temp)
    ensures |r.key| == mem.N - 1 && |r.chi| == mem.N
    ensures var t := AddSep(Wide(r), lm_key, right_child); temp.key == t.key && temp.chi == t.chi
  {
    hide Memory.Valid, PutAt, FirstAbove;
    mem.LookSlots(p);
    temp := new Temp();
    CopyFromLeftToTemp(mem, temp, p);
    FinalizeTemp(temp, right_child, lm_key);
  }

  // The right half takes over high key and right link.
  method LinkFromRight(mem: Memory, left: Node, right: Node)
    requires mem.Valid() && mem.MayStore(right) && left in mem.h && right in mem.h && left != right
    modifies mem`h, mem`hist, mem`unlinked, mem.Leafy(right)`calm, right`high_key, right`right_link
    ensures mem.Valid() && old(mem.hist) <= mem.hist && mem.unlinked <= old(mem.unlinked)
    ensures mem.h == old(mem.h)[right :=
      old(mem.h)[right].(high := old(mem.h)[left].high, right := old(mem.h)[left].right)]
  {
    hide Memory.Valid;
    mem.Look(left);
    mem.SetHigh(right, left.high_key);
    mem.Look(left);
    mem.SetRight(right, left.right_link);
  }

  // The left half gets the middle key and the link to the right half.
  method LinkFromLeft(mem: Memory, left: Node, right: Node, mid: int)
    requires mem.Valid() && mem.MayStore(left) && left in mem.h
    modifies mem`h, mem`hist, mem`unlinked, mem.Leafy(left)`calm, left`high_key, left`right_link
    ensures mem.Valid() && old(mem.hist) <= mem.hist && mem.unlinked == old(mem.unlinked) - {right}
    ensures mem.h == old(mem.h)[left := old(mem.h)[left].(high := mid, right := right)]
  {
    hide Memory.Valid;
    mem.SetHigh(left, mid);
    mem.SetRight(left, right);
  }

  // The link stores of a split, in source order.
  method LinkHalves(mem: Memory, left: Node, right: Node, mid: int)
    requires mem.Valid() && mem.MayStore(right) && left in mem.held && left in mem.h && right in mem.h && left != right
    modifies mem`h, mem`hist, mem`unlinked, mem.Leafy(left)`calm, mem.Leafy(right)`calm
    modifies left`high_key, left`right_link, right`high_key, right`right_link
    ensures mem.Valid() && old(mem.hist) <= mem.hist && mem.unlinked <= old(mem.unlinked) - {right}
    ensures var h, r := old(mem.h), old(mem.h)[left];
            mem.h == h[right := h[right].(high := r.high, right := r.right)][left := r.(high := mid, right := right)]
  {
    hide Memory.Valid;
    LinkFromRight(mem, left, right);
    LinkFromLeft(mem, left, right, mid);
  }

  // Left copy and the links, once the right half is done.
  method FinishSplit(mem: Memory, temp: Temp, p: Node, right: Node, ghost h: Heap, ghost t: Rec, ghost rc: Node)
    requires p in h && mem.Valid() && mem.MayStore(right) && p in mem.held
      && RightDone(mem.N, h, mem.h, p, right, t, rc) && AllBase(mem.N, h)
      && Base(mem.N, h, h[p])
    requires temp.key == t.key && temp.chi == t.chi
    modifies mem`h, mem`hist, mem`unlinked, mem.h.Keys
    ensures mem.Valid() && old(mem.hist) <= mem.hist && mem.unlinked <= old(mem.unlinked) - {right}
    ensures mem.h == InternalSplit(mem.N, h, p, right, t)
  {
    hide Memory.Valid, AllBase, Base, LeftReady, InternalSplit, Kids, HasKid, RightDone, TempOk;
    ghost var h2, r := mem.h, h[p];
    RightIsDone(mem.N, h, h2, p, right, t, rc);
    LeftCopyReady(mem.N, h, h2, p, right, t, rc);
    LinksComplete(mem.N, h, h2, p, right, t, rc);
    CopyFromTempToLeftParent(mem, temp, p, t);
    LinksAreExact(mem.N, h2, p, right, r, t);
    hide LeftInternal, RightInternal;
    LinkHalves(mem, p, right, temp.key[(mem.N + 1) / 2 - 1]);
  }

  lemma RightIsDone(N: Fanout, h: Heap, h2: Heap, p: Node, m: Node, t: Rec, rc: Node)
    requires RightDone(N, h, h2, p, m, t, rc)
    ensures |h[p].key| == N - 1 && |h[p].chi| == N && |t.key| == N && |t.chi| == N + 1
    ensures p in h2 && m in h2 && h2[m] == Unlinked(RightInternal(N, h[p], t)) && m != p
  {
    hide Kids, HasKid, RightInternal;
  }

  lemma LinksAreExact(N: Fanout, h: Heap, p: Node, m: Node, r: Rec, t: Rec)
    requires |r.key| == N - 1 && |r.chi| == N && |t.key| == N && |t.chi| == N + 1
    requires p in h && m in h && p != m && h[m] == Unlinked(RightInternal(N, r, t))
    ensures var a := LeftInternal(N, r, t, p).(high := r.high, right := r.right);
            var h' := h[p := a];
            var h1: Heap := h'[m := h'[m].(high := a.high, right := a.right)];
            var h2: Heap := h[p := LeftInternal(N, r, t, m)];
            h1[p := a.(high := t.key[(N + 1) / 2 - 1], right := m)] == h2[m := RightInternal(N, r, t)]
  {
  }

  // Both copies and the links.
  method Distribute(mem: Memory, temp: Temp, p: Node, right: Node, ghost h: Heap, ghost t: Rec, ghost rc: Node)
    requires p in h && right !in h && TempOk(mem.N, h, p, h[p], t, rc) && AllBase(mem.N, h) && Base(mem.N, h, h[p])
    requires h[p].pub == mem.N && h[p].parent != p
    requires mem.Valid() && mem.MayStore(right) && p in mem.held && temp.key == t.key && temp.chi == t.chi
    requires mem.h == h[right := Rec(false, Zeros(mem.N - 1), Nulls(mem.N), 0, 0, null, h[p].parent, h[p].level,
      At(t.key[mem.N / 2 - 1]), 0)]
    modifies mem`h, mem`hist, mem`unlinked, mem.h.Keys
    ensures mem.Valid() && old(mem.hist) <= mem.hist && mem.unlinked <= old(mem.unlinked) - {right}
    ensures mem.h == InternalSplit(mem.N, h, p, right, t)
  {
    hide Memory.Valid;
    CopyFromTempToRightParent(mem, temp, right, h, p, t, rc);
    AdoptedIsDone(mem.N, h, p, right, t, rc);
    hide Adopt, AllBase, Base, InternalSplit;
    FinishSplit(mem, temp, p, right, h, t, rc);
  }

  method SplitParent(mem: Memory, p: Node, lm_key: int, right_child: Node, ghost lc: Node) returns (right: Node)
    requires mem.Valid() && p in mem.held && Half(mem.N, mem.h, mem.Root, lc, right_child) && lc != mem.Root
    requires Home(mem.h, lc) && p == mem.h[lc].parent && lm_key == mem.h[lc].high
    requires var r := mem.h[p]; r.nkey == |r.key| == mem.N - 1 && |r.chi| == mem.N
    modifies mem`h, mem`hist, mem`unlinked, mem.h.Keys
    ensures mem.Valid() && old(mem.hist) <= mem.hist && mem.unlinked <= old(mem.unlinked) && fresh(right)
      && right !in old(mem.h)
    ensures var h, t := old(mem.h), AddSep(Wide(old(mem.h)[p]), lm_key, right_child);
            |t.key| == mem.N && |t.chi| == mem.N + 1 && mem.h == InternalSplit(mem.N, h, p, right, t)
  {
    hide Memory.Valid;
    ghost var h, r := mem.h, mem.h[p];
    SplitSetting(mem.N, h, mem.Root, lc, right_child);
    hide Tree, Half, Home, Place, Base, AllBase, TempOk, InternalSplit;
    mem.LookSlots(p);
    ghost var t := AddSep(Wide(r), lm_key, right_child);
    right := mem.AllocInternal(p.parent, r.level, At(t.key[mem.N / 2 - 1]));
    var temp := PrepareTemp(mem, p, right_child, lm_key, r);
    hide AddSep, Wide;
    Distribute(mem, temp, p, right, h, t, right_child);
  }
}
