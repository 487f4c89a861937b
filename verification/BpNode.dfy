/**
 The node operations of the B+ tree: insertion into leaves, parents and TEMPs, and the
 copying of splits.
 */
module BpNode {
  import opened Slots
  import opened BpShape
  import opened BpStep

  // The private TEMP of a split.
  class Temp {
    var chi: seq<Node?>
    var key: seq<int>
    var nkey: int

    constructor () {
      chi, key, nkey := [], [], 0;
    }
  }

  // The comparison loop: the first used slot above key.
  method FindSlot(key: int, slots: seq<int>, nkey: int) returns (i: nat)
    requires 0 <= nkey <= |slots|
    ensures i == FirstAbove(slots, nkey, key)
  {
    hide FirstAbove;
    i := 0;
    while i < nkey
      invariant 0 <= i <= nkey
      invariant forall x :: 0 <= x < i ==> slots[x] <= key
    {
      if key < slots[i] { break; }
      i := i + 1;
    }
    FirstAboveIs(slots, nkey, key, i);
  }

  // The shifting loop, from slot n down to slot p.
  method ShiftUp<T>(s: seq<T>, n: nat, p: nat) returns (t: seq<T>)
    requires p <= n < |s|
    ensures t == Shift(s, n, p)
  {
    hide Shift, PutAt;
    t := s;
    var i := n;
    ShiftLoop(s, n, i, s[0]);
    while i > p
      invariant p <= i <= n && t == Shift(s, n, i)
    {
      ShiftLoop(s, n, i, s[0]);
      t := t[i := t[i - 1]];
      i := i - 1;
    }
  }

  method InsertInLeaf(leaf: Node, key: int)
    requires 0 <= leaf.nkey < |leaf.key|
    modifies leaf`key, leaf`nkey
    ensures leaf.ToRec() == AddKey(old(leaf.ToRec()), key)
  {
    hide Shift, PutAt, FirstAbove;
    var i := 0;
    if key < leaf.key[0] {
      FirstAboveIs(leaf.key, leaf.nkey, key, 0);
    } else {
      i := FindSlot(key, leaf.key, leaf.nkey);
    }
    ShiftLoop(leaf.key, leaf.nkey, i, key);
    leaf.key := ShiftUp(leaf.key, leaf.nkey, i);
    leaf.key := leaf.key[i := key];
    leaf.nkey := leaf.nkey + 1;
  }

  method InsertInTemp(temp: Temp, key: int, ptr: Node?)
    requires 0 <= temp.nkey < |temp.key| && temp.nkey + 1 < |temp.chi|
    modifies temp
    ensures var j := FirstAbove(old(temp.key), old(temp.nkey), key);
            && temp.key == PutAt(old(temp.key), old(temp.nkey), j, key)
            && temp.chi == PutAt(old(temp.chi), old(temp.nkey) + 1, j + 1, ptr)
    ensures temp.nkey == old(temp.nkey) + 1
  {
    hide Shift, PutAt, FirstAbove;
    var ki := FindSlot(key, temp.key, temp.nkey);
    var pi := ki + 1;
    ShiftLoop(temp.key, temp.nkey, ki, key);
    ShiftLoop(temp.chi, temp.nkey + 1, pi, ptr);
    temp.key := ShiftUp(temp.key, temp.nkey, ki);
    temp.chi := ShiftUp(temp.chi, temp.nkey + 1, pi);
    temp.key := temp.key[ki := key];
    temp.chi := temp.chi[pi := ptr];
    temp.nkey := temp.nkey + 1;
  }

  method EraseEntries(N: Fanout, node: Node)
    requires |node.key| == N - 1 && |node.chi| == N
    modifies node`key, node`chi, node`nkey
    ensures node.key == Zeros(N - 1) && node.chi == NoKids(N) && node.nkey == 0
  {
    var i := 0;
    while i < N - 1
      invariant 0 <= i <= N - 1 && |node.key| == N - 1 && |node.chi| == N && forall x :: 0 <= x < i ==> node.key[x] == 0
    {
      node.key := node.key[i := 0];
      i := i + 1;
    }
    assert node.key == Zeros(N - 1);
    i := 0;
    while i < N
      invariant 0 <= i <= N && node.key == Zeros(N - 1) && |node.chi| == N && forall x :: 0 <= x < i ==>
        node.chi[x] == null
    {
      node.chi := node.chi[i := null];
      i := i + 1;
    }
    assert node.chi == NoKids(N);
    node.nkey := 0;
  }

  method CopyFromLeftToTemp(N: Fanout, temp: Temp, left: Node)
    requires |left.key| == N - 1 && |left.chi| == N
    modifies temp
    ensures temp.key == left.key + [0] && temp.chi == left.chi + [null] && temp.nkey == N - 1
  {
    temp.chi, temp.key, temp.nkey := NoKids(N + 1), Zeros(N), 0;
    var i := 0;
    while i < N - 1
      invariant 0 <= i <= N - 1 && |temp.chi| == N + 1 && |temp.key| == N
      invariant temp.chi[..i] == left.chi[..i] && temp.key[..i] == left.key[..i]
      invariant temp.chi[N] == null && temp.key[N - 1] == 0
    {
      temp.chi := temp.chi[i := left.chi[i]];
      temp.key := temp.key[i := left.key[i]];
      i := i + 1;
    }
    temp.nkey := N - 1;
    temp.chi := temp.chi[i := left.chi[i]];
    assert temp.key == temp.key[..N - 1] + [temp.key[N - 1]];
    assert temp.chi == temp.chi[..N - 1] + [temp.chi[N - 1]] + [temp.chi[N]];
    assert left.chi == left.chi[..N - 1] + [left.chi[N - 1]];
  }

  // key[from..to] and chi[from..to] of the TEMP to the front of a node, one slot of both at a time.
  method CopySlots(temp: Temp, node: Node, from: nat, to: nat)
    requires from <= to <= |temp.key| && to <= |temp.chi| && to - from <= |node.key| && to - from <= |node.chi|
    modifies node`key, node`chi
    ensures node.key == Fill(old(node.key), temp.key, from, to) && node.chi == Fill(old(node.chi), temp.chi, from, to)
  {
    hide Fill;
    ghost var key, chi := node.key, node.chi;
    var i := from;
    FillLoop(key, temp.key, from, i);
    FillLoop(chi, temp.chi, from, i);
    while i < to
      invariant from <= i <= to
      invariant node.key == Fill(key, temp.key, from, i) && node.chi == Fill(chi, temp.chi, from, i)
    {
      FillLoop(key, temp.key, from, i);
      FillLoop(chi, temp.chi, from, i);
      node.key := node.key[i - from := temp.key[i]];
      node.chi := node.chi[i - from := temp.chi[i]];
      i := i + 1;
    }
  }

  // Leaf split; both nodes are empty. (int)ceil(N/2) is N / 2: the division is integral.
  method CopyFromTempToLeft(N: Fanout, temp: Temp, left: Node)
    requires |temp.key| == N && |temp.chi| == N + 1
    requires left.key == Zeros(N - 1) && left.chi == NoKids(N) && left.nkey == 0
    modifies left`key, left`chi, left`nkey
    ensures left.key == temp.key[..N / 2] + Zeros(N / 2 - 1) && left.chi == temp.chi[..N / 2] + NoKids(N / 2)
      && left.nkey == N / 2
  {
    CopySlots(temp, left, 0, N / 2);
    left.nkey := left.nkey + N / 2;
    assert Zeros(N - 1)[N / 2..] == Zeros(N / 2 - 1);
    assert NoKids(N)[N / 2..] == NoKids(N / 2);
  }

  method CopyFromTempToRight(N: Fanout, temp: Temp, right: Node)
    requires |temp.key| == N && |temp.chi| == N + 1
    requires right.key == Zeros(N - 1) && |right.chi| == N && right.nkey == 0
    modifies right`key, right`chi, right`nkey
    ensures right.key == temp.key[N / 2..] + Zeros(N / 2 - 1) && right.nkey == N / 2
    ensures right.chi == temp.chi[N / 2..N] + old(right.chi)[N / 2..]
  {
    CopySlots(temp, right, N / 2, N);
    right.nkey := right.nkey + (N - N / 2);
    assert Zeros(N - 1)[N / 2..] == Zeros(N / 2 - 1);
    assert temp.key[N / 2..N] == temp.key[N / 2..];
  }

  // Internal split, left half: one more pointer than keys.
  method CopyFromTempToLeftParent(N: Fanout, temp: Temp, left: Node)
    requires |temp.key| == N && |temp.chi| == N + 1
    requires left.key == Zeros(N - 1) && left.chi == NoKids(N)
    modifies left`key, left`chi, left`nkey
    ensures left.key == temp.key[..N / 2] + Zeros(N / 2 - 1) && left.chi == temp.chi[..N / 2 + 1] + NoKids(N / 2 - 1)
    ensures left.nkey == N / 2
  {
    var ret := (N + 1) / 2;
    CopySlots(temp, left, 0, ret);
    left.nkey := ret;
    left.chi := left.chi[ret := temp.chi[ret]];
    assert Zeros(N - 1)[N / 2..] == Zeros(N / 2 - 1);
    assert NoKids(N)[N / 2 + 1..] == NoKids(N / 2 - 1);
    assert temp.chi[..ret + 1] == temp.chi[..ret] + [temp.chi[ret]];
  }

  // Internal split, right half, but for the parent fields of its children.
  method CopyFromTempToRightParent(N: Fanout, temp: Temp, right: Node)
    requires |temp.key| == N == temp.nkey && |temp.chi| == N + 1
    requires right.key == Zeros(N - 1) && right.chi == NoKids(N)
    modifies right`key, right`chi, right`nkey
    ensures right.key == temp.key[N / 2 + 1..] + Zeros(N / 2) && right.chi == temp.chi[N / 2 + 1..] + NoKids(N / 2)
    ensures right.nkey == N / 2 - 1
  {
    var ret := (N + 1) / 2 + 1;
    CopySlots(temp, right, ret, temp.nkey);
    var j := temp.nkey - ret;
    right.chi := right.chi[j := temp.chi[temp.nkey]];
    right.nkey := temp.nkey - ret;
    assert temp.key[ret..N] == temp.key[ret..];
    assert temp.chi[ret..] == temp.chi[ret..N] + [temp.chi[N]];
    assert Zeros(N - 1)[N / 2 - 1..] == Zeros(N / 2);
    assert NoKids(N)[N / 2..] == NoKids(N / 2);
  }

  // The place is the one of the left child's pointer.
  method InsertAfterLeftChild(N: Fanout, parent: Node, left_child: Node, rs_key: int, right_child: Node)
    returns (ghost j: nat)
    requires 0 <= parent.nkey < N - 1 == |parent.key| && |parent.chi| == N
    requires HasKid(parent.ToRec(), left_child)
    modifies parent`key, parent`chi, parent`nkey
    ensures old(FirstKid(parent.ToRec(), j, left_child))
    ensures j <= old(parent.nkey) && parent.ToRec() == AddSep(old(parent.ToRec()), j, rs_key, right_child)
  {
    hide Shift, PutAt;
    var keyid, ptrid, i := 0, 0, 0;
    ghost var r := parent.ToRec();
    while i < parent.nkey + 1
      invariant 0 <= i <= parent.nkey + 1 && keyid == 0
      invariant forall x :: 0 <= x < i ==> !KidIs(r, x, left_child)
    {
      if parent.chi[i] == left_child {
        keyid, ptrid := i, i + 1;
        break;
      }
      i := i + 1;
    }
    assert KidIs(r, keyid, left_child);
    ShiftLoop(r.chi, r.nkey + 1, ptrid, right_child);
    ShiftLoop(r.key, r.nkey, keyid, rs_key);
    parent.chi := ShiftUp(parent.chi, parent.nkey + 1, ptrid);
    parent.key := ShiftUp(parent.key, parent.nkey, keyid);
    parent.key := parent.key[keyid := rs_key];
    parent.chi := parent.chi[ptrid := right_child];
    parent.nkey := parent.nkey + 1;
    j := keyid;
  }
}
