/**
 Sequences of key and pointer slots: the shifting and copying loops of both trees as
 functions, and what they do to the order of keys.
 */
module Slots {

  ghost predicate Ascending(s: seq<int>, n: int)
    requires n <= |s|
  {
    forall i, j :: 0 <= i < j < n ==> s[i] < s[j]
  }

  // Slots p..n shifted up by one and v stored at p; slots above n keep what they held.
  function PutAt<T>(s: seq<T>, n: nat, p: nat, v: T): (t: seq<T>)
    requires p <= n < |s|
    ensures |t| == |s| && t[p] == v
    ensures forall i {:trigger t[i]} :: 0 <= i < p ==> t[i] == s[i]
    ensures forall i {:trigger t[i]} :: p < i <= n ==> t[i] == s[i - 1]
    ensures forall i {:trigger t[i]} :: n < i < |s| ==> t[i] == s[i]
  {
    s[..p] + [v] + s[p..n] + s[n + 1..]
  }

  // The shifting loop half-way: slots above i, up to n, already hold their left neighbour.
  function Shift<T>(s: seq<T>, n: nat, i: nat): (t: seq<T>)
    requires i <= n < |s|
    ensures |t| == |s|
    ensures forall x {:trigger t[x]} :: 0 <= x <= i ==> t[x] == s[x]
    ensures forall x {:trigger t[x]} :: i < x <= n ==> t[x] == s[x - 1]
    ensures forall x {:trigger t[x]} :: n < x < |s| ==> t[x] == s[x]
  {
    s[..i + 1] + s[i..n] + s[n + 1..]
  }

  lemma ShiftLoop<T>(s: seq<T>, n: nat, i: nat, v: T)
    requires i <= n < |s|
    ensures Shift(s, n, n) == s
    ensures i > 0 ==> Shift(s, n, i)[i := Shift(s, n, i)[i - 1]] == Shift(s, n, i - 1)
    ensures Shift(s, n, i)[i := v] == PutAt(s, n, i, v)
  {
    hide Shift, PutAt;
  }

  // The first of the n used slots that holds a key above k, or n.
  function FirstAbove(s: seq<int>, n: nat, k: int): (j: nat)
    requires n <= |s|
    ensures j <= n
    ensures forall i :: 0 <= i < j ==> s[i] <= k
    ensures j < n ==> s[j] > k
  {
    if n == 0 then 0
    else
      var j := FirstAbove(s, n - 1, k);
      if j < n - 1 || s[n - 1] > k then j else n
  }

  lemma {:induction false} FirstAboveIs(s: seq<int>, n: nat, k: int, j: nat)
    requires n <= |s| && j <= n
    requires forall i :: 0 <= i < j ==> s[i] <= k
    requires j < n ==> s[j] > k
    ensures FirstAbove(s, n, k) == j
  {
    if j < n {
      FirstAboveIs(s, n - 1, k, j);
    } else if n > 0 {
      FirstAboveIs(s, n - 1, k, n - 1);
    }
  }

  function Zeros(n: nat): (s: seq<int>)
    ensures |s| == n
  {
    seq(n, i => 0)
  }

  // t[m..i] moved to the front of s.
  function Fill<T>(s: seq<T>, t: seq<T>, m: nat, i: nat): (q: seq<T>)
    requires m <= i <= |t| && i - m <= |s|
    ensures |q| == |s|
  {
    t[m..i] + s[i - m..]
  }

  lemma FillLoop<T>(s: seq<T>, t: seq<T>, m: nat, i: nat)
    requires m <= i <= |t| && i - m <= |s|
    ensures Fill(s, t, m, m) == s
    ensures i < |t| && i - m < |s| ==> Fill(s, t, m, i)[i - m := t[i]] == Fill(s, t, m, i + 1)
  {
    if i < |t| && i - m < |s| {
      var a, b := Fill(s, t, m, i)[i - m := t[i]], Fill(s, t, m, i + 1);
      assert forall x :: 0 <= x < |s| ==> a[x] == b[x];
    }
  }

  ghost predicate InOrder(s: seq<int>) {
    forall i, j :: 0 <= i < j < |s| ==> s[i] < s[j]
  }

  // A sequence in order is determined by its elements.
  lemma {:induction false} SameElements(s: seq<int>, t: seq<int>)
    requires InOrder(s) && InOrder(t) && forall k :: k in s <==> k in t
    ensures s == t
  {
    assert t != [] ==> t[0] in t;
    assert s != [] ==> s[0] in s;
    if s != [] {
      assert s[0] == t[0];
      forall k ensures k in s[1..] <==> k in t[1..] {
        TailElements(s, k);
        TailElements(t, k);
      }
      SameElements(s[1..], t[1..]);
      assert s == [s[0]] + s[1..] && t == [t[0]] + t[1..];
    }
  }

  lemma TailElements(s: seq<int>, k: int)
    requires InOrder(s) && s != []
    ensures k in s[1..] <==> k in s && k != s[0]
  {
    if k in s && k != s[0] {
      var i :| 0 <= i < |s| && s[i] == k;
      assert s[1..][i - 1] == k;
    }
  }

  // k put in order into s.
  function PutInOrder(s: seq<int>, k: int): seq<int> {
    var j := FirstAbove(s, |s|, k);
    s[..j] + [k] + s[j..]
  }

  lemma PutInOrderElements(s: seq<int>, k: int)
    requires InOrder(s) && k !in s
    ensures InOrder(PutInOrder(s, k))
    ensures forall k' :: k' in PutInOrder(s, k) <==> k' in s || k' == k
  {
    hide FirstAbove;
    var j := FirstAbove(s, |s|, k);
    var t := PutInOrder(s, k);
    assert s == s[..j] + s[j..];
    forall a, b | 0 <= a < b < |t| ensures t[a] < t[b] {
      if a < j && b >= j { assert s[a] < k; }
      if a >= j && b > j && j < |s| { assert s[j] <= s[b - 1]; }
    }
  }
}
