/**
 Open addressing with a constant stride. Values start at value % 10000 and move on by 7,
 wrapping past 10000 into 1..10000; so slot 0 is only ever a first choice.
 */
module OpenAddress {

  const SLOTS: nat := 10000
  const DELTA: nat := 7
  const LENGTH: nat := 10010

  // 7 * INVERSE is 1 modulo 10000.
  const INVERSE: nat := 7143

  function Wrap(rest: int): int {
    if rest > SLOTS then rest - SLOTS else rest
  }

  // The k-th slot that is tried.
  function Path(rest: int, delta: int, k: nat): int
    decreases k
  {
    if k == 0 then rest else Path(Wrap(rest + delta), delta, k - 1)
  }

  lemma {:induction false} PathInRange(rest: int, delta: int, k: nat)
    requires 0 <= rest <= SLOTS && 0 < delta <= SLOTS
    ensures 0 <= Path(rest, delta, k) <= SLOTS
    ensures k > 0 ==> 1 <= Path(rest, delta, k)
    decreases k
  {
    if k > 0 {
      PathInRange(Wrap(rest + delta), delta, k - 1);
    }
  }

  // From the first step on, the path is the arithmetic progression modulo 10000.
  lemma {:induction false} PathIsProgression(rest: int, k: nat)
    requires 0 <= rest <= SLOTS && (k > 0 || rest > 0)
    ensures Path(rest, DELTA, k) == (rest + 7 * k - 1) % 10000 + 1
    decreases k
  {
    if k == 0 {
      SmallRemainder(rest - 1);
    } else {
      var next := Wrap(rest + DELTA);
      PathIsProgression(next, k - 1);
      OneRoundMore(next + DELTA * (k - 1) - 1);
    }
  }

  lemma SmallRemainder(a: int)
    requires 0 <= a < SLOTS
    ensures a % SLOTS == a
  {
  }

  lemma OneRoundMore(a: int)
    ensures (a + SLOTS) % SLOTS == a % SLOTS
  {
  }

  // The number of steps that leads to a slot.
  function StepsTo(rest: int, slot: int): (k: nat)
    ensures 1 <= k <= SLOTS
  {
    (INVERSE * (slot - rest) - 1) % SLOTS + 1
  }

  /**
   Since 7 is coprime to 10000, every slot of 1..10000 is tried within 10000 steps, whatever
   the start.
   */
  lemma EverySlotIsTried(rest: int, slot: int)
    requires 0 <= rest <= SLOTS && 1 <= slot <= SLOTS
    ensures Path(rest, DELTA, StepsTo(rest, slot)) == slot
  {
    PathIsProgression(rest, StepsTo(rest, slot));
    Inverse(rest, slot);
  }

  // 7 * 7143 == 5 * 10000 + 1
  lemma Inverse(rest: int, slot: int)
    requires 1 <= slot <= SLOTS
    ensures (rest + DELTA * StepsTo(rest, slot) - 1) % SLOTS == slot - 1
  {
    var d := slot - rest;
    var q := (7143 * d - 1) / 10000;
    var k := (7143 * d - 1) % 10000 + 1;
    assert k == 7143 * d - 10000 * q;
    Remainder(rest + 7 * k - 1, 5 * d - 7 * q, slot - 1);
  }

  lemma Remainder(a: int, q: int, r: int)
    requires a == 10000 * q + r && 0 <= r < 10000
    ensures a % 10000 == r
  {
  }

  // Some slot on the path is free.
  ghost predicate Ends(s: seq<int>, rest: int)
    requires |s| == LENGTH && 0 <= rest <= SLOTS
  {
    exists k: nat :: FreeAt(s, rest, DELTA, k)
  }

  ghost predicate FreeAt(s: seq<int>, rest: int, delta: int, k: nat) {
    0 <= Path(rest, delta, k) < |s| && s[Path(rest, delta, k)] == 0
  }

  // Probing ends exactly if the first choice or some slot of 1..10000 is free, and then soon.
  lemma EndsIff(s: seq<int>, rest: int)
    requires |s| == LENGTH && 0 <= rest <= SLOTS
    ensures Ends(s, rest) <==> s[rest] == 0 || exists slot :: 1 <= slot <= SLOTS && s[slot] == 0
    ensures Ends(s, rest) ==> exists k: nat :: k <= SLOTS && FreeAt(s, rest, DELTA, k)
  {
    if s[rest] == 0 {
      assert FreeAt(s, rest, DELTA, 0);
    } else if slot :| 1 <= slot <= SLOTS && s[slot] == 0 {
      EverySlotIsTried(rest, slot);
      assert FreeAt(s, rest, DELTA, StepsTo(rest, slot));
    } else {
      forall k: nat ensures !FreeAt(s, rest, DELTA, k) {
        PathInRange(rest, DELTA, k);
      }
    }
  }

  // A value sits at the first slot of its path that was free.
  ghost predicate Lands(s: seq<int>, rest: int, delta: int, k: nat) {
    && FreeAt(s, rest, delta, k)
    && forall j: nat :: j < k ==> !FreeAt(s, rest, delta, j)
  }

  // The nonzero entries.
  function Stored(s: seq<int>): multiset<int> {
    if s == [] then multiset{}
    else Stored(s[..|s| - 1]) + if s[|s| - 1] == 0 then multiset{} else multiset{s[|s| - 1]}
  }

  lemma {:induction false} StoreInFree(s: seq<int>, i: nat, x: int)
    requires i < |s| && s[i] == 0 && x != 0
    ensures Stored(s[i := x]) == Stored(s) + multiset{x}
    decreases |s|
  {
    var last := |s| - 1;
    if i < last {
      StoreInFree(s[..last], i, x);
      assert s[i := x][..last] == s[..last][i := x];
    } else {
      assert s[i := x][..last] == s[..last];
    }
  }

  lemma {:induction false} FullHoldsMany(s: seq<int>, n: nat)
    requires n < |s| && forall i :: 1 <= i <= n ==> s[i] != 0
    ensures |Stored(s)| >= n
    decreases |s|
  {
    var last := |s| - 1;
    if n > 0 {
      FullHoldsMany(s[..last], if n < last then n else n - 1);
    }
  }

  lemma {:induction false} NothingStored(s: seq<int>)
    requires forall i :: 0 <= i < |s| ==> s[i] == 0
    ensures Stored(s) == multiset{}
  {
    if s != [] {
      NothingStored(s[..|s| - 1]);
    }
  }

  // Probing for a stored value from its first choice meets no free slot before it.
  ghost predicate Findable(s: seq<int>, slot: int)
    requires 0 <= slot < |s|
  {
    s[slot] != 0 ==> exists k: nat :: Leads(s, s[slot] % SLOTS, k, slot)
  }

  ghost predicate Leads(s: seq<int>, rest: int, k: nat, slot: int) {
    && Path(rest, DELTA, k) == slot
    && forall j: nat :: j < k ==> !FreeAt(s, rest, DELTA, j)
  }

  // Filling a free slot with a value that lands there keeps every value findable.
  lemma StillFindable(s: seq<int>, x: int, k: nat, slot: int)
    requires |s| == LENGTH && 0 <= slot < |s| && Lands(s, x % SLOTS, DELTA, k) && x != 0 && Findable(s, slot)
    ensures Findable(s[Path(x % SLOTS, DELTA, k) := x], slot)
  {
    var at := Path(x % SLOTS, DELTA, k);
    var s' := s[at := x];
    if slot == at {
      assert Leads(s', x % SLOTS, k, slot);
    } else if s[slot] != 0 {
      var n: nat :| Leads(s, s[slot] % SLOTS, n, slot);
      assert Leads(s', s[slot] % SLOTS, n, slot);
    }
  }

  // The table after the values have been put in one after the other, each at the first free slot of its path.
  ghost predicate Inserted(s: seq<int>, values: seq<int>, t: seq<int>)
    decreases |values|
  {
    if values == [] then t == s
    else
      var last := |values| - 1;
      exists m, k :: Inserted(s, values[..last], m) && LandsAt(m, values[last], k, t)
  }

  // t is s with x in the first free slot of x % 10000, x % 10000 + 7, and so on.
  ghost predicate LandsAt(s: seq<int>, x: int, k: nat, t: seq<int>) {
    |s| == LENGTH && Lands(s, x % 10000, 7, k) && t == s[Path(x % 10000, 7, k) := x]
  }

  lemma OneMore(s: seq<int>, values: seq<int>, m: seq<int>, x: int, t: seq<int>)
    requires Inserted(s, values, m) && exists k :: LandsAt(m, x, k, t)
    ensures Inserted(s, values + [x], t)
  {
    var all := values + [x];
    assert all[..|values|] == values && all[|values|] == x;
    var k :| LandsAt(m, x, k, t);
    hide LandsAt;
    assert Inserted(s, all[..|values|], m) && LandsAt(m, all[|values|], k, t);
  }

  // Where a value lands after the first choice has been taken.
  lemma SecondChoice(s: seq<int>, x: int, y: int, k: nat, t: seq<int>, n: nat, u: seq<int>)
    requires LandsAt(s, x, k, t) && LandsAt(t, y, n, u) && x > 0 && y > 0 && x % 10000 == y % 10000
    requires s[x % 10000] == 0 && (x % 10000 + 6) % 10000 + 1 < |s| && s[(x % 10000 + 6) % 10000 + 1] == 0
    ensures t[x % 10000] == x && u[(x % 10000 + 6) % 10000 + 1] == y
  {
    var rest := x % 10000;
    assert FreeAt(s, rest, 7, 0);
    PathIsProgression(rest, 1);
    assert !FreeAt(t, rest, 7, 0) && FreeAt(t, rest, 7, 1);
  }

  class Table {
    var data: array<int>
    var flag: int

    constructor ()
      ensures data.Length == LENGTH && (forall i :: 0 <= i < LENGTH ==> data[i] == 0) && flag == 0 && fresh(data)
    {
      data := new int[LENGTH](_ => 0);
      flag := 0;
    }

    // The ghost n counts the probes still needed.
    method OpenAddr(rest: int, x: int, delta: int, ghost n: nat)
      requires data.Length == LENGTH && 0 <= rest <= SLOTS && 0 < delta <= SLOTS
      requires flag == 0 ==> Lands(data[..], rest, delta, n)
      modifies this`flag, data
      ensures old(flag) != 0 ==> flag == old(flag) && data[..] == old(data[..])
      ensures old(flag) == 0 ==>
        flag == 1 && 0 <= Path(rest, delta, n) < LENGTH && data[..] == old(data[..])[Path(rest, delta, n) := x]
      decreases n
    {
      if flag != 0 { return; }
      PathInRange(rest, delta, n);
      if data[rest] == 0 {
        assert FreeAt(data[..], rest, delta, 0);
        data[rest] := x;
        flag := 1;
      } else {
        var next := rest + delta;
        if next > SLOTS {
          next := next - SLOTS;
        }
        assert n > 0;
        ghost var s := data[..];
        assert forall j: nat :: FreeAt(s, next, delta, j) == FreeAt(s, rest, delta, j + 1);
        OpenAddr(next, x, delta, n - 1);
      }
    }

    // The nonzero entries are exactly the values, and each can be found again.
    ghost predicate Holds(values: seq<int>)
      reads this`data, data
    {
      && data.Length == LENGTH
      && Stored(data[..]) == multiset(values)
      && (forall slot :: 0 <= slot < LENGTH ==> Findable(data[..], slot))
      && (forall slot :: SLOTS < slot < LENGTH ==> data[slot] == 0)
    }

    lemma NothingHeld()
      requires data.Length == LENGTH && forall i :: 0 <= i < LENGTH ==> data[i] == 0
      ensures Holds([])
    {
      NothingStored(data[..]);
    }

    method InsertOne(x: int, ghost before: seq<int>)
      requires Holds(before) && |before| < SLOTS && x > 0 && flag == 0
      modifies this`flag, data
      ensures Holds(before + [x])
      ensures exists k :: LandsAt(old(data[..]), x, k, data[..])
    {
      var rest := x % SLOTS;
      ghost var s := data[..];
      ghost var n := SomePlaceIsFree(s, rest);
      PathInRange(rest, DELTA, n);
      OpenAddr(rest, x, DELTA, n);
      StoreInFree(s, Path(rest, DELTA, n), x);
      ghost var t := data[..];
      assert LandsAt(s, x, n, t);
      forall slot | 0 <= slot < LENGTH ensures Findable(t, slot) {
        StillFindable(s, x, n, slot);
      }
      assert forall slot :: SLOTS < slot < LENGTH ==> t[slot] == s[slot];
    }

    /**
     The insertion loop: as long as there are no more than 10000 values, every one of them
     finds a place.
     */
    method InsertAll(values: seq<int>)
      requires data.Length == LENGTH && forall i :: 0 <= i < LENGTH ==> data[i] == 0
      requires |values| <= SLOTS && forall i :: 0 <= i < |values| ==> values[i] > 0
      modifies this`flag, data
      ensures Holds(values) && Inserted(old(data[..]), values, data[..])
    {
      hide Holds, LandsAt;
      NothingHeld();
      ghost var empty := data[..];
      ghost var done: seq<int> := [];
      var i := 0;
      while i < |values|
        invariant 0 <= i <= |values| && done == values[..i] && Holds(done) && Inserted(empty, done, data[..])
      {
        flag := 0;
        ghost var s := data[..];
        InsertOne(values[i], done);
        OneMore(empty, done, s, values[i], data[..]);
        done := done + [values[i]];
        i := i + 1;
      }
      assert done == values;
    }
  }

  // With fewer than 10000 values stored there is a place, within 10000 steps.
  lemma SomePlaceIsFree(s: seq<int>, rest: int) returns (k: nat)
    requires |s| == LENGTH && 0 <= rest <= SLOTS && |Stored(s)| < SLOTS
    ensures Lands(s, rest, DELTA, k) && k <= SLOTS
  {
    if forall slot :: 1 <= slot <= SLOTS ==> s[slot] != 0 {
      FullHoldsMany(s, SLOTS);
    }
    EndsIff(s, rest);
    var n: nat :| n <= SLOTS && FreeAt(s, rest, DELTA, n);
    k := FirstFree(s, rest, n);
  }

  lemma {:induction false} FirstFree(s: seq<int>, rest: int, n: nat) returns (k: nat)
    requires FreeAt(s, rest, DELTA, n)
    ensures Lands(s, rest, DELTA, k) && k <= n
    decreases n
  {
    if j: nat :| j < n && FreeAt(s, rest, DELTA, j) {
      k := FirstFree(s, rest, j);
    } else {
      k := n;
    }
  }
}
