/**
 The unlocked descent of find_leaf, one memory access per step, run against a
 history of stores by other threads.
 */
module BlinkReader {
  import opened BlinkState

  // Where the descent stands: the accesses of the loop in source order.
  datatype Reader =
    | Start                              // about to read the global Root
    | Visit(n: Node)                     // about to read isLeaf
    | Load(n: Node)                      // about to read nkey
    | Scan(n: Node, nk: int, kid: int)   // about to compare with key[kid], kid < nk, or to leave the loop
    | Fetch(n: Node, kid: int)           // about to read chi[kid]
    | Done(leaf: Node)

  // The next access touches a live node, inside its arrays, and finds a child pointer.
  ghost predicate CanAccess(s: Snap, r: Reader) {
    match r
    case Start => true
    case Visit(n) => n in s.h
    case Load(n) => n in s.h
    case Scan(n, nk, kid) => n in s.h && 0 <= kid <= nk <= |s.h[n].key|
    case Fetch(n, kid) => n in s.h && 0 <= kid < |s.h[n].chi| && s.h[n].chi[kid].Kid?
    case Done(_) => false
  }

  // One access in snapshot s while looking for k.
  ghost function Next(s: Snap, k: int, r: Reader): Reader
    requires CanAccess(s, r)
  {
    match r
    case Start => Visit(s.root)
    case Visit(n) => if s.h[n].isLeaf then Done(n) else Load(n)
    case Load(n) => Scan(n, s.h[n].nkey, 0)
    case Scan(n, nk, kid) =>
      if kid < nk && k > s.h[n].key[kid] then Scan(n, nk, kid + 1) else Fetch(n, kid)
    case Fetch(n, kid) => Visit(s.h[n].chi[kid].node)
  }

  // ---- what holds of a descent at every moment

  ghost predicate Onto(s: Snap, k: int, n: Node) {
    n in s.h && Published(s.h[n]) && Below(s.h[n].low, k)
  }

  ghost predicate OnSlot(s: Snap, k: int, n: Node, kid: int) {
    && Onto(s, k, n)
    && !s.h[n].isLeaf
    && 0 <= kid < s.h[n].pub <= |s.h[n].chi| == |s.h[n].key| + 1
    && (kid > 0 ==> s.h[n].key[kid - 1] < k)
  }

  ghost predicate ReaderOk(s: Snap, k: int, r: Reader) {
    match r
    case Start => true
    case Visit(n) => Onto(s, k, n)
    case Load(n) => Onto(s, k, n) && !s.h[n].isLeaf
    case Scan(n, nk, kid) => OnSlot(s, k, n, kid) && kid <= nk < s.h[n].pub
    case Fetch(n, kid) => OnSlot(s, k, n, kid)
    case Done(n) => Onto(s, k, n) && s.h[n].isLeaf
  }

  lemma StoreKeepsReader(N: Fanout, s: Snap, s': Snap, k: int, r: Reader)
    requires Readable(N, s) && Readable(N, s') && SnapStep(s, s') && ReaderOk(s, k, r)
    ensures ReaderOk(s', k, r)
  {
    if !r.Start? {
      var n := match r case Visit(n) => n case Load(n) => n case Scan(n, _, _) => n case Fetch(n, _) => n
        case Done(n) => n;
      assert RecStep(s.h[n], s'.h[n]);
      assert RecOk(N, s'.h, s'.h[n]);
    }
  }

  lemma AccessKeepsReader(N: Fanout, s: Snap, k: int, r: Reader)
    requires Readable(N, s) && ReaderOk(s, k, r) && !r.Done?
    ensures CanAccess(s, r) && ReaderOk(s, k, Next(s, k, r))
  {
    if !r.Start? {
      var n := match r case Visit(n) => n case Load(n) => n case Scan(n, _, _) => n case Fetch(n, _) => n;
      assert RecOk(N, s.h, s.h[n]);
      if r.Fetch? {
        assert SlotOk(s.h, s.h[n], r.kid);
      }
    }
  }

  // ---- any interleaving of one descent with a history of stores

  // The reader as it is just after an access made in snapshot hist[time].
  datatype Moment = Moment(time: nat, reader: Reader)

  // Accesses happen in order; any number of stores may fall between two of them.
  ghost predicate Descent(hist: seq<Snap>, k: int, run: seq<Moment>) {
    && |run| > 0
    && run[0].reader == Start
    && (forall i :: 0 <= i < |run| ==> run[i].time < |hist|)
    && (forall i :: 0 < i < |run| ==>
          && run[i - 1].time <= run[i].time
          && CanAccess(hist[run[i].time], run[i - 1].reader)
          && run[i].reader == Next(hist[run[i].time], k, run[i - 1].reader))
  }

  lemma {:induction false} WaitKeepsReader(N: Fanout, hist: seq<Snap>, k: int, r: Reader, t: nat, u: nat)
    requires Safe(N, hist) && t <= u < |hist| && ReaderOk(hist[t], k, r)
    ensures ReaderOk(hist[u], k, r)
    decreases u - t
  {
    if t < u {
      assert SnapStep(hist[t + 1 - 1], hist[t + 1]);
      StoreKeepsReader(N, hist[t], hist[t + 1], k, r);
      WaitKeepsReader(N, hist, k, r, t + 1, u);
    }
  }

  lemma {:induction false} DescentKeepsReader(N: Fanout, hist: seq<Snap>, k: int, run: seq<Moment>, i: nat)
    requires Safe(N, hist) && Descent(hist, k, run) && i < |run|
    ensures ReaderOk(hist[run[i].time], k, run[i].reader)
  {
    if i > 0 {
      DescentKeepsReader(N, hist, k, run, i - 1);
      WaitKeepsReader(N, hist, k, run[i - 1].reader, run[i - 1].time, run[i].time);
      AccessKeepsReader(N, hist[run[i].time], k, run[i - 1].reader);
    }
  }

  /**
   However stores interleave with a descent, it never follows a null or foreign
   pointer, nor leaves an array: at any moment u from now on the next access is good.
   */
  lemma DescentNeverFaults(N: Fanout, hist: seq<Snap>, k: int, run: seq<Moment>, u: nat)
    requires Safe(N, hist) && Descent(hist, k, run)
    requires run[|run| - 1].time <= u < |hist|
    ensures run[|run| - 1].reader.Done? || CanAccess(hist[u], run[|run| - 1].reader)
  {
    var last := run[|run| - 1];
    DescentKeepsReader(N, hist, k, run, |run| - 1);
    WaitKeepsReader(N, hist, k, last.reader, last.time, u);
    if !last.reader.Done? {
      AccessKeepsReader(N, hist[u], k, last.reader);
    }
  }

  /**
   A descent that ends, ends at a leaf whose fixed lower end is below the key,
   at that moment and at every later one.
   */
  lemma DescentEndsBelowKey(N: Fanout, hist: seq<Snap>, k: int, run: seq<Moment>, u: nat)
    requires Safe(N, hist) && Descent(hist, k, run) && run[|run| - 1].reader.Done?
    requires run[|run| - 1].time <= u < |hist|
    ensures var leaf := run[|run| - 1].reader.leaf;
            leaf in hist[u].h && hist[u].h[leaf].isLeaf && Below(hist[u].h[leaf].low, k)
  {
    var last := run[|run| - 1];
    DescentKeepsReader(N, hist, k, run, |run| - 1);
    WaitKeepsReader(N, hist, k, last.reader, last.time, u);
  }

  // ---- the descent takes boundedly many accesses, whatever is stored meanwhile

  // Accesses still to come at most, once the root pointer has been read.
  ghost function Work(N: Fanout, s: Snap, r: Reader): int
    requires r.Done? || (!r.Start? && CanAccess(s, r))
  {
    match r
    case Done(_) => 0
    case Visit(n) => s.h[n].level * (N + 3) + 1
    case Load(n) => s.h[n].level * (N + 3)
    case Scan(n, nk, kid) => s.h[n].level * (N + 3) - 1 - kid
    case Fetch(n, kid) => s.h[n].level * (N + 3) - (N + 1)
  }

  lemma AccessDoesWork(N: Fanout, s: Snap, k: int, r: Reader)
    requires Readable(N, s) && ReaderOk(s, k, r) && !r.Done? && !r.Start? && CanAccess(s, r)
    requires Next(s, k, r).Done? || CanAccess(s, Next(s, k, r))
    ensures 0 <= Work(N, s, Next(s, k, r)) < Work(N, s, r)
  {
    var n := match r case Visit(n) => n case Load(n) => n case Scan(n, _, _) => n case Fetch(n, _) => n;
    assert RecOk(N, s.h, s.h[n]);
    if r.Fetch? {
      assert SlotOk(s.h, s.h[n], r.kid);
      assert (s.h[n].level - 1) * (N + 3) == s.h[n].level * (N + 3) - (N + 3);
    } else if !s.h[n].isLeaf {
      assert s.h[n].level * (N + 3) >= N + 3;
    }
  }

  lemma {:induction false} LevelsAreFixed(N: Fanout, hist: seq<Snap>, n: Node, t: nat, u: nat)
    requires Safe(N, hist) && t <= u < |hist| && n in hist[t].h
    ensures n in hist[u].h && hist[u].h[n].level == hist[t].h[n].level
    decreases u - t
  {
    if t < u {
      assert SnapStep(hist[t + 1 - 1], hist[t + 1]);
      assert RecStep(hist[t].h[n], hist[t + 1].h[n]);
      LevelsAreFixed(N, hist, n, t + 1, u);
    }
  }

  // After i accesses at most the work of the root that was read, minus i - 1, is left.
  lemma {:induction false} DescentWork(N: Fanout, hist: seq<Snap>, k: int, run: seq<Moment>, i: nat)
    requires Safe(N, hist) && Descent(hist, k, run) && 0 < i < |run|
    ensures var r, root := run[i].reader, hist[run[1].time].root;
            && (r.Done? || (!r.Start? && CanAccess(hist[run[i].time], r)))
            && 0 <= Work(N, hist[run[i].time], r)
            && Work(N, hist[run[i].time], r) + i <= hist[run[1].time].h[root].level * (N + 3) + 2
  {
    var s := hist[run[i].time];
    DescentKeepsReader(N, hist, k, run, i);
    if !run[i].reader.Done? {
      AccessKeepsReader(N, s, k, run[i].reader);
    }
    assert Readable(N, s);
    if i > 1 {
      DescentWork(N, hist, k, run, i - 1);
      var r := run[i - 1].reader;
      DescentKeepsReader(N, hist, k, run, i - 1);
      WaitKeepsReader(N, hist, k, r, run[i - 1].time, run[i].time);
      AccessDoesWork(N, s, k, r);
      var n := match r case Visit(n) => n case Load(n) => n case Scan(n, _, _) => n case Fetch(n, _) => n;
      LevelsAreFixed(N, hist, n, run[i - 1].time, run[i].time);
    }
  }

  // No descent makes more accesses than (level of the root it read) * (N + 3) + 2.
  lemma DescentIsBounded(N: Fanout, hist: seq<Snap>, k: int, run: seq<Moment>)
    requires Safe(N, hist) && Descent(hist, k, run) && |run| > 1
    ensures hist[run[1].time].root in hist[run[1].time].h
    ensures |run| - 1 <= hist[run[1].time].h[hist[run[1].time].root].level * (N + 3) + 2
  {
    assert Readable(N, hist[run[1].time]);
    DescentWork(N, hist, k, run, |run| - 1);
  }
}
