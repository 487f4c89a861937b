/**
 The unlocked descent while nobody stores: it visits exactly the nodes that cover the key,
 and so ends at the one leaf that decides about it.
 */
module BlinkStill {
  import opened BlinkState
  import opened BlinkShape
  import opened BlinkReader
  import opened BlinkWalk

  // Where a descent can stand in snapshot s, once it has read Root.
  ghost predicate OnCover(s: Snap, k: int, r: Reader) {
    match r
    case Start => true
    case Visit(n) => n in s.h && Covers(s.h[n], k)
    case Load(n) => n in s.h && Covers(s.h[n], k) && !s.h[n].isLeaf
    case Scan(n, nk, kid) => Passed(s, k, n, kid) && nk == s.h[n].nkey
    case Fetch(n, kid) => Passed(s, k, n, kid) && (kid < s.h[n].nkey ==> k <= s.h[n].key[kid])
    case Done(n) => n in s.h && Covers(s.h[n], k) && s.h[n].isLeaf
  }

  // The separators before kid are below k.
  ghost predicate Passed(s: Snap, k: int, n: Node, kid: int) {
    && n in s.h && Covers(s.h[n], k) && !s.h[n].isLeaf
    && 0 <= kid <= s.h[n].nkey <= |s.h[n].key|
    && (kid > 0 ==> s.h[n].key[kid - 1] < k)
  }

  lemma AccessStaysOnCover(N: Fanout, s: Snap, k: int, r: Reader)
    requires Tree(N, s.h, s.root, null) && OnCover(s, k, r) && CanAccess(s, r)
    ensures OnCover(s, k, Next(s, k, r))
  {
    hide Tree;
    match r {
      case Start => RootCoversAll(N, s.h, s.root, k);
      case Fetch(n, kid) =>
        TreeKids(N, s.h, s.root, n);
        ChildCovers(N, s.h, s.root, n, k, kid);
      case Load(n) => TreeKids(N, s.h, s.root, n);
      case _ =>
    }
  }

  // All accesses of the descent fall in snapshot s.
  ghost predicate Within(hist: seq<Snap>, run: seq<Moment>, s: Snap) {
    forall i :: 0 < i < |run| ==> run[i].time < |hist| && hist[run[i].time] == s
  }

  lemma {:induction false} StillDescent(N: Fanout, hist: seq<Snap>, k: int, run: seq<Moment>, s: Snap, i: nat)
    requires Descent(hist, k, run) && Within(hist, run, s) && Tree(N, s.h, s.root, null) && i < |run|
    ensures OnCover(s, k, run[i].reader)
  {
    if i > 0 {
      StillDescent(N, hist, k, run, s, i - 1);
      assert hist[run[i].time] == s;
      AccessStaysOnCover(N, s, k, run[i - 1].reader);
    }
  }

  /**
   In a tree in which nobody stores meanwhile, the descent ends at the one leaf that covers k,
   and that leaf holds k, and the data pointer of k, if and only if the tree does.
   */
  lemma StillDescentFinds(N: Fanout, hist: seq<Snap>, k: int, run: seq<Moment>, s: Snap, a: int)
    requires Descent(hist, k, run) && Within(hist, run, s) && Tree(N, s.h, s.root, null)
    requires run[|run| - 1].reader.Done?
    ensures var leaf := run[|run| - 1].reader.leaf;
      && leaf in s.h && s.h[leaf].isLeaf && Covers(s.h[leaf], k)
      && (forall m :: m in s.h && s.h[m].isLeaf && Covers(s.h[m], k) ==> m == leaf)
      && (Has(s.h, k) <==> KeyIn(s.h[leaf], k))
      && (Stored(s.h, k, a) <==> InLeaf(s.h[leaf], k, Item(a)))
  {
    StillDescent(N, hist, k, run, s, |run| - 1);
    var leaf := run[|run| - 1].reader.leaf;
    KeyIsInItsLeaf(N, s.h, leaf, k, a);
    forall m | m in s.h && s.h[m].isLeaf && Covers(s.h[m], k) ensures m == leaf {
      assert Base(N, s.h, s.h[m]) && Base(N, s.h, s.h[leaf]);
      CoverIsUnique(s.h, m, leaf, k);
    }
  }
}
