/**
 Right links under concurrent writers. A split reads a right link, copies it into the
 right half (line 279) and overwrites it (line 282). This says exactly when nothing is
 lost on the way, for any number of writers.
 */
module BlinkLinks {
  import opened BlinkLocks
  import opened BlinkCuts

  ghost predicate Links(s: State, p: Id, n: Id) {
    p in s.nodes && s.nodes[p].right == Just(n)
  }

  // Between reading the right link of curr and overwriting it.
  predicate Copied(pc: Pc) {
    pc.Loaded? || pc.HalfLinked?
  }

  // The link of curr is still the one that was read.
  ghost predicate CopyHolds(s: State, t: Tid) {
    t in s.pc && (Copied(s.pc[t]) ==> s.pc[t].curr in s.nodes && s.nodes[s.pc[t].curr].right == s.pc[t].x)
  }

  // No split that makes n is under way.
  ghost predicate Finished(s: State, n: Id) {
    forall t {:trigger s.pc[t]} :: t in s.pc ==> Making(s.pc[t]) != Just(n)
  }

  ghost predicate HasLeft(s: State, n: Id) {
    exists p :: NextTo(s, p, n)
  }

  ghost predicate IsLinked(s: State, n: Id) {
    exists p :: Links(s, p, n)
  }

  // A finished node that is not the first of its level is on some right link.
  ghost predicate Found(s: State, n: Id) {
    Finished(s, n) && HasLeft(s, n) ==> IsLinked(s, n)
  }

  ghost predicate OnLevel(s: State, n: Id, level: nat) {
    n in s.nodes && s.nodes[n].level == level
  }

  // t is between allocating the right half of a node on this level and linking it.
  ghost predicate SplitsOn(s: State, t: Tid, level: nat) {
    t in s.pc && Making(s.pc[t]).Just? && OnLevel(s, s.pc[t].curr, level)
  }

  // No link is lost on this level, neither one that a split has read nor one to a finished node.
  ghost predicate Whole(s: State, level: nat) {
    && (forall t {:trigger CopyHolds(s, t)} :: SplitsOn(s, t, level) ==> CopyHolds(s, t))
    && forall n {:trigger Found(s, n)} :: OnLevel(s, n, level) ==> Found(s, n)
  }

  /**
   What makes line 279 harmless: the right half has no link yet, and if the link to be
   stored is not NULL, no other writer has read the NULL in order to split the half.
   */
  ghost predicate LinkSafe(s: State, t: Tid) {
    t in s.pc && s.pc[t].Loaded? && s.pc[t].m in s.nodes &&
    s.nodes[s.pc[t].m].right == Nothing &&
    (s.pc[t].x == Nothing || forall u {:trigger s.pc[u]} :: u in s.pc && Copied(s.pc[u]) ==> s.pc[u].curr != s.pc[t].m)
  }

  // ---- what goes with it

  ghost predicate LinksFrom(s: State, p: Id, n: Id, m: Id) {
    Links(s, p, n) && p in s.place && m in s.place && s.place[m] <= s.place[p]
  }

  // Once copied, the link is also found at the right half or further right.
  ghost predicate CopyFound(s: State, t: Tid) {
    t in s.pc && (s.pc[t].HalfLinked? && s.pc[t].x.Just? ==> exists p :: LinksFrom(s, p, s.pc[t].x.id, s.pc[t].m))
  }

  ghost predicate Copies(s: State, u: Tid, p: Id, n: Id) {
    u in s.pc && s.pc[u].HalfLinked? && s.pc[u].curr == p && s.pc[u].x == Just(n)
  }

  // Two links to one node: the left one is about to be overwritten.
  ghost predicate Twice(s: State, p: Id, q: Id, n: Id) {
    Links(s, p, n) && Links(s, q, n) && p in s.place && q in s.place && s.place[p] < s.place[q] ==>
      exists u :: Copies(s, u, p, n)
  }

  // The right half is allocated, and line 279 not reached.
  predicate Early(pc: Pc) {
    pc.Splitting? || pc.Loaded?
  }

  // A link put into such a half leads to where no link from further left does.
  ghost predicate OwnLink(s: State, t: Tid, p: Id, n: Id) {
    t in s.pc && (Early(s.pc[t]) && Links(s, s.pc[t].m, n) && Links(s, p, n) ==>
      LinksFrom(s, p, n, s.pc[t].m))
  }

  ghost predicate Orderly(s: State, level: nat) {
    && (forall t {:trigger CopyFound(s, t)} :: SplitsOn(s, t, level) ==> CopyFound(s, t))
    && (forall p, q, n {:trigger Twice(s, p, q, n)} :: OnLevel(s, n, level) ==> Twice(s, p, q, n))
    && (forall t, p, n {:trigger OwnLink(s, t, p, n)} :: SplitsOn(s, t, level) ==> OwnLink(s, t, p, n))
  }

  // ---- the links a step makes and takes away

  lemma LinksAfter(s: State, t: Tid, a: Action, p: Id, n: Id)
    requires Enabled(s, t, a)
    ensures !a.LinkRight? && !a.LinkLeft? ==> (Links(Do(s, t, a), p, n) <==> Links(s, p, n))
    ensures a.LinkRight? ==> (Links(Do(s, t, a), p, n) <==> if p == s.pc[t].m then s.pc[t].x == Just(n)
      else Links(s, p, n))
    ensures a.LinkLeft? ==> (Links(Do(s, t, a), p, n) <==> if p == s.pc[t].curr then s.pc[t].m == n else Links(s, p, n))
  {
    hide Placed, Locked, Next;
  }

  // The step stores a right link on this level.
  ghost predicate Relinks(s: State, t: Tid, a: Action, level: nat) {
    (a.LinkRight? || a.LinkLeft?) && SplitsOn(s, t, level)
  }

  lemma QuietLinks(s: State, t: Tid, a: Action, level: nat, p: Id, n: Id)
    requires Inv(s) && Enabled(s, t, a) && !Relinks(s, t, a, level) && (OnLevel(s, p, level) || OnLevel(s, n, level))
    ensures Links(Do(s, t, a), p, n) <==> Links(s, p, n)
  {
    LinksAfter(s, t, a, p, n);
    if a.LinkRight? || a.LinkLeft? {
      FreshNode(s, t);
      if Links(s, p, n) {
        PlacedLink(s, p, n);
      }
      assert PcOk(s, s.pc[t]);
      hide Inv, Stored, Placed, Locked, Next;
    }
  }

  lemma NewUnlinked(s: State, t: Tid, a: Action, p: Id, n: Id)
    requires Inv(s) && Enabled(s, t, a) && n !in s.nodes
    ensures !Links(Do(s, t, a), p, n)
  {
    LinksAfter(s, t, a, p, n);
    assert PcOk(s, s.pc[t]);
    if Links(s, p, n) {
      PlacedLink(s, p, n);
    }
    hide Inv, Stored, Placed, Locked, Next;
  }

  lemma OneHolder(s: State, t: Tid, u: Tid, n: Id)
    requires Inv(s) && t in s.pc && u in s.pc && n in Held(s.pc[t]) && n in Held(s.pc[u])
    ensures t == u
  {
    hide LinkOk, FreshOk, PcOk, Held;
    assert OwnsOk(s, t) && OwnsOk(s, u);
  }

  lemma SplitterHolds(pc: Pc)
    requires pc.Splitting? || pc.Loaded? || pc.HalfLinked?
    ensures pc.curr in Held(pc)
  {
  }

  lemma PlacedLink(s: State, p: Id, n: Id)
    requires Inv(s) && Links(s, p, n)
    ensures p in s.place && n in s.place && n in s.nodes && NextTo(s, p, n)
  {
    hide OwnsOk, FreshOk, PcOk;
    assert LinkOk(s, p);
  }

  lemma FromKept(s: State, t: Tid, a: Action, p: Id, n: Id, m: Id)
    requires Inv(s) && Enabled(s, t, a) && LinksFrom(s, p, n, m) && Links(Do(s, t, a), p, n)
    ensures LinksFrom(Do(s, t, a), p, n, m)
  {
    StepPlaces(s, t, a, p, m);
    hide Inv, Enabled, Stored, Placed, Locked, Next;
  }

  // ---- every step keeps it, if line 279 is harmless

  lemma OwnCopy(s: State, t: Tid, a: Action)
    requires Enabled(s, t, a) && PcOk(s, s.pc[t]) && CopyHolds(s, t)
    ensures CopyHolds(Do(s, t, a), t)
  {
    hide Placed, Locked;
  }

  lemma OthersCopy(s: State, t: Tid, a: Action, u: Tid)
    requires Inv(s) && Enabled(s, t, a) && u in s.pc && u != t && CopyHolds(s, u)
    requires a.LinkRight? && Copied(s.pc[u]) && s.pc[u].curr == s.pc[t].m ==> LinkSafe(s, t)
    ensures CopyHolds(Do(s, t, a), u)
  {
    hide Inv, Placed, Locked, Next, Held;
    if Copied(s.pc[u]) {
      StepKeys(s, t, a);
      if a.LinkLeft? && s.pc[t].curr == s.pc[u].curr {
        SplitterHolds(s.pc[t]);
        SplitterHolds(s.pc[u]);
        OneHolder(s, t, u, s.pc[t].curr);
      }
    }
  }

  lemma KeepsCopy(s: State, t: Tid, a: Action, u: Tid, level: nat)
    requires Inv(s) && Enabled(s, t, a) && u in s.pc && (SplitsOn(s, u, level) ==> CopyHolds(s, u))
    requires a.LinkRight? && SplitsOn(s, t, level) ==> LinkSafe(s, t)
    requires SplitsOn(Do(s, t, a), u, level)
    ensures CopyHolds(Do(s, t, a), u)
  {
    SplitterAfter(s, t, a, u, level);
    hide OwnsOk, LinkOk, FreshOk, Stored, Placed, Locked, Next;
    if u == t {
      assert PcOk(s, s.pc[t]);
      if a.Alloc? {
        FirstCopy(s, t, a);
      } else {
        OwnCopy(s, t, a);
      }
    } else {
      if a.LinkRight? && Copied(s.pc[u]) && s.pc[u].curr == s.pc[t].m {
        FreshNode(s, t);
      }
      hide Enabled;
      OthersCopy(s, t, a, u);
    }
  }

  // Whoever splits on a level did so before, or allocates now.
  lemma SplitterAfter(s: State, t: Tid, a: Action, u: Tid, level: nat)
    requires Inv(s) && Enabled(s, t, a) && u in s.pc && SplitsOn(Do(s, t, a), u, level)
    ensures SplitsOn(s, u, level) || (u == t && a.Alloc?)
  {
    if u == t {
      if !a.Alloc? {
        OwnSplitter(s, t, a);
        FreshNode(s, t);
        StepStores(s, t, a, s.pc[t].curr);
      }
    } else if Making(s.pc[u]).Just? {
      FreshNode(s, u);
      StepStores(s, t, a, s.pc[u].curr);
    }
    hide Inv, Enabled, Stored, Placed, Locked, Next;
  }

  lemma OwnSplitter(s: State, t: Tid, a: Action)
    requires Enabled(s, t, a) && Making(Next(s, t, a)).Just? && !a.Alloc?
    ensures Making(s.pc[t]) == Making(Next(s, t, a)) && s.pc[t].curr == Next(s, t, a).curr
  {
  }

  lemma FirstCopy(s: State, t: Tid, a: Action)
    requires Enabled(s, t, a) && a.Alloc?
    ensures CopyHolds(Do(s, t, a), t) && CopyFound(Do(s, t, a), t)
  {
    hide Stored, Placed, Locked;
  }

  lemma FreshNode(s: State, t: Tid)
    requires Inv(s) && t in s.pc && Making(s.pc[t]).Just?
    ensures var c, m := s.pc[t].curr, s.pc[t].m;
      && m in s.nodes && c in s.nodes && c in s.place && m in s.place && s.place[m] == s.place[c] + 1
      && (forall n :: !Links(s, n, m)) && NextTo(s, c, m)
      && (forall u :: u in s.pc && u != t ==> Making(s.pc[u]) != Just(m))
  {
    hide LinkOk, OwnsOk;
    assert FreshOk(s, t) && PcOk(s, s.pc[t]);
  }

  lemma QuietOwnLink(s: State, t: Tid, a: Action, u: Tid, p: Id, n: Id, level: nat)
    requires Inv(s) && Enabled(s, t, a) && SplitsOn(s, u, level) && OwnLink(s, u, p, n) && !Relinks(s, t, a, level)
    requires SplitsOn(Do(s, t, a), u, level) && !(u == t && a.Alloc?)
    ensures OwnLink(Do(s, t, a), u, p, n)
  {
    var s' := Do(s, t, a);
    FreshNode(s, u);
    if u == t {
      OwnSplitter(s, t, a);
    }
    hide Inv, Placed, Locked, Stored, LinksFrom;
    if Early(s'.pc[u]) && Links(s', s'.pc[u].m, n) && Links(s', p, n) {
      QuietLinks(s, t, a, level, s.pc[u].m, n);
      PlacedLink(s, s.pc[u].m, n);
      QuietLinks(s, t, a, level, p, n);
      assert Early(s.pc[u]);
      FromKept(s, t, a, p, n, s.pc[u].m);
    }
  }

  lemma RightOwnLink(s: State, t: Tid, u: Tid, p: Id, n: Id)
    requires Inv(s) && Enabled(s, t, LinkRight) && u in s.pc && u != t && CopyHolds(s, t)
    requires OwnLink(s, u, p, n) && OwnLink(s, u, s.pc[t].curr, n)
    ensures OwnLink(Do(s, t, LinkRight), u, p, n)
  {
    FreshNode(s, t);
    hide Inv, Locked, Next, Stored;
    if Early(s.pc[u]) {
      LinksAfter(s, t, LinkRight, s.pc[u].m, n);
      LinksAfter(s, t, LinkRight, p, n);
    }
  }

  lemma LeftOwnLink(s: State, t: Tid, u: Tid, p: Id, n: Id)
    requires Inv(s) && Enabled(s, t, LinkLeft) && u in s.pc && u != t
    requires OwnLink(s, u, p, n)
    ensures OwnLink(Do(s, t, LinkLeft), u, p, n)
  {
    FreshNode(s, t);
    hide Inv, Locked, Next, Stored;
    if Early(s.pc[u]) {
      LinksAfter(s, t, LinkLeft, s.pc[u].m, n);
      LinksAfter(s, t, LinkLeft, p, n);
    }
  }

  lemma FirstOwnLink(s: State, t: Tid, a: Action, p: Id, n: Id)
    requires Inv(s) && Enabled(s, t, a) && a.Alloc?
    ensures OwnLink(Do(s, t, a), t, p, n)
  {
    LinksAfter(s, t, a, a.m, n);
    hide Stored, Placed, Locked;
  }

  lemma KeepsOwnLink(s: State, t: Tid, a: Action, u: Tid, p: Id, n: Id, level: nat)
    requires Inv(s) && Enabled(s, t, a) && SplitsOn(Do(s, t, a), u, level)
    requires u in s.pc && (SplitsOn(s, t, level) ==> CopyHolds(s, t))
    requires SplitsOn(s, u, level) ==> OwnLink(s, u, p, n) && (Making(s.pc[t]).Just? ==> OwnLink(s, u, s.pc[t].curr, n))
    ensures OwnLink(Do(s, t, a), u, p, n)
  {
    SplitterAfter(s, t, a, u, level);
    hide Inv, Stored, Placed, Locked, CopyHolds, OwnLink;
    if u == t && a.Alloc? {
      FirstOwnLink(s, t, a, p, n);
    } else if Relinks(s, t, a, level) && u != t {
      hide Next, Enabled;
      if a.LinkRight? {
        RightOwnLink(s, t, u, p, n);
      } else {
        LeftOwnLink(s, t, u, p, n);
      }
    } else if Relinks(s, t, a, level) {
      LateOwnLink(s, t, a, p, n);
    } else {
      QuietOwnLink(s, t, a, u, p, n, level);
    }
  }

  lemma LateOwnLink(s: State, t: Tid, a: Action, p: Id, n: Id)
    requires Enabled(s, t, a) && (a.LinkRight? || a.LinkLeft?)
    ensures OwnLink(Do(s, t, a), t, p, n)
  {
    hide Stored, Placed, Locked;
  }

  // ---- two links to one node

  lemma QuietTwice(s: State, t: Tid, a: Action, p: Id, q: Id, n: Id, level: nat)
    requires Inv(s) && Enabled(s, t, a) && OnLevel(s, n, level) && Twice(s, p, q, n) && !Relinks(s, t, a, level)
    ensures Twice(Do(s, t, a), p, q, n)
  {
    var s' := Do(s, t, a);
    QuietLinks(s, t, a, level, p, n);
    QuietLinks(s, t, a, level, q, n);
    if Links(s, p, n) && Links(s, q, n) {
      PlacedLink(s, p, n);
      PlacedLink(s, q, n);
      StepPlaces(s, t, a, p, q);
      assert OnLevel(s, p, level);
      if u :| Copies(s, u, p, n) {
        QuietCopies(s, t, a, u, p, n, level);
      }
      hide Inv, Stored, Placed, Locked, Links, Next, Enabled;
    }
  }

  lemma QuietCopies(s: State, t: Tid, a: Action, u: Tid, p: Id, n: Id, level: nat)
    requires Enabled(s, t, a) && OnLevel(s, p, level) && Copies(s, u, p, n) && !Relinks(s, t, a, level)
    ensures Copies(Do(s, t, a), u, p, n)
  {
    hide Stored, Placed, Locked;
  }

  lemma LeftTwice(s: State, t: Tid, p: Id, q: Id, n: Id)
    requires Inv(s) && Enabled(s, t, LinkLeft) && Twice(s, p, q, n)
    ensures Twice(Do(s, t, LinkLeft), p, q, n)
  {
    var s' := Do(s, t, LinkLeft);
    FreshNode(s, t);
    LinksAfter(s, t, LinkLeft, p, n);
    LinksAfter(s, t, LinkLeft, q, n);
    hide Inv, Stored, Locked, Links;
    if u :| Copies(s, u, p, n) {
      assert u != t ==> Copies(s', u, p, n);
    }
  }

  // Nobody else is between copying and overwriting the link of a node that t is splitting.
  lemma OneCopies(s: State, t: Tid, u: Tid, n: Id)
    requires Inv(s) && t in s.pc && Making(s.pc[t]).Just? && Copies(s, u, s.pc[t].curr, n)
    ensures u == t
  {
    hide Inv;
    SplitterHolds(s.pc[t]);
    SplitterHolds(s.pc[u]);
    OneHolder(s, t, u, s.pc[t].curr);
  }

  lemma RightTwice(s: State, t: Tid, p: Id, q: Id, n: Id)
    requires Inv(s) && Enabled(s, t, LinkRight) && CopyHolds(s, t)
    requires Twice(s, p, q, n) && Twice(s, p, s.pc[t].curr, n) && Twice(s, s.pc[t].curr, q, n)
    ensures Twice(Do(s, t, LinkRight), p, q, n)
  {
    var s', c, m := Do(s, t, LinkRight), s.pc[t].curr, s.pc[t].m;
    FreshNode(s, t);
    LinksAfter(s, t, LinkRight, p, n);
    LinksAfter(s, t, LinkRight, q, n);
    hide Stored, Locked;
    if Links(s', p, n) && Links(s', q, n) && p in s.place && q in s.place && s.place[p] < s.place[q] {
      if q == m && p == c {
        assert Copies(s', t, p, n);
      } else {
        if q == m {
          OnlyOnePlace(s, p, c);
        }
        var u :| Copies(s, u, if p == m then c else p, n);
        if p == m {
          OneCopies(s, t, u, n);
        }
        assert Copies(s', u, p, n);
      }
    }
  }

  lemma OnlyOnePlace(s: State, p: Id, c: Id)
    requires Inv(s) && p in s.place && c in s.place
    ensures s.place[p] == s.place[c] ==> p == c
  {
  }

  // ---- copies are found

  lemma OthersCopyFound(s: State, t: Tid, a: Action, u: Tid, level: nat)
    requires Inv(s) && Enabled(s, t, a) && SplitsOn(s, u, level) && u != t && CopyFound(s, u)
    requires SplitsOn(s, t, level) ==> CopyHolds(s, t) && CopyFound(s, t) && (a.LinkRight? ==> LinkSafe(s, t))
    ensures CopyFound(Do(s, t, a), u)
  {
    hide Inv, Stored, Placed, Locked, Next;
    if s.pc[u].HalfLinked? && s.pc[u].x.Just? {
      var n, m := s.pc[u].x.id, s.pc[u].m;
      var p :| LinksFrom(s, p, n, m);
      CopyOnLevel(s, u, level);
      if Relinks(s, t, a, level) {
        LinksAfter(s, t, a, p, n);
        if a.LinkLeft? && p == s.pc[t].curr {
          FreshNode(s, t);
          p :| LinksFrom(s, p, n, s.pc[t].m);
          LinksAfter(s, t, a, p, n);
        }
      } else {
        QuietLinks(s, t, a, level, p, n);
      }
      hide Enabled, LinkSafe, CopyHolds, OnLevel;
      FromKept(s, t, a, p, n, m);
    }
  }

  lemma CopyOnLevel(s: State, u: Tid, level: nat)
    requires Inv(s) && SplitsOn(s, u, level) && s.pc[u].HalfLinked? && s.pc[u].x.Just?
    ensures OnLevel(s, s.pc[u].x.id, level)
  {
    hide OwnsOk, LinkOk, FreshOk;
    assert PcOk(s, s.pc[u]);
  }

  lemma OwnCopyFound(s: State, t: Tid, a: Action)
    requires Inv(s) && Enabled(s, t, a)
    ensures CopyFound(Do(s, t, a), t)
  {
    var s' := Do(s, t, a);
    if a.LinkRight? && s.pc[t].x.Just? {
      FreshNode(s, t);
      LinksAfter(s, t, a, s.pc[t].m, s.pc[t].x.id);
      hide Inv, Stored;
      assert LinksFrom(s', s.pc[t].m, s.pc[t].x.id, s.pc[t].m);
    } else {
      hide Inv, Stored, Placed, Locked;
    }
  }

  // ---- finished nodes are found

  lemma MakingAfter(s: State, t: Tid, a: Action, n: Id)
    requires Enabled(s, t, a) && Finished(Do(s, t, a), n)
    ensures (a.LinkLeft? && s.pc[t].m == n) || Finished(s, n)
    ensures a.Alloc? ==> n != a.m
  {
    var s' := Do(s, t, a);
    assert a.Alloc? ==> Making(s'.pc[t]) == Just(a.m);
    assert Making(s.pc[t]).Just? ==> a.LinkLeft? || Making(s'.pc[t]) == Making(s.pc[t]);
    hide Stored, Placed, Locked, Next, Enabled;
    forall u | u in s.pc && u != t ensures Making(s.pc[u]) != Just(n) {
      assert s'.pc[u] == s.pc[u];
    }
    assert Making(s'.pc[t]) != Just(n);
  }

  lemma LeftAfter(s: State, t: Tid, a: Action, n: Id)
    requires Inv(s) && TopOk(s) && Enabled(s, t, a) && HasLeft(Do(s, t, a), n) && (a.Alloc? ==> n != a.m)
    ensures n in s.nodes && HasLeft(s, n)
  {
    var s' := Do(s, t, a);
    var p :| NextTo(s', p, n);
    if a.Alloc? {
      StepKeys(s, t, a);
      hide Inv, TopOk, Stored, Placed, Locked, Next, NextTo;
      InNodes(s', p, n);
      if p == a.m {
        CutNext(s, t, a.m, a.low, n);
        assert NextTo(s, s.pc[t].curr, n);
      } else {
        CutOthers(s, t, a.m, a.low, p, n);
      }
    } else {
      hide Inv, TopOk, Stored, Placed, Locked, Next;
      SameNext(s, t, a, p, n);
    }
  }

  lemma KeepsFound(s: State, t: Tid, a: Action, n: Id, level: nat)
    requires Inv(s) && TopOk(s) && Enabled(s, t, a) && (OnLevel(s, n, level) ==> Found(s, n))
    requires OnLevel(Do(s, t, a), n, level)
    requires SplitsOn(s, t, level) ==> CopyHolds(s, t) && CopyFound(s, t) && (a.LinkRight? ==> LinkSafe(s, t))
    ensures Found(Do(s, t, a), n)
  {
    var s' := Do(s, t, a);
    hide Inv, TopOk, Stored, Placed, Locked, Next;
    if Finished(s', n) && HasLeft(s', n) {
      MakingAfter(s, t, a, n);
      if a.LinkLeft? && s.pc[t].m == n {
        LinksAfter(s, t, a, s.pc[t].curr, n);
      } else {
        LeftAfter(s, t, a, n);
        StepStores(s, t, a, n);
        hide Finished, HasLeft;
        var p :| Links(s, p, n);
        if Relinks(s, t, a, level) {
          LinksAfter(s, t, a, p, n);
          if a.LinkLeft? && p == s.pc[t].curr {
            FreshNode(s, t);
            p :| LinksFrom(s, p, n, s.pc[t].m);
            LinksAfter(s, t, a, p, n);
          }
        } else {
          QuietLinks(s, t, a, level, p, n);
        }
        assert Links(s', p, n);
      }
    }
  }

  // ---- one step

  ghost predicate SafeStep(s: State, t: Tid, a: Action, level: nat) {
    a.LinkRight? && SplitsOn(s, t, level) ==> LinkSafe(s, t)
  }

  lemma SafeStepKeepsWhole(s: State, t: Tid, a: Action, level: nat)
    requires Inv(s) && TopOk(s) && Whole(s, level) && Enabled(s, t, a) && Orderly(s, level) && SafeStep(s, t, a, level)
    ensures Whole(Do(s, t, a), level)
  {
    var s' := Do(s, t, a);
    assert SplitsOn(s, t, level) ==> CopyHolds(s, t) && CopyFound(s, t);
    hide Inv, TopOk, Enabled, CopyHolds, CopyFound, Found, Twice, OwnLink, LinkSafe, Stored, Placed, Locked, Next;
    hide SplitsOn, OnLevel;
    forall u | SplitsOn(s', u, level) ensures CopyHolds(s', u) {
      SamePc(s, t, a, u, level);
      KeepsCopy(s, t, a, u, level);
    }
    forall n | OnLevel(s', n, level) ensures Found(s', n) {
      KeepsFound(s, t, a, n, level);
    }
  }

  lemma SafeStepKeepsOrder(s: State, t: Tid, a: Action, level: nat)
    requires Inv(s) && TopOk(s) && Whole(s, level) && Enabled(s, t, a) && Orderly(s, level) && SafeStep(s, t, a, level)
    ensures Orderly(Do(s, t, a), level)
  {
    var s' := Do(s, t, a);
    assert SplitsOn(s, t, level) ==> CopyHolds(s, t) && CopyFound(s, t);
    hide Inv, TopOk, Enabled, CopyHolds, CopyFound, Found, Twice, OwnLink, LinkSafe, Stored, Placed, Locked, Next;
    hide SplitsOn, OnLevel;
    forall u | SplitsOn(s', u, level) ensures CopyFound(s', u) {
      SamePc(s, t, a, u, level);
      KeepsCopyFound(s, t, a, u, level);
    }
    forall p, q, n | OnLevel(s', n, level) ensures Twice(s', p, q, n) {
      KeepsTwice(s, t, a, p, q, n, level);
    }
    forall u, p, n | SplitsOn(s', u, level) ensures OwnLink(s', u, p, n) {
      SamePc(s, t, a, u, level);
      assert SplitsOn(s, u, level) ==> OwnLink(s, u, p, n);
      assert forall c :: SplitsOn(s, u, level) ==> OwnLink(s, u, c, n);
      KeepsOwnLink(s, t, a, u, p, n, level);
    }
  }

  lemma SamePc(s: State, t: Tid, a: Action, u: Tid, level: nat)
    requires Enabled(s, t, a) && SplitsOn(Do(s, t, a), u, level)
    ensures u in s.pc
  {
  }

  lemma KeepsCopyFound(s: State, t: Tid, a: Action, u: Tid, level: nat)
    requires Inv(s) && Enabled(s, t, a) && u in s.pc && SplitsOn(Do(s, t, a), u, level)
    requires SplitsOn(s, u, level) ==> CopyFound(s, u)
    requires SplitsOn(s, t, level) ==> CopyHolds(s, t) && CopyFound(s, t) && (a.LinkRight? ==> LinkSafe(s, t))
    ensures CopyFound(Do(s, t, a), u)
  {
    SplitterAfter(s, t, a, u, level);
    hide Inv, Enabled, CopyHolds, CopyFound, LinkSafe, Stored, Placed, Locked, Next;
    if u == t {
      OwnCopyFound(s, t, a);
    } else {
      OthersCopyFound(s, t, a, u, level);
    }
  }

  lemma KeepsTwice(s: State, t: Tid, a: Action, p: Id, q: Id, n: Id, level: nat)
    requires Inv(s) && Enabled(s, t, a) && (SplitsOn(s, t, level) ==> CopyHolds(s, t))
    requires forall p, q, n {:trigger Twice(s, p, q, n)} :: OnLevel(s, n, level) ==> Twice(s, p, q, n)
    requires OnLevel(Do(s, t, a), n, level)
    ensures Twice(Do(s, t, a), p, q, n)
  {
    if n !in s.nodes {
      NewUnlinked(s, t, a, p, n);
      hide Inv, Enabled, Stored, Placed, Locked, Next;
    } else {
      StepStores(s, t, a, n);
      hide Inv, Stored, Placed, Locked, Next, Twice;
      assert OnLevel(s, n, level) && Twice(s, p, q, n);
      if Relinks(s, t, a, level) {
        assert Twice(s, p, s.pc[t].curr, n) && Twice(s, s.pc[t].curr, q, n);
        if a.LinkRight? {
          RightTwice(s, t, p, q, n);
        } else {
          LeftTwice(s, t, p, q, n);
        }
      } else {
        QuietTwice(s, t, a, p, q, n, level);
      }
    }
  }

  // The link that t stores is not one that has been put into the half already.
  lemma OtherLink(s: State, t: Tid)
    requires Inv(s) && Enabled(s, t, LinkRight) && CopyHolds(s, t)
    requires s.pc[t].x.Just? ==> OwnLink(s, t, s.pc[t].curr, s.pc[t].x.id)
    ensures s.nodes[s.pc[t].m].right.Just? ==> s.nodes[s.pc[t].m].right != s.pc[t].x
  {
    FreshNode(s, t);
    hide Inv;
  }

  lemma LosesCopy(s: State, t: Tid, u: Tid)
    requires Inv(s) && Enabled(s, t, LinkRight) && CopyHolds(s, t) && CopyHolds(s, u)
    requires s.pc[t].x.Just? ==> OwnLink(s, t, s.pc[t].curr, s.pc[t].x.id)
    requires Copied(s.pc[u]) && s.pc[u].curr == s.pc[t].m
    requires s.nodes[s.pc[t].m].right.Just? || s.pc[t].x.Just?
    ensures !CopyHolds(Do(s, t, LinkRight), u)
  {
    OtherLink(s, t);
    FreshNode(s, t);
    hide Inv, Placed, Locked, OwnLink;
  }

  // No link other than the half's own leads where that one does.
  lemma OnlyOwnLink(s: State, t: Tid, p: Id, y: Id, level: nat)
    requires Inv(s) && Orderly(s, level) && SplitsOn(s, t, level) && Early(s.pc[t]) && OnLevel(s, y, level)
    requires Links(s, s.pc[t].m, y) && Links(s, p, y)
    requires forall u {:trigger s.pc[u]} :: u in s.pc && Copied(s.pc[u]) ==> s.pc[u].curr != s.pc[t].m
    ensures p == s.pc[t].m
  {
    var m := s.pc[t].m;
    PlacedLink(s, p, y);
    PlacedLink(s, m, y);
    OnlyOnePlace(s, p, m);
    hide Inv;
    assert OwnLink(s, t, p, y) && Twice(s, m, p, y);
    forall u ensures !Copies(s, u, m, y) {
    }
  }

  lemma LosesNode(s: State, t: Tid, y: Id, level: nat)
    requires Inv(s) && TopOk(s) && Orderly(s, level) && Enabled(s, t, LinkRight) && SplitsOn(s, t, level)
    requires CopyHolds(s, t) && Links(s, s.pc[t].m, y)
    requires forall u {:trigger s.pc[u]} :: u in s.pc && Copied(s.pc[u]) ==> s.pc[u].curr != s.pc[t].m
    ensures OnLevel(s, y, level) && OnLevel(Do(s, t, LinkRight), y, level) && !Found(Do(s, t, LinkRight), y)
  {
    var s', m := Do(s, t, LinkRight), s.pc[t].m;
    PlacedLink(s, m, y);
    FreshNode(s, t);
    assert OnLevel(s, y, level);
    StepStores(s, t, LinkRight, y);
    SameNext(s, t, LinkRight, m, y);
    assert HasLeft(s', y);
    StaysFinished(s, t, m, y);
    assert s.pc[t].x.Just? ==> OwnLink(s, t, s.pc[t].curr, s.pc[t].x.id);
    OtherLink(s, t);
    hide Inv, TopOk, Orderly, Stored, Placed, Locked, Next;
    forall p ensures !Links(s', p, y) {
      LinksAfter(s, t, LinkRight, p, y);
      if Links(s, p, y) {
        OnlyOwnLink(s, t, p, y, level);
      }
    }
  }

  lemma StaysFinished(s: State, t: Tid, m: Id, y: Id)
    requires Inv(s) && Enabled(s, t, LinkRight) && Links(s, m, y)
    ensures Finished(Do(s, t, LinkRight), y)
  {
    var s' := Do(s, t, LinkRight);
    forall u | u in s.pc ensures Making(s'.pc[u]) != Just(y) {
      assert Making(s'.pc[u]) == Making(s.pc[u]);
      hide Enabled, Stored, Placed, Locked, Next;
      if Making(s.pc[u]) == Just(y) {
        FreshNode(s, u);
      }
    }
  }

  lemma UnsafeStepLoses(s: State, t: Tid, level: nat)
    requires Inv(s) && TopOk(s) && Whole(s, level) && Orderly(s, level) && Enabled(s, t, LinkRight)
    requires SplitsOn(s, t, level) && !LinkSafe(s, t)
    ensures !Whole(Do(s, t, LinkRight), level)
  {
    var s' := Do(s, t, LinkRight);
    assert CopyHolds(s, t);
    FreshNode(s, t);
    var m := s.pc[t].m;
    if u :| u in s.pc && Copied(s.pc[u]) && s.pc[u].curr == m {
      assert s.pc[t].x.Just? ==> OwnLink(s, t, s.pc[t].curr, s.pc[t].x.id);
      assert SplitsOn(s, u, level) && CopyHolds(s, u);
      StepStores(s, t, LinkRight, m);
      LosesCopy(s, t, u);
      hide Inv, TopOk, Orderly, Stored, Placed, Locked, CopyHolds;
      assert u != t;
      assert SplitsOn(s', u, level);
    } else {
      StepKeys(s, t, LinkRight);
      hide Inv, TopOk, Orderly, Stored, Placed, Locked, Next;
      LosesNode(s, t, s.nodes[m].right.id, level);
    }
  }

  // ---- runs

  lemma InitIsWhole(s: State, level: nat)
    requires Init(s)
    ensures Whole(s, level) && Orderly(s, level)
  {
  }

  ghost predicate LinksSafe(states: seq<State>, moves: seq<Move>, i: nat, level: nat)
    requires Run(states, moves) && i < |states|
  {
    forall k {:trigger moves[k]} :: 0 <= k < i ==> SafeStep(states[k], moves[k].t, moves[k].a, level)
  }

  ghost predicate WholeUpTo(states: seq<State>, i: nat, level: nat)
    requires i < |states|
  {
    forall k {:trigger states[k]} :: 0 <= k <= i ==> Whole(states[k], level)
  }

  /**
   For every run of any number of writers, and every level: no right link is ever lost if and
   only if every store of line 279 was harmless when it was made.
   */
  lemma {:induction false} WholeIff(states: seq<State>, moves: seq<Move>, i: nat, level: nat)
    requires Run(states, moves) && i < |states|
    ensures WholeUpTo(states, i, level) <==> LinksSafe(states, moves, i, level)
    ensures WholeUpTo(states, i, level) ==> Orderly(states[i], level)
  {
    hide Inv, TopOk, Whole, Orderly, Do, Enabled, LinkSafe, SplitsOn, SafeStep;
    if i == 0 {
      InitIsWhole(states[0], level);
    } else {
      var s, t, a := states[i - 1], moves[i - 1].t, moves[i - 1].a;
      hide Init;
      WholeIff(states, moves, i - 1, level);
      RunKeepsTop(states, moves, i - 1);
      assert WholeUpTo(states, i, level) <==> WholeUpTo(states, i - 1, level) && Whole(states[i], level);
      assert LinksSafe(states, moves, i, level) <==> LinksSafe(states, moves, i - 1, level) && SafeStep(s, t, a, level);
      if WholeUpTo(states, i - 1, level) {
        assert Whole(s, level);
        if SafeStep(s, t, a, level) {
          SafeStepKeepsWhole(s, t, a, level);
          SafeStepKeepsOrder(s, t, a, level);
        } else {
          UnsafeStep(s, t, a, level);
          UnsafeStepLoses(s, t, level);
        }
      }
    }
  }

  lemma UnsafeStep(s: State, t: Tid, a: Action, level: nat)
    requires !SafeStep(s, t, a, level)
    ensures a == LinkRight && SplitsOn(s, t, level) && !LinkSafe(s, t)
  {
  }

  // The move reads a link, to copy it, from a half whose own link is not stored yet.
  ghost predicate EarlyCopy(s: State, move: Move, level: nat) {
    && move.a.LoadLink? && Enabled(s, move.t, move.a) && OnLevel(s, s.pc[move.t].curr, level)
    && exists u :: u in s.pc && Early(s.pc[u]) && s.pc[u].m == s.pc[move.t].curr
  }

  // A half before line 279 is as it was allocated, and no split of it has read its link.
  ghost predicate Untouched(s: State, u: Tid) {
    u in s.pc && (Early(s.pc[u]) ==>
      && s.pc[u].m in s.nodes && s.nodes[s.pc[u].m].right == Nothing
      && forall v {:trigger s.pc[v]} :: v in s.pc && Copied(s.pc[v]) ==> s.pc[v].curr != s.pc[u].m)
  }

  lemma OthersUntouched(s: State, t: Tid, a: Action, u: Tid, level: nat)
    requires Inv(s) && Enabled(s, t, a) && SplitsOn(s, u, level) && u != t && Untouched(s, u)
    requires !EarlyCopy(s, Move(t, a), level)
    ensures Untouched(Do(s, t, a), u)
  {
    hide Inv, Placed, Locked;
    var s' := Do(s, t, a);
    if Early(s.pc[u]) {
      var m := s.pc[u].m;
      FreshNode(s, u);
      StepKeys(s, t, a);
      forall v | v in s'.pc && Copied(s'.pc[v]) ensures s'.pc[v].curr != m {
        assert v != t ==> s'.pc[v] == s.pc[v];
      }
    }
  }

  lemma CurrInNodes(s: State, v: Tid)
    requires Inv(s) && v in s.pc && Copied(s.pc[v])
    ensures s.pc[v].curr in s.nodes
  {
    hide OwnsOk, LinkOk, FreshOk;
    assert PcOk(s, s.pc[v]);
  }

  lemma AllocUntouched(s: State, t: Tid, a: Action)
    requires Inv(s) && Enabled(s, t, a) && a.Alloc?
    ensures Untouched(Do(s, t, a), t)
  {
    hide Inv, Placed, Locked;
    var s' := Do(s, t, a);
    forall v | v in s'.pc && Copied(s'.pc[v]) ensures s'.pc[v].curr != a.m {
      CurrInNodes(s, v);
    }
  }

  lemma OwnUntouched(s: State, t: Tid, a: Action)
    requires Inv(s) && Enabled(s, t, a) && Untouched(s, t)
    ensures Untouched(Do(s, t, a), t)
  {
    hide Inv, Placed, Locked, Stored;
    if a.Alloc? {
      AllocUntouched(s, t, a);
    } else {
      var s' := Do(s, t, a);
      if Early(s'.pc[t]) {
        FreshNode(s, t);
        StepKeys(s, t, a);
        StillNull(s, t, a);
      }
    }
  }

  lemma StillNull(s: State, t: Tid, a: Action)
    requires Enabled(s, t, a) && Early(s.pc[t]) && Early(Next(s, t, a)) && s.pc[t].m in s.nodes
    requires s.nodes[s.pc[t].m].right == Nothing
    ensures s.pc[t].m in Stored(s, t, a) && Stored(s, t, a)[s.pc[t].m].right == Nothing
  {
  }

  lemma StepUntouched(s: State, t: Tid, a: Action, u: Tid, level: nat)
    requires Inv(s) && Enabled(s, t, a) && (SplitsOn(s, u, level) ==> Untouched(s, u))
      && !EarlyCopy(s, Move(t, a), level)
    requires SplitsOn(Do(s, t, a), u, level)
    ensures Untouched(Do(s, t, a), u)
  {
    SamePc(s, t, a, u, level);
    SplitterAfter(s, t, a, u, level);
    hide Inv, Do, EarlyCopy, Untouched;
    if u != t {
      OthersUntouched(s, t, a, u, level);
    } else if a.Alloc? {
      AllocUntouched(s, t, a);
    } else {
      OwnUntouched(s, t, a);
    }
  }

  lemma {:induction false} NoEarlyCopyUntouched(states: seq<State>, moves: seq<Move>, i: nat, u: Tid, level: nat)
    requires Run(states, moves) && i < |states| && SplitsOn(states[i], u, level)
    requires forall k {:trigger moves[k]} :: 0 <= k < i ==> !EarlyCopy(states[k], moves[k], level)
    ensures Untouched(states[i], u)
  {
    if i > 0 {
      hide Inv, Do, Enabled, EarlyCopy, Untouched, SplitsOn, Init;
      var s, t, a := states[i - 1], moves[i - 1].t, moves[i - 1].a;
      assert moves[i - 1] == Move(t, a);
      if SplitsOn(s, u, level) {
        NoEarlyCopyUntouched(states, moves, i - 1, u, level);
      }
      RunKeepsInv(states, moves, i - 1);
      StepUntouched(s, t, a, u, level);
    }
  }

  /**
   A schedule in which nobody copies the right link of a half on some level before the half's
   own link is stored loses nothing on that level.
   */
  lemma NoEarlyCopyIsWhole(states: seq<State>, moves: seq<Move>, i: nat, level: nat)
    requires Run(states, moves) && i < |states|
    requires forall k {:trigger moves[k]} :: 0 <= k < i ==> !EarlyCopy(states[k], moves[k], level)
    ensures WholeUpTo(states, i, level)
  {
    WholeIff(states, moves, i, level);
    hide WholeUpTo, EarlyCopy, Do, SplitsOn;
    forall k | 0 <= k < i ensures SafeStep(states[k], moves[k].t, moves[k].a, level) {
      if moves[k].a.LinkRight? && SplitsOn(states[k], moves[k].t, level) {
        NoEarlyCopyUntouched(states, moves, k, moves[k].t, level);
      }
    }
  }

  // ---- what a whole level is worth

  ghost predicate Between(s: State, p: Id, z: Id, n: Id) {
    NextTo(s, p, z) && NextTo(s, z, n)
  }

  // No split on this level is between allocation and line 282.
  ghost predicate NoneMade(s: State, level: nat) {
    forall t {:trigger SplitsOn(s, t, level)} :: !SplitsOn(s, t, level)
  }

  lemma AllFinished(s: State, n: Id, level: nat)
    requires Inv(s) && NoneMade(s, level) && OnLevel(s, n, level)
    ensures Finished(s, n)
  {
    hide OwnsOk, LinkOk, PcOk, FreshOk;
    forall t | t in s.pc ensures Making(s.pc[t]) != Just(n) {
      assert !SplitsOn(s, t, level);
      if Making(s.pc[t]).Just? {
        FreshNode(s, t);
      }
    }
  }

  /**
   On a whole level with no split between allocation and line 282, right links skip no node...
   */
  lemma {:induction false} LinksSkipNone(s: State, p: Id, z: Id, n: Id, level: nat)
    requires Inv(s) && Whole(s, level) && NoneMade(s, level) && Links(s, p, n) && OnLevel(s, n, level)
    ensures !Between(s, p, z, n)
    decreases if z in s.place then s.place[z] else 0
  {
    hide OwnsOk, FreshOk, PcOk, LinkOk;
    if Between(s, p, z, n) {
      AllFinished(s, z, level);
      assert HasLeft(s, z) && Found(s, z);
      var q :| Links(s, q, z);
      PlacedLink(s, q, z);
      OnlyOnePlace(s, p, q);
      hide Inv, Whole, NoneMade;
      if s.place[p] < s.place[q] {
        LinksSkipNone(s, p, q, n, level);
      } else if s.place[q] < s.place[p] {
        LinksSkipNone(s, q, p, z, level);
      }
    }
  }

  /**
   ... so they are exactly the left-to-right order of the level.
   */
  lemma LinksAreOrder(s: State, p: Id, n: Id, level: nat)
    requires Inv(s) && Whole(s, level) && NoneMade(s, level) && OnLevel(s, n, level)
    ensures Links(s, p, n) <==> NextTo(s, p, n) && forall z :: !Between(s, p, z, n)
  {
    hide OwnsOk, FreshOk, PcOk, LinkOk;
    if Links(s, p, n) {
      PlacedLink(s, p, n);
      forall z ensures !Between(s, p, z, n) {
        LinksSkipNone(s, p, z, n, level);
      }
    } else if NextTo(s, p, n) && forall z :: !Between(s, p, z, n) {
      AllFinished(s, n, level);
      assert HasLeft(s, n) && Found(s, n);
      var q :| Links(s, q, n);
      assert !Between(s, p, q, n);
      PlacedLink(s, q, n);
      LinksSkipNone(s, q, p, n, level);
      OnlyOnePlace(s, p, q);
    }
  }
}
