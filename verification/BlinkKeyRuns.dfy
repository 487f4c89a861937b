/**
 Keys in the lock protocol, for any number of writers: every insertion carries a key,
 enters at a leaf that starts below it, and moves right along the leaves as high_key
 tells it. A leaf is filled or cut in one step. Above the leaves all choices stay open.
 */
module BlinkKeyRuns {
  import opened BlinkState
  import opened BlinkLocks
  import opened BlinkWaits
  import opened BlinkLeafLinks

  // keys: what each leaf holds; key: what each thread is inserting.
  datatype Filling = Filling(keys: map<Id, set<int>>, key: map<Tid, int>)

  // high_key of n is below k: its right neighbour starts below k.
  ghost predicate GoesOn(nodes: map<Id, Spot>, n: Id, k: int) {
    && n in nodes && nodes[n].right.Just? && nodes[n].right.id in nodes
    && nodes[nodes[n].right.id].low.At? && nodes[nodes[n].right.id].low.v < k
  }

  // A step as the keys allow it; k is the key of an insertion that starts. Above the leaves all is open.
  ghost predicate Fits(s: State, f: Filling, t: Tid, a: Action, k: int) {
    Enabled(s, t, a) && EntersWell(s, a) &&
    var pc := s.pc[t];
    match a
    case Enter(leaf) => Below(s.nodes[leaf].low, k)
    case GoRight => pc.job.Key? ==> t in f.key && GoesOn(s.nodes, pc.curr, f.key[t])
    case Stay => pc.job.Key? ==> t in f.key && !GoesOn(s.nodes, pc.curr, f.key[t])
    case Room => pc.job.Key? ==> t in f.key && pc.curr in f.keys
    case Alloc(_, low) =>
      pc.job.Key? ==>
        && t in f.key && pc.curr in f.keys && low.At? && low.v in f.keys[pc.curr] + {f.key[t]}
        && exists x :: x in f.keys[pc.curr] + {f.key[t]} && low.v < x
    case _ => true
  }

  ghost function Filled(s: State, f: Filling, t: Tid, a: Action, k: int): Filling
    requires Fits(s, f, t, a, k)
  {
    var pc := s.pc[t];
    match a
    case Enter(_) => f.(key := f.key[t := k])
    case Room => if pc.job.Key? then f.(keys := f.keys[pc.curr := f.keys[pc.curr] + {f.key[t]}]) else f
    case Alloc(m, low) =>
      if pc.job.Key? then
        var temp := f.keys[pc.curr] + {f.key[t]};
        f.(keys := f.keys[pc.curr := set x | x in temp && x <= low.v][m := set x | x in temp && low.v < x])
      else f
    case _ => f
  }

  // A run of any number of writers with its keys; ks[i] is the key of an insertion that starts with move i.
  ghost predicate KeyRun(states: seq<State>, moves: seq<Move>, fs: seq<Filling>, ks: seq<int>) {
    && Run(states, moves) && |fs| == |states| && |ks| == |moves|
    && fs[0].keys == map[states[0].root := {}]
    && forall i {:trigger moves[i]} :: 0 <= i < |moves| ==>
         && Fits(states[i], fs[i], moves[i].t, moves[i].a, ks[i])
         && fs[i + 1] == Filled(states[i], fs[i], moves[i].t, moves[i].a, ks[i])
  }

  // The state a step leads to, and the leaves' keys are as they were.
  ghost predicate Leads(s: State, f: Filling, t: Tid, a: Action, s': State) {
    Fits(s, f, t, a, 0) && s' == Do(s, t, a) && f == Filled(s, f, t, a, 0)
  }

  /**
   An insertion in move_right on the leaf level: above high_key it can go on to its right neighbour
   x, once that is free, and then holds it instead; otherwise it stops where it is.
   */
  lemma KeyMovesRight(s: State, f: Filling, t: Tid) returns (s1: State, s2: State, s3: State, s4: State)
    requires t in s.pc && s.pc[t].Walking? && s.pc[t].job.Key? && t in f.key && s.pc[t].curr in s.nodes
    ensures var n := s.pc[t].curr;
      if GoesOn(s.nodes, n, f.key[t]) then
        var x := s.nodes[n].right.id;
        && Leads(s, f, t, Look, s1) && Leads(s1, f, t, GoRight, s2) && Wants(s2.pc[t]) == Just(x)
        && (x !in s.owner ==>
              && Leads(s2, f, t, TakeLock, s3) && Leads(s3, f, t, LetGo, s4)
              && s4 == s.(owner := s.owner[x := t] - {n}, pc := s.pc[t := Walking(Key, x)]))
      else
        && Leads(s, f, t, Look, s1) && (s.nodes[n].right.Just? ==> Leads(s1, f, t, Stay, s2))
        && s.(pc := s.pc[t := Arrived(Key, n)]) == (if s.nodes[n].right.Just? then s2 else s1)
  {
    var n := s.pc[t].curr;
    s1 := Do(s, t, Look);
    s2, s3, s4 := s1, s1, s1;
    if GoesOn(s.nodes, n, f.key[t]) {
      s2 := Do(s1, t, GoRight);
      if s.nodes[n].right.id !in s.owner {
        GoesRight(s, t, s.nodes[n].right.id);
        s3 := Do(s2, t, TakeLock);
        s4 := Do(s3, t, LetGo);
      }
    } else if s.nodes[n].right.Just? {
      s2 := Do(s1, t, Stay);
      assert s2.pc == s.pc[t := Arrived(Key, n)];
    }
  }
}
