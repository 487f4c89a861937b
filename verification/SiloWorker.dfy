/**
 One Silo worker: validation of its read sets, and the TIDs of its successive commits.
 */
module SiloWorker {
  import opened SiloTid
  import E = SiloEpoch

  // A read-set entry: the word copied in the read phase, the one loaded at validation, and
  // whether the worker is writing the row too.
  datatype Read = Read(copied: Word, check: Word, own: bool)

  // One pass through the commit protocol: what was read, and the epoch that was published.
  datatype Attempt = Attempt(rset: seq<Read>, epoch: nat)

  datatype Commit = Commit(attempt: nat, tid: Word)

  predicate Stands(r: Read) {
    PairEqual(r.copied, r.check) && (r.copied.lock ==> r.own)
  }

  predicate Valid(rset: seq<Read>) {
    forall i :: 0 <= i < |rset| ==> Stands(rset[i])
  }

  // No tid is at the 29-bit maximum.
  ghost predicate Roomy(w: Word) {
    Fits(w) && w.tid != TIDS - 1
  }

  ghost predicate AllRoomy(rset: seq<Read>) {
    forall i :: 0 <= i < |rset| ==> Roomy(rset[i].check)
  }

  // How many entries are validated before one fails.
  function Standing(rset: seq<Read>): (n: nat)
    ensures n <= |rset| && Valid(rset[..n]) && (n < |rset| ==> !Stands(rset[n]))
  {
    if rset == [] then 0
    else
      var last := |rset| - 1;
      var n := Standing(rset[..last]);
      assert rset[..last][..n] == rset[..n];
      if n < last || !Stands(rset[last]) then n else assert rset[..last + 1] == rset[..last] + [rset[last]]; last + 1
  }

  lemma StandingIs(rset: seq<Read>, n: nat)
    requires n <= |rset| && Valid(rset[..n]) && (n < |rset| ==> !Stands(rset[n]))
    ensures Standing(rset) == n
  {
    var m := Standing(rset);
    assert forall i :: 0 <= i < n ==> rset[..n][i] == rset[i];
    assert forall i :: 0 <= i < m ==> rset[..m][i] == rset[i];
  }

  // max_rset after the first n entries.
  function Highest(before: Word, rset: seq<Read>, n: nat): Word
    requires n <= |rset|
  {
    if n == 0 then before else Max(Highest(before, rset, n - 1), rset[n - 1].check)
  }

  lemma {:induction false} HighestCovers(before: Word, rset: seq<Read>, n: nat)
    requires Roomy(before) && AllRoomy(rset) && n <= |rset|
    ensures Roomy(Highest(before, rset, n)) && !Below(Highest(before, rset, n), before)
    ensures forall i :: 0 <= i < n ==> !Below(Highest(before, rset, n), rset[i].check)
    ensures Highest(before, rset, n) == before || exists i :: 0 <= i < n && Highest(before, rset, n) == rset[i].check
  {
    hide Max, Roomy, Below;
    if n == 0 {
      NotBelowItself(before);
    } else {
      var w := Highest(before, rset, n - 1);
      HighestCovers(before, rset, n - 1);
      MaxCovers(w, rset[n - 1].check);
      forall v: Word | !Below(w, v) ensures !Below(Max(w, rset[n - 1].check), v) {
        NotBelowTransitive(v, w, Max(w, rset[n - 1].check));
      }
    }
  }

  // max_rset grows over the words checked, up to the first entry that fails.
  method Validate(rset: seq<Read>, before: Word) returns (valid: bool, max_rset: Word)
    ensures valid <==> Valid(rset)
    ensures valid <==> forall i :: 0 <= i < |rset| ==>
      && rset[i].copied.epoch == rset[i].check.epoch && rset[i].copied.tid == rset[i].check.tid
      && (rset[i].copied.lock ==> rset[i].own)
    ensures max_rset == Highest(before, rset, Standing(rset))
  {
    max_rset := before;
    for i := 0 to |rset|
      invariant Valid(rset[..i]) && max_rset == Highest(before, rset, i)
    {
      var check := rset[i].check;
      // different tid, or locked
      if rset[i].copied.epoch != check.epoch || rset[i].copied.tid != check.tid {
        StandingIs(rset, i);
        return false, max_rset;
      }
      if rset[i].copied.lock && !rset[i].own {
        StandingIs(rset, i);
        return false, max_rset;
      }
      max_rset := Max(max_rset, check);
    }
    StandingIs(rset, |rset|);
    assert rset[..|rset|] == rset;
    valid := true;
  }

  lemma MaxCovers(a: Word, b: Word)
    requires Roomy(a) && Roomy(b)
    ensures Max(a, b) == a || Max(a, b) == b
    ensures Roomy(Max(a, b)) && !Below(Max(a, b), a) && !Below(Max(a, b), b)
  {
    MaxIsUpperBound(a, b);
  }

  // The numbers of the attempts that pass validation.
  ghost function Passing(attempts: seq<Attempt>): seq<nat> {
    if attempts == [] then []
    else
      var last := |attempts| - 1;
      Passing(attempts[..last]) + if Valid(attempts[last].rset) then [last] else []
  }

  function Numbers(commits: seq<Commit>): seq<nat> {
    seq(|commits|, i requires 0 <= i < |commits| => commits[i].attempt)
  }

  // max_rset after the first n attempts: it is never reset, not even by an attempt that fails.
  function MaxAfter(attempts: seq<Attempt>, n: nat): Word
    requires n <= |attempts|
  {
    if n == 0 then ZERO
    else Highest(MaxAfter(attempts, n - 1), attempts[n - 1].rset, Standing(attempts[n - 1].rset))
  }

  // What the program's run commits.
  ghost predicate Computed(c: Commit, attempts: seq<Attempt>) {
    c.attempt < |attempts| && c.tid == CommitWord(MaxAfter(attempts, c.attempt + 1), ZERO, attempts[c.attempt].epoch)
  }

  /** The loop over transactions: exactly the attempts that pass validation commit. */
  method Run(attempts: seq<Attempt>) returns (commits: seq<Commit>)
    ensures Numbers(commits) == Passing(attempts) && |commits| == |Passing(attempts)|
    ensures forall c :: 0 <= c < |commits| ==> Computed(commits[c], attempts)
  {
    hide CommitWord, Highest, Standing, Valid;
    var max_rset := ZERO;
    commits := [];
    for a := 0 to |attempts|
      invariant max_rset == MaxAfter(attempts, a) && Numbers(commits) == Passing(attempts[..a])
      invariant forall c :: 0 <= c < |commits| ==> Computed(commits[c], attempts)
    {
      var valid;
      valid, max_rset := Validate(attempts[a].rset, max_rset);
      assert attempts[..a + 1][..a] == attempts[..a];
      if valid {
        var c := Commit(a, CommitWord(max_rset, ZERO, attempts[a].epoch));
        assert Numbers(commits + [c]) == Numbers(commits) + [a];
        commits := commits + [c];
      }
    }
    assert attempts[..|attempts|] == attempts;
  }

  // ---- what the computed words are worth

  // No tid is at its maximum, and epochs fit their field.
  ghost predicate Sound(attempts: seq<Attempt>) {
    forall a {:trigger attempts[a]} :: 0 <= a < |attempts| ==> AllRoomy(attempts[a].rset) && attempts[a].epoch < EPOCHS
  }

  lemma {:induction false} MaxGrows(attempts: seq<Attempt>, m: nat, n: nat)
    requires Sound(attempts) && m <= n <= |attempts|
    ensures Roomy(MaxAfter(attempts, n)) && !Below(MaxAfter(attempts, n), MaxAfter(attempts, m))
    decreases n
  {
    if n == 0 {
      ZeroIsRoomy();
    } else {
      MaxGrows(attempts, if m < n then m else n - 1, n - 1);
      HighestCovers(MaxAfter(attempts, n - 1), attempts[n - 1].rset, Standing(attempts[n - 1].rset));
      hide Highest, Standing, Roomy, Below, AllRoomy;
      if m < n {
        NotBelowTransitive(MaxAfter(attempts, m), MaxAfter(attempts, n - 1), MaxAfter(attempts, n));
      } else {
        NotBelowItself(MaxAfter(attempts, n));
      }
    }
  }

  /**
   Each commit is ordered after everything its transaction read, in or after the epoch that
   the worker had published.
   */
  lemma CommitFollowsReads(attempts: seq<Attempt>, c: Commit)
    requires Sound(attempts) && Computed(c, attempts) && Valid(attempts[c.attempt].rset)
    ensures forall i :: 0 <= i < |attempts[c.attempt].rset| ==>
      PairLess(attempts[c.attempt].rset[i].check, c.tid) && PairLess(attempts[c.attempt].rset[i].copied, c.tid)
    ensures attempts[c.attempt].epoch <= c.tid.epoch && !c.tid.lock && c.tid.latest
  {
    var a := c.attempt;
    var rset := attempts[a].rset;
    assert AllRoomy(rset) && attempts[a].epoch < EPOCHS;
    MaxGrows(attempts, a, a);
    assert rset[..|rset|] == rset;
    StandingIs(rset, |rset|);
    HighestCovers(MaxAfter(attempts, a), rset, |rset|);
    CommitIsAboveIff(MaxAfter(attempts, a + 1), attempts[a].epoch);
    CommitIsInEpoch(MaxAfter(attempts, a + 1), attempts[a].epoch);
    hide CommitWord, Highest, Standing;
  }

  // Attempt a runs under the epoch that worker w has published in state at[a] of a run of the epoch protocol.
  ghost predicate Published(attempts: seq<Attempt>, states: seq<E.State>, schedule: seq<E.Actor>, w: nat,
    at: seq<nat>) {
    && E.Run(states, schedule) && E.IsWorker(states[0], w) && |at| == |attempts|
    && (forall a, b :: 0 <= a < b < |at| ==> at[a] <= at[b])
    && forall a {:trigger at[a]} :: 0 <= a < |at| ==>
         at[a] < |states| && E.IsWorker(states[at[a]], w) && attempts[a].epoch == states[at[a]].ThLocalEpoch[w]
  }

  /** A worker's commit words never decrease, packed: neither do max_rset nor the epochs it publishes. */
  lemma CommitsNeverFall(attempts: seq<Attempt>, c: Commit, d: Commit,
                         states: seq<E.State>, schedule: seq<E.Actor>, w: nat, at: seq<nat>)
    requires Sound(attempts) && Published(attempts, states, schedule, w, at)
    requires Computed(c, attempts) && Computed(d, attempts) && c.attempt < d.attempt
    ensures !Below(d.tid, c.tid)
  {
    hide CommitWord, MaxAfter, Below, E.Run;
    MaxGrows(attempts, c.attempt + 1, c.attempt + 1);
    MaxGrows(attempts, c.attempt + 1, d.attempt + 1);
    var a, b := attempts[c.attempt], attempts[d.attempt];
    assert at[c.attempt] <= at[d.attempt];
    E.PublishedNeverFalls(states, schedule, at[c.attempt], at[d.attempt], w);
    CommitGrows(MaxAfter(attempts, c.attempt + 1), MaxAfter(attempts, d.attempt + 1), a.epoch, b.epoch);
  }

  lemma ZeroIsRoomy()
    ensures Roomy(ZERO) && !Below(ZERO, ZERO)
  {
  }
}
