/**
 Retries: every failed validation has a cause of its own, so no worker retries forever and
 every run ends, with every transaction committed.
 */
module KrRetries {
  import opened KrModel
  import opened KrSystem
  import opened KrInvariant
  import opened KrSerial

  // Commits by workers other than w.
  function Others(log: seq<Commit>, w: nat): nat {
    if log == [] then 0
    else Others(log[..|log| - 1], w) + if log[|log| - 1].w == w then 0 else 1
  }

  // Commits so far by the first n workers other than w.
  function CommitsBy(ws: seq<Worker>, n: nat, w: nat): nat
    requires n <= |ws|
  {
    if n == 0 then 0 else CommitsBy(ws, n - 1, w) + if n - 1 == w then 0 else ws[n - 1].next
  }

  lemma {:induction false} OthersGrow(log: seq<Commit>, n: nat, w: nat)
    requires n <= |log|
    ensures Others(log[..n], w) <= Others(log, w)
    decreases |log|
  {
    if n < |log| {
      OthersGrow(log[..|log| - 1], n, w);
      assert log[..|log| - 1][..n] == log[..n];
    } else {
      assert log[..n] == log;
    }
  }

  // One foreign commit above n counts.
  lemma OthersCount(log: seq<Commit>, n: nat, j: nat, w: nat)
    requires n <= j < |log| && log[j].w != w
    ensures Others(log[..n], w) < Others(log, w)
  {
    OthersGrow(log[..j], n, w);
    assert log[..j][..n] == log[..n];
    assert log[..j + 1][..j] == log[..j];
    OthersGrow(log, j + 1, w);
  }

  lemma CauseOfFailure(s: State, t: nat)
    requires Inv(s) && t < |s.ws| && s.ws[t].pc.Check?
    requires s.txid != 0 && !Passes(s.done, s.ws[t].pc.rs, s.ws[t].pc.tb)
    ensures s.ws[t].seen <= s.ws[t].pc.tb && |s.log| == s.txid
    ensures exists j :: s.ws[t].pc.tb <= j < |s.log| && s.log[j].w != t && Clash(s.log[j].ws, s.ws[t].pc.rs)
  {
    assert WorkerOk(s, t) && Kept(s, t) && OwnBefore(s, t);
    var tb, rs := s.ws[t].pc.tb, s.ws[t].pc.rs;
    PrunedListDecides(s, t, rs, tb);
    var k :| 0 <= k < |rs| && WrittenSince(s.log, tb, rs[k].row);
    var j :| tb <= j < |s.log| && Touches(s.log[j].ws, rs[k].row);
    assert Clash(s.log[j].ws, rs);
  }

  /**
   A failed validation is caused by another worker's commit of a row that was read, made after
   this attempt's tx_begin, which is not before tx_end of the worker's previous failure.
   */
  lemma FailureHasACause(s0: State, schedule: seq<nat>, s: State, t: nat)
    requires Init(s0) && Reaches(s0, schedule, s) && t < |s.ws| && s.ws[t].pc.Check?
    requires s.txid != 0 && !Passes(s.done, s.ws[t].pc.rs, s.ws[t].pc.tb)
    ensures s.ws[t].seen <= s.ws[t].pc.tb && |s.log| == s.txid
    ensures exists j :: s.ws[t].pc.tb <= j < |s.log| && s.log[j].w != t && Clash(s.log[j].ws, s.ws[t].pc.rs)
  {
    hide Init, Reaches, Inv, Passes, Clash;
    ReachedIsInv(s0, schedule, s);
    CauseOfFailure(s, t);
  }

  // Each failure is charged to a different commit by another worker.
  ghost predicate Charged(s: State, w: nat)
    requires w < |s.ws|
  {
    s.ws[w].seen <= |s.log| && s.ws[w].aborts <= Others(s.log[..s.ws[w].seen], w)
  }

  ghost predicate Fails(s: State, t: nat)
    requires t < |s.ws|
  {
    s.ws[t].pc.Check? && s.txid != 0 && !Passes(s.done, s.ws[t].pc.rs, s.ws[t].pc.tb)
  }

  // Only a failed validation counts as one.
  lemma FailuresOfStep(s: State, t: nat, u: nat)
    requires Enabled(s, t) && t < |s.ws| && u < |s.ws|
    ensures var s' := Step(s, t);
            && |s'.ws| == |s.ws|
            && (if u == t && Fails(s, t) then s'.ws[u].seen == s.txid && s'.ws[u].aborts == s.ws[u].aborts + 1
                else s'.ws[u].seen == s.ws[u].seen && s'.ws[u].aborts == s.ws[u].aborts)
  {
    hide Passes, Pruned, ReadRows, WriteSet, Get, Put;
  }

  lemma ChargedKept(s: State, t: nat, u: nat)
    requires Inv(s) && Enabled(s, t) && t < |s.ws| && u < |s.ws| && Charged(s, u)
    ensures |Step(s, t).ws| == |s.ws| && Charged(Step(s, t), u)
  {
    hide Inv, Step, Enabled, Clash, Others, Passes;
    var s' := Step(s, t);
    LogGrows(s, t);
    FailuresOfStep(s, t, u);
    assert s'.log[..s.ws[u].seen] == s.log[..s.ws[u].seen];
    if u == t && Fails(s, t) {
      CauseOfFailure(s, t);
      var j :| s.ws[t].pc.tb <= j < |s.log| && s.log[j].w != t && Clash(s.log[j].ws, s.ws[t].pc.rs);
      OthersCount(s.log, s.ws[t].seen, j, t);
      assert s'.log[..s.txid] == s.log[..s.txid] == s.log;
    }
  }

  // The log counts what the workers count.
  lemma {:induction false} BumpCounts(ws: seq<Worker>, t: nat, k: Worker, n: nat, w: nat)
    requires t < |ws| && n <= |ws|
    ensures CommitsBy(ws[t := k], n, w) == CommitsBy(ws, n, w) + if t < n && t != w then k.next - ws[t].next else 0
  {
    if n > 0 {
      BumpCounts(ws, t, k, n - 1, w);
    }
  }

  ghost predicate Counted(s: State, w: nat) {
    Others(s.log, w) == CommitsBy(s.ws, |s.ws|, w)
  }

  lemma CountedKept(s: State, t: nat, u: nat)
    requires Inv(s) && Enabled(s, t) && u < |s.ws| && Counted(s, u)
    ensures Counted(Step(s, t), u)
  {
    LogGrows(s, t);
    var s' := Step(s, t);
    assert s'.ws == s.ws[t := s'.ws[t]];
    BumpCounts(s.ws, t, s'.ws[t], |s.ws|, u);
    if |s'.log| > |s.log| {
      assert s'.log[..|s'.log| - 1] == s.log;
    }
  }

  lemma {:induction false} NoneYet(ws: seq<Worker>, n: nat, w: nat)
    requires n <= |ws| && forall v {:trigger ws[v]} :: 0 <= v < |ws| ==> ws[v].next == 0
    ensures CommitsBy(ws, n, w) == 0
  {
    if n > 0 {
      NoneYet(ws, n - 1, w);
    }
  }

  lemma {:induction false} FailuresAreCharged(s0: State, schedule: seq<nat>, s: State, w: nat)
    requires Init(s0) && Reaches(s0, schedule, s) && w < |s.ws|
    ensures Charged(s, w) && Counted(s, w)
    decreases |schedule|
  {
    if schedule == [] {
      assert s.ws[w].pc == Start;
      NoneYet(s.ws, |s.ws|, w);
    } else {
      var last := |schedule| - 1;
      var t := schedule[last];
      var p := LastMove(s0, schedule, s);
      ReachedIsInv(s0, schedule[..last], p);
      LogGrows(p, t);
      hide Init, Step, Inv, Enabled, Charged, Counted;
      FailuresAreCharged(s0, schedule[..last], p, w);
      ChargedKept(p, t, w);
      CountedKept(p, t, w);
    }
  }

  lemma {:induction false} CommitsBounded(ws: seq<Worker>, n: nat, w: nat, max: nat)
    requires n <= |ws| && forall v {:trigger ws[v]} :: 0 <= v < |ws| ==> ws[v].next <= max
    ensures CommitsBy(ws, n, w) <= (if w < n then n - 1 else n) * max
  {
    if n > 0 {
      CommitsBounded(ws, n - 1, w, max);
      assert (n - 1 + 1) * max == (n - 1) * max + max;
      assert n > 1 ==> (n - 2 + 1) * max == (n - 2) * max + max;
    }
  }

  lemma NextBounded(s0: State, schedule: seq<nat>, s: State, max: nat)
    requires Init(s0) && Reaches(s0, schedule, s)
    requires forall v {:trigger s0.ws[v]} :: 0 <= v < |s0.ws| ==> |s0.ws[v].txns| <= max
    ensures |s.ws| == |s0.ws| && forall v {:trigger s.ws[v]} :: 0 <= v < |s.ws| ==> s.ws[v].next <= max
  {
    ReachedIsInv(s0, schedule, s);
    hide Init, Reaches, RowsOk, LogOk, DoneOk, ReadsOk, Kept, OwnBefore;
    forall v | 0 <= v < |s.ws| ensures s.ws[v].next <= max {
      assert WorkerOk(s, v);
      assert s.ws[v].txns == s0.ws[v].txns;
    }
  }

  /**
   Bounded retries: a worker fails at most as often as the others commit, hence at most
   (Nthread - 1) * MAX_TRANSACTION times, in any run, for good.
   */
  lemma AbortsAreBounded(s0: State, schedule: seq<nat>, s: State, w: nat, max: nat)
    requires Init(s0) && Reaches(s0, schedule, s) && w < |s.ws|
    requires forall v {:trigger s0.ws[v]} :: 0 <= v < |s0.ws| ==> |s0.ws[v].txns| <= max
    ensures s.ws[w].aborts <= Others(s.log, w) <= (|s.ws| - 1) * max
  {
    FailuresAreCharged(s0, schedule, s, w);
    OthersGrow(s.log, s.ws[w].seen, w);
    NextBounded(s0, schedule, s, max);
    hide Init, Reaches;
    CommitsBounded(s.ws, |s.ws|, w, max);
  }

  // ---- every run ends

  // How far a worker is from its last commit or failure, in steps.
  function Progress(pc: Pc, n: nat, r: nat): nat {
    match pc
    case Push => 0
    case Publish => 1
    case Scan(i, _) => 2 + i
    case Erase(_) => 3 + n
    case Leave => 4 + n
    case GiveUp => 4 + n
    case Start => 5 + n
    case Mark(_) => 6 + n
    case Reading(_, rs) => 7 + n + |rs|
    case Enter(_, _) => 8 + n + r
    case Check(_, _) => 9 + n + r
    case Storing(_, _, k) => 10 + n + r + k
  }

  function Reads(k: Worker): nat {
    if k.next < |k.txns| then |ReadRows(k.txns[k.next].ops)| else 0
  }

  // The steps one attempt can take, when transactions have at most ops operations.
  function AttemptLength(n: nat, ops: nat): nat {
    11 + n + ops
  }

  // The steps in a number of attempts of that length.
  function Steps(attempts: nat, each: nat): nat {
    attempts * each
  }

  lemma OneMoreAttempt(attempts: nat, each: nat)
    ensures Steps(attempts + 1, each) == Steps(attempts, each) + each
  {
  }

  lemma {:induction false} MoreAttempts(a: nat, b: nat, each: nat)
    requires a <= b
    ensures Steps(a, each) <= Steps(b, each)
  {
    if a < b {
      MoreAttempts(a, b - 1, each);
      OneMoreAttempt(b - 1, each);
    }
  }

  ghost predicate Short(ws: seq<Worker>, ops: nat) {
    forall w, i :: 0 <= w < |ws| && 0 <= i < |ws[w].txns| ==> |ws[w].txns[i].ops| <= ops
  }

  lemma {:induction false} ReadsAndWrites(ops: seq<Op>)
    ensures |ReadRows(ops)| + |WriteRows(ops)| == |ops|
  {
    if ops != [] {
      ReadsAndWrites(ops[..|ops| - 1]);
    }
  }

  function Taken(schedule: seq<nat>, w: nat): nat {
    if schedule == [] then 0
    else Taken(schedule[..|schedule| - 1], w) + if schedule[|schedule| - 1] == w then 1 else 0
  }

  ghost predicate Paced(s: State, w: nat, taken: nat, ops: nat)
    requires w < |s.ws|
  {
    var k := s.ws[w];
    taken <= Steps(k.aborts + k.next, AttemptLength(|s.ws|, ops)) + Progress(k.pc, |s.ws|, Reads(k))
  }

  // How far into its loops a worker can be.
  ghost predicate InBounds(k: Worker, n: nat) {
    && (k.pc.Scan? ==> k.pc.i <= n)
    && (k.pc.Reading? || k.pc.Enter? || k.pc.Check? || k.pc.Storing? ==> k.next < |k.txns|)
    && (k.pc.Reading? ==> |k.pc.rs| <= |ReadRows(Current(k).ops)|)
    && (k.pc.Storing? ==> k.pc.k <= |WriteRows(Current(k).ops)|)
  }

  lemma WorkerInBounds(s: State, w: nat)
    requires Inv(s) && w < |s.ws|
    ensures InBounds(s.ws[w], |s.ws|)
  {
    hide LogOk, DoneOk, Kept, OwnBefore, DbAt, SerialReads, ReadRows, WriteRows, Apply, Dirty;
    assert WorkerOk(s, w);
    if s.ws[w].pc.Storing? {
      assert Writing(s, w);
    }
  }

  lemma ProgressBound(k: Worker, n: nat, ops: nat)
    requires InBounds(k, n) && (k.next < |k.txns| ==> |Current(k).ops| <= ops)
    ensures Progress(k.pc, n, Reads(k)) < AttemptLength(n, ops)
  {
    if k.next < |k.txns| {
      ReadsAndWrites(Current(k).ops);
    }
    hide ReadRows, WriteRows;
  }

  lemma ProgressInAttempt(s: State, w: nat, ops: nat)
    requires Inv(s) && w < |s.ws| && Short(s.ws, ops)
    ensures Progress(s.ws[w].pc, |s.ws|, Reads(s.ws[w])) < AttemptLength(|s.ws|, ops)
  {
    hide Inv, InBounds, Progress, Reads;
    WorkerInBounds(s, w);
    ProgressBound(s.ws[w], |s.ws|, ops);
  }

  // A step either comes closer to the end of the attempt, or ends it.
  ghost predicate Advances(s: State, t: nat, s': State) {
    && t < |s.ws| == |s'.ws|
    && var k, k', n := s.ws[t], s'.ws[t], |s.ws|;
       if k'.aborts + k'.next == k.aborts + k.next then Progress(k.pc, n, Reads(k)) < Progress(k'.pc, n, Reads(k'))
       else k'.aborts + k'.next == k.aborts + k.next + 1
  }

  lemma StepProgresses(s: State, t: nat)
    requires Enabled(s, t) && t < |s.ws| && InBounds(s.ws[t], |s.ws|)
    ensures Advances(s, t, Step(s, t))
  {
    hide Passes, Pruned, ReadRows, WriteRows, WriteSet, Get, Put, Apply;
  }

  lemma PacedKept(s: State, t: nat, w: nat, taken: nat, ops: nat)
    requires Inv(s) && Enabled(s, t) && w < |s.ws| && Short(s.ws, ops) && Paced(s, w, taken, ops)
    ensures |Step(s, t).ws| == |s.ws| && Paced(Step(s, t), w, if t == w then taken + 1 else taken, ops)
  {
    hide Inv, InBounds, Step, Enabled, Progress, Short, Reads, AttemptLength, Steps;
    LogGrows(s, t);
    if t == w {
      WorkerInBounds(s, t);
      StepProgresses(s, t);
      ProgressInAttempt(s, t, ops);
      OneMoreAttempt(s.ws[t].aborts + s.ws[t].next, AttemptLength(|s.ws|, ops));
    }
  }

  lemma {:induction false} StepsArePaced(s0: State, schedule: seq<nat>, s: State, w: nat, ops: nat)
    requires Init(s0) && Reaches(s0, schedule, s) && w < |s.ws| && Short(s0.ws, ops)
    ensures Paced(s, w, Taken(schedule, w), ops) && Short(s.ws, ops)
    decreases |schedule|
  {
    if schedule != [] {
      var last := |schedule| - 1;
      var t := schedule[last];
      var p := LastMove(s0, schedule, s);
      ReachedIsInv(s0, schedule[..last], p);
      ReachedIsInv(s0, schedule, s);
      assert Short(s.ws, ops);
      hide Init, Step, Inv, Enabled, Paced;
      StepsArePaced(s0, schedule[..last], p, w, ops);
      PacedKept(p, t, w, Taken(schedule[..last], w), ops);
    }
  }

  function TakenBy(schedule: seq<nat>, n: nat): nat {
    if n == 0 then 0 else TakenBy(schedule, n - 1) + Taken(schedule, n - 1)
  }

  lemma {:induction false} TakenByOneMore(schedule: seq<nat>, n: nat)
    requires schedule != []
    ensures TakenBy(schedule, n) == TakenBy(schedule[..|schedule| - 1], n) + if schedule[|schedule| - 1] < n then 1
      else 0
  {
    if n > 0 {
      TakenByOneMore(schedule, n - 1);
    }
  }

  lemma {:induction false} EveryStepIsTaken(schedule: seq<nat>, n: nat)
    requires forall i :: 0 <= i < |schedule| ==> schedule[i] < n
    ensures TakenBy(schedule, n) == |schedule|
    decreases |schedule|
  {
    if schedule == [] {
      NothingTaken(n);
    } else {
      EveryStepIsTaken(schedule[..|schedule| - 1], n);
      TakenByOneMore(schedule, n);
    }
  }

  lemma {:induction false} NothingTaken(n: nat)
    ensures TakenBy([], n) == 0
  {
    if n > 0 {
      NothingTaken(n - 1);
    }
  }

  lemma {:induction false} TakenBounded(schedule: seq<nat>, n: nat, each: nat)
    requires forall w :: 0 <= w < n ==> Taken(schedule, w) <= each
    ensures TakenBy(schedule, n) <= Steps(n, each)
  {
    if n > 0 {
      TakenBounded(schedule, n - 1, each);
      OneMoreAttempt(n - 1, each);
      hide Steps;
    }
  }

  lemma {:induction false} ScheduleNamesWorkers(s0: State, schedule: seq<nat>, s: State)
    requires Init(s0) && Reaches(s0, schedule, s)
    ensures forall i :: 0 <= i < |schedule| ==> schedule[i] < |s.ws|
    decreases |schedule|
  {
    if schedule != [] {
      var last := |schedule| - 1;
      var p := LastMove(s0, schedule, s);
      TxnsKept(p, schedule[last]);
      ScheduleNamesWorkers(s0, schedule[..last], p);
    }
  }

  lemma StepsOfOneWorker(s0: State, schedule: seq<nat>, s: State, w: nat, max: nat, ops: nat)
    requires Init(s0) && Reaches(s0, schedule, s) && w < |s.ws| && Short(s0.ws, ops)
    requires forall v {:trigger s0.ws[v]} :: 0 <= v < |s0.ws| ==> |s0.ws[v].txns| <= max
    ensures Taken(schedule, w) <= Steps(Steps(|s.ws|, max) + 1, AttemptLength(|s.ws|, ops))
  {
    hide Init, Reaches, Inv, Short, Progress, Reads, AttemptLength, Taken, Steps;
    StepsArePaced(s0, schedule, s, w, ops);
    ReachedIsInv(s0, schedule, s);
    ProgressInAttempt(s, w, ops);
    AttemptsOfOneWorker(s0, schedule, s, w, max);
    var done := s.ws[w].aborts + s.ws[w].next;
    OneMoreAttempt(done, AttemptLength(|s.ws|, ops));
    MoreAttempts(done + 1, Steps(|s.ws|, max) + 1, AttemptLength(|s.ws|, ops));
  }

  lemma AttemptsOfOneWorker(s0: State, schedule: seq<nat>, s: State, w: nat, max: nat)
    requires Init(s0) && Reaches(s0, schedule, s) && w < |s.ws|
    requires forall v {:trigger s0.ws[v]} :: 0 <= v < |s0.ws| ==> |s0.ws[v].txns| <= max
    ensures s.ws[w].aborts + s.ws[w].next <= Steps(|s.ws|, max)
  {
    hide Init, Reaches;
    AbortsAreBounded(s0, schedule, s, w, max);
    NextBounded(s0, schedule, s, max);
    OneMoreAttempt(|s.ws| - 1, max);
  }

  /**
   Every run is finite: with n workers, at most max transactions each and at most ops
   operations each, no schedule is longer than this.
   */
  lemma RunsEnd(s0: State, schedule: seq<nat>, s: State, max: nat, ops: nat)
    requires Init(s0) && Reaches(s0, schedule, s) && Short(s0.ws, ops)
    requires forall v {:trigger s0.ws[v]} :: 0 <= v < |s0.ws| ==> |s0.ws[v].txns| <= max
    ensures |schedule| <= |s0.ws| * ((|s0.ws| * max + 1) * (11 + |s0.ws| + ops))
  {
    hide Init, Reaches, Inv, Short, Taken, TakenBy;
    ScheduleNamesWorkers(s0, schedule, s);
    ReachedIsInv(s0, schedule, s);
    EveryStepIsTaken(schedule, |s.ws|);
    ghost var each := Steps(Steps(|s.ws|, max) + 1, AttemptLength(|s.ws|, ops));
    forall w | 0 <= w < |s.ws| ensures Taken(schedule, w) <= each {
      StepsOfOneWorker(s0, schedule, s, w, max, ops);
    }
    TakenBounded(schedule, |s.ws|, each);
  }

  /**
   And a run that cannot go on has committed everything: the rows are those of running all
   transactions of all workers one at a time, each worker's in its own order.
   */
  lemma StuckMeansDone(s0: State, schedule: seq<nat>, s: State)
    requires Init(s0) && Reaches(s0, schedule, s)
    requires forall w {:trigger Enabled(s, w)} :: 0 <= w < |s.ws| ==> !Enabled(s, w)
    ensures |s.ws| == |s0.ws| && s.rows == SerialState(s0.db0, Committed(s.log))
    ensures forall w :: 0 <= w < |s.ws| ==> Mine(s.log, w) == s0.ws[w].txns
  {
    ReachedIsInv(s0, schedule, s);
    if s.lock.By? {
      HolderCanRun(s0, schedule, s);
    }
    Serializable(s0, schedule, s);
    CommitsInProgramOrder(s0, schedule, s);
    forall w | 0 <= w < |s.ws| ensures s.ws[w].pc.Start? && s.ws[w].next == |s.ws[w].txns| {
      assert !Enabled(s, w) && WorkerOk(s, w);
    }
    assert Quiet(s);
    forall w | 0 <= w < |s.ws| ensures Mine(s.log, w) == s0.ws[w].txns {
      assert s.ws[w].txns[..s.ws[w].next] == s0.ws[w].txns;
    }
  }

  // Whoever holds the lock has a next step.
  lemma HolderCanRun(s0: State, schedule: seq<nat>, s: State)
    requires Init(s0) && Reaches(s0, schedule, s) && s.lock.By?
    ensures s.lock.w < |s.ws| && Enabled(s, s.lock.w)
  {
    hide Init, Reaches, RowsOk, LogOk, ReadsOk, Kept, OwnBefore;
    ReachedIsInv(s0, schedule, s);
    assert WorkerOk(s, s.lock.w);
  }
}
