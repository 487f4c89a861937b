/**
 What a reader of a finished or running system may rely on: in every state that any
 schedule of any number of workers leads to.
 */
module KrSerial {
  import opened KrModel
  import opened KrSystem
  import opened KrInvariant

  // The committed transactions in tx_id order.
  function Committed(log: seq<Commit>): seq<Txn> {
    seq(|log|, i requires 0 <= i < |log| => log[i].txn)
  }

  // The committed transactions of one worker, in tx_id order.
  function Mine(log: seq<Commit>, w: nat): seq<Txn> {
    if log == [] then []
    else Mine(log[..|log| - 1], w) + if log[|log| - 1].w == w then [log[|log| - 1].txn] else []
  }

  // The rows after n commits are the rows after replaying n transactions one at a time.
  lemma {:induction false} ReplayIsDbAt(s: State, n: nat)
    requires LogOk(s) && n <= |s.log|
    ensures SerialState(s.db0, Committed(s.log)[..n]) == DbAt(s.db0, s.log, n)
  {
    if n > 0 {
      ReplayIsDbAt(s, n - 1);
      var t := Committed(s.log)[..n];
      assert t[..n - 1] == Committed(s.log)[..n - 1] && t[n - 1] == s.log[n - 1].txn;
      assert CommitOk(s, n - 1);
    }
  }

  // Nobody is between the first store of a write phase and its commit.
  ghost predicate Quiet(s: State) {
    forall w {:trigger s.ws[w]} :: 0 <= w < |s.ws| ==> !s.ws[w].pc.Storing?
  }

  /**
   Serializability: replaying the committed transactions one at a time in tx_id order gives
   the same rows, and each of them read and wrote exactly what it does at its place there.
   */
  lemma Serializable(s0: State, schedule: seq<nat>, s: State)
    requires Init(s0) && Reaches(s0, schedule, s)
    ensures forall i :: 0 <= i < |s.log| ==> IsSerial(s.log[i], SerialState(s0.db0, Committed(s.log)[..i]))
    ensures Quiet(s) ==> s.rows == SerialState(s0.db0, Committed(s.log))
  {
    ReachedIsInv(s0, schedule, s);
    forall i | 0 <= i < |s.log| ensures IsSerial(s.log[i], SerialState(s0.db0, Committed(s.log)[..i])) {
      assert CommitOk(s, i);
      ReplayIsDbAt(s, i);
    }
    ReplayIsDbAt(s, |s.log|);
    assert Committed(s.log)[..|s.log|] == Committed(s.log);
  }

  // Each worker's transactions are committed once each, in its own order.
  ghost predicate InProgramOrder(s: State) {
    forall w {:trigger s.ws[w]} :: 0 <= w < |s.ws| ==>
      s.ws[w].next <= |s.ws[w].txns| && Mine(s.log, w) == s.ws[w].txns[..s.ws[w].next]
  }

  lemma CommitKeepsOrder(s: State, t: nat)
    requires Enabled(s, t) && InProgramOrder(s)
    ensures InProgramOrder(Step(s, t))
  {
    hide Step;
    var s' := Step(s, t);
    LogGrows(s, t);
    CommitIs(s, t);
    TxnsKept(s, t);
    assert |s'.log| > |s.log| ==> s'.log[..|s'.log| - 1] == s.log;
    forall w | 0 <= w < |s'.ws|
      ensures s'.ws[w].next <= |s'.ws[w].txns| && Mine(s'.log, w) == s'.ws[w].txns[..s'.ws[w].next]
    {
      assert s.ws[w].next <= |s.ws[w].txns| && Mine(s.log, w) == s.ws[w].txns[..s.ws[w].next];
    }
  }

  lemma {:induction false} CommitsInProgramOrder(s0: State, schedule: seq<nat>, s: State)
    requires Init(s0) && Reaches(s0, schedule, s)
    ensures InProgramOrder(s)
    decreases |schedule|
  {
    if schedule != [] {
      var last := |schedule| - 1;
      var p := LastMove(s0, schedule, s);
      CommitsInProgramOrder(s0, schedule[..last], p);
      hide Init, Step, InProgramOrder, Enabled;
      CommitKeepsOrder(p, schedule[last]);
    }
  }

  /**
   An unlocked read, at any moment and whoever holds the lock: a row that no commit since
   tx_begin wrote and nobody is writing now has the value it had after commit tx_begin.
   */
  lemma CleanReads(s0: State, schedule: seq<nat>, s: State, t: nat, row: int)
    requires Init(s0) && Reaches(s0, schedule, s)
    requires t < |s.ws| && s.ws[t].pc.Reading? && !Dirty(s, t, s.ws[t].pc.tb, row)
    ensures s.ws[t].pc.tb <= |s.log|
    ensures Get(s.rows, row) == Get(SerialState(s0.db0, Committed(s.log)[..s.ws[t].pc.tb]), row)
  {
    hide Init, Reaches, Dirty, SerialState, DbAt, ReadsOk, RowsOk;
    ReachedIsInv(s0, schedule, s);
    assert WorkerOk(s, t);
    ReadsFit(s, t, s.ws[t].pc.tb, s.ws[t].pc.rs);
    CleanRead(s, t, s.ws[t].pc.tb, row);
    ReplayIsDbAt(s, s.ws[t].pc.tb);
  }

  /**
   Snapshot reads: what an attempt that passes validation has read is what a serial execution
   reads after commit tx_begin, and after each later one up to tx_end.
   */
  lemma SnapshotReads(s0: State, schedule: seq<nat>, s: State, w: nat, n: nat)
    requires Init(s0) && Reaches(s0, schedule, s)
    requires w < |s.ws| && s.ws[w].pc.Check? && (s.txid == 0 || Passes(s.done, s.ws[w].pc.rs, s.ws[w].pc.tb))
    requires s.ws[w].pc.tb <= n <= s.txid
    ensures s.ws[w].next < |s.ws[w].txns| && |s.log| == s.txid
    ensures s.ws[w].pc.rs == SerialReads(Current(s.ws[w]), SerialState(s0.db0, Committed(s.log)[..n]))
  {
    ReachedIsInv(s0, schedule, s);
    assert WorkerOk(s, w) && Kept(s, w);
    ValidReadsAreCurrent(s, w);
    ReplayIsDbAt(s, n);
    var k, rs := s.ws[w], s.ws[w].pc.rs;
    if s.txid != 0 {
      PrunedListDecides(s, w, rs, k.pc.tb);
    }
    var db := DbAt(s.db0, s.log, n);
    forall i | 0 <= i < |rs| ensures rs[i] == SerialReads(Current(k), db)[i] {
      assert !WrittenSince(s.log, n, rs[i].row);
      UnwrittenKept(s.db0, s.log, n, |s.log|, rs[i].row);
    }
  }

  ghost predicate Recorded(s: State, id: int)
    requires 0 < id <= |s.log|
  {
    exists i :: 0 <= i < |s.done| && s.done[i] == Done(id, s.log[id - 1].ws)
  }

  /**
   Garbage collection never loses needed history: an attempt that has read its tx_begin finds
   the record of every later commit, but for one that has not been pushed yet.
   */
  lemma HistoryIsKept(s0: State, schedule: seq<nat>, s: State, w: nat, id: int)
    requires Init(s0) && Reaches(s0, schedule, s)
    requires w < |s.ws| && Attempting(s.ws[w].pc) && Begin(s.ws[w].pc) < id <= s.txid
    ensures |s.log| == s.txid
    ensures Recorded(s, id) <==> !(Pushing(s) && id == s.txid)
  {
    ReachedIsInv(s0, schedule, s);
    assert Kept(s, w) && DoneOk(s);
    hide Init, Reaches, Inv, RowsOk, LogOk, WorkerOk, Kept;
    RunRecords(s, id);
  }

  lemma RunRecords(s: State, id: int)
    requires DoneOk(s) && Base(s) < id <= s.txid && (s.lock.By? ==> s.lock.w < |s.ws|)
    ensures Recorded(s, id) <==> !(Pushing(s) && id == s.txid)
  {
    var i := id - Base(s) - 1;
    if Pushing(s) && id == s.txid {
      forall x | 0 <= x < |s.done| ensures s.done[x].tx_id != id {
        assert s.done[x].tx_id == Base(s) + x + 1;
      }
    } else {
      assert s.done[i] == Done(id, s.log[id - 1].ws);
    }
  }

  // So validating the collected list gives the verdict of validating the full history.
  lemma VerdictIsExact(s0: State, schedule: seq<nat>, s: State, w: nat)
    requires Init(s0) && Reaches(s0, schedule, s) && w < |s.ws| && s.ws[w].pc.Check?
    ensures var k := s.ws[w];
            Passes(s.done, k.pc.rs, k.pc.tb) <==>
            forall j :: k.pc.tb <= j < |s.log| ==> !Clash(s.log[j].ws, k.pc.rs)
  {
    ReachedIsInv(s0, schedule, s);
    assert WorkerOk(s, w) && Kept(s, w);
    var tb, rs := s.ws[w].pc.tb, s.ws[w].pc.rs;
    PrunedListDecides(s, w, rs, tb);
    if Passes(s.done, rs, tb) {
      forall j | tb <= j < |s.log| ensures !Clash(s.log[j].ws, rs) {
        assert forall k :: 0 <= k < |rs| ==> !WrittenSince(s.log, tb, rs[k].row);
      }
    } else {
      var k :| 0 <= k < |rs| && WrittenSince(s.log, tb, rs[k].row);
      var j :| tb <= j < |s.log| && Touches(s.log[j].ws, rs[k].row);
      assert Clash(s.log[j].ws, rs);
    }
  }

  // With the lock free, DoneXact is a contiguous ascending run of ids that ends at Tx_id.
  lemma DoneIsARun(s0: State, schedule: seq<nat>, s: State)
    requires Init(s0) && Reaches(s0, schedule, s) && s.lock.Free?
    ensures |s.done| <= s.txid == |s.log|
    ensures forall i :: 0 <= i < |s.done| ==>
              s.done[i] == Done(s.txid - |s.done| + i + 1, s.log[s.txid - |s.done| + i].ws)
    ensures s.txid > 0 ==> s.done != [] && s.done[|s.done| - 1].tx_id == s.txid
  {
    hide Init, Reaches, RowsOk, LogOk, WorkerOk, Kept, OwnBefore;
    ReachedIsInv(s0, schedule, s);
    DoneIsNeverEmptied(s0, schedule, s);
    FreeList(s);
  }

  lemma FreeList(s: State)
    requires DoneOk(s) && s.lock.Free?
    ensures |s.done| <= s.txid == |s.log|
    ensures forall i :: 0 <= i < |s.done| ==>
      s.done[i] == Done(s.txid - |s.done| + i + 1, s.log[s.txid - |s.done| + i].ws)
  {
    forall i | 0 <= i < |s.done| ensures s.done[i] == Done(s.txid - |s.done| + i + 1, s.log[s.txid - |s.done| + i].ws) {
      assert s.done[i].tx_id == Base(s) + i + 1;
    }
  }

  // Once something was committed, the list stays nonempty: the erase loop stops on it.
  lemma {:induction false} DoneIsNeverEmptied(s0: State, schedule: seq<nat>, s: State)
    requires Init(s0) && Reaches(s0, schedule, s)
    ensures s.txid > 0 ==> s.done != [] || Pushing(s)
    decreases |schedule|
  {
    if schedule != [] {
      var last := |schedule| - 1;
      var t := schedule[last];
      var p := LastMove(s0, schedule, s);
      DoneIsNeverEmptied(s0, schedule[..last], p);
      ReachedIsInv(s0, schedule[..last], p);
      NonemptyKept(p, t);
    }
  }

  lemma NonemptyKept(s: State, t: nat)
    requires Inv(s) && Enabled(s, t)
    requires s.txid > 0 ==> s.done != [] || Pushing(s)
    ensures Step(s, t).txid > 0 ==> Step(s, t).done != [] || Pushing(Step(s, t))
  {
    assert WorkerOk(s, t) && DoneOk(s);
    NonemptyStep(s, t);
  }

  lemma NonemptyStep(s: State, t: nat)
    requires DoneOk(s) && Enabled(s, t) && WorkerOk(s, t)
    requires s.txid > 0 ==> s.done != [] || Pushing(s)
    ensures Step(s, t).txid > 0 ==> Step(s, t).done != [] || Pushing(Step(s, t))
  {
    hide DoneOk, ReadsOk, Passes, Pruned, WriteSet, ReadRows, Put, Get, DbAt, SerialReads;
    if s.ws[t].pc.Erase? {
      PruneStopsOnTheList(s, t);
    }
  }

  // The erase loop of a reached state: Collect's precondition, and what it leaves.
  lemma CollectStopsOnTheList(s0: State, schedule: seq<nat>, s: State, w: nat)
    requires Init(s0) && Reaches(s0, schedule, s) && w < |s.ws| && s.ws[w].pc.Erase?
    ensures |s.done| > 0 && s.done[|s.done| - 1].tx_id == s.txid >= s.ws[w].pc.min
    ensures Pruned(s.done, s.ws[w].pc.min) != []
    ensures forall v :: 0 <= v < |s.ws| && Attempting(s.ws[v].pc) ==> s.ws[w].pc.min <= Begin(s.ws[v].pc)
  {
    hide Init, Reaches, RowsOk, LogOk, ReadsOk, Kept, OwnBefore, Pruned;
    ReachedIsInv(s0, schedule, s);
    assert WorkerOk(s, w);
    NeverRunsOff(s, w);
    MinIsLeft(s.done, s.ws[w].pc.min);
    forall v | 0 <= v < |s.ws| && Attempting(s.ws[v].pc) ensures s.ws[w].pc.min <= Begin(s.ws[v].pc) {
      assert WorkerOk(s, v);
    }
  }

  lemma MinIsLeft(done: seq<Done>, min: int)
    requires done != [] && done[|done| - 1].tx_id >= min
    ensures Pruned(done, min) != []
  {
    hide Pruned;
    PrunedIsSuffix(done, min);
  }
}
