/**
 Every step of every worker keeps the invariant.
 */
module KrInvariant {
  import opened KrModel
  import opened KrSystem

  // ---- lists of records

  // In a contiguous run of ids the start point is where it should be.
  lemma FindInRun(done: seq<Done>, base: int, id: int)
    requires forall i {:trigger done[i]} :: 0 <= i < |done| ==> done[i].tx_id == base + i + 1
    requires base < id <= base + |done| + 1
    ensures Find(done, id) == id - base - 1
  {
    assert id <= base + |done| ==> done[id - base - 1].tx_id == id;
  }

  /**
   The garbage-collected list gives the same verdict as the full history: an attempt passes
   exactly if no commit after its tx_begin wrote a row it read.
   */
  lemma PrunedListDecides(s: State, w: nat, rs: seq<Entry>, tb: nat)
    requires DoneOk(s) && !Pushing(s) && Base(s) <= tb <= s.txid
    ensures Passes(s.done, rs, tb) <==> forall k :: 0 <= k < |rs| ==> !WrittenSince(s.log, tb, rs[k].row)
  {
    var b := Base(s);
    FindInRun(s.done, b, tb + 1);
    if Passes(s.done, rs, tb) {
      forall k, j | 0 <= k < |rs| && tb <= j < |s.log| ensures !Touches(s.log[j].ws, rs[k].row) {
        assert !Clash(s.done[j - b].ws, rs);
      }
    } else {
      var i :| tb - b <= i < |s.done| && Clash(s.done[i].ws, rs);
      var k :| 0 <= k < |rs| && Touches(s.done[i].ws, rs[k].row);
      assert Touches(s.log[b + i].ws, rs[k].row);
    }
  }

  // ---- what a step does to everyone's view

  // The log only grows.
  lemma LogGrows(s: State, t: nat)
    requires Enabled(s, t)
    ensures var s' := Step(s, t);
            && |s'.ws| == |s.ws| && |s'.mark| == |s.mark| && s'.db0 == s.db0
            && (s'.log == s.log || (s.ws[t].pc.Storing? && |s'.log| == |s.log| + 1 && s'.log[..|s.log|] == s.log))
            && (forall u :: 0 <= u < |s.ws| && u != t ==> s'.ws[u] == s.ws[u])
            && s.txid <= s'.txid
  {
    hide ReadRows, WriteSet, Passes, Pruned, Get, Put;
  }

  lemma DbAtGrows(s: State, t: nat, n: nat)
    requires Inv(s) && Enabled(s, t) && n <= |s.log|
    ensures n <= |Step(s, t).log| && DbAt(s.db0, Step(s, t).log, n) == DbAt(s.db0, s.log, n)
  {
    var k := s.ws[t];
    if k.pc.Storing? && k.pc.k >= |WriteSet(Current(k), k.pc.rs)| {
      DbAtPrefix(s.db0, s.log, Commit(t, Current(k), k.pc.rs, WriteSet(Current(k), k.pc.rs)), n);
    }
  }

  lemma WrittenGrows(s: State, t: nat, n: nat, row: int)
    requires Inv(s) && Enabled(s, t) && WrittenSince(s.log, n, row)
    ensures WrittenSince(Step(s, t).log, n, row)
  {
    LogGrows(s, t);
    var j :| n <= j < |s.log| && Touches(s.log[j].ws, row);
    assert Step(s, t).log[j] == s.log[j];
  }

  // A row that is dirty for another worker stays dirty: stores in progress end in a commit.
  lemma DirtyKept(s: State, t: nat, u: nat, tb: nat, row: int)
    requires Inv(s) && Enabled(s, t) && u < |s.ws| && u != t && tb <= |s.log| && Dirty(s, u, tb, row)
    ensures Dirty(Step(s, t), u, tb, row)
  {
    var s' := Step(s, t);
    assert WorkerOk(s, t) && WorkerOk(s, u);
    if WrittenSince(s.log, tb, row) {
      WrittenGrows(s, t, tb, row);
    } else if s.lock.w == t {
      var out := Output(s.ws[t]);
      if s.ws[t].pc.k >= |out| {
        assert s'.log[|s.log|].ws == out;
      }
    } else {
      assert WorkerOk(s, s.lock.w);
    }
  }

  lemma OthersReadsKept(s: State, t: nat, u: nat)
    requires Inv(s) && Enabled(s, t) && u < |s.ws| && u != t && Attempting(s.ws[u].pc)
    ensures ReadsOk(Step(s, t), u, Begin(s.ws[u].pc), ReadsSoFar(s.ws[u].pc))
  {
    assert WorkerOk(s, u);
    var tb, rs := Begin(s.ws[u].pc), ReadsSoFar(s.ws[u].pc);
    LogGrows(s, t);
    DbAtGrows(s, t, tb);
    forall i | 0 <= i < |rs| && Dirty(s, u, tb, rs[i].row) ensures Dirty(Step(s, t), u, tb, rs[i].row) {
      DirtyKept(s, t, u, tb, rs[i].row);
    }
  }

  lemma MarksRise(s: State, t: nat, v: nat)
    requires Inv(s) && Enabled(s, t) && v < |s.mark|
    ensures v < |Step(s, t).mark| && s.mark[v] <= Step(s, t).mark[v]
  {
    assert WorkerOk(s, t);
  }

  lemma OthersWorkerKept(s: State, t: nat, u: nat)
    requires Inv(s) && Enabled(s, t) && u < |s.ws| && u != t
    ensures |Step(s, t).ws| == |Step(s, t).mark| == |s.ws| && WorkerOk(Step(s, t), u)
  {
    hide Passes, Pruned, WriteSet, ReadRows, Put, Get, ReadsOk, RowsOk, LogOk, Kept, OwnBefore, DbAt;
    var s' := Step(s, t);
    assert WorkerOk(s, u) && WorkerOk(s, t);
    LogGrows(s, t);
    if Attempting(s.ws[u].pc) {
      OthersReadsKept(s, t, u);
    }
    forall v: nat | v < |s.mark| ensures s.mark[v] <= s'.mark[v] {
      MarksRise(s, t, v);
    }
  }

  // ---- the stepping worker

  // The value of a row that is not dirty is the one as of tx_begin, also in the middle of
  // someone else's write phase.
  lemma CleanRead(s: State, t: nat, tb: nat, row: int)
    requires Inv(s) && t < |s.ws| && tb <= |s.log| && s.lock != By(t) && !Dirty(s, t, tb, row)
    ensures Get(s.rows, row) == Get(DbAt(s.db0, s.log, tb), row)
  {
    UnwrittenKept(s.db0, s.log, tb, |s.log|, row);
    if s.lock.By? && Writing(s, s.lock.w) {
      var k := s.ws[s.lock.w];
      var part := Output(k)[..k.pc.k];
      UntouchedKept(DbAt(s.db0, s.log, |s.log|), part, row);
    }
  }

  // Reading changes nothing but the reader's own pc.
  lemma ReadingStepIs(s: State, t: nat)
    requires Enabled(s, t) && s.ws[t].pc.Reading?
    ensures var k := s.ws[t];
            var rows := ReadRows(Current(k).ops);
            Step(s, t) == At(s, t, if |k.pc.rs| < |rows|
              then Reading(k.pc.tb, k.pc.rs + [Entry(rows[|k.pc.rs|], Get(s.rows, rows[|k.pc.rs|]))])
                                   else Enter(k.pc.tb, k.pc.rs))
  {
  }

  lemma OwnPcIsNoDirt(s: State, t: nat, pc: Pc, tb: nat, row: int)
    requires t < |s.ws| && s.lock != By(t)
    ensures Dirty(At(s, t, pc), t, tb, row) == Dirty(s, t, tb, row)
  {
  }

  // One more entry, clean or dirty, keeps the read set right.
  lemma OneMoreRead(s: State, t: nat, tb: nat, rs: seq<Entry>, val: int, pc: Pc)
    requires t < |s.ws| && s.lock != By(t) && ReadsOk(s, t, tb, rs) && |rs| < |ReadRows(Current(s.ws[t]).ops)|
    requires var row := ReadRows(Current(s.ws[t]).ops)[|rs|];
             Dirty(s, t, tb, row) || val == Get(DbAt(s.db0, s.log, tb), row)
    ensures ReadsOk(At(s, t, pc), t, tb, rs + [Entry(ReadRows(Current(s.ws[t]).ops)[|rs|], val)])
  {
    hide Dirty, DbAt, Get, ReadRows;
    var rs' := rs + [Entry(ReadRows(Current(s.ws[t]).ops)[|rs|], val)];
    forall i | 0 <= i < |rs'| ensures Dirty(At(s, t, pc), t, tb, rs'[i].row) == Dirty(s, t, tb, rs'[i].row) {
      OwnPcIsNoDirt(s, t, pc, tb, rs'[i].row);
    }
    assert forall i :: 0 <= i < |rs| ==> rs'[i] == rs[i];
  }

  lemma SameReads(s: State, t: nat, tb: nat, rs: seq<Entry>, pc: Pc)
    requires t < |s.ws| && s.lock != By(t) && ReadsOk(s, t, tb, rs)
    ensures ReadsOk(At(s, t, pc), t, tb, rs)
  {
    hide Dirty, DbAt, Get, ReadRows;
    forall i | 0 <= i < |rs| ensures Dirty(At(s, t, pc), t, tb, rs[i].row) == Dirty(s, t, tb, rs[i].row) {
      OwnPcIsNoDirt(s, t, pc, tb, rs[i].row);
    }
  }

  lemma ReadingStep(s: State, t: nat)
    requires Inv(s) && Enabled(s, t) && s.ws[t].pc.Reading?
    ensures WorkerOk(Step(s, t), t)
  {
    hide Step, ReadsOk, Dirty, DbAt, Get, ReadRows, Passes, RowsOk, LogOk, DoneOk, Kept, OwnBefore;
    assert WorkerOk(s, t);
    var k := s.ws[t];
    var tb, rs := k.pc.tb, k.pc.rs;
    var rows := ReadRows(Current(k).ops);
    ReadingStepIs(s, t);
    ReadsFit(s, t, tb, rs);
    var pc := Step(s, t).ws[t].pc;
    if |rs| < |rows| {
      if !Dirty(s, t, tb, rows[|rs|]) {
        CleanRead(s, t, tb, rows[|rs|]);
      }
      OneMoreRead(s, t, tb, rs, Get(s.rows, rows[|rs|]), pc);
    } else {
      SameReads(s, t, tb, rs, pc);
    }
    ReadingKeepsRest(s, t, pc);
  }

  lemma ReadingKeepsRest(s: State, t: nat, pc: Pc)
    requires t < |s.ws| == |s.mark| && WorkerOk(s, t) && s.ws[t].pc.Reading? && (pc.Reading? || pc.Enter?)
    requires Begin(pc) == s.ws[t].pc.tb && ReadsOk(At(s, t, pc), t, pc.tb, pc.rs)
    requires pc.Enter? ==> |pc.rs| == |ReadRows(Current(s.ws[t]).ops)|
    ensures WorkerOk(At(s, t, pc), t)
  {
    hide Dirty, DbAt, ReadRows, Get;
    assert s.ws[t].next < |s.ws[t].txns|;
    hide ReadsOk;
  }

  lemma ReadsFit(s: State, t: nat, tb: nat, rs: seq<Entry>)
    requires t < |s.ws| && ReadsOk(s, t, tb, rs)
    ensures tb <= |s.log| && s.ws[t].next < |s.ws[t].txns| && |rs| <= |ReadRows(Current(s.ws[t]).ops)|
  {
  }

  // Validation succeeds: all reads are current.
  lemma ValidReadsAreCurrent(s: State, t: nat)
    requires Inv(s) && t < |s.ws| && s.ws[t].pc.Check? && (s.txid == 0 || Passes(s.done, s.ws[t].pc.rs, s.ws[t].pc.tb))
    ensures s.ws[t].next < |s.ws[t].txns|
    ensures s.ws[t].pc.rs == SerialReads(Current(s.ws[t]), DbAt(s.db0, s.log, |s.log|))
  {
    assert WorkerOk(s, t) && Kept(s, t);
    var k := s.ws[t];
    var tb, rs := k.pc.tb, k.pc.rs;
    var db := DbAt(s.db0, s.log, |s.log|);
    if s.txid != 0 {
      PrunedListDecides(s, t, rs, tb);
    }
    forall i | 0 <= i < |rs| ensures rs[i] == SerialReads(Current(k), db)[i] {
      assert !WrittenSince(s.log, tb, rs[i].row);
      UnwrittenKept(s.db0, s.log, tb, |s.log|, rs[i].row);
      assert !Dirty(s, t, tb, rs[i].row);
    }
  }

  lemma CheckStep(s: State, t: nat)
    requires Inv(s) && Enabled(s, t) && s.ws[t].pc.Check?
    ensures WorkerOk(Step(s, t), t)
  {
    hide Passes, Pruned, RowsOk, LogOk, DoneOk, Kept, OwnBefore, DbAt, SerialReads, ReadRows, Dirty;
    assert WorkerOk(s, t);
    if Attempting(Step(s, t).ws[t].pc) {
      ValidReadsAreCurrent(s, t);
      OwnDirtSame(s, t, s.ws[t].pc.tb);
    }
  }

  // For its own part, nothing a worker does to its program counter makes a row dirty.
  lemma OwnDirtSame(s: State, t: nat, tb: nat)
    requires Inv(s) && Enabled(s, t)
    requires Attempting(s.ws[t].pc) && Attempting(Step(s, t).ws[t].pc) && !s.ws[t].pc.Reading?
    ensures Step(s, t).log == s.log && Step(s, t).db0 == s.db0
    ensures forall row: int :: Dirty(Step(s, t), t, tb, row) == Dirty(s, t, tb, row)
  {
    assert WorkerOk(s, t);
  }

  // Taking the lock and storing do not touch the worker's read set.
  lemma HoldingStep(s: State, t: nat)
    requires Inv(s) && Enabled(s, t) && (s.ws[t].pc.Enter? || s.ws[t].pc.Storing?)
    ensures WorkerOk(Step(s, t), t)
  {
    hide LogOk, RowsOk, DoneOk, Dirty, DbAt, Passes, Pruned, ReadRows, SerialReads, WriteSet;
    assert WorkerOk(s, t);
    if Attempting(Step(s, t).ws[t].pc) {
      OwnDirtSame(s, t, Begin(s.ws[t].pc));
    }
  }

  predicate Plain(pc: Pc) {
    pc.Start? || pc.Mark? || pc.GiveUp? || pc.Push? || pc.Publish? || pc.Scan? || pc.Leave?
  }

  // From a place with no reads to account for.
  lemma PlainStep(s: State, t: nat)
    requires Enabled(s, t) && DoneOk(s) && WorkerOk(s, t) && Plain(s.ws[t].pc)
    ensures WorkerOk(Step(s, t), t)
  {
    assert |s.log| == s.txid;
    hide DoneOk, Passes, Pruned, DbAt, SerialReads, WriteSet, Dirty, Get, Put;
  }

  lemma EraseStep(s: State, t: nat)
    requires Enabled(s, t) && DoneOk(s) && WorkerOk(s, t) && s.ws[t].pc.Erase?
    ensures WorkerOk(Step(s, t), t)
  {
    hide ReadsOk, Pruned, Passes, DbAt;
    PruneStopsOnTheList(s, t);
  }

  lemma PruneStopsOnTheList(s: State, t: nat)
    requires DoneOk(s) && Enabled(s, t) && WorkerOk(s, t) && s.ws[t].pc.Erase?
    ensures Pruned(s.done, s.ws[t].pc.min) != []
  {
    hide Pruned, ReadsOk, DbAt, Step;
    NeverRunsOff(s, t);
    PrunedIsSuffix(s.done, s.ws[t].pc.min);
  }

  // When the erase loop starts, the last record is not below min: the loop stops on the list.
  lemma NeverRunsOff(s: State, t: nat)
    requires DoneOk(s) && t < |s.ws| == |s.mark| && WorkerOk(s, t) && s.ws[t].pc.Erase?
    ensures |s.done| > 0 && s.done[|s.done| - 1].tx_id == s.txid >= s.ws[t].pc.min
  {
  }

  lemma OwnWorkerKept(s: State, t: nat)
    requires Inv(s) && Enabled(s, t)
    ensures |Step(s, t).ws| == |Step(s, t).mark| == |s.ws| && WorkerOk(Step(s, t), t)
  {
    LogGrows(s, t);
    assert DoneOk(s) && WorkerOk(s, t);
    hide Inv, Enabled, Step, WorkerOk, DoneOk;
    match s.ws[t].pc
    case Reading(_, _) => ReadingStep(s, t);
    case Enter(_, _) => HoldingStep(s, t);
    case Check(_, _) => CheckStep(s, t);
    case Storing(_, _, _) => HoldingStep(s, t);
    case Erase(_) => EraseStep(s, t);
    case _ => PlainStep(s, t);
  }

  // ---- the shared parts

  lemma RowsKept(s: State, t: nat)
    requires Inv(s) && Enabled(s, t)
    ensures RowsOk(Step(s, t))
  {
    hide Passes, Pruned, ReadRows, ReadsOk, LogOk, Kept, OwnBefore, DbAt, SerialReads;
    assert WorkerOk(s, t);
    var s' := Step(s, t);
    var k := s.ws[t];
    if s.lock.By? && s.lock.w < |s.ws| && s.lock.w != t {
      assert WorkerOk(s, s.lock.w);
    }
    if k.pc.Storing? {
      StoringRows(s, t);
    }
  }

  lemma StoringRows(s: State, t: nat)
    requires RowsOk(s) && Enabled(s, t) && WorkerOk(s, t) && s.ws[t].pc.Storing?
    ensures RowsOk(Step(s, t))
  {
    var k := s.ws[t];
    var out := Output(k);
    var n := k.pc.k;
    if n < |out| {
      assert out[..n + 1][..n] == out[..n];
    } else {
      assert out[..n] == out;
      DbAtPrefix(s.db0, s.log, Commit(t, Current(k), k.pc.rs, out), |s.log|);
    }
  }

  lemma LogKept(s: State, t: nat)
    requires Inv(s) && Enabled(s, t)
    ensures LogOk(Step(s, t))
  {
    hide Step, Passes, Pruned, DbAt, RowsOk, ReadsOk, Kept, OwnBefore, SerialReads, WriteSet, ReadRows;
    assert WorkerOk(s, t);
    LogGrows(s, t);
    CommitIs(s, t);
    var s' := Step(s, t);
    forall i: nat | i < |s'.log| ensures CommitOk(s', i) {
      DbAtGrows(s, t, if i < |s.log| then i else |s.log|);
      if i < |s.log| {
        assert CommitOk(s, i) && s'.log[i] == s.log[i];
      } else {
        NewCommitIsSerial(s, t);
      }
    }
  }

  lemma NewCommitIsSerial(s: State, t: nat)
    requires Enabled(s, t) && WorkerOk(s, t) && |Step(s, t).log| > |s.log|
    ensures IsSerial(Step(s, t).log[|s.log|], DbAt(s.db0, s.log, |s.log|))
  {
    hide Passes, Pruned, DbAt, ReadsOk, SerialReads, WriteSet, ReadRows;
  }

  lemma DoneErased(s: State, t: nat)
    requires DoneOk(s) && Enabled(s, t) && WorkerOk(s, t) && s.ws[t].pc.Erase?
    ensures DoneOk(Step(s, t)) && Base(s) <= Base(Step(s, t))
    ensures Base(Step(s, t)) > Base(s) ==> Base(Step(s, t)) < s.ws[t].pc.min
  {
    hide Pruned, Step, ReadsOk, Enabled, DbAt, SerialReads;
    EraseStepIs(s, t);
    assert s.lock == By(t);
    RunErased(s, t, Pruned(s.done, s.ws[t].pc.min), s.ws[t].pc.min);
  }

  lemma RunErased(s: State, t: nat, rest: seq<Done>, min: int)
    requires DoneOk(s) && t < |s.ws| && s.lock == By(t) && s.ws[t].pc.Erase? && rest == Pruned(s.done, min)
    ensures var s' := At(s.(done := rest), t, Leave);
            DoneOk(s') && Base(s) <= Base(s') && (Base(s') > Base(s) ==> Base(s') < min)
  {
    hide Pruned;
    PrunedIsSuffix(s.done, min);
    var d := |s.done| - |rest|;
    assert d > 0 ==> s.done[d - 1].tx_id == Base(s) + d;
    forall i | 0 <= i < |rest| ensures rest[i].tx_id == Base(s) + d + i + 1 && rest[i].ws == s.log[Base(s) + d + i].ws {
      assert rest[i] == s.done[d + i];
    }
  }

  lemma EraseStepIs(s: State, t: nat)
    requires Enabled(s, t) && s.ws[t].pc.Erase?
    ensures Step(s, t) == At(s.(done := Pruned(s.done, s.ws[t].pc.min)), t, Leave)
  {
    hide Pruned;
  }

  lemma DoneGrows(s: State, t: nat)
    requires DoneOk(s) && Enabled(s, t) && WorkerOk(s, t) && (s.ws[t].pc.Storing? || s.ws[t].pc.Push?)
    ensures DoneOk(Step(s, t)) && Base(Step(s, t)) == Base(s)
  {
  }

  lemma DoneSame(s: State, t: nat)
    requires DoneOk(s) && Enabled(s, t) && WorkerOk(s, t)
    requires !s.ws[t].pc.Erase? && !s.ws[t].pc.Storing? && !s.ws[t].pc.Push?
    ensures DoneOk(Step(s, t)) && Base(Step(s, t)) == Base(s)
  {
    var s' := Step(s, t);
    assert s'.done == s.done && s'.log == s.log && s'.txid == s.txid;
    assert Pushing(s') == Pushing(s);
  }

  lemma DoneKept(s: State, t: nat)
    requires Inv(s) && Enabled(s, t)
    ensures DoneOk(Step(s, t))
    ensures Base(s) <= Base(Step(s, t))
    ensures Base(Step(s, t)) > Base(s) ==> s.ws[t].pc.Erase? && Base(Step(s, t)) < s.ws[t].pc.min
  {
    assert WorkerOk(s, t) && DoneOk(s);
    hide Inv, Enabled, Step, WorkerOk;
    if s.ws[t].pc.Erase? {
      DoneErased(s, t);
    } else if s.ws[t].pc.Storing? || s.ws[t].pc.Push? {
      DoneGrows(s, t);
    } else {
      DoneSame(s, t);
    }
  }

  lemma KeptKept(s: State, t: nat, u: nat)
    requires Inv(s) && Enabled(s, t) && u < |s.ws|
    ensures DoneOk(Step(s, t)) && |Step(s, t).ws| == |s.ws| && Kept(Step(s, t), u)
  {
    assert WorkerOk(s, t) && WorkerOk(s, u) && Kept(s, u) && DoneOk(s);
    DoneKept(s, t);
    KeptStep(s, t, u);
  }

  lemma KeptStep(s: State, t: nat, u: nat)
    requires DoneOk(s) && Enabled(s, t) && u < |s.ws| && WorkerOk(s, t) && WorkerOk(s, u) && Kept(s, u)
    requires DoneOk(Step(s, t)) && Base(s) <= Base(Step(s, t))
    requires Base(Step(s, t)) > Base(s) ==> s.ws[t].pc.Erase? && Base(Step(s, t)) < s.ws[t].pc.min
    ensures |Step(s, t).ws| == |s.ws| && Kept(Step(s, t), u)
  {
    hide Step, ReadsOk, DoneOk, Base, DbAt, SerialReads, ReadRows;
    LogGrows(s, t);
    BaseIsOld(s);
    if u == t && Attempting(Step(s, t).ws[t].pc) {
      BeginIs(s, t);
    }
  }

  lemma BaseIsOld(s: State)
    requires DoneOk(s)
    ensures 0 <= Base(s) <= s.txid
  {
  }

  // A worker's tx_begin is read at Start and kept for the attempt.
  lemma BeginIs(s: State, t: nat)
    requires Enabled(s, t) && Attempting(Step(s, t).ws[t].pc)
    ensures s.ws[t].pc.Start? || Attempting(s.ws[t].pc)
    ensures Begin(Step(s, t).ws[t].pc) == if s.ws[t].pc.Start? then s.txid else Begin(s.ws[t].pc)
  {
    hide ReadRows, WriteSet, Passes, Pruned, Get, Put;
  }

  lemma OwnKept(s: State, t: nat, u: nat)
    requires Inv(s) && Enabled(s, t) && u < |s.ws|
    ensures |Step(s, t).ws| == |s.ws| && OwnBefore(Step(s, t), u)
  {
    assert WorkerOk(s, u) && OwnBefore(s, u) && |s.log| == s.txid;
    OwnStep(s, t, u);
  }

  lemma OwnStep(s: State, t: nat, u: nat)
    requires Enabled(s, t) && u < |s.ws| && OwnBefore(s, u) && |s.log| == s.txid
    ensures |Step(s, t).ws| == |s.ws| && OwnBefore(Step(s, t), u)
  {
    hide Step;
    LogGrows(s, t);
    CommitIs(s, t);
    if u == t && Attempting(Step(s, t).ws[t].pc) {
      BeginIs(s, t);
    }
  }

  // A step commits at most the stepping worker's current transaction.
  lemma CommitIs(s: State, t: nat)
    requires Enabled(s, t)
    ensures var k, s' := s.ws[t], Step(s, t);
            && |s'.ws| == |s.ws| && s'.ws[t].txns == k.txns
            && if |s'.log| == |s.log| then s'.log == s.log && s'.ws[t].next == k.next
               else
                 && k.next < |k.txns| && s'.ws[t].next == k.next + 1 && s'.ws[t].pc.Push?
                 && |s'.log| == |s.log| + 1 && s'.log[..|s.log|] == s.log
                 && s'.log[|s.log|].w == t && s'.log[|s.log|].txn == Current(k)
  {
    hide ReadRows, WriteSet, Passes, Pruned, Get, Put;
  }

  lemma StepKeepsInv(s: State, t: nat)
    requires Inv(s) && Enabled(s, t)
    ensures Inv(Step(s, t))
  {
    var s' := Step(s, t);
    LogGrows(s, t);
    RowsKept(s, t);
    LogKept(s, t);
    DoneKept(s, t);
    hide RowsOk, LogOk, DoneOk, WorkerOk, Kept, OwnBefore, Step;
    forall u | 0 <= u < |s'.ws| ensures WorkerOk(s', u) && Kept(s', u) && OwnBefore(s', u) {
      if u == t {
        OwnWorkerKept(s, t);
      } else {
        OthersWorkerKept(s, t, u);
      }
      KeptKept(s, t, u);
      OwnKept(s, t, u);
    }
  }

  lemma InitIsInv(s: State)
    requires Init(s)
    ensures Inv(s)
  {
    forall w | 0 <= w < |s.ws| ensures WorkerOk(s, w) && Kept(s, w) && OwnBefore(s, w) {
      assert s.ws[w].pc == Start;
    }
  }

  lemma TxnsKept(s: State, t: nat)
    requires Enabled(s, t)
    ensures |Step(s, t).ws| == |s.ws|
    ensures forall w :: 0 <= w < |s.ws| ==> Step(s, t).ws[w].txns == s.ws[w].txns
  {
  }

  // The invariant holds in every state any schedule leads to.
  lemma {:induction false} ReachedIsInv(s0: State, schedule: seq<nat>, s: State)
    requires Init(s0) && Reaches(s0, schedule, s)
    ensures Inv(s) && s.db0 == s0.db0 && |s.ws| == |s0.ws|
    ensures forall w :: 0 <= w < |s.ws| ==> s.ws[w].txns == s0.ws[w].txns
    decreases |schedule|
  {
    if schedule == [] {
      InitIsInv(s);
    } else {
      var last := |schedule| - 1;
      var p := LastMove(s0, schedule, s);
      ReachedIsInv(s0, schedule[..last], p);
      LogGrows(p, schedule[last]);
      TxnsKept(p, schedule[last]);
      hide Inv, Step, Enabled, Init;
      StepKeepsInv(p, schedule[last]);
    }
  }
}
