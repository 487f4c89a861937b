/**
 A transaction step by step: what a worker's steps do, taken together, is what the program
 text does in one piece, in the critical section and, with nobody in between, from its start.
 */
module KrSolo {
  import opened KrModel
  import opened KrSystem
  import opened KrTransaction
  import opened KrInvariant

  // sched continues before, by steps of w only.
  ghost predicate Extends(before: seq<nat>, sched: seq<nat>, w: nat) {
    before <= sched && forall i :: |before| <= i < |sched| ==> sched[i] == w
  }

  lemma StoreOne(db: seq<int>, out: seq<Entry>, k: nat)
    requires k < |out|
    ensures Apply(db, out[..k + 1]) == Put(Apply(db, out[..k]), out[k].row, out[k].val)
  {
    assert out[..k + 1][..k] == out[..k];
  }

  // The stores of the write phase.
  lemma {:induction false} StoreRest(s0: State, before: seq<nat>, s: State, w: nat, db: seq<int>)
    returns (sched: seq<nat>, s': State)
    requires Reaches(s0, before, s) && w < |s.ws| == |s.mark| && Writing(s, w) && s.ws[w].pc.k <= |Output(s.ws[w])|
    requires s.rows == Apply(db, Output(s.ws[w])[..s.ws[w].pc.k])
    ensures Extends(before, sched, w) && Reaches(s0, sched, s')
    ensures var out := Output(s.ws[w]);
            s' == At(s.(rows := Apply(db, out)), w, Storing(s.ws[w].pc.tb, s.ws[w].pc.rs, |out|))
    decreases |Output(s.ws[w])| - s.ws[w].pc.k
  {
    hide Reaches, Apply, WriteSet, Passes, Pruned;
    var k, out := s.ws[w].pc.k, Output(s.ws[w]);
    if k == |out| {
      assert out[..k] == out;
      assert s.ws[w := s.ws[w].(pc := s.ws[w].pc)] == s.ws;
      sched, s' := before, s;
    } else {
      OneMove(s0, before, s, w);
      assert out[..k + 1][..k] == out[..k];
      StoreOne(db, out, k);
      var p := Step(s, w);
      sched, s' := StoreRest(s0, before + [w], p, w, db);
      assert p.ws[w := p.ws[w].(pc := Storing(s.ws[w].pc.tb, s.ws[w].pc.rs, |out|))] == s'.ws;
    }
  }

  // The scan of the water marks.
  lemma {:induction false} ScanRest(s0: State, before: seq<nat>, s: State, w: nat)
    returns (sched: seq<nat>, s': State, min: nat)
    requires Reaches(s0, before, s) && w < |s.ws| == |s.mark| && s.ws[w].pc.Scan? && s.ws[w].pc.i <= |s.ws|
    requires s.ws[w].pc.i > 0 ==> IsMin(s.ws[w].pc.min, s.mark[..s.ws[w].pc.i])
    ensures Extends(before, sched, w) && Reaches(s0, sched, s')
    ensures IsMin(min, s.mark) && s' == At(s, w, Erase(min))
    decreases |s.ws| - s.ws[w].pc.i
  {
    hide Reaches, WriteSet, Passes, Pruned;
    var i := s.ws[w].pc.i;
    OneMove(s0, before, s, w);
    var p := Step(s, w);
    if i == |s.ws| {
      assert s.mark[..i] == s.mark;
      sched, s', min := before + [w], p, s.ws[w].pc.min;
    } else {
      assert s.mark[..i + 1] == s.mark[..i] + [s.mark[i]];
      assert p.ws[w].pc.min in s.mark[..i + 1];
      sched, s', min := ScanRest(s0, before + [w], p, w);
    }
  }

  // What a commit leaves behind, min being the smallest water mark then.
  ghost function AfterCommit(s: State, w: nat, rs: seq<Entry>, rows: seq<int>, min: int): State
    requires w < |s.ws| == |s.mark| && s.ws[w].next < |s.ws[w].txns|
  {
    var k := s.ws[w];
    var out := WriteSet(Current(k), rs);
    s.(rows := rows, txid := s.txid + 1, mark := s.mark[w := s.txid + 1],
       done := Pruned(s.done + [Done(s.txid + 1, out)], min), lock := Free,
       ws := s.ws[w := k.(pc := Start, next := k.next + 1)], log := s.log + [Commit(w, Current(k), rs, out)])
  }

  // From the last store to the scan.
  lemma UpToScan(s0: State, before: seq<nat>, s: State, w: nat) returns (sched: seq<nat>, s': State)
    requires Reaches(s0, before, s) && w < |s.ws| == |s.mark| && Writing(s, w) && s.ws[w].pc.k == |Output(s.ws[w])|
    ensures Extends(before, sched, w) && Reaches(s0, sched, s')
    ensures var k, out := s.ws[w], Output(s.ws[w]);
      s' == s.(txid := s.txid + 1, mark := s.mark[w := s.txid + 1], done := s.done + [Done(s.txid + 1, out)],
               ws := s.ws[w := k.(pc := Scan(0, 0), next := k.next + 1)],
               log := s.log + [Commit(w, Current(k), k.pc.rs, out)])
  {
    hide Reaches, WriteSet, Passes, Pruned;
    OneMove(s0, before, s, w);
    var s1 := Step(s, w);
    OneMove(s0, before + [w], s1, w);
    var s2 := Step(s1, w);
    OneMove(s0, before + [w] + [w], s2, w);
    sched, s' := before + [w] + [w] + [w], Step(s2, w);
    var k := s.ws[w];
    assert s'.ws == s.ws[w := k.(pc := Scan(0, 0), next := k.next + 1)];
  }

  // From the scan to the unlock.
  lemma UpToUnlock(s0: State, before: seq<nat>, s: State, w: nat) returns (sched: seq<nat>, s': State)
    requires Reaches(s0, before, s) && w < |s.ws| == |s.mark| && s.ws[w].pc.Erase?
    ensures Extends(before, sched, w) && Reaches(s0, sched, s')
    ensures s' == At(s.(done := Pruned(s.done, s.ws[w].pc.min), lock := Free), w, Start)
  {
    hide Reaches, WriteSet, Passes, Pruned;
    OneMove(s0, before, s, w);
    var s1 := Step(s, w);
    OneMove(s0, before + [w], s1, w);
    sched, s' := before + [w] + [w], Step(s1, w);
    assert s1.ws[w := s1.ws[w].(pc := Start)] == s'.ws;
  }

  // From the end of the write phase to the unlock.
  lemma RegisterRest(s0: State, before: seq<nat>, s: State, w: nat) returns (sched: seq<nat>, s': State, min: nat)
    requires Reaches(s0, before, s) && w < |s.ws| == |s.mark| && Writing(s, w) && s.ws[w].pc.k == |Output(s.ws[w])|
    ensures Extends(before, sched, w) && Reaches(s0, sched, s')
    ensures IsMin(min, s'.mark) && s' == AfterCommit(s, w, s.ws[w].pc.rs, s.rows, min)
  {
    hide Reaches, WriteSet, Passes, Pruned, Step, IsMin;
    var sched1, s1 := UpToScan(s0, before, s, w);
    var sched2, s2, m := ScanRest(s0, sched1, s1, w);
    sched, s' := UpToUnlock(s0, sched2, s2, w);
    min := m;
    assert s'.ws == s.ws[w := s.ws[w].(pc := Start, next := s.ws[w].next + 1)];
  }

  /** The steps from validation to unlock do what ValidateAndWrite promises. */
  lemma CriticalSection(s0: State, before: seq<nat>, s: State, w: nat) returns (sched: seq<nat>, s': State, min: nat)
    requires Reaches(s0, before, s) && w < |s.ws| == |s.mark| && s.ws[w].pc.Check? && s.ws[w].next < |s.ws[w].txns|
    ensures Extends(before, sched, w) && Reaches(s0, sched, s')
    ensures var k := s.ws[w];
            if s.txid == 0 || Passes(s.done, k.pc.rs, k.pc.tb) then
              && IsMin(min, s'.mark)
              && s' == AfterCommit(s, w, k.pc.rs, Apply(s.rows, WriteSet(Current(k), k.pc.rs)), min)
            else s' == s.(lock := Free, ws := s.ws[w := k.(pc := Start, aborts := k.aborts + 1, seen := s.txid)])
  {
    hide Reaches, Pruned, Passes, WriteSet;
    OneMove(s0, before, s, w);
    var p := Step(s, w);
    if p.ws[w].pc.GiveUp? {
      OneMove(s0, before + [w], p, w);
      sched, s', min := before + [w] + [w], Step(p, w), 0;
      assert s'.ws == s.ws[w := s.ws[w].(pc := Start, aborts := s.ws[w].aborts + 1, seen := s.txid)];
    } else {
      var sched1, s1 := StoreRest(s0, before + [w], p, w, s.rows);
      sched, s', min := RegisterRest(s0, sched1, s1, w);
      assert s'.ws == s.ws[w := s.ws[w].(pc := Start, next := s.ws[w].next + 1)];
    }
  }

  // ---- a whole transaction with nobody in between

  // The reads still to come.
  lemma {:induction false} ReadRest(s0: State, before: seq<nat>, s: State, w: nat) returns (sched: seq<nat>, s': State)
    requires Reaches(s0, before, s) && w < |s.ws| == |s.mark| && s.ws[w].pc.Reading? && s.ws[w].next < |s.ws[w].txns|
    requires s.ws[w].pc.rs <= SerialReads(Current(s.ws[w]), s.rows)
    ensures Extends(before, sched, w) && Reaches(s0, sched, s')
    ensures s' == At(s, w, Enter(s.ws[w].pc.tb, SerialReads(Current(s.ws[w]), s.rows)))
    decreases |SerialReads(Current(s.ws[w]), s.rows)| - |s.ws[w].pc.rs|
  {
    hide Reaches, ReadRows, Passes, Pruned, WriteSet;
    OneMove(s0, before, s, w);
    var p, all := Step(s, w), SerialReads(Current(s.ws[w]), s.rows);
    if |s.ws[w].pc.rs| == |all| {
      assert s.ws[w].pc.rs == all;
      sched, s' := before + [w], p;
    } else {
      sched, s' := ReadRest(s0, before + [w], p, w);
      assert s'.ws == s.ws[w := s.ws[w].(pc := Enter(s.ws[w].pc.tb, all))];
    }
  }

  // tx_begin is read, the water mark published, all rows read and the lock taken.
  lemma UpToCheck(s0: State, before: seq<nat>, s: State, w: nat) returns (sched: seq<nat>, s': State)
    requires Reaches(s0, before, s) && w < |s.ws| == |s.mark| && s.ws[w].pc.Start? && s.ws[w].next < |s.ws[w].txns|
    requires s.lock.Free?
    ensures Extends(before, sched, w) && Reaches(s0, sched, s')
    ensures s' == At(s.(mark := s.mark[w := s.txid], lock := By(w)), w,
                     Check(s.txid, SerialReads(Current(s.ws[w]), s.rows)))
  {
    hide Reaches, ReadRows, Passes, Pruned, WriteSet;
    OneMove(s0, before, s, w);
    var s1 := Step(s, w);
    OneMove(s0, before + [w], s1, w);
    var s2 := Step(s1, w);
    var sched3, s3 := ReadRest(s0, before + [w] + [w], s2, w);
    OneMove(s0, sched3, s3, w);
    sched, s' := sched3 + [w], Step(s3, w);
    assert s'.ws == s.ws[w := s.ws[w].(pc := Check(s.txid, SerialReads(Current(s.ws[w]), s.rows)))];
  }

  /**
   From any reachable state in which the lock is free, a worker that runs its next transaction with
   nobody in between commits it at once, and its steps do what Transaction promises.
   */
  lemma WholeTransaction(s0: State, before: seq<nat>, s: State, w: nat) returns (sched: seq<nat>, s': State, min: nat)
    requires Init(s0) && Reaches(s0, before, s) && s.lock.Free?
    requires w < |s.ws| && s.ws[w].pc.Start? && s.ws[w].next < |s.ws[w].txns|
    ensures Extends(before, sched, w) && Reaches(s0, sched, s') && |s.mark| == |s.ws|
    ensures var t := Current(s.ws[w]);
      IsMin(min, s'.mark) && s' == AfterCommit(s, w, SerialReads(t, s.rows), SerialRun(t, s.rows), min)
  {
    ReachedIsInv(s0, before, s);
    var sched1, s1 := UpToCheck(s0, before, s, w);
    NothingSince(s);
    hide Inv, Reaches, Pruned, Passes, Find, WriteSet, Apply, SerialReads;
    sched, s', min := CriticalSection(s0, sched1, s1, w);
    assert s1.mark[w := s.txid + 1] == s.mark[w := s.txid + 1];
    assert s1.ws[w := s1.ws[w].(pc := Start, next := s1.ws[w].next + 1)]
        == s.ws[w := s.ws[w].(pc := Start, next := s.ws[w].next + 1)];
  }

  // Nothing is in the list that came after the last commit.
  lemma NothingSince(s: State)
    requires Inv(s) && s.lock.Free?
    ensures forall rs :: Passes(s.done, rs, s.txid)
  {
    hide LogOk, RowsOk, WorkerOk, Kept, OwnBefore;
    assert Find(s.done, s.txid + 1) == |s.done|;
  }
}
