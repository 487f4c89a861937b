/**
 What rows hold and what transactions have read and written, said by the committed write
 sets alone: the last committed entry for a row decides.
 */
module KrHistory {
  import opened KrModel
  import opened KrSystem
  import opened KrInvariant
  import opened KrSerial

  // Of the first n commits, number i is the last that wrote the row, and entry j of it the last one for the row.
  ghost predicate LastWrite(log: seq<Commit>, n: nat, row: int, i: nat, j: nat) {
    && i < n <= |log| && IsLast(log[i].ws, j) && log[i].ws[j].row == row
    && forall c :: i < c < n ==> !Touches(log[c].ws, row)
  }

  // v is what the row holds after the first n commits.
  ghost predicate Holds(db0: seq<int>, log: seq<Commit>, n: nat, row: int, v: int) {
    && 0 <= row < |db0| && n <= |log|
    && (forall i: nat, j: nat :: LastWrite(log, n, row, i, j) ==> v == log[i].ws[j].val)
    && ((forall i :: 0 <= i < n ==> !Touches(log[i].ws, row)) ==> v == db0[row])
  }

  lemma {:induction false} DbHolds(db0: seq<int>, log: seq<Commit>, n: nat, row: int)
    requires n <= |log| && 0 <= row < |db0|
    ensures Holds(db0, log, n, row, DbAt(db0, log, n)[row])
  {
    if n > 0 {
      var db, ws := DbAt(db0, log, n - 1), log[n - 1].ws;
      DbHolds(db0, log, n - 1, row);
      hide Apply;
      if !Touches(ws, row) {
        UntouchedKept(db, ws, row);
        forall i: nat, j: nat | LastWrite(log, n, row, i, j) ensures DbAt(db0, log, n)[row] == log[i].ws[j].val {
          assert i < n - 1 && LastWrite(log, n - 1, row, i, j);
        }
      } else {
        forall i: nat, j: nat | LastWrite(log, n, row, i, j) ensures DbAt(db0, log, n)[row] == log[i].ws[j].val {
          assert i == n - 1;
          LastStoreWins(db, ws, j);
        }
      }
    }
  }

  // There is a last write, or no write at all: the two cases of Holds leave no gap.
  lemma {:induction false} LastEntryOf(ws: seq<Entry>, row: int) returns (j: nat)
    requires Touches(ws, row)
    ensures IsLast(ws, j) && ws[j].row == row
  {
    var last := |ws| - 1;
    if ws[last].row == row {
      j := last;
    } else {
      j := LastEntryOf(ws[..last], row);
    }
  }

  lemma {:induction false} HoldsOne(db0: seq<int>, log: seq<Commit>, n: nat, row: int, v: int, v': int)
    requires Holds(db0, log, n, row, v) && Holds(db0, log, n, row, v')
    ensures v == v'
  {
    if i :| 0 <= i < n && Touches(log[i].ws, row) {
      var c := LastCommitOf(log, n, row);
      var j := LastEntryOf(log[c].ws, row);
      assert LastWrite(log, n, row, c, j);
    }
  }

  lemma {:induction false} LastCommitOf(log: seq<Commit>, n: nat, row: int) returns (c: nat)
    requires n <= |log| && exists i :: 0 <= i < n && Touches(log[i].ws, row)
    ensures c < n && Touches(log[c].ws, row) && forall i :: c < i < n ==> !Touches(log[i].ws, row)
  {
    if Touches(log[n - 1].ws, row) {
      c := n - 1;
    } else {
      c := LastCommitOf(log, n - 1, row);
    }
  }

  /**
   In every reachable state in which nobody is storing, every row holds the value of the last
   entry for it in the last commit that wrote it, or its first value if none has.
   */
  lemma RowsHoldLastWrites(s0: State, schedule: seq<nat>, s: State, row: int)
    requires Init(s0) && Reaches(s0, schedule, s) && Quiet(s) && 0 <= row < |s0.rows|
    ensures |s.rows| == |s0.rows| && Holds(s0.rows, s.log, |s.log|, row, s.rows[row])
  {
    ReachedIsInv(s0, schedule, s);
    hide Inv;
    QuietRows(s);
    DbHolds(s.db0, s.log, |s.log|, row);
  }

  lemma QuietRows(s: State)
    requires Inv(s) && Quiet(s)
    ensures s.rows == DbAt(s.db0, s.log, |s.log|)
  {
    assert s.lock.By? ==> !s.ws[s.lock.w].pc.Storing?;
  }

  /**
   Commit n has, for every READ of its transaction, in order, its row and the value that the
   last write before commit n left there, and for every WRITE its row and its value.
   */
  lemma CommitsReadLastWrites(s0: State, schedule: seq<nat>, s: State, n: nat, i: nat)
    requires Init(s0) && Reaches(s0, schedule, s) && n < |s.log| && i < |s.log[n].txn.ops|
    ensures var c, o := s.log[n], s.log[n].txn.ops[i];
      && |c.rs| == |ReadsIn(c.txn.ops)| && |c.ws| == |WritesIn(c.txn.ops)|
      && (o.Read? ==>
            var e := |ReadsIn(c.txn.ops[..i])|;
            e < |c.rs| && c.rs[e].row == o.row
            && (0 <= o.row < |s0.rows| ==> Holds(s0.rows, s.log, n, o.row, c.rs[e].val)))
      && (o.Write? ==>
            var e := |WritesIn(c.txn.ops[..i])|;
            e < |c.ws| && c.ws[e] == Entry(o.row, c.txn.value(Vals(c.rs), e)))
  {
    ReachedIsInv(s0, schedule, s);
    assert CommitOk(s, n);
    var c, o := s.log[n], s.log[n].txn.ops[i];
    RowsInPlace(c.txn.ops, i);
    hide Inv, DbAt, ReadRows, WriteRows, Holds;
    if o.Read? && 0 <= o.row < |s0.rows| {
      DbHolds(s.db0, s.log, n, o.row);
    }
  }

  // ---- water marks

  lemma StepMarks(s: State, t: nat, w: nat)
    requires Enabled(s, t) && w < |s.ws|
    requires Attempting(s.ws[w].pc) && !s.ws[w].pc.Mark? ==> s.mark[w] == Begin(s.ws[w].pc)
    ensures var s' := Step(s, t);
      |s'.mark| == |s'.ws| == |s.ws|
      && (Attempting(s'.ws[w].pc) && !s'.ws[w].pc.Mark? ==> s'.mark[w] == Begin(s'.ws[w].pc))
  {
    hide Passes, Pruned, Put, ReadRows, WriteSet;
  }

  // Once an attempt has published its water mark, and until it commits or fails, the mark is its tx_begin.
  lemma {:induction false} MarkIsBegin(s0: State, schedule: seq<nat>, s: State, w: nat)
    requires Init(s0) && Reaches(s0, schedule, s) && w < |s0.ws|
    ensures |s.mark| == |s.ws| == |s0.ws|
    ensures Attempting(s.ws[w].pc) && !s.ws[w].pc.Mark? ==> s.mark[w] == Begin(s.ws[w].pc)
  {
    if schedule != [] {
      hide Init, Enabled, Step;
      var p := LastMove(s0, schedule, s);
      hide Reaches;
      MarkIsBegin(s0, schedule[..|schedule| - 1], p, w);
      StepMarks(p, schedule[|schedule| - 1], w);
    }
  }
}
