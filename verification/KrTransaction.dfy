/**
 transaction() as it runs with nobody in between: the loops of its phases, and its critical
 section, on the shared variables.
 */
module KrTransaction {
  import opened KrModel

  class Shared {
    const Row: array<int>
    const WaterMark: array<nat>
    var Tx_id: nat
    var DoneXact: seq<Done>

    constructor (rows: nat, Nthread: nat)
      requires Nthread > 0
      ensures Valid() && Row.Length == rows && WaterMark.Length == Nthread && Tx_id == 0 && DoneXact == []
      ensures fresh(Row) && fresh(WaterMark)
    {
      Row := new int[rows](_ => 0);
      WaterMark := new nat[Nthread](_ => 0);
      Tx_id, DoneXact := 0, [];
    }

    // No id is above Tx_id, and the last record is the last commit.
    ghost predicate Valid()
      reads this, WaterMark
    {
      && WaterMark.Length > 0
      && (forall w :: 0 <= w < WaterMark.Length ==> WaterMark[w] <= Tx_id)
      && (forall i :: 0 <= i < |DoneXact| ==> DoneXact[i].tx_id <= Tx_id)
      && (DoneXact != [] ==> DoneXact[|DoneXact| - 1].tx_id == Tx_id)
    }

    method ReadPhase(txn: Txn) returns (read_set: seq<Entry>)
      requires InRange(txn, Row.Length)
      ensures read_set == SerialReads(txn, Row[..])
      ensures |read_set| == |ReadsIn(txn.ops)|
      ensures forall i: nat :: i < |txn.ops| && txn.ops[i].Read? ==>
        EntryAt(read_set, |ReadsIn(txn.ops[..i])|, Entry(txn.ops[i].row, Row[txn.ops[i].row]))
    {
      read_set := [];
      for oid := 0 to |txn.ops|
        invariant read_set == Looked(ReadRows(txn.ops[..oid]), Row[..])
      {
        assert txn.ops[..oid + 1][..oid] == txn.ops[..oid];
        if txn.ops[oid].Read? {
          var rowid := txn.ops[oid].row;
          LookOnce(ReadRows(txn.ops[..oid]), rowid, Row[..]);
          read_set := read_set + [Entry(rowid, Row[rowid])];
        }
      }
      assert txn.ops[..|txn.ops|] == txn.ops;
      RowsInPlace(txn.ops, |txn.ops|);
      forall i: nat | i < |txn.ops| && txn.ops[i].Read?
        ensures EntryAt(read_set, |ReadsIn(txn.ops[..i])|, Entry(txn.ops[i].row, Row[txn.ops[i].row]))
      {
        RowsInPlace(txn.ops, i);
      }
    }

    method Modify(txn: Txn, read_set: seq<Entry>) returns (write_set: seq<Entry>)
      ensures write_set == WriteSet(txn, read_set)
      ensures |write_set| == |WritesIn(txn.ops)|
      ensures forall i: nat :: i < |txn.ops| && txn.ops[i].Write? ==>
        var c := |WritesIn(txn.ops[..i])|;
        EntryAt(write_set, c, Entry(txn.ops[i].row, txn.value(Vals(read_set), c)))
    {
      write_set := [];
      var vals := Vals(read_set);
      for oid := 0 to |txn.ops|
        invariant |write_set| == |WriteRows(txn.ops[..oid])|
        invariant forall j {:trigger write_set[j]} :: 0 <= j < |write_set| ==>
          write_set[j] == Entry(WriteRows(txn.ops[..oid])[j], txn.value(vals, j))
      {
        assert txn.ops[..oid + 1][..oid] == txn.ops[..oid];
        if txn.ops[oid].Write? {
          write_set := write_set + [Entry(txn.ops[oid].row, txn.value(vals, |write_set|))];
        }
      }
      assert txn.ops[..|txn.ops|] == txn.ops;
      RowsInPlace(txn.ops, |txn.ops|);
      forall i: nat | i < |txn.ops| && txn.ops[i].Write?
        ensures var c := |WritesIn(txn.ops[..i])|; EntryAt(write_set, c, Entry(txn.ops[i].row, txn.value(vals, c)))
      {
        RowsInPlace(txn.ops, i);
      }
    }

    method WritePhase(write_set: seq<Entry>)
      requires forall i :: 0 <= i < |write_set| ==> 0 <= write_set[i].row < Row.Length
      modifies Row
      ensures Row[..] == Apply(old(Row[..]), write_set)
      ensures forall j {:trigger write_set[j]} :: 0 <= j < |write_set| && IsLast(write_set, j) ==>
        Row[write_set[j].row] == write_set[j].val
      ensures forall r :: 0 <= r < Row.Length && !Touches(write_set, r) ==> Row[r] == old(Row[r])
    {
      ghost var before := Row[..];
      for i := 0 to |write_set|
        invariant Row[..] == Apply(before, write_set[..i])
      {
        assert write_set[..i + 1][..i] == write_set[..i];
        Row[write_set[i].row] := write_set[i].val;
      }
      assert write_set[..|write_set|] == write_set;
      forall j: nat | j < |write_set| && IsLast(write_set, j) ensures Row[write_set[j].row] == write_set[j].val {
        LastStoreWins(before, write_set, j);
      }
      forall r | 0 <= r < Row.Length && !Touches(write_set, r) ensures Row[r] == before[r] {
        UntouchedKept(before, write_set, r);
      }
    }

    // Register, publish the water mark, and collect garbage.
    method Register(wid: nat, write_set: seq<Entry>)
      requires Valid() && wid < WaterMark.Length
      modifies this, WaterMark
      ensures Valid() && Tx_id == old(Tx_id) + 1 && DoneXact != []
      ensures WaterMark[..] == old(WaterMark[..])[wid := Tx_id]
      ensures Registered(old(DoneXact), Done(Tx_id, write_set), WaterMark[..], DoneXact)
    {
      hide Pruned, IsMin;
      Tx_id := Tx_id + 1;
      DoneXact := DoneXact + [Done(Tx_id, write_set)];
      WaterMark[wid] := Tx_id;
      var min := MinWaterMark(WaterMark[..]);
      ghost var done := DoneXact;
      DoneXact := Collect(DoneXact, min);
      PrunedKeepsList(done, min, Tx_id);
      assert IsMin(min, WaterMark[..]) by { MinIs(min, WaterMark[..]); }
    }

    /** The critical section: an attempt commits exactly if its reads pass validation. */
    method ValidateAndWrite(wid: nat, txn: Txn, tx_begin: int, read_set: seq<Entry>) returns (valid: bool)
      requires Valid() && wid < WaterMark.Length && InRange(txn, Row.Length)
      modifies this, Row, WaterMark
      ensures Valid() && valid == old(Tx_id == 0 || Passes(DoneXact, read_set, tx_begin))
      ensures !valid ==> Row[..] == old(Row[..]) && WaterMark[..] == old(WaterMark[..])
      ensures !valid ==> Tx_id == old(Tx_id) && DoneXact == old(DoneXact)
      ensures valid ==> Row[..] == Apply(old(Row[..]), WriteSet(txn, read_set)) && Tx_id == old(Tx_id) + 1
      ensures valid ==> WaterMark[..] == old(WaterMark[..])[wid := Tx_id]
      ensures valid ==> Registered(old(DoneXact), Done(Tx_id, WriteSet(txn, read_set)), WaterMark[..], DoneXact)
    {
      valid := true;
      if Tx_id != 0 {
        valid := Validation(DoneXact, read_set, tx_begin);
        if !valid { return; }
      }
      var write_set := Modify(txn, read_set);
      WriteSetInRange(txn, read_set, Row.Length);
      WritePhase(write_set);
      Register(wid, write_set);
    }

    /** Undisturbed, a transaction commits at its first attempt, and is its serial execution. */
    method Transaction(wid: nat, txn: Txn)
      requires Valid() && wid < WaterMark.Length && InRange(txn, Row.Length)
      modifies this, Row, WaterMark
      ensures Valid() && Row[..] == SerialRun(txn, old(Row[..])) && Tx_id == old(Tx_id) + 1
      ensures WaterMark[..] == old(WaterMark[..])[wid := Tx_id]
      ensures Registered(old(DoneXact), Done(Tx_id, WriteSet(txn, SerialReads(txn, old(Row[..])))), WaterMark[..],
        DoneXact)
    {
      var tx_begin := Tx_id;
      WaterMark[wid] := tx_begin;
      var read_set := ReadPhase(txn);
      assert Find(DoneXact, tx_begin + 1) == |DoneXact|;
      var valid := ValidateAndWrite(wid, txn, tx_begin, read_set);
      assert valid;
    }
  }

  ghost predicate EntryAt(s: seq<Entry>, c: nat, e: Entry) {
    c < |s| && s[c] == e
  }

  // after is before with me pushed, and pruned at the smallest water mark.
  ghost predicate Registered(before: seq<Done>, me: Done, mark: seq<nat>, after: seq<Done>) {
    exists min :: IsMin(min, mark) && after == Pruned(before + [me], min)
  }

  ghost predicate IsMin(min: int, mark: seq<nat>) {
    min in mark && forall i :: 0 <= i < |mark| ==> min <= mark[i]
  }

  lemma MinIs(min: int, mark: seq<nat>)
    requires min in mark && forall i :: 0 <= i < |mark| ==> min <= mark[i]
    ensures IsMin(min, mark)
  {
  }

  lemma PrunedKeepsList(done: seq<Done>, min: int, last: int)
    requires done != [] && done[|done| - 1].tx_id == last >= min && forall i :: 0 <= i < |done| ==>
      done[i].tx_id <= last
    ensures var rest := Pruned(done, min);
            rest != [] && rest[|rest| - 1].tx_id == last && forall i :: 0 <= i < |rest| ==> rest[i].tx_id <= last
  {
    hide Pruned;
    PrunedIsSuffix(done, min);
    var rest := Pruned(done, min);
    forall i | 0 <= i < |rest| ensures rest[i].tx_id <= last {
      assert rest[i] == done[|done| - |rest| + i];
    }
  }

  // rowid = rand() % MAX_ROW
  ghost predicate InRange(txn: Txn, rows: nat) {
    forall i :: 0 <= i < |txn.ops| ==> 0 <= txn.ops[i].row < rows
  }

  function Looked(rows: seq<int>, db: seq<int>): seq<Entry> {
    seq(|rows|, i requires 0 <= i < |rows| => Entry(rows[i], Get(db, rows[i])))
  }

  lemma LookOnce(rows: seq<int>, row: int, db: seq<int>)
    ensures Looked(rows + [row], db) == Looked(rows, db) + [Entry(row, Get(db, row))]
  {
  }

  lemma {:induction false} WriteRowsInRange(ops: seq<Op>, rows: nat)
    requires forall i :: 0 <= i < |ops| ==> 0 <= ops[i].row < rows
    ensures forall j :: 0 <= j < |WriteRows(ops)| ==> 0 <= WriteRows(ops)[j] < rows
  {
    if ops != [] {
      WriteRowsInRange(ops[..|ops| - 1], rows);
    }
  }

  lemma WriteSetInRange(txn: Txn, rs: seq<Entry>, rows: nat)
    requires InRange(txn, rows)
    ensures forall j :: 0 <= j < |WriteSet(txn, rs)| ==> 0 <= WriteSet(txn, rs)[j].row < rows
  {
    WriteRowsInRange(txn.ops, rows);
  }
}
