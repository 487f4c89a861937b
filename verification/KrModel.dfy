/**
 Kung-Robinson optimistic concurrency: rows, transactions, the list of committed
 write sets, and the loops that validate against it and collect its garbage.
 */
module KrModel {

  datatype Op = Read(row: int) | Write(row: int)

  // One entry of a read set or of a write set.
  datatype Entry = Entry(row: int, val: int)

  // The operations of a transaction, and the value its j-th write stores, given all
  // values read. (The program stores 0, "no meaning".)
  datatype Txn = Txn(ops: seq<Op>, value: (seq<int>, nat) -> int)

  // DONE_XACT
  datatype Done = Done(tx_id: int, ws: seq<Entry>)

  // A committed transaction: its worker, what it read and what it wrote.
  datatype Commit = Commit(w: nat, txn: Txn, rs: seq<Entry>, ws: seq<Entry>)

  // Row ids are in range in every transaction (rowid = rand() % MAX_ROW).
  function Get(db: seq<int>, row: int): int {
    if 0 <= row < |db| then db[row] else 0
  }

  function Put(db: seq<int>, row: int, val: int): (r: seq<int>)
    ensures |r| == |db|
  {
    if 0 <= row < |db| then db[row := val] else db
  }

  // Stores in order; a later store to the same row wins.
  function Apply(db: seq<int>, ws: seq<Entry>): (r: seq<int>)
    ensures |r| == |db|
  {
    if ws == [] then db
    else Put(Apply(db, ws[..|ws| - 1]), ws[|ws| - 1].row, ws[|ws| - 1].val)
  }

  // The rows of the READ operations, in order; likewise of the WRITE operations.
  function ReadRows(ops: seq<Op>): seq<int> {
    if ops == [] then []
    else ReadRows(ops[..|ops| - 1]) + if ops[|ops| - 1].Read? then [ops[|ops| - 1].row] else []
  }

  function WriteRows(ops: seq<Op>): seq<int> {
    if ops == [] then []
    else WriteRows(ops[..|ops| - 1]) + if ops[|ops| - 1].Write? then [ops[|ops| - 1].row] else []
  }

  // The READ operations and the WRITE operations, by their numbers.
  function ReadsIn(ops: seq<Op>): set<nat> {
    set i: nat | i < |ops| && ops[i].Read?
  }

  function WritesIn(ops: seq<Op>): set<nat> {
    set i: nat | i < |ops| && ops[i].Write?
  }

  lemma OneOpMore(ops: seq<Op>)
    requires ops != []
    ensures var init, o := ops[..|ops| - 1], ops[|ops| - 1];
      && |ReadsIn(ops)| == |ReadsIn(init)| + (if o.Read? then 1 else 0)
      && |WritesIn(ops)| == |WritesIn(init)| + (if o.Write? then 1 else 0)
  {
    var last: nat := |ops| - 1;
    var init := ops[..last];
    assert ReadsIn(ops) == ReadsIn(init) + if ops[last].Read? then {last} else {};
    assert WritesIn(ops) == WritesIn(init) + if ops[last].Write? then {last} else {};
  }

  // Operation i is a READ, with c READs before it: entry c is its row. Likewise for a WRITE.
  lemma {:induction false} RowsInPlace(ops: seq<Op>, i: nat)
    requires i <= |ops|
    ensures |ReadRows(ops)| == |ReadsIn(ops)| && |WriteRows(ops)| == |WritesIn(ops)|
    ensures i < |ops| && ops[i].Read? ==>
      |ReadsIn(ops[..i])| < |ReadRows(ops)| && ReadRows(ops)[|ReadsIn(ops[..i])|] == ops[i].row
    ensures i < |ops| && ops[i].Write? ==>
      |WritesIn(ops[..i])| < |WriteRows(ops)| && WriteRows(ops)[|WritesIn(ops[..i])|] == ops[i].row
  {
    if ops != [] {
      var last := |ops| - 1;
      OneOpMore(ops);
      RowsInPlace(ops[..last], if i < last then i else last);
      if i < last {
        assert ops[..last][..i] == ops[..i];
      } else {
        assert i == last ==> ops[..last] == ops[..i];
      }
    }
  }

  function Vals(rs: seq<Entry>): seq<int> {
    seq(|rs|, i requires 0 <= i < |rs| => rs[i].val)
  }

  // The write set computed from a read set.
  function WriteSet(txn: Txn, rs: seq<Entry>): seq<Entry> {
    var rows := WriteRows(txn.ops);
    seq(|rows|, j requires 0 <= j < |rows| => Entry(rows[j], txn.value(Vals(rs), j)))
  }

  // ---- running transactions one at a time

  function SerialReads(txn: Txn, db: seq<int>): seq<Entry> {
    var rows := ReadRows(txn.ops);
    seq(|rows|, i requires 0 <= i < |rows| => Entry(rows[i], Get(db, rows[i])))
  }

  function SerialRun(txn: Txn, db: seq<int>): seq<int> {
    Apply(db, WriteSet(txn, SerialReads(txn, db)))
  }

  function SerialState(db: seq<int>, txns: seq<Txn>): seq<int> {
    if txns == [] then db
    else SerialRun(txns[|txns| - 1], SerialState(db, txns[..|txns| - 1]))
  }

  // ---- rows and write sets

  ghost predicate Touches(ws: seq<Entry>, row: int) {
    exists j :: 0 <= j < |ws| && ws[j].row == row
  }

  // A row that is not in the write set keeps its value.
  lemma {:induction false} UntouchedKept(db: seq<int>, ws: seq<Entry>, row: int)
    requires !Touches(ws, row)
    ensures Get(Apply(db, ws), row) == Get(db, row)
  {
    if ws != [] {
      var init := ws[..|ws| - 1];
      UntouchedKept(db, init, row);
      assert ws[|ws| - 1].row != row;
    }
  }

  // Entry j is the last one for its row.
  predicate IsLast(ws: seq<Entry>, j: nat) {
    j < |ws| && forall i :: j < i < |ws| ==> ws[i].row != ws[j].row
  }

  // A row in the write set gets the value of its last entry.
  lemma {:induction false} LastStoreWins(db: seq<int>, ws: seq<Entry>, j: nat)
    requires IsLast(ws, j) && 0 <= ws[j].row < |db|
    ensures Apply(db, ws)[ws[j].row] == ws[j].val
  {
    var last := |ws| - 1;
    if j < last {
      LastStoreWins(db, ws[..last], j);
    }
  }

  // ---- validation

  // The two sets have a row in common.
  ghost predicate Clash(ws: seq<Entry>, rs: seq<Entry>) {
    exists k :: 0 <= k < |rs| && Touches(ws, rs[k].row)
  }

  // The first record with the id, or the end of the list.
  function Find(done: seq<Done>, id: int): (i: nat)
    ensures i <= |done|
    ensures i < |done| ==> done[i].tx_id == id
    ensures forall x :: 0 <= x < i ==> done[x].tx_id != id
  {
    if done == [] then 0
    else
      var i := Find(done[..|done| - 1], id);
      if i < |done| - 1 || done[|done| - 1].tx_id == id then i else i + 1
  }

  // No record from the one after tx_begin on writes what was read.
  ghost predicate Passes(done: seq<Done>, rs: seq<Entry>, tx_begin: int) {
    forall i :: Find(done, tx_begin + 1) <= i < |done| ==> !Clash(done[i].ws, rs)
  }

  method Validation(done: seq<Done>, read_set: seq<Entry>, tx_begin: int) returns (valid: bool)
    ensures valid <==> Passes(done, read_set, tx_begin)
  {
    // get start point
    var i := 0;
    while i < |done|
      invariant 0 <= i <= |done|
      invariant forall x :: 0 <= x < i ==> done[x].tx_id != tx_begin + 1
    {
      if done[i].tx_id == tx_begin + 1 { break; }
      i := i + 1;
    }
    assert i == Find(done, tx_begin + 1);
    ghost var start := i;
    // check point
    while i < |done|
      invariant start <= i <= |done|
      invariant forall x :: start <= x < i ==> !Clash(done[x].ws, read_set)
    {
      var j := 0;
      while j < |done[i].ws|
        invariant 0 <= j <= |done[i].ws|
        invariant forall y, k :: 0 <= y < j && 0 <= k < |read_set| ==> done[i].ws[y].row != read_set[k].row
      {
        var k := 0;
        while k < |read_set|
          invariant 0 <= k <= |read_set|
          invariant forall z :: 0 <= z < k ==> done[i].ws[j].row != read_set[z].row
        {
          if done[i].ws[j].row == read_set[k].row {
            assert Touches(done[i].ws, read_set[k].row);
            return false;
          }
          k := k + 1;
        }
        j := j + 1;
      }
      i := i + 1;
    }
    return true;
  }

  // ---- garbage collection

  // The list without its leading records below min.
  function Pruned(done: seq<Done>, min: int): seq<Done> {
    if done == [] || done[0].tx_id >= min then done else Pruned(done[1..], min)
  }

  lemma {:induction false} PrunedIsSuffix(done: seq<Done>, min: int)
    ensures |Pruned(done, min)| <= |done|
    ensures Pruned(done, min) == done[|done| - |Pruned(done, min)|..]
    ensures |Pruned(done, min)| < |done| ==> done[|done| - |Pruned(done, min)| - 1].tx_id < min
    ensures Pruned(done, min) != [] ==> Pruned(done, min)[0].tx_id >= min
    decreases |done|
  {
    if done != [] && done[0].tx_id < min {
      PrunedIsSuffix(done[1..], min);
    }
  }

  // All that is dropped is below the minimum.
  lemma {:induction false} DroppedAreBelow(done: seq<Done>, min: int, i: nat)
    requires i < |done| - |Pruned(done, min)|
    ensures done[i].tx_id < min
    decreases |done|
  {
    if i > 0 {
      DroppedAreBelow(done[1..], min, i - 1);
    }
  }

  // The smallest water mark.
  method MinWaterMark(mark: seq<int>) returns (min: int)
    requires |mark| > 0
    ensures min in mark && forall i :: 0 <= i < |mark| ==> min <= mark[i]
  {
    min := mark[0];
    for i := 1 to |mark|
      invariant min in mark && forall x :: 0 <= x < i ==> min <= mark[x]
    {
      if mark[i] < min { min := mark[i]; }
    }
  }

  // The erase loop has no end test: it relies on the last record not being below min.
  method Collect(done: seq<Done>, min: int) returns (rest: seq<Done>)
    requires |done| > 0 && done[|done| - 1].tx_id >= min
    ensures rest == Pruned(done, min) && |rest| > 0
  {
    rest := done;
    while rest[0].tx_id < min
      invariant |rest| > 0 && rest[|rest| - 1] == done[|done| - 1]
      invariant Pruned(rest, min) == Pruned(done, min)
      decreases |rest|
    {
      rest := rest[1..];
    }
  }
}
