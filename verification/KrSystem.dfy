/**
 Any number of workers running transactions: every read or store of a row, of Tx_id
 and of a WaterMark entry is a step of its own, and so are lock and unlock.
 DoneXact is only touched by the holder of the lock.
 */
module KrSystem {
  import opened KrModel

  // Where a worker stands in transaction(): tb is tx_begin, rs the read set so far.
  datatype Pc =
    | Start                                    // read Tx_id into tx_begin
    | Mark(tb: nat)                            // WaterMark[wid] = tx_begin
    | Reading(tb: nat, rs: seq<Entry>)            // read the row of the next READ operation
    | Enter(tb: nat, rs: seq<Entry>)           // lock
    | Check(tb: nat, rs: seq<Entry>)           // validate
    | GiveUp                                   // unlock and retry
    | Storing(tb: nat, rs: seq<Entry>, k: nat)   // store write k, or, all stored, bump Tx_id
    | Push                                     // DoneXact.push_back(me)
    | Publish                                  // WaterMark[wid] = me.tx_id
    | Scan(i: nat, min: nat)                   // read WaterMark[i]
    | Erase(min: nat)                          // erase old records
    | Leave                                    // unlock

  // next: transactions committed so far. aborts, seen: failed validations so far, and
  // Tx_id at the last of them (history only).
  datatype Worker = Worker(txns: seq<Txn>, next: nat, pc: Pc, aborts: nat, seen: nat)

  datatype Lock = Free | By(w: nat)

  // log: the committed transactions in the order of their ids (history only).
  datatype State = State(
    rows: seq<int>, txid: nat, mark: seq<nat>, done: seq<Done>, lock: Lock,
    ws: seq<Worker>, db0: seq<int>, log: seq<Commit>)

  ghost predicate Init(s: State) {
    && s.rows == s.db0 && s.txid == 0 && s.done == [] && s.lock == Free && s.log == []
    && |s.mark| == |s.ws| > 0
    && (forall w :: 0 <= w < |s.ws| ==> s.mark[w] == 0)
    && (forall w {:trigger s.ws[w]} :: 0 <= w < |s.ws| ==>
          s.ws[w].next == 0 && s.ws[w].pc == Start && s.ws[w].aborts == 0 && s.ws[w].seen == 0)
  }

  // The transaction a worker is busy with.
  function Current(k: Worker): Txn
    requires k.next < |k.txns|
  {
    k.txns[k.next]
  }

  // Worker w has a next step: it is not done, and not waiting for the lock.
  ghost predicate Enabled(s: State, w: nat) {
    && w < |s.ws| == |s.mark|
    && match s.ws[w].pc
       case Start => s.ws[w].next < |s.ws[w].txns|
       case Mark(_) => true
       case Reading(_, _) => s.ws[w].next < |s.ws[w].txns|
       case Enter(_, _) => s.lock.Free?
       case Check(_, _) => true
       case GiveUp => true
       case Storing(_, _, _) => s.ws[w].next < |s.ws[w].txns|
       case Push => |s.log| > 0
       case Publish => true
       case Scan(i, _) => i <= |s.ws|
       case Erase(_) => true
       case Leave => true
  }

  function At(s: State, w: nat, pc: Pc): State
    requires w < |s.ws|
  {
    s.(ws := s.ws[w := s.ws[w].(pc := pc)])
  }

  ghost function Step(s: State, w: nat): State
    requires Enabled(s, w)
  {
    var k := s.ws[w];
    match k.pc
    case Start => At(s, w, Mark(s.txid))
    case Mark(tb) => At(s.(mark := s.mark[w := tb]), w, Reading(tb, []))
    case Reading(tb, rs) =>
      var rows := ReadRows(Current(k).ops);
      if |rs| < |rows| then At(s, w, Reading(tb, rs + [Entry(rows[|rs|], Get(s.rows, rows[|rs|]))]))
      else At(s, w, Enter(tb, rs))
    case Enter(tb, rs) => At(s.(lock := By(w)), w, Check(tb, rs))
    case Check(tb, rs) =>
      if s.txid != 0 && !Passes(s.done, rs, tb) then
        s.(ws := s.ws[w := k.(pc := GiveUp, aborts := k.aborts + 1, seen := s.txid)])
      else At(s, w, Storing(tb, rs, 0))
    case GiveUp => At(s.(lock := Free), w, Start)
    case Storing(tb, rs, n) =>
      var out := WriteSet(Current(k), rs);
      if n < |out| then At(s.(rows := Put(s.rows, out[n].row, out[n].val)), w, Storing(tb, rs, n + 1))
      else s.(txid := s.txid + 1, log := s.log + [Commit(w, Current(k), rs, out)],
              ws := s.ws[w := k.(pc := Push, next := k.next + 1)])
    case Push => At(s.(done := s.done + [Done(s.txid, s.log[|s.log| - 1].ws)]), w, Publish)
    case Publish => At(s.(mark := s.mark[w := s.txid]), w, Scan(0, 0))
    case Scan(i, min) =>
      if i == |s.ws| then At(s, w, Erase(min))
      else At(s, w, Scan(i + 1, if i == 0 || s.mark[i] < min then s.mark[i] else min))
    case Erase(min) => At(s.(done := Pruned(s.done, min)), w, Leave)
    case Leave => At(s.(lock := Free), w, Start)
  }

  // One entry of the schedule is one step of that worker.
  ghost predicate Moves(states: seq<State>, schedule: seq<nat>, i: nat)
    requires i < |schedule| && |states| == |schedule| + 1
  {
    Enabled(states[i], schedule[i]) && states[i + 1] == Step(states[i], schedule[i])
  }

  ghost predicate Run(states: seq<State>, schedule: seq<nat>) {
    && |states| == |schedule| + 1
    && forall i: nat {:trigger Moves(states, schedule, i)} :: i < |schedule| ==> Moves(states, schedule, i)
  }

  // s is reached from s0 when the workers take steps in the given order.
  ghost predicate Reaches(s0: State, schedule: seq<nat>, s: State) {
    exists states :: Run(states, schedule) && states[0] == s0 && states[|schedule|] == s
  }

  lemma LastMove(s0: State, schedule: seq<nat>, s: State) returns (p: State)
    requires Reaches(s0, schedule, s) && schedule != []
    ensures var last := |schedule| - 1;
            Reaches(s0, schedule[..last], p) && Enabled(p, schedule[last]) && s == Step(p, schedule[last])
  {
    hide Enabled, Step;
    var last := |schedule| - 1;
    var states :| Run(states, schedule) && states[0] == s0 && states[|schedule|] == s;
    assert Moves(states, schedule, last);
    p := states[last];
    var before := states[..|schedule|];
    forall i: nat | i < last ensures Moves(before, schedule[..last], i) {
      assert Moves(states, schedule, i);
    }
    assert Run(before, schedule[..last]);
  }

  lemma OneMove(s0: State, schedule: seq<nat>, s: State, w: nat)
    requires Reaches(s0, schedule, s) && Enabled(s, w)
    ensures Reaches(s0, schedule + [w], Step(s, w))
  {
    hide Enabled, Step;
    var states :| Run(states, schedule) && states[0] == s0 && states[|schedule|] == s;
    var longer, after := states + [Step(s, w)], schedule + [w];
    forall i: nat | i < |after| ensures Moves(longer, after, i) {
      assert i < |schedule| ==> Moves(states, schedule, i);
    }
    assert Run(longer, after);
  }

  // ---- the committed history

  // The rows after the first n commits.
  function DbAt(db0: seq<int>, log: seq<Commit>, n: nat): (r: seq<int>)
    requires n <= |log|
    ensures |r| == |db0|
  {
    if n == 0 then db0 else Apply(DbAt(db0, log, n - 1), log[n - 1].ws)
  }

  lemma {:induction false} DbAtPrefix(db0: seq<int>, log: seq<Commit>, c: Commit, n: nat)
    requires n <= |log|
    ensures DbAt(db0, log + [c], n) == DbAt(db0, log, n)
  {
    if n > 0 {
      DbAtPrefix(db0, log, c, n - 1);
    }
  }

  // Some commit with an id above n wrote the row.
  ghost predicate WrittenSince(log: seq<Commit>, n: nat, row: int) {
    exists j :: n <= j < |log| && Touches(log[j].ws, row)
  }

  lemma {:induction false} UnwrittenKept(db0: seq<int>, log: seq<Commit>, n: nat, m: nat, row: int)
    requires n <= m <= |log| && !WrittenSince(log, n, row)
    ensures Get(DbAt(db0, log, m), row) == Get(DbAt(db0, log, n), row)
    decreases m
  {
    if n < m {
      UnwrittenKept(db0, log, n, m - 1, row);
      assert !Touches(log[m - 1].ws, row);
      UntouchedKept(DbAt(db0, log, m - 1), log[m - 1].ws, row);
    }
  }

  // Commit c is the serial execution of its transaction on db.
  ghost predicate IsSerial(c: Commit, db: seq<int>) {
    c.rs == SerialReads(c.txn, db) && c.ws == WriteSet(c.txn, c.rs)
  }

  // ---- the invariant

  predicate Inside(pc: Pc) {
    pc.Check? || pc.GiveUp? || pc.Storing? || pc.Push? || pc.Publish? || pc.Scan? || pc.Erase? || pc.Leave?
  }

  predicate Attempting(pc: Pc) {
    pc.Mark? || pc.Reading? || pc.Enter? || pc.Check? || pc.Storing?
  }

  function Begin(pc: Pc): nat
    requires Attempting(pc)
  {
    match pc
    case Mark(tb) => tb
    case Reading(tb, _) => tb
    case Enter(tb, _) => tb
    case Check(tb, _) => tb
    case Storing(tb, _, _) => tb
  }

  function ReadsSoFar(pc: Pc): seq<Entry>
    requires Attempting(pc)
  {
    match pc
    case Mark(_) => []
    case Reading(_, rs) => rs
    case Enter(_, rs) => rs
    case Check(_, rs) => rs
    case Storing(_, rs, _) => rs
  }

  // Worker w is storing its write set.
  ghost predicate Writing(s: State, w: nat) {
    w < |s.ws| && s.ws[w].pc.Storing? && s.ws[w].next < |s.ws[w].txns|
  }

  function Output(k: Worker): seq<Entry>
    requires k.pc.Storing? && k.next < |k.txns|
  {
    WriteSet(Current(k), k.pc.rs)
  }

  // The row was written after tx_begin, or is being written by another worker now.
  ghost predicate Dirty(s: State, w: nat, tb: nat, row: int) {
    || WrittenSince(s.log, tb, row)
    || (s.lock.By? && s.lock.w != w && Writing(s, s.lock.w) && Touches(Output(s.ws[s.lock.w]), row))
  }

  // Reads are in program order, and every clean one is the value as of tx_begin.
  ghost predicate ReadsOk(s: State, w: nat, tb: nat, rs: seq<Entry>)
    requires w < |s.ws|
  {
    && s.ws[w].next < |s.ws[w].txns|
    && tb <= |s.log|
    && |rs| <= |ReadRows(Current(s.ws[w]).ops)|
    && forall i {:trigger rs[i]} :: 0 <= i < |rs| ==>
         && rs[i].row == ReadRows(Current(s.ws[w]).ops)[i]
         && (Dirty(s, w, tb, rs[i].row) || rs[i].val == Get(DbAt(s.db0, s.log, tb), rs[i].row))
  }

  // The id below the first record of DoneXact.
  ghost predicate Pushing(s: State) {
    s.lock.By? && s.lock.w < |s.ws| && s.ws[s.lock.w].pc.Push?
  }

  function Last(s: State): int
    requires s.lock.By? ==> s.lock.w < |s.ws|
  {
    if s.lock.By? && s.ws[s.lock.w].pc.Push? then s.txid - 1 else s.txid
  }

  function Base(s: State): int
    requires s.lock.By? ==> s.lock.w < |s.ws|
  {
    Last(s) - |s.done|
  }

  // DoneXact is the contiguous run of records with ids Base + 1 to Last.
  ghost predicate DoneOk(s: State) {
    && (s.lock.By? ==> s.lock.w < |s.ws|)
    && |s.log| == s.txid
    && 0 <= Base(s)
    && forall i {:trigger s.done[i]} :: 0 <= i < |s.done| ==>
         s.done[i].tx_id == Base(s) + i + 1 && s.done[i].ws == s.log[Base(s) + i].ws
  }

  ghost predicate RowsOk(s: State) {
    && |s.log| == s.txid
    && (s.lock.By? && Writing(s, s.lock.w) ==>
          var k := s.ws[s.lock.w];
          k.pc.k <= |Output(k)| && s.rows == Apply(DbAt(s.db0, s.log, |s.log|), Output(k)[..k.pc.k]))
    && (!(s.lock.By? && Writing(s, s.lock.w)) ==> s.rows == DbAt(s.db0, s.log, |s.log|))
  }

  ghost predicate CommitOk(s: State, i: nat)
    requires i < |s.log|
  {
    s.log[i].w < |s.ws| && IsSerial(s.log[i], DbAt(s.db0, s.log, i))
  }

  ghost predicate LogOk(s: State) {
    forall i: nat {:trigger CommitOk(s, i)} :: i < |s.log| ==> CommitOk(s, i)
  }

  // What holds of one worker.
  ghost predicate WorkerOk(s: State, w: nat)
    requires w < |s.ws| == |s.mark|
  {
    var k := s.ws[w];
    && (Inside(k.pc) <==> s.lock == By(w))
    && s.mark[w] <= s.txid && k.seen <= s.txid && k.next <= |k.txns|
    && (Attempting(k.pc) ==>
          && s.mark[w] <= Begin(k.pc) <= s.txid && k.seen <= Begin(k.pc)
          && ReadsOk(s, w, Begin(k.pc), ReadsSoFar(k.pc)))
    && (k.pc.Storing? || k.pc.Check? || k.pc.Enter? ==> k.next < |k.txns| && |k.pc.rs| == |ReadRows(Current(k).ops)|)
    && (k.pc.Storing? ==> k.pc.rs == SerialReads(Current(k), DbAt(s.db0, s.log, |s.log|)))
    && (k.pc.Push? || k.pc.Publish? ==> s.txid > 0)
    && (k.pc.Publish? || k.pc.Scan? || k.pc.Erase? ==> s.done != [])
    && (k.pc.Scan? || k.pc.Erase? ==> s.mark[w] == s.txid)
    && (k.pc.Scan? ==> k.pc.i <= |s.ws| && forall v :: 0 <= v < k.pc.i ==> k.pc.min <= s.mark[v])
    && (k.pc.Erase? ==> forall v :: 0 <= v < |s.ws| ==> k.pc.min <= s.mark[v])
  }

  // What garbage collection must leave to an attempt: every id above its tx_begin.
  ghost predicate Kept(s: State, w: nat)
    requires w < |s.ws| && (s.lock.By? ==> s.lock.w < |s.ws|)
  {
    Attempting(s.ws[w].pc) ==> Base(s) <= Begin(s.ws[w].pc)
  }

  // Commits by w itself lie before its current attempt.
  ghost predicate OwnBefore(s: State, w: nat)
    requires w < |s.ws|
  {
    Attempting(s.ws[w].pc) ==> forall j {:trigger s.log[j]} :: Begin(s.ws[w].pc) <= j < |s.log| ==> s.log[j].w != w
  }

  ghost predicate Inv(s: State) {
    && |s.mark| == |s.ws| > 0
    && DoneOk(s) && RowsOk(s) && LogOk(s)
    && (forall w {:trigger WorkerOk(s, w)} :: 0 <= w < |s.ws| ==> WorkerOk(s, w))
    && (forall w {:trigger Kept(s, w)} :: 0 <= w < |s.ws| ==> Kept(s, w))
    && (forall w {:trigger OwnBefore(s, w)} :: 0 <= w < |s.ws| ==> OwnBefore(s, w))
  }
}
