/**
 Silo's TID words: three flags, a 29-bit tid and a 32-bit epoch in one 64-bit integer, and
 the commit TID a worker computes from the words it has validated.
 */
module SiloTid {

  const TIDS: nat := 0x2000_0000       // 2^29
  const EPOCHS: nat := 0x1_0000_0000   // 2^32

  // TidWord, lowest bit first.
  datatype Word = Word(lock: bool, latest: bool, absent: bool, tid: nat, epoch: nat)

  ghost predicate Fits(w: Word) {
    w.tid < TIDS && w.epoch < EPOCHS
  }

  const ZERO := Word(false, false, false, 0, 0)

  function Bit(b: bool): nat {
    if b then 1 else 0
  }

  function Flags(w: Word): nat {
    Bit(w.lock) + 2 * Bit(w.latest) + 4 * Bit(w.absent)
  }

  // The union's obj.
  function Obj(w: Word): nat {
    Flags(w) + 8 * w.tid + 0x1_0000_0000 * w.epoch
  }

  function FromObj(n: nat): (w: Word) {
    Word(n % 2 == 1, n / 2 % 2 == 1, n / 4 % 2 == 1, n / 8 % 0x2000_0000, n / 0x1_0000_0000)
  }

  lemma FieldsOfObj(w: Word)
    requires Fits(w)
    ensures FromObj(Obj(w)) == w
  {
    var rest := w.tid + 0x2000_0000 * w.epoch;
    Bits(Obj(w), Bit(w.lock), Bit(w.latest), Bit(w.absent), rest);
    Divide(w.tid, w.epoch);
    Upper(Obj(w));
    hide Obj, Flags;
  }

  // Where the fields are: lock is bit 0, latest bit 1, absent bit 2, then 29 bits of tid and 32 of epoch.
  lemma FieldsInPlace(w: Word)
    requires Fits(w)
    ensures Obj(w) % 2 == (if w.lock then 1 else 0)
    ensures Obj(w) / 2 % 2 == (if w.latest then 1 else 0)
    ensures Obj(w) / 4 % 2 == (if w.absent then 1 else 0)
    ensures Obj(w) / 8 % 536870912 == w.tid && Obj(w) / 4294967296 == w.epoch
  {
    var rest := w.tid + 0x2000_0000 * w.epoch;
    Bits(Obj(w), Bit(w.lock), Bit(w.latest), Bit(w.absent), rest);
    Divide(w.tid, w.epoch);
    Upper(Obj(w));
    hide Obj, Flags;
  }

  lemma Bits(n: nat, b0: nat, b1: nat, b2: nat, rest: nat)
    requires b0 < 2 && b1 < 2 && b2 < 2 && n == b0 + 2 * b1 + 4 * b2 + 8 * rest
    ensures n % 2 == b0 && n / 2 % 2 == b1 && n / 4 % 2 == b2 && n / 8 == rest
  {
    assert n / 2 == b1 + 2 * b2 + 4 * rest;
    assert n / 4 == b2 + 2 * rest;
  }

  lemma Divide(tid: nat, epoch: nat)
    requires tid < 0x2000_0000
    ensures (tid + 0x2000_0000 * epoch) % 0x2000_0000 == tid && (tid + 0x2000_0000 * epoch) / 0x2000_0000 == epoch
  {
  }

  lemma Upper(n: nat)
    ensures n / 0x1_0000_0000 == n / 8 / 0x2000_0000
  {
  }

  lemma ObjFits(w: Word)
    requires Fits(w)
    ensures Obj(w) < 0x1_0000_0000_0000_0000
  {
  }

  lemma ObjOfFields(n: nat)
    requires n < 0x1_0000_0000_0000_0000
    ensures Fits(FromObj(n)) && Obj(FromObj(n)) == n
  {
    LowBits(n);
    HighBits(n / 8);
    Upper(n);
    assert n / 0x1_0000_0000 < EPOCHS;
  }

  lemma LowBits(n: nat)
    ensures n == 8 * (n / 8) + 4 * (n / 4 % 2) + 2 * (n / 2 % 2) + n % 2
  {
    Half(n);
    Half(n / 2);
    Half(n / 4);
    Quarters(n);
  }

  lemma Half(n: nat)
    ensures n == 2 * (n / 2) + n % 2
  {
  }

  lemma Quarters(n: nat)
    ensures n / 4 == n / 2 / 2 && n / 8 == n / 4 / 2
  {
  }

  lemma HighBits(m: nat)
    ensures m == m % 0x2000_0000 + 0x2000_0000 * (m / 0x2000_0000)
  {
  }

  // operator<
  predicate Less(a: Word, b: Word) {
    Obj(a) < Obj(b)
  }

  // (epoch, tid), lexicographically: the order that matters.
  predicate PairLess(a: Word, b: Word) {
    a.epoch < b.epoch || (a.epoch == b.epoch && a.tid < b.tid)
  }

  predicate PairEqual(a: Word, b: Word) {
    a.epoch == b.epoch && a.tid == b.tid
  }

  // (epoch, tid, flags), lexicographically: what operator< computes on packed words.
  predicate Below(a: Word, b: Word) {
    PairLess(a, b) || (PairEqual(a, b) && Flags(a) < Flags(b))
  }

  // Comparing packed words is lexicographic on (epoch, tid, flags).
  lemma OrderIsLexicographic(a: Word, b: Word)
    requires Fits(a) && Fits(b)
    ensures Less(a, b) <==> Below(a, b)
    ensures Obj(a) == Obj(b) <==> a == b
  {
    FieldsOfObj(a);
    FieldsOfObj(b);
  }

  // std::max
  function Max(a: Word, b: Word): Word {
    if Below(a, b) then b else a
  }

  // It is the one of the packed comparison.
  lemma MaxComparesPacked(a: Word, b: Word)
    requires Fits(a) && Fits(b)
    ensures Max(a, b) == if Less(a, b) then b else a
  {
    OrderIsLexicographic(a, b);
    hide Less;
  }

  // std::max of a list
  function MaxOf(ws: seq<Word>): Word
    requires |ws| > 0
  {
    var last := |ws| - 1;
    if last == 0 then ws[0] else Max(MaxOf(ws[..last]), ws[last])
  }

  lemma {:induction false} MaxOfIsUpperBound(ws: seq<Word>)
    requires |ws| > 0
    ensures MaxOf(ws) in ws && forall i :: 0 <= i < |ws| ==> !Below(MaxOf(ws), ws[i])
  {
    hide Below, Max;
    var last := |ws| - 1;
    if last > 0 {
      MaxOfIsUpperBound(ws[..last]);
      MaxIsUpperBound(MaxOf(ws[..last]), ws[last]);
      forall i | 0 <= i < last ensures !Below(MaxOf(ws), ws[i]) {
        assert ws[..last][i] == ws[i];
        NotBelowTransitive(ws[i], MaxOf(ws[..last]), MaxOf(ws));
      }
    } else {
      NotBelowItself(ws[0]);
    }
  }

  lemma NotBelowItself(w: Word)
    ensures !Below(w, w)
  {
  }

  lemma MaxIsUpperBound(a: Word, b: Word)
    ensures Max(a, b) == a || Max(a, b) == b
    ensures !Below(Max(a, b), a) && !Below(Max(a, b), b)
  {
  }

  lemma NotBelowTransitive(a: Word, b: Word, c: Word)
    requires !Below(b, a) && !Below(c, b)
    ensures !Below(c, a)
  {
  }

  // tid++ on the bit-field
  function Next(w: Word): Word {
    w.(tid := if w.tid + 1 == TIDS then 0 else w.tid + 1)
  }

  function InEpoch(epoch: nat): (w: Word)
    ensures epoch < EPOCHS ==> w == Word(false, false, false, 0, epoch)
  {
    ZERO.(epoch := epoch % 0x1_0000_0000)
  }

  /** The commit word; epoch is the worker's entry of ThLocalEpoch, cut to 32 bits. */
  function CommitWord(max_rset: Word, max_wset: Word, epoch: nat): Word {
    var tid_a := Next(Max(max_wset, max_rset));
    var tid_b := Next(ZERO);
    var tid_c := InEpoch(epoch);
    MaxOf([tid_a, tid_b, tid_c]).(lock := false, latest := true)
  }

  // m is the largest of the three candidates.
  ghost predicate Largest(m: Word, r: Word, epoch: nat) {
    && (m == Next(r) || m == Next(ZERO) || m == InEpoch(epoch))
    && !Below(m, Next(r)) && !Below(m, Next(ZERO)) && !Below(m, InEpoch(epoch))
  }

  // max_wset is never assigned, so the candidates are these.
  lemma Candidates(r: Word, epoch: nat) returns (m: Word)
    requires Fits(r) && epoch < EPOCHS
    ensures Fits(m) && Largest(m, r, epoch) && CommitWord(r, ZERO, epoch) == m.(lock := false, latest := true)
  {
    hide Max, MaxOf, InEpoch, Below;
    ZeroIsLeast(r);
    MaxOfIsUpperBound([Next(r), Next(ZERO), InEpoch(epoch)]);
    m := MaxOf([Next(r), Next(ZERO), InEpoch(epoch)]);
    var ws := [Next(r), Next(ZERO), InEpoch(epoch)];
    assert !Below(m, ws[0]) && !Below(m, ws[1]) && !Below(m, ws[2]);
  }

  lemma ZeroIsLeast(r: Word)
    ensures Max(ZERO, r) == r
  {
    if r.epoch == 0 && r.tid == 0 && Flags(r) == 0 {
      NoFlags(r);
    }
    hide Flags, Bit;
    assert Flags(ZERO) == 0 by { FlagsOfZero(); }
  }

  lemma NoFlags(r: Word)
    ensures Flags(r) == 0 <==> !r.lock && !r.latest && !r.absent
  {
  }

  lemma FlagsOfZero()
    ensures Flags(ZERO) == 0
  {
  }

  // tid++ on r goes past w: not below r, or in an older epoch where r's tid wraps to 0.
  predicate NextPasses(r: Word, w: Word) {
    if r.tid == TIDS - 1 then w.epoch < r.epoch else !PairLess(r, w)
  }

  /**
   The commit is ordered after any given word w, such as that of a row it writes, exactly
   if the largest word read, incremented, is, or the epoch is newer, or w is a row's first.
   */
  lemma AboveIff(r: Word, w: Word, epoch: nat)
    requires Fits(r) && Fits(w) && epoch < EPOCHS
    ensures PairLess(w, CommitWord(r, ZERO, epoch)) <==>
      NextPasses(r, w) || w.epoch < epoch || (w.epoch == 0 && w.tid == 0)
  {
    hide CommitWord, InEpoch;
    var _ := Candidates(r, epoch);
  }

  /**
   Rule (a), "larger than the TID of any record read or written", fails for a row that is
   written and not read: in every epoch a transaction without reads can store a word below
   the row's own, since max_wset stays 0.
   */
  lemma BlindWriteCanFall(epoch: nat)
    requires 0 < epoch < EPOCHS
    ensures var w := Word(false, true, false, 1, epoch);
            Fits(w) && PairLess(CommitWord(ZERO, ZERO, epoch), w)
  {
    hide CommitWord, InEpoch;
    var _ := Candidates(ZERO, epoch);
  }

  // The commit is ordered after the largest word read just when its tid does not wrap, or the epoch is newer.
  lemma CommitIsAboveIff(r: Word, epoch: nat)
    requires Fits(r) && epoch < EPOCHS
    ensures PairLess(r, CommitWord(r, ZERO, epoch)) <==> r.tid != TIDS - 1 || r.epoch < epoch
  {
    hide CommitWord, Fits;
    AboveIff(r, r, epoch);
  }

  // At the last tid of an epoch it is not. The fixed workload of 20 * 1000 commits stays far below that tid.
  lemma CommitCanWrap(epoch: nat)
    requires epoch < EPOCHS
    ensures var r := Word(false, true, false, TIDS - 1, epoch);
            Fits(r) && PairLess(CommitWord(r, ZERO, epoch), r)
  {
    hide CommitWord, InEpoch;
    var _ := Candidates(Word(false, true, false, TIDS - 1, epoch), epoch);
  }

  // The commit is in the worker's published epoch or, if that is newer, the one of the reads.
  lemma CommitIsInEpoch(r: Word, epoch: nat)
    requires Fits(r) && epoch < EPOCHS
    ensures Fits(CommitWord(r, ZERO, epoch))
    ensures CommitWord(r, ZERO, epoch).epoch == if epoch < r.epoch then r.epoch else epoch
    ensures !CommitWord(r, ZERO, epoch).lock && CommitWord(r, ZERO, epoch).latest
  {
    hide CommitWord, InEpoch;
    var _ := Candidates(r, epoch);
  }

  // A worker's commit words never decrease: neither do its max_rset and its epoch.
  lemma CommitGrows(r: Word, r': Word, e: nat, e': nat)
    requires Fits(r) && Fits(r') && !Below(r', r) && e <= e' < EPOCHS && r.tid != TIDS - 1 && r'.tid != TIDS - 1
    ensures !Below(CommitWord(r', ZERO, e'), CommitWord(r, ZERO, e))
  {
    hide CommitWord, InEpoch, Next;
    var m := Candidates(r, e);
    var m' := Candidates(r', e');
    NextGrows(r, r');
    NotBelow(r, e, m, r', e', m');
  }

  lemma NextGrows(r: Word, r': Word)
    requires !Below(r', r) && r.tid != TIDS - 1 && r'.tid != TIDS - 1
    ensures !Below(Next(r'), Next(r))
  {
  }

  lemma NotBelow(r: Word, e: nat, m: Word, r': Word, e': nat, m': Word)
    requires Largest(m, r, e) && Largest(m', r', e') && !Below(Next(r'), Next(r)) && e <= e' < EPOCHS
    ensures !Below(m', m)
  {
    assert !Below(InEpoch(e'), InEpoch(e));
    hide InEpoch, Next, Below;
    if m == Next(r) {
      NotBelowTransitive(m, Next(r'), m');
    } else if m == InEpoch(e) {
      NotBelowTransitive(m, InEpoch(e'), m');
    }
  }

  /**
   A commit is ordered strictly after the worker's previous one exactly if the largest word
   read, incremented, passes that one, or the epoch is newer: mrctid does not survive the
   call, so rule (b), "larger than the most recently chosen TID", is not enforced.
   */
  lemma NewerIff(r0: Word, epoch0: nat, r: Word, epoch: nat)
    requires Fits(r0) && Fits(r) && epoch0 < EPOCHS && epoch < EPOCHS
    ensures var last := CommitWord(r0, ZERO, epoch0);
            PairLess(last, CommitWord(r, ZERO, epoch)) <==> NextPasses(r, last) || last.epoch < epoch
  {
    hide CommitWord, InEpoch;
    var _ := Candidates(r0, epoch0);
    AboveIff(r, CommitWord(r0, ZERO, epoch0), epoch);
  }

  /**
   So a worker whose later reads are all below its last commit word commits again with the
   same (epoch, tid), as long as it publishes the same epoch; max_rset has not fallen.
   */
  lemma CommitCanRepeat(r0: Word, r: Word, epoch: nat)
    requires Fits(r0) && Fits(r) && epoch < EPOCHS && !PairLess(r, r0)
    requires PairLess(r, CommitWord(r0, ZERO, epoch))
    ensures PairEqual(CommitWord(r, ZERO, epoch), CommitWord(r0, ZERO, epoch))
  {
    hide CommitWord, InEpoch;
    var _ := Candidates(r0, epoch);
    var _ := Candidates(r, epoch);
  }
}
