/**
 The lock protocol of any number of concurrent insertions. Every lock, unlock, pointer
 read, allocation and link store is a step of its own, so that other writers come in
 between: while a split node's children already show the right half as their parent and
 no right_link leads to it, while its own right_link is still NULL, and while Root is
 being replaced. Keys are left out: whether move_right goes on, whether a node has room
 and where a split cuts are all open.
 */
module BlinkLocks {
  import opened BlinkState

  type Id = nat
  type Tid = nat

  datatype Opt = Nothing | Just(id: Id)

  // The fields that lead to other nodes. low, the lower end of a node's keys, is only recorded.
  datatype Spot = Spot(level: nat, low: Bound, right: Opt, parent: Opt, kids: set<Id>)

  // What an insertion carries to its next node: a key, or the halves left_child and right_child.
  datatype Job = Key | Halves(lc: Id, rc: Id)

  // Where a thread stands in insert, move_right and insert_in_parent.
  datatype Pc =
    | Idle
    | WantLeaf(leaf: Id)
    | Walking(job: Job, curr: Id)                           // line 208 is next
    | Seen(job: Job, curr: Id)                              // right_link was not NULL
    | WantNext(job: Job, curr: Id, next: Id)
    | Passing(job: Job, curr: Id, next: Id)
    | Arrived(job: Job, curr: Id)                           // move_right has returned
    | Freeing(job: Job, curr: Id)
    | Splitting(job: Job, curr: Id, m: Id, temp: set<Id>)   // temp: the children in TEMP
    | Loaded(job: Job, curr: Id, m: Id, x: Opt)             // x: the right_link read from curr
    | HalfLinked(job: Job, curr: Id, m: Id, x: Opt)         // line 279 is done
    | Climbing(job: Job, curr: Id, m: Id)
    | Up(lc: Id, rc: Id)                                    // line 238 is next
    | Topmost(lc: Id, rc: Id)                               // left_child was Root
    | Inner(lc: Id, rc: Id)                                 // left_child was not Root
    | Growing(lc: Id, rc: Id, top: Id, stores: nat)         // stores of line 240 and 241 done
    | WantParent(lc: Id, rc: Id, parent: Id)

  /**
   place is for the proofs only: the left-to-right order in which nodes belong, kept
   for a right half from its allocation on, long before it is linked.
   */
  datatype State = State(nodes: map<Id, Spot>, root: Id, place: map<Id, nat>, owner: map<Id, Tid>, pc: map<Tid, Pc>)

  datatype Action =
    | Enter(leaf: Id)               // find_leaf has returned this leaf
    | TakeLock                      // lock() returns
    | Look                          // is right_link NULL?
    | GoRight                       // right_link is read again, and high_key < key
    | Stay                          // high_key is not below the key
    | LetGo                         // unlock(curr) after lock(next)
    | Room                          // the node had room: the separator and right_child go in
    | FreeOne                       // one unlock of a completed insertion
    | Alloc(m: Id, low: Bound)      // the right half is allocated, TEMP is filled
    | Fill(n: Id, kids: set<Id>)    // child slots of either half are stored
    | Adopt(c: Id, n: Id)           // chi[i]->parent is stored, for a child of either half
    | LoadLink                      // curr->right_link is read
    | LinkRight                     // it is stored as the right half's right_link
    | LinkLeft                      // curr->right_link = right half
    | DropChild                     // unlock(left_child) before the recursive call
    | TestRoot                      // left_child == Root?
    | AllocRoot(top: Id)            // the new root, with both halves as its children
    | RootStore                     // the parent of right_child, of left_child, then Root
    | ReadParent                    // left_parent = left_child->parent

  // ---- locks

  ghost function Held(pc: Pc): set<Id> {
    match pc
    case Idle => {}
    case WantLeaf(_) => {}
    case Passing(j, n, m) => Child(j) + {n, m}
    case Up(n, _) => {n}
    case Topmost(n, _) => {n}
    case Inner(n, _) => {n}
    case Growing(n, _, _, _) => {n}
    case WantParent(n, _, _) => {n}
    case _ => Child(pc.job) + {pc.curr}
  }

  ghost function Child(j: Job): set<Id> {
    if j.Halves? then {j.lc} else {}
  }

  function Wants(pc: Pc): Opt {
    match pc
    case WantLeaf(n) => Just(n)
    case WantNext(_, _, n) => Just(n)
    case WantParent(_, _, n) => Just(n)
    case _ => Nothing
  }

  // The lock order: by level, then left to right.
  predicate Before(s: State, a: Id, b: Id)
    requires {a, b} <= s.nodes.Keys && {a, b} <= s.place.Keys
  {
    s.nodes[a].level < s.nodes[b].level || (s.nodes[a].level == s.nodes[b].level && s.place[a] < s.place[b])
  }

  // The pc once the wanted lock is taken.
  function Taken(pc: Pc): Pc {
    match pc
    case WantLeaf(n) => Walking(Key, n)
    case WantNext(j, n, m) => Passing(j, n, m)
    case WantParent(lc, rc, p) => Walking(Halves(lc, rc), p)
    case _ => pc
  }

  // Places with m put in right after c.
  function Squeezed(place: map<Id, nat>, c: Id, m: Id): map<Id, nat>
    requires c in place
  {
    map n | n in place.Keys + {m} ::
      if n == m then place[c] + 1 else if place[n] > place[c] then place[n] + 1 else place[n]
  }

  // ---- steps of thread t

  ghost predicate Enabled(s: State, t: Tid, a: Action) {
    t in s.pc &&
    var pc := s.pc[t];
    match a
    case Enter(leaf) => pc.Idle? && leaf in s.nodes && s.nodes[leaf].level == 0
    case TakeLock => Wants(pc).Just? && Wants(pc).id !in s.owner
    case Look => pc.Walking? && pc.curr in s.nodes
    case GoRight => pc.Seen? && pc.curr in s.nodes && s.nodes[pc.curr].right.Just?
    case Stay => pc.Seen?
    case LetGo => pc.Passing?
    case Room => pc.Arrived? && pc.curr in s.nodes
    case FreeOne => pc.Freeing?
    case Alloc(m, _) => pc.Arrived? && pc.curr in s.nodes && pc.curr in s.place && m !in s.nodes
    case Fill(n, kids) =>
      pc.Splitting? && n in {pc.curr, pc.m} && n in s.nodes && kids <= s.nodes[n].kids + pc.temp
    case Adopt(c, n) =>
      pc.Splitting? && n in {pc.curr, pc.m} && n in s.nodes && c in s.nodes[n].kids && c in s.nodes
    case LoadLink => pc.Splitting? && pc.curr in s.nodes
    case LinkRight => pc.Loaded? && pc.m in s.nodes
    case LinkLeft => pc.HalfLinked? && pc.curr in s.nodes
    case DropChild => pc.Climbing?
    case TestRoot => pc.Up?
    case AllocRoot(top) => pc.Topmost? && pc.lc in s.nodes && pc.lc in s.place && top !in s.nodes
    case RootStore => pc.Growing? && {pc.lc, pc.rc} <= s.nodes.Keys
    case ReadParent => pc.Inner? && pc.lc in s.nodes && s.nodes[pc.lc].parent.Just?
  }

  // What is stored in nodes.
  ghost function Stored(s: State, t: Tid, a: Action): map<Id, Spot>
    requires Enabled(s, t, a)
  {
    var pc := s.pc[t];
    match a
    case Room => s.nodes[pc.curr := s.nodes[pc.curr].(kids := s.nodes[pc.curr].kids + NewKid(pc.job))]
    case Alloc(m, low) => s.nodes[m := Spot(s.nodes[pc.curr].level, low, Nothing, s.nodes[pc.curr].parent, {})]
    case Fill(n, kids) => s.nodes[n := s.nodes[n].(kids := kids)]
    case Adopt(c, n) => s.nodes[c := s.nodes[c].(parent := Just(n))]
    case LinkRight => s.nodes[pc.m := s.nodes[pc.m].(right := pc.x)]
    case LinkLeft => s.nodes[pc.curr := s.nodes[pc.curr].(right := Just(pc.m))]
    case AllocRoot(top) =>
      s.nodes[top := Spot(s.nodes[pc.lc].level + 1, Bot, Nothing, Nothing, {pc.lc, pc.rc})]
    case RootStore =>
      if pc.stores == 0 then s.nodes[pc.rc := s.nodes[pc.rc].(parent := Just(pc.top))]
      else if pc.stores == 1 then s.nodes[pc.lc := s.nodes[pc.lc].(parent := Just(pc.top))]
      else s.nodes
    case _ => s.nodes
  }

  // A new node gets its place when it is allocated.
  ghost function Placed(s: State, t: Tid, a: Action): map<Id, nat>
    requires Enabled(s, t, a)
  {
    match a
    case Alloc(m, _) => Squeezed(s.place, s.pc[t].curr, m)
    case AllocRoot(top) => Squeezed(s.place, s.pc[t].lc, top)
    case _ => s.place
  }

  // Locks taken and released.
  ghost function Locked(s: State, t: Tid, a: Action): map<Id, Tid>
    requires Enabled(s, t, a)
  {
    var pc := s.pc[t];
    match a
    case TakeLock => s.owner[Wants(pc).id := t]
    case LetGo => s.owner - {pc.curr}
    case FreeOne => s.owner - {if pc.job.Halves? then pc.job.lc else pc.curr}
    case DropChild => s.owner - Child(pc.job)
    case _ => s.owner
  }

  // Where t goes.
  ghost function Next(s: State, t: Tid, a: Action): Pc
    requires Enabled(s, t, a)
  {
    var pc := s.pc[t];
    match a
    case Enter(leaf) => WantLeaf(leaf)
    case TakeLock => Taken(pc)
    case Look => if s.nodes[pc.curr].right.Just? then Seen(pc.job, pc.curr) else Arrived(pc.job, pc.curr)
    case GoRight => WantNext(pc.job, pc.curr, s.nodes[pc.curr].right.id)
    case Stay => Arrived(pc.job, pc.curr)
    case LetGo => Walking(pc.job, pc.next)
    case Room => Freeing(pc.job, pc.curr)
    case FreeOne => if pc.job.Halves? then Freeing(Key, pc.curr) else Idle
    case Alloc(m, _) => Splitting(pc.job, pc.curr, m, s.nodes[pc.curr].kids + NewKid(pc.job))
    case Fill(_, _) => pc
    case Adopt(_, _) => pc
    case LoadLink => Loaded(pc.job, pc.curr, pc.m, s.nodes[pc.curr].right)
    case LinkRight => HalfLinked(pc.job, pc.curr, pc.m, pc.x)
    case LinkLeft => Climbing(pc.job, pc.curr, pc.m)
    case DropChild => Up(pc.curr, pc.m)
    case TestRoot => if pc.lc == s.root then Topmost(pc.lc, pc.rc) else Inner(pc.lc, pc.rc)
    case AllocRoot(top) => Growing(pc.lc, pc.rc, top, 0)
    case RootStore => if pc.stores < 2 then pc.(stores := pc.stores + 1) else Freeing(Key, pc.lc)
    case ReadParent => WantParent(pc.lc, pc.rc, s.nodes[pc.lc].parent.id)
  }

  ghost function Do(s: State, t: Tid, a: Action): State
    requires Enabled(s, t, a)
  {
    State(Stored(s, t, a),
          if a.RootStore? && s.pc[t].stores == 2 then s.pc[t].top else s.root,
          Placed(s, t, a),
          Locked(s, t, a),
          s.pc[t := Next(s, t, a)])
  }

  function NewKid(j: Job): set<Id> {
    if j.Halves? then {j.rc} else {}
  }

  // One empty leaf, no lock taken, every thread idle.
  ghost predicate Init(s: State) {
    && s.nodes == map[s.root := Spot(0, Bot, Nothing, Nothing, {})]
    && s.place == map[s.root := 0]
    && s.owner == map[]
    && forall t :: t in s.pc ==> s.pc[t] == Idle
  }

  // ---- the invariant

  // Parents are one level up, children one level down, right links lead right on the level.
  ghost predicate SpotOk(s: State, n: Id, spot: Spot) {
    && (spot.right.Just? ==> NextTo(s, n, spot.right.id))
    && (spot.parent.Just? ==> OneUp(s, n, spot.parent.id))
    && forall c :: c in spot.kids ==> OneUp(s, c, n)
  }

  ghost predicate LinkOk(s: State, n: Id)
    requires n in s.nodes
  {
    SpotOk(s, n, s.nodes[n])
  }

  ghost predicate OneUp(s: State, n: Id, p: Id) {
    n in s.nodes && p in s.nodes && s.nodes[p].level == s.nodes[n].level + 1
  }

  ghost predicate SameLevel(s: State, n: Id, m: Id) {
    n in s.nodes && m in s.nodes && s.nodes[m].level == s.nodes[n].level
  }

  ghost predicate NextTo(s: State, n: Id, m: Id) {
    SameLevel(s, n, m) && n in s.place && m in s.place && s.place[n] < s.place[m]
  }

  // Two halves one level below n.
  ghost predicate Stacked(s: State, j: Job, n: Id) {
    n in s.nodes && (j.Halves? ==> OneUp(s, j.lc, n) && OneUp(s, j.rc, n))
  }

  // The nodes a pc mentions exist and lie in lock order: child, then curr, then next.
  ghost predicate PcOk(s: State, pc: Pc) {
    match pc
    case Idle => true
    case WantLeaf(n) => n in s.nodes
    case WantNext(j, n, m) => Stacked(s, j, n) && NextTo(s, n, m)
    case Passing(j, n, m) => Stacked(s, j, n) && NextTo(s, n, m)
    case Splitting(j, n, m, temp) => Stacked(s, j, n) && NextTo(s, n, m) && forall c :: c in temp ==> OneUp(s, c, n)
    case Loaded(j, n, m, x) => Stacked(s, j, n) && NextTo(s, n, m) && (x.Just? ==> NextTo(s, m, x.id))
    case HalfLinked(j, n, m, x) => Stacked(s, j, n) && NextTo(s, n, m) && (x.Just? ==> NextTo(s, m, x.id))
    case Climbing(j, n, m) => Stacked(s, j, n) && SameLevel(s, n, m)
    case Up(n, m) => SameLevel(s, n, m)
    case Topmost(n, m) => SameLevel(s, n, m)
    case Inner(n, m) => SameLevel(s, n, m)
    case Growing(n, m, top, k) => SameLevel(s, n, m) && OneUp(s, n, top) && k < 3
    case WantParent(n, m, p) => SameLevel(s, n, m) && OneUp(s, n, p)
    case _ => Stacked(s, pc.job, pc.curr)
  }

  // The right half a thread has allocated and not yet linked from the left.
  function Making(pc: Pc): Opt {
    if pc.Splitting? || pc.Loaded? || pc.HalfLinked? then Just(pc.m) else Nothing
  }

  // A right half in the making sits right beside the left one, and no link leads or will lead there.
  ghost predicate FreshOk(s: State, t: Tid)
    requires t in s.pc
  {
    Making(s.pc[t]).Just? ==>
      var m := s.pc[t].m;
      && m in s.nodes && s.pc[t].curr in s.place && m in s.place && s.place[m] == s.place[s.pc[t].curr] + 1
      && (forall n {:trigger s.nodes[n]} :: n in s.nodes ==> s.nodes[n].right != Just(m))
      && forall u {:trigger s.pc[u]} :: u in s.pc && u != t ==> NoUse(s.pc[u], m)
  }

  // Another thread's pc does not make m itself, nor is about to store it as a link.
  predicate NoUse(pc: Pc, m: Id) {
    Making(pc) != Just(m) && (pc.Loaded? ==> pc.x != Just(m))
  }

  // The owner map is exactly what the pcs say is held.
  ghost predicate OwnsOk(s: State, t: Tid)
    requires t in s.pc
  {
    forall n :: n in Held(s.pc[t]) <==> n in s.owner && s.owner[n] == t
  }

  ghost predicate PlacesOk(s: State) {
    && s.place.Keys == s.nodes.Keys
    && forall a, b :: a in s.place && b in s.place && s.place[a] == s.place[b] ==> a == b
  }

  ghost predicate Inv(s: State) {
    && PlacesOk(s)
    && (forall n {:trigger LinkOk(s, n)} :: n in s.nodes ==> LinkOk(s, n))
    && (forall t {:trigger PcOk(s, s.pc[t])} :: t in s.pc ==> PcOk(s, s.pc[t]))
    && (forall t {:trigger OwnsOk(s, t)} :: t in s.pc ==> OwnsOk(s, t))
    && (forall t {:trigger FreshOk(s, t)} :: t in s.pc ==> FreshOk(s, t))
    && (forall n :: n in s.owner ==> s.owner[n] in s.pc)
  }

  // Levels and lower bounds of existing nodes never change, nor which of two lies further left.
  ghost predicate Grows(s: State, s': State) {
    && s.nodes.Keys <= s'.nodes.Keys && s.place.Keys <= s'.place.Keys
    && (forall n {:trigger s'.nodes[n]} :: n in s.nodes && n in s'.nodes ==>
          s'.nodes[n].level == s.nodes[n].level && s'.nodes[n].low == s.nodes[n].low)
    && forall a, b {:trigger s'.place[a], s'.place[b]} ::
         a in s.place && b in s.place && a in s'.place && b in s'.place ==>
           (s.place[a] < s.place[b] <==> s'.place[a] < s'.place[b])
  }

  // ---- what one step leaves alone

  // Squeezing m in keeps the order of places, and neighbours other than c.
  lemma SqueezedOrder(place: map<Id, nat>, c: Id, m: Id, x: Id, y: Id)
    requires c in place && m !in place && x in place && y in place
    requires place[x] == place[c] ==> x == c
    ensures var p := Squeezed(place, c, m);
      && (place[x] < place[y] <==> p[x] < p[y])
      && (x != c && place[y] == place[x] + 1 ==> p[y] == p[x] + 1)
  {
  }

  lemma SqueezedOnce(place: map<Id, nat>, c: Id, m: Id, x: Id, y: Id)
    requires c in place && m !in place && x in Squeezed(place, c, m) && y in Squeezed(place, c, m)
    requires x in place && y in place && place[x] == place[y] ==> x == y
    ensures Squeezed(place, c, m)[x] == Squeezed(place, c, m)[y] ==> x == y
  {
  }

  ghost function NewIds(a: Action): set<Id> {
    match a
    case Alloc(m, _) => {m}
    case AllocRoot(top) => {top}
    case _ => {}
  }

  lemma StepKeys(s: State, t: Tid, a: Action)
    requires Enabled(s, t, a)
    ensures Stored(s, t, a).Keys == s.nodes.Keys + NewIds(a)
  {
    if a.Alloc? || a.AllocRoot? {
      hide Enabled;
    }
  }

  lemma StepStores(s: State, t: Tid, a: Action, n: Id)
    requires Enabled(s, t, a) && n in s.nodes
    ensures n in Stored(s, t, a)
    ensures Stored(s, t, a)[n].level == s.nodes[n].level && Stored(s, t, a)[n].low == s.nodes[n].low
  {
    if a.Alloc? || a.AllocRoot? {
    } else {
      hide Enabled;
    }
  }

  // A new node is put in right after this one.
  ghost function Beside(s: State, t: Tid, a: Action): Id
    requires Enabled(s, t, a) && NewIds(a) != {}
  {
    if a.Alloc? then s.pc[t].curr else s.pc[t].lc
  }

  lemma StepPlaces(s: State, t: Tid, a: Action, x: Id, y: Id)
    requires PlacesOk(s) && Enabled(s, t, a) && x in s.place && y in s.place
    ensures x in Placed(s, t, a) && y in Placed(s, t, a)
    ensures s.place[x] < s.place[y] <==> Placed(s, t, a)[x] < Placed(s, t, a)[y]
    ensures NewIds(a) == {} || x != Beside(s, t, a) ==>
      s.place[y] == s.place[x] + 1 ==> Placed(s, t, a)[y] == Placed(s, t, a)[x] + 1
  {
    if a.Alloc? {
      SqueezedOrder(s.place, s.pc[t].curr, a.m, x, y);
      hide Squeezed;
    } else if a.AllocRoot? {
      SqueezedOrder(s.place, s.pc[t].lc, a.top, x, y);
      hide Squeezed;
    } else {
      hide Enabled;
    }
  }

  lemma StepKeepsPlaces(s: State, t: Tid, a: Action)
    requires PlacesOk(s) && Enabled(s, t, a)
    ensures PlacesOk(Do(s, t, a))
  {
    StepKeys(s, t, a);
    if a.Alloc? || a.AllocRoot? {
      var c := Beside(s, t, a);
      var m := if a.Alloc? then a.m else a.top;
      forall x, y | x in Placed(s, t, a) && y in Placed(s, t, a) && Placed(s, t, a)[x] == Placed(s, t, a)[y]
        ensures x == y {
        SqueezedOnce(s.place, c, m, x, y);
      }
    } else {
      hide Enabled, Stored;
    }
  }

  lemma StepGrows(s: State, t: Tid, a: Action)
    requires PlacesOk(s) && Enabled(s, t, a)
    ensures Grows(s, Do(s, t, a))
  {
    hide Enabled, Stored, Placed, Locked, Next;
    StepKeys(s, t, a);
    StepKeepsPlaces(s, t, a);
    forall n | n in s.nodes
      ensures n in Stored(s, t, a)
      ensures Stored(s, t, a)[n].level == s.nodes[n].level && Stored(s, t, a)[n].low == s.nodes[n].low
    {
      StepStores(s, t, a, n);
    }
    forall x, y | x in s.place && y in s.place
      ensures x in Placed(s, t, a) && y in Placed(s, t, a)
      ensures s.place[x] < s.place[y] <==> Placed(s, t, a)[x] < Placed(s, t, a)[y]
    {
      StepPlaces(s, t, a, x, y);
    }
  }

  // ---- every step keeps the invariant

  lemma PcOkGrows(s: State, s': State, pc: Pc)
    requires Grows(s, s') && PcOk(s, pc)
    ensures PcOk(s', pc)
  {
  }

  lemma SpotOkGrows(s: State, s': State, n: Id, spot: Spot)
    requires Grows(s, s') && SpotOk(s, n, spot)
    ensures SpotOk(s', n, spot)
  {
  }

  // Steps that read and allocate nothing take no node that the pc did not mention.
  lemma MovesOn(s: State, t: Tid, a: Action, s': State)
    requires Enabled(s, t, a) && PcOk(s', s.pc[t])
    requires s.nodes.Keys <= s'.nodes.Keys
    requires !a.GoRight? && !a.LoadLink? && !a.Alloc? && !a.AllocRoot? && !a.ReadParent?
    ensures PcOk(s', Next(s, t, a))
  {
  }

  lemma ReadOk(s: State, t: Tid, a: Action)
    requires Inv(s) && Enabled(s, t, a) && (a.GoRight? || a.ReadParent?)
    ensures PcOk(s, Next(s, t, a))
  {
    hide OwnsOk, Held, FreshOk;
    var pc := s.pc[t];
    assert PcOk(s, pc) && LinkOk(s, if a.GoRight? then pc.curr else pc.lc);
  }

  lemma LoadOk(s: State, t: Tid)
    requires Inv(s) && Enabled(s, t, LoadLink)
    ensures PcOk(s, Next(s, t, LoadLink))
  {
    hide OwnsOk, Held;
    var pc := s.pc[t];
    assert PcOk(s, pc) && FreshOk(s, t) && LinkOk(s, pc.curr);
  }

  lemma TempOk(s: State, s': State, j: Job, n: Id)
    requires Grows(s, s') && Stacked(s, j, n) && LinkOk(s, n)
    ensures Stacked(s', j, n) && forall c :: c in s.nodes[n].kids + NewKid(j) ==> OneUp(s', c, n)
  {
  }

  lemma CutsBeside(s: State, t: Tid, m: Id, low: Bound)
    requires PlacesOk(s) && Enabled(s, t, Alloc(m, low))
    ensures NextTo(Do(s, t, Alloc(m, low)), s.pc[t].curr, m)
  {
  }

  lemma AllocOk(s: State, t: Tid, m: Id, low: Bound)
    requires Inv(s) && Enabled(s, t, Alloc(m, low))
    requires Grows(s, Do(s, t, Alloc(m, low)))
    ensures PcOk(Do(s, t, Alloc(m, low)), Next(s, t, Alloc(m, low)))
  {
    var pc, s' := s.pc[t], Do(s, t, Alloc(m, low));
    assert PcOk(s, pc) && LinkOk(s, pc.curr);
    hide Inv, LinkOk, Grows, Stacked, NextTo, Do, OneUp;
    TempOk(s, s', pc.job, pc.curr);
    CutsBeside(s, t, m, low);
  }

  lemma AllocRootOk(s: State, t: Tid, top: Id)
    requires Inv(s) && Enabled(s, t, AllocRoot(top))
    ensures PcOk(Do(s, t, AllocRoot(top)), Next(s, t, AllocRoot(top)))
  {
    hide OwnsOk, Held, FreshOk, LinkOk, Squeezed;
    assert PcOk(s, s.pc[t]);
  }

  // What the thread that steps knows in the new state.
  lemma NextOk(s: State, t: Tid, a: Action)
    requires Inv(s) && Enabled(s, t, a)
    ensures PcOk(Do(s, t, a), Next(s, t, a))
  {
    hide OwnsOk, Held, FreshOk, LinkOk, PcOk, Stored, Placed, Locked, Next;
    var s', pc := Do(s, t, a), s.pc[t];
    hide Enabled;
    StepGrows(s, t, a);
    assert PcOk(s, pc);
    if a.GoRight? || a.ReadParent? {
      ReadOk(s, t, a);
      PcOkGrows(s, s', Next(s, t, a));
    } else if a.LoadLink? {
      LoadOk(s, t);
      PcOkGrows(s, s', Next(s, t, a));
    } else if a.Alloc? {
      AllocOk(s, t, a.m, a.low);
    } else if a.AllocRoot? {
      AllocRootOk(s, t, a.top);
    } else {
      PcOkGrows(s, s', pc);
      MovesOn(s, t, a, s');
    }
  }

  // What is stored over a record links no worse than the record did.
  lemma StoreLinks(s: State, t: Tid, a: Action, s': State, n: Id)
    requires Enabled(s, t, a) && PcOk(s', s.pc[t]) && n in s.nodes
    requires a.Adopt? ==> OneUp(s', a.c, a.n)
    requires SpotOk(s', n, s.nodes[n])
    ensures n in Stored(s, t, a) && SpotOk(s', n, Stored(s, t, a)[n])
  {
  }

  // A new node starts without a right link, under its left neighbour's parent.
  lemma NewLinks(s: State, t: Tid, a: Action, n: Id)
    requires Inv(s) && Enabled(s, t, a) && n in NewIds(a)
    requires Grows(s, Do(s, t, a)) && PcOk(Do(s, t, a), Next(s, t, a))
    ensures n in Stored(s, t, a) && SpotOk(Do(s, t, a), n, Stored(s, t, a)[n])
  {
    hide OwnsOk, Held, FreshOk, Squeezed;
    assert LinkOk(s, Beside(s, t, a));
  }

  lemma StepKeepsLinks(s: State, t: Tid, a: Action, n: Id)
    requires Inv(s) && Enabled(s, t, a) && n in Stored(s, t, a)
    ensures LinkOk(Do(s, t, a), n)
  {
    hide OwnsOk, Held, FreshOk, PcOk, SpotOk, Squeezed, Placed, Locked, Next, Stored;
    var s' := Do(s, t, a);
    assert PcOk(s, s.pc[t]);
    StepGrows(s, t, a);
    StepKeys(s, t, a);
    NextOk(s, t, a);
    PcOkGrows(s, s', s.pc[t]);
    if n in s.nodes {
      assert LinkOk(s, n);
      SpotOkGrows(s, s', n, s.nodes[n]);
      if a.Adopt? {
        AdoptedOk(s, t, a.c, a.n);
      }
      StoreLinks(s, t, a, s', n);
    } else {
      hide Enabled;
      NewLinks(s, t, a, n);
    }
  }

  lemma AdoptedOk(s: State, t: Tid, c: Id, n: Id)
    requires Inv(s) && Enabled(s, t, Adopt(c, n))
    ensures OneUp(s, c, n) && OneUp(Do(s, t, Adopt(c, n)), c, n)
  {
    assert LinkOk(s, n);
    hide OwnsOk, Held, FreshOk, PcOk;
  }

  // The locks t holds after its step.
  ghost function HeldAfter(s: State, t: Tid, a: Action): set<Id>
    requires Enabled(s, t, a)
  {
    var pc := s.pc[t];
    match a
    case TakeLock => Held(pc) + {Wants(pc).id}
    case LetGo => Held(pc) - {pc.curr}
    case FreeOne => Held(pc) - {if pc.job.Halves? then pc.job.lc else pc.curr}
    case DropChild => Held(pc) - Child(pc.job)
    case _ => Held(pc)
  }

  lemma HeldNext(s: State, t: Tid, a: Action)
    requires Enabled(s, t, a) && PcOk(s, s.pc[t])
    ensures Held(Next(s, t, a)) == HeldAfter(s, t, a)
  {
  }

  lemma StepKeepsOwns(s: State, t: Tid, a: Action, u: Tid)
    requires Inv(s) && Enabled(s, t, a) && u in s.pc
    ensures OwnsOk(Do(s, t, a), u)
  {
    hide LinkOk, FreshOk, PcOk, Stored, Placed, Next;
    assert OwnsOk(s, u) && OwnsOk(s, t) && PcOk(s, s.pc[t]);
    HeldNext(s, t, a);
  }

  lemma StoredRight(s: State, t: Tid, a: Action, n: Id, m: Id)
    requires Enabled(s, t, a) && n in Stored(s, t, a)
    requires n in s.nodes ==> s.nodes[n].right != Just(m)
    requires a.LinkRight? ==> s.pc[t].x != Just(m)
    requires a.LinkLeft? ==> s.pc[t].m != m
    ensures Stored(s, t, a)[n].right != Just(m)
  {
  }

  lemma NextNoUse(s: State, t: Tid, a: Action, m: Id)
    requires Enabled(s, t, a) && NoUse(s.pc[t], m) && m in s.nodes
    requires forall n {:trigger s.nodes[n]} :: n in s.nodes ==> s.nodes[n].right != Just(m)
    ensures NoUse(Next(s, t, a), m)
  {
  }

  // A right half that another thread is making stays out of use.
  lemma OtherFresh(s: State, t: Tid, a: Action, u: Tid)
    requires Inv(s) && Enabled(s, t, a) && u in s.pc && u != t
    ensures FreshOk(Do(s, t, a), u)
  {
    hide LinkOk, PcOk, Held, Stored, Placed, Locked, Next, NoUse;
    var pc := s.pc[t];
    hide Enabled;
    assert FreshOk(s, u);
    if Making(s.pc[u]).Just? {
      var m := s.pc[u].m;
      OtherPlaces(s, t, a, u);
      StepKeys(s, t, a);
      assert NoUse(pc, m);
      forall n | n in Stored(s, t, a) ensures Stored(s, t, a)[n].right != Just(m) {
        assert n in s.nodes ==> s.nodes[n].right != Just(m);
        NoUseStores(s, t, a, m);
        StoredRight(s, t, a, n, m);
      }
      NextNoUse(s, t, a, m);
    }
  }

  lemma NoUseStores(s: State, t: Tid, a: Action, m: Id)
    requires Enabled(s, t, a) && NoUse(s.pc[t], m)
    ensures a.LinkRight? ==> s.pc[t].x != Just(m)
    ensures a.LinkLeft? ==> s.pc[t].m != m
  {
  }

  // Nothing is squeezed in between: that takes the lock of the left half.
  lemma OtherPlaces(s: State, t: Tid, a: Action, u: Tid)
    requires Inv(s) && Enabled(s, t, a) && u in s.pc && u != t && Making(s.pc[u]).Just?
    ensures var m, c := s.pc[u].m, s.pc[u].curr;
      m in Placed(s, t, a) && c in Placed(s, t, a) && Placed(s, t, a)[m] == Placed(s, t, a)[c] + 1
  {
    hide LinkOk, PcOk, Stored, Placed, Locked, Next;
    assert FreshOk(s, u) && OwnsOk(s, u) && OwnsOk(s, t);
    hide FreshOk;
    assert s.pc[u].curr in Held(s.pc[u]);
    if NewIds(a) != {} {
      assert Beside(s, t, a) in Held(s.pc[t]);
    }
    StepPlaces(s, t, a, s.pc[u].curr, s.pc[u].m);
  }

  lemma AllocFresh(s: State, t: Tid, m: Id, low: Bound)
    requires Inv(s) && Enabled(s, t, Alloc(m, low))
    ensures FreshOk(Do(s, t, Alloc(m, low)), t)
  {
    hide OwnsOk, Held, Locked, PcOk;
    var s' := Do(s, t, Alloc(m, low));
    forall n | n in s'.nodes ensures s'.nodes[n].right != Just(m) {
      assert n in s.nodes ==> LinkOk(s, n);
    }
    hide LinkOk;
    forall u | u in s.pc && u != t ensures NoUse(s'.pc[u], m) {
      UsesNodes(s, u, m);
    }
  }

  lemma UsesNodes(s: State, u: Tid, m: Id)
    requires Inv(s) && u in s.pc && m !in s.nodes
    ensures NoUse(s.pc[u], m)
  {
    hide OwnsOk, LinkOk, FreshOk;
    assert PcOk(s, s.pc[u]);
  }

  lemma SameMaking(s: State, t: Tid, a: Action)
    requires Enabled(s, t, a) && PcOk(s, s.pc[t]) && Making(Next(s, t, a)).Just? && !a.Alloc?
    ensures NewIds(a) == {} && Making(s.pc[t]).Just?
    ensures Next(s, t, a).m == s.pc[t].m && Next(s, t, a).curr == s.pc[t].curr
    ensures a.LinkRight? ==> s.pc[t].x != Just(s.pc[t].m)
    ensures !a.LinkLeft?
  {
  }

  // The thread that steps keeps its own right half out of use.
  lemma OwnFresh(s: State, t: Tid, a: Action)
    requires Inv(s) && Enabled(s, t, a)
    ensures FreshOk(Do(s, t, a), t)
  {
    if a.Alloc? {
      AllocFresh(s, t, a.m, a.low);
    } else {
      hide LinkOk, OwnsOk, Held, NoUse, PcOk, Next, Stored, Enabled, Locked;
      if Making(Next(s, t, a)).Just? {
        assert PcOk(s, s.pc[t]) && FreshOk(s, t);
        hide Inv;
        SameMaking(s, t, a);
        var m := s.pc[t].m;
        StepKeys(s, t, a);
        forall n | n in Stored(s, t, a) ensures Stored(s, t, a)[n].right != Just(m) {
          StoredRight(s, t, a, n, m);
        }
      }
    }
  }

  lemma StepKeepsInv(s: State, t: Tid, a: Action)
    requires Inv(s) && Enabled(s, t, a)
    ensures Inv(Do(s, t, a))
  {
    hide LinkOk, OwnsOk, FreshOk, PcOk, Held, Stored, Placed, Next;
    var s' := Do(s, t, a);
    StepKeepsPlaces(s, t, a);
    StepGrows(s, t, a);
    forall n | n in s'.nodes ensures LinkOk(s', n) {
      StepKeepsLinks(s, t, a, n);
    }
    forall u | u in s'.pc ensures PcOk(s', s'.pc[u]) && OwnsOk(s', u) && FreshOk(s', u) {
      StepKeepsOwns(s, t, a, u);
      if u == t {
        NextOk(s, t, a);
        OwnFresh(s, t, a);
      } else {
        assert PcOk(s, s.pc[u]);
        PcOkGrows(s, s', s.pc[u]);
        OtherFresh(s, t, a, u);
      }
    }
  }

  // ---- runs

  datatype Move = Move(t: Tid, a: Action)

  // states[0] is initial, and each state leads to the next by the move in between.
  ghost predicate Run(states: seq<State>, moves: seq<Move>) {
    && |states| == |moves| + 1
    && Init(states[0])
    && forall i {:trigger moves[i]} :: 0 <= i < |moves| ==>
         Enabled(states[i], moves[i].t, moves[i].a) && states[i + 1] == Do(states[i], moves[i].t, moves[i].a)
  }

  lemma InitIsInv(s: State)
    requires Init(s)
    ensures Inv(s)
  {
  }

  lemma {:induction false} RunKeepsInv(states: seq<State>, moves: seq<Move>, i: nat)
    requires Run(states, moves) && i < |states|
    ensures Inv(states[i])
  {
    if i == 0 {
      InitIsInv(states[0]);
    } else {
      hide Init, Inv, Enabled, Do;
      RunKeepsInv(states, moves, i - 1);
      var m := moves[i - 1];
      StepKeepsInv(states[i - 1], m.t, m.a);
    }
  }
}
