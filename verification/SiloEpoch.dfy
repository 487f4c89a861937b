/**
 Silo's epochs: one thread advances the global epoch when every worker has published the
 current one. Every atomic load, store and compare-exchange is a step of its own.
 */
module SiloEpoch {

  datatype WorkerPc = Idle | Loaded(epoch: nat)

  datatype EpocherPc =
    | Waiting
    | Checking(now: nat, i: nat)   // entries 1 to i - 1 were equal to now
    | Passed                       // chkEpochLoaded returned true
    | Adding(expected: nat)        // in atomicAddGE

  // Workers are 1 to THREAD_NUM - 1, THREAD_NUM being the length of both sequences; entry 0 is not used.
  datatype State = State(GlobalEpoch: nat, ThLocalEpoch: seq<nat>, workers: seq<WorkerPc>, epocher: EpocherPc)

  ghost predicate Shaped(s: State) {
    |s.ThLocalEpoch| == |s.workers|
  }

  predicate IsWorker(s: State, w: nat) {
    1 <= w < |s.ThLocalEpoch|
  }

  ghost predicate Init(s: State) {
    && Shaped(s) && s.GlobalEpoch == 0 && s.epocher == Waiting
    && forall w {:trigger s.workers[w]} :: 0 <= w < |s.workers| ==> s.ThLocalEpoch[w] == 0 && s.workers[w] == Idle
  }

  // Who moves: the epoch thread, or a worker at its serialization point.
  datatype Actor = Epocher | Worker(w: nat)

  ghost predicate CanMove(s: State, a: Actor) {
    Shaped(s) && (a.Worker? ==> IsWorker(s, a.w))
  }

  ghost function Step(s: State, a: Actor): State
    requires CanMove(s, a)
  {
    match a
    case Epocher => (
      match s.epocher
      case Waiting => s.(epocher := Checking(s.GlobalEpoch, 1))
      case Checking(now, i) =>
        if i >= |s.ThLocalEpoch| then s.(epocher := Passed)
        else if s.ThLocalEpoch[i] != now then s.(epocher := Waiting)
        else s.(epocher := Checking(now, i + 1))
      case Passed => s.(epocher := Adding(s.GlobalEpoch))
      case Adding(expected) =>
        if s.GlobalEpoch == expected then s.(GlobalEpoch := expected + 1, epocher := Waiting)
        else s.(epocher := Adding(s.GlobalEpoch)))
    case Worker(w) => (
      match s.workers[w]
      case Idle => s.(workers := s.workers[w := Loaded(s.GlobalEpoch)])
      case Loaded(e) => s.(ThLocalEpoch := s.ThLocalEpoch[w := e], workers := s.workers[w := Idle]))
  }

  // states[0] is initial, and each state leads to the next by the actor in between.
  ghost predicate Run(states: seq<State>, schedule: seq<Actor>) {
    && |states| == |schedule| + 1
    && Init(states[0])
    && forall i {:trigger schedule[i]} :: 0 <= i < |schedule| ==>
         CanMove(states[i], schedule[i]) && states[i + 1] == Step(states[i], schedule[i])
  }

  ghost predicate LagOk(s: State, w: nat)
    requires Shaped(s) && IsWorker(s, w)
  {
    && s.ThLocalEpoch[w] <= s.GlobalEpoch <= s.ThLocalEpoch[w] + 1
    && (s.workers[w].Loaded? ==> s.ThLocalEpoch[w] <= s.workers[w].epoch <= s.GlobalEpoch)
  }

  // All workers have published the global epoch.
  ghost predicate AllPublished(s: State) {
    forall w: nat :: IsWorker(s, w) ==> s.ThLocalEpoch[w] == s.GlobalEpoch
  }

  // The entries checked so far stay equal to the global epoch until it is advanced.
  ghost predicate EpocherOk(s: State)
    requires Shaped(s)
  {
    match s.epocher
    case Waiting => true
    case Checking(now, i) =>
      && now == s.GlobalEpoch && 1 <= i
      && forall w: nat :: IsWorker(s, w) && w < i ==> s.ThLocalEpoch[w] == s.GlobalEpoch
    case Passed => AllPublished(s)
    case Adding(expected) => expected == s.GlobalEpoch && AllPublished(s)
  }

  ghost predicate Inv(s: State) {
    Shaped(s) && EpocherOk(s) && forall w: nat :: IsWorker(s, w) ==> LagOk(s, w)
  }

  lemma StepKeepsInv(s: State, a: Actor)
    requires Inv(s) && CanMove(s, a)
    ensures Inv(Step(s, a)) && |Step(s, a).ThLocalEpoch| == |s.ThLocalEpoch|
  {
    var s' := Step(s, a);
    if a.Worker? {
      assert LagOk(s, a.w);
    }
    forall w | IsWorker(s', w) ensures LagOk(s', w) {
      assert LagOk(s, w);
    }
  }

  lemma {:induction false} RunKeepsInv(states: seq<State>, schedule: seq<Actor>, i: nat)
    requires Run(states, schedule) && i < |states|
    ensures Inv(states[i]) && |states[i].ThLocalEpoch| == |states[0].ThLocalEpoch|
  {
    if i == 0 {
      forall w: nat | IsWorker(states[0], w) ensures LagOk(states[0], w) {
        assert states[0].workers[w] == Idle;
      }
    } else {
      RunKeepsInv(states, schedule, i - 1);
      StepKeepsInv(states[i - 1], schedule[i - 1]);
    }
  }

  // A worker's published epochs never fall, over whole runs: what SiloWorker.CommitsNeverFall needs.
  lemma {:induction false} PublishedNeverFalls(states: seq<State>, schedule: seq<Actor>, i: nat, j: nat, w: nat)
    requires Run(states, schedule) && i <= j < |states| && IsWorker(states[0], w)
    ensures IsWorker(states[i], w) && IsWorker(states[j], w) && states[i].ThLocalEpoch[w] <= states[j].ThLocalEpoch[w]
    decreases j
  {
    RunKeepsInv(states, schedule, i);
    if i < j {
      PublishedNeverFalls(states, schedule, i, j - 1, w);
      RunKeepsInv(states, schedule, j - 1);
      StepKeepsInv(states[j - 1], schedule[j - 1]);
      assert LagOk(states[j - 1], w);
    }
  }

  predicate OneBehind(s: State, epoch: nat) {
    epoch == s.GlobalEpoch || epoch == s.GlobalEpoch - 1
  }

  /**
   Epoch lag: in every state of a run each worker's published epoch is the global epoch or
   one less, and so is one it has loaded and not yet stored.
   */
  lemma EpochLag(states: seq<State>, schedule: seq<Actor>, i: nat)
    requires Run(states, schedule) && i < |states|
    ensures var s := states[i];
      Shaped(s) && forall w: nat :: IsWorker(s, w) ==>
        OneBehind(s, s.ThLocalEpoch[w]) && (s.workers[w].Loaded? ==> OneBehind(s, s.workers[w].epoch))
  {
    var s := states[i];
    RunKeepsInv(states, schedule, i);
    forall w: nat | IsWorker(s, w)
      ensures OneBehind(s, s.ThLocalEpoch[w]) && (s.workers[w].Loaded? ==> OneBehind(s, s.workers[w].epoch))
    {
      assert LagOk(s, w);
    }
  }

  // A worker that stays between its load and its store holds the global epoch back: whatever
  // the others do, it is at most one above what the worker had published.
  lemma {:induction false} StragglerHoldsEpoch(states: seq<State>, schedule: seq<Actor>, i: nat, j: nat, w: nat)
    requires Run(states, schedule) && i <= j < |states| && IsWorker(states[0], w)
    requires forall k :: i <= k < j ==> schedule[k] != Worker(w)
    ensures IsWorker(states[i], w) && IsWorker(states[j], w)
    ensures states[j].ThLocalEpoch[w] == states[i].ThLocalEpoch[w]
    ensures states[j].GlobalEpoch <= states[i].ThLocalEpoch[w] + 1
    decreases j
  {
    RunKeepsInv(states, schedule, i);
    assert LagOk(states[i], w);
    if i < j {
      StragglerHoldsEpoch(states, schedule, i, j - 1, w);
      assert schedule[j - 1] != Worker(w);
      RunKeepsInv(states, schedule, j);
      assert LagOk(states[j], w);
    }
  }

  // The compare-exchange never fails: nobody else writes the global epoch.
  lemma AddSucceeds(states: seq<State>, schedule: seq<Actor>, i: nat)
    requires Run(states, schedule) && i < |states| && states[i].epocher.Adding? && CanMove(states[i], Epocher)
    ensures Step(states[i], Epocher).GlobalEpoch == states[i].GlobalEpoch + 1
    ensures forall w: nat :: IsWorker(states[i], w) ==> states[i].ThLocalEpoch[w] == states[i].GlobalEpoch
  {
    RunKeepsInv(states, schedule, i);
  }

  // ---- progress

  // A worker's load and its next store, whatever the others do in between, publish the epoch it loaded.
  lemma {:induction false} PublishesWhatItLoaded(states: seq<State>, schedule: seq<Actor>, i: nat, j: nat, w: nat)
    requires Run(states, schedule) && i < j < |schedule| && schedule[i] == Worker(w) == schedule[j]
    requires states[i].workers[w].Idle? && forall k :: i < k < j ==> schedule[k] != Worker(w)
    ensures IsWorker(states[j + 1], w) && states[j + 1].ThLocalEpoch[w] == states[i].GlobalEpoch
  {
    HoldsLoaded(states, schedule, i, j, w);
  }

  lemma {:induction false} HoldsLoaded(states: seq<State>, schedule: seq<Actor>, i: nat, j: nat, w: nat)
    requires Run(states, schedule) && i < j < |states| && schedule[i] == Worker(w) && states[i].workers[w].Idle?
    requires forall k :: i < k < j ==> schedule[k] != Worker(w)
    ensures Shaped(states[j]) && IsWorker(states[j], w) && states[j].workers[w] == Loaded(states[i].GlobalEpoch)
    decreases j
  {
    assert CanMove(states[j - 1], schedule[j - 1]);
    if i + 1 < j {
      HoldsLoaded(states, schedule, i, j - 1, w);
      assert schedule[j - 1] != Worker(w);
    }
  }

  // n steps of the epoch thread, with nobody in between.
  ghost function Alone(s: State, n: nat): (r: State)
    requires Shaped(s)
    ensures Shaped(r) && r.ThLocalEpoch == s.ThLocalEpoch && r.workers == s.workers
  {
    if n == 0 then s else Step(Alone(s, n - 1), Epocher)
  }

  lemma {:induction false} AloneThen(s: State, n: nat, m: nat)
    requires Shaped(s)
    ensures Alone(s, n + m) == Alone(Alone(s, n), m)
  {
    if m > 0 {
      AloneThen(s, n, m - 1);
    }
  }

  // The comparisons still to come.
  lemma {:induction false} CheckRest(s: State, i: nat) returns (n: nat)
    requires Shaped(s) && s.epocher == Checking(s.GlobalEpoch, i) && 1 <= i <= |s.ThLocalEpoch|
    requires forall w: nat :: 1 <= w < i ==> s.ThLocalEpoch[w] == s.GlobalEpoch
    ensures n <= |s.ThLocalEpoch| - i + 1 && (AllPublished(s) ==> n == |s.ThLocalEpoch| - i + 1)
    ensures Alone(s, n) == s.(epocher := if AllPublished(s) then Passed else Waiting)
    decreases |s.ThLocalEpoch| - i
  {
    var p := Step(s, Epocher);
    assert p == Alone(s, 1) by { assert Alone(s, 0) == s; }
    n := 1;
    if i < |s.ThLocalEpoch| && s.ThLocalEpoch[i] == s.GlobalEpoch {
      var m := CheckRest(p, i + 1);
      AloneThen(s, 1, m);
      n := 1 + m;
      assert AllPublished(p) == AllPublished(s);
    } else if i < |s.ThLocalEpoch| {
      assert IsWorker(s, i) && !AllPublished(s);
    }
  }

  /**
   Undisturbed, the epoch thread's check passes exactly if every worker has published the global
   epoch, as ChkEpochLoaded says; if so the global epoch is one more after THREAD_NUM + 3 steps.
   */
  lemma CheckAlone(s: State) returns (n: nat)
    requires Shaped(s) && |s.ThLocalEpoch| > 0 && s.epocher.Waiting?
    ensures 0 < n <= |s.ThLocalEpoch| + 1
    ensures Alone(s, n) == s.(epocher := if AllPublished(s) then Passed else Waiting)
    ensures AllPublished(s) ==> Alone(s, |s.ThLocalEpoch| + 3) == s.(GlobalEpoch := s.GlobalEpoch + 1)
  {
    var p := Step(s, Epocher);
    assert p == Alone(s, 1) by { assert Alone(s, 0) == s; }
    var m := CheckRest(p, 1);
    AloneThen(s, 1, m);
    n := 1 + m;
    assert AllPublished(p) == AllPublished(s);
    if AllPublished(s) {
      assert Alone(s, n + 1) == s.(epocher := Adding(s.GlobalEpoch));
      assert Alone(s, n + 2) == Step(Alone(s, n + 1), Epocher);
    }
  }

  // How often an actor moves between the i-th and the j-th state.
  ghost function Turns(schedule: seq<Actor>, i: nat, j: nat, a: Actor): nat
    requires i <= j <= |schedule|
    decreases j
  {
    if i == j then 0 else Turns(schedule, i, j - 1, a) + if schedule[j - 1] == a then 1 else 0
  }

  // Steps of the epoch thread to the next epoch, once all workers have published the current one.
  ghost function StepsLeft(s: State): nat {
    match s.epocher
    case Waiting => |s.ThLocalEpoch| + 3
    case Checking(_, i) => if i < |s.ThLocalEpoch| then |s.ThLocalEpoch| - i + 3 else 3
    case Passed => 2
    case Adding(_) => 1
  }

  lemma EpocherStep(s: State, a: Actor)
    requires Inv(s) && CanMove(s, a) && AllPublished(s) && |s.ThLocalEpoch| > 0
    ensures Step(s, a).GlobalEpoch > s.GlobalEpoch
      || (Step(s, a).GlobalEpoch == s.GlobalEpoch && AllPublished(Step(s, a))
          && StepsLeft(Step(s, a)) + (if a.Epocher? then 1 else 0) <= StepsLeft(s))
  {
    if a.Worker? {
      assert LagOk(s, a.w);
      assert IsWorker(s, a.w) && s.ThLocalEpoch[a.w] == s.GlobalEpoch;
    } else {
      assert s.epocher.Checking? && IsWorker(s, s.epocher.i) ==> s.ThLocalEpoch[s.epocher.i] == s.GlobalEpoch;
    }
  }

  lemma {:induction false} EpochRises(states: seq<State>, schedule: seq<Actor>, i: nat, j: nat)
    requires Run(states, schedule) && i <= j < |states|
    ensures states[i].GlobalEpoch <= states[j].GlobalEpoch
    decreases j
  {
    if i < j {
      EpochRises(states, schedule, i, j - 1);
      RunKeepsInv(states, schedule, j - 1);
      assert CanMove(states[j - 1], schedule[j - 1]);
    }
  }

  lemma {:induction false} StaysPublished(states: seq<State>, schedule: seq<Actor>, i: nat, j: nat)
    requires Run(states, schedule) && i <= j < |states| && AllPublished(states[i]) && |states[0].ThLocalEpoch| > 0
    ensures states[j].GlobalEpoch > states[i].GlobalEpoch
      || (AllPublished(states[j]) && states[j].GlobalEpoch == states[i].GlobalEpoch
          && StepsLeft(states[j]) + Turns(schedule, i, j, Epocher) <= |states[0].ThLocalEpoch| + 3)
    decreases j
  {
    RunKeepsInv(states, schedule, i);
    if i < j {
      StaysPublished(states, schedule, i, j - 1);
      RunKeepsInv(states, schedule, j - 1);
      EpochRises(states, schedule, j - 1, j);
      hide Inv, StepsLeft, AllPublished;
      assert CanMove(states[j - 1], schedule[j - 1]);
      if states[j - 1].GlobalEpoch == states[i].GlobalEpoch {
        EpocherStep(states[j - 1], schedule[j - 1]);
      }
    }
  }

  // Moves of w until it has published epoch g, which is the global one.
  ghost function Behind(s: State, w: nat): nat
    requires Shaped(s) && IsWorker(s, w)
  {
    if s.ThLocalEpoch[w] == s.GlobalEpoch then 0
    else match s.workers[w] case Idle => 2 case Loaded(e) => if e == s.GlobalEpoch then 1 else 3
  }

  lemma WorkerStep(s: State, a: Actor, w: nat)
    requires Inv(s) && CanMove(s, a) && IsWorker(s, w) && Step(s, a).GlobalEpoch == s.GlobalEpoch
    ensures Inv(Step(s, a)) && IsWorker(Step(s, a), w)
    ensures Behind(s, w) == 0 ==> Behind(Step(s, a), w) == 0
    ensures Behind(Step(s, a), w) + (if a == Worker(w) then 1 else 0) <= Behind(s, w) || Behind(s, w) == 0
  {
    StepKeepsInv(s, a);
    assert LagOk(s, w);
  }

  lemma {:induction false} CatchesUp(states: seq<State>, schedule: seq<Actor>, i: nat, j: nat, w: nat)
    requires Run(states, schedule) && i <= j < |states| && IsWorker(states[0], w)
    requires states[j].GlobalEpoch == states[i].GlobalEpoch
    ensures Inv(states[j]) && IsWorker(states[j], w)
    ensures Behind(states[j], w) + Turns(schedule, i, j, Worker(w)) <= 3 || Behind(states[j], w) == 0
    decreases j
  {
    RunKeepsInv(states, schedule, j);
    if i < j {
      EpochRises(states, schedule, i, j - 1);
      EpochRises(states, schedule, j - 1, j);
      CatchesUp(states, schedule, i, j - 1, w);
      assert CanMove(states[j - 1], schedule[j - 1]);
      hide Inv, Behind, Step;
      WorkerStep(states[j - 1], schedule[j - 1], w);
    }
  }

  /**
   The epoch goes on under any interleaving: if every worker makes three moves, and after that the
   epoch thread THREAD_NUM + 3, with any moves of anybody in between, the global epoch has risen.
   */
  lemma EpochGoesOn(states: seq<State>, schedule: seq<Actor>, i: nat, m: nat, j: nat)
    requires Run(states, schedule) && i <= m <= j < |states| && |states[0].ThLocalEpoch| > 0
    requires forall w: nat :: IsWorker(states[0], w) ==> Turns(schedule, i, m, Worker(w)) >= 3
    requires Turns(schedule, m, j, Epocher) >= |states[0].ThLocalEpoch| + 3
    ensures states[j].GlobalEpoch > states[i].GlobalEpoch
  {
    EpochRises(states, schedule, i, m);
    EpochRises(states, schedule, m, j);
    RunKeepsInv(states, schedule, m);
    hide Inv, Step, Run, StepsLeft, Turns;
    if states[m].GlobalEpoch == states[i].GlobalEpoch {
      forall w: nat | IsWorker(states[m], w) ensures states[m].ThLocalEpoch[w] == states[m].GlobalEpoch {
        CatchesUp(states, schedule, i, m, w);
        assert Turns(schedule, i, m, Worker(w)) >= 3;
      }
      StaysPublished(states, schedule, m, j);
      StepIsLeft(states[j]);
    }
  }

  lemma StepIsLeft(s: State)
    ensures StepsLeft(s) > 0
  {
  }

  // ---- the calls on their own

  class Epochs {
    var GlobalEpoch: nat
    const ThLocalEpoch: array<nat>

    constructor (threadNum: nat)
      ensures ThLocalEpoch.Length == threadNum && GlobalEpoch == 0
      ensures forall i :: 0 <= i < threadNum ==> ThLocalEpoch[i] == 0
    {
      ThLocalEpoch := new nat[threadNum](_ => 0);
      GlobalEpoch := 0;
    }

    method LoadAcquireGE() returns (e: nat)
      ensures e == GlobalEpoch
    {
      e := GlobalEpoch;
    }

    // Between the load and the exchange, others may have added some.
    method CompareExchange(expected: nat, desired: nat) returns (done: bool, seen: nat)
      modifies this`GlobalEpoch
      ensures done <==> old(GlobalEpoch) == expected
      ensures GlobalEpoch == if done then desired else old(GlobalEpoch)
      ensures seen == old(GlobalEpoch)
    {
      seen := GlobalEpoch;
      done := GlobalEpoch == expected;
      if done { GlobalEpoch := desired; }
    }

    method AtomicAddGE()
      modifies this`GlobalEpoch
      ensures GlobalEpoch == old(GlobalEpoch) + 1
    {
      var expected := LoadAcquireGE();
      var done := false;
      while !done
        invariant if done then GlobalEpoch == old(GlobalEpoch) + 1 else GlobalEpoch == old(GlobalEpoch)
        invariant !done ==> expected == GlobalEpoch
        decreases !done
      {
        done, expected := CompareExchange(expected, expected + 1);
      }
    }

    // The shared variables as in a state of the protocol.
    ghost function Shared(): State
      reads this, ThLocalEpoch
    {
      State(GlobalEpoch, ThLocalEpoch[..], seq(ThLocalEpoch.Length, i => Idle), Waiting)
    }

    method ChkEpochLoaded() returns (loaded: bool)
      ensures loaded <==> AllPublished(Shared())
      ensures loaded <==> forall i :: 1 <= i < ThLocalEpoch.Length ==> ThLocalEpoch[i] == GlobalEpoch
    {
      var nowEpoch := LoadAcquireGE();
      var i := 1;
      while i < ThLocalEpoch.Length
        invariant 1 <= i && forall j :: 1 <= j < i && j < ThLocalEpoch.Length ==> ThLocalEpoch[j] == nowEpoch
      {
        if ThLocalEpoch[i] != nowEpoch {
          assert IsWorker(Shared(), i);
          return false;
        }
        i := i + 1;
      }
      return true;
    }
  }
}
