/** The bounded parallel block reads of a query: one coordinator, one goroutine per task, two channels. */
module ParallelReads {
  import opened Results
  import opened Format

  type Answer = Result<seq<Event>>

  /** A task's goroutine: not started, reading, result stored, semaphore released, completion sent. */
  datatype Phase = Waiting | Running | Stored | Released | Signalled

  /**
   * launched and acquired are the coordinator's place in the launch loop, sem and done the contents of the
   * two channels, received the completions taken; stores counts the writes to each result slot.
   */
  datatype State = State(launched: nat, acquired: bool, sem: nat, done: nat, received: nat,
                         phases: seq<Phase>, results: seq<Option<Answer>>, stores: seq<nat>)

  datatype Step = Acquire | Spawn | Store(task: nat) | Release(task: nat) | Signal(task: nat) | Receive

  predicate Enabled(n: nat, maxP: nat, st: State, step: Step) {
    match step
    case Acquire => st.launched < n && !st.acquired && st.sem < maxP
    case Spawn => st.launched < n && st.acquired && st.launched < |st.phases|
    case Store(i) => i < |st.phases| && i < |st.results| && i < |st.stores| && st.phases[i].Running?
    case Release(i) => i < |st.phases| && st.phases[i].Stored? && st.sem > 0
    case Signal(i) => i < |st.phases| && st.phases[i].Released? && st.done < n
    case Receive => st.launched == n && st.received < n && st.done > 0
  }

  function Next(n: nat, maxP: nat, read: nat -> Answer, st: State, step: Step): State
    requires Enabled(n, maxP, st, step)
  {
    match step
    case Acquire => st.(acquired := true, sem := st.sem + 1)
    case Spawn => st.(acquired := false, launched := st.launched + 1, phases := st.phases[st.launched := Running])
    case Store(i) =>
      st.(phases := st.phases[i := Stored], results := st.results[i := Some(read(i))],
          stores := st.stores[i := st.stores[i] + 1])
    case Release(i) => st.(phases := st.phases[i := Released], sem := st.sem - 1)
    case Signal(i) => st.(phases := st.phases[i := Signalled], done := st.done + 1)
    case Receive => st.(done := st.done - 1, received := st.received + 1)
  }

  function Start(n: nat): State {
    State(0, false, 0, 0, 0, seq(n, _ => Waiting), seq(n, _ => None), seq(n, _ => 0))
  }

  ghost predicate IsRun(n: nat, maxP: nat, read: nat -> Answer, states: seq<State>, steps: seq<Step>) {
    && |states| == |steps| + 1 && states[0] == Start(n)
    && (forall i :: 0 <= i < |steps| ==>
          Enabled(n, maxP, states[i], steps[i]) && states[i + 1] == Next(n, maxP, read, states[i], steps[i]))
  }

  /** The coordinator has received every completion and goes on to read the results. */
  predicate Finished(n: nat, st: State) {
    st.received == n
  }

  // ----- sums over the goroutines -----

  function Sum(f: Phase -> int, s: seq<Phase>): int {
    if s == [] then 0 else Sum(f, s[..|s| - 1]) + f(s[|s| - 1])
  }

  lemma {:induction false} SumUpdate(f: Phase -> int, s: seq<Phase>, i: nat, x: Phase)
    requires i < |s|
    ensures Sum(f, s[i := x]) == Sum(f, s) - f(s[i]) + f(x)
  {
    var n := |s| - 1;
    if i == n {
      assert s[i := x][..n] == s[..n];
    } else {
      SumUpdate(f, s[..n], i, x);
      assert s[i := x][..n] == s[..n][i := x];
    }
  }

  lemma {:induction false} SumBounds(f: Phase -> int, s: seq<Phase>, lo: int, hi: int)
    requires forall i :: 0 <= i < |s| ==> lo <= f(s[i]) <= hi
    ensures lo * |s| <= Sum(f, s) <= hi * |s|
  {
    if s != [] { SumBounds(f, s[..|s| - 1], lo, hi); }
  }

  /** Holding a slot of the semaphore. */
  function Holding(ph: Phase): int {
    if ph.Running? || ph.Stored? then 1 else 0
  }

  function Signals(ph: Phase): int {
    if ph.Signalled? then 1 else 0
  }

  /** The steps a goroutine still has before it, its launch apart. */
  function Work(ph: Phase): int {
    match ph
    case Waiting => 3
    case Running => 3
    case Stored => 2
    case Released => 1
    case Signalled => 0
  }

  predicate HasStored(ph: Phase) {
    ph.Stored? || ph.Released? || ph.Signalled?
  }

  ghost predicate SlotInv(read: nat -> Answer, st: State, i: nat)
    requires i < |st.phases| && |st.results| == |st.phases| == |st.stores|
  {
    && (st.phases[i].Waiting? <==> i >= st.launched)
    && st.results[i] == (if HasStored(st.phases[i]) then Some(read(i)) else None)
    && st.stores[i] == (if HasStored(st.phases[i]) then 1 else 0)
  }

  ghost predicate Inv(n: nat, maxP: nat, read: nat -> Answer, st: State) {
    && |st.phases| == n && |st.results| == n && |st.stores| == n
    && st.launched <= n && (st.acquired ==> st.launched < n)
    && st.sem == Sum(Holding, st.phases) + (if st.acquired then 1 else 0)
    && st.sem <= maxP
    && st.done + st.received == Sum(Signals, st.phases) && st.received <= n
    && (forall i: nat :: i < n ==> SlotInv(read, st, i))
  }

  /** The number of steps that can still follow. */
  function Measure(n: nat, st: State): int {
    2 * (n - st.launched) - (if st.acquired then 1 else 0) + Sum(Work, st.phases) + (n - st.received)
  }

  lemma StepKeeps(n: nat, maxP: nat, read: nat -> Answer, st: State, step: Step)
    requires Inv(n, maxP, read, st) && Enabled(n, maxP, st, step)
    ensures Inv(n, maxP, read, Next(n, maxP, read, st, step))
    ensures Measure(n, Next(n, maxP, read, st, step)) == Measure(n, st) - 1
  {
    hide Sum;
    var st' := Next(n, maxP, read, st, step);
    if step.Spawn? || step.Store? || step.Release? || step.Signal? {
      var i := if step.Spawn? then st.launched else step.task;
      assert SlotInv(read, st, i);
      var to := st'.phases[i];
      SumUpdate(Holding, st.phases, i, to);
      SumUpdate(Signals, st.phases, i, to);
      SumUpdate(Work, st.phases, i, to);
      forall j: nat | j < n ensures SlotInv(read, st', j) { assert SlotInv(read, st, j); }
    } else {
      forall j: nat | j < n ensures SlotInv(read, st', j) { assert SlotInv(read, st, j); }
    }
  }

  lemma StartInv(n: nat, maxP: nat, read: nat -> Answer)
    ensures Inv(n, maxP, read, Start(n)) && Measure(n, Start(n)) <= 6 * n
  {
    SumBounds(Holding, Start(n).phases, 0, 0);
    SumBounds(Signals, Start(n).phases, 0, 0);
    SumBounds(Work, Start(n).phases, 3, 3);
    forall i: nat | i < n ensures SlotInv(read, Start(n), i) {}
  }

  lemma {:induction false} Reachable(n: nat, maxP: nat, read: nat -> Answer, states: seq<State>, steps: seq<Step>,
                                     k: nat)
    requires IsRun(n, maxP, read, states, steps) && k <= |steps|
    ensures Inv(n, maxP, read, states[k]) && Measure(n, states[k]) <= 6 * n - k
  {
    if k == 0 {
      StartInv(n, maxP, read);
    } else {
      Reachable(n, maxP, read, states, steps, k - 1);
      StepKeeps(n, maxP, read, states[k - 1], steps[k - 1]);
    }
  }

  /** A state short of the end always has a step to take. */
  ghost predicate CanStep(n: nat, maxP: nat, st: State) {
    exists step :: Enabled(n, maxP, st, step)
  }

  lemma {:induction false} SumZero(f: Phase -> int, s: seq<Phase>)
    requires forall i :: 0 <= i < |s| ==> f(s[i]) == 0
    ensures Sum(f, s) == 0
  {
    if s != [] { SumZero(f, s[..|s| - 1]); }
  }

  lemma {:induction false} SumAll(f: Phase -> int, s: seq<Phase>)
    requires forall i :: 0 <= i < |s| ==> f(s[i]) == 1
    ensures Sum(f, s) == |s|
  {
    if s != [] { SumAll(f, s[..|s| - 1]); }
  }

  lemma SomeHolder(n: nat, maxP: nat, read: nat -> Answer, st: State) returns (i: nat)
    requires Inv(n, maxP, read, st) && Sum(Holding, st.phases) > 0
    ensures i < n && (st.phases[i].Running? || st.phases[i].Stored?)
  {
    if i: nat :| i < n && (st.phases[i].Running? || st.phases[i].Stored?) { return i; }
    SumZero(Holding, st.phases);
    assert false;
  }

  lemma NoDeadlock(n: nat, maxP: nat, read: nat -> Answer, st: State)
    requires Inv(n, maxP, read, st) && maxP > 0 && !Finished(n, st)
    ensures CanStep(n, maxP, st)
  {
    hide Sum;
    SumBounds(Signals, st.phases, 0, 1);
    if st.acquired {
      assert Enabled(n, maxP, st, Spawn);
    } else if st.launched < n && st.sem < maxP {
      assert Enabled(n, maxP, st, Acquire);
    } else if st.launched < n {
      var i := SomeHolder(n, maxP, read, st);
      if st.phases[i].Running? { assert Enabled(n, maxP, st, Store(i)); }
          else { assert Enabled(n, maxP, st, Release(i)); }
    } else if i: nat :| i < n && !st.phases[i].Signalled? {
      LaggardSteps(n, maxP, read, st, i);
    } else {
      SumAll(Signals, st.phases);
      assert Enabled(n, maxP, st, Receive);
    }
  }

  lemma LaggardSteps(n: nat, maxP: nat, read: nat -> Answer, st: State, i: nat)
    requires Inv(n, maxP, read, st) && st.launched == n && i < n && !st.phases[i].Signalled?
    ensures CanStep(n, maxP, st)
  {
    assert SlotInv(read, st, i);
    if st.phases[i].Running? {
      assert Enabled(n, maxP, st, Store(i));
    } else if st.phases[i].Stored? {
      HolderCounts(st.phases, i);
      assert Enabled(n, maxP, st, Release(i));
    } else {
      SignalsBelow(st.phases, i);
      assert Enabled(n, maxP, st, Signal(i));
    }
  }

  lemma HolderCounts(s: seq<Phase>, i: nat)
    requires i < |s| && s[i].Stored?
    ensures Sum(Holding, s) > 0
  {
    SumUpdate(Holding, s, i, Waiting);
    SumBounds(Holding, s[i := Waiting], 0, 1);
  }

  lemma SignalsBelow(s: seq<Phase>, i: nat)
    requires i < |s| && !s[i].Signalled?
    ensures Sum(Signals, s) < |s|
  {
    SumUpdate(Signals, s, i, Signalled);
    SumBounds(Signals, s[i := Signalled], 0, 1);
  }

  /**
   * In every schedule at most maxP reads are in flight, no schedule is longer than six steps per task, a
   * schedule that has not finished can go on, and when the coordinator reads the results every slot was
   * written exactly once, with its own task's answer: the outcome does not depend on the schedule.
   */
  lemma ParallelReadsCorrect(n: nat, maxP: nat, read: nat -> Answer, states: seq<State>, steps: seq<Step>, k: nat)
    requires IsRun(n, maxP, read, states, steps) && k <= |steps| && maxP > 0
    ensures Sum(Holding, states[k].phases) <= maxP
    ensures k <= 6 * n
    ensures !Finished(n, states[k]) ==> CanStep(n, maxP, states[k])
    ensures |states[k].results| == n && |states[k].stores| == n
    ensures Finished(n, states[k]) ==>
      forall i: nat :: i < n ==> states[k].results[i] == Some(read(i)) && states[k].stores[i] == 1
  {
    hide Sum;
    Reachable(n, maxP, read, states, steps, k);
    var st := states[k];
    SumBounds(Work, st.phases, 0, 3);
    if !Finished(n, st) {
      NoDeadlock(n, maxP, read, st);
    } else {
      AllSignalled(n, maxP, read, st);
      forall i: nat | i < n ensures st.results[i] == Some(read(i)) && st.stores[i] == 1 { assert SlotInv(read, st, i); }
    }
  }

  lemma AllSignalled(n: nat, maxP: nat, read: nat -> Answer, st: State)
    requires Inv(n, maxP, read, st) && Finished(n, st)
    ensures forall i: nat :: i < n ==> st.phases[i].Signalled?
  {
    forall i: nat | i < n ensures st.phases[i].Signalled? {
      if !st.phases[i].Signalled? { SignalsBelow(st.phases, i); }
    }
  }

  function AllSteps(n: nat): set<Step> {
    {Acquire, Spawn, Receive} + (set i: nat | i < n :: Store(i)) + (set i: nat | i < n :: Release(i)) +
        (set i: nat | i < n :: Signal(i))
  }

  /** Runs any schedule to its end: whatever step comes next, the results are the tasks' own answers. */
  method RunSchedule(n: nat, maxP: nat, read: nat -> Answer) returns (results: seq<Answer>)
    requires maxP > 0
    ensures |results| == n && forall i: nat :: i < n ==> results[i] == read(i)
  {
    hide Sum, Measure, Inv;
    var st := Start(n);
    StartInv(n, maxP, read);
    while st.received != n
      invariant Inv(n, maxP, read, st)
      decreases Measure(n, st) + n
    {
      Progress(n, maxP, read, st);
      var step :| step in AllSteps(n) && Enabled(n, maxP, st, step);
      StepKeeps(n, maxP, read, st, step);
      st := Next(n, maxP, read, st, step);
    }
    Done(n, maxP, read, st);
    results := [];
    for i := 0 to n
      invariant |results| == i && forall j: nat :: j < i ==> results[j] == read(j)
    {
      results := results + [st.results[i].value];
    }
  }

  lemma Progress(n: nat, maxP: nat, read: nat -> Answer, st: State)
    requires Inv(n, maxP, read, st) && maxP > 0 && !Finished(n, st)
    ensures (exists step :: step in AllSteps(n) && Enabled(n, maxP, st, step)) && Measure(n, st) >= 0
  {
    NoDeadlock(n, maxP, read, st);
    SumBounds(Work, st.phases, 0, 3);
    var step :| Enabled(n, maxP, st, step);
    assert step in AllSteps(n);
  }

  lemma Done(n: nat, maxP: nat, read: nat -> Answer, st: State)
    requires Inv(n, maxP, read, st) && Finished(n, st)
    ensures |st.results| == n && forall i: nat :: i < n ==> st.results[i] == Some(read(i))
  {
    AllSignalled(n, maxP, read, st);
    forall i: nat | i < n ensures st.results[i] == Some(read(i)) { assert SlotInv(read, st, i); }
  }
}
