/** The bounded worker pool as a state machine over its atomic steps: the spawning loop, a semaphore
    channel, a wait group and one goroutine per index, interleaved in any order. */
module WorkerPool {
  import opened Options

  /** A goroutine's life: created holding a semaphore slot, running the body, body returned,
      slot given back (first deferred call to run), counted down (second). */
  datatype Task = Unborn | Spawned | Running | Returned | Released | Done

  /** Where the spawning loop stands for the current index. */
  datatype Phase = Adding | Acquiring | Going | Waiting | Finished

  datatype Event = Start(i: nat) | End(i: nat)

  datatype Label = Add | Acquire | Go | Join | Enter(i: nat) | Leave(i: nat) | Release(i: nat) | CountDown(i: nat)

  datatype State<T> = State(next: nat, phase: Phase, sem: nat, wg: nat, tasks: seq<Task>,
                            slots: seq<Option<T>>, log: seq<Event>)

  function Workers(workers: int): nat {
    if workers < 1 then 1 else workers
  }

  function Init<T>(n: nat): State<T> {
    State(0, if n == 0 then Waiting else Adding, 0, 0, seq(n, _ => Unborn), seq(n, _ => None), [])
  }

  function TaskAt<T>(s: State<T>, i: nat): Task {
    if i < |s.tasks| then s.tasks[i] else Unborn
  }

  predicate Enabled<T>(s: State<T>, l: Label, w: nat) {
    match l
    case Add => s.phase == Adding
    case Acquire => s.phase == Acquiring && s.sem < w
    case Go => s.phase == Going
    case Join => s.phase == Waiting && s.wg == 0
    case Enter(i) => TaskAt(s, i) == Spawned
    case Leave(i) => TaskAt(s, i) == Running
    case Release(i) => TaskAt(s, i) == Returned && s.sem > 0
    case CountDown(i) => TaskAt(s, i) == Released && s.wg > 0
  }

  /** One atomic step; the body of index `i` writes `f(i)` into its own slot as it returns. */
  function Step<T>(s: State<T>, l: Label, w: nat, f: nat -> T): State<T>
    requires Enabled(s, l, w) && s.next <= |s.tasks| == |s.slots|
    requires s.phase == Going ==> s.next < |s.tasks|
  {
    match l
    case Add => s.(phase := Acquiring, wg := s.wg + 1)
    case Acquire => s.(phase := Going, sem := s.sem + 1)
    case Go => s.(tasks := s.tasks[s.next := Spawned], next := s.next + 1,
                  phase := if s.next + 1 == |s.tasks| then Waiting else Adding)
    case Join => s.(phase := Finished)
    case Enter(i) => s.(tasks := s.tasks[i := Running], log := s.log + [Start(i)])
    case Leave(i) => s.(tasks := s.tasks[i := Returned], slots := s.slots[i := Some(f(i))], log := s.log + [End(i)])
    case Release(i) => s.(tasks := s.tasks[i := Released], sem := s.sem - 1)
    case CountDown(i) => s.(tasks := s.tasks[i := Done], wg := s.wg - 1)
  }

  // ---------------------------------------------------------------- counting tasks

  predicate HoldsSlot(t: Task) {
    t == Spawned || t == Running || t == Returned
  }

  predicate Counted(t: Task) {
    HoldsSlot(t) || t == Released
  }

  function CountIf(ts: seq<Task>, p: Task -> bool): nat {
    if ts == [] then 0 else CountIf(ts[..|ts| - 1], p) + if p(ts[|ts| - 1]) then 1 else 0
  }

  lemma {:induction false} CountUpdate(ts: seq<Task>, p: Task -> bool, i: nat, t: Task)
    requires i < |ts|
    ensures CountIf(ts[i := t], p) == CountIf(ts, p) + (if p(t) then 1 else 0) - (if p(ts[i]) then 1 else 0)
  {
    var n := |ts| - 1;
    if i < n {
      assert ts[i := t][..n] == ts[..n][i := t];
      CountUpdate(ts[..n], p, i, t);
    } else {
      assert ts[i := t][..n] == ts[..n];
    }
  }

  lemma {:induction false} CountMonotone(ts: seq<Task>, p: Task -> bool, q: Task -> bool)
    requires forall t :: p(t) ==> q(t)
    ensures CountIf(ts, p) <= CountIf(ts, q)
  {
    if ts != [] {
      CountMonotone(ts[..|ts| - 1], p, q);
    }
  }

  lemma {:induction false} CountZero(ts: seq<Task>, p: Task -> bool)
    ensures CountIf(ts, p) == 0 <==> forall i :: 0 <= i < |ts| ==> !p(ts[i])
  {
    if ts != [] {
      var n := |ts| - 1;
      CountZero(ts[..n], p);
      assert forall i :: 0 <= i < n ==> ts[..n][i] == ts[i];
    }
  }

  // ---------------------------------------------------------------- the invariant

  predicate BodyDone(t: Task) {
    t == Returned || t == Released || t == Done
  }

  predicate BodyStarted(t: Task) {
    t == Running || BodyDone(t)
  }

  function Times(log: seq<Event>, e: Event): nat {
    multiset(log)[e]
  }

  /** The loop has created exactly the goroutines below `next`. */
  ghost predicate Spawning<T>(s: State<T>, n: nat) {
    && |s.tasks| == |s.slots| == n && s.next <= n
    && (s.phase in {Adding, Acquiring, Going} <==> s.next < n)
    && (forall i :: 0 <= i < n ==> (s.tasks[i] == Unborn <==> s.next <= i))
  }

  /** The semaphore and the wait group count exactly the goroutines that hold them. */
  ghost predicate Counters<T>(s: State<T>, w: nat) {
    && s.sem == CountIf(s.tasks, HoldsSlot) + (if s.phase == Going then 1 else 0) && s.sem <= w
    && s.wg == CountIf(s.tasks, Counted) + (if s.phase == Acquiring || s.phase == Going then 1 else 0)
    && (s.phase == Finished ==> s.wg == 0)
  }

  ghost predicate SlotsWritten<T>(s: State<T>, f: nat -> T) {
    |s.slots| == |s.tasks| &&
    forall i :: 0 <= i < |s.tasks| ==> s.slots[i] == if BodyDone(s.tasks[i]) then Some(f(i)) else None
  }

  /** Each body is entered and left at most once, and exactly when its goroutine says so. */
  ghost predicate Logged<T>(s: State<T>) {
    forall i: nat ::
      && Times(s.log, Start(i)) == (if BodyStarted(TaskAt(s, i)) then 1 else 0)
      && Times(s.log, End(i)) == (if BodyDone(TaskAt(s, i)) then 1 else 0)
  }

  /** What holds after any number of steps, in any order. */
  ghost predicate Inv<T>(s: State<T>, n: nat, w: nat, f: nat -> T) {
    Spawning(s, n) && Counters(s, w) && SlotsWritten(s, f) && Logged(s)
  }

  lemma InvInit<T>(n: nat, w: nat, f: nat -> T)
    ensures Inv(Init<T>(n), n, w, f)
  {
    CountZero(Init<T>(n).tasks, HoldsSlot);
    CountZero(Init<T>(n).tasks, Counted);
  }

  lemma CountersStep<T>(s: State<T>, l: Label, n: nat, w: nat, f: nat -> T)
    requires Spawning(s, n) && Counters(s, w) && Enabled(s, l, w)
    ensures Counters(Step(s, l, w, f), w)
  {
    hide CountIf;
    match l
    case Add =>
    case Acquire =>
    case Go =>
      CountUpdate(s.tasks, HoldsSlot, s.next, Spawned);
      CountUpdate(s.tasks, Counted, s.next, Spawned);
    case Join =>
    case Enter(i) =>
      CountUpdate(s.tasks, HoldsSlot, i, Running);
      CountUpdate(s.tasks, Counted, i, Running);
    case Leave(i) =>
      CountUpdate(s.tasks, HoldsSlot, i, Returned);
      CountUpdate(s.tasks, Counted, i, Returned);
    case Release(i) =>
      CountUpdate(s.tasks, HoldsSlot, i, Released);
      CountUpdate(s.tasks, Counted, i, Released);
    case CountDown(i) =>
      CountUpdate(s.tasks, HoldsSlot, i, Done);
      CountUpdate(s.tasks, Counted, i, Done);
  }

  lemma LoggedStep<T>(s: State<T>, l: Label, n: nat, w: nat, f: nat -> T)
    requires Spawning(s, n) && Logged(s) && Enabled(s, l, w)
    ensures Logged(Step(s, l, w, f))
  {
    var s' := Step(s, l, w, f);
    forall i: nat
      ensures Times(s'.log, Start(i)) == if BodyStarted(TaskAt(s', i)) then 1 else 0
      ensures Times(s'.log, End(i)) == if BodyDone(TaskAt(s', i)) then 1 else 0
    {
      assert Times(s.log, Start(i)) == if BodyStarted(TaskAt(s, i)) then 1 else 0;
    }
  }

  lemma InvStep<T>(s: State<T>, l: Label, n: nat, w: nat, f: nat -> T)
    requires Inv(s, n, w, f) && Enabled(s, l, w)
    ensures Inv(Step(s, l, w, f), n, w, f)
  {
    hide Counters, Logged;
    CountersStep(s, l, n, w, f);
    LoggedStep(s, l, n, w, f);
  }

  // ---------------------------------------------------------------- runs

  /** The state after taking the given steps in order; a step that is not enabled ends the run. */
  ghost predicate RunsTo<T>(s: State<T>, ls: seq<Label>, s': State<T>, n: nat, w: nat, f: nat -> T)
    requires Inv(s, n, w, f)
    decreases |ls|
  {
    if ls == [] then s == s'
    else Enabled(s, ls[0], w) && (InvStep(s, ls[0], n, w, f); RunsTo(Step(s, ls[0], w, f), ls[1..], s', n, w, f))
  }

  lemma {:induction false} InvRun<T>(s: State<T>, ls: seq<Label>, s': State<T>, n: nat, w: nat, f: nat -> T)
    requires Inv(s, n, w, f) && RunsTo(s, ls, s', n, w, f)
    ensures Inv(s', n, w, f)
    decreases |ls|
  {
    hide Counters, SlotsWritten, Logged;
    if ls != [] {
      InvStep(s, ls[0], n, w, f);
      InvRun(Step(s, ls[0], w, f), ls[1..], s', n, w, f);
    }
  }

  /** Any state a pool of `n` bodies can be in. */
  ghost predicate Reachable<T>(s: State<T>, ls: seq<Label>, n: nat, w: nat, f: nat -> T) {
    InvInit<T>(n, w, f);
    RunsTo(Init<T>(n), ls, s, n, w, f)
  }

  predicate IsRunning(t: Task) {
    t == Running
  }

  /** At most max(1, workers) bodies are ever in flight, under any schedule. */
  lemma InFlightBound<T>(s: State<T>, ls: seq<Label>, n: nat, workers: int, f: nat -> T)
    requires Reachable(s, ls, n, Workers(workers), f)
    ensures CountIf(s.tasks, IsRunning) <= Workers(workers)
  {
    InvInit<T>(n, Workers(workers), f);
    InvRun(Init<T>(n), ls, s, n, Workers(workers), f);
    CountMonotone(s.tasks, IsRunning, HoldsSlot);
  }

  /** No schedule can get stuck: until the call returns, some step is enabled. */
  lemma NeverStuck<T>(s: State<T>, ls: seq<Label>, n: nat, workers: int, f: nat -> T) returns (l: Label)
    requires Reachable(s, ls, n, Workers(workers), f) && s.phase != Finished
    ensures Enabled(s, l, Workers(workers))
  {
    InvInit<T>(n, Workers(workers), f);
    InvRun(Init<T>(n), ls, s, n, Workers(workers), f);
    l := EnabledStep(s, n, Workers(workers), f);
  }

  lemma EnabledStep<T>(s: State<T>, n: nat, w: nat, f: nat -> T) returns (l: Label)
    requires Inv(s, n, w, f) && s.phase != Finished && w > 0
    ensures Enabled(s, l, w)
  {
    CountZero(s.tasks, HoldsSlot);
    CountZero(s.tasks, Counted);
    match s.phase
    case Adding => l := Add;
    case Going => l := Go;
    case Acquiring =>
      if s.sem < w {
        l := Acquire;
      } else {
        var i :| 0 <= i < n && HoldsSlot(s.tasks[i]);
        l := if s.tasks[i] == Spawned then Enter(i) else if s.tasks[i] == Running then Leave(i) else Release(i);
      }
    case Waiting =>
      if s.wg == 0 {
        l := Join;
      } else {
        var i :| 0 <= i < n && Counted(s.tasks[i]);
        l := if s.tasks[i] == Spawned then Enter(i) else if s.tasks[i] == Running then Leave(i)
             else if s.tasks[i] == Returned then Release(i) else CountDown(i);
      }
  }

  /** When the call returns every body has run exactly once and every slot holds its own result,
      whatever the schedule was. */
  lemma ReturnsSequentialResult<T>(s: State<T>, ls: seq<Label>, n: nat, workers: int, f: nat -> T)
    requires Reachable(s, ls, n, Workers(workers), f) && s.phase == Finished
    ensures s.slots == seq(n, i requires 0 <= i => Some(f(i)))
    ensures forall i: nat :: Times(s.log, Start(i)) == Times(s.log, End(i)) == if i < n then 1 else 0
  {
    InvInit<T>(n, Workers(workers), f);
    InvRun(Init<T>(n), ls, s, n, Workers(workers), f);
    FinishedSlots(s, n, Workers(workers), f);
  }

  lemma FinishedSlots<T>(s: State<T>, n: nat, w: nat, f: nat -> T)
    requires Inv(s, n, w, f) && s.phase == Finished
    ensures forall i :: 0 <= i < n ==> s.tasks[i] == Done
    ensures s.slots == seq(n, i requires 0 <= i => Some(f(i)))
  {
    CountZero(s.tasks, Counted);
    forall i | 0 <= i < n ensures s.tasks[i] == Done {
      assert !Counted(s.tasks[i]);
    }
  }

  // ---------------------------------------------------------------- termination

  function Rank(t: Task): nat {
    match t
    case Unborn => 4
    case Spawned => 4
    case Running => 3
    case Returned => 2
    case Released => 1
    case Done => 0
  }

  function RankSum(ts: seq<Task>): nat {
    if ts == [] then 0 else RankSum(ts[..|ts| - 1]) + Rank(ts[|ts| - 1])
  }

  /** Steps left: three per index still to spawn, four per goroutine, one to join. */
  function StepsLeft<T>(s: State<T>): int {
    3 * (|s.tasks| - s.next) - (match s.phase case Acquiring => 1 case Going => 2 case _ => 0)
    + RankSum(s.tasks) + if s.phase == Finished then 0 else 1
  }

  lemma {:induction false} RankUpdate(ts: seq<Task>, i: nat, t: Task)
    requires i < |ts|
    ensures RankSum(ts[i := t]) == RankSum(ts) + Rank(t) - Rank(ts[i])
  {
    var n := |ts| - 1;
    if i < n {
      assert ts[i := t][..n] == ts[..n][i := t];
      RankUpdate(ts[..n], i, t);
    } else {
      assert ts[i := t][..n] == ts[..n];
    }
  }

  lemma {:induction false} RankFresh(n: nat)
    ensures RankSum(seq(n, _ => Unborn)) == 4 * n
  {
    if n > 0 {
      assert seq(n, _ => Unborn)[..n - 1] == seq(n - 1, _ => Unborn);
      RankFresh(n - 1);
    }
  }

  /** Every step, whichever is chosen, uses up exactly one. */
  lemma StepUsesOne<T>(s: State<T>, l: Label, n: nat, w: nat, f: nat -> T)
    requires Inv(s, n, w, f) && Enabled(s, l, w)
    ensures StepsLeft(Step(s, l, w, f)) == StepsLeft(s) - 1 && StepsLeft(s) >= 1
  {
    hide RankSum;
    match l
    case Add =>
    case Acquire =>
    case Join =>
    case Go => RankUpdate(s.tasks, s.next, Spawned);
    case Enter(i) => RankUpdate(s.tasks, i, Running);
    case Leave(i) => RankUpdate(s.tasks, i, Returned);
    case Release(i) => RankUpdate(s.tasks, i, Released);
    case CountDown(i) => RankUpdate(s.tasks, i, Done);
  }

  /** No schedule runs for ever, and every schedule that returns took exactly 7n + 1 steps. */
  lemma {:induction false} RunLength<T>(s: State<T>, ls: seq<Label>, s': State<T>, n: nat, w: nat, f: nat -> T)
    requires Inv(s, n, w, f) && RunsTo(s, ls, s', n, w, f)
    ensures StepsLeft(s') == StepsLeft(s) - |ls| && StepsLeft(s') >= 0
    ensures s'.phase == Finished ==> StepsLeft(s') == 0
    decreases |ls|
  {
    if ls == [] {
      if s.phase == Finished {
        CountZero(s.tasks, Counted);
        AllDone(s.tasks);
      }
    } else {
      StepUsesOne(s, ls[0], n, w, f);
      InvStep(s, ls[0], n, w, f);
      RunLength(Step(s, ls[0], w, f), ls[1..], s', n, w, f);
    }
  }

  lemma {:induction false} AllDone(ts: seq<Task>)
    requires forall i :: 0 <= i < |ts| ==> ts[i] == Done
    ensures RankSum(ts) == 0
  {
    if ts != [] {
      AllDone(ts[..|ts| - 1]);
    }
  }

  lemma EveryScheduleReturns<T>(s: State<T>, ls: seq<Label>, n: nat, workers: int, f: nat -> T)
    requires Reachable(s, ls, n, Workers(workers), f)
    ensures |ls| <= 7 * n + 1
    ensures s.phase == Finished <==> |ls| == 7 * n + 1
  {
    InvInit<T>(n, Workers(workers), f);
    RankFresh(n);
    RunLength(Init<T>(n), ls, s, n, Workers(workers), f);
    InvRun(Init<T>(n), ls, s, n, Workers(workers), f);
    if s.phase != Finished {
      var l := EnabledStep(s, n, Workers(workers), f);
      StepUsesOne(s, l, n, Workers(workers), f);
    }
  }

  // ---------------------------------------------------------------- one worker

  /** What a plain loop over the indices would log. */
  function SequentialLog(n: nat): seq<Event> {
    if n == 0 then [] else SequentialLog(n - 1) + [Start(n - 1), End(n - 1)]
  }

  /** With one slot, only the newest goroutine can still be unfinished, so the log is the loop's own. */
  ghost predicate OneAtATime<T>(s: State<T>) {
    && s.next <= |s.tasks|
    && (forall i :: 0 <= i < s.next - 1 ==> BodyDone(s.tasks[i]))
    && (s.phase == Going && s.next > 0 ==> BodyDone(s.tasks[s.next - 1]))
    && s.log == if s.next == 0 then []
                else SequentialLog(s.next - 1) +
                     if s.tasks[s.next - 1] == Spawned then []
                     else if s.tasks[s.next - 1] == Running then [Start(s.next - 1)]
                     else [Start(s.next - 1), End(s.next - 1)]
  }

  lemma OneAtATimeStep<T>(s: State<T>, l: Label, n: nat, f: nat -> T)
    requires Inv(s, n, 1, f) && Enabled(s, l, 1) && OneAtATime(s)
    ensures OneAtATime(Step(s, l, 1, f))
  {
    hide CountIf, Logged;
    if l == Acquire && s.next > 0 {
      CountZero(s.tasks, HoldsSlot);
      assert !HoldsSlot(s.tasks[s.next - 1]);
    }
  }

  lemma {:induction false} OneAtATimeRun<T>(s: State<T>, ls: seq<Label>, s': State<T>, n: nat, f: nat -> T)
    requires Inv(s, n, 1, f) && RunsTo(s, ls, s', n, 1, f) && OneAtATime(s)
    ensures OneAtATime(s')
    decreases |ls|
  {
    hide Counters, SlotsWritten, Logged, OneAtATime;
    if ls != [] {
      InvStep(s, ls[0], n, 1, f);
      OneAtATimeStep(s, ls[0], n, f);
      OneAtATimeRun(Step(s, ls[0], 1, f), ls[1..], s', n, f);
    }
  }

  /** With one worker the bodies run strictly in index order, none starting before the last one ended. */
  lemma OneWorkerIsSequential<T>(s: State<T>, ls: seq<Label>, n: nat, workers: int, f: nat -> T)
    requires workers <= 1 && Reachable(s, ls, n, Workers(workers), f)
    ensures s.log <= SequentialLog(n)
    ensures s.phase == Finished ==> s.log == SequentialLog(n)
  {
    InvInit<T>(n, 1, f);
    OneAtATimeRun(Init<T>(n), ls, s, n, f);
    InvRun(Init<T>(n), ls, s, n, 1, f);
    SequentialSoFar(s, n, f);
  }

  lemma SequentialSoFar<T>(s: State<T>, n: nat, f: nat -> T)
    requires Inv(s, n, 1, f) && OneAtATime(s)
    ensures s.log <= SequentialLog(n)
    ensures s.phase == Finished ==> s.log == SequentialLog(n)
  {
    hide Logged, SlotsWritten, CountIf;
    if s.next > 0 {
      SequentialPrefix(s.next, n);
      assert s.log <= SequentialLog(s.next);
      if s.phase == Finished {
        CountZero(s.tasks, Counted);
        assert !Counted(s.tasks[s.next - 1]);
      }
    }
  }

  lemma {:induction false} SequentialPrefix(m: nat, n: nat)
    requires m <= n
    ensures SequentialLog(m) <= SequentialLog(n)
  {
    if m < n {
      SequentialPrefix(m, n - 1);
    }
  }

  // ---------------------------------------------------------------- the call

  /** Runs the pool under a scheduler that may pick any enabled step at every moment. */
  method RunIndexed<T(!new)>(n: nat, workers: int, f: nat -> T, schedule: State<T> -> Label) returns (slots: seq<Option<T>>)
    requires forall s: State<T> :: Inv(s, n, Workers(workers), f) && s.phase != Finished ==>
               Enabled(s, schedule(s), Workers(workers))
    ensures slots == seq(n, i requires 0 <= i => Some(f(i)))
  {
    hide Counters, SlotsWritten, Logged;
    var s, w := Init<T>(n), Workers(workers);
    InvInit<T>(n, w, f);
    while s.phase != Finished
      invariant Inv(s, n, w, f)
      decreases StepsLeft(s)
    {
      var l := schedule(s);
      StepUsesOne(s, l, n, w, f);
      InvStep(s, l, n, w, f);
      s := Step(s, l, w, f);
    }
    FinishedSlots(s, n, w, f);
    slots := s.slots;
  }

  // ---------------------------------------------------------------- rendering the database units

  datatype Rendered<V, E> = Good(value: V) | Bad(error: E)

  /** Rendering the units one by one and stopping at the first failure. */
  function RenderInOrder<V, E>(n: nat, render: nat -> Rendered<V, E>): Rendered<seq<V>, E> {
    if n == 0 then Good([])
    else
      match RenderInOrder(n - 1, render)
      case Bad(e) => Bad(e)
      case Good(vs) => match render(n - 1) case Bad(e) => Bad(e) case Good(v) => Good(vs + [v])
  }

  /** The parallel render reports the value, or the error, of the one-by-one render under every schedule. */
  method RenderDBUnits<V(!new), E(!new)>(n: nat, workers: int, render: nat -> Rendered<V, E>,
                             schedule: State<Rendered<V, E>> -> Label) returns (r: Rendered<seq<V>, E>)
    requires forall s: State<Rendered<V, E>> :: Inv(s, n, Workers(workers), render) && s.phase != Finished ==>
               Enabled(s, schedule(s), Workers(workers))
    ensures r == RenderInOrder(n, render)
  {
    var slots := RunIndexed(n, workers, render, schedule);
    r := Good([]);
    for i := 0 to n
      invariant r == RenderInOrder(i, render) && r.Good?
    {
      assert slots[i] == Some(render(i));
      match slots[i].value
      case Bad(e) =>
        assert RenderInOrder(i + 1, render) == Bad(e);
        BadStays(i + 1, n, render);
        return Bad(e);
      case Good(v) => r := Good(r.value + [v]);
    }
  }

  lemma {:induction false} BadStays<V, E>(m: nat, n: nat, render: nat -> Rendered<V, E>)
    requires m <= n && RenderInOrder(m, render).Bad?
    ensures RenderInOrder(n, render) == RenderInOrder(m, render)
  {
    if m < n {
      BadStays(m, n - 1, render);
    }
  }
}
