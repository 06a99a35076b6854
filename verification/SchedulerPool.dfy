/**
  An executor's worker pool: posters, workers and one `Stop`, interleaved at the mutex and at
  the two atomic flags. `running` and `drain` are written outside the mutex, so a post can be
  accepted after `running` has gone down; the proofs show why that is harmless.
  */
module SchedulerPool {

  type Task = int

  datatype Poster =
    | Outside
    | WantsLock(task: Task)
    | Locked(task: Task)
    | Checked(task: Task)

  /** `InLock` is before the wait predicate is evaluated, `Deciding` after it came out true. */
  datatype Worker = Parked | InLock | Deciding | Busy(task: Task) | Exited

  datatype Stopper = NotStopping | FlagDown(drain: bool) | WantsSwap | Joining

  datatype Holder = Nobody | HeldByPoster(p: nat) | HeldByWorker(w: nat)

  datatype State = State(
    running: bool,
    drain: bool,
    mutex: Holder,
    tasks: seq<Task>,
    posters: seq<Poster>,
    workers: seq<Worker>,
    stopper: Stopper,
    accepted: seq<Task>,
    started: seq<Task>,
    discarded: seq<Task>)

  datatype Step =
    | PostBegin(p: nat, task: Task)
    | PostLock(p: nat)
    | PostCheck(p: nat)
    | PostPush(p: nat)
    | PostFull(p: nat)
    | WorkerLock(w: nat)
    | WorkerWait(w: nat)
    | WorkerDecide(w: nat)
    | WorkerDone(w: nat)
    | StopBegin(drainRequested: bool)
    | StopDrain
    | StopSwap

  /** A started executor; a worker count of zero is raised to one. */
  function Init(posters: nat, workers: nat): State {
    State(true, true, Nobody, [],
          seq(posters, _ => Outside), seq(if workers == 0 then 1 else workers, _ => Parked),
          NotStopping, [], [], [])
  }

  predicate Enabled(st: State, step: Step) {
    match step
    case PostBegin(p, task) => p < |st.posters| && st.posters[p].Outside? && st.running
    case PostLock(p) => p < |st.posters| && st.posters[p].WantsLock? && st.mutex == Nobody
    case PostCheck(p) => p < |st.posters| && st.posters[p].Locked?
    case PostPush(p) => p < |st.posters| && st.posters[p].Checked?
    case PostFull(p) => p < |st.posters| && st.posters[p].Checked? && st.tasks != []
    case WorkerLock(w) => w < |st.workers| && st.workers[w].Parked? && st.mutex == Nobody
    case WorkerWait(w) => w < |st.workers| && st.workers[w].InLock?
    case WorkerDecide(w) => w < |st.workers| && st.workers[w].Deciding?
    case WorkerDone(w) => w < |st.workers| && st.workers[w].Busy?
    case StopBegin(d) => st.stopper.NotStopping? && st.running
    case StopDrain => st.stopper.FlagDown?
    case StopSwap => st.stopper.WantsSwap? && st.mutex == Nobody
  }

  function Post(st: State, p: nat, poster: Poster, mutex: Holder): State
    requires p < |st.posters|
  {
    st.(posters := st.posters[p := poster], mutex := mutex)
  }

  function Work(st: State, w: nat, worker: Worker, mutex: Holder): State
    requires w < |st.workers|
  {
    st.(workers := st.workers[w := worker], mutex := mutex)
  }

  function Apply(st: State, step: Step): State
    requires Enabled(st, step)
  {
    match step
    case PostBegin(p, task) => Post(st, p, WantsLock(task), st.mutex)
    case PostLock(p) => Post(st, p, Locked(st.posters[p].task), HeldByPoster(p))
    case PostCheck(p) =>
      if st.running then Post(st, p, Checked(st.posters[p].task), st.mutex) else Post(st, p, Outside, Nobody)
    case PostPush(p) =>
      var task := st.posters[p].task;
      Post(st, p, Outside, Nobody).(tasks := st.tasks + [task], accepted := st.accepted + [task])
    case PostFull(p) => Post(st, p, Outside, Nobody)
    case WorkerLock(w) => Work(st, w, InLock, HeldByWorker(w))
    case WorkerWait(w) =>
      if !st.running || st.tasks != [] then Work(st, w, Deciding, st.mutex) else Work(st, w, Parked, Nobody)
    case WorkerDecide(w) =>
      if !st.running && (!st.drain || st.tasks == []) then Work(st, w, Exited, Nobody)
      else if st.tasks == [] then Work(st, w, Parked, Nobody)
      else Work(st, w, Busy(st.tasks[0]), Nobody).(tasks := st.tasks[1..], started := st.started + [st.tasks[0]])
    case WorkerDone(w) => Work(st, w, Parked, st.mutex)
    case StopBegin(d) => st.(running := false, stopper := FlagDown(d))
    case StopDrain => st.(drain := st.stopper.drain, stopper := if st.stopper.drain then Joining else WantsSwap)
    case StopSwap => st.(discarded := st.tasks, tasks := [], stopper := Joining)
  }

  ghost predicate IsRun(posters: nat, workers: nat, run: seq<State>, steps: seq<Step>) {
    && |run| == |steps| + 1
    && run[0] == Init(posters, workers)
    && (forall i {:trigger steps[i]} :: 0 <= i < |steps| ==>
          Enabled(run[i], steps[i]) && run[i + 1] == Apply(run[i], steps[i]))
  }

  // ---------------------------------------------------------------------------

  ghost predicate MutexOwned(st: State) {
    && (forall p :: 0 <= p < |st.posters| ==>
          (st.posters[p].Locked? || st.posters[p].Checked? <==> st.mutex == HeldByPoster(p)))
    && (forall w :: 0 <= w < |st.workers| ==>
          (st.workers[w].InLock? || st.workers[w].Deciding? <==> st.mutex == HeldByWorker(w)))
  }

  ghost predicate SomeExited(st: State) {
    exists w :: 0 <= w < |st.workers| && st.workers[w].Exited?
  }

  /** Once a worker has gone, no post can pass its check any more. */
  ghost predicate NoLateChecks(st: State) {
    SomeExited(st) ==> !st.running && forall p :: 0 <= p < |st.posters| ==> !st.posters[p].Checked?
  }

  ghost predicate StopOrder(st: State) {
    && (st.running <==> st.stopper.NotStopping?)
    && (!st.drain ==> st.stopper.WantsSwap? || st.stopper.Joining?)
    && (st.drain ==> !st.stopper.WantsSwap?)
    && (SomeExited(st) && st.drain ==> st.tasks == [])
  }

  /** Accepted tasks are the started ones, then the discarded ones, then the queued ones, in order. */
  ghost predicate Accounted(st: State) {
    && st.accepted == st.started + st.discarded + st.tasks
    && (st.discarded != [] ==> !st.drain)
    && (!st.drain && st.stopper.Joining? ==>
          st.tasks == [] && forall p :: 0 <= p < |st.posters| ==> !st.posters[p].Checked?)
    && (st.stopper.WantsSwap? ==> st.discarded == [])
    && (st.drain ==> st.discarded == [])
  }

  ghost predicate Inv(st: State) {
    |st.workers| > 0 && MutexOwned(st) && NoLateChecks(st) && StopOrder(st) && Accounted(st)
  }

  lemma StepKeepsMutex(st: State, step: Step)
    requires MutexOwned(st) && Enabled(st, step)
    ensures MutexOwned(Apply(st, step))
  {
  }

  lemma StepKeepsChecks(st: State, step: Step)
    requires MutexOwned(st) && NoLateChecks(st) && Enabled(st, step)
    ensures NoLateChecks(Apply(st, step))
    ensures SomeExited(st) ==> SomeExited(Apply(st, step))
  {
    var st' := Apply(st, step);
    if SomeExited(st) {
      var w :| 0 <= w < |st.workers| && st.workers[w].Exited?;
      assert st'.workers[w].Exited?;
    }
  }

  lemma StepKeepsStop(st: State, step: Step)
    requires MutexOwned(st) && NoLateChecks(st) && StopOrder(st) && Enabled(st, step)
    ensures StopOrder(Apply(st, step))
  {
    var st' := Apply(st, step);
    if SomeExited(st') && !SomeExited(st) {
      assert step.WorkerDecide?;
    }
  }

  lemma DecideKeepsAccount(st: State, w: nat)
    requires MutexOwned(st) && StopOrder(st) && Accounted(st) && Enabled(st, WorkerDecide(w))
    ensures Accounted(Apply(st, WorkerDecide(w)))
  {
    if Apply(st, WorkerDecide(w)).started != st.started {
      assert st.tasks == [st.tasks[0]] + st.tasks[1..];
    }
  }

  lemma StopKeepsAccount(st: State, step: Step)
    requires MutexOwned(st) && StopOrder(st) && Accounted(st) && Enabled(st, step)
    requires step.StopBegin? || step.StopDrain? || step.StopSwap?
    ensures Accounted(Apply(st, step))
  {
  }

  lemma StepKeepsAccount(st: State, step: Step)
    requires MutexOwned(st) && StopOrder(st) && Accounted(st) && Enabled(st, step)
    ensures Accounted(Apply(st, step))
  {
    if step.WorkerDecide? {
      DecideKeepsAccount(st, step.w);
    } else if step.StopBegin? || step.StopDrain? || step.StopSwap? {
      StopKeepsAccount(st, step);
    }
  }

  lemma StepKeepsInv(st: State, step: Step)
    requires Inv(st) && Enabled(st, step)
    ensures Inv(Apply(st, step))
  {
    StepKeepsMutex(st, step);
    StepKeepsChecks(st, step);
    StepKeepsStop(st, step);
    StepKeepsAccount(st, step);
  }

  lemma {:induction false} RunKeepsInv(posters: nat, workers: nat, run: seq<State>, steps: seq<Step>, k: nat)
    requires IsRun(posters, workers, run, steps) && k < |run|
    ensures Inv(run[k])
  {
    if k > 0 {
      RunKeepsInv(posters, workers, run, steps, k - 1);
      StepKeepsInv(run[k - 1], steps[k - 1]);
    }
  }

  predicate AllExited(st: State) {
    forall w :: 0 <= w < |st.workers| ==> st.workers[w].Exited?
  }

  /**
    When every worker has gone: a draining stop has started every accepted task exactly once,
    in queue order, and left nothing queued.
    */
  lemma DrainingStopStartsEverything(posters: nat, workers: nat, run: seq<State>, steps: seq<Step>, k: nat)
    requires IsRun(posters, workers, run, steps) && k < |run| && AllExited(run[k]) && run[k].drain
    ensures run[k].tasks == [] && run[k].started == run[k].accepted
  {
    RunKeepsInv(posters, workers, run, steps, k);
    assert run[k].workers[0].Exited?;
  }

  /** A stop that does not drain discards exactly the tail of the accepted tasks that was not started. */
  lemma DiscardingStopLosesOnlyTheTail(posters: nat, workers: nat, run: seq<State>, steps: seq<Step>, k: nat)
    requires IsRun(posters, workers, run, steps) && k < |run| && run[k].stopper.Joining? && !run[k].drain
    ensures run[k].tasks == [] && run[k].accepted == run[k].started + run[k].discarded
  {
    RunKeepsInv(posters, workers, run, steps, k);
  }

  /** At every moment the started tasks are a prefix of the accepted ones: nothing overtakes, nothing runs twice. */
  lemma StartedInQueueOrder(posters: nat, workers: nat, run: seq<State>, steps: seq<Step>, k: nat)
    requires IsRun(posters, workers, run, steps) && k < |run|
    ensures run[k].started <= run[k].accepted
  {
    RunKeepsInv(posters, workers, run, steps, k);
  }

  /** No post is accepted after any worker has gone, even one that saw the executor running. */
  lemma {:induction false} NothingAcceptedAfterExit(
    posters: nat, workers: nat, run: seq<State>, steps: seq<Step>, i: nat, j: nat)
    requires IsRun(posters, workers, run, steps) && i <= j < |run| && SomeExited(run[i])
    ensures SomeExited(run[j]) && run[j].accepted == run[i].accepted
  {
    if i < j {
      NothingAcceptedAfterExit(posters, workers, run, steps, i, j - 1);
      RunKeepsInv(posters, workers, run, steps, j - 1);
      StepKeepsChecks(run[j - 1], steps[j - 1]);
      assert run[j] == Apply(run[j - 1], steps[j - 1]);
    }
  }

  /** A task queued although the executor is stopping, with its one worker parked. */
  function LateState(task: Task): State {
    State(false, true, Nobody, [task], [Outside], [Parked], FlagDown(true), [task], [], [])
  }

  /** The window is real: a task can be accepted after `running` has gone down. */
  lemma AcceptedAfterFlagDown(task: Task) returns (run: seq<State>, steps: seq<Step>)
    ensures IsRun(1, 1, run, steps) && |run| == 6
    ensures !run[4].running && run[4].accepted == [] && run[5] == LateState(task)
  {
    steps := [PostBegin(0, task), PostLock(0), PostCheck(0), StopBegin(true), PostPush(0)];
    var s0 := Init(1, 1);
    var s1 := Apply(s0, steps[0]);
    var s2 := Apply(s1, steps[1]);
    var s3 := Apply(s2, steps[2]);
    var s4 := Apply(s3, steps[3]);
    var s5 := Apply(s4, steps[4]);
    run := [s0, s1, s2, s3, s4, s5];
  }

  /** It is still started: the worker wakes, sees the task before the flag, and takes it. */
  lemma LateTaskIsStarted(task: Task)
    ensures Enabled(LateState(task), WorkerLock(0))
    ensures
      var locked := Apply(LateState(task), WorkerLock(0));
      Enabled(locked, WorkerWait(0)) && Enabled(Apply(locked, WorkerWait(0)), WorkerDecide(0))
    ensures Apply(Apply(Apply(LateState(task), WorkerLock(0)), WorkerWait(0)), WorkerDecide(0)).started == [task]
  {
  }
}
