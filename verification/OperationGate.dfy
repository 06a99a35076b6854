/**
  The gate between public operations and `Start`/`Stop`. `Start` and `Stop` hold the
  transition mutex throughout (a failing `Start` calls `Stop` while holding it), so together
  they have one position; operations come and go around them in any order.
  */
module OperationGate {

  type OpId = nat

  /** The runtime tables: nodes, edges, routes, inputs, executors. */
  datatype Tables = Empty | Partial | Built

  datatype Control =
    | Idle
    | Building
    | StartingNodes
    | StopEntered
    | AwaitingOps
    | Clearing

  datatype State = State(
    running: bool,
    stopping: bool,
    active: nat,
    ops: set<OpId>,
    tables: Tables,
    control: Control)

  datatype Step =
    | BeginOperation(op: OpId)
    | EndOperation(op: OpId)
    | EnterStart
    | RejectGraph
    | BuildSome
    | FailBuilding
    | SetRunning
    | FailStarting
    | StartReturns
    | EnterStop
    | DecideStop
    | OpsAreGone
    | ClearTables
    | StopReturns

  const INITIAL := State(false, false, 0, {}, Empty, Idle)

  predicate Enabled(st: State, step: Step) {
    match step
    case BeginOperation(op) => op !in st.ops && !st.stopping && st.running
    case EndOperation(op) => op in st.ops
    case EnterStart => st.control == Idle && !st.running && !st.stopping
    case RejectGraph => st.control == Building && st.tables == Empty
    case BuildSome => st.control == Building
    case FailBuilding => st.control == Building
    case SetRunning => st.control == Building
    case FailStarting => st.control == StartingNodes
    case StartReturns => st.control == StartingNodes
    case EnterStop => st.control == Idle
    case DecideStop => st.control == StopEntered && !st.stopping
    case OpsAreGone => st.control == AwaitingOps && st.active == 0
    case ClearTables => st.control == Clearing
    case StopReturns => st.control == Clearing && st.tables == Empty
  }

  function Apply(st: State, step: Step): State
    requires Enabled(st, step)
  {
    match step
    case BeginOperation(op) => st.(ops := st.ops + {op}, active := st.active + 1)
    case EndOperation(op) => st.(ops := st.ops - {op}, active := if st.active != 0 then st.active - 1 else 0)
    case EnterStart => st.(control := Building)
    case RejectGraph => st.(control := Idle)
    case BuildSome => st.(tables := Partial)
    case FailBuilding => st.(control := StopEntered)
    case SetRunning => st.(tables := Built, running := true, control := StartingNodes)
    case FailStarting => st.(control := StopEntered)
    case StartReturns => st.(control := Idle)
    case EnterStop => st.(control := StopEntered)
    case DecideStop =>
      if !st.running && st.tables == Empty then st.(running := false, control := Idle)
      else st.(running := false, stopping := true, control := AwaitingOps)
    case OpsAreGone => st.(control := Clearing)
    case ClearTables => st.(tables := Empty)
    case StopReturns => st.(stopping := false, control := Idle)
  }

  ghost predicate IsRun(run: seq<State>, steps: seq<Step>) {
    && |run| == |steps| + 1
    && run[0] == INITIAL
    && (forall i :: 0 <= i < |steps| ==> Enabled(run[i], steps[i]) && run[i + 1] == Apply(run[i], steps[i]))
  }

  ghost predicate Inv(st: State) {
    && st.active == |st.ops|
    && (st.stopping <==> st.control == AwaitingOps || st.control == Clearing)
    && (st.running ==> st.tables == Built && !st.stopping)
    && (st.active > 0 ==> st.tables == Built && (st.running || st.control == AwaitingOps))
    && (st.control == Building ==> !st.running)
    && (st.control == StartingNodes ==> st.running)
    && (st.control == Idle && !st.running ==> st.tables == Empty)
  }

  lemma StepKeepsInv(st: State, step: Step)
    requires Inv(st) && Enabled(st, step)
    ensures Inv(Apply(st, step))
  {
  }

  lemma {:induction false} RunKeepsInv(run: seq<State>, steps: seq<Step>, k: nat)
    requires IsRun(run, steps) && k < |run|
    ensures Inv(run[k])
  {
    if k > 0 {
      RunKeepsInv(run, steps, k - 1);
      StepKeepsInv(run[k - 1], steps[k - 1]);
    }
  }

  /** The tables change only while no admitted operation is active. */
  lemma TablesChangeOnlyAlone(run: seq<State>, steps: seq<Step>, k: nat)
    requires IsRun(run, steps) && k < |steps| && run[k + 1].tables != run[k].tables
    ensures run[k].ops == {} && run[k + 1].ops == {}
  {
    RunKeepsInv(run, steps, k);
  }

  /** From the moment an operation is admitted until it ends, it sees the fully built tables. */
  lemma {:induction false} OperationSeesBuiltTables(run: seq<State>, steps: seq<Step>, k: nat, op: OpId)
    requires IsRun(run, steps) && k < |run| && op in run[k].ops
    ensures run[k].tables == Built
  {
    RunKeepsInv(run, steps, k);
    assert run[k].ops != {};
    assert |run[k].ops| != 0;
  }

  /** Between the decision to stop and the end of clearing, no operation is admitted. */
  lemma {:induction false} NoAdmissionWhileStopping(run: seq<State>, steps: seq<Step>, i: nat, j: nat)
    requires IsRun(run, steps) && i <= j < |run|
    requires forall k :: i <= k <= j ==> run[k].stopping
    ensures run[j].ops <= run[i].ops
  {
    if i < j {
      NoAdmissionWhileStopping(run, steps, i, j - 1);
      assert run[j] == Apply(run[j - 1], steps[j - 1]);
    }
  }

  /** The guard on the counter in `EndOperation` never matters. */
  lemma EndIsAlwaysCounted(run: seq<State>, steps: seq<Step>, k: nat, op: OpId)
    requires IsRun(run, steps) && k < |run| && Enabled(run[k], EndOperation(op))
    ensures run[k].active > 0
  {
    RunKeepsInv(run, steps, k);
    assert op in run[k].ops;
  }
}
