/**
  Bringing a graph up and down. A plan says, for every node in creation order, which of its
  hooks will succeed; the runner records every hook it calls. Whatever fails, and also for a
  start that succeeds and is later stopped, the same teardown follows.
  */
module Lifecycle {
  import opened Sequences

  datatype NodeState = Created | Configured | Open | Running | Stopped | Closed | Error

  datatype Hook = OnConfigure | OnOpen | OnStart | OnRequestStop | OnStop | OnClose

  datatype Call = Call(node: nat, hook: Hook)

  /** How one node behaves: whether its type exists, its options are valid, and each hook succeeds. */
  datatype Behaviour = Behaviour(
    typeKnown: bool,
    optionsValid: bool,
    configures: bool,
    opens: bool,
    starts: bool,
    stops: bool,
    closes: bool)

  type Plan = seq<Behaviour>

  datatype NodeRecord = NodeRecord(index: nat, state: NodeState, stopRequested: bool)

  // ---------------------------------------------------------------------------
  // The trace a plan leads to
  // ---------------------------------------------------------------------------

  predicate Builds(b: Behaviour) {
    b.typeKnown && b.optionsValid && b.configures && b.opens
  }

  /** How many nodes are created and opened before the first that is not. */
  function Built(plan: Plan, k: nat): (n: nat)
    requires k <= |plan|
    ensures k <= n <= |plan|
    ensures forall i :: k <= i < n ==> Builds(plan[i])
    ensures n < |plan| ==> !Builds(plan[n])
    decreases |plan| - k
  {
    if k == |plan| || !Builds(plan[k]) then k else Built(plan, k + 1)
  }

  /** Hooks called on a node up to and including `Open`, and its `Close` if that fails. */
  function BringUp(b: Behaviour, i: nat): seq<Call> {
    if !b.typeKnown then []
    else if !b.optionsValid then [Call(i, OnClose)]
    else if !b.configures then [Call(i, OnConfigure), Call(i, OnClose)]
    else if !b.opens then [Call(i, OnConfigure), Call(i, OnOpen), Call(i, OnClose)]
    else [Call(i, OnConfigure), Call(i, OnOpen)]
  }

  function BuildTrace(plan: Plan, k: nat): seq<Call>
    requires k <= |plan|
    decreases |plan| - k
  {
    if k == |plan| then []
    else if !Builds(plan[k]) then BringUp(plan[k], k)
    else BringUp(plan[k], k) + BuildTrace(plan, k + 1)
  }

  lemma BuildTraceStep(before: seq<Call>, plan: Plan, k: nat)
    requires k < |plan| && Builds(plan[k])
    ensures before + BuildTrace(plan, k) == (before + BringUp(plan[k], k)) + BuildTrace(plan, k + 1)
  {
  }

  function StartTrace(plan: Plan, k: nat): seq<Call>
    requires k <= |plan|
    decreases |plan| - k
  {
    if k == |plan| then []
    else if !plan[k].starts then [Call(k, OnStart)]
    else [Call(k, OnStart)] + StartTrace(plan, k + 1)
  }

  function Requests(n: nat): seq<Call> {
    if n == 0 then [] else Requests(n - 1) + [Call(n - 1, OnRequestStop)]
  }

  /** The same hook on the nodes below `n`, last created first. */
  function Backwards(hook: Hook, n: nat): seq<Call> {
    if n == 0 then [] else [Call(n - 1, hook)] + Backwards(hook, n - 1)
  }

  function Teardown(n: nat): seq<Call> {
    Requests(n) + Backwards(OnStop, n) + Backwards(OnClose, n)
  }

  /** What else has to succeed: the executors, before any node is created, and the side packets, before any starts. */
  datatype Setting = Setting(executorsStart: bool, sidePacketsSet: bool)

  /** The nodes there are to bring up. */
  function Planned(plan: Plan, e: Setting): Plan {
    if e.executorsStart then plan else []
  }

  /** From `Start` to the end of teardown, whether `Start` failed or the graph was stopped later. */
  function WholeTrace(plan: Plan, sidePacketsSet: bool): seq<Call> {
    var n := Built(plan, 0);
    BuildTrace(plan, 0) + (if n == |plan| && sidePacketsSet then StartTrace(plan, 0) else []) + Teardown(n)
  }

  // ---------------------------------------------------------------------------
  // The runner
  // ---------------------------------------------------------------------------

  class Runner {
    const plan: Plan
    var nodes: seq<NodeRecord>
    var trace: seq<Call>
    var running: bool

    constructor (plan: Plan)
      ensures this.plan == plan && nodes == [] && trace == [] && !running
    {
      this.plan := plan;
      nodes, trace, running := [], [], false;
    }

    /** The nodes created so far are the first of the plan, opened and not yet stopped. */
    ghost predicate Live()
      reads this
    {
      && |nodes| <= |plan|
      && (forall i :: 0 <= i < |nodes| ==>
            nodes[i].index == i && !nodes[i].stopRequested && nodes[i].state in {Open, Running, Error})
    }

    method Configure(node: NodeRecord) returns (after: NodeRecord, ok: bool)
      requires node.index < |plan|
      modifies this`trace
      ensures after.index == node.index && after.stopRequested == node.stopRequested
      ensures node.state == Created ==>
        && ok == (plan[node.index].optionsValid && plan[node.index].configures)
        && after.state == (if ok then Configured else Error)
        && trace == old(trace) + (if plan[node.index].optionsValid then [Call(node.index, OnConfigure)] else [])
      ensures node.state != Created ==> after == node && !ok && trace == old(trace)
    {
      if node.state != Created {
        return node, false;
      }
      if !plan[node.index].optionsValid {
        return node.(state := Error), false;
      }
      trace := trace + [Call(node.index, OnConfigure)];
      ok := plan[node.index].configures;
      after := node.(state := if ok then Configured else Error);
    }

    method OpenNode(node: NodeRecord) returns (after: NodeRecord, ok: bool)
      requires node.index < |plan|
      modifies this`trace
      ensures after.index == node.index && after.stopRequested == node.stopRequested
      ensures node.state == Configured ==>
        ok == plan[node.index].opens && after.state == (if ok then Open else Error) &&
          trace == old(trace) + [Call(node.index, OnOpen)]
      ensures node.state != Configured ==> after == node && !ok && trace == old(trace)
    {
      if node.state != Configured {
        return node, false;
      }
      trace := trace + [Call(node.index, OnOpen)];
      ok := plan[node.index].opens;
      after := node.(state := if ok then Open else Error);
    }

    method StartNode(node: NodeRecord) returns (after: NodeRecord, ok: bool)
      requires node.index < |plan|
      modifies this`trace
      ensures after.index == node.index
      ensures node.state in {Open, Stopped} ==>
        && ok == plan[node.index].starts && after.state == (if ok then Running else Error) && !after.stopRequested
        && trace == old(trace) + [Call(node.index, OnStart)]
      ensures node.state !in {Open, Stopped} ==> after == node && !ok && trace == old(trace)
    {
      if node.state != Open && node.state != Stopped {
        return node, false;
      }
      trace := trace + [Call(node.index, OnStart)];
      ok := plan[node.index].starts;
      after := node.(state := if ok then Running else Error, stopRequested := false);
    }

    method RequestStop(node: NodeRecord) returns (after: NodeRecord)
      modifies this`trace
      ensures after == node.(stopRequested := true)
      ensures trace == old(trace) + (if node.stopRequested then [] else [Call(node.index, OnRequestStop)])
    {
      if !node.stopRequested {
        trace := trace + [Call(node.index, OnRequestStop)];
      }
      after := node.(stopRequested := true);
    }

    method StopNode(node: NodeRecord) returns (after: NodeRecord, ok: bool)
      requires node.index < |plan|
      modifies this`trace
      ensures node.state in {Stopped, Closed, Created} ==> after == node && ok && trace == old(trace)
      ensures node.state !in {Stopped, Closed, Created} ==>
        && ok == plan[node.index].stops
        && after == node.(state := if ok then Stopped else Error, stopRequested := true)
        && trace == old(trace) + (if node.stopRequested then [] else [Call(node.index, OnRequestStop)]) +
          [Call(node.index, OnStop)]
    {
      if node.state == Stopped || node.state == Closed || node.state == Created {
        return node, true;
      }
      after := RequestStop(node);
      trace := trace + [Call(node.index, OnStop)];
      ok := plan[node.index].stops;
      after := after.(state := if ok then Stopped else Error);
    }

    method CloseNode(node: NodeRecord) returns (after: NodeRecord)
      requires node.index < |plan|
      modifies this`trace
      ensures node.state == Closed ==> after == node && trace == old(trace)
      ensures node.state !in {Closed, Running} ==>
        && after == node.(state := if plan[node.index].closes then Closed else Error)
        && trace == old(trace) + [Call(node.index, OnClose)]
      ensures node.state == Running && !node.stopRequested ==>
        trace == old(trace) + [Call(node.index, OnRequestStop), Call(node.index, OnStop)] +
                 (if plan[node.index].stops then [Call(node.index, OnClose)] else [])
    {
      after := node;
      if after.state == Closed {
        return;
      }
      if after.state == Running {
        var ok;
        after, ok := StopNode(after);
        if !ok {
          return;
        }
      }
      trace := trace + [Call(node.index, OnClose)];
      after := after.(state := if plan[node.index].closes then Closed else Error);
    }

    /** A node's processing may fail at any time while the graph runs. */
    method Process(i: nat, ok: bool)
      requires Live() && i < |nodes|
      modifies this`nodes
      ensures Live() && |nodes| == old(|nodes|)
    {
      if nodes[i].state == Running && !ok {
        nodes := nodes[i := nodes[i].(state := Error)];
      }
    }

    /** One node of the build loop. */
    method BringUpNode(k: nat) returns (node: NodeRecord, ok: bool)
      requires k < |plan|
      modifies this`trace
      ensures trace == old(trace) + BringUp(plan[k], k)
      ensures (ok <==> Builds(plan[k])) && (ok ==> node == NodeRecord(k, Open, false))
    {
      node := NodeRecord(k, Created, false);
      if !plan[k].typeKnown {
        return node, false;
      }
      node, ok := Configure(node);
      if ok {
        node, ok := OpenNode(node);
      }
      if !ok {
        node := CloseNode(node);
      }
    }

    /** Create, configure and open every node; the first that fails is closed on the spot. */
    method Build() returns (ok: bool)
      requires nodes == [] && trace == []
      modifies this`nodes, this`trace
      ensures Live() && |nodes| == Built(plan, 0) && (ok <==> |nodes| == |plan|)
      ensures forall i :: 0 <= i < |nodes| ==> nodes[i].state == Open
      ensures trace == BuildTrace(plan, 0)
    {
      for k := 0 to |plan|
        invariant Live() && |nodes| == k && Built(plan, 0) == Built(plan, k)
        invariant forall i :: 0 <= i < k ==> nodes[i].state == Open
        invariant trace + BuildTrace(plan, k) == BuildTrace(plan, 0)
      {
        ghost var before := trace;
        var node, up := BringUpNode(k);
        if !up {
          return false;
        }
        BuildTraceStep(before, plan, k);
        nodes := nodes + [node];
      }
      ok := true;
    }

    /** Start every node in creation order, stopping at the first that fails. */
    method StartNodes() returns (ok: bool)
      requires Live() && |nodes| == |plan| && forall i :: 0 <= i < |nodes| ==> nodes[i].state == Open
      modifies this`nodes, this`trace
      ensures Live() && |nodes| == |plan|
      ensures trace == old(trace) + StartTrace(plan, 0)
    {
      for k := 0 to |nodes|
        invariant Live() && |nodes| == |plan|
        invariant forall i :: k <= i < |nodes| ==> nodes[i].state == Open
        invariant trace + StartTrace(plan, k) == old(trace) + StartTrace(plan, 0)
      {
        ghost var before := trace;
        var node, started := StartNode(nodes[k]);
        nodes := nodes[k := node];
        if !started {
          return false;
        }
        assert before + StartTrace(plan, k) == trace + StartTrace(plan, k + 1);
      }
      ok := true;
    }

    /** Ask every node to stop, then stop all and close all, last created first. */
    method Stop()
      requires Live()
      modifies this
      ensures nodes == [] && !running
      ensures trace == old(trace) + Teardown(old(|nodes|))
    {
      running := false;
      var n := |nodes|;
      RequestAll();
      StopAll();
      CloseAll();
      nodes := [];
    }

    method RequestAll()
      requires Live()
      modifies this`nodes, this`trace
      ensures |nodes| == old(|nodes|)
      ensures forall i :: 0 <= i < |nodes| ==> nodes[i] == old(nodes)[i].(stopRequested := true)
      ensures trace == old(trace) + Requests(|nodes|)
    {
      ghost var original := nodes;
      for k := 0 to |nodes|
        invariant |nodes| == |original|
        invariant forall i :: 0 <= i < k ==> nodes[i] == original[i].(stopRequested := true)
        invariant forall i :: k <= i < |nodes| ==> nodes[i] == original[i]
        invariant trace == old(trace) + Requests(k)
      {
        var node := RequestStop(nodes[k]);
        nodes := nodes[k := node];
      }
    }

    method StopAll()
      requires |nodes| <= |plan|
      requires forall i :: 0 <= i < |nodes| ==>
        nodes[i].index == i && nodes[i].stopRequested && nodes[i].state in {Open, Running, Error}
      modifies this`nodes, this`trace
      ensures |nodes| == old(|nodes|)
      ensures forall i :: 0 <= i < |nodes| ==> nodes[i].index == i && nodes[i].state in {Stopped, Error}
      ensures trace == old(trace) + Backwards(OnStop, |nodes|)
    {
      ghost var original := nodes;
      var k := |nodes|;
      while k > 0
        invariant 0 <= k <= |nodes| == |original|
        invariant forall i :: 0 <= i < k ==> nodes[i] == original[i]
        invariant forall i :: k <= i < |nodes| ==> nodes[i].index == i && nodes[i].state in {Stopped, Error}
        invariant trace + Backwards(OnStop, k) == old(trace) + Backwards(OnStop, |nodes|)
      {
        k := k - 1;
        ghost var before := trace;
        var node, ok := StopNode(nodes[k]);
        nodes := nodes[k := node];
        assert before + Backwards(OnStop, k + 1) == trace + Backwards(OnStop, k);
      }
    }

    method CloseAll()
      requires |nodes| <= |plan|
      requires forall i :: 0 <= i < |nodes| ==> nodes[i].index == i && nodes[i].state in {Stopped, Error}
      modifies this`nodes, this`trace
      ensures trace == old(trace) + Backwards(OnClose, old(|nodes|))
    {
      ghost var original := nodes;
      var k := |nodes|;
      while k > 0
        invariant 0 <= k <= |nodes| == |original|
        invariant forall i :: 0 <= i < k ==> nodes[i] == original[i]
        invariant trace + Backwards(OnClose, k) == old(trace) + Backwards(OnClose, |nodes|)
      {
        k := k - 1;
        ghost var before := trace;
        var node := CloseNode(nodes[k]);
        nodes := nodes[k := node];
        assert before + Backwards(OnClose, k + 1) == trace + Backwards(OnClose, k);
      }
    }

    /** `Start`: on any failure everything brought up so far is torn down before returning. */
    method Start(e: Setting) returns (ok: bool)
      requires nodes == [] && trace == [] && !running
      modifies this
      ensures ok ==> running && Live() && |nodes| == |plan| && e == Setting(true, true)
      ensures ok ==> trace + Teardown(|nodes|) == WholeTrace(plan, true)
      ensures !ok ==> !running && nodes == [] && trace == WholeTrace(Planned(plan, e), e.sidePacketsSet)
    {
      if !e.executorsStart {
        Stop();
        return false;
      }
      ok := Build();
      if !ok || !e.sidePacketsSet {
        Stop();
        assert trace == BuildTrace(plan, 0) + [] + Teardown(Built(plan, 0));
        return false;
      }
      running := true;
      ok := StartNodes();
      if !ok {
        Stop();
      }
    }
  }

  // ---------------------------------------------------------------------------
  // Main results
  // ---------------------------------------------------------------------------

  function Times(t: seq<Call>, c: Call): nat {
    multiset(t)[c]
  }

  lemma TimesConcat(a: seq<Call>, b: seq<Call>, c: Call)
    ensures Times(a + b, c) == Times(a, c) + Times(b, c)
  {
  }

  lemma TimesOne(x: Call, c: Call)
    ensures Times([x], c) == if x == c then 1 else 0
  {
  }

  /** `Configure` was called on node `i`: its predecessors came up and its type exists. */
  predicate WasConfigured(plan: Plan, i: nat) {
    i < |plan| && i <= Built(plan, 0) && plan[i].typeKnown
  }

  lemma {:induction false} BuildCloses(plan: Plan, k: nat, i: nat)
    requires k <= |plan|
    ensures
      var n := Built(plan, k);
      Times(BuildTrace(plan, k), Call(i, OnClose)) == if i == n && n < |plan| && plan[n].typeKnown then 1 else 0
    decreases |plan| - k
  {
    if k < |plan| {
      BringUpTimes(plan[k], k, i);
      if Builds(plan[k]) {
        BuildCloses(plan, k + 1, i);
        TimesConcat(BringUp(plan[k], k), BuildTrace(plan, k + 1), Call(i, OnClose));
      }
    }
  }

  lemma {:induction false} BuildStops(plan: Plan, k: nat, i: nat)
    requires k <= |plan|
    ensures Times(BuildTrace(plan, k), Call(i, OnStop)) == 0
    decreases |plan| - k
  {
    if k < |plan| {
      BringUpTimes(plan[k], k, i);
      if Builds(plan[k]) {
        BuildStops(plan, k + 1, i);
        TimesConcat(BringUp(plan[k], k), BuildTrace(plan, k + 1), Call(i, OnStop));
      }
    }
  }

  lemma BringUpTimes(b: Behaviour, k: nat, i: nat)
    ensures Times(BringUp(b, k), Call(i, OnClose)) == (if i == k && b.typeKnown && !Builds(b) then 1 else 0)
    ensures Times(BringUp(b, k), Call(i, OnStop)) == 0
  {
  }

  lemma {:induction false} StartTimes(plan: Plan, k: nat, i: nat)
    requires k <= |plan|
    ensures Times(StartTrace(plan, k), Call(i, OnClose)) == 0 && Times(StartTrace(plan, k), Call(i, OnStop)) == 0
    decreases |plan| - k
  {
    if k < |plan| && plan[k].starts {
      StartTimes(plan, k + 1, i);
    }
  }

  lemma {:induction false} RequestTimes(n: nat, i: nat)
    ensures Times(Requests(n), Call(i, OnClose)) == 0 && Times(Requests(n), Call(i, OnStop)) == 0
  {
    if n > 0 { RequestTimes(n - 1, i); }
  }

  lemma {:induction false} BackwardsTimes(hook: Hook, n: nat, c: Call)
    ensures Times(Backwards(hook, n), c) == if c.hook == hook && c.node < n then 1 else 0
  {
    if n > 0 {
      BackwardsTimes(hook, n - 1, c);
      TimesOne(Call(n - 1, hook), c);
      TimesConcat([Call(n - 1, hook)], Backwards(hook, n - 1), c);
    }
  }

  /** Counts over a trace that is four stages long. */
  lemma WholeTimes(plan: Plan, sidePacketsSet: bool, c: Call)
    ensures
      var n := Built(plan, 0);
      Times(WholeTrace(plan, sidePacketsSet), c) ==
        Times(BuildTrace(plan, 0), c) + (if n == |plan| && sidePacketsSet then Times(StartTrace(plan, 0), c) else 0) +
        Times(Requests(n), c) + Times(Backwards(OnStop, n), c) + Times(Backwards(OnClose, n), c)
  {
    var n := Built(plan, 0);
    var middle := if n == |plan| && sidePacketsSet then StartTrace(plan, 0) else [];
    TimesConcat(BuildTrace(plan, 0) + middle, Teardown(n), c);
    TimesConcat(BuildTrace(plan, 0), middle, c);
    TimesConcat(Requests(n) + Backwards(OnStop, n), Backwards(OnClose, n), c);
    TimesConcat(Requests(n), Backwards(OnStop, n), c);
  }

  /** Every node that was configured is closed exactly once, and no other node is. */
  lemma ClosedExactlyOnce(plan: Plan, sidePacketsSet: bool, i: nat)
    ensures Times(WholeTrace(plan, sidePacketsSet), Call(i, OnClose)) == if WasConfigured(plan, i) then 1 else 0
  {
    var n := Built(plan, 0);
    var c := Call(i, OnClose);
    WholeTimes(plan, sidePacketsSet, c);
    assert Times(BuildTrace(plan, 0), c) ==
      (if i == n && n < |plan| && plan[n].typeKnown then 1 else 0) by { BuildCloses(plan, 0, i); }
    assert Times(StartTrace(plan, 0), c) == 0 by { StartTimes(plan, 0, i); }
    assert Times(Requests(n), c) == 0 by { RequestTimes(n, i); }
    assert Times(Backwards(OnStop, n), c) == 0 by { BackwardsTimes(OnStop, n, c); }
    assert Times(Backwards(OnClose, n), c) == (if i < n then 1 else 0) by { BackwardsTimes(OnClose, n, c); }
    assert i < n ==> Builds(plan[i]);
  }

  /** Every node that was opened is stopped exactly once, and no other node is. */
  lemma StoppedExactlyOnce(plan: Plan, sidePacketsSet: bool, i: nat)
    ensures Times(WholeTrace(plan, sidePacketsSet), Call(i, OnStop)) == if i < Built(plan, 0) then 1 else 0
  {
    var n := Built(plan, 0);
    var c := Call(i, OnStop);
    WholeTimes(plan, sidePacketsSet, c);
    assert Times(BuildTrace(plan, 0), c) == 0 by { BuildStops(plan, 0, i); }
    assert Times(StartTrace(plan, 0), c) == 0 by { StartTimes(plan, 0, i); }
    assert Times(Requests(n), c) == 0 by { RequestTimes(n, i); }
    assert Times(Backwards(OnStop, n), c) == (if i < n then 1 else 0) by { BackwardsTimes(OnStop, n, c); }
    assert Times(Backwards(OnClose, n), c) == 0 by { BackwardsTimes(OnClose, n, c); }
  }

  /** What may come before what in a teardown: closes go backwards, and no stop follows a close of a live node. */
  predicate InOrder(a: Call, b: Call) {
    && (a.hook == OnClose && b.hook == OnClose ==> a.node > b.node)
    && (a.hook == OnStop && b.hook == OnStop ==> a.node > b.node)
    && (a.hook == OnClose && b.hook == OnStop ==> a.node > b.node)
  }

  lemma PairwiseConcat(a: seq<Call>, b: seq<Call>)
    requires Pairwise(InOrder, a) && Pairwise(InOrder, b)
    requires forall x, y :: x in a && y in b ==> InOrder(x, y)
    ensures Pairwise(InOrder, a + b)
  {
    var ab := a + b;
    forall i, j | 0 <= i < j < |ab|
      ensures InOrder(ab[i], ab[j])
    {
      if j < |a| { assert InOrder(a[i], a[j]); }
      else if i < |a| { assert a[i] in a && b[j - |a|] in b; }
      else { assert InOrder(b[i - |a|], b[j - |a|]); }
    }
  }

  lemma {:induction false} BackwardsOrder(hook: Hook, n: nat)
    requires hook == OnStop || hook == OnClose
    ensures Pairwise(InOrder, Backwards(hook, n))
    ensures forall c :: c in Backwards(hook, n) ==> c.hook == hook && c.node < n
  {
    if n > 0 {
      BackwardsOrder(hook, n - 1);
      PairwiseConcat([Call(n - 1, hook)], Backwards(hook, n - 1));
    }
  }

  lemma {:induction false} RequestsOrder(n: nat)
    ensures Pairwise(InOrder, Requests(n)) && forall c :: c in Requests(n) ==> c.hook == OnRequestStop
  {
    if n > 0 {
      RequestsOrder(n - 1);
      PairwiseConcat(Requests(n - 1), [Call(n - 1, OnRequestStop)]);
    }
  }

  lemma {:induction false} StartOrder(plan: Plan, k: nat)
    requires k <= |plan|
    ensures Pairwise(InOrder, StartTrace(plan, k)) && forall c :: c in StartTrace(plan, k) ==> c.hook == OnStart
    decreases |plan| - k
  {
    if k < |plan| && plan[k].starts {
      StartOrder(plan, k + 1);
      PairwiseConcat([Call(k, OnStart)], StartTrace(plan, k + 1));
    }
  }

  lemma {:induction false} BuildOrder(plan: Plan, k: nat)
    requires k <= |plan|
    ensures Pairwise(InOrder, BuildTrace(plan, k))
    ensures forall c :: c in BuildTrace(plan, k) ==>
      c.hook != OnStop && (c.hook == OnClose ==> c.node == Built(plan, k))
    decreases |plan| - k
  {
    if k < |plan| && Builds(plan[k]) {
      BuildOrder(plan, k + 1);
      PairwiseConcat(BringUp(plan[k], k), BuildTrace(plan, k + 1));
    }
  }

  /**
    Closes, and stops, happen in reverse creation order, and a node's stop comes before its
    close: an earlier close is always of a node created later.
    */
  lemma TeardownGoesBackwards(plan: Plan, sidePacketsSet: bool)
    ensures Pairwise(InOrder, WholeTrace(plan, sidePacketsSet))
    ensures
      var t := WholeTrace(plan, sidePacketsSet);
      forall a, b, i :: 0 <= a < |t| && 0 <= b < |t| && t[a] == Call(i, OnStop) && t[b] == Call(i, OnClose) ==> a < b
  {
    var n := Built(plan, 0);
    var middle := if n == |plan| && sidePacketsSet then StartTrace(plan, 0) else [];
    BuildOrder(plan, 0);
    StartOrder(plan, 0);
    RequestsOrder(n);
    BackwardsOrder(OnStop, n);
    BackwardsOrder(OnClose, n);
    PairwiseConcat(BuildTrace(plan, 0), middle);
    PairwiseConcat(Requests(n), Backwards(OnStop, n));
    PairwiseConcat(Requests(n) + Backwards(OnStop, n), Backwards(OnClose, n));
    PairwiseConcat(BuildTrace(plan, 0) + middle, Teardown(n));
    var t := WholeTrace(plan, sidePacketsSet);
    forall a, b, i | 0 <= a < |t| && 0 <= b < |t| && t[a] == Call(i, OnStop) && t[b] == Call(i, OnClose)
      ensures a < b
    {
      assert b < a ==> InOrder(t[b], t[a]);
    }
  }
}
