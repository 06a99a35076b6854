/**
  From emissions to the calls a sync node sees. Every stream is an edge with its checks and its bounded queue. A drain
  pops a packet, delivers it to the join under the node's input lock, leaves the lock, tests whether the graph is
  cancelled, and only then calls the node with what the join handed out. Threads interleave freely; nothing but the
  scheduled flags keeps the calls in order.
  */
module ProcessOrder {
  import opened Packets
  import opened Sequences
  import opened SyncJoin
  import opened SyncJoinRuns
  import Drain = DrainProtocol
  import Edges = EdgeStreams
  import Pipeline = JoinPipeline

  /** The port of the node that a stream feeds; other streams feed other nodes. */
  type Feeds = map<Drain.Stream, Port>

  predicate OneFeeder(feeds: Feeds) {
    forall s, r :: s in feeds && r in feeds && feeds[s] == feeds[r] ==> s == r
  }

  /** A call of the node: a data set, required ports only, or the end of its streams. */
  datatype Call = Data(inputs: Matched) | End

  /**
    Where a delivering thread stands: before the join, holding what it handed out, past the test for cancellation, or
    past the node's call.
    */
  datatype Phase = Before | Holding(call: Call) | Entering(call: Call) | Past {
    predicate InHand() {
      Holding? || Entering?
    }
  }

  /** Capacity and policy of every stream's queue. */
  type Queues = seq<Pipeline.QueueConfig>

  datatype State = State(
    drain: Drain.State, own: seq<Drain.Owner>, edges: seq<Edges.Edge>,
    phases: seq<Phase>, delivered: History, processed: seq<Call>)

  /** `EdgeStep` is an emission's check, a push that is not accepted, or a closing queue. */
  datatype Step =
    | DrainStep(step: Drain.Step)
    | EdgeStep(s: Drain.Stream, edgeStep: Edges.Step)
    | JoinStep(t: Drain.Tid)
    | TestStep(t: Drain.Tid)
    | ProcessStep(t: Drain.Tid)

  /** The call the last delivery of a history leads to, if any. */
  ghost function Called(c: Contract, h: History): seq<Call>
    requires h != []
  {
    match LastOutcome(c, h)
    case InvokeData(ts, inputs) => [Data(Matched(ts, map q | q in Required(c) && q in inputs :: inputs[q]))]
    case InvokeEos(_) => [End]
    case _ => []
  }

  ghost function Calls(c: Contract, h: History): seq<Call> {
    if h == [] then [] else Calls(c, Front(h)) + Called(c, h)
  }

  ghost predicate WellFormed(cfg: Queues, st: State) {
    && Drain.WellFormed(st.drain) && |st.phases| == |st.drain.threads|
    && |st.own| == |st.edges| == |cfg| == |st.drain.queues|
  }

  /** The edge would take the packet its emitter has in hand. */
  predicate Accepts(q: Pipeline.QueueConfig, e: Edges.Edge) {
    e.st.inHand.Some? && Edges.Attempt(q.capacity, q.policy, e.st.queue, e.st.inHand.value).status.Accepted?
  }

  /** The edge takes exactly this packet, displacing its front or not. */
  predicate Takes(q: Pipeline.QueueConfig, e: Edges.Edge, item: Packet, displace: bool) {
    && Accepts(q, e) && e.st.inHand.value == item
    && (displace <==> Edges.Attempt(q.capacity, q.policy, e.st.queue, item).displaced != [])
  }

  function EdgeAfter(q: Pipeline.QueueConfig, e: Edges.Edge, step: Edges.Step): Edges.Edge {
    Edges.Apply(q.capacity, q.policy, e, step)
  }

  /** Thread `t` is delivering a packet of stream `s`. */
  predicate Delivers(st: Drain.State, t: int, s: Drain.Stream) {
    0 <= t < |st.threads| && st.threads[t].drain.Delivering? && st.threads[t].drain.s == s
  }

  predicate Reaches(feeds: Feeds, st: Drain.State, t: int) {
    0 <= t < |st.threads| && st.threads[t].drain.Delivering? && st.threads[t].drain.s in feeds
  }

  ghost predicate DrainEnabled(feeds: Feeds, cfg: Queues, st: State, step: Drain.Step)
    requires WellFormed(cfg, st)
  {
    && Drain.Enabled(st.drain, step)
    && (step.Produce? ==> Takes(cfg[step.s], st.edges[step.s], step.item, step.displace))
    && (step.Deliver? && Reaches(feeds, st.drain, step.t) ==> st.phases[step.t] == Past)
  }

  ghost predicate Enabled(feeds: Feeds, cfg: Queues, st: State, step: Step)
    requires WellFormed(cfg, st)
  {
    match step
    case DrainStep(s) => DrainEnabled(feeds, cfg, st, s)
    case EdgeStep(s, e) => s < |st.edges| && !e.Pop? && (e.Push? ==> !Accepts(cfg[s], st.edges[s]))
    case JoinStep(t) => Reaches(feeds, st.drain, t) && st.phases[t] == Before
    case TestStep(t) => t < |st.phases| && st.phases[t].Holding?
    case ProcessStep(t) => t < |st.phases| && st.phases[t].Entering?
  }

  function DeliveryOf(feeds: Feeds, st: Drain.State, t: nat): Delivery
    requires Reaches(feeds, st, t)
  {
    Delivery(feeds[st.threads[t].drain.s], st.threads[t].drain.item)
  }

  ghost function Joined(c: Contract, st: State, t: nat, d: Delivery): State
    requires t < |st.phases|
  {
    var h := st.delivered + [d];
    var called := Called(c, h);
    st.(delivered := h, phases := st.phases[t := if called == [] then Past else Holding(called[0])])
  }

  /** A production is the edge's push, a pop the edge's pop. */
  ghost function NextEdges(cfg: Queues, st: State, step: Drain.Step): seq<Edges.Edge>
    requires WellFormed(cfg, st) && Drain.Enabled(st.drain, step)
  {
    match step
    case Produce(_, s, _, _) => st.edges[s := EdgeAfter(cfg[s], st.edges[s], Edges.Push)]
    case PopOne(t) =>
      var s := st.drain.threads[t].drain.s;
      st.edges[s := EdgeAfter(cfg[s], st.edges[s], Edges.Pop)]
    case _ => st.edges
  }

  ghost function Apply(c: Contract, feeds: Feeds, cfg: Queues, st: State, step: Step): State
    requires WellFormed(cfg, st) && Enabled(feeds, cfg, st, step)
  {
    match step
    case DrainStep(s) =>
      st.(drain := Drain.Apply(st.drain, s), own := Drain.NextOwner(st.drain, st.own, s),
          edges := NextEdges(cfg, st, s), phases := if s.Deliver? then st.phases[s.t := Before] else st.phases)
    case EdgeStep(s, e) => st.(edges := st.edges[s := EdgeAfter(cfg[s], st.edges[s], e)])
    case JoinStep(t) => Joined(c, st, t, DeliveryOf(feeds, st.drain, t))
    case TestStep(t) =>
      st.(phases := st.phases[t := if st.drain.cancelled then Past else Entering(st.phases[t].call)])
    case ProcessStep(t) => st.(processed := st.processed + [st.phases[t].call], phases := st.phases[t := Past])
  }

  function Init(streams: nat, threads: nat): State {
    State(Drain.Init(streams, threads), seq(streams, _ => Drain.Free), seq(streams, _ => Edges.NEW_EDGE),
          seq(threads, _ => Before), [], [])
  }

  ghost predicate IsRun(c: Contract, feeds: Feeds, cfg: Queues, threads: nat, run: seq<State>, steps: seq<Step>) {
    && |run| == |steps| + 1
    && run[0] == Init(|cfg|, threads)
    && (forall i :: 0 <= i < |run| ==> WellFormed(cfg, run[i]))
    && (forall i {:trigger steps[i]} :: 0 <= i < |steps| ==>
          Enabled(feeds, cfg, run[i], steps[i]) && run[i + 1] == Apply(c, feeds, cfg, run[i], steps[i]))
  }

  // ---------------------------------------------------------------------------
  // What every step keeps
  // ---------------------------------------------------------------------------

  function Addressed(p: Port, packets: seq<Packet>): History {
    seq(|packets|, i requires 0 <= i < |packets| => Delivery(p, packets[i]))
  }

  ghost predicate PhasesOk(feeds: Feeds, st: State) {
    forall t :: 0 <= t < |st.phases| && st.phases[t] != Before ==> Reaches(feeds, st.drain, t)
  }

  /** A stream's packets have reached the node in pop order, but for the one whose drain is before the join. */
  ghost predicate Given(feeds: Feeds, st: State, s: Drain.Stream)
    requires s in feeds && s < |st.drain.delivered| && |st.phases| == |st.drain.threads|
  {
    var given, past := OnPort(st.delivered, feeds[s]), st.drain.delivered[s];
    && (forall t :: Delivers(st.drain, t, s) && st.phases[t] != Before ==>
          given == Addressed(feeds[s], past + [st.drain.threads[t].drain.item]))
    && ((forall t :: Delivers(st.drain, t, s) ==> st.phases[t] == Before) ==> given == Addressed(feeds[s], past))
  }

  ghost predicate AllGiven(feeds: Feeds, st: State)
    requires |st.phases| == |st.drain.threads|
  {
    forall s :: s in feeds ==> s < |st.drain.delivered| && Given(feeds, st, s)
  }

  /** What a call in hand says about the port it came from. */
  ghost predicate HeldFor(c: Contract, h: History, p: Port, call: Call)
    requires Required(c) != {}
  {
    match call
    case Data(m) =>
      && p in Required(c) && p !in ClosedBy(h) && m.ts in Intersection(c, h)
      && forall u :: u in Stamps(h, p) ==> u <= m.ts
    case End => Required(c) <= ClosedBy(h)
  }

  ghost predicate HoldersOk(c: Contract, feeds: Feeds, st: State)
    requires Required(c) != {} && |st.phases| == |st.drain.threads|
  {
    && (forall t :: 0 <= t < |st.phases| && st.phases[t].InHand() ==>
          && Reaches(feeds, st.drain, t)
          && HeldFor(c, st.delivered, DeliveryOf(feeds, st.drain, t).port, st.phases[t].call))
    && (forall t, u :: 0 <= t < |st.phases| && 0 <= u < |st.phases| ==>
          st.phases[t].InHand() && st.phases[u].InHand() ==> t == u)
  }

  /** The calls made and the one in hand are all the calls there are to make. */
  ghost predicate MadeOrHeld(processed: seq<Call>, phases: seq<Phase>, calls: seq<Call>) {
    && (forall t :: 0 <= t < |phases| && phases[t].InHand() ==> processed + [phases[t].call] == calls)
    && ((forall t :: 0 <= t < |phases| ==> !phases[t].InHand()) ==> processed == calls)
  }

  /** The calls made, with the one past the test for cancellation, are the first calls there were to make. */
  ghost predicate MadeFirst(processed: seq<Call>, phases: seq<Phase>, calls: seq<Call>) {
    && processed <= calls
    && (forall t :: 0 <= t < |phases| && phases[t].Entering? ==> processed + [phases[t].call] <= calls)
  }

  /** Cancellation cuts the calls off and reorders nothing. */
  ghost predicate CallsInOrder(c: Contract, st: State) {
    && (!st.drain.cancelled ==> MadeOrHeld(st.processed, st.phases, Calls(c, st.delivered)))
    && MadeFirst(st.processed, st.phases, Calls(c, st.delivered))
  }

  /** The join's side of the invariant. */
  ghost predicate JoinSide(c: Contract, feeds: Feeds, st: State)
    requires Required(c) != {} && |st.phases| == |st.drain.threads|
  {
    && PhasesOk(feeds, st) && AllGiven(feeds, st)
    && Disciplined(c, st.delivered)
    && HoldersOk(c, feeds, st) && CallsInOrder(c, st)
  }

  /** A required port's stream, whose data must ascend strictly. */
  predicate Strict(c: Contract, feeds: Feeds, s: Drain.Stream) {
    s in feeds && feeds[s] in Required(c)
  }

  /** The protocol's queue is the edge's, and the edge keeps its own invariant. */
  ghost predicate Linked(strict: bool, capacity: nat, e: Edges.Edge, queue: seq<Packet>, popped: seq<Packet>) {
    Pipeline.EdgeInv(strict, capacity, e) && e.st.queue.items == queue && e.popped == popped
  }

  /** The edges' side of the invariant. */
  ghost predicate EdgeSide(c: Contract, feeds: Feeds, cfg: Queues, st: State)
    requires WellFormed(cfg, st)
  {
    forall s :: 0 <= s < |cfg| ==>
      Linked(Strict(c, feeds, s), cfg[s].capacity, st.edges[s], st.drain.queues[s], st.drain.popped[s])
  }

  ghost predicate Inv(c: Contract, feeds: Feeds, cfg: Queues, st: State)
    requires Required(c) != {}
  {
    && WellFormed(cfg, st) && Drain.Inv(st.drain, st.own)
    && EdgeSide(c, feeds, cfg, st) && JoinSide(c, feeds, st)
  }

  /** One stream has one drain. */
  lemma OneDrain(st: Drain.State, own: seq<Drain.Owner>, t: int, u: int, s: Drain.Stream)
    requires Drain.WellFormed(st) && Drain.OwnedBy(st, own) && Delivers(st, t, s) && 0 <= u < |st.threads|
    requires Drain.Drains(st.threads[u], s)
    ensures t == u
  {
    assert s < |own|;
    assert Drain.Drains(st.threads[t], s);
    assert own[s] == Drain.Drainer(t) && own[s] == Drain.Drainer(u);
  }

  // ---------------------------------------------------------------------------
  // Steps of the drain protocol
  // ---------------------------------------------------------------------------

  /** The same threads are delivering the same packets. */
  ghost predicate SameDelivering(st: Drain.State, st': Drain.State) {
    && |st'.threads| == |st.threads|
    && forall t :: 0 <= t < |st.threads| && (st.threads[t].drain.Delivering? || st'.threads[t].drain.Delivering?) ==>
      st'.threads[t].drain == st.threads[t].drain
  }

  lemma QuietThread(st: Drain.State, step: Drain.Step)
    requires Drain.WellFormed(st) && Drain.Enabled(st, step) && !step.PopOne? && !step.Deliver? && !step.CancelGraph?
    requires step.t < |st.threads| == |Drain.Apply(st, step).threads|
    ensures
      var before, after := st.threads[step.t].drain, Drain.Apply(st, step).threads[step.t].drain;
      before.Delivering? || after.Delivering? ==> after == before
    ensures Drain.Apply(st, step).delivered == st.delivered
  {
  }

  lemma QuietStep(st: Drain.State, step: Drain.Step)
    requires Drain.WellFormed(st) && Drain.Enabled(st, step) && !step.PopOne? && !step.Deliver?
    ensures SameDelivering(st, Drain.Apply(st, step)) && Drain.Apply(st, step).delivered == st.delivered
  {
    if !step.CancelGraph? {
      Drain.ThreadStaysOk(st, step);
      QuietThread(st, step);
    }
  }

  lemma CancelStays(st: Drain.State, step: Drain.Step)
    requires Drain.WellFormed(st) && Drain.Enabled(st, step)
    ensures st.cancelled ==> Drain.Apply(st, step).cancelled
  {
  }

  lemma GivenFrame(feeds: Feeds, st: State, st': State)
    requires |st.phases| == |st.drain.threads| && AllGiven(feeds, st)
    requires st'.phases == st.phases && st'.delivered == st.delivered
    requires SameDelivering(st.drain, st'.drain) && st'.drain.delivered == st.drain.delivered
    ensures AllGiven(feeds, st')
  {
    forall s | s in feeds
      ensures s < |st'.drain.delivered| && Given(feeds, st', s)
    {
      assert Given(feeds, st, s);
      assert forall t :: Delivers(st'.drain, t, s) <==> Delivers(st.drain, t, s);
    }
  }

  /** The same calls are in the same hands. */
  ghost predicate SameHands(feeds: Feeds, st: State, st': State)
    requires |st.phases| == |st.drain.threads| && |st'.phases| == |st'.drain.threads|
  {
    && |st'.phases| == |st.phases| && st'.delivered == st.delivered && st'.processed == st.processed
    && (forall t :: 0 <= t < |st.phases| && (st.phases[t].InHand() || st'.phases[t].InHand()) ==>
          st'.phases[t] == st.phases[t])
    && (forall t :: 0 <= t < |st.phases| && st.phases[t].InHand() && Reaches(feeds, st.drain, t) ==>
          Reaches(feeds, st'.drain, t) && DeliveryOf(feeds, st'.drain, t) == DeliveryOf(feeds, st.drain, t))
  }

  lemma HandsFrame(c: Contract, feeds: Feeds, st: State, st': State)
    requires Required(c) != {} && |st.phases| == |st.drain.threads| && |st'.phases| == |st'.drain.threads|
    requires HoldersOk(c, feeds, st) && CallsInOrder(c, st) && SameHands(feeds, st, st')
    requires st.drain.cancelled ==> st'.drain.cancelled
    ensures HoldersOk(c, feeds, st') && CallsInOrder(c, st')
  {
    assert forall t :: 0 <= t < |st.phases| ==> (st'.phases[t].InHand() <==> st.phases[t].InHand());
  }

  lemma QuietKeeps(c: Contract, feeds: Feeds, st: State, st': State)
    requires Required(c) != {} && |st.phases| == |st.drain.threads| && JoinSide(c, feeds, st)
    requires st'.phases == st.phases && st'.delivered == st.delivered && st'.processed == st.processed
    requires SameDelivering(st.drain, st'.drain) && st'.drain.delivered == st.drain.delivered
    requires st.drain.cancelled ==> st'.drain.cancelled
    ensures JoinSide(c, feeds, st')
  {
    GivenFrame(feeds, st, st');
    QuietHands(feeds, st, st');
    HandsFrame(c, feeds, st, st');
  }

  lemma QuietHands(feeds: Feeds, st: State, st': State)
    requires |st.phases| == |st.drain.threads| && PhasesOk(feeds, st) && SameDelivering(st.drain, st'.drain)
    requires st'.phases == st.phases && st'.delivered == st.delivered && st'.processed == st.processed
    ensures PhasesOk(feeds, st') && SameHands(feeds, st, st')
  {
  }

  /** A pop leaves the node's side alone, but for a thread that may now be before the join. */
  ghost predicate PopsFor(st: Drain.State, st': Drain.State, t: Drain.Tid) {
    && t < |st.threads| == |st'.threads| && st'.delivered == st.delivered && st'.cancelled == st.cancelled
    && st.threads[t].drain.Taken?
    && (forall u :: 0 <= u < |st.threads| && u != t ==> st'.threads[u] == st.threads[u])
  }

  lemma PopStep(st: Drain.State, t: Drain.Tid)
    requires Drain.WellFormed(st) && Drain.Enabled(st, Drain.PopOne(t))
    ensures PopsFor(st, Drain.Apply(st, Drain.PopOne(t)), t)
  {
  }

  lemma PopGiven(feeds: Feeds, st: State, st': State, t: Drain.Tid)
    requires |st.phases| == |st.drain.threads| && PhasesOk(feeds, st) && AllGiven(feeds, st)
    requires PopsFor(st.drain, st'.drain, t) && st'.phases == st.phases && st'.delivered == st.delivered
    ensures AllGiven(feeds, st')
  {
    assert st.phases[t] == Before;
    forall s | s in feeds
      ensures s < |st'.drain.delivered| && Given(feeds, st', s)
    {
      assert Given(feeds, st, s);
      assert forall u :: u != t ==> (Delivers(st'.drain, u, s) <==> Delivers(st.drain, u, s));
    }
  }

  lemma PopHands(feeds: Feeds, st: State, st': State, t: Drain.Tid)
    requires |st.phases| == |st.drain.threads| && PhasesOk(feeds, st) && PopsFor(st.drain, st'.drain, t)
    requires st'.phases == st.phases && st'.delivered == st.delivered && st'.processed == st.processed
    ensures PhasesOk(feeds, st') && SameHands(feeds, st, st')
  {
    assert forall u :: Reaches(feeds, st.drain, u) ==> u != t;
  }

  lemma PopKeeps(c: Contract, feeds: Feeds, st: State, st': State, t: Drain.Tid)
    requires Required(c) != {} && |st.phases| == |st.drain.threads| && JoinSide(c, feeds, st)
    requires PopsFor(st.drain, st'.drain, t)
    requires st'.phases == st.phases && st'.delivered == st.delivered && st'.processed == st.processed
    ensures JoinSide(c, feeds, st')
  {
    PopGiven(feeds, st, st', t);
    PopHands(feeds, st, st', t);
    HandsFrame(c, feeds, st, st');
  }

  /** The end of a delivery moves its packet to what the stream has delivered. */
  ghost predicate DeliversFor(st: Drain.State, st': Drain.State, t: Drain.Tid, s: Drain.Stream) {
    && t < |st.threads| == |st'.threads| && st'.cancelled == st.cancelled
    && Delivers(st, t, s) && !st'.threads[t].drain.Delivering?
    && s < |st.delivered| && st'.delivered == st.delivered[s := st.delivered[s] + [st.threads[t].drain.item]]
    && (forall u :: 0 <= u < |st.threads| && u != t ==> st'.threads[u] == st.threads[u])
  }

  lemma DeliverStep(st: Drain.State, t: Drain.Tid, fails: bool)
    requires Drain.WellFormed(st) && Drain.Enabled(st, Drain.Deliver(t, fails))
    ensures DeliversFor(st, Drain.Apply(st, Drain.Deliver(t, fails)), t, st.threads[t].drain.s)
  {
  }

  /** No other thread is delivering a packet of the stream. */
  ghost predicate OnlyDelivers(st: Drain.State, t: Drain.Tid, s: Drain.Stream) {
    forall u :: Delivers(st, u, s) ==> u == t
  }

  lemma DeliverGiven(feeds: Feeds, st: State, st': State, t: Drain.Tid, s0: Drain.Stream)
    requires |st.phases| == |st.drain.threads| && AllGiven(feeds, st) && DeliversFor(st.drain, st'.drain, t, s0)
    requires OnlyDelivers(st.drain, t, s0) && (s0 in feeds ==> st.phases[t] == Past)
    requires st'.phases == st.phases[t := Before] && st'.delivered == st.delivered
    ensures AllGiven(feeds, st')
  {
    forall s | s in feeds
      ensures s < |st'.drain.delivered| && Given(feeds, st', s)
    {
      assert Given(feeds, st, s);
      assert forall u :: u != t ==> (Delivers(st'.drain, u, s) <==> Delivers(st.drain, u, s));
    }
  }

  lemma DeliverHands(feeds: Feeds, st: State, st': State, t: Drain.Tid, s0: Drain.Stream)
    requires |st.phases| == |st.drain.threads| && PhasesOk(feeds, st) && DeliversFor(st.drain, st'.drain, t, s0)
    requires s0 in feeds ==> st.phases[t] == Past
    requires st'.phases == st.phases[t := Before] && st'.delivered == st.delivered && st'.processed == st.processed
    ensures PhasesOk(feeds, st') && SameHands(feeds, st, st')
  {
    assert !st.phases[t].InHand();
  }

  lemma DeliverKeeps(c: Contract, feeds: Feeds, st: State, st': State, t: Drain.Tid, s0: Drain.Stream)
    requires Required(c) != {} && |st.phases| == |st.drain.threads| && JoinSide(c, feeds, st)
    requires DeliversFor(st.drain, st'.drain, t, s0) && OnlyDelivers(st.drain, t, s0)
    requires s0 in feeds ==> st.phases[t] == Past
    requires st'.phases == st.phases[t := Before] && st'.delivered == st.delivered && st'.processed == st.processed
    ensures JoinSide(c, feeds, st')
  {
    DeliverGiven(feeds, st, st', t, s0);
    DeliverHands(feeds, st, st', t, s0);
    HandsFrame(c, feeds, st, st');
  }

  lemma OnlyDrain(st: Drain.State, own: seq<Drain.Owner>, t: Drain.Tid, s: Drain.Stream)
    requires Drain.WellFormed(st) && Drain.OwnedBy(st, own) && Delivers(st, t, s)
    ensures OnlyDelivers(st, t, s)
  {
    forall u | Delivers(st, u, s)
      ensures u == t
    {
      OneDrain(st, own, t, u, s);
    }
  }

  lemma DeliverSide(c: Contract, feeds: Feeds, cfg: Queues, st: State, t: Drain.Tid, fails: bool)
    requires Required(c) != {} && WellFormed(cfg, st) && Drain.OwnedBy(st.drain, st.own) && JoinSide(c, feeds, st)
    requires DrainEnabled(feeds, cfg, st, Drain.Deliver(t, fails))
    ensures
      var st' := Apply(c, feeds, cfg, st, DrainStep(Drain.Deliver(t, fails)));
      |st'.phases| == |st'.drain.threads| && JoinSide(c, feeds, st')
  {
    var s := st.drain.threads[t].drain.s;
    DeliverStep(st.drain, t, fails);
    OnlyDrain(st.drain, st.own, t, s);
    DeliverKeeps(c, feeds, st, Apply(c, feeds, cfg, st, DrainStep(Drain.Deliver(t, fails))), t, s);
  }

  lemma QuietSide(c: Contract, feeds: Feeds, cfg: Queues, st: State, step: Drain.Step)
    requires Required(c) != {} && WellFormed(cfg, st) && JoinSide(c, feeds, st)
    requires DrainEnabled(feeds, cfg, st, step) && !step.Deliver?
    ensures
      var st' := Apply(c, feeds, cfg, st, DrainStep(step));
      |st'.phases| == |st'.drain.threads| && JoinSide(c, feeds, st')
  {
    var st' := Apply(c, feeds, cfg, st, DrainStep(step));
    if step.PopOne? {
      PopStep(st.drain, step.t);
      PopKeeps(c, feeds, st, st', step.t);
    } else {
      QuietStep(st.drain, step);
      CancelStays(st.drain, step);
      QuietKeeps(c, feeds, st, st');
    }
  }

  // ---------------------------------------------------------------------------
  // The edges
  // ---------------------------------------------------------------------------

  /** An edge step that takes nothing in and lets nothing out leaves the protocol's queue alone. */
  lemma EdgeStepLinked(
    strict: bool, q: Pipeline.QueueConfig, e: Edges.Edge, queue: seq<Packet>, popped: seq<Packet>, step: Edges.Step)
    requires Linked(strict, q.capacity, e, queue, popped) && !step.Pop? && (step.Push? ==> !Accepts(q, e))
    requires strict && step.Validate? && !step.packet.IsControl() ==> step.packet.ts != e.st.last
    ensures Linked(strict, q.capacity, EdgeAfter(q, e, step), queue, popped)
  {
    Pipeline.EdgeStepKeeps(strict, q.capacity, q.policy, e, step);
  }

  lemma ProduceLinked(
    strict: bool, q: Pipeline.QueueConfig, e: Edges.Edge, queue: seq<Packet>, popped: seq<Packet>,
    item: Packet, displace: bool)
    requires Linked(strict, q.capacity, e, queue, popped) && Takes(q, e, item, displace)
    requires displace ==> queue != []
    ensures
      var kept := if displace then queue[1..] else queue;
      Linked(strict, q.capacity, EdgeAfter(q, e, Edges.Push), kept + [item], popped)
  {
    Pipeline.EdgeStepKeeps(strict, q.capacity, q.policy, e, Edges.Push);
    Edges.AttemptShape(q.capacity, q.policy, e.st.queue, item);
  }

  lemma PopLinked(strict: bool, q: Pipeline.QueueConfig, e: Edges.Edge, queue: seq<Packet>, popped: seq<Packet>)
    requires Linked(strict, q.capacity, e, queue, popped)
    ensures
      if queue == [] then Linked(strict, q.capacity, EdgeAfter(q, e, Edges.Pop), queue, popped)
      else Linked(strict, q.capacity, EdgeAfter(q, e, Edges.Pop), queue[1..], popped + [queue[0]])
  {
    Pipeline.EdgeStepKeeps(strict, q.capacity, q.policy, e, Edges.Pop);
  }

  /** One stream's edge and queue move together and the others stay. */
  lemma OneStreamMoves(c: Contract, feeds: Feeds, cfg: Queues, st: State, st': State, s: Drain.Stream)
    requires WellFormed(cfg, st) && WellFormed(cfg, st') && EdgeSide(c, feeds, cfg, st) && s < |cfg|
    requires st'.edges == st.edges[s := st'.edges[s]]
    requires st'.drain.queues == st.drain.queues[s := st'.drain.queues[s]]
    requires st'.drain.popped == st.drain.popped[s := st'.drain.popped[s]]
    requires Linked(Strict(c, feeds, s), cfg[s].capacity, st'.edges[s], st'.drain.queues[s], st'.drain.popped[s])
    ensures EdgeSide(c, feeds, cfg, st')
  {
    forall r | 0 <= r < |cfg|
      ensures Linked(Strict(c, feeds, r), cfg[r].capacity, st'.edges[r], st'.drain.queues[r], st'.drain.popped[r])
    {
      if r != s {
        assert Linked(Strict(c, feeds, r), cfg[r].capacity, st.edges[r], st.drain.queues[r], st.drain.popped[r]);
      }
    }
  }

  lemma QueuesRest(st: Drain.State, step: Drain.Step)
    requires Drain.WellFormed(st) && Drain.Enabled(st, step) && !step.Produce? && !step.PopOne?
    ensures Drain.Apply(st, step).queues == st.queues && Drain.Apply(st, step).popped == st.popped
  {
  }

  lemma ProduceSide(c: Contract, feeds: Feeds, cfg: Queues, st: State, st': State, step: Drain.Step)
    requires WellFormed(cfg, st) && WellFormed(cfg, st') && EdgeSide(c, feeds, cfg, st)
    requires DrainEnabled(feeds, cfg, st, step) && step.Produce?
    requires st'.drain == Drain.Apply(st.drain, step) && st'.edges == NextEdges(cfg, st, step)
    ensures EdgeSide(c, feeds, cfg, st')
  {
    var s := step.s;
    ProduceLinked(
      Strict(c, feeds, s), cfg[s], st.edges[s], st.drain.queues[s], st.drain.popped[s], step.item, step.displace);
    OneStreamMoves(c, feeds, cfg, st, st', s);
  }

  lemma PopSide(c: Contract, feeds: Feeds, cfg: Queues, st: State, st': State, step: Drain.Step)
    requires WellFormed(cfg, st) && WellFormed(cfg, st') && EdgeSide(c, feeds, cfg, st)
    requires DrainEnabled(feeds, cfg, st, step) && step.PopOne?
    requires st'.drain == Drain.Apply(st.drain, step) && st'.edges == NextEdges(cfg, st, step)
    ensures EdgeSide(c, feeds, cfg, st')
  {
    var s := st.drain.threads[step.t].drain.s;
    PopLinked(Strict(c, feeds, s), cfg[s], st.edges[s], st.drain.queues[s], st.drain.popped[s]);
    OneStreamMoves(c, feeds, cfg, st, st', s);
  }

  lemma EdgeSideAfter(c: Contract, feeds: Feeds, cfg: Queues, st: State, step: Drain.Step)
    requires WellFormed(cfg, st) && EdgeSide(c, feeds, cfg, st) && DrainEnabled(feeds, cfg, st, step)
    requires WellFormed(cfg, Apply(c, feeds, cfg, st, DrainStep(step)))
    ensures EdgeSide(c, feeds, cfg, Apply(c, feeds, cfg, st, DrainStep(step)))
  {
    var st' := Apply(c, feeds, cfg, st, DrainStep(step));
    if step.Produce? {
      ProduceSide(c, feeds, cfg, st, st', step);
    } else if step.PopOne? {
      PopSide(c, feeds, cfg, st, st', step);
    } else {
      QueuesRest(st.drain, step);
    }
  }

  lemma DrainKeeps(c: Contract, feeds: Feeds, cfg: Queues, st: State, step: Drain.Step)
    requires Required(c) != {} && Inv(c, feeds, cfg, st) && DrainEnabled(feeds, cfg, st, step)
    ensures Inv(c, feeds, cfg, Apply(c, feeds, cfg, st, DrainStep(step)))
  {
    Drain.StepKeepsInv(st.drain, st.own, step);
    DrainSide(c, feeds, cfg, st, step);
    StaysWellFormed(c, feeds, cfg, st, step);
    EdgeSideAfter(c, feeds, cfg, st, step);
  }

  lemma DrainSide(c: Contract, feeds: Feeds, cfg: Queues, st: State, step: Drain.Step)
    requires Required(c) != {} && WellFormed(cfg, st) && Drain.OwnedBy(st.drain, st.own) && JoinSide(c, feeds, st)
    requires DrainEnabled(feeds, cfg, st, step)
    ensures
      var st' := Apply(c, feeds, cfg, st, DrainStep(step));
      |st'.phases| == |st'.drain.threads| && JoinSide(c, feeds, st')
  {
    if step.Deliver? {
      DeliverSide(c, feeds, cfg, st, step.t, step.fails);
    } else {
      QuietSide(c, feeds, cfg, st, step);
    }
  }

  lemma StaysWellFormed(c: Contract, feeds: Feeds, cfg: Queues, st: State, step: Drain.Step)
    requires WellFormed(cfg, st) && DrainEnabled(feeds, cfg, st, step)
    ensures WellFormed(cfg, Apply(c, feeds, cfg, st, DrainStep(step)))
  {
    Drain.StepKeepsWellFormed(st.drain, step);
  }

  /** All that is asked of emitters beyond the edge's own checks: a required port sees no data timestamp twice. */
  predicate Ascending(c: Contract, feeds: Feeds, st: State, step: Step) {
    match step
    case EdgeStep(s, Validate(packet)) =>
      Strict(c, feeds, s) && s < |st.edges| && !packet.IsControl() ==> packet.ts != st.edges[s].st.last
    case _ => true
  }

  lemma EdgeKeeps(c: Contract, feeds: Feeds, cfg: Queues, st: State, s: Drain.Stream, step: Edges.Step)
    requires Required(c) != {} && Inv(c, feeds, cfg, st) && Enabled(feeds, cfg, st, EdgeStep(s, step))
    requires Ascending(c, feeds, st, EdgeStep(s, step))
    ensures Inv(c, feeds, cfg, Apply(c, feeds, cfg, st, EdgeStep(s, step)))
  {
    EdgeMoves(c, feeds, cfg, st, s, step);
    QuietKeeps(c, feeds, st, Apply(c, feeds, cfg, st, EdgeStep(s, step)));
  }

  lemma EdgeMoves(c: Contract, feeds: Feeds, cfg: Queues, st: State, s: Drain.Stream, step: Edges.Step)
    requires WellFormed(cfg, st) && EdgeSide(c, feeds, cfg, st) && Enabled(feeds, cfg, st, EdgeStep(s, step))
    requires Ascending(c, feeds, st, EdgeStep(s, step))
    ensures
      var st' := Apply(c, feeds, cfg, st, EdgeStep(s, step));
      WellFormed(cfg, st') && EdgeSide(c, feeds, cfg, st')
  {
    EdgeStepLinked(Strict(c, feeds, s), cfg[s], st.edges[s], st.drain.queues[s], st.drain.popped[s], step);
    OneStreamMoves(c, feeds, cfg, st, Apply(c, feeds, cfg, st, EdgeStep(s, step)), s);
  }

  // ---------------------------------------------------------------------------
  // The join
  // ---------------------------------------------------------------------------

  /** What a required port's stream lets out is disciplined and never repeats a data timestamp. */
  lemma StreamsAscend(c: Contract, feeds: Feeds, cfg: Queues, st: State, s: Drain.Stream)
    requires WellFormed(cfg, st) && EdgeSide(c, feeds, cfg, st) && s < |cfg| && Strict(c, feeds, s)
    ensures Edges.StreamDiscipline(st.drain.popped[s]) && Pairwise(Pipeline.Ascends, st.drain.popped[s])
  {
    assert Linked(true, cfg[s].capacity, st.edges[s], st.drain.queues[s], st.drain.popped[s]);
    Pipeline.PoppedIsDisciplined(cfg[s].capacity, st.edges[s]);
  }

  /** The packet being delivered is the one popped after those already delivered. */
  lemma InFlightIsNext(st: Drain.State, own: seq<Drain.Owner>, t: Drain.Tid, s: Drain.Stream)
    requires Drain.WellFormed(st) && Drain.OwnedBy(st, own) && Drain.InOrder(st, own) && Delivers(st, t, s)
    ensures s < |st.popped| == |st.delivered| && st.popped[s] == st.delivered[s] + [st.threads[t].drain.item]
  {
    assert s < |own| && Drain.Drains(st.threads[t], s);
    assert own[s] == Drain.Drainer(t);
  }

  lemma NextIsDisciplined(c: Contract, h: History, p: Port, past: seq<Packet>, item: Packet)
    requires OnPort(h, p) == Addressed(p, past)
    requires p in Required(c) ==> Edges.StreamDiscipline(past + [item]) && Pairwise(Pipeline.Ascends, past + [item])
    ensures InDiscipline(c, h, Delivery(p, item))
  {
    if p in Required(c) && !item.IsControl() {
      var all := past + [item];
      forall i | 0 <= i < |OnPort(h, p)|
        ensures Edges.Follows(OnPort(h, p)[i].packet, item) && Pipeline.Ascends(OnPort(h, p)[i].packet, item)
      {
        assert OnPort(h, p)[i].packet == all[i] && all[|past|] == item;
        assert Edges.Follows(all[i], all[|past|]) && Pipeline.Ascends(all[i], all[|past|]);
      }
      Pipeline.PortDecides(h, p, item);
    }
  }

  lemma JoinGiven(feeds: Feeds, st: State, st': State, t: Drain.Tid, s0: Drain.Stream)
    requires OneFeeder(feeds) && |st.phases| == |st.drain.threads| && AllGiven(feeds, st)
    requires s0 in feeds && Delivers(st.drain, t, s0) && OnlyDelivers(st.drain, t, s0) && st.phases[t] == Before
    requires st'.drain == st.drain && |st'.phases| == |st.phases| && st'.phases[t] != Before
    requires forall u :: 0 <= u < |st.phases| && u != t ==> st'.phases[u] == st.phases[u]
    requires st'.delivered == st.delivered + [Delivery(feeds[s0], st.drain.threads[t].drain.item)]
    ensures AllGiven(feeds, st')
  {
    var d := Delivery(feeds[s0], st.drain.threads[t].drain.item);
    forall s | s in feeds
      ensures s < |st'.drain.delivered| && Given(feeds, st', s)
    {
      assert Given(feeds, st, s);
      Pipeline.OnPortStep(st.delivered, d, feeds[s]);
      if s == s0 {
        var past := st.drain.delivered[s];
        assert forall u :: Delivers(st.drain, u, s) ==> st.phases[u] == Before;
        assert Addressed(feeds[s], past) + [d] == Addressed(feeds[s], past + [st.drain.threads[t].drain.item]);
      } else {
        assert feeds[s] != feeds[s0] && !Delivers(st.drain, t, s);
      }
    }
  }

  /** What a call tells about the delivery that led to it. */
  lemma CallFacts(c: Contract, h: History, d: Delivery)
    requires Required(c) != {} && Disciplined(c, h) && InDiscipline(c, h, d)
    ensures
      var called := Called(c, h + [d]);
      called != [] ==>
        match called[0]
        case Data(m) => d.port in Required(c) && IsDatum(d) && m.ts == d.packet.ts && m.ts in Intersection(c, h + [d])
        case End => !(Required(c) <= ClosedBy(h)) && Required(c) <= ClosedBy(h + [d])
    ensures Required(c) <= ClosedBy(h) ==> Called(c, h + [d]) == []
  {
    Unfold(h, d);
    SyncJoinRuns.RunKeepsInv(c, h);
    StepKeeps(c, h, d, StateAfter(c, h));
    if Required(c) <= ClosedBy(h) {
      EosExactlyOnce(c, h + [d]);
    }
  }

  lemma NewlyHeld(c: Contract, h: History, d: Delivery)
    requires Required(c) != {} && Disciplined(c, h) && InDiscipline(c, h, d) && Called(c, h + [d]) != []
    ensures HeldFor(c, h + [d], d.port, Called(c, h + [d])[0])
  {
    CallFacts(c, h, d);
    Unfold(h, d);
  }

  /** What is held for one port stays so while other ports deliver. */
  lemma StillHeld(c: Contract, h: History, d: Delivery, p: Port, call: Call)
    requires Required(c) != {} && HeldFor(c, h, p, call) && d.port != p
    ensures HeldFor(c, h + [d], p, call)
  {
    Unfold(h, d);
    IntersectionStep(c, h, d);
  }

  /** While a call is held for one port, no delivery on another port leads to a call. */
  lemma NoSecondCall(c: Contract, h: History, d: Delivery, p: Port, call: Call)
    requires Required(c) != {} && Disciplined(c, h) && InDiscipline(c, h, d) && HeldFor(c, h, p, call) && d.port != p
    ensures Called(c, h + [d]) == []
  {
    CallFacts(c, h, d);
    Unfold(h, d);
    assert call.Data? ==> p in Required(c) && p !in ClosedBy(h + [d]);
    if call.Data? && d.port in Required(c) && IsDatum(d) {
      LaterMatchNeedsPort(c, h, d, p, call);
    }
  }

  /** A new match needs a later datum of the port whose match is in hand. */
  lemma LaterMatchNeedsPort(c: Contract, h: History, d: Delivery, p: Port, call: Call)
    requires Required(c) != {} && InDiscipline(c, h, d) && HeldFor(c, h, p, call) && d.port != p && call.Data?
    requires d.port in Required(c) && IsDatum(d)
    ensures d.packet.ts as int !in Intersection(c, h + [d])
  {
    Unfold(h, d);
    AscendsPast(c, h, d);
    IntersectionMeaning(c, h + [d], d.packet.ts);
    assert call.inputs.ts in Intersection(c, h);
  }

  lemma JoinHolders(c: Contract, feeds: Feeds, st: State, st': State, t: Drain.Tid, d: Delivery)
    requires Required(c) != {} && OneFeeder(feeds) && |st.phases| == |st.drain.threads| && HoldersOk(c, feeds, st)
    requires Disciplined(c, st.delivered) && InDiscipline(c, st.delivered, d)
    requires Reaches(feeds, st.drain, t) && d == DeliveryOf(feeds, st.drain, t) && st.phases[t] == Before
    requires st' == Joined(c, st, t, d)
    requires forall u :: 0 <= u < |st.phases| && st.phases[u].InHand() && Reaches(feeds, st.drain, u) ==>
      DeliveryOf(feeds, st.drain, u).port != d.port
    ensures HoldersOk(c, feeds, st')
    ensures SomeInHand(st.phases) ==> Called(c, st.delivered + [d]) == []
  {
    var h := st.delivered;
    forall u | 0 <= u < |st.phases| && st.phases[u].InHand()
      ensures Called(c, h + [d]) == []
      ensures HeldFor(c, h + [d], DeliveryOf(feeds, st.drain, u).port, st.phases[u].call)
    {
      var p := DeliveryOf(feeds, st.drain, u).port;
      NoSecondCall(c, h, d, p, st.phases[u].call);
      StillHeld(c, h, d, p, st.phases[u].call);
    }
    if Called(c, h + [d]) != [] {
      NewlyHeld(c, h, d);
    }
  }

  ghost predicate SomeInHand(phases: seq<Phase>) {
    exists t :: 0 <= t < |phases| && phases[t].InHand()
  }

  lemma CallIsHeld(processed: seq<Call>, phases: seq<Phase>, calls: seq<Call>, t: nat, called: seq<Call>)
    requires t < |phases| && !phases[t].InHand() && MadeOrHeld(processed, phases, calls)
    requires |called| <= 1 && (SomeInHand(phases) ==> called == [])
    ensures MadeOrHeld(processed, phases[t := if called == [] then Past else Holding(called[0])], calls + called)
  {
    var phases' := phases[t := if called == [] then Past else Holding(called[0])];
    if called == [] {
      assert calls + called == calls;
      assert forall u :: 0 <= u < |phases| ==> (phases'[u].InHand() <==> phases[u].InHand());
    } else {
      assert called == [called[0]] && phases'[t].InHand();
    }
  }

  lemma MoreCalls(processed: seq<Call>, phases: seq<Phase>, calls: seq<Call>, t: nat, called: seq<Call>)
    requires t < |phases| && MadeFirst(processed, phases, calls)
    ensures MadeFirst(processed, phases[t := if called == [] then Past else Holding(called[0])], calls + called)
  {
  }

  lemma JoinCalls(c: Contract, st: State, t: Drain.Tid, d: Delivery)
    requires t < |st.phases| && CallsInOrder(c, st) && !st.phases[t].InHand()
    requires SomeInHand(st.phases) ==> Called(c, st.delivered + [d]) == []
    ensures CallsInOrder(c, Joined(c, st, t, d))
  {
    Unfold(st.delivered, d);
    if !st.drain.cancelled {
      CallIsHeld(st.processed, st.phases, Calls(c, st.delivered), t, Called(c, st.delivered + [d]));
    }
    MoreCalls(st.processed, st.phases, Calls(c, st.delivered), t, Called(c, st.delivered + [d]));
  }

  lemma JoinSideAfter(c: Contract, feeds: Feeds, st: State, t: Drain.Tid, s: Drain.Stream)
    requires Required(c) != {} && OneFeeder(feeds) && |st.phases| == |st.drain.threads| && JoinSide(c, feeds, st)
    requires s in feeds && Delivers(st.drain, t, s) && OnlyDelivers(st.drain, t, s) && st.phases[t] == Before
    requires InDiscipline(c, st.delivered, DeliveryOf(feeds, st.drain, t))
    ensures JoinSide(c, feeds, Joined(c, st, t, DeliveryOf(feeds, st.drain, t)))
  {
    var d := DeliveryOf(feeds, st.drain, t);
    var st' := Joined(c, st, t, d);
    JoinGiven(feeds, st, st', t, s);
    OtherPorts(feeds, st, t, s);
    JoinHolders(c, feeds, st, st', t, d);
    JoinCalls(c, st, t, d);
    Unfold(st.delivered, d);
  }

  lemma JoinKeeps(c: Contract, feeds: Feeds, cfg: Queues, st: State, t: Drain.Tid)
    requires Required(c) != {} && OneFeeder(feeds) && Inv(c, feeds, cfg, st)
    requires Enabled(feeds, cfg, st, JoinStep(t))
    ensures Inv(c, feeds, cfg, Apply(c, feeds, cfg, st, JoinStep(t)))
  {
    var s := st.drain.threads[t].drain.s;
    InFlightIsNext(st.drain, st.own, t, s);
    OnlyDrain(st.drain, st.own, t, s);
    BeforeIsGiven(feeds, st, t, s);
    if Strict(c, feeds, s) {
      StreamsAscend(c, feeds, cfg, st, s);
    }
    NextIsDisciplined(c, st.delivered, feeds[s], st.drain.delivered[s], st.drain.threads[t].drain.item);
    JoinSideAfter(c, feeds, st, t, s);
  }

  lemma BeforeIsGiven(feeds: Feeds, st: State, t: Drain.Tid, s: Drain.Stream)
    requires |st.phases| == |st.drain.threads| && AllGiven(feeds, st) && s in feeds
    requires Delivers(st.drain, t, s) && OnlyDelivers(st.drain, t, s) && st.phases[t] == Before
    ensures s < |st.drain.delivered| && OnPort(st.delivered, feeds[s]) == Addressed(feeds[s], st.drain.delivered[s])
  {
    assert Given(feeds, st, s);
    assert forall u :: Delivers(st.drain, u, s) ==> st.phases[u] == Before;
  }

  lemma OtherPorts(feeds: Feeds, st: State, t: Drain.Tid, s: Drain.Stream)
    requires OneFeeder(feeds) && |st.phases| == |st.drain.threads| && s in feeds && Delivers(st.drain, t, s)
    requires OnlyDelivers(st.drain, t, s) && st.phases[t] == Before
    ensures forall u :: 0 <= u < |st.phases| && st.phases[u].InHand() && Reaches(feeds, st.drain, u) ==>
      DeliveryOf(feeds, st.drain, u).port != feeds[s]
  {
    forall u | 0 <= u < |st.phases| && st.phases[u].InHand() && Reaches(feeds, st.drain, u)
      ensures DeliveryOf(feeds, st.drain, u).port != feeds[s]
    {
      assert Delivers(st.drain, u, st.drain.threads[u].drain.s);
    }
  }

  // ---------------------------------------------------------------------------
  // The node's calls
  // ---------------------------------------------------------------------------

  lemma CallIsMade(processed: seq<Call>, phases: seq<Phase>, calls: seq<Call>, t: nat)
    requires t < |phases| && phases[t].InHand() && MadeOrHeld(processed, phases, calls)
    requires forall u :: 0 <= u < |phases| && phases[u].InHand() ==> u == t
    ensures MadeOrHeld(processed + [phases[t].call], phases[t := Past], calls)
  {
  }

  lemma CallIsFirst(processed: seq<Call>, phases: seq<Phase>, calls: seq<Call>, t: nat)
    requires t < |phases| && phases[t].Entering? && MadeFirst(processed, phases, calls)
    requires forall u :: 0 <= u < |phases| && phases[u].InHand() ==> u == t
    ensures MadeFirst(processed + [phases[t].call], phases[t := Past], calls)
  {
  }

  lemma CallEnters(processed: seq<Call>, phases: seq<Phase>, calls: seq<Call>, t: nat)
    requires t < |phases| && phases[t].Holding? && MadeOrHeld(processed, phases, calls)
    requires MadeFirst(processed, phases, calls)
    ensures MadeOrHeld(processed, phases[t := Entering(phases[t].call)], calls)
    ensures MadeFirst(processed, phases[t := Entering(phases[t].call)], calls)
  {
    var phases' := phases[t := Entering(phases[t].call)];
    assert phases'[t].InHand();
  }

  /** A delivery past the join stays so. */
  lemma PastIsGiven(feeds: Feeds, st: State, st': State, t: Drain.Tid)
    requires |st.phases| == |st.drain.threads| && AllGiven(feeds, st) && t < |st.phases| && st.phases[t] != Before
    requires st'.drain == st.drain && st'.delivered == st.delivered
    requires |st'.phases| == |st.phases| && st'.phases[t] != Before && st'.phases == st.phases[t := st'.phases[t]]
    ensures AllGiven(feeds, st')
  {
    forall s | s in feeds
      ensures s < |st'.drain.delivered| && Given(feeds, st', s)
    {
      assert Given(feeds, st, s);
      assert forall u :: 0 <= u < |st.phases| ==> (st'.phases[u] == Before <==> st.phases[u] == Before);
    }
  }

  /** A call stays in the same hand, or leaves it and no other is in hand. */
  lemma HandKeeps(c: Contract, feeds: Feeds, st: State, st': State, t: Drain.Tid)
    requires Required(c) != {} && |st.phases| == |st.drain.threads| && HoldersOk(c, feeds, st) && PhasesOk(feeds, st)
    requires t < |st.phases| && st.phases[t].InHand() && st'.drain == st.drain && st'.delivered == st.delivered
    requires st'.phases == st.phases[t := Past] || st'.phases == st.phases[t := Entering(st.phases[t].call)]
    ensures HoldersOk(c, feeds, st') && PhasesOk(feeds, st')
  {
    assert forall u :: 0 <= u < |st.phases| && st'.phases[u].InHand() ==>
      u == t && st'.phases[u].call == st.phases[u].call;
  }

  lemma TestSide(c: Contract, feeds: Feeds, st: State, st': State, t: Drain.Tid)
    requires Required(c) != {} && |st.phases| == |st.drain.threads| && JoinSide(c, feeds, st)
    requires t < |st.phases| && st.phases[t].Holding?
    requires st' == st.(phases := st.phases[t := if st.drain.cancelled then Past else Entering(st.phases[t].call)])
    ensures JoinSide(c, feeds, st')
  {
    PastIsGiven(feeds, st, st', t);
    HandKeeps(c, feeds, st, st', t);
    if !st.drain.cancelled {
      CallEnters(st.processed, st.phases, Calls(c, st.delivered), t);
    }
  }

  lemma ProcessSide(c: Contract, feeds: Feeds, st: State, st': State, t: Drain.Tid)
    requires Required(c) != {} && |st.phases| == |st.drain.threads| && JoinSide(c, feeds, st)
    requires t < |st.phases| && st.phases[t].Entering?
    requires st' == st.(processed := st.processed + [st.phases[t].call], phases := st.phases[t := Past])
    ensures JoinSide(c, feeds, st')
  {
    PastIsGiven(feeds, st, st', t);
    HandKeeps(c, feeds, st, st', t);
    if !st.drain.cancelled {
      CallIsMade(st.processed, st.phases, Calls(c, st.delivered), t);
    }
    CallIsFirst(st.processed, st.phases, Calls(c, st.delivered), t);
  }

  lemma StepKeepsInv(c: Contract, feeds: Feeds, cfg: Queues, st: State, step: Step)
    requires Required(c) != {} && OneFeeder(feeds) && Inv(c, feeds, cfg, st)
    requires Enabled(feeds, cfg, st, step) && Ascending(c, feeds, st, step)
    ensures Inv(c, feeds, cfg, Apply(c, feeds, cfg, st, step))
  {
    match step
    case DrainStep(s) => DrainKeeps(c, feeds, cfg, st, s);
    case EdgeStep(s, e) => EdgeKeeps(c, feeds, cfg, st, s, e);
    case JoinStep(t) => JoinKeeps(c, feeds, cfg, st, t);
    case TestStep(t) => TestSide(c, feeds, st, Apply(c, feeds, cfg, st, step), t);
    case ProcessStep(t) => ProcessSide(c, feeds, st, Apply(c, feeds, cfg, st, step), t);
  }

  lemma StartDrain(streams: nat, threads: nat)
    ensures Drain.Inv(Init(streams, threads).drain, Init(streams, threads).own)
  {
  }

  lemma StartEdges(c: Contract, feeds: Feeds, cfg: Queues, threads: nat)
    ensures WellFormed(cfg, Init(|cfg|, threads)) && EdgeSide(c, feeds, cfg, Init(|cfg|, threads))
  {
  }

  lemma StartJoin(c: Contract, feeds: Feeds, streams: nat, threads: nat)
    requires Required(c) != {} && forall s :: s in feeds ==> s < streams
    ensures |Init(streams, threads).phases| == |Init(streams, threads).drain.threads|
    ensures JoinSide(c, feeds, Init(streams, threads))
  {
    var st := Init(streams, threads);
    assert forall t, s :: !Delivers(st.drain, t, s);
  }

  lemma StartInv(c: Contract, feeds: Feeds, cfg: Queues, threads: nat)
    requires Required(c) != {} && forall s :: s in feeds ==> s < |cfg|
    ensures Inv(c, feeds, cfg, Init(|cfg|, threads))
  {
    StartDrain(|cfg|, threads);
    StartEdges(c, feeds, cfg, threads);
    StartJoin(c, feeds, |cfg|, threads);
  }

  lemma FirstInv(c: Contract, feeds: Feeds, cfg: Queues, threads: nat, run: seq<State>, steps: seq<Step>)
    requires Required(c) != {} && IsRun(c, feeds, cfg, threads, run, steps) && forall s :: s in feeds ==> s < |cfg|
    ensures Inv(c, feeds, cfg, run[0])
  {
    StartInv(c, feeds, cfg, threads);
  }

  ghost predicate AscendingRun(c: Contract, feeds: Feeds, run: seq<State>, steps: seq<Step>) {
    |steps| <= |run| && forall i {:trigger steps[i]} :: 0 <= i < |steps| ==> Ascending(c, feeds, run[i], steps[i])
  }

  lemma NextKeepsInv(c: Contract, feeds: Feeds, cfg: Queues, threads: nat, run: seq<State>, steps: seq<Step>, k: nat)
    requires Required(c) != {} && OneFeeder(feeds) && IsRun(c, feeds, cfg, threads, run, steps)
    requires AscendingRun(c, feeds, run, steps) && 0 < k < |run| && Inv(c, feeds, cfg, run[k - 1])
    ensures Inv(c, feeds, cfg, run[k])
  {
    StepKeepsInv(c, feeds, cfg, run[k - 1], steps[k - 1]);
  }

  lemma {:induction false} RunKeepsInv(
    c: Contract, feeds: Feeds, cfg: Queues, threads: nat, run: seq<State>, steps: seq<Step>, k: nat)
    requires Required(c) != {} && OneFeeder(feeds) && IsRun(c, feeds, cfg, threads, run, steps) && k < |run|
    requires (forall s :: s in feeds ==> s < |cfg|) && AscendingRun(c, feeds, run, steps)
    ensures Inv(c, feeds, cfg, run[k])
  {
    if k == 0 {
      FirstInv(c, feeds, cfg, threads, run, steps);
    } else {
      RunKeepsInv(c, feeds, cfg, threads, run, steps, k - 1);
      NextKeepsInv(c, feeds, cfg, threads, run, steps, k);
    }
  }

  // ---------------------------------------------------------------------------
  // Main result
  // ---------------------------------------------------------------------------

  function DataOf(calls: seq<Call>): seq<Matched> {
    if calls == [] then []
    else DataOf(Front(calls)) + if Final(calls).Data? then [Final(calls).inputs] else []
  }

  lemma DataAppends(calls: seq<Call>, call: Call)
    ensures DataOf(calls + [call]) == DataOf(calls) + if call.Data? then [call.inputs] else []
  {
    assert Front(calls + [call]) == calls;
  }

  /** What the last delivery adds to the calls and to what is handed out is the same data. */
  lemma CallIsHandedOut(c: Contract, h: History)
    requires h != []
    ensures |Called(c, h)| <= 1
    ensures HandedOut(c, h) ==
      HandedOut(c, Front(h)) +
      if Called(c, h) != [] && Called(c, h)[0].Data? then [Called(c, h)[0].inputs] else []
  {
    assert HandedOut(c, Front(h)) + [] == HandedOut(c, Front(h));
  }

  lemma DataStep(calls: seq<Call>, called: seq<Call>)
    requires |called| <= 1
    ensures DataOf(calls + called) == DataOf(calls) + if called != [] && called[0].Data? then [called[0].inputs] else []
  {
    if called == [] {
      assert calls + called == calls;
    } else {
      assert called == [called[0]];
      DataAppends(calls, called[0]);
    }
  }

  lemma {:induction false} CallsAreHandedOut(c: Contract, h: History)
    ensures DataOf(Calls(c, h)) == HandedOut(c, h)
  {
    if h != [] {
      CallsAreHandedOut(c, Front(h));
      CallIsHandedOut(c, h);
      DataStep(Calls(c, Front(h)), Called(c, h));
    }
  }

  ghost predicate EndsLast(calls: seq<Call>) {
    forall i :: 0 <= i < |calls| && calls[i] == End ==> i == |calls| - 1
  }

  lemma {:induction false} EndIsLast(c: Contract, h: History)
    requires Required(c) != {} && Disciplined(c, h)
    ensures EndsLast(Calls(c, h))
    ensures End in Calls(c, h) ==> Required(c) <= ClosedBy(h)
  {
    if h != [] {
      var before, d := Front(h), Final(h);
      assert h == before + [d];
      EndIsLast(c, before);
      CallFacts(c, before, d);
      Unfold(before, d);
      assert |Called(c, h)| <= 1;
    }
  }

  lemma {:induction false} EndIsCalled(c: Contract, h: History)
    ensures End in Calls(c, h) <==> EosCount(c, h) > 0
  {
    if h != [] {
      EndIsCalled(c, Front(h));
    }
  }

  /**
    For every interleaving of emitters, executors and drains, cancelled or not: the data sets the node has been called
    with are the first ones of the sorted intersection of what its required ports delivered, and the end of the streams,
    once called, is the last call. While the graph is not cancelled at most one call is missing, in the hand of a thread
    on its way to the node.
    */
  lemma NodeIsCalledInOrder(
    c: Contract, feeds: Feeds, cfg: Queues, threads: nat, run: seq<State>, steps: seq<Step>, k: nat)
    requires Required(c) != {} && OneFeeder(feeds) && IsRun(c, feeds, cfg, threads, run, steps) && k < |run|
    requires (forall s :: s in feeds ==> s < |cfg|) && AscendingRun(c, feeds, run, steps)
    ensures
      var called, expected := DataOf(run[k].processed), SortedIntersection(c, run[k].delivered);
      && called <= expected && EndsLast(run[k].processed)
      && (End in run[k].processed ==> Required(c) <= ClosedBy(run[k].delivered))
      && (!run[k].drain.cancelled ==> |expected| <= |called| + 1)
      && (!run[k].drain.cancelled && !SomeInHand(run[k].phases) ==>
            called == expected && (End in run[k].processed <==> Required(c) <= ClosedBy(run[k].delivered)))
  {
    var st := run[k];
    var calls := Calls(c, st.delivered);
    RunKeepsInv(c, feeds, cfg, threads, run, steps, k);
    JoinRefinesSortedIntersection(c, st.delivered);
    CallsAreHandedOut(c, st.delivered);
    EndIsLast(c, st.delivered);
    EndIsCalled(c, st.delivered);
    EosExactlyOnce(c, st.delivered);
    FirstCalls(st.processed, calls);
    if !st.drain.cancelled {
      MadeInOrder(st.processed, st.phases, calls);
    }
  }

  lemma {:induction false} FirstCalls(processed: seq<Call>, calls: seq<Call>)
    requires processed <= calls && EndsLast(calls)
    ensures DataOf(processed) <= DataOf(calls) && EndsLast(processed)
    ensures End in processed ==> End in calls
    decreases |calls|
  {
    if processed != calls {
      assert processed <= Front(calls);
      assert forall i :: 0 <= i < |Front(calls)| ==> Front(calls)[i] == calls[i];
      FirstCalls(processed, Front(calls));
    }
  }

  lemma MadeInOrder(processed: seq<Call>, phases: seq<Phase>, calls: seq<Call>)
    requires MadeOrHeld(processed, phases, calls)
    ensures |DataOf(calls)| <= |DataOf(processed)| + 1
    ensures !SomeInHand(phases) ==> processed == calls
  {
    if t :| 0 <= t < |phases| && phases[t].InHand() {
      DataAppends(processed, phases[t].call);
    }
  }

  /**
    What the node was given on a port is what the port's edge let out, in order and but for at most the packet a drain
    has in hand. What the edge let out is a subsequence of what it accepted, and its queue is within its capacity.
    */
  lemma StreamReachesNode(
    c: Contract, feeds: Feeds, cfg: Queues, threads: nat, run: seq<State>, steps: seq<Step>, k: nat, s: Drain.Stream)
    requires Required(c) != {} && OneFeeder(feeds) && IsRun(c, feeds, cfg, threads, run, steps) && k < |run|
    requires (forall r :: r in feeds ==> r < |cfg|) && s in feeds && AscendingRun(c, feeds, run, steps)
    ensures
      var e, h := run[k].edges[s], run[k].delivered;
      && Pipeline.GivenInOrder(h, feeds[s], e.popped) && |e.popped| <= |OnPort(h, feeds[s])| + 1
      && Subsequence(e.popped, e.accepted) && |e.st.queue.items| <= cfg[s].capacity
  {
    var st := run[k];
    RunKeepsInv(c, feeds, cfg, threads, run, steps, k);
    var e := st.edges[s];
    assert Linked(Strict(c, feeds, s), cfg[s].capacity, e, st.drain.queues[s], st.drain.popped[s]);
    Edges.SubsequencePrefix(e.popped, e.st.queue.items, e.accepted);
    GivenIsPopped(feeds, st, s);
  }

  lemma GivenIsPopped(feeds: Feeds, st: State, s: Drain.Stream)
    requires Drain.WellFormed(st.drain) && Drain.OwnedBy(st.drain, st.own) && Drain.InOrder(st.drain, st.own)
    requires |st.phases| == |st.drain.threads| && s in feeds && s < |st.drain.delivered| && Given(feeds, st, s)
    ensures s < |st.drain.popped| && Pipeline.GivenInOrder(st.delivered, feeds[s], st.drain.popped[s])
    ensures |st.drain.popped[s]| <= |OnPort(st.delivered, feeds[s])| + 1
  {
    var past := st.drain.delivered[s];
    if t :| Delivers(st.drain, t, s) && st.phases[t] != Before {
      InFlightIsNext(st.drain, st.own, t, s);
    } else {
      assert OnPort(st.delivered, feeds[s]) == Addressed(feeds[s], past);
    }
  }
}
