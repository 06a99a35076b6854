/**
  The batching node over whole runs: a worker that appends and flushes, a timer that flushes too, and the gap between
  taking a batch under the lock and emitting it after the lock is released.
  */
module AdaptiveBatches {
  import opened Packets
  import opened Sequences
  import opened RoundRobin

  datatype Config = Config(maxBatch: nat, maxPerSource: nat, timeout: nat, allowPartial: bool)

  ghost predicate Configured(c: Config) {
    c.maxBatch > 0 && c.maxPerSource > 0
  }

  /** The timer thread is started only with a timeout and partial batches allowed. */
  predicate TimerRuns(c: Config) {
    c.timeout > 0 && c.allowPartial
  }

  /** An item as it leaves in a batch, with its place in it. */
  datatype BatchItem = BatchItem(item: Item, index: nat)

  datatype Thread = Worker | Timer

  datatype Output = BatchOut(items: seq<Item>) | EosOut

  /** `full` is the worker's own note, taken under the lock, that it must flush before it appends again. */
  datatype Node = Node(
    pending: seq<Item>, workerHand: seq<Item>, timerHand: seq<Item>, full: bool,
    accepted: seq<Item>, limited: seq<Item>, batches: seq<seq<Item>>, emitted: seq<Output>)

  const EMPTY := Node([], [], [], false, [], [], [], [])

  datatype Step = Append(item: Item) | Take(thread: Thread) | Emit(thread: Thread) | EmitEos

  predicate WorkerIdle(n: Node) {
    n.workerHand == [] && !n.full
  }

  predicate SourceLimited(c: Config, n: Node, item: Item) {
    |Of(n.pending, item.source)| >= c.maxPerSource
  }

  function AppendItem(c: Config, n: Node, item: Item): Node {
    if SourceLimited(c, n, item) then n.(limited := n.limited + [item])
    else
      var pending := n.pending + [item];
      n.(pending := pending, accepted := n.accepted + [item], full := |pending| >= c.maxBatch)
  }

  ghost function TakeBatch(n: Node, thread: Thread): Node {
    var m := if thread == Worker then n.(full := false) else n;
    if n.pending == [] then m
    else
      var batch := Batch(n.pending);
      var m := m.(pending := [], batches := n.batches + [batch]);
      if thread == Worker then m.(workerHand := batch) else m.(timerHand := batch)
  }

  function HandOf(n: Node, thread: Thread): seq<Item> {
    if thread == Worker then n.workerHand else n.timerHand
  }

  function EmitHand(n: Node, thread: Thread): Node {
    var m := n.(emitted := n.emitted + [BatchOut(HandOf(n, thread))]);
    if thread == Worker then m.(workerHand := []) else m.(timerHand := [])
  }

  predicate CanEmitEos(n: Node) {
    WorkerIdle(n) && n.pending == []
  }

  /** A step that is not enabled changes nothing. */
  ghost function Apply(c: Config, n: Node, step: Step): Node {
    match step
    case Append(item) => if WorkerIdle(n) then AppendItem(c, n, item) else n
    case Take(thread) => if HandOf(n, thread) == [] then TakeBatch(n, thread) else n
    case Emit(thread) => if HandOf(n, thread) != [] then EmitHand(n, thread) else n
    case EmitEos => if CanEmitEos(n) then n.(emitted := n.emitted + [EosOut]) else n
  }

  ghost function After(c: Config, steps: seq<Step>): Node {
    if steps == [] then EMPTY else Apply(c, After(c, Front(steps)), Final(steps))
  }

  function Flat(batches: seq<seq<Item>>): seq<Item> {
    if batches == [] then [] else Flat(Front(batches)) + Final(batches)
  }

  lemma FlatAppends(batches: seq<seq<Item>>, batch: seq<Item>)
    ensures Flat(batches + [batch]) == Flat(batches) + batch
  {
    assert Front(batches + [batch]) == batches;
  }

  /** What the demultiplexer sends on: the items of every batch, in order. */
  function Demuxed(emitted: seq<Output>): seq<Item> {
    if emitted == [] then []
    else
      match Final(emitted)
      case BatchOut(items) => Demuxed(Front(emitted)) + items
      case EosOut => Demuxed(Front(emitted))
  }

  lemma DemuxedAppends(emitted: seq<Output>, o: Output)
    ensures Demuxed(emitted + [o]) == Demuxed(emitted) + if o.BatchOut? then o.items else []
  {
    assert Front(emitted + [o]) == emitted;
  }

  // ---------------------------------------------------------------------------
  // The locked sections of the node
  // ---------------------------------------------------------------------------

  class AdaptiveBatch {
    const config: Config
    var pending: seq<Item>

    constructor (config: Config)
      ensures this.config == config && pending == []
    {
      this.config := config;
      pending := [];
    }

    method CountSource(source: Source) returns (count: nat)
      ensures count == |Of(pending, source)|
    {
      count := 0;
      for i := 0 to |pending|
        invariant count == |Of(pending[..i], source)|
      {
        assert Front(pending[..i + 1]) == pending[..i];
        if pending[i].source == source {
          count := count + 1;
        }
      }
      assert pending[..|pending|] == pending;
    }

    /** Count the source, refuse or append, and say whether the batch is full. */
    method Accept(item: Item) returns (accepted: bool, flush: bool)
      modifies this`pending
      ensures
        var before := EMPTY.(pending := old(pending));
        var after := AppendItem(config, before, item);
        && pending == after.pending
        && (accepted <==> after.limited == [])
        && (flush <==> after.full)
    {
      var count := CountSource(item.source);
      if count >= config.maxPerSource {
        return false, false;
      }
      pending := pending + [item];
      accepted, flush := true, |pending| >= config.maxBatch;
    }

    method TakePending() returns (batch: seq<BatchItem>)
      modifies this`pending
      ensures pending == [] && |batch| == |Batch(old(pending))|
      ensures forall i :: 0 <= i < |batch| ==> batch[i] == BatchItem(Batch(old(pending))[i], i)
    {
      var items := FlushPending(pending);
      pending := [];
      batch := [];
      for i := 0 to |items|
        invariant |batch| == i && forall j :: 0 <= j < i ==> batch[j] == BatchItem(items[j], j)
      {
        batch := batch + [BatchItem(items[i], i)];
      }
    }
  }

  // ---------------------------------------------------------------------------
  // Sizes
  // ---------------------------------------------------------------------------

  ghost predicate WithinLimits(c: Config, items: seq<Item>) {
    |items| <= c.maxBatch && forall s :: |Of(items, s)| <= c.maxPerSource
  }

  ghost predicate IsBatch(c: Config, batch: seq<Item>) {
    exists pending :: pending != [] && WithinLimits(c, pending) && batch == Batch(pending)
  }

  ghost predicate Sized(c: Config, n: Node) {
    && WithinLimits(c, n.pending)
    && (!n.full ==> |n.pending| < c.maxBatch)
    && (forall b :: b in n.batches ==> IsBatch(c, b))
  }

  lemma AppendStaysWithin(c: Config, pending: seq<Item>, item: Item)
    requires WithinLimits(c, pending) && |pending| < c.maxBatch && |Of(pending, item.source)| < c.maxPerSource
    ensures WithinLimits(c, pending + [item])
  {
    forall s
      ensures |Of(pending + [item], s)| <= c.maxPerSource
    {
      OfAppends(pending, item, s);
    }
  }

  lemma TakeKeepsSizes(c: Config, n: Node, thread: Thread)
    requires Configured(c) && Sized(c, n)
    ensures Sized(c, TakeBatch(n, thread))
  {
    assert n.pending != [] ==> IsBatch(c, Batch(n.pending));
    assert forall s :: Of([], s) == [];
  }

  lemma StepKeepsSizes(c: Config, n: Node, step: Step)
    requires Configured(c) && Sized(c, n)
    ensures Sized(c, Apply(c, n, step))
  {
    if step.Append? {
      if WorkerIdle(n) && !SourceLimited(c, n, step.item) {
        AppendStaysWithin(c, n.pending, step.item);
      }
    } else if step.Take? {
      TakeKeepsSizes(c, n, step.thread);
    }
  }

  lemma {:induction false} RunKeepsSizes(c: Config, steps: seq<Step>)
    requires Configured(c)
    ensures Sized(c, After(c, steps))
  {
    if steps != [] {
      RunKeepsSizes(c, Front(steps));
      StepKeepsSizes(c, After(c, Front(steps)), Final(steps));
    } else {
      assert forall s :: Of([], s) == [];
    }
  }

  ghost predicate TakesTurns(batch: seq<Item>) {
    exists order :: Distinct(order) && Covers(order, batch) && Fair(order, batch)
  }

  lemma BatchIsWithinLimits(c: Config, batch: seq<Item>)
    requires IsBatch(c, batch)
    ensures batch != [] && WithinLimits(c, batch) && TakesTurns(batch)
  {
    var pending :| pending != [] && WithinLimits(c, pending) && batch == Batch(pending);
    BatchTakesTurns(pending);
    assert |batch| == |multiset(batch)| == |multiset(pending)| == |pending|;
    forall s
      ensures |Of(batch, s)| <= c.maxPerSource
    {
      assert Of(batch, s) == Of(pending, s);
    }
    forall x | x in batch
      ensures x.source in SourceOrder(pending)
    {
      assert x in multiset(pending);
    }
    assert Covers(SourceOrder(pending), batch);
  }

  /**
    Whatever the timer does, no batch is empty, too large, or over the limit of a source, and its sources take turns.
    */
  lemma BatchesRespectLimits(c: Config, steps: seq<Step>)
    requires Configured(c)
    ensures forall b :: b in After(c, steps).batches ==> b != [] && WithinLimits(c, b) && TakesTurns(b)
  {
    RunKeepsSizes(c, steps);
    forall b | b in After(c, steps).batches
      ensures b != [] && WithinLimits(c, b) && TakesTurns(b)
    {
      BatchIsWithinLimits(c, b);
    }
  }

  // ---------------------------------------------------------------------------
  // Order within a source
  // ---------------------------------------------------------------------------

  ghost predicate SourceInOrder(n: Node, s: Source) {
    Of(n.accepted, s) == Of(Flat(n.batches), s) + Of(n.pending, s)
  }

  lemma AppendKeepsSource(c: Config, n: Node, item: Item, s: Source)
    requires SourceInOrder(n, s)
    ensures SourceInOrder(AppendItem(c, n, item), s)
  {
    OfAppends(n.accepted, item, s);
    OfAppends(n.pending, item, s);
  }

  lemma BatchKeepsSource(pending: seq<Item>, s: Source)
    ensures Of(Batch(pending), s) == Of(pending, s)
  {
    BatchTakesTurns(pending);
  }

  lemma TakenKeepsSource(batches: seq<seq<Item>>, pending: seq<Item>, s: Source)
    ensures Of(Flat(batches + [Batch(pending)]), s) + Of([], s) == Of(Flat(batches), s) + Of(pending, s)
  {
    FlatAppends(batches, Batch(pending));
    OfConcat(Flat(batches), Batch(pending), s);
    BatchKeepsSource(pending, s);
  }

  lemma TakeKeepsSource(n: Node, thread: Thread, s: Source)
    requires SourceInOrder(n, s)
    ensures SourceInOrder(TakeBatch(n, thread), s)
  {
    if n.pending != [] {
      TakenKeepsSource(n.batches, n.pending, s);
    }
  }

  lemma StepKeepsSource(c: Config, n: Node, step: Step, s: Source)
    requires SourceInOrder(n, s)
    ensures SourceInOrder(Apply(c, n, step), s)
  {
    if step.Append? {
      AppendKeepsSource(c, n, step.item, s);
    } else if step.Take? {
      TakeKeepsSource(n, step.thread, s);
    }
  }

  lemma {:induction false} RunKeepsSource(c: Config, steps: seq<Step>, s: Source)
    ensures SourceInOrder(After(c, steps), s)
  {
    if steps != [] {
      RunKeepsSource(c, Front(steps), s);
      StepKeepsSource(c, After(c, Front(steps)), Final(steps), s);
    }
  }

  /** Batches in the order they were taken, then what is pending, give back every source's own order. */
  lemma BatchesKeepSourceOrder(c: Config, steps: seq<Step>, s: Source)
    ensures
      var n := After(c, steps);
      Of(n.accepted, s) == Of(Flat(n.batches), s) + Of(n.pending, s)
  {
    RunKeepsSource(c, steps, s);
  }

  // ---------------------------------------------------------------------------
  // Emission
  // ---------------------------------------------------------------------------

  ghost predicate NothingLost(n: Node) {
    multiset(n.accepted) ==
    multiset(Demuxed(n.emitted)) + multiset(n.workerHand) + multiset(n.timerHand) + multiset(n.pending)
  }

  lemma TakeLosesNothing(n: Node, thread: Thread)
    requires NothingLost(n) && HandOf(n, thread) == []
    ensures NothingLost(TakeBatch(n, thread))
  {
    if n.pending != [] {
      BatchTakesTurns(n.pending);
    }
  }

  lemma EmitLosesNothing(n: Node, thread: Thread)
    requires NothingLost(n)
    ensures NothingLost(EmitHand(n, thread))
  {
    DemuxedAppends(n.emitted, BatchOut(HandOf(n, thread)));
  }

  lemma AppendLosesNothing(c: Config, n: Node, item: Item)
    requires NothingLost(n)
    ensures NothingLost(AppendItem(c, n, item))
  {
    assert multiset(n.pending + [item]) == multiset(n.pending) + multiset{item};
    assert multiset(n.accepted + [item]) == multiset(n.accepted) + multiset{item};
  }

  lemma StepLosesNothing(c: Config, n: Node, step: Step)
    requires NothingLost(n)
    ensures NothingLost(Apply(c, n, step))
  {
    if step.Append? {
      AppendLosesNothing(c, n, step.item);
    } else if step.Take? && HandOf(n, step.thread) == [] {
      TakeLosesNothing(n, step.thread);
    } else if step.Emit? {
      EmitLosesNothing(n, step.thread);
    } else if step.EmitEos? {
      DemuxedAppends(n.emitted, EosOut);
    }
  }

  /** Every accepted packet is pending, in the hand of a thread, or emitted in exactly one batch. */
  lemma {:induction false} AcceptedIsAccountedFor(c: Config, steps: seq<Step>)
    ensures NothingLost(After(c, steps))
  {
    if steps != [] {
      AcceptedIsAccountedFor(c, Front(steps));
      StepLosesNothing(c, After(c, Front(steps)), Final(steps));
    }
  }

  /**
    When the worker passes on the end of the stream, everything accepted has been emitted before it
    exactly when the timer is not holding a batch.
    */
  lemma EosCoversExactlyWhen(c: Config, steps: seq<Step>)
    requires CanEmitEos(After(c, steps))
    ensures
      var n := After(c, steps);
      multiset(Demuxed(n.emitted)) == multiset(n.accepted) <==> n.timerHand == []
  {
    AcceptedIsAccountedFor(c, steps);
    var n := After(c, steps);
    assert |multiset(n.accepted)| == |multiset(Demuxed(n.emitted))| + |n.timerHand|;
  }

  /** Only a timer thread that was started takes batches. */
  ghost predicate Possible(c: Config, steps: seq<Step>) {
    TimerRuns(c) || forall i :: 0 <= i < |steps| ==> steps[i] != Take(Timer)
  }

  ghost predicate InStep(n: Node) {
    && n.timerHand == []
    && Demuxed(n.emitted) + n.workerHand == Flat(n.batches)
  }

  lemma TakeStaysInStep(n: Node)
    requires InStep(n) && n.workerHand == []
    ensures InStep(TakeBatch(n, Worker))
  {
    FlatAppends(n.batches, Batch(n.pending));
    assert Demuxed(n.emitted) + [] == Demuxed(n.emitted);
  }

  lemma EmitStaysInStep(n: Node)
    requires InStep(n)
    ensures InStep(EmitHand(n, Worker))
  {
    DemuxedAppends(n.emitted, BatchOut(n.workerHand));
    assert Demuxed(n.emitted) + n.workerHand + [] == Demuxed(n.emitted) + n.workerHand;
  }

  lemma AppendStaysInStep(c: Config, n: Node, item: Item)
    requires InStep(n)
    ensures InStep(AppendItem(c, n, item))
  {
  }

  lemma EosStaysInStep(n: Node)
    requires InStep(n)
    ensures InStep(n.(emitted := n.emitted + [EosOut]))
  {
    DemuxedAppends(n.emitted, EosOut);
  }

  /** With empty hands the timer emits nothing, so the only thread that acts is the worker. */
  lemma StepStaysInStep(c: Config, n: Node, step: Step)
    requires InStep(n) && step != Take(Timer)
    ensures InStep(Apply(c, n, step))
  {
    if step.Append? {
      AppendStaysInStep(c, n, step.item);
    } else if step.EmitEos? {
      EosStaysInStep(n);
    } else if step.Take? {
      if n.workerHand == [] {
        TakeStaysInStep(n);
      }
    } else if step.thread == Worker {
      EmitStaysInStep(n);
    }
  }

  lemma {:induction false} WithoutTimerInStep(c: Config, steps: seq<Step>)
    requires Possible(c, steps) && !TimerRuns(c)
    ensures InStep(After(c, steps))
  {
    if steps != [] {
      assert forall i :: 0 <= i < |Front(steps)| ==> Front(steps)[i] == steps[i];
      WithoutTimerInStep(c, Front(steps));
      StepStaysInStep(c, After(c, Front(steps)), Final(steps));
    }
  }

  /** What leaves the demultiplexer of one source is an initial part of what was accepted of it. */
  ghost predicate SourceKept(n: Node, s: Source) {
    Of(Demuxed(n.emitted), s) <= Of(n.accepted, s)
  }

  lemma WithoutTimerSourceKept(c: Config, steps: seq<Step>, s: Source)
    requires Possible(c, steps) && !TimerRuns(c)
    ensures SourceKept(After(c, steps), s)
  {
    var n := After(c, steps);
    WithoutTimerInStep(c, steps);
    BatchesKeepSourceOrder(c, steps, s);
    OfConcat(Demuxed(n.emitted), n.workerHand, s);
    PrefixOfSum(Of(Demuxed(n.emitted), s), Of(n.workerHand, s), Of(n.pending, s));
  }

  lemma PrefixOfSum(a: seq<Item>, b: seq<Item>, c: seq<Item>)
    ensures a <= a + b + c
  {
    assert a + b + c == a + (b + c);
  }

  /** The worker overtakes the timer: the timer holds the first packet while the worker emits the second. */
  function Overtaking(first: Item, second: Item): seq<Step> {
    [Append(first), Take(Timer), Take(Worker), Append(second), Take(Worker), Emit(Worker), Emit(Timer)]
  }

  lemma SingleBatch(x: Item)
    ensures Batch([x]) == [x]
  {
    BatchTakesTurns([x]);
    assert |Batch([x])| == |multiset(Batch([x]))| == 1;
    assert Batch([x])[0] in multiset([x]);
  }

  lemma {:induction false} AfterConcat(c: Config, before: seq<Step>, step: Step)
    ensures After(c, before + [step]) == Apply(c, After(c, before), step)
  {
    assert Front(before + [step]) == before;
  }

  /** A lone packet appended by an idle worker with nothing pending, when the timer or the worker takes it next. */
  lemma AppendThenTake(c: Config, n: Node, x: Item, thread: Thread)
    requires Configured(c) && WorkerIdle(n) && n.pending == [] && HandOf(n, thread) == []
    ensures
      var m := Apply(c, Apply(c, n, Append(x)), Take(thread));
      && m.pending == [] && HandOf(m, thread) == [x] && m.emitted == n.emitted && m.accepted == n.accepted + [x]
      && (thread == Worker ==> m.timerHand == n.timerHand)
      && (thread == Timer ==> m.workerHand == [])
  {
    SingleBatch(x);
    assert [] + [x] == [x];
  }

  lemma TimerHoldsFirst(c: Config, first: Item)
    requires Configured(c)
    ensures
      var n := After(c, [Append(first), Take(Timer), Take(Worker)]);
      && WorkerIdle(n) && n.pending == [] && n.timerHand == [first]
      && n.accepted == [first] && n.emitted == []
  {
    var steps := [Append(first), Take(Timer), Take(Worker)];
    assert Front(steps) == [Append(first), Take(Timer)] && Front(Front(steps)) == [Append(first)];
    assert Front([Append(first)]) == [];
    var n1 := Apply(c, EMPTY, Append(first));
    assert After(c, [Append(first)]) == n1;
    var n2 := Apply(c, n1, Take(Timer));
    AfterConcat(c, [Append(first)], Take(Timer));
    AppendThenTake(c, EMPTY, first, Timer);
    AfterConcat(c, [Append(first), Take(Timer)], Take(Worker));
    assert After(c, steps) == n2.(full := false);
  }

  lemma WorkerEmitsSecond(c: Config, before: seq<Step>, second: Item)
    requires Configured(c)
    requires
      var n := After(c, before);
      WorkerIdle(n) && n.pending == []
    ensures
      var n, m := After(c, before), After(c, before + [Append(second)] + [Take(Worker)] + [Emit(Worker)]);
      && m.timerHand == n.timerHand
      && m.accepted == n.accepted + [second]
      && m.emitted == n.emitted + [BatchOut([second])]
  {
    var n := After(c, before);
    AfterConcat(c, before, Append(second));
    AfterConcat(c, before + [Append(second)], Take(Worker));
    AppendThenTake(c, n, second, Worker);
    AfterConcat(c, before + [Append(second)] + [Take(Worker)], Emit(Worker));
  }

  lemma TwoBatches(a: Item, b: Item)
    ensures Demuxed([BatchOut([a]), BatchOut([b])]) == [a, b]
  {
    var o1, o2 := BatchOut([a]), BatchOut([b]);
    DemuxedAppends([], o1);
    DemuxedAppends([o1], o2);
    assert [] + [o1] == [o1] && [o1] + [o2] == [o1, o2];
  }

  lemma TimerEmits(c: Config, steps: seq<Step>, first: Item, second: Item)
    requires After(c, steps).timerHand == [first] && After(c, steps).emitted == [BatchOut([second])]
    ensures
      var n := After(c, steps + [Emit(Timer)]);
      n.accepted == After(c, steps).accepted && n.emitted == [BatchOut([second]), BatchOut([first])]
  {
    AfterConcat(c, steps, Emit(Timer));
  }

  lemma WorkerThenTimer(c: Config, before: seq<Step>, first: Item, second: Item)
    requires Configured(c)
    requires
      var n := After(c, before);
      WorkerIdle(n) && n.pending == [] && n.timerHand == [first] && n.accepted == [first] && n.emitted == []
    ensures
      var n := After(c, before + [Append(second)] + [Take(Worker)] + [Emit(Worker)] + [Emit(Timer)]);
      n.accepted == [first, second] && n.emitted == [BatchOut([second]), BatchOut([first])]
  {
    WorkerEmitsSecond(c, before, second);
    TimerEmits(c, before + [Append(second)] + [Take(Worker)] + [Emit(Worker)], first, second);
  }

  lemma OvertakingReorders(c: Config, first: Item, second: Item)
    requires Configured(c)
    ensures
      var n := After(c, Overtaking(first, second));
      n.accepted == [first, second] && Demuxed(n.emitted) == [second, first]
  {
    var before := [Append(first), Take(Timer), Take(Worker)];
    TimerHoldsFirst(c, first);
    WorkerThenTimer(c, before, first, second);
    TwoBatches(second, first);
    assert Overtaking(first, second) ==
      before + [Append(second)] + [Take(Worker)] + [Emit(Worker)] + [Emit(Timer)];
  }

  lemma OvertakingBreaksOrder(c: Config, first: Item, second: Item)
    requires Configured(c) && first.source == second.source && first != second
    ensures !SourceKept(After(c, Overtaking(first, second)), first.source)
  {
    var s := first.source;
    OvertakingReorders(c, first, second);
    assert [first] + [second] == [first, second] && [second] + [first] == [second, first];
    OfAppends([], first, s);
    OfAppends([first], second, s);
    OfAppends([], second, s);
    OfAppends([second], first, s);
    assert [] + [first] == [first] && [] + [second] == [second];
    assert Of([first, second], s)[0] == first && Of([second, first], s)[0] == second;
  }

  /** Every run keeps every source's order all the way out exactly when the timer does not run. */
  lemma OrderSurvivesExactlyWithoutTimer(c: Config)
    requires Configured(c)
    ensures (forall steps, s :: Possible(c, steps) ==> SourceKept(After(c, steps), s)) <==> !TimerRuns(c)
  {
    if TimerRuns(c) {
      var p := Packet(NoEvent, 0, 0);
      var first, second := Item("default", p), Item("default", p.(payload := 1));
      OvertakingBreaksOrder(c, first, second);
      assert Possible(c, Overtaking(first, second));
    } else {
      forall steps, s | Possible(c, steps)
        ensures SourceKept(After(c, steps), s)
      {
        WithoutTimerSourceKept(c, steps, s);
      }
    }
  }

  /** The timer holds the only packet while the worker passes on the end of the stream. */
  function EosFirst(x: Item): seq<Step> {
    [Append(x), Take(Timer), Take(Worker), EmitEos, Emit(Timer)]
  }

  /** With a timer an end-of-stream can leave before a batch that was accepted ahead of it. */
  lemma EosOvertakesTimer(c: Config, x: Item)
    requires Configured(c) && TimerRuns(c)
    ensures Possible(c, EosFirst(x)) && After(c, EosFirst(x)).emitted == [EosOut, BatchOut([x])]
  {
    var before := [Append(x), Take(Timer), Take(Worker)];
    TimerHoldsFirst(c, x);
    AfterConcat(c, before, EmitEos);
    AfterConcat(c, before + [EmitEos], Emit(Timer));
    assert EosFirst(x) == before + [EmitEos] + [Emit(Timer)];
  }

  ghost predicate Complete(n: Node) {
    multiset(Demuxed(n.emitted)) == multiset(n.accepted)
  }

  /** In every run everything accepted is out before the end of the stream exactly when the timer does not run. */
  lemma EosIsLastExactlyWithoutTimer(c: Config)
    requires Configured(c)
    ensures
      (forall steps :: Possible(c, steps) && CanEmitEos(After(c, steps)) ==> Complete(After(c, steps))) <==>
        !TimerRuns(c)
  {
    if TimerRuns(c) {
      var x := Item("default", Packet(NoEvent, 0, 0));
      var before := [Append(x), Take(Timer), Take(Worker)];
      TimerHoldsFirst(c, x);
      EosCoversExactlyWhen(c, before);
      assert Possible(c, before) && !Complete(After(c, before));
    } else {
      forall steps | Possible(c, steps) && CanEmitEos(After(c, steps))
        ensures Complete(After(c, steps))
      {
        WithoutTimerInStep(c, steps);
        EosCoversExactlyWhen(c, steps);
      }
    }
  }
}
