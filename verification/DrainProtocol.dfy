/**
  The drain-token protocol between producers, executor queues and workers. Every stream has
  an atomic `scheduled` flag; whoever flips it from false to true posts one drain token, and a
  worker that takes the token delivers one packet, clears the flag and rechecks the queue.

  Each step below is one atomic action of one thread; runs interleave them freely. A thread
  that is delivering may itself produce on other streams, so a drain and a schedule call can
  be in progress on one thread at once. Node hooks are taken to return, never to throw.
  */
module DrainProtocol {
  import opened Packets

  type Stream = nat
  type Tid = nat
  type Item = Packet

  /** Where a thread stands in the drain of a stream. `Cleared` is past the flag, before the recheck. */
  datatype DrainAt =
    | NotDraining
    | Taken(s: Stream)
    | Delivering(s: Stream, item: Item)
    | Finishing(s: Stream)
    | Cleared(s: Stream)

  /** Where a thread stands in scheduling a stream. `Exchanging` is before the flag exchange. */
  datatype ScheduleAt =
    | Outside
    | Exchanging(s: Stream)
    | Posting(s: Stream)
    | PostRefused(s: Stream)

  /** Where a thread stands in reporting an error, which ends with the graph cancelled. */
  datatype ErrorAt = Calm | Reporting | Cancelling

  datatype Thread = Thread(drain: DrainAt, schedule: ScheduleAt, error: ErrorAt)

  const IDLE := Thread(NotDraining, Outside, Calm)

  datatype State = State(
    queues: seq<seq<Item>>,
    flags: seq<bool>,
    tokens: seq<Stream>,
    threads: seq<Thread>,
    lastError: bool,
    cancelled: bool,
    popped: seq<seq<Item>>,
    delivered: seq<seq<Item>>)

  datatype Step =
    | Produce(t: Tid, s: Stream, item: Item, displace: bool)
    | ExchangeFlag(t: Tid)
    | PostToken(t: Tid)
    | RefusePost(t: Tid)
    | ClearAfterRefusal(t: Tid)
    | TakeToken(t: Tid, i: nat)
    | PopOne(t: Tid)
    | Deliver(t: Tid, fails: bool)
    | ClearFlag(t: Tid)
    | RecheckBusy(t: Tid)
    | RecheckDone(t: Tid)
    | RecordError(t: Tid)
    | SetCancelled(t: Tid)
    | CancelGraph

  /** A thread names existing streams, and schedules only outside a drain or inside a delivery. */
  predicate ThreadOk(th: Thread, n: nat) {
    && (th.schedule.Outside? || th.drain.NotDraining? || th.drain.Delivering?)
    && (th.drain.NotDraining? || th.drain.s < n)
    && (th.schedule.Outside? || th.schedule.s < n)
  }

  predicate WellFormed(st: State) {
    && |st.flags| == |st.queues| && |st.popped| == |st.queues| && |st.delivered| == |st.queues|
    && (forall i :: 0 <= i < |st.tokens| ==> st.tokens[i] < |st.queues|)
    && (forall t :: 0 <= t < |st.threads| ==> ThreadOk(st.threads[t], |st.queues|))
  }

  function Init(streams: nat, threads: nat): State {
    State(
      seq(streams, _ => []), seq(streams, _ => false), [], seq(threads, _ => IDLE), false, false,
      seq(streams, _ => []), seq(streams, _ => []))
  }

  predicate Calmly(st: State, t: Tid) {
    t < |st.threads| && st.threads[t].error == Calm
  }

  /** A thread may produce when it is neither scheduling nor past a delivery. */
  predicate MayProduce(th: Thread) {
    th.schedule.Outside? && (th.drain.NotDraining? || th.drain.Delivering?)
  }

  predicate Enabled(st: State, step: Step)
    requires WellFormed(st)
  {
    match step
    case Produce(t, s, item, displace) =>
      Calmly(st, t) && MayProduce(st.threads[t]) && s < |st.queues| && (displace ==> st.queues[s] != [])
    case ExchangeFlag(t) => Calmly(st, t) && st.threads[t].schedule.Exchanging?
    case PostToken(t) => Calmly(st, t) && st.threads[t].schedule.Posting?
    case RefusePost(t) => Calmly(st, t) && st.threads[t].schedule.Posting?
    case ClearAfterRefusal(t) => Calmly(st, t) && st.threads[t].schedule.PostRefused?
    case TakeToken(t, i) => t < |st.threads| && st.threads[t] == IDLE && i < |st.tokens|
    case PopOne(t) => Calmly(st, t) && st.threads[t].drain.Taken?
    case Deliver(t, fails) => Calmly(st, t) && st.threads[t].drain.Delivering? && st.threads[t].schedule.Outside?
    case ClearFlag(t) => Calmly(st, t) && st.threads[t].drain.Finishing?
    case RecheckBusy(t) => Calmly(st, t) && st.threads[t].drain.Cleared? && st.queues[st.threads[t].drain.s] != []
    case RecheckDone(t) =>
      Calmly(st, t) && st.threads[t].drain.Cleared? && (st.cancelled || st.queues[st.threads[t].drain.s] == [])
    case RecordError(t) => t < |st.threads| && st.threads[t].error == Reporting
    case SetCancelled(t) => t < |st.threads| && st.threads[t].error == Cancelling
    case CancelGraph => true
  }

  function WithThread(st: State, t: Tid, th: Thread): State
    requires t < |st.threads|
  {
    st.(threads := st.threads[t := th])
  }

  function Apply(st: State, step: Step): State
    requires WellFormed(st) && Enabled(st, step)
  {
    match step
    case Produce(t, s, item, displace) =>
      var kept := if displace then st.queues[s][1..] else st.queues[s];
      WithThread(st, t, st.threads[t].(schedule := Exchanging(s))).(queues := st.queues[s := kept + [item]])
    case ExchangeFlag(t) =>
      var s := st.threads[t].schedule.s;
      if st.flags[s] then WithThread(st, t, st.threads[t].(schedule := Outside))
      else WithThread(st, t, st.threads[t].(schedule := Posting(s))).(flags := st.flags[s := true])
    case PostToken(t) =>
      WithThread(st, t, st.threads[t].(schedule := Outside)).(tokens := st.tokens + [st.threads[t].schedule.s])
    case RefusePost(t) =>
      WithThread(st, t, st.threads[t].(schedule := PostRefused(st.threads[t].schedule.s)))
    case ClearAfterRefusal(t) =>
      WithThread(st, t, st.threads[t].(schedule := Outside, error := Reporting))
        .(flags := st.flags[st.threads[t].schedule.s := false])
    case TakeToken(t, i) =>
      WithThread(st, t, st.threads[t].(drain := Taken(st.tokens[i]))).(tokens := st.tokens[..i] + st.tokens[i + 1..])
    case PopOne(t) =>
      var s := st.threads[t].drain.s;
      if st.queues[s] == [] then WithThread(st, t, st.threads[t].(drain := Finishing(s)))
      else
        WithThread(st, t, st.threads[t].(drain := Delivering(s, st.queues[s][0])))
          .(queues := st.queues[s := st.queues[s][1..]], popped := st.popped[s := st.popped[s] + [st.queues[s][0]]])
    case Deliver(t, fails) =>
      var s := st.threads[t].drain.s;
      WithThread(st, t, st.threads[t].(drain := Finishing(s), error := if fails then Reporting else Calm))
        .(delivered := st.delivered[s := st.delivered[s] + [st.threads[t].drain.item]])
    case ClearFlag(t) =>
      var s := st.threads[t].drain.s;
      WithThread(st, t, st.threads[t].(drain := Cleared(s))).(flags := st.flags[s := false])
    case RecheckBusy(t) =>
      WithThread(st, t, st.threads[t].(drain := NotDraining, schedule := Exchanging(st.threads[t].drain.s)))
    case RecheckDone(t) => WithThread(st, t, st.threads[t].(drain := NotDraining))
    case RecordError(t) =>
      if st.lastError then WithThread(st, t, st.threads[t].(error := Calm))
      else WithThread(st, t, st.threads[t].(error := Cancelling)).(lastError := true)
    case SetCancelled(t) => WithThread(st, t, st.threads[t].(error := Calm)).(cancelled := true)
    case CancelGraph => st.(cancelled := true)
  }

  /** A run: consecutive states are one enabled step apart. */
  ghost predicate IsRun(streams: nat, threads: nat, run: seq<State>, steps: seq<Step>) {
    && |run| == |steps| + 1
    && run[0] == Init(streams, threads)
    && (forall i :: 0 <= i < |run| ==> WellFormed(run[i]))
    && (forall i :: 0 <= i < |steps| ==> Enabled(run[i], steps[i]) && run[i + 1] == Apply(run[i], steps[i]))
  }

  // ---------------------------------------------------------------------------
  // Ownership of the flag
  // ---------------------------------------------------------------------------

  datatype Owner = Free | Queued | Poster(t: Tid) | Drainer(t: Tid)

  predicate Posts(th: Thread, s: Stream) {
    th.schedule == Posting(s) || th.schedule == PostRefused(s)
  }

  predicate Drains(th: Thread, s: Stream) {
    (th.drain.Taken? || th.drain.Delivering? || th.drain.Finishing?) && th.drain.s == s
  }

  /** `own` names the one holder of every stream's flag. */
  ghost predicate OwnedBy(st: State, own: seq<Owner>) {
    && |own| == |st.queues| == |st.flags|
    && (forall s :: 0 <= s < |own| ==> (st.flags[s] <==> own[s] != Free))
    && (forall s :: 0 <= s < |own| ==> (own[s] == Queued <==> s in st.tokens))
    && (forall i, j :: 0 <= i < j < |st.tokens| ==> st.tokens[i] != st.tokens[j])
    && (forall t, s :: 0 <= t < |st.threads| && 0 <= s < |own| ==> (own[s] == Poster(t) <==> Posts(st.threads[t], s)))
    && (forall t, s :: 0 <= t < |st.threads| && 0 <= s < |own| ==> (own[s] == Drainer(t) <==> Drains(st.threads[t], s)))
    && (forall s :: 0 <= s < |own| ==> (own[s].Poster? || own[s].Drainer?) ==> own[s].t < |st.threads|)
  }

  /** Some thread is on its way to schedule `s`, to recheck it, or to cancel the graph. */
  ghost predicate WillSchedule(th: Thread, s: Stream) {
    th.schedule == Exchanging(s) || th.drain == Cleared(s) || th.error != Calm
  }

  ghost predicate NoLostWakeup(st: State) {
    |st.flags| == |st.queues| &&
    forall s :: 0 <= s < |st.queues| && st.queues[s] != [] && !st.cancelled && !st.flags[s] ==>
      exists t :: 0 <= t < |st.threads| && WillSchedule(st.threads[t], s)
  }

  ghost predicate ErrorsCancel(st: State) {
    st.lastError ==> st.cancelled || exists t :: 0 <= t < |st.threads| && st.threads[t].error == Cancelling
  }

  function InFlight(st: State, o: Owner): seq<Item> {
    if o.Drainer? && o.t < |st.threads| && st.threads[o.t].drain.Delivering? then [st.threads[o.t].drain.item] else []
  }

  /** What has been delivered is what was popped, but for the one packet being delivered. */
  ghost predicate InOrder(st: State, own: seq<Owner>) {
    && |st.popped| == |own| && |st.delivered| == |own|
    && (forall s :: 0 <= s < |own| ==> st.popped[s] == st.delivered[s] + InFlight(st, own[s]))
  }

  ghost predicate Inv(st: State, own: seq<Owner>) {
    WellFormed(st) && OwnedBy(st, own) && NoLostWakeup(st) && ErrorsCancel(st) && InOrder(st, own)
  }

  /** How a step moves the flag's owner. */
  function NextOwner(st: State, own: seq<Owner>, step: Step): seq<Owner>
    requires WellFormed(st) && Enabled(st, step) && |own| == |st.queues|
  {
    match step
    case ExchangeFlag(t) =>
      var s := st.threads[t].schedule.s;
      if st.flags[s] then own else own[s := Poster(t)]
    case PostToken(t) => own[st.threads[t].schedule.s := Queued]
    case ClearAfterRefusal(t) => own[st.threads[t].schedule.s := Free]
    case TakeToken(t, i) => own[st.tokens[i] := Drainer(t)]
    case ClearFlag(t) => own[st.threads[t].drain.s := Free]
    case _ => own
  }

  /** A step changes one thread at most, keeps the number of streams, and posts only tokens of streams. */
  lemma ThreadStaysOk(st: State, step: Step)
    requires WellFormed(st) && Enabled(st, step) && !step.CancelGraph?
    ensures step.t < |st.threads| && step.t < |Apply(st, step).threads|
    ensures ThreadOk(Apply(st, step).threads[step.t], |st.queues|)
    ensures Apply(st, step).threads == st.threads[step.t := Apply(st, step).threads[step.t]]
  {
    assert ThreadOk(st.threads[step.t], |st.queues|);
  }

  lemma TokensStayOk(st: State, step: Step)
    requires WellFormed(st) && Enabled(st, step)
    ensures forall i :: 0 <= i < |Apply(st, step).tokens| ==> Apply(st, step).tokens[i] < |st.queues|
  {
    if step.TakeToken? {
      var left := st.tokens[..step.i] + st.tokens[step.i + 1..];
      assert forall j :: 0 <= j < |left| ==> left[j] == st.tokens[if j < step.i then j else j + 1];
    } else if step.PostToken? {
      assert ThreadOk(st.threads[step.t], |st.queues|);
    }
  }

  lemma StepKeepsWellFormed(st: State, step: Step)
    requires WellFormed(st) && Enabled(st, step)
    ensures WellFormed(Apply(st, step))
  {
    TokensStayOk(st, step);
    if !step.CancelGraph? {
      ThreadStaysOk(st, step);
    }
  }

  /** A step that moves one thread without touching what it holds, the flags or the tokens. */
  lemma HoldingUnchanged(st: State, st': State, own: seq<Owner>, t: Tid, th: Thread)
    requires OwnedBy(st, own) && t < |st.threads|
    requires st'.threads == st.threads[t := th] && st'.flags == st.flags && st'.tokens == st.tokens
    requires |st'.queues| == |st.queues|
    requires forall s :: (Posts(th, s) <==> Posts(st.threads[t], s)) && (Drains(th, s) <==> Drains(st.threads[t], s))
    ensures OwnedBy(st', own)
  {
  }

  lemma AcquireKeepsOwner(st: State, own: seq<Owner>, t: Tid)
    requires WellFormed(st) && OwnedBy(st, own) && Enabled(st, ExchangeFlag(t)) && !st.flags[st.threads[t].schedule.s]
    ensures OwnedBy(Apply(st, ExchangeFlag(t)), NextOwner(st, own, ExchangeFlag(t)))
  {
  }

  lemma PostKeepsOwner(st: State, own: seq<Owner>, t: Tid)
    requires WellFormed(st) && OwnedBy(st, own) && Enabled(st, PostToken(t))
    ensures OwnedBy(Apply(st, PostToken(t)), NextOwner(st, own, PostToken(t)))
  {
    var s := st.threads[t].schedule.s;
    assert Posts(st.threads[t], s) && own[s] == Poster(t) && s !in st.tokens;
    assert forall x :: x in st.tokens + [s] <==> x in st.tokens || x == s;
  }

  lemma ReleaseKeepsOwner(st: State, own: seq<Owner>, t: Tid)
    requires WellFormed(st) && OwnedBy(st, own) && Enabled(st, ClearAfterRefusal(t))
    ensures OwnedBy(Apply(st, ClearAfterRefusal(t)), NextOwner(st, own, ClearAfterRefusal(t)))
  {
    assert Posts(st.threads[t], st.threads[t].schedule.s);
  }

  lemma TokensWithout(tokens: seq<Stream>, i: nat)
    requires i < |tokens| && forall a, b :: 0 <= a < b < |tokens| ==> tokens[a] != tokens[b]
    ensures
      var left := tokens[..i] + tokens[i + 1..];
      && (forall a, b :: 0 <= a < b < |left| ==> left[a] != left[b])
      && (forall x :: x in left <==> x in tokens && x != tokens[i])
  {
    var left := tokens[..i] + tokens[i + 1..];
    assert forall j :: 0 <= j < |left| ==> left[j] == tokens[if j < i then j else j + 1];
    forall x | x in tokens && x != tokens[i]
      ensures x in left
    {
      var j :| 0 <= j < |tokens| && tokens[j] == x;
      assert left[if j < i then j else j - 1] == x;
    }
  }

  lemma TakeKeepsOwner(st: State, own: seq<Owner>, t: Tid, i: nat)
    requires WellFormed(st) && OwnedBy(st, own) && Enabled(st, TakeToken(t, i))
    ensures OwnedBy(Apply(st, TakeToken(t, i)), NextOwner(st, own, TakeToken(t, i)))
  {
    TokensWithout(st.tokens, i);
    assert own[st.tokens[i]] == Queued;
  }

  lemma ClearKeepsOwner(st: State, own: seq<Owner>, t: Tid)
    requires WellFormed(st) && OwnedBy(st, own) && Enabled(st, ClearFlag(t))
    ensures OwnedBy(Apply(st, ClearFlag(t)), NextOwner(st, own, ClearFlag(t)))
  {
    assert Drains(st.threads[t], st.threads[t].drain.s);
  }

  lemma StepKeepsOwner(st: State, own: seq<Owner>, step: Step)
    requires WellFormed(st) && OwnedBy(st, own) && Enabled(st, step)
    ensures OwnedBy(Apply(st, step), NextOwner(st, own, step))
  {
    var st' := Apply(st, step);
    match step {
      case ExchangeFlag(t) =>
        if st.flags[st.threads[t].schedule.s] {
          HoldingUnchanged(st, st', own, t, st'.threads[t]);
        } else {
          AcquireKeepsOwner(st, own, t);
        }
      case PostToken(t) => PostKeepsOwner(st, own, t);
      case ClearAfterRefusal(t) => ReleaseKeepsOwner(st, own, t);
      case TakeToken(t, i) => TakeKeepsOwner(st, own, t, i);
      case ClearFlag(t) => ClearKeepsOwner(st, own, t);
      case CancelGraph =>
      case _ => OtherKeepsOwner(st, own, step);
    }
  }

  /** The steps that leave every flag with the one who holds it. */
  lemma OtherKeepsOwner(st: State, own: seq<Owner>, step: Step)
    requires WellFormed(st) && OwnedBy(st, own) && Enabled(st, step)
    requires !step.ExchangeFlag? && !step.PostToken? && !step.ClearAfterRefusal?
    requires !step.TakeToken? && !step.ClearFlag? && !step.CancelGraph?
    ensures OwnedBy(Apply(st, step), own)
  {
    var st' := Apply(st, step);
    HoldingUnchanged(st, st', own, step.t, st'.threads[step.t]);
  }

  /** A thread that will schedule a stream still will, unless it just did or the graph is being cancelled. */
  lemma WitnessMoves(st: State, step: Step, w: Tid, s: Stream)
    requires WellFormed(st) && Enabled(st, step) && ErrorsCancel(st)
    requires s < |st.queues| && w < |st.threads| && WillSchedule(st.threads[w], s)
    requires st.queues[s] != [] && !st.cancelled && !st.flags[s]
    ensures
      var st' := Apply(st, step);
      st'.cancelled || st'.flags[s] || exists t :: 0 <= t < |st'.threads| && WillSchedule(st'.threads[t], s)
  {
    var st' := Apply(st, step);
    if !(step.CancelGraph? || step.t != w || WillSchedule(st'.threads[w], s)) {
      match step {
        case RecordError(t) =>
          var c :| 0 <= c < |st.threads| && st.threads[c].error == Cancelling;
          assert st'.threads[c] == st.threads[c];
          assert WillSchedule(st'.threads[c], s);
        case _ =>
      }
    } else if !step.CancelGraph? {
      assert WillSchedule(st'.threads[w], s);
    }
  }

  /** A stream that has just got a packet, or lost its flag, has the thread that did it on its way. */
  lemma NewlyWoken(st: State, step: Step, s: Stream)
    requires WellFormed(st) && Enabled(st, step)
    requires s < |st.queues| == |Apply(st, step).queues| == |Apply(st, step).flags|
    requires Apply(st, step).queues[s] != [] && !Apply(st, step).flags[s] && (st.queues[s] == [] || st.flags[s])
    ensures !step.CancelGraph? && step.t < |Apply(st, step).threads| && WillSchedule(Apply(st, step).threads[step.t], s)
  {
  }

  lemma StreamStaysWoken(st: State, step: Step, s: Stream)
    requires WellFormed(st) && Enabled(st, step) && NoLostWakeup(st) && ErrorsCancel(st)
    requires s < |st.queues| == |Apply(st, step).queues| == |Apply(st, step).flags| && !Apply(st, step).cancelled
    requires Apply(st, step).queues[s] != [] && !Apply(st, step).flags[s]
    ensures exists t :: 0 <= t < |Apply(st, step).threads| && WillSchedule(Apply(st, step).threads[t], s)
  {
    if st.queues[s] == [] || st.flags[s] {
      NewlyWoken(st, step, s);
    } else {
      var w :| 0 <= w < |st.threads| && WillSchedule(st.threads[w], s);
      WitnessMoves(st, step, w, s);
    }
  }

  lemma StepKeepsWakeup(st: State, step: Step)
    requires WellFormed(st) && Enabled(st, step) && NoLostWakeup(st) && ErrorsCancel(st)
    ensures NoLostWakeup(Apply(st, step))
  {
    StepKeepsWellFormed(st, step);
    KeepsStreams(st, step);
    var st' := Apply(st, step);
    forall s | 0 <= s < |st'.queues| && st'.queues[s] != [] && !st'.cancelled && !st'.flags[s]
      ensures exists t :: 0 <= t < |st'.threads| && WillSchedule(st'.threads[t], s)
    {
      StreamStaysWoken(st, step, s);
    }
  }

  lemma KeepsStreams(st: State, step: Step)
    requires WellFormed(st) && Enabled(st, step)
    ensures |Apply(st, step).queues| == |st.queues|
  {
  }

  lemma StepKeepsErrors(st: State, step: Step)
    requires WellFormed(st) && Enabled(st, step) && ErrorsCancel(st)
    ensures ErrorsCancel(Apply(st, step))
  {
    var st' := Apply(st, step);
    if st'.lastError && !st'.cancelled {
      if st.lastError {
        var c :| 0 <= c < |st.threads| && st.threads[c].error == Cancelling;
        assert st'.threads[c].error == Cancelling;
      } else {
        assert st'.threads[step.t].error == Cancelling;
      }
    }
  }

  /** A step that leaves logs, drains and drainers alone leaves the order alone. */
  lemma OrderUnchanged(st: State, st': State, own: seq<Owner>, own': seq<Owner>)
    requires InOrder(st, own) && |own'| == |own| && st'.popped == st.popped && st'.delivered == st.delivered
    requires |st'.threads| == |st.threads|
    requires forall t :: 0 <= t < |st.threads| ==> st'.threads[t].drain == st.threads[t].drain
    requires forall s :: 0 <= s < |own| ==> own'[s] == own[s] || (!own[s].Drainer? && !own'[s].Drainer?)
    ensures InOrder(st', own')
  {
    forall s | 0 <= s < |own|
      ensures InFlight(st', own'[s]) == InFlight(st, own[s])
    {
    }
  }

  /** A step of the drain of `s` by its one drainer `t`; other streams' drainers are other threads. */
  lemma OrderOfDrain(st: State, st': State, own: seq<Owner>, own': seq<Owner>, t: Tid, s: Stream)
    requires InOrder(st, own) && OwnedBy(st, own) && s < |own| && t < |st.threads| == |st'.threads|
    requires |own'| == |st'.popped| == |st'.delivered| == |own|
    requires forall r :: 0 <= r < |own| && r != s ==>
      own'[r] == own[r] && own[r] != Drainer(t) && st'.popped[r] == st.popped[r] && st'.delivered[r] == st.delivered[r]
    requires forall u :: 0 <= u < |st.threads| && u != t ==> st'.threads[u] == st.threads[u]
    requires st'.popped[s] == st'.delivered[s] + InFlight(st', own'[s])
    ensures InOrder(st', own')
  {
    forall r | 0 <= r < |own|
      ensures st'.popped[r] == st'.delivered[r] + InFlight(st', own'[r])
    {
      if r != s { assert InFlight(st', own'[r]) == InFlight(st, own[r]); }
    }
  }

  lemma TakeKeepsOrder(st: State, own: seq<Owner>, t: Tid, i: nat)
    requires WellFormed(st) && OwnedBy(st, own) && Enabled(st, TakeToken(t, i)) && InOrder(st, own)
    ensures InOrder(Apply(st, TakeToken(t, i)), NextOwner(st, own, TakeToken(t, i)))
  {
    var s := st.tokens[i];
    assert own[s] == Queued;
    assert forall r :: 0 <= r < |own| ==> (own[r] == Drainer(t) <==> Drains(st.threads[t], r));
    OrderOfDrain(st, Apply(st, TakeToken(t, i)), own, NextOwner(st, own, TakeToken(t, i)), t, s);
  }

  lemma PopKeepsOrder(st: State, own: seq<Owner>, t: Tid)
    requires WellFormed(st) && OwnedBy(st, own) && Enabled(st, PopOne(t)) && InOrder(st, own)
    ensures InOrder(Apply(st, PopOne(t)), own)
  {
    var s := st.threads[t].drain.s;
    assert Drains(st.threads[t], s) && own[s] == Drainer(t);
    assert forall r :: 0 <= r < |own| ==> (own[r] == Drainer(t) <==> Drains(st.threads[t], r));
    OrderOfDrain(st, Apply(st, PopOne(t)), own, own, t, s);
  }

  lemma DeliverKeepsOrder(st: State, own: seq<Owner>, t: Tid, fails: bool)
    requires WellFormed(st) && OwnedBy(st, own) && Enabled(st, Deliver(t, fails)) && InOrder(st, own)
    ensures InOrder(Apply(st, Deliver(t, fails)), own)
  {
    var s := st.threads[t].drain.s;
    assert Drains(st.threads[t], s) && own[s] == Drainer(t);
    assert forall r :: 0 <= r < |own| ==> (own[r] == Drainer(t) <==> Drains(st.threads[t], r));
    OrderOfDrain(st, Apply(st, Deliver(t, fails)), own, own, t, s);
  }

  lemma ClearKeepsOrder(st: State, own: seq<Owner>, t: Tid)
    requires WellFormed(st) && OwnedBy(st, own) && Enabled(st, ClearFlag(t)) && InOrder(st, own)
    ensures InOrder(Apply(st, ClearFlag(t)), NextOwner(st, own, ClearFlag(t)))
  {
    var s := st.threads[t].drain.s;
    assert Drains(st.threads[t], s) && own[s] == Drainer(t);
    assert forall r :: 0 <= r < |own| ==> (own[r] == Drainer(t) <==> Drains(st.threads[t], r));
    OrderOfDrain(st, Apply(st, ClearFlag(t)), own, NextOwner(st, own, ClearFlag(t)), t, s);
  }

  /** Leaving the recheck ends a drain that no longer holds anything. */
  lemma RecheckKeepsOrder(st: State, st': State, own: seq<Owner>, t: Tid)
    requires OwnedBy(st, own) && InOrder(st, own) && t < |st.threads| && st.threads[t].drain.Cleared?
    requires st'.popped == st.popped && st'.delivered == st.delivered && |st'.threads| == |st.threads|
    requires forall u :: 0 <= u < |st.threads| && u != t ==> st'.threads[u] == st.threads[u]
    ensures InOrder(st', own)
  {
    forall s | 0 <= s < |own|
      ensures InFlight(st', own[s]) == InFlight(st, own[s])
    {
      assert own[s] == Drainer(t) <==> Drains(st.threads[t], s);
    }
  }

  lemma StepKeepsOrder(st: State, own: seq<Owner>, step: Step)
    requires WellFormed(st) && OwnedBy(st, own) && Enabled(st, step) && InOrder(st, own)
    ensures InOrder(Apply(st, step), NextOwner(st, own, step))
  {
    match step {
      case TakeToken(t, i) => TakeKeepsOrder(st, own, t, i);
      case PopOne(t) => PopKeepsOrder(st, own, t);
      case Deliver(t, fails) => DeliverKeepsOrder(st, own, t, fails);
      case ClearFlag(t) => ClearKeepsOrder(st, own, t);
      case RecheckBusy(t) => RecheckKeepsOrder(st, Apply(st, step), own, t);
      case RecheckDone(t) => RecheckKeepsOrder(st, Apply(st, step), own, t);
      case ExchangeFlag(t) => OrderOfSchedule(st, own, step);
      case PostToken(t) => OrderOfSchedule(st, own, step);
      case ClearAfterRefusal(t) => OrderOfSchedule(st, own, step);
      case _ => OrderUnchanged(st, Apply(st, step), own, own);
    }
  }

  lemma OrderOfSchedule(st: State, own: seq<Owner>, step: Step)
    requires WellFormed(st) && OwnedBy(st, own) && Enabled(st, step) && InOrder(st, own)
    requires step.ExchangeFlag? || step.PostToken? || step.ClearAfterRefusal?
    ensures InOrder(Apply(st, step), NextOwner(st, own, step))
  {
    var s := st.threads[step.t].schedule.s;
    assert Posts(st.threads[step.t], s) ==> own[s] == Poster(step.t);
    OrderUnchanged(st, Apply(st, step), own, NextOwner(st, own, step));
  }

  lemma StepKeepsInv(st: State, own: seq<Owner>, step: Step)
    requires Inv(st, own) && Enabled(st, step)
    ensures Inv(Apply(st, step), NextOwner(st, own, step))
  {
    StepKeepsWellFormed(st, step);
    StepKeepsOwner(st, own, step);
    StepKeepsWakeup(st, step);
    StepKeepsErrors(st, step);
    StepKeepsOrder(st, own, step);
  }

  lemma {:induction false} RunKeepsInv(
    streams: nat, threads: nat, run: seq<State>, steps: seq<Step>, k: nat) returns (own: seq<Owner>)
    requires IsRun(streams, threads, run, steps) && k < |run|
    ensures Inv(run[k], own)
  {
    if k == 0 {
      own := seq(streams, _ => Free);
    } else {
      own := RunKeepsInv(streams, threads, run, steps, k - 1);
      StepKeepsInv(run[k - 1], own, steps[k - 1]);
      own := NextOwner(run[k - 1], own, steps[k - 1]);
    }
  }

  // ---------------------------------------------------------------------------
  // Main results
  // ---------------------------------------------------------------------------

  /** A place the flag of a stream can be held from. */
  datatype Holder = InToken(i: nat) | InPost(t: Tid) | InDrain(t: Tid)

  predicate Holds(st: State, o: Holder, s: Stream) {
    match o
    case InToken(i) => i < |st.tokens| && st.tokens[i] == s
    case InPost(t) => t < |st.threads| && Posts(st.threads[t], s)
    case InDrain(t) => t < |st.threads| && Drains(st.threads[t], s)
  }

  /** In every reachable state a set flag has exactly one holder and a clear flag none. */
  lemma FlagHasOneHolder(streams: nat, threads: nat, run: seq<State>, steps: seq<Step>, k: nat, s: Stream)
    requires IsRun(streams, threads, run, steps) && k < |run| && s < streams
    ensures |run[k].flags| == streams
    ensures run[k].flags[s] <==> exists o :: Holds(run[k], o, s)
    ensures forall o, o' :: Holds(run[k], o, s) && Holds(run[k], o', s) ==> o == o'
  {
    RunKeepsShape(streams, threads, run, steps, k);
    var own := RunKeepsInv(streams, threads, run, steps, k);
    var st := run[k];
    forall o | Holds(st, o, s)
      ensures own[s] == (match o case InToken(_) => Queued case InPost(t) => Poster(t) case InDrain(t) => Drainer(t))
    {
    }
    if st.flags[s] {
      match own[s] {
        case Queued =>
          var i :| 0 <= i < |st.tokens| && st.tokens[i] == s;
          assert Holds(st, InToken(i), s);
        case Poster(t) => assert Holds(st, InPost(t), s);
        case Drainer(t) => assert Holds(st, InDrain(t), s);
      }
    }
  }

  lemma {:induction false} RunKeepsShape(streams: nat, threads: nat, run: seq<State>, steps: seq<Step>, k: nat)
    requires IsRun(streams, threads, run, steps) && k < |run|
    ensures |run[k].queues| == streams && |run[k].threads| == threads && |run[k].flags| == streams
  {
    if k > 0 {
      RunKeepsShape(streams, threads, run, steps, k - 1);
      assert run[k] == Apply(run[k - 1], steps[k - 1]);
    }
  }

  /** Drain tokens are bounded by the number of streams, which is what lets them be posted past the task limit. */
  lemma TokensAreBounded(streams: nat, threads: nat, run: seq<State>, steps: seq<Step>, k: nat)
    requires IsRun(streams, threads, run, steps) && k < |run|
    ensures |run[k].tokens| <= streams
  {
    RunKeepsShape(streams, threads, run, steps, k);
    var own := RunKeepsInv(streams, threads, run, steps, k);
    DistinctBelow(run[k].tokens, streams);
  }

  lemma {:induction false} DistinctBelow(s: seq<nat>, n: nat)
    requires forall i, j :: 0 <= i < j < |s| ==> s[i] != s[j]
    requires forall i :: 0 <= i < |s| ==> s[i] < n
    ensures |s| <= n
  {
    assert |s| > 0 ==> s[0] < n;
    if n > 0 {
      if i :| 0 <= i < |s| && s[i] == n - 1 {
        var rest := s[..i] + s[i + 1..];
        assert forall j :: 0 <= j < |rest| ==> rest[j] == s[if j < i then j else j + 1];
        DistinctBelow(rest, n - 1);
      } else {
        DistinctBelow(s, n - 1);
      }
    }
  }

  /** One drainer at a time means packets are delivered in the order they were popped. */
  lemma DeliveredInPopOrder(streams: nat, threads: nat, run: seq<State>, steps: seq<Step>, k: nat, s: Stream)
    requires IsRun(streams, threads, run, steps) && k < |run| && s < streams
    ensures |run[k].popped| == streams && |run[k].delivered| == streams
    ensures run[k].delivered[s] <= run[k].popped[s]
    ensures |run[k].popped[s]| <= |run[k].delivered[s]| + 1
  {
    RunKeepsShape(streams, threads, run, steps, k);
    var own := RunKeepsInv(streams, threads, run, steps, k);
    assert run[k].popped[s] == run[k].delivered[s] + InFlight(run[k], own[s]);
  }

  /**
    No wake-up is lost: a stream with queued packets in a graph that is not cancelled is
    flagged, or some thread is between its push or clear and its exchange, or is on its way
    to cancel the graph.
    */
  lemma NoWakeupIsLost(streams: nat, threads: nat, run: seq<State>, steps: seq<Step>, k: nat)
    requires IsRun(streams, threads, run, steps) && k < |run|
    ensures NoLostWakeup(run[k])
  {
    var own := RunKeepsInv(streams, threads, run, steps, k);
  }

  /** When every thread is idle, no token is queued and nothing was cancelled, every packet has been delivered. */
  lemma QuiescentMeansDrained(streams: nat, threads: nat, run: seq<State>, steps: seq<Step>, k: nat, s: Stream)
    requires IsRun(streams, threads, run, steps) && k < |run| && s < streams
    requires !run[k].cancelled && run[k].tokens == []
    requires forall t :: 0 <= t < |run[k].threads| ==> run[k].threads[t] == IDLE
    ensures |run[k].queues| == streams && |run[k].popped| == streams && |run[k].delivered| == streams
    ensures run[k].queues[s] == [] && run[k].delivered[s] == run[k].popped[s]
  {
    RunKeepsShape(streams, threads, run, steps, k);
    var own := RunKeepsInv(streams, threads, run, steps, k);
    var st := run[k];
    assert own[s].Poster? ==> Posts(st.threads[own[s].t], s);
    assert own[s].Drainer? ==> Drains(st.threads[own[s].t], s);
    assert own[s] == Free;
    assert forall t :: 0 <= t < |st.threads| ==> !WillSchedule(st.threads[t], s);
  }
}
