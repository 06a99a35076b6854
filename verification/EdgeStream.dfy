/**
  One edge of a running graph: the checks an emission passes, then the bounded queue, then
  the drain. An emitter validates and pushes in two separate critical sections, so pops and a
  queue close may fall between the two; the packet in between is `inHand`.
  */
module EdgeStreams {
  import opened Basics
  import opened Packets
  import opened Sequences
  import opened BoundedQueues

  datatype EdgeState = EdgeState(
    queue: QueueState<Packet>,
    last: Timestamp,
    bound: Timestamp,
    closed: bool,
    inHand: Option<Packet>)

  const IDLE := EdgeState(QueueState([], false), UNSET, UNSET, false, None)

  /** What the emitter, the drain and a shutdown can do to the edge. */
  datatype Step = Validate(packet: Packet) | Push | Pop | CloseQueue

  /** The edge with its log: what the queue accepted, what came out, and what it displaced. */
  datatype Edge = Edge(st: EdgeState, accepted: seq<Packet>, popped: seq<Packet>, displaced: seq<Packet>)

  const NEW_EDGE := Edge(IDLE, [], [], [])

  predicate StreamAccepts(ts: Timestamp, last: Timestamp, bound: Timestamp, closed: bool) {
    && !closed
    && IsRange(ts)
    && !(bound != UNSET && ts < bound)
    && !(IsRange(last) && ts < last)
  }

  /** The first critical section of an emission. */
  function ValidateStep(st: EdgeState, p: Packet): EdgeState {
    if st.inHand.Some? then st
    else
      match p.event
      case TimestampBound =>
        if st.bound != UNSET && p.ts < st.bound then st
        else st.(bound := p.ts, inHand := Some(p))
      case EndOfStream =>
        st.(closed := true, inHand := Some(p))
      case _ =>
        if StreamAccepts(p.ts, st.last, st.bound, st.closed) then st.(last := p.ts, inHand := Some(p))
        else st
  }

  function Attempt(capacity: nat, policy: QueuePolicy, q: QueueState<Packet>, p: Packet): PushResult<Packet> {
    if p.IsControl() then PushControl(capacity, q, p) else PushData(capacity, policy, q, p)
  }

  function Apply(capacity: nat, policy: QueuePolicy, e: Edge, step: Step): Edge {
    match step
    case Validate(p) => e.(st := ValidateStep(e.st, p))
    case Push => if e.st.inHand.None? then e else PushStep(capacity, policy, e, e.st.inHand.value)
    case Pop => if e.st.queue.items == [] then e else PopStep(e)
    case CloseQueue => e.(st := e.st.(queue := e.st.queue.(closed := true)))
  }

  function PushStep(capacity: nat, policy: QueuePolicy, e: Edge, p: Packet): Edge {
    var r := Attempt(capacity, policy, e.st.queue, p);
    match r.status
    case Waiting => e
    case Refused => e.(st := e.st.(inHand := None))
    case Accepted =>
      Edge(e.st.(queue := r.queue, inHand := None), e.accepted + [p], e.popped, e.displaced + r.displaced)
  }

  function PopStep(e: Edge): Edge
    requires e.st.queue.items != []
  {
    var items := e.st.queue.items;
    e.(st := e.st.(queue := e.st.queue.(items := items[1..])), popped := e.popped + [items[0]])
  }

  function Run(capacity: nat, policy: QueuePolicy, steps: seq<Step>): Edge {
    if steps == [] then NEW_EDGE
    else Apply(capacity, policy, Run(capacity, policy, Front(steps)), Final(steps))
  }

  /** What may follow what on a stream. */
  predicate Follows(a: Packet, b: Packet) {
    && (a.event == TimestampBound && b.event == TimestampBound ==> a.ts <= b.ts)
    && (a.event == TimestampBound && !b.IsControl() ==> a.ts <= b.ts)
    && (!a.IsControl() && !b.IsControl() ==> a.ts <= b.ts)
    && (a.event == EndOfStream ==> b.IsControl())
  }

  ghost predicate OnlyRangeData(s: seq<Packet>) {
    forall p :: p in s && !p.IsControl() ==> IsRange(p.ts)
  }

  /** Monotone data and bounds, data at or above earlier bounds, none after end-of-stream. */
  ghost predicate StreamDiscipline(s: seq<Packet>) {
    Pairwise(Follows, s) && OnlyRangeData(s)
  }

  function InHand(st: EdgeState): seq<Packet> {
    if st.inHand.Some? then [st.inHand.value] else []
  }

  /** The edge's own fields dominate everything that has passed validation. */
  ghost predicate Dominates(st: EdgeState, passed: seq<Packet>) {
    forall p :: p in passed ==>
      && (p.event == TimestampBound ==> p.ts <= st.bound)
      && (p.event == EndOfStream ==> st.closed)
      && (!p.IsControl() ==> IsRange(st.last) && p.ts <= st.last)
  }

  ghost predicate Checked(capacity: nat, e: Edge) {
    && |e.st.queue.items| <= capacity
    && StreamDiscipline(e.accepted + InHand(e.st))
    && Dominates(e.st, e.accepted + InHand(e.st))
  }

  /** Nothing overtakes, and the newest accepted packet is still out or queued. */
  ghost predicate OrderedLog(out: seq<Packet>, accepted: seq<Packet>) {
    && Subsequence(out, accepted)
    && (accepted != [] ==> out != [] && Final(out) == Final(accepted))
  }

  ghost predicate Ordered(e: Edge) {
    OrderedLog(e.popped + e.st.queue.items, e.accepted)
  }

  ghost predicate Conserved(e: Edge) {
    multiset(e.accepted) == multiset(e.popped) + multiset(e.st.queue.items) + multiset(e.displaced)
  }

  ghost predicate Inv(capacity: nat, e: Edge) {
    Checked(capacity, e) && Ordered(e) && Conserved(e)
  }

  lemma ValidateKeeps(capacity: nat, e: Edge, p: Packet)
    requires Checked(capacity, e)
    ensures Checked(capacity, e.(st := ValidateStep(e.st, p)))
    ensures ValidateStep(e.st, p).queue == e.st.queue
  {
    var st' := ValidateStep(e.st, p);
    if st' != e.st {
      assert e.accepted + InHand(e.st) == e.accepted;
      var passed := e.accepted + InHand(st');
      assert passed == e.accepted + [p];
      forall i, j | 0 <= i < j < |passed|
        ensures Follows(passed[i], passed[j])
      {
        if j == |e.accepted| {
          assert passed[i] in e.accepted;
        } else {
          assert Follows(e.accepted[i], e.accepted[j]);
        }
      }
      assert forall x :: x in passed <==> x in e.accepted || x == p;
    }
  }

  lemma PushKeepsChecked(capacity: nat, policy: QueuePolicy, e: Edge)
    requires Checked(capacity, e) && e.st.inHand.Some?
    ensures Checked(capacity, PushStep(capacity, policy, e, e.st.inHand.value))
  {
    var p := e.st.inHand.value;
    var e' := PushStep(capacity, policy, e, p);
    var passed := e.accepted + InHand(e.st);
    assert passed == e.accepted + [p];
    if e'.accepted != e.accepted {
      assert e'.accepted + InHand(e'.st) == passed;
    } else if e' != e {
      assert e'.accepted + InHand(e'.st) == e.accepted;
      PrefixKeepsDiscipline(e.accepted, [p]);
      assert forall x :: x in e.accepted ==> x in passed;
    }
  }

  /** An accepted packet goes to the back; at most the front makes room for it. */
  lemma AttemptShape(capacity: nat, policy: QueuePolicy, q: QueueState<Packet>, p: Packet)
    requires |q.items| <= capacity
    ensures
      var r := Attempt(capacity, policy, q, p);
      r.status == Accepted ==>
        || (r.displaced == [] && r.queue.items == q.items + [p])
        || (q.items != [] && |q.items| == capacity && r.displaced == [q.items[0]] &&
          r.queue.items == q.items[1..] + [p])
  {
  }

  lemma AppendOrder(popped: seq<Packet>, items: seq<Packet>, accepted: seq<Packet>, p: Packet)
    requires Subsequence(popped + items, accepted)
    ensures OrderedLog(popped + (items + [p]), accepted + [p])
  {
    SubsequenceAppend(popped + items, accepted, p);
    assert popped + (items + [p]) == (popped + items) + [p];
  }

  lemma DisplaceOrder(popped: seq<Packet>, items: seq<Packet>, accepted: seq<Packet>)
    requires Subsequence(popped + items, accepted) && items != []
    ensures Subsequence(popped + items[1..], accepted)
  {
    assert popped + items == popped + [items[0]] + items[1..];
    SubsequenceDrop(popped, items[0], items[1..], accepted);
  }

  lemma PushKeepsOrder(capacity: nat, policy: QueuePolicy, e: Edge, p: Packet)
    requires Ordered(e) && |e.st.queue.items| <= capacity
    ensures Ordered(PushStep(capacity, policy, e, p))
  {
    var r := Attempt(capacity, policy, e.st.queue, p);
    var items := e.st.queue.items;
    AttemptShape(capacity, policy, e.st.queue, p);
    if r.status == Accepted {
      if r.displaced == [] {
        AppendOrder(e.popped, items, e.accepted, p);
      } else {
        DisplaceOrder(e.popped, items, e.accepted);
        AppendOrder(e.popped, items[1..], e.accepted, p);
      }
    }
  }

  lemma PushConserves(capacity: nat, policy: QueuePolicy, e: Edge, p: Packet)
    requires Conserved(e) && |e.st.queue.items| <= capacity
    ensures Conserved(PushStep(capacity, policy, e, p))
  {
    var r := Attempt(capacity, policy, e.st.queue, p);
    var items := e.st.queue.items;
    AttemptShape(capacity, policy, e.st.queue, p);
    if r.status == Accepted {
      assert r.displaced + r.queue.items == items + [p];
      ConserveStep(e.accepted, e.popped, items, e.displaced, p, r.queue.items, r.displaced);
    }
  }

  lemma ConserveStep(accepted: seq<Packet>, popped: seq<Packet>, items: seq<Packet>, displaced: seq<Packet>,
                     p: Packet, items': seq<Packet>, dropped: seq<Packet>)
    requires multiset(accepted) == multiset(popped) + multiset(items) + multiset(displaced)
    requires dropped + items' == items + [p]
    ensures multiset(accepted + [p]) == multiset(popped) + multiset(items') + multiset(displaced + dropped)
  {
    assert multiset(dropped) + multiset(items') == multiset(dropped + items') == multiset(items + [p]) ==
      multiset(items) + multiset{p};
    assert multiset(displaced + dropped) == multiset(displaced) + multiset(dropped);
    calc {
      multiset(accepted + [p]);
      multiset(accepted) + multiset{p};
      (multiset(popped) + multiset(displaced)) + (multiset(items) + multiset{p});
      (multiset(popped) + multiset(displaced)) + (multiset(dropped) + multiset(items'));
      multiset(popped) + multiset(items') + (multiset(displaced) + multiset(dropped));
    }
  }

  lemma PopKeeps(capacity: nat, e: Edge)
    requires Inv(capacity, e) && e.st.queue.items != []
    ensures Inv(capacity, PopStep(e))
  {
    var items := e.st.queue.items;
    assert items == [items[0]] + items[1..];
    assert (e.popped + [items[0]]) + items[1..] == e.popped + items;
  }

  lemma CloseKeeps(capacity: nat, e: Edge)
    requires Inv(capacity, e)
    ensures Inv(capacity, e.(st := e.st.(queue := e.st.queue.(closed := true))))
  {
  }

  lemma CheckKeeps(capacity: nat, e: Edge, p: Packet)
    requires Inv(capacity, e)
    ensures Inv(capacity, e.(st := ValidateStep(e.st, p)))
  {
    ValidateKeeps(capacity, e, p);
  }

  lemma StepKeeps(capacity: nat, policy: QueuePolicy, e: Edge, step: Step)
    requires Inv(capacity, e)
    ensures Inv(capacity, Apply(capacity, policy, e, step))
  {
    match step
    case Validate(p) => CheckKeeps(capacity, e, p);
    case Push => if e.st.inHand.Some? { PushKeeps(capacity, policy, e); }
    case Pop => if e.st.queue.items != [] { PopKeeps(capacity, e); }
    case CloseQueue => CloseKeeps(capacity, e);
  }

  lemma PushKeeps(capacity: nat, policy: QueuePolicy, e: Edge)
    requires Inv(capacity, e) && e.st.inHand.Some?
    ensures Inv(capacity, PushStep(capacity, policy, e, e.st.inHand.value))
  {
    PushKeepsChecked(capacity, policy, e);
    PushKeepsOrder(capacity, policy, e, e.st.inHand.value);
    PushConserves(capacity, policy, e, e.st.inHand.value);
  }

  lemma {:induction false} RunKeeps(capacity: nat, policy: QueuePolicy, steps: seq<Step>)
    ensures Inv(capacity, Run(capacity, policy, steps))
  {
    if steps != [] {
      RunKeeps(capacity, policy, Front(steps));
      StepKeeps(capacity, policy, Run(capacity, policy, Front(steps)), Final(steps));
    }
  }

  /**
    For any policy, any capacity and any order of emissions, pushes, pops and closes: what
    comes out is a disciplined subsequence of what went in, the queue never exceeds its
    capacity, and every accepted packet is out, queued or displaced.
    */
  lemma EdgeKeepsDiscipline(capacity: nat, policy: QueuePolicy, steps: seq<Step>)
    ensures
      var e := Run(capacity, policy, steps);
      && StreamDiscipline(e.accepted)
      && Subsequence(e.popped, e.accepted)
      && StreamDiscipline(e.popped)
      && |e.st.queue.items| <= capacity
      && multiset(e.accepted) == multiset(e.popped) + multiset(e.st.queue.items) + multiset(e.displaced)
  {
    RunKeeps(capacity, policy, steps);
    var e := Run(capacity, policy, steps);
    PrefixKeepsDiscipline(e.accepted, InHand(e.st));
    SubsequencePrefix(e.popped, e.st.queue.items, e.accepted);
    SubsequenceKeepsDiscipline(e.popped, e.accepted);
  }

  lemma PrefixKeepsDiscipline(a: seq<Packet>, b: seq<Packet>)
    requires StreamDiscipline(a + b)
    ensures StreamDiscipline(a)
  {
    forall i, j | 0 <= i < j < |a|
      ensures Follows(a[i], a[j])
    {
      assert Follows((a + b)[i], (a + b)[j]);
    }
    assert forall x :: x in a ==> x in a + b;
  }

  lemma SubsequenceKeepsDiscipline(a: seq<Packet>, b: seq<Packet>)
    requires Subsequence(a, b) && StreamDiscipline(b)
    ensures StreamDiscipline(a)
  {
    SubsequencePairwise(Follows, a, b);
    forall p | p in a
      ensures p in b
    {
      SubsequenceMember(a, b, p);
    }
  }

  lemma {:induction false} SubsequencePrefix(a: seq<Packet>, b: seq<Packet>, whole: seq<Packet>)
    requires Subsequence(a + b, whole)
    ensures Subsequence(a, whole)
    decreases |b|
  {
    if b == [] {
      assert a + b == a;
    } else {
      assert a + b == a + Front(b) + [Final(b)] + [];
      SubsequenceDrop(a + Front(b), Final(b), [], whole);
      assert a + Front(b) + [] == a + Front(b);
      SubsequencePrefix(a, Front(b), whole);
    }
  }

  /** The newest accepted packet is never displaced, so an end-of-stream is lost only to later control. */
  lemma LastAcceptedSurvives(capacity: nat, policy: QueuePolicy, steps: seq<Step>)
    ensures
      var e := Run(capacity, policy, steps);
      e.accepted != [] ==> Final(e.accepted) in e.popped + e.st.queue.items
  {
    RunKeeps(capacity, policy, steps);
  }

  /**
    An end-of-stream can still be lost: a bound emitted after it takes its place in a full
    queue, so the drain never sees the stream close.
    */
  lemma BoundAfterEosDisplacesIt(eos: Packet, bound: Packet)
    requires eos.event == EndOfStream && bound.event == TimestampBound
    ensures
      var e := Run(1, DropOldest, [Validate(eos), Push, Validate(bound), Push]);
      e.accepted == [eos, bound] && e.popped == [] && e.st.queue.items == [bound] && e.displaced == [eos]
  {
    var s1 := [Validate(eos)];
    var s2 := [Validate(eos), Push];
    var s3 := [Validate(eos), Push, Validate(bound)];
    var s4 := [Validate(eos), Push, Validate(bound), Push];
    assert Front(s1) == [] && Front(s2) == s1 && Front(s3) == s2 && Front(s4) == s3;
    assert Run(1, DropOldest, s1) == Edge(IDLE.(closed := true, inHand := Some(eos)), [], [], []);
    assert Run(1, DropOldest, s2) == Edge(IDLE.(closed := true, queue := QueueState([eos], false)), [eos], [], []);
  }

  // ---------------------------------------------------------------------------
  // Which accepted packets are displaced
  // ---------------------------------------------------------------------------

  /** The queue always holds the newest accepted packets. */
  ghost predicate HoldsNewest(e: Edge) {
    && |e.st.queue.items| <= |e.accepted|
    && e.st.queue.items == e.accepted[Oldest(e)..]
  }

  /** The place among the accepted packets of the front of the queue. */
  function Oldest(e: Edge): int {
    |e.accepted| - |e.st.queue.items|
  }

  ghost predicate Pops(e: Edge, e': Edge) {
    e.st.queue.items != [] && e'.popped == e.popped + e.st.queue.items[..1] && e'.displaced == e.displaced &&
      |e'.accepted| == |e.accepted|
  }

  ghost predicate Displaces(e: Edge, e': Edge) {
    e.st.queue.items != [] && e'.displaced == e.displaced + e.st.queue.items[..1] && e'.popped == e.popped &&
      |e'.accepted| == |e.accepted| + 1
  }

  ghost predicate FrontMoves(capacity: nat, e: Edge, e': Edge) {
    || Oldest(e') == Oldest(e)
    || (Oldest(e') == Oldest(e) + 1 && Pops(e, e'))
    || (Oldest(e') == Oldest(e) + 1 && |e.st.queue.items| == capacity && Displaces(e, e'))
  }

  /**
    A step keeps the front of the queue where it is, or moves it by one packet, popped or displaced from a full
    queue.
    */
  lemma StepMovesFront(capacity: nat, policy: QueuePolicy, e: Edge, step: Step)
    requires HoldsNewest(e) && |e.st.queue.items| <= capacity
    ensures
      var e' := Apply(capacity, policy, e, step);
      && HoldsNewest(e') && |e'.st.queue.items| <= capacity && e.accepted <= e'.accepted
      && FrontMoves(capacity, e, e')
  {
    if step.Push? && e.st.inHand.Some? {
      PushMovesFront(capacity, policy, e, e.st.inHand.value);
    }
  }

  lemma PushMovesFront(capacity: nat, policy: QueuePolicy, e: Edge, p: Packet)
    requires HoldsNewest(e) && |e.st.queue.items| <= capacity
    ensures
      var e' := PushStep(capacity, policy, e, p);
      && HoldsNewest(e') && |e'.st.queue.items| <= capacity && e.accepted <= e'.accepted
      && FrontMoves(capacity, e, e')
  {
    var r := Attempt(capacity, policy, e.st.queue, p);
    if r.status == Accepted {
      AttemptShape(capacity, policy, e.st.queue, p);
      AcceptedMovesFront(capacity, e, PushStep(capacity, policy, e, p), p, r.displaced);
    }
  }

  lemma AcceptedMovesFront(capacity: nat, e: Edge, e': Edge, p: Packet, displaced: seq<Packet>)
    requires HoldsNewest(e) && |e'.st.queue.items| <= capacity && e'.accepted == e.accepted + [p]
    requires e'.popped == e.popped && e'.displaced == e.displaced + displaced
    requires
      var items := e.st.queue.items;
      || (displaced == [] && e'.st.queue.items == items + [p])
      || (items != [] && |items| == capacity && displaced == [items[0]] && e'.st.queue.items == items[1..] + [p])
    ensures HoldsNewest(e') && FrontMoves(capacity, e, e')
  {
    var items := e.st.queue.items;
    SuffixGrows(e.accepted, items, p);
    assert items != [] ==> items[..1] == [items[0]];
  }

  lemma SuffixGrows(accepted: seq<Packet>, items: seq<Packet>, p: Packet)
    requires |items| <= |accepted| && items == accepted[|accepted| - |items|..]
    ensures items + [p] == (accepted + [p])[|accepted| - |items|..]
    ensures items != [] ==> items[1..] + [p] == (accepted + [p])[|accepted| - |items| + 1..]
  {
  }

  lemma {:induction false} RunHoldsNewest(capacity: nat, policy: QueuePolicy, steps: seq<Step>)
    ensures HoldsNewest(Run(capacity, policy, steps)) && |Run(capacity, policy, steps).st.queue.items| <= capacity
  {
    if steps != [] {
      RunHoldsNewest(capacity, policy, Front(steps));
      StepMovesFront(capacity, policy, Run(capacity, policy, Front(steps)), Final(steps));
    }
  }

  /** The edge after the first `k` steps. */
  function At(capacity: nat, policy: QueuePolicy, steps: seq<Step>, k: nat): Edge
    requires k <= |steps|
  {
    Run(capacity, policy, steps[..k])
  }

  lemma NextAt(capacity: nat, policy: QueuePolicy, steps: seq<Step>, k: nat)
    requires k < |steps|
    ensures
      var e, e' := At(capacity, policy, steps, k), At(capacity, policy, steps, k + 1);
      && HoldsNewest(e) && |e.st.queue.items| <= capacity
      && e' == Apply(capacity, policy, e, steps[k])
      && e.accepted <= e'.accepted
      && FrontMoves(capacity, e, e')
  {
    assert Front(steps[..k + 1]) == steps[..k];
    RunHoldsNewest(capacity, policy, steps[..k]);
    StepMovesFront(capacity, policy, At(capacity, policy, steps, k), steps[k]);
  }

  /** Step `k` pops the packet accepted at place `i`. */
  ghost predicate PoppedAt(capacity: nat, policy: QueuePolicy, steps: seq<Step>, k: nat, i: nat)
    requires k < |steps|
  {
    var e, e' := At(capacity, policy, steps, k), At(capacity, policy, steps, k + 1);
    Oldest(e) == i && Oldest(e') == i + 1 && Pops(e, e')
  }

  ghost predicate DisplacedAt(capacity: nat, policy: QueuePolicy, steps: seq<Step>, k: nat, i: nat)
    requires k < |steps|
  {
    var e, e' := At(capacity, policy, steps, k), At(capacity, policy, steps, k + 1);
    Oldest(e) == i && Oldest(e') == i + 1 && Displaces(e, e')
  }

  ghost predicate IsDisplaced(capacity: nat, policy: QueuePolicy, steps: seq<Step>, i: nat) {
    exists k :: 0 <= k < |steps| && DisplacedAt(capacity, policy, steps, k, i)
  }

  /** After some steps, `capacity` packets have been accepted after place `i`, and it has not been popped. */
  ghost predicate Crowded(capacity: nat, policy: QueuePolicy, steps: seq<Step>, k: nat, i: nat)
    requires k <= |steps|
  {
    && |At(capacity, policy, steps, k).accepted| > i + capacity
    && forall j :: 0 <= j < k ==> !PoppedAt(capacity, policy, steps, j, i)
  }

  lemma {:induction false} FrontOnlyAdvances(capacity: nat, policy: QueuePolicy, steps: seq<Step>, j: nat, k: nat)
    requires j <= k <= |steps|
    ensures Oldest(At(capacity, policy, steps, j)) <= Oldest(At(capacity, policy, steps, k))
    decreases k - j
  {
    if j < k {
      FrontOnlyAdvances(capacity, policy, steps, j, k - 1);
      NextAt(capacity, policy, steps, k - 1);
    }
  }

  /** The front passes every place by a step of its own. */
  lemma {:induction false} FrontPasses(
    capacity: nat, policy: QueuePolicy, steps: seq<Step>, k: nat, i: nat) returns (j: nat)
    requires k <= |steps| && i < Oldest(At(capacity, policy, steps, k))
    ensures j < k
    ensures PoppedAt(capacity, policy, steps, j, i) || DisplacedAt(capacity, policy, steps, j, i)
    decreases k
  {
    NextAt(capacity, policy, steps, k - 1);
    if i < Oldest(At(capacity, policy, steps, k - 1)) {
      j := FrontPasses(capacity, policy, steps, k - 1, i);
    } else {
      j := k - 1;
    }
  }

  lemma DisplacedWasCrowded(capacity: nat, policy: QueuePolicy, steps: seq<Step>, k: nat, i: nat)
    requires k < |steps| && DisplacedAt(capacity, policy, steps, k, i)
    ensures Crowded(capacity, policy, steps, k + 1, i)
  {
    NextAt(capacity, policy, steps, k);
    forall j | 0 <= j < k + 1
      ensures !PoppedAt(capacity, policy, steps, j, i)
    {
      if j < k {
        FrontOnlyAdvances(capacity, policy, steps, j + 1, k);
      }
    }
  }

  /**
    Over every run, an accepted packet is displaced exactly when at some point as many packets have been accepted after
    it as the queue has places and it has not been popped.
    */
  lemma DisplacedExactlyWhen(capacity: nat, policy: QueuePolicy, steps: seq<Step>, i: nat)
    ensures IsDisplaced(capacity, policy, steps, i) <==>
            exists k :: 0 <= k <= |steps| && Crowded(capacity, policy, steps, k, i)
  {
    if k :| 0 <= k < |steps| && DisplacedAt(capacity, policy, steps, k, i) {
      DisplacedWasCrowded(capacity, policy, steps, k, i);
    }
    if k :| 0 <= k <= |steps| && Crowded(capacity, policy, steps, k, i) {
      RunHoldsNewest(capacity, policy, steps[..k]);
      var j := FrontPasses(capacity, policy, steps, k, i);
    }
  }

  /** After an end-of-stream only control is accepted, so only control can crowd it out. */
  lemma EosIsLostExactlyWhen(capacity: nat, policy: QueuePolicy, steps: seq<Step>, i: nat)
    requires i < |Run(capacity, policy, steps).accepted|
    requires Run(capacity, policy, steps).accepted[i].event == EndOfStream
    ensures forall j :: i < j < |Run(capacity, policy, steps).accepted| ==>
      Run(capacity, policy, steps).accepted[j].IsControl()
    ensures IsDisplaced(capacity, policy, steps, i) <==>
            exists k :: 0 <= k <= |steps| && Crowded(capacity, policy, steps, k, i)
  {
    EdgeKeepsDiscipline(capacity, policy, steps);
    var accepted := Run(capacity, policy, steps).accepted;
    forall j | i < j < |accepted|
      ensures accepted[j].IsControl()
    {
      assert Follows(accepted[i], accepted[j]);
    }
    DisplacedExactlyWhen(capacity, policy, steps, i);
  }

  /** The edge's runtime record: the emitter calls `ValidateEmission`, then `PushEmission`. */
  class EdgeRuntime {
    const queue: BoundedQueue<Packet>
    var lastTimestamp: Timestamp
    var bound: Timestamp
    var closed: bool

    constructor (capacity: nat, policy: QueuePolicy)
      ensures fresh(queue) && queue.Valid() && queue.capacity == capacity && queue.policy == policy && View() == IDLE
    {
      queue := new BoundedQueue(capacity, policy);
      lastTimestamp, bound, closed := UNSET, UNSET, false;
    }

    ghost function View(): EdgeState
      reads this, queue
    {
      EdgeState(queue.View(), lastTimestamp, bound, closed, None)
    }

    method ValidateEmission(packet: Packet) returns (passed: bool)
      modifies this
      ensures
        var st' := ValidateStep(old(View()), packet);
        View() == st'.(inHand := None) && (passed <==> st'.inHand == Some(packet))
    {
      if packet.event == TimestampBound {
        if bound != UNSET && packet.ts < bound {
          return false;
        }
        bound := packet.ts;
      } else if packet.event == EndOfStream {
        closed := true;
      } else {
        if closed || !IsRange(packet.ts) || (bound != UNSET && packet.ts < bound) ||
          (IsRange(lastTimestamp) && packet.ts < lastTimestamp) {
          return false;
        }
        lastTimestamp := packet.ts;
      }
      return true;
    }

    method PushEmission(packet: Packet) returns (status: PushStatus)
      requires queue.Valid()
      modifies queue
      ensures queue.Valid()
      ensures
        var r := Attempt(queue.capacity, queue.policy, old(queue.View()), packet);
        status == r.status && View() == old(View()).(queue := r.queue)
    {
      var dropped;
      if packet.IsControl() {
        status, dropped := queue.PushControlPacket(packet);
      } else {
        status, dropped := queue.Push(packet);
      }
    }
  }
}
