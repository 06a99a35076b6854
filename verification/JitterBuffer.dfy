/** The buffer that puts encoded packets back into presentation order before they are decoded. */
module JitterBuffers {
  import opened Basics
  import opened Packets
  import opened Sequences

  /** A packet with its presentation time and, for reference, its place among the accepted arrivals. */
  datatype Item = Item(pts: Timestamp, arrival: nat)

  datatype Config = Config(requestedCapacity: nat, requestedLatency: int) {

    function Capacity(): nat {
      if requestedCapacity == 0 then 1 else requestedCapacity
    }

    function Latency(): int {
      if requestedLatency < 0 then 0 else requestedLatency
    }
  }

  datatype Status = Ok | Cancelled | Invalid

  datatype JitterState = JitterState(items: seq<Item>, lastOutput: Timestamp, closed: bool)

  /** Where a packet goes: after everything with the same or an earlier time. */
  function UpperBound(items: seq<Item>, pts: Timestamp): (k: nat)
    ensures k <= |items|
    ensures k < |items| ==> items[k].pts > pts
    ensures forall i :: 0 <= i < k ==> items[i].pts <= pts
  {
    if items == [] || items[0].pts > pts then 0 else 1 + UpperBound(items[1..], pts)
  }

  function Inserted(items: seq<Item>, item: Item): seq<Item> {
    var k := UpperBound(items, item.pts);
    items[..k] + [item] + items[k..]
  }

  predicate Late(s: JitterState, pts: Timestamp) {
    IsRange(s.lastOutput) && pts <= s.lastOutput
  }

  datatype PushOutcome = PushOutcome(state: JitterState, status: Status, lost: seq<Item>)

  function Push(c: Config, s: JitterState, item: Item): PushOutcome {
    if s.closed then PushOutcome(s, Cancelled, [])
    else if !IsRange(item.pts) then PushOutcome(s, Invalid, [])
    else if Late(s, item.pts) then PushOutcome(s, Ok, [item])
    else
      var items := Inserted(s.items, item);
      if |items| > c.Capacity() then PushOutcome(s.(items := items[1..]), Ok, [items[0]])
      else PushOutcome(s.(items := items), Ok, [])
  }

  predicate Due(c: Config, watermark: Timestamp, pts: Timestamp) {
    IsRange(watermark) && pts <= watermark - c.Latency()
  }

  function Pop(c: Config, s: JitterState, watermark: Timestamp): (JitterState, Option<Item>) {
    if s.items == [] || !Due(c, watermark, s.items[0].pts) then (s, None)
    else (s.(items := s.items[1..], lastOutput := s.items[0].pts), Some(s.items[0]))
  }

  function Shut(s: JitterState): JitterState {
    s.(items := [], closed := true)
  }

  class JitterBuffer {
    const config: Config
    var items: seq<Item>
    var lastOutput: Timestamp
    var closed: bool

    constructor (config: Config)
      ensures this.config == config && View() == JitterState([], UNSET, false)
    {
      this.config := config;
      items, lastOutput, closed := [], UNSET, false;
    }

    ghost function View(): JitterState
      reads this
    {
      JitterState(items, lastOutput, closed)
    }

    method PushPacket(item: Item) returns (status: Status, dropped: bool)
      modifies this`items
      ensures View() == Push(config, old(View()), item).state
      ensures status == Push(config, old(View()), item).status
      ensures dropped <==> Push(config, old(View()), item).lost != []
    {
      dropped := false;
      if closed {
        return Cancelled, dropped;
      }
      if !IsRange(item.pts) {
        return Invalid, dropped;
      }
      if IsRange(lastOutput) && item.pts <= lastOutput {
        return Ok, true;
      }
      var k := UpperBound(items, item.pts);
      items := items[..k] + [item] + items[k..];
      if |items| > config.Capacity() {
        items := items[1..];
        dropped := true;
      }
      status := Ok;
    }

    method PopReady(watermark: Timestamp) returns (packet: Option<Item>)
      modifies this`items, this`lastOutput
      ensures (View(), packet) == Pop(config, old(View()), watermark)
    {
      if items == [] || !IsRange(watermark) {
        return None;
      }
      var deadline := watermark - config.Latency();
      if items[0].pts > deadline {
        return None;
      }
      packet := Some(items[0]);
      items, lastOutput := items[1..], items[0].pts;
    }

    method Close()
      modifies this`items, this`closed
      ensures View() == Shut(old(View()))
    {
      closed := true;
      items := [];
    }
  }

  // ---------------------------------------------------------------------------
  // Runs
  // ---------------------------------------------------------------------------

  datatype Step = Arrive(pts: Timestamp) | Ask(watermark: Timestamp) | CloseAll

  /** A buffer with its history: what it accepted, handed out and lost. */
  datatype Run = Run(state: JitterState, accepted: seq<Item>, popped: seq<Item>, lost: seq<Item>)

  const FRESH := Run(JitterState([], UNSET, false), [], [], [])

  function Apply(c: Config, r: Run, step: Step): Run {
    match step
    case Arrive(pts) =>
      var item := Item(pts, |r.accepted|);
      var o := Push(c, r.state, item);
      if o.status == Ok then Run(o.state, r.accepted + [item], r.popped, r.lost + o.lost) else r
    case Ask(watermark) =>
      var (state, packet) := Pop(c, r.state, watermark);
      r.(state := state, popped := if packet.Some? then r.popped + [packet.value] else r.popped)
    case CloseAll =>
      r.(state := Shut(r.state), lost := r.lost + r.state.items)
  }

  function After(c: Config, steps: seq<Step>): Run {
    if steps == [] then FRESH else Apply(c, After(c, Front(steps)), Final(steps))
  }

  /** Presentation order, arrivals of one instant in order of arrival. */
  predicate Precedes(a: Item, b: Item) {
    a.pts < b.pts || (a.pts == b.pts && a.arrival < b.arrival)
  }

  ghost predicate InOrder(s: seq<Item>) {
    forall i, j :: 0 <= i < j < |s| ==> Precedes(s[i], s[j])
  }

  ghost predicate Ordered(r: Run) {
    && InOrder(r.popped + r.state.items)
    && (forall x :: x in r.popped + r.state.items ==> x.arrival < |r.accepted|)
    && r.state.lastOutput == (if r.popped == [] then UNSET else Final(r.popped).pts)
    && (forall x :: x in r.popped ==> IsRange(x.pts))
  }

  ghost predicate Balanced(r: Run) {
    multiset(r.accepted) == multiset(r.popped) + multiset(r.state.items) + multiset(r.lost)
  }

  ghost predicate Fits(c: Config, r: Run) {
    |r.state.items| <= c.Capacity() && (forall x :: x in r.state.items ==> IsRange(x.pts))
  }

  /** Nothing was handed out that some watermark up to `highest` did not make due. */
  ghost predicate NotAhead(c: Config, r: Run, highest: int) {
    r.popped != [] ==> r.state.lastOutput <= highest - c.Latency()
  }

  ghost predicate AllPrecede(a: seq<Item>, b: seq<Item>) {
    forall x, y :: x in a && y in b ==> Precedes(x, y)
  }

  lemma InOrderSplits(a: seq<Item>, b: seq<Item>)
    ensures InOrder(a + b) <==> InOrder(a) && InOrder(b) && AllPrecede(a, b)
  {
    var all := a + b;
    assert forall i :: 0 <= i < |a| ==> all[i] == a[i];
    assert forall i :: 0 <= i < |b| ==> all[|a| + i] == b[i];
    if InOrder(all) {
      forall i, j | 0 <= i < j < |b|
        ensures Precedes(b[i], b[j])
      {
        assert Precedes(all[|a| + i], all[|a| + j]);
      }
      forall x, y | x in a && y in b
        ensures Precedes(x, y)
      {
        var i :| 0 <= i < |a| && a[i] == x;
        var j :| 0 <= j < |b| && b[j] == y;
        assert Precedes(all[i], all[|a| + j]);
      }
    }
  }

  lemma InsertedContents(items: seq<Item>, item: Item)
    ensures multiset(Inserted(items, item)) == multiset(items) + multiset{item}
    ensures forall x :: x in Inserted(items, item) <==> x in items || x == item
  {
    var k := UpperBound(items, item.pts);
    assert items == items[..k] + items[k..];
    assert forall x :: x in Inserted(items, item) <==> x in items[..k] || x == item || x in items[k..];
  }

  lemma InsertKeepsItemsInOrder(items: seq<Item>, item: Item)
    requires InOrder(items)
    requires forall x :: x in items ==> x.arrival < item.arrival
    ensures InOrder(Inserted(items, item))
  {
    var k := UpperBound(items, item.pts);
    var left, right := items[..k], items[k..];
    assert items == left + right;
    InOrderSplits(left, right);
    RightIsLater(right, item);
    assert AllPrecede(left, [item]) by {
      assert forall x :: x in left ==> x in items;
    }
    InOrderSplits(left, [item]);
    assert AllPrecede(left + [item], right);
    InOrderSplits(left + [item], right);
  }

  lemma InsertKeepsOrder(before: seq<Item>, items: seq<Item>, item: Item)
    requires InOrder(before + items)
    requires forall x :: x in before ==> x.pts < item.pts
    requires forall x :: x in items ==> x.arrival < item.arrival
    ensures InOrder(before + Inserted(items, item))
    ensures multiset(Inserted(items, item)) == multiset(items) + multiset{item}
    ensures forall x :: x in Inserted(items, item) <==> x in items || x == item
  {
    InOrderSplits(before, items);
    InsertKeepsItemsInOrder(items, item);
    InsertedContents(items, item);
    InOrderSplits(before, Inserted(items, item));
  }

  lemma RightIsLater(right: seq<Item>, item: Item)
    requires InOrder(right) && (right != [] ==> right[0].pts > item.pts)
    ensures forall x :: x in right ==> x.pts > item.pts
  {
    forall x | x in right
      ensures x.pts > item.pts
    {
      var i :| 0 <= i < |right| && right[i] == x;
      assert i > 0 ==> Precedes(right[0], right[i]);
    }
  }

  lemma DropKeepsOrder(before: seq<Item>, items: seq<Item>)
    requires InOrder(before + items) && items != []
    ensures InOrder(before + items[1..])
    ensures multiset(items) == multiset{items[0]} + multiset(items[1..])
    ensures forall x :: x in items[1..] ==> x in items && Precedes(items[0], x)
  {
    assert items == [items[0]] + items[1..];
    InOrderSplits(before, items);
    InOrderSplits([items[0]], items[1..]);
    InOrderSplits(before, items[1..]);
  }

  /** Every time handed out is at most the last one. */
  lemma LastIsLatest(r: Run, x: Item)
    requires Ordered(r) && x in r.popped
    ensures x.pts <= r.state.lastOutput && IsRange(r.state.lastOutput)
  {
    var all := r.popped + r.state.items;
    var i :| 0 <= i < |r.popped| && r.popped[i] == x;
    assert all[i] == x && all[|r.popped| - 1] == Final(r.popped);
  }

  lemma HeldInOrder(r: Run)
    requires Ordered(r)
    ensures InOrder([] + r.state.items)
    ensures forall x :: x in r.state.items ==> x.arrival < |r.accepted|
  {
    InOrderSplits(r.popped, r.state.items);
    assert [] + r.state.items == r.state.items;
  }

  /** Everything handed out is earlier than a packet that is not late. */
  lemma NotLateIsLater(r: Run, pts: Timestamp)
    requires Ordered(r) && !Late(r.state, pts)
    ensures forall x :: x in r.popped ==> x.pts < pts
  {
    forall x | x in r.popped
      ensures x.pts < pts
    {
      LastIsLatest(r, x);
    }
  }

  lemma ArriveKeeps(c: Config, r: Run, pts: Timestamp)
    requires Ordered(r) && Balanced(r) && Fits(c, r)
    ensures
      var r' := Apply(c, r, Arrive(pts));
      Ordered(r') && Balanced(r') && Fits(c, r')
  {
    var item := Item(pts, |r.accepted|);
    if !r.state.closed && IsRange(pts) {
      if Late(r.state, pts) {
        assert Apply(c, r, Arrive(pts)) == Run(r.state, r.accepted + [item], r.popped, r.lost + [item]);
      } else {
        AdmitKeeps(c, r, item);
      }
    }
  }

  /** The run as it stands between the insertion and the check against the capacity. */
  function Grown(r: Run, item: Item): Run {
    Run(r.state.(items := Inserted(r.state.items, item)), r.accepted + [item], r.popped, r.lost)
  }

  lemma GrownKeeps(r: Run, item: Item)
    requires Ordered(r) && Balanced(r) && !Late(r.state, item.pts) && item.arrival == |r.accepted|
    ensures Ordered(Grown(r, item)) && Balanced(Grown(r, item))
  {
    NotLateIsLater(r, item.pts);
    HeldInOrder(r);
    InsertKeepsOrder(r.popped, r.state.items, item);
    assert multiset(r.accepted + [item]) == multiset(r.accepted) + multiset{item};
  }

  /** Dropping the front of a run's buffer. */
  lemma DropKeeps(r: Run)
    requires Ordered(r) && Balanced(r) && r.state.items != []
    ensures
      var r' := r.(state := r.state.(items := r.state.items[1..]), lost := r.lost + [r.state.items[0]]);
      Ordered(r') && Balanced(r')
  {
    DropKeepsOrder(r.popped, r.state.items);
    assert multiset(r.lost + [r.state.items[0]]) == multiset(r.lost) + multiset{r.state.items[0]};
  }

  lemma AdmitKeeps(c: Config, r: Run, item: Item)
    requires Ordered(r) && Balanced(r) && Fits(c, r)
    requires !r.state.closed && IsRange(item.pts) && !Late(r.state, item.pts) && item.arrival == |r.accepted|
    ensures
      var r' := Apply(c, r, Arrive(item.pts));
      Ordered(r') && Balanced(r') && Fits(c, r')
  {
    var r' := Apply(c, r, Arrive(item.pts));
    var items := Inserted(r.state.items, item);
    GrownKeeps(r, item);
    InsertedContents(r.state.items, item);
    if |items| > c.Capacity() {
      DropKeeps(Grown(r, item));
    } else {
      assert r' == Grown(r, item).(lost := r.lost + []);
      assert r.lost + [] == r.lost;
    }
  }

  lemma AskKeeps(c: Config, r: Run, watermark: Timestamp)
    requires Ordered(r) && Balanced(r) && Fits(c, r)
    ensures
      var r' := Apply(c, r, Ask(watermark));
      Ordered(r') && Balanced(r') && Fits(c, r')
  {
    var items := r.state.items;
    if items != [] && Due(c, watermark, items[0].pts) {
      DropKeepsOrder(r.popped, items);
      assert r.popped + items == (r.popped + [items[0]]) + items[1..];
      assert Final(r.popped + [items[0]]) == items[0];
      assert items[0] in items;
    }
  }

  lemma CloseKeeps(c: Config, r: Run)
    requires Ordered(r) && Balanced(r) && Fits(c, r)
    ensures
      var r' := Apply(c, r, CloseAll);
      Ordered(r') && Balanced(r') && Fits(c, r')
  {
    assert forall i :: 0 <= i < |r.popped| ==> (r.popped + r.state.items)[i] == r.popped[i];
    assert r.popped + [] == r.popped;
  }

  lemma {:induction false} RunKeeps(c: Config, steps: seq<Step>)
    ensures
      var r := After(c, steps);
      Ordered(r) && Balanced(r) && Fits(c, r)
  {
    if steps != [] {
      RunKeeps(c, Front(steps));
      var r := After(c, Front(steps));
      match Final(steps)
      case Arrive(pts) => ArriveKeeps(c, r, pts);
      case Ask(watermark) => AskKeeps(c, r, watermark);
      case CloseAll => CloseKeeps(c, r);
    }
  }

  /**
    Whatever arrives, what was handed out followed by what is held is in presentation order, and nothing goes
    missing.
    */
  lemma OutputIsInPresentationOrder(c: Config, steps: seq<Step>)
    ensures
      var r := After(c, steps);
      && InOrder(r.popped + r.state.items)
      && |r.state.items| <= c.Capacity()
      && multiset(r.accepted) == multiset(r.popped) + multiset(r.state.items) + multiset(r.lost)
  {
    RunKeeps(c, steps);
  }

  lemma HeadIsEarliest(a: seq<Item>, x: Item)
    requires InOrder(a) && x in a
    ensures x == a[0] || Precedes(a[0], x)
  {
    var i :| 0 <= i < |a| && a[i] == x;
    if i > 0 {
      assert Precedes(a[0], a[i]);
    }
  }

  lemma SameHead(a: seq<Item>, b: seq<Item>)
    requires InOrder(a) && InOrder(b) && a != [] && b != [] && multiset(a) == multiset(b)
    ensures a[0] == b[0]
  {
    assert a[0] in multiset(b) && b[0] in multiset(a);
    HeadIsEarliest(a, b[0]);
    HeadIsEarliest(b, a[0]);
  }

  lemma {:induction false} OrderIsUnique(a: seq<Item>, b: seq<Item>)
    requires InOrder(a) && InOrder(b) && multiset(a) == multiset(b)
    ensures a == b
  {
    assert |a| == |multiset(a)| == |multiset(b)| == |b|;
    if a != [] {
      SameHead(a, b);
      assert a == [a[0]] + a[1..] && b == [b[0]] + b[1..];
      InOrderSplits([a[0]], a[1..]);
      InOrderSplits([b[0]], b[1..]);
      assert multiset(a[1..]) == multiset(a) - multiset{a[0]};
      assert multiset(b[1..]) == multiset(b) - multiset{b[0]};
      OrderIsUnique(a[1..], b[1..]);
    }
  }

  /** While nothing is lost the buffer is a stable sort: output and contents are the one ordering of what arrived. */
  lemma LosslessRunIsStableSort(c: Config, steps: seq<Step>, sorted: seq<Item>)
    requires After(c, steps).lost == []
    requires InOrder(sorted) && multiset(sorted) == multiset(After(c, steps).accepted)
    ensures After(c, steps).popped + After(c, steps).state.items == sorted
  {
    RunKeeps(c, steps);
    var r := After(c, steps);
    assert multiset(r.popped + r.state.items) == multiset(r.popped) + multiset(r.state.items);
    OrderIsUnique(r.popped + r.state.items, sorted);
  }

  /** `x` is the earliest of the held packets and the new one. */
  ghost predicate Earliest(items: seq<Item>, item: Item, x: Item) {
    && (x == item || x in items)
    && (x == item || Precedes(x, item))
    && forall y :: y in items && y != x ==> Precedes(x, y)
  }

  /**
    An accepted arrival costs a packet exactly when it is late, and then itself, or finds the buffer full, and then
    the earliest packet at hand, which may be the new one.
    */
  lemma ArrivalLosesExactlyWhen(c: Config, steps: seq<Step>, pts: Timestamp)
    ensures
      var r := After(c, steps);
      var r' := Apply(c, r, Arrive(pts));
      var item := Item(pts, |r.accepted|);
      if r.state.closed || !IsRange(pts) then r' == r
      else if Late(r.state, pts) then r'.lost == r.lost + [item] && r'.state == r.state
      else if |r.state.items| < c.Capacity() then r'.lost == r.lost && item in r'.state.items
      else exists x :: Earliest(r.state.items, item, x) && r'.lost == r.lost + [x]
  {
    RunKeeps(c, steps);
    var r := After(c, steps);
    var item := Item(pts, |r.accepted|);
    if !r.state.closed && IsRange(pts) && !Late(r.state, pts) {
      var items := Inserted(r.state.items, item);
      HeldInOrder(r);
      InsertKeepsOrder([], r.state.items, item);
      assert item in multiset(items);
      if |r.state.items| >= c.Capacity() {
        DropKeepsOrder([], items);
        FrontIsEarliest(r.state.items, item, items);
        assert Apply(c, r, Arrive(pts)).lost == r.lost + [items[0]];
      }
    }
  }

  lemma FrontIsEarliest(items: seq<Item>, item: Item, grown: seq<Item>)
    requires multiset(grown) == multiset(items) + multiset{item} && grown != []
    requires forall x :: x in grown[1..] ==> Precedes(grown[0], x)
    ensures Earliest(items, item, grown[0])
  {
    assert grown == [grown[0]] + grown[1..];
    assert grown[0] in multiset(grown) && item in multiset(grown);
    forall y | y in items
      ensures y == grown[0] || y in grown[1..]
    {
      assert y in multiset(grown);
    }
  }

  /** Asking yields nothing exactly when no held packet is due, and otherwise the earliest of them all. */
  lemma AskYieldsExactlyWhen(c: Config, steps: seq<Step>, watermark: Timestamp)
    ensures
      var r := After(c, steps);
      var (_, packet) := Pop(c, r.state, watermark);
      && (packet.None? <==> forall x :: x in r.state.items ==> !Due(c, watermark, x.pts))
      && (packet.Some? ==> packet.value in r.state.items && Due(c, watermark, packet.value.pts))
      && (packet.Some? ==> forall x :: x in r.state.items && x != packet.value ==> Precedes(packet.value, x))
  {
    RunKeeps(c, steps);
    var r := After(c, steps);
    var items := r.state.items;
    HeldInOrder(r);
    assert [] + items == items;
    forall x | x in items
      ensures x == items[0] || Precedes(items[0], x)
    {
      HeadIsEarliest(items, x);
    }
  }

  ghost predicate WatermarksUpTo(steps: seq<Step>, highest: int) {
    forall i :: 0 <= i < |steps| && steps[i].Ask? ==> steps[i].watermark <= highest
  }

  lemma StepTrails(c: Config, r: Run, step: Step, highest: int)
    requires NotAhead(c, r, highest) && (step.Ask? ==> step.watermark <= highest)
    ensures NotAhead(c, Apply(c, r, step), highest)
  {
  }

  lemma {:induction false} OutputTrailsWatermark(c: Config, steps: seq<Step>, highest: int)
    requires WatermarksUpTo(steps, highest)
    ensures NotAhead(c, After(c, steps), highest)
  {
    if steps != [] {
      assert forall i :: 0 <= i < |Front(steps)| ==> Front(steps)[i] == steps[i];
      OutputTrailsWatermark(c, Front(steps), highest);
      StepTrails(c, After(c, Front(steps)), Final(steps), highest);
    }
  }

  /** A packet newer than every watermark so far less the latency is never late: the latency is the promised slack. */
  lemma WithinLatencyIsNeverLate(c: Config, steps: seq<Step>, highest: int, pts: Timestamp)
    requires WatermarksUpTo(steps, highest)
    requires pts > highest - c.Latency()
    ensures !Late(After(c, steps).state, pts)
  {
    OutputTrailsWatermark(c, steps, highest);
    RunKeeps(c, steps);
  }
}
