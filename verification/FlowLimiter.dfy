/** The node that lets a bounded number of packets be in flight and parks the rest until a consumer reports back. */
module FlowLimiters {
  import opened Basics
  import opened Packets
  import opened Sequences
  import opened BoundedQueues
  import Edges = EdgeStreams

  datatype Config = Config(maxInFlight: nat, capacity: nat, policy: QueuePolicy)

  ghost predicate Configured(c: Config) {
    c.maxInFlight > 0
  }

  datatype LimiterState = LimiterState(inFlight: nat, pending: seq<Packet>)

  datatype Outcome = Outcome(state: LimiterState, emitted: seq<Packet>, dropped: seq<Packet>)

  /** One report that a packet is finished; reports beyond the ones owed are ignored. */
  function OnFinished(c: Config, s: LimiterState): Outcome {
    var free := if s.inFlight != 0 then s.inFlight - 1 else 0;
    if s.pending != [] && free < c.maxInFlight
    then Outcome(LimiterState(free + 1, s.pending[1..]), [s.pending[0]], [])
    else Outcome(s.(inFlight := free), [], [])
  }

  function OnInput(c: Config, s: LimiterState, p: Packet): Outcome {
    if p.event != NoEvent then Outcome(s, [p], [])
    else if s.inFlight < c.maxInFlight then Outcome(s.(inFlight := s.inFlight + 1), [p], [])
    else if c.capacity == 0 then Outcome(s, [], [p])
    else if |s.pending| < c.capacity then Outcome(s.(pending := s.pending + [p]), [], [])
    else Overflow(c, s, p)
  }

  function Overflow(c: Config, s: LimiterState, p: Packet): Outcome {
    if c.policy != DropOldest || s.pending == [] then Outcome(s, [], [p])
    else Outcome(s.(pending := s.pending[1..] + [p]), [], [s.pending[0]])
  }

  class FlowLimiter {
    const config: Config
    var inFlight: nat
    var pending: seq<Packet>

    constructor (config: Config)
      ensures this.config == config && View() == LimiterState(0, [])
    {
      this.config := config;
      inFlight, pending := 0, [];
    }

    ghost function View(): LimiterState
      reads this
    {
      LimiterState(inFlight, pending)
    }

    method Finished() returns (emitted: seq<Packet>)
      modifies this
      ensures View() == OnFinished(config, old(View())).state && emitted == OnFinished(config, old(View())).emitted
    {
      if inFlight != 0 {
        inFlight := inFlight - 1;
      }
      if pending != [] && inFlight < config.maxInFlight {
        emitted := [pending[0]];
        pending := pending[1..];
        inFlight := inFlight + 1;
        return;
      }
      emitted := [];
    }

    method Process(packet: Packet) returns (emitted: seq<Packet>, counted: bool)
      modifies this
      ensures View() == OnInput(config, old(View()), packet).state
      ensures emitted == OnInput(config, old(View()), packet).emitted
      ensures counted <==> OnInput(config, old(View()), packet).dropped != []
    {
      counted := false;
      if packet.event != NoEvent {
        return [packet], counted;
      }
      if inFlight < config.maxInFlight {
        inFlight := inFlight + 1;
        return [packet], counted;
      }
      if config.capacity == 0 {
        return [], true;
      }
      if |pending| >= config.capacity {
        counted := true;
        if config.policy == DropNewest || config.policy == Block {
          return [], counted;
        }
        pending := pending[1..];
      }
      pending := pending + [packet];
      emitted := [];
    }
  }

  // ---------------------------------------------------------------------------
  // Runs
  // ---------------------------------------------------------------------------

  datatype Step = Report | Arrive(packet: Packet)

  /** A limiter with its history; `settled` counts the reports that gave back a slot. */
  datatype Run = Run(
    state: LimiterState, arrived: seq<Packet>, out: seq<Packet>, dropped: seq<Packet>, reports: nat, settled: nat)

  const FRESH := Run(LimiterState(0, []), [], [], [], 0, 0)

  function Apply(c: Config, r: Run, step: Step): Run {
    match step
    case Report =>
      var o := OnFinished(c, r.state);
      r.(state := o.state, out := r.out + o.emitted, reports := r.reports + 1,
         settled := r.settled + if r.state.inFlight != 0 then 1 else 0)
    case Arrive(p) =>
      var o := OnInput(c, r.state, p);
      r.(state := o.state, arrived := r.arrived + [p], out := r.out + o.emitted, dropped := r.dropped + o.dropped)
  }

  function After(c: Config, steps: seq<Step>): Run {
    if steps == [] then FRESH else Apply(c, After(c, Front(steps)), Final(steps))
  }

  function Data(s: seq<Packet>): seq<Packet> {
    if s == [] then []
    else if Final(s).event == NoEvent then Data(Front(s)) + [Final(s)]
    else Data(Front(s))
  }

  lemma DataAppends(s: seq<Packet>, p: Packet)
    ensures Data(s + [p]) == if p.event == NoEvent then Data(s) + [p] else Data(s)
  {
    assert Front(s + [p]) == s;
  }

  ghost predicate Bounded(c: Config, r: Run) {
    && r.state.inFlight <= c.maxInFlight
    && |r.state.pending| <= c.capacity
    && (r.state.pending != [] ==> r.state.inFlight == c.maxInFlight)
    && (forall p :: p in r.state.pending ==> p.event == NoEvent)
  }

  ghost predicate InOrder(r: Run) {
    Subsequence(Data(r.out) + r.state.pending, Data(r.arrived))
  }

  ghost predicate Accounted(arrived: seq<Packet>, out: seq<Packet>, pending: seq<Packet>, dropped: seq<Packet>) {
    multiset(arrived) == multiset(out) + multiset(pending) + multiset(dropped)
  }

  ghost predicate Balanced(r: Run) {
    Accounted(Data(r.arrived), Data(r.out), r.state.pending, r.dropped)
  }

  /** Every slot in use or given back was taken by one data packet. */
  ghost predicate Owed(r: Run) {
    && |Data(r.out)| == r.state.inFlight + r.settled
    && r.settled <= r.reports
  }

  ghost predicate Inv(c: Config, r: Run) {
    Bounded(c, r) && InOrder(r) && Balanced(r) && Owed(r)
  }

  /** While data is parked a report releases the packet parked longest; otherwise it releases nothing. */
  lemma ReportReleases(c: Config, r: Run)
    requires Configured(c) && Bounded(c, r)
    ensures
      var r' := Apply(c, r, Report);
      var pending := r.state.pending;
      && Bounded(c, r')
      && r'.out == (if pending == [] then r.out else r.out + [pending[0]])
      && r'.state.pending == (if pending == [] then [] else pending[1..])
  {
    assert r.out + [] == r.out;
  }

  lemma ReportKeeps(c: Config, r: Run)
    requires Configured(c) && Inv(c, r)
    ensures Inv(c, Apply(c, r, Report))
  {
    ReportReleases(c, r);
    if r.state.pending != [] {
      DataAppends(r.out, r.state.pending[0]);
      ParkedMoves(Data(r.arrived), Data(r.out), r.state.pending, r.dropped);
      ReportKeepsOrder(Data(r.out), r.state.pending, Data(r.arrived));
    }
    assert Owed(Apply(c, r, Report));
  }

  lemma ReportKeepsOrder(out: seq<Packet>, pending: seq<Packet>, arrived: seq<Packet>)
    requires Subsequence(out + pending, arrived) && pending != []
    ensures Subsequence(out + [pending[0]] + pending[1..], arrived)
  {
    assert out + [pending[0]] + pending[1..] == out + pending;
  }

  lemma ParkedMoves(arrived: seq<Packet>, out: seq<Packet>, pending: seq<Packet>, dropped: seq<Packet>)
    requires Accounted(arrived, out, pending, dropped) && pending != []
    ensures Accounted(arrived, out + [pending[0]], pending[1..], dropped)
  {
    assert pending == [pending[0]] + pending[1..];
    assert multiset(pending) == multiset{pending[0]} + multiset(pending[1..]);
  }

  lemma ArriveKeepsBounds(c: Config, r: Run, p: Packet)
    requires Configured(c) && Bounded(c, r)
    ensures Bounded(c, Apply(c, r, Arrive(p)))
  {
  }

  /** A newcomer joins the end of a log, or stays out of it; the front of the parked part can be given up. */
  lemma LogSteps(out: seq<Packet>, pending: seq<Packet>, arrived: seq<Packet>, p: Packet)
    requires Subsequence(out + pending, arrived)
    ensures Subsequence(out + pending, arrived + [p])
    ensures Subsequence(out + (pending + [p]), arrived + [p])
    ensures pending != [] ==> Subsequence(out + (pending[1..] + [p]), arrived + [p])
  {
    SubsequenceAppend(out + pending, arrived, p);
    assert out + (pending + [p]) == out + pending + [p];
    if pending != [] {
      assert out + pending == out + [pending[0]] + pending[1..];
      SubsequenceDrop(out, pending[0], pending[1..], arrived);
      SubsequenceAppend(out + pending[1..], arrived, p);
      assert out + (pending[1..] + [p]) == out + pending[1..] + [p];
    }
  }

  /** A data packet joins the log, is left out of it, or pushes out the packet parked longest. */
  lemma InputKeepsLog(c: Config, s: LimiterState, p: Packet, out: seq<Packet>, arrived: seq<Packet>)
    requires p.event == NoEvent && Subsequence(out + s.pending, arrived)
    requires s.pending != [] ==> s.inFlight >= c.maxInFlight
    ensures
      var o := OnInput(c, s, p);
      Subsequence(out + o.emitted + o.state.pending, arrived + [p])
  {
    InputShape(c, s, p);
    LogSteps(out, s.pending, arrived, p);
    EmptyEnds(out, OnInput(c, s, p).state.pending, p);
  }

  lemma EmptyEnds(out: seq<Packet>, pending: seq<Packet>, p: Packet)
    ensures out + [] + pending == out + pending
    ensures pending == [] ==> out + [p] + pending == out + (pending + [p])
  {
  }

  lemma ArriveKeepsOrder(c: Config, r: Run, p: Packet)
    requires Bounded(c, r) && InOrder(r)
    ensures InOrder(Apply(c, r, Arrive(p)))
  {
    var o := OnInput(c, r.state, p);
    DataAppends(r.arrived, p);
    if p.event == NoEvent {
      InputShape(c, r.state, p);
      EmittedData(r.out, o.emitted, p);
      InputKeepsLog(c, r.state, p, Data(r.out), Data(r.arrived));
    } else {
      EmittedData(r.out, [p], p);
    }
  }

  lemma ArriveKeepsBalance(c: Config, r: Run, p: Packet)
    requires Balanced(r)
    ensures Balanced(Apply(c, r, Arrive(p)))
  {
    if p.event == NoEvent {
      DataKeepsBalance(c, r, p);
    } else {
      DataAppends(r.arrived, p);
      EmittedData(r.out, [p], p);
      assert r.dropped + [] == r.dropped;
    }
  }

  lemma DataKeepsBalance(c: Config, r: Run, p: Packet)
    requires Balanced(r) && p.event == NoEvent
    ensures Balanced(Apply(c, r, Arrive(p)))
  {
    var o := OnInput(c, r.state, p);
    InputConserves(c, r.state, p);
    CountsAdd(Data(r.arrived), Data(r.out), r.state.pending, r.dropped, p, o);
    DataAppends(r.arrived, p);
    EmittedData(r.out, o.emitted, p);
  }

  lemma EmittedData(out: seq<Packet>, emitted: seq<Packet>, p: Packet)
    requires emitted in {[], [p]}
    ensures Data(out + emitted) == if p.event == NoEvent then Data(out) + emitted else Data(out)
  {
    assert out + [] == out && Data(out) + [] == Data(out);
    DataAppends(out, p);
  }

  ghost predicate Conserves(pending: seq<Packet>, p: Packet, o: Outcome) {
    multiset(pending + [p]) == multiset(o.emitted + o.state.pending + o.dropped)
  }

  lemma ShapesConserve(pending: seq<Packet>, p: Packet, inFlight: nat)
    ensures Conserves(pending, p, Outcome(LimiterState(inFlight, pending), [p], []))
    ensures Conserves(pending, p, Outcome(LimiterState(inFlight, pending + [p]), [], []))
    ensures Conserves(pending, p, Outcome(LimiterState(inFlight, pending), [], [p]))
  {
    assert [] + (pending + [p]) + [] == pending + [p];
    assert [] + pending + [p] == pending + [p];
    assert [p] + pending + [] == [p] + pending;
  }

  lemma DisplacingConserves(pending: seq<Packet>, p: Packet, inFlight: nat)
    requires pending != []
    ensures Conserves(pending, p, Outcome(LimiterState(inFlight, pending[1..] + [p]), [], [pending[0]]))
  {
    assert pending + [p] == [pending[0]] + (pending[1..] + [p]);
    assert [] + (pending[1..] + [p]) + [pending[0]] == (pending[1..] + [p]) + [pending[0]];
  }

  /** What a data packet can lead to: emitted, parked, dropped, or parked in place of the one parked longest. */
  lemma InputShape(c: Config, s: LimiterState, p: Packet)
    requires p.event == NoEvent
    ensures
      var o := OnInput(c, s, p);
      || (o == Outcome(LimiterState(s.inFlight + 1, s.pending), [p], []) && s.inFlight < c.maxInFlight)
      || o == Outcome(LimiterState(s.inFlight, s.pending + [p]), [], [])
      || o == Outcome(LimiterState(s.inFlight, s.pending), [], [p])
      || (s.pending != [] && o == Outcome(LimiterState(s.inFlight, s.pending[1..] + [p]), [], [s.pending[0]]))
  {
  }

  /** The parked packets and the newcomer are what is emitted, parked and dropped next. */
  lemma InputConserves(c: Config, s: LimiterState, p: Packet)
    requires p.event == NoEvent
    ensures Conserves(s.pending, p, OnInput(c, s, p)) && OnInput(c, s, p).emitted in {[], [p]}
  {
    InputShape(c, s, p);
    ShapesConserve(s.pending, p, OnInput(c, s, p).state.inFlight);
    if s.pending != [] {
      DisplacingConserves(s.pending, p, s.inFlight);
    }
  }

  lemma CountsAdd(
    arrived: seq<Packet>, out: seq<Packet>, pending: seq<Packet>, dropped: seq<Packet>, p: Packet, o: Outcome)
    requires Accounted(arrived, out, pending, dropped)
    requires Conserves(pending, p, o)
    ensures Accounted(arrived + [p], out + o.emitted, o.state.pending, dropped + o.dropped)
  {
    assert multiset(arrived + [p]) == multiset(out) + multiset(dropped) + multiset(pending + [p]);
  }

  lemma ArriveKeepsOwed(c: Config, r: Run, p: Packet)
    requires Owed(r)
    ensures Owed(Apply(c, r, Arrive(p)))
  {
    DataAppends(r.out, p);
    assert r.out + [] == r.out;
  }

  lemma {:induction false} RunKeeps(c: Config, steps: seq<Step>)
    requires Configured(c)
    ensures Inv(c, After(c, steps))
  {
    if steps != [] {
      RunKeeps(c, Front(steps));
      var r := After(c, Front(steps));
      match Final(steps)
      case Report => ReportKeeps(c, r);
      case Arrive(p) =>
        ArriveKeepsBounds(c, r, p);
        ArriveKeepsOrder(c, r, p);
        ArriveKeepsBalance(c, r, p);
        ArriveKeepsOwed(c, r, p);
    }
  }

  /** Slots and parking places are never exceeded, and packets are parked only while every slot is taken. */
  lemma LimitIsKept(c: Config, steps: seq<Step>)
    requires Configured(c)
    ensures
      var r := After(c, steps);
      && r.state.inFlight <= c.maxInFlight
      && |r.state.pending| <= c.capacity
      && (r.state.pending != [] ==> r.state.inFlight == c.maxInFlight)
      && |Data(r.out)| == r.state.inFlight + r.settled
      && |Data(r.out)| <= c.maxInFlight + r.reports
  {
    RunKeeps(c, steps);
  }

  /** Data leaves in arrival order, and every data packet is out, parked or dropped. */
  lemma DataLeavesInOrder(c: Config, steps: seq<Step>)
    requires Configured(c)
    ensures
      var r := After(c, steps);
      && Subsequence(Data(r.out) + r.state.pending, Data(r.arrived))
      && multiset(Data(r.arrived)) == multiset(Data(r.out)) + multiset(r.state.pending) + multiset(r.dropped)
  {
    RunKeeps(c, steps);
  }

  /** At every step so far the slots in use were owed a report when one came. */
  ghost predicate NoSpareReports(c: Config, steps: seq<Step>)
  {
    steps == [] ||
    (NoSpareReports(c, Front(steps)) && (Final(steps).Report? ==> After(c, Front(steps)).state.inFlight != 0))
  }

  /**
    The slots in use are the data emitted less the reports received exactly when no report came with no slot in use.
    */
  lemma {:induction false} SlotsAreExactIff(c: Config, steps: seq<Step>)
    requires Configured(c)
    ensures
      var r := After(c, steps);
      r.state.inFlight == |Data(r.out)| - r.reports <==> NoSpareReports(c, steps)
  {
    RunKeeps(c, steps);
    AllSettledIff(c, steps);
  }

  lemma {:induction false} AllSettledIff(c: Config, steps: seq<Step>)
    requires Configured(c)
    ensures After(c, steps).settled == After(c, steps).reports <==> NoSpareReports(c, steps)
  {
    if steps != [] {
      AllSettledIff(c, Front(steps));
      RunKeeps(c, Front(steps));
      SettleStep(c, After(c, Front(steps)), Final(steps));
    }
  }

  lemma SettleStep(c: Config, r: Run, step: Step)
    requires r.settled <= r.reports
    ensures
      var r' := Apply(c, r, step);
      r'.settled == r'.reports <==> r.settled == r.reports && (step.Report? ==> r.state.inFlight != 0)
  {
  }

  // ---------------------------------------------------------------------------
  // Events and parked data
  // ---------------------------------------------------------------------------

  ghost predicate AllFollow(a: seq<Packet>, b: seq<Packet>) {
    forall x, y :: x in a && y in b ==> Edges.Follows(x, y)
  }

  /**
    A stream in two parts is disciplined exactly when each part is and everything in the second may follow the first.
    */
  lemma DisciplineSplits(a: seq<Packet>, b: seq<Packet>)
    ensures Edges.StreamDiscipline(a + b) <==> Edges.StreamDiscipline(a) && Edges.StreamDiscipline(b) && AllFollow(a, b)
  {
    var all := a + b;
    assert forall i :: 0 <= i < |a| ==> all[i] == a[i];
    assert forall i :: 0 <= i < |b| ==> all[|a| + i] == b[i];
    if Edges.StreamDiscipline(all) {
      Edges.PrefixKeepsDiscipline(a, b);
      forall i, j | 0 <= i < j < |b|
        ensures Edges.Follows(b[i], b[j])
      {
        assert Edges.Follows(all[|a| + i], all[|a| + j]);
      }
      forall x, y | x in a && y in b
        ensures Edges.Follows(x, y)
      {
        var i :| 0 <= i < |a| && a[i] == x;
        var j :| 0 <= j < |b| && b[j] == y;
        assert Edges.Follows(all[i], all[|a| + j]);
      }
    } else if Edges.StreamDiscipline(a) && Edges.StreamDiscipline(b) && AllFollow(a, b) {
      forall i, j | 0 <= i < j < |all|
        ensures Edges.Follows(all[i], all[j])
      {
        assert i < |a| <= j ==> a[i] in a && b[j - |a|] in b;
      }
    }
  }

  /** Every event that arrives may be followed by the data parked at that moment. */
  ghost predicate EventsMayPass(c: Config, steps: seq<Step>) {
    steps == [] ||
    (EventsMayPass(c, Front(steps)) && MayPass(After(c, Front(steps)).state.pending, Final(steps)))
  }

  ghost predicate MayPass(parked: seq<Packet>, step: Step) {
    step.Arrive? && step.packet.event != NoEvent ==> forall q :: q in parked ==> Edges.Follows(step.packet, q)
  }

  /** What has left and what is parked came in, and would be disciplined if it were all released now. */
  ghost predicate Releasable(r: Run) {
    && (forall x :: x in r.out + r.state.pending ==> x in r.arrived)
    && Edges.StreamDiscipline(r.out + r.state.pending)
  }

  lemma NewcomerFollows(r: Run, p: Packet)
    requires Releasable(r) && Edges.StreamDiscipline(r.arrived + [p])
    ensures AllFollow(r.out, [p]) && AllFollow(r.out + r.state.pending, [p])
    ensures Edges.StreamDiscipline([p])
  {
    DisciplineSplits(r.arrived, [p]);
  }

  lemma EventStays(c: Config, r: Run, e: Packet)
    requires e.event != NoEvent && Releasable(r) && Edges.StreamDiscipline(r.arrived + [e])
    requires MayPass(r.state.pending, Arrive(e))
    ensures Releasable(Apply(c, r, Arrive(e)))
  {
    var out, parked := r.out, r.state.pending;
    NewcomerFollows(r, e);
    DisciplineSplits(out, parked);
    DisciplineSplits(out, [e]);
    DisciplineSplits(out + [e], parked);
  }

  lemma DataStays(c: Config, r: Run, p: Packet)
    requires p.event == NoEvent && Releasable(r) && Edges.StreamDiscipline(r.arrived + [p]) && Bounded(c, r)
    ensures Releasable(Apply(c, r, Arrive(p)))
  {
    var out, parked := r.out, r.state.pending;
    var r' := Apply(c, r, Arrive(p));
    NewcomerFollows(r, p);
    DisciplineSplits(out + parked, [p]);
    InputShape(c, r.state, p);
    LogSteps(out, parked, out + parked, p) by {
      SubsequenceSelf(out + parked);
    }
    EmptyEnds(out, r'.state.pending, p);
    assert Subsequence(r'.out + r'.state.pending, out + parked + [p]);
    Edges.SubsequenceKeepsDiscipline(r'.out + r'.state.pending, out + parked + [p]);
    forall x | x in r'.out + r'.state.pending
      ensures x in r'.arrived
    {
      SubsequenceMember(r'.out + r'.state.pending, out + parked + [p], x);
    }
  }

  lemma {:induction false} SubsequenceSelf(s: seq<Packet>)
    ensures Subsequence(s, s)
  {
    if s != [] {
      SubsequenceSelf(Front(s));
    }
  }

  lemma ReportStays(c: Config, r: Run)
    requires Configured(c) && Releasable(r) && Bounded(c, r)
    ensures Releasable(Apply(c, r, Report))
  {
    var r' := Apply(c, r, Report);
    ReportReleases(c, r);
    assert r'.out + r'.state.pending == r.out + r.state.pending;
  }

  lemma {:induction false} StaysReleasable(c: Config, steps: seq<Step>)
    requires Configured(c) && EventsMayPass(c, steps) && Edges.StreamDiscipline(After(c, steps).arrived)
    ensures Releasable(After(c, steps))
  {
    if steps != [] {
      var r, step := After(c, Front(steps)), Final(steps);
      if step.Arrive? {
        DisciplineSplits(r.arrived, [step.packet]);
      }
      StaysReleasable(c, Front(steps));
      RunKeeps(c, Front(steps));
      match step {
        case Report => ReportStays(c, r);
        case Arrive(p) => if p.event == NoEvent { DataStays(c, r, p); } else { EventStays(c, r, p); }
      }
    }
  }

  /** Then a disciplined input stream gives a disciplined output stream. */
  lemma DisciplineIsKept(c: Config, steps: seq<Step>)
    requires Configured(c) && EventsMayPass(c, steps) && Edges.StreamDiscipline(After(c, steps).arrived)
    ensures Edges.StreamDiscipline(After(c, steps).out)
  {
    StaysReleasable(c, steps);
    Edges.PrefixKeepsDiscipline(After(c, steps).out, After(c, steps).state.pending);
  }

  function Reports(k: nat): seq<Step> {
    seq(k, _ => Report)
  }

  /** What `k` more reports have released of what was parked. */
  ghost predicate Released(r: Run, r': Run, k: nat) {
    var n := Min(k, |r.state.pending|);
    r'.out == r.out + r.state.pending[..n] && r'.state.pending == r.state.pending[n..]
  }

  /** The same without cutting: the queue of output and parked packets is as it was, fewer of them parked. */
  ghost predicate Moved(r: Run, r': Run, k: nat) {
    && r'.out + r'.state.pending == r.out + r.state.pending
    && |r'.state.pending| == |r.state.pending| - Min(k, |r.state.pending|)
  }

  lemma MovedIsReleased(r: Run, r': Run, k: nat)
    requires Moved(r, r', k)
    ensures Released(r, r', k)
  {
    var n := Min(k, |r.state.pending|);
    assert r.out + r.state.pending == (r.out + r.state.pending[..n]) + r.state.pending[n..];
    CutAgrees(r'.out, r'.state.pending, r.out + r.state.pending[..n], r.state.pending[n..]);
  }

  lemma CutAgrees(a: seq<Packet>, b: seq<Packet>, c: seq<Packet>, d: seq<Packet>)
    requires a + b == c + d && |b| == |d|
    ensures a == c && b == d
  {
    assert a == (a + b)[..|a|] && c == (c + d)[..|a|];
    assert b == (a + b)[|a|..] && d == (c + d)[|a|..];
  }

  lemma FrontMoves(out: seq<Packet>, parked: seq<Packet>)
    requires parked != []
    ensures (out + [parked[0]]) + parked[1..] == out + parked
  {
  }

  lemma MoveStep(c: Config, r: Run, before: Run, after: Run, k: nat)
    requires Configured(c) && Bounded(c, before) && Moved(r, before, k) && after == Apply(c, before, Report)
    ensures Moved(r, after, k + 1) && Bounded(c, after)
  {
    ReportReleases(c, before);
    if before.state.pending != [] {
      FrontMoves(before.out, before.state.pending);
    }
  }

  lemma LastReport(steps: seq<Step>, k: nat)
    requires k > 0
    ensures Front(steps + Reports(k)) == steps + Reports(k - 1) && Final(steps + Reports(k)) == Report
  {
  }

  /** A run after `k` more reports. */
  function Reported(c: Config, r: Run, k: nat): Run {
    if k == 0 then r else Apply(c, Reported(c, r, k - 1), Report)
  }

  lemma {:induction false} AfterReports(c: Config, steps: seq<Step>, k: nat)
    ensures After(c, steps + Reports(k)) == Reported(c, After(c, steps), k)
  {
    if k == 0 {
      assert steps + Reports(0) == steps;
    } else {
      AfterReports(c, steps, k - 1);
      LastReport(steps, k);
    }
  }

  lemma {:induction false} ReportedMoves(c: Config, r: Run, k: nat)
    requires Configured(c) && Bounded(c, r)
    ensures Moved(r, Reported(c, r, k), k) && Bounded(c, Reported(c, r, k))
  {
    if k > 0 {
      ReportedMoves(c, r, k - 1);
      MoveStep(c, r, Reported(c, r, k - 1), Reported(c, r, k), k - 1);
    }
  }

  /** `k` reports release the first `k` parked packets, or all of them. */
  lemma ReportsRelease(c: Config, steps: seq<Step>, k: nat)
    requires Configured(c)
    ensures Released(After(c, steps), After(c, steps + Reports(k)), k)
  {
    RunKeeps(c, steps);
    AfterReports(c, steps, k);
    ReportedMoves(c, After(c, steps), k);
    MovedIsReleased(After(c, steps), After(c, steps + Reports(k)), k);
  }

  lemma EventPasses(c: Config, steps: seq<Step>, e: Packet)
    requires e.event != NoEvent
    ensures
      var before, r := After(c, steps), After(c, steps + [Arrive(e)]);
      r.out == before.out + [e] && r.state == before.state
  {
    assert Front(steps + [Arrive(e)]) == steps;
  }

  lemma ReleasedAfterEvent(c: Config, steps: seq<Step>, e: Packet, k: nat)
    requires Configured(c) && e.event != NoEvent
    ensures
      var parked := After(c, steps).state.pending;
      After(c, steps + [Arrive(e)] + Reports(k)).out == After(c, steps).out + [e] + parked[..Min(k, |parked|)]
  {
    EventPasses(c, steps, e);
    ReportsRelease(c, steps + [Arrive(e)], k);
  }

  lemma OnlyDataIsParked(c: Config, steps: seq<Step>)
    requires Configured(c)
    ensures forall p :: p in After(c, steps).state.pending ==> p.event == NoEvent
  {
    RunKeeps(c, steps);
  }

  lemma ReleasedMayFollowIff(out: seq<Packet>, e: Packet, parked: seq<Packet>, n: nat)
    requires Edges.StreamDiscipline(out + [e]) && Edges.StreamDiscipline(out + parked) && n <= |parked|
    ensures Edges.StreamDiscipline(out + [e] + parked[..n]) <==> forall q :: q in parked[..n] ==> Edges.Follows(e, q)
  {
    assert out + parked == out + parked[..n] + parked[n..];
    Edges.PrefixKeepsDiscipline(out + parked[..n], parked[n..]);
    DisciplineSplits(out, [e]);
    DisciplineSplits(out, parked[..n]);
    DisciplineSplits(out + [e], parked[..n]);
  }

  /**
    An event does not wait for parked data: what reports release afterwards follows it on the output. The output stays
    disciplined exactly when every packet so released may follow the event.
    */
  lemma OvertakenExactlyWhen(c: Config, steps: seq<Step>, e: Packet, k: nat)
    requires Configured(c) && e.event != NoEvent
    requires
      var r := After(c, steps);
      Edges.StreamDiscipline(r.out + [e]) && Edges.StreamDiscipline(r.out + r.state.pending)
    ensures
      var parked := After(c, steps).state.pending;
      var released := parked[..Min(k, |parked|)];
      var r := After(c, steps + [Arrive(e)] + Reports(k));
      && r.out == After(c, steps).out + [e] + released
      && (Edges.StreamDiscipline(r.out) <==> forall q :: q in released ==> Edges.Follows(e, q))
  {
    var before := After(c, steps);
    ReleasedAfterEvent(c, steps, e, k);
    ReleasedMayFollowIff(before.out, e, before.state.pending, Min(k, |before.state.pending|));
  }

  /** For an end-of-stream that is exactly when nothing is parked, as soon as one report follows. */
  lemma EosOvertakesExactlyWhen(c: Config, steps: seq<Step>, eos: Packet, k: nat)
    requires Configured(c) && eos.event == EndOfStream && k > 0
    requires Edges.StreamDiscipline(After(c, steps).out + [eos])
    ensures
      var parked := After(c, steps).state.pending;
      var r := After(c, steps + [Arrive(eos)] + Reports(k));
      && r.out == After(c, steps).out + [eos] + parked[..Min(k, |parked|)]
      && (Edges.StreamDiscipline(r.out) <==> parked == [])
  {
    var out, parked := After(c, steps).out, After(c, steps).state.pending;
    ReleasedAfterEvent(c, steps, eos, k);
    OnlyDataIsParked(c, steps);
    if parked == [] {
      assert out + [eos] + parked[..0] == out + [eos];
    } else {
      var released := parked[..Min(k, |parked|)];
      assert released[0] == parked[0] && !Edges.Follows(eos, released[0]);
      DisciplineSplits(out + [eos], released);
    }
  }

  /** An event with a later time than the parked data it overtakes: one slot, two packets, one event, one report. */
  lemma LaterEventOvertakes(first: Packet, second: Packet, e: Packet)
    requires first.event == NoEvent && second.event == NoEvent && e.event != NoEvent && !e.IsControl()
    requires IsRange(first.ts) && IsRange(e.ts) && first.ts <= second.ts < e.ts
    ensures
      var r := After(Config(1, 1, DropOldest), [Arrive(first), Arrive(second), Arrive(e), Report]);
      && Edges.StreamDiscipline(r.arrived)
      && r.out == [first, e, second] && !Edges.StreamDiscipline(r.out)
  {
    OvertakenOut(first, second, e);
    var arrived, out := [first, second, e], [first, e, second];
    assert !Edges.Follows(out[1], out[2]);
    assert forall p :: p in arrived ==> IsRange(p.ts);
  }

  lemma SecondIsParked(c: Config, first: Packet, second: Packet)
    requires c == Config(1, 1, DropOldest) && first.event == NoEvent && second.event == NoEvent
    ensures
      var r := After(c, [Arrive(first), Arrive(second)]);
      r.arrived == [first, second] && r.out == [first] && r.state.pending == [second]
  {
    var steps := [Arrive(first), Arrive(second)];
    assert Front(steps) == [Arrive(first)] && Front([Arrive(first)]) == [];
    assert After(c, Front(steps)) == Run(LimiterState(1, []), [first], [first], [], 0, 0);
  }

  lemma OvertakenOut(first: Packet, second: Packet, e: Packet)
    requires first.event == NoEvent && second.event == NoEvent && e.event != NoEvent
    ensures
      var r := After(Config(1, 1, DropOldest), [Arrive(first), Arrive(second), Arrive(e), Report]);
      r.arrived == [first, second, e] && r.out == [first, e, second]
  {
    var c, parked := Config(1, 1, DropOldest), [Arrive(first), Arrive(second)];
    var steps := [Arrive(first), Arrive(second), Arrive(e), Report];
    SecondIsParked(c, first, second);
    assert steps == parked + [Arrive(e)] + Reports(1);
    ReleasedAfterEvent(c, parked, e, 1);
    assert Front(steps) == parked + [Arrive(e)] && Front(parked + [Arrive(e)]) == parked;
  }

  lemma {:induction false} ReportsPass(c: Config, steps: seq<Step>, k: nat)
    requires EventsMayPass(c, steps)
    ensures EventsMayPass(c, steps + Reports(k)) && After(c, steps + Reports(k)).arrived == After(c, steps).arrived
  {
    if k == 0 {
      assert steps + Reports(0) == steps;
    } else {
      ReportsPass(c, steps, k - 1);
      LastReport(steps, k);
    }
  }

  lemma {:induction false} PrefixPasses(c: Config, steps: seq<Step>, i: nat)
    requires i <= |steps|
    ensures EventsMayPass(c, steps) ==> EventsMayPass(c, steps[..i])
    ensures After(c, steps[..i]).arrived <= After(c, steps).arrived
    decreases |steps|
  {
    if i == |steps| {
      assert steps[..i] == steps;
    } else {
      PrefixPasses(c, Front(steps), i);
      assert Front(steps)[..i] == steps[..i];
    }
  }

  lemma ArrivedPrefixIsDisciplined(c: Config, steps: seq<Step>, i: nat)
    requires i <= |steps| && Edges.StreamDiscipline(After(c, steps).arrived)
    ensures Edges.StreamDiscipline(After(c, steps[..i]).arrived)
  {
    PrefixPasses(c, steps, i);
    var a, b := After(c, steps[..i]).arrived, After(c, steps).arrived;
    assert b == a + b[|a|..];
    Edges.PrefixKeepsDiscipline(a, b[|a|..]);
  }

  /** At no point of the run does the output break discipline, however many reports come next. */
  ghost predicate AlwaysDisciplined(c: Config, steps: seq<Step>) {
    forall i, k: nat :: 0 <= i <= |steps| ==> DisciplinedAfter(c, steps[..i], k)
  }

  ghost predicate DisciplinedAfter(c: Config, steps: seq<Step>, k: nat) {
    Edges.StreamDiscipline(After(c, steps + Reports(k)).out)
  }

  /**
    A disciplined input keeps the output disciplined, whatever reports come, exactly when every event may pass the
    parked data.
    */
  lemma AlwaysDisciplinedIff(c: Config, steps: seq<Step>)
    requires Configured(c) && Edges.StreamDiscipline(After(c, steps).arrived)
    ensures AlwaysDisciplined(c, steps) <==> EventsMayPass(c, steps)
  {
    if EventsMayPass(c, steps) {
      forall i, k: nat | 0 <= i <= |steps|
        ensures DisciplinedAfter(c, steps[..i], k)
      {
        PrefixPasses(c, steps, i);
        ArrivedPrefixIsDisciplined(c, steps, i);
        ReportsPass(c, steps[..i], k);
        DisciplineIsKept(c, steps[..i] + Reports(k));
      }
    } else {
      var i, k := FirstOffence(c, steps);
      assert !DisciplinedAfter(c, steps[..i], k);
    }
  }

  lemma Offends(c: Config, before: seq<Step>, e: Packet)
    requires Configured(c) && e.event != NoEvent && Releasable(After(c, before))
    requires Edges.StreamDiscipline(After(c, before).arrived + [e])
    requires !MayPass(After(c, before).state.pending, Arrive(e))
    ensures !DisciplinedAfter(c, before + [Arrive(e)], |After(c, before).state.pending|)
  {
    var r := After(c, before);
    NewcomerFollows(r, e);
    Edges.PrefixKeepsDiscipline(r.out, r.state.pending);
    DisciplineSplits(r.out, [e]);
    OvertakenExactlyWhen(c, before, e, |r.state.pending|);
    assert r.state.pending[..|r.state.pending|] == r.state.pending;
  }

  /** The first event that may not pass, and enough reports to show it. */
  lemma {:induction false} FirstOffence(c: Config, steps: seq<Step>) returns (i: nat, k: nat)
    requires Configured(c) && Edges.StreamDiscipline(After(c, steps).arrived) && !EventsMayPass(c, steps)
    ensures i <= |steps| && !DisciplinedAfter(c, steps[..i], k)
  {
    var before, n := Front(steps), |steps| - 1;
    assert steps[..n] == before;
    ArrivedPrefixIsDisciplined(c, steps, n);
    if EventsMayPass(c, before) {
      i, k := |steps|, |After(c, before).state.pending|;
      StaysReleasable(c, before);
      assert steps[..i] == before + [Arrive(Final(steps).packet)];
      Offends(c, before, Final(steps).packet);
    } else {
      i, k := FirstOffence(c, before);
      assert before[..i] == steps[..i];
    }
  }
}
