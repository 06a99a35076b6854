/**
  Mapping RTP time to wall-clock time from sender reports (section 6.4.1 of RFC 3550). Every
  report re-anchors the mapping and restarts the unwrapping at its own RTP timestamp.
  Wall-clock sums are taken not to overflow.
  */
module RtcpClock {
  import opened RtpMapper

  datatype ClockState = ClockState(mapper: MapperState, anchored: bool, anchorUs: int, driftUs: int)

  const UNANCHORED := ClockState(FRESH, false, 0, 0)

  /** Microseconds since the origin after the mapper has seen one more timestamp. */
  function Relative(mapper: MapperState, rtp: Word32, rate: Word32): int
    requires rate > 0
  {
    Micros(Ticks(Advance(mapper, rtp)), rate)
  }

  function Mapped(st: ClockState, rtp: Word32, rate: Word32): int
    requires rate > 0
  {
    st.anchorUs + Relative(st.mapper, rtp, rate)
  }

  function AfterMap(st: ClockState, rtp: Word32): ClockState {
    st.(mapper := Advance(st.mapper, rtp))
  }

  function AfterReport(st: ClockState, rtp: Word32, ntpUs: int, rate: Word32): ClockState
    requires rate > 0
  {
    ClockState(Advance(FRESH, rtp), true, ntpUs, if st.anchored then ntpUs - Mapped(st, rtp, rate) else st.driftUs)
  }

  class RtcpClockMapper {
    const mapper: RtpTimestampMapper
    var anchored: bool
    var ntpAnchorUs: int
    var driftUs: int

    constructor (clockRate: Word32)
      ensures fresh(mapper) && mapper.clockRate == clockRate && View() == UNANCHORED
    {
      mapper := new RtpTimestampMapper(clockRate);
      anchored, ntpAnchorUs, driftUs := false, 0, 0;
    }

    ghost function View(): ClockState
      reads this, mapper
    {
      ClockState(mapper.View(), anchored, ntpAnchorUs, driftUs)
    }

    method Update(rtp: Word32, ntpUs: int) returns (status: Status)
      modifies this, mapper
      ensures mapper.clockRate == 0 ==>
        status == Invalid && anchored == old(anchored) && ntpAnchorUs == old(ntpAnchorUs)
      ensures mapper.clockRate > 0 ==> status == Ok && View() == AfterReport(old(View()), rtp, ntpUs, mapper.clockRate)
    {
      if anchored {
        var relative;
        status, relative := mapper.Map(rtp);
        if status != Ok {
          return;
        }
        driftUs := ntpUs - (ntpAnchorUs + relative);
      }
      mapper.Reset();
      var zero;
      status, zero := mapper.Map(rtp);
      if status != Ok {
        return;
      }
      ntpAnchorUs := ntpUs;
      anchored := true;
    }

    method Map(rtp: Word32) returns (ok: bool, timestamp: int)
      modifies this, mapper
      ensures ok <==> old(anchored) && mapper.clockRate > 0
      ensures !ok ==> View() == old(View())
      ensures ok ==> View() == AfterMap(old(View()), rtp) && timestamp == Mapped(old(View()), rtp, mapper.clockRate)
    {
      if !anchored {
        return false, 0;
      }
      var status, relative := mapper.Map(rtp);
      if status != Ok {
        return false, 0;
      }
      return true, ntpAnchorUs + relative;
    }
  }

  // ---------------------------------------------------------------------------
  // Runs: media and reports at true ticks, every report agreeing with the prediction
  // ---------------------------------------------------------------------------

  datatype Event = Media(tick: nat) | Report(tick: nat)

  datatype Run = Run(st: ClockState, report: nat, tick: nat, reports: nat)

  /** The next tick is in reach, does not step back over a wrap, and is not before the last report. */
  predicate Good(run: Run, tick: nat, rate: Word32)
    requires rate > 0
  {
    InReach(run.tick, tick) && !CrossesBack(run.tick, tick) && run.report <= tick && Fits(tick - run.report, rate)
  }

  function First(tick: nat, ntpUs: int, rate: Word32): Run
    requires rate > 0
  {
    Run(AfterReport(UNANCHORED, Low(tick), ntpUs, rate), tick, tick, 0)
  }

  /** A report's wall-clock time is the one the mapper would have given its RTP timestamp. */
  function Next(run: Run, ev: Event, rate: Word32): Run
    requires rate > 0
  {
    match ev
    case Media(tick) => Run(AfterMap(run.st, Low(tick)), run.report, tick, run.reports)
    case Report(tick) =>
      Run(AfterReport(run.st, Low(tick), Mapped(run.st, Low(tick), rate), rate), tick, tick, run.reports + 1)
  }

  function After(first: nat, ntpUs: int, events: seq<Event>, rate: Word32): Run
    requires rate > 0
  {
    if events == [] then First(first, ntpUs, rate)
    else Next(After(first, ntpUs, events[..|events| - 1], rate), events[|events| - 1], rate)
  }

  predicate AllGood(first: nat, ntpUs: int, events: seq<Event>, rate: Word32)
    requires rate > 0
  {
    events == [] ||
    (AllGood(first, ntpUs, events[..|events| - 1], rate) &&
     Good(After(first, ntpUs, events[..|events| - 1], rate), events[|events| - 1].tick, rate))
  }

  /** The mapper has followed the true clock since the last report without a slip. */
  ghost predicate Follows(mapper: MapperState, report: nat, tick: nat) {
    && mapper.initialized && mapper.last == Low(tick) && mapper.origin == Low(report)
    && mapper.cycles == ((tick / TWO32 - report / TWO32) * TWO32) % TWO64
  }

  lemma FollowsStep(mapper: MapperState, report: nat, tick: nat, next: nat)
    requires Follows(mapper, report, tick) && InReach(tick, next) && !CrossesBack(tick, next)
    ensures Follows(Advance(mapper, Low(next)), report, next)
  {
    HighPart(tick, next);
    var wraps := tick / TWO32 - report / TWO32;
    AddAfterWrap(wraps * TWO32, TWO32);
    assert (wraps + 1) * TWO32 == wraps * TWO32 + TWO32;
  }

  lemma FollowsTicks(mapper: MapperState, report: nat, tick: nat)
    requires Follows(mapper, report, tick)
    ensures Ticks(mapper) == (tick as int - report as int) % TWO64
  {
    var wraps := tick / TWO32 - report / TWO32;
    AddAfterWrap(wraps * TWO32, Low(tick) - Low(report));
    assert wraps * TWO32 + Low(tick) - Low(report) == tick as int - report as int;
  }

  /** A time relative to the last report is exact if and only if it fits, before the report as well as after it. */
  lemma RelativeIsExactIff(mapper: MapperState, report: nat, tick: nat, next: nat, rate: Word32)
    requires rate > 0 && Follows(mapper, report, tick) && InReach(tick, next) && !CrossesBack(tick, next)
    ensures
      Relative(mapper, Low(next), rate) == TrueMicros(next as int - report as int, rate)
      <==> Fits(next as int - report as int, rate)
  {
    FollowsStep(mapper, report, tick, next);
    FollowsTicks(Advance(mapper, Low(next)), report, next);
    ProductIsExactIff(next as int - report as int, 0, rate);
  }

  /** Rounding down twice loses at most one microsecond against rounding down once. */
  lemma FloorsAdd(a: nat, b: nat, rate: Word32)
    requires rate > 0
    ensures TrueMicros(a, rate) + TrueMicros(b, rate) <= TrueMicros(a + b, rate) <=
      TrueMicros(a, rate) + TrueMicros(b, rate) + 1
  {
    QuotientsAdd(a * MICROS, b * MICROS, rate);
    assert (a + b) * MICROS == a * MICROS + b * MICROS;
  }

  lemma QuotientsAdd(x: nat, y: nat, d: nat)
    requires d > 0
    ensures x / d + y / d <= (x + y) / d <= x / d + y / d + 1
  {
    var qx, rx, qy, ry := x / d, x % d, y / d, y % d;
    assert x == qx * d + rx && y == qy * d + ry;
    SumOfQuotients(x, qx, rx, y, qy, ry, d);
  }

  lemma SumOfQuotients(x: nat, qx: nat, rx: nat, y: nat, qy: nat, ry: nat, d: nat)
    requires rx < d && ry < d && x == qx * d + rx && y == qy * d + ry
    ensures qx + qy <= (x + y) / d <= qx + qy + 1
  {
    assert x + y == (qx + qy) * d + (rx + ry);
    if rx + ry < d {
      QuotientIs(x + y, qx + qy, rx + ry, d);
    } else {
      assert (qx + qy + 1) * d == (qx + qy) * d + d;
      QuotientIs(x + y, qx + qy + 1, rx + ry - d, d);
    }
  }

  lemma QuotientIs(x: nat, q: nat, r: nat, d: nat)
    requires d > 0 && x == q * d + r && r < d
    ensures x / d == q
  {
    var q' := x / d;
    assert x == q' * d + x % d;
    assert q' < q ==> (q' + 1) * d <= q * d;
    assert q' > q ==> (q + 1) * d <= q' * d;
  }

  /** How far a mapping re-anchored so often may have fallen behind: nothing at the first report's own anchor. */
  function Slack(reports: nat): nat {
    if reports == 0 then 0 else reports - 1
  }

  ghost predicate Inv(first: nat, ntpUs: int, run: Run, rate: Word32)
    requires rate > 0
  {
    && run.st.anchored && run.st.driftUs == 0 && first <= run.report
    && Follows(run.st.mapper, run.report, run.tick)
    && (run.reports == 0 ==> run.report == first)
    && AnchorWithin(first, ntpUs, run, rate)
  }

  ghost predicate AnchorWithin(first: nat, ntpUs: int, run: Run, rate: Word32)
    requires rate > 0 && first <= run.report
  {
    var direct := ntpUs + TrueMicros(run.report - first, rate);
    direct - Slack(run.reports) <= run.st.anchorUs <= direct
  }

  /**
    Mapping any good tick is never ahead of the first anchor's mapping, and at most one microsecond per report
    behind.
    */
  lemma MappedWithin(first: nat, ntpUs: int, run: Run, tick: nat, rate: Word32)
    requires rate > 0 && Inv(first, ntpUs, run, rate) && Good(run, tick, rate)
    ensures first <= tick
    ensures
      var direct := ntpUs + TrueMicros(tick - first, rate);
      direct - run.reports <= Mapped(run.st, Low(tick), rate) <= direct
  {
    RelativeIsExactIff(run.st.mapper, run.report, run.tick, tick, rate);
    SplitAtReport(first, run.report, tick, rate);
  }

  lemma SplitAtReport(first: nat, report: nat, tick: nat, rate: Word32)
    requires rate > 0 && first <= report <= tick
    ensures
      var split := TrueMicros(report - first, rate) + TrueMicros(tick - report, rate);
      split <= TrueMicros(tick - first, rate) <= split + (if report == first then 0 else 1)
  {
    FloorsAdd(report - first, tick - report, rate);
  }

  lemma FirstInv(first: nat, ntpUs: int, rate: Word32)
    requires rate > 0
    ensures Inv(first, ntpUs, First(first, ntpUs, rate), rate)
  {
  }

  lemma NextKeepsInv(first: nat, ntpUs: int, run: Run, ev: Event, rate: Word32)
    requires rate > 0 && Inv(first, ntpUs, run, rate) && Good(run, ev.tick, rate)
    ensures Inv(first, ntpUs, Next(run, ev, rate), rate)
  {
    match ev
    case Media(tick) => MediaKeepsInv(first, ntpUs, run, tick, rate);
    case Report(tick) => ReportKeepsInv(first, ntpUs, run, tick, rate);
  }

  lemma MediaKeepsInv(first: nat, ntpUs: int, run: Run, tick: nat, rate: Word32)
    requires rate > 0 && Inv(first, ntpUs, run, rate) && Good(run, tick, rate)
    ensures Inv(first, ntpUs, Next(run, Media(tick), rate), rate)
  {
    FollowsStep(run.st.mapper, run.report, run.tick, tick);
    assert AnchorWithin(first, ntpUs, Next(run, Media(tick), rate), rate);
  }

  lemma NextReport(run: Run, tick: nat, rate: Word32)
    requires rate > 0 && run.st.anchored
    ensures
      var st := ClockState(Advance(FRESH, Low(tick)), true, Mapped(run.st, Low(tick), rate), 0);
      Next(run, Report(tick), rate) == Run(st, tick, tick, run.reports + 1)
  {
  }

  lemma ReportKeepsInv(first: nat, ntpUs: int, run: Run, tick: nat, rate: Word32)
    requires rate > 0 && Inv(first, ntpUs, run, rate) && Good(run, tick, rate)
    ensures Inv(first, ntpUs, Next(run, Report(tick), rate), rate)
  {
    MappedWithin(first, ntpUs, run, tick, rate);
    ReportInv(first, ntpUs, run, tick, rate);
  }

  lemma ReportInv(first: nat, ntpUs: int, run: Run, tick: nat, rate: Word32)
    requires rate > 0 && run.st.anchored && first <= tick
    requires
      var direct := ntpUs + TrueMicros(tick - first, rate);
      direct - run.reports <= Mapped(run.st, Low(tick), rate) <= direct
    ensures Inv(first, ntpUs, Next(run, Report(tick), rate), rate)
  {
    NextReport(run, tick, rate);
    FreshFollows(tick);
  }

  lemma FreshFollows(tick: nat)
    ensures Follows(Advance(FRESH, Low(tick)), tick, tick)
  {
  }

  lemma {:induction false} AfterKeepsInv(first: nat, ntpUs: int, events: seq<Event>, rate: Word32)
    requires rate > 0 && AllGood(first, ntpUs, events, rate)
    ensures Inv(first, ntpUs, After(first, ntpUs, events, rate), rate)
  {
    if events == [] {
      FirstInv(first, ntpUs, rate);
    } else {
      var prior := events[..|events| - 1];
      AfterKeepsInv(first, ntpUs, prior, rate);
      NextKeepsInv(first, ntpUs, After(first, ntpUs, prior, rate), events[|events| - 1], rate);
    }
  }

  /**
    After any run of media and of reports that agree with the prediction, the reported drift
    is zero, and a later tick maps no later than it would have without any re-anchoring and
    at most one microsecond earlier per report.
    */
  lemma ReanchoringLosesAtMostOnePerReport(first: nat, ntpUs: int, events: seq<Event>, tick: nat, rate: Word32)
    requires rate > 0 && AllGood(first, ntpUs, events, rate) && Good(After(first, ntpUs, events, rate), tick, rate)
    ensures
      var run := After(first, ntpUs, events, rate);
      && run.st.driftUs == 0 && first <= tick
      && ntpUs + TrueMicros(tick - first, rate) - run.reports <= Mapped(run.st, Low(tick), rate) <=
        ntpUs + TrueMicros(tick - first, rate)
  {
    AfterKeepsInv(first, ntpUs, events, rate);
    MappedWithin(first, ntpUs, After(first, ntpUs, events, rate), tick, rate);
  }

  /**
    Above one hertz, while later times fit, a packet's time is exact if and only if it is not older than the report: an
    older one underflows and lands at or after the report instead of before it.
    */
  lemma ExactIffNotBeforeReport(mapper: MapperState, report: nat, tick: nat, next: nat, rate: Word32)
    requires rate > 1 && Follows(mapper, report, tick) && InReach(tick, next) && !CrossesBack(tick, next)
    requires report <= next ==> Fits(next - report, rate)
    ensures Relative(mapper, Low(next), rate) == TrueMicros(next as int - report as int, rate) <==> report <= next
    ensures next < report ==> Relative(mapper, Low(next), rate) >= 0
  {
    RelativeIsExactIff(mapper, report, tick, next, rate);
    HalvesFit((Ticks(Advance(mapper, Low(next))) * MICROS) % TWO64, rate);
  }
}
