/**
  Unwrapping 32-bit RTP timestamps (section 5.1 of RFC 3550) to microseconds. The true clock
  is a sequence of unbounded ticks; the mapper sees their low 32 bits only. Its arithmetic is
  unsigned 64-bit, and the result is stored as a signed 64-bit value.
  */
module RtpMapper {

  const TWO31: int := 0x8000_0000
  const TWO32: int := 0x1_0000_0000
  const TWO63: int := 0x8000_0000_0000_0000
  const TWO64: int := 0x1_0000_0000_0000_0000
  const MICROS: int := 1000000

  type Word32 = x: int | 0 <= x < TWO32
  type Word64 = x: int | 0 <= x < TWO64

  function Low(tick: nat): Word32 {
    tick % TWO32
  }

  datatype MapperState = MapperState(initialized: bool, last: Word32, cycles: Word64, origin: Word32)

  const FRESH := MapperState(false, 0, 0, 0)

  /** More than half the range backwards is read as a wrap. */
  predicate Wraps(last: Word32, rtp: Word32) {
    rtp < last && last - rtp > (TWO32 - 1) / 2
  }

  function Advance(st: MapperState, rtp: Word32): MapperState {
    if !st.initialized then MapperState(true, rtp, st.cycles, rtp)
    else if Wraps(st.last, rtp) then st.(last := rtp, cycles := (st.cycles + TWO32) % TWO64)
    else st.(last := rtp)
  }

  /** Ticks since the origin, in unsigned 64-bit arithmetic. */
  function Ticks(st: MapperState): Word64 {
    (st.cycles + st.last - st.origin) % TWO64
  }

  function Signed(x: Word64): int {
    if x < TWO63 then x else x - TWO64
  }

  function Micros(ticks: Word64, rate: Word32): int
    requires rate > 0
  {
    Signed(((ticks * MICROS) % TWO64) / rate)
  }

  datatype Status = Ok | Invalid

  class RtpTimestampMapper {
    const clockRate: Word32
    var initialized: bool
    var last: Word32
    var cycles: Word64
    var origin: Word32

    constructor (clockRate: Word32)
      ensures this.clockRate == clockRate && View() == FRESH
    {
      this.clockRate := clockRate;
      initialized, last, cycles, origin := false, 0, 0, 0;
    }

    ghost function View(): MapperState
      reads this
    {
      MapperState(initialized, last, cycles, origin)
    }

    method Map(rtp: Word32) returns (status: Status, timestamp: int)
      modifies this
      ensures clockRate == 0 ==> status == Invalid && View() == old(View())
      ensures clockRate > 0 ==>
        status == Ok && View() == Advance(old(View()), rtp) && timestamp == Micros(Ticks(View()), clockRate)
    {
      if clockRate == 0 {
        return Invalid, 0;
      }
      if !initialized {
        initialized, last, origin := true, rtp, rtp;
      } else {
        if rtp < last && last - rtp > 0x7fff_ffff {
          cycles := (cycles + 0x1_0000_0000) % TWO64;
        }
        last := rtp;
      }
      var extended := (cycles + rtp) % TWO64;
      var ticks: Word64 := (extended - origin) % TWO64;
      TicksInTwoSteps(View());
      timestamp := Micros(ticks, clockRate);
      status := Ok;
    }

    method Reset()
      modifies this
      ensures View() == FRESH
    {
      initialized, last, cycles, origin := false, 0, 0, 0;
    }
  }

  lemma SubtractAfterWrap(x: int, y: int)
    ensures (x % TWO64 - y) % TWO64 == (x - y) % TWO64
  {
    var q := x / TWO64;
    assert x % TWO64 - y == (x - y) - q * TWO64;
    WrapMultiple(x - y, -q);
  }

  /** Extending and then subtracting the origin, each in 64 bits, is the subtraction in 64 bits. */
  lemma TicksInTwoSteps(st: MapperState)
    ensures ((st.cycles + st.last) % TWO64 - st.origin) % TWO64 == Ticks(st)
  {
    SubtractAfterWrap(st.cycles + st.last, st.origin);
  }

  lemma {:induction false} WrapMultiple(x: int, k: int)
    ensures (x + k * TWO64) % TWO64 == x % TWO64
    decreases if k < 0 then -k else k
  {
    if k > 0 {
      WrapMultiple(x, k - 1);
      assert x + k * TWO64 == (x + (k - 1) * TWO64) + TWO64;
    } else if k < 0 {
      WrapMultiple(x, k + 1);
      assert x + k * TWO64 == (x + (k + 1) * TWO64) - TWO64;
    }
  }

  // ---------------------------------------------------------------------------
  // Runs over a true clock
  // ---------------------------------------------------------------------------

  function After(ticks: seq<nat>): MapperState {
    if ticks == [] then FRESH else Advance(After(ticks[..|ticks| - 1]), Low(ticks[|ticks| - 1]))
  }

  /** Forward by at most half the range, backward by less. */
  predicate InReach(a: nat, b: nat) {
    -TWO31 < b - a <= TWO31
  }

  predicate AllInReach(ticks: seq<nat>) {
    forall i :: 0 <= i < |ticks| - 1 ==> InReach(ticks[i], ticks[i + 1])
  }

  /** A reordered packet that steps back over a multiple of 2^32. */
  predicate CrossesBack(a: nat, b: nat) {
    b < a && b / TWO32 < a / TWO32
  }

  function BackCrossings(ticks: seq<nat>): nat {
    if |ticks| < 2 then 0
    else BackCrossings(ticks[..|ticks| - 1]) + (if CrossesBack(ticks[|ticks| - 2], ticks[|ticks| - 1]) then 1 else 0)
  }

  /** How one step changes the high part of the true clock, and whether the mapper follows. */
  lemma HighPart(a: nat, b: nat)
    requires InReach(a, b)
    ensures b / TWO32 == a / TWO32 + (if Wraps(Low(a), Low(b)) then 1 else 0) - (if CrossesBack(a, b) then 1 else 0)
  {
    var qa, qb := a / TWO32, b / TWO32;
    assert a == qa * TWO32 + Low(a) && b == qb * TWO32 + Low(b);
    assert -1 <= qb - qa <= 1;
  }

  /** The mapper's cycle count runs ahead of the true clock by one wrap per backward crossing. */
  lemma {:induction false} CyclesCountBackCrossings(ticks: seq<nat>)
    requires ticks != [] && AllInReach(ticks)
    ensures
      var st := After(ticks);
      var n := |ticks| - 1;
      && st.initialized && st.last == Low(ticks[n]) && st.origin == Low(ticks[0])
      && st.cycles == ((ticks[n] / TWO32 - ticks[0] / TWO32 + BackCrossings(ticks)) * TWO32) % TWO64
  {
    var n := |ticks| - 1;
    var prior := ticks[..n];
    if n > 0 {
      CyclesCountBackCrossings(prior);
      var wraps := prior[n - 1] / TWO32 - prior[0] / TWO32 + BackCrossings(prior);
      assert ticks[n - 1] == prior[n - 1] && InReach(ticks[n - 1], ticks[n]);
      HighPart(ticks[n - 1], ticks[n]);
      AddAfterWrap(wraps * TWO32, TWO32);
      assert (wraps + 1) * TWO32 == wraps * TWO32 + TWO32;
    }
  }

  lemma AddAfterWrap(x: int, y: int)
    ensures (x % TWO64 + y) % TWO64 == (x + y) % TWO64
  {
    SubtractAfterWrap(x, -y);
  }

  /** The unwrapped tick count is the true one plus 2^32 for every backward crossing so far. */
  lemma TicksAreOffByBackCrossings(ticks: seq<nat>)
    requires ticks != [] && AllInReach(ticks)
    ensures Ticks(After(ticks)) == (ticks[|ticks| - 1] - ticks[0] + BackCrossings(ticks) * TWO32) % TWO64
  {
    CyclesCountBackCrossings(ticks);
    var first, final, b := ticks[0], ticks[|ticks| - 1], BackCrossings(ticks);
    var wraps := final / TWO32 - first / TWO32 + b;
    WrappedSum(After(ticks), wraps * TWO32, Low(final), Low(first));
    LowParts(first, final, b);
  }

  lemma WrappedSum(st: MapperState, cycles: int, last: Word32, origin: Word32)
    requires st.cycles == cycles % TWO64 && st.last == last && st.origin == origin
    ensures Ticks(st) == (cycles + last - origin) % TWO64
  {
    AddAfterWrap(cycles, last - origin);
  }

  lemma LowParts(first: nat, final: nat, b: nat)
    ensures (final / TWO32 - first / TWO32 + b) * TWO32 + Low(final) - Low(first) == final - first + b * TWO32
  {
    assert first == (first / TWO32) * TWO32 + Low(first);
    assert final == (final / TWO32) * TWO32 + Low(final);
  }

  // ---------------------------------------------------------------------------
  // When the mapped time is exact
  // ---------------------------------------------------------------------------

  const TWO26: int := 0x400_0000
  const TWO38: int := 0x40_0000_0000

  /** The true time of a tick relative to the first, in microseconds, rounded down. */
  function TrueMicros(elapsed: int, rate: Word32): int
    requires rate > 0
  {
    (elapsed * MICROS) / rate
  }

  function Elapsed(ticks: seq<nat>): int
    requires ticks != []
  {
    ticks[|ticks| - 1] as int - ticks[0] as int
  }

  /**
    At or after the first tick the 64-bit product must not wrap and the quotient must fit a signed value. Before it
    the wrapped product must come back undivided.
    */
  predicate Fits(elapsed: int, rate: Word32)
    requires rate > 0
  {
    if elapsed >= 0 then elapsed * MICROS < TWO64 && TrueMicros(elapsed, rate) < TWO63
    else rate == 1 && -(elapsed * MICROS) <= TWO63
  }

  /** The product the mapper divides when it is `b` wraps ahead. */
  function Product(elapsed: int, b: nat): Word64 {
    (((elapsed + b * TWO32) % TWO64) * MICROS) % TWO64
  }

  /** 15625 is odd, so it has an inverse modulo 2^26. */
  lemma OddFactor(b: int, k: int)
    requires b * 15625 == k * TWO26
    ensures b % TWO26 == 0
  {
    var c := k * 12738873 - 2966 * b;
    assert 12738873 * (b * 15625 - k * TWO26) == b - c * TWO26;
    MultipleLeavesNothing(c);
  }

  lemma MultipleLeavesNothing(c: int)
    ensures (c * TWO26) % TWO26 == 0
  {
  }

  /** The mapper's product is off by a multiple of 2^38, and by one of 2^64 exactly when `b` is a multiple of 2^26. */
  lemma ProductIsOff(elapsed: int, b: nat) returns (m: int)
    ensures Product(elapsed, b) - elapsed * MICROS == m * TWO38
    ensures m % TWO26 == 0 <==> b % TWO26 == 0
  {
    var whole := elapsed + b * TWO32;
    var k1 := whole / TWO64;
    var k2 := ((whole % TWO64) * MICROS) / TWO64;
    var k := k1 * MICROS + k2;
    m := b * 15625 - k * TWO26;
    assert Product(elapsed, b) == whole * MICROS - k * TWO64;
    assert b * TWO32 * MICROS == b * 15625 * TWO38;
    OffByMultiple(b, k);
  }

  lemma OffByMultiple(b: int, k: int)
    ensures (b * 15625 - k * TWO26) % TWO26 == 0 <==> b % TWO26 == 0
  {
    var m := b * 15625 - k * TWO26;
    if b % TWO26 == 0 {
      var q := b / TWO26;
      assert m == (q * 15625 - k) * TWO26;
      MultipleLeavesNothing(q * 15625 - k);
    }
    if m % TWO26 == 0 {
      assert b * 15625 == (m / TWO26 + k) * TWO26;
      OddFactor(b, m / TWO26 + k);
    }
  }

  lemma DivisionIsNear(x: int, y: int, d: int)
    requires d > 0 && x / d == y / d
    ensures -d < x - y < d
  {
    assert x == (x / d) * d + x % d && y == (y / d) * d + y % d;
  }

  lemma NonNegativeQuotient(x: nat, d: Word32)
    requires d > 0
    ensures 0 <= x / d <= x
  {
    QuotientBelow(x, d);
    ProductAtLeast(x / d, d);
  }

  lemma ProductAtLeast(q: nat, d: nat)
    requires d > 0
    ensures q <= q * d
  {
    assert q * d == q + q * (d - 1);
  }

  /** At or after the first tick: a product off by 2^38 or more is off by more than any clock rate. */
  lemma ForwardIsExactIff(x: nat, y: Word64, m: int, rate: Word32)
    requires rate > 0 && y - x == m * TWO38
    ensures Signed(y / rate) == x / rate <==> x < TWO64 && x / rate < TWO63 && m % TWO26 == 0
  {
    NonNegativeQuotient(x, rate);
    NonNegativeQuotient(y, rate);
    if m != 0 && y / rate == x / rate {
      DivisionIsNear(y, x, rate);
      assert false;
    }
    if x < TWO64 && m % TWO26 == 0 {
      WholeWraps(y - x, m);
    }
  }

  lemma WholeWraps(d: int, m: int)
    requires d == m * TWO38 && m % TWO26 == 0
    ensures d == (m / TWO26) * TWO64
  {
  }

  /** Before the first tick at one hertz: the wrapped product is read back as the negative time. */
  lemma BackwardIsExactIff(x: int, y: Word64, m: int)
    requires x < 0 && y - x == m * TWO38
    ensures Signed(y) == x <==> -x <= TWO63 && m % TWO26 == 0
  {
    if m % TWO26 == 0 {
      WholeWraps(y - x, m);
    }
    if Signed(y) == x {
      assert m == TWO26;
    }
  }

  /**
    Map is exact if and only if the time fits and packets have stepped back over a multiple of 2^32 a multiple of 2^26
    times, for every reordering within half the range: never at all, short of 2^26 such packets.
    */
  lemma MapIsExactIff(ticks: seq<nat>, rate: Word32)
    requires ticks != [] && AllInReach(ticks) && rate > 0
    ensures
      Micros(Ticks(After(ticks)), rate) == TrueMicros(Elapsed(ticks), rate)
      <==> Fits(Elapsed(ticks), rate) && BackCrossings(ticks) % TWO26 == 0
  {
    TicksAreOffByBackCrossings(ticks);
    ProductIsExactIff(Elapsed(ticks), BackCrossings(ticks), rate);
  }

  lemma ProductIsExactIff(elapsed: int, b: nat, rate: Word32)
    requires rate > 0
    ensures Signed(Product(elapsed, b) / rate) == TrueMicros(elapsed, rate) <==> Fits(elapsed, rate) && b % TWO26 == 0
  {
    var m := ProductIsOff(elapsed, b);
    if elapsed >= 0 {
      ForwardIsExactIff(elapsed * MICROS, Product(elapsed, b), m, rate);
    } else if rate == 1 {
      BackwardIsExactIff(elapsed * MICROS, Product(elapsed, b), m);
    } else {
      HalvesFit(Product(elapsed, b), rate);
      NegativeFloors(elapsed * MICROS, rate);
    }
  }

  /** A tick before the first one underflows: it never maps to a negative time, for any rate above one. */
  lemma BeforeOriginIsNeverExact(ticks: seq<nat>, rate: Word32)
    requires ticks != [] && rate > 1 && Elapsed(ticks) < 0
    ensures Micros(Ticks(After(ticks)), rate) >= 0 > TrueMicros(Elapsed(ticks), rate)
  {
    var x := (Ticks(After(ticks)) * MICROS) % TWO64;
    HalvesFit(x, rate);
    NegativeFloors(Elapsed(ticks) * MICROS, rate);
  }

  /** At one tick a second the wrapped product is not divided, and a tick before the first one is exact after all. */
  lemma BeforeOriginIsExactAtOneHertz(ticks: seq<nat>)
    requires ticks != [] && AllInReach(ticks) && BackCrossings(ticks) == 0
    requires Elapsed(ticks) < 0 && -(Elapsed(ticks) * MICROS) <= TWO63
    ensures Micros(Ticks(After(ticks)), 1) == TrueMicros(Elapsed(ticks), 1)
  {
    MapIsExactIff(ticks, 1);
  }

  lemma HalvesFit(x: Word64, d: Word32)
    requires d > 1
    ensures 0 <= x / d < TWO63
  {
    QuotientHalves(x, d);
  }

  lemma QuotientHalves(x: nat, d: nat)
    requires d > 1
    ensures 0 <= 2 * (x / d) <= x
  {
    ProductGrows(x / d, d);
    QuotientBelow(x, d);
  }

  lemma ProductGrows(q: nat, d: nat)
    requires d > 1
    ensures 2 * q <= q * d
  {
    assert q * d == 2 * q + q * (d - 2);
  }

  lemma QuotientBelow(x: nat, d: nat)
    requires d > 0
    ensures 0 <= x / d && (x / d) * d <= x
  {
  }

  lemma NegativeFloors(x: int, d: Word32)
    requires x < 0 && d > 0
    ensures x / d < 0
  {
  }

  /** One reordering at a wrap, and every later timestamp is ahead by 2^32 ticks. */
  lemma OneLatePacketAtTheWrap()
    ensures
      var ticks: seq<nat> := [TWO32 - 10, TWO32 + 10, TWO32 - 5, TWO32 + 20];
      AllInReach(ticks) && BackCrossings(ticks) == 1 && Ticks(After(ticks)) == 30 + TWO32
  {
    var ticks: seq<nat> := [TWO32 - 10, TWO32 + 10, TWO32 - 5, TWO32 + 20];
    assert ticks[..3] == [TWO32 - 10, TWO32 + 10, TWO32 - 5];
    assert ticks[..3][..2] == [TWO32 - 10, TWO32 + 10];
    assert BackCrossings(ticks[..3][..2]) == 0;
    assert BackCrossings(ticks[..3]) == 1;
    assert BackCrossings(ticks) == 1;
    TicksAreOffByBackCrossings(ticks);
  }
}
