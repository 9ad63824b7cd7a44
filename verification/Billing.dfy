/** Ride billing in integer kopecks and integer microseconds (backend/app/billing.py). */
module Billing {

  const MICROS_PER_SECOND := 1_000_000

  datatype Kind = RideKind | PauseKind

  /** What `bill` is given for each stored segment. */
  datatype Stretch = Stretch(kind: Kind, seconds: nat)

  datatype Receipt = Receipt(rideSeconds: int, pauseSeconds: int,
                             rideCost: int, pauseCost: int, totalCost: int)

  /** `n` sixtieths of a kopeck to whole kopecks, ROUND_HALF_UP: to the nearest, and a tie goes
      away from zero. The contract leaves exactly one value. */
  function HalfUpSixtieths(n: int): (k: int)
    ensures -30 <= 60 * k - n <= 30
    ensures 60 * k - n == 30 ==> n >= 0
    ensures 60 * k - n == -30 ==> n < 0
  {
    if n >= 0 then (n + 30) / 60 else -((-n + 30) / 60)
  }

  /** Price of `seconds` at `rate` kopecks a minute. Negative seconds raise in the source. */
  function SegmentCost(rate: int, seconds: nat): int {
    HalfUpSixtieths(rate * seconds)
  }

  /** Whole seconds between two instants; a later start raises in the source. */
  function DurationSeconds(startedAt: int, endedAt: int): (s: nat)
    requires startedAt <= endedAt
    ensures s * MICROS_PER_SECOND <= endedAt - startedAt < (s + 1) * MICROS_PER_SECOND
  {
    (endedAt - startedAt) / MICROS_PER_SECOND
  }

  // ----- what a receipt means: sums over the stretches of one kind

  function Count(ss: seq<Stretch>, k: Kind): nat {
    if ss == [] then 0 else Count(ss[..|ss| - 1], k) + if ss[|ss| - 1].kind == k then 1 else 0
  }

  function Seconds(ss: seq<Stretch>, k: Kind): nat {
    if ss == [] then 0
    else Seconds(ss[..|ss| - 1], k) + if ss[|ss| - 1].kind == k then ss[|ss| - 1].seconds else 0
  }

  function Cost(ss: seq<Stretch>, k: Kind, rate: int): int {
    if ss == [] then 0
    else Cost(ss[..|ss| - 1], k, rate)
         + if ss[|ss| - 1].kind == k then SegmentCost(rate, ss[|ss| - 1].seconds) else 0
  }

  function ReceiptOf(ss: seq<Stretch>, rideRate: int, pauseRate: int): Receipt {
    Receipt(Seconds(ss, RideKind), Seconds(ss, PauseKind),
            Cost(ss, RideKind, rideRate), Cost(ss, PauseKind, pauseRate),
            Cost(ss, RideKind, rideRate) + Cost(ss, PauseKind, pauseRate))
  }

  /** `bill`: one pass with four running totals. */
  method Bill(segments: seq<Stretch>, rideRate: int, pauseRate: int) returns (receipt: Receipt)
    ensures receipt == ReceiptOf(segments, rideRate, pauseRate)
  {
    var rideSeconds, pauseSeconds := 0, 0;
    var rideCost, pauseCost := 0, 0;
    for i := 0 to |segments|
      invariant rideSeconds == Seconds(segments[..i], RideKind)
      invariant pauseSeconds == Seconds(segments[..i], PauseKind)
      invariant rideCost == Cost(segments[..i], RideKind, rideRate)
      invariant pauseCost == Cost(segments[..i], PauseKind, pauseRate)
    {
      assert segments[..i + 1][..i] == segments[..i];
      var segment := segments[i];
      if segment.kind == RideKind {
        rideSeconds := rideSeconds + segment.seconds;
        rideCost := rideCost + SegmentCost(rideRate, segment.seconds);
      } else {
        pauseSeconds := pauseSeconds + segment.seconds;
        pauseCost := pauseCost + SegmentCost(pauseRate, segment.seconds);
      }
    }
    assert segments[..|segments|] == segments;
    return Receipt(rideSeconds, pauseSeconds, rideCost, pauseCost, rideCost + pauseCost);
  }

  /** Rounding every segment on its own drifts from the exact price by at most half a kopeck a
      segment, whatever the segments are. */
  lemma {:induction false} CostBound(ss: seq<Stretch>, k: Kind, rate: int)
    ensures -30 * Count(ss, k) <= 60 * Cost(ss, k, rate) - rate * Seconds(ss, k) <= 30 * Count(ss, k)
  {
    if ss != [] {
      var init, last := ss[..|ss| - 1], ss[|ss| - 1];
      CostBound(init, k, rate);
      if last.kind == k {
        Distribute(rate, Seconds(init, k), last.seconds);
        var before, priced := rate * Seconds(init, k), rate * last.seconds;
        assert rate * Seconds(ss, k) == before + priced;
        assert -30 <= 60 * HalfUpSixtieths(priced) - priced <= 30;
      }
    }
  }

  lemma Distribute(a: int, b: int, c: int)
    ensures a * (b + c) == a * b + a * c
  {}

  /** A charge for more time is never lower, and one more second costs at most a rounded-up
      sixtieth of the rate more. */
  lemma CostOfOneMoreSecond(rate: nat, seconds: nat)
    ensures SegmentCost(rate, seconds) <= SegmentCost(rate, seconds + 1)
            <= SegmentCost(rate, seconds) + (rate + 59) / 60
  {
    assert rate * (seconds + 1) == rate * seconds + rate;
  }

  // ----- the client rounds a quotient, the server a decimal: both are safe

  /** JavaScript's Math.round: a half goes up, towards plus infinity. */
  function MathRound(x: real): int {
    (x + 0.5).Floor
  }

  function Exact(rate: int, seconds: int): real {
    (rate * seconds) as real / 60.0
  }

  predicate IsTie(rate: int, seconds: int) {
    (rate * seconds) % 60 == 30
  }

  /** ROUND_HALF_UP of a computed quotient. */
  function DecimalHalfUp(x: real): int {
    if x >= 0.0 then (x + 0.5).Floor else -((-x + 0.5).Floor)
  }

  /** Any computed quotient that is exact on ties and otherwise off by less than 1/60 kopeck
      rounds, on either side, as the exact one does. The two sides agree on it unless it is a
      tie below zero, where they go opposite ways. */
  lemma RoundingIsRobust(rate: int, seconds: int, computed: real)
    requires -1.0 / 60.0 < computed - Exact(rate, seconds) < 1.0 / 60.0
    requires IsTie(rate, seconds) ==> computed == Exact(rate, seconds)
    ensures MathRound(computed) == MathRound(Exact(rate, seconds))
    ensures DecimalHalfUp(computed) == HalfUpSixtieths(rate * seconds)
    ensures MathRound(computed) == HalfUpSixtieths(rate * seconds)
            <==> !(IsTie(rate, seconds) && rate * seconds < 0)
  {
    ServerSide(rate * seconds, computed);
    ClientSide(rate * seconds, computed);
    ClientSide(rate * seconds, Exact(rate, seconds));
  }

  /** Near enough to `n` sixtieths, and there exactly if that is a tie. */
  predicate Near(n: int, x: real) {
    -1.0 / 60.0 < x - n as real / 60.0 < 1.0 / 60.0 && (n % 60 == 30 ==> x == n as real / 60.0)
  }

  lemma ClientSide(n: int, x: real)
    requires Near(n, x)
    ensures MathRound(x) == (n + 30) / 60
    ensures MathRound(x) == HalfUpSixtieths(n) <==> !(n % 60 == 30 && n < 0)
  {
    RoundSixtieths(n, x);
  }

  lemma ServerSide(n: int, x: real)
    requires Near(n, x)
    ensures DecimalHalfUp(x) == HalfUpSixtieths(n)
  {
    if x >= 0.0 {
      RoundSixtieths(n, x);
    } else {
      assert (-n) as real / 60.0 == -(n as real / 60.0);
      RoundSixtieths(-n, -x);
    }
  }

  /** Math.round of anything near enough to n/60. */
  lemma RoundSixtieths(n: int, x: real)
    requires Near(n, x)
    ensures MathRound(x) == (n + 30) / 60
  {
    var k := (n + 30) / 60;
    assert 60 * k <= n + 30 <= 60 * k + 59;
    if n + 30 == 60 * k {
      assert n % 60 == 30;
    } else {
      assert k as real - 0.5 + 1.0 / 60.0 <= n as real / 60.0;
    }
    assert k as real <= x + 0.5 < k as real + 1.0;
  }
}
