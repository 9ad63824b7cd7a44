/** The client's live cost display against the bill the server would write at the same instant
    (frontend/src/ride/billing.ts, backend/app/services/rides.py). */
module LiveEstimate {
  import opened Options
  import opened Billing
  import opened Timeline
  import opened Money

  const MICROS_PER_MILLI := 1000

  /** A segment as the client has it: `started_at` through Date.parse, which keeps whole
      milliseconds of the server's microseconds, and money as text. */
  datatype ClientSegment = ClientSegment(kind: Kind, startedMs: int, seconds: Option<nat>, cost: Option<string>)

  datatype ClientReceipt = ClientReceipt(rideSeconds: int, pauseSeconds: int,
                                         rideCost: string, pauseCost: string, totalCost: string)

  datatype ClientRide = ClientRide(rideRate: string, pauseRate: string,
                                   segments: seq<ClientSegment>, receipt: Option<ClientReceipt>)

  datatype Estimate = Estimate(rideSeconds: int, pauseSeconds: int,
                               rideKopecks: int, pauseKopecks: int, totalKopecks: int)

  /** The server's response, parsed. */
  function SegmentOut(s: Segment): ClientSegment {
    ClientSegment(s.kind, s.startedAt / MICROS_PER_MILLI, s.seconds,
                  if s.cost.Some? then Some(FormatMoney(s.cost.value)) else None)
  }

  function ReceiptOut(r: Receipt): ClientReceipt {
    ClientReceipt(r.rideSeconds, r.pauseSeconds,
                  FormatMoney(r.rideCost), FormatMoney(r.pauseCost), FormatMoney(r.totalCost))
  }

  function SegmentsOut(segments: seq<Segment>): (ss: seq<ClientSegment>)
    ensures |ss| == |segments|
    ensures forall i :: 0 <= i < |ss| ==> ss[i] == SegmentOut(segments[i])
  {
    seq(|segments|, i requires 0 <= i < |segments| => SegmentOut(segments[i]))
  }

  function RideOut(ride: Ride): ClientRide {
    ClientRide(FormatMoney(ride.rideRate), FormatMoney(ride.pauseRate), SegmentsOut(ride.segments),
               if ride.receipt.Some? then Some(ReceiptOut(ride.receipt.value)) else None)
  }

  // ----- the client's arithmetic

  function SegmentSeconds(startMs: int, endMs: int): nat {
    if endMs < startMs then 0 else (endMs - startMs) / 1000
  }

  function LiveSeconds(s: ClientSegment, now: int): nat {
    if s.seconds.Some? then s.seconds.value else SegmentSeconds(s.startedMs, now)
  }

  /** Every money text of a response can be read: the schema writes two decimals. */
  predicate Readable(ride: ClientRide) {
    && ParseMoney(ride.rideRate).Some? && ParseMoney(ride.pauseRate).Some?
    && (forall i :: 0 <= i < |ride.segments| && ride.segments[i].cost.Some? ==>
          ParseMoney(ride.segments[i].cost.value).Some?)
    && (ride.receipt.Some? ==>
          && ParseMoney(ride.receipt.value.rideCost).Some? && ParseMoney(ride.receipt.value.pauseCost).Some?
          && ParseMoney(ride.receipt.value.totalCost).Some?)
  }

  function Kopecks(text: string): int {
    var k := ParseMoney(text);
    if k.Some? then k.value else 0
  }

  /** `Math.round(rate * seconds / 60)`. */
  function SegmentCostKopecks(rate: int, seconds: int): int { MathRound(Exact(rate, seconds)) }

  function LiveCost(s: ClientSegment, rate: int, now: int): int {
    if s.cost.Some? then Kopecks(s.cost.value) else SegmentCostKopecks(rate, LiveSeconds(s, now))
  }

  function SumSeconds(ss: seq<ClientSegment>, k: Kind, now: int): int {
    if ss == [] then 0
    else SumSeconds(ss[..|ss| - 1], k, now)
         + if ss[|ss| - 1].kind == k then LiveSeconds(ss[|ss| - 1], now) else 0
  }

  function SumCost(ss: seq<ClientSegment>, k: Kind, rate: int, now: int): int {
    if ss == [] then 0
    else SumCost(ss[..|ss| - 1], k, rate, now)
         + if ss[|ss| - 1].kind == k then LiveCost(ss[|ss| - 1], rate, now) else 0
  }

  function EstimateOf(ride: ClientRide, now: int): Estimate {
    if ride.receipt.Some? then
      var r := ride.receipt.value;
      Estimate(r.rideSeconds, r.pauseSeconds, Kopecks(r.rideCost), Kopecks(r.pauseCost), Kopecks(r.totalCost))
    else
      var rideCost := SumCost(ride.segments, RideKind, Kopecks(ride.rideRate), now);
      var pauseCost := SumCost(ride.segments, PauseKind, Kopecks(ride.pauseRate), now);
      Estimate(SumSeconds(ride.segments, RideKind, now), SumSeconds(ride.segments, PauseKind, now),
               rideCost, pauseCost, rideCost + pauseCost)
  }

  /** `liveEstimate`: one pass over the segments. */
  method ComputeEstimate(ride: ClientRide, now: int) returns (estimate: Estimate)
    requires Readable(ride)
    ensures estimate == EstimateOf(ride, now)
  {
    if ride.receipt.Some? {
      var r := ride.receipt.value;
      return Estimate(r.rideSeconds, r.pauseSeconds, ParseMoney(r.rideCost).value,
                      ParseMoney(r.pauseCost).value, ParseMoney(r.totalCost).value);
    }
    var rideRate, pauseRate := ParseMoney(ride.rideRate).value, ParseMoney(ride.pauseRate).value;
    estimate := Estimate(0, 0, 0, 0, 0);
    for i := 0 to |ride.segments|
      invariant estimate.rideSeconds == SumSeconds(ride.segments[..i], RideKind, now)
      invariant estimate.pauseSeconds == SumSeconds(ride.segments[..i], PauseKind, now)
      invariant estimate.rideKopecks == SumCost(ride.segments[..i], RideKind, rideRate, now)
      invariant estimate.pauseKopecks == SumCost(ride.segments[..i], PauseKind, pauseRate, now)
    {
      assert ride.segments[..i + 1][..i] == ride.segments[..i];
      var segment := ride.segments[i];
      var seconds := LiveSeconds(segment, now);
      var rate := if segment.kind == RideKind then rideRate else pauseRate;
      var cost := if segment.cost.Some? then ParseMoney(segment.cost.value).value
                  else SegmentCostKopecks(rate, seconds);
      if segment.kind == RideKind {
        estimate := estimate.(rideSeconds := estimate.rideSeconds + seconds,
                              rideKopecks := estimate.rideKopecks + cost);
      } else {
        estimate := estimate.(pauseSeconds := estimate.pauseSeconds + seconds,
                              pauseKopecks := estimate.pauseKopecks + cost);
      }
    }
    assert ride.segments[..|ride.segments|] == ride.segments;
    estimate := estimate.(totalKopecks := estimate.rideKopecks + estimate.pauseKopecks);
  }

  // ----- the open stretch, client against server

  /** What of the open segment's start the client does not see, in microseconds. */
  function Unseen(start: int): nat { start % MICROS_PER_MILLI }

  /** The part of a second the server carries into the open segment. */
  function Carry(rideStart: int, start: int): nat
    requires rideStart <= start
  {
    (start - rideStart) % MICROS_PER_SECOND
  }

  function ServerSeconds(rideStart: int, start: int, nowMs: int): nat
    requires rideStart <= start <= nowMs * MICROS_PER_MILLI
  {
    SecondsBetween(rideStart, start, nowMs * MICROS_PER_MILLI)
  }

  function ClientSeconds(start: int, nowMs: int): nat { SegmentSeconds(start / MICROS_PER_MILLI, nowMs) }

  /** At the same instant the client's open stretch is the server's or one second less, unless
      the client's truncated start hides more than the server carries: then it is the server's
      or one second more. */
  lemma OpenSeconds(rideStart: int, start: int, nowMs: int)
    requires rideStart <= start <= nowMs * MICROS_PER_MILLI
    ensures var client, server := ClientSeconds(start, nowMs), ServerSeconds(rideStart, start, nowMs);
      if Unseen(start) <= Carry(rideStart, start) then client <= server <= client + 1
      else server <= client <= server + 1
  {
    var ms, unseen, carry := start / MICROS_PER_MILLI, Unseen(start), Carry(rideStart, start);
    var whole := DurationSeconds(rideStart, start);
    assert start == ms * MICROS_PER_MILLI + unseen;
    assert start - rideStart == whole * MICROS_PER_SECOND + carry;
    var client, server := ClientSeconds(start, nowMs), ServerSeconds(rideStart, start, nowMs);
    assert client * 1000 <= nowMs - ms < (client + 1) * 1000;
    var total := server + whole;
    assert total * MICROS_PER_SECOND <= nowMs * MICROS_PER_MILLI - rideStart < (total + 1) * MICROS_PER_SECOND;
    var open := (nowMs - ms) * MICROS_PER_MILLI - unseen + carry;
    assert server * MICROS_PER_SECOND <= open < (server + 1) * MICROS_PER_SECOND;
  }

  /** The client never runs ahead of the server's clock exactly when the open segment starts no
      deeper into its millisecond than the fraction of a second the server carries into it. */
  lemma ClientNeverAhead(rideStart: int, start: int)
    requires rideStart <= start
    ensures (forall nowMs: int | start <= nowMs * MICROS_PER_MILLI ::
               ClientSeconds(start, nowMs) <= ServerSeconds(rideStart, start, nowMs))
      <==> Unseen(start) <= Carry(rideStart, start)
  {
    if Unseen(start) <= Carry(rideStart, start) {
      forall nowMs: int | start <= nowMs * MICROS_PER_MILLI
        ensures ClientSeconds(start, nowMs) <= ServerSeconds(rideStart, start, nowMs)
      {
        OpenSeconds(rideStart, start, nowMs);
      }
    } else {
      var nowMs := start / MICROS_PER_MILLI + 1000;
      assert ClientSeconds(start, nowMs) == 1;
      var whole, carry := DurationSeconds(rideStart, start), Carry(rideStart, start);
      assert start - rideStart == whole * MICROS_PER_SECOND + carry;
      assert nowMs * MICROS_PER_MILLI - rideStart == (whole + 1) * MICROS_PER_SECOND - Unseen(start) + carry;
      assert ServerSeconds(rideStart, start, nowMs) == 0;
    }
  }

  // ----- the whole estimate

  lemma ReadsItsMoney(kopecks: int)
    ensures Kopecks(FormatMoney(kopecks)) == kopecks
  {
    ParseOfFormat(kopecks);
  }

  lemma ClosedRow(s: Segment, rate: int, now: int)
    requires s.seconds.Some? && s.cost.Some?
    ensures LiveSeconds(SegmentOut(s), now) == s.seconds.value
    ensures LiveCost(SegmentOut(s), rate, now) == s.cost.value
  {
    ReadsItsMoney(s.cost.value);
  }

  lemma OneMoreRow(ride: Ride, n: nat)
    requires n < |ride.segments| && IsClosed(ride, ride.segments[n])
    ensures var s, init, ss := ride.segments[n], ride.segments[..n], ride.segments[..n + 1];
      && s.seconds.Some? && s.cost == Some(SegmentCost(RateOf(ride, s.kind), s.seconds.value))
      && SegmentsOut(ss) == SegmentsOut(init) + [SegmentOut(s)]
      && Stretches(ss) == Stretches(init) + [Stretch(s.kind, s.seconds.value)]
  {
    ClosedColumns(ride, ride.segments[n]);
    assert ride.segments[..n + 1] == ride.segments[..n] + [ride.segments[n]];
  }

  /** Closed segments are shown as billed. */
  lemma {:induction false} ClosedSeconds(ride: Ride, n: nat, k: Kind, now: int)
    requires n <= |ride.segments| && forall i :: 0 <= i < n ==> IsClosed(ride, ride.segments[i])
    ensures SumSeconds(SegmentsOut(ride.segments[..n]), k, now) == Seconds(Stretches(ride.segments[..n]), k)
  {
    if n > 0 {
      var s, init, ss := ride.segments[n - 1], ride.segments[..n - 1], ride.segments[..n];
      ClosedSeconds(ride, n - 1, k, now);
      OneMoreRow(ride, n - 1);
      BillSplits(Stretches(ss), Stretches(init), Stretch(s.kind, s.seconds.value), k, 0);
      SumsSplit(SegmentsOut(ss), SegmentsOut(init), SegmentOut(s), k, 0, now);
      ClosedRow(s, 0, now);
    }
  }

  lemma {:induction false} ClosedCost(ride: Ride, n: nat, k: Kind, rate: int, now: int)
    requires n <= |ride.segments| && forall i :: 0 <= i < n ==> IsClosed(ride, ride.segments[i])
    requires rate == RateOf(ride, k)
    ensures SumCost(SegmentsOut(ride.segments[..n]), k, rate, now) == Cost(Stretches(ride.segments[..n]), k, rate)
  {
    if n > 0 {
      var s, init, ss := ride.segments[n - 1], ride.segments[..n - 1], ride.segments[..n];
      ClosedCost(ride, n - 1, k, rate, now);
      OneMoreRow(ride, n - 1);
      BillSplits(Stretches(ss), Stretches(init), Stretch(s.kind, s.seconds.value), k, rate);
      SumsSplit(SegmentsOut(ss), SegmentsOut(init), SegmentOut(s), k, rate, now);
      ClosedRow(s, rate, now);
    }
  }

  /** The same number of kopecks for the same seconds, on both sides. */
  lemma SamePrice(rate: nat, seconds: nat)
    ensures SegmentCostKopecks(rate, seconds) == SegmentCost(rate, seconds)
  {
    assert rate * seconds >= 0;
    RoundingIsRobust(rate, seconds, Exact(rate, seconds));
  }

  function OpenRate(ride: Ride): int
    requires ride.segments != []
  {
    RateOf(ride, LastSegment(ride).kind)
  }

  lemma SumsSplit(ss: seq<ClientSegment>, init: seq<ClientSegment>, last: ClientSegment, k: Kind, rate: int, now: int)
    requires ss == init + [last]
    ensures SumSeconds(ss, k, now) == SumSeconds(init, k, now) + if last.kind == k then LiveSeconds(last, now) else 0
    ensures SumCost(ss, k, rate, now)
      == SumCost(init, k, rate, now) + if last.kind == k then LiveCost(last, rate, now) else 0
  {
    assert ss[..|ss| - 1] == init;
  }

  lemma BillSplits(ss: seq<Stretch>, init: seq<Stretch>, last: Stretch, k: Kind, rate: int)
    requires ss == init + [last]
    ensures Seconds(ss, k) == Seconds(init, k) + if last.kind == k then last.seconds else 0
    ensures Cost(ss, k, rate) == Cost(init, k, rate) + if last.kind == k then SegmentCost(rate, last.seconds) else 0
  {
    assert ss[..|ss| - 1] == init;
  }

  /** One line of the estimate against one line of the receipt: they differ by the open segment
      alone, and only on the line of its kind. */
  lemma LineDiffers(ride: Ride, k: Kind, nowMs: int)
    requires TimelineOk(ride) && ride.status != Finished
    requires ride.rideRate >= 0 && ride.pauseRate >= 0
    requires LastSegment(ride).startedAt <= nowMs * MICROS_PER_MILLI
    ensures var last := LastSegment(ride);
      var settled := Stretches(WithLastClosed(ride, nowMs * MICROS_PER_MILLI).segments);
      var client, server := ClientSeconds(last.startedAt, nowMs), ServerSeconds(ride.startedAt, last.startedAt, nowMs);
      && SumSeconds(SegmentsOut(ride.segments), k, nowMs) - Seconds(settled, k)
         == (if last.kind == k then client - server else 0)
      && SumCost(SegmentsOut(ride.segments), k, RateOf(ride, k), nowMs) - Cost(settled, k, RateOf(ride, k))
         == (if last.kind == k then SegmentCost(RateOf(ride, k), client) - SegmentCost(RateOf(ride, k), server) else 0)
  {
    LineSeconds(ride, k, nowMs);
    LineCost(ride, k, nowMs);
  }

  lemma LineSeconds(ride: Ride, k: Kind, nowMs: int)
    requires TimelineOk(ride) && ride.status != Finished
    requires LastSegment(ride).startedAt <= nowMs * MICROS_PER_MILLI
    ensures var last := LastSegment(ride);
      SumSeconds(SegmentsOut(ride.segments), k, nowMs)
      - Seconds(Stretches(WithLastClosed(ride, nowMs * MICROS_PER_MILLI).segments), k)
      == if last.kind == k
         then ClientSeconds(last.startedAt, nowMs) - ServerSeconds(ride.startedAt, last.startedAt, nowMs) else 0
  {
    var n, last := |ride.segments|, LastSegment(ride);
    var init := ride.segments[..n - 1];
    ClosedSeconds(ride, n - 1, k, nowMs);
    LastRow(ride, nowMs);
    SumsSplit(SegmentsOut(ride.segments), SegmentsOut(init), SegmentOut(last), k, 0, nowMs);
    BillSplits(Stretches(WithLastClosed(ride, nowMs * MICROS_PER_MILLI).segments), Stretches(init),
               Stretch(last.kind, ServerSeconds(ride.startedAt, last.startedAt, nowMs)), k, 0);
  }

  lemma LineCost(ride: Ride, k: Kind, nowMs: int)
    requires TimelineOk(ride) && ride.status != Finished && RateOf(ride, k) >= 0
    requires LastSegment(ride).startedAt <= nowMs * MICROS_PER_MILLI
    ensures var last, rate := LastSegment(ride), RateOf(ride, k);
      SumCost(SegmentsOut(ride.segments), k, rate, nowMs)
      - Cost(Stretches(WithLastClosed(ride, nowMs * MICROS_PER_MILLI).segments), k, rate)
      == if last.kind == k
         then SegmentCost(rate, ClientSeconds(last.startedAt, nowMs))
              - SegmentCost(rate, ServerSeconds(ride.startedAt, last.startedAt, nowMs))
         else 0
  {
    var n, last, rate := |ride.segments|, LastSegment(ride), RateOf(ride, k);
    var init := ride.segments[..n - 1];
    ClosedCost(ride, n - 1, k, rate, nowMs);
    LastRow(ride, nowMs);
    SumsSplit(SegmentsOut(ride.segments), SegmentsOut(init), SegmentOut(last), k, rate, nowMs);
    BillSplits(Stretches(WithLastClosed(ride, nowMs * MICROS_PER_MILLI).segments), Stretches(init),
               Stretch(last.kind, ServerSeconds(ride.startedAt, last.startedAt, nowMs)), k, rate);
    OpenPrice(last, rate, nowMs);
  }

  lemma OpenPrice(s: Segment, rate: nat, nowMs: int)
    requires IsOpen(s)
    ensures LiveCost(SegmentOut(s), rate, nowMs) == SegmentCost(rate, ClientSeconds(s.startedAt, nowMs))
  {
    SamePrice(rate, ClientSeconds(s.startedAt, nowMs));
  }

  lemma LastRow(ride: Ride, nowMs: int)
    requires HasOpenSegment(ride) && ride.startedAt <= LastSegment(ride).startedAt <= nowMs * MICROS_PER_MILLI
    ensures var init, last := ride.segments[..|ride.segments| - 1], LastSegment(ride);
      && SegmentsOut(ride.segments) == SegmentsOut(init) + [SegmentOut(last)]
      && Stretches(WithLastClosed(ride, nowMs * MICROS_PER_MILLI).segments)
         == Stretches(init) + [Stretch(last.kind, ServerSeconds(ride.startedAt, last.startedAt, nowMs))]
  {}

  lemma EstimateRates(ride: Ride)
    ensures Kopecks(RideOut(ride).rideRate) == ride.rideRate && Kopecks(RideOut(ride).pauseRate) == ride.pauseRate
  {
    ReadsItsMoney(ride.rideRate);
    ReadsItsMoney(ride.pauseRate);
  }

  /** The server's receipt for a ride finished at the client's instant. */
  function BillAt(ride: Ride, nowMs: int): Receipt
    requires HasOpenSegment(ride)
  {
    Settled(ride, nowMs * MICROS_PER_MILLI, ByUser).receipt.value
  }

  /** The running total against the receipt of a finish at the same instant: never above it and
      at most a rounded-up sixtieth of the rate below, unless the truncated start hides more than
      the server carries; then never below it and at most as much above. */
  lemma EstimateTracksBill(ride: Ride, nowMs: int)
    requires TimelineOk(ride) && ride.status != Finished
    requires ride.rideRate >= 0 && ride.pauseRate >= 0
    requires LastSegment(ride).startedAt <= nowMs * MICROS_PER_MILLI
    ensures var estimate, bill := EstimateOf(RideOut(ride), nowMs), BillAt(ride, nowMs);
      var slack := (OpenRate(ride) + 59) / 60;
      var start := LastSegment(ride).startedAt;
      if Unseen(start) <= Carry(ride.startedAt, start)
      then bill.totalCost - slack <= estimate.totalKopecks <= bill.totalCost
      else bill.totalCost <= estimate.totalKopecks <= bill.totalCost + slack
  {
    TotalDiffers(ride, nowMs);
    OpenCost(OpenRate(ride), ride.startedAt, LastSegment(ride).startedAt, nowMs);
  }

  lemma TotalDiffers(ride: Ride, nowMs: int)
    requires TimelineOk(ride) && ride.status != Finished
    requires ride.rideRate >= 0 && ride.pauseRate >= 0
    requires LastSegment(ride).startedAt <= nowMs * MICROS_PER_MILLI
    ensures var start := LastSegment(ride).startedAt;
      EstimateOf(RideOut(ride), nowMs).totalKopecks - BillAt(ride, nowMs).totalCost
      == SegmentCost(OpenRate(ride), ClientSeconds(start, nowMs))
         - SegmentCost(OpenRate(ride), ServerSeconds(ride.startedAt, start, nowMs))
  {
    EstimateRates(ride);
    LineDiffers(ride, RideKind, nowMs);
    LineDiffers(ride, PauseKind, nowMs);
  }

  lemma OpenCost(rate: nat, rideStart: int, start: int, nowMs: int)
    requires rideStart <= start <= nowMs * MICROS_PER_MILLI
    ensures var client := SegmentCost(rate, ClientSeconds(start, nowMs));
      var server := SegmentCost(rate, ServerSeconds(rideStart, start, nowMs));
      if Unseen(start) <= Carry(rideStart, start) then server - (rate + 59) / 60 <= client <= server
      else server <= client <= server + (rate + 59) / 60
  {
    OpenSeconds(rideStart, start, nowMs);
    CostOfOneMoreSecond(rate, ClientSeconds(start, nowMs));
    CostOfOneMoreSecond(rate, ServerSeconds(rideStart, start, nowMs));
  }

  // ----- line by line

  /** A line of the estimate and of the receipt: seconds and kopecks. */
  function ShownLine(e: Estimate, k: Kind): (int, int) {
    if k == RideKind then (e.rideSeconds, e.rideKopecks) else (e.pauseSeconds, e.pauseKopecks)
  }

  function BilledLine(r: Receipt, k: Kind): (int, int) {
    if k == RideKind then (r.rideSeconds, r.rideCost) else (r.pauseSeconds, r.pauseCost)
  }

  /** However often the ride was paused and whatever the client's clock says: the line that is not
      running shows what is billed, and the running one is within a second and the price of one, on
      the side of the total. A clock behind the start of the open stretch shows all that is billed. */
  lemma LinesTrackBill(ride: Ride, nowMs: int, k: Kind)
    requires TimelineOk(ride) && ride.status != Finished
    requires ride.rideRate >= 0 && ride.pauseRate >= 0
    ensures var (start, slack) := (LastSegment(ride).startedAt, (OpenRate(ride) + 59) / 60);
      var (shown, cost) := ShownLine(EstimateOf(RideOut(ride), nowMs), k);
      var (billed, price) := BilledLine(BillAt(ride, nowMs), k);
      if (ride.status == Paused) != (k == PauseKind) || nowMs * MICROS_PER_MILLI < start then
        shown == billed && cost == price
      else if Unseen(start) <= Carry(ride.startedAt, start) then
        billed - 1 <= shown <= billed && price - slack <= cost <= price
      else
        billed <= shown <= billed + 1 && price <= cost <= price + slack
  {
    EstimateRates(ride);
    var last := LastSegment(ride);
    if last.startedAt <= nowMs * MICROS_PER_MILLI {
      LineDiffers(ride, k, nowMs);
      OpenSeconds(ride.startedAt, last.startedAt, nowMs);
      OpenCost(OpenRate(ride), ride.startedAt, last.startedAt, nowMs);
    } else {
      EarlyLine(ride, k, nowMs);
    }
  }

  /** A clock behind the open segment's start adds nothing on either side. */
  lemma EarlyLine(ride: Ride, k: Kind, nowMs: int)
    requires TimelineOk(ride) && ride.status != Finished && RateOf(ride, k) >= 0
    requires nowMs * MICROS_PER_MILLI < LastSegment(ride).startedAt
    ensures var settled := Stretches(WithLastClosed(ride, nowMs * MICROS_PER_MILLI).segments);
      && SumSeconds(SegmentsOut(ride.segments), k, nowMs) == Seconds(settled, k)
      && SumCost(SegmentsOut(ride.segments), k, RateOf(ride, k), nowMs) == Cost(settled, k, RateOf(ride, k))
  {
    var n, last, rate := |ride.segments|, LastSegment(ride), RateOf(ride, k);
    var init := ride.segments[..n - 1];
    var settled := Stretches(WithLastClosed(ride, nowMs * MICROS_PER_MILLI).segments);
    ClosedSeconds(ride, n - 1, k, nowMs);
    ClosedCost(ride, n - 1, k, rate, nowMs);
    EarlyRow(ride, nowMs);
    SumsSplit(SegmentsOut(ride.segments), SegmentsOut(init), SegmentOut(last), k, rate, nowMs);
    BillSplits(settled, Stretches(init), Stretch(last.kind, 0), k, rate);
    EarlyOpen(last, rate, nowMs);
  }

  lemma EarlyRow(ride: Ride, nowMs: int)
    requires HasOpenSegment(ride) && nowMs * MICROS_PER_MILLI < LastSegment(ride).startedAt
    ensures var init, last := ride.segments[..|ride.segments| - 1], LastSegment(ride);
      && SegmentsOut(ride.segments) == SegmentsOut(init) + [SegmentOut(last)]
      && Stretches(WithLastClosed(ride, nowMs * MICROS_PER_MILLI).segments) == Stretches(init) + [Stretch(last.kind, 0)]
  {}

  lemma EarlyOpen(s: Segment, rate: nat, nowMs: int)
    requires IsOpen(s) && nowMs * MICROS_PER_MILLI < s.startedAt
    ensures LiveSeconds(SegmentOut(s), nowMs) == 0
    ensures LiveCost(SegmentOut(s), rate, nowMs) == 0 == SegmentCost(rate, 0)
  {
    assert nowMs <= s.startedAt / MICROS_PER_MILLI;
    MinutePrice(rate);
    SamePrice(rate, 0);
  }

  // ----- when the display is ever above the bill

  predicate WithinBill(ride: Ride, nowMs: int)
    requires HasOpenSegment(ride)
  {
    EstimateOf(RideOut(ride), nowMs).totalKopecks <= BillAt(ride, nowMs).totalCost
  }

  /** The running total is at no instant above the receipt of a finish at that instant exactly
      when the truncated start hides no more than the server carries, or the open stretch is free. */
  lemma TotalNeverAbove(ride: Ride)
    requires TimelineOk(ride) && ride.status != Finished
    requires ride.rideRate >= 0 && ride.pauseRate >= 0
    ensures var start := LastSegment(ride).startedAt;
      (forall nowMs: int | start <= nowMs * MICROS_PER_MILLI :: WithinBill(ride, nowMs))
      <==> Unseen(start) <= Carry(ride.startedAt, start) || OpenRate(ride) == 0
  {
    var start := LastSegment(ride).startedAt;
    forall nowMs: int | start <= nowMs * MICROS_PER_MILLI
      ensures WithinBill(ride, nowMs) <==> CostWithin(OpenRate(ride), ride.startedAt, start, nowMs)
    {
      TotalDiffers(ride, nowMs);
    }
    CostNeverAbove(OpenRate(ride), ride.startedAt, start);
  }

  /** The open stretch costs no more on the client than on the server. */
  predicate CostWithin(rate: int, rideStart: int, start: int, nowMs: int)
    requires rideStart <= start <= nowMs * MICROS_PER_MILLI
  {
    SegmentCost(rate, ClientSeconds(start, nowMs)) <= SegmentCost(rate, ServerSeconds(rideStart, start, nowMs))
  }

  lemma CostNeverAbove(rate: nat, rideStart: int, start: int)
    requires rideStart <= start
    ensures (forall nowMs: int | start <= nowMs * MICROS_PER_MILLI :: CostWithin(rate, rideStart, start, nowMs))
      <==> Unseen(start) <= Carry(rideStart, start) || rate == 0
  {
    if Unseen(start) <= Carry(rideStart, start) || rate == 0 {
      forall nowMs: int | start <= nowMs * MICROS_PER_MILLI ensures CostWithin(rate, rideStart, start, nowMs) {
        OpenCost(rate, rideStart, start, nowMs);
      }
    } else {
      var nowMs := CostAbove(rate, rideStart, start);
      assert !CostWithin(rate, rideStart, start, nowMs);
    }
  }

  /** Some whole number of seconds on the client's clock shows a kopeck not yet billed. */
  lemma CostAbove(rate: nat, rideStart: int, start: int) returns (nowMs: int)
    requires rideStart <= start && Unseen(start) > Carry(rideStart, start) && rate > 0
    ensures start <= nowMs * MICROS_PER_MILLI && !CostWithin(rate, rideStart, start, nowMs)
  {
    MinutePrice(rate);
    var n := PriceJump(rate, 60);
    nowMs := start / MICROS_PER_MILLI + 1000 * n;
    AheadAt(rideStart, start, n);
  }

  lemma MinutePrice(rate: nat)
    ensures SegmentCost(rate, 60) == rate && SegmentCost(rate, 0) == 0
  {}

  /** A price above nothing was reached by a jump from one second to the next. */
  lemma {:induction false} PriceJump(rate: nat, m: nat) returns (n: nat)
    requires SegmentCost(rate, m) > 0
    ensures 1 <= n <= m && SegmentCost(rate, n - 1) < SegmentCost(rate, n)
  {
    MinutePrice(rate);
    if SegmentCost(rate, m - 1) < SegmentCost(rate, m) {
      n := m;
    } else {
      n := PriceJump(rate, m - 1);
    }
  }

  /** After `n` seconds on the client's clock the server has counted one less. */
  lemma AheadAt(rideStart: int, start: int, n: nat)
    requires rideStart <= start && Unseen(start) > Carry(rideStart, start) && n > 0
    ensures var nowMs := start / MICROS_PER_MILLI + 1000 * n;
      && start <= nowMs * MICROS_PER_MILLI
      && ClientSeconds(start, nowMs) == n && ServerSeconds(rideStart, start, nowMs) == n - 1
  {
    var ms, unseen, carry := start / MICROS_PER_MILLI, Unseen(start), Carry(rideStart, start);
    var nowMs, whole := ms + 1000 * n, DurationSeconds(rideStart, start);
    assert start == ms * MICROS_PER_MILLI + unseen && start - rideStart == whole * MICROS_PER_SECOND + carry;
    assert nowMs * MICROS_PER_MILLI - rideStart == (whole + n) * MICROS_PER_SECOND - unseen + carry;
  }

  /** Such rides are real: started 999 microseconds into a millisecond at 60 kopecks a minute, one
      kopeck is shown a second later and none billed. */
  lemma DisplayCanBeAhead(user: nat, scooter: nat, booking: nat, id: nat)
    ensures var ride := Started(user, scooter, booking, 60, 20, 999, id);
      EstimateOf(RideOut(ride), 1000).totalKopecks == 1 && BillAt(ride, 1000).totalCost == 0
  {
    var ride := Started(user, scooter, booking, 60, 20, 999, id);
    StartedOk(user, scooter, booking, 60, 20, 999, id);
    assert ClientSeconds(999, 1000) == 1 && ServerSeconds(999, 999, 1000) == 0;
    OnlyStretch(ride, 1000);
  }

  // ----- rides never paused

  /** All the display and the bill of a ride never paused consist of. */
  lemma OnlyStretch(ride: Ride, nowMs: int)
    requires TimelineOk(ride) && ride.status != Finished && |ride.segments| == 1
    requires ride.rideRate >= 0 && ride.pauseRate >= 0
    requires ride.startedAt <= nowMs * MICROS_PER_MILLI
    ensures var start, rate := ride.startedAt, ride.rideRate;
      var client, server := ClientSeconds(start, nowMs), ServerSeconds(start, start, nowMs);
      var clientCost, serverCost := SegmentCost(rate, client), SegmentCost(rate, server);
      && EstimateOf(RideOut(ride), nowMs) == Estimate(client, 0, clientCost, 0, clientCost)
      && BillAt(ride, nowMs) == Receipt(server, 0, serverCost, 0, serverCost)
  {
    EstimateRates(ride);
    OnlyRows(ride, nowMs);
    var row := SegmentOut(ride.segments[0]);
    var stretch := Stretch(RideKind, ServerSeconds(ride.startedAt, ride.startedAt, nowMs));
    OnlySums(row, RideKind, ride.rideRate, nowMs);
    OnlySums(row, PauseKind, ride.pauseRate, nowMs);
    OnlyBill(stretch, RideKind, ride.rideRate);
    OnlyBill(stretch, PauseKind, ride.pauseRate);
    OpenPrice(ride.segments[0], ride.rideRate, nowMs);
  }

  lemma OnlyRows(ride: Ride, nowMs: int)
    requires TimelineOk(ride) && ride.status != Finished && |ride.segments| == 1
    requires ride.startedAt <= nowMs * MICROS_PER_MILLI
    ensures var s := ride.segments[0]; s.kind == RideKind && s.startedAt == ride.startedAt && IsOpen(s)
    ensures SegmentsOut(ride.segments) == [SegmentOut(ride.segments[0])]
    ensures Stretches(WithLastClosed(ride, nowMs * MICROS_PER_MILLI).segments)
      == [Stretch(RideKind, ServerSeconds(ride.startedAt, ride.startedAt, nowMs))]
  {
    LastRow(ride, nowMs);
  }

  lemma OnlySums(row: ClientSegment, k: Kind, rate: int, now: int)
    ensures SumSeconds([row], k, now) == if row.kind == k then LiveSeconds(row, now) else 0
    ensures SumCost([row], k, rate, now) == if row.kind == k then LiveCost(row, rate, now) else 0
  {
    assert [row][..0] == [];
    SumsSplit([row], [], row, k, rate, now);
  }

  lemma OnlyBill(stretch: Stretch, k: Kind, rate: int)
    ensures Seconds([stretch], k) == if stretch.kind == k then stretch.seconds else 0
    ensures Cost([stretch], k, rate) == if stretch.kind == k then SegmentCost(rate, stretch.seconds) else 0
  {
    assert [stretch][..0] == [];
    BillSplits([stretch], [], stretch, k, rate);
  }

  /** A ride never paused, started on a whole millisecond: the display is the bill. */
  lemma NeverPausedIsExact(ride: Ride, nowMs: int)
    requires TimelineOk(ride) && ride.status != Finished && |ride.segments| == 1
    requires ride.rideRate >= 0 && ride.pauseRate >= 0
    requires ride.startedAt <= nowMs * MICROS_PER_MILLI && Unseen(ride.startedAt) == 0
    ensures var estimate, bill := EstimateOf(RideOut(ride), nowMs), BillAt(ride, nowMs);
      && estimate.rideSeconds == bill.rideSeconds && estimate.pauseSeconds == bill.pauseSeconds
      && estimate.rideKopecks == bill.rideCost && estimate.pauseKopecks == bill.pauseCost
      && estimate.totalKopecks == bill.totalCost
  {
    OnlyStretch(ride, nowMs);
    WholeMillis(ride.startedAt, nowMs);
  }

  predicate ShowsBilledSeconds(ride: Ride, nowMs: int)
    requires HasOpenSegment(ride)
  {
    var estimate, bill := EstimateOf(RideOut(ride), nowMs), BillAt(ride, nowMs);
    estimate.rideSeconds == bill.rideSeconds && estimate.pauseSeconds == bill.pauseSeconds
  }

  predicate ShowsBilledCosts(ride: Ride, nowMs: int)
    requires HasOpenSegment(ride)
  {
    var estimate, bill := EstimateOf(RideOut(ride), nowMs), BillAt(ride, nowMs);
    && estimate.rideKopecks == bill.rideCost && estimate.pauseKopecks == bill.pauseCost
    && estimate.totalKopecks == bill.totalCost
  }

  predicate ClocksAgree(start: int, nowMs: int)
    requires start <= nowMs * MICROS_PER_MILLI
  {
    ClientSeconds(start, nowMs) == ServerSeconds(start, start, nowMs)
  }

  predicate PricesAgree(rate: int, start: int, nowMs: int)
    requires start <= nowMs * MICROS_PER_MILLI
  {
    SegmentCost(rate, ClientSeconds(start, nowMs)) == SegmentCost(rate, ServerSeconds(start, start, nowMs))
  }

  /** For a ride never paused the display shows the billed seconds at every instant exactly when
      it started on a whole millisecond, and the billed kopecks exactly when it did or is free. */
  lemma NeverPausedExactly(ride: Ride)
    requires TimelineOk(ride) && ride.status != Finished && |ride.segments| == 1
    requires ride.rideRate >= 0 && ride.pauseRate >= 0
    ensures (forall nowMs: int | ride.startedAt <= nowMs * MICROS_PER_MILLI :: ShowsBilledSeconds(ride, nowMs))
      <==> Unseen(ride.startedAt) == 0
    ensures (forall nowMs: int | ride.startedAt <= nowMs * MICROS_PER_MILLI :: ShowsBilledCosts(ride, nowMs))
      <==> Unseen(ride.startedAt) == 0 || ride.rideRate == 0
  {
    forall nowMs: int | ride.startedAt <= nowMs * MICROS_PER_MILLI
      ensures ShowsBilledSeconds(ride, nowMs) <==> ClocksAgree(ride.startedAt, nowMs)
      ensures ShowsBilledCosts(ride, nowMs) <==> PricesAgree(ride.rideRate, ride.startedAt, nowMs)
    {
      OnlyStretch(ride, nowMs);
    }
    ClocksAgreeOnWholeMillis(ride.startedAt);
    PricesAgreeOnWholeMillis(ride.rideRate, ride.startedAt);
  }

  lemma PricesAgreeOnWholeMillis(rate: nat, start: int)
    ensures (forall nowMs: int | start <= nowMs * MICROS_PER_MILLI :: PricesAgree(rate, start, nowMs))
      <==> Unseen(start) == 0 || rate == 0
  {
    if Unseen(start) == 0 || rate == 0 {
      forall nowMs: int | start <= nowMs * MICROS_PER_MILLI ensures PricesAgree(rate, start, nowMs) {
        if rate > 0 {
          WholeMillis(start, nowMs);
        }
      }
    } else {
      var nowMs := CostAbove(rate, start, start);
      assert !PricesAgree(rate, start, nowMs);
    }
  }

  lemma ClocksAgreeOnWholeMillis(start: int)
    ensures (forall nowMs: int | start <= nowMs * MICROS_PER_MILLI :: ClocksAgree(start, nowMs)) <==> Unseen(start) == 0
  {
    if Unseen(start) == 0 {
      forall nowMs: int | start <= nowMs * MICROS_PER_MILLI ensures ClocksAgree(start, nowMs) {
        OpenSeconds(start, start, nowMs);
        WholeMillis(start, nowMs);
      }
    } else {
      var nowMs := start / MICROS_PER_MILLI + 1000;
      assert ClientSeconds(start, nowMs) == 1 && ServerSeconds(start, start, nowMs) == 0;
      assert !ClocksAgree(start, nowMs);
    }
  }

  lemma WholeMillis(start: int, nowMs: int)
    requires Unseen(start) == 0 && start <= nowMs * MICROS_PER_MILLI
    ensures ClientSeconds(start, nowMs) == ServerSeconds(start, start, nowMs)
  {
    assert start == start / MICROS_PER_MILLI * MICROS_PER_MILLI;
  }

  /** Once finished the client shows the stored receipt, whatever its clock says. */
  lemma FinishedShowsReceipt(ride: Ride, now: int)
    requires TimelineOk(ride) && ride.status == Finished
    ensures Readable(RideOut(ride))
    ensures var r := ride.receipt.value;
      EstimateOf(RideOut(ride), now)
      == Estimate(r.rideSeconds, r.pauseSeconds, r.rideCost, r.pauseCost, r.totalCost)
  {
    var r := ride.receipt.value;
    ReadsItsMoney(r.rideCost);
    ReadsItsMoney(r.pauseCost);
    ReadsItsMoney(r.totalCost);
    ResponsesAreReadable(ride);
  }

  lemma ResponsesAreReadable(ride: Ride)
    ensures Readable(RideOut(ride))
  {
    ParseOfFormat(ride.rideRate);
    ParseOfFormat(ride.pauseRate);
    forall i | 0 <= i < |ride.segments| && ride.segments[i].cost.Some?
      ensures ParseMoney(SegmentOut(ride.segments[i]).cost.value).Some?
    {
      ParseOfFormat(ride.segments[i].cost.value);
    }
    if ride.receipt.Some? {
      ParseOfFormat(ride.receipt.value.rideCost);
      ParseOfFormat(ride.receipt.value.pauseCost);
      ParseOfFormat(ride.receipt.value.totalCost);
    }
  }
}
