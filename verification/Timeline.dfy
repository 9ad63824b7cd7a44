/** One ride row with its segments, and the four ways the services rewrite it
    (backend/app/models/ride.py, backend/app/services/rides.py). Instants are microseconds. */
module Timeline {
  import opened Options
  import opened Billing

  datatype RideStatus = Active | Paused | Finished
  datatype FinishReason = ByUser | ByBattery

  datatype Segment = Segment(id: nat, kind: Kind, startedAt: int,
                             endedAt: Option<int>, seconds: Option<nat>, cost: Option<int>)

  datatype Ride = Ride(user: nat, scooter: nat, booking: nat, status: RideStatus,
                       startedAt: int, finishedAt: Option<int>, finishReason: Option<FinishReason>,
                       finishBattery: Option<int>, finishThreshold: Option<int>,
                       rideRate: int, pauseRate: int, receipt: Option<Receipt>,
                       segments: seq<Segment>)

  function RateOf(ride: Ride, kind: Kind): int {
    if kind == RideKind then ride.rideRate else ride.pauseRate
  }

  function Max(a: int, b: int): int { if a < b then b else a }

  predicate IsOpen(s: Segment) { s.endedAt.None? && s.seconds.None? && s.cost.None? }

  function OpenSegment(id: nat, kind: Kind, startedAt: int): Segment {
    Segment(id, kind, startedAt, None, None, None)
  }

  /** The stored segments as `_settle` hands them to `bill`: a missing `seconds` counts as 0. */
  function Stretches(segments: seq<Segment>): (ss: seq<Stretch>)
    ensures |ss| == |segments|
    ensures forall i :: 0 <= i < |ss| ==>
      ss[i] == Stretch(segments[i].kind,
                       if segments[i].seconds.Some? then segments[i].seconds.value else 0)
  {
    seq(|segments|, i requires 0 <= i < |segments| =>
      Stretch(segments[i].kind,
              if segments[i].seconds.Some? then segments[i].seconds.value else 0))
  }

  // ----- the rewrites

  /** Seconds billed for a stretch: what it adds to the ride's count of whole seconds. */
  function SecondsBetween(rideStart: int, from: int, to: int): nat
    requires rideStart <= from <= to
  {
    DurationSeconds(rideStart, to) - DurationSeconds(rideStart, from)
  }

  /** `_close_segment` on the open segment: the clock is clamped to the segment's start. */
  function ClosedAt(ride: Ride, s: Segment, now: int): Segment
    requires ride.startedAt <= s.startedAt
  {
    var end := Max(now, s.startedAt);
    var seconds := SecondsBetween(ride.startedAt, s.startedAt, end);
    s.(endedAt := Some(end), seconds := Some(seconds),
       cost := Some(SegmentCost(RateOf(ride, s.kind), seconds)))
  }

  predicate HasOpenSegment(ride: Ride) {
    ride.segments != [] && ride.startedAt <= ride.segments[|ride.segments| - 1].startedAt
  }

  function LastSegment(ride: Ride): Segment
    requires ride.segments != []
  {
    ride.segments[|ride.segments| - 1]
  }

  /** When a close requested at `now` takes effect. */
  function EffectiveTime(ride: Ride, now: int): int
    requires ride.segments != []
  {
    Max(now, LastSegment(ride).startedAt)
  }

  function WithLastClosed(ride: Ride, now: int): Ride
    requires HasOpenSegment(ride)
  {
    ride.(segments := ride.segments[..|ride.segments| - 1] + [ClosedAt(ride, LastSegment(ride), now)])
  }

  function Started(user: nat, scooter: nat, booking: nat, rideRate: int, pauseRate: int,
                   now: int, segmentId: nat): Ride
  {
    Ride(user, scooter, booking, Active, now, None, None, None, None, rideRate, pauseRate, None,
         [OpenSegment(segmentId, RideKind, now)])
  }

  function KindOf(status: RideStatus): Kind { if status == Paused then PauseKind else RideKind }

  /** `pause_ride` and `resume_ride`: close the open stretch and open one of the other kind. */
  function Switched(ride: Ride, status: RideStatus, now: int, segmentId: nat): Ride
    requires HasOpenSegment(ride)
  {
    var closed := WithLastClosed(ride, now);
    closed.(status := status,
            segments := closed.segments
                        + [OpenSegment(segmentId, KindOf(status), EffectiveTime(ride, now))])
  }

  /** `_settle`: close the last stretch and write the receipt. */
  function Settled(ride: Ride, now: int, reason: FinishReason): Ride
    requires HasOpenSegment(ride)
  {
    var closed := WithLastClosed(ride, now);
    closed.(status := Finished, finishedAt := Some(EffectiveTime(ride, now)),
            finishReason := Some(reason),
            receipt := Some(ReceiptOf(Stretches(closed.segments), ride.rideRate, ride.pauseRate)))
  }

  // ----- what every stored ride looks like

  /** The two columns a close computes. */
  datatype Column = SecondsColumn | CostColumn

  predicate Computed(c: Column, rideStart: int, rate: int, s: Segment)
    requires rideStart <= s.startedAt && s.endedAt.Some? && s.startedAt <= s.endedAt.value
  {
    match c
    case SecondsColumn => s.seconds == Some(SecondsBetween(rideStart, s.startedAt, s.endedAt.value))
    case CostColumn => s.seconds.Some? && s.cost == Some(SegmentCost(rate, s.seconds.value))
  }

  ghost predicate IsClosed(ride: Ride, s: Segment) {
    && ride.startedAt <= s.startedAt
    && s.endedAt.Some? && s.startedAt <= s.endedAt.value
    && forall c :: Computed(c, ride.startedAt, RateOf(ride, s.kind), s)
  }

  /** What a closed segment stores. */
  lemma ClosedColumns(ride: Ride, s: Segment)
    requires IsClosed(ride, s)
    ensures s.seconds == Some(SecondsBetween(ride.startedAt, s.startedAt, s.endedAt.value))
    ensures s.cost == Some(SegmentCost(RateOf(ride, s.kind), s.seconds.value))
  {
    assert Computed(SecondsColumn, ride.startedAt, RateOf(ride, s.kind), s);
    assert Computed(CostColumn, ride.startedAt, RateOf(ride, s.kind), s);
  }

  function KindAt(i: nat): Kind { if i % 2 == 0 then RideKind else PauseKind }

  /** From `started_at`, alternating, each segment ending where the next begins. */
  ghost predicate Chained(ride: Ride) {
    && ride.segments != []
    && ride.segments[0].startedAt == ride.startedAt
    && (forall i :: 0 <= i < |ride.segments| ==> ride.segments[i].kind == KindAt(i))
    && (forall i :: 0 <= i < |ride.segments| ==> ride.startedAt <= ride.segments[i].startedAt)
    && (forall i :: 0 <= i < |ride.segments| - 1 ==> IsClosed(ride, ride.segments[i]))
    && (forall i :: 0 <= i < |ride.segments| - 1 ==>
          ride.segments[i].endedAt == Some(ride.segments[i + 1].startedAt))
    && (forall i, j :: 0 <= i < j < |ride.segments| ==> ride.segments[i].id < ride.segments[j].id)
  }

  ghost predicate TimelineOk(ride: Ride) {
    && Chained(ride)
    && if ride.status == Finished then
         && IsClosed(ride, LastSegment(ride))
         && ride.finishedAt == LastSegment(ride).endedAt
         && ride.finishReason.Some?
         && ride.receipt == Some(ReceiptOf(Stretches(ride.segments), ride.rideRate, ride.pauseRate))
       else
         && IsOpen(LastSegment(ride))
         && LastSegment(ride).kind == KindOf(ride.status)
         && ride.finishedAt.None? && ride.finishReason.None? && ride.receipt.None?
  }

  ghost predicate SegmentIdsBelow(ride: Ride, bound: nat) {
    forall i :: 0 <= i < |ride.segments| ==> ride.segments[i].id < bound
  }

  lemma StartedOk(user: nat, scooter: nat, booking: nat, rideRate: int, pauseRate: int,
                  now: int, segmentId: nat)
    ensures TimelineOk(Started(user, scooter, booking, rideRate, pauseRate, now, segmentId))
  {}

  /** Whether a segment is rightly billed depends on the ride's start and tariff alone. */
  lemma SameTariff(a: Ride, b: Ride, s: Segment)
    requires a.startedAt == b.startedAt && a.rideRate == b.rideRate && a.pauseRate == b.pauseRate
    ensures IsClosed(a, s) <==> IsClosed(b, s)
  {
    assert RateOf(a, s.kind) == RateOf(b, s.kind);
  }

  lemma ClosedTransfers(a: Ride, b: Ride)
    requires a.startedAt == b.startedAt && a.rideRate == b.rideRate && a.pauseRate == b.pauseRate
    ensures forall s :: IsClosed(a, s) <==> IsClosed(b, s)
  {
    forall s ensures IsClosed(a, s) <==> IsClosed(b, s) { SameTariff(a, b, s); }
  }

  /** A close computes the columns it should. */
  lemma CloseIsClosed(ride: Ride, s: Segment, now: int)
    requires ride.startedAt <= s.startedAt
    ensures IsClosed(ride, ClosedAt(ride, s, now))
  {}

  /** Closing the open segment keeps the chain, whatever the clock says. */
  lemma ClosingKeepsChain(ride: Ride, now: int)
    requires TimelineOk(ride) && ride.status != Finished
    ensures Chained(WithLastClosed(ride, now))
    ensures IsClosed(WithLastClosed(ride, now), LastSegment(WithLastClosed(ride, now)))
    ensures LastSegment(WithLastClosed(ride, now)).endedAt == Some(EffectiveTime(ride, now))
    ensures |WithLastClosed(ride, now).segments| == |ride.segments|
    ensures forall i :: 0 <= i < |ride.segments| ==>
      WithLastClosed(ride, now).segments[i].id == ride.segments[i].id
  {
    var n := |ride.segments|;
    var closed := WithLastClosed(ride, now);
    assert forall i :: 0 <= i < n - 1 ==> closed.segments[i] == ride.segments[i];
    assert closed.segments[n - 1] == ClosedAt(ride, LastSegment(ride), now);
    CloseIsClosed(ride, LastSegment(ride), now);
    ClosedTransfers(ride, closed);
  }

  lemma {:induction false} StartsAscend(ride: Ride, i: nat, j: nat)
    requires Chained(ride) && i <= j < |ride.segments|
    ensures ride.segments[i].startedAt <= ride.segments[j].startedAt
    decreases j - i
  {
    if i < j {
      assert IsClosed(ride, ride.segments[i]);
      StartsAscend(ride, i + 1, j);
    }
  }

  /** A closed chain goes on with a fresh segment of the next kind. */
  lemma AppendKeepsChain(closed: Ride, status: RideStatus, id: nat)
    requires Chained(closed) && IsClosed(closed, LastSegment(closed)) && SegmentIdsBelow(closed, id)
    requires KindOf(status) == KindAt(|closed.segments|)
    ensures var end := LastSegment(closed).endedAt.value;
      Chained(closed.(status := status, segments := closed.segments + [OpenSegment(id, KindOf(status), end)]))
  {
    var n := |closed.segments|;
    var next := OpenSegment(id, KindOf(status), LastSegment(closed).endedAt.value);
    var after := closed.(status := status, segments := closed.segments + [next]);
    assert forall i :: 0 <= i < n ==> after.segments[i] == closed.segments[i];
    assert after.segments[n] == next;
    forall i | 0 <= i < n ensures IsClosed(after, after.segments[i]) {
      assert i < n - 1 ==> IsClosed(closed, closed.segments[i]);
      SameTariff(closed, after, closed.segments[i]);
    }
    StartsAscend(closed, 0, n - 1);
  }

  lemma SwitchedOk(ride: Ride, status: RideStatus, now: int, segmentId: nat)
    requires TimelineOk(ride) && SegmentIdsBelow(ride, segmentId)
    requires (ride.status == Active && status == Paused) || (ride.status == Paused && status == Active)
    ensures TimelineOk(Switched(ride, status, now, segmentId))
    ensures SegmentIdsBelow(Switched(ride, status, now, segmentId), segmentId + 1)
  {
    ClosingKeepsChain(ride, now);
    LastKind(ride);
    AppendOk(WithLastClosed(ride, now), Switched(ride, status, now, segmentId), status, segmentId);
  }

  lemma AppendOk(closed: Ride, after: Ride, status: RideStatus, id: nat)
    requires Chained(closed) && IsClosed(closed, LastSegment(closed)) && SegmentIdsBelow(closed, id)
    requires KindOf(status) == KindAt(|closed.segments|) && status != Finished
    requires closed.finishedAt.None? && closed.finishReason.None? && closed.receipt.None?
    requires after == closed.(status := status, segments :=
        closed.segments + [OpenSegment(id, KindOf(status), LastSegment(closed).endedAt.value)])
    ensures TimelineOk(after) && SegmentIdsBelow(after, id + 1)
  {
    OpenTail(closed, after, status, id);
    AppendKeepsChain(closed, status, id);
    UnfinishedOk(after);
  }

  lemma UnfinishedOk(ride: Ride)
    requires Chained(ride) && ride.status != Finished && IsOpen(LastSegment(ride))
    requires LastSegment(ride).kind == KindOf(ride.status)
    requires ride.finishedAt.None? && ride.finishReason.None? && ride.receipt.None?
    ensures TimelineOk(ride)
  {}

  lemma LastKind(ride: Ride)
    requires Chained(ride)
    ensures LastSegment(ride).kind == KindAt(|ride.segments| - 1)
  {}

  lemma OpenTail(closed: Ride, after: Ride, status: RideStatus, id: nat)
    requires closed.segments != [] && LastSegment(closed).endedAt.Some? && SegmentIdsBelow(closed, id)
    requires after == closed.(status := status, segments :=
        closed.segments + [OpenSegment(id, KindOf(status), LastSegment(closed).endedAt.value)])
    ensures IsOpen(LastSegment(after)) && LastSegment(after).kind == KindOf(after.status)
    ensures SegmentIdsBelow(after, id + 1)
  {
    forall i | 0 <= i < |after.segments| ensures after.segments[i].id < id + 1 {
      assert i < |closed.segments| ==> after.segments[i] == closed.segments[i];
    }
  }

  lemma SettledOk(ride: Ride, now: int, reason: FinishReason)
    requires TimelineOk(ride) && ride.status != Finished
    ensures TimelineOk(Settled(ride, now, reason))
    ensures forall bound :: SegmentIdsBelow(ride, bound) ==> SegmentIdsBelow(Settled(ride, now, reason), bound)
  {
    ClosingKeepsChain(ride, now);
    var closed, after := WithLastClosed(ride, now), Settled(ride, now, reason);
    ClosedTransfers(closed, after);
  }

  /** The details of a battery finish are no part of the timeline. */
  lemma BatteryColumnsOk(ride: Ride, battery: int, threshold: int)
    requires TimelineOk(ride)
    ensures TimelineOk(ride.(finishBattery := Some(battery), finishThreshold := Some(threshold)))
  {
    var after := ride.(finishBattery := Some(battery), finishThreshold := Some(threshold));
    ClosedTransfers(ride, after);
  }

  // ----- what follows for every stored ride

  /** ORDER BY started_at, id. */
  predicate Before(a: Segment, b: Segment) {
    a.startedAt < b.startedAt || (a.startedAt == b.startedAt && a.id < b.id)
  }

  ghost predicate InLoadOrder(ss: seq<Segment>) {
    forall i, j :: 0 <= i < j < |ss| ==> !Before(ss[j], ss[i])
  }

  ghost predicate StrictlyOrdered(ss: seq<Segment>) {
    forall i, j :: 0 <= i < j < |ss| ==> Before(ss[i], ss[j])
  }

  lemma {:induction false} SortIsUnique(strict: seq<Segment>, loaded: seq<Segment>)
    requires StrictlyOrdered(strict) && InLoadOrder(loaded) && multiset(loaded) == multiset(strict)
    ensures loaded == strict
  {
    if strict == [] {
      assert |multiset(loaded)| == |loaded|;
    } else {
      SameHead(strict, loaded);
      Tail(strict);
      Tail(loaded);
      SortIsUnique(strict[1..], loaded[1..]);
    }
  }

  lemma Tail(ss: seq<Segment>)
    requires ss != []
    ensures ss == [ss[0]] + ss[1..] && multiset(ss[1..]) == multiset(ss) - multiset{ss[0]}
    ensures StrictlyOrdered(ss) ==> StrictlyOrdered(ss[1..])
    ensures InLoadOrder(ss) ==> InLoadOrder(ss[1..])
  {
    assert ss == [ss[0]] + ss[1..];
  }

  lemma SameHead(strict: seq<Segment>, loaded: seq<Segment>)
    requires StrictlyOrdered(strict) && strict != []
    requires InLoadOrder(loaded) && multiset(loaded) == multiset(strict)
    ensures loaded != [] && loaded[0] == strict[0]
  {
    assert strict[0] in multiset(loaded);
    var i :| 0 <= i < |loaded| && loaded[i] == strict[0];
    assert loaded[0] in multiset(strict);
    var j :| 0 <= j < |strict| && strict[j] == loaded[0];
    assert j > 0 ==> Before(strict[0], strict[j]);
    assert i > 0 ==> !Before(loaded[i], loaded[0]);
  }

  /** However the rows come out of the table, sorting them by (started_at, id) gives back the
      order in which they were appended: `segments[-1]` is the open one, even when several
      segments start at the same instant. */
  lemma LoadOrderIsAppendOrder(ride: Ride, loaded: seq<Segment>)
    requires TimelineOk(ride)
    requires multiset(loaded) == multiset(ride.segments) && InLoadOrder(loaded)
    ensures loaded == ride.segments
    ensures ride.status != Finished ==> IsOpen(loaded[|loaded| - 1])
    ensures forall i :: 0 <= i < |loaded| && IsOpen(loaded[i]) ==> i == |loaded| - 1
  {
    forall i, j | 0 <= i < j < |ride.segments|
      ensures Before(ride.segments[i], ride.segments[j])
    {
      StartsAscend(ride, i, j);
    }
    assert StrictlyOrdered(ride.segments);
    SortIsUnique(ride.segments, loaded);
    assert forall i :: 0 <= i < |loaded| - 1 ==> IsClosed(ride, loaded[i]);
  }

  function StoredCost(segments: seq<Segment>, k: Kind): int {
    if segments == [] then 0
    else
      var s := segments[|segments| - 1];
      StoredCost(segments[..|segments| - 1], k)
      + if s.kind == k && s.cost.Some? then s.cost.value else 0
  }

  /** How far the first `n` segments reach. */
  function CoveredTo(ride: Ride, n: nat): int
    requires n <= |ride.segments|
  {
    if n == 0 || ride.segments[n - 1].endedAt.None? then ride.startedAt
    else ride.segments[n - 1].endedAt.value
  }

  lemma StretchesPrefix(ride: Ride, n: nat)
    requires 0 < n <= |ride.segments|
    ensures ride.segments[..n][..n - 1] == ride.segments[..n - 1]
    ensures Stretches(ride.segments[..n])[..n - 1] == Stretches(ride.segments[..n - 1])
  {}

  lemma {:induction false} SecondsTelescope(ride: Ride, n: nat)
    requires Chained(ride) && n <= |ride.segments|
    requires forall i :: 0 <= i < n ==> IsClosed(ride, ride.segments[i])
    ensures ride.startedAt <= CoveredTo(ride, n)
    ensures var ss := Stretches(ride.segments[..n]);
      Seconds(ss, RideKind) + Seconds(ss, PauseKind) == DurationSeconds(ride.startedAt, CoveredTo(ride, n))
  {
    if n > 0 {
      SecondsTelescope(ride, n - 1);
      StretchesPrefix(ride, n);
      ClosedColumns(ride, ride.segments[n - 1]);
      assert CoveredTo(ride, n - 1) == ride.segments[n - 1].startedAt;
    }
  }

  lemma {:induction false} AlternatingCounts(ss: seq<Stretch>)
    requires forall i :: 0 <= i < |ss| ==> ss[i].kind == KindAt(i)
    ensures Count(ss, RideKind) == (|ss| + 1) / 2 && Count(ss, PauseKind) == |ss| / 2
  {
    if ss != [] {
      AlternatingCounts(ss[..|ss| - 1]);
      assert ss[|ss| - 1].kind == KindAt(|ss| - 1);
    }
  }

  lemma {:induction false} CostIsStored(ride: Ride, k: Kind, n: nat)
    requires Chained(ride) && n <= |ride.segments|
    requires forall i :: 0 <= i < n ==> IsClosed(ride, ride.segments[i])
    ensures Cost(Stretches(ride.segments[..n]), k, RateOf(ride, k)) == StoredCost(ride.segments[..n], k)
  {
    if n > 0 {
      CostIsStored(ride, k, n - 1);
      StretchesPrefix(ride, n);
      ClosedColumns(ride, ride.segments[n - 1]);
    }
  }

  /** A finished ride's receipt: no second is lost or billed twice however the ride was paused,
      the lines are the stored segment costs, and each line is within half a kopeck a segment of
      its exact price. */
  lemma ReceiptIsSound(ride: Ride)
    requires TimelineOk(ride) && ride.status == Finished
    ensures ride.startedAt <= ride.finishedAt.value
    ensures var r, n := ride.receipt.value, |ride.segments|;
      && r.rideSeconds + r.pauseSeconds == DurationSeconds(ride.startedAt, ride.finishedAt.value)
      && r.rideCost == StoredCost(ride.segments, RideKind)
      && r.pauseCost == StoredCost(ride.segments, PauseKind)
      && r.totalCost == r.rideCost + r.pauseCost
      && -30 * ((n + 1) / 2) <= 60 * r.rideCost - ride.rideRate * r.rideSeconds <= 30 * ((n + 1) / 2)
      && -30 * (n / 2) <= 60 * r.pauseCost - ride.pauseRate * r.pauseSeconds <= 30 * (n / 2)
  {
    var n := |ride.segments|;
    assert IsClosed(ride, ride.segments[n - 1]);
    assert ride.segments[..n] == ride.segments;
    SecondsTelescope(ride, n);
    AlternatingCounts(Stretches(ride.segments));
    CostIsStored(ride, RideKind, n);
    CostIsStored(ride, PauseKind, n);
    CostBound(Stretches(ride.segments), RideKind, ride.rideRate);
    CostBound(Stretches(ride.segments), PauseKind, ride.pauseRate);
  }
}
