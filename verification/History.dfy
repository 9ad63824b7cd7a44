/** Runs: any sequence of calls from any consistent tables, and what holds over all of them. */
module History {
  import opened Options
  import Billing
  import opened Timeline
  import opened Geo
  import opened Tables
  import opened Services
  import opened Consistency

  datatype Op =
    | Create(user: nat, scooter: nat, createdAt: int, now: int)
    | Cancel(user: nat, booking: nat, now: int)
    /** `_expire_overdue`, on the rows not locked by somebody else */
    | Expire(batch: set<nat>, now: int)
    | Warn(now: int)
    /** one whole pass of the sweeper: everything overdue, then the warnings */
    | Sweep(now: int)
    | Start(user: nat, booking: nat, now: int)
    | Pause(user: nat, ride: nat, now: int)
    | Resume(user: nat, ride: nat, now: int)
    | Finish(user: nat, ride: nat, now: int, mailOk: bool)
    | Telemetry(scooter: nat, position: Point, battery: int, now: int, mailOk: bool)
    /** `apply_telemetry` on its own */
    | Report(scooter: nat, position: Point, battery: int)

  ghost function Step(cfg: Config, db: Db, op: Op): (Db, Outcome)
    requires ForeignKeys(db) && OpenSegments(db)
  {
    match op
    case Create(user, s, createdAt, now) => CreateBooking(db, user, s, cfg.ttl, createdAt, now)
    case Cancel(user, b, now) => CancelBooking(db, user, b, now, cfg.lowBattery)
    case Expire(batch, now) =>
      (ExpireOverdue(db, batch, now, cfg.lowBattery), Swept(batch * OverdueBookings(db, now), {}))
    case Warn(now) => (WarnExpiring(db, now, cfg.warnBefore), Swept({}, DueWarnings(db, now, cfg.warnBefore)))
    case Sweep(now) =>
      var overdue := OverdueBookings(db, now);
      var swept := ExpireOverdue(db, overdue, now, cfg.lowBattery);
      (WarnExpiring(swept, now, cfg.warnBefore), Swept(overdue, DueWarnings(swept, now, cfg.warnBefore)))
    case Start(user, b, now) => StartRide(db, user, b, cfg.rideRate, cfg.pauseRate, now, cfg.lowBattery)
    case Pause(user, r, now) => SwitchRide(db, user, r, Paused, now)
    case Resume(user, r, now) => SwitchRide(db, user, r, Active, now)
    case Finish(user, r, now, mailOk) => FinishRide(db, user, r, cfg.zones, cfg.lowBattery, now, mailOk)
    case Telemetry(s, position, battery, now, mailOk) =>
      RecordTelemetry(db, s, position, battery, cfg.lowBattery, cfg.autoFinishBattery, now, mailOk)
    case Report(s, position, battery) => ApplyTelemetry(db, s, position, battery, cfg.lowBattery)
  }

  // ----- consistency of every reachable state

  lemma Usable(db: Db)
    requires Consistent(db)
    ensures ForeignKeys(db) && OpenSegments(db)
  {
    Unfold(db);
    TimelinesAreOpen(db);
  }

  lemma CreateKeeps(cfg: Config, db: Db, user: nat, s: nat, createdAt: int, now: int)
    requires Consistent(db)
    ensures var (after, out) := CreateBooking(db, user, s, cfg.ttl, createdAt, now);
      Consistent(after) && !out.IndexConflict?
  {
    if s in db.scooters && db.scooters[s].status == Available && !HasBooking(db, user) && !HasRide(db, user) {
      WithBookingKeeps(db, user, s, createdAt, now + cfg.ttl);
    }
  }

  /** The checks `start_ride` makes after the booking was found active can never refuse. */
  lemma ActiveBookingIsReady(db: Db, b: nat)
    requires Consistent(db) && ActiveBooking(db, b)
    ensures ForeignKeys(db) && !HasRide(db, db.bookings[b].user)
    ensures db.scooters[db.bookings[b].scooter].status == Reserved
  {
    Unfold(db);
    assert Holds(db, b, db.bookings[b].scooter) && ScooterOk(db, db.bookings[b].scooter);
  }

  lemma StartKeeps(cfg: Config, db: Db, user: nat, b: nat, now: int)
    requires Consistent(db)
    ensures ForeignKeys(db)
    ensures var (after, out) := StartRide(db, user, b, cfg.rideRate, cfg.pauseRate, now, cfg.lowBattery);
      && Consistent(after)
      && !out.IndexConflict? && out != Refused(UserHasActiveRide) && out != Refused(ScooterNotAvailable)
  {
    Usable(db);
    if ActiveBooking(db, b) {
      ActiveBookingIsReady(db, b);
      WithRideKeeps(db, b, cfg.rideRate, cfg.pauseRate, now);
    }
  }

  lemma SwitchKeeps(db: Db, user: nat, r: nat, status: RideStatus, now: int)
    requires Consistent(db) && status != Finished
    ensures ForeignKeys(db) && OpenSegments(db) && Consistent(SwitchRide(db, user, r, status, now).0)
  {
    Usable(db);
    if Unfinished(db, r) && db.rides[r].status != status {
      WithSwitchKeeps(db, r, status, now);
    }
  }

  lemma FinishKeeps(cfg: Config, db: Db, user: nat, r: nat, now: int, mailOk: bool)
    requires Consistent(db)
    ensures ForeignKeys(db) && OpenSegments(db)
    ensures Consistent(FinishRide(db, user, r, cfg.zones, cfg.lowBattery, now, mailOk).0)
  {
    Usable(db);
    if Unfinished(db, r) {
      var scooter := db.scooters[db.rides[r].scooter];
      var release := ReleaseStatus(scooter.battery, cfg.lowBattery);
      WithSettledKeeps(db, r, now, scooter, release);
      StoreReceiptKeeps(WithSettled(db, r, now, ByUser, scooter, release), r, mailOk);
    } else if r in db.rides {
      StoreReceiptKeeps(db, r, mailOk);
    }
  }

  lemma TelemetryKeeps(cfg: Config, db: Db, s: nat, position: Point, battery: int, now: int, mailOk: bool)
    requires Consistent(db)
    ensures ForeignKeys(db) && OpenSegments(db)
    ensures Consistent(RecordTelemetry(db, s, position, battery, cfg.lowBattery, cfg.autoFinishBattery, now, mailOk).0)
  {
    Usable(db);
    var riding := UnfinishedRideOn(db, s);
    if battery < cfg.autoFinishBattery && riding.Some? {
      var r := riding.value;
      WithBatteryFinishKeeps(db, r, position, battery, cfg.autoFinishBattery, now);
      StoreReceiptKeeps(WithBatteryFinish(db, r, position, battery, cfg.autoFinishBattery, now), r, mailOk);
    } else {
      ReportKeeps(db, s, position, battery, cfg.lowBattery);
    }
  }

  lemma ExpireKeeps(cfg: Config, db: Db, batch: set<nat>, now: int)
    requires Consistent(db)
    ensures Consistent(ExpireOverdue(db, batch, now, cfg.lowBattery))
  {
    EndBookingsKeeps(db, batch * OverdueBookings(db, now), Expired, now, cfg.lowBattery);
  }

  lemma CancelKeeps(cfg: Config, db: Db, user: nat, b: nat, now: int)
    requires Consistent(db)
    ensures Consistent(CancelBooking(db, user, b, now, cfg.lowBattery).0)
  {
    if ActiveBooking(db, b) {
      EndBookingsKeeps(db, {b}, Cancelled, now, cfg.lowBattery);
    }
  }

  /** Every call keeps the tables consistent, and none is ever saved by a unique index: the
      checks made under the locks have already decided. */
  lemma StepKeeps(cfg: Config, db: Db, op: Op)
    requires Consistent(db)
    ensures ForeignKeys(db) && OpenSegments(db)
    ensures Consistent(Step(cfg, db, op).0)
    ensures !Step(cfg, db, op).1.IndexConflict?
    ensures op.Start? ==> Step(cfg, db, op).1 != Refused(UserHasActiveRide)
    ensures op.Start? ==> Step(cfg, db, op).1 != Refused(ScooterNotAvailable)
  {
    Usable(db);
    match op
    case Create(user, s, createdAt, now) => CreateKeeps(cfg, db, user, s, createdAt, now);
    case Cancel(user, b, now) => CancelKeeps(cfg, db, user, b, now);
    case Expire(batch, now) => ExpireKeeps(cfg, db, batch, now);
    case Warn(now) => WarnKeeps(db, now, cfg.warnBefore);
    case Sweep(now) =>
      ExpireKeeps(cfg, db, OverdueBookings(db, now), now);
      WarnKeeps(ExpireOverdue(db, OverdueBookings(db, now), now, cfg.lowBattery), now, cfg.warnBefore);
    case Start(user, b, now) => StartKeeps(cfg, db, user, b, now);
    case Pause(user, r, now) => SwitchKeeps(db, user, r, Paused, now);
    case Resume(user, r, now) => SwitchKeeps(db, user, r, Active, now);
    case Finish(user, r, now, mailOk) => FinishKeeps(cfg, db, user, r, now, mailOk);
    case Telemetry(s, position, battery, now, mailOk) => TelemetryKeeps(cfg, db, s, position, battery, now, mailOk);
    case Report(s, position, battery) => ReportKeeps(db, s, position, battery, cfg.lowBattery);
  }

  ghost function Run(cfg: Config, db: Db, ops: seq<Op>): (end: Db)
    requires Consistent(db)
    ensures Consistent(end)
    decreases |ops|
  {
    if ops == [] then db
    else
      StepKeeps(cfg, db, ops[0]);
      Run(cfg, Step(cfg, db, ops[0]).0, ops[1..])
  }

  /** What the callers of a run are told, one after the other. */
  ghost function Replies(cfg: Config, db: Db, ops: seq<Op>): seq<Outcome>
    requires Consistent(db)
    decreases |ops|
  {
    if ops == [] then []
    else
      StepKeeps(cfg, db, ops[0]);
      var (after, out) := Step(cfg, db, ops[0]);
      [out] + Replies(cfg, after, ops[1..])
  }

  /** Each caller is told what its own call says of the tables it found. */
  lemma {:induction false} ReplyAt(cfg: Config, db: Db, ops: seq<Op>, i: nat)
    requires Consistent(db) && i < |ops|
    ensures |Replies(cfg, db, ops)| == |ops|
    ensures ForeignKeys(Run(cfg, db, ops[..i])) && OpenSegments(Run(cfg, db, ops[..i]))
    ensures Replies(cfg, db, ops)[i] == Step(cfg, Run(cfg, db, ops[..i]), ops[i]).1
    decreases |ops|
  {
    StepKeeps(cfg, db, ops[0]);
    var (after, out) := Step(cfg, db, ops[0]);
    if i > 0 {
      ReplyAt(cfg, after, ops[1..], i - 1);
      assert ops[..i][1..] == ops[1..][..i - 1];
    } else if |ops| > 1 {
      ReplyAt(cfg, after, ops[1..], 0);
    }
  }

  ghost predicate HeldByOne(db: Db, s: nat) {
    exists b :: Holds(db, b, s) && forall c :: Holds(db, c, s) ==> c == b
  }

  ghost predicate RiddenByOne(db: Db, s: nat) {
    exists r :: RideOn(db, r, s) && forall q :: RideOn(db, q, s) ==> q == r
  }

  /** One ride came from the booking, of its user and on its scooter. */
  ghost predicate UsedByOne(db: Db, b: nat)
    requires b in db.bookings
  {
    exists r :: RideFrom(db, r, b) && CameFrom(db.rides[r], db.bookings) && forall q :: RideFrom(db, q, b) ==> q == r
  }

  lemma UsedOnce(db: Db, b: nat)
    requires LineageOk(db) && RideIndexes(db) && b in db.bookings
    ensures db.bookings[b].status == Used <==> UsedByOne(db, b)
  {
    if db.bookings[b].status == Used {
      var r :| RideFrom(db, r, b);
      assert CameFrom(db.rides[r], db.bookings);
      assert forall q :: RideFrom(db, q, b) ==> q == r;
    }
  }

  lemma OneOfEach(db: Db, s: nat)
    requires BookingIndexes(db) && RideIndexes(db) && s in db.scooters && ScooterOk(db, s)
    ensures db.scooters[s].status == Reserved <==> HeldByOne(db, s)
    ensures db.scooters[s].status == Riding <==> RiddenByOne(db, s)
    ensures forall r :: RideOn(db, r, s) ==> (db.scooters[s].paused <==> db.rides[r].status == Paused)
  {
    if db.scooters[s].status == Reserved {
      var b :| Holds(db, b, s);
      assert forall c :: Holds(db, c, s) ==> c == b;
    }
    if db.scooters[s].status == Riding {
      var r :| RideOn(db, r, s);
      assert forall q :: RideOn(db, q, s) ==> q == r;
      assert PausedOn(db, r, s) <==> db.rides[r].status == Paused;
    }
  }

  /** After any run from the seeded fleet: exactly one active booking for a reserved scooter,
      exactly one unfinished ride for a riding one, exactly one ride for a used booking, and for a
      user one active booking or unfinished ride in all. */
  lemma ExactlyOne(cfg: Config, db: Db, ops: seq<Op>)
    requires Fresh(db)
    ensures Consistent(db)
    ensures var end := Run(cfg, db, ops);
      && (forall s :: s in end.scooters ==>
            && (end.scooters[s].status == Reserved <==> HeldByOne(end, s))
            && (end.scooters[s].status == Riding <==> RiddenByOne(end, s))
            && (forall r :: RideOn(end, r, s) ==> (end.scooters[s].paused <==> end.rides[r].status == Paused)))
      && (forall b :: b in end.bookings ==> (end.bookings[b].status == Used <==> UsedByOne(end, b)))
      && BookingIndexes(end) && RideIndexes(end)
      && (forall b, r :: ActiveBooking(end, b) && Unfinished(end, r) ==> end.bookings[b].user != end.rides[r].user)
  {
    FreshIsConsistent(db);
    var end := Run(cfg, db, ops);
    Unfold(end);
    forall s | s in end.scooters
      ensures && (end.scooters[s].status == Reserved <==> HeldByOne(end, s))
              && (end.scooters[s].status == Riding <==> RiddenByOne(end, s))
              && (forall r :: RideOn(end, r, s) ==> (end.scooters[s].paused <==> end.rides[r].status == Paused))
    {
      OneOfEach(end, s);
    }
    forall b | b in end.bookings ensures end.bookings[b].status == Used <==> UsedByOne(end, b) {
      UsedOnce(end, b);
    }
  }

  /** After any run, with whatever clocks: every ride's timeline is whole, and of a finished ride
      no second was lost or billed twice and the receipt is the sum of the segments stored. */
  lemma EveryRide(cfg: Config, db: Db, ops: seq<Op>, r: nat)
    requires Consistent(db) && r in Run(cfg, db, ops).rides
    ensures var ride := Run(cfg, db, ops).rides[r];
      && TimelineOk(ride)
      && (ride.status == Finished ==>
            && ride.startedAt <= ride.finishedAt.value
            && var receipt := ride.receipt.value;
            && receipt.rideSeconds + receipt.pauseSeconds
               == Billing.DurationSeconds(ride.startedAt, ride.finishedAt.value)
            && receipt.totalCost
               == StoredCost(ride.segments, Billing.RideKind) + StoredCost(ride.segments, Billing.PauseKind))
  {
    var end := Run(cfg, db, ops);
    Unfold(end);
    assert RideOk(end.rides[r], end.nextSegment);
    if end.rides[r].status == Finished {
      ReceiptIsSound(end.rides[r]);
    }
  }
}
