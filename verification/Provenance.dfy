/** What every reachable row goes back to: the booking to the call that made it, the ride to a booking
    still active, the scooter to its last report and to the rows that hold it. */
module Provenance {
  import opened Timeline
  import opened Tables
  import opened Consistency
  import opened History
  import opened Calls
  import opened Outcomes
  import Repeats
  import SweepTiming
  import opened Transactions
  import opened Interleaving

  // ----- bookings and rides

  /** The call that made the booking. */
  ghost predicate MadeBy(cfg: Config, before: Db, op: Op, b: nat, row: Booking) {
    && op.Create? && b == before.nextBooking
    && op.scooter in before.scooters && before.scooters[op.scooter].status == Available && Unengaged(before, op.user)
    && row.user == op.user && row.scooter == op.scooter
    && row.createdAt == op.createdAt && row.expiresAt == op.now + cfg.ttl
  }

  /** Behind every booking stands one call of its user: made on a scooter then available, for one
      lifetime from the clock of that call. */
  lemma {:induction false} BookingHasItsCall(cfg: Config, db: Db, ops: seq<Op>, b: nat) returns (i: nat)
    requires Consistent(db) && b !in db.bookings && b in Run(cfg, db, ops).bookings
    ensures i < |ops| && MadeBy(cfg, Run(cfg, db, ops[..i]), ops[i], b, Run(cfg, db, ops).bookings[b])
    decreases |ops|
  {
    BookingAnswers(cfg, db, ops[0]);
    StepKeeps(cfg, db, ops[0]);
    var after := Step(cfg, db, ops[0]).0;
    if b in after.bookings {
      i := 0;
      CreateAnswers(cfg, db, ops[0]);
      SweepTiming.WarnedAtMostOnce(cfg, after, ops[1..], b);
      assert SweepTiming.BookingKept(after.bookings[b], Run(cfg, after, ops[1..]).bookings[b]);
    } else {
      var j := BookingHasItsCall(cfg, after, ops[1..], b);
      i := j + 1;
      assert ops[..i][1..] == ops[1..][..j];
    }
  }

  /** The call that began the ride. */
  ghost predicate BegunBy(cfg: Config, before: Db, op: Op, r: nat, row: Ride) {
    && op.Start? && r == before.nextRide && op.booking in before.bookings
    && var booking := before.bookings[op.booking];
    && booking.status == Holding && op.now < booking.expiresAt
    && booking.scooter in before.scooters && cfg.lowBattery <= before.scooters[booking.scooter].battery
    && row.user == booking.user == op.user && row.scooter == booking.scooter && row.booking == op.booking
    && row.startedAt == op.now && row.rideRate == cfg.rideRate && row.pauseRate == cfg.pauseRate
  }

  /** Behind every ride stands one start of its user, from a booking then active and not yet over, on
      a scooter then charged; it bears that call's clock and the configured rates, to the end. */
  lemma {:induction false} RideHasItsStart(cfg: Config, db: Db, ops: seq<Op>, r: nat) returns (i: nat)
    requires Consistent(db) && r !in db.rides && r in Run(cfg, db, ops).rides
    ensures i < |ops| && BegunBy(cfg, Run(cfg, db, ops[..i]), ops[i], r, Run(cfg, db, ops).rides[r])
    decreases |ops|
  {
    RideAnswers(cfg, db, ops[0]);
    StepKeeps(cfg, db, ops[0]);
    var after := Step(cfg, db, ops[0]).0;
    if r in after.rides {
      i := 0;
      StartAnswers(cfg, db, ops[0]);
      EndedOnceMailedOnce(cfg, after, ops[1..], r);
      assert RideKept(after.rides[r], Run(cfg, after, ops[1..]).rides[r]);
    } else {
      var j := RideHasItsStart(cfg, after, ops[1..], r);
      i := j + 1;
      assert ops[..i][1..] == ops[1..][..j];
    }
  }

  ghost predicate BeganInTime(db: Db, r: nat) {
    r in db.rides && db.rides[r].booking in db.bookings
    && db.rides[r].startedAt < db.bookings[db.rides[r].booking].expiresAt
  }

  /** Every ride of a run began strictly before its booking's expiry. */
  lemma RidesBeganInTime(cfg: Config, db: Db, ops: seq<Op>)
    requires Consistent(db)
    requires forall r :: r in db.rides ==> BeganInTime(db, r)
    ensures forall r :: r in Run(cfg, db, ops).rides ==> BeganInTime(Run(cfg, db, ops), r)
    decreases |ops|
  {
    if ops != [] {
      StepKeeps(cfg, db, ops[0]);
      var after := Step(cfg, db, ops[0]).0;
      forall r | r in after.rides ensures BeganInTime(after, r) {
        StepInTime(cfg, db, ops[0], r);
      }
      RidesBeganInTime(cfg, after, ops[1..]);
    }
  }

  lemma StepInTime(cfg: Config, db: Db, op: Op, r: nat)
    requires Consistent(db) && (r in db.rides ==> BeganInTime(db, r))
    ensures ForeignKeys(db) && OpenSegments(db)
    ensures r in Step(cfg, db, op).0.rides ==> BeganInTime(Step(cfg, db, op).0, r)
  {
    StepTold(cfg, db, op);
    SweepTiming.StepSweepTold(cfg, db, op);
    var after := Step(cfg, db, op).0;
    if r in db.rides {
      assert RideKept(db.rides[r], after.rides[r]);
      assert SweepTiming.BookingKept(db.bookings[db.rides[r].booking], after.bookings[db.rides[r].booking]);
    } else if r in after.rides {
      RideAnswers(cfg, db, op);
      StartAnswers(cfg, db, op);
    }
  }

  /** Under any interleaved traffic too. */
  lemma RidesBeganInTimeUnderTraffic(cfg: Config, db: Db, acts: seq<Action>, end: System)
    requires Consistent(db) && Executes(cfg, System(db, map[]), acts, end)
    requires forall r :: r in db.rides ==> BeganInTime(db, r)
    ensures forall r :: r in end.db.rides ==> BeganInTime(end.db, r)
  {
    SerializableFromIdle(cfg, db, acts, end);
    RidesBeganInTime(cfg, db, Log(cfg, System(db, map[]), acts, {}));
  }

  // ----- scooters

  /** A scooter's place and charge are those of its last report, or the ones it had. */
  lemma {:induction false} PlaceIsLastReport(cfg: Config, db: Db, ops: seq<Op>, s: nat, i: nat)
    requires Consistent(db) && s in db.scooters && i <= |ops|
    requires forall j | i <= j < |ops| :: !Reported(ops[j], s)
    requires i > 0 ==> Reported(ops[i - 1], s)
    ensures s in Run(cfg, db, ops).scooters
    ensures var row := Run(cfg, db, ops).scooters[s];
      if i == 0 then row.position == db.scooters[s].position && row.battery == db.scooters[s].battery
      else row.position == ops[i - 1].position && row.battery == ops[i - 1].battery
    decreases |ops|
  {
    if ops != [] {
      StepKeeps(cfg, db, ops[0]);
      ScooterAnswers(cfg, db, ops[0]);
      PlaceIsLastReport(cfg, Step(cfg, db, ops[0]).0, ops[1..], s, if i == 0 then 0 else i - 1);
    }
  }

  /** After any run of calls from the seeded fleet a scooter's row is what its last report and the
      rows of the other tables make it: reserved by the booking that holds it, riding and paused with
      the ride that is on it, and otherwise available exactly when charged. */
  lemma ScooterIsWhatHappened(cfg: Config, db: Db, ops: seq<Op>, s: nat, i: nat)
    requires cfg.Accepted() && Repeats.Seeded(cfg, db) && s in db.scooters && i <= |ops|
    requires forall j | i <= j < |ops| :: !Reported(ops[j], s)
    requires i > 0 ==> Reported(ops[i - 1], s)
    ensures Consistent(db) && s in Run(cfg, db, ops).scooters
    ensures var end := Run(cfg, db, ops);
      var (position, battery) := if i == 0 then (db.scooters[s].position, db.scooters[s].battery)
                                 else (ops[i - 1].position, ops[i - 1].battery);
      end.scooters[s] == Scooter(position, battery,
        if exists b :: Holds(end, b, s) then Reserved
        else if exists r :: RideOn(end, r, s) then Riding
        else if battery >= cfg.lowBattery then Available else Unavailable,
        exists r :: PausedOn(end, r, s))
  {
    FreshIsConsistent(db);
    PlaceIsLastReport(cfg, db, ops, s, i);
    Repeats.ChargeAndStatusAgree(cfg, db, ops);
    assert Meets(Run(cfg, db, ops), ScootersC);
    assert ScooterOk(Run(cfg, db, ops), s);
  }
}
