/** The services as they run: methods that update the tables in place. Each is proved to do
    exactly the serial step, so all that holds of steps and runs holds of them. */
module BackendService {
  import opened Options
  import opened Billing
  import opened Timeline
  import Geo
  import opened Tables
  import opened Services
  import opened Consistency
  import opened History

  /** `_close_segment`: close the last segment at `now`, or at its own start if that is later. */
  method CloseSegment(ride: Ride, now: int) returns (closed: Ride, at: int)
    requires HasOpenSegment(ride)
    ensures closed == WithLastClosed(ride, now) && at == EffectiveTime(ride, now)
  {
    var segment := ride.segments[|ride.segments| - 1];
    at := now;
    if at < segment.startedAt {
      at := segment.startedAt;
    }
    var rate := if segment.kind == RideKind then ride.rideRate else ride.pauseRate;
    var seconds := DurationSeconds(ride.startedAt, at) - DurationSeconds(ride.startedAt, segment.startedAt);
    segment := segment.(endedAt := Some(at), seconds := Some(seconds), cost := Some(SegmentCost(rate, seconds)));
    closed := ride.(segments := ride.segments[..|ride.segments| - 1] + [segment]);
  }

  /** `_settle`, on the ride row: close, bill what is stored, write the receipt columns. */
  method Settle(ride: Ride, now: int, reason: FinishReason) returns (settled: Ride)
    requires HasOpenSegment(ride)
    ensures settled == Settled(ride, now, reason)
  {
    var closed, at := CloseSegment(ride, now);
    var receipt := Bill(Stretches(closed.segments), closed.rideRate, closed.pauseRate);
    settled := closed.(receipt := Some(receipt), finishedAt := Some(at),
                       finishReason := Some(reason), status := Finished);
  }

  /** `any(point_in_polygon(position, zone) for zone in zones)`. */
  method InAnyZone(zones: seq<seq<Geo.Point>>, position: Geo.Point) returns (found: bool)
    ensures found == InService(zones, position)
  {
    for z := 0 to |zones|
      invariant forall y :: 0 <= y < z ==> !Geo.InPolygon(position, zones[y])
    {
      var inside := Geo.PointInPolygon(position, zones[z]);
      if inside {
        return true;
      }
    }
    return false;
  }

  /** Ending one booking more, by its row and its scooter's row. */
  lemma EndOneMore(db: Db, done: set<nat>, b: nat, now: int, low: int)
    requires b in db.bookings && b !in done && db.bookings[b].scooter in db.scooters
    ensures var mid, s := EndBookings(db, done, Expired, now, low), db.bookings[b].scooter;
      && b in mid.bookings && mid.bookings[b] == db.bookings[b] && s in mid.scooters
      && EndBookings(db, done + {b}, Expired, now, low)
         == mid.(bookings := mid.bookings[b := EndedRow(mid.bookings[b], Expired, now)],
                 scooters := mid.scooters[s := ReleasedRow(mid.scooters[s], low)])
  {
    var mid, s := EndBookings(db, done, Expired, now, low), db.bookings[b].scooter;
    var all := EndBookings(db, done + {b}, Expired, now, low);
    assert all.bookings == mid.bookings[b := EndedRow(mid.bookings[b], Expired, now)];
    assert BookedBy(db, done + {b}, s);
    assert forall t :: BookedBy(db, done + {b}, t) <==> BookedBy(db, done, t) || t == s;
    assert all.scooters == mid.scooters[s := ReleasedRow(mid.scooters[s], low)];
  }

  lemma EndNone(db: Db, now: int, low: int)
    ensures EndBookings(db, {}, Expired, now, low) == db
  {
    assert EndBookings(db, {}, Expired, now, low).bookings == db.bookings;
    assert EndBookings(db, {}, Expired, now, low).scooters == db.scooters;
  }

  class Backend {
    const cfg: Config
    var scooters: map<nat, Scooter>
    var bookings: map<nat, Booking>
    var rides: map<nat, Ride>
    var emails: map<nat, nat>
    var nextBooking: nat
    var nextRide: nat
    var nextSegment: nat
    var nextEmail: nat

    function Tables(): Db
      reads this
    {
      Db(scooters, bookings, rides, emails, nextBooking, nextRide, nextSegment, nextEmail)
    }

    ghost predicate Valid()
      reads this
    {
      Consistent(Tables()) && ForeignKeys(Tables()) && OpenSegments(Tables())
    }

    /** The seeded fleet. */
    constructor (cfg: Config, fleet: map<nat, Scooter>)
      requires forall s :: s in fleet ==>
        (fleet[s].status == Available || fleet[s].status == Unavailable) && !fleet[s].paused
      ensures Valid() && Fresh(Tables()) && this.cfg == cfg && scooters == fleet
    {
      this.cfg := cfg;
      scooters, bookings, rides, emails := fleet, map[], map[], map[];
      nextBooking, nextRide, nextSegment, nextEmail := 0, 0, 0, 0;
      new;
      FreshIsConsistent(Tables());
      Usable(Tables());
    }

    method CreateBooking(user: nat, s: nat, createdAt: int, now: int) returns (out: Outcome)
      requires Valid()
      modifies this
      ensures Valid()
      ensures (Tables(), out) == Step(cfg, old(Tables()), Create(user, s, createdAt, now))
    {
      ghost var before := Tables();
      if s !in scooters {
        return Refused(ScooterNotFound);
      }
      if scooters[s].status != Available {
        return Refused(ScooterNotAvailable);
      }
      if HasBooking(Tables(), user) {
        return Refused(UserHasActiveBooking);
      }
      if HasRide(Tables(), user) {
        return Refused(UserHasActiveRide);
      }
      var b, bookingsBefore, scootersBefore := nextBooking, bookings, scooters;
      bookings := bookings[b := Booking(user, s, Holding, createdAt, now + cfg.ttl, None, None)];
      scooters := scooters[s := scooters[s].(status := Reserved)];
      nextBooking := b + 1;
      if !BookingIndexes(Tables()) {
        bookings, scooters, nextBooking := bookingsBefore, scootersBefore, b;
        return IndexConflict(ScooterNotAvailable);
      }
      StepKeeps(cfg, before, Create(user, s, createdAt, now));
      Usable(Tables());
      return BookingMade(b);
    }

    method CancelBooking(user: nat, b: nat, now: int) returns (out: Outcome)
      requires Valid()
      modifies this
      ensures Valid()
      ensures (Tables(), out) == Step(cfg, old(Tables()), Cancel(user, b, now))
    {
      StepKeeps(cfg, Tables(), Cancel(user, b, now));
      Usable(Step(cfg, Tables(), Cancel(user, b, now)).0);
      if b !in bookings {
        return Refused(BookingNotFound);
      }
      if bookings[b].user != user {
        return Refused(NotYourBooking);
      }
      if bookings[b].status != Holding {
        return Refused(BookingNotActive);
      }
      ghost var ended := EndBookings(Tables(), {b}, Cancelled, now, cfg.lowBattery);
      assert BookedBy(Tables(), {b}, bookings[b].scooter);
      var s := bookings[b].scooter;
      bookings := bookings[b := bookings[b].(status := Cancelled, endedAt := Some(now))];
      if scooters[s].status == Reserved {
        scooters := scooters[s := scooters[s].(status := ReleaseStatus(scooters[s].battery, cfg.lowBattery))];
      }
      assert bookings == ended.bookings && scooters == ended.scooters;
      return BookingGone(b);
    }

    /** One turn of the sweeper's loop. */
    method ExpireOne(b: nat, now: int)
      requires b in bookings && bookings[b].scooter in scooters
      modifies this`bookings, this`scooters
      ensures bookings == old(bookings)[b := EndedRow(old(bookings)[b], Expired, now)]
      ensures var s := old(bookings)[b].scooter;
        scooters == old(scooters)[s := ReleasedRow(old(scooters)[s], cfg.lowBattery)]
    {
      bookings := bookings[b := bookings[b].(status := Expired, endedAt := Some(now))];
      var s := bookings[b].scooter;
      if scooters[s].status == Reserved {
        scooters := scooters[s := scooters[s].(status := ReleaseStatus(scooters[s].battery, cfg.lowBattery))];
      }
    }

    /** `_expire_overdue` with nobody else holding a booking: every overdue one, in any order. */
    method ExpireOverdue(now: int) returns (overdue: set<nat>)
      requires ForeignKeys(Tables())
      modifies this`bookings, this`scooters
      ensures overdue == OverdueBookings(old(Tables()), now)
      ensures Tables() == Services.ExpireOverdue(old(Tables()), overdue, now, cfg.lowBattery)
    {
      ghost var before := Tables();
      ghost var done: set<nat> := {};
      overdue := OverdueBookings(Tables(), now);
      var todo := overdue;
      EndNone(before, now, cfg.lowBattery);
      while todo != {}
        invariant done !! todo && done + todo == overdue
        invariant Tables() == EndBookings(before, done, Expired, now, cfg.lowBattery)
        decreases todo
      {
        var b :| b in todo;
        EndOneMore(before, done, b, now, cfg.lowBattery);
        ExpireOne(b, now);
        todo, done := todo - {b}, done + {b};
      }
      assert done == overdue * OverdueBookings(before, now);
    }

    /** `_warn_expiring`: one bulk update. */
    method WarnBookings(now: int) returns (warned: set<nat>)
      modifies this`bookings
      ensures warned == DueWarnings(old(Tables()), now, cfg.warnBefore)
      ensures Tables() == WarnExpiring(old(Tables()), now, cfg.warnBefore)
    {
      warned := DueWarnings(Tables(), now, cfg.warnBefore);
      bookings := map b | b in bookings ::
        if b in warned then bookings[b].(warnedAt := Some(now)) else bookings[b];
      assert bookings == WarnExpiring(old(Tables()), now, cfg.warnBefore).bookings;
    }

    /** `sweep_bookings`: expire, then warn. */
    method SweepBookings(now: int) returns (out: Outcome)
      requires Valid()
      modifies this
      ensures Valid()
      ensures (Tables(), out) == Step(cfg, old(Tables()), Sweep(now))
    {
      StepKeeps(cfg, Tables(), Sweep(now));
      Usable(Step(cfg, Tables(), Sweep(now)).0);
      var expired := ExpireOverdue(now);
      var warned := WarnBookings(now);
      return Swept(expired, warned);
    }

    /** `_store_receipt`: the insert in a savepoint, `mailOk` telling whether it went through. */
    method StoreReceipt(r: nat, mailOk: bool) returns (email: Option<nat>)
      modifies this`emails, this`nextEmail
      ensures (Tables(), email) == Services.StoreReceipt(old(Tables()), r, mailOk)
    {
      if !mailOk || r in emails {
        return None;
      }
      email := Some(nextEmail);
      emails := emails[r := nextEmail];
      nextEmail := nextEmail + 1;
    }

    method StartRide(user: nat, b: nat, now: int) returns (out: Outcome)
      requires Valid()
      modifies this
      ensures Valid()
      ensures (Tables(), out) == Step(cfg, old(Tables()), Start(user, b, now))
    {
      if b !in bookings {
        return Refused(BookingNotFound);
      }
      var booking := bookings[b];
      if booking.user != user {
        return Refused(NotYourBooking);
      }
      if booking.status == Used {
        assert Meets(Tables(), RidesC) && Meets(Tables(), LineageC);
        assert exists r :: RideFrom(Tables(), r, b);
        var existing :| existing in rides && RideFrom(Tables(), existing, b);
        OnlyRideFrom(Tables(), existing, b);
        if rides[existing].status != Finished {
          return RideStarted(existing, false);
        }
        return Refused(BookingUsed);
      }
      if booking.status != Holding || booking.expiresAt <= now {
        return Refused(BookingNotActive);
      }
      if HasRide(Tables(), user) {
        return Refused(UserHasActiveRide);
      }
      var scooter := scooters[booking.scooter];
      if scooter.status != Reserved {
        return Refused(ScooterNotAvailable);
      }
      if scooter.battery < cfg.lowBattery {
        return Refused(ScooterBatteryLow);
      }
      ghost var before := Tables();
      var r := nextRide;
      var committed := InsertRide(b, now);
      if !committed {
        return IndexConflict(UserHasActiveRide);
      }
      StepKeeps(cfg, before, Start(user, b, now));
      Usable(Tables());
      return RideStarted(r, true);
    }

    /** The rows `start_ride` writes, and the rollback should a unique index refuse them. */
    method InsertRide(b: nat, now: int) returns (committed: bool)
      requires b in bookings && bookings[b].scooter in scooters
      modifies this
      ensures var after := WithRide(old(Tables()), b, cfg.rideRate, cfg.pauseRate, now);
        committed == RideIndexes(after) && Tables() == if committed then after else old(Tables())
    {
      var before, booking := Tables(), bookings[b];
      var first := Segment(nextSegment, RideKind, now, None, None, None);
      rides := rides[nextRide := Ride(booking.user, booking.scooter, b, Active, now, None, None, None, None,
                                      cfg.rideRate, cfg.pauseRate, None, [first])];
      bookings := bookings[b := booking.(status := Used)];
      scooters := scooters[booking.scooter := scooters[booking.scooter].(status := Riding)];
      nextRide, nextSegment := nextRide + 1, nextSegment + 1;
      committed := RideIndexes(Tables());
      if !committed {
        rides, bookings, scooters := before.rides, before.bookings, before.scooters;
        nextRide, nextSegment := before.nextRide, before.nextSegment;
      }
    }

    /** The common body of `pause_ride` and `resume_ride` once the ride may be switched. */
    method Switch(r: nat, status: RideStatus, now: int)
      requires ForeignKeys(Tables()) && Unfinished(Tables(), r) && HasOpenSegment(rides[r])
      modifies this
      ensures Tables() == WithSwitch(old(Tables()), r, status, now)
    {
      var ride, at := CloseSegment(rides[r], now);
      var next := Segment(nextSegment, if status == Paused then PauseKind else RideKind, at, None, None, None);
      ride := ride.(segments := ride.segments + [next], status := status);
      rides := rides[r := ride];
      scooters := scooters[ride.scooter := scooters[ride.scooter].(paused := status == Paused)];
      nextSegment := nextSegment + 1;
    }

    method PauseRide(user: nat, r: nat, now: int) returns (out: Outcome)
      requires Valid()
      modifies this
      ensures Valid()
      ensures (Tables(), out) == Step(cfg, old(Tables()), Pause(user, r, now))
    {
      StepKeeps(cfg, Tables(), Pause(user, r, now));
      Usable(Step(cfg, Tables(), Pause(user, r, now)).0);
      if r !in rides {
        return Refused(RideNotFound);
      }
      if rides[r].user != user {
        return Refused(NotYourRide);
      }
      if rides[r].status == Finished {
        return Refused(RideFinished);
      }
      if rides[r].status != Paused {
        Switch(r, Paused, now);
      }
      return RideSwitched(r);
    }

    method ResumeRide(user: nat, r: nat, now: int) returns (out: Outcome)
      requires Valid()
      modifies this
      ensures Valid()
      ensures (Tables(), out) == Step(cfg, old(Tables()), Resume(user, r, now))
    {
      StepKeeps(cfg, Tables(), Resume(user, r, now));
      Usable(Step(cfg, Tables(), Resume(user, r, now)).0);
      if r !in rides {
        return Refused(RideNotFound);
      }
      if rides[r].user != user {
        return Refused(NotYourRide);
      }
      if rides[r].status == Finished {
        return Refused(RideFinished);
      }
      if rides[r].status != Active {
        Switch(r, Active, now);
      }
      return RideSwitched(r);
    }

    method FinishRide(user: nat, r: nat, now: int, mailOk: bool) returns (out: Outcome)
      requires Valid()
      modifies this
      ensures Valid()
      ensures (Tables(), out) == Step(cfg, old(Tables()), Finish(user, r, now, mailOk))
    {
      StepKeeps(cfg, Tables(), Finish(user, r, now, mailOk));
      Usable(Step(cfg, Tables(), Finish(user, r, now, mailOk)).0);
      if r !in rides {
        return Refused(RideNotFound);
      }
      var ride := rides[r];
      if ride.user != user {
        return Refused(NotYourRide);
      }
      if ride.status == Finished {
        var again := StoreReceipt(r, mailOk);
        return RideDone(r, false, again);
      }
      var scooter := scooters[ride.scooter];
      var inside := InAnyZone(cfg.zones, scooter.position);
      if !inside {
        return Refused(OutsideServiceZone);
      }
      ride := Settle(ride, now, ByUser);
      rides := rides[r := ride];
      scooters := scooters[ride.scooter := scooter.(status := ReleaseStatus(scooter.battery, cfg.lowBattery),
                                                   paused := false)];
      var email := StoreReceipt(r, mailOk);
      return RideDone(r, true, email);
    }

    /** `auto_finish_ride`: None, and nothing changed, for a ride already finished. */
    method AutoFinishRide(r: nat, position: Geo.Point, battery: int, now: int, mailOk: bool)
      returns (finish: Option<Outcome>)
      requires ForeignKeys(Tables()) && OpenSegments(Tables())
      modifies this
      ensures if Unfinished(old(Tables()), r) then
          var ended := WithBatteryFinish(old(Tables()), r, position, battery, cfg.autoFinishBattery, now);
          var (after, email) := Services.StoreReceipt(ended, r, mailOk);
          Tables() == after && finish == Some(RideDone(r, true, email))
        else Tables() == old(Tables()) && finish == None
    {
      if r !in rides || rides[r].status == Finished {
        return None;
      }
      var ride := rides[r].(finishBattery := Some(battery), finishThreshold := Some(cfg.autoFinishBattery));
      var scooter := scooters[ride.scooter].(position := position, battery := battery);
      ride := Settle(ride, now, ByBattery);
      rides := rides[r := ride];
      scooters := scooters[ride.scooter := scooter.(status := Unavailable, paused := false)];
      assert rides == WithBatteryFinish(old(Tables()), r, position, battery, cfg.autoFinishBattery, now).rides;
      var email := StoreReceipt(r, mailOk);
      return Some(RideDone(r, true, email));
    }

    /** `apply_telemetry`. */
    method ApplyTelemetry(s: nat, position: Geo.Point, battery: int) returns (out: Outcome)
      modifies this`scooters
      ensures (Tables(), out) == Services.ApplyTelemetry(old(Tables()), s, position, battery, cfg.lowBattery)
    {
      if s !in scooters {
        return Refused(ScooterNotFound);
      }
      var scooter := scooters[s].(position := position, battery := battery);
      scooters := scooters[s := scooter.(status := StatusAfterTelemetry(scooter.status, battery, cfg.lowBattery))];
      return Recorded(s);
    }

    /** `record_telemetry`: a charge below the threshold ends the ride under way, if any. */
    method RecordTelemetry(s: nat, position: Geo.Point, battery: int, now: int, mailOk: bool) returns (out: Outcome)
      requires Valid()
      modifies this
      ensures Valid()
      ensures (Tables(), out) == Step(cfg, old(Tables()), Telemetry(s, position, battery, now, mailOk))
    {
      StepKeeps(cfg, Tables(), Telemetry(s, position, battery, now, mailOk));
      Usable(Step(cfg, Tables(), Telemetry(s, position, battery, now, mailOk)).0);
      if battery < cfg.autoFinishBattery && exists r :: r in rides && RideOn(Tables(), r, s) {
        var r :| r in rides && RideOn(Tables(), r, s);
        assert Meets(Tables(), RidesC);
        OnlyRideOn(Tables(), r, s);
        var finish := AutoFinishRide(r, position, battery, now, mailOk);
        if finish.Some? {
          return finish.value;
        }
      }
      out := ApplyTelemetry(s, position, battery);
    }
  }
}
