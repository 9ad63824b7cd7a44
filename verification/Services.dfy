/** Every transition of the booking and ride services as a function of the tables
    (backend/app/services). Each returns the new tables and what the caller is told. */
module Services {
  import opened Options
  import opened Timeline
  import opened Geo
  import opened Tables

  datatype Refusal =
    | ScooterNotFound | BookingNotFound | RideNotFound | NotYourBooking | NotYourRide
    | ScooterNotAvailable | UserHasActiveBooking | UserHasActiveRide
    | BookingNotActive | BookingUsed | ScooterBatteryLow | RideFinished | OutsideServiceZone

  datatype Outcome =
    | Refused(code: Refusal)
    /** the database's unique index spoke, after every check of the service had passed */
    | IndexConflict(code: Refusal)
    | BookingMade(booking: nat)
    | BookingGone(booking: nat)
    | RideStarted(ride: nat, created: bool)
    | RideSwitched(ride: nat)
    | RideDone(ride: nat, finishedNow: bool, email: Option<nat>)
    | Recorded(scooter: nat)
    | Swept(expired: set<nat>, warned: set<nat>)

  // ----- scooters.py

  function ReleaseStatus(battery: int, threshold: int): ScooterStatus {
    if battery < threshold then Unavailable else Available
  }

  function StatusAfterTelemetry(current: ScooterStatus, battery: int, threshold: int): ScooterStatus {
    if current == Reserved || current == Riding then current
    else if battery < threshold then Unavailable
    else if current == Unavailable then Available
    else current
  }

  function ReportedRow(scooter: Scooter, position: Point, battery: int, low: int): Scooter {
    scooter.(position := position, battery := battery,
             status := StatusAfterTelemetry(scooter.status, battery, low))
  }

  function ApplyTelemetry(db: Db, s: nat, position: Point, battery: int, low: int): (Db, Outcome) {
    if s !in db.scooters then (db, Refused(ScooterNotFound))
    else (db.(scooters := db.scooters[s := ReportedRow(db.scooters[s], position, battery, low)]), Recorded(s))
  }

  // ----- bookings.py and booking_sweeper.py

  function WithBooking(db: Db, user: nat, s: nat, createdAt: int, expiresAt: int): Db
    requires s in db.scooters
  {
    db.(bookings := db.bookings[db.nextBooking := Booking(user, s, Holding, createdAt, expiresAt, None, None)],
        scooters := db.scooters[s := db.scooters[s].(status := Reserved)],
        nextBooking := db.nextBooking + 1)
  }

  function CreateBooking(db: Db, user: nat, s: nat, ttl: int, createdAt: int, now: int): (Db, Outcome) {
    if s !in db.scooters then (db, Refused(ScooterNotFound))
    else if db.scooters[s].status != Available then (db, Refused(ScooterNotAvailable))
    else if HasBooking(db, user) then (db, Refused(UserHasActiveBooking))
    else if HasRide(db, user) then (db, Refused(UserHasActiveRide))
    else
      var after := WithBooking(db, user, s, createdAt, now + ttl);
      if BookingIndexes(after) then (after, BookingMade(db.nextBooking))
      else (db, IndexConflict(ScooterNotAvailable))
  }

  /** A scooter just let go of: free again, unless its battery is flat. */
  function ReleasedRow(scooter: Scooter, low: int): Scooter {
    if scooter.status == Reserved then scooter.(status := ReleaseStatus(scooter.battery, low)) else scooter
  }

  function EndedRow(booking: Booking, status: BookingStatus, now: int): Booking {
    booking.(status := status, endedAt := Some(now))
  }

  predicate BookedBy(db: Db, ended: set<nat>, s: nat) {
    exists b :: b in ended && b in db.bookings && db.bookings[b].scooter == s
  }

  /** All bookings of `ended` close, and the scooters they held are released. */
  function EndBookings(db: Db, ended: set<nat>, status: BookingStatus, now: int, low: int): Db {
    db.(bookings := map b | b in db.bookings ::
          if b in ended then EndedRow(db.bookings[b], status, now) else db.bookings[b],
        scooters := map s | s in db.scooters ::
          if BookedBy(db, ended, s) then ReleasedRow(db.scooters[s], low) else db.scooters[s])
  }

  function CancelBooking(db: Db, user: nat, b: nat, now: int, low: int): (Db, Outcome) {
    if b !in db.bookings then (db, Refused(BookingNotFound))
    else if db.bookings[b].user != user then (db, Refused(NotYourBooking))
    else if db.bookings[b].status != Holding then (db, Refused(BookingNotActive))
    else (EndBookings(db, {b}, Cancelled, now, low), BookingGone(b))
  }

  function OverdueBookings(db: Db, now: int): set<nat> {
    set b | b in db.bookings && Overdue(db.bookings[b], now)
  }

  /** `_expire_overdue` on the overdue bookings among `batch`; those another transaction holds
      locked are skipped, so a batch need not be everything. */
  function ExpireOverdue(db: Db, batch: set<nat>, now: int, low: int): Db {
    EndBookings(db, batch * OverdueBookings(db, now), Expired, now, low)
  }

  /** Within `warnBefore` of the end, but never before half of the booking's own length. */
  predicate WarningDue(booking: Booking, now: int, warnBefore: int) {
    && booking.status == Holding && booking.warnedAt.None? && booking.expiresAt > now
    && booking.expiresAt - now <= warnBefore
    && 2 * (booking.expiresAt - now) <= booking.expiresAt - booking.createdAt
  }

  function DueWarnings(db: Db, now: int, warnBefore: int): set<nat> {
    set b | b in db.bookings && WarningDue(db.bookings[b], now, warnBefore)
  }

  function WarnExpiring(db: Db, now: int, warnBefore: int): Db {
    db.(bookings := map b | b in db.bookings ::
      if WarningDue(db.bookings[b], now, warnBefore) then db.bookings[b].(warnedAt := Some(now))
      else db.bookings[b])
  }

  // ----- mail.py and receipts.py

  /** One message a dedup key, and an insert that may fail without harm to the ride. */
  function StoreReceipt(db: Db, r: nat, mailOk: bool): (Db, Option<nat>) {
    if mailOk && r !in db.emails then
      (db.(emails := db.emails[r := db.nextEmail], nextEmail := db.nextEmail + 1), Some(db.nextEmail))
    else (db, None)
  }

  // ----- rides.py

  ghost function FindRideFrom(db: Db, b: nat): Option<nat> {
    if exists r :: RideFrom(db, r, b) then var r :| RideFrom(db, r, b); Some(r) else None
  }

  function WithRide(db: Db, b: nat, rideRate: int, pauseRate: int, now: int): Db
    requires b in db.bookings && db.bookings[b].scooter in db.scooters
  {
    var booking := db.bookings[b];
    db.(rides := db.rides[db.nextRide := Started(booking.user, booking.scooter, b, rideRate, pauseRate,
                                                 now, db.nextSegment)],
        bookings := db.bookings[b := booking.(status := Used)],
        scooters := db.scooters[booking.scooter := db.scooters[booking.scooter].(status := Riding)],
        nextRide := db.nextRide + 1, nextSegment := db.nextSegment + 1)
  }

  ghost function StartRide(db: Db, user: nat, b: nat, rideRate: int, pauseRate: int, now: int, low: int)
    : (Db, Outcome)
    requires ForeignKeys(db)
  {
    if b !in db.bookings then (db, Refused(BookingNotFound))
    else if db.bookings[b].user != user then (db, Refused(NotYourBooking))
    else if db.bookings[b].status == Used then
      var existing := FindRideFrom(db, b);
      if existing.Some? && Unfinished(db, existing.value) then (db, RideStarted(existing.value, false))
      else (db, Refused(BookingUsed))
    else if db.bookings[b].status != Holding || db.bookings[b].expiresAt <= now then
      (db, Refused(BookingNotActive))
    else if HasRide(db, user) then (db, Refused(UserHasActiveRide))
    else
      var scooter := db.scooters[db.bookings[b].scooter];
      if scooter.status != Reserved then (db, Refused(ScooterNotAvailable))
      else if scooter.battery < low then (db, Refused(ScooterBatteryLow))
      else
        var after := WithRide(db, b, rideRate, pauseRate, now);
        if RideIndexes(after) then (after, RideStarted(db.nextRide, true))
        else (db, IndexConflict(UserHasActiveRide))
  }

  function WithSwitch(db: Db, r: nat, status: RideStatus, now: int): Db
    requires r in db.rides && HasOpenSegment(db.rides[r]) && db.rides[r].scooter in db.scooters
  {
    var ride := db.rides[r];
    db.(rides := db.rides[r := Switched(ride, status, now, db.nextSegment)],
        scooters := db.scooters[ride.scooter := db.scooters[ride.scooter].(paused := status == Paused)],
        nextSegment := db.nextSegment + 1)
  }

  /** `pause_ride` with Paused, `resume_ride` with Active. */
  function SwitchRide(db: Db, user: nat, r: nat, status: RideStatus, now: int): (Db, Outcome)
    requires ForeignKeys(db) && OpenSegments(db)
  {
    if r !in db.rides then (db, Refused(RideNotFound))
    else if db.rides[r].user != user then (db, Refused(NotYourRide))
    else if db.rides[r].status == Finished then (db, Refused(RideFinished))
    else if db.rides[r].status == status then (db, RideSwitched(r))
    else (WithSwitch(db, r, status, now), RideSwitched(r))
  }

  predicate InService(zones: seq<seq<Point>>, p: Point) {
    exists z :: 0 <= z < |zones| && InPolygon(p, zones[z])
  }

  function WithSettled(db: Db, r: nat, now: int, reason: FinishReason, scooter: Scooter,
                       release: ScooterStatus): Db
    requires r in db.rides && HasOpenSegment(db.rides[r])
  {
    var ride := db.rides[r];
    db.(rides := db.rides[r := Settled(ride, now, reason)],
        scooters := db.scooters[ride.scooter := scooter.(status := release, paused := false)])
  }

  function FinishRide(db: Db, user: nat, r: nat, zones: seq<seq<Point>>, low: int, now: int, mailOk: bool)
    : (Db, Outcome)
    requires ForeignKeys(db) && OpenSegments(db)
  {
    if r !in db.rides then (db, Refused(RideNotFound))
    else if db.rides[r].user != user then (db, Refused(NotYourRide))
    else if db.rides[r].status == Finished then
      var (after, email) := StoreReceipt(db, r, mailOk);
      (after, RideDone(r, false, email))
    else
      var scooter := db.scooters[db.rides[r].scooter];
      if !InService(zones, scooter.position) then (db, Refused(OutsideServiceZone))
      else
        var settled := WithSettled(db, r, now, ByUser, scooter, ReleaseStatus(scooter.battery, low));
        var (after, email) := StoreReceipt(settled, r, mailOk);
        (after, RideDone(r, true, email))
  }

  /** `auto_finish_ride` on a ride found unfinished under its lock. */
  function WithBatteryFinish(db: Db, r: nat, position: Point, battery: int, threshold: int, now: int): Db
    requires r in db.rides && HasOpenSegment(db.rides[r]) && db.rides[r].scooter in db.scooters
  {
    var ride := db.rides[r];
    var marked := db.(rides := db.rides[r := ride.(finishBattery := Some(battery),
                                                   finishThreshold := Some(threshold))]);
    var scooter := db.scooters[ride.scooter].(position := position, battery := battery);
    WithSettled(marked, r, now, ByBattery, scooter, Unavailable)
  }

  ghost function UnfinishedRideOn(db: Db, s: nat): Option<nat> {
    if exists r :: RideOn(db, r, s) then var r :| RideOn(db, r, s); Some(r) else None
  }

  ghost function RecordTelemetry(db: Db, s: nat, position: Point, battery: int, low: int, autoFinish: int,
                                 now: int, mailOk: bool): (Db, Outcome)
    requires ForeignKeys(db) && OpenSegments(db)
  {
    var riding := UnfinishedRideOn(db, s);
    if battery < autoFinish && riding.Some? then
      var ended := WithBatteryFinish(db, riding.value, position, battery, autoFinish, now);
      var (after, email) := StoreReceipt(ended, riding.value, mailOk);
      (after, RideDone(riding.value, true, email))
    else ApplyTelemetry(db, s, position, battery, low)
  }
}
