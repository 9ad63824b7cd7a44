/** The tables the services share (backend/app/models). A scooter's unique code and its row id
    are one key here. Rides carry their segments; an e-mail is found by its receipt's dedup key,
    which is the ride. */
module Tables {
  import opened Options
  import opened Timeline
  import opened Geo

  datatype ScooterStatus = Available | Reserved | Riding | Unavailable

  /** Held by nobody. */
  predicate Free(status: ScooterStatus) { status == Available || status == Unavailable }

  datatype Scooter = Scooter(position: Point, battery: int, status: ScooterStatus, paused: bool)

  datatype BookingStatus = Holding | Cancelled | Expired | Used

  datatype Booking = Booking(user: nat, scooter: nat, status: BookingStatus, createdAt: int,
                             expiresAt: int, warnedAt: Option<int>, endedAt: Option<int>)

  datatype Db = Db(scooters: map<nat, Scooter>, bookings: map<nat, Booking>, rides: map<nat, Ride>,
                   emails: map<nat, nat>,
                   nextBooking: nat, nextRide: nat, nextSegment: nat, nextEmail: nat)

  /** Settings the services are called with. The auto-finish threshold may not exceed the
      low-battery one, nor may a rate be negative: the settings class refuses to start. */
  datatype Config = Config(lowBattery: int, autoFinishBattery: int, ttl: int, warnBefore: int,
                           rideRate: int, pauseRate: int, zones: seq<seq<Point>>)
  {
    predicate Accepted() { autoFinishBattery <= lowBattery && rideRate >= 0 && pauseRate >= 0 }
  }

  // ----- rows in question

  predicate ActiveBooking(db: Db, b: nat) { b in db.bookings && db.bookings[b].status == Holding }

  predicate Unfinished(db: Db, r: nat) { r in db.rides && db.rides[r].status != Finished }

  predicate HasBooking(db: Db, user: nat) {
    exists b :: b in db.bookings && ActiveBooking(db, b) && db.bookings[b].user == user
  }

  predicate HasRide(db: Db, user: nat) {
    exists r :: r in db.rides && Unfinished(db, r) && db.rides[r].user == user
  }

  predicate RideFrom(db: Db, r: nat, b: nat) { r in db.rides && db.rides[r].booking == b }

  predicate RideOn(db: Db, r: nat, s: nat) { Unfinished(db, r) && db.rides[r].scooter == s }

  predicate Overdue(booking: Booking, now: int) { booking.status == Holding && booking.expiresAt <= now }

  /** Foreign keys from bookings and rides to scooters. */
  ghost predicate ForeignKeys(db: Db) {
    && (forall b :: b in db.bookings ==> db.bookings[b].scooter in db.scooters)
    && (forall r :: r in db.rides ==> db.rides[r].scooter in db.scooters)
  }

  /** An unfinished ride always has the open segment `_open_segment` asserts. */
  ghost predicate OpenSegments(db: Db) {
    forall r :: Unfinished(db, r) ==> HasOpenSegment(db.rides[r])
  }

  /** The partial unique indexes on bookings. */
  predicate BookingIndexes(db: Db) {
    forall b, c | b in db.bookings && c in db.bookings && b != c && ActiveBooking(db, b) && ActiveBooking(db, c) ::
      db.bookings[b].user != db.bookings[c].user && db.bookings[b].scooter != db.bookings[c].scooter
  }

  /** The unique indexes on rides: one unfinished ride a user and a scooter, one ride a booking. */
  predicate RideIndexes(db: Db) {
    && (forall r, q | r in db.rides && q in db.rides && r != q :: db.rides[r].booking != db.rides[q].booking)
    && (forall r, q | r in db.rides && q in db.rides && r != q && Unfinished(db, r) && Unfinished(db, q) ::
          db.rides[r].user != db.rides[q].user && db.rides[r].scooter != db.rides[q].scooter)
  }
}
