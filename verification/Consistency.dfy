/** The invariant every transition silently relies on, and the proof that each keeps it. */
module Consistency {
  import opened Options
  import opened Timeline
  import opened Geo
  import opened Tables
  import opened Services

  // ----- the invariant

  ghost predicate Holds(db: Db, b: nat, s: nat) {
    ActiveBooking(db, b) && db.bookings[b].scooter == s
  }

  ghost predicate PausedOn(db: Db, r: nat, s: nat) {
    RideOn(db, r, s) && db.rides[r].status == Paused
  }

  /** A scooter is reserved iff an active booking holds it, riding iff an unfinished ride is on
      it, and paused iff that ride is. */
  ghost predicate ScooterOk(db: Db, s: nat)
    requires s in db.scooters
  {
    && (db.scooters[s].status == Reserved <==> exists b :: Holds(db, b, s))
    && (db.scooters[s].status == Riding <==> exists r :: RideOn(db, r, s))
    && (db.scooters[s].paused <==> exists r :: PausedOn(db, r, s))
  }

  ghost predicate ScootersOk(db: Db) {
    ForeignKeys(db) && forall s :: s in db.scooters ==> ScooterOk(db, s)
  }

  /** A user with an active booking has no unfinished ride. */
  ghost predicate UsersOk(db: Db) {
    forall b, r :: ActiveBooking(db, b) && Unfinished(db, r) ==> db.bookings[b].user != db.rides[r].user
  }

  ghost predicate CameFrom(ride: Ride, bookings: map<nat, Booking>) {
    && ride.booking in bookings && bookings[ride.booking].status == Used
    && bookings[ride.booking].user == ride.user && bookings[ride.booking].scooter == ride.scooter
  }

  /** A booking is used iff a ride of the same user on the same scooter came from it. */
  ghost predicate LineageOk(db: Db) {
    && (forall r :: r in db.rides ==> CameFrom(db.rides[r], db.bookings))
    && (forall b :: b in db.bookings && db.bookings[b].status == Used ==> exists r :: RideFrom(db, r, b))
  }

  ghost predicate IdsOk(db: Db) {
    (forall b :: b in db.bookings ==> b < db.nextBooking) && (forall r :: r in db.rides ==> r < db.nextRide)
  }

  ghost predicate RideOk(ride: Ride, nextSegment: nat) {
    TimelineOk(ride) && SegmentIdsBelow(ride, nextSegment)
  }

  ghost predicate TimelinesOk(db: Db) {
    forall r :: r in db.rides ==> RideOk(db.rides[r], db.nextSegment)
  }

  /** Receipts are mailed for finished rides only, and no two share a message. */
  ghost predicate MailOk(db: Db) {
    && (forall r :: r in db.emails ==> r in db.rides && db.rides[r].status == Finished)
    && (forall r :: r in db.emails ==> db.emails[r] < db.nextEmail)
    && (forall r, q :: r in db.emails && q in db.emails && r != q ==> db.emails[r] != db.emails[q])
  }

  datatype Clause = ScootersC | BookingsC | RidesC | UsersC | LineageC | IdsC | TimelinesC | MailC

  ghost predicate Meets(db: Db, c: Clause) {
    match c
    case ScootersC => ScootersOk(db)
    case BookingsC => BookingIndexes(db)
    case RidesC => RideIndexes(db)
    case UsersC => UsersOk(db)
    case LineageC => LineageOk(db)
    case IdsC => IdsOk(db)
    case TimelinesC => TimelinesOk(db)
    case MailC => MailOk(db)
  }

  /** All of the above. Stated clause by clause so that a proof looks only at what it names. */
  ghost predicate Consistent(db: Db) { forall c :: Meets(db, c) }

  lemma Unfold(db: Db)
    requires Consistent(db)
    ensures ScootersOk(db) && BookingIndexes(db) && RideIndexes(db) && UsersOk(db)
    ensures LineageOk(db) && IdsOk(db) && TimelinesOk(db) && MailOk(db)
  {
    assert Meets(db, ScootersC) && Meets(db, BookingsC) && Meets(db, RidesC) && Meets(db, UsersC);
    assert Meets(db, LineageC) && Meets(db, IdsC) && Meets(db, TimelinesC) && Meets(db, MailC);
  }

  lemma Fold(db: Db)
    requires ScootersOk(db) && BookingIndexes(db) && RideIndexes(db) && UsersOk(db)
    requires LineageOk(db) && IdsOk(db) && TimelinesOk(db) && MailOk(db)
    ensures Consistent(db)
  {
    forall c ensures Meets(db, c) {
      match c
      case ScootersC => case BookingsC => case RidesC => case UsersC =>
      case LineageC => case IdsC => case TimelinesC => case MailC =>
    }
  }

  /** Nothing but parked scooters: what the seed inserts. */
  ghost predicate Fresh(db: Db) {
    && db.bookings == map[] && db.rides == map[] && db.emails == map[]
    && forall s :: s in db.scooters ==>
         (db.scooters[s].status == Available || db.scooters[s].status == Unavailable) && !db.scooters[s].paused
  }

  lemma FreshIsConsistent(db: Db)
    requires Fresh(db)
    ensures Consistent(db)
  {
    Fold(db);
  }

  lemma OpenSegmentOf(ride: Ride, nextSegment: nat)
    requires RideOk(ride, nextSegment)
    ensures HasOpenSegment(ride)
  {}

  lemma TimelinesAreOpen(db: Db)
    requires TimelinesOk(db)
    ensures OpenSegments(db)
  {
    forall r | Unfinished(db, r) ensures HasOpenSegment(db.rides[r]) {
      OpenSegmentOf(db.rides[r], db.nextSegment);
    }
  }

  /** The look-ups by scooter and by booking have one answer. */
  lemma OnlyRideOn(db: Db, r: nat, s: nat)
    requires RideIndexes(db) && RideOn(db, r, s)
    ensures UnfinishedRideOn(db, s) == Some(r)
  {
    assert forall q :: RideOn(db, q, s) ==> q == r;
  }

  lemma OnlyRideFrom(db: Db, r: nat, b: nat)
    requires RideIndexes(db) && RideFrom(db, r, b)
    ensures FindRideFrom(db, b) == Some(r)
  {
    assert forall q :: RideFrom(db, q, b) ==> q == r;
  }

  // ----- frames: what a group of the invariant depends on

  /** A scooter nobody took, left or touched stays accounted for. */
  lemma ScooterFrame(db: Db, after: Db, s: nat)
    requires s in db.scooters && s in after.scooters && ScooterOk(db, s)
    requires forall b :: Holds(after, b, s) <==> Holds(db, b, s)
    requires forall r :: RideOn(after, r, s) <==> RideOn(db, r, s)
    requires forall r :: PausedOn(after, r, s) <==> PausedOn(db, r, s)
    requires after.scooters[s].paused == db.scooters[s].paused
    requires after.scooters[s].status == db.scooters[s].status
      || (db.scooters[s].status in {Available, Unavailable} && after.scooters[s].status in {Available, Unavailable})
    ensures ScooterOk(after, s)
  {}

  /** Where nothing new is held or ridden, what was exclusive stays so. */
  lemma UniqueFrame(db: Db, after: Db)
    requires BookingIndexes(db) && RideIndexes(db) && UsersOk(db)
    requires forall b :: ActiveBooking(after, b) ==>
      && ActiveBooking(db, b)
      && after.bookings[b].user == db.bookings[b].user && after.bookings[b].scooter == db.bookings[b].scooter
    requires forall r :: r in after.rides ==>
      && r in db.rides && after.rides[r].user == db.rides[r].user
      && after.rides[r].scooter == db.rides[r].scooter && after.rides[r].booking == db.rides[r].booking
    requires forall r :: Unfinished(after, r) ==> Unfinished(db, r)
    ensures BookingIndexes(after) && RideIndexes(after) && UsersOk(after)
  {}

  /** Rides keeping their identity and bookings neither gaining nor losing `used`: the lineage
      stands. */
  lemma LineageFrame(db: Db, after: Db)
    requires LineageOk(db) && after.rides.Keys == db.rides.Keys
    requires forall r :: r in db.rides ==>
      && after.rides[r].user == db.rides[r].user && after.rides[r].scooter == db.rides[r].scooter
      && after.rides[r].booking == db.rides[r].booking
    requires forall b :: b in db.bookings && db.bookings[b].status == Used ==>
      && b in after.bookings && after.bookings[b].status == Used
      && after.bookings[b].user == db.bookings[b].user && after.bookings[b].scooter == db.bookings[b].scooter
    requires forall b :: b in after.bookings && after.bookings[b].status == Used ==>
      b in db.bookings && db.bookings[b].status == Used
    ensures LineageOk(after)
  {
    forall r | r in after.rides ensures CameFrom(after.rides[r], after.bookings) {
      assert CameFrom(db.rides[r], db.bookings);
    }
    forall b | b in after.bookings && after.bookings[b].status == Used
      ensures exists r :: RideFrom(after, r, b)
    {
      var r :| RideFrom(db, r, b);
      assert RideFrom(after, r, b);
    }
  }

  lemma BelowMore(ride: Ride, bound: nat, more: nat)
    requires RideOk(ride, bound) && bound <= more
    ensures RideOk(ride, more)
  {}

  lemma TimelinesFrame(db: Db, after: Db)
    requires TimelinesOk(db) && db.nextSegment <= after.nextSegment
    requires forall r :: r in after.rides ==>
      RideOk(after.rides[r], after.nextSegment) || (r in db.rides && after.rides[r] == db.rides[r])
    ensures TimelinesOk(after)
  {
    forall r | r in after.rides ensures RideOk(after.rides[r], after.nextSegment) {
      if r in db.rides && after.rides[r] == db.rides[r] {
        BelowMore(db.rides[r], db.nextSegment, after.nextSegment);
      }
    }
  }

  lemma SameRides(db: Db, after: Db)
    requires TimelinesOk(db) && after.rides == db.rides && db.nextSegment == after.nextSegment
    ensures TimelinesOk(after)
  {}

  lemma RideIndexesFrame(db: Db, after: Db)
    requires RideIndexes(db) && after.rides == db.rides
    ensures RideIndexes(after)
  {
    assert forall r :: Unfinished(after, r) <==> Unfinished(db, r);
  }

  // ----- bookings

  lemma WithBookingScooters(db: Db, user: nat, s: nat, createdAt: int, expiresAt: int)
    requires ScootersOk(db) && IdsOk(db) && s in db.scooters && db.scooters[s].status == Available
    ensures ScootersOk(WithBooking(db, user, s, createdAt, expiresAt))
  {
    var after := WithBooking(db, user, s, createdAt, expiresAt);
    var n := db.nextBooking;
    assert n !in db.bookings;
    forall t | t in after.scooters ensures ScooterOk(after, t) {
      assert ScooterOk(db, t);
      if t == s {
        assert Holds(after, n, s);
        assert forall r :: RideOn(after, r, s) <==> RideOn(db, r, s);
        assert forall r :: PausedOn(after, r, s) <==> PausedOn(db, r, s);
      } else {
        ScooterFrame(db, after, t);
      }
    }
  }

  lemma WithBookingUnique(db: Db, user: nat, s: nat, createdAt: int, expiresAt: int)
    requires ScootersOk(db) && IdsOk(db) && s in db.scooters && db.scooters[s].status == Available
    requires BookingIndexes(db) && UsersOk(db)
    requires !HasBooking(db, user) && !HasRide(db, user)
    ensures BookingIndexes(WithBooking(db, user, s, createdAt, expiresAt))
    ensures UsersOk(WithBooking(db, user, s, createdAt, expiresAt))
  {
    var after := WithBooking(db, user, s, createdAt, expiresAt);
    var n := db.nextBooking;
    assert ScooterOk(db, s);
    forall b | ActiveBooking(db, b) ensures db.bookings[b].scooter != s && db.bookings[b].user != user {
      assert Holds(db, b, db.bookings[b].scooter);
    }
    assert forall b :: ActiveBooking(after, b) ==> ActiveBooking(db, b) || b == n;
    assert forall r :: Unfinished(after, r) ==> Unfinished(db, r);
  }

  lemma WithBookingRest(db: Db, user: nat, s: nat, createdAt: int, expiresAt: int)
    requires IdsOk(db) && LineageOk(db) && MailOk(db) && s in db.scooters
    ensures var after := WithBooking(db, user, s, createdAt, expiresAt);
      IdsOk(after) && LineageOk(after) && MailOk(after)
  {
    LineageFrame(db, WithBooking(db, user, s, createdAt, expiresAt));
  }

  lemma WithBookingKeeps(db: Db, user: nat, s: nat, createdAt: int, expiresAt: int)
    requires Consistent(db) && s in db.scooters && db.scooters[s].status == Available
    requires !HasBooking(db, user) && !HasRide(db, user)
    ensures var after := WithBooking(db, user, s, createdAt, expiresAt);
      Consistent(after) && BookingIndexes(after)
  {
    Unfold(db);
    var after := WithBooking(db, user, s, createdAt, expiresAt);
    WithBookingScooters(db, user, s, createdAt, expiresAt);
    WithBookingUnique(db, user, s, createdAt, expiresAt);
    WithBookingRest(db, user, s, createdAt, expiresAt);
    SameRides(db, after);
    assert RideIndexes(after) by { RideIndexesFrame(db, after); }
    Fold(after);
  }

  lemma EndBookingsScooters(db: Db, ended: set<nat>, status: BookingStatus, now: int, low: int)
    requires ScootersOk(db) && BookingIndexes(db) && (forall b :: b in ended ==> ActiveBooking(db, b))
    requires status == Cancelled || status == Expired
    ensures ScootersOk(EndBookings(db, ended, status, now, low))
  {
    var after := EndBookings(db, ended, status, now, low);
    forall s | s in after.scooters ensures ScooterOk(after, s) {
      assert ScooterOk(db, s);
      assert forall r :: RideOn(after, r, s) <==> RideOn(db, r, s);
      assert forall r :: PausedOn(after, r, s) <==> PausedOn(db, r, s);
      if BookedBy(db, ended, s) {
        NobodyHolds(db, ended, status, now, low, s);
      } else {
        ScooterFrame(db, after, s);
      }
    }
  }

  /** The booking that held a freed scooter was its only one. */
  lemma NobodyHolds(db: Db, ended: set<nat>, status: BookingStatus, now: int, low: int, s: nat)
    requires ForeignKeys(db) && BookingIndexes(db) && (forall b :: b in ended ==> ActiveBooking(db, b))
    requires (status == Cancelled || status == Expired) && BookedBy(db, ended, s) && s in db.scooters
    ensures forall c :: !Holds(EndBookings(db, ended, status, now, low), c, s)
    ensures exists b :: Holds(db, b, s)
  {
    var after := EndBookings(db, ended, status, now, low);
    var b :| b in ended && b in db.bookings && db.bookings[b].scooter == s;
    assert Holds(db, b, s);
    forall c ensures !Holds(after, c, s) {
      if Holds(after, c, s) {
        assert ActiveBooking(db, c) && c != b;
      }
    }
  }

  lemma EndBookingsUnique(db: Db, ended: set<nat>, status: BookingStatus, now: int, low: int)
    requires BookingIndexes(db) && RideIndexes(db) && UsersOk(db)
    requires status == Cancelled || status == Expired
    ensures var after := EndBookings(db, ended, status, now, low);
      BookingIndexes(after) && RideIndexes(after) && UsersOk(after)
  {
    UniqueFrame(db, EndBookings(db, ended, status, now, low));
  }

  lemma EndBookingsLineage(db: Db, ended: set<nat>, status: BookingStatus, now: int, low: int)
    requires IdsOk(db) && LineageOk(db) && MailOk(db)
    requires (forall b :: b in ended ==> ActiveBooking(db, b)) && (status == Cancelled || status == Expired)
    ensures var after := EndBookings(db, ended, status, now, low);
      IdsOk(after) && LineageOk(after) && MailOk(after)
  {
    LineageFrame(db, EndBookings(db, ended, status, now, low));
  }

  lemma EndBookingsKeeps(db: Db, ended: set<nat>, status: BookingStatus, now: int, low: int)
    requires Consistent(db) && (forall b :: b in ended ==> ActiveBooking(db, b))
    requires status == Cancelled || status == Expired
    ensures Consistent(EndBookings(db, ended, status, now, low))
  {
    Unfold(db);
    var after := EndBookings(db, ended, status, now, low);
    EndBookingsScooters(db, ended, status, now, low);
    EndBookingsUnique(db, ended, status, now, low);
    EndBookingsLineage(db, ended, status, now, low);
    SameRides(db, after);
    Fold(after);
  }

  lemma WarnScooters(db: Db, now: int, warnBefore: int)
    requires ScootersOk(db)
    ensures ScootersOk(WarnExpiring(db, now, warnBefore))
  {
    var after := WarnExpiring(db, now, warnBefore);
    forall s | s in after.scooters ensures ScooterOk(after, s) {
      assert ScooterOk(db, s);
      ScooterFrame(db, after, s);
    }
  }

  lemma WarnRest(db: Db, now: int, warnBefore: int)
    requires BookingIndexes(db) && RideIndexes(db) && UsersOk(db) && IdsOk(db) && LineageOk(db)
    ensures var after := WarnExpiring(db, now, warnBefore);
      BookingIndexes(after) && RideIndexes(after) && UsersOk(after) && IdsOk(after) && LineageOk(after)
  {
    UniqueFrame(db, WarnExpiring(db, now, warnBefore));
    LineageFrame(db, WarnExpiring(db, now, warnBefore));
  }

  lemma WarnKeeps(db: Db, now: int, warnBefore: int)
    requires Consistent(db)
    ensures Consistent(WarnExpiring(db, now, warnBefore))
  {
    Unfold(db);
    WarnScooters(db, now, warnBefore);
    WarnRest(db, now, warnBefore);
    SameRides(db, WarnExpiring(db, now, warnBefore));
    Fold(WarnExpiring(db, now, warnBefore));
  }

  // ----- scooters and mail

  /** The booking and ride tables stand as they are: so does all that speaks of nothing else. */
  lemma SameTables(db: Db, after: Db)
    requires BookingIndexes(db) && RideIndexes(db) && UsersOk(db) && LineageOk(db) && IdsOk(db) && TimelinesOk(db)
    requires after.bookings == db.bookings && after.rides == db.rides
    requires after.nextBooking == db.nextBooking && after.nextRide == db.nextRide
    requires after.nextSegment == db.nextSegment
    ensures BookingIndexes(after) && RideIndexes(after) && UsersOk(after)
    ensures LineageOk(after) && IdsOk(after) && TimelinesOk(after)
  {
    UniqueFrame(db, after);
    LineageFrame(db, after);
    SameRides(db, after);
  }

  lemma ReportScooters(db: Db, s: nat, position: Point, battery: int, low: int)
    requires ScootersOk(db)
    ensures ScootersOk(ApplyTelemetry(db, s, position, battery, low).0)
  {
    var after := ApplyTelemetry(db, s, position, battery, low).0;
    forall t | t in after.scooters ensures ScooterOk(after, t) {
      assert ScooterOk(db, t);
      ScooterFrame(db, after, t);
    }
  }

  lemma ReportTables(db: Db, s: nat, position: Point, battery: int, low: int)
    ensures var after := ApplyTelemetry(db, s, position, battery, low).0;
      after == db.(scooters := after.scooters)
  {}

  lemma ReportKeeps(db: Db, s: nat, position: Point, battery: int, low: int)
    requires Consistent(db)
    ensures Consistent(ApplyTelemetry(db, s, position, battery, low).0)
  {
    Unfold(db);
    var after := ApplyTelemetry(db, s, position, battery, low).0;
    ReportScooters(db, s, position, battery, low);
    ReportTables(db, s, position, battery, low);
    SameTables(db, after);
    Fold(after);
  }

  lemma MailScooters(db: Db, r: nat, mailOk: bool)
    requires ScootersOk(db)
    ensures ScootersOk(StoreReceipt(db, r, mailOk).0)
  {
    var after := StoreReceipt(db, r, mailOk).0;
    forall s | s in after.scooters ensures ScooterOk(after, s) {
      assert ScooterOk(db, s);
      ScooterFrame(db, after, s);
    }
  }

  lemma MailedOnce(db: Db, r: nat, mailOk: bool)
    requires MailOk(db) && r in db.rides && db.rides[r].status == Finished
    ensures var after := StoreReceipt(db, r, mailOk).0;
      MailOk(after) && after == db.(emails := after.emails, nextEmail := after.nextEmail)
  {}

  lemma StoreReceiptKeeps(db: Db, r: nat, mailOk: bool)
    requires Consistent(db) && r in db.rides && db.rides[r].status == Finished
    ensures Consistent(StoreReceipt(db, r, mailOk).0)
  {
    Unfold(db);
    var after := StoreReceipt(db, r, mailOk).0;
    MailScooters(db, r, mailOk);
    MailedOnce(db, r, mailOk);
    SameTables(db, after);
    Fold(after);
  }

  // ----- a ride begins

  lemma WithRideScooters(db: Db, b: nat, rideRate: int, pauseRate: int, now: int)
    requires ScootersOk(db) && BookingIndexes(db) && IdsOk(db) && ActiveBooking(db, b)
    ensures ScootersOk(WithRide(db, b, rideRate, pauseRate, now))
  {
    var after := WithRide(db, b, rideRate, pauseRate, now);
    var n, taken := db.nextRide, db.bookings[b].scooter;
    assert n !in db.rides;
    assert Holds(db, b, taken);
    forall s | s in after.scooters ensures ScooterOk(after, s) {
      assert ScooterOk(db, s);
      if s == taken {
        assert RideOn(after, n, s);
        assert forall r :: RideOn(after, r, s) ==> r == n || RideOn(db, r, s);
        forall c ensures !Holds(after, c, s) {
          if Holds(after, c, s) {
            assert ActiveBooking(db, c) && c != b;
          }
        }
      } else {
        ScooterFrame(db, after, s);
      }
    }
  }

  /** The booking's user rides nothing else, and its scooter carries no one. */
  lemma NobodyElse(db: Db, b: nat)
    requires ScootersOk(db) && UsersOk(db) && LineageOk(db) && ActiveBooking(db, b)
    ensures forall r :: r in db.rides ==> db.rides[r].booking != b
    ensures forall r :: Unfinished(db, r) ==>
      db.rides[r].scooter != db.bookings[b].scooter && db.rides[r].user != db.bookings[b].user
  {
    assert Holds(db, b, db.bookings[b].scooter) && ScooterOk(db, db.bookings[b].scooter);
    forall r | r in db.rides ensures db.rides[r].booking != b {
      assert CameFrom(db.rides[r], db.bookings);
    }
    forall r | Unfinished(db, r) ensures db.rides[r].scooter != db.bookings[b].scooter {
      assert RideOn(db, r, db.rides[r].scooter);
    }
  }

  lemma WithRideUnique(db: Db, b: nat, rideRate: int, pauseRate: int, now: int)
    requires ForeignKeys(db) && BookingIndexes(db) && RideIndexes(db) && UsersOk(db) && IdsOk(db)
    requires ActiveBooking(db, b)
    requires forall r :: r in db.rides ==> db.rides[r].booking != b
    requires forall r :: Unfinished(db, r) ==>
      db.rides[r].scooter != db.bookings[b].scooter && db.rides[r].user != db.bookings[b].user
    ensures var after := WithRide(db, b, rideRate, pauseRate, now);
      BookingIndexes(after) && RideIndexes(after) && UsersOk(after)
  {
    var after := WithRide(db, b, rideRate, pauseRate, now);
    assert db.nextRide !in db.rides;
    assert forall c :: ActiveBooking(after, c) <==> ActiveBooking(db, c) && c != b;
    assert forall r :: Unfinished(after, r) <==> Unfinished(db, r) || r == db.nextRide;
  }

  lemma WithRideLineage(db: Db, b: nat, rideRate: int, pauseRate: int, now: int)
    requires ForeignKeys(db) && LineageOk(db) && IdsOk(db) && MailOk(db) && ActiveBooking(db, b)
    ensures var after := WithRide(db, b, rideRate, pauseRate, now);
      LineageOk(after) && IdsOk(after) && MailOk(after)
  {
    var after := WithRide(db, b, rideRate, pauseRate, now);
    assert db.nextRide !in db.rides;
    assert RideFrom(after, db.nextRide, b);
    forall r | r in after.rides ensures CameFrom(after.rides[r], after.bookings) {
      if r in db.rides {
        assert CameFrom(db.rides[r], db.bookings);
      }
    }
    forall c | c in after.bookings && after.bookings[c].status == Used && c != b
      ensures exists r :: RideFrom(after, r, c)
    {
      var r :| RideFrom(db, r, c);
      assert RideFrom(after, r, c);
    }
  }

  lemma WithRideTimelines(db: Db, b: nat, rideRate: int, pauseRate: int, now: int)
    requires ForeignKeys(db) && TimelinesOk(db) && ActiveBooking(db, b)
    ensures TimelinesOk(WithRide(db, b, rideRate, pauseRate, now))
  {
    var booking := db.bookings[b];
    StartedOk(booking.user, booking.scooter, b, rideRate, pauseRate, now, db.nextSegment);
    TimelinesFrame(db, WithRide(db, b, rideRate, pauseRate, now));
  }

  lemma WithRideKeeps(db: Db, b: nat, rideRate: int, pauseRate: int, now: int)
    requires Consistent(db) && ActiveBooking(db, b)
    ensures ForeignKeys(db)
    ensures var after := WithRide(db, b, rideRate, pauseRate, now);
      Consistent(after) && RideIndexes(after)
  {
    Unfold(db);
    WithRideScooters(db, b, rideRate, pauseRate, now);
    NobodyElse(db, b);
    WithRideUnique(db, b, rideRate, pauseRate, now);
    WithRideLineage(db, b, rideRate, pauseRate, now);
    WithRideTimelines(db, b, rideRate, pauseRate, now);
    Fold(WithRide(db, b, rideRate, pauseRate, now));
  }

  // ----- a ride goes on or ends

  /** One ride row is rewritten and keeps its identity. */
  ghost predicate Rewritten(db: Db, after: Db, r: nat) {
    && Unfinished(db, r)
    && after.bookings == db.bookings && after.emails == db.emails
    && after.nextBooking == db.nextBooking && after.nextRide == db.nextRide
    && after.nextEmail == db.nextEmail && after.nextSegment >= db.nextSegment
    && after.rides.Keys == db.rides.Keys
    && (forall q :: q in db.rides && q != r ==> after.rides[q] == db.rides[q])
    && after.rides[r].user == db.rides[r].user && after.rides[r].scooter == db.rides[r].scooter
    && after.rides[r].booking == db.rides[r].booking
  }

  lemma RewriteUnique(db: Db, after: Db, r: nat)
    requires Rewritten(db, after, r) && BookingIndexes(db) && RideIndexes(db) && UsersOk(db)
    ensures BookingIndexes(after) && RideIndexes(after) && UsersOk(after)
  {
    UniqueFrame(db, after);
  }

  lemma RewriteLineage(db: Db, after: Db, r: nat)
    requires Rewritten(db, after, r) && LineageOk(db)
    ensures LineageOk(after)
  {
    LineageFrame(db, after);
  }

  lemma RewriteMail(db: Db, after: Db, r: nat)
    requires Rewritten(db, after, r) && IdsOk(db) && MailOk(db)
    ensures IdsOk(after) && MailOk(after)
  {
    assert r !in db.emails;
  }

  lemma RewriteTimelines(db: Db, after: Db, r: nat)
    requires Rewritten(db, after, r) && TimelinesOk(db) && RideOk(after.rides[r], after.nextSegment)
    ensures TimelinesOk(after)
  {
    TimelinesFrame(db, after);
  }

  lemma WithSwitchScooters(db: Db, r: nat, status: RideStatus, now: int)
    requires ScootersOk(db) && RideIndexes(db) && Unfinished(db, r) && status != Finished
    requires HasOpenSegment(db.rides[r])
    ensures ScootersOk(WithSwitch(db, r, status, now))
  {
    var after := WithSwitch(db, r, status, now);
    var ridden := db.rides[r].scooter;
    forall s | s in after.scooters ensures ScooterOk(after, s) {
      assert ScooterOk(db, s);
      assert forall b :: Holds(after, b, s) <==> Holds(db, b, s);
      assert forall q :: RideOn(after, q, s) <==> RideOn(db, q, s);
      if s == ridden {
        assert RideOn(db, r, s);
        assert forall q :: RideOn(db, q, s) ==> q == r;
        assert PausedOn(after, r, s) <==> status == Paused;
      } else {
        ScooterFrame(db, after, s);
      }
    }
  }

  lemma SwitchedRowOk(ride: Ride, status: RideStatus, now: int, nextSegment: nat)
    requires RideOk(ride, nextSegment) && ride.status != Finished
    requires status != Finished && status != ride.status
    ensures HasOpenSegment(ride) && RideOk(Switched(ride, status, now, nextSegment), nextSegment + 1)
  {
    SwitchedOk(ride, status, now, nextSegment);
  }

  lemma WithSwitchShape(db: Db, r: nat, status: RideStatus, now: int)
    requires ForeignKeys(db) && Unfinished(db, r) && HasOpenSegment(db.rides[r])
    ensures var after := WithSwitch(db, r, status, now);
      && Rewritten(db, after, r) && after.nextSegment == db.nextSegment + 1
      && after.rides[r] == Switched(db.rides[r], status, now, db.nextSegment)
  {}

  lemma RewriteKeeps(db: Db, after: Db, r: nat)
    requires Consistent(db) && Rewritten(db, after, r) && RideOk(after.rides[r], after.nextSegment)
    requires ScootersOk(after)
    ensures Consistent(after)
  {
    Unfold(db);
    RewriteUnique(db, after, r);
    RewriteLineage(db, after, r);
    RewriteMail(db, after, r);
    RewriteTimelines(db, after, r);
    Fold(after);
  }

  lemma WithSwitchKeeps(db: Db, r: nat, status: RideStatus, now: int)
    requires Consistent(db) && Unfinished(db, r)
    requires status != Finished && status != db.rides[r].status
    ensures ForeignKeys(db) && HasOpenSegment(db.rides[r])
    ensures Consistent(WithSwitch(db, r, status, now))
  {
    Unfold(db);
    SwitchedRowOk(db.rides[r], status, now, db.nextSegment);
    WithSwitchShape(db, r, status, now);
    WithSwitchScooters(db, r, status, now);
    RewriteKeeps(db, WithSwitch(db, r, status, now), r);
  }

  /** The ride is over and its scooter, with whatever position and charge, is let go. */
  ghost predicate LetGo(db: Db, after: Db, r: nat) {
    && Rewritten(db, after, r) && after.rides[r].status == Finished
    && db.rides[r].scooter in after.scooters
    && after.scooters == db.scooters[db.rides[r].scooter := after.scooters[db.rides[r].scooter]]
    && after.scooters[db.rides[r].scooter].status in {Available, Unavailable}
    && !after.scooters[db.rides[r].scooter].paused
  }

  lemma LetGoScooters(db: Db, after: Db, r: nat)
    requires ScootersOk(db) && RideIndexes(db) && LetGo(db, after, r)
    ensures ScootersOk(after)
  {
    LetGoKeys(db, after, r);
    forall s | s in after.scooters ensures ScooterOk(after, s) {
      assert ScooterOk(db, s);
      LetGoOne(db, after, r, s);
    }
  }

  lemma LetGoKeys(db: Db, after: Db, r: nat)
    requires ForeignKeys(db) && LetGo(db, after, r)
    ensures after.scooters.Keys == db.scooters.Keys && ForeignKeys(after)
  {}

  lemma LetGoOne(db: Db, after: Db, r: nat, s: nat)
    requires ForeignKeys(db) && RideIndexes(db) && LetGo(db, after, r) && s in db.scooters && ScooterOk(db, s)
    ensures s in after.scooters && ScooterOk(after, s)
  {
    if s == db.rides[r].scooter {
      LetGoRidden(db, after, r);
    } else {
      LetGoElsewhere(db, after, r, s);
    }
  }

  lemma LetGoElsewhere(db: Db, after: Db, r: nat, s: nat)
    requires LetGo(db, after, r) && s in db.scooters && ScooterOk(db, s) && s != db.rides[r].scooter
    ensures s in after.scooters && ScooterOk(after, s)
  {
    assert forall b :: Holds(after, b, s) <==> Holds(db, b, s);
    assert forall q :: RideOn(after, q, s) <==> RideOn(db, q, s);
    assert forall q :: PausedOn(after, q, s) <==> PausedOn(db, q, s);
    ScooterFrame(db, after, s);
  }

  lemma LetGoRidden(db: Db, after: Db, r: nat)
    requires ForeignKeys(db) && RideIndexes(db) && LetGo(db, after, r)
    requires ScooterOk(db, db.rides[r].scooter)
    ensures ScooterOk(after, db.rides[r].scooter)
  {
    var s := db.rides[r].scooter;
    assert RideOn(db, r, s);
    forall b ensures !Holds(after, b, s) {
      assert !Holds(db, b, s);
    }
    forall q ensures !RideOn(after, q, s) {
      assert RideOn(db, q, s) ==> q == r;
    }
  }

  lemma LetGoKeeps(db: Db, after: Db, r: nat)
    requires Consistent(db) && LetGo(db, after, r) && RideOk(after.rides[r], after.nextSegment)
    ensures Consistent(after)
  {
    Unfold(db);
    LetGoScooters(db, after, r);
    RewriteKeeps(db, after, r);
  }

  lemma SettledRowOk(ride: Ride, now: int, reason: FinishReason, nextSegment: nat)
    requires RideOk(ride, nextSegment) && ride.status != Finished
    ensures HasOpenSegment(ride) && RideOk(Settled(ride, now, reason), nextSegment)
  {
    SettledOk(ride, now, reason);
  }

  lemma WithSettledShape(db: Db, r: nat, now: int, reason: FinishReason, scooter: Scooter, release: ScooterStatus)
    requires ForeignKeys(db) && Unfinished(db, r) && HasOpenSegment(db.rides[r])
    requires release in {Available, Unavailable}
    ensures var after := WithSettled(db, r, now, reason, scooter, release);
      LetGo(db, after, r) && after.nextSegment == db.nextSegment && after.rides[r] == Settled(db.rides[r], now, reason)
  {}

  lemma WithSettledKeeps(db: Db, r: nat, now: int, scooter: Scooter, release: ScooterStatus)
    requires Consistent(db) && Unfinished(db, r) && release in {Available, Unavailable}
    ensures ForeignKeys(db) && HasOpenSegment(db.rides[r])
    ensures var after := WithSettled(db, r, now, ByUser, scooter, release);
      Consistent(after) && r in after.rides && after.rides[r].status == Finished
  {
    Unfold(db);
    SettledRowOk(db.rides[r], now, ByUser, db.nextSegment);
    WithSettledShape(db, r, now, ByUser, scooter, release);
    LetGoKeeps(db, WithSettled(db, r, now, ByUser, scooter, release), r);
  }

  function Marked(ride: Ride, battery: int, threshold: int): Ride {
    ride.(finishBattery := Some(battery), finishThreshold := Some(threshold))
  }

  lemma BatteryRowOk(ride: Ride, battery: int, threshold: int, now: int, nextSegment: nat)
    requires RideOk(ride, nextSegment) && ride.status != Finished
    ensures HasOpenSegment(ride) && HasOpenSegment(Marked(ride, battery, threshold))
    ensures RideOk(Settled(Marked(ride, battery, threshold), now, ByBattery), nextSegment)
  {
    BatteryColumnsOk(ride, battery, threshold);
    OpenSegmentOf(ride, nextSegment);
    SettledRowOk(Marked(ride, battery, threshold), now, ByBattery, nextSegment);
  }

  lemma WithBatteryFinishShape(db: Db, r: nat, position: Point, battery: int, threshold: int, now: int)
    requires ForeignKeys(db) && Unfinished(db, r) && HasOpenSegment(db.rides[r])
    ensures var after := WithBatteryFinish(db, r, position, battery, threshold, now);
      && LetGo(db, after, r) && after.nextSegment == db.nextSegment
      && after.rides[r] == Settled(Marked(db.rides[r], battery, threshold), now, ByBattery)
  {}

  lemma WithBatteryFinishKeeps(db: Db, r: nat, position: Point, battery: int, threshold: int, now: int)
    requires Consistent(db) && Unfinished(db, r)
    ensures ForeignKeys(db) && HasOpenSegment(db.rides[r])
    ensures var after := WithBatteryFinish(db, r, position, battery, threshold, now);
      Consistent(after) && r in after.rides && after.rides[r].status == Finished
  {
    Unfold(db);
    BatteryRowOk(db.rides[r], battery, threshold, now, db.nextSegment);
    WithBatteryFinishShape(db, r, position, battery, threshold, now);
    LetGoKeeps(db, WithBatteryFinish(db, r, position, battery, threshold, now), r);
  }
}
