/** What each call answers and does, said of the rows and not through the services: exactly when it
    refuses, which rows it may change and into what, and what every reachable row goes back to. */
module Calls {
  import opened Options
  import opened Billing
  import opened Timeline
  import opened Geo
  import opened Tables
  import opened Services
  import opened Consistency
  import opened History
  import SweepTiming

  // ----- bookings

  /** Nothing the user holds or rides. */
  ghost predicate Unengaged(db: Db, user: nat) {
    && (forall b :: b in db.bookings && db.bookings[b].status == Holding ==> db.bookings[b].user != user)
    && (forall r :: r in db.rides && db.rides[r].status != Finished ==> db.rides[r].user != user)
  }

  /** A booking is made exactly for a known available scooter and a user with no booking or ride
      under way; it expires one lifetime after the call. Everything else is refused and changes
      nothing. */
  lemma CreateAnswers(cfg: Config, db: Db, op: Op)
    requires Consistent(db) && op.Create?
    ensures ForeignKeys(db) && OpenSegments(db) && db.nextBooking !in db.bookings
    ensures var (after, out) := Step(cfg, db, op);
      if op.scooter in db.scooters && db.scooters[op.scooter].status == Available && Unengaged(db, op.user) then
        && out == BookingMade(db.nextBooking)
        && after.bookings == db.bookings[db.nextBooking :=
             Booking(op.user, op.scooter, Holding, op.createdAt, op.now + cfg.ttl, None, None)]
        && after.rides == db.rides && after.emails == db.emails
      else after == db && out.Refused?
  {
    Usable(db);
    StepKeeps(cfg, db, op);
    assert Meets(db, IdsC);
    CreateRefuses(cfg, db, op);
  }

  lemma CreateRefuses(cfg: Config, db: Db, op: Op)
    requires ForeignKeys(db) && OpenSegments(db) && op.Create?
    ensures var (after, out) := Step(cfg, db, op);
      (out.BookingMade? || out.IndexConflict?) <==>
        op.scooter in db.scooters && db.scooters[op.scooter].status == Available && Unengaged(db, op.user)
  {
    assert HasBooking(db, op.user) <==>
      exists b :: b in db.bookings && db.bookings[b].status == Holding && db.bookings[b].user == op.user;
    assert HasRide(db, op.user) <==>
      exists r :: r in db.rides && db.rides[r].status != Finished && db.rides[r].user == op.user;
  }

  /** Why a booking was not made: the first of these that holds. */
  lemma CreateSaysWhy(cfg: Config, db: Db, op: Op)
    requires Consistent(db) && op.Create?
    ensures ForeignKeys(db) && OpenSegments(db)
    ensures var out := Step(cfg, db, op).1;
      if op.scooter !in db.scooters then out == Refused(ScooterNotFound)
      else if db.scooters[op.scooter].status != Available then out == Refused(ScooterNotAvailable)
      else
        && (out == Refused(UserHasActiveBooking) <==>
              exists b :: b in db.bookings && db.bookings[b].status == Holding && db.bookings[b].user == op.user)
        && (out == Refused(UserHasActiveRide) <==>
              exists r :: r in db.rides && db.rides[r].status != Finished && db.rides[r].user == op.user)
  {
    Usable(db);
    assert Meets(db, UsersC);
    if op.scooter in db.scooters && db.scooters[op.scooter].status == Available {
      NotBoth(db, op.user);
      assert HasBooking(db, op.user) <==>
        exists b :: b in db.bookings && db.bookings[b].status == Holding && db.bookings[b].user == op.user;
      assert HasRide(db, op.user) <==>
        exists r :: r in db.rides && db.rides[r].status != Finished && db.rides[r].user == op.user;
    }
  }

  lemma NotBoth(db: Db, user: nat)
    requires UsersOk(db)
    ensures !(HasBooking(db, user) && HasRide(db, user))
  {}

  /** What a call makes of a booking: only an active one changes, its user alone can cancel it or
      ride from it, and only before it expires; only a pass ends it for its age or warns. */
  ghost function BookingRow(cfg: Config, db: Db, op: Op, b: nat): Booking
    requires ForeignKeys(db) && b in db.bookings
  {
    var was := db.bookings[b];
    if was.status != Holding then was
    else if op.Cancel? && op.booking == b && op.user == was.user then
      was.(status := Cancelled, endedAt := Some(op.now))
    else if op.Start? && op.booking == b && op.user == was.user && op.now < was.expiresAt
            && cfg.lowBattery <= db.scooters[was.scooter].battery then
      was.(status := Used)
    else if (op.Sweep? || (op.Expire? && b in op.batch)) && was.expiresAt <= op.now then
      was.(status := Expired, endedAt := Some(op.now))
    else if (op.Sweep? || op.Warn?) && was.warnedAt.None? && op.now < was.expiresAt <= op.now + cfg.warnBefore
            && was.createdAt + was.expiresAt <= 2 * op.now then
      was.(warnedAt := Some(op.now))
    else was
  }

  /** In every consistent state, what any call makes of any booking, and that only a booking call
      makes a new one. */
  lemma BookingAnswers(cfg: Config, db: Db, op: Op)
    requires Consistent(db)
    ensures ForeignKeys(db) && OpenSegments(db)
    ensures var after := Step(cfg, db, op).0;
      && (forall b | b in db.bookings :: b in after.bookings && after.bookings[b] == BookingRow(cfg, db, op, b))
      && (forall b | b in after.bookings && b !in db.bookings :: op.Create? && b == db.nextBooking)
  {
    Usable(db);
    assert Meets(db, IdsC);
    match op
    case Create(_, _, _, _) => CreateAnswers(cfg, db, op);
    case Cancel(_, _, _) => CancelBookings(cfg, db, op);
    case Expire(_, _) => PassBookings(cfg, db, op);
    case Warn(_) => PassBookings(cfg, db, op);
    case Sweep(_) => SweepBookings(cfg, db, op);
    case Start(_, _, _) => StartBookings(cfg, db, op);
    case _ => SweepTiming.SameBookings(cfg, db, op);
  }

  lemma CancelBookings(cfg: Config, db: Db, op: Op)
    requires ForeignKeys(db) && OpenSegments(db) && op.Cancel?
    ensures var after := Step(cfg, db, op).0;
      && after.bookings.Keys == db.bookings.Keys
      && forall b | b in db.bookings :: after.bookings[b] == BookingRow(cfg, db, op, b)
  {}

  lemma PassBookings(cfg: Config, db: Db, op: Op)
    requires ForeignKeys(db) && OpenSegments(db) && (op.Expire? || op.Warn?)
    ensures var after := Step(cfg, db, op).0;
      && after.bookings.Keys == db.bookings.Keys
      && forall b | b in db.bookings :: after.bookings[b] == BookingRow(cfg, db, op, b)
  {}

  lemma SweepBookings(cfg: Config, db: Db, op: Op)
    requires ForeignKeys(db) && OpenSegments(db) && op.Sweep?
    ensures var after := Step(cfg, db, op).0;
      && after.bookings.Keys == db.bookings.Keys
      && forall b | b in db.bookings :: after.bookings[b] == BookingRow(cfg, db, op, b)
  {}

  lemma StartBookings(cfg: Config, db: Db, op: Op)
    requires Consistent(db) && op.Start?
    ensures ForeignKeys(db) && OpenSegments(db)
    ensures var after := Step(cfg, db, op).0;
      && after.bookings.Keys == db.bookings.Keys
      && forall b | b in db.bookings :: after.bookings[b] == BookingRow(cfg, db, op, b)
  {
    StartAnswers(cfg, db, op);
  }

  /** A pass names exactly the bookings it ended and those it warned. */
  lemma SweepAnswers(cfg: Config, db: Db, op: Op)
    requires Consistent(db)
    ensures ForeignKeys(db) && OpenSegments(db)
    ensures var (after, out) := Step(cfg, db, op);
      && (out.Swept? <==> op.Sweep? || op.Expire? || op.Warn?)
      && (out.Swept? ==>
            && out.expired == (set b | b in db.bookings && db.bookings[b].status == Holding
                                       && BookingRow(cfg, db, op, b).status == Expired)
            && out.warned == (set b | b in db.bookings
                                      && BookingRow(cfg, db, op, b).warnedAt != db.bookings[b].warnedAt)
            && after.rides == db.rides && after.emails == db.emails)
  {
    Usable(db);
    if !(op.Sweep? || op.Expire? || op.Warn?) {
      NoSweep(cfg, db, op);
    }
  }

  lemma NoSweep(cfg: Config, db: Db, op: Op)
    requires ForeignKeys(db) && OpenSegments(db) && !(op.Sweep? || op.Expire? || op.Warn?)
    ensures !Step(cfg, db, op).1.Swept?
  {}

  lemma CancelAnswers(cfg: Config, db: Db, op: Op)
    requires Consistent(db) && op.Cancel?
    ensures ForeignKeys(db) && OpenSegments(db)
    ensures var (after, out) := Step(cfg, db, op);
      var known := op.booking in db.bookings;
      && (out == BookingGone(op.booking) <==>
            known && db.bookings[op.booking].user == op.user && db.bookings[op.booking].status == Holding)
      && (out == Refused(BookingNotFound) <==> !known)
      && (out == Refused(NotYourBooking) <==> known && db.bookings[op.booking].user != op.user)
      && (!out.BookingGone? ==> after == db && out.Refused?)
      && after.rides == db.rides && after.emails == db.emails
  {
    Usable(db);
  }

  // ----- rides

  /** A ride begins exactly where its user's booking is active and not yet over, swept or not, and
      its scooter is charged; it begins then, at the configured rates. Otherwise nothing changes:
      the ride under way is given back, or the caller is told why not. */
  lemma StartAnswers(cfg: Config, db: Db, op: Op)
    requires Consistent(db) && op.Start?
    ensures ForeignKeys(db) && OpenSegments(db) && db.nextRide !in db.rides
    ensures var (after, out) := Step(cfg, db, op);
      if && op.booking in db.bookings && db.bookings[op.booking].user == op.user
         && db.bookings[op.booking].status == Holding && op.now < db.bookings[op.booking].expiresAt
         && cfg.lowBattery <= db.scooters[db.bookings[op.booking].scooter].battery then
        && out == RideStarted(db.nextRide, true)
        && after.rides == db.rides[db.nextRide :=
             Ride(op.user, db.bookings[op.booking].scooter, op.booking, Active, op.now, None, None, None, None,
                  cfg.rideRate, cfg.pauseRate, None, [Segment(db.nextSegment, RideKind, op.now, None, None, None)])]
        && after.bookings == db.bookings[op.booking := db.bookings[op.booking].(status := Used)]
        && after.emails == db.emails
      else after == db && !(out.RideStarted? && out.created)
  {
    Usable(db);
    StepKeeps(cfg, db, op);
    assert Meets(db, IdsC);
    if ActiveBooking(db, op.booking) {
      ActiveBookingIsReady(db, op.booking);
    }
  }

  /** Why a start did not begin a ride. */
  lemma StartRefuses(cfg: Config, db: Db, op: Op)
    requires Consistent(db) && op.Start?
    ensures ForeignKeys(db) && OpenSegments(db)
    ensures var out := Step(cfg, db, op).1;
      var known, b := op.booking in db.bookings, op.booking;
      && (out == Refused(BookingNotFound) <==> !known)
      && (out == Refused(NotYourBooking) <==> known && db.bookings[b].user != op.user)
      && (known && db.bookings[b].user == op.user ==>
            && (out == Refused(BookingNotActive) <==>
                  db.bookings[b].status == Cancelled || db.bookings[b].status == Expired
                  || (db.bookings[b].status == Holding && db.bookings[b].expiresAt <= op.now))
            && (out == Refused(ScooterBatteryLow) <==>
                  db.bookings[b].status == Holding && op.now < db.bookings[b].expiresAt
                  && db.scooters[db.bookings[b].scooter].battery < cfg.lowBattery)
            && (out == Refused(BookingUsed) <==> exists r :: RideFrom(db, r, b) && db.rides[r].status == Finished)
            && (forall r :: out == RideStarted(r, false) <==> RideFrom(db, r, b) && db.rides[r].status != Finished))
  {
    Usable(db);
    Unfold(db);
    if op.booking in db.bookings && db.bookings[op.booking].user == op.user {
      if db.bookings[op.booking].status == Used {
        StartFromUsed(cfg, db, op);
      } else {
        NoRideFrom(db, op.booking);
        if db.bookings[op.booking].status == Holding {
          ActiveBookingIsReady(db, op.booking);
        }
        StartAnswers(cfg, db, op);
      }
    }
  }

  lemma StartFromUsed(cfg: Config, db: Db, op: Op)
    requires LineageOk(db) && RideIndexes(db) && ForeignKeys(db) && OpenSegments(db) && op.Start?
    requires op.booking in db.bookings && db.bookings[op.booking].user == op.user
    requires db.bookings[op.booking].status == Used
    ensures var out := Step(cfg, db, op).1;
      && out != Refused(BookingNotActive) && out != Refused(ScooterBatteryLow)
      && (out == Refused(BookingUsed) <==> exists r :: RideFrom(db, r, op.booking) && db.rides[r].status == Finished)
      && (forall r :: out == RideStarted(r, false) <==> RideFrom(db, r, op.booking) && db.rides[r].status != Finished)
  {
    var r :| RideFrom(db, r, op.booking);
    OnlyRideFrom(db, r, op.booking);
    assert forall q :: RideFrom(db, q, op.booking) ==> q == r;
  }

  lemma NoRideFrom(db: Db, b: nat)
    requires LineageOk(db) && b in db.bookings && db.bookings[b].status != Used
    ensures forall r :: !RideFrom(db, r, b)
  {
    forall r ensures !RideFrom(db, r, b) {
      assert r in db.rides ==> CameFrom(db.rides[r], db.bookings);
    }
  }

  /** A close at `now` is never before what it closes. */
  function NotBefore(now: int, start: int): int { if now < start then start else now }

  /** The last stretch of the ride ended at the clock of the call, and nothing before it changed. */
  predicate LastStretchEnded(was: Ride, row: Ride, now: int) {
    var n := |was.segments| - 1;
    && 0 <= n < |row.segments| && row.segments[..n] == was.segments[..n]
    && row.segments[n] == was.segments[n].(endedAt := Some(NotBefore(now, was.segments[n].startedAt)),
                                           seconds := row.segments[n].seconds, cost := row.segments[n].cost)
  }

  /** The row paused or resumed at `now`: the open stretch ends there and one of the other kind begins. */
  predicate SwitchedTo(was: Ride, row: Ride, status: RideStatus, now: int, id: nat) {
    && LastStretchEnded(was, row, now) && |row.segments| == |was.segments| + 1
    && row.segments[|was.segments|]
       == Segment(id, if status == Paused then PauseKind else RideKind,
                  NotBefore(now, was.segments[|was.segments| - 1].startedAt), None, None, None)
    && row == was.(status := status, segments := row.segments)
  }

  /** The row ended at `now`, for that reason. */
  predicate EndedAs(was: Ride, row: Ride, now: int, reason: FinishReason) {
    && LastStretchEnded(was, row, now) && |row.segments| == |was.segments|
    && row == was.(status := Finished, segments := row.segments, receipt := row.receipt,
                   finishedAt := Some(NotBefore(now, was.segments[|was.segments| - 1].startedAt)),
                   finishReason := Some(reason),
                   finishBattery := row.finishBattery, finishThreshold := row.finishThreshold)
  }

  /** The scooter stands in a zone where rides may end. */
  ghost predicate InsideSome(zones: seq<seq<Point>>, p: Point) { exists zone :: zone in zones && InPolygon(p, zone) }

  /** What a call makes of a ride: only its user's calls pause, resume or finish it, the last inside
      a zone alone, and besides only a report of too low a charge from its scooter ends it. */
  ghost predicate RideRow(cfg: Config, db: Db, op: Op, r: nat, row: Ride)
    requires ForeignKeys(db) && r in db.rides
  {
    var was := db.rides[r];
    if was.status == Finished then row == was
    else if op.Pause? && op.ride == r && op.user == was.user && was.status == Active then
      SwitchedTo(was, row, Paused, op.now, db.nextSegment)
    else if op.Resume? && op.ride == r && op.user == was.user && was.status == Paused then
      SwitchedTo(was, row, Active, op.now, db.nextSegment)
    else if op.Finish? && op.ride == r && op.user == was.user
            && InsideSome(cfg.zones, db.scooters[was.scooter].position) then
      EndedAs(was, row, op.now, ByUser) && row.finishBattery == was.finishBattery
      && row.finishThreshold == was.finishThreshold
    else if op.Telemetry? && op.scooter == was.scooter && op.battery < cfg.autoFinishBattery then
      EndedAs(was, row, op.now, ByBattery) && row.finishBattery == Some(op.battery)
      && row.finishThreshold == Some(cfg.autoFinishBattery)
    else row == was
  }

  lemma InServiceMeans(zones: seq<seq<Point>>, p: Point)
    ensures InService(zones, p) <==> InsideSome(zones, p)
  {
    if zone :| zone in zones && InPolygon(p, zone) {
      var z :| 0 <= z < |zones| && zones[z] == zone;
    }
  }

  /** Finishing is refused for the place exactly where no zone holds the scooter. */
  lemma FinishAnswers(cfg: Config, db: Db, op: Op)
    requires Consistent(db) && op.Finish?
    ensures ForeignKeys(db) && OpenSegments(db)
    ensures var (after, out) := Step(cfg, db, op);
      var known := op.ride in db.rides;
      && (out == Refused(RideNotFound) <==> !known)
      && (out == Refused(NotYourRide) <==> known && db.rides[op.ride].user != op.user)
      && (known && db.rides[op.ride].user == op.user ==>
            if db.rides[op.ride].status == Finished then
              out.RideDone? && out.ride == op.ride && !out.finishedNow && after.rides == db.rides
            else if forall zone :: zone in cfg.zones ==>
                      !InPolygon(db.scooters[db.rides[op.ride].scooter].position, zone) then
              out == Refused(OutsideServiceZone)
            else
              out.RideDone? && out.ride == op.ride && out.finishedNow && after.rides[op.ride].status == Finished)
      && (out.Refused? ==> after == db)
  {
    Usable(db);
    if op.ride in db.rides {
      InServiceMeans(cfg.zones, db.scooters[db.rides[op.ride].scooter].position);
    }
  }

  /** Outside a box that holds all vertices of all zones nobody can finish. */
  lemma FarFromAllZones(cfg: Config, db: Db, op: Op, box: Box)
    requires Consistent(db) && op.Finish? && Unfinished(db, op.ride) && op.user == db.rides[op.ride].user
    requires forall zone, v :: zone in cfg.zones && v in zone ==> InBox(v, box)
    ensures ForeignKeys(db) && OpenSegments(db)
    ensures !InBox(db.scooters[db.rides[op.ride].scooter].position, box) ==>
      Step(cfg, db, op) == (db, Refused(OutsideServiceZone))
  {
    FinishAnswers(cfg, db, op);
    var p := db.scooters[db.rides[op.ride].scooter].position;
    if !InBox(p, box) {
      forall zone | zone in cfg.zones ensures !InPolygon(p, zone) {
        if InPolygon(p, zone) {
          InsideMeansInBox(p, zone, box);
        }
      }
    }
  }

  /** A report ends a ride exactly where its charge is below the threshold and a ride is on the
      scooter; otherwise a known scooter's report is recorded, and changes no ride. */
  lemma TelemetryAnswers(cfg: Config, db: Db, op: Op)
    requires Consistent(db) && op.Telemetry?
    ensures ForeignKeys(db) && OpenSegments(db)
    ensures var (after, out) := Step(cfg, db, op);
      && (forall r :: out.RideDone? && out.ride == r <==>
                        RideOn(db, r, op.scooter) && op.battery < cfg.autoFinishBattery)
      && (out.RideDone? ==> out.finishedNow)
      && (!out.RideDone? ==>
            && out == (if op.scooter in db.scooters then Recorded(op.scooter) else Refused(ScooterNotFound))
            && after == db.(scooters := after.scooters))
  {
    Usable(db);
    assert Meets(db, RidesC);
    if r :| RideOn(db, r, op.scooter) {
      OnlyRideOn(db, r, op.scooter);
    }
  }

  /** In every consistent state, what any call makes of any ride, and that only a start begins one. */
  lemma RideAnswers(cfg: Config, db: Db, op: Op)
    requires Consistent(db)
    ensures ForeignKeys(db) && OpenSegments(db)
    ensures var after := Step(cfg, db, op).0;
      && (forall r | r in db.rides :: r in after.rides && RideRow(cfg, db, op, r, after.rides[r]))
      && (forall r | r in after.rides && r !in db.rides :: op.Start? && r == db.nextRide)
  {
    Usable(db);
    match op
    case Create(_, _, _, _) => CreateAnswers(cfg, db, op);
    case Cancel(_, _, _) => CancelAnswers(cfg, db, op);
    case Start(_, _, _) => StartAnswers(cfg, db, op);
    case Pause(_, _, _) => SwitchRides(cfg, db, op);
    case Resume(_, _, _) => SwitchRides(cfg, db, op);
    case Finish(_, _, _, _) => FinishRides(cfg, db, op);
    case Telemetry(_, _, _, _, _) => TelemetryRides(cfg, db, op);
    case _ => QuietRides(cfg, db, op);
  }

  lemma QuietRides(cfg: Config, db: Db, op: Op)
    requires ForeignKeys(db) && OpenSegments(db) && (op.Expire? || op.Warn? || op.Sweep? || op.Report?)
    ensures Step(cfg, db, op).0.rides == db.rides
  {}

  lemma SwitchRides(cfg: Config, db: Db, op: Op)
    requires ForeignKeys(db) && OpenSegments(db) && (op.Pause? || op.Resume?)
    ensures var after := Step(cfg, db, op).0;
      && after.rides.Keys == db.rides.Keys
      && forall r | r in db.rides :: RideRow(cfg, db, op, r, after.rides[r])
  {
    if Unfinished(db, op.ride) {
      var was, status := db.rides[op.ride], if op.Pause? then Paused else Active;
      SwitchedIs(was, status, op.now, db.nextSegment);
    }
  }

  lemma SwitchedIs(was: Ride, status: RideStatus, now: int, id: nat)
    requires HasOpenSegment(was)
    ensures SwitchedTo(was, Switched(was, status, now, id), status, now, id)
  {}

  lemma SettledIs(was: Ride, now: int, reason: FinishReason)
    requires HasOpenSegment(was)
    ensures EndedAs(was, Settled(was, now, reason), now, reason)
  {}

  lemma FinishRewrites(cfg: Config, db: Db, op: Op)
    requires ForeignKeys(db) && OpenSegments(db) && op.Finish?
    ensures Step(cfg, db, op).0.rides ==
      if Unfinished(db, op.ride) && db.rides[op.ride].user == op.user
         && InService(cfg.zones, db.scooters[db.rides[op.ride].scooter].position)
      then db.rides[op.ride := Settled(db.rides[op.ride], op.now, ByUser)] else db.rides
  {}

  lemma FinishRides(cfg: Config, db: Db, op: Op)
    requires ForeignKeys(db) && OpenSegments(db) && op.Finish?
    ensures var after := Step(cfg, db, op).0;
      && after.rides.Keys == db.rides.Keys
      && forall r | r in db.rides :: RideRow(cfg, db, op, r, after.rides[r])
  {
    FinishRewrites(cfg, db, op);
    if Unfinished(db, op.ride) {
      InServiceMeans(cfg.zones, db.scooters[db.rides[op.ride].scooter].position);
      SettledIs(db.rides[op.ride], op.now, ByUser);
    }
  }

  lemma TelemetryRewrites(cfg: Config, db: Db, op: Op, r: nat)
    requires ForeignKeys(db) && OpenSegments(db) && RideIndexes(db) && op.Telemetry?
    requires RideOn(db, r, op.scooter) && op.battery < cfg.autoFinishBattery
    ensures Step(cfg, db, op).0.rides ==
      db.rides[r := Settled(Marked(db.rides[r], op.battery, cfg.autoFinishBattery), op.now, ByBattery)]
  {
    OnlyRideOn(db, r, op.scooter);
  }

  lemma EndedMarked(was: Ride, row: Ride, battery: int, threshold: int, now: int)
    requires HasOpenSegment(was) && row == Settled(Marked(was, battery, threshold), now, ByBattery)
    ensures EndedAs(was, row, now, ByBattery)
    ensures row.finishBattery == Some(battery) && row.finishThreshold == Some(threshold)
  {}

  ghost predicate RideRows(cfg: Config, db: Db, op: Op, rides: map<nat, Ride>)
    requires ForeignKeys(db)
  {
    rides.Keys == db.rides.Keys && forall r | r in db.rides :: RideRow(cfg, db, op, r, rides[r])
  }

  lemma EndingRides(cfg: Config, db: Db, op: Op, r: nat, row: Ride)
    requires ForeignKeys(db) && RideIndexes(db) && op.Telemetry? && RideOn(db, r, op.scooter)
    requires op.battery < cfg.autoFinishBattery && EndedAs(db.rides[r], row, op.now, ByBattery)
    requires row.finishBattery == Some(op.battery) && row.finishThreshold == Some(cfg.autoFinishBattery)
    ensures RideRows(cfg, db, op, db.rides[r := row])
  {}

  lemma KeptRides(cfg: Config, db: Db, op: Op)
    requires ForeignKeys(db) && op.Telemetry?
    requires op.battery < cfg.autoFinishBattery ==> forall r :: !RideOn(db, r, op.scooter)
    ensures RideRows(cfg, db, op, db.rides)
  {
    forall r | r in db.rides ensures RideRow(cfg, db, op, r, db.rides[r]) {
      assert op.battery < cfg.autoFinishBattery ==> !RideOn(db, r, op.scooter);
    }
  }

  lemma TelemetryRides(cfg: Config, db: Db, op: Op)
    requires Consistent(db) && op.Telemetry?
    ensures ForeignKeys(db) && OpenSegments(db)
    ensures RideRows(cfg, db, op, Step(cfg, db, op).0.rides)
  {
    TelemetryAnswers(cfg, db, op);
    assert Meets(db, RidesC);
    if r :| RideOn(db, r, op.scooter) && op.battery < cfg.autoFinishBattery {
      var row := Settled(Marked(db.rides[r], op.battery, cfg.autoFinishBattery), op.now, ByBattery);
      TelemetryRewrites(cfg, db, op, r);
      EndedMarked(db.rides[r], row, op.battery, cfg.autoFinishBattery, op.now);
      EndingRides(cfg, db, op, r, row);
    } else {
      KeptRides(cfg, db, op);
    }
  }

  /** Pausing and resuming are refused for a ride unknown, of somebody else or finished, and in no
      other case. */
  lemma SwitchAnswers(cfg: Config, db: Db, op: Op)
    requires Consistent(db) && (op.Pause? || op.Resume?)
    ensures ForeignKeys(db) && OpenSegments(db)
    ensures var (after, out) := Step(cfg, db, op);
      var known := op.ride in db.rides;
      && (out == Refused(RideNotFound) <==> !known)
      && (out == Refused(NotYourRide) <==> known && db.rides[op.ride].user != op.user)
      && (out == Refused(RideFinished) <==>
            known && db.rides[op.ride].user == op.user && db.rides[op.ride].status == Finished)
      && (out == RideSwitched(op.ride) <==>
            known && db.rides[op.ride].user == op.user && db.rides[op.ride].status != Finished)
      && (out.Refused? ==> after == db)
  {
    Usable(db);
  }

  // ----- scooters

  predicate Reported(op: Op, s: nat) { (op.Telemetry? || op.Report?) && op.scooter == s }

  /** What a call makes of a scooter besides holding or letting it go: place and charge are the
      report's and nobody else's, and a scooter reported on or let go is available iff charged; only
      one whose ride a report has just ended is not. */
  predicate ScooterRow(cfg: Config, op: Op, s: nat, was: Scooter, row: Scooter) {
    && row.position == (if Reported(op, s) then op.position else was.position)
    && row.battery == (if Reported(op, s) then op.battery else was.battery)
    && (Free(row.status) ==>
          if Reported(op, s) && !Free(was.status) then row.status == Unavailable
          else if Reported(op, s) || !Free(was.status) then
            row.status == Available <==> row.battery >= cfg.lowBattery
          else row.status == was.status)
  }

  ghost predicate ScooterRows(cfg: Config, db: Db, op: Op, after: Db) {
    && after.scooters.Keys == db.scooters.Keys
    && forall s | s in db.scooters :: ScooterRow(cfg, op, s, db.scooters[s], after.scooters[s])
  }

  lemma BookingScooters(cfg: Config, db: Db, op: Op)
    requires ForeignKeys(db) && OpenSegments(db)
    requires op.Create? || op.Cancel? || op.Expire? || op.Warn? || op.Sweep?
    ensures ScooterRows(cfg, db, op, Step(cfg, db, op).0)
  {}

  lemma StartScooters(cfg: Config, db: Db, op: Op)
    requires ForeignKeys(db) && OpenSegments(db) && op.Start?
    ensures ScooterRows(cfg, db, op, Step(cfg, db, op).0)
  {}

  lemma SwitchScooters(cfg: Config, db: Db, op: Op)
    requires ForeignKeys(db) && OpenSegments(db) && (op.Pause? || op.Resume?)
    ensures ScooterRows(cfg, db, op, Step(cfg, db, op).0)
  {}

  lemma RiddenIsRiding(db: Db, r: nat)
    requires ScootersOk(db) && Unfinished(db, r)
    ensures db.scooters[db.rides[r].scooter].status == Riding
  {
    assert RideOn(db, r, db.rides[r].scooter) && ScooterOk(db, db.rides[r].scooter);
  }

  lemma FinishedScooter(cfg: Config, db: Db, op: Op)
    requires ForeignKeys(db) && OpenSegments(db) && op.Finish? && Unfinished(db, op.ride)
    ensures var after, s := Step(cfg, db, op).0, db.rides[op.ride].scooter;
      || after.scooters == db.scooters
      || after.scooters == db.scooters[s := db.scooters[s].(
           status := ReleaseStatus(db.scooters[s].battery, cfg.lowBattery), paused := false)]
  {}

  lemma FinishedNothing(cfg: Config, db: Db, op: Op)
    requires ForeignKeys(db) && OpenSegments(db) && op.Finish? && !Unfinished(db, op.ride)
    ensures Step(cfg, db, op).0.scooters == db.scooters
  {}

  lemma ReleasedScooter(cfg: Config, db: Db, op: Op, after: Db, s: nat)
    requires op.Finish? && s in db.scooters && db.scooters[s].status == Riding
    requires after.scooters == db.scooters
      || after.scooters == db.scooters[s := db.scooters[s].(
           status := ReleaseStatus(db.scooters[s].battery, cfg.lowBattery), paused := false)]
    ensures ScooterRows(cfg, db, op, after)
  {}

  lemma FinishScooters(cfg: Config, db: Db, op: Op)
    requires ScootersOk(db) && OpenSegments(db) && op.Finish?
    ensures ScooterRows(cfg, db, op, Step(cfg, db, op).0)
  {
    if Unfinished(db, op.ride) {
      RiddenIsRiding(db, op.ride);
      FinishedScooter(cfg, db, op);
      ReleasedScooter(cfg, db, op, Step(cfg, db, op).0, db.rides[op.ride].scooter);
    } else {
      FinishedNothing(cfg, db, op);
    }
  }

  lemma ReportScooters(cfg: Config, db: Db, s: nat, position: Point, battery: int, op: Op)
    requires s in db.scooters && Reported(op, s) && op.position == position && op.battery == battery
    ensures ScooterRows(cfg, db, op, ApplyTelemetry(db, s, position, battery, cfg.lowBattery).0)
  {}

  lemma BatteryScooters(cfg: Config, db: Db, op: Op, r: nat, mailOk: bool)
    requires ForeignKeys(db) && OpenSegments(db) && op.Telemetry? && RideOn(db, r, op.scooter)
    requires db.scooters[op.scooter].status == Riding
    ensures var ended := WithBatteryFinish(db, r, op.position, op.battery, cfg.autoFinishBattery, op.now);
      ScooterRows(cfg, db, op, StoreReceipt(ended, r, mailOk).0)
  {}

  lemma EndingReport(cfg: Config, db: Db, op: Op)
    requires ForeignKeys(db) && OpenSegments(db) && op.Telemetry?
    requires UnfinishedRideOn(db, op.scooter).Some? && op.battery < cfg.autoFinishBattery
    ensures var r := UnfinishedRideOn(db, op.scooter).value;
      && RideOn(db, r, op.scooter)
      && Step(cfg, db, op).0 == StoreReceipt(
           WithBatteryFinish(db, r, op.position, op.battery, cfg.autoFinishBattery, op.now), r, op.mailOk).0
  {}

  lemma PlainReport(cfg: Config, db: Db, op: Op)
    requires ForeignKeys(db) && OpenSegments(db) && (op.Telemetry? || op.Report?)
    requires op.Telemetry? && UnfinishedRideOn(db, op.scooter).Some? ==> op.battery >= cfg.autoFinishBattery
    ensures Step(cfg, db, op).0 == ApplyTelemetry(db, op.scooter, op.position, op.battery, cfg.lowBattery).0
  {}

  lemma TelemetryScooters(cfg: Config, db: Db, op: Op)
    requires ScootersOk(db) && OpenSegments(db) && (op.Telemetry? || op.Report?)
    ensures ScooterRows(cfg, db, op, Step(cfg, db, op).0)
  {
    if op.Telemetry? && UnfinishedRideOn(db, op.scooter).Some? && op.battery < cfg.autoFinishBattery {
      var r := UnfinishedRideOn(db, op.scooter).value;
      EndingReport(cfg, db, op);
      RiddenIsRiding(db, r);
      BatteryScooters(cfg, db, op, r, op.mailOk);
    } else {
      PlainReport(cfg, db, op);
      if op.scooter in db.scooters {
        ReportScooters(cfg, db, op.scooter, op.position, op.battery, op);
      }
    }
  }

  /** In every consistent state, what any call makes of any scooter. */
  lemma ScooterAnswers(cfg: Config, db: Db, op: Op)
    requires Consistent(db)
    ensures ForeignKeys(db) && OpenSegments(db)
    ensures ScooterRows(cfg, db, op, Step(cfg, db, op).0)
  {
    Usable(db);
    assert Meets(db, ScootersC);
    if op.Start? {
      StartScooters(cfg, db, op);
    } else if op.Pause? || op.Resume? {
      SwitchScooters(cfg, db, op);
    } else if op.Finish? {
      FinishScooters(cfg, db, op);
    } else if op.Telemetry? || op.Report? {
      TelemetryScooters(cfg, db, op);
    } else {
      BookingScooters(cfg, db, op);
    }
  }

  // ----- receipts

  /** A call told that a ride is done stores its receipt exactly where none is stored and the insert
      succeeds, and is handed its id exactly then; no other call stores any. */
  lemma MailAnswers(cfg: Config, db: Db, op: Op)
    requires Consistent(db)
    ensures ForeignKeys(db) && OpenSegments(db)
    ensures var (after, out) := Step(cfg, db, op);
      && (out.RideDone? ==> op.Finish? || op.Telemetry?)
      && if out.RideDone? && op.mailOk && out.ride !in db.emails then
           after.emails == db.emails[out.ride := db.nextEmail] && out.email == Some(db.nextEmail)
         else after.emails == db.emails && (out.RideDone? ==> out.email.None?)
  {
    Usable(db);
    match op
    case Finish(_, _, _, _) => FinishMails(cfg, db, op);
    case Telemetry(_, _, _, _, _) => TelemetryMails(cfg, db, op);
    case _ => NoMails(cfg, db, op);
  }

  lemma FinishMails(cfg: Config, db: Db, op: Op)
    requires ForeignKeys(db) && OpenSegments(db) && op.Finish?
    ensures var (after, out) := Step(cfg, db, op);
      if out.RideDone? && op.mailOk && out.ride !in db.emails then
        after.emails == db.emails[out.ride := db.nextEmail] && out.email == Some(db.nextEmail)
      else after.emails == db.emails && (out.RideDone? ==> out.email.None?)
  {}

  lemma TelemetryMails(cfg: Config, db: Db, op: Op)
    requires ForeignKeys(db) && OpenSegments(db) && op.Telemetry?
    ensures var (after, out) := Step(cfg, db, op);
      if out.RideDone? && op.mailOk && out.ride !in db.emails then
        after.emails == db.emails[out.ride := db.nextEmail] && out.email == Some(db.nextEmail)
      else after.emails == db.emails && (out.RideDone? ==> out.email.None?)
  {}

  lemma NoMails(cfg: Config, db: Db, op: Op)
    requires ForeignKeys(db) && OpenSegments(db) && !op.Finish? && !op.Telemetry?
    ensures Step(cfg, db, op).0.emails == db.emails && !Step(cfg, db, op).1.RideDone?
  {
    match op
    case Pause(_, _, _) => SwitchMails(cfg, db, op);
    case Resume(_, _, _) => SwitchMails(cfg, db, op);
    case _ =>
  }

  lemma SwitchMails(cfg: Config, db: Db, op: Op)
    requires ForeignKeys(db) && OpenSegments(db) && (op.Pause? || op.Resume?)
    ensures Step(cfg, db, op).0.emails == db.emails && !Step(cfg, db, op).1.RideDone?
  {}
}
