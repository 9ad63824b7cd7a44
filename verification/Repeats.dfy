/** The call that ends a ride decides it, and doing anything twice does no harm. */
module Repeats {
  import opened Options
  import opened Timeline
  import opened Geo
  import opened Tables
  import opened Services
  import opened Consistency
  import opened History
  import opened Outcomes

  /** The row a call leaves behind when it ends a ride. */
  function EndedBy(cfg: Config, ride: Ride, op: Op): Ride
    requires op.Finish? || op.Telemetry?
    requires HasOpenSegment(ride)
  {
    if op.Finish? then Settled(ride, op.now, ByUser)
    else Settled(Marked(ride, op.battery, cfg.autoFinishBattery), op.now, ByBattery)
  }

  lemma EndingRow(cfg: Config, db: Db, op: Op, r: nat)
    requires ForeignKeys(db) && OpenSegments(db) && EndsRide(Step(cfg, db, op).1, r)
    ensures op.Finish? || op.Telemetry?
    ensures Unfinished(db, r) && Done(Step(cfg, db, op).0, r)
    ensures Step(cfg, db, op).0.rides[r] == EndedBy(cfg, db.rides[r], op)
    ensures op.Finish? ==>
      exists zone :: zone in cfg.zones && InPolygon(db.scooters[db.rides[r].scooter].position, zone)
    ensures op.Telemetry? ==> op.battery < cfg.autoFinishBattery && db.rides[r].scooter == op.scooter
  {}

  /** Whichever call ends a ride, its clock, its reason and its receipt are what stays, however
      many calls follow, and none of them ends the ride again. A rider's call did so inside a
      service zone, a report because its charge was below the threshold. */
  lemma EndingCallDecides(cfg: Config, db: Db, op: Op, later: seq<Op>, r: nat)
    requires Consistent(db)
    ensures ForeignKeys(db) && OpenSegments(db) && Consistent(Step(cfg, db, op).0)
    ensures var (after, out) := Step(cfg, db, op);
      EndsRide(out, r) ==>
        && (op.Finish? || op.Telemetry?) && Unfinished(db, r)
        && (op.Finish? ==>
              exists zone :: zone in cfg.zones && InPolygon(db.scooters[db.rides[r].scooter].position, zone))
        && (op.Telemetry? ==> op.battery < cfg.autoFinishBattery && db.rides[r].scooter == op.scooter)
        && r in Run(cfg, after, later).rides
        && Run(cfg, after, later).rides[r] == EndedBy(cfg, db.rides[r], op)
        && CountEnds(cfg, after, later, r) == 0
  {
    StepKeeps(cfg, db, op);
    var (after, out) := Step(cfg, db, op);
    if EndsRide(out, r) {
      EndingRow(cfg, db, op, r);
      EndedOnceMailedOnce(cfg, after, later, r);
    }
  }

  /** Behind every finished ride stands one call of the run, and the row is as it left it. */
  lemma {:induction false} SomeCallEnded(cfg: Config, db: Db, ops: seq<Op>, r: nat) returns (i: nat, before: Db)
    requires Consistent(db) && !Done(db, r) && Done(Run(cfg, db, ops), r)
    ensures i < |ops| && before == Run(cfg, db, ops[..i])
    ensures ForeignKeys(before) && OpenSegments(before)
    ensures EndsRide(Step(cfg, before, ops[i]).1, r) && (ops[i].Finish? || ops[i].Telemetry?)
    ensures Unfinished(before, r) && Run(cfg, db, ops).rides[r] == EndedBy(cfg, before.rides[r], ops[i])
    decreases |ops|
  {
    StepKeeps(cfg, db, ops[0]);
    StepTold(cfg, db, ops[0]);
    var after := Step(cfg, db, ops[0]).0;
    if Done(after, r) {
      i, before := 0, db;
      EndingCallDecides(cfg, db, ops[0], ops[1..], r);
    } else {
      var j, mid := SomeCallEnded(cfg, after, ops[1..], r);
      i, before := j + 1, mid;
      assert ops[..i][1..] == ops[1..][..j];
    }
  }

  // ----- repeats

  /** Pausing a paused ride, or resuming one that goes on, changes nothing. */
  lemma SwitchTwice(db: Db, user: nat, r: nat, status: RideStatus, now: int, again: int)
    requires Consistent(db) && status != Finished
    ensures ForeignKeys(db) && OpenSegments(db)
    ensures var (after, out) := SwitchRide(db, user, r, status, now);
      && ForeignKeys(after) && OpenSegments(after)
      && (out.RideSwitched? ==> SwitchRide(after, user, r, status, again) == (after, out))
  {
    SwitchKeeps(db, user, r, status, now);
    Usable(SwitchRide(db, user, r, status, now).0);
  }

  /** Finishing a finished ride can only store a receipt that is still missing, and does so
      whenever the insert succeeds; with the receipt in place it changes nothing. */
  lemma FinishTwice(cfg: Config, db: Db, user: nat, r: nat, now: int, mailOk: bool, again: int, mailOkAgain: bool)
    requires Consistent(db)
    ensures ForeignKeys(db) && OpenSegments(db)
    ensures var (after, out) := FinishRide(db, user, r, cfg.zones, cfg.lowBattery, now, mailOk);
      && ForeignKeys(after) && OpenSegments(after)
      && (out.RideDone? ==>
            var (once, told) := FinishRide(after, user, r, cfg.zones, cfg.lowBattery, again, mailOkAgain);
            && told.RideDone? && !told.finishedNow
            && once == after.(emails := once.emails, nextEmail := once.nextEmail)
            && (r in after.emails ==> once == after && told.email.None?)
            && (mailOkAgain ==> r in once.emails)
            && (mailOkAgain && r !in after.emails ==> told.email == Some(once.emails[r])))
  {
    FinishKeeps(cfg, db, user, r, now, mailOk);
    Usable(FinishRide(db, user, r, cfg.zones, cfg.lowBattery, now, mailOk).0);
    FinishedAfter(cfg, db, user, r, now, mailOk);
  }

  lemma FinishedAfter(cfg: Config, db: Db, user: nat, r: nat, now: int, mailOk: bool)
    requires ForeignKeys(db) && OpenSegments(db)
    ensures var (after, out) := FinishRide(db, user, r, cfg.zones, cfg.lowBattery, now, mailOk);
      out.RideDone? ==> Done(after, r) && after.rides[r].user == user
  {}

  /** Starting from a booking whose ride is under way gives that ride back and changes nothing. */
  lemma StartTwice(cfg: Config, db: Db, user: nat, b: nat, now: int, again: int)
    requires Consistent(db)
    ensures ForeignKeys(db)
    ensures var (after, out) := StartRide(db, user, b, cfg.rideRate, cfg.pauseRate, now, cfg.lowBattery);
      && ForeignKeys(after)
      && (out.RideStarted? ==>
            StartRide(after, user, b, cfg.rideRate, cfg.pauseRate, again, cfg.lowBattery)
            == (after, RideStarted(out.ride, false)))
  {
    StartKeeps(cfg, db, user, b, now);
    var (after, out) := StartRide(db, user, b, cfg.rideRate, cfg.pauseRate, now, cfg.lowBattery);
    Usable(db);
    Usable(after);
    if out.RideStarted? {
      assert Meets(after, RidesC);
      StartedRide(cfg, db, user, b, now);
      assert RideFrom(after, out.ride, b);
    }
  }

  lemma StartedRide(cfg: Config, db: Db, user: nat, b: nat, now: int)
    requires ForeignKeys(db)
    ensures var (after, out) := StartRide(db, user, b, cfg.rideRate, cfg.pauseRate, now, cfg.lowBattery);
      out.RideStarted? ==>
        && b in after.bookings && after.bookings[b].status == Used && after.bookings[b].user == user
        && RideFrom(after, out.ride, b) && Unfinished(after, out.ride)
  {}

  // ----- charge and status

  /** A free scooter is available iff its charge reaches the low threshold; with every report one
      step, a scooter being ridden is never below the auto-finish threshold. */
  predicate ChargeOk(cfg: Config, scooter: Scooter, oneStep: bool) {
    && (Free(scooter.status) ==> (scooter.status == Available <==> scooter.battery >= cfg.lowBattery))
    && (oneStep && scooter.status == Riding ==> scooter.battery >= cfg.autoFinishBattery)
  }

  ghost predicate Charged(cfg: Config, db: Db, oneStep: bool) {
    forall s :: s in db.scooters ==> ChargeOk(cfg, db.scooters[s], oneStep)
  }

  lemma ReportCharged(cfg: Config, db: Db, oneStep: bool, s: nat, position: Point, battery: int)
    requires Charged(cfg, db, oneStep)
    requires oneStep && s in db.scooters && db.scooters[s].status == Riding ==> battery >= cfg.autoFinishBattery
    ensures Charged(cfg, ApplyTelemetry(db, s, position, battery, cfg.lowBattery).0, oneStep)
  {}

  lemma BatteryFinishCharged(cfg: Config, db: Db, oneStep: bool, r: nat, position: Point, battery: int,
                             now: int, mailOk: bool)
    requires cfg.Accepted() && ForeignKeys(db) && Charged(cfg, db, oneStep)
    requires Unfinished(db, r) && HasOpenSegment(db.rides[r]) && battery < cfg.autoFinishBattery
    ensures var ended := WithBatteryFinish(db, r, position, battery, cfg.autoFinishBattery, now);
      Charged(cfg, StoreReceipt(ended, r, mailOk).0, oneStep)
  {}

  lemma TelemetryCharged(cfg: Config, db: Db, oneStep: bool, s: nat, position: Point, battery: int,
                         now: int, mailOk: bool)
    requires cfg.Accepted() && ScootersOk(db) && OpenSegments(db) && Charged(cfg, db, oneStep)
    ensures var (after, _) :=
        RecordTelemetry(db, s, position, battery, cfg.lowBattery, cfg.autoFinishBattery, now, mailOk);
      Charged(cfg, after, oneStep)
  {
    var riding := UnfinishedRideOn(db, s);
    if battery < cfg.autoFinishBattery && riding.Some? {
      BatteryFinishCharged(cfg, db, oneStep, riding.value, position, battery, now, mailOk);
    } else {
      assert s in db.scooters ==> ScooterOk(db, s);
      ReportCharged(cfg, db, oneStep, s, position, battery);
    }
  }

  lemma FinishCharged(cfg: Config, db: Db, oneStep: bool, user: nat, r: nat, now: int, mailOk: bool)
    requires cfg.Accepted() && ForeignKeys(db) && OpenSegments(db) && Charged(cfg, db, oneStep)
    ensures Charged(cfg, FinishRide(db, user, r, cfg.zones, cfg.lowBattery, now, mailOk).0, oneStep)
  {}

  lemma StartCharged(cfg: Config, db: Db, oneStep: bool, user: nat, b: nat, now: int)
    requires cfg.Accepted() && ForeignKeys(db) && Charged(cfg, db, oneStep)
    ensures Charged(cfg, StartRide(db, user, b, cfg.rideRate, cfg.pauseRate, now, cfg.lowBattery).0, oneStep)
  {}

  lemma OtherCharged(cfg: Config, db: Db, oneStep: bool, op: Op)
    requires cfg.Accepted() && ForeignKeys(db) && OpenSegments(db) && Charged(cfg, db, oneStep)
    requires !op.Telemetry? && !op.Finish? && !op.Start? && (oneStep ==> !op.Report?)
    ensures Charged(cfg, Step(cfg, db, op).0, oneStep)
  {}

  /** The seeded fleet: parked scooters whose status follows from their charge. */
  ghost predicate Seeded(cfg: Config, db: Db) {
    && Fresh(db)
    && forall s :: s in db.scooters ==>
         db.scooters[s].status == StatusAfterTelemetry(Available, db.scooters[s].battery, cfg.lowBattery)
  }

  lemma {:induction false} ChargedThroughout(cfg: Config, db: Db, oneStep: bool, ops: seq<Op>)
    requires cfg.Accepted() && Consistent(db) && Charged(cfg, db, oneStep)
    requires oneStep ==> forall i :: 0 <= i < |ops| ==> !ops[i].Report?
    ensures Charged(cfg, Run(cfg, db, ops), oneStep)
    decreases |ops|
  {
    if ops != [] {
      var op := ops[0];
      StepKeeps(cfg, db, op);
      assert Meets(db, ScootersC);
      match op {
        case Telemetry(s, position, battery, now, mailOk) =>
          TelemetryCharged(cfg, db, oneStep, s, position, battery, now, mailOk);
        case Finish(user, r, now, mailOk) => FinishCharged(cfg, db, oneStep, user, r, now, mailOk);
        case Start(user, b, now) => StartCharged(cfg, db, oneStep, user, b, now);
        case _ => OtherCharged(cfg, db, oneStep, op);
      }
      ChargedThroughout(cfg, Step(cfg, db, op).0, oneStep, ops[1..]);
    }
  }

  /** From the seeded fleet, in every reachable state: charge and status of a free scooter agree,
      and if no report was split from its look-up no ridden scooter is below the threshold. */
  lemma ChargeAndStatusAgree(cfg: Config, db: Db, ops: seq<Op>)
    requires cfg.Accepted() && Seeded(cfg, db)
    ensures Consistent(db)
    ensures var end := Run(cfg, db, ops);
      && (forall s :: s in end.scooters && Free(end.scooters[s].status) ==>
            (end.scooters[s].status == Available <==> end.scooters[s].battery >= cfg.lowBattery))
      && ((forall i :: 0 <= i < |ops| ==> !ops[i].Report?) ==>
            forall s :: s in end.scooters && end.scooters[s].status == Riding ==>
              end.scooters[s].battery >= cfg.autoFinishBattery)
  {
    FreshIsConsistent(db);
    var oneStep := forall i :: 0 <= i < |ops| ==> !ops[i].Report?;
    ChargedThroughout(cfg, db, oneStep, ops);
    assert forall s :: s in Run(cfg, db, ops).scooters ==> ChargeOk(cfg, Run(cfg, db, ops).scooters[s], oneStep);
  }
}
