/** What callers are told, counted over whole runs: a ride ends once and is mailed once. */
module Outcomes {
  import opened Options
  import opened Timeline
  import opened Geo
  import opened Tables
  import opened Services
  import opened Consistency
  import opened History

  predicate Done(db: Db, r: nat) { r in db.rides && db.rides[r].status == Finished }

  predicate EndsRide(out: Outcome, r: nat) { out.RideDone? && out.ride == r && out.finishedNow }

  predicate MailsReceipt(out: Outcome, r: nat) { out.RideDone? && out.ride == r && out.email.Some? }

  /** A ride row only grows: identity, start and tariff stay, closed segments are never
      rewritten, and a finished row does not change at all. */
  ghost predicate RideKept(before: Ride, after: Ride) {
    && after.user == before.user && after.scooter == before.scooter && after.booking == before.booking
    && after.startedAt == before.startedAt
    && after.rideRate == before.rideRate && after.pauseRate == before.pauseRate
    && |before.segments| <= |after.segments|
    && (before.segments != [] ==> before.segments[..|before.segments| - 1] <= after.segments)
    && (before.status == Finished ==> after == before)
  }

  ghost predicate RidesKept(db: Db, after: Db) {
    forall r :: r in db.rides ==> r in after.rides && RideKept(db.rides[r], after.rides[r])
  }

  ghost predicate MailKept(db: Db, after: Db) {
    forall r :: r in db.emails ==> r in after.emails && after.emails[r] == db.emails[r]
  }

  /** The outcome says exactly what happened to rides and mail. */
  ghost predicate Told(db: Db, after: Db, out: Outcome) {
    && RidesKept(db, after) && MailKept(db, after)
    && (forall r :: EndsRide(out, r) <==> Done(after, r) && !Done(db, r))
    && (forall r :: MailsReceipt(out, r) <==> r in after.emails && r !in db.emails)
  }

  lemma SwitchTold(db: Db, user: nat, r: nat, status: RideStatus, now: int)
    requires ForeignKeys(db) && OpenSegments(db) && status != Finished
    ensures var (after, out) := SwitchRide(db, user, r, status, now); Told(db, after, out)
  {
    var (after, out) := SwitchRide(db, user, r, status, now);
    if out.RideSwitched? && after != db {
      SwitchedIsKept(db.rides[r], status, now, db.nextSegment);
      OneRideTold(db, after, r, out);
    }
  }

  lemma SwitchedIsKept(ride: Ride, status: RideStatus, now: int, segmentId: nat)
    requires HasOpenSegment(ride) && ride.status != Finished
    ensures RideKept(ride, Switched(ride, status, now, segmentId))
  {}

  /** One ride rewritten, none ended and nothing mailed. */
  lemma OneRideTold(db: Db, after: Db, r: nat, out: Outcome)
    requires r in db.rides && r in after.rides && after.rides == db.rides[r := after.rides[r]]
    requires RideKept(db.rides[r], after.rides[r])
    requires after.rides[r].status != Finished && after.emails == db.emails && !out.RideDone?
    ensures Told(db, after, out)
  {
    forall q | q in db.rides ensures q in after.rides && RideKept(db.rides[q], after.rides[q]) {}
  }

  /** A ride settled and its receipt stored, or not. */
  lemma SettleTold(db: Db, settled: Db, r: nat, mailOk: bool)
    requires LetGo(db, settled, r) && MailOk(db)
    requires RideKept(db.rides[r], settled.rides[r])
    ensures var (after, email) := StoreReceipt(settled, r, mailOk);
      Told(db, after, RideDone(r, true, email))
  {
    assert r !in db.emails;
    forall q | q in db.rides ensures RideKept(db.rides[q], settled.rides[q]) {}
  }

  lemma SettledIsKept(ride: Ride, settled: Ride, now: int, reason: FinishReason)
    requires HasOpenSegment(ride) && ride.status != Finished
    requires settled == Settled(ride, now, reason)
    ensures RideKept(ride, settled)
  {}

  lemma RepeatTold(cfg: Config, db: Db, user: nat, r: nat, now: int, mailOk: bool)
    requires ForeignKeys(db) && OpenSegments(db) && !Unfinished(db, r)
    ensures var (after, out) := FinishRide(db, user, r, cfg.zones, cfg.lowBattery, now, mailOk);
      Told(db, after, out)
  {}

  lemma FinishTold(cfg: Config, db: Db, user: nat, r: nat, now: int, mailOk: bool)
    requires ForeignKeys(db) && OpenSegments(db) && MailOk(db)
    ensures var (after, out) := FinishRide(db, user, r, cfg.zones, cfg.lowBattery, now, mailOk);
      Told(db, after, out)
  {
    if !Unfinished(db, r) {
      RepeatTold(cfg, db, user, r, now, mailOk);
    } else {
      FirstFinishTold(cfg, db, r, now, mailOk);
    }
  }

  lemma FirstFinishTold(cfg: Config, db: Db, r: nat, now: int, mailOk: bool)
    requires ForeignKeys(db) && OpenSegments(db) && MailOk(db) && Unfinished(db, r)
    ensures var scooter := db.scooters[db.rides[r].scooter];
      var settled := WithSettled(db, r, now, ByUser, scooter, ReleaseStatus(scooter.battery, cfg.lowBattery));
      var (after, email) := StoreReceipt(settled, r, mailOk);
      Told(db, after, RideDone(r, true, email))
  {
    var scooter := db.scooters[db.rides[r].scooter];
    var release := ReleaseStatus(scooter.battery, cfg.lowBattery);
    WithSettledShape(db, r, now, ByUser, scooter, release);
    SettledIsKept(db.rides[r], Settled(db.rides[r], now, ByUser), now, ByUser);
    SettleTold(db, WithSettled(db, r, now, ByUser, scooter, release), r, mailOk);
  }

  lemma TelemetryTold(cfg: Config, db: Db, s: nat, position: Point, battery: int, now: int, mailOk: bool)
    requires ForeignKeys(db) && OpenSegments(db) && MailOk(db)
    ensures var (after, out) :=
        RecordTelemetry(db, s, position, battery, cfg.lowBattery, cfg.autoFinishBattery, now, mailOk);
      Told(db, after, out)
  {
    var riding := UnfinishedRideOn(db, s);
    if battery < cfg.autoFinishBattery && riding.Some? {
      var r := riding.value;
      var marked := Marked(db.rides[r], battery, cfg.autoFinishBattery);
      WithBatteryFinishShape(db, r, position, battery, cfg.autoFinishBattery, now);
      SettledIsKept(marked, Settled(marked, now, ByBattery), now, ByBattery);
      SettleTold(db, WithBatteryFinish(db, r, position, battery, cfg.autoFinishBattery, now), r, mailOk);
    }
  }

  lemma StartTold(cfg: Config, db: Db, user: nat, b: nat, now: int)
    requires ForeignKeys(db) && IdsOk(db)
    ensures var (after, out) := StartRide(db, user, b, cfg.rideRate, cfg.pauseRate, now, cfg.lowBattery);
      Told(db, after, out)
  {}

  lemma QuietTold(db: Db, after: Db, out: Outcome)
    requires after.rides == db.rides && after.emails == db.emails && !out.RideDone?
    ensures Told(db, after, out)
  {}

  lemma OtherTold(cfg: Config, db: Db, op: Op)
    requires ForeignKeys(db) && OpenSegments(db)
    requires op.Create? || op.Cancel? || op.Expire? || op.Warn? || op.Sweep? || op.Report?
    ensures Told(db, Step(cfg, db, op).0, Step(cfg, db, op).1)
  {
    QuietTold(db, Step(cfg, db, op).0, Step(cfg, db, op).1);
  }

  lemma StepTold(cfg: Config, db: Db, op: Op)
    requires Consistent(db)
    ensures ForeignKeys(db) && OpenSegments(db)
    ensures Told(db, Step(cfg, db, op).0, Step(cfg, db, op).1)
  {
    Usable(db);
    assert Meets(db, IdsC) && Meets(db, MailC);
    match op
    case Start(user, b, now) => StartTold(cfg, db, user, b, now);
    case Pause(user, r, now) => SwitchTold(db, user, r, Paused, now);
    case Resume(user, r, now) => SwitchTold(db, user, r, Active, now);
    case Finish(user, r, now, mailOk) => FinishTold(cfg, db, user, r, now, mailOk);
    case Telemetry(s, position, battery, now, mailOk) => TelemetryTold(cfg, db, s, position, battery, now, mailOk);
    case _ => OtherTold(cfg, db, op);
  }

  // ----- counted over runs

  ghost function CountEnds(cfg: Config, db: Db, ops: seq<Op>, r: nat): nat
    requires Consistent(db)
    decreases |ops|
  {
    if ops == [] then 0
    else
      StepKeeps(cfg, db, ops[0]);
      var (after, out) := Step(cfg, db, ops[0]);
      (if EndsRide(out, r) then 1 else 0) + CountEnds(cfg, after, ops[1..], r)
  }

  ghost function CountMails(cfg: Config, db: Db, ops: seq<Op>, r: nat): nat
    requires Consistent(db)
    decreases |ops|
  {
    if ops == [] then 0
    else
      StepKeeps(cfg, db, ops[0]);
      var (after, out) := Step(cfg, db, ops[0]);
      (if MailsReceipt(out, r) then 1 else 0) + CountMails(cfg, after, ops[1..], r)
  }

  function EndsAmong(outs: seq<Outcome>, r: nat): nat {
    if outs == [] then 0 else (if EndsRide(outs[0], r) then 1 else 0) + EndsAmong(outs[1..], r)
  }

  function MailsAmong(outs: seq<Outcome>, r: nat): nat {
    if outs == [] then 0 else (if MailsReceipt(outs[0], r) then 1 else 0) + MailsAmong(outs[1..], r)
  }

  /** Counting over a run is counting what its callers are told. */
  lemma {:induction false} CountsAreReplies(cfg: Config, db: Db, ops: seq<Op>, r: nat)
    requires Consistent(db)
    ensures EndsAmong(Replies(cfg, db, ops), r) == CountEnds(cfg, db, ops, r)
    ensures MailsAmong(Replies(cfg, db, ops), r) == CountMails(cfg, db, ops, r)
    decreases |ops|
  {
    if ops != [] {
      StepKeeps(cfg, db, ops[0]);
      var (after, out) := Step(cfg, db, ops[0]);
      CountsAreReplies(cfg, after, ops[1..], r);
      assert Replies(cfg, db, ops) == [out] + Replies(cfg, after, ops[1..]);
      assert Replies(cfg, db, ops)[1..] == Replies(cfg, after, ops[1..]);
    }
  }

  ghost predicate Tally(cfg: Config, db: Db, ops: seq<Op>, r: nat)
    requires Consistent(db)
  {
    var end := Run(cfg, db, ops);
    && CountEnds(cfg, db, ops, r) + (if Done(db, r) then 1 else 0) == (if Done(end, r) then 1 else 0)
    && CountMails(cfg, db, ops, r) + (if r in db.emails then 1 else 0) == (if r in end.emails then 1 else 0)
  }

  lemma TallyStep(cfg: Config, db: Db, ops: seq<Op>, r: nat, after: Db)
    requires Consistent(db) && ops != [] && Consistent(after)
    requires ForeignKeys(db) && OpenSegments(db) && after == Step(cfg, db, ops[0]).0
    requires Told(db, after, Step(cfg, db, ops[0]).1) && Tally(cfg, after, ops[1..], r)
    ensures Tally(cfg, db, ops, r)
  {
    assert Done(db, r) ==> RideKept(db.rides[r], after.rides[r]);
  }

  /** Over any run, whatever fails to insert and whenever: the calls told that they ended a ride
      are as many as its transitions to finished, at most one, and the calls handed its receipt's
      id are as many as the messages stored, at most one. Finished rows and messages stand. */
  lemma {:induction false} EndedOnceMailedOnce(cfg: Config, db: Db, ops: seq<Op>, r: nat)
    requires Consistent(db)
    ensures var end := Run(cfg, db, ops);
      && RidesKept(db, end) && MailKept(db, end)
      && CountEnds(cfg, db, ops, r) + (if Done(db, r) then 1 else 0) == (if Done(end, r) then 1 else 0)
      && CountMails(cfg, db, ops, r) + (if r in db.emails then 1 else 0) == (if r in end.emails then 1 else 0)
      && (r in end.emails ==> Done(end, r))
    decreases |ops|
  {
    if ops == [] {
      assert Meets(db, MailC);
    } else {
      StepKeeps(cfg, db, ops[0]);
      StepTold(cfg, db, ops[0]);
      var after := Step(cfg, db, ops[0]).0;
      EndedOnceMailedOnce(cfg, after, ops[1..], r);
      TallyStep(cfg, db, ops, r, after);
      KeptTwice(db, after, Run(cfg, after, ops[1..]));
    }
  }

  lemma KeptTwice(db: Db, mid: Db, end: Db)
    requires RidesKept(db, mid) && RidesKept(mid, end) && MailKept(db, mid) && MailKept(mid, end)
    ensures RidesKept(db, end) && MailKept(db, end)
  {
    forall r | r in db.rides ensures r in end.rides && RideKept(db.rides[r], end.rides[r]) {
      RowKeptTwice(db.rides[r], mid.rides[r], end.rides[r]);
    }
  }

  lemma RowKeptTwice(a: Ride, b: Ride, c: Ride)
    requires RideKept(a, b) && RideKept(b, c)
    ensures RideKept(a, c)
  {
    if a.segments != [] {
      var n := |a.segments| - 1;
      assert c.segments[..n] == c.segments[..|b.segments| - 1][..n] == b.segments[..|b.segments| - 1][..n] == b.segments[..n];
    }
  }
}
