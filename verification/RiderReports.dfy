/** The fleet and the backend together: a rider whose scooter reports where it is can always finish
    (simulator/scootersim/fleet.py, backend/app/services/scooters.py and rides.py). */
module RiderReports {
  import opened Tables
  import opened Services
  import opened Consistency
  import opened History
  import opened Outcomes
  import opened Calls
  import opened Provenance
  import Simulation
  import FleetRuns

  /** A report of where the scooter at `i` of the fleet is, and of its rounded charge. */
  predicate ReportsState(op: Op, s: nat, at: Simulation.Scooter) {
    && op.Telemetry? && op.scooter == s
    && op.position == at.position && op.battery == Simulation.BatteryPercent(at.battery)
  }

  /** The last report left its place on the scooter. */
  lemma ReportedPlace(cfg: Config, db: Db, report: Op, later: seq<Op>, s: nat)
    requires Consistent(db) && s in db.scooters && Reported(report, s)
    requires forall j | 0 <= j < |later| :: !Reported(later[j], s)
    ensures var end := Run(cfg, db, [report] + later);
      s in end.scooters && end.scooters[s].position == report.position && end.scooters[s].battery == report.battery
  {
    PlaceIsLastReport(cfg, db, [report] + later, s, 1);
  }

  /** A simulated rider can always finish. The fleet runs on the backend's zones and the user's ride
      has been inside one since `first`; its scooter reported where it was at some later moment of
      that ride, and whatever calls the backend has served since, none was a report from it: then
      the rider's call to finish is never refused, and the ride ends by it unless it has ended. */
  lemma ReportedRiderCanFinish(w: Simulation.World, states: seq<seq<Simulation.Scooter>>, events: seq<FleetRuns.Event>,
                               i: nat, first: nat, last: nat,
                               cfg: Config, db: Db, report: Op, later: seq<Op>, r: nat, now: int, mailOk: bool)
    requires Simulation.Usable(w) && FleetRuns.IsRun(w, states, events)
    requires first <= last < |states| && i < |states[0]|
    requires forall k | first <= k < last :: states[k][i].userRide
    requires Simulation.InSomeZone(w.zones, states[first][i].position)
    requires w.zones == Simulation.FleetZones(cfg.zones) && Simulation.Drawable(cfg.zones) != []
    requires Consistent(db) && Unfinished(db, r)
    requires ReportsState(report, db.rides[r].scooter, states[last][i])
    requires forall j | 0 <= j < |later| :: !Reported(later[j], db.rides[r].scooter)
    ensures var end := Run(cfg, db, [report] + later);
      && ForeignKeys(end) && OpenSegments(end)
      && var (after, out) := FinishRide(end, db.rides[r].user, r, cfg.zones, cfg.lowBattery, now, mailOk);
      && out.RideDone? && out.ride == r && (out.finishedNow <==> Unfinished(end, r))
      && Done(after, r)
  {
    var ops, s := [report] + later, db.rides[r].scooter;
    var end := Run(cfg, db, ops);
    Usable(db);
    Usable(end);
    ReportedPlace(cfg, db, report, later, s);
    EndedOnceMailedOnce(cfg, db, ops, r);
    assert RideKept(db.rides[r], end.rides[r]);
    if Unfinished(end, r) {
      FleetRuns.RiderCanFinish(w, states, events, i, first, last, cfg.zones, end, end.rides[r].user, r,
                               cfg.lowBattery, now, mailOk);
    }
  }
}
