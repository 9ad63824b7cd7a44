/** Whole runs of the simulated fleet: what any sequence of backend statuses and ticks keeps, and
    why a rider can always finish (simulator/scootersim/fleet.py, backend/app/services/rides.py). */
module FleetRuns {
  import opened Geo
  import opened Simulation
  import Services
  import Tables

  /** The scooters that ride for the demo, and those a demo ride may start on. */
  ghost function Demo(v: seq<Scooter>): set<nat> { set i | 0 <= i < |v| && OnDemo(v[i]) }

  predicate CanDepart(c: Config, s: Scooter) {
    s.phase == Idle && !s.parked && !s.userRide && s.battery >= c.minRideBattery as real
  }

  ghost function Eligible(c: Config, v: seq<Scooter>): set<nat> { set i | 0 <= i < |v| && CanDepart(c, v[i]) }

  /** How many demo rides a fleet may have. */
  function Cap(c: Config): nat { if c.activeScooters > 0 then c.activeScooters else 0 }

  function Least(x: int, y: int): int { if x <= y then x else y }

  // ----- steps

  ghost predicate Answers(w: World, s: Scooter, status: ServerStatus, now: real, t: Scooter)
    requires w.zones != []
  {
    exists pick :: DrawnIn(ZoneToRide(w.zones, s.position), pick)
      && t == AfterStatus(s, status, now, w.config.recharge, pick)
  }

  predicate FullEnough(level: real) { 85.0 <= level <= 100.0 }

  ghost predicate Advances(w: World, s: Scooter, dt: real, now: real, t: Scooter)
    requires w.zones != [] && Sound(s) && 0.0 <= w.config.speed && 0.0 <= dt
  {
    exists pick, level :: DrawnIn(ZoneToRide(w.zones, t.position), pick) && FullEnough(level)
      && t == AfterTick(w, s, dt, now, pick, level)
  }

  ghost predicate Departs(s: Scooter, t: Scooter) {
    exists target :: InBox(target, CITY) && t == Departed(s, target)
  }

  /** Rides dispatched on `chosen`: as many as are missing, or as can depart. */
  ghost predicate Dispatched(c: Config, mid: seq<Scooter>, chosen: set<nat>, after: seq<Scooter>) {
    && chosen <= Eligible(c, mid)
    && |chosen| == (if c.activeScooters <= |Demo(mid)| then 0
                    else Least(c.activeScooters - |Demo(mid)|, |Eligible(c, mid)|))
    && |after| == |mid|
    && (forall i | 0 <= i < |mid| :: if i in chosen then Departs(mid[i], after[i]) else after[i] == mid[i])
  }

  /** A status for the scooter at `i` (beyond the list: a code the fleet does not know), or a tick:
      every scooter advanced to `mid`, then rides dispatched on `chosen`. */
  datatype Event = Status(i: nat, status: ServerStatus, now: real)
                 | Tick(dt: real, now: real, mid: seq<Scooter>, chosen: set<nat>)

  ghost predicate StatusNext(w: World, v: seq<Scooter>, i: nat, status: ServerStatus, now: real, u: seq<Scooter>)
    requires Usable(w)
  {
    && |u| == |v|
    && (forall k {:trigger u[k]} | 0 <= k < |v| :: if k == i then Answers(w, v[k], status, now, u[k]) else u[k] == v[k])
  }

  ghost predicate AllAdvance(w: World, v: seq<Scooter>, dt: real, now: real, u: seq<Scooter>)
    requires Usable(w) && 0.0 <= dt
  {
    && |u| == |v|
    && (forall k {:trigger u[k]} | 0 <= k < |v| :: Sound(v[k]) && Advances(w, v[k], dt, now, u[k]))
  }

  ghost predicate Next(w: World, v: seq<Scooter>, e: Event, u: seq<Scooter>)
    requires Usable(w)
  {
    match e
    case Status(i, status, now) => StatusNext(w, v, i, status, now, u)
    case Tick(dt, now, mid, chosen) =>
      0.0 <= dt && AllAdvance(w, v, dt, now, mid) && Dispatched(w.config, mid, chosen, u)
  }

  // ----- what every step keeps

  ghost predicate FleetOk(w: World, v: seq<Scooter>) {
    (forall i | 0 <= i < |v| :: Sound(v[i])) && |Demo(v)| <= Cap(w.config)
  }

  lemma {:induction false} SubsetSize<T>(a: set<T>, b: set<T>)
    requires a <= b
    ensures |a| <= |b|
  {
    if a != {} {
      var x :| x in a;
      SubsetSize(a - {x}, b - {x});
    }
  }

  lemma AnswerKeeps(w: World, s: Scooter, status: ServerStatus, now: real, t: Scooter)
    requires Usable(w) && Sound(s) && Answers(w, s, status, now, t)
    ensures Sound(t) && (OnDemo(t) ==> OnDemo(s)) && t.position == s.position
  {
    var pick :| DrawnIn(ZoneToRide(w.zones, s.position), pick)
      && t == AfterStatus(s, status, now, w.config.recharge, pick);
    StatusKeeps(s, status, now, w.config.recharge, pick);
  }

  lemma StatusStepKeeps(w: World, v: seq<Scooter>, i: nat, status: ServerStatus, now: real, u: seq<Scooter>)
    requires Usable(w) && FleetOk(w, v) && StatusNext(w, v, i, status, now, u)
    ensures FleetOk(w, u)
    ensures forall k | 0 <= k < |v| :: u[k].position == v[k].position
  {
    forall k | 0 <= k < |v|
      ensures Sound(u[k]) && (OnDemo(u[k]) ==> OnDemo(v[k])) && u[k].position == v[k].position
    {
      if k == i {
        AnswerKeeps(w, v[k], status, now, u[k]);
      }
    }
    SubsetSize(Demo(u), Demo(v));
  }

  lemma AdvanceKeeps(w: World, s: Scooter, dt: real, now: real, t: Scooter)
    requires Usable(w) && Sound(s) && 0.0 <= dt && Advances(w, s, dt, now, t)
    ensures Sound(t) && (OnDemo(t) ==> OnDemo(s)) && t.userRide == s.userRide && t.parked == s.parked
    ensures s.phase != Riding ==> t.position == s.position
    ensures s.userRide && InSomeZone(w.zones, s.position) ==> InSomeZone(w.zones, t.position)
  {
    var pick, level :| DrawnIn(ZoneToRide(w.zones, t.position), pick) && FullEnough(level)
      && t == AfterTick(w, s, dt, now, pick, level);
    TickKeeps(w, s, dt, now, pick, level);
    if s.userRide && InSomeZone(w.zones, s.position) {
      TickKeepsZone(w, s, dt, now, pick, level);
    }
  }

  lemma AllAdvanceKeeps(w: World, v: seq<Scooter>, dt: real, now: real, u: seq<Scooter>)
    requires Usable(w) && FleetOk(w, v) && 0.0 <= dt && AllAdvance(w, v, dt, now, u)
    ensures FleetOk(w, u) && |Demo(u)| <= |Demo(v)|
  {
    forall k | 0 <= k < |v| ensures Sound(u[k]) && (OnDemo(u[k]) ==> OnDemo(v[k])) {
      AdvanceKeeps(w, v[k], dt, now, u[k]);
    }
    SubsetSize(Demo(u), Demo(v));
  }

  lemma DepartsKeeps(c: Config, s: Scooter, t: Scooter)
    requires c.Sane() && Sound(s) && CanDepart(c, s) && Departs(s, t)
    ensures Sound(t) && OnDemo(t) && t.position == s.position && t.userRide == s.userRide && t.parked == s.parked
  {}

  /** The dispatch fills the demo rides up: to the configured number, or until nobody is left. */
  lemma DispatchFills(w: World, mid: seq<Scooter>, chosen: set<nat>, after: seq<Scooter>)
    requires Usable(w) && FleetOk(w, mid) && Dispatched(w.config, mid, chosen, after)
    ensures FleetOk(w, after)
    ensures |Demo(after)| == Least(Cap(w.config), |Demo(mid)| + |Eligible(w.config, mid)|)
    ensures forall k | 0 <= k < |mid| :: after[k].position == mid[k].position
  {
    forall k | 0 <= k < |mid|
      ensures Sound(after[k]) && after[k].position == mid[k].position
      ensures OnDemo(after[k]) <==> k in chosen || OnDemo(mid[k])
    {
      if k in chosen {
        assert k in Eligible(w.config, mid);
        DepartsKeeps(w.config, mid[k], after[k]);
      }
    }
    assert Demo(after) == Demo(mid) + chosen;
    assert Demo(mid) !! chosen by {
      forall k | k in chosen ensures k !in Demo(mid) { assert k in Eligible(w.config, mid); }
    }
  }

  /** One step keeps the fleet sound and its demo rides within the configured number; a tick leaves
      as many as are configured, or all that were riding or could depart. */
  lemma StepKeepsFleet(w: World, v: seq<Scooter>, e: Event, u: seq<Scooter>)
    requires Usable(w) && FleetOk(w, v) && Next(w, v, e, u)
    ensures FleetOk(w, u) && |u| == |v|
    ensures e.Tick? ==> |Demo(u)| == Least(Cap(w.config), |Demo(e.mid)| + |Eligible(w.config, e.mid)|)
  {
    match e {
      case Status(i, status, now) => StatusStepKeeps(w, v, i, status, now, u);
      case Tick(dt, now, mid, chosen) =>
        AllAdvanceKeeps(w, v, dt, now, mid);
        DispatchFills(w, mid, chosen, u);
    }
  }

  /** What one step may do to where a scooter is: only a tick of a ride moves it, and no user out of
      the zones. */
  predicate PlaceKept(w: World, s: Scooter, e: Event, t: Scooter) {
    && (s.phase != Riding || e.Status? ==> t.position == s.position)
    && (s.userRide && InSomeZone(w.zones, s.position) ==> InSomeZone(w.zones, t.position))
  }

  lemma StepKeepsPlace(w: World, v: seq<Scooter>, e: Event, u: seq<Scooter>, i: nat)
    requires Usable(w) && FleetOk(w, v) && Next(w, v, e, u) && i < |v|
    ensures |u| == |v|
    ensures PlaceKept(w, v[i], e, u[i])
  {
    match e {
      case Status(k, status, now) => StatusStepKeeps(w, v, k, status, now, u);
      case Tick(dt, now, mid, chosen) =>
        AdvanceKeeps(w, v[i], dt, now, mid[i]);
        AllAdvanceKeeps(w, v, dt, now, mid);
        DispatchFills(w, mid, chosen, u);
    }
  }

  // ----- runs

  /** A fleet as it is loaded: everything idle, before the first statuses. */
  predicate Loaded(v: seq<Scooter>) {
    forall i | 0 <= i < |v| :: Sound(v[i]) && v[i].phase == Idle
  }

  ghost predicate IsRun(w: World, states: seq<seq<Scooter>>, events: seq<Event>)
    requires Usable(w)
  {
    && |states| == |events| + 1
    && (forall k | 0 <= k < |states| :: |states[k]| == |states[0]|)
    && Loaded(states[0]) && Steps(w, states, events)
  }

  /** One step after the other. */
  ghost predicate Steps(w: World, states: seq<seq<Scooter>>, events: seq<Event>)
    requires Usable(w) && |states| == |events| + 1
    decreases |events|
  {
    events == [] ||
    var n := |events| - 1;
    Steps(w, states[..n + 1], events[..n]) && Next(w, states[n], events[n], states[n + 1])
  }

  /** Each of the steps. */
  lemma {:induction false} StepAt(w: World, states: seq<seq<Scooter>>, events: seq<Event>, k: nat)
    requires Usable(w) && |states| == |events| + 1 && Steps(w, states, events) && k < |events|
    ensures Next(w, states[k], events[k], states[k + 1])
    decreases |events|
  {
    if k < |events| - 1 {
      StepAt(w, states[..|events|], events[..|events| - 1], k);
    }
  }

  /** The fleet invariant in every state of every run. */
  lemma RunKeepsFleet(w: World, states: seq<seq<Scooter>>, events: seq<Event>, k: nat)
    requires Usable(w) && IsRun(w, states, events) && k < |states|
    ensures FleetOk(w, states[k])
  {
    assert Demo(states[0]) == {};
    for j := 0 to k
      invariant FleetOk(w, states[j])
    {
      StepAt(w, states, events, j);
      StepKeepsFleet(w, states[j], events[j], states[j + 1]);
    }
  }

  /** After every tick of every run: as many demo rides as configured, unless everything that could
      ride does. */
  lemma DemoRidesAreFilledUp(w: World, states: seq<seq<Scooter>>, events: seq<Event>, k: nat)
    requires Usable(w) && IsRun(w, states, events) && k < |events| && events[k].Tick?
    ensures |Demo(states[k + 1])|
            == Least(Cap(w.config), |Demo(events[k].mid)| + |Eligible(w.config, events[k].mid)|)
    ensures |Demo(states[k + 1])| < Cap(w.config) ==> Eligible(w.config, states[k + 1]) == {}
  {
    RunKeepsFleet(w, states, events, k);
    StepAt(w, states, events, k);
    TickFillsUp(w, states[k], events[k], states[k + 1]);
  }

  lemma TickFillsUp(w: World, v: seq<Scooter>, e: Event, u: seq<Scooter>)
    requires Usable(w) && FleetOk(w, v) && e.Tick? && Next(w, v, e, u)
    ensures |Demo(u)| == Least(Cap(w.config), |Demo(e.mid)| + |Eligible(w.config, e.mid)|)
    ensures |Demo(u)| < Cap(w.config) ==> Eligible(w.config, u) == {}
  {
    AllAdvanceKeeps(w, v, e.dt, e.now, e.mid);
    DispatchFills(w, e.mid, e.chosen, u);
    if |Demo(u)| < Cap(w.config) {
      NobodyLeft(w, e.mid, e.chosen, u);
    }
  }

  lemma NobodyLeft(w: World, mid: seq<Scooter>, chosen: set<nat>, after: seq<Scooter>)
    requires Usable(w) && FleetOk(w, mid) && Dispatched(w.config, mid, chosen, after)
    requires |Demo(after)| < Cap(w.config)
    ensures Eligible(w.config, after) == {}
  {
    DispatchFills(w, mid, chosen, after);
    SameSize(chosen, Eligible(w.config, mid));
    forall k | 0 <= k < |mid| ensures !CanDepart(w.config, after[k]) {
      if k in chosen {
        DepartsKeeps(w.config, mid[k], after[k]);
      } else {
        assert k !in Eligible(w.config, mid);
      }
    }
  }

  lemma SameSize<T>(a: set<T>, b: set<T>)
    requires a <= b && |a| == |b|
    ensures a == b
  {
    if x :| x in b && x !in a {
      SubsetSize(a, b - {x});
    }
  }

  /** Where a step of a run may leave a scooter. */
  lemma RunKeepsPlace(w: World, states: seq<seq<Scooter>>, events: seq<Event>, k: nat, i: nat)
    requires Usable(w) && IsRun(w, states, events) && k < |events| && i < |states[0]|
    ensures Sound(states[k][i]) && PlaceKept(w, states[k][i], events[k], states[k + 1][i])
  {
    RunKeepsFleet(w, states, events, k);
    StepAt(w, states, events, k);
    StepKeepsPlace(w, states[k], events[k], states[k + 1], i);
  }

  /** A scooter that stays reserved or paused stays where it is. */
  lemma {:induction false} ParkedStaysPut(w: World, states: seq<seq<Scooter>>, events: seq<Event>,
                                          i: nat, first: nat, last: nat)
    requires Usable(w) && IsRun(w, states, events) && first <= last < |states| && i < |states[0]|
    requires forall k | first <= k < last :: states[k][i].parked
    ensures states[last][i].position == states[first][i].position
    decreases last
  {
    if first < last {
      ParkedStaysPut(w, states, events, i, first, last - 1);
      RunKeepsPlace(w, states, events, last - 1, i);
    }
  }

  lemma RiderStep(w: World, states: seq<seq<Scooter>>, events: seq<Event>, k: nat, i: nat)
    requires Usable(w) && IsRun(w, states, events) && k < |events| && i < |states[0]|
    requires states[k][i].userRide && InSomeZone(w.zones, states[k][i].position)
    ensures InSomeZone(w.zones, states[k + 1][i].position)
  {
    RunKeepsPlace(w, states, events, k, i);
  }

  /** Once a user's ride is inside a zone, every later tick and status of that ride keeps it in one. */
  lemma RiderStaysInZone(w: World, states: seq<seq<Scooter>>, events: seq<Event>, i: nat, first: nat, last: nat)
    requires Usable(w) && IsRun(w, states, events) && first <= last < |states| && i < |states[0]|
    requires forall k | first <= k < last :: states[k][i].userRide
    requires InSomeZone(w.zones, states[first][i].position)
    ensures InSomeZone(w.zones, states[last][i].position)
  {
    for k := first to last
      invariant InSomeZone(w.zones, states[k][i].position)
    {
      RiderStep(w, states, events, k, i);
    }
  }

  /** A simulated rider can always finish. The fleet runs on the backend's zones, the ride has been
      inside one since `first`, and the backend holds the position of some later moment of the ride:
      then finishing is not refused for the place. */
  lemma RiderCanFinish(w: World, states: seq<seq<Scooter>>, events: seq<Event>, i: nat, first: nat, last: nat,
                       backend: seq<seq<Point>>, db: Tables.Db, user: nat, r: nat, low: int, now: int, mailOk: bool)
    requires Usable(w) && IsRun(w, states, events) && first <= last < |states| && i < |states[0]|
    requires forall k | first <= k < last :: states[k][i].userRide
    requires InSomeZone(w.zones, states[first][i].position)
    requires w.zones == FleetZones(backend) && Drawable(backend) != []
    requires Tables.ForeignKeys(db) && Tables.OpenSegments(db) && Tables.Unfinished(db, r)
    requires db.scooters[db.rides[r].scooter].position == states[last][i].position
    ensures var (after, outcome) := Services.FinishRide(db, user, r, backend, low, now, mailOk);
      if user == db.rides[r].user then !Tables.Unfinished(after, r) && outcome.RideDone?
      else outcome == Services.Refused(Services.NotYourRide)
  {
    RiderStaysInZone(w, states, events, i, first, last);
    ZonesAgree(backend, states[last][i].position);
  }
}
