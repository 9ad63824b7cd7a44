/** What ticks and statuses amount to over time: where a ride goes, what its way costs, how long a
    scooter stays out of service and how often one that stands reports
    (simulator/scootersim/fleet.py, simulator/scootersim/geo.py). */
module FleetLaws {
  import opened Options
  import opened Geo
  import opened Simulation
  import opened FleetRuns

  // ----- one tick of a ride

  /** Where a step of `km` towards `to`, `remaining` away, ends: there if it is within reach, or the
      same share of the way in both coordinates. */
  predicate Stepped(from: Point, to: Point, remaining: real, km: real, at: Point) {
    if remaining <= km then at == to
    else
      && (at.lat - from.lat) * remaining == (to.lat - from.lat) * km
      && (at.lon - from.lon) * remaining == (to.lon - from.lon) * km
  }

  lemma StepIsShare(from: Point, to: Point, remaining: real, km: real)
    requires 0.0 <= km
    ensures Stepped(from, to, remaining, km, StepTowards(from, to, remaining, km).0)
    ensures StepTowards(from, to, remaining, km).1 <==> remaining <= km
  {
    if remaining > km {
      ShareOfWay(from.lat, to.lat, remaining, km);
      ShareOfWay(from.lon, to.lon, remaining, km);
    }
  }

  lemma ShareOfWay(x: real, y: real, remaining: real, km: real)
    requires remaining > 0.0
    ensures (x + (y - x) * (km / remaining) - x) * remaining == (y - x) * km
  {
    Quotient(km, 1.0, remaining);
    Grouped(y - x, km / remaining, remaining);
  }

  lemma Grouped(x: real, y: real, z: real)
    ensures x * y * z == x * (y * z)
  {}

  /** The first zone that holds a place. */
  predicate FirstZone(zones: seq<seq<Point>>, p: Point, z: int) {
    0 <= z < |zones| && SimInside(p, zones[z]) && forall y | 0 <= y < z :: !SimInside(p, zones[y])
  }

  lemma {:induction false} ZoneOfIsFirst(zones: seq<seq<Point>>, p: Point) returns (z: int)
    ensures ZoneOf(zones, p).Some? ==> FirstZone(zones, p, z) && zones[z] == ZoneOf(zones, p).value
  {
    if zones == [] || SimInside(p, zones[0]) {
      z := 0;
    } else {
      var y := ZoneOfIsFirst(zones[1..], p);
      z := y + 1;
      if ZoneOf(zones, p).Some? {
        forall x | 0 <= x < z ensures !SimInside(p, zones[x]) {
          assert x > 0 ==> zones[x] == zones[1..][x - 1];
        }
      }
    }
  }

  lemma OneFirstZone(zones: seq<seq<Point>>, p: Point, y: int, z: int)
    requires FirstZone(zones, p, y) && FirstZone(zones, p, z)
    ensures y == z
  {}

  /** The step would take the user out of the zone the scooter is in. */
  ghost predicate TurnsBack(w: World, s: Scooter, at: Point) {
    s.userRide && exists z :: FirstZone(w.zones, s.position, z) && !SimInside(at, w.zones[z])
  }

  lemma TurnsBackWhenLeaving(w: World, s: Scooter, at: Point)
    ensures TurnsBack(w, s, at) <==> s.userRide && LeavesZone(w.zones, s.position, at)
  {
    var y := ZoneOfIsFirst(w.zones, s.position);
    ZoneOfFinds(w.zones, s.position);
    if z :| FirstZone(w.zones, s.position, z) && !SimInside(at, w.zones[z]) {
      assert w.zones[z] in w.zones;
      OneFirstZone(w.zones, s.position, y, z);
    }
  }

  /** What a step to `at` takes from the battery: the way, and a user's time. */
  function Spent(w: World, s: Scooter, at: Point, dt: real): real {
    w.km(s.position, at) * w.config.drainPerKm + if s.userRide then dt * w.config.drainPerMinute / 60.0 else 0.0
  }

  /** The ride after one tick whose step leads to `at`. */
  ghost predicate RodeTo(w: World, s: Scooter, dt: real, at: Point, reached: bool, pick: Point, t: Scooter) {
    if TurnsBack(w, s, at) then t == s.(target := Some(pick))
    else
      var left := s.battery - Spent(w, s, at, dt);
      if left <= 0.0 then t == s.(position := at, battery := 0.0, phase := Idle, target := None)
      else if !reached then t == s.(position := at, battery := left)
      else if s.userRide then t == s.(position := at, battery := left, target := Some(pick))
      else t == s.(position := at, battery := left, phase := Idle, target := None)
  }

  /** One tick of a ride: straight towards the target at the configured speed, paid for by the
      battery. A user never leaves the zone: such a step is not made and another target drawn. A flat
      battery ends the ride, the target ends a demo ride and gives a user the next one. */
  lemma RideTells(w: World, s: Scooter, dt: real, now: real, pick: Point, level: real) returns (at: Point)
    requires Usable(w) && Sound(s) && s.phase == Riding && 0.0 <= dt
    ensures var km, remaining := w.config.speed * dt / 3600.0, w.km(s.position, s.target.value);
      && Stepped(s.position, s.target.value, remaining, km, at)
      && RodeTo(w, s, dt, at, remaining <= km, pick, AfterTick(w, s, dt, now, pick, level))
  {
    StepLengthSign(w, dt);
    StepIsShare(s.position, s.target.value, w.km(s.position, s.target.value), StepLength(w, dt));
    at := Leg(w, s, dt).0;
    TurnsBackWhenLeaving(w, s, at);
    SpentIsDrain(w, s, at, dt);
  }

  lemma SpentIsDrain(w: World, s: Scooter, at: Point, dt: real)
    ensures Spent(w, s, at, dt) == Drain(w, s, at, dt)
  {
    assert dt * w.config.drainPerMinute == w.config.drainPerMinute * dt;
  }

  // ----- one status

  /** What a status makes of a scooter's phase, target and deadline. */
  lemma StatusTells(s: Scooter, status: ServerStatus, now: real, recharge: real, pick: Point)
    requires Sound(s)
    ensures var t := AfterStatus(s, status, now, recharge, pick);
      match status
      case Unavailable =>
        && t.chargingUntil == (if s.phase == Charging then s.chargingUntil else Some(now + recharge))
        && (s.phase != Charging ==> t.target.None?)
      case Reserved => if s.phase == Riding then t.phase == Idle && t.target.None? else t.phase == s.phase
      case InUse(paused) =>
        if paused then t.idleTicks == 0 && t.target == (if s.userRideStarted then s.target else None)
        else if s.battery <= 0.0 then t.phase == s.phase
        else t.target == (if s.userRideStarted && s.target.Some? then s.target else Some(pick))
      case Available =>
        if s.userRide && s.phase == Riding then t.phase == Idle && t.target.None?
        else t == s.(parked := false, userRide := false, userRideStarted := false)
      case Unknown => t == s
  {}

  // ----- the way is paid for

  lemma TickOf(w: World, v: seq<Scooter>, e: Event, u: seq<Scooter>, i: nat) returns (pick: Point, level: real)
    requires Usable(w) && FleetOk(w, v) && e.Tick? && Next(w, v, e, u) && i < |v|
    ensures |u| == |v| == |e.mid| && Sound(v[i]) && 0.0 <= e.dt && FullEnough(level)
    ensures e.mid[i] == AfterTick(w, v[i], e.dt, e.now, pick, level)
    ensures u[i] == e.mid[i] || (CanDepart(w.config, e.mid[i]) && Departs(e.mid[i], u[i]))
  {
    assert Advances(w, v[i], e.dt, e.now, e.mid[i]);
    pick, level :| DrawnIn(ZoneToRide(w.zones, e.mid[i].position), pick) && FullEnough(level)
      && e.mid[i] == AfterTick(w, v[i], e.dt, e.now, pick, level);
    if i in e.chosen {
      assert i in Eligible(w.config, e.mid);
    }
  }

  /** A ride that goes on has paid for its way and, a user's, for its time; or it turned back on the spot. */
  predicate Paid(w: World, s: Scooter, dt: real, t: Scooter) {
    || s.battery - t.battery == Spent(w, s, t.position, dt)
    || (s.userRide && t.position == s.position && t.battery == s.battery)
  }

  lemma RidingStep(w: World, v: seq<Scooter>, e: Event, u: seq<Scooter>, i: nat)
    requires Usable(w) && FleetOk(w, v) && Next(w, v, e, u) && i < |v|
    ensures |u| == |v|
    ensures v[i].phase == Riding && u[i].phase == Riding ==>
      if e.Tick? then 0.0 <= e.dt && Paid(w, v[i], e.dt, u[i]) && u[i].userRide == v[i].userRide
      else u[i].battery == v[i].battery && u[i].position == v[i].position
  {
    if e.Tick? {
      var pick, level := TickOf(w, v, e, u, i);
      TickKeeps(w, v[i], e.dt, e.now, pick, level);
      if v[i].phase == Riding {
        var at := RideTells(w, v[i], e.dt, e.now, pick, level);
      }
    } else if e.i == i {
      StatusStep(w, v, e, u);
    }
  }

  lemma StatusStep(w: World, v: seq<Scooter>, e: Event, u: seq<Scooter>)
    requires Usable(w) && FleetOk(w, v) && e.Status? && Next(w, v, e, u) && e.i < |v|
    ensures |u| == |v| && exists pick :: u[e.i] == AfterStatus(v[e.i], e.status, e.now, w.config.recharge, pick)
    ensures u[e.i].battery == v[e.i].battery && u[e.i].position == v[e.i].position
  {
    assert Answers(w, v[e.i], e.status, e.now, u[e.i]);
    var pick :| DrawnIn(ZoneToRide(w.zones, v[e.i].position), pick)
      && u[e.i] == AfterStatus(v[e.i], e.status, e.now, w.config.recharge, pick);
    StatusKeeps(v[e.i], e.status, e.now, w.config.recharge, pick);
  }

  /** The way of a scooter between two states of a run, and the time ticked. */
  ghost function Way(w: World, states: seq<seq<Scooter>>, i: nat, first: nat, last: nat): real
    requires first <= last < |states| && forall k | 0 <= k < |states| :: i < |states[k]|
    decreases last
  {
    if first == last then 0.0
    else Way(w, states, i, first, last - 1) + w.km(states[last - 1][i].position, states[last][i].position)
  }

  function Lasted(e: Event): real { if e.Tick? then e.dt else 0.0 }

  function Time(events: seq<Event>, first: nat, last: nat): real
    requires first <= last <= |events|
    decreases last
  {
    if first == last then 0.0
    else Time(events, first, last - 1) + Lasted(events[last - 1])
  }

  /** The way at the configured rate and, unless the ride is a demo ride, at most the time on top. */
  predicate PaysFor(c: Config, lost: real, way: real, time: real, demo: bool) {
    && way * c.drainPerKm <= lost <= way * c.drainPerKm + time * c.drainPerMinute / 60.0
    && (demo ==> lost == way * c.drainPerKm)
  }

  lemma PaysForBoth(c: Config, lost: real, way: real, time: real, demo: bool,
                    more: real, further: real, longer: real)
    requires PaysFor(c, lost, way, time, demo) && PaysFor(c, more, further, longer, demo)
    ensures PaysFor(c, lost + more, way + further, time + longer, demo)
  {
    AddUp(way, further, c.drainPerKm);
    AddUp(time, longer, c.drainPerMinute);
  }

  lemma AddUp(x: real, y: real, rate: real)
    ensures (x + y) * rate == x * rate + y * rate
  {}

  lemma TickPays(w: World, s: Scooter, dt: real, t: Scooter, demo: bool)
    requires Usable(w) && 0.0 <= dt && Paid(w, s, dt, t) && (demo ==> !s.userRide)
    requires w.km(s.position, s.position) == 0.0
    ensures PaysFor(w.config, s.battery - t.battery, w.km(s.position, t.position), dt, demo)
  {
    Product(dt, w.config.drainPerMinute);
  }

  lemma NothingPaid(c: Config)
    ensures PaysFor(c, 0.0, 0.0, 0.0, true) && PaysFor(c, 0.0, 0.0, 0.0, false)
  {}

  lemma StepPays(w: World, v: seq<Scooter>, e: Event, u: seq<Scooter>, i: nat, demo: bool)
    requires Usable(w) && FleetOk(w, v) && Next(w, v, e, u) && i < |v| == |u|
    requires v[i].phase == Riding && u[i].phase == Riding && (demo ==> !v[i].userRide)
    requires w.km(v[i].position, v[i].position) == 0.0
    ensures PaysFor(w.config, v[i].battery - u[i].battery, w.km(v[i].position, u[i].position), Lasted(e), demo)
  {
    RidingStep(w, v, e, u, i);
    if e.Tick? {
      TickPays(w, v[i], e.dt, u[i], demo);
    } else {
      NothingPaid(w.config);
    }
  }

  lemma RunStepPays(w: World, states: seq<seq<Scooter>>, events: seq<Event>, i: nat, n: nat, demo: bool)
    requires Usable(w) && IsRun(w, states, events) && n < |events| && i < |states[0]|
    requires forall p :: w.km(p, p) == 0.0
    requires states[n][i].phase == Riding && states[n + 1][i].phase == Riding && (demo ==> !states[n][i].userRide)
    ensures PaysFor(w.config, states[n][i].battery - states[n + 1][i].battery,
                    w.km(states[n][i].position, states[n + 1][i].position), Lasted(events[n]), demo)
  {
    RunKeepsFleet(w, states, events, n);
    StepAt(w, states, events, n);
    StepPays(w, states[n], events[n], states[n + 1], i, demo);
  }

  ghost predicate RidesFrom(states: seq<seq<Scooter>>, i: nat, first: nat, last: nat, demo: bool)
    requires last < |states| && forall k | 0 <= k < |states| :: i < |states[k]|
  {
    forall k | first <= k <= last :: states[k][i].phase == Riding && (demo ==> !states[k][i].userRide)
  }

  /** A ride pays for its way: what its battery lost is the way at the configured rate and, for a
      user's ride, at most the time on top; for a demo ride it is the way alone. */
  lemma {:induction false} ChargePaysForTheWay(w: World, states: seq<seq<Scooter>>, events: seq<Event>,
                                               i: nat, first: nat, last: nat, demo: bool)
    requires Usable(w) && IsRun(w, states, events) && first <= last < |states| && i < |states[0]|
    requires forall p :: w.km(p, p) == 0.0
    requires RidesFrom(states, i, first, last, demo)
    ensures PaysFor(w.config, states[first][i].battery - states[last][i].battery,
                    Way(w, states, i, first, last), Time(events, first, last), demo)
    decreases last
  {
    if first == last {
      NothingPaid(w.config);
    } else {
      var n := last - 1;
      ChargePaysForTheWay(w, states, events, i, first, n, demo);
      RunStepPays(w, states, events, i, n, demo);
      PaysForBoth(w.config, states[first][i].battery - states[n][i].battery,
                  Way(w, states, i, first, n), Time(events, first, n), demo,
                  states[n][i].battery - states[n + 1][i].battery,
                  w.km(states[n][i].position, states[n + 1][i].position),
                  Lasted(events[n]));
    }
  }

  // ----- out of service

  /** A charging scooter before its deadline: nothing about it changes. After it: back with a full
      enough battery. */
  lemma ChargingStep(w: World, v: seq<Scooter>, e: Event, u: seq<Scooter>, i: nat)
    requires Usable(w) && FleetOk(w, v) && Next(w, v, e, u) && i < |v| && v[i].phase == Charging
    ensures |u| == |v| && v[i].chargingUntil.Some?
    ensures u[i].phase == Charging ==>
      u[i].chargingUntil == v[i].chargingUntil && (e.Tick? ==> e.now < v[i].chargingUntil.value)
    ensures e.Tick? && e.now >= v[i].chargingUntil.value ==> u[i].phase != Charging && FullEnough(u[i].battery)
    ensures e.Tick? && e.now < v[i].chargingUntil.value ==> u[i] == v[i]
  {
    if e.Tick? {
      var pick, level := TickOf(w, v, e, u, i);
    } else if e.i == i {
      StatusStep(w, v, e, u);
    }
  }

  /** The scooter is charging until `deadline`. */
  predicate ChargingUntil(s: Scooter, deadline: real) { s.phase == Charging && s.chargingUntil == Some(deadline) }

  lemma RunChargingStep(w: World, states: seq<seq<Scooter>>, events: seq<Event>, i: nat, k: nat, deadline: real)
    requires Usable(w) && IsRun(w, states, events) && k < |events| && i < |states[0]|
    requires ChargingUntil(states[k][i], deadline)
    ensures states[k + 1][i].phase == Charging ==>
      ChargingUntil(states[k + 1][i], deadline) && (events[k].Tick? ==> events[k].now < deadline)
    ensures events[k].Tick? ==>
      if events[k].now < deadline then states[k + 1][i] == states[k][i]
      else states[k + 1][i].phase != Charging && FullEnough(states[k + 1][i].battery)
  {
    RunKeepsFleet(w, states, events, k);
    StepAt(w, states, events, k);
    ChargingStep(w, states[k], events[k], states[k + 1], i);
  }

  lemma ServiceBegins(w: World, states: seq<seq<Scooter>>, events: seq<Event>, i: nat, k: nat)
    requires Usable(w) && IsRun(w, states, events) && k < |events| && i < |states[0]|
    requires events[k].Status? && events[k].i == i && events[k].status == Unavailable && states[k][i].phase != Charging
    ensures ChargingUntil(states[k + 1][i], events[k].now + w.config.recharge)
  {
    RunKeepsFleet(w, states, events, k);
    StepAt(w, states, events, k);
    StatusStep(w, states[k], events[k], states[k + 1]);
  }

  /** Taken out of service at `t`, a scooter is back at the first tick a recharge later, and at no
      tick before: as long as it charges the deadline stands, and every tick so far came before it. */
  lemma {:induction false} ServiceTakesItsTime(w: World, states: seq<seq<Scooter>>, events: seq<Event>,
                                               i: nat, first: nat, last: nat)
    requires Usable(w) && IsRun(w, states, events) && first < last < |states| && i < |states[0]|
    requires events[first].Status? && events[first].i == i && events[first].status == Unavailable
    requires states[first][i].phase != Charging
    requires forall k | first < k <= last :: states[k][i].phase == Charging
    ensures ChargingUntil(states[last][i], events[first].now + w.config.recharge)
    ensures forall k | first < k < last :: events[k].Tick? ==> events[k].now < events[first].now + w.config.recharge
    ensures last < |events| && events[last].Tick? ==>
      if events[last].now < events[first].now + w.config.recharge then states[last + 1][i] == states[last][i]
      else states[last + 1][i].phase != Charging && FullEnough(states[last + 1][i].battery)
    decreases last
  {
    var deadline := events[first].now + w.config.recharge;
    if first + 1 == last {
      ServiceBegins(w, states, events, i, first);
    } else {
      ServiceTakesItsTime(w, states, events, i, first, last - 1);
      RunChargingStep(w, states, events, i, last - 1, deadline);
    }
    if last < |events| {
      RunChargingStep(w, states, events, i, last, deadline);
    }
  }

  // ----- who reports

  /** How many ticks a standing scooter stays silent at most. */
  function Beat(c: Config, parked: bool): int { if parked then c.heldHeartbeat else c.heartbeat }

  lemma IdleStep(w: World, v: seq<Scooter>, e: Event, u: seq<Scooter>, i: nat)
    requires Usable(w) && FleetOk(w, v) && e.Tick? && Next(w, v, e, u) && i < |v| && v[i].phase == Idle
    ensures |u| == |v|
    ensures Reports(w.config, v[i], e.now) <==> v[i].idleTicks + 1 >= Beat(w.config, v[i].parked)
    ensures u[i].phase == Idle ==>
      && u[i].parked == v[i].parked
      && u[i].idleTicks == if Reports(w.config, v[i], e.now) then 0 else v[i].idleTicks + 1
  {
    var pick, level := TickOf(w, v, e, u, i);
  }

  lemma RunIdleStep(w: World, states: seq<seq<Scooter>>, events: seq<Event>, i: nat, k: nat)
    requires Usable(w) && IsRun(w, states, events) && k < |events| && i < |states[0]|
    requires events[k].Tick? && states[k][i].phase == Idle
    ensures Reports(w.config, states[k][i], events[k].now)
      <==> states[k][i].idleTicks + 1 >= Beat(w.config, states[k][i].parked)
    ensures states[k + 1][i].phase == Idle ==>
      && states[k + 1][i].parked == states[k][i].parked
      && states[k + 1][i].idleTicks
         == if Reports(w.config, states[k][i], events[k].now) then 0 else states[k][i].idleTicks + 1
  {
    RunKeepsFleet(w, states, events, k);
    StepAt(w, states, events, k);
    IdleStep(w, states[k], events[k], states[k + 1], i);
  }

  /** Between two reports a standing scooter lets exactly its heartbeat of ticks pass: after a report
      at one tick, and silence since, the next tick is a report iff it is that many ticks later. */
  lemma {:induction false} HeartbeatIsRegular(w: World, states: seq<seq<Scooter>>, events: seq<Event>,
                                              i: nat, first: nat, last: nat)
    requires Usable(w) && IsRun(w, states, events) && first < last < |events| && i < |states[0]|
    requires forall k | first <= k <= last :: events[k].Tick? && states[k][i].phase == Idle
    requires Reports(w.config, states[first][i], events[first].now)
    requires forall k | first < k < last :: !Reports(w.config, states[k][i], events[k].now)
    ensures states[last][i].idleTicks == last - first - 1 && states[last][i].parked == states[first][i].parked
    ensures Reports(w.config, states[last][i], events[last].now)
      <==> last - first >= Beat(w.config, states[first][i].parked)
    decreases last
  {
    if first + 1 < last {
      HeartbeatIsRegular(w, states, events, i, first, last - 1);
    }
    RunIdleStep(w, states, events, i, last - 1);
    RunIdleStep(w, states, events, i, last);
  }

  /** A scooter on the move reports at every tick, one out of service only when it is back. */
  lemma MovingReports(w: World, v: seq<Scooter>, e: Event, u: seq<Scooter>, i: nat)
    requires Usable(w) && FleetOk(w, v) && e.Tick? && Next(w, v, e, u) && i < |v| && v[i].phase != Idle
    ensures |u| == |v|
    ensures Reports(w.config, v[i], e.now) <==> v[i].phase == Riding || u[i].phase != Charging
  {
    if v[i].phase == Charging {
      ChargingStep(w, v, e, u, i);
    } else {
      var pick, level := TickOf(w, v, e, u, i);
    }
  }
}
