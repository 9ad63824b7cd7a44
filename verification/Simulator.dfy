/** The simulated fleet as it runs: scooter objects changed in place by statuses and ticks
    (simulator/scootersim/fleet.py, simulator/scootersim/geo.py). Every call is proved to be a step
    of FleetRuns. */
module Simulator {
  import opened Options
  import opened Geo
  import opened Simulation
  import opened FleetRuns

  class SimScooter {
    const code: string
    var lat: real
    var lon: real
    var battery: real
    var phase: Phase
    var target: Option<Point>
    var chargingUntil: Option<real>
    var idleTicks: int
    var parked: bool
    var userRide: bool
    var userRideStarted: bool

    constructor (code: string, position: Point, battery: real)
      ensures this.code == code
      ensures View() == Scooter(position, battery, Idle, None, None, 0, false, false, false)
    {
      this.code := code;
      lat, lon, this.battery := position.lat, position.lon, battery;
      phase, target, chargingUntil, idleTicks := Idle, None, None, 0;
      parked, userRide, userRideStarted := false, false, false;
    }

    function View(): Scooter
      reads this
    {
      Scooter(Point(lat, lon), battery, phase, target, chargingUntil, idleTicks, parked, userRide, userRideStarted)
    }
  }

  /** `random.uniform` over exact reals: any value between the bounds. */
  method Uniform(lo: real, hi: real) returns (x: real)
    requires lo <= hi
    ensures lo <= x <= hi
  {
    var any: real := *;
    x := if lo <= any <= hi then any else lo;
  }

  method RandomPoint(box: Box) returns (p: Point)
    requires box.minLat <= box.maxLat && box.minLon <= box.maxLon
    ensures InBox(p, box)
  {
    var lat := Uniform(box.minLat, box.maxLat);
    var lon := Uniform(box.minLon, box.maxLon);
    p := Point(lat, lon);
  }

  /** Draws until a point falls inside, at most `tries` times; then settles for the centroid. */
  method RandomPointInPolygon(polygon: seq<Point>, tries: nat) returns (p: Point)
    requires polygon != []
    ensures DrawnIn(polygon, p)
    ensures InBox(p, BoundingBox(polygon))
  {
    var box := BoundingBox(polygon);
    for n := 0 to tries {
      p := RandomPoint(box);
      var inside := SimPointInPolygon(p, polygon);
      if inside {
        return p;
      }
    }
    p := Centroid(polygon);
    DrawnInBounds(polygon, p);
  }

  predicate Distinct<T(==)>(s: seq<T>) { forall i, j | 0 <= i < j < |s| :: s[i] != s[j] }

  /** `random.sample`: some `k` of the population, each once. */
  method Sample(population: seq<nat>, k: nat) returns (picked: seq<nat>)
    requires k <= |population| && Distinct(population)
    ensures |picked| == k && Distinct(picked)
    ensures forall x :: x in picked ==> x in population
  {
    var rest := population;
    picked := [];
    while |picked| < k
      invariant |picked| <= k && |rest| == |population| - |picked|
      invariant Distinct(picked) && Distinct(rest)
      invariant forall x :: x in picked ==> x in population && x !in rest
      invariant forall x :: x in rest ==> x in population
    {
      var any: nat := *;
      var j := any % |rest|;
      assert rest[j] in rest;
      picked := picked + [rest[j]];
      rest := rest[..j] + rest[j + 1..];
    }
  }

  ghost function Elements(s: seq<nat>): set<nat> { set x | x in s }

  lemma {:induction false} DistinctSize(s: seq<nat>)
    requires Distinct(s)
    ensures |Elements(s)| == |s|
  {
    if s != [] {
      var init, last := s[..|s| - 1], s[|s| - 1];
      DistinctSize(init);
      assert last !in init;
      assert s == init + [last];
      assert Elements(s) == Elements(init) + {last};
    }
  }

  /** A scooter as `GET /api/scooters` lists it. */
  datatype Item = Item(code: string, position: Point, battery: int, status: ServerStatus)

  /** The dictionary built from the list: a code given twice names the later scooter. */
  function ByCode(scooters: seq<SimScooter>): (r: map<string, SimScooter>)
    ensures forall c :: c in r ==> r[c] in scooters && r[c].code == c
  {
    if scooters == [] then map[]
    else
      var last := scooters[|scooters| - 1];
      ByCode(scooters[..|scooters| - 1])[last.code := last]
  }

  ghost function ViewsOf(scooters: seq<SimScooter>): (r: seq<Scooter>)
    reads scooters
    ensures |r| == |scooters| && forall i | 0 <= i < |r| :: r[i] == scooters[i].View()
  {
    seq(|scooters|, i requires 0 <= i < |scooters| reads scooters => scooters[i].View())
  }

  /** Those that must report after a tick that found the fleet as in `v`. */
  function Due(scooters: seq<SimScooter>, v: seq<Scooter>, c: Config, now: real): seq<SimScooter>
    requires |scooters| == |v|
  {
    if scooters == [] then []
    else
      var n := |v| - 1;
      Due(scooters[..n], v[..n], c, now) + if Reports(c, v[n], now) then [scooters[n]] else []
  }

  function IndexOf(scooters: seq<SimScooter>, s: SimScooter): (i: nat)
    ensures i <= |scooters|
    ensures s in scooters ==> i < |scooters| && scooters[i] == s
  {
    if scooters == [] || scooters[0] == s then 0 else 1 + IndexOf(scooters[1..], s)
  }

  class Fleet {
    const scooters: seq<SimScooter>
    const byCode: map<string, SimScooter>
    const world: World

    ghost predicate Valid() {
      Distinct(scooters) && byCode == ByCode(scooters) && Usable(world)
    }

    ghost function Views(): seq<Scooter>
      reads scooters
    {
      ViewsOf(scooters)
    }

    /** Where the scooter of a code stands in the list, or its end for an unknown code. */
    ghost function Place(code: string): nat {
      if code in byCode then IndexOf(scooters, byCode[code]) else |scooters|
    }

    constructor (scooters: seq<SimScooter>, config: Config, zones: seq<seq<Point>>, km: (Point, Point) -> real)
      requires Distinct(scooters) && config.Sane()
      requires forall a, b :: km(a, b) >= 0.0
      requires forall z :: z in zones ==> z != []
      ensures Valid() && this.scooters == scooters && world == World(config, ZonesOrCity(zones), km)
    {
      this.scooters := scooters;
      byCode := ByCode(scooters);
      world := World(config, ZonesOrCity(zones), km);
    }

    method StartRide(scooter: SimScooter, target: Point)
      modifies scooter
      ensures scooter.View() == Departed(old(scooter.View()), target)
    {
      scooter.phase := Riding;
      scooter.target := Some(target);
      scooter.idleTicks := 0;
    }

    method Stop(scooter: SimScooter)
      modifies scooter
      ensures scooter.View() == Stopped(old(scooter.View()))
    {
      if scooter.phase == Riding {
        scooter.phase := Idle;
        scooter.target := None;
      }
    }

    method NextUserTarget(scooter: SimScooter) returns (target: Point)
      requires Valid()
      ensures DrawnIn(ZoneToRide(world.zones, scooter.View().position), target)
    {
      var zone := ZoneToRide(world.zones, Point(scooter.lat, scooter.lon));
      ZoneOfFinds(world.zones, Point(scooter.lat, scooter.lon));
      assert zone in world.zones;
      target := RandomPointInPolygon(zone, 1000);
    }

    /** Some point a draw could give where none is drawn. */
    ghost function AnyTarget(p: Point): (target: Point)
      requires Valid()
      ensures DrawnIn(ZoneToRide(world.zones, p), target)
    {
      ZoneOfFinds(world.zones, p);
      assert ZoneToRide(world.zones, p) in world.zones;
      Centroid(ZoneToRide(world.zones, p))
    }

    /** One status on one scooter; also gives the target drawn, or one that could have been. */
    method Answer(scooter: SimScooter, status: ServerStatus, now: real) returns (ghost pick: Point)
      requires Valid()
      modifies scooter
      ensures scooter.View() == AfterStatus(old(scooter.View()), status, now, world.config.recharge, pick)
      ensures DrawnIn(ZoneToRide(world.zones, old(scooter.View()).position), pick)
    {
      pick := AnyTarget(scooter.View().position);
      match status {
        case Unavailable =>
          scooter.parked, scooter.userRide, scooter.userRideStarted := false, false, false;
          if scooter.phase != Charging {
            scooter.phase := Charging;
            scooter.target := None;
            scooter.chargingUntil := Some(now + world.config.recharge);
          }
        case Reserved =>
          scooter.parked, scooter.userRide, scooter.userRideStarted := true, false, false;
          Stop(scooter);
        case InUse(paused) =>
          var wasUserRide := scooter.userRideStarted;
          scooter.userRide, scooter.userRideStarted := true, true;
          scooter.parked := paused;
          if !wasUserRide {
            scooter.target := None;
          }
          if paused {
            scooter.phase := Idle;
            scooter.idleTicks := 0;
          } else if (scooter.phase != Riding || scooter.target.None?) && scooter.battery > 0.0 {
            var target;
            if scooter.target.Some? {
              target := scooter.target.value;
            } else {
              target := NextUserTarget(scooter);
              pick := target;
            }
            StartRide(scooter, target);
          }
        case Available =>
          if scooter.userRide {
            Stop(scooter);
          }
          scooter.parked, scooter.userRide, scooter.userRideStarted := false, false, false;
        case Unknown =>
      }
    }

    /** One status is one step; a code the fleet does not know changes nothing. */
    method ApplyServerStatus(code: string, status: ServerStatus, now: real)
      requires Valid()
      modifies if code in byCode then {byCode[code]} else {}
      ensures StatusNext(world, old(Views()), Place(code), status, now, Views())
    {
      if code !in byCode {
        return;
      }
      assert Place(code) < |scooters| && scooters[Place(code)] == byCode[code];
      ghost var pick := Answer(byCode[code], status, now);
    }

    /** The steps a list of statuses makes. */
    ghost function Statuses(payload: seq<Item>, now: real): (events: seq<Event>)
      ensures |events| == |payload|
    {
      seq(|payload|, i requires 0 <= i < |payload| => Status(Place(payload[i].code), payload[i].status, now))
    }

    /** A list of statuses continues any run that led here, one step each. */
    method RefreshStatuses(payload: seq<Item>, now: real, ghost before: seq<seq<Scooter>>, ghost events: seq<Event>)
      returns (ghost states: seq<seq<Scooter>>)
      requires Valid() && LedTo(world, before, events, Views())
      modifies scooters
      ensures LedTo(world, states, events + Statuses(payload, now), Views())
    {
      states := before;
      ghost var steps := Statuses(payload, now);
      assert events + steps[..0] == events;
      for i := 0 to |payload|
        invariant LedTo(world, states, events + steps[..i], Views())
      {
        ghost var v := Views();
        ApplyServerStatus(payload[i].code, payload[i].status, now);
        RunGrows(world, states, events + steps[..i], v, steps[i], Views());
        states := states + [Views()];
        assert events + steps[..i] + [steps[i]] == events + steps[..i + 1];
      }
      assert steps[..|payload|] == steps;
    }

    /** One tick of a ride; also gives the target drawn, or one that could have been. */
    method Ride(scooter: SimScooter, dt: real) returns (ghost pick: Point)
      requires Valid() && 0.0 <= dt && scooter.target.Some?
      modifies scooter
      ensures scooter.View() == AfterRide(world, old(scooter.View()), dt, pick)
      ensures DrawnIn(ZoneToRide(world.zones, scooter.View().position), pick)
    {
      ghost var s := scooter.View();
      var (to, reached) := Leg(world, scooter.View(), dt);
      if scooter.userRide && LeavesZone(world.zones, Point(scooter.lat, scooter.lon), to) {
        var target := NextUserTarget(scooter);
        scooter.target := Some(target);
        return target;
      }
      var drain := Drain(world, scooter.View(), to, dt);
      scooter.lat, scooter.lon := to.lat, to.lon;
      scooter.battery := Max(0.0, scooter.battery - drain);
      pick := AnyTarget(to);
      if scooter.battery <= 0.0 {
        Stop(scooter);
      } else if reached {
        if scooter.userRide {
          var target := NextUserTarget(scooter);
          scooter.target := Some(target);
          pick := target;
        } else {
          Stop(scooter);
        }
      }
    }

    /** What one scooter does in a tick, and whether it must report. */
    method Advance(scooter: SimScooter, dt: real, now: real) returns (due: bool)
      requires Valid() && 0.0 <= dt && Sound(scooter.View())
      modifies scooter
      ensures Advances(world, old(scooter.View()), dt, now, scooter.View())
      ensures due == Reports(world.config, old(scooter.View()), now)
    {
      ghost var s := scooter.View();
      ghost var pick := AnyTarget(s.position);
      var level := 85.0;
      if scooter.phase == Riding {
        pick := Ride(scooter, dt);
        due := true;
      } else if scooter.phase == Charging {
        due := scooter.chargingUntil.Some? && now >= scooter.chargingUntil.value;
        if due {
          level := Uniform(85.0, 100.0);
          scooter.battery := level;
          scooter.phase := Idle;
          scooter.chargingUntil := None;
          scooter.idleTicks := 0;
        }
      } else {
        scooter.idleTicks := scooter.idleTicks + 1;
        var heartbeat := if scooter.parked then world.config.heldHeartbeat else world.config.heartbeat;
        due := scooter.idleTicks >= heartbeat;
        if due {
          scooter.idleTicks := 0;
        }
      }
      assert FullEnough(level) && scooter.View() == AfterTick(world, s, dt, now, pick, level);
    }

    /** One tick is one step, and names exactly those who must report. */
    method Tick(dt: real, now: real) returns (due: seq<SimScooter>, ghost mid: seq<Scooter>, ghost chosen: set<nat>)
      requires Valid() && FleetOk(world, Views()) && 0.0 <= dt
      modifies scooters
      ensures Next(world, old(Views()), Event.Tick(dt, now, mid, chosen), Views())
      ensures due == Due(scooters, old(Views()), world.config, now)
    {
      ghost var v := Views();
      due := AdvanceAll(dt, now);
      mid := Views();
      AllAdvanceKeeps(world, v, dt, now, mid);
      chosen := DispatchRides(now);
    }

    /** The loop of a tick over all scooters. */
    method AdvanceAll(dt: real, now: real) returns (due: seq<SimScooter>)
      requires Valid() && FleetOk(world, Views()) && 0.0 <= dt
      modifies scooters
      ensures AllAdvance(world, old(Views()), dt, now, Views())
      ensures due == Due(scooters, old(Views()), world.config, now)
    {
      ghost var v := Views();
      due := [];
      for i := 0 to |scooters|
        invariant Halfway(world, v, i, dt, now, Views())
        invariant due == Due(scooters[..i], v[..i], world.config, now)
      {
        ghost var u := Views();
        var reports := AdvanceAt(i, dt, now);
        OneMoreAdvances(world, v, i, dt, now, u, Views()[i]);
        OneMoreDue(scooters, v, world.config, now, i);
        if reports {
          due := due + [scooters[i]];
        }
      }
      assert scooters[..|scooters|] == scooters && v[..|v|] == v;
    }

    /** Advances the scooter at one place of the list; no other is touched. */
    method AdvanceAt(i: nat, dt: real, now: real) returns (due: bool)
      requires Valid() && i < |scooters| && 0.0 <= dt && Sound(scooters[i].View())
      modifies scooters[i]
      ensures Views() == old(Views())[i := Views()[i]]
      ensures Advances(world, old(Views())[i], dt, now, Views()[i])
      ensures due == Reports(world.config, old(Views())[i], now)
    {
      due := Advance(scooters[i], dt, now);
    }

    /** Starts a ride on the scooter at one place of the list; no other is touched. */
    method StartRideAt(i: nat, target: Point)
      requires Valid() && i < |scooters|
      modifies scooters[i]
      ensures Views() == old(Views())[i := Departed(old(Views())[i], target)]
    {
      StartRide(scooters[i], target);
    }

    /** How many demo rides are under way. */
    method CountRiding() returns (riding: nat)
      ensures riding == |Demo(Views())|
    {
      riding := 0;
      for i := 0 to |scooters|
        invariant riding == |set k | 0 <= k < i && OnDemo(Views()[k])|
      {
        ghost var before := set k | 0 <= k < i && OnDemo(Views()[k]);
        ghost var after := set k | 0 <= k < i + 1 && OnDemo(Views()[k]);
        if scooters[i].phase == Riding && !scooters[i].userRide {
          riding := riding + 1;
          assert after == before + {i};
        } else {
          assert after == before;
        }
      }
    }

    /** The places of those a demo ride may start on. */
    method Candidates() returns (candidates: seq<nat>)
      requires Valid()
      ensures Distinct(candidates)
      ensures forall k :: k in candidates <==> k in Eligible(world.config, Views())
    {
      candidates := [];
      for i := 0 to |scooters|
        invariant forall n | 0 <= n < |candidates| :: 0 <= candidates[n] < i
        invariant Distinct(candidates)
        invariant forall k | 0 <= k < i :: k in candidates <==> CanDepart(world.config, scooters[k].View())
      {
        var s := scooters[i];
        if s.phase == Idle && !s.parked && !s.userRide && s.battery >= world.config.minRideBattery as real {
          candidates := candidates + [i];
        }
      }
    }

    method DispatchRides(now: real) returns (ghost chosen: set<nat>)
      requires Valid()
      modifies scooters
      ensures Dispatched(world.config, old(Views()), chosen, Views())
    {
      ghost var v := Views();
      var riding := CountRiding();
      var needed := world.config.activeScooters - riding;
      if needed <= 0 {
        return {};
      }
      var candidates := Candidates();
      var picked := Sample(candidates, Least(needed, |candidates|));
      for n := 0 to |picked|
        invariant DepartedAt(v, picked[..n], Views())
      {
        ghost var u := Views();
        var i := picked[n];
        assert i in candidates && i in Eligible(world.config, v);
        assert i !in picked[..n] && picked[..n + 1] == picked[..n] + [i];
        var target := RandomPoint(CITY);
        StartRideAt(i, target);
        OneMoreDeparts(v, picked[..n], u, i, target);
      }
      assert picked[..|picked|] == picked;
      chosen := Elements(picked);
      PickedIsDispatched(world.config, v, candidates, picked, Views());
    }
  }

  lemma PickedIsDispatched(c: Config, v: seq<Scooter>, candidates: seq<nat>, picked: seq<nat>, u: seq<Scooter>)
    requires c.activeScooters > |Demo(v)|
    requires Distinct(candidates) && forall k :: k in candidates <==> k in Eligible(c, v)
    requires Distinct(picked) && forall k :: k in picked ==> k in candidates
    requires |picked| == Least(c.activeScooters - |Demo(v)|, |candidates|)
    requires DepartedAt(v, picked, u)
    ensures Dispatched(c, v, Elements(picked), u)
  {
    DistinctSize(candidates);
    DistinctSize(picked);
    assert Elements(candidates) == Eligible(c, v);
  }

  /** A tick that has come to place `i` of the list. */
  ghost predicate Halfway(w: World, v: seq<Scooter>, i: nat, dt: real, now: real, u: seq<Scooter>)
    requires Usable(w) && 0.0 <= dt
  {
    && |u| == |v|
    && (forall k {:trigger u[k]} | 0 <= k < |v| ::
          if k < i then Sound(v[k]) && Advances(w, v[k], dt, now, u[k]) else u[k] == v[k])
  }

  lemma OneMoreAdvances(w: World, v: seq<Scooter>, i: nat, dt: real, now: real, u: seq<Scooter>, t: Scooter)
    requires Usable(w) && 0.0 <= dt && Halfway(w, v, i, dt, now, u)
    requires i < |v| && Sound(v[i]) && Advances(w, v[i], dt, now, t)
    ensures Halfway(w, v, i + 1, dt, now, u[i := t])
  {
    forall k | 0 <= k < |v|
      ensures if k < i + 1 then Sound(v[k]) && Advances(w, v[k], dt, now, u[i := t][k]) else u[i := t][k] == v[k]
    {
      assert k != i ==> u[i := t][k] == u[k];
    }
  }

  lemma OneMoreDue(scooters: seq<SimScooter>, v: seq<Scooter>, c: Config, now: real, i: nat)
    requires i < |scooters| == |v|
    ensures Due(scooters[..i + 1], v[..i + 1], c, now)
            == Due(scooters[..i], v[..i], c, now) + if Reports(c, v[i], now) then [scooters[i]] else []
  {
    assert scooters[..i + 1][..i] == scooters[..i] && v[..i + 1][..i] == v[..i];
  }

  /** Rides started at these places, and nothing else changed. */
  ghost predicate DepartedAt(v: seq<Scooter>, places: seq<nat>, u: seq<Scooter>) {
    && |u| == |v|
    && (forall k {:trigger u[k]} | 0 <= k < |v| :: if k in places then Departs(v[k], u[k]) else u[k] == v[k])
  }

  lemma OneMoreDeparts(v: seq<Scooter>, places: seq<nat>, u: seq<Scooter>, i: nat, target: Point)
    requires DepartedAt(v, places, u) && i < |v| && i !in places && InBox(target, CITY)
    ensures DepartedAt(v, places + [i], u[i := Departed(u[i], target)])
  {
    var next := u[i := Departed(u[i], target)];
    forall k | 0 <= k < |v|
      ensures if k in places + [i] then Departs(v[k], next[k]) else next[k] == v[k]
    {
      assert k in places + [i] <==> k in places || k == i;
      assert k != i ==> next[k] == u[k];
      assert u[i] == v[i];
    }
  }

  /** A run that ends in these scooters. */
  ghost predicate LedTo(w: World, states: seq<seq<Scooter>>, events: seq<Event>, v: seq<Scooter>)
    requires Usable(w)
  {
    IsRun(w, states, events) && states[|events|] == v
  }

  /** Any step continues a run. */
  lemma RunGrows(w: World, states: seq<seq<Scooter>>, events: seq<Event>, v: seq<Scooter>, e: Event, u: seq<Scooter>)
    requires Usable(w) && LedTo(w, states, events, v) && Next(w, v, e, u)
    ensures LedTo(w, states + [u], events + [e], u)
  {
    assert (states + [u])[..|events| + 1] == states && (events + [e])[..|events|] == events;
  }

  function Listed(item: Item): Scooter {
    Scooter(item.position, item.battery as real, Idle, None, None, 0, false, false, false)
  }

  /** The listed scooters, idle where the backend has them. */
  method Build(payload: seq<Item>) returns (scooters: seq<SimScooter>)
    requires forall item :: item in payload ==> 0 <= item.battery <= 100
    ensures fresh(scooters) && Distinct(scooters) && |scooters| == |payload|
    ensures forall i | 0 <= i < |payload| :: scooters[i].code == payload[i].code
    ensures forall i | 0 <= i < |payload| :: scooters[i].View() == Listed(payload[i])
    ensures Loaded(ViewsOf(scooters))
  {
    scooters := [];
    for i := 0 to |payload|
      invariant |scooters| == i && fresh(scooters) && Distinct(scooters)
      invariant forall k | 0 <= k < i :: scooters[k].code == payload[k].code
      invariant forall k | 0 <= k < i :: scooters[k].View() == Listed(payload[k])
    {
      var scooter := new SimScooter(payload[i].code, payload[i].position, payload[i].battery as real);
      scooters := scooters + [scooter];
    }
    forall k | 0 <= k < |payload| ensures 0 <= payload[k].battery <= 100 { assert payload[k] in payload; }
  }

  /** The fleet built from the backend's answers: the scooters listed, then their statuses. */
  method FromServer(payload: seq<Item>, config: Config, km: (Point, Point) -> real, now: real, zones: seq<seq<Point>>)
    returns (fleet: Fleet, ghost states: seq<seq<Scooter>>)
    requires config.Sane() && forall a, b :: km(a, b) >= 0.0
    requires forall item :: item in payload ==> 0 <= item.battery <= 100
    ensures fresh(fleet) && fresh(fleet.scooters) && fleet.Valid()
    ensures fleet.world == World(config, FleetZones(zones), km)
    ensures |fleet.scooters| == |payload|
    ensures forall i | 0 <= i < |payload| :: fleet.scooters[i].code == payload[i].code
    ensures LedTo(fleet.world, states, fleet.Statuses(payload, now), fleet.Views())
  {
    var scooters := Build(payload);
    fleet := new Fleet(scooters, config, Drawable(zones), km);
    states := fleet.RefreshStatuses(payload, now, [fleet.Views()], []);
    assert [] + fleet.Statuses(payload, now) == fleet.Statuses(payload, now);
  }
}
