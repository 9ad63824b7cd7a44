/** One scooter of the simulated fleet and what a status or a tick makes of it
    (simulator/scootersim/fleet.py, simulator/scootersim/geo.py). Distances are an arbitrary
    non-negative function, random draws are arguments. */
module Simulation {
  import opened Options
  import opened Geo
  import ConvexZones
  import Services

  datatype Phase = Idle | Riding | Charging

  /** The fields of a simulated scooter at one moment. */
  datatype Scooter = Scooter(position: Point, battery: real, phase: Phase, target: Option<Point>,
                             chargingUntil: Option<real>, idleTicks: int,
                             parked: bool, userRide: bool, userRideStarted: bool)

  /** A status the backend reports; one the simulator does not know changes nothing. */
  datatype ServerStatus = Available | Reserved | InUse(paused: bool) | Unavailable | Unknown

  datatype Config = Config(activeScooters: int, speed: real, drainPerKm: real, drainPerMinute: real,
                           recharge: real, minRideBattery: int, heartbeat: int, heldHeartbeat: int)
  {
    predicate Sane() { minRideBattery > 0 && speed >= 0.0 && drainPerKm >= 0.0 && drainPerMinute >= 0.0 }
  }

  /** What a fleet is run with: its settings, the zones riders keep to, and the distance. */
  datatype World = World(config: Config, zones: seq<seq<Point>>, km: (Point, Point) -> real)

  ghost predicate Usable(w: World) {
    && w.config.Sane()
    && (forall a, b :: w.km(a, b) >= 0.0)
    && w.zones != []
    && (forall z :: z in w.zones ==> z != [])
  }

  const CITY := Box(42.855, 42.895, 74.565, 74.635)

  function InnerBox(box: Box, share: real): Box {
    var lat, lon := (box.maxLat - box.minLat) * share, (box.maxLon - box.minLon) * share;
    Box(box.minLat + lat, box.maxLat - lat, box.minLon + lon, box.maxLon - lon)
  }

  function Corners(box: Box): seq<Point> {
    [Point(box.minLat, box.minLon), Point(box.minLat, box.maxLon),
     Point(box.maxLat, box.maxLon), Point(box.maxLat, box.minLon)]
  }

  /** The zones given, or the middle of the city where there is none. */
  function ZonesOrCity(zones: seq<seq<Point>>): seq<seq<Point>> {
    if zones == [] then [Corners(InnerBox(CITY, 0.3))] else zones
  }

  /** The zones a fleet loaded from the backend keeps to: those with at least three points. */
  function FleetZones(backend: seq<seq<Point>>): seq<seq<Point>> { ZonesOrCity(Drawable(backend)) }

  function Drawable(zones: seq<seq<Point>>): (r: seq<seq<Point>>)
    ensures forall z :: z in r <==> z in zones && |z| >= 3
  {
    if zones == [] then []
    else (if |zones[0]| >= 3 then [zones[0]] else []) + Drawable(zones[1..])
  }

  // ----- zones

  function ZoneOf(zones: seq<seq<Point>>, p: Point): Option<seq<Point>> {
    if zones == [] then None
    else if SimInside(p, zones[0]) then Some(zones[0])
    else ZoneOf(zones[1..], p)
  }

  /** The first zone with the point inside, or none if there is none. */
  lemma {:induction false} ZoneOfFinds(zones: seq<seq<Point>>, p: Point)
    ensures var zone := ZoneOf(zones, p);
      if zone.Some? then zone.value in zones && SimInside(p, zone.value)
      else forall z :: z in zones ==> !SimInside(p, z)
  {
    if zones != [] {
      ZoneOfFinds(zones[1..], p);
    }
  }

  predicate LeavesZone(zones: seq<seq<Point>>, from: Point, to: Point) {
    var zone := ZoneOf(zones, from);
    zone.Some? && !SimInside(to, zone.value)
  }

  predicate InSomeZone(zones: seq<seq<Point>>, p: Point) { ZoneOf(zones, p).Some? }

  /** The zone a rider heads into next. */
  function ZoneToRide(zones: seq<seq<Point>>, p: Point): seq<Point>
    requires zones != []
  {
    var zone := ZoneOf(zones, p);
    if zone.Some? then zone.value else zones[0]
  }

  function Sum(xs: seq<real>): real {
    if xs == [] then 0.0 else Sum(xs[..|xs| - 1]) + xs[|xs| - 1]
  }

  function Mean(xs: seq<real>): real
    requires xs != []
  {
    Sum(xs) / |xs| as real
  }

  function Centroid(points: seq<Point>): Point
    requires points != []
  {
    Point(Mean(seq(|points|, i requires 0 <= i < |points| => points[i].lat)),
          Mean(seq(|points|, i requires 0 <= i < |points| => points[i].lon)))
  }

  /** A point drawn for a rider: inside the zone, or its centroid when no draw hit. */
  predicate DrawnIn(zone: seq<Point>, p: Point) { zone != [] && (SimInside(p, zone) || p == Centroid(zone)) }

  // ----- one scooter, one event

  function Departed(s: Scooter, target: Point): Scooter {
    s.(phase := Riding, target := Some(target), idleTicks := 0)
  }

  function Stopped(s: Scooter): Scooter {
    if s.phase == Riding then s.(phase := Idle, target := None) else s
  }

  function Freed(s: Scooter): Scooter { s.(parked := false, userRide := false, userRideStarted := false) }

  /** `apply_server_status` on a scooter the fleet knows; `pick` is the target drawn if one is. */
  function AfterStatus(s: Scooter, status: ServerStatus, now: real, recharge: real, pick: Point): Scooter {
    match status
    case Unavailable =>
      var freed := Freed(s);
      if freed.phase == Charging then freed
      else freed.(phase := Charging, target := None, chargingUntil := Some(now + recharge))
    case Reserved => Stopped(s.(parked := true, userRide := false, userRideStarted := false))
    case InUse(paused) =>
      var used := s.(userRide := true, userRideStarted := true, parked := paused,
                     target := if s.userRideStarted then s.target else None);
      if paused then used.(phase := Idle, idleTicks := 0)
      else if (used.phase != Riding || used.target.None?) && used.battery > 0.0 then
        Departed(used, if used.target.Some? then used.target.value else pick)
      else used
    case Available => Freed(if s.userRide then Stopped(s) else s)
    case Unknown => s
  }

  /** A step of `km` towards the target, `remaining` away: the new position, and whether it is the target. */
  function StepTowards(from: Point, to: Point, remaining: real, km: real): (Point, bool)
    requires 0.0 <= km
  {
    if remaining <= km then (to, true)
    else
      var fraction := km / remaining;
      (Point(from.lat + (to.lat - from.lat) * fraction, from.lon + (to.lon - from.lon) * fraction), false)
  }

  /** What a step to `to` takes from the battery. */
  function Drain(w: World, s: Scooter, to: Point, dt: real): real {
    w.km(s.position, to) * w.config.drainPerKm
    + if s.userRide then w.config.drainPerMinute * dt / 60.0 else 0.0
  }

  /** How a ride goes on after a step: a flat battery ends it, and so does the target of a demo ride. */
  function Arrived(moved: Scooter, reached: bool, pick: Point): Scooter {
    if moved.battery <= 0.0 then Stopped(moved)
    else if !reached then moved
    else if moved.userRide then moved.(target := Some(pick))
    else Stopped(moved)
  }

  function StepLength(w: World, dt: real): real { w.config.speed * dt / 3600.0 }

  /** Where one tick takes a ride, and whether that is its target. */
  function Leg(w: World, s: Scooter, dt: real): (Point, bool)
    requires s.target.Some? && 0.0 <= w.config.speed && 0.0 <= dt
  {
    StepLengthSign(w, dt);
    StepTowards(s.position, s.target.value, w.km(s.position, s.target.value), StepLength(w, dt))
  }

  /** One tick of a ride; `pick` is the target drawn if one is. */
  function AfterRide(w: World, s: Scooter, dt: real, pick: Point): Scooter
    requires s.target.Some? && 0.0 <= w.config.speed && 0.0 <= dt
  {
    AfterLeg(w, s, dt, Leg(w, s, dt), pick)
  }

  function AfterLeg(w: World, s: Scooter, dt: real, leg: (Point, bool), pick: Point): Scooter {
    if s.userRide && LeavesZone(w.zones, s.position, leg.0) then s.(target := Some(pick))
    else Arrived(Moved(s, leg.0, Drain(w, s, leg.0, dt)), leg.1, pick)
  }

  function Moved(s: Scooter, to: Point, drain: real): Scooter {
    s.(position := to, battery := Max(0.0, s.battery - drain))
  }

  function Heartbeat(c: Config, s: Scooter): int { if s.parked then c.heldHeartbeat else c.heartbeat }

  predicate Charged(s: Scooter, now: real) {
    s.phase == Charging && s.chargingUntil.Some? && now >= s.chargingUntil.value
  }

  /** One tick of a scooter, before rides are dispatched; `level` is the battery it is swapped for. */
  function AfterTick(w: World, s: Scooter, dt: real, now: real, pick: Point, level: real): Scooter
    requires Sound(s) && 0.0 <= w.config.speed && 0.0 <= dt
  {
    match s.phase
    case Riding => AfterRide(w, s, dt, pick)
    case Charging =>
      if Charged(s, now) then s.(battery := level, phase := Idle, chargingUntil := None, idleTicks := 0) else s
    case Idle =>
      s.(idleTicks := if s.idleTicks + 1 >= Heartbeat(w.config, s) then 0 else s.idleTicks + 1)
  }

  /** Must the scooter send telemetry after this tick? */
  predicate Reports(c: Config, s: Scooter, now: real) {
    match s.phase
    case Riding => true
    case Charging => Charged(s, now)
    case Idle => s.idleTicks + 1 >= Heartbeat(c, s)
  }

  /** Rounding to the nearest integer, ties to the even one, as Python's `round` does. */
  function HalfEven(x: real): int {
    var low, rest := x.Floor, x - x.Floor as real;
    if rest < 0.5 || (rest == 0.5 && low % 2 == 0) then low else low + 1
  }

  /** The level a scooter reports. */
  function BatteryPercent(battery: real): int {
    var level := HalfEven(battery);
    if level < 0 then 0 else if level > 100 then 100 else level
  }

  /** Always a percentage the backend accepts, and the nearest one to the true level; halfway between
      two it is the even one. */
  lemma PercentIsNearest(battery: real, other: int)
    ensures 0 <= BatteryPercent(battery) <= 100
    ensures 0 <= other <= 100 ==>
      Abs(BatteryPercent(battery) as real - battery) <= Abs(other as real - battery)
    ensures 0 <= other < 100 && battery == other as real + 0.5 ==> BatteryPercent(battery) % 2 == 0
  {
    if 0 <= other <= 100 {
      NearestInteger(battery, other);
      NearestInteger(battery, BatteryPercent(battery));
    }
  }

  lemma NearestInteger(x: real, n: int)
    ensures -0.5 <= HalfEven(x) as real - x <= 0.5
    ensures n < HalfEven(x) ==> n as real - x <= -0.5
    ensures n > HalfEven(x) ==> n as real - x >= 0.5
  {}

  // ----- what every scooter keeps

  predicate Sound(s: Scooter) {
    && 0.0 <= s.battery <= 100.0
    && (s.phase == Riding ==> s.target.Some? && s.battery > 0.0 && !s.parked)
    && (s.phase == Charging ==> s.chargingUntil.Some?)
    && s.userRide == s.userRideStarted
  }

  /** A demo ride: riding, and no user's. */
  predicate OnDemo(s: Scooter) { s.phase == Riding && !s.userRide }

  /** A status keeps the scooter sound and where it is, starts no demo ride, and sets what it says. */
  lemma StatusKeeps(s: Scooter, status: ServerStatus, now: real, recharge: real, pick: Point)
    requires Sound(s)
    ensures var t := AfterStatus(s, status, now, recharge, pick);
      && Sound(t) && t.position == s.position && t.battery == s.battery
      && (OnDemo(t) ==> OnDemo(s))
      && (status.Unavailable? ==> t.phase == Charging && !t.parked && !t.userRide)
      && (status.Reserved? ==> t.phase != Riding && t.parked && !t.userRide)
      && (status.Available? ==> !t.parked && !t.userRide)
      && (status.InUse? ==> t.userRide && (status.paused ==> t.phase == Idle && t.parked))
      && (status.InUse? && !status.paused && s.battery > 0.0 ==> t.phase == Riding)
  {}

  /** Pausing and resuming a user's ride keeps its leg. */
  lemma PauseKeepsLeg(s: Scooter, now: real, recharge: real, pick: Point, later: Point)
    requires Sound(s) && s.phase == Riding && s.userRide
    ensures AfterStatus(AfterStatus(s, InUse(true), now, recharge, pick), InUse(false), now, recharge, later)
            == s.(idleTicks := 0)
  {}

  lemma TickKeeps(w: World, s: Scooter, dt: real, now: real, pick: Point, level: real)
    requires Usable(w) && Sound(s) && 0.0 <= dt && 85.0 <= level <= 100.0
    ensures var t := AfterTick(w, s, dt, now, pick, level);
      && Sound(t)
      && t.userRide == s.userRide && t.parked == s.parked
      && (t.phase == Riding ==> s.phase == Riding)
      && (s.phase != Riding ==> t.position == s.position)
      && (t.battery > s.battery ==> Charged(s, now))
  {
    if s.phase == Riding {
      RideKeeps(w, s, dt, pick);
    }
  }

  lemma RideKeeps(w: World, s: Scooter, dt: real, pick: Point)
    requires Usable(w) && Sound(s) && s.phase == Riding && 0.0 <= dt
    ensures RideKept(s, AfterRide(w, s, dt, pick))
  {
    LegKeeps(w, s, dt, Leg(w, s, dt), pick);
  }

  predicate RideKept(s: Scooter, t: Scooter) {
    Sound(t) && t.battery <= s.battery && t.userRide == s.userRide && t.parked == s.parked && t.phase != Charging
  }

  lemma LegKeeps(w: World, s: Scooter, dt: real, leg: (Point, bool), pick: Point)
    requires Usable(w) && Sound(s) && s.phase == Riding && 0.0 <= dt
    ensures RideKept(s, AfterLeg(w, s, dt, leg, pick))
  {
    DrainIsLoss(w, s, leg.0, dt);
    ArrivedKeeps(s, leg.0, Drain(w, s, leg.0, dt), leg.1, pick);
  }

  lemma ArrivedKeeps(s: Scooter, to: Point, drain: real, reached: bool, pick: Point)
    requires Sound(s) && s.phase == Riding && drain >= 0.0
    ensures RideKept(s, Arrived(Moved(s, to, drain), reached, pick))
  {}

  lemma StepLengthSign(w: World, dt: real)
    requires 0.0 <= w.config.speed && 0.0 <= dt
    ensures StepLength(w, dt) >= 0.0
  {
    Product(w.config.speed, dt);
  }

  lemma DrainIsLoss(w: World, s: Scooter, to: Point, dt: real)
    requires Usable(w) && 0.0 <= dt
    ensures Drain(w, s, to, dt) >= 0.0
  {
    Product(w.km(s.position, to), w.config.drainPerKm);
    Product(w.config.drainPerMinute, dt);
  }

  /** A user inside some zone is inside some zone after any tick. */
  lemma TickKeepsZone(w: World, s: Scooter, dt: real, now: real, pick: Point, level: real)
    requires Sound(s) && 0.0 <= w.config.speed && 0.0 <= dt
    requires s.userRide && InSomeZone(w.zones, s.position)
    ensures InSomeZone(w.zones, AfterTick(w, s, dt, now, pick, level).position)
  {
    var t := AfterTick(w, s, dt, now, pick, level);
    if t.position != s.position {
      ZoneOfFinds(w.zones, s.position);
      ZoneOfFinds(w.zones, t.position);
      assert SimInside(t.position, ZoneOf(w.zones, s.position).value);
    }
  }

  /** A step ends between its ends, and at the target when it says so. */
  lemma StepIsBetween(from: Point, to: Point, remaining: real, km: real)
    requires 0.0 <= km
    ensures var (at, reached) := StepTowards(from, to, remaining, km);
      && (reached ==> at == to)
      && Min(from.lat, to.lat) <= at.lat <= Max(from.lat, to.lat)
      && Min(from.lon, to.lon) <= at.lon <= Max(from.lon, to.lon)
  {
    if remaining > km {
      var f := km / remaining;
      FractionInRange(km, remaining);
      Convex(from.lat, to.lat, f);
      Convex(from.lon, to.lon, f);
      assert (to.lat - from.lat) * f == f * (to.lat - from.lat);
      assert (to.lon - from.lon) * f == f * (to.lon - from.lon);
    }
  }

  lemma FractionInRange(x: real, y: real)
    requires 0.0 <= x < y
    ensures 0.0 <= x / y <= 1.0
  {
    Quotient(x, 1.0, y);
    ProductSign(x / y, y);
    ProductSign(1.0 - x / y, y);
  }

  /** A demo ride between points of a box never leaves it. */
  lemma DemoStaysInBox(w: World, s: Scooter, dt: real, pick: Point, box: Box)
    requires Usable(w) && Sound(s) && OnDemo(s) && 0.0 <= dt
    requires InBox(s.position, box) && InBox(s.target.value, box)
    ensures var t := AfterRide(w, s, dt, pick);
      InBox(t.position, box) && (t.target.Some? ==> InBox(t.target.value, box))
  {
    LegInBox(w, s, dt, box);
    DemoGoesAlongLeg(w, s, dt, Leg(w, s, dt), pick);
  }

  lemma LegInBox(w: World, s: Scooter, dt: real, box: Box)
    requires Usable(w) && s.target.Some? && 0.0 <= dt
    requires InBox(s.position, box) && InBox(s.target.value, box)
    ensures InBox(Leg(w, s, dt).0, box)
  {
    StepLengthSign(w, dt);
    StepInBox(s.position, s.target.value, w.km(s.position, s.target.value), StepLength(w, dt), box);
  }

  lemma StepInBox(from: Point, to: Point, remaining: real, km: real, box: Box)
    requires 0.0 <= km && InBox(from, box) && InBox(to, box)
    ensures InBox(StepTowards(from, to, remaining, km).0, box)
  {
    StepIsBetween(from, to, remaining, km);
  }

  lemma DemoGoesAlongLeg(w: World, s: Scooter, dt: real, leg: (Point, bool), pick: Point)
    requires OnDemo(s)
    ensures var t := AfterLeg(w, s, dt, leg, pick);
      t.position == leg.0 && (t.target == s.target || t.target == None)
  {}

  // ----- drawn points

  function BoundingBox(points: seq<Point>): (box: Box)
    requires points != []
    ensures forall p :: p in points ==> InBox(p, box)
    ensures box.minLat <= box.maxLat && box.minLon <= box.maxLon
  {
    var last := points[|points| - 1];
    if |points| == 1 then Box(last.lat, last.lat, last.lon, last.lon)
    else
      var b := BoundingBox(points[..|points| - 1]);
      assert points == points[..|points| - 1] + [last];
      Box(Min(b.minLat, last.lat), Max(b.maxLat, last.lat), Min(b.minLon, last.lon), Max(b.maxLon, last.lon))
  }

  lemma {:induction false} SumBetween(xs: seq<real>, lo: real, hi: real)
    requires forall i :: 0 <= i < |xs| ==> lo <= xs[i] <= hi
    ensures lo * |xs| as real <= Sum(xs) <= hi * |xs| as real
  {
    if xs != [] {
      var n := |xs| - 1;
      assert |xs| as real == (n + 1) as real && lo <= xs[n] <= hi;
      SumBetween(xs[..n], lo, hi);
      OneMore(lo, n);
      OneMore(hi, n);
    }
  }

  lemma OneMore(x: real, n: nat)
    ensures x * (n + 1) as real == x * n as real + x
  {
    assert (n + 1) as real == n as real + 1.0;
  }

  lemma MeanBetween(xs: seq<real>, lo: real, hi: real)
    requires xs != [] && forall i :: 0 <= i < |xs| ==> lo <= xs[i] <= hi
    ensures lo <= Mean(xs) <= hi
  {
    SumBetween(xs, lo, hi);
    QuotientBetween(lo, hi, Sum(xs), |xs| as real);
  }

  lemma QuotientBetween(lo: real, hi: real, sum: real, n: real)
    requires n > 0.0 && lo * n <= sum <= hi * n
    ensures lo <= sum / n <= hi
  {
    Quotient(sum, 1.0, n);
    ProductSign(sum / n - lo, n);
    ProductSign(hi - sum / n, n);
  }

  /** Whatever is drawn for a zone lies within its vertices' bounds. */
  lemma DrawnInBounds(zone: seq<Point>, p: Point)
    requires DrawnIn(zone, p)
    ensures InBox(p, BoundingBox(zone))
  {
    if SimInside(p, zone) {
      SimInsideIsInside(p, zone);
      InsideMeansInBox(p, zone, BoundingBox(zone));
    } else {
      CentroidInBox(zone, BoundingBox(zone));
    }
  }

  lemma CentroidInBox(zone: seq<Point>, box: Box)
    requires zone != [] && forall p :: p in zone ==> InBox(p, box)
    ensures InBox(Centroid(zone), box)
  {
    forall i | 0 <= i < |zone| ensures InBox(zone[i], box) { assert zone[i] in zone; }
    MeanBetween(seq(|zone|, i requires 0 <= i < |zone| => zone[i].lat), box.minLat, box.maxLat);
    MeanBetween(seq(|zone|, i requires 0 <= i < |zone| => zone[i].lon), box.minLon, box.maxLon);
  }

  /** The corners of a box are a convex zone, and what lies strictly in the box is inside it for both
      programs. */
  lemma CornersHoldTheBox(box: Box, p: Point)
    requires box.minLat < p.lat < box.maxLat && box.minLon < p.lon < box.maxLon
    ensures InPolygon(p, Corners(box)) && SimInside(p, Corners(box))
  {
    var ring := Corners(box);
    var back := Reverse(ring);
    assert back == [ring[3], ring[2], ring[1], ring[0]];
    BoxSides(box, p, back);
    BoxCorners(box, back);
    ConvexZones.ConvexZoneExactly(p, ring);
  }

  /** The sides of a box walked from its north-western corner, the corner of the greatest latitude and
      the least longitude. */
  lemma BoxSides(box: Box, p: Point, back: seq<Point>)
    requires box.minLat < p.lat < box.maxLat && box.minLon < p.lon < box.maxLon
    requires back == [Corners(box)[3], Corners(box)[2], Corners(box)[1], Corners(box)[0]]
    ensures ConvexZones.LeftOfAll(p, back)
  {
    forall i | 0 <= i < 4 ensures Cross(p, back[i], ConvexZones.After(back, i)) > 0.0 {
      SideOfBox(box, p, i);
    }
  }

  lemma SideOfBox(box: Box, p: Point, i: nat)
    requires box.minLat <= p.lat <= box.maxLat && box.minLon <= p.lon <= box.maxLon && i < 4
    requires box.minLat < box.maxLat && box.minLon < box.maxLon
    ensures var c := Corners(box);
      && (i == 0 ==> (Cross(p, c[3], c[2]) > 0.0 <==> p.lat < box.maxLat))
      && (i == 1 ==> (Cross(p, c[2], c[1]) > 0.0 <==> p.lon < box.maxLon))
      && (i == 2 ==> (Cross(p, c[1], c[0]) > 0.0 <==> p.lat > box.minLat))
      && (i == 3 ==> (Cross(p, c[0], c[3]) > 0.0 <==> p.lon > box.minLon))
  {
    AlongLatitude(p, box.maxLat, box.minLon, box.maxLon);
    AlongLatitude(p, box.minLat, box.maxLon, box.minLon);
    AlongLongitude(p, box.maxLon, box.maxLat, box.minLat);
    AlongLongitude(p, box.minLon, box.minLat, box.maxLat);
  }

  /** On the left of an edge along a parallel, and of one along a meridian. */
  lemma AlongLatitude(p: Point, lat: real, a: real, b: real)
    requires a != b
    ensures Cross(p, Point(lat, a), Point(lat, b)) > 0.0 <==> if a < b then p.lat < lat else p.lat > lat
  {
    SignsAgree(b - a, lat - p.lat);
    Opposite(b - a, p.lat - lat);
  }

  lemma AlongLongitude(p: Point, lon: real, a: real, b: real)
    requires a != b
    ensures Cross(p, Point(a, lon), Point(b, lon)) > 0.0 <==> if a < b then p.lon > lon else p.lon < lon
  {
    SignsAgree(b - a, p.lon - lon);
  }

  lemma SignsAgree(x: real, y: real)
    requires x != 0.0
    ensures x * y > 0.0 <==> if x > 0.0 then y > 0.0 else y < 0.0
  {}

  lemma Opposite(x: real, y: real)
    ensures 0.0 * x - x * y == x * -y
  {}

  lemma BoxCorners(box: Box, back: seq<Point>)
    requires box.minLat < box.maxLat && box.minLon < box.maxLon
    requires back == [Corners(box)[3], Corners(box)[2], Corners(box)[1], Corners(box)[0]]
    ensures ConvexZones.StrictlyConvex(back)
  {
    forall i, j | 0 <= i < 4 && 0 <= j < 4 && j != i && j != ConvexZones.NextIndex(i, 4)
      ensures Cross(back[j], back[i], ConvexZones.After(back, i)) > 0.0
    {
      SideOfBox(box, back[j], i);
    }
  }

  // ----- zones of the backend

  /** When the backend has a zone one can draw, a place the fleet calls inside is one where the
      backend lets a ride end; when it has none, no place is. */
  lemma ZonesAgree(backend: seq<seq<Point>>, p: Point)
    ensures Drawable(backend) != [] && InSomeZone(FleetZones(backend), p) ==> Services.InService(backend, p)
    ensures Drawable(backend) == [] ==> !Services.InService(backend, p)
  {
    if Drawable(backend) != [] && InSomeZone(FleetZones(backend), p) {
      var zone := ZoneOf(FleetZones(backend), p).value;
      ZoneOfFinds(FleetZones(backend), p);
      SimInsideIsInside(p, zone);
      assert zone in backend;
      var z :| 0 <= z < |backend| && backend[z] == zone;
      assert InPolygon(p, backend[z]);
    }
    if Drawable(backend) == [] {
      forall z | 0 <= z < |backend| ensures !InPolygon(p, backend[z]) {
        assert backend[z] in backend;
        assert backend[z] !in Drawable(backend);
      }
    }
  }
}
