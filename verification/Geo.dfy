/** Point in polygon on exact reals, as the backend and as the simulator decide it
    (backend/app/geo.py, simulator/scootersim/geo.py). */
module Geo {

  datatype Point = Point(lat: real, lon: real)

  /** Cross products within this tolerance count as lying on the edge. */
  const BOUNDARY_EPS := 0.000000000001

  function Abs(x: real): real { if x < 0.0 then -x else x }
  function Min(x: real, y: real): real { if x <= y then x else y }
  function Max(x: real, y: real): real { if x <= y then y else x }

  function Cross(p: Point, a: Point, b: Point): real {
    (b.lat - a.lat) * (p.lon - a.lon) - (b.lon - a.lon) * (p.lat - a.lat)
  }

  predicate OnSegment(p: Point, a: Point, b: Point) {
    && Abs(Cross(p, a, b)) <= BOUNDARY_EPS
    && Min(a.lat, b.lat) <= p.lat <= Max(a.lat, b.lat)
    && Min(a.lon, b.lon) <= p.lon <= Max(a.lon, b.lon)
  }

  predicate Straddles(p: Point, a: Point, b: Point) {
    (a.lon > p.lon) != (b.lon > p.lon)
  }

  function LatAtRay(p: Point, a: Point, b: Point): real
    requires Straddles(p, a, b)
  {
    a.lat + (p.lon - a.lon) * (b.lat - a.lat) / (b.lon - a.lon)
  }

  /** What can be asked of an edge: does the ray from `p` towards +lat cross it, the ray towards
      -lat, either of them or the point itself, or does `p` lie on it within the tolerance? */
  datatype Test = North | South | Straddle | Touch

  predicate Passes(t: Test, p: Point, a: Point, b: Point) {
    match t
    case North => Straddles(p, a, b) && p.lat < LatAtRay(p, a, b)
    case South => Straddles(p, a, b) && p.lat > LatAtRay(p, a, b)
    case Straddle => Straddles(p, a, b)
    case Touch => OnSegment(p, a, b)
  }

  function One(t: Test, p: Point, a: Point, b: Point): nat { if Passes(t, p, a, b) then 1 else 0 }

  /** How many edges of an open path pass the test. */
  function Count(t: Test, p: Point, path: seq<Point>): nat {
    if |path| < 2 then 0
    else Count(t, p, path[..|path| - 1]) + One(t, p, path[|path| - 2], path[|path| - 1])
  }

  /** A vertex list walked back to its first vertex. */
  function Closed(ring: seq<Point>): seq<Point> {
    if ring == [] then [] else ring + [ring[0]]
  }

  /** The list without a repeated closing vertex. */
  function Ring(polygon: seq<Point>): seq<Point> {
    if |polygon| >= 2 && polygon[0] == polygon[|polygon| - 1] then polygon[..|polygon| - 1] else polygon
  }

  predicate Touches(p: Point, ring: seq<Point>) { Count(Touch, p, Closed(ring)) > 0 }

  predicate OddCrossings(p: Point, ring: seq<Point>) { Count(North, p, Closed(ring)) % 2 == 1 }

  predicate RingContains(p: Point, ring: seq<Point>) {
    |ring| >= 3 && (Touches(p, ring) || OddCrossings(p, ring))
  }

  /** What the backend answers. */
  predicate InPolygon(p: Point, polygon: seq<Point>) { RingContains(p, Ring(polygon)) }

  /** What the simulator answers. */
  predicate SimInside(p: Point, polygon: seq<Point>) { |polygon| >= 3 && OddCrossings(p, polygon) }

  // ----- the two loops

  /** Walking one edge further adds that edge. */
  lemma CountStep(t: Test, p: Point, ring: seq<Point>, i: nat)
    requires i < |ring|
    ensures Count(t, p, Closed(ring)[..i + 2])
            == Count(t, p, Closed(ring)[..i + 1]) + One(t, p, ring[i], ring[(i + 1) % |ring|])
  {
    var path := Closed(ring)[..i + 2];
    assert path[..i + 1] == Closed(ring)[..i + 1];
    if i + 1 < |ring| {
      assert (i + 1) % |ring| == i + 1;
    }
    assert path[i] == ring[i] && path[i + 1] == ring[(i + 1) % |ring|];
  }

  /** An edge the ray crosses flips the parity, any other keeps it. */
  lemma ParityStep(p: Point, ring: seq<Point>, i: nat)
    requires i < |ring|
    ensures Count(North, p, Closed(ring)[..i + 2]) % 2 == 1
      <==> (Count(North, p, Closed(ring)[..i + 1]) % 2 == 1) != Passes(North, p, ring[i], ring[(i + 1) % |ring|])
  {
    CountStep(North, p, ring, i);
    Flip(Count(North, p, Closed(ring)[..i + 1]), Passes(North, p, ring[i], ring[(i + 1) % |ring|]));
  }

  lemma Flip(n: nat, crossed: bool)
    ensures (n + if crossed then 1 else 0) % 2 == 1 <==> (n % 2 == 1) != crossed
  {}

  lemma {:induction false} CountMonotone(t: Test, p: Point, path: seq<Point>, n: nat)
    requires n <= |path|
    ensures Count(t, p, path[..n]) <= Count(t, p, path)
    decreases |path|
  {
    if n == |path| {
      assert path[..n] == path;
    } else if |path| >= 2 {
      CountMonotone(t, p, path[..|path| - 1], n);
      assert path[..|path| - 1][..n] == path[..n];
    }
  }

  /** The backend's `point_in_polygon`. */
  method PointInPolygon(point: Point, polygon: seq<Point>) returns (answer: bool)
    ensures answer == InPolygon(point, polygon)
  {
    var vertices := polygon;
    if |vertices| >= 2 && vertices[0] == vertices[|vertices| - 1] {
      vertices := vertices[..|vertices| - 1];
    }
    if |vertices| < 3 {
      return false;
    }
    var inside := false;
    for index := 0 to |vertices|
      invariant Count(Touch, point, Closed(vertices)[..index + 1]) == 0
      invariant inside <==> Count(North, point, Closed(vertices)[..index + 1]) % 2 == 1
    {
      var a, b := vertices[index], vertices[(index + 1) % |vertices|];
      if OnSegment(point, a, b) {
        TouchedEdge(point, vertices, index);
        return true;
      }
      CountStep(Touch, point, vertices, index);
      ParityStep(point, vertices, index);
      if Straddles(point, a, b) {
        if point.lat < LatAtRay(point, a, b) {
          inside := !inside;
        }
      }
    }
    assert Closed(vertices)[..|vertices| + 1] == Closed(vertices);
    return inside;
  }

  /** The simulator's `point_in_polygon`. */
  method SimPointInPolygon(point: Point, polygon: seq<Point>) returns (answer: bool)
    ensures answer == SimInside(point, polygon)
  {
    if |polygon| < 3 {
      return false;
    }
    var inside := false;
    for i := 0 to |polygon|
      invariant inside <==> Count(North, point, Closed(polygon)[..i + 1]) % 2 == 1
    {
      var a, b := polygon[i], polygon[(i + 1) % |polygon|];
      ParityStep(point, polygon, i);
      if Straddles(point, a, b) {
        if point.lat < LatAtRay(point, a, b) {
          inside := !inside;
        }
      }
    }
    assert Closed(polygon)[..|polygon| + 1] == Closed(polygon);
    return inside;
  }

  // ----- one edge

  /** How far along an edge the ray's longitude lies. */
  function Share(p: Point, a: Point, b: Point): real
    requires Straddles(p, a, b)
  {
    (p.lon - a.lon) / (b.lon - a.lon)
  }

  lemma Quotient(x: real, y: real, z: real)
    requires z != 0.0
    ensures x * y / z == x / z * y
    ensures x / z * z == x
  {}

  lemma ShareInRange(p: Point, a: Point, b: Point)
    requires Straddles(p, a, b)
    ensures 0.0 <= Share(p, a, b) <= 1.0
    ensures Share(p, a, b) * (b.lon - a.lon) == p.lon - a.lon
    ensures LatAtRay(p, a, b) == a.lat + Share(p, a, b) * (b.lat - a.lat)
  {
    var d, t := b.lon - a.lon, Share(p, a, b);
    Quotient(p.lon - a.lon, b.lat - a.lat, d);
    if d > 0.0 {
      ProductSign(t, d);
      ProductSign(1.0 - t, d);
    } else {
      ProductSign(t, -d);
      ProductSign(1.0 - t, -d);
    }
  }

  lemma ProductSign(t: real, d: real)
    requires d > 0.0
    ensures t * d >= 0.0 ==> t >= 0.0
  {}

  /** The crossing latitude lies between the edge's ends. */
  lemma LatAtRayBetween(p: Point, a: Point, b: Point)
    requires Straddles(p, a, b)
    ensures Min(a.lat, b.lat) <= LatAtRay(p, a, b) <= Max(a.lat, b.lat)
  {
    ShareInRange(p, a, b);
    Convex(a.lat, b.lat, Share(p, a, b));
  }

  lemma Convex(x: real, y: real, t: real)
    requires 0.0 <= t <= 1.0
    ensures Min(x, y) <= x + t * (y - x) <= Max(x, y)
  {
    if x <= y {
      Product(t, y - x);
      Product(1.0 - t, y - x);
      assert (1.0 - t) * (y - x) == (y - x) - t * (y - x);
    } else {
      Product(t, x - y);
      Product(1.0 - t, x - y);
      assert (1.0 - t) * (x - y) == (x - y) - t * (x - y);
      assert t * (y - x) == -(t * (x - y));
    }
  }

  lemma Product(x: real, y: real)
    requires x >= 0.0 && y >= 0.0
    ensures x * y >= 0.0
  {}

  /** A point `t` of the way along an edge lies on it. */
  lemma EdgePointTouches(p: Point, a: Point, b: Point, t: real)
    requires 0.0 <= t <= 1.0
    requires p == Point(a.lat + t * (b.lat - a.lat), a.lon + t * (b.lon - a.lon))
    ensures OnSegment(p, a, b)
  {
    Convex(a.lat, b.lat, t);
    Convex(a.lon, b.lon, t);
    Commute(b.lat - a.lat, b.lon - a.lon, t);
  }

  lemma Commute(x: real, y: real, t: real)
    ensures x * (t * y) == y * (t * x)
  {}

  /** An edge crossing the ray's longitude goes north of the point, or south, or through it. */
  lemma NorthOrSouth(p: Point, a: Point, b: Point)
    requires !OnSegment(p, a, b)
    ensures One(North, p, a, b) + One(South, p, a, b) == One(Straddle, p, a, b)
  {
    if Straddles(p, a, b) && p.lat == LatAtRay(p, a, b) {
      ShareInRange(p, a, b);
      EdgePointTouches(p, a, b, Share(p, a, b));
    }
  }

  lemma LatAtRayIsSymmetric(p: Point, a: Point, b: Point)
    requires Straddles(p, a, b)
    ensures LatAtRay(p, a, b) == LatAtRay(p, b, a)
  {
    ShareInRange(p, a, b);
    ShareInRange(p, b, a);
    SharesAddUp(Share(p, a, b), Share(p, b, a), b.lon - a.lon, p.lon - a.lon);
    FromEitherEnd(a.lat, b.lat, Share(p, a, b));
  }

  /** The shares of an edge on both sides of a point make up the whole. */
  lemma SharesAddUp(t: real, u: real, d: real, x: real)
    requires d != 0.0 && t * d == x && u * -d == x - d
    ensures u == 1.0 - t
  {
    Expand(t, u, d);
    NoZeroDivisor(t + u - 1.0, d);
  }

  lemma Expand(t: real, u: real, d: real)
    ensures (t + u - 1.0) * d == t * d - u * -d - d
  {}

  lemma NoZeroDivisor(x: real, d: real)
    requires d != 0.0 && x * d == 0.0
    ensures x == 0.0
  {}

  lemma FromEitherEnd(x: real, y: real, t: real)
    ensures x + t * (y - x) == y + (1.0 - t) * (x - y)
  {}

  /** No test depends on the direction in which an edge is walked. */
  lemma PassesBothWays(t: Test, p: Point, a: Point, b: Point)
    ensures Passes(t, p, a, b) == Passes(t, p, b, a)
  {
    if Straddles(p, a, b) {
      LatAtRayIsSymmetric(p, a, b);
    }
    assert Cross(p, a, b) == -Cross(p, b, a) by {
      var x, y, u, v := b.lat - a.lat, b.lon - a.lon, p.lon - a.lon, p.lat - a.lat;
      CrossReversed(x, y, u, v);
      assert p.lon - b.lon == u - y && p.lat - b.lat == v - x;
    }
  }

  lemma CrossReversed(x: real, y: real, u: real, v: real)
    ensures (-x) * (u - y) - (-y) * (v - x) == -(x * u - y * v)
  {}

  /** A degenerate edge is crossed by no ray, and touched only through its neighbour. */
  lemma DegenerateEdge(t: Test, p: Point, a: Point)
    ensures t != Touch ==> !Passes(t, p, a, a)
    ensures Passes(Touch, p, a, a) ==> p == a
  {}

  // ----- paths

  lemma {:induction false} CountConcat(t: Test, p: Point, left: seq<Point>, m: Point, right: seq<Point>)
    ensures Count(t, p, left + [m] + right) == Count(t, p, left + [m]) + Count(t, p, [m] + right)
    decreases |right|
  {
    var n := |right|;
    if n == 0 {
      assert left + [m] + right == left + [m];
    } else {
      var whole, tail := left + [m] + right, [m] + right;
      CountConcat(t, p, left, m, right[..n - 1]);
      assert whole[..|whole| - 1] == left + [m] + right[..n - 1];
      assert tail[..|tail| - 1] == [m] + right[..n - 1];
      assert whole[|whole| - 2] == tail[|tail| - 2];
    }
  }

  function Reverse(path: seq<Point>): (r: seq<Point>)
    ensures |r| == |path|
    ensures forall i :: 0 <= i < |r| ==> r[i] == path[|path| - 1 - i]
  {
    if path == [] then [] else [path[|path| - 1]] + Reverse(path[..|path| - 1])
  }

  lemma {:induction false} CountReverse(t: Test, p: Point, path: seq<Point>)
    ensures Count(t, p, Reverse(path)) == Count(t, p, path)
  {
    var n := |path|;
    if n >= 2 {
      var a, b := path[n - 2], path[n - 1];
      var init := path[..n - 1];
      CountReverse(t, p, init);
      assert Reverse(init) == [a] + Reverse(init)[1..];
      assert Reverse(path) == [] + [b] + ([a] + Reverse(init)[1..]);
      assert [b] + [a] + Reverse(init)[1..] == Reverse(path);
      CountConcat(t, p, [b], a, Reverse(init)[1..]);
      assert Count(t, p, [b] + [a]) == One(t, p, b, a) by { assert ([b] + [a])[..1] == [b]; }
      PassesBothWays(t, p, a, b);
    }
  }

  function Rotate(ring: seq<Point>, k: nat): (r: seq<Point>)
    requires k <= |ring|
    ensures |r| == |ring|
  {
    ring[k..] + ring[..k]
  }

  lemma SplitRing(ring: seq<Point>, k: nat)
    requires 0 < k < |ring|
    ensures var a, m, left, right := ring[0], ring[k], ring[1..k], ring[k + 1..];
      && Closed(ring) == [a] + left + [m] + (right + [a])
      && Closed(Rotate(ring, k)) == [m] + right + [a] + (left + [m])
  {
    var a, m, left, right := ring[0], ring[k], ring[1..k], ring[k + 1..];
    assert ring[..k] == [a] + left && ring[k..] == [m] + right;
    assert ring == ring[..k] + ring[k..];
  }

  /** Starting a ring elsewhere keeps every count. */
  lemma CountRotate(t: Test, p: Point, ring: seq<Point>, k: nat)
    requires k <= |ring|
    ensures Count(t, p, Closed(Rotate(ring, k))) == Count(t, p, Closed(ring))
  {
    if 0 < k < |ring| {
      var a, m := ring[0], ring[k];
      var left, right := ring[1..k], ring[k + 1..];
      SplitRing(ring, k);
      CountConcat(t, p, [a] + left, m, right + [a]);
      CountConcat(t, p, [m] + right, a, left + [m]);
      assert [m] + (right + [a]) == [m] + right + [a];
      assert [a] + (left + [m]) == [a] + left + [m];
    } else {
      assert Rotate(ring, k) == ring;
    }
  }

  /** Walking a ring backwards keeps every count. */
  lemma CountReverseRing(t: Test, p: Point, ring: seq<Point>)
    ensures Count(t, p, Closed(Reverse(ring))) == Count(t, p, Closed(ring))
  {
    if ring == [] {
      assert Reverse(ring) == ring;
    } else {
      CountReverse(t, p, Closed(ring));
      CountRotate(t, p, Reverse(ring), |ring| - 1);
      ReversedWalk(ring);
    }
  }

  /** Walked backwards, a closed ring is the reversed ring started at its last vertex. */
  lemma ReversedWalk(ring: seq<Point>)
    requires ring != []
    ensures Closed(Rotate(Reverse(ring), |ring| - 1)) == Reverse(Closed(ring))
  {
    LastFirst(Reverse(ring));
    assert Closed(ring)[..|ring|] == ring;
  }

  lemma LastFirst(ring: seq<Point>)
    requires ring != []
    ensures Closed(Rotate(ring, |ring| - 1)) == [ring[|ring| - 1]] + ring
  {
    var n := |ring| - 1;
    assert ring == ring[..n] + [ring[n]];
    assert Rotate(ring, n) == [ring[n]] + ring[..n];
  }

  // ----- the even-odd rule is well defined

  lemma {:induction false} StraddleParity(p: Point, path: seq<Point>)
    requires path != []
    ensures Count(Straddle, p, path) % 2 == if Straddles(p, path[0], path[|path| - 1]) then 1 else 0
  {
    if |path| >= 2 {
      StraddleParity(p, path[..|path| - 1]);
    }
  }

  lemma {:induction false} UntouchedSplits(p: Point, path: seq<Point>)
    requires Count(Touch, p, path) == 0
    ensures Count(North, p, path) + Count(South, p, path) == Count(Straddle, p, path)
  {
    if |path| >= 2 {
      UntouchedSplits(p, path[..|path| - 1]);
      NorthOrSouth(p, path[|path| - 2], path[|path| - 1]);
    }
  }

  /** Any ring crosses the ray's longitude an even number of times, so off the boundary casting
      north or south gives the same answer. */
  lemma EitherRayAnswers(p: Point, ring: seq<Point>)
    ensures Count(Straddle, p, Closed(ring)) % 2 == 0
    ensures !Touches(p, ring) ==>
      Count(North, p, Closed(ring)) % 2 == Count(South, p, Closed(ring)) % 2
  {
    if ring != [] {
      StraddleParity(p, Closed(ring));
      if !Touches(p, ring) {
        UntouchedSplits(p, Closed(ring));
      }
    }
  }

  /** Reversing the list never changes the backend's answer. */
  lemma Reversed(p: Point, polygon: seq<Point>)
    ensures InPolygon(p, Reverse(polygon)) == InPolygon(p, polygon)
  {
    if Ring(polygon) == polygon {
      assert Ring(Reverse(polygon)) == Reverse(polygon);
      CountReverseRing(Touch, p, polygon);
      CountReverseRing(North, p, polygon);
    } else {
      var ring := Ring(polygon);
      assert polygon == Closed(ring);
      assert Closed(Ring(Reverse(polygon))) == Reverse(polygon);
      CountReverse(Touch, p, polygon);
      CountReverse(North, p, polygon);
    }
  }

  /** Nor does closing an open list. */
  lemma ClosedOrOpen(p: Point, polygon: seq<Point>)
    requires polygon != [] && Ring(polygon) == polygon
    ensures InPolygon(p, polygon + [polygon[0]]) == InPolygon(p, polygon)
  {
    assert Ring(polygon + [polygon[0]]) == polygon;
  }

  lemma DroppedRepeat(p: Point, ring: seq<Point>)
    requires |ring| >= 2 && ring[0] == ring[|ring| - 1]
    ensures Count(North, p, Closed(ring)) == Count(North, p, ring)
    ensures Touches(p, ring) <==> Count(Touch, p, ring) > 0
  {
    var n := |ring|;
    assert Closed(ring)[..n] == ring;
    DegenerateEdge(North, p, ring[0]);
    if Passes(Touch, p, ring[0], ring[0]) {
      EdgePointTouches(p, ring[n - 2], ring[n - 1], 1.0);
    }
  }

  lemma TwoVertices(p: Point, a: Point, b: Point)
    ensures Count(North, p, [a, b, a]) % 2 == 0
  {
    PassesBothWays(North, p, a, b);
    assert [a, b, a][..2] == [a, b] && [a, b][..1] == [a];
    assert Count(North, p, [a]) == 0;
    assert Count(North, p, [a, b]) == One(North, p, a, b);
    assert Count(North, p, [a, b, a]) == Count(North, p, [a, b]) + One(North, p, b, a);
  }

  /** Three listed points of which the last repeats the first: two vertices are left. */
  predicate Collapses(polygon: seq<Point>) { |polygon| == 3 && polygon[0] == polygon[2] }

  /** The backend's answer read off the list as given, its closing vertex kept. */
  lemma AnswerOfList(p: Point, polygon: seq<Point>)
    ensures InPolygon(p, polygon)
      <==> |polygon| >= 3 && !Collapses(polygon) && (Touches(p, polygon) || OddCrossings(p, polygon))
    ensures Collapses(polygon) ==> !OddCrossings(p, polygon)
  {
    if Ring(polygon) != polygon {
      DroppedRepeat(p, polygon);
      assert Closed(Ring(polygon)) == polygon;
      if |polygon| == 3 {
        ClosingKeepsParity(p, polygon);
        SmallRingIsEven(p, Ring(polygon));
      }
    }
  }

  /** Starting a list, open or closed, at another vertex keeps the answer, except for one
      degenerate family: three listed points, of which the last repeats the first from one of the
      two starts and not from the other. From that start two vertices are left and every point is
      refused; from the other a point on the boundary is accepted. */
  lemma Rotated(p: Point, polygon: seq<Point>, k: nat)
    requires k <= |polygon|
    ensures InPolygon(p, Rotate(polygon, k)) == InPolygon(p, polygon)
      <==> !(Touches(p, polygon) && Collapses(polygon) != Collapses(Rotate(polygon, k)))
  {
    CountRotate(Touch, p, polygon, k);
    CountRotate(North, p, polygon, k);
    AnswerOfList(p, polygon);
    AnswerOfList(p, Rotate(polygon, k));
  }

  /** The degenerate family is real, for open and for closed lists. */
  lemma RotationCanMatter()
    ensures var a, b := Point(0.0, 0.0), Point(1.0, 0.0);
      && InPolygon(a, [a, a, b]) && !InPolygon(a, Rotate([a, a, b], 1))
      && !InPolygon(a, [a, b, a]) && InPolygon(a, Rotate([a, b, a], 1))
  {
    var a, b := Point(0.0, 0.0), Point(1.0, 0.0);
    assert Rotate([a, a, b], 1) == [a, b, a] && Ring([a, b, a]) == [a, b];
    EdgePointTouches(a, a, a, 0.0);
    TouchedEdge(a, [a, a, b], 0);
    assert Rotate([a, b, a], 1) == [b, a, a];
    TouchedEdge(a, [b, a, a], 1);
  }

  lemma TouchedEdge(p: Point, ring: seq<Point>, i: nat)
    requires i < |ring| && OnSegment(p, ring[i], ring[(i + 1) % |ring|])
    ensures Touches(p, ring)
  {
    CountStep(Touch, p, ring, i);
    CountMonotone(Touch, p, Closed(ring), i + 2);
  }

  /** Every exact point of an edge is inside. */
  lemma EdgePointsAreInside(polygon: seq<Point>, i: nat, t: real)
    requires |Ring(polygon)| >= 3 && i < |Ring(polygon)| && 0.0 <= t <= 1.0
    ensures InPolygon(AlongEdge(Ring(polygon), i, t), polygon)
  {
    var ring := Ring(polygon);
    EdgePointTouches(AlongEdge(ring, i, t), ring[i], ring[(i + 1) % |ring|], t);
    TouchedEdge(AlongEdge(ring, i, t), ring, i);
  }

  function AlongEdge(ring: seq<Point>, i: nat, t: real): Point
    requires i < |ring|
  {
    var a, b := ring[i], ring[(i + 1) % |ring|];
    Point(a.lat + t * (b.lat - a.lat), a.lon + t * (b.lon - a.lon))
  }

  // ----- inside means within the bounds of the vertices

  datatype Box = Box(minLat: real, maxLat: real, minLon: real, maxLon: real)

  predicate InBox(p: Point, box: Box) {
    box.minLat <= p.lat <= box.maxLat && box.minLon <= p.lon <= box.maxLon
  }

  lemma {:induction false} OutsideBoxCounts(p: Point, path: seq<Point>, box: Box)
    requires forall v :: v in path ==> InBox(v, box)
    requires !InBox(p, box)
    ensures Count(Touch, p, path) == 0
    ensures p.lat > box.maxLat || p.lon < box.minLon || p.lon > box.maxLon ==> Count(North, p, path) == 0
    ensures p.lat < box.minLat ==> Count(North, p, path) == Count(Straddle, p, path)
  {
    if |path| >= 2 {
      OutsideBoxCounts(p, path[..|path| - 1], box);
      var a, b := path[|path| - 2], path[|path| - 1];
      assert InBox(a, box) && InBox(b, box);
      if Straddles(p, a, b) {
        LatAtRayBetween(p, a, b);
      }
    }
  }

  /** A point found inside lies in every box that holds the vertices: on all four sides. */
  lemma InsideMeansInBox(p: Point, polygon: seq<Point>, box: Box)
    requires forall v :: v in polygon ==> InBox(v, box)
    requires InPolygon(p, polygon)
    ensures InBox(p, box)
  {
    var ring := Ring(polygon);
    if !InBox(p, box) {
      OutsideBoxCounts(p, Closed(ring), box);
      EitherRayAnswers(p, ring);
      assert false;
    }
  }

  // ----- the simulator's test against the backend's

  lemma ClosingKeepsParity(p: Point, polygon: seq<Point>)
    ensures OddCrossings(p, polygon) == OddCrossings(p, Ring(polygon))
  {
    if Ring(polygon) != polygon {
      DroppedRepeat(p, polygon);
      assert Closed(Ring(polygon)) == polygon;
    }
  }

  lemma SmallRingIsEven(p: Point, ring: seq<Point>)
    requires |ring| < 3
    ensures !OddCrossings(p, ring)
  {
    if |ring| == 2 {
      assert Closed(ring) == [ring[0], ring[1], ring[0]];
      TwoVertices(p, ring[0], ring[1]);
    } else if |ring| == 1 {
      assert Closed(ring) == [ring[0], ring[0]];
      DegenerateEdge(North, p, ring[0]);
      assert Count(North, p, [ring[0]]) == 0;
      assert [ring[0], ring[0]][..1] == [ring[0]];
    } else {
      assert Closed(ring) == [];
    }
  }

  /** For every list of points, open, closed or degenerate: what the simulator calls inside the
      backend calls inside, and off the boundary band the two tests agree. */
  lemma SimInsideIsInside(p: Point, polygon: seq<Point>)
    ensures SimInside(p, polygon) ==> InPolygon(p, polygon)
    ensures !Touches(p, Ring(polygon)) ==> SimInside(p, polygon) == InPolygon(p, polygon)
  {
    ClosingKeepsParity(p, polygon);
    if |Ring(polygon)| < 3 {
      SmallRingIsEven(p, Ring(polygon));
    }
  }
}
