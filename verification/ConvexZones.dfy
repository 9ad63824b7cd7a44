/** What even-odd ray casting answers, said without counting crossings along a ray: the law of
    crossings between two points, half-planes, and convex zones (backend/app/geo.py,
    simulator/scootersim/geo.py). */
module ConvexZones {
  import opened Geo

  function NextIndex(i: nat, n: nat): (k: nat)
    requires i < n
    ensures k < n
  {
    if i + 1 == n then 0 else i + 1
  }

  /** Where the edge that starts at vertex `i` ends. */
  function After(ring: seq<Point>, i: nat): Point
    requires i < |ring|
  {
    ring[NextIndex(i, |ring|)]
  }

  lemma AfterAsWalked(ring: seq<Point>, i: nat)
    requires i < |ring|
    ensures After(ring, i) == ring[(i + 1) % |ring|]
  {
    if i + 1 < |ring| {
      assert (i + 1) % |ring| == i + 1;
    }
  }

  // ----- the law of crossings

  /** The edge passes strictly between two points of one longitude. */
  predicate PassesBetween(p: Point, q: Point, a: Point, b: Point) {
    Straddles(p, a, b) && (p.lat < LatAtRay(p, a, b) < q.lat || q.lat < LatAtRay(p, a, b) < p.lat)
  }

  /** How many of the first `n` edges do. */
  function EdgesBetween(p: Point, q: Point, ring: seq<Point>, n: nat): nat
    requires n <= |ring|
  {
    if n == 0 then 0
    else EdgesBetween(p, q, ring, n - 1) + if PassesBetween(p, q, ring[n - 1], After(ring, n - 1)) then 1 else 0
  }

  lemma OffEdge(p: Point, ring: seq<Point>, i: nat)
    requires i < |ring| && !Touches(p, ring)
    ensures !OnSegment(p, ring[i], After(ring, i))
  {
    AfterAsWalked(ring, i);
    if OnSegment(p, ring[i], After(ring, i)) {
      TouchedEdge(p, ring, i);
    }
  }

  lemma OneEdge(p: Point, q: Point, a: Point, b: Point)
    requires p.lon == q.lon && !OnSegment(p, a, b) && !OnSegment(q, a, b)
    ensures PassesBetween(p, q, a, b) <==> Passes(North, p, a, b) != Passes(North, q, a, b)
  {
    NorthOrSouth(p, a, b);
    NorthOrSouth(q, a, b);
    if Straddles(p, a, b) {
      assert LatAtRay(p, a, b) == LatAtRay(q, a, b);
    }
  }

  /** The edges north of either point are those between the two and, twice, those north of both. */
  lemma {:induction false} EdgesBetweenTell(p: Point, q: Point, ring: seq<Point>, n: nat, path: seq<Point>)
    returns (both: nat)
    requires p.lon == q.lon && !Touches(p, ring) && !Touches(q, ring) && n <= |ring| && ring != []
    requires path == Closed(ring)[..n + 1]
    ensures EdgesBetween(p, q, ring, n) + 2 * both == Count(North, p, path) + Count(North, q, path)
  {
    if n == 0 {
      both := 0;
    } else {
      var before := Closed(ring)[..n];
      both := EdgesBetweenTell(p, q, ring, n - 1, before);
      var one := EdgeStep(p, q, ring, n - 1, before, path);
      both := both + one;
    }
  }

  lemma EdgeStep(p: Point, q: Point, ring: seq<Point>, i: nat, before: seq<Point>, path: seq<Point>) returns (one: nat)
    requires p.lon == q.lon && !Touches(p, ring) && !Touches(q, ring) && i < |ring|
    requires before == Closed(ring)[..i + 1] && path == Closed(ring)[..i + 2]
    ensures (if PassesBetween(p, q, ring[i], After(ring, i)) then 1 else 0) + 2 * one
      == Count(North, p, path) - Count(North, p, before) + Count(North, q, path) - Count(North, q, before)
  {
    NorthStep(p, ring, i, before, path);
    NorthStep(q, ring, i, before, path);
    OneEdgeOfRing(p, q, ring, i);
    one := if Passes(North, p, ring[i], After(ring, i)) && Passes(North, q, ring[i], After(ring, i)) then 1 else 0;
  }

  lemma NorthStep(p: Point, ring: seq<Point>, i: nat, before: seq<Point>, path: seq<Point>)
    requires i < |ring| && before == Closed(ring)[..i + 1] && path == Closed(ring)[..i + 2]
    ensures Count(North, p, path) - Count(North, p, before)
      == if Passes(North, p, ring[i], After(ring, i)) then 1 else 0
  {
    AfterAsWalked(ring, i);
    CountStep(North, p, ring, i);
  }

  lemma OneEdgeOfRing(p: Point, q: Point, ring: seq<Point>, i: nat)
    requires p.lon == q.lon && !Touches(p, ring) && !Touches(q, ring) && i < |ring|
    ensures PassesBetween(p, q, ring[i], After(ring, i))
      <==> Passes(North, p, ring[i], After(ring, i)) != Passes(North, q, ring[i], After(ring, i))
  {
    OffEdge(p, ring, i);
    OffEdge(q, ring, i);
    OneEdge(p, q, ring[i], After(ring, i));
  }

  /** Two points of one longitude off the boundary get one answer exactly when an even number of
      edges passes between them. */
  lemma CrossingLaw(p: Point, q: Point, polygon: seq<Point>)
    requires p.lon == q.lon && |Ring(polygon)| >= 3
    requires !Touches(p, Ring(polygon)) && !Touches(q, Ring(polygon))
    ensures InPolygon(p, polygon) == InPolygon(q, polygon)
      <==> EdgesBetween(p, q, Ring(polygon), |Ring(polygon)|) % 2 == 0
  {
    var ring := Ring(polygon);
    var both := EdgesBetweenTell(p, q, ring, |ring|, Closed(ring));
    OffTheBand(p, polygon);
    OffTheBand(q, polygon);
    Parities(EdgesBetween(p, q, ring, |ring|), both, Count(North, p, Closed(ring)), Count(North, q, Closed(ring)));
  }

  lemma OffTheBand(p: Point, polygon: seq<Point>)
    requires |Ring(polygon)| >= 3 && !Touches(p, Ring(polygon))
    ensures InPolygon(p, polygon) <==> Count(North, p, Closed(Ring(polygon))) % 2 == 1
  {}

  lemma Parities(e: nat, both: nat, m: nat, n: nat)
    requires e + 2 * both == m + n
    ensures e % 2 == 0 <==> ((m % 2 == 1) == (n % 2 == 1))
  {}

  // ----- sides of an edge

  /** On which side of an edge a point lies tells on which side of the crossing it lies. */
  lemma CrossAtRay(p: Point, a: Point, b: Point)
    requires Straddles(p, a, b)
    ensures Cross(p, a, b) == (b.lon - a.lon) * (LatAtRay(p, a, b) - p.lat)
  {
    var d, x, y := b.lon - a.lon, p.lon - a.lon, b.lat - a.lat;
    Quotient(x * y, 1.0, d);
    assert LatAtRay(p, a, b) - a.lat == x * y / d;
    assert d * (LatAtRay(p, a, b) - a.lat) == x * y;
    SplitProduct(d, LatAtRay(p, a, b), a.lat, p.lat);
  }

  lemma SplitProduct(d: real, l: real, a: real, p: real)
    ensures d * (l - p) == d * (l - a) - d * (p - a)
  {}

  lemma SignOfProduct(x: real, y: real)
    ensures x > 0.0 && y > 0.0 ==> x * y > 0.0
    ensures x > 0.0 && x * y > 0.0 ==> y > 0.0
    ensures x < 0.0 && x * y > 0.0 ==> y < 0.0
    ensures x > 0.0 && x * y < 0.0 ==> y < 0.0
    ensures x < 0.0 && x * y < 0.0 ==> y > 0.0
  {}

  /** An edge walked with the point on its left goes north of it eastwards and south of it westwards. */
  lemma LeftOf(p: Point, a: Point, b: Point)
    requires Cross(p, a, b) > 0.0
    ensures Passes(North, p, a, b) <==> a.lon <= p.lon < b.lon
    ensures Passes(South, p, a, b) <==> b.lon <= p.lon < a.lon
  {
    if Straddles(p, a, b) {
      CrossAtRay(p, a, b);
      SignOfProduct(b.lon - a.lon, LatAtRay(p, a, b) - p.lat);
    }
  }

  // ----- half-planes

  function OnRay(p: Point, a: Point, b: Point): Point
    requires Straddles(p, a, b)
  {
    Point(LatAtRay(p, a, b), p.lon)
  }

  /** The side of a point between two others lies between theirs. */
  lemma CrossBetween(u: Point, v: Point, t: real, a: Point, b: Point)
    ensures Cross(Point(u.lat + t * (v.lat - u.lat), u.lon + t * (v.lon - u.lon)), a, b)
      == (1.0 - t) * Cross(u, a, b) + t * Cross(v, a, b)
  {
    var x, y := b.lat - a.lat, b.lon - a.lon;
    Affine(x, y, u.lon - a.lon, u.lat - a.lat, v.lon - a.lon, v.lat - a.lat, t);
    assert u.lon + t * (v.lon - u.lon) - a.lon == (u.lon - a.lon) + t * ((v.lon - a.lon) - (u.lon - a.lon));
    assert u.lat + t * (v.lat - u.lat) - a.lat == (u.lat - a.lat) + t * ((v.lat - a.lat) - (u.lat - a.lat));
  }

  lemma Affine(x: real, y: real, u: real, v: real, r: real, s: real, t: real)
    ensures x * (u + t * (r - u)) - y * (v + t * (s - v)) == (1.0 - t) * (x * u - y * v) + t * (x * r - y * s)
  {}

  lemma CrossOnRay(p: Point, u: Point, v: Point, a: Point, b: Point)
    requires Straddles(p, u, v)
    ensures 0.0 <= Share(p, u, v) <= 1.0
    ensures Cross(OnRay(p, u, v), a, b)
      == (1.0 - Share(p, u, v)) * Cross(u, a, b) + Share(p, u, v) * Cross(v, a, b)
  {
    ShareInRange(p, u, v);
    CrossBetween(u, v, Share(p, u, v), a, b);
  }

  /** Going north changes the side by the eastward length of the edge. */
  lemma CrossNorth(p: Point, q: Point, a: Point, b: Point)
    requires p.lon == q.lon
    ensures Cross(q, a, b) == Cross(p, a, b) - (b.lon - a.lon) * (q.lat - p.lat)
  {
    SplitProduct(b.lon - a.lon, q.lat, p.lat, a.lat);
    assert (b.lon - a.lon) * (p.lat - a.lat) == -((b.lon - a.lon) * (a.lat - p.lat));
  }

  lemma Weighted(t: real, x: real, y: real)
    requires 0.0 <= t <= 1.0 && x >= 0.0 && y >= 0.0
    ensures (1.0 - t) * x + t * y >= 0.0
    ensures x > 0.0 && y > 0.0 ==> (1.0 - t) * x + t * y > 0.0
  {
    Product(1.0 - t, x);
    Product(t, y);
    if x > 0.0 && y > 0.0 {
      if t > 0.0 {
        SignOfProduct(t, y);
      } else {
        assert (1.0 - t) * x == x;
      }
    }
  }

  /** One edge on the left of a line, seen from a point on its right: the crossing lies on the far
      side of the line. */
  lemma EdgeBeyondLine(p: Point, u: Point, v: Point, a: Point, b: Point)
    requires Cross(u, a, b) >= 0.0 && Cross(v, a, b) >= 0.0 && Cross(p, a, b) < 0.0 && Straddles(p, u, v)
    ensures b.lon > a.lon ==> LatAtRay(p, u, v) < p.lat
    ensures b.lon < a.lon ==> LatAtRay(p, u, v) > p.lat
    ensures b.lon != a.lon
  {
    var q := OnRay(p, u, v);
    CrossOnRay(p, u, v, a, b);
    Weighted(Share(p, u, v), Cross(u, a, b), Cross(v, a, b));
    BeyondLine(p, q, a, b);
  }

  lemma BeyondLine(p: Point, q: Point, a: Point, b: Point)
    requires p.lon == q.lon && Cross(p, a, b) < 0.0 && Cross(q, a, b) >= 0.0
    ensures b.lon > a.lon ==> q.lat < p.lat
    ensures b.lon < a.lon ==> q.lat > p.lat
    ensures b.lon != a.lon
  {
    CrossNorth(p, q, a, b);
    Beyond(Cross(p, a, b), Cross(q, a, b), b.lon - a.lon, q.lat - p.lat);
  }

  lemma Beyond(c: real, e: real, d: real, y: real)
    requires e == c - d * y && c < 0.0 && e >= 0.0
    ensures d > 0.0 ==> y < 0.0
    ensures d < 0.0 ==> y > 0.0
    ensures d != 0.0
  {
    SignOfProduct(d, y);
  }

  lemma {:induction false} PathBeyondLine(p: Point, path: seq<Point>, a: Point, b: Point)
    requires forall v :: v in path ==> Cross(v, a, b) >= 0.0
    requires Cross(p, a, b) < 0.0
    ensures b.lon >= a.lon ==> Count(North, p, path) == 0
    ensures b.lon <= a.lon ==> Count(North, p, path) == Count(Straddle, p, path)
  {
    if |path| >= 2 {
      var u, v := path[|path| - 2], path[|path| - 1];
      PathBeyondLine(p, path[..|path| - 1], a, b);
      assert u in path && v in path;
      if Straddles(p, u, v) {
        EdgeBeyondLine(p, u, v, a, b);
      }
    }
  }

  /** Off the boundary band a point found inside lies in every half-plane that holds the vertices. */
  lemma InsideMeansInHalfPlane(p: Point, polygon: seq<Point>, a: Point, b: Point)
    requires forall v :: v in polygon ==> Cross(v, a, b) >= 0.0
    requires InPolygon(p, polygon) && !Touches(p, Ring(polygon))
    ensures Cross(p, a, b) >= 0.0
  {
    var ring := Ring(polygon);
    if Cross(p, a, b) < 0.0 {
      PathBeyondLine(p, Closed(ring), a, b);
      EitherRayAnswers(p, ring);
      assert false;
    }
  }

  // ----- convex rings

  /** Every other vertex lies strictly on the left of every edge. */
  ghost predicate StrictlyConvex(ring: seq<Point>) {
    && |ring| >= 3
    && (forall i, j | 0 <= i < |ring| && 0 <= j < |ring| && j != i && j != NextIndex(i, |ring|) ::
          Cross(ring[j], ring[i], After(ring, i)) > 0.0)
  }

  /** The point lies strictly on the left of every edge. */
  ghost predicate LeftOfAll(p: Point, ring: seq<Point>) {
    forall i | 0 <= i < |ring| :: Cross(p, ring[i], After(ring, i)) > 0.0
  }

  /** Two edges crossing one longitude in one direction cannot each have the other on its left. */
  lemma OneWayOnce(p: Point, a: Point, b: Point, c: Point, d: Point)
    requires Straddles(p, a, b) && Straddles(p, c, d) && (a.lon < b.lon) == (c.lon < d.lon)
    ensures !(Cross(c, a, b) > 0.0 && Cross(d, a, b) > 0.0 && Cross(a, c, d) > 0.0 && Cross(b, c, d) > 0.0)
  {
    if Cross(c, a, b) > 0.0 && Cross(d, a, b) > 0.0 {
      LeftCrossing(p, a, b, c, d);
    }
    if Cross(a, c, d) > 0.0 && Cross(b, c, d) > 0.0 {
      LeftCrossing(p, c, d, a, b);
    }
  }

  lemma LeftCrossing(p: Point, a: Point, b: Point, c: Point, d: Point)
    requires Straddles(p, a, b) && Straddles(p, c, d) && Cross(c, a, b) > 0.0 && Cross(d, a, b) > 0.0
    ensures if a.lon < b.lon then LatAtRay(p, c, d) < LatAtRay(p, a, b) else LatAtRay(p, c, d) > LatAtRay(p, a, b)
  {
    CrossOnRay(p, c, d, a, b);
    Weighted(Share(p, c, d), Cross(c, a, b), Cross(d, a, b));
    LeftOfCrossing(OnRay(p, c, d), a, b);
    SameCrossing(OnRay(p, c, d), p, a, b);
  }

  lemma LeftOfCrossing(q: Point, a: Point, b: Point)
    requires Straddles(q, a, b) && Cross(q, a, b) > 0.0
    ensures if a.lon < b.lon then q.lat < LatAtRay(q, a, b) else q.lat > LatAtRay(q, a, b)
  {
    CrossAtRay(q, a, b);
    SignOfProduct(b.lon - a.lon, LatAtRay(q, a, b) - q.lat);
  }

  lemma SameCrossing(q: Point, p: Point, a: Point, b: Point)
    requires q.lon == p.lon && Straddles(p, a, b)
    ensures LatAtRay(q, a, b) == LatAtRay(p, a, b)
  {}

  /** Of the edges of a convex ring at most one crosses a longitude eastwards, and one westwards. */
  lemma ConvexCrossesOnce(p: Point, ring: seq<Point>, i: nat, k: nat)
    requires StrictlyConvex(ring) && i < |ring| && k < |ring| && i != k
    requires Straddles(p, ring[i], After(ring, i)) && Straddles(p, ring[k], After(ring, k))
    ensures (ring[i].lon < After(ring, i).lon) != (ring[k].lon < After(ring, k).lon)
  {
    var n := |ring|;
    var i', k' := NextIndex(i, n), NextIndex(k, n);
    if (ring[i].lon < ring[i'].lon) == (ring[k].lon < ring[k'].lon) {
      assert i' != k && k' != i;
      OneWayOnce(p, ring[i], ring[i'], ring[k], ring[k']);
    }
  }

  lemma {:induction false} CountFinds(t: Test, p: Point, path: seq<Point>) returns (i: nat)
    requires Count(t, p, path) > 0
    ensures i + 1 < |path| && Passes(t, p, path[i], path[i + 1])
  {
    if Passes(t, p, path[|path| - 2], path[|path| - 1]) {
      i := |path| - 2;
    } else {
      i := CountFinds(t, p, path[..|path| - 1]);
    }
  }

  lemma {:induction false} CountAtMostOne(t: Test, p: Point, path: seq<Point>)
    requires forall i, k | 0 <= i < k < |path| - 1 ::
      !(Passes(t, p, path[i], path[i + 1]) && Passes(t, p, path[k], path[k + 1]))
    ensures Count(t, p, path) <= 1
  {
    if |path| >= 2 {
      var init := path[..|path| - 1];
      CountAtMostOne(t, p, init);
      if Count(t, p, init) > 0 {
        var i := CountFinds(t, p, init);
        assert path[i] == init[i] && path[i + 1] == init[i + 1];
      }
    }
  }

  lemma ClosedEdge(ring: seq<Point>, i: nat)
    requires i < |ring|
    ensures Closed(ring)[i] == ring[i] && Closed(ring)[i + 1] == After(ring, i)
  {}

  /** With the point on the left of all edges, each way is crossed at most once. */
  lemma EachWayOnce(p: Point, ring: seq<Point>, t: Test)
    requires StrictlyConvex(ring) && LeftOfAll(p, ring) && (t == North || t == South)
    ensures Count(t, p, Closed(ring)) <= 1
  {
    var path := Closed(ring);
    forall i, k | 0 <= i < k < |path| - 1
      ensures !(Passes(t, p, path[i], path[i + 1]) && Passes(t, p, path[k], path[k + 1]))
    {
      ClosedEdge(ring, i);
      ClosedEdge(ring, k);
      LeftOf(p, ring[i], After(ring, i));
      LeftOf(p, ring[k], After(ring, k));
      if Passes(t, p, path[i], path[i + 1]) && Passes(t, p, path[k], path[k + 1]) {
        ConvexCrossesOnce(p, ring, i, k);
      }
    }
    CountAtMostOne(t, p, path);
  }

  lemma {:induction false} OffLinesSplits(p: Point, path: seq<Point>)
    requires forall i | 0 <= i < |path| - 1 :: Cross(p, path[i], path[i + 1]) > 0.0
    ensures Count(North, p, path) + Count(South, p, path) == Count(Straddle, p, path)
  {
    if |path| >= 2 {
      OffLinesSplits(p, path[..|path| - 1]);
      LeftOf(p, path[|path| - 2], path[|path| - 1]);
    }
  }

  // ----- a convex ring surrounds what is on the left of all its edges

  lemma {:induction false} NoStraddle(p: Point, path: seq<Point>, i: nat)
    requires Count(Straddle, p, path) == 0 && i < |path|
    ensures path[i].lon > p.lon <==> path[0].lon > p.lon
    decreases |path|
  {
    if |path| >= 2 {
      NoStraddle(p, path[..|path| - 1], if i < |path| - 1 then i else i - 1);
    }
  }

  lemma {:induction false} Westmost(ring: seq<Point>) returns (k: nat)
    requires ring != []
    ensures k < |ring| && forall i | 0 <= i < |ring| :: ring[k].lon <= ring[i].lon
  {
    if |ring| == 1 {
      k := 0;
    } else {
      k := Westmost(ring[..|ring| - 1]);
      var last := |ring| - 1;
      forall i | 0 <= i < last ensures ring[k].lon <= ring[i].lon {
        assert ring[..last][i] == ring[i];
      }
      if ring[last].lon < ring[k].lon {
        k := last;
      }
    }
  }

  lemma {:induction false} Eastmost(ring: seq<Point>) returns (k: nat)
    requires ring != []
    ensures k < |ring| && forall i | 0 <= i < |ring| :: ring[k].lon >= ring[i].lon
  {
    if |ring| == 1 {
      k := 0;
    } else {
      k := Eastmost(ring[..|ring| - 1]);
      var last := |ring| - 1;
      forall i | 0 <= i < last ensures ring[k].lon >= ring[i].lon {
        assert ring[..last][i] == ring[i];
      }
      if ring[last].lon > ring[k].lon {
        k := last;
      }
    }
  }

  /** Seen from a corner, a point on the left of both its edges lies between them. */
  lemma InCorner(p: Point, u: Point, v: Point, w: Point)
    ensures (p.lon - v.lon) * Cross(u, v, w) == Cross(p, v, w) * (u.lon - v.lon) + Cross(p, u, v) * (w.lon - v.lon)
  {
    var q, r := p.lon - v.lon, p.lat - v.lat;
    var x, y := u.lon - v.lon, u.lat - v.lat;
    var s, t := w.lon - v.lon, w.lat - v.lat;
    CornerLeg(q, r, x, y);
    assert Cross(p, u, v) == x * r - y * q by {
      assert v.lat - u.lat == -y && p.lon - u.lon == q - x && v.lon - u.lon == -x && p.lat - u.lat == r - y;
    }
    CornerIdentity(q, r, x, y, s, t);
  }

  lemma CornerLeg(q: real, r: real, x: real, y: real)
    ensures (-y) * (q - x) - (-x) * (r - y) == x * r - y * q
  {}

  lemma CornerIdentity(q: real, r: real, x: real, y: real, s: real, t: real)
    ensures q * (t * x - s * y) == (t * q - s * r) * x + (x * r - y * q) * s
  {}

  function Before(ring: seq<Point>, k: nat): nat
    requires k < |ring|
  {
    if k == 0 then |ring| - 1 else k - 1
  }

  /** The corner at a vertex of a convex ring. */
  lemma CornerOf(p: Point, ring: seq<Point>, k: nat)
    requires StrictlyConvex(ring) && LeftOfAll(p, ring) && k < |ring|
    ensures var u, v, w := ring[Before(ring, k)], ring[k], After(ring, k);
      Cross(u, v, w) > 0.0 && Cross(p, v, w) > 0.0 && Cross(p, u, v) > 0.0
  {
    var h := Before(ring, k);
    assert NextIndex(h, |ring|) == k && h != NextIndex(k, |ring|);
    assert Cross(ring[h], ring[k], After(ring, k)) > 0.0;
    assert Cross(p, ring[h], After(ring, h)) > 0.0;
  }

  lemma OneSide(p: Point, ring: seq<Point>)
    requires Count(Straddle, p, Closed(ring)) == 0
    ensures forall i | 0 <= i < |ring| :: ring[i].lon > p.lon <==> ring[0].lon > p.lon
  {
    forall i | 0 <= i < |ring| ensures ring[i].lon > p.lon <==> ring[0].lon > p.lon {
      NoStraddle(p, Closed(ring), i);
    }
  }

  lemma Surrounds(p: Point, ring: seq<Point>)
    requires StrictlyConvex(ring) && LeftOfAll(p, ring)
    ensures Count(Straddle, p, Closed(ring)) > 0
  {
    if Count(Straddle, p, Closed(ring)) == 0 {
      OneSide(p, ring);
      if ring[0].lon > p.lon {
        var k := Westmost(ring);
        NotWestOf(p, ring, k);
      } else {
        var k := Eastmost(ring);
        NotEastOf(p, ring, k);
      }
    }
  }

  lemma NotWestOf(p: Point, ring: seq<Point>, k: nat)
    requires StrictlyConvex(ring) && LeftOfAll(p, ring) && k < |ring|
    requires forall i | 0 <= i < |ring| :: ring[k].lon <= ring[i].lon
    ensures p.lon >= ring[k].lon
  {
    var u, v, w := ring[Before(ring, k)], ring[k], After(ring, k);
    CornerOf(p, ring, k);
    EastOfCorner(p, u, v, w);
  }

  lemma EastOfCorner(p: Point, u: Point, v: Point, w: Point)
    requires Cross(u, v, w) > 0.0 && Cross(p, v, w) > 0.0 && Cross(p, u, v) > 0.0
    requires u.lon >= v.lon && w.lon >= v.lon
    ensures p.lon >= v.lon
  {
    InCorner(p, u, v, w);
    WestCorner(p.lon - v.lon, Cross(u, v, w), Cross(p, v, w), u.lon - v.lon, Cross(p, u, v), w.lon - v.lon);
  }

  lemma WestCorner(q: real, d: real, a: real, x: real, b: real, s: real)
    requires q * d == a * x + b * s && d > 0.0 && a > 0.0 && b > 0.0 && x >= 0.0 && s >= 0.0
    ensures q >= 0.0
  {
    Product(a, x);
    Product(b, s);
    ProductSign(q, d);
  }

  lemma NotEastOf(p: Point, ring: seq<Point>, k: nat)
    requires StrictlyConvex(ring) && LeftOfAll(p, ring) && k < |ring|
    requires forall i | 0 <= i < |ring| :: ring[k].lon >= ring[i].lon
    ensures p.lon < ring[k].lon
  {
    var u, v, w := ring[Before(ring, k)], ring[k], After(ring, k);
    CornerOf(p, ring, k);
    WestOfCorner(p, u, v, w);
  }

  lemma WestOfCorner(p: Point, u: Point, v: Point, w: Point)
    requires Cross(u, v, w) > 0.0 && Cross(p, v, w) > 0.0 && Cross(p, u, v) > 0.0
    requires u.lon <= v.lon && w.lon <= v.lon
    ensures p.lon < v.lon
  {
    InCorner(p, u, v, w);
    EastCorner(p.lon - v.lon, Cross(u, v, w), Cross(p, v, w), u.lon - v.lon, Cross(p, u, v), w.lon - v.lon);
    FlatCorner(u, v, w);
  }

  lemma FlatCorner(u: Point, v: Point, w: Point)
    ensures u.lon == v.lon && w.lon == v.lon ==> Cross(u, v, w) == 0.0
  {}

  lemma EastCorner(q: real, d: real, a: real, x: real, b: real, s: real)
    requires q * d == a * x + b * s && d > 0.0 && a > 0.0 && b > 0.0 && x <= 0.0 && s <= 0.0
    ensures q < 0.0 || (x == 0.0 && s == 0.0)
  {
    Product(a, -x);
    Product(b, -s);
    if x < 0.0 {
      SignOfProduct(a, -x);
      assert a * x == -(a * -x) && b * s == -(b * -s);
      SignOfProduct(d, q);
    } else if s < 0.0 {
      SignOfProduct(b, -s);
      assert a * x == -(a * -x) && b * s == -(b * -s);
      SignOfProduct(d, q);
    }
  }

  /** A point strictly on the left of every edge of a convex ring is inside: one edge passes north
      of it and one south. */
  lemma LeftOfAllIsOdd(p: Point, ring: seq<Point>)
    requires StrictlyConvex(ring) && LeftOfAll(p, ring)
    ensures Count(North, p, Closed(ring)) == 1 && OddCrossings(p, ring)
  {
    EachWayOnce(p, ring, North);
    EachWayOnce(p, ring, South);
    RingSplits(p, ring);
    Surrounds(p, ring);
    EitherRayAnswers(p, ring);
    OneEachWay(Count(North, p, Closed(ring)), Count(South, p, Closed(ring)), Count(Straddle, p, Closed(ring)));
  }

  lemma RingSplits(p: Point, ring: seq<Point>)
    requires ring != [] && LeftOfAll(p, ring)
    ensures Count(North, p, Closed(ring)) + Count(South, p, Closed(ring)) == Count(Straddle, p, Closed(ring))
  {
    forall i | 0 <= i < |ring| ensures Cross(p, Closed(ring)[i], Closed(ring)[i + 1]) > 0.0 {
      ClosedEdge(ring, i);
    }
    OffLinesSplits(p, Closed(ring));
  }

  lemma OneEachWay(north: nat, south: nat, both: nat)
    requires north <= 1 && south <= 1 && north + south == both && both > 0 && both % 2 == 0
    ensures north == 1 && north % 2 == 1
  {}

  // ----- and nothing else

  /** How far along the line of an edge a point of it lies. */
  lemma AlongLine(p: Point, a: Point, b: Point) returns (t: real)
    requires a != b && Cross(p, a, b) == 0.0
    ensures p == Point(a.lat + t * (b.lat - a.lat), a.lon + t * (b.lon - a.lon))
  {
    var x, y, u, v := b.lat - a.lat, b.lon - a.lon, p.lon - a.lon, p.lat - a.lat;
    if y != 0.0 {
      t := u / y;
      Quotient(u, 1.0, y);
      Collinear(x, y, u, v, t);
    } else {
      t := v / x;
      Quotient(v, 1.0, x);
      OnMeridian(x, u);
    }
  }

  lemma Collinear(x: real, y: real, u: real, v: real, t: real)
    requires x * u - y * v == 0.0 && t * y == u && y != 0.0
    ensures v == t * x
  {
    Regroup(x, y, v, t);
    NoZeroDivisor(v - t * x, y);
  }

  lemma Regroup(x: real, y: real, v: real, t: real)
    ensures (v - t * x) * y == y * v - x * (t * y)
  {}

  lemma OnMeridian(x: real, u: real)
    requires x != 0.0 && x * u == 0.0
    ensures u == 0.0
  {
    NoZeroDivisor(u, x);
  }

  /** A point on the line of an edge but off the edge is on the right of one of its neighbours. */
  lemma BeyondEdge(p: Point, u: Point, a: Point, b: Point, c: Point)
    requires Cross(p, a, b) == 0.0 && !OnSegment(p, a, b) && a != b
    requires Cross(a, b, c) > 0.0 && Cross(b, u, a) > 0.0
    ensures Cross(p, b, c) < 0.0 || Cross(p, u, a) < 0.0
  {
    var t := AlongLine(p, a, b);
    if 0.0 <= t <= 1.0 {
      EdgePointTouches(p, a, b, t);
    } else {
      CrossBetween(a, b, t, b, c);
      CrossBetween(a, b, t, u, a);
      assert Cross(b, b, c) == 0.0 && Cross(a, u, a) == 0.0;
      if t > 1.0 {
        SignOfProduct(t - 1.0, Cross(a, b, c));
        assert (1.0 - t) * Cross(a, b, c) == -((t - 1.0) * Cross(a, b, c));
      } else {
        SignOfProduct(-t, Cross(b, u, a));
        assert t * Cross(b, u, a) == -(-t * Cross(b, u, a));
      }
    }
  }

  lemma WeaklyLeft(ring: seq<Point>, i: nat)
    requires StrictlyConvex(ring) && i < |ring|
    ensures forall v :: v in ring ==> Cross(v, ring[i], After(ring, i)) >= 0.0
  {
    forall v | v in ring ensures Cross(v, ring[i], After(ring, i)) >= 0.0 {
      var j :| 0 <= j < |ring| && ring[j] == v;
      EndsOnEdge(ring[i], After(ring, i));
    }
  }

  lemma EndsOnEdge(a: Point, b: Point)
    ensures Cross(a, a, b) == 0.0 && Cross(b, a, b) == 0.0
  {}

  lemma InsideIsWeaklyLeft(p: Point, ring: seq<Point>, i: nat)
    requires StrictlyConvex(ring) && i < |ring| && OddCrossings(p, ring) && !Touches(p, ring)
    ensures Cross(p, ring[i], After(ring, i)) >= 0.0
  {
    WeaklyLeft(ring, i);
    if Cross(p, ring[i], After(ring, i)) < 0.0 {
      PathBeyondLine(p, Closed(ring), ring[i], After(ring, i));
      EitherRayAnswers(p, ring);
      assert false;
    }
  }

  lemma InsideIsLeft(p: Point, ring: seq<Point>, i: nat)
    requires StrictlyConvex(ring) && i < |ring| && OddCrossings(p, ring) && !Touches(p, ring)
    ensures Cross(p, ring[i], After(ring, i)) > 0.0
  {
    var h, k := Before(ring, i), NextIndex(i, |ring|);
    InsideIsWeaklyLeft(p, ring, i);
    InsideIsWeaklyLeft(p, ring, h);
    InsideIsWeaklyLeft(p, ring, k);
    if Cross(p, ring[i], After(ring, i)) == 0.0 {
      OffEdge(p, ring, i);
      assert NextIndex(h, |ring|) == i;
      assert Cross(ring[i], ring[k], After(ring, k)) > 0.0;
      assert Cross(ring[k], ring[h], ring[i]) > 0.0;
      NotFlat(ring, i);
      BeyondEdge(p, ring[h], ring[i], ring[k], After(ring, k));
    }
  }

  lemma NotFlat(ring: seq<Point>, i: nat)
    requires StrictlyConvex(ring) && i < |ring|
    ensures ring[i] != After(ring, i)
  {
    assert Cross(ring[Before(ring, i)], ring[i], After(ring, i)) > 0.0;
    FlatEdge(ring[Before(ring, i)], ring[i]);
  }

  lemma FlatEdge(p: Point, a: Point)
    ensures Cross(p, a, a) == 0.0
  {}

  /** Off the boundary band, the inside of a convex ring is exactly what is on the left of all its edges. */
  lemma ConvexInside(p: Point, ring: seq<Point>)
    requires StrictlyConvex(ring)
    ensures LeftOfAll(p, ring) ==> OddCrossings(p, ring)
    ensures !Touches(p, ring) ==> (OddCrossings(p, ring) <==> LeftOfAll(p, ring))
  {
    if LeftOfAll(p, ring) {
      LeftOfAllIsOdd(p, ring);
    } else if OddCrossings(p, ring) && !Touches(p, ring) {
      forall i | 0 <= i < |ring| ensures Cross(p, ring[i], After(ring, i)) > 0.0 {
        InsideIsLeft(p, ring, i);
      }
    }
  }

  // ----- the boundary band

  /** Between the ends in both coordinates, whichever way round, and the triangle with the edge no
      larger than half of 10 to the -12. */
  predicate Beside(p: Point, a: Point, b: Point) {
    && -0.000000000001 <= Cross(p, a, b) <= 0.000000000001
    && (a.lat <= p.lat <= b.lat || b.lat <= p.lat <= a.lat)
    && (a.lon <= p.lon <= b.lon || b.lon <= p.lon <= a.lon)
  }

  /** A point is on the boundary iff it lies between the ends of some edge, and within the tolerance
      of its line. */
  lemma BandExactly(p: Point, ring: seq<Point>)
    ensures Touches(p, ring) <==> exists i | 0 <= i < |ring| :: Beside(p, ring[i], After(ring, i))
  {
    if i :| 0 <= i < |ring| && Beside(p, ring[i], After(ring, i)) {
      AfterAsWalked(ring, i);
      TouchedEdge(p, ring, i);
    }
    if Touches(p, ring) {
      var i := CountFinds(Touch, p, Closed(ring));
      ClosedEdge(ring, i);
      assert Beside(p, ring[i], After(ring, i));
    }
  }

  // ----- both programs, both directions, open and closed lists

  /** A convex zone, and the points strictly on one and the same side of all its edges. */
  ghost predicate ConvexZone(polygon: seq<Point>) {
    StrictlyConvex(Ring(polygon)) || StrictlyConvex(Reverse(Ring(polygon)))
  }

  ghost predicate OnOneSide(p: Point, ring: seq<Point>) {
    (StrictlyConvex(ring) && LeftOfAll(p, ring)) || (StrictlyConvex(Reverse(ring)) && LeftOfAll(p, Reverse(ring)))
  }

  ghost predicate SurroundedBy(p: Point, polygon: seq<Point>) { OnOneSide(p, Ring(polygon)) }

  lemma SameBackwards(p: Point, ring: seq<Point>)
    ensures OddCrossings(p, Reverse(ring)) <==> OddCrossings(p, ring)
    ensures Touches(p, Reverse(ring)) <==> Touches(p, ring)
  {
    CountReverseRing(North, p, ring);
    CountReverseRing(Touch, p, ring);
  }

  lemma RingOdd(p: Point, ring: seq<Point>)
    requires StrictlyConvex(ring) || StrictlyConvex(Reverse(ring))
    ensures OnOneSide(p, ring) ==> OddCrossings(p, ring)
    ensures !Touches(p, ring) ==> (OddCrossings(p, ring) <==> OnOneSide(p, ring))
  {
    SameBackwards(p, ring);
    if StrictlyConvex(ring) {
      ConvexInside(p, ring);
    }
    if StrictlyConvex(Reverse(ring)) {
      ConvexInside(p, Reverse(ring));
    }
  }

  /** Strictly on one and the same side of every edge of a convex zone, whichever way it is walked
      and whether its list is open or closed: inside for both programs. Off the boundary band they
      call nothing else inside. */
  lemma ConvexZoneExactly(p: Point, polygon: seq<Point>)
    requires ConvexZone(polygon)
    ensures SurroundedBy(p, polygon) ==> InPolygon(p, polygon) && SimInside(p, polygon)
    ensures !Touches(p, Ring(polygon)) ==>
      (InPolygon(p, polygon) <==> SurroundedBy(p, polygon)) && (SimInside(p, polygon) <==> SurroundedBy(p, polygon))
  {
    var ring := Ring(polygon);
    RingStays(polygon);
    RingOdd(p, ring);
    ClosingKeepsParity(p, polygon);
  }

  lemma RingStays(polygon: seq<Point>)
    requires ConvexZone(polygon)
    ensures |Ring(polygon)| >= 3 && Ring(Ring(polygon)) == Ring(polygon)
  {
    var ring := Ring(polygon);
    var n := |ring| - 1;
    if StrictlyConvex(ring) {
      NotFlat(ring, n);
    } else {
      NotFlat(Reverse(ring), n);
    }
  }

  /** Walked round twice, any ring has nothing inside: without strict convexity being on one side of
      all edges is not enough. */
  lemma TwiceRoundIsEven(p: Point, ring: seq<Point>)
    requires ring != []
    ensures !OddCrossings(p, ring + ring)
  {
    var a, rest := ring[0], ring[1..];
    assert ring == [a] + rest;
    assert Closed(ring + ring) == [a] + rest + [a] + (rest + [a]);
    CountConcat(North, p, [a] + rest, a, rest + [a]);
    assert Closed(ring) == [a] + rest + [a] && [a] + (rest + [a]) == [a] + rest + [a];
  }
}
