/**
 * The bounding-box utilities of `BuildingShapeUtils`: the extents of a ring
 * of nodes, the radius of the circle that fits the box, the centre of the
 * box (the "centroid", which is not the true centroid) and the width of a
 * shape. Each source routine pushes coordinates into arrays in a loop and
 * then reduces them with `Math.min`/`Math.max`; here the loops are methods,
 * proved equal to the pure `Min`/`Max` reductions, and the properties are
 * proved about those reductions.
 */
module ShapeUtils {
  import opened Outcomes
  import opened OsmDom

  /**
   * A node-table entry, `[lat, lon]` in the source. After the building
   * repositions its nodes, the same two slots hold the projected pair.
   */
  datatype LatLon = LatLon(lat: real, lon: real)

  /** A point of a planar shape (`vec.x`, `vec.y`). */
  datatype Vec = Vec(x: real, y: real)

  /** Extents `[left, bottom, right, top]`: min lon, min lat, max lon, max lat. */
  datatype Box = Box(left: real, bottom: real, right: real, top: real)

  predicate WellFormed(b: Box)
  {
    b.left <= b.right && b.bottom <= b.top
  }

  predicate Inside(p: LatLon, b: Box)
  {
    b.left <= p.lon <= b.right && b.bottom <= p.lat <= b.top
  }

  predicate InsideShape(v: Vec, b: Box)
  {
    b.left <= v.x <= b.right && b.bottom <= v.y <= b.top
  }

  /** `Math.min(a, b)` */
  function Min2(a: real, b: real): real
  {
    if b < a then b else a
  }

  /** `Math.max(a, b)` */
  function Max2(a: real, b: real): real
  {
    if b > a then b else a
  }

  /** `Math.min(...s)` on a non-empty list: the least element. */
  function Min(s: seq<real>): (m: real)
    requires |s| > 0
    ensures m in s
    ensures forall i :: 0 <= i < |s| ==> m <= s[i]
  {
    if |s| == 1 then s[0] else Min2(Min(s[..|s| - 1]), s[|s| - 1])
  }

  /** `Math.max(...s)` on a non-empty list: the greatest element. */
  function Max(s: seq<real>): (m: real)
    requires |s| > 0
    ensures m in s
    ensures forall i :: 0 <= i < |s| ==> s[i] <= m
  {
    if |s| == 1 then s[0] else Max2(Max(s[..|s| - 1]), s[|s| - 1])
  }

  /** Min and max depend only on which values occur, not on order or repetition. */
  lemma MinMaxSameElements(a: seq<real>, b: seq<real>)
    requires |a| > 0 && |b| > 0
    requires forall x :: x in a <==> x in b
    ensures Min(a) == Min(b) && Max(a) == Max(b)
  {
    var ia :| 0 <= ia < |a| && a[ia] == Min(b);
    var ib :| 0 <= ib < |b| && b[ib] == Min(a);
    var ja :| 0 <= ja < |a| && a[ja] == Max(b);
    var jb :| 0 <= jb < |b| && b[jb] == Max(a);
  }

  /** One coordinate of every point, in order (the `lats.push(...)` arrays). */
  function Coord<P>(pts: seq<P>, f: P -> real): (r: seq<real>)
    ensures |r| == |pts|
    ensures forall i :: 0 <= i < |pts| ==> r[i] == f(pts[i])
  {
    seq(|pts|, i requires 0 <= i < |pts| => f(pts[i]))
  }

  /** A list built element by element from the points is their coordinate list. */
  lemma SameCoords<P>(s: seq<real>, pts: seq<P>, f: P -> real)
    requires |s| == |pts|
    requires forall j :: 0 <= j < |pts| ==> s[j] == f(pts[j])
    ensures s == Coord(pts, f)
  {
  }

  lemma CoordSameElements<P(!new)>(a: seq<P>, b: seq<P>, f: P -> real)
    requires forall p :: p in a <==> p in b
    ensures forall x :: x in Coord(a, f) <==> x in Coord(b, f)
  {
    forall x | x in Coord(a, f) ensures x in Coord(b, f) {
      var i :| 0 <= i < |a| && Coord(a, f)[i] == x;
      assert a[i] in b;
      var j :| 0 <= j < |b| && b[j] == a[i];
      assert Coord(b, f)[j] == x;
    }
    forall x | x in Coord(b, f) ensures x in Coord(a, f) {
      var j :| 0 <= j < |b| && Coord(b, f)[j] == x;
      assert b[j] in a;
      var i :| 0 <= i < |a| && a[i] == b[j];
      assert Coord(a, f)[i] == x;
    }
  }

  function LatOf(p: LatLon): real { p.lat }
  function LonOf(p: LatLon): real { p.lon }
  function XOf(v: Vec): real { v.x }
  function YOf(v: Vec): real { v.y }

  function Lats(pts: seq<LatLon>): seq<real> { Coord(pts, LatOf) }
  function Lons(pts: seq<LatLon>): seq<real> { Coord(pts, LonOf) }
  function Xs(vs: seq<Vec>): seq<real> { Coord(vs, XOf) }
  function Ys(vs: seq<Vec>): seq<real> { Coord(vs, YOf) }

  /**
   * The extents of a list of `[lat, lon]` points: the smallest box holding
   * every point, each of whose sides touches some point.
   */
  function BoundsOf(pts: seq<LatLon>): (b: Box)
    requires |pts| > 0
    ensures WellFormed(b)
    ensures forall i :: 0 <= i < |pts| ==> Inside(pts[i], b)
    ensures exists i :: 0 <= i < |pts| && pts[i].lon == b.left
    ensures exists i :: 0 <= i < |pts| && pts[i].lat == b.bottom
    ensures exists i :: 0 <= i < |pts| && pts[i].lon == b.right
    ensures exists i :: 0 <= i < |pts| && pts[i].lat == b.top
  {
    var lats, lons := Lats(pts), Lons(pts);
    assert forall i :: 0 <= i < |pts| ==> lats[i] == pts[i].lat && lons[i] == pts[i].lon;
    Box(Min(lons), Min(lats), Max(lons), Max(lats))
  }

  /** The same for a planar shape: x plays longitude, y latitude. */
  function ShapeBox(vs: seq<Vec>): (b: Box)
    requires |vs| > 0
    ensures WellFormed(b)
    ensures forall i :: 0 <= i < |vs| ==> InsideShape(vs[i], b)
    ensures exists i :: 0 <= i < |vs| && vs[i].x == b.left
    ensures exists i :: 0 <= i < |vs| && vs[i].y == b.bottom
    ensures exists i :: 0 <= i < |vs| && vs[i].x == b.right
    ensures exists i :: 0 <= i < |vs| && vs[i].y == b.top
  {
    var xs, ys := Xs(vs), Ys(vs);
    assert forall i :: 0 <= i < |vs| ==> xs[i] == vs[i].x && ys[i] == vs[i].y;
    Box(Min(xs), Min(ys), Max(xs), Max(ys))
  }

  /** Looking up one `nd` ref: `nodelist[ref]`, which must be defined. */
  function Lookup(nodelist: map<Id, LatLon>, ref: Id): (r: Result<LatLon>)
    ensures r.Ok? <==> ref in nodelist
    ensures r.Ok? ==> r.value == nodelist[ref]
    ensures r.Err? ==> r.fault == MissingNode(ref)
  {
    if ref in nodelist then Ok(nodelist[ref]) else Err(MissingNode(ref))
  }

  /**
   * The points of a ring of `nd` refs: the node-table entry of every ref,
   * in order; the first ref missing from the table is a fault.
   */
  function Ring(nds: seq<Id>, nodelist: map<Id, LatLon>): (r: Result<seq<LatLon>>)
    ensures r.Ok? <==> forall i :: 0 <= i < |nds| ==> nds[i] in nodelist
    ensures r.Ok? ==> |r.value| == |nds| && forall i :: 0 <= i < |nds| ==> r.value[i] == nodelist[nds[i]]
    ensures r.Err? ==> exists i :: 0 <= i < |nds| && nds[i] !in nodelist && r.fault == MissingNode(nds[i])
                                   && forall j :: 0 <= j < i ==> nds[j] in nodelist
  {
    var r := Traverse(nds, (ref: Id) => Lookup(nodelist, ref));
    assert forall i :: 0 <= i < |nds| ==> (Lookup(nodelist, nds[i]).Ok? <==> nds[i] in nodelist);
    r
  }

  /** Each side of `b` passes through some node of the ring. */
  predicate SidesTouchRing(nds: seq<Id>, nodelist: map<Id, LatLon>, b: Box)
  {
    && (exists i :: 0 <= i < |nds| && nds[i] in nodelist && nodelist[nds[i]].lon == b.left)
    && (exists i :: 0 <= i < |nds| && nds[i] in nodelist && nodelist[nds[i]].lat == b.bottom)
    && (exists i :: 0 <= i < |nds| && nds[i] in nodelist && nodelist[nds[i]].lon == b.right)
    && (exists i :: 0 <= i < |nds| && nds[i] in nodelist && nodelist[nds[i]].lat == b.top)
  }

  /**
   * `BuildingShapeUtils.extents` of the shape built from a ring of `nd`
   * refs: the smallest box holding every node of the ring, each of its
   * sides touching some node. The first ref missing from the table, or
   * an empty ring, is a fault.
   */
  function RingBounds(nds: seq<Id>, nodelist: map<Id, LatLon>): (r: Result<Box>)
    ensures r.Ok? <==> |nds| > 0 && forall i :: 0 <= i < |nds| ==> nds[i] in nodelist
    ensures nds == [] ==> r == Err(NoPoints)
    ensures r.Err? && nds != [] ==>
              exists i :: 0 <= i < |nds| && nds[i] !in nodelist && r.fault == MissingNode(nds[i])
                          && forall j :: 0 <= j < i ==> nds[j] in nodelist
    ensures r.Ok? ==> WellFormed(r.value)
    ensures r.Ok? ==> forall i :: 0 <= i < |nds| ==> Inside(nodelist[nds[i]], r.value)
    ensures r.Ok? ==> SidesTouchRing(nds, nodelist, r.value)
  {
    match Ring(nds, nodelist)
    case Err(f) => Err(f)
    case Ok(pts) =>
      if pts == [] then Err(NoPoints)
      else
        assert forall i :: 0 <= i < |nds| ==> nds[i] in nodelist && pts[i] == nodelist[nds[i]];
        Ok(BoundsOf(pts))
  }

  /**
   * The radius of `calculateRadius`: half the shorter side of the box. It
   * is never negative and fits both spans.
   */
  function RadiusOf(b: Box): (r: real)
    requires WellFormed(b)
    ensures 0.0 <= r
    ensures 2.0 * r <= b.right - b.left && 2.0 * r <= b.top - b.bottom
    ensures 2.0 * r == b.right - b.left || 2.0 * r == b.top - b.bottom
  {
    Min2(b.right - b.left, b.top - b.bottom) / 2.0
  }

  /**
   * The point `centroid` returns, `[lat, lon]`: equally far from the bottom
   * and the top, and from the left and the right, hence inside the box.
   */
  function CenterOf(b: Box): (c: LatLon)
    ensures c.lat - b.bottom == b.top - c.lat
    ensures c.lon - b.left == b.right - c.lon
    ensures WellFormed(b) ==> Inside(c, b)
  {
    LatLon((b.bottom + b.top) / 2.0, (b.left + b.right) / 2.0)
  }

  /** The width of `getWidth`: the longer of the two spans. */
  function WidthOf(b: Box): (w: real)
    ensures w >= b.right - b.left && w >= b.top - b.bottom
    ensures w == b.right - b.left || w == b.top - b.bottom
  {
    Max2(b.right - b.left, b.top - b.bottom)
  }

  /**
   * The radius of a ring of `nd` refs: defined exactly when the ring has
   * extents, and then half their shorter side; otherwise their fault.
   */
  function RingRadius(nds: seq<Id>, nodelist: map<Id, LatLon>): (r: Result<real>)
    ensures r.Ok? <==> |nds| > 0 && forall i :: 0 <= i < |nds| ==> nds[i] in nodelist
    ensures r.Ok? ==> r.value == RadiusOf(RingBounds(nds, nodelist).value)
    ensures r.Err? ==> r.fault == RingBounds(nds, nodelist).fault
  {
    match RingBounds(nds, nodelist)
    case Err(f) => Err(f)
    case Ok(b) => Ok(RadiusOf(b))
  }

  /**
   * The centre of a ring of `nd` refs: defined exactly when the ring has
   * extents, and then their centre, which lies inside them; otherwise
   * their fault.
   */
  function RingCenter(nds: seq<Id>, nodelist: map<Id, LatLon>): (r: Result<LatLon>)
    ensures r.Ok? <==> |nds| > 0 && forall i :: 0 <= i < |nds| ==> nds[i] in nodelist
    ensures r.Ok? ==> r.value == CenterOf(RingBounds(nds, nodelist).value)
                      && Inside(r.value, RingBounds(nds, nodelist).value)
    ensures r.Err? ==> r.fault == RingBounds(nds, nodelist).fault
  {
    match RingBounds(nds, nodelist)
    case Err(f) => Err(f)
    case Ok(b) => Ok(CenterOf(b))
  }

  /**
   * The width of a shape's points: the greatest difference between the x
   * or the y coordinates of two of its points. No points is a fault.
   */
  function ShapeWidth(points: seq<Vec>): (r: Result<real>)
    ensures r.Ok? <==> points != []
    ensures r.Err? ==> r.fault == NoPoints
    ensures r.Ok? ==> forall i, j :: 0 <= i < |points| && 0 <= j < |points| ==>
                        points[i].x - points[j].x <= r.value && points[i].y - points[j].y <= r.value
    ensures r.Ok? ==> exists i, j :: 0 <= i < |points| && 0 <= j < |points|
                        && (r.value == points[i].x - points[j].x || r.value == points[i].y - points[j].y)
  {
    if points == [] then Err(NoPoints)
    else
      WidthIsWidestPair(points);
      Ok(WidthOf(ShapeBox(points)))
  }

  /** The width of the shape box is attained by a pair of points. */
  lemma WidthIsWidestPair(points: seq<Vec>)
    requires points != []
    ensures exists i, j :: 0 <= i < |points| && 0 <= j < |points|
              && (WidthOf(ShapeBox(points)) == points[i].x - points[j].x
                  || WidthOf(ShapeBox(points)) == points[i].y - points[j].y)
  {
    var b := ShapeBox(points);
    var il :| 0 <= il < |points| && points[il].x == b.left;
    var ib :| 0 <= ib < |points| && points[ib].y == b.bottom;
    var ir :| 0 <= ir < |points| && points[ir].x == b.right;
    var it :| 0 <= it < |points| && points[it].y == b.top;
    if WidthOf(b) == b.right - b.left {
      assert WidthOf(b) == points[ir].x - points[il].x;
    } else {
      assert WidthOf(b) == points[it].y - points[ib].y;
    }
  }

  /** `Math.min(...s)` as a running minimum. */
  method Smallest(s: seq<real>) returns (m: real)
    requires |s| > 0
    ensures m == Min(s)
  {
    m := s[0];
    for i := 1 to |s|
      invariant m == Min(s[..i])
    {
      assert s[..i + 1][..i] == s[..i];
      m := Min2(m, s[i]);
    }
    assert s[..|s|] == s;
  }

  /** `Math.max(...s)` as a running maximum. */
  method Largest(s: seq<real>) returns (m: real)
    requires |s| > 0
    ensures m == Max(s)
  {
    m := s[0];
    for i := 1 to |s|
      invariant m == Max(s[..i])
    {
      assert s[..i + 1][..i] == s[..i];
      m := Max2(m, s[i]);
    }
    assert s[..|s|] == s;
  }

  /**
   * The extents of a ring of `nd` refs: look every ref up, push its
   * latitude and longitude, then reduce.
   */
  method RingExtents(nds: seq<Id>, nodelist: map<Id, LatLon>) returns (r: Result<Box>)
    ensures r == RingBounds(nds, nodelist)
  {
    var lats: seq<real> := [];
    var lons: seq<real> := [];
    for i := 0 to |nds|
      invariant |lats| == i && |lons| == i
      invariant forall j :: 0 <= j < i ==> nds[j] in nodelist
      invariant forall j :: 0 <= j < i ==> lats[j] == nodelist[nds[j]].lat && lons[j] == nodelist[nds[j]].lon
    {
      var ref := nds[i];
      if ref !in nodelist {
        // `node[0]` is read from an undefined lookup
        ghost var ring := Ring(nds, nodelist);
        ghost var k :| 0 <= k < |nds| && nds[k] !in nodelist && ring.fault == MissingNode(nds[k])
                       && forall j :: 0 <= j < k ==> nds[j] in nodelist;
        assert k == i;
        return Err(MissingNode(ref));
      }
      var node := nodelist[ref];
      lats := lats + [node.lat];
      lons := lons + [node.lon];
    }
    if |lats| == 0 {
      return Err(NoPoints);
    }
    ghost var pts := Ring(nds, nodelist).value;
    assert lats == Lats(pts) && lons == Lons(pts);
    var left := Smallest(lons);
    var bottom := Smallest(lats);
    var right := Largest(lons);
    var top := Largest(lats);
    r := Ok(Box(left, bottom, right, top));
  }

  /**
   * `calculateRadius`: half the shorter side of the ring's extents. The
   * source reads the ring from `this.way` and the table from
   * `this.nodelist`, which `BuildingShapeUtils` never defines
   * (BuildingShapeUtils.js:8, 15); both are parameters here.
   */
  method CalculateRadius(nds: seq<Id>, nodelist: map<Id, LatLon>) returns (r: Result<real>)
    ensures r == RingRadius(nds, nodelist)
  {
    var extents := RingExtents(nds, nodelist);
    if extents.Err? {
      return Err(extents.fault);
    }
    var b := extents.value;
    var radius := Min2(b.right - b.left, b.top - b.bottom) / 2.0;
    assert radius == RadiusOf(b);
    r := Ok(radius);
  }

  /**
   * `centroid`: the centre of the ring's extents, latitude first. As in
   * `calculateRadius`, the undefined `this.way` and `this.nodelist` of the
   * source (BuildingShapeUtils.js:34, 41) are parameters here.
   */
  method Centroid(nds: seq<Id>, nodelist: map<Id, LatLon>) returns (r: Result<LatLon>)
    ensures r == RingCenter(nds, nodelist)
  {
    var extents := RingExtents(nds, nodelist);
    if extents.Err? {
      return Err(extents.fault);
    }
    var b := extents.value;
    var center := LatLon((b.top + b.bottom) / 2.0, (b.left + b.right) / 2.0);
    assert center == CenterOf(b);
    r := Ok(center);
  }

  /** `getWidth`: the larger of the x-span and the y-span of the shape's points. */
  method GetWidth(points: seq<Vec>) returns (r: Result<real>)
    ensures r == ShapeWidth(points)
  {
    var x: seq<real> := [];
    var y: seq<real> := [];
    for i := 0 to |points|
      invariant |x| == i && |y| == i
      invariant forall j :: 0 <= j < i ==> x[j] == points[j].x && y[j] == points[j].y
    {
      var vec := points[i];
      x := x + [vec.x];
      y := y + [vec.y];
    }
    if |x| == 0 {
      return Err(NoPoints);
    }
    SameCoords(x, points, XOf);
    SameCoords(y, points, YOf);
    var maxX := Largest(x);
    var minX := Smallest(x);
    var maxY := Largest(y);
    var minY := Smallest(y);
    var width := Max2(maxX - minX, maxY - minY);
    assert width == WidthOf(ShapeBox(points)) by {
      assert ShapeBox(points) == Box(minX, minY, maxX, maxY);
    }
    r := Ok(width);
  }

  /**
   * The extents, hence the radius and the centre, depend only on which
   * points occur: permuting them or repeating one changes nothing.
   */
  lemma BoundsSamePoints(a: seq<LatLon>, b: seq<LatLon>)
    requires |a| > 0 && |b| > 0
    requires forall p :: p in a <==> p in b
    ensures BoundsOf(a) == BoundsOf(b)
    ensures RadiusOf(BoundsOf(a)) == RadiusOf(BoundsOf(b))
    ensures CenterOf(BoundsOf(a)) == CenterOf(BoundsOf(b))
  {
    CoordSameElements(a, b, LatOf);
    CoordSameElements(a, b, LonOf);
    MinMaxSameElements(Lats(a), Lats(b));
    MinMaxSameElements(Lons(a), Lons(b));
  }

  /** The width depends only on which points occur. */
  lemma WidthSamePoints(a: seq<Vec>, b: seq<Vec>)
    requires |a| > 0 && |b| > 0
    requires forall v :: v in a <==> v in b
    ensures WidthOf(ShapeBox(a)) == WidthOf(ShapeBox(b))
  {
    CoordSameElements(a, b, XOf);
    CoordSameElements(a, b, YOf);
    MinMaxSameElements(Xs(a), Xs(b));
    MinMaxSameElements(Ys(a), Ys(b));
  }

  /**
   * Two rings over the same set of node refs have the same extents: the
   * order of the refs and a repeated closing ref do not matter.
   */
  lemma RingBoundsSameRefs(n1: seq<Id>, n2: seq<Id>, nodelist: map<Id, LatLon>)
    requires RingBounds(n1, nodelist).Ok? && RingBounds(n2, nodelist).Ok?
    requires forall ref :: ref in n1 <==> ref in n2
    ensures RingBounds(n1, nodelist) == RingBounds(n2, nodelist)
  {
    var p1, p2 := Ring(n1, nodelist).value, Ring(n2, nodelist).value;
    RingPointsIncluded(n1, n2, nodelist);
    RingPointsIncluded(n2, n1, nodelist);
    BoundsSamePoints(p1, p2);
  }

  lemma RingPointsIncluded(n1: seq<Id>, n2: seq<Id>, nodelist: map<Id, LatLon>)
    requires Ring(n1, nodelist).Ok? && Ring(n2, nodelist).Ok?
    requires forall ref :: ref in n1 ==> ref in n2
    ensures forall p :: p in Ring(n1, nodelist).value ==> p in Ring(n2, nodelist).value
  {
    var p1, p2 := Ring(n1, nodelist).value, Ring(n2, nodelist).value;
    forall p | p in p1 ensures p in p2 {
      var i :| 0 <= i < |p1| && p1[i] == p;
      assert n1[i] in n2;
      var j :| 0 <= j < |n2| && n2[j] == n1[i];
      assert p2[j] == nodelist[n2[j]] == p;
    }
  }

  /** Closing a ring by repeating its first ref leaves its extents unchanged. */
  lemma ClosingRefKeepsBounds(nds: seq<Id>, nodelist: map<Id, LatLon>)
    requires RingBounds(nds, nodelist).Ok?
    ensures RingBounds(nds + [nds[0]], nodelist) == RingBounds(nds, nodelist)
  {
    var closed := nds + [nds[0]];
    assert forall ref :: ref in closed <==> ref in nds;
    assert forall i :: 0 <= i < |closed| ==> closed[i] in nodelist by {
      forall i | 0 <= i < |closed| ensures closed[i] in nodelist {
        if i < |nds| { assert closed[i] == nds[i]; } else { assert closed[i] == nds[0]; }
      }
    }
    RingBoundsSameRefs(closed, nds, nodelist);
  }

  /** A single point: zero radius, zero width, and its own centre. */
  lemma SinglePoint(p: LatLon, v: Vec)
    ensures BoundsOf([p]) == Box(p.lon, p.lat, p.lon, p.lat)
    ensures RadiusOf(BoundsOf([p])) == 0.0
    ensures CenterOf(BoundsOf([p])) == p
    ensures WidthOf(ShapeBox([v])) == 0.0
  {
    var b := BoundsOf([p]);
    assert Inside(p, b);
    var s := ShapeBox([v]);
    assert InsideShape(v, s);
  }

  /** A ring of one known node has that node's point as its extents. */
  lemma RingBoundsSingle(ref: Id, nodelist: map<Id, LatLon>)
    requires ref in nodelist
    ensures RingBounds([ref], nodelist) == Ok(Box(nodelist[ref].lon, nodelist[ref].lat, nodelist[ref].lon, nodelist[ref].lat))
  {
    var p := nodelist[ref];
    var ring := Ring([ref], nodelist);
    assert ring.Ok? && |ring.value| == 1 && ring.value[0] == p;
    assert ring.value == [p];
    SinglePoint(p, Vec(0.0, 0.0));
  }

  /** The width is never less than the diameter of the fitted circle. */
  lemma WidthAtLeastDiameter(b: Box)
    requires WellFormed(b)
    ensures WidthOf(b) >= 2.0 * RadiusOf(b)
  {
  }
}
