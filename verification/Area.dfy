/** `getPolygonArea`, the shoelace formula on the greedy tour, and the totals of `AreaProcessor`. */
module Area {
  import opened GoLibrary
  import opened Paths
  import opened RayCasting
  import opened Runners
  import opened Schema
  import opened Sequences
  import opened Sums
  import opened Tour

  // ----- what the code computes

  function Det(): (Coord, Coord) -> real {
    (p: Coord, q: Coord) => p.x * q.y - q.x * p.y
  }

  /** The sum of the shoelace loop. */
  function Shoelace(s: seq<Coord>): real {
    CycleSum(Det(), s)
  }

  function Abs(z: real): real {
    if z < 0.0 then -z else z
  }

  function PolygonArea(lib: Library, coords: seq<Coord>): real {
    Abs(Shoelace(SortByDistance(lib, coords)) / 2.0)
  }

  lemma NextModulo(s: seq<Coord>, i: nat)
    requires i < |s|
    ensures (i + 1) % |s| == Next(s, i)
  {
  }

  method GetPolygonArea(lib: Library, coords: seq<Coord>) returns (r: real)
    ensures r == PolygonArea(lib, coords)
  {
    hide SortByDistance;
    var tour := SortPointsByDistance(lib, coords);
    var area := 0.0;
    for i := 0 to |tour|
      invariant area == PathSum(Det(), if tour == [] then [] else Closed(tour)[..i + 1])
    {
      NextModulo(tour, i);
      var here, next := tour[i], tour[(i + 1) % |tour|];
      SumExtend(Det(), Closed(tour)[..i + 1], next);
      assert Closed(tour)[..i + 1] + [next] == Closed(tour)[..i + 2];
      area := area + (here.x * next.y - next.x * here.y);
    }
    assert tour != [] ==> Closed(tour)[..|tour| + 1] == Closed(tour);
    r := Abs(area / 2.0);
  }

  // ----- laws of the sum

  lemma DetAntisymmetric()
    ensures Antisymmetric(Det())
  {
  }

  /** The sum does not depend on where the list starts, and changes sign with the direction of travel. */
  lemma ShoelaceTurned(s: seq<Coord>, k: nat)
    requires k <= |s|
    ensures Shoelace(s[k..] + s[..k]) == Shoelace(s)
    ensures Shoelace(Reverse(s)) == -Shoelace(s)
  {
    RotationSum(Det(), s, k);
    DetAntisymmetric();
    ReversalSum(Det(), s);
  }

  function Shift(dx: real, dy: real): Coord -> Coord {
    (p: Coord) => Coord(p.x + dx, p.y + dy, p.time)
  }

  function Potential(dx: real, dy: real): Coord -> real {
    (p: Coord) => dx * p.y - dy * p.x
  }

  lemma DetShifted(px: real, py: real, qx: real, qy: real, dx: real, dy: real)
    ensures (px + dx) * (qy + dy) - (qx + dx) * (py + dy)
         == (px * qy - qx * py) + (dx * qy - dy * qx) - (dx * py - dy * px)
  {
  }

  /** Moving the polygon does not change the sum. */
  lemma ShoelaceShifted(s: seq<Coord>, dx: real, dy: real)
    ensures Shoelace(Apply(s, Shift(dx, dy))) == Shoelace(s)
  {
    hide CycleSum, Apply;
    var f, g := Shift(dx, dy), Potential(dx, dy);
    forall p, q ensures Det()(f(p), f(q)) == Det()(p, q) + g(q) - g(p) {
      DetShifted(p.x, p.y, q.x, q.y, dx, dy);
    }
    PotentialCycle(Det(), s, f, g);
  }

  // ----- the fan of triangles and the bound

  function Turn(): (Coord, Coord, Coord) -> real {
    (a: Coord, b: Coord, c: Coord) => Orient(a, b, c)
  }

  /** The shoelace sum is the sum over the fan triangles at vertex 0, for every list. */
  lemma ShoelaceFan(s: seq<Coord>)
    ensures Shoelace(s) == FanSum(Turn(), s)
  {
    DetAntisymmetric();
    forall a, b, c ensures Turn()(a, b, c) == Det()(a, b) + Det()(b, c) + Det()(c, a) {
    }
    FanOutSum(Det(), Turn(), s);
  }

  /** Twice the area is the sum over the fan triangles of the tour, taken positively. */
  lemma AreaIsFan(lib: Library, coords: seq<Coord>)
    ensures var area, fan := PolygonArea(lib, coords), FanSum(Turn(), SortByDistance(lib, coords));
            area >= 0.0 && (2.0 * area == fan || 2.0 * area == -fan)
  {
    ShoelaceFan(SortByDistance(lib, coords));
  }

  lemma FanOfThree(a: Coord, b: Coord, c: Coord)
    ensures FanSum(Turn(), [a, b, c]) == (b.x - a.x) * (c.y - a.y) - (b.y - a.y) * (c.x - a.x)
  {
    assert [a, b, c][..2] == [a, b];
  }

  lemma TourOfThree(lib: Library, a: Coord, b: Coord, c: Coord)
    requires lib.Bounded()
    ensures SortByDistance(lib, [a, b, c]) == [a, b, c] || SortByDistance(lib, [a, b, c]) == [a, c, b]
  {
    var points := [a, b, c];
    var t := TourOf(lib, points);
    DroppedLaw(lib, points);
    NoneDropped(lib, points);
    TourAndRest(t, 3);
    TourEmits(lib, points);
    hide SortByDistance, TourOf;
    assert |t| == 3 && t[1] != t[2];
  }

  /** The area of a triangle, whatever the tour. */
  lemma TriangleArea(lib: Library, a: Coord, b: Coord, c: Coord)
    requires lib.Bounded()
    ensures var area, turn := PolygonArea(lib, [a, b, c]), (b.x - a.x) * (c.y - a.y) - (b.y - a.y) * (c.x - a.x);
            area >= 0.0 && (2.0 * area == turn || 2.0 * area == -turn)
  {
    AreaIsFan(lib, [a, b, c]);
    TourOfThree(lib, a, b, c);
    FanOfThree(a, b, c);
    FanOfThree(a, c, b);
    TurnBack(b.x - a.x, b.y - a.y, c.x - a.x, c.y - a.y);
    hide PolygonArea, FanSum;
  }

  lemma TurnBack(ux: real, uy: real, vx: real, vy: real)
    ensures vx * uy - vy * ux == -(ux * vy - uy * vx)
  {
  }

  /** Every vertex is in the box of width `w` and height `h` at (x, y). */
  ghost predicate InBox(s: seq<Coord>, x: real, y: real, w: real, h: real) {
    forall p <- s :: x <= p.x <= x + w && y <= p.y <= y + h
  }

  lemma Product(u: real, v: real, w: real, h: real)
    requires 0.0 <= u <= w && 0.0 <= v <= h
    ensures 0.0 <= u * v <= w * h
  {
  }

  lemma OppositeSigns(u: real, v: real, p: real, q: real, w: real, h: real)
    requires 0.0 <= u <= w && 0.0 <= v <= w && p >= 0.0 && q >= 0.0 && p + q <= h
    ensures 0.0 <= u * q + v * p <= w * h
  {
  }

  lemma CrossBound(u: real, v: real, p: real, q: real, w: real, h: real)
    requires 0.0 <= u <= w && 0.0 <= v <= w && -h <= p <= h && -h <= q <= h && -h <= q - p <= h
    ensures -(w * h) <= u * q - v * p <= w * h
  {
    if p >= 0.0 && q >= 0.0 {
      Product(u, q, w, h);
      Product(v, p, w, h);
    } else if p <= 0.0 && q <= 0.0 {
      Product(u, -q, w, h);
      Product(v, -p, w, h);
    } else if p < 0.0 {
      OppositeSigns(u, v, -p, q, w, h);
    } else {
      OppositeSigns(u, v, p, -q, w, h);
    }
  }

  /** With the first corner leftmost, twice the area is at most width times the spread of heights. */
  lemma TriangleFromLeft(a: Coord, b: Coord, c: Coord, w: real, h: real)
    requires a.x <= b.x <= a.x + w && a.x <= c.x <= a.x + w
    requires -h <= b.y - a.y <= h && -h <= c.y - a.y <= h && -h <= c.y - b.y <= h
    ensures -(w * h) <= Orient(a, b, c) <= w * h
  {
    CrossBound(b.x - a.x, c.x - a.x, b.y - a.y, c.y - a.y, w, h);
    assert Orient(a, b, c) == (b.x - a.x) * (c.y - a.y) - (c.x - a.x) * (b.y - a.y);
  }

  lemma OrientCyclic(a: Coord, b: Coord, c: Coord)
    ensures Orient(b, c, a) == Orient(a, b, c) == Orient(c, a, b)
  {
  }

  lemma TriangleInBox(a: Coord, b: Coord, c: Coord, x: real, y: real, w: real, h: real)
    requires InBox([a, b, c], x, y, w, h)
    ensures -(w * h) <= Orient(a, b, c) <= w * h
  {
    var t := [a, b, c];
    assert t[0] in t && t[1] in t && t[2] in t;
    OrientCyclic(a, b, c);
    if a.x <= b.x && a.x <= c.x {
      TriangleFromLeft(a, b, c, w, h);
    } else if b.x <= a.x && b.x <= c.x {
      TriangleFromLeft(b, c, a, w, h);
    } else {
      TriangleFromLeft(c, a, b, w, h);
    }
  }

  lemma BoxOfTriangles(s: seq<Coord>, x: real, y: real, w: real, h: real)
    requires InBox(s, x, y, w, h)
    ensures Within(Turn(), s, w * h)
  {
    forall a <- s, b <- s, c <- s ensures -(w * h) <= Turn()(a, b, c) <= w * h {
      TriangleInBox(a, b, c, x, y, w, h);
    }
  }

  lemma BoxArea(s: seq<Coord>, x: real, y: real, w: real, h: real)
    requires s != [] && InBox(s, x, y, w, h)
    ensures w * h >= 0.0
  {
    assert s[0] in s;
    Product(w, h, w, h);
  }

  lemma TourBound(lib: Library, coords: seq<Coord>, k: real)
    requires |coords| >= 3 && k >= 0.0
    requires Within(Turn(), coords, k)
    ensures 0.0 <= PolygonArea(lib, coords) <= (|coords| - 2) as real * k / 2.0
  {
    hide SortByDistance, CycleSum, FanSum, Within;
    var tour := SortByDistance(lib, coords);
    PermutationLaw(lib, coords);
    SubMembers(tour, coords);
    ShoelaceFan(tour);
    SelectionBound(Turn(), tour, coords, k);
    HalfBound(FanSum(Turn(), tour), |coords| - 2, k);
  }

  /** Whatever the greedy reordering does, n points in a box of width w and height h have at most (n - 2) w h / 2. */
  lemma AreaBound(lib: Library, coords: seq<Coord>, x: real, y: real, w: real, h: real)
    requires |coords| >= 3 && InBox(coords, x, y, w, h)
    ensures 0.0 <= PolygonArea(lib, coords) <= (|coords| - 2) as real * (w * h) / 2.0
  {
    hide PolygonArea, Within, InBox;
    BoxArea(coords, x, y, w, h);
    BoxOfTriangles(coords, x, y, w, h);
    TourBound(lib, coords, w * h);
  }

  lemma HalfBound(z: real, n: nat, k: real)
    requires k >= 0.0 && -Times(n, k) <= z <= Times(n, k)
    ensures 0.0 <= Abs(z / 2.0) <= n as real * k / 2.0
  {
    TimesMonotone(0, n, k);
    TimesIs(n, k);
  }

  lemma SubMembers(s: seq<Coord>, t: seq<Coord>)
    requires multiset(s) <= multiset(t)
    ensures |s| <= |t| && forall p <- s :: p in t
  {
    var rest := multiset(t) - multiset(s);
    assert multiset(t) == multiset(s) + rest;
    assert |multiset(t)| == |multiset(s)| + |rest|;
    forall p <- s ensures p in t {
      assert p in multiset(s) && p in multiset(t);
    }
  }

  // ----- totals

  function AreaIn(lib: Library): Polygon -> real {
    (p: Polygon) => PolygonArea(lib, p.coords)
  }

  function RunnerOf(): Polygon -> string {
    (p: Polygon) => p.runner
  }

  /** The loop of `AreaProcessor` over the stored polygons. */
  method AreaForEachUser(lib: Library, polygonData: seq<Polygon>) returns (areaForEachUser: map<string, real>)
    ensures AreTotals(areaForEachUser, AreaIn(lib), RunnerOf(), polygonData)
    ensures forall runner: string :: runner in areaForEachUser <==> exists p <- polygonData :: p.runner == runner
    ensures forall runner: string :: runner in areaForEachUser ==>
              areaForEachUser[runner] == Total(AreaIn(lib), Filter(polygonData, WithKey(RunnerOf(), runner)))
  {
    hide PolygonArea, TotalOf;
    areaForEachUser := map[];
    for i := 0 to |polygonData|
      invariant AreTotals(areaForEachUser, AreaIn(lib), RunnerOf(), polygonData[..i])
    {
      var polygon := polygonData[i];
      var area := GetPolygonArea(lib, polygon.coords);
      AddTotal(areaForEachUser, AreaIn(lib), RunnerOf(), polygonData[..i], polygon, polygon.runner, area);
      assert polygonData[..i + 1] == polygonData[..i] + [polygon];
      if polygon.runner in areaForEachUser {
        areaForEachUser := areaForEachUser[polygon.runner := areaForEachUser[polygon.runner] + area];
        continue;
      }
      areaForEachUser := areaForEachUser[polygon.runner := area];
    }
    assert polygonData[..|polygonData|] == polygonData;
    TotalsInWords(lib, polygonData, areaForEachUser);
  }

  lemma TotalsInWords(lib: Library, polygons: seq<Polygon>, totals: map<string, real>)
    requires AreTotals(totals, AreaIn(lib), RunnerOf(), polygons)
    ensures forall runner: string :: runner in totals <==> exists p <- polygons :: p.runner == runner
    ensures forall runner: string :: runner in totals ==>
              totals[runner] == Total(AreaIn(lib), Filter(polygons, WithKey(RunnerOf(), runner)))
  {
    forall runner: string ensures runner in totals <==> exists p <- polygons :: p.runner == runner {
      assert runner in totals <==> Occurs(RunnerOf(), polygons, runner);
    }
  }

  /** The areas reported for the runners add up to the area of all polygons. */
  lemma AreasConserved(lib: Library, polygons: seq<Polygon>, runners: seq<string>)
    requires Distinct(runners) && forall p <- polygons :: p.runner in runners
    ensures SumOver(AreaIn(lib), RunnerOf(), polygons, runners) == Total(AreaIn(lib), polygons)
  {
    TotalsConserved(AreaIn(lib), RunnerOf(), polygons, runners);
  }
}
