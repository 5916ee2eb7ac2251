/** What `isPointInPolygon` means geometrically: exact on convex polygons, bounded on all of them. */
module Exactness {
  import opened Paths
  import opened RayCasting
  import opened Schema
  import opened Sequences

  /** `q` is left of the line from `a` to `b`; points of the line count on just one of its two sides. */
  predicate LeftOf(q: Coord, a: Coord, b: Coord) {
    Orient(a, b, q) > 0.0 || (Orient(a, b, q) == 0.0 && (b.y < a.y || (b.y == a.y && b.x > a.x)))
  }

  lemma OneSide(q: Coord, a: Coord, b: Coord)
    requires !SamePlace(a, b)
    ensures LeftOf(q, a, b) != LeftOf(q, b, a)
  {
  }

  lemma CrossesBySide(q: Coord, a: Coord, b: Coord)
    ensures a.y <= q.y < b.y ==> Crosses(q, a, b) == LeftOf(q, a, b)
    ensures b.y <= q.y < a.y ==> Crosses(q, a, b) == !LeftOf(q, a, b)
    ensures (a.y > q.y) == (b.y > q.y) ==> !Crosses(q, a, b)
  {
    hide Crosses, Orient;
    CrossesByOrientation(q, a, b);
  }

  // ----- triangles

  lemma OrientTurn(a: Coord, b: Coord, c: Coord)
    ensures Orient(b, c, a) == Orient(a, b, c) && Orient(c, a, b) == Orient(a, b, c)
  {
  }

  lemma WeightsSum(a: Coord, b: Coord, c: Coord, q: Coord)
    ensures Orient(a, b, q) + Orient(b, c, q) + Orient(c, a, q) == Orient(a, b, c)
  {
  }

  lemma OrientFrom(a: Coord, b: Coord, q: Coord)
    ensures Orient(a, b, q) == (a.x - q.x) * (b.y - q.y) - (a.y - q.y) * (b.x - q.x)
  {
  }

  lemma WeightedHeights(a: Coord, b: Coord, c: Coord, q: Coord)
    ensures Orient(b, c, q) * (a.y - q.y) + Orient(c, a, q) * (b.y - q.y) + Orient(a, b, q) * (c.y - q.y) == 0.0
  {
  }

  predicate LeftOfAll(q: Coord, a: Coord, b: Coord, c: Coord) {
    LeftOf(q, a, b) && LeftOf(q, b, c) && LeftOf(q, c, a)
  }

  lemma ProductSign(k: real, z: real)
    ensures k > 0.0 && z > 0.0 ==> k * z > 0.0
    ensures k >= 0.0 && z >= 0.0 ==> k * z >= 0.0
    ensures k <= 0.0 && z >= 0.0 ==> k * z <= 0.0
    ensures k < 0.0 && z > 0.0 ==> k * z < 0.0
  {
  }

  /** Between a rising and a falling side the parity says that both sides have `q` on the same hand. */
  lemma ApexParity(q: Coord, a: Coord, b: Coord, c: Coord)
    requires (b.y > q.y) == (c.y > q.y) && (a.y > q.y) != (b.y > q.y)
    ensures CycleParity(Ray(q), [a, b, c]) == (LeftOf(q, a, b) == LeftOf(q, c, a))
  {
    TriangleParity(Ray(q), a, b, c);
    CrossesBySide(q, a, b);
    CrossesBySide(q, b, c);
    CrossesBySide(q, c, a);
  }

  /** Weighted heights with the three weights as plain numbers. */
  lemma Weights(q: Coord, a: Coord, b: Coord, c: Coord) returns (A: real, B: real, C: real)
    ensures A == Orient(b, c, q) && B == Orient(c, a, q) && C == Orient(a, b, q)
    ensures A + B + C == Orient(a, b, c)
    ensures A * (a.y - q.y) + B * (b.y - q.y) + C * (c.y - q.y) == 0.0
  {
    A, B, C := Orient(b, c, q), Orient(c, a, q), Orient(a, b, q);
    WeightsSum(a, b, c, q);
    WeightedHeights(a, b, c, q);
  }

  lemma BalanceUp(A: real, B: real, C: real, up: real, b: real, c: real)
    requires A * up + B * b + C * c == 0.0 && up > 0.0 && b <= 0.0 && c <= 0.0
    ensures B >= 0.0 && C >= 0.0 ==> A >= 0.0
    ensures B <= 0.0 && C <= 0.0 ==> A <= 0.0
    ensures A == 0.0 && B > 0.0 && C >= 0.0 ==> b == 0.0 && (C == 0.0 || c == 0.0)
  {
    ProductSign(B, -b);
    ProductSign(C, -c);
    ProductSign(A, up);
    ProductSign(-B, -b);
    ProductSign(-C, -c);
    ProductSign(-A, up);
  }

  lemma BalanceDown(A: real, B: real, C: real, down: real, b: real, c: real)
    requires A * down == B * b + C * c && down >= 0.0 && b > 0.0 && c > 0.0
    ensures B >= 0.0 && C > 0.0 ==> A > 0.0
    ensures B < 0.0 && C <= 0.0 ==> A < 0.0
  {
    ProductSign(B, b);
    ProductSign(C, c);
    ProductSign(-B, b);
    ProductSign(-C, c);
    ProductSign(A, down);
    ProductSign(-A, down);
  }

  /** `a` alone above the ray: left of both its sides is left of the third. */
  lemma ApexUpLeft(q: Coord, a: Coord, b: Coord, c: Coord)
    requires Orient(a, b, c) > 0.0 && a.y > q.y && b.y <= q.y && c.y <= q.y
    requires LeftOf(q, a, b) && LeftOf(q, c, a)
    ensures LeftOf(q, b, c)
  {
    var A, B, C := Weights(q, a, b, c);
    BalanceUp(A, B, C, a.y - q.y, b.y - q.y, c.y - q.y);
    if A == 0.0 && c.y == b.y {
      LevelSide(a, b, c);
    }
  }

  lemma LevelSide(a: Coord, b: Coord, c: Coord)
    requires Orient(a, b, c) > 0.0 && b.y == c.y && a.y > b.y
    ensures b.x < c.x
  {
    assert Orient(a, b, c) == (c.x - b.x) * (a.y - b.y);
    ProductSign(b.x - c.x, a.y - b.y);
  }

  /** `a` alone above the ray: right of one of its sides is left of the other. */
  lemma ApexUpRight(q: Coord, a: Coord, b: Coord, c: Coord)
    requires Orient(a, b, c) > 0.0 && a.y > q.y && b.y <= q.y && c.y <= q.y
    ensures LeftOf(q, a, b) || LeftOf(q, c, a)
  {
    var A, B, C := Weights(q, a, b, c);
    BalanceUp(A, B, C, a.y - q.y, b.y - q.y, c.y - q.y);
  }

  lemma ApexDownLeft(q: Coord, a: Coord, b: Coord, c: Coord)
    requires Orient(a, b, c) > 0.0 && a.y <= q.y && b.y > q.y && c.y > q.y
    requires LeftOf(q, a, b) && LeftOf(q, c, a)
    ensures LeftOf(q, b, c)
  {
    var A, B, C := Weights(q, a, b, c);
    BalanceDown(A, B, C, q.y - a.y, b.y - q.y, c.y - q.y);
  }

  lemma ApexDownRight(q: Coord, a: Coord, b: Coord, c: Coord)
    requires Orient(a, b, c) > 0.0 && a.y <= q.y && b.y > q.y && c.y > q.y
    ensures LeftOf(q, a, b) || LeftOf(q, c, a)
  {
    var A, B, C := Weights(q, a, b, c);
    BalanceDown(A, B, C, q.y - a.y, b.y - q.y, c.y - q.y);
  }

  /** `a` is level with the ray and opposite an edge `q` is strictly left of; the others are not above. */
  lemma TopLevel(q: Coord, a: Coord, b: Coord, c: Coord)
    requires Orient(a, b, c) > 0.0 && a.y == q.y && b.y <= q.y && c.y <= q.y
    ensures !(LeftOf(q, a, b) && LeftOf(q, c, a) && Orient(b, c, q) > 0.0)
  {
  }

  lemma TriangleNotAbove(q: Coord, a: Coord, b: Coord, c: Coord)
    requires Orient(a, b, c) > 0.0 && a.y <= q.y && b.y <= q.y && c.y <= q.y
    ensures !LeftOfAll(q, a, b, c)
  {
    var A, B, C := Orient(b, c, q), Orient(c, a, q), Orient(a, b, q);
    if LeftOfAll(q, a, b, c) {
      WeightsSum(a, b, c, q);
      assert A * (q.y - a.y) + B * (q.y - b.y) + C * (q.y - c.y) == 0.0 by { WeightedHeights(a, b, c, q); }
      ProductSign(A, q.y - a.y);
      ProductSign(B, q.y - b.y);
      ProductSign(C, q.y - c.y);
      OrientTurn(a, b, c);
      if A > 0.0 {
        TopLevel(q, a, b, c);
      } else if B > 0.0 {
        TopLevel(q, b, c, a);
      } else {
        TopLevel(q, c, a, b);
      }
      assert false;
    }
  }

  lemma TriangleAllAbove(q: Coord, a: Coord, b: Coord, c: Coord)
    requires Orient(a, b, c) > 0.0 && a.y > q.y && b.y > q.y && c.y > q.y
    ensures !LeftOfAll(q, a, b, c)
  {
    var A, B, C := Orient(b, c, q), Orient(c, a, q), Orient(a, b, q);
    if LeftOfAll(q, a, b, c) {
      WeightsSum(a, b, c, q);
      assert A * (a.y - q.y) + B * (b.y - q.y) + C * (c.y - q.y) == 0.0 by { WeightedHeights(a, b, c, q); }
      ProductSign(A, a.y - q.y);
      ProductSign(B, b.y - q.y);
      ProductSign(C, c.y - q.y);
      assert false;
    }
  }

  /** On a triangle turning left the ray casting is exactly "left of all three sides", vertices included. */
  lemma TriangleExact(q: Coord, a: Coord, b: Coord, c: Coord)
    requires Orient(a, b, c) > 0.0
    ensures CycleParity(Ray(q), [a, b, c]) == LeftOfAll(q, a, b, c)
  {
    OrientTurn(a, b, c);
    TriangleTurned(q, a, b, c);
    hide CycleParity, Orient;
    var u, v, w := a.y > q.y, b.y > q.y, c.y > q.y;
    if u == v == w {
      LevelParity(q, a, b, c);
      if u {
        TriangleAllAbove(q, a, b, c);
      } else {
        TriangleNotAbove(q, a, b, c);
      }
    } else if v == w {
      TriangleApex(q, a, b, c);
    } else if u == w {
      TriangleApex(q, b, c, a);
    } else {
      TriangleApex(q, c, a, b);
    }
  }

  lemma TriangleApex(q: Coord, a: Coord, b: Coord, c: Coord)
    requires Orient(a, b, c) > 0.0 && (b.y > q.y) == (c.y > q.y) && (a.y > q.y) != (b.y > q.y)
    ensures CycleParity(Ray(q), [a, b, c]) == LeftOfAll(q, a, b, c)
  {
    ApexParity(q, a, b, c);
    hide CycleParity, Orient, LeftOf;
    if a.y > q.y {
      ApexUpRight(q, a, b, c);
      if LeftOf(q, a, b) && LeftOf(q, c, a) {
        ApexUpLeft(q, a, b, c);
      }
    } else {
      ApexDownRight(q, a, b, c);
      if LeftOf(q, a, b) && LeftOf(q, c, a) {
        ApexDownLeft(q, a, b, c);
      }
    }
  }

  /** In a flat triangle the two sides at `a` lie on one line. */
  lemma FlatSides(q: Coord, a: Coord, b: Coord, c: Coord)
    requires Orient(a, b, c) == 0.0
    ensures Orient(a, b, q) * (c.y - a.y) + Orient(c, a, q) * (b.y - a.y) == 0.0
  {
    FlatIdentity(b.x - a.x, b.y - a.y, c.x - a.x, c.y - a.y, q.x - a.x, q.y - a.y);
    OrientTurn(c, a, q);
  }

  lemma FlatIdentity(ux: real, uy: real, vx: real, vy: real, px: real, py: real)
    ensures (ux * py - uy * px) * vy - (vx * py - vy * px) * uy == (ux * vy - uy * vx) * py
  {
  }

  lemma OppositeHands(B: real, C: real, u: real, v: real)
    requires C * v + B * u == 0.0 && ((u > 0.0 && v > 0.0) || (u < 0.0 && v < 0.0))
    ensures (C > 0.0 <==> B < 0.0) && (C < 0.0 <==> B > 0.0)
    decreases u < 0.0
  {
    if u < 0.0 {
      assert C * -v + B * -u == 0.0;
      OppositeHands(B, C, -u, -v);
    } else {
      ScaledSign(v, C);
      ScaledSign(u, B);
    }
  }

  lemma FlatApex(q: Coord, a: Coord, b: Coord, c: Coord)
    requires Orient(a, b, c) == 0.0 && (b.y > q.y) == (c.y > q.y) && (a.y > q.y) != (b.y > q.y)
    ensures !CycleParity(Ray(q), [a, b, c])
  {
    ApexParity(q, a, b, c);
    hide CycleParity;
    FlatSides(q, a, b, c);
    OppositeHands(Orient(c, a, q), Orient(a, b, q), b.y - a.y, c.y - a.y);
  }

  lemma FlatTriangle(q: Coord, a: Coord, b: Coord, c: Coord)
    requires Orient(a, b, c) == 0.0
    ensures !CycleParity(Ray(q), [a, b, c])
  {
    TriangleTurned(q, a, b, c);
    OrientTurn(a, b, c);
    hide CycleParity, Orient;
    var u, v, w := a.y > q.y, b.y > q.y, c.y > q.y;
    if u == v == w {
      LevelParity(q, a, b, c);
    } else if v == w {
      FlatApex(q, a, b, c);
    } else if u == w {
      FlatApex(q, b, c, a);
    } else {
      FlatApex(q, c, a, b);
    }
  }

  /** No side meets the ray. */
  lemma LevelParity(q: Coord, a: Coord, b: Coord, c: Coord)
    requires (a.y > q.y) == (b.y > q.y) == (c.y > q.y)
    ensures !CycleParity(Ray(q), [a, b, c])
  {
    TriangleParity(Ray(q), a, b, c);
    CrossesBySide(q, a, b);
    CrossesBySide(q, b, c);
    CrossesBySide(q, c, a);
  }

  lemma TriangleTurned(q: Coord, a: Coord, b: Coord, c: Coord)
    ensures CycleParity(Ray(q), [b, c, a]) == CycleParity(Ray(q), [a, b, c]) == CycleParity(Ray(q), [c, a, b])
  {
    hide CycleParity;
    TriangleParity(Ray(q), a, b, c);
    TriangleParity(Ray(q), b, c, a);
    TriangleParity(Ray(q), c, a, b);
  }

  /** The triangle, in either orientation, holds `q`; points of a side count on one side of it only. */
  predicate TriangleHolds(q: Coord, a: Coord, b: Coord, c: Coord) {
    (Orient(a, b, c) > 0.0 && LeftOfAll(q, a, b, c)) || (Orient(a, b, c) < 0.0 && LeftOfAll(q, a, c, b))
  }

  /** On every triangle, flat ones included, the parity says whether it holds the point. */
  lemma AnyTriangleExact(q: Coord, a: Coord, b: Coord, c: Coord)
    ensures CycleParity(Ray(q), [a, b, c]) == TriangleHolds(q, a, b, c)
  {
    if Orient(a, b, c) > 0.0 {
      TriangleExact(q, a, b, c);
    } else if Orient(a, b, c) < 0.0 {
      OrientTurn(a, b, c);
      OrientSwap(b, c, a);
      OrientTurn(a, c, b);
      TriangleExact(q, a, c, b);
      TriangleParity(Ray(q), a, b, c);
      TriangleParity(Ray(q), a, c, b);
      RaySymmetric(q);
    } else {
      FlatTriangle(q, a, b, c);
    }
  }

  /** Do an odd number of the triangles that fan out from vertex 0 hold the point? */
  predicate HeldByOddlyMany(q: Coord, s: seq<Coord>) {
    |s| >= 3
    && HeldByOddlyMany(q, s[..|s| - 1]) != TriangleHolds(q, s[0], s[|s| - 2], s[|s| - 1])
  }

  lemma {:induction false} FanHolds(q: Coord, s: seq<Coord>)
    ensures FanParity(Ray(q), s) == HeldByOddlyMany(q, s)
  {
    hide TriangleHolds, Ray;
    if |s| >= 3 {
      FanHolds(q, s[..|s| - 1]);
      AnyTriangleExact(q, s[0], s[|s| - 2], s[|s| - 1]);
    }
  }

  /** On any list of vertices, self-crossing or not, the answer is whether oddly many fan triangles hold the point. */
  lemma FanLaw(q: Coord, s: seq<Coord>)
    requires !HasVertex(q, s)
    ensures IsInside(q, s) == HeldByOddlyMany(q, s)
  {
    RaySymmetric(q);
    FanOut(Ray(q), s);
    FanHolds(q, s);
  }

  // ----- convex polygons

  /** Listed anticlockwise, every three vertices turn left. */
  ghost predicate Convex(s: seq<Coord>) {
    |s| >= 3 && forall i, j, k :: 0 <= i < j < k < |s| ==> Orient(s[i], s[j], s[k]) > 0.0
  }

  function Side(q: Coord): (Coord, Coord) -> bool {
    (a, b) => LeftOf(q, a, b)
  }

  /** `LeftOf` in terms of the signed distance and the direction of the line. */
  predicate Positive(o: real, dx: real, dy: real) {
    o > 0.0 || (o == 0.0 && (dy < 0.0 || (dy == 0.0 && dx > 0.0)))
  }

  lemma PositiveScaled(k: real, o: real, dx: real, dy: real)
    requires k > 0.0
    ensures Positive(k * o, k * dx, k * dy) == Positive(o, dx, dy)
  {
  }

  /** At vertex `v` the edge to `w` lies between the edge from `u` and the diagonal to `z`. */
  lemma BetweenOut(q: Coord, u: Coord, v: Coord, w: Coord, z: Coord)
    requires Orient(u, v, w) > 0.0 && Orient(v, w, z) > 0.0 && Orient(u, v, z) > 0.0
    requires LeftOf(q, u, v) && LeftOf(q, v, z)
    ensures LeftOf(q, v, w)
  {
  }

  /** At vertex `v` the edge from `w` lies between the diagonal from `u` and the edge to `z`. */
  lemma BetweenIn(q: Coord, u: Coord, w: Coord, v: Coord, z: Coord)
    requires Orient(u, w, v) > 0.0 && Orient(w, v, z) > 0.0 && Orient(u, v, z) > 0.0
    requires LeftOf(q, u, v) && LeftOf(q, v, z)
    ensures LeftOf(q, w, v)
  {
  }

  /** `Positive`, or nothing at all. */
  predicate NotNegative(o: real, dx: real, dy: real) {
    Positive(o, dx, dy) || (o == dx == dy == 0.0)
  }

  lemma NotNegativeScaled(k: real, o: real, dx: real, dy: real)
    requires k >= 0.0 && Positive(o, dx, dy)
    ensures NotNegative(k * o, k * dx, k * dy)
    ensures k > 0.0 ==> Positive(k * o, k * dx, k * dy)
  {
    if k > 0.0 {
      PositiveScaled(k, o, dx, dy);
    }
  }

  lemma LeftOfPositive(q: Coord, a: Coord, b: Coord)
    ensures LeftOf(q, a, b) == Positive(Orient(a, b, q), b.x - a.x, b.y - a.y)
  {
  }

  /** A point of a triangle is left of every line that has no corner of it on the right. */
  lemma EarLeftOfLine(q: Coord, a: Coord, b: Coord, c: Coord, p: Coord, r: Coord)
    requires Orient(a, b, c) > 0.0 && LeftOfAll(q, a, b, c)
    requires Orient(p, r, a) >= 0.0 && Orient(p, r, b) >= 0.0 && Orient(p, r, c) > 0.0
    ensures LeftOf(q, p, r)
  {
    var k, o, x, y, k', o', x', y', k'', o'', x'', y'', d, u, v, w := EarWeights(q, a, b, c, p, r);
    CombinePositive(k, o, x, y, k', o', x', y', k'', o'', x'', y'', d, u, v, w);
  }

  lemma EarWeights(q: Coord, a: Coord, b: Coord, c: Coord, p: Coord, r: Coord)
    returns (k: real, o: real, x: real, y: real, k': real, o': real, x': real, y': real,
             k'': real, o'': real, x'': real, y'': real, d: real, u: real, v: real, w: real)
    requires Orient(a, b, c) > 0.0 && LeftOfAll(q, a, b, c)
    requires Orient(p, r, a) >= 0.0 && Orient(p, r, b) >= 0.0 && Orient(p, r, c) > 0.0
    ensures Positive(o, x, y) && Positive(o', x', y') && Positive(o'', x'', y'')
    ensures k >= 0.0 && k' >= 0.0 && k'' > 0.0 && d > 0.0
    ensures k * o + k' * o' + k'' * o'' == d * u
    ensures k * x + k' * x' + k'' * x'' == d * v
    ensures k * y + k' * y' + k'' * y'' == d * w
    ensures Positive(u, v, w) ==> LeftOf(q, p, r)
  {
    k, o, x, y := Orient(p, r, a), Orient(b, c, q), c.x - b.x, c.y - b.y;
    k', o', x', y' := Orient(p, r, b), Orient(c, a, q), a.x - c.x, a.y - c.y;
    k'', o'', x'', y'' := Orient(p, r, c), Orient(a, b, q), b.x - a.x, b.y - a.y;
    d, u, v, w := Orient(a, b, c), Orient(p, r, q), r.x - p.x, r.y - p.y;
    NamedWeights(q, a, b, c, p, r, k, o, k', o', k'', o'', d, u);
    NamedDirections(a, b, c, p, r, k, x, y, k', x', y', k'', x'', y'', d, v, w);
    LeftOfPositive(q, p, r);
    LeftOfPositive(q, a, b);
    LeftOfPositive(q, b, c);
    LeftOfPositive(q, c, a);
  }

  lemma NamedWeights(q: Coord, a: Coord, b: Coord, c: Coord, p: Coord, r: Coord,
                     k: real, o: real, k': real, o': real, k'': real, o'': real, d: real, u: real)
    requires k == Orient(p, r, a) && k' == Orient(p, r, b) && k'' == Orient(p, r, c)
    requires o == Orient(b, c, q) && o' == Orient(c, a, q) && o'' == Orient(a, b, q)
    requires d == Orient(a, b, c) && u == Orient(p, r, q)
    ensures k * o + k' * o' + k'' * o'' == d * u
  {
  }

  lemma NamedDirections(a: Coord, b: Coord, c: Coord, p: Coord, r: Coord,
                        k: real, x: real, y: real, k': real, x': real, y': real, k'': real, x'': real, y'': real,
                        d: real, v: real, w: real)
    requires k == Orient(p, r, a) && k' == Orient(p, r, b) && k'' == Orient(p, r, c) && d == Orient(a, b, c)
    requires x == c.x - b.x && x' == a.x - c.x && x'' == b.x - a.x && v == r.x - p.x
    requires y == c.y - b.y && y' == a.y - c.y && y'' == b.y - a.y && w == r.y - p.y
    ensures k * x + k' * x' + k'' * x'' == d * v
    ensures k * y + k' * y' + k'' * y'' == d * w
  {
  }

  lemma CombinePositive(k: real, o: real, x: real, y: real, k': real, o': real, x': real, y': real,
                        k'': real, o'': real, x'': real, y'': real, d: real, u: real, v: real, w: real)
    requires Positive(o, x, y) && Positive(o', x', y') && Positive(o'', x'', y'')
    requires k >= 0.0 && k' >= 0.0 && k'' > 0.0 && d > 0.0
    requires k * o + k' * o' + k'' * o'' == d * u
    requires k * x + k' * x' + k'' * x'' == d * v
    requires k * y + k' * y' + k'' * y'' == d * w
    ensures Positive(u, v, w)
  {
    SumPositive(k, o, x, y, k', o', x', y', k'', o'', x'', y'');
    PositiveScaled(d, u, v, w);
  }

  lemma SumPositive(k: real, o: real, x: real, y: real, k': real, o': real, x': real, y': real,
                    k'': real, o'': real, x'': real, y'': real)
    requires Positive(o, x, y) && Positive(o', x', y') && Positive(o'', x'', y'')
    requires k >= 0.0 && k' >= 0.0 && k'' > 0.0
    ensures Positive(k * o + k' * o' + k'' * o'', k * x + k' * x' + k'' * x'', k * y + k' * y' + k'' * y'')
  {
    NotNegativeScaled(k, o, x, y);
    NotNegativeScaled(k', o', x', y');
    NotNegativeScaled(k'', o'', x'', y'');
  }

  lemma ConvexFront(s: seq<Coord>)
    requires Convex(s) && |s| > 3
    ensures Convex(s[..|s| - 1])
  {
  }

  /** The ear at the last vertex lies left of every edge of the rest. */
  lemma EarLeftOfEdges(q: Coord, s: seq<Coord>, i: nat)
    requires Convex(s) && i + 2 < |s|
    requires LeftOfAll(q, s[0], s[|s| - 2], s[|s| - 1])
    ensures LeftOf(q, s[i], s[i + 1])
  {
    var n := |s|;
    assert Orient(s[0], s[n - 2], s[n - 1]) > 0.0 && Orient(s[i], s[i + 1], s[n - 1]) > 0.0;
    if i > 0 {
      assert Orient(s[0], s[i], s[i + 1]) > 0.0;
      OrientTurn(s[0], s[i], s[i + 1]);
    }
    if i + 1 < n - 2 {
      assert Orient(s[i], s[i + 1], s[n - 2]) > 0.0;
    }
    EarLeftOfLine(q, s[0], s[n - 2], s[n - 1], s[i], s[i + 1]);
  }

  /** What is left of the edges of the rest and of the cut is left of the two edges at the last vertex. */
  lemma RestLeftOfLastEdges(q: Coord, s: seq<Coord>)
    requires Convex(s) && |s| > 3
    requires LeftOf(q, s[0], s[1]) && LeftOf(q, s[|s| - 3], s[|s| - 2]) && LeftOf(q, s[|s| - 2], s[0])
    ensures LeftOf(q, s[|s| - 2], s[|s| - 1]) && LeftOf(q, s[|s| - 1], s[0])
  {
    var n := |s|;
    assert Orient(s[n - 3], s[n - 2], s[n - 1]) > 0.0 && Orient(s[0], s[n - 2], s[n - 1]) > 0.0;
    assert Orient(s[0], s[n - 3], s[n - 2]) > 0.0;
    OrientTurn(s[0], s[n - 2], s[n - 1]);
    OrientTurn(s[0], s[n - 3], s[n - 2]);
    BetweenOut(q, s[n - 3], s[n - 2], s[n - 1], s[0]);
    assert Orient(s[0], s[1], s[n - 1]) > 0.0 && Orient(s[0], s[1], s[n - 2]) > 0.0;
    OrientTurn(s[0], s[1], s[n - 1]);
    OrientTurn(s[0], s[1], s[n - 2]);
    BetweenIn(q, s[n - 2], s[n - 1], s[0], s[1]);
  }

  /** On a convex polygon of any size the ray casting is exactly "left of every edge", vertices included. */
  lemma {:induction false} ConvexExact(q: Coord, s: seq<Coord>)
    requires Convex(s)
    ensures CycleParity(Ray(q), s) <==> AllEdges(Side(q), s)
  {
    var a, b, c := s[0], s[|s| - 2], s[|s| - 1];
    RaySymmetric(q);
    CutLastEar(Ray(q), s);
    EarExact(q, s);
    hide CycleParity, Orient, LeftOf;
    if |s| == 3 {
      ShortCycle(Ray(q), s[..2]);
      EdgesAreSteps(Side(q), s);
    } else {
      ConvexFront(s);
      ConvexExact(q, s[..|s| - 1]);
      ConvexSides(q, s);
      EarOrRest(Side(q), s);
    }
  }

  lemma EarExact(q: Coord, s: seq<Coord>)
    requires Convex(s)
    ensures var a, b, c := s[0], s[|s| - 2], s[|s| - 1];
            CycleParity(Ray(q), [a, b, c]) == (Side(q)(a, b) && Side(q)(b, c) && Side(q)(c, a))
  {
    assert Orient(s[0], s[|s| - 2], s[|s| - 1]) > 0.0;
    TriangleExact(q, s[0], s[|s| - 2], s[|s| - 1]);
  }

  lemma ConvexSides(q: Coord, s: seq<Coord>)
    requires Convex(s) && |s| > 3
    ensures var a, b, c := s[0], s[|s| - 2], s[|s| - 1];
            && Side(q)(a, b) != Side(q)(b, a)
            && (Side(q)(a, b) && Side(q)(b, c) && Side(q)(c, a) ==> AllSteps(Side(q), s[..|s| - 1]))
            && (AllEdges(Side(q), s[..|s| - 1]) ==> Side(q)(b, c) && Side(q)(c, a))
  {
    var front := s[..|s| - 1];
    var a, b, c := s[0], s[|s| - 2], s[|s| - 1];
    assert Orient(a, b, c) > 0.0;
    OneSide(q, a, b);
    if Side(q)(a, b) && Side(q)(b, c) && Side(q)(c, a) {
      forall i {:trigger front[i]} | 0 <= i < |front| - 1 ensures Side(q)(front[i], front[i + 1]) {
        EarLeftOfEdges(q, s, i);
      }
    }
    if AllEdges(Side(q), front) {
      FirstAndLastEdges(Side(q), front);
      RestLeftOfLastEdges(q, s);
    }
  }

  function StrictlyLeft(q: Coord): (Coord, Coord) -> bool {
    (a, b) => Orient(a, b, q) > 0.0
  }

  function NotRight(q: Coord): (Coord, Coord) -> bool {
    (a, b) => Orient(a, b, q) >= 0.0
  }

  lemma OrientAtPlace(a: Coord, b: Coord, p: Coord, q: Coord)
    requires SamePlace(p, q)
    ensures Orient(a, b, p) == Orient(a, b, q)
  {
  }

  /** Every vertex of a convex polygon is left of, or on, every edge. */
  lemma VertexNotRight(q: Coord, s: seq<Coord>, i: nat, k: nat)
    requires Convex(s) && i < |s| && k < |s| && SamePlace(s[k], q)
    ensures Orient(s[i], s[Next(s, i)], q) >= 0.0
  {
    var j := Next(s, i);
    OrientAtPlace(s[i], s[j], s[k], q);
    VertexSides(q, s[k], s[i], s[i]);
    VertexSides(q, s[k], s[j], s[j]);
    hide Orient;
    OrientTurn(s[i], s[j], s[k]);
    OrientTurn(s[j], s[k], s[i]);
    if j == 0 && 0 < k < i {
      assert Orient(s[0], s[k], s[i]) > 0.0;
    } else if j != 0 && k < i {
      assert Orient(s[k], s[i], s[j]) > 0.0;
    } else if j != 0 && k > j {
      assert Orient(s[i], s[j], s[k]) > 0.0;
    }
  }

  lemma RightOfNoVertex(q: Coord, s: seq<Coord>)
    requires Convex(s) && HasVertex(q, s)
    ensures AllEdges(NotRight(q), s)
  {
    var k :| 0 <= k < |s| && SamePlace(s[k], q);
    forall i | 0 <= i < |s| ensures NotRight(q)(s[i], s[Next(s, i)]) {
      VertexNotRight(q, s, i, k);
    }
  }

  lemma SideImplications(q: Coord, s: seq<Coord>)
    ensures AllEdges(StrictlyLeft(q), s) ==> AllEdges(Side(q), s)
    ensures AllEdges(Side(q), s) ==> AllEdges(NotRight(q), s)
  {
  }

  /** Interior points of a convex polygon are reported inside, points off it outside, in either direction of travel. */
  lemma ConvexPolygonLaw(q: Coord, s: seq<Coord>)
    requires Convex(s)
    ensures AllEdges(StrictlyLeft(q), s) ==> IsInside(q, s) && IsInside(q, Reverse(s))
    ensures !AllEdges(NotRight(q), s) ==> !IsInside(q, s) && !IsInside(q, Reverse(s))
  {
    ConvexExact(q, s);
    ReversalLaw(q, s);
    SideImplications(q, s);
    if HasVertex(q, s) {
      RightOfNoVertex(q, s);
    }
  }

  /** The orientation from the differences, as plain numbers. */
  lemma OrientIs(a: Coord, b: Coord, c: Coord, ux: real, uy: real, vx: real, vy: real)
    requires b.x - a.x == ux && b.y - a.y == uy && c.x - a.x == vx && c.y - a.y == vy
    ensures Orient(a, b, c) == ux * vy - uy * vx
  {
  }

  lemma VertexSides(q: Coord, a: Coord, b: Coord, c: Coord)
    requires SamePlace(a, q)
    ensures Orient(a, b, q) == 0.0 && Orient(c, a, q) == 0.0 && Orient(b, c, q) == Orient(a, b, c)
  {
  }

  /** The sides decide for a triangle turning left: strictly left of all three, or strictly right of one. */
  lemma SidesLaw(q: Coord, a: Coord, b: Coord, c: Coord)
    requires Orient(a, b, c) > 0.0
    ensures Orient(a, b, q) > 0.0 && Orient(b, c, q) > 0.0 && Orient(c, a, q) > 0.0 ==>
              IsInside(q, [a, b, c]) && !HasVertex(q, [a, b, c])
    ensures Orient(a, b, q) < 0.0 || Orient(b, c, q) < 0.0 || Orient(c, a, q) < 0.0 ==> !IsInside(q, [a, b, c])
  {
    TriangleExact(q, a, b, c);
    OrientTurn(a, b, c);
    if SamePlace(a, q) {
      VertexSides(q, a, b, c);
    } else if SamePlace(b, q) {
      VertexSides(q, b, c, a);
    } else if SamePlace(c, q) {
      VertexSides(q, c, a, b);
    }
    hide CycleParity, Orient;
  }

  /** `q` is the weighted mean of a, b, c. */
  predicate Barycentric(q: Coord, a: Coord, b: Coord, c: Coord, u: real, v: real, w: real) {
    u + v + w == 1.0 && q.x == u * a.x + v * b.x + w * c.x && q.y == u * a.y + v * b.y + w * c.y
  }

  lemma BarycentricWeight(q: Coord, a: Coord, b: Coord, c: Coord, u: real, v: real, w: real)
    requires Barycentric(q, a, b, c, u, v, w)
    ensures Orient(a, b, q) == w * Orient(a, b, c)
  {
  }

  /** Any proper triangle, listed either way round: positive weights mean inside, a negative weight means outside. */
  lemma TriangleLaw(q: Coord, a: Coord, b: Coord, c: Coord, u: real, v: real, w: real)
    requires Orient(a, b, c) != 0.0 && Barycentric(q, a, b, c, u, v, w)
    ensures u > 0.0 && v > 0.0 && w > 0.0 ==> IsInside(q, [a, b, c])
    ensures u < 0.0 || v < 0.0 || w < 0.0 ==> !IsInside(q, [a, b, c])
  {
    if Orient(a, b, c) > 0.0 {
      LeftTriangleLaw(q, a, b, c, u, v, w);
    } else {
      OrientTurn(a, b, c);
      OrientSwap(b, c, a);
      OrientTurn(a, c, b);
      LeftTriangleLaw(q, a, c, b, u, w, v);
      TriangleReversed(a, b, c);
      ReversalLaw(q, [a, c, b]);
      RotationLaw(q, [b, c, a], 2);
      assert [b, c, a][2..] + [b, c, a][..2] == [a, b, c];
    }
  }

  lemma TriangleReversed(a: Coord, b: Coord, c: Coord)
    ensures Reverse([a, c, b]) == [b, c, a]
  {
  }

  lemma LeftTriangleLaw(q: Coord, a: Coord, b: Coord, c: Coord, u: real, v: real, w: real)
    requires Orient(a, b, c) > 0.0 && Barycentric(q, a, b, c, u, v, w)
    ensures u > 0.0 && v > 0.0 && w > 0.0 ==> IsInside(q, [a, b, c])
    ensures u < 0.0 || v < 0.0 || w < 0.0 ==> !IsInside(q, [a, b, c])
  {
    TriangleExact(q, a, b, c);
    LeftOfByWeights(q, a, b, c, u, v, w);
    if HasVertex(q, [a, b, c]) {
      OrientTurn(a, b, c);
      if SamePlace(a, q) {
        VertexWeights(q, a, b, c, u, v, w);
      } else if SamePlace(b, q) {
        VertexWeights(q, b, c, a, v, w, u);
      } else {
        VertexWeights(q, c, a, b, w, u, v);
      }
    }
  }

  lemma LeftOfByWeights(q: Coord, a: Coord, b: Coord, c: Coord, u: real, v: real, w: real)
    requires Orient(a, b, c) > 0.0 && Barycentric(q, a, b, c, u, v, w)
    ensures u > 0.0 && v > 0.0 && w > 0.0 ==> LeftOfAll(q, a, b, c)
    ensures u < 0.0 || v < 0.0 || w < 0.0 ==> !LeftOfAll(q, a, b, c)
  {
    OrientTurn(a, b, c);
    BarycentricWeight(q, a, b, c, u, v, w);
    BarycentricWeight(q, b, c, a, v, w, u);
    BarycentricWeight(q, c, a, b, w, u, v);
    ScaledSign(Orient(a, b, c), u);
    ScaledSign(Orient(a, b, c), v);
    ScaledSign(Orient(a, b, c), w);
  }

  lemma VertexWeights(q: Coord, a: Coord, b: Coord, c: Coord, u: real, v: real, w: real)
    requires Orient(a, b, c) > 0.0 && Barycentric(q, a, b, c, u, v, w) && SamePlace(a, q)
    ensures u == 1.0 && v == 0.0 && w == 0.0
  {
  }

  // ----- the bounding box

  lemma {:induction false} SomeEdgeHit(q: Coord, path: seq<Coord>) returns (i: nat)
    requires PathParity(Ray(q), path)
    ensures i + 1 < |path| && Crosses(q, path[i], path[i + 1])
  {
    if Crosses(q, path[|path| - 2], path[|path| - 1]) {
      i := |path| - 2;
    } else {
      i := SomeEdgeHit(q, path[..|path| - 1]);
    }
  }

  /** A ray that meets every straddling edge changes side with every edge it meets. */
  lemma {:induction false} EveryStraddlerHit(q: Coord, path: seq<Coord>)
    requires path != [] && forall i :: 0 <= i < |path| ==> path[i].x > q.x
    ensures PathParity(Ray(q), path) == ((path[0].y > q.y) != (path[|path| - 1].y > q.y))
  {
    if |path| >= 2 {
      EveryStraddlerHit(q, path[..|path| - 1]);
      HitRightOf(q, path[|path| - 2], path[|path| - 1]);
    }
  }

  lemma HitRightOf(q: Coord, a: Coord, b: Coord)
    ensures a.x > q.x && b.x > q.x ==> Crosses(q, a, b) == ((a.y > q.y) != (b.y > q.y))
    ensures a.x <= q.x && b.x <= q.x ==> !Crosses(q, a, b)
  {
    CrossesByOrientation(q, a, b);
    OrientFrom(a, b, q);
    ProductSign(a.x - q.x, b.y - q.y);
    ProductSign(b.x - q.x, a.y - q.y);
    ProductSign(a.x - q.x, q.y - b.y);
    ProductSign(b.x - q.x, q.y - a.y);
  }

  lemma SomeVertexNotRight(q: Coord, s: seq<Coord>)
    requires CycleParity(Ray(q), s)
    ensures exists l <- s :: l.x <= q.x
  {
    var path := Closed(s);
    if forall k :: 0 <= k < |path| ==> path[k].x > q.x {
      EveryStraddlerHit(q, path);
      assert false;
    }
    var k :| 0 <= k < |path| && path[k].x <= q.x;
    assert path[k] in s;
  }

  lemma HitEdgeAround(q: Coord, a: Coord, b: Coord)
    requires Crosses(q, a, b)
    ensures q.x < a.x || q.x < b.x
    ensures (b.y <= q.y < a.y) || (a.y <= q.y < b.y)
  {
    HitRightOf(q, a, b);
  }

  /** A point reported inside has vertices on all four sides of it. */
  lemma BoundingBoxLaw(q: Coord, s: seq<Coord>)
    requires IsInside(q, s)
    ensures exists l <- s :: l.x <= q.x
    ensures exists r <- s :: r.x >= q.x
    ensures exists b <- s :: b.y <= q.y
    ensures exists t <- s :: t.y >= q.y
  {
    if HasVertex(q, s) {
      var p :| p in s && SamePlace(p, q);
    } else {
      var path := Closed(s);
      var i := SomeEdgeHit(q, path);
      HitEdgeAround(q, path[i], path[i + 1]);
      assert path[i] in s && path[i + 1] in s;
      SomeVertexNotRight(q, s);
    }
  }
}
