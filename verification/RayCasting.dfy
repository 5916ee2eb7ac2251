/** `isPointInPolygon`: is a point inside a closed list of vertices? */
module RayCasting {
  import opened Paths
  import opened Schema
  import opened Sequences

  // ----- what the code computes

  predicate HasVertex(q: Coord, poly: seq<Coord>) {
    exists p <- poly :: SamePlace(p, q)
  }

  /** How far along, from the start of an edge, the ray's height is reached. */
  function Offset(dx: real, height: real, dy: real): real
    requires dy != 0.0
  {
    dx * height / dy
  }

  /** The ray going right from `q` meets the edge from `a` to `b`. */
  predicate Crosses(q: Coord, a: Coord, b: Coord) {
    ((a.y > q.y) != (b.y > q.y)) && q.x < Offset(b.x - a.x, q.y - a.y, b.y - a.y) + a.x
  }

  function Ray(q: Coord): (Coord, Coord) -> bool {
    (a, b) => Crosses(q, a, b)
  }

  predicate IsInside(q: Coord, poly: seq<Coord>) {
    HasVertex(q, poly) || CycleParity(Ray(q), poly)
  }

  method IsPointInPolygon(point: Coord, polygon: seq<Coord>) returns (r: bool)
    ensures r == IsInside(point, polygon)
  {
    if HasVertex(point, polygon) {
      return true;
    }
    var inside := false;
    for i := 0 to |polygon|
      invariant inside == PathParity(Ray(point), if polygon == [] then [] else Closed(polygon)[..i + 1])
    {
      var j := i + 1;
      if j == |polygon| {
        j := 0;
      }
      PathExtend(Ray(point), Closed(polygon)[..i + 1], polygon[j]);
      assert Closed(polygon)[..i + 1] + [polygon[j]] == Closed(polygon)[..i + 2];
      if Crosses(point, polygon[i], polygon[j]) {
        inside := !inside;
      }
    }
    assert polygon != [] ==> Closed(polygon)[..|polygon| + 1] == Closed(polygon);
    return inside;
  }

  // ----- the answer depends on places only

  ghost predicate SamePlaces(s: seq<Coord>, t: seq<Coord>) {
    |s| == |t| && forall i :: 0 <= i < |s| ==> SamePlace(s[i], t[i])
  }

  /** Time stamps, of the point or of the vertices, do not matter. */
  lemma SamePlaceSameAnswer(p: Coord, q: Coord, s: seq<Coord>, t: seq<Coord>)
    requires SamePlace(p, q) && SamePlaces(s, t)
    ensures IsInside(p, s) == IsInside(q, t)
  {
    SamePlaceSameParity(p, q, Closed(s), Closed(t));
    if HasVertex(p, s) {
      var i :| 0 <= i < |s| && SamePlace(s[i], p);
      assert t[i] in t;
    }
    if HasVertex(q, t) {
      var i :| 0 <= i < |t| && SamePlace(t[i], q);
      assert s[i] in s;
    }
  }

  lemma {:induction false} SamePlaceSameParity(p: Coord, q: Coord, s: seq<Coord>, t: seq<Coord>)
    requires SamePlace(p, q) && SamePlaces(s, t)
    ensures PathParity(Ray(p), s) == PathParity(Ray(q), t)
  {
    hide Crosses;
    if |s| >= 2 {
      SamePlaceSameParity(p, q, s[..|s| - 1], t[..|t| - 1]);
      SamePlaceSameHit(p, q, s[|s| - 2], s[|s| - 1], t[|t| - 2], t[|t| - 1]);
    }
  }

  lemma SamePlaceSameHit(p: Coord, q: Coord, a: Coord, b: Coord, c: Coord, d: Coord)
    requires SamePlace(p, q) && SamePlace(a, c) && SamePlace(b, d)
    ensures Ray(p)(a, b) == Ray(q)(c, d)
  {
  }

  // ----- one edge, by orientation instead of division

  /** Twice the signed area of a, b, c: positive when `c` is left of the line from `a` to `b`. */
  function Orient(a: Coord, b: Coord, c: Coord): real {
    (b.x - a.x) * (c.y - a.y) - (b.y - a.y) * (c.x - a.x)
  }

  lemma OffsetTimes(dx: real, height: real, dy: real)
    requires dy != 0.0
    ensures Offset(dx, height, dy) * dy == dx * height
  {
  }

  lemma OffsetSide(dx: real, height: real, dy: real, z: real, turn: real)
    requires dy != 0.0 && turn == dx * height - dy * z
    ensures dy > 0.0 ==> (z < Offset(dx, height, dy) <==> turn > 0.0)
    ensures dy < 0.0 ==> (z < Offset(dx, height, dy) <==> turn < 0.0)
  {
    OffsetTimes(dx, height, dy);
    hide Offset;
    var t := Offset(dx, height, dy);
    assert turn == dy * (t - z);
    if dy > 0.0 {
      ScaledSign(dy, t - z);
    } else {
      assert dy * (t - z) == -((-dy) * (t - z));
      ScaledSign(-dy, t - z);
    }
  }

  /** An edge going up is met when `q` is strictly left of it, one going down when `q` is strictly right. */
  lemma CrossesByOrientation(q: Coord, a: Coord, b: Coord)
    ensures Crosses(q, a, b) <==>
              (a.y <= q.y < b.y && Orient(a, b, q) > 0.0) || (b.y <= q.y < a.y && Orient(a, b, q) < 0.0)
  {
    if (a.y > q.y) != (b.y > q.y) {
      hide Offset;
      OffsetSide(b.x - a.x, q.y - a.y, b.y - a.y, q.x - a.x, Orient(a, b, q));
      hide Orient;
    }
  }

  lemma OrientSwap(a: Coord, b: Coord, q: Coord)
    ensures Orient(b, a, q) == -Orient(a, b, q)
  {
  }

  lemma RaySymmetric(q: Coord)
    ensures Symmetric(Ray(q)) && forall a :: !Ray(q)(a, a)
  {
    forall a, b ensures Ray(q)(a, b) == Ray(q)(b, a) {
      CrossesSymmetric(q, a, b);
    }
  }

  lemma CrossesSymmetric(q: Coord, a: Coord, b: Coord)
    ensures Crosses(q, a, b) == Crosses(q, b, a)
  {
    CrossesByOrientation(q, a, b);
    CrossesByOrientation(q, b, a);
    hide Crosses;
    OrientSwap(a, b, q);
  }

  // ----- chord law, rotation, reversal, fan

  /** Cutting a polygon along any chord splits the answer by exclusive or, for a point that is not a vertex. */
  lemma ChordLaw(q: Coord, s: seq<Coord>, i: nat, j: nat)
    requires i <= j < |s| && !HasVertex(q, s)
    ensures IsInside(q, s) == (IsInside(q, s[i..j + 1]) != IsInside(q, s[j..] + s[..i + 1]))
  {
    RaySymmetric(q);
    ChordParity(Ray(q), s, i, j);
  }

  lemma RotationLaw(q: Coord, s: seq<Coord>, k: nat)
    requires k <= |s|
    ensures IsInside(q, s[k..] + s[..k]) == IsInside(q, s)
  {
    RotationParity(Ray(q), s, k);
    assert s == s[..k] + s[k..];
  }

  lemma ReversalLaw(q: Coord, s: seq<Coord>)
    ensures IsInside(q, Reverse(s)) == IsInside(q, s)
  {
    RaySymmetric(q);
    ReversalParity(Ray(q), s);
    ReverseMultiset(s);
    SameMembers(s, Reverse(s));
  }

  // ----- subdividing an edge

  /** `m` is on the segment from `a` to `b`, a fraction `t` of the way. */
  predicate Between(a: Coord, b: Coord, m: Coord, t: real) {
    0.0 <= t <= 1.0 && m.x == a.x + t * (b.x - a.x) && m.y == a.y + t * (b.y - a.y)
  }

  lemma ScaledSign(k: real, z: real)
    requires k > 0.0
    ensures k * z > 0.0 <==> z > 0.0
    ensures k * z < 0.0 <==> z < 0.0
  {
  }

  lemma PartsOfEdge(q: Coord, a: Coord, b: Coord, m: Coord, t: real)
    requires Between(a, b, m, t)
    ensures Orient(a, m, q) == t * Orient(a, b, q)
    ensures Orient(m, b, q) == (1.0 - t) * Orient(a, b, q)
  {
  }

  lemma BetweenHeights(a: Coord, b: Coord, m: Coord, t: real)
    requires Between(a, b, m, t)
    ensures a.y <= m.y <= b.y || b.y <= m.y <= a.y
    ensures t == 0.0 ==> m.y == a.y
    ensures t == 1.0 ==> m.y == b.y
  {
    var d := b.y - a.y;
    if d >= 0.0 {
      assert 0.0 <= t * d && 0.0 <= (1.0 - t) * d;
    } else {
      assert 0.0 >= t * d && 0.0 >= (1.0 - t) * d;
    }
  }

  lemma CrossesSubdivided(q: Coord, a: Coord, b: Coord, m: Coord, t: real)
    requires Between(a, b, m, t)
    ensures Crosses(q, a, b) == (Crosses(q, a, m) != Crosses(q, m, b))
  {
    PartsOfEdge(q, a, b, m, t);
    CrossesByOrientation(q, a, b);
    CrossesByOrientation(q, a, m);
    CrossesByOrientation(q, m, b);
    BetweenHeights(a, b, m, t);
    if t > 0.0 {
      ScaledSign(t, Orient(a, b, q));
    }
    if t < 1.0 {
      ScaledSign(1.0 - t, Orient(a, b, q));
    }
  }

  /** Inserting a point of an edge between its ends changes no answer, except at that very point. */
  lemma SubdivisionLaw(q: Coord, s: seq<Coord>, i: nat, m: Coord, t: real)
    requires i < |s| && Between(s[i], s[Next(s, i)], m, t) && !SamePlace(m, q)
    ensures IsInside(q, Insert(s, i, m)) == IsInside(q, s)
  {
    CrossesSubdivided(q, s[i], s[Next(s, i)], m, t);
    InsertParity(Ray(q), s, i, m);
    assert s == s[..i + 1] + s[i + 1..];
  }
}
