/** `sortPointsByDistance`: the greedy nearest-neighbour tour. */
module Tour {
  import opened GoLibrary
  import opened Schema
  import opened Sequences

  ghost predicate Below(s: seq<nat>, n: nat) {
    forall k :: 0 <= k < |s| ==> s[k] < n
  }

  /** Entries of `order` are distinct indices below `n`. */
  ghost predicate Indices(order: seq<nat>, n: nat) {
    Below(order, n)
    && (forall j, k :: 0 <= j < k < |order| ==> order[j] != order[k])
  }

  function Pick(points: seq<Coord>, order: seq<nat>): (r: seq<Coord>)
    requires Below(order, |points|)
    ensures |r| == |order|
    ensures forall k :: 0 <= k < |order| ==> r[k] == points[order[k]]
  {
    if order == [] then [] else Pick(points, order[..|order| - 1]) + [points[order[|order| - 1]]]
  }

  /** How far point `i` is from the last point of the tour so far. */
  function Gap(lib: Library, points: seq<Coord>, order: seq<nat>, i: nat): real
    requires order != [] && order[|order| - 1] < |points| && i < |points|
  {
    lib.Distance(points[order[|order| - 1]], points[i])
  }

  /** Of the first `n` points, the unvisited one nearest to the end of the tour, or -1 when each of
      them is `SENTINEL` or more away. */
  function Nearest(lib: Library, points: seq<Coord>, order: seq<nat>, n: nat): (p: int)
    requires order != [] && order[|order| - 1] < |points| && n <= |points|
    ensures -1 <= p < n
    ensures p >= 0 ==> p !in order
  {
    if n == 0 then -1
    else
      var p := Nearest(lib, points, order, n - 1);
      if n - 1 in order then p
      else if Gap(lib, points, order, n - 1) < (if p == -1 then SENTINEL else Gap(lib, points, order, p)) then n - 1
      else p
  }

  lemma {:induction false} NearestLaw(lib: Library, points: seq<Coord>, order: seq<nat>, n: nat, i: nat)
    requires order != [] && order[|order| - 1] < |points| && n <= |points|
    requires i < n && i !in order
    ensures var p := Nearest(lib, points, order, n);
            if p == -1 then Gap(lib, points, order, i) >= SENTINEL
            else Gap(lib, points, order, p) < Gap(lib, points, order, i)
                 || (Gap(lib, points, order, p) == Gap(lib, points, order, i) && p <= i)
  {
    if i < n - 1 {
      NearestLaw(lib, points, order, n - 1, i);
    }
  }

  function Range(n: nat): (r: seq<nat>)
    ensures |r| == n && forall k :: 0 <= k < n ==> r[k] == k
  {
    seq(n, k requires 0 <= k < n => k)
  }

  function NotIn(order: seq<nat>): nat -> bool {
    i => i !in order
  }

  lemma {:induction false} DistinctOnce(s: seq<nat>, n: nat)
    requires Indices(s, n)
    ensures forall i: nat :: multiset(s)[i] == if i in s then 1 else 0
  {
    if s != [] {
      DistinctOnce(s[1..], n);
      assert s == [s[0]] + s[1..];
      assert s[0] !in s[1..];
    }
  }

  /** A tour and the points it has not visited are all the points. */
  lemma TourAndRest(order: seq<nat>, n: nat)
    requires Indices(order, n)
    ensures multiset(order + Filter(Range(n), NotIn(order))) == multiset(Range(n))
    ensures |order| + |Filter(Range(n), NotIn(order))| == n
  {
    var rest := Filter(Range(n), NotIn(order));
    assert Indices(Range(n), n);
    DistinctOnce(order, n);
    DistinctOnce(Range(n), n);
    forall i: nat ensures multiset(order + rest)[i] == multiset(Range(n))[i] {
      FilterCount(Range(n), NotIn(order), i);
      assert i in Range(n) <==> i < n by {
        if i < n {
          assert Range(n)[i] == i;
        }
      }
    }
    assert multiset(order + rest) == multiset(Range(n));
    SameLength(order + rest, Range(n));
  }

  lemma IndicesExtend(order: seq<nat>, n: nat, p: nat)
    requires Indices(order, n) && p < n && p !in order
    ensures Indices(order + [p], n) && |order| < n
  {
    TourAndRest(order + [p], n);
  }

  /** The whole greedy tour that starts with `order`. */
  function Complete(lib: Library, points: seq<Coord>, order: seq<nat>): (r: seq<nat>)
    requires order != [] && Indices(order, |points|)
    ensures order <= r && Indices(r, |points|)
    decreases |points| - |order|
  {
    var p := Nearest(lib, points, order, |points|);
    if p == -1 then order
    else
      IndicesExtend(order, |points|, p);
      Complete(lib, points, order + [p])
  }

  lemma CompleteStep(lib: Library, points: seq<Coord>, order: seq<nat>)
    requires order != [] && Indices(order, |points|)
    ensures var p := Nearest(lib, points, order, |points|);
            if p == -1 then Complete(lib, points, order) == order
            else Indices(order + [p], |points|) && Complete(lib, points, order) == Complete(lib, points, order + [p])
  {
  }

  lemma {:induction false} CompleteLaw(lib: Library, points: seq<Coord>, order: seq<nat>, k: nat)
    requires order != [] && Indices(order, |points|)
    requires |order| <= k <= |Complete(lib, points, order)|
    ensures var r := Complete(lib, points, order);
            Nearest(lib, points, r[..k], |points|) == if k < |r| then r[k] else -1
    decreases |points| - |order|
  {
    var p := Nearest(lib, points, order, |points|);
    var r := Complete(lib, points, order);
    if p != -1 {
      IndicesExtend(order, |points|, p);
      assert order + [p] <= r;
      if k == |order| {
        assert r[..k] == order;
      } else {
        CompleteLaw(lib, points, order + [p], k);
      }
    } else {
      assert r[..k] == order;
    }
  }

  function SortByDistance(lib: Library, points: seq<Coord>): seq<Coord> {
    if |points| <= 2 then points else Pick(points, Complete(lib, points, [0]))
  }

  method SortPointsByDistance(lib: Library, points: seq<Coord>) returns (r: seq<Coord>)
    ensures r == SortByDistance(lib, points)
  {
    if |points| <= 2 {
      return points;
    }
    var sortedPoints := [points[0]];
    var visited := new bool[|points|](_ => false);
    visited[0] := true;
    ghost var order: seq<nat> := [0];
    TouringStart(lib, points);
    MarksStart(visited[..]);
    hide Touring, SortByDistance, Nearest, Pick, Complete, Marks;
    while true
      invariant Touring(lib, points, order, sortedPoints)
      invariant Marks(visited[..], order)
      decreases |points| - |order|
    {
      TouringStep(lib, points, order, sortedPoints);
      var p := FindNearest(lib, points, sortedPoints[|sortedPoints| - 1], visited, order);
      if p == -1 {
        return sortedPoints;
      }
      MarksStep(visited[..], order, p);
      ghost var before := visited[..];
      sortedPoints := sortedPoints + [points[p]];
      visited[p] := true;
      assert visited[..] == before[p := true];
      order := order + [p];
    }
  }

  /** The marked indices are those of `order`. */
  ghost predicate Marks(visited: seq<bool>, order: seq<nat>) {
    forall i :: 0 <= i < |visited| ==> visited[i] == (i in order)
  }

  lemma MarksStart(visited: seq<bool>)
    requires |visited| > 0 && forall i :: 0 <= i < |visited| ==> visited[i] == (i == 0)
    ensures Marks(visited, [0])
  {
  }

  lemma MarksStep(visited: seq<bool>, order: seq<nat>, p: nat)
    requires Marks(visited, order) && p < |visited|
    ensures Marks(visited[p := true], order + [p])
  {
  }

  /** The loop has emitted the points of `order`, a beginning of the tour. */
  ghost predicate Touring(lib: Library, points: seq<Coord>, order: seq<nat>, sortedPoints: seq<Coord>) {
    && |points| > 2 && order != [] && Indices(order, |points|)
    && sortedPoints == Pick(points, order)
    && Complete(lib, points, [0]) == Complete(lib, points, order)
  }

  lemma TouringStart(lib: Library, points: seq<Coord>)
    requires |points| > 2
    ensures Touring(lib, points, [0], [points[0]])
  {
  }

  lemma TouringStep(lib: Library, points: seq<Coord>, order: seq<nat>, sortedPoints: seq<Coord>)
    requires Touring(lib, points, order, sortedPoints)
    ensures order != [] && order[|order| - 1] < |points|
    ensures sortedPoints != [] && sortedPoints[|sortedPoints| - 1] == points[order[|order| - 1]]
    ensures var p := Nearest(lib, points, order, |points|);
            if p == -1 then sortedPoints == SortByDistance(lib, points)
            else |order| < |points| && Touring(lib, points, order + [p], sortedPoints + [points[p]])
  {
    var p := Nearest(lib, points, order, |points|);
    CompleteStep(lib, points, order);
    if p != -1 {
      IndicesExtend(order, |points|, p);
      PickExtend(points, order, p);
    }
  }

  lemma PickExtend(points: seq<Coord>, order: seq<nat>, p: nat)
    requires Below(order, |points|) && p < |points|
    ensures Pick(points, order + [p]) == Pick(points, order) + [points[p]]
  {
  }

  /** The search through all points inside the loop of `sortPointsByDistance`. */
  method FindNearest(lib: Library, points: seq<Coord>, startPoint: Coord, visited: array<bool>, ghost order: seq<nat>)
    returns (p: int)
    requires visited.Length == |points| && order != [] && order[|order| - 1] < |points|
    requires startPoint == points[order[|order| - 1]]
    requires Marks(visited[..], order)
    ensures p == Nearest(lib, points, order, |points|)
  {
    var minDistance := SENTINEL;
    p := -1;
    for i := 0 to |points|
      invariant p == Nearest(lib, points, order, i)
      invariant minDistance == if p == -1 then SENTINEL else Gap(lib, points, order, p)
    {
      if !visited[i] {
        var distance := lib.Distance(startPoint, points[i]);
        if distance < minDistance {
          minDistance := distance;
          p := i;
        }
      }
    }
  }

  // ----- laws

  /** The indices in the order in which the points are emitted. */
  function TourOf(lib: Library, points: seq<Coord>): (r: seq<nat>)
    ensures Indices(r, |points|)
  {
    if |points| <= 2 then Range(|points|) else Complete(lib, points, [0])
  }

  lemma PickAll(points: seq<Coord>)
    ensures Pick(points, Range(|points|)) == points
  {
  }

  lemma TourEmits(lib: Library, points: seq<Coord>)
    ensures SortByDistance(lib, points) == Pick(points, TourOf(lib, points))
  {
    PickAll(points);
  }

  /** From every stop the next one is no farther than any later one, and has the lower index on a tie. */
  lemma GreedyLaw(lib: Library, points: seq<Coord>, k: nat, m: nat)
    requires |points| > 2 && k + 1 < m < |TourOf(lib, points)|
    ensures var t := TourOf(lib, points);
            var here, next, later := points[t[k]], points[t[k + 1]], points[t[m]];
            var near := lib.distance(here.x, here.y, next.x, next.y);
            var far := lib.distance(here.x, here.y, later.x, later.y);
            near < far || (near == far && t[k + 1] < t[m])
  {
    var t := TourOf(lib, points);
    CompleteLaw(lib, points, [0], k + 1);
    NearestLaw(lib, points, t[..k + 1], |points|, t[m]);
  }

  /** Two points or fewer are returned as they are. */
  lemma ShortLaw(lib: Library, points: seq<Coord>)
    requires |points| <= 2
    ensures SortByDistance(lib, points) == points
  {
  }

  lemma {:induction false} NearestBelow(lib: Library, points: seq<Coord>, order: seq<nat>, n: nat)
    requires order != [] && order[|order| - 1] < |points| && n <= |points|
    ensures var p := Nearest(lib, points, order, n);
            p >= 0 ==> Gap(lib, points, order, p) < SENTINEL
  {
    if n > 0 {
      NearestBelow(lib, points, order, n - 1);
    }
  }

  /** The tour starts at the first point, and its steps are shorter than 1e9 + 7; a point it leaves out is at least
      that far from its last stop. */
  lemma DroppedLaw(lib: Library, points: seq<Coord>)
    requires |points| > 2
    ensures var t := TourOf(lib, points);
            && t != [] && t[0] == 0
            && (forall k :: 0 <= k < |t| - 1 ==>
                  var here, next := points[t[k]], points[t[k + 1]];
                  lib.distance(here.x, here.y, next.x, next.y) < 1000000007.0)
            && var last := points[t[|t| - 1]];
               forall i: nat :: i < |points| && i !in t ==>
                 lib.distance(last.x, last.y, points[i].x, points[i].y) >= 1000000007.0
  {
    hide Complete, Nearest;
    var t := TourOf(lib, points);
    forall i: nat | i < |points| && i !in t
      ensures lib.distance(points[t[|t| - 1]].x, points[t[|t| - 1]].y, points[i].x, points[i].y) >= 1000000007.0
    {
      LeftOut(lib, points, i);
    }
    forall k | 0 <= k < |t| - 1
      ensures lib.distance(points[t[k]].x, points[t[k]].y, points[t[k + 1]].x, points[t[k + 1]].y) < 1000000007.0
    {
      NextStop(lib, points, k);
    }
  }

  lemma LeftOut(lib: Library, points: seq<Coord>, i: nat)
    requires |points| > 2 && i < |points| && i !in TourOf(lib, points)
    ensures var t := TourOf(lib, points);
            t != [] && lib.Distance(points[t[|t| - 1]], points[i]) >= SENTINEL
  {
    var t := TourOf(lib, points);
    CompleteLaw(lib, points, [0], |t|);
    assert t[..|t|] == t;
    NearestLaw(lib, points, t, |points|, i);
  }

  lemma NextStop(lib: Library, points: seq<Coord>, k: nat)
    requires |points| > 2 && k + 1 < |TourOf(lib, points)|
    ensures var t := TourOf(lib, points);
            lib.Distance(points[t[k]], points[t[k + 1]]) < SENTINEL
  {
    var t := TourOf(lib, points);
    CompleteLaw(lib, points, [0], k + 1);
    NearestBelow(lib, points, t[..k + 1], |points|);
  }

  function At(points: seq<Coord>): nat -> Coord {
    (i: nat) => if i < |points| then points[i] else Coord(0.0, 0.0, ZERO_TIME)
  }

  lemma ApplyAt(points: seq<Coord>, order: seq<nat>)
    requires Below(order, |points|)
    ensures Apply(order, At(points)) == Pick(points, order)
  {
  }

  lemma TourPermuted(points: seq<Coord>, order: seq<nat>)
    requires Indices(order, |points|)
    ensures multiset(Pick(points, order)) + multiset(Apply(Filter(Range(|points|), NotIn(order)), At(points)))
         == multiset(points)
  {
    var rest := Filter(Range(|points|), NotIn(order));
    TourAndRest(order, |points|);
    ApplyPermuted(order + rest, Range(|points|), At(points));
    ApplyAppend(order, rest, At(points));
    ApplyAt(points, Range(|points|));
    PickAll(points);
    ApplyAt(points, order);
  }

  lemma NoneDropped(lib: Library, points: seq<Coord>)
    requires lib.Bounded()
    ensures Filter(Range(|points|), NotIn(TourOf(lib, points))) == []
  {
    var t := TourOf(lib, points);
    forall i <- Range(|points|) ensures !NotIn(t)(i) {
      if |points| <= 2 {
        assert Range(|points|)[i] == i;
      } else if i !in t {
        DroppedLaw(lib, points);
        assert false;
      }
    }
    FilterNone(Range(|points|), NotIn(t));
  }

  /** On Earth no point is lost: the formula's distances are at most half the circumference, under 20100 km. */
  lemma EarthLaw(lib: Library, points: seq<Coord>)
    requires forall x, y, x', y' :: 0.0 <= lib.distance(x, y, x', y') <= 20100000.0
    ensures multiset(SortByDistance(lib, points)) == multiset(points)
  {
    PermutationLaw(lib, points);
  }

  /** No point is emitted twice, and with distances below `SENTINEL` every point is emitted. */
  lemma PermutationLaw(lib: Library, points: seq<Coord>)
    ensures multiset(SortByDistance(lib, points)) <= multiset(points)
    ensures lib.Bounded() ==> multiset(SortByDistance(lib, points)) == multiset(points)
  {
    TourEmits(lib, points);
    TourPermuted(points, TourOf(lib, points));
    if lib.Bounded() {
      NoneDropped(lib, points);
    }
  }
}
