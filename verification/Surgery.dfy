/** `getPointsInPolygon`, `eatPolygon` and `mergePolygons`: cutting and joining lists of vertices. */
module Surgery {
  import opened Exactness
  import opened GoLibrary
  import opened Paths
  import opened RayCasting
  import opened Schema
  import opened Sequences
  import opened Tour

  // ----- tests on points

  function In(poly: seq<Coord>): Coord -> bool {
    c => IsInside(c, poly)
  }

  function Out(poly: seq<Coord>): Coord -> bool {
    c => !IsInside(c, poly)
  }

  function NotAmong(deleted: seq<Coord>): Coord -> bool {
    c => !HasVertex(c, deleted)
  }

  /** Inside `poly` without sharing a place with one of its vertices. */
  function Within(poly: seq<Coord>): Coord -> bool {
    c => IsInside(c, poly) && !HasVertex(c, poly)
  }

  // ----- points of one polygon inside another

  function FirstIndex<T>(s: seq<T>, p: T -> bool): (r: nat)
    ensures r <= |s|
    ensures forall k :: 0 <= k < r ==> !p(s[k])
    ensures r < |s| ==> p(s[r])
  {
    if s == [] || p(s[0]) then 0 else 1 + FirstIndex(s[1..], p)
  }

  function LastIndex<T>(s: seq<T>, p: T -> bool): (r: int)
    ensures -1 <= r < |s|
    ensures forall k :: r < k < |s| ==> !p(s[k])
    ensures r >= 0 ==> p(s[r])
  {
    if s == [] then -1
    else if p(s[|s| - 1]) then |s| - 1
    else LastIndex(s[..|s| - 1], p)
  }

  /** The vertices of `P1` inside `P2`; Go's nil is the empty list, which is returned in no other case. */
  function PointsInside(lib: Library, P1: seq<Coord>, P2: seq<Coord>): seq<Coord> {
    var inside := Filter(P1, In(P2));
    if |inside| == 0 || |inside| == |P1| then inside else lib.sortByNorm(inside)
  }

  /** Where a cut starts: just before the first element found or, when the run of found elements
      wraps around the end of the list, at the last element not found. */
  function Splice<T>(s: seq<T>, found: T -> bool): (i: int)
    ensures -1 <= i < |s|
  {
    if |Filter(s, found)| == 0 || |Filter(s, found)| == |s| then -1
    else if !found(s[0]) then FirstIndex(s, found) - 1
    else LastIndex(s, x => !found(x))
  }

  function SpliceIndex(P1: seq<Coord>, P2: seq<Coord>): (i: int)
    ensures -1 <= i < |P1|
  {
    Splice(P1, In(P2))
  }

  lemma NoneOrAll<T>(s: seq<T>, found: T -> bool)
    ensures |Filter(s, found)| == 0 <==> forall k :: 0 <= k < |s| ==> !found(s[k])
    ensures |Filter(s, found)| == |s| <==> forall k :: 0 <= k < |s| ==> found(s[k])
  {
  }

  lemma SpliceAt<T>(s: seq<T>, found: T -> bool)
    ensures var i := Splice(s, found);
            && (i == -1 <==> (forall k :: 0 <= k < |s| ==> !found(s[k])) || (forall k :: 0 <= k < |s| ==> found(s[k])))
            && -1 <= i < |s|
            && (i != -1 ==> !found(s[i]) && found(s[if i + 1 == |s| then 0 else i + 1]))
            && (i != -1 && !found(s[0]) ==> forall k :: 0 <= k <= i ==> !found(s[k]))
            && (i != -1 && found(s[0]) ==> forall k :: i < k < |s| ==> found(s[k]))
  {
    NoneOrAll(s, found);
  }

  /** The splice index is -1 exactly when none or all of the vertices are inside; otherwise its vertex is outside
      and the next one around is inside. Of several such indices it is the one before the first run of inside
      vertices, and before the run around the end of the list when vertex 0 is inside. */
  lemma SpliceLaw(P1: seq<Coord>, P2: seq<Coord>)
    ensures var i := SpliceIndex(P1, P2);
            && (i == -1 <==> !Reaches(P1, P2) || Swallowed(P1, P2))
            && (i != -1 ==> !IsInside(P1[i], P2) && IsInside(P1[if i + 1 == |P1| then 0 else i + 1], P2))
            && (i != -1 && !IsInside(P1[0], P2) ==> forall k :: 0 <= k <= i ==> !IsInside(P1[k], P2))
            && (i != -1 && IsInside(P1[0], P2) ==> forall k :: i < k < |P1| ==> IsInside(P1[k], P2))
  {
    hide IsInside, Splice;
    SpliceAt(P1, In(P2));
    assert (forall p <- P1 :: !In(P2)(p)) <==> forall k :: 0 <= k < |P1| ==> !In(P2)(P1[k]);
    assert (forall p <- P1 :: In(P2)(p)) <==> forall k :: 0 <= k < |P1| ==> In(P2)(P1[k]);
  }

  /** `idxs` are the indices below `n` whose elements were found, the least one first. */
  ghost predicate FoundIndices<T>(s: seq<T>, found: T -> bool, n: nat, idxs: seq<int>)
    requires n <= |s|
  {
    && (forall k :: k in idxs <==> 0 <= k < n && found(s[k]))
    && (idxs == [] ==> forall k :: 0 <= k < n ==> !found(s[k]))
    && (idxs != [] ==> 0 <= idxs[0] < n && forall k :: 0 <= k < idxs[0] ==> !found(s[k]))
  }

  lemma FoundStep<T>(s: seq<T>, found: T -> bool, n: nat, idxs: seq<int>)
    requires n < |s| && FoundIndices(s, found, n, idxs)
    ensures FoundIndices(s, found, n + 1, if found(s[n]) then idxs + [n] else idxs)
  {
  }

  method GetPointsInPolygon(lib: Library, P1: seq<Coord>, P2: seq<Coord>)
    returns (pointsInPolygon: seq<Coord>, lastPointIdxBeforeDeletion: int)
    ensures pointsInPolygon == PointsInside(lib, P1, P2)
    ensures lastPointIdxBeforeDeletion == SpliceIndex(P1, P2)
  {
    var pointsIdxInPolygon;
    pointsInPolygon, pointsIdxInPolygon := CollectInside(P1, P2);
    hide IsInside, Filter, FoundIndices;
    if |pointsIdxInPolygon| == 0 {
      return [], -1;
    }
    if |pointsIdxInPolygon| == |P1| {
      return pointsInPolygon, -1;
    }
    lastPointIdxBeforeDeletion := WalkBack(P1, pointsIdxInPolygon, In(P2));
    pointsInPolygon := lib.sortByNorm(pointsInPolygon);
  }

  /** The first loop of `getPointsInPolygon`. */
  method CollectInside(P1: seq<Coord>, P2: seq<Coord>)
    returns (pointsInPolygon: seq<Coord>, pointsIdxInPolygon: seq<int>)
    ensures pointsInPolygon == Filter(P1, In(P2)) && |pointsIdxInPolygon| == |pointsInPolygon|
    ensures FoundIndices(P1, In(P2), |P1|, pointsIdxInPolygon)
  {
    pointsInPolygon, pointsIdxInPolygon := [], [];
    assert Collected(P1, In(P2), 0, pointsInPolygon, pointsIdxInPolygon);
    hide Collected;
    for idx := 0 to |P1|
      invariant Collected(P1, In(P2), idx, pointsInPolygon, pointsIdxInPolygon)
    {
      CollectedStep(P1, In(P2), idx, pointsInPolygon, pointsIdxInPolygon);
      var inside := IsPointInPolygon(P1[idx], P2);
      if inside {
        pointsInPolygon := pointsInPolygon + [P1[idx]];
        pointsIdxInPolygon := pointsIdxInPolygon + [idx];
      }
    }
    CollectedAll(P1, In(P2), pointsInPolygon, pointsIdxInPolygon);
  }

  /** Both lists after the first `n` elements. */
  ghost predicate Collected<T>(s: seq<T>, found: T -> bool, n: nat, elements: seq<T>, idxs: seq<int>)
    requires n <= |s|
  {
    elements == Filter(s[..n], found) && |idxs| == |elements| && FoundIndices(s, found, n, idxs)
  }

  lemma CollectedStep<T>(s: seq<T>, found: T -> bool, n: nat, elements: seq<T>, idxs: seq<int>)
    requires n < |s| && Collected(s, found, n, elements, idxs)
    ensures if found(s[n]) then Collected(s, found, n + 1, elements + [s[n]], idxs + [n])
            else Collected(s, found, n + 1, elements, idxs)
  {
    hide Filter, FoundIndices;
    FilterStep(s, n, found);
    FoundStep(s, found, n, idxs);
  }

  lemma CollectedAll<T>(s: seq<T>, found: T -> bool, elements: seq<T>, idxs: seq<int>)
    requires Collected(s, found, |s|, elements, idxs)
    ensures elements == Filter(s, found) && |idxs| == |elements| && FoundIndices(s, found, |s|, idxs)
  {
    assert s[..|s|] == s;
  }

  lemma BackOne(first: nat, n: nat)
    requires first < n
    ensures (first - 1 + n) % n == if first == 0 then n - 1 else first - 1
  {
  }

  /** Everything between the splice index and the index just before the first one found was found. */
  lemma WalkStart<T>(s: seq<T>, foundIdx: seq<int>, found: T -> bool)
    requires FoundIndices(s, found, |s|, foundIdx) && foundIdx != []
    requires |Filter(s, found)| != |s|
    ensures var stop := Splice(s, found);
            var last := if foundIdx[0] == 0 then |s| - 1 else foundIdx[0] - 1;
            && 0 <= stop <= last && !found(s[stop])
            && forall k :: stop < k <= last ==> found(s[k])
  {
    assert foundIdx[0] in foundIdx;
    SpliceAt(s, found);
    NoneOrAll(s, found);
  }

  /** The backwards cyclic walk inside `getPointsInPolygon`, to the first index that was not found. */
  method WalkBack<T>(s: seq<T>, foundIdx: seq<int>, ghost found: T -> bool) returns (last: int)
    requires FoundIndices(s, found, |s|, foundIdx) && foundIdx != []
    requires |Filter(s, found)| != |s|
    ensures last == Splice(s, found)
  {
    ghost var stop := Splice(s, found);
    WalkStart(s, foundIdx, found);
    hide Filter, Splice;
    BackOne(foundIdx[0], |s|);
    last := (foundIdx[0] - 1 + |s|) % |s|;
    while last in foundIdx
      invariant 0 <= stop <= last < |s|
      invariant forall k :: stop < k <= last ==> found(s[k])
      decreases last
    {
      last := last - 1;
      if last == -1 {
        last := |s| - 1;
      }
    }
  }

  // ----- eating

  /** The block of new vertices, nearest end first. */
  function Oriented(lib: Library, block: seq<Coord>, anchor: Coord): (r: seq<Coord>)
    requires block != []
  {
    if lib.Distance(block[0], anchor) > lib.Distance(block[|block| - 1], anchor) then Reverse(block) else block
  }

  /** The old vertices with the block after the anchor, if there is one, and without the places deleted. */
  function Cut(lib: Library, P1: seq<Coord>, anchor: int, block: seq<Coord>, deleted: seq<Coord>): seq<Coord>
    requires -1 <= anchor < |P1| && block != []
  {
    Filter(if anchor == -1 then []
           else P1[..anchor + 1] + Oriented(lib, block, P1[anchor]) + P1[anchor + 1..], NotAmong(deleted))
  }

  /** What `p1` is left with after the newer `p2` has eaten into it. */
  function Eat(lib: Library, p1: Polygon, p2: Polygon): Polygon {
    var pointsInP2 := PointsInside(lib, p1.coords, p2.coords);
    var pointsInP1 := PointsInside(lib, p2.coords, p1.coords);
    if pointsInP2 == [] || pointsInP1 == [] then p1
    else Polygon(Cut(lib, p1.coords, SpliceIndex(p1.coords, p2.coords), pointsInP1, pointsInP2), p1.runner, ZERO_TIME)
  }

  function Elsewhere(p: Coord): Coord -> bool {
    c => !SamePlace(p, c)
  }

  /** The deletion loops of `eatPolygon` and `mergePolygons`. */
  method DeleteAll(coords: seq<Coord>, deleted: seq<Coord>) returns (r: seq<Coord>)
    ensures r == Filter(coords, NotAmong(deleted))
  {
    r := coords;
    FilterAll(coords, NotAmong([]));
    for k := 0 to |deleted|
      invariant r == Filter(coords, NotAmong(deleted[..k]))
    {
      DeleteOneMore(coords, deleted, k);
      r := Filter(r, Elsewhere(deleted[k]));
    }
    assert deleted[..|deleted|] == deleted;
  }

  lemma DeleteOneMore(coords: seq<Coord>, deleted: seq<Coord>, k: nat)
    requires k < |deleted|
    ensures Filter(Filter(coords, NotAmong(deleted[..k])), Elsewhere(deleted[k]))
         == Filter(coords, NotAmong(deleted[..k + 1]))
  {
    assert deleted[..k + 1] == deleted[..k] + [deleted[k]];
    FilterTwice(coords, NotAmong(deleted[..k]), Elsewhere(deleted[k]), NotAmong(deleted[..k + 1]));
  }

  method EatPolygon(lib: Library, p1: Polygon, p2: Polygon) returns (newPolygon: Polygon)
    ensures newPolygon == Eat(lib, p1, p2)
  {
    var pointsInP2, lastPointBeforeDeletion := GetPointsInPolygon(lib, p1.coords, p2.coords);
    var pointsInP1, _ := GetPointsInPolygon(lib, p2.coords, p1.coords);
    if pointsInP2 == [] || pointsInP1 == [] {
      return p1;
    }
    var coords := CutOut(lib, p1.coords, lastPointBeforeDeletion, pointsInP1, pointsInP2);
    newPolygon := Polygon(coords, p1.runner, ZERO_TIME);
  }

  /** The insertion and the deletion inside `eatPolygon`. */
  method CutOut(lib: Library, vertices: seq<Coord>, lastPointBeforeDeletion: int,
                pointsInP1: seq<Coord>, pointsInP2: seq<Coord>)
    returns (coords: seq<Coord>)
    requires -1 <= lastPointBeforeDeletion < |vertices| && pointsInP1 != []
    ensures coords == Cut(lib, vertices, lastPointBeforeDeletion, pointsInP1, pointsInP2)
  {
    coords := [];
    if lastPointBeforeDeletion != -1 {
      var firstPoint := pointsInP1[0];
      var lastPoint := pointsInP1[|pointsInP1| - 1];
      var anchor := vertices[lastPointBeforeDeletion];
      var block := pointsInP1;
      if lib.Distance(firstPoint, anchor) > lib.Distance(lastPoint, anchor) {
        block := Reverse(pointsInP1);
      }
      coords := InsertBlock(vertices, lastPointBeforeDeletion, block);
    }
    coords := DeleteAll(coords, pointsInP2);
  }

  /** The two nested append loops of `eatPolygon`. */
  method InsertBlock(vertices: seq<Coord>, at: nat, block: seq<Coord>) returns (coords: seq<Coord>)
    requires at < |vertices|
    ensures coords == vertices[..at + 1] + block + vertices[at + 1..]
  {
    coords := [];
    for idx := 0 to |vertices|
      invariant coords == if idx <= at then vertices[..idx] else vertices[..at + 1] + block + vertices[at + 1..idx]
    {
      coords := coords + [vertices[idx]];
      if idx == at {
        for k := 0 to |block|
          invariant coords == vertices[..at + 1] + block[..k]
        {
          coords := coords + [block[k]];
        }
      }
    }
  }

  // ----- the exact shape of eating

  lemma PointsInsidePermuted(lib: Library, P1: seq<Coord>, P2: seq<Coord>)
    requires lib.Lawful()
    ensures multiset(PointsInside(lib, P1, P2)) == multiset(Filter(P1, In(P2)))
    ensures |PointsInside(lib, P1, P2)| == |Filter(P1, In(P2))|
    ensures PointsInside(lib, P1, P2) == [] <==> !Reaches(P1, P2)
  {
    SameLength(PointsInside(lib, P1, P2), Filter(P1, In(P2)));
    FilterNone(P1, In(P2));
    assert (forall p <- P1 :: !In(P2)(p)) <==> !Reaches(P1, P2);
  }

  /** Deletion by coordinates hits a point exactly when it shares its place with a vertex of `P1` and is inside `P2`. */
  lemma DeletedPlaces(lib: Library, P1: seq<Coord>, P2: seq<Coord>, c: Coord)
    requires lib.Lawful()
    ensures HasVertex(c, PointsInside(lib, P1, P2)) <==> HasVertex(c, P1) && IsInside(c, P2)
  {
    var found := PointsInside(lib, P1, P2);
    PointsInsidePermuted(lib, P1, P2);
    SameMembers(found, Filter(P1, In(P2)));
    if HasVertex(c, P1) {
      var p :| p in P1 && SamePlace(p, c);
      SamePlaceSameAnswer(p, c, P2, P2);
      FilterMember(P1, In(P2), p);
    }
    if HasVertex(c, found) {
      var d :| d in found && SamePlace(d, c);
      SamePlaceSameAnswer(d, c, P2, P2);
    }
  }

  /** Of the old vertices, deletion keeps those outside the newer polygon. */
  lemma OldVerticesKept(lib: Library, P1: seq<Coord>, P2: seq<Coord>, s: seq<Coord>)
    requires lib.Lawful() && forall c <- s :: c in P1
    ensures Filter(s, NotAmong(PointsInside(lib, P1, P2))) == Filter(s, Out(P2))
  {
    var keep := NotAmong(PointsInside(lib, P1, P2));
    forall c <- s ensures keep(c) == Out(P2)(c) {
      DeletedPlaces(lib, P1, P2, c);
    }
    FilterSame(s, keep, Out(P2));
  }

  /** Of the newer vertices, deletion keeps those at the place of no old vertex. */
  lemma NewVerticesKept(lib: Library, P1: seq<Coord>, P2: seq<Coord>, s: seq<Coord>)
    requires lib.Lawful() && forall c <- s :: c in P2
    ensures Filter(s, NotAmong(PointsInside(lib, P1, P2))) == Filter(s, NotAmong(P1))
  {
    var keep := NotAmong(PointsInside(lib, P1, P2));
    forall c <- s ensures keep(c) == NotAmong(P1)(c) {
      DeletedPlaces(lib, P1, P2, c);
    }
    FilterSame(s, keep, NotAmong(P1));
  }

  /** Some vertex of `P1` is inside `P2`. */
  predicate Reaches(P1: seq<Coord>, P2: seq<Coord>) {
    exists p <- P1 :: IsInside(p, P2)
  }

  /** Every vertex of `P1` is inside `P2`. */
  predicate Swallowed(P1: seq<Coord>, P2: seq<Coord>) {
    forall p <- P1 :: IsInside(p, P2)
  }

  predicate Overlap(P1: seq<Coord>, P2: seq<Coord>) {
    Reaches(P1, P2) && Reaches(P2, P1)
  }

  lemma OverlapFound(lib: Library, P1: seq<Coord>, P2: seq<Coord>)
    requires lib.Lawful()
    ensures Overlap(P1, P2) <==> PointsInside(lib, P1, P2) != [] && PointsInside(lib, P2, P1) != []
  {
    PointsInsidePermuted(lib, P1, P2);
    PointsInsidePermuted(lib, P2, P1);
  }

  /** Without an overlap the older polygon is returned as it is; swallowed whole it loses every vertex. */
  lemma EatAllOrNothing(lib: Library, p1: Polygon, p2: Polygon)
    requires lib.Lawful()
    ensures !Overlap(p1.coords, p2.coords) ==> Eat(lib, p1, p2) == p1
    ensures Overlap(p1.coords, p2.coords) && Swallowed(p1.coords, p2.coords) ==>
              Eat(lib, p1, p2) == Polygon([], p1.runner, 0)
  {
    OverlapFound(lib, p1.coords, p2.coords);
    SpliceLaw(p1.coords, p2.coords);
  }

  /** The block that eating inserts. */
  function Block(lib: Library, P1: seq<Coord>, P2: seq<Coord>, i: nat): seq<Coord>
    requires i < |P1| && PointsInside(lib, P2, P1) != []
  {
    Filter(Oriented(lib, PointsInside(lib, P2, P1), P1[i]), NotAmong(P1))
  }

  /** The outside vertices in their order, with one block right after vertex `i`. */
  function Shape(lib: Library, P1: seq<Coord>, P2: seq<Coord>, i: nat): seq<Coord>
    requires i < |P1| && PointsInside(lib, P2, P1) != []
  {
    Filter(P1[..i], Out(P2)) + [P1[i]] + Block(lib, P1, P2, i) + Filter(P1[i + 1..], Out(P2))
  }

  /** Partial eating: the old vertices outside the newer polygon, with the block after the anchor. */
  lemma EatShape(lib: Library, p1: Polygon, p2: Polygon)
    requires lib.Lawful() && Overlap(p1.coords, p2.coords) && !Swallowed(p1.coords, p2.coords)
    ensures var P1, P2, i := p1.coords, p2.coords, SpliceIndex(p1.coords, p2.coords);
            && 0 <= i < |P1| && !IsInside(P1[i], P2)
            && PointsInside(lib, P2, P1) != []
            && Eat(lib, p1, p2).coords
               == Filter(P1[..i], Out(P2)) + [P1[i]] + Block(lib, P1, P2, i) + Filter(P1[i + 1..], Out(P2))
            && Eat(lib, p1, p2).runner == p1.runner && Eat(lib, p1, p2).time == 0
  {
    hide Eat, Cut, Block, Filter, PointsInside, IsInside, SpliceIndex, Overlap, Swallowed;
    EatIsCut(lib, p1, p2);
    CutAndFill(lib, p1.coords, p2.coords, SpliceIndex(p1.coords, p2.coords));
  }

  lemma EatIsCut(lib: Library, p1: Polygon, p2: Polygon)
    requires lib.Lawful() && Overlap(p1.coords, p2.coords) && !Swallowed(p1.coords, p2.coords)
    ensures var P1, P2, i := p1.coords, p2.coords, SpliceIndex(p1.coords, p2.coords);
            && 0 <= i < |P1| && !IsInside(P1[i], P2)
            && PointsInside(lib, P2, P1) != []
            && Eat(lib, p1, p2)
               == Polygon(Cut(lib, P1, i, PointsInside(lib, P2, P1), PointsInside(lib, P1, P2)), p1.runner, ZERO_TIME)
  {
    OverlapFound(lib, p1.coords, p2.coords);
    SpliceLaw(p1.coords, p2.coords);
  }

  lemma CutAndFill(lib: Library, P1: seq<Coord>, P2: seq<Coord>, i: nat)
    requires lib.Lawful() && i < |P1| && !IsInside(P1[i], P2) && PointsInside(lib, P2, P1) != []
    ensures Cut(lib, P1, i, PointsInside(lib, P2, P1), PointsInside(lib, P1, P2))
         == Shape(lib, P1, P2, i)
  {
    var keep, block := NotAmong(PointsInside(lib, P1, P2)), Oriented(lib, PointsInside(lib, P2, P1), P1[i]);
    FilterAppend(P1[..i + 1] + block, P1[i + 1..], keep);
    FilterAppend(P1[..i + 1], block, keep);
    assert Filter(P1[..i + 1], keep) == Filter(P1[..i], Out(P2)) + [P1[i]] by {
      OldVerticesKept(lib, P1, P2, P1[..i + 1]);
      FilterStep(P1, i, Out(P2));
    }
    assert Filter(P1[i + 1..], keep) == Filter(P1[i + 1..], Out(P2)) by {
      OldVerticesKept(lib, P1, P2, P1[i + 1..]);
    }
    assert Filter(block, keep) == Filter(block, NotAmong(P1)) by {
      BlockMembers(lib, P1, P2, P1[i]);
      NewVerticesKept(lib, P1, P2, block);
    }
  }

  lemma BlockMembers(lib: Library, P1: seq<Coord>, P2: seq<Coord>, anchor: Coord)
    requires lib.Lawful() && PointsInside(lib, P2, P1) != []
    ensures var block := Oriented(lib, PointsInside(lib, P2, P1), anchor);
            multiset(block) == multiset(Filter(P2, In(P1))) && forall c <- block :: c in P2
  {
    var found := PointsInside(lib, P2, P1);
    PointsInsidePermuted(lib, P2, P1);
    ReverseMultiset(found);
    SameMembers(Oriented(lib, found, anchor), Filter(P2, In(P1)));
  }

  /** The order in which `getPointsInPolygon` hands points out: all of them as they come, some of them sorted by
      their distance from the origin as far as the comparator can tell. */
  lemma FoundOrder(lib: Library, P1: seq<Coord>, P2: seq<Coord>)
    requires lib.Lawful()
    ensures Swallowed(P1, P2) ==> PointsInside(lib, P1, P2) == P1
    ensures !Swallowed(P1, P2) && Reaches(P1, P2) ==> PointsInside(lib, P1, P2) == lib.sortByNorm(Filter(P1, In(P2)))
    ensures !Swallowed(P1, P2) && Comparable(Filter(P1, In(P2))) ==> NormAscending(PointsInside(lib, P1, P2))
  {
    hide IsInside;
    FilterAll(P1, In(P2));
    FilterNone(P1, In(P2));
    assert (forall p <- P1 :: In(P2)(p)) <==> Swallowed(P1, P2);
    assert (forall p <- P1 :: !In(P2)(p)) <==> !Reaches(P1, P2);
  }

  /** The block is a permutation of the newer vertices inside the older polygon that share no place with an old
      vertex. It is cut from the points found, which are reversed exactly when their last is nearer to the anchor
      than their first. */
  lemma BlockLaw(lib: Library, P1: seq<Coord>, P2: seq<Coord>, i: nat)
    requires lib.Lawful() && i < |P1| && PointsInside(lib, P2, P1) != []
    ensures multiset(Block(lib, P1, P2, i)) == multiset(Filter(P2, Within(P1)))
    ensures |Block(lib, P1, P2, i)| == |Filter(P2, Within(P1))|
    ensures var found, anchor := PointsInside(lib, P2, P1), P1[i];
            var first, last := found[0], found[|found| - 1];
            && found == (if Swallowed(P2, P1) then P2 else lib.sortByNorm(Filter(P2, In(P1))))
            && Block(lib, P1, P2, i)
               == Filter(if lib.distance(first.x, first.y, anchor.x, anchor.y)
                            <= lib.distance(last.x, last.y, anchor.x, anchor.y) then found else Reverse(found),
                         NotAmong(P1))
  {
    var whole := Oriented(lib, PointsInside(lib, P2, P1), P1[i]);
    NearEndFirst(lib, PointsInside(lib, P2, P1), P1[i]);
    FoundOrder(lib, P2, P1);
    PointsInsidePermuted(lib, P2, P1);
    BlockMembers(lib, P1, P2, P1[i]);
    hide Oriented, PointsInside, IsInside, HasVertex, Filter;
    FilterPermuted(whole, Filter(P2, In(P1)), NotAmong(P1));
    FilterTwice(P2, In(P1), NotAmong(P1), Within(P1));
  }

  lemma NearEndFirst(lib: Library, block: seq<Coord>, anchor: Coord)
    requires block != []
    ensures var first, last := block[0], block[|block| - 1];
            Oriented(lib, block, anchor)
            == if lib.distance(first.x, first.y, anchor.x, anchor.y) <= lib.distance(last.x, last.y, anchor.x, anchor.y)
               then block else Reverse(block)
  {
  }

  lemma OutsideAround(P1: seq<Coord>, P2: seq<Coord>, i: nat)
    requires i < |P1| && !IsInside(P1[i], P2)
    ensures Filter(P1, Out(P2)) == Filter(P1[..i], Out(P2)) + [P1[i]] + Filter(P1[i + 1..], Out(P2))
  {
    FilterAround(P1, i, Out(P2));
  }

  /** The vertices after partial eating, with multiplicity, and so their number. */
  lemma EatAccounts(lib: Library, p1: Polygon, p2: Polygon)
    requires lib.Lawful() && Overlap(p1.coords, p2.coords) && !Swallowed(p1.coords, p2.coords)
    ensures multiset(Eat(lib, p1, p2).coords)
         == multiset(Filter(p1.coords, Out(p2.coords)) + Filter(p2.coords, Within(p1.coords)))
    ensures |Eat(lib, p1, p2).coords|
         == |Filter(p1.coords, Out(p2.coords))| + |Filter(p2.coords, Within(p1.coords))|
  {
    EatShape(lib, p1, p2);
    ShapeAccounts(lib, p1.coords, p2.coords, SpliceIndex(p1.coords, p2.coords));
  }

  lemma ShapeAccounts(lib: Library, P1: seq<Coord>, P2: seq<Coord>, i: nat)
    requires lib.Lawful() && i < |P1| && !IsInside(P1[i], P2) && PointsInside(lib, P2, P1) != []
    ensures multiset(Shape(lib, P1, P2, i)) == multiset(Filter(P1, Out(P2)) + Filter(P2, Within(P1)))
    ensures |Shape(lib, P1, P2, i)| == |Filter(P1, Out(P2))| + |Filter(P2, Within(P1))|
  {
    BlockLaw(lib, P1, P2, i);
    OutsideAround(P1, P2, i);
    MoveBlock(Filter(P1[..i], Out(P2)) + [P1[i]], Block(lib, P1, P2, i), Filter(P1[i + 1..], Out(P2)),
              Filter(P2, Within(P1)));
  }

  lemma MoveBlock<T>(before: seq<T>, block: seq<T>, after: seq<T>, block': seq<T>)
    requires multiset(block) == multiset(block')
    ensures multiset(before + block + after) == multiset(before + after + block')
    ensures |before + block + after| == |before + after| + |block'|
  {
    SameLength(block, block');
  }

  /** Eating invents no vertex: what is new in the result is a newer vertex strictly inside the old polygon. */
  lemma EatenVertices(lib: Library, p1: Polygon, p2: Polygon, c: Coord)
    requires lib.Lawful() && c in Eat(lib, p1, p2).coords
    ensures c in p1.coords || c in p2.coords
    ensures Overlap(p1.coords, p2.coords) ==>
              (c in p1.coords && Out(p2.coords)(c)) || (c in p2.coords && Within(p1.coords)(c))
  {
    EatAllOrNothing(lib, p1, p2);
    if Overlap(p1.coords, p2.coords) && !Swallowed(p1.coords, p2.coords) {
      EatAccounts(lib, p1, p2);
      SameMembers(Eat(lib, p1, p2).coords, Filter(p1.coords, Out(p2.coords)) + Filter(p2.coords, Within(p1.coords)));
    }
  }

  /** When one corner of each of two triangles is inside the other, eating replaces the old corner by the newer. */
  lemma EatCorner(lib: Library, p1: Polygon, p2: Polygon, o: Coord, a: Coord, b: Coord, w: Coord, t: Coord, u: Coord)
    requires lib.Lawful() && p1.coords == [o, a, b] && p2.coords == [w, t, u]
    requires IsInside(o, p2.coords) && !IsInside(a, p2.coords) && !IsInside(b, p2.coords)
    requires Within(p1.coords)(w) && !IsInside(t, p1.coords) && !IsInside(u, p1.coords)
    ensures Eat(lib, p1, p2) == Polygon([a, b, w], p1.runner, ZERO_TIME)
  {
    var P1, P2 := p1.coords, p2.coords;
    hide Eat, IsInside, HasVertex, Overlap, Swallowed, SpliceIndex, PointsInside, Block, Filter;
    CornerSplice(P1, P2, o, a, b, w);
    EatShape(lib, p1, p2);
    CornerBlock(lib, P1, P2, 2, w, t, u);
    CornerRest(o, a, b, Out(P2));
  }

  lemma CornerSplice(P1: seq<Coord>, P2: seq<Coord>, o: Coord, a: Coord, b: Coord, w: Coord)
    requires P1 == [o, a, b] && w in P2 && IsInside(w, P1)
    requires IsInside(o, P2) && !IsInside(a, P2) && !IsInside(b, P2)
    ensures Overlap(P1, P2) && !Swallowed(P1, P2) && SpliceIndex(P1, P2) == 2
  {
    hide IsInside, SpliceIndex;
    assert P1[0] in P1 && P1[1] in P1;
    SpliceLaw(P1, P2);
  }

  lemma CornerBlock(lib: Library, P1: seq<Coord>, P2: seq<Coord>, i: nat, w: Coord, t: Coord, u: Coord)
    requires lib.Lawful() && i < |P1| && PointsInside(lib, P2, P1) != []
    requires P2 == [w, t, u] && Within(P1)(w) && !IsInside(t, P1) && !IsInside(u, P1)
    ensures Block(lib, P1, P2, i) == [w]
  {
    hide Block, PointsInside, IsInside, HasVertex;
    FilterThree(w, t, u, Within(P1));
    BlockLaw(lib, P1, P2, i);
    OneEntry(Block(lib, P1, P2, i), w);
  }

  lemma CornerRest<T>(o: T, a: T, b: T, keep: T -> bool)
    requires !keep(o) && keep(a)
    ensures Filter([o, a, b][..2], keep) == [a] && Filter([o, a, b][3..], keep) == []
  {
    assert [o, a, b][..2] == [o, a] && [o, a][..1] == [o] && [o][..0] == [];
    assert Filter([o], keep) == [];
  }

  lemma OneEntry<T>(s: seq<T>, x: T)
    requires multiset(s) == multiset([x])
    ensures s == [x]
  {
    SameLength(s, [x]);
    assert s[0] in multiset(s);
  }

  lemma OwnVertexInside(c: Coord, poly: seq<Coord>)
    requires c in poly
    ensures IsInside(c, poly) && !Within(poly)(c)
  {
    assert SamePlace(c, c);
  }

  /** Eating twice is eating once exactly when nothing was inserted: a second eat by the same polygon takes the
      block of the first away again. */
  lemma EatTwice(lib: Library, p1: Polygon, p2: Polygon)
    requires lib.Lawful()
    ensures var once := Eat(lib, p1, p2);
            Eat(lib, once, p2) == once
            <==> !Overlap(p1.coords, p2.coords) || Swallowed(p1.coords, p2.coords)
                 || Filter(p2.coords, Within(p1.coords)) == []
  {
    hide Eat, IsInside, HasVertex;
    EatAllOrNothing(lib, p1, p2);
    EatAllOrNothing(lib, Polygon([], p1.runner, ZERO_TIME), p2);
    if Overlap(p1.coords, p2.coords) && !Swallowed(p1.coords, p2.coords) {
      PartialTwice(lib, p1, p2);
    }
  }

  lemma PartialTwice(lib: Library, p1: Polygon, p2: Polygon)
    requires lib.Lawful() && Overlap(p1.coords, p2.coords) && !Swallowed(p1.coords, p2.coords)
    ensures var once, inserted := Eat(lib, p1, p2), Filter(p2.coords, Within(p1.coords));
            && (Eat(lib, once, p2) == once <==> inserted == [])
            && forall c <- inserted :: c in once.coords && c !in Eat(lib, once, p2).coords
  {
    hide Eat, IsInside, HasVertex;
    var once, inserted := Eat(lib, p1, p2), Filter(p2.coords, Within(p1.coords));
    EatAccounts(lib, p1, p2);
    SameMembers(once.coords, Filter(p1.coords, Out(p2.coords)) + inserted);
    forall c <- inserted ensures c in once.coords && c !in Eat(lib, once, p2).coords {
      InsertedGoes(lib, once, p2, c);
    }
    if inserted == [] {
      EatAllOrNothing(lib, once, p2);
    } else {
      assert inserted[0] in inserted;
    }
  }

  lemma InsertedGoes(lib: Library, once: Polygon, p2: Polygon, c: Coord)
    requires lib.Lawful() && c in once.coords && c in p2.coords
    ensures c !in Eat(lib, once, p2).coords
  {
    OwnVertexInside(c, once.coords);
    OwnVertexInside(c, p2.coords);
    if c in Eat(lib, once, p2).coords {
      EatenVertices(lib, once, p2, c);
    }
  }

  /** Every vertex of the result inside `newer` is at the place of one of its vertices. */
  predicate NoneStrictlyInside(coords: seq<Coord>, newer: seq<Coord>) {
    forall c <- coords :: !Within(newer)(c)
  }

  /** Eating is meant to take the vertices of `p1` inside `p2` away. It does so exactly when it is not the case
      that `p1` reaches into `p2` while no vertex of `p2` is inside `p1`; then `p1` comes back unchanged. */
  lemma EatRemovesOverlap(lib: Library, p1: Polygon, p2: Polygon)
    requires lib.Lawful()
    ensures NoneStrictlyInside(Eat(lib, p1, p2).coords, p2.coords)
       <==> (Reaches(p1.coords, p2.coords) ==> Reaches(p2.coords, p1.coords))
  {
    hide Eat, CycleParity;
    var r := Eat(lib, p1, p2).coords;
    EatAllOrNothing(lib, p1, p2);
    if Overlap(p1.coords, p2.coords) {
      forall c <- r ensures !Within(p2.coords)(c) {
        EatenVertices(lib, p1, p2, c);
        assert c in p2.coords ==> SamePlace(c, c) && HasVertex(c, p2.coords);
      }
    } else if Reaches(p1.coords, p2.coords) {
      var v :| v in p1.coords && IsInside(v, p2.coords);
      assert Within(p2.coords)(v);
    }
  }

  function Corner(x: real, y: real): Coord {
    Coord(x, y, ZERO_TIME)
  }

  /** The failing case occurs: a small triangle inside a large one comes back unchanged. */
  lemma OverlapLeft(lib: Library)
    requires lib.Lawful()
    ensures var p1 := Polygon([Corner(1.0, 1.0), Corner(2.0, 1.0), Corner(1.0, 2.0)], "older", 0);
            var p2 := Polygon([Corner(0.0, 0.0), Corner(9.0, 0.0), Corner(0.0, 9.0)], "newer", 1);
            Eat(lib, p1, p2) == p1 && !NoneStrictlyInside(p1.coords, p2.coords)
  {
    hide Eat, IsInside, PointsInside;
    var p1 := Polygon([Corner(1.0, 1.0), Corner(2.0, 1.0), Corner(1.0, 2.0)], "older", 0);
    var p2 := Polygon([Corner(0.0, 0.0), Corner(9.0, 0.0), Corner(0.0, 9.0)], "newer", 1);
    CornersApart();
    EatAllOrNothing(lib, p1, p2);
    assert p1.coords[0] in p1.coords && Within(p2.coords)(p1.coords[0]);
  }

  lemma CornersApart()
    ensures var s := [Corner(1.0, 1.0), Corner(2.0, 1.0), Corner(1.0, 2.0)];
            var t := [Corner(0.0, 0.0), Corner(9.0, 0.0), Corner(0.0, 9.0)];
            IsInside(s[0], t) && !HasVertex(s[0], t) && !Reaches(t, s)
  {
    var s0, s1, s2 := Corner(1.0, 1.0), Corner(2.0, 1.0), Corner(1.0, 2.0);
    var t0, t1, t2 := Corner(0.0, 0.0), Corner(9.0, 0.0), Corner(0.0, 9.0);
    hide Orient, IsInside, HasVertex;
    CornerSides(s0, s1, s2, t0, t1, t2);
    SidesLaw(s0, t0, t1, t2);
    NoneInTriangle(s0, s1, s2, t0, t1, t2);
  }

  lemma CornerSides(s0: Coord, s1: Coord, s2: Coord, t0: Coord, t1: Coord, t2: Coord)
    requires s0 == Corner(1.0, 1.0) && s1 == Corner(2.0, 1.0) && s2 == Corner(1.0, 2.0)
    requires t0 == Corner(0.0, 0.0) && t1 == Corner(9.0, 0.0) && t2 == Corner(0.0, 9.0)
    ensures Orient(t0, t1, t2) == 81.0 && Orient(s0, s1, s2) == 1.0
    ensures Orient(t0, t1, s0) == 9.0 && Orient(t1, t2, s0) == 63.0 && Orient(t2, t0, s0) == 9.0
    ensures Orient(s0, s1, t0) == -1.0 && Orient(s0, s1, t1) == -1.0 && Orient(s2, s0, t2) == -1.0
  {
    hide Orient;
    OrientIs(t0, t1, t2, 9.0, 0.0, 0.0, 9.0);
    OrientIs(s0, s1, s2, 1.0, 0.0, 0.0, 1.0);
    OrientIs(t0, t1, s0, 9.0, 0.0, 1.0, 1.0);
    OrientIs(t1, t2, s0, -9.0, 9.0, -8.0, 1.0);
    OrientIs(t2, t0, s0, 0.0, -9.0, 1.0, -8.0);
    OrientIs(s0, s1, t0, 1.0, 0.0, -1.0, -1.0);
    OrientIs(s0, s1, t1, 1.0, 0.0, 8.0, -1.0);
    OrientIs(s2, s0, t2, 0.0, -1.0, -1.0, 7.0);
  }

  lemma NoneInTriangle(a: Coord, b: Coord, c: Coord, p: Coord, q: Coord, r: Coord)
    requires Orient(a, b, c) > 0.0 && Orient(a, b, p) < 0.0 && Orient(a, b, q) < 0.0 && Orient(c, a, r) < 0.0
    ensures !Reaches([p, q, r], [a, b, c])
  {
    hide Orient, IsInside;
    SidesLaw(p, a, b, c);
    SidesLaw(q, a, b, c);
    SidesLaw(r, a, b, c);
  }

  function Nearer(lib: Library, anchor: Coord): (Coord, Coord) -> bool {
    (p: Coord, q: Coord) => lib.distance(p.x, p.y, anchor.x, anchor.y) <= lib.distance(q.x, q.y, anchor.x, anchor.y)
  }

  /** The comment of `eatPolygon` promises the inserted points sorted by their distance from the anchor. The code only
      compares the two ends of the points found, so this holds exactly when those it inserts come nearest first, or,
      if the last found is nearer than the first, farthest first. */
  lemma NearestFirst(lib: Library, P1: seq<Coord>, P2: seq<Coord>, i: nat)
    requires lib.Lawful() && i < |P1| && Reaches(P2, P1)
    ensures PointsInside(lib, P2, P1) != []
    ensures var found, nearer := PointsInside(lib, P2, P1), Nearer(lib, P1[i]);
            var inserted := Filter(found, NotAmong(P1));
            InOrder(Block(lib, P1, P2, i), nearer)
            <==> if nearer(found[0], found[|found| - 1]) then InOrder(inserted, nearer)
                 else forall j, k :: 0 <= j < k < |inserted| ==> nearer(inserted[k], inserted[j])
  {
    hide Block, PointsInside, Reaches, Filter;
    PointsInsidePermuted(lib, P2, P1);
    BlockLaw(lib, P1, P2, i);
    FilterReverse(PointsInside(lib, P2, P1), NotAmong(P1));
    ReversedOrder(Filter(PointsInside(lib, P2, P1), NotAmong(P1)), Nearer(lib, P1[i]));
  }

  /** The failing case occurs: the farther point comes first. */
  lemma FartherFirst(lib: Library)
    requires lib.Lawful()
    requires lib.distance(1.0, 1.0, 0.0, 10.0) < lib.distance(4.0, 1.0, 0.0, 10.0)
             <= lib.distance(0.0, 0.0, 0.0, 10.0)
    ensures var p1 := Polygon([Corner(0.0, 0.0), Corner(10.0, 0.0), Corner(0.0, 10.0)], "older", 1);
            var p2 := Polygon([Corner(4.0, 1.0), Corner(1.0, 1.0), Corner(0.0, 0.0)], "newer", 2);
            Eat(lib, p1, p2).coords
            == [Corner(10.0, 0.0), Corner(0.0, 10.0), Corner(4.0, 1.0), Corner(1.0, 1.0)]
  {
    var P1 := [Corner(0.0, 0.0), Corner(10.0, 0.0), Corner(0.0, 10.0)];
    var P2 := [Corner(4.0, 1.0), Corner(1.0, 1.0), Corner(0.0, 0.0)];
    hide Eat, IsInside, HasVertex, Overlap, Swallowed, SpliceIndex, PointsInside, Block, Filter;
    SharedCorner(P1, P2);
    assert P2[0] in P2 && IsInside(P2[0], P1);
    CornerSplice(P1, P2, P1[0], P1[1], P1[2], P2[0]);
    EatShape(lib, Polygon(P1, "older", 1), Polygon(P2, "newer", 2));
    BlockLaw(lib, P1, P2, 2);
    CornerRest(P1[0], P1[1], P1[2], Out(P2));
    FilterThree(P2[0], P2[1], P2[2], NotAmong(P1));
  }

  lemma SharedCorner(P1: seq<Coord>, P2: seq<Coord>)
    requires P1 == [Corner(0.0, 0.0), Corner(10.0, 0.0), Corner(0.0, 10.0)]
    requires P2 == [Corner(4.0, 1.0), Corner(1.0, 1.0), Corner(0.0, 0.0)]
    ensures IsInside(P1[0], P2) && !IsInside(P1[1], P2) && !IsInside(P1[2], P2)
    ensures Swallowed(P2, P1) && IsInside(P2[0], P1)
    ensures !HasVertex(P2[0], P1) && !HasVertex(P2[1], P1) && HasVertex(P2[2], P1)
  {
    hide Orient, IsInside, HasVertex;
    assert P1[0] == P2[2] && P2[2] in P2 && P1[0] in P1;
    OwnVertexInside(P1[0], P2);
    OwnVertexInside(P2[2], P1);
    OrientIs(P2[0], P2[1], P2[2], -3.0, 0.0, -4.0, -1.0);
    OrientIs(P2[2], P2[0], P1[1], 4.0, 1.0, 10.0, 0.0);
    OrientIs(P2[0], P2[1], P1[2], -3.0, 0.0, -4.0, 9.0);
    SidesLaw(P1[1], P2[0], P2[1], P2[2]);
    SidesLaw(P1[2], P2[0], P2[1], P2[2]);
    OrientIs(P1[0], P1[1], P1[2], 10.0, 0.0, 0.0, 10.0);
    OrientIs(P1[0], P1[1], P2[0], 10.0, 0.0, 4.0, 1.0);
    OrientIs(P1[1], P1[2], P2[0], -10.0, 10.0, -6.0, 1.0);
    OrientIs(P1[2], P1[0], P2[0], 0.0, -10.0, 4.0, -9.0);
    OrientIs(P1[0], P1[1], P2[1], 10.0, 0.0, 1.0, 1.0);
    OrientIs(P1[1], P1[2], P2[1], -10.0, 10.0, -9.0, 1.0);
    OrientIs(P1[2], P1[0], P2[1], 0.0, -10.0, 1.0, -9.0);
    SidesLaw(P2[0], P1[0], P1[1], P1[2]);
    SidesLaw(P2[1], P1[0], P1[1], P1[2]);
  }

  // ----- merging

  function Merge(lib: Library, p1: Polygon, p2: Polygon): (Polygon, bool) {
    var inside2 := PointsInside(lib, p1.coords, p2.coords);
    var inside1 := PointsInside(lib, p2.coords, p1.coords);
    if inside1 == [] || inside2 == [] then (p1, false)
    else
      var coords := Filter(Filter(p1.coords + p2.coords, NotAmong(inside2)), NotAmong(inside1));
      (Polygon(SortByDistance(lib, coords), p1.runner, ZERO_TIME), true)
  }

  method MergePolygons(lib: Library, polygon1: Polygon, polygon2: Polygon) returns (r: Polygon, merged: bool)
    ensures (r, merged) == Merge(lib, polygon1, polygon2)
  {
    var pointsInPolygon2, _ := GetPointsInPolygon(lib, polygon1.coords, polygon2.coords);
    var pointsInPolygon1, _ := GetPointsInPolygon(lib, polygon2.coords, polygon1.coords);
    if pointsInPolygon1 == [] || pointsInPolygon2 == [] {
      return polygon1, false;
    }
    var coords := AppendBoth(polygon1.coords, polygon2.coords);
    coords := DeleteAll(coords, pointsInPolygon2);
    coords := DeleteAll(coords, pointsInPolygon1);
    coords := SortPointsByDistance(lib, coords);
    return Polygon(coords, polygon1.runner, ZERO_TIME), true;
  }

  /** The two append loops of `mergePolygons`. */
  method AppendBoth(s: seq<Coord>, t: seq<Coord>) returns (coords: seq<Coord>)
    ensures coords == s + t
  {
    coords := [];
    for k := 0 to |s|
      invariant coords == s[..k]
    {
      coords := coords + [s[k]];
    }
    for k := 0 to |t|
      invariant coords == s + t[..k]
    {
      coords := coords + [t[k]];
    }
  }

  /** What merging hands to the tour: each polygon's vertices outside the other. */
  function Union(P1: seq<Coord>, P2: seq<Coord>): seq<Coord> {
    Filter(P1, Out(P2)) + Filter(P2, Out(P1))
  }

  lemma MergeKeeps(lib: Library, P1: seq<Coord>, P2: seq<Coord>)
    requires lib.Lawful()
    ensures Filter(Filter(P1 + P2, NotAmong(PointsInside(lib, P1, P2))), NotAmong(PointsInside(lib, P2, P1)))
         == Union(P1, P2)
  {
    var d2, d1 := PointsInside(lib, P1, P2), PointsInside(lib, P2, P1);
    FilterAppend(P1, P2, NotAmong(d2));
    FilterAppend(Filter(P1, NotAmong(d2)), Filter(P2, NotAmong(d2)), NotAmong(d1));
    forall c <- P1 ensures Out(P2)(c) == (NotAmong(d2)(c) && NotAmong(d1)(c)) {
      DeletedPlaces(lib, P1, P2, c);
      DeletedPlaces(lib, P2, P1, c);
    }
    FilterTwice(P1, NotAmong(d2), NotAmong(d1), Out(P2));
    forall c <- P2 ensures Out(P1)(c) == (NotAmong(d2)(c) && NotAmong(d1)(c)) {
      DeletedPlaces(lib, P1, P2, c);
      DeletedPlaces(lib, P2, P1, c);
    }
    FilterTwice(P2, NotAmong(d2), NotAmong(d1), Out(P1));
  }

  /** Merging applies exactly to overlapping polygons and keeps exactly the symmetric difference: a tour of the first
      polygon's vertices outside the second, followed by the second's outside the first. */
  lemma MergeLaw(lib: Library, p1: Polygon, p2: Polygon)
    requires lib.Lawful()
    ensures Merge(lib, p1, p2).1 <==> Overlap(p1.coords, p2.coords)
    ensures !Overlap(p1.coords, p2.coords) ==> Merge(lib, p1, p2).0 == p1
    ensures Overlap(p1.coords, p2.coords) ==>
              Merge(lib, p1, p2).0
              == Polygon(SortByDistance(lib, Filter(p1.coords, Out(p2.coords)) + Filter(p2.coords, Out(p1.coords))),
                         p1.runner, 0)
    ensures Overlap(p1.coords, p2.coords) ==>
              multiset(Merge(lib, p1, p2).0.coords) <= multiset(Union(p1.coords, p2.coords))
    ensures Overlap(p1.coords, p2.coords) && lib.Bounded() ==>
              multiset(Merge(lib, p1, p2).0.coords)
              == multiset(Filter(p1.coords, Out(p2.coords))) + multiset(Filter(p2.coords, Out(p1.coords)))
  {
    OverlapFound(lib, p1.coords, p2.coords);
    MergeKeeps(lib, p1.coords, p2.coords);
    PermutationLaw(lib, Union(p1.coords, p2.coords));
  }

  /** The order of the arguments decides neither whether they merge nor which vertices remain. */
  lemma MergeSymmetric(lib: Library, p1: Polygon, p2: Polygon)
    requires lib.Lawful() && lib.Bounded()
    ensures Merge(lib, p1, p2).1 == Merge(lib, p2, p1).1
    ensures Merge(lib, p1, p2).1 ==> multiset(Merge(lib, p1, p2).0.coords) == multiset(Merge(lib, p2, p1).0.coords)
  {
    MergeLaw(lib, p1, p2);
    MergeLaw(lib, p2, p1);
  }

  /** A polygon with vertices merged with itself disappears. */
  lemma SelfMerge(lib: Library, p: Polygon)
    requires lib.Lawful() && p.coords != []
    ensures Merge(lib, p, p) == (Polygon([], p.runner, ZERO_TIME), true)
  {
    assert forall c <- p.coords :: SamePlace(c, c) && HasVertex(c, p.coords);
    assert p.coords[0] in p.coords && IsInside(p.coords[0], p.coords);
    MergeLaw(lib, p, p);
    FilterNone(p.coords, Out(p.coords));
  }
}
