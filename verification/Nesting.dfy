/** Which overlaps are left after the whole eat pass of `cleanPolygons`. */
module Nesting {
  import opened Cleaning
  import opened Exactness
  import opened GoLibrary
  import opened RayCasting
  import opened Schema
  import opened Sequences
  import opened Surgery

  /** Whenever `p`, as far as it has been eaten, reaches into the next claim of another runner, that claim
      reaches into it. */
  ghost predicate MutualReach(lib: Library, p: Polygon, claims: seq<Polygon>) {
    forall j :: 0 <= j < |claims| && claims[j].runner != p.runner ==>
      var q := EatenBy(lib, p, claims[..j]).coords;
      Reaches(q, claims[j].coords) ==> Reaches(claims[j].coords, q)
  }

  /** No vertex of `p` is strictly inside a polygon of another runner. */
  ghost predicate ClearOf(p: Polygon, claims: seq<Polygon>) {
    forall j :: 0 <= j < |claims| && claims[j].runner != p.runner ==> NoneStrictlyInside(p.coords, claims[j].coords)
  }

  /** No vertex is strictly inside a newer polygon: of the polygons of one runner, or of any two. */
  ghost predicate Nested(polygons: seq<Polygon>, sameRunner: bool) {
    forall j, k :: 0 <= j < k < |polygons| && (polygons[j].runner == polygons[k].runner) == sameRunner ==>
      NoneStrictlyInside(polygons[k].coords, polygons[j].coords)
  }

  lemma EatStaysClear(lib: Library, q: Polygon, claim: Polygon, other: seq<Coord>)
    requires lib.Lawful()
    requires NoneStrictlyInside(q.coords, other) && NoneStrictlyInside(claim.coords, other)
    ensures NoneStrictlyInside(Eat(lib, q, claim).coords, other)
  {
    hide Eat, Within;
    forall c <- Eat(lib, q, claim).coords ensures !Within(other)(c) {
      EatenVertices(lib, q, claim, c);
    }
  }

  lemma {:induction false} EatenByClear(lib: Library, p: Polygon, claims: seq<Polygon>)
    requires lib.Lawful() && MutualReach(lib, p, claims)
    requires Nested(claims, true) && Nested(claims, false)
    ensures ClearOf(EatenBy(lib, p, claims), claims)
  {
    hide Eat, NoneStrictlyInside;
    EatenByRunner(lib, p, claims);
    if claims != [] {
      var front, claim := claims[..|claims| - 1], claims[|claims| - 1];
      assert forall j :: 0 <= j < |front| ==> front[..j] == claims[..j];
      EatenByClear(lib, p, front);
      EatenByRunner(lib, p, front);
      var q := EatenBy(lib, p, front);
      if q.runner != claim.runner {
        EatRemovesOverlap(lib, q, claim);
        forall j | 0 <= j < |front| && claims[j].runner != p.runner
          ensures NoneStrictlyInside(Eat(lib, q, claim).coords, claims[j].coords)
        {
          assert front[j] == claims[j];
          assert NoneStrictlyInside(claim.coords, claims[j].coords) by {
            assert (claims[j].runner == claim.runner) || (claims[j].runner != claim.runner);
          }
          EatStaysClear(lib, q, claim, claims[j].coords);
        }
      }
    }
  }

  /** After all eats no vertex of a polygon is strictly inside a newer one of another runner, provided reaching
      in was mutual at each eat, and no vertex of a polygon is strictly inside a newer one of its own runner:
      through such a vertex a later eat could bring in what an earlier one took away. */
  lemma {:induction false} PassRemovesOverlap(lib: Library, polygons: seq<Polygon>)
    requires lib.Lawful()
    requires forall i :: 0 <= i < |polygons| ==> MutualReach(lib, polygons[i], EatPass(lib, polygons[..i]))
    requires Nested(EatPass(lib, polygons), true)
    ensures Nested(EatPass(lib, polygons), false)
  {
    hide EatenBy, NoneStrictlyInside, MutualReach;
    if polygons != [] {
      var front, last := polygons[..|polygons| - 1], polygons[|polygons| - 1];
      var done := EatPass(lib, front);
      assert forall i :: 0 <= i < |front| ==> front[..i] == polygons[..i] && front[i] == polygons[i];
      assert EatPass(lib, polygons) == done + [EatenBy(lib, last, done)];
      NestedFront(done, EatenBy(lib, last, done), true);
      PassRemovesOverlap(lib, front);
      assert MutualReach(lib, last, done) by {
        assert polygons[..|polygons| - 1] == front;
      }
      EatenByClear(lib, last, done);
      NestedExtend(done, EatenBy(lib, last, done));
    }
  }

  lemma NestedFront(done: seq<Polygon>, p: Polygon, sameRunner: bool)
    requires Nested(done + [p], sameRunner)
    ensures Nested(done, sameRunner)
  {
    var all := done + [p];
    assert forall j :: 0 <= j < |done| ==> all[j] == done[j];
  }

  lemma NestedExtend(done: seq<Polygon>, p: Polygon)
    requires Nested(done, false) && ClearOf(p, done)
    ensures Nested(done + [p], false)
  {
  }

  /** With one polygon per runner reaching in mutually is enough: no vertex is strictly inside any newer polygon. */
  lemma OnePerRunnerRemovesOverlap(lib: Library, polygons: seq<Polygon>)
    requires lib.Lawful()
    requires forall i, j :: 0 <= i < j < |polygons| ==> polygons[i].runner != polygons[j].runner
    requires forall i :: 0 <= i < |polygons| ==> MutualReach(lib, polygons[i], EatPass(lib, polygons[..i]))
    ensures var r := EatPass(lib, polygons);
            forall j, k :: 0 <= j < k < |r| ==> NoneStrictlyInside(r[k].coords, r[j].coords)
  {
    EatPassRunners(lib, polygons);
    hide EatPass, MutualReach;
    PassRemovesOverlap(lib, polygons);
  }

  // ----- the polygons of one runner

  const NEWEST := Polygon([Corner(1.0, 2.0), Corner(-5.0, -4.0), Corner(9.0, 4.0)], "rival", 3)
  const SECOND := Polygon([Corner(4.0, 2.5), Corner(9.0, -10.0), Corner(20.0, 1.0)], "rival", 2)
  const OLDEST := Polygon([Corner(0.0, 0.0), Corner(10.0, 0.0), Corner(0.0, 10.0)], "runner", 1)

  /** What NEWEST leaves of OLDEST. */
  const BITTEN := Polygon([Corner(10.0, 0.0), Corner(0.0, 10.0), Corner(1.0, 2.0)], "runner", ZERO_TIME)

  /** Mutual reach alone is not enough: a corner of SECOND lies inside NEWEST, of the same runner, and eating by
      SECOND brings it back into the ground that NEWEST had taken. */
  lemma BroughtBack(lib: Library)
    requires lib.Lawful()
    ensures var polygons := [NEWEST, SECOND, OLDEST];
            && (forall i :: 0 <= i < |polygons| ==> MutualReach(lib, polygons[i], EatPass(lib, polygons[..i])))
            && !Nested(EatPass(lib, polygons), false)
  {
    hide Eat, IsInside, HasVertex;
    var v := Corner(4.0, 2.5);
    CornerBitten(lib);
    CornerInserted(lib);
    CornerInNewest();
    assert NEWEST.coords[0] in NEWEST.coords && v in SECOND.coords;
    TwoEatOne(lib, NEWEST, SECOND, OLDEST);
    hide EatPass, MutualReach, Nested;
    EatenRunner(lib, OLDEST, NEWEST);
    EatenRunner(lib, BITTEN, SECOND);
    NotNested(EatPass(lib, [NEWEST, SECOND, OLDEST]), 0, 2, v);
  }

  lemma NotNested(polygons: seq<Polygon>, j: nat, k: nat, v: Coord)
    requires j < k < |polygons| && polygons[j].runner != polygons[k].runner
    requires v in polygons[k].coords && Within(polygons[j].coords)(v)
    ensures !Nested(polygons, false)
  {
    assert !NoneStrictlyInside(polygons[k].coords, polygons[j].coords);
  }

  lemma TwoEatOne(lib: Library, p: Polygon, q: Polygon, r: Polygon)
    requires p.runner == q.runner != r.runner
    requires Reaches(p.coords, r.coords) && Reaches(q.coords, Eat(lib, r, p).coords)
    ensures EatPass(lib, [p, q, r]) == [p, q, Eat(lib, Eat(lib, r, p), q)]
    ensures forall i :: 0 <= i < 3 ==> MutualReach(lib, [p, q, r][i], EatPass(lib, [p, q, r][..i]))
  {
    hide Eat, Reaches;
    assert [p, q, r][..2] == [p, q] && [p, q, r][..1] == [p] && [p, q][..1] == [p] && [p][..0] == [];
    assert EatenBy(lib, q, []) == q && EatenBy(lib, r, []) == r && EatPass(lib, [p]) == [p];
    assert EatenBy(lib, q, [p]) == q && EatPass(lib, [p, q]) == [p, q];
    EatenRunner(lib, r, p);
    assert EatenBy(lib, r, [p]) == Eat(lib, r, p);
    assert EatenBy(lib, r, [p, q]) == Eat(lib, Eat(lib, r, p), q);
  }

  lemma CornerInNewest()
    ensures Within(NEWEST.coords)(Corner(4.0, 2.5))
  {
    hide Orient, IsInside, HasVertex;
    var v, s := Corner(4.0, 2.5), NEWEST.coords;
    OrientIs(s[0], s[1], s[2], -6.0, -6.0, 8.0, 2.0);
    OrientIs(s[0], s[1], v, -6.0, -6.0, 3.0, 0.5);
    OrientIs(s[1], s[2], v, 14.0, 8.0, 9.0, 6.5);
    OrientIs(s[2], s[0], v, -8.0, -2.0, -5.0, -1.5);
    SidesLaw(v, s[0], s[1], s[2]);
  }

  /** NEWEST takes one corner of OLDEST away and puts in its own. */
  lemma CornerBitten(lib: Library)
    requires lib.Lawful()
    ensures Eat(lib, OLDEST, NEWEST) == BITTEN && Reaches(NEWEST.coords, OLDEST.coords)
  {
    hide Eat, Orient, IsInside, HasVertex;
    OldestAroundNewest();
    NewestAroundOldest();
    var s, t := OLDEST.coords, NEWEST.coords;
    assert t[0] in t;
    EatCorner(lib, OLDEST, NEWEST, s[0], s[1], s[2], t[0], t[1], t[2]);
  }

  lemma OldestAroundNewest()
    ensures var s, t := OLDEST.coords, NEWEST.coords;
            IsInside(s[0], t) && !IsInside(s[1], t) && !IsInside(s[2], t)
  {
    hide Orient, IsInside, HasVertex;
    var s, t := OLDEST.coords, NEWEST.coords;
    OrientIs(t[0], t[1], t[2], -6.0, -6.0, 8.0, 2.0);
    OrientIs(t[0], t[1], s[0], -6.0, -6.0, -1.0, -2.0);
    OrientIs(t[1], t[2], s[0], 14.0, 8.0, 5.0, 4.0);
    OrientIs(t[2], t[0], s[0], -8.0, -2.0, -9.0, -4.0);
    OrientIs(t[1], t[2], s[1], 14.0, 8.0, 15.0, 4.0);
    OrientIs(t[2], t[0], s[2], -8.0, -2.0, -9.0, 6.0);
    SidesLaw(s[0], t[0], t[1], t[2]);
    SidesLaw(s[1], t[0], t[1], t[2]);
    SidesLaw(s[2], t[0], t[1], t[2]);
  }

  lemma NewestAroundOldest()
    ensures var s, t := OLDEST.coords, NEWEST.coords;
            Within(s)(t[0]) && !IsInside(t[1], s) && !IsInside(t[2], s)
  {
    hide Orient, IsInside, HasVertex;
    var s, t := OLDEST.coords, NEWEST.coords;
    OrientIs(s[0], s[1], s[2], 10.0, 0.0, 0.0, 10.0);
    OrientIs(s[0], s[1], t[0], 10.0, 0.0, 1.0, 2.0);
    OrientIs(s[1], s[2], t[0], -10.0, 10.0, -9.0, 2.0);
    OrientIs(s[2], s[0], t[0], 0.0, -10.0, 1.0, -8.0);
    OrientIs(s[0], s[1], t[1], 10.0, 0.0, -5.0, -4.0);
    OrientIs(s[1], s[2], t[2], -10.0, 10.0, -1.0, 4.0);
    SidesLaw(t[0], s[0], s[1], s[2]);
    SidesLaw(t[1], s[0], s[1], s[2]);
    SidesLaw(t[2], s[0], s[1], s[2]);
  }

  /** SECOND puts its corner into what is left. */
  lemma CornerInserted(lib: Library)
    requires lib.Lawful()
    ensures Corner(4.0, 2.5) in Eat(lib, BITTEN, SECOND).coords && Reaches(SECOND.coords, BITTEN.coords)
  {
    hide Eat, IsInside, HasVertex;
    var v, s, t := Corner(4.0, 2.5), BITTEN.coords, SECOND.coords;
    SecondAroundBitten();
    assert v == t[0] && v in t && s[0] in s && s[1] in s;
    EatAccounts(lib, BITTEN, SECOND);
    FilterMember(t, Within(s), v);
    SameMembers(Eat(lib, BITTEN, SECOND).coords, Filter(s, Out(t)) + Filter(t, Within(s)));
  }

  lemma SecondAroundBitten()
    ensures var s, t := BITTEN.coords, SECOND.coords;
            Within(s)(t[0]) && IsInside(s[0], t) && !IsInside(s[1], t)
  {
    hide Orient, IsInside, HasVertex;
    var s, t := BITTEN.coords, SECOND.coords;
    OrientIs(s[0], s[1], s[2], -10.0, 10.0, -9.0, 2.0);
    OrientIs(s[0], s[1], t[0], -10.0, 10.0, -6.0, 2.5);
    OrientIs(s[1], s[2], t[0], 1.0, -8.0, 4.0, -7.5);
    OrientIs(s[2], s[0], t[0], 9.0, -2.0, 3.0, 0.5);
    OrientIs(t[0], t[1], t[2], 5.0, -12.5, 16.0, -1.5);
    OrientIs(t[0], t[1], s[0], 5.0, -12.5, 6.0, -2.5);
    OrientIs(t[1], t[2], s[0], 11.0, 11.0, 1.0, 10.0);
    OrientIs(t[2], t[0], s[0], -16.0, 1.5, -10.0, -1.0);
    OrientIs(t[0], t[1], s[1], 5.0, -12.5, -4.0, 7.5);
    SidesLaw(t[0], s[0], s[1], s[2]);
    SidesLaw(s[0], t[0], t[1], t[2]);
    SidesLaw(s[1], t[0], t[1], t[2]);
  }
}
