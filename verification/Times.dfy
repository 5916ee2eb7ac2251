/** What `cleanPolygons` does to the times of polygons, and when it changes nothing but their order. */
module Times {
  import opened Cleaning
  import opened GoLibrary
  import opened RayCasting
  import opened Schema
  import opened Sequences
  import opened Surgery

  /** `p` is one of the polygons as it came, or has lost its time. */
  ghost predicate VerbatimOrTimeless(p: Polygon, polygons: seq<Polygon>) {
    p in polygons || p.time == ZERO_TIME
  }

  lemma EatOrMergeTime(lib: Library, p: Polygon, q: Polygon)
    ensures Eat(lib, p, q) == p || Eat(lib, p, q).time == ZERO_TIME
    ensures Merge(lib, p, q).1 ==> Merge(lib, p, q).0.time == ZERO_TIME
  {
  }

  lemma {:induction false} EatenByTime(lib: Library, p: Polygon, claims: seq<Polygon>)
    ensures EatenBy(lib, p, claims) == p || EatenBy(lib, p, claims).time == ZERO_TIME
  {
    hide Eat;
    if claims != [] {
      var front, claim := claims[..|claims| - 1], claims[|claims| - 1];
      EatenByTime(lib, p, front);
      EatOrMergeTime(lib, EatenBy(lib, p, front), claim);
    }
  }

  lemma {:induction false} EatPassTimes(lib: Library, polygons: seq<Polygon>)
    ensures forall p <- EatPass(lib, polygons) :: VerbatimOrTimeless(p, polygons)
  {
    hide EatenBy;
    if polygons != [] {
      var front, last := polygons[..|polygons| - 1], polygons[|polygons| - 1];
      EatPassTimes(lib, front);
      EatenByTime(lib, last, EatPass(lib, front));
      assert polygons == front + [last];
    }
  }

  lemma {:induction false} MergeIntoTimes(lib: Library, data: seq<Polygon>, p: Polygon)
    ensures forall q <- MergeInto(lib, data, p) :: q in data || q == p || q.time == ZERO_TIME
  {
    hide Merge;
    if data != [] {
      EatOrMergeTime(lib, p, data[0]);
      MergeIntoTimes(lib, data[1..], p);
      assert data == [data[0]] + data[1..];
    }
  }

  lemma {:induction false} MergeListTimes(lib: Library, polygons: seq<Polygon>)
    ensures forall p <- MergeList(lib, polygons) :: VerbatimOrTimeless(p, polygons)
  {
    hide MergeInto;
    if polygons != [] {
      var front, last := polygons[..|polygons| - 1], polygons[|polygons| - 1];
      MergeListTimes(lib, front);
      MergeIntoTimes(lib, MergeList(lib, front), last);
      assert polygons == front + [last];
    }
  }

  /** Every output polygon is an input polygon, verbatim, or has the zero time. */
  lemma CleanTimes(lib: Library, polygons: seq<Polygon>, p: Polygon)
    requires lib.Lawful() && p in Clean(lib, polygons)
    ensures VerbatimOrTimeless(p, polygons)
  {
    var sorted := lib.newestFirst(polygons);
    SameMembers(sorted, polygons);
    hide Clean, EatPass, MergeList, Filter;
    var eaten := EatPass(lib, sorted);
    FilterMember(Clean(lib, polygons), RunBy(p.runner), p);
    CleanedOf(lib, polygons, p.runner);
    MergeListTimes(lib, Filter(eaten, RunBy(p.runner)));
    EatPassTimes(lib, sorted);
  }

  // ----- when nothing changes

  function Overlapping(): (Polygon, Polygon) -> bool {
    (p: Polygon, q: Polygon) => Overlap(p.coords, q.coords)
  }

  function Rivals(): (Polygon, Polygon) -> bool {
    (p: Polygon, q: Polygon) => p.runner != q.runner && Overlap(p.coords, q.coords)
  }

  predicate Timed(polygons: seq<Polygon>) {
    forall p <- polygons :: p.time != ZERO_TIME
  }

  lemma StepTimes(lib: Library, p: Polygon, q: Polygon)
    requires lib.Lawful()
    ensures if Overlapping()(q, p) then Eat(lib, p, q).time == ZERO_TIME else Eat(lib, p, q) == p
    ensures Merge(lib, p, q).1 <==> Overlapping()(q, p)
    ensures Merge(lib, p, q).1 ==> Merge(lib, p, q).0.time == ZERO_TIME
  {
    OverlapFound(lib, p.coords, q.coords);
  }

  /** A rival overlap takes the time; without one nothing changes. */
  lemma {:induction false} EatenByKeeps(lib: Library, p: Polygon, claims: seq<Polygon>)
    requires lib.Lawful()
    ensures if forall c <- claims :: !Rivals()(c, p) then EatenBy(lib, p, claims) == p
            else EatenBy(lib, p, claims).time == ZERO_TIME
  {
    hide Eat, Overlap;
    if claims != [] {
      var front, claim := claims[..|claims| - 1], claims[|claims| - 1];
      assert forall c :: c in claims <==> c in front || c == claim;
      EatenByKeeps(lib, p, front);
      EatenByRunner(lib, p, front);
      var q := EatenBy(lib, p, front);
      StepTimes(lib, q, claim);
      if forall c <- front :: !Rivals()(c, p) {
        assert q == p;
        assert (forall c <- claims :: !Rivals()(c, p)) <==> !Rivals()(claim, p);
      } else {
        assert q.time == ZERO_TIME;
        var c :| c in front && Rivals()(c, p);
        assert c in claims;
      }
    }
  }

  lemma TimedExtend(polygons: seq<Polygon>, p: Polygon)
    ensures Timed(polygons + [p]) <==> Timed(polygons) && p.time != ZERO_TIME
  {
    assert p in polygons + [p] && forall q <- polygons :: q in polygons + [p];
  }

  lemma {:induction false} EatPassKeeps(lib: Library, polygons: seq<Polygon>)
    requires lib.Lawful()
    ensures Unrelated(polygons, Rivals()) ==> EatPass(lib, polygons) == polygons
    ensures Timed(EatPass(lib, polygons)) <==> Timed(polygons) && Unrelated(polygons, Rivals())
  {
    hide Eat, EatenBy, Overlap;
    if polygons != [] {
      var front, last := polygons[..|polygons| - 1], polygons[|polygons| - 1];
      var done := EatPass(lib, front);
      assert polygons == front + [last];
      assert EatPass(lib, polygons) == done + [EatenBy(lib, last, done)];
      hide EatPass, Rivals, Timed, Unrelated;
      EatPassKeeps(lib, front);
      EatenByKeeps(lib, last, done);
      UnrelatedExtend(front, last, Rivals());
      TimedExtend(front, last);
      TimedExtend(done, EatenBy(lib, last, done));
    }
  }

  lemma {:induction false} MergeIntoKeeps(lib: Library, data: seq<Polygon>, p: Polygon)
    requires lib.Lawful()
    ensures (forall d <- data :: !Overlapping()(d, p)) ==> MergeInto(lib, data, p) == data + [p]
    ensures Timed(MergeInto(lib, data, p))
       <==> Timed(data) && p.time != ZERO_TIME && forall d <- data :: !Overlapping()(d, p)
  {
    hide Merge, Overlap;
    if data != [] {
      assert data == [data[0]] + data[1..];
      StepTimes(lib, p, data[0]);
      MergeIntoKeeps(lib, data[1..], p);
    }
  }

  lemma {:induction false} MergeListKeeps(lib: Library, polygons: seq<Polygon>)
    requires lib.Lawful()
    ensures Unrelated(polygons, Overlapping()) ==> MergeList(lib, polygons) == polygons
    ensures Timed(MergeList(lib, polygons)) <==> Timed(polygons) && Unrelated(polygons, Overlapping())
  {
    if polygons != [] {
      var front, last := polygons[..|polygons| - 1], polygons[|polygons| - 1];
      assert polygons == front + [last];
      MergeListKeeps(lib, front);
      MergeIntoKeeps(lib, MergeList(lib, front), last);
      UnrelatedExtend(front, last, Overlapping());
      TimedExtend(front, last);
      hide Timed, Unrelated, Overlapping, MergeInto;
    }
  }

  /** No two polygons overlap when no two rivals and no two polygons of one runner do. */
  lemma OverlapsByRunner(polygons: seq<Polygon>)
    ensures Unrelated(polygons, Overlapping())
       <==> Unrelated(polygons, Rivals()) && forall r: string :: KeptUnrelated(polygons, RunBy(r), Overlapping())
  {
    if Unrelated(polygons, Rivals()) && forall r: string :: KeptUnrelated(polygons, RunBy(r), Overlapping()) {
      forall i, j | 0 <= i < j < |polygons| ensures !Overlapping()(polygons[i], polygons[j]) {
        assert KeptUnrelated(polygons, RunBy(polygons[i].runner), Overlapping());
      }
    }
  }

  /** One runner's share of the result keeps its times exactly when it had them and no two of it overlapped. */
  lemma GroupTimes(lib: Library, polygons: seq<Polygon>, runner: string)
    requires lib.Lawful()
    ensures var eaten := EatPass(lib, lib.newestFirst(polygons));
            && (Timed(Filter(Clean(lib, polygons), RunBy(runner)))
                <==> Timed(Filter(eaten, RunBy(runner))) && KeptUnrelated(eaten, RunBy(runner), Overlapping()))
            && (KeptUnrelated(eaten, RunBy(runner), Overlapping()) ==>
                  Filter(Clean(lib, polygons), RunBy(runner)) == Filter(eaten, RunBy(runner)))
  {
    var eaten := EatPass(lib, lib.newestFirst(polygons));
    CleanedOf(lib, polygons, runner);
    MergeListKeeps(lib, Filter(eaten, RunBy(runner)));
    FilterUnrelated(eaten, RunBy(runner), Overlapping());
  }

  lemma TimedByRunner(polygons: seq<Polygon>)
    ensures Timed(polygons) <==> forall r: string :: Timed(Filter(polygons, RunBy(r)))
  {
    if forall r: string :: Timed(Filter(polygons, RunBy(r))) {
      forall p <- polygons ensures p.time != ZERO_TIME {
        FilterMember(polygons, RunBy(p.runner), p);
        assert Timed(Filter(polygons, RunBy(p.runner)));
      }
    }
  }

  /** Every output polygon has its time exactly when every input polygon has one and no two of them overlap. */
  lemma TimesKept(lib: Library, polygons: seq<Polygon>)
    requires lib.Lawful()
    ensures Timed(Clean(lib, polygons)) <==> Timed(polygons) && Unrelated(polygons, Overlapping())
  {
    var sorted := lib.newestFirst(polygons);
    var eaten := EatPass(lib, sorted);
    SortedAlike(lib, polygons);
    EatPassKeeps(lib, sorted);
    OverlapsByRunner(sorted);
    forall r: string
      ensures Timed(Filter(Clean(lib, polygons), RunBy(r)))
         <==> Timed(Filter(eaten, RunBy(r))) && KeptUnrelated(eaten, RunBy(r), Overlapping())
    {
      GroupTimes(lib, polygons, r);
    }
    hide Timed, Unrelated, KeptUnrelated, Clean, EatPass, Filter;
    TimedByRunner(eaten);
    TimedByRunner(Clean(lib, polygons));
  }

  lemma SortedAlike(lib: Library, polygons: seq<Polygon>)
    requires lib.Lawful()
    ensures var sorted := lib.newestFirst(polygons);
            && (Timed(sorted) <==> Timed(polygons))
            && (Unrelated(sorted, Overlapping()) <==> Unrelated(polygons, Overlapping()))
  {
    var sorted := lib.newestFirst(polygons);
    SameMembers(sorted, polygons);
    OverlapPermuted(sorted, polygons);
    OverlapPermuted(polygons, sorted);
  }

  lemma OverlapPermuted(s: seq<Polygon>, t: seq<Polygon>)
    requires multiset(s) == multiset(t)
    ensures Unrelated(s, Overlapping()) ==> Unrelated(t, Overlapping())
  {
    if Unrelated(s, Overlapping()) {
      UnrelatedPermuted(s, t, Overlapping());
    }
  }

  /** Without an overlap cleaning changes nothing but the order: each runner's polygons, newest first. */
  lemma NothingToClean(lib: Library, polygons: seq<Polygon>)
    requires lib.Lawful() && Unrelated(polygons, Overlapping())
    ensures multiset(Clean(lib, polygons)) == multiset(polygons)
    ensures forall r: string ::
              Filter(Clean(lib, polygons), RunBy(r)) == Filter(lib.newestFirst(polygons), RunBy(r))
  {
    var sorted := lib.newestFirst(polygons);
    SortedAlike(lib, polygons);
    OverlapsByRunner(sorted);
    EatPassKeeps(lib, sorted);
    forall r: string ensures Filter(Clean(lib, polygons), RunBy(r)) == Filter(sorted, RunBy(r)) {
      GroupTimes(lib, polygons, r);
    }
    SameByRunner(Clean(lib, polygons), sorted);
  }

  lemma SameByRunner(s: seq<Polygon>, t: seq<Polygon>)
    requires forall r: string :: Filter(s, RunBy(r)) == Filter(t, RunBy(r))
    ensures multiset(s) == multiset(t)
  {
    forall p ensures multiset(s)[p] == multiset(t)[p] {
      FilterCount(s, RunBy(p.runner), p);
      FilterCount(t, RunBy(p.runner), p);
    }
  }

  /** When all polygons have times, only a list without overlaps comes through as it was. */
  lemma CleanPermutes(lib: Library, polygons: seq<Polygon>)
    requires lib.Lawful() && Timed(polygons)
    ensures multiset(Clean(lib, polygons)) == multiset(polygons) <==> Unrelated(polygons, Overlapping())
  {
    TimesKept(lib, polygons);
    if Unrelated(polygons, Overlapping()) {
      NothingToClean(lib, polygons);
    } else if multiset(Clean(lib, polygons)) == multiset(polygons) {
      SameMembers(Clean(lib, polygons), polygons);
      assert false;
    }
  }

  /** A list with distinct times and without overlaps is cleaned once and for all. */
  lemma CleanIdle(lib: Library, polygons: seq<Polygon>)
    requires lib.Lawful() && DistinctTimes(polygons) && Unrelated(polygons, Overlapping())
    ensures Clean(lib, Clean(lib, polygons)) == Clean(lib, polygons)
  {
    NothingToClean(lib, polygons);
    OrderIndependent(lib, polygons, Clean(lib, polygons));
  }

  /** Once two output polygons have been eaten or merged, the times are not distinct any more. */
  lemma TimesLost(lib: Library, polygons: seq<Polygon>, i: nat, j: nat)
    requires lib.Lawful() && i < j < |Clean(lib, polygons)|
    requires Clean(lib, polygons)[i] !in polygons && Clean(lib, polygons)[j] !in polygons
    ensures !DistinctTimes(Clean(lib, polygons))
  {
    hide Clean;
    var r := Clean(lib, polygons);
    CleanTimes(lib, polygons, r[i]);
    CleanTimes(lib, polygons, r[j]);
  }

  /** Times are lost: three runners claim the same ground one after the other, and two of the results have no time. */
  lemma ThreeClaims(lib: Library, ground: seq<Coord>, a: string, b: string, c: string)
    requires lib.Lawful() && ground != [] && a != b && b != c && a != c
    ensures var polygons := [Polygon(ground, a, 3), Polygon(ground, b, 2), Polygon(ground, c, 1)];
            && DistinctTimes(polygons) && !DistinctTimes(Clean(lib, polygons))
            && Filter(Clean(lib, polygons), RunBy(a)) == [Polygon(ground, a, 3)]
            && Filter(Clean(lib, polygons), RunBy(b)) == [Polygon([], b, 0)]
            && Filter(Clean(lib, polygons), RunBy(c)) == [Polygon([], c, 0)]
  {
    var p, q, r := Polygon(ground, a, 3), Polygon(ground, b, 2), Polygon(ground, c, 1);
    var q', r' := Polygon([], b, ZERO_TIME), Polygon([], c, ZERO_TIME);
    hide EatPass, Clean, Filter, DistinctTimes;
    AlreadySorted(lib, [p, q, r]);
    EatThree(lib, p, q, r);
    FilterOfThree(p, q', r');
    LoneCleaned(lib, [p, q, r], p);
    LoneCleaned(lib, [p, q, r], q');
    LoneCleaned(lib, [p, q, r], r');
    TwoTimeless(lib, [p, q, r], q', r');
  }

  lemma EatThree(lib: Library, p: Polygon, q: Polygon, r: Polygon)
    requires lib.Lawful() && p.coords == q.coords == r.coords != []
    requires p.runner != q.runner && q.runner != r.runner && p.runner != r.runner
    ensures EatPass(lib, [p, q, r]) == [p, Polygon([], q.runner, ZERO_TIME), Polygon([], r.runner, ZERO_TIME)]
  {
    hide Eat;
    var q', r' := Polygon([], q.runner, ZERO_TIME), Polygon([], r.runner, ZERO_TIME);
    SwallowedBySame(lib, q, p);
    SwallowedBySame(lib, r, p);
    EatAllOrNothing(lib, r', q');
    assert [p, q, r][..2] == [p, q] && [p, q][..1] == [p] && [p][..0] == [];
    assert [p, q'][..1] == [p];
    assert EatenBy(lib, p, []) == p;
    assert EatPass(lib, [p]) == [p];
    assert EatenBy(lib, q, [p]) == q';
    assert EatPass(lib, [p, q]) == [p, q'];
    assert EatenBy(lib, r, [p]) == r';
    assert EatenBy(lib, r, [p, q']) == r';
  }

  lemma SwallowedBySame(lib: Library, p: Polygon, q: Polygon)
    requires lib.Lawful() && p.coords == q.coords != []
    ensures Eat(lib, p, q) == Polygon([], p.runner, ZERO_TIME)
  {
    assert forall v <- p.coords :: SamePlace(v, v) && IsInside(v, p.coords);
    assert p.coords[0] in p.coords;
    EatAllOrNothing(lib, p, q);
  }

  lemma FilterOfThree(p: Polygon, q: Polygon, r: Polygon)
    requires p.runner != q.runner && q.runner != r.runner && p.runner != r.runner
    ensures Filter([p, q, r], RunBy(p.runner)) == [p]
    ensures Filter([p, q, r], RunBy(q.runner)) == [q]
    ensures Filter([p, q, r], RunBy(r.runner)) == [r]
  {
    FilterThree(p, q, r, RunBy(p.runner));
    FilterThree(p, q, r, RunBy(q.runner));
    FilterThree(p, q, r, RunBy(r.runner));
  }

  lemma TwoTimeless(lib: Library, polygons: seq<Polygon>, p: Polygon, q: Polygon)
    requires lib.Lawful() && p != q && p !in polygons && q !in polygons
    requires p in Filter(Clean(lib, polygons), RunBy(p.runner)) && q in Filter(Clean(lib, polygons), RunBy(q.runner))
    ensures !DistinctTimes(Clean(lib, polygons))
  {
    hide Clean;
    var r := Clean(lib, polygons);
    assert p in r && q in r;
    var i :| 0 <= i < |r| && r[i] == p;
    var j :| 0 <= j < |r| && r[j] == q;
    if i < j {
      TimesLost(lib, polygons, i, j);
    } else {
      TimesLost(lib, polygons, j, i);
    }
  }
}
