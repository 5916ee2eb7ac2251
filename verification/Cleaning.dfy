/** `cleanPolygons`: newer polygons eat older ones of other runners, then each runner's polygons merge. */
module Cleaning {
  import opened GoLibrary
  import opened Runners
  import opened Schema
  import opened Sequences
  import opened Surgery

  // ----- what the code computes

  /** `p` after the polygons of other runners among `claims` have eaten into it, in their order. */
  function EatenBy(lib: Library, p: Polygon, claims: seq<Polygon>): Polygon {
    if claims == [] then p
    else
      var q, claim := EatenBy(lib, p, claims[..|claims| - 1]), claims[|claims| - 1];
      if q.runner == claim.runner then q else Eat(lib, q, claim)
  }

  function EatPass(lib: Library, polygons: seq<Polygon>): (r: seq<Polygon>)
    ensures |r| == |polygons|
  {
    if polygons == [] then []
    else
      var done := EatPass(lib, polygons[..|polygons| - 1]);
      done + [EatenBy(lib, polygons[|polygons| - 1], done)]
  }

  /** A runner's polygons with one more: merged into the first that takes it, or else at the end. */
  function MergeInto(lib: Library, data: seq<Polygon>, polygon: Polygon): seq<Polygon> {
    if data == [] then [polygon]
    else
      var (newPolygon, canBeMerged) := Merge(lib, polygon, data[0]);
      if canBeMerged then [newPolygon] + data[1..] else [data[0]] + MergeInto(lib, data[1..], polygon)
  }

  type Groups = map<string, seq<Polygon>>

  function MergePass(lib: Library, polygons: seq<Polygon>): Groups {
    if polygons == [] then map[]
    else
      var groups, polygon := MergePass(lib, polygons[..|polygons| - 1]), polygons[|polygons| - 1];
      groups[polygon.runner := MergeInto(lib, Lookup(groups, polygon.runner), polygon)]
  }

  function Flatten(groups: Groups, runners: seq<string>): seq<Polygon> {
    if runners == [] then []
    else Flatten(groups, runners[..|runners| - 1]) + Lookup(groups, runners[|runners| - 1])
  }

  ghost function Clean(lib: Library, polygons: seq<Polygon>): seq<Polygon> {
    var groups := MergePass(lib, EatPass(lib, lib.newestFirst(polygons)));
    Flatten(groups, Ascending(groups.Keys))
  }

  method CleanPolygons(lib: Library, polygons: seq<Polygon>) returns (cleanedPolygonsMergedList: seq<Polygon>)
    ensures cleanedPolygonsMergedList == Clean(lib, polygons)
  {
    var sorted := lib.newestFirst(polygons);
    var cleanedPolygons := EatOlder(lib, sorted);
    var cleanedPolygonsMerged := MergeByRunner(lib, cleanedPolygons);
    var runners := KeysOf(cleanedPolygonsMerged);
    runners := Sort(runners);
    cleanedPolygonsMergedList := AppendGroups(cleanedPolygonsMerged, runners);
  }

  /** The loop that collects the keys of the map, in the arbitrary order of Go's map iteration. */
  method KeysOf(groups: Groups) returns (runners: seq<string>)
    ensures Distinct(runners)
    ensures (set x <- runners) == groups.Keys
  {
    runners := [];
    var keys := groups.Keys;
    while keys != {}
      invariant keys <= groups.Keys
      invariant Distinct(runners)
      invariant forall x :: x in runners <==> x in groups.Keys - keys
      decreases keys
    {
      var runner :| runner in keys;
      assert runner !in runners;
      keys := keys - {runner};
      runners := runners + [runner];
    }
  }

  /** The loops that append the groups one after the other. */
  method AppendGroups(groups: Groups, runners: seq<string>) returns (r: seq<Polygon>)
    requires forall x <- runners :: x in groups
    ensures r == Flatten(groups, runners)
  {
    r := [];
    for i := 0 to |runners|
      invariant r == Flatten(groups, runners[..i])
    {
      assert runners[..i + 1][..i] == runners[..i];
      var polygons := groups[runners[i]];
      for k := 0 to |polygons|
        invariant r == Flatten(groups, runners[..i]) + polygons[..k]
      {
        r := r + [polygons[k]];
      }
    }
    assert runners[..|runners|] == runners;
  }

  /** The first pair of loops of `cleanPolygons`. */
  method EatOlder(lib: Library, polygons: seq<Polygon>) returns (cleanedPolygons: seq<Polygon>)
    ensures cleanedPolygons == EatPass(lib, polygons)
  {
    cleanedPolygons := [];
    for i := 0 to |polygons|
      invariant cleanedPolygons == EatPass(lib, polygons[..i])
    {
      assert polygons[..i + 1][..i] == polygons[..i];
      var polygon := EatByEach(lib, polygons[i], cleanedPolygons);
      cleanedPolygons := cleanedPolygons + [polygon];
    }
    assert polygons[..|polygons|] == polygons;
  }

  /** The inner loop: the polygons cleaned so far eat into one more. */
  method EatByEach(lib: Library, p: Polygon, cleanedPolygons: seq<Polygon>) returns (polygon: Polygon)
    ensures polygon == EatenBy(lib, p, cleanedPolygons)
  {
    hide Eat;
    polygon := p;
    for j := 0 to |cleanedPolygons|
      invariant polygon == EatenBy(lib, p, cleanedPolygons[..j])
    {
      assert cleanedPolygons[..j + 1][..j] == cleanedPolygons[..j];
      if polygon.runner == cleanedPolygons[j].runner {
        continue;
      }
      polygon := EatPolygon(lib, polygon, cleanedPolygons[j]);
    }
    assert cleanedPolygons[..|cleanedPolygons|] == cleanedPolygons;
  }

  /** The second pair of loops of `cleanPolygons`. */
  method MergeByRunner(lib: Library, polygons: seq<Polygon>) returns (groups: Groups)
    ensures groups == MergePass(lib, polygons)
  {
    groups := map[];
    for i := 0 to |polygons|
      invariant groups == MergePass(lib, polygons[..i])
    {
      assert polygons[..i + 1][..i] == polygons[..i];
      var polygon := polygons[i];
      if polygon.runner !in groups {
        groups := groups[polygon.runner := [polygon]];
        continue;
      }
      var data := MergeOne(lib, groups[polygon.runner], polygon);
      groups := groups[polygon.runner := data];
    }
    assert polygons[..|polygons|] == polygons;
  }

  /** The search through a runner's polygons; the slice `data` of the code is the one stored in the map. */
  method MergeOne(lib: Library, data: seq<Polygon>, polygon: Polygon) returns (r: seq<Polygon>)
    ensures r == MergeInto(lib, data, polygon)
  {
    for idx := 0 to |data|
      invariant Passed(lib, data, idx, polygon)
    {
      MergeIntoStep(lib, data, idx, polygon);
      var newPolygon, canBeMerged := MergePolygons(lib, polygon, data[idx]);
      if canBeMerged {
        return data[idx := newPolygon];
      }
    }
    PassedAll(lib, data, polygon);
    return data + [polygon];
  }

  /** None of the first `idx` polygons takes `polygon`. */
  ghost predicate Passed(lib: Library, data: seq<Polygon>, idx: nat, polygon: Polygon)
    requires idx <= |data|
  {
    MergeInto(lib, data, polygon) == data[..idx] + MergeInto(lib, data[idx..], polygon)
  }

  lemma MergeIntoSuffix(lib: Library, data: seq<Polygon>, idx: nat, polygon: Polygon)
    requires idx < |data|
    ensures MergeInto(lib, data[idx..], polygon)
         == if Merge(lib, polygon, data[idx]).1 then [Merge(lib, polygon, data[idx]).0] + data[idx + 1..]
            else [data[idx]] + MergeInto(lib, data[idx + 1..], polygon)
  {
  }

  lemma MergeIntoStep(lib: Library, data: seq<Polygon>, idx: nat, polygon: Polygon)
    requires idx < |data| && Passed(lib, data, idx, polygon)
    ensures Merge(lib, polygon, data[idx]).1 ==>
              MergeInto(lib, data, polygon) == data[idx := Merge(lib, polygon, data[idx]).0]
    ensures !Merge(lib, polygon, data[idx]).1 ==> Passed(lib, data, idx + 1, polygon)
  {
    MergeIntoSuffix(lib, data, idx, polygon);
    Recombine(data, idx, Merge(lib, polygon, data[idx]).0, MergeInto(lib, data[idx + 1..], polygon));
  }

  lemma PassedAll(lib: Library, data: seq<Polygon>, polygon: Polygon)
    requires Passed(lib, data, |data|, polygon)
    ensures MergeInto(lib, data, polygon) == data + [polygon]
  {
  }

  /** A polygon merges into the first of its runner's polygons that it overlaps, which it replaces, or comes last. */
  lemma MergeIntoAt(lib: Library, data: seq<Polygon>, p: Polygon, k: nat)
    requires lib.Lawful() && k <= |data|
    requires forall j :: 0 <= j < k ==> !Overlap(p.coords, data[j].coords)
    requires k < |data| ==> Overlap(p.coords, data[k].coords)
    ensures MergeInto(lib, data, p) == if k < |data| then data[k := Merge(lib, p, data[k]).0] else data + [p]
  {
    hide Merge, MergeInto, Overlap;
    PassedBefore(lib, data, p, k);
    if k < |data| {
      MergeLaw(lib, p, data[k]);
      MergeIntoStep(lib, data, k, p);
    } else {
      PassedAll(lib, data, p);
    }
  }

  lemma {:induction false} PassedBefore(lib: Library, data: seq<Polygon>, p: Polygon, k: nat)
    requires lib.Lawful() && k <= |data|
    requires forall j :: 0 <= j < k ==> !Overlap(p.coords, data[j].coords)
    ensures Passed(lib, data, k, p)
  {
    hide Merge, MergeInto, Overlap;
    if k > 0 {
      PassedBefore(lib, data, p, k - 1);
      MergeLaw(lib, p, data[k - 1]);
      MergeIntoStep(lib, data, k - 1, p);
    } else {
      assert data[0..] == data;
    }
  }

  /** The eating polygons come one after the other. */
  lemma {:induction false} EatenByJoin(lib: Library, p: Polygon, first: seq<Polygon>, second: seq<Polygon>)
    ensures EatenBy(lib, p, first + second) == EatenBy(lib, EatenBy(lib, p, first), second)
  {
    hide Eat;
    if second == [] {
      assert first + second == first;
    } else {
      EatenByJoin(lib, p, first, second[..|second| - 1]);
      assert (first + second)[..|first + second| - 1] == first + second[..|second| - 1];
    }
  }

  lemma EatenByOne(lib: Library, p: Polygon, claim: Polygon)
    ensures EatenBy(lib, p, [claim]) == if p.runner == claim.runner then p else Eat(lib, p, claim)
  {
    hide Eat;
    assert [claim][..0] == [] && EatenBy(lib, p, []) == p;
  }

  /** Each polygon is eaten by what eating has left of the polygons before it, in their order. */
  lemma {:induction false} EatPassAt(lib: Library, polygons: seq<Polygon>, i: nat)
    requires i < |polygons|
    ensures EatPass(lib, polygons)[i] == EatenBy(lib, polygons[i], EatPass(lib, polygons)[..i])
  {
    hide EatenBy;
    var front := polygons[..|polygons| - 1];
    assert EatPass(lib, polygons)[..|front|] == EatPass(lib, front);
    if i < |front| {
      EatPassAt(lib, front, i);
      assert EatPass(lib, polygons)[..i] == EatPass(lib, front)[..i];
    }
  }

  // ----- runner by runner

  function RunBy(runner: string): Polygon -> bool {
    (p: Polygon) => p.runner == runner
  }

  function MergeList(lib: Library, polygons: seq<Polygon>): seq<Polygon> {
    if polygons == [] then []
    else MergeInto(lib, MergeList(lib, polygons[..|polygons| - 1]), polygons[|polygons| - 1])
  }

  /** The merge pass treats every runner by themselves. */
  lemma {:induction false} GroupLaw(lib: Library, polygons: seq<Polygon>, runner: string)
    ensures Lookup(MergePass(lib, polygons), runner) == MergeList(lib, Filter(polygons, RunBy(runner)))
  {
    if polygons != [] {
      var front, last := polygons[..|polygons| - 1], polygons[|polygons| - 1];
      var mine := Filter(front, RunBy(runner));
      GroupLaw(lib, front, runner);
      MergeListExtend(lib, mine, last);
      assert Filter(polygons, RunBy(runner)) == if last.runner == runner then mine + [last] else mine;
    }
  }

  lemma MergeListExtend(lib: Library, polygons: seq<Polygon>, p: Polygon)
    ensures MergeList(lib, polygons + [p]) == MergeInto(lib, MergeList(lib, polygons), p)
  {
  }

  /** One more polygon touches its own runner's group only. */
  lemma GroupStep(lib: Library, polygons: seq<Polygon>, p: Polygon, runner: string)
    ensures Lookup(MergePass(lib, polygons + [p]), runner)
         == var before := Lookup(MergePass(lib, polygons), runner);
            if runner == p.runner then MergeInto(lib, before, p) else before
  {
    assert (polygons + [p])[..|polygons|] == polygons;
    hide MergeInto;
  }

  ghost predicate ByRunner(groups: Groups) {
    forall r, i :: r in groups && 0 <= i < |groups[r]| ==> groups[r][i].runner == r
  }

  lemma MergedRunner(lib: Library, p: Polygon, q: Polygon)
    ensures Merge(lib, p, q).0.runner == p.runner
  {
  }

  lemma {:induction false} MergeIntoLaw(lib: Library, data: seq<Polygon>, p: Polygon)
    ensures var r := MergeInto(lib, data, p);
            && 1 <= |r| && |data| <= |r| <= |data| + 1
            && ((forall d <- data :: d.runner == p.runner) ==> forall d <- r :: d.runner == p.runner)
  {
    hide Merge;
    if data != [] {
      MergeIntoLaw(lib, data[1..], p);
      MergedRunner(lib, p, data[0]);
      assert data == [data[0]] + data[1..];
    }
  }

  lemma {:induction false} MergeListLaw(lib: Library, polygons: seq<Polygon>, runner: string)
    requires forall p <- polygons :: p.runner == runner
    ensures var r := MergeList(lib, polygons);
            && |r| <= |polygons| && (polygons != [] ==> r != [])
            && forall p <- r :: p.runner == runner
  {
    if polygons != [] {
      MergeListLaw(lib, polygons[..|polygons| - 1], runner);
      MergeIntoLaw(lib, MergeList(lib, polygons[..|polygons| - 1]), polygons[|polygons| - 1]);
    }
  }

  lemma EatenRunner(lib: Library, p: Polygon, q: Polygon)
    ensures Eat(lib, p, q).runner == p.runner
  {
  }

  lemma {:induction false} EatenByRunner(lib: Library, p: Polygon, claims: seq<Polygon>)
    ensures EatenBy(lib, p, claims).runner == p.runner
  {
    if claims != [] {
      EatenByRunner(lib, p, claims[..|claims| - 1]);
      EatenRunner(lib, EatenBy(lib, p, claims[..|claims| - 1]), claims[|claims| - 1]);
    }
  }

  lemma {:induction false} EatPassRunners(lib: Library, polygons: seq<Polygon>)
    ensures forall i :: 0 <= i < |polygons| ==> EatPass(lib, polygons)[i].runner == polygons[i].runner
  {
    hide EatenBy;
    if polygons != [] {
      EatPassRunners(lib, polygons[..|polygons| - 1]);
      EatenByRunner(lib, polygons[|polygons| - 1], EatPass(lib, polygons[..|polygons| - 1]));
    }
  }

  lemma {:induction false} EatPassFirst(lib: Library, polygons: seq<Polygon>)
    requires polygons != []
    ensures EatPass(lib, polygons)[0] == polygons[0]
  {
    if |polygons| > 1 {
      EatPassFirst(lib, polygons[..|polygons| - 1]);
    }
  }

  lemma {:induction false} SameRunnersSameCount(s: seq<Polygon>, t: seq<Polygon>, runner: string)
    requires |s| == |t| && forall i :: 0 <= i < |s| ==> s[i].runner == t[i].runner
    ensures |Filter(s, RunBy(runner))| == |Filter(t, RunBy(runner))|
  {
    if s != [] {
      SameRunnersSameCount(s[..|s| - 1], t[..|t| - 1], runner);
    }
  }

  /** The runner's part of the result. */
  lemma {:induction false} FlattenGroups(groups: Groups, runners: seq<string>, runner: string)
    requires ByRunner(groups)
    requires Distinct(runners)
    ensures Filter(Flatten(groups, runners), RunBy(runner)) == if runner in runners then Lookup(groups, runner) else []
  {
    if runners != [] {
      FlattenGroups(groups, runners[..|runners| - 1], runner);
      FlattenLast(groups, runners, runner);
      LastOrFront(runners, runner);
      hide Flatten, ByRunner, Lookup, Filter;
      if runners[|runners| - 1] == runner {
        assert runner !in runners[..|runners| - 1];
      }
    }
  }

  lemma FlattenLast(groups: Groups, runners: seq<string>, runner: string)
    requires ByRunner(groups) && runners != []
    ensures var front, last := runners[..|runners| - 1], runners[|runners| - 1];
            Filter(Flatten(groups, runners), RunBy(runner))
            == Filter(Flatten(groups, front), RunBy(runner)) + if last == runner then Lookup(groups, last) else []
  {
    var front, last := runners[..|runners| - 1], runners[|runners| - 1];
    assert Flatten(groups, runners) == Flatten(groups, front) + Lookup(groups, last);
    hide Flatten, ByRunner, Lookup, Filter;
    FilterAppend(Flatten(groups, front), Lookup(groups, last), RunBy(runner));
    GroupFilter(groups, last, runner);
  }

  lemma LastOrFront(runners: seq<string>, runner: string)
    requires runners != []
    ensures runner in runners <==> runner in runners[..|runners| - 1] || runner == runners[|runners| - 1]
  {
  }

  lemma GroupFilter(groups: Groups, r: string, runner: string)
    requires ByRunner(groups)
    ensures Filter(Lookup(groups, r), RunBy(runner)) == if r == runner then Lookup(groups, r) else []
  {
    assert forall p <- Lookup(groups, r) :: p.runner == r;
    FilterAll(Lookup(groups, r), RunBy(runner));
    FilterNone(Lookup(groups, r), RunBy(runner));
  }

  lemma GroupsByRunner(lib: Library, polygons: seq<Polygon>)
    ensures ByRunner(MergePass(lib, polygons))
  {
    var groups: map<string, seq<Polygon>> := MergePass(lib, polygons);
    forall r: string, i: int | r in groups && 0 <= i < |groups[r]| ensures groups[r][i].runner == r {
      GroupLaw(lib, polygons, r);
      MergeListLaw(lib, Filter(polygons, RunBy(r)), r);
      assert groups[r][i] in MergeList(lib, Filter(polygons, RunBy(r)));
    }
  }

  /** What becomes of one runner's polygons. */
  lemma CleanedOf(lib: Library, polygons: seq<Polygon>, runner: string)
    ensures Filter(Clean(lib, polygons), RunBy(runner))
         == MergeList(lib, Filter(EatPass(lib, lib.newestFirst(polygons)), RunBy(runner)))
  {
    var eaten := EatPass(lib, lib.newestFirst(polygons));
    var groups := MergePass(lib, eaten);
    GroupsByRunner(lib, eaten);
    FlattenGroups(groups, Ascending(groups.Keys), runner);
    GroupLaw(lib, eaten, runner);
  }

  /** Every runner keeps between one and their number of polygons, and nobody else appears. */
  lemma RunnersKept(lib: Library, polygons: seq<Polygon>, runner: string)
    requires lib.Lawful()
    ensures var before, after := |Filter(polygons, RunBy(runner))|, |Filter(Clean(lib, polygons), RunBy(runner))|;
            after <= before && (before > 0 ==> after > 0)
  {
    var sorted := lib.newestFirst(polygons);
    var eaten := EatPass(lib, sorted);
    CleanedOf(lib, polygons, runner);
    EatPassRunners(lib, sorted);
    SameRunnersSameCount(eaten, sorted, runner);
    FilterPermuted(sorted, polygons, RunBy(runner));
    MergeListLaw(lib, Filter(eaten, RunBy(runner)), runner);
  }

  ghost predicate RunnersAscend(polygons: seq<Polygon>) {
    forall i, j :: 0 <= i < j < |polygons| ==>
      polygons[i].runner == polygons[j].runner || Precedes(polygons[i].runner, polygons[j].runner)
  }

  lemma {:induction false} FlattenAscending(groups: Groups, runners: seq<string>)
    requires ByRunner(groups) && StrictlyAscending(runners, Before())
    ensures forall i :: 0 <= i < |Flatten(groups, runners)| ==> Flatten(groups, runners)[i].runner in runners
    ensures RunnersAscend(Flatten(groups, runners))
  {
    if runners != [] {
      var front, last := runners[..|runners| - 1], runners[|runners| - 1];
      FlattenAscending(groups, front);
      var init, mine := Flatten(groups, front), Lookup(groups, last);
      assert runners == front + [last];
      AscendingPrecedes(runners);
      hide Precedes;
      forall x <- front ensures Precedes(x, last) {
        var k :| 0 <= k < |front| && front[k] == x;
        assert runners[k] == x;
      }
    }
  }

  /** The result is grouped by runner, in ascending order of names. */
  lemma CleanGrouped(lib: Library, polygons: seq<Polygon>)
    ensures RunnersAscend(Clean(lib, polygons))
  {
    var eaten := EatPass(lib, lib.newestFirst(polygons));
    GroupsByRunner(lib, eaten);
    FlattenAscending(MergePass(lib, eaten), Ascending(MergePass(lib, eaten).Keys));
  }

  // ----- vertex by vertex

  function Vertices(polygons: seq<Polygon>): multiset<Coord> {
    if polygons == [] then multiset{}
    else Vertices(polygons[..|polygons| - 1]) + multiset(polygons[|polygons| - 1].coords)
  }

  lemma {:induction false} VerticesAppend(s: seq<Polygon>, t: seq<Polygon>)
    ensures Vertices(s + t) == Vertices(s) + Vertices(t)
  {
    if t == [] {
      assert s + t == s;
    } else {
      var front, last := t[..|t| - 1], t[|t| - 1];
      VerticesAppend(s, front);
      hide Vertices;
      VerticesExtend(s + front, last);
      VerticesExtend(front, last);
      SplitLast(s, t);
    }
  }

  lemma VerticesExtend(s: seq<Polygon>, p: Polygon)
    ensures Vertices(s + [p]) == Vertices(s) + multiset(p.coords)
  {
  }

  lemma VerticesOfOne(p: Polygon)
    ensures Vertices([p]) == multiset(p.coords)
  {
  }

  lemma {:induction false} VerticesMember(s: seq<Polygon>, c: Coord)
    ensures c in Vertices(s) <==> exists p <- s :: c in p.coords
  {
    if s != [] {
      VerticesMember(s[..|s| - 1], c);
      assert s == s[..|s| - 1] + [s[|s| - 1]];
    }
  }

  lemma MergeShrinks(lib: Library, p: Polygon, q: Polygon)
    requires lib.Lawful() && Merge(lib, p, q).1
    ensures multiset(Merge(lib, p, q).0.coords) <= multiset(p.coords) + multiset(q.coords)
  {
    MergeLaw(lib, p, q);
    FilterShrinks(p.coords, Out(q.coords));
    FilterShrinks(q.coords, Out(p.coords));
  }

  lemma FilterShrinks<T(!new)>(s: seq<T>, keep: T -> bool)
    ensures multiset(Filter(s, keep)) <= multiset(s)
  {
    forall x ensures multiset(Filter(s, keep))[x] <= multiset(s)[x] {
      FilterCount(s, keep, x);
    }
  }

  lemma {:induction false} MergeIntoShrinks(lib: Library, data: seq<Polygon>, p: Polygon)
    requires lib.Lawful()
    ensures Vertices(MergeInto(lib, data, p)) <= Vertices(data) + multiset(p.coords)
  {
    if data == [] {
      VerticesOfOne(p);
    } else {
      assert data == [data[0]] + data[1..];
      VerticesAppend([data[0]], data[1..]);
      VerticesOfOne(data[0]);
      if Merge(lib, p, data[0]).1 {
        MergeShrinks(lib, p, data[0]);
        VerticesAppend([Merge(lib, p, data[0]).0], data[1..]);
        VerticesOfOne(Merge(lib, p, data[0]).0);
      } else {
        MergeIntoShrinks(lib, data[1..], p);
        VerticesAppend([data[0]], MergeInto(lib, data[1..], p));
      }
    }
  }

  /** Merging never adds to a runner's vertices, counted with multiplicity. */
  lemma {:induction false} MergeListShrinks(lib: Library, polygons: seq<Polygon>)
    requires lib.Lawful()
    ensures Vertices(MergeList(lib, polygons)) <= Vertices(polygons)
  {
    if polygons != [] {
      MergeListShrinks(lib, polygons[..|polygons| - 1]);
      MergeIntoShrinks(lib, MergeList(lib, polygons[..|polygons| - 1]), polygons[|polygons| - 1]);
    }
  }

  /** The vertices that cleaning leaves a runner are among those the eating left them. */
  lemma MergeNeverAdds(lib: Library, polygons: seq<Polygon>, runner: string)
    requires lib.Lawful()
    ensures Vertices(Filter(Clean(lib, polygons), RunBy(runner)))
         <= Vertices(Filter(EatPass(lib, lib.newestFirst(polygons)), RunBy(runner)))
  {
    CleanedOf(lib, polygons, runner);
    MergeListShrinks(lib, Filter(EatPass(lib, lib.newestFirst(polygons)), RunBy(runner)));
  }

  lemma {:induction false} EatenByVertices(lib: Library, p: Polygon, claims: seq<Polygon>, c: Coord)
    requires lib.Lawful() && c in EatenBy(lib, p, claims).coords
    ensures c in p.coords || exists q <- claims :: c in q.coords
  {
    hide Eat;
    if claims != [] {
      var front, claim := claims[..|claims| - 1], claims[|claims| - 1];
      var q := EatenBy(lib, p, front);
      if q.runner != claim.runner {
        EatenVertices(lib, q, claim, c);
      }
      if c in q.coords {
        EatenByVertices(lib, p, front, c);
      }
      assert claims == front + [claim];
    }
  }

  lemma {:induction false} EatPassVertices(lib: Library, polygons: seq<Polygon>, p: Polygon, c: Coord)
    requires lib.Lawful() && p in EatPass(lib, polygons) && c in p.coords
    ensures exists q <- polygons :: c in q.coords
  {
    hide EatenBy;
    var front, last := polygons[..|polygons| - 1], polygons[|polygons| - 1];
    var done := EatPass(lib, front);
    assert polygons == front + [last];
    if p in done {
      EatPassVertices(lib, front, p, c);
    } else {
      EatenByVertices(lib, last, done, c);
      if c !in last.coords {
        var q :| q in done && c in q.coords;
        EatPassVertices(lib, front, q, c);
      }
    }
  }

  /** Cleaning invents no vertex: each one of the result, time stamp included, is a vertex of some input. */
  lemma CleanVertices(lib: Library, polygons: seq<Polygon>, p: Polygon, c: Coord)
    requires lib.Lawful() && p in Clean(lib, polygons) && c in p.coords
    ensures exists q <- polygons :: c in q.coords
  {
    var sorted := lib.newestFirst(polygons);
    var eaten := EatPass(lib, sorted);
    FilterMember(Clean(lib, polygons), RunBy(p.runner), p);
    MergeNeverAdds(lib, polygons, p.runner);
    VerticesMember(Filter(Clean(lib, polygons), RunBy(p.runner)), c);
    VerticesMember(Filter(eaten, RunBy(p.runner)), c);
    var e :| e in Filter(eaten, RunBy(p.runner)) && c in e.coords;
    EatPassVertices(lib, sorted, e, c);
    SameMembers(sorted, polygons);
  }

  // ----- order independence

  ghost predicate DistinctTimes(polygons: seq<Polygon>) {
    forall i, j :: 0 <= i < j < |polygons| ==> polygons[i].time != polygons[j].time
  }

  function Age(): Polygon -> int {
    (p: Polygon) => -p.time
  }

  /** With pairwise distinct times the order of the input polygons does not matter. */
  lemma OrderIndependent(lib: Library, s: seq<Polygon>, t: seq<Polygon>)
    requires lib.Lawful() && multiset(s) == multiset(t) && DistinctTimes(s)
    ensures Clean(lib, s) == Clean(lib, t)
  {
    DistinctKeysPermuted(s, lib.newestFirst(s), Age());
    SortedByDistinctKeys(lib.newestFirst(s), lib.newestFirst(t), Age());
  }

  lemma AlreadySorted(lib: Library, polygons: seq<Polygon>)
    requires lib.Lawful() && forall i, j :: 0 <= i < j < |polygons| ==> polygons[i].time > polygons[j].time
    ensures lib.newestFirst(polygons) == polygons && DistinctTimes(polygons)
  {
    SortedByDistinctKeys(polygons, lib.newestFirst(polygons), Age());
  }

  // ----- the newest claim

  /** What is left of a runner's only polygon is not merged with anything. */
  lemma LoneCleaned(lib: Library, polygons: seq<Polygon>, p: Polygon)
    requires Filter(EatPass(lib, lib.newestFirst(polygons)), RunBy(p.runner)) == [p]
    ensures Filter(Clean(lib, polygons), RunBy(p.runner)) == [p]
  {
    CleanedOf(lib, polygons, p.runner);
    MergeListExtend(lib, [], p);
    assert [] + [p] == [p];
  }

  /** A polygon newer than all others, the only one of its runner, comes through untouched. */
  lemma NewestUntouched(lib: Library, polygons: seq<Polygon>, p: Polygon)
    requires lib.Lawful() && p in polygons
    requires |Filter(polygons, RunBy(p.runner))| == 1
    requires forall q <- polygons :: q == p || q.time < p.time
    ensures p in Clean(lib, polygons)
    ensures Filter(Clean(lib, polygons), RunBy(p.runner)) == [p]
  {
    var sorted := lib.newestFirst(polygons);
    var eaten := EatPass(lib, sorted);
    NewestIsFirst(sorted, polygons, p);
    EatPassFirst(lib, sorted);
    EatPassRunners(lib, sorted);
    SameRunnersSameCount(eaten, sorted, p.runner);
    FilterPermuted(sorted, polygons, RunBy(p.runner));
    OnlyOne(eaten, RunBy(p.runner), p);
    LoneCleaned(lib, polygons, p);
    FilterMember(Clean(lib, polygons), RunBy(p.runner), p);
  }

  lemma OnlyOne<T>(s: seq<T>, keep: T -> bool, x: T)
    requires x in s && keep(x) && |Filter(s, keep)| == 1
    ensures Filter(s, keep) == [x]
  {
    FilterMember(s, keep, x);
  }

  lemma NewestIsFirst(sorted: seq<Polygon>, polygons: seq<Polygon>, p: Polygon)
    requires multiset(sorted) == multiset(polygons) && NewestFirst(sorted) && p in polygons
    requires forall q <- polygons :: q == p || q.time < p.time
    ensures sorted != [] && sorted[0] == p
  {
    SameMembers(sorted, polygons);
    var k :| 0 <= k < |sorted| && sorted[k] == p;
    assert sorted[0] in sorted;
    assert k > 0 ==> sorted[0].time >= sorted[k].time;
  }
}
