/** What `processData` guarantees end to end, for every order in which Go iterates over the map of claims. */
module Guarantees {
  import opened Cleaning
  import opened GoLibrary
  import opened LiveLines
  import opened Pipeline
  import opened Runners
  import opened Schema
  import opened Sequences
  import opened Times

  // ----- the claim of a user

  function ClaimOf(lib: Library, lines: seq<LiveLine>, user: string): Polygon {
    ClaimBy(lib, lines)(user)
  }

  lemma ClaimIsTrack(lib: Library, config: Config, lines: seq<LiveLine>, user: string)
    requires lib.Lawful() && user in Claimants(lib, config, lines)
    ensures var mine, track := Filter(lines, SentBy(user)), Track(lib, lines, user);
            && track != [] && ClaimOf(lib, lines, user) == ToPolygon(track)
            && multiset(track) == multiset(mine) && (forall line :: line in track <==> line in mine)
  {
    var mine, track := Filter(lines, SentBy(user)), Track(lib, lines, user);
    ClaimantTrack(lib, config, lines, user);
    assert ClaimOf(lib, lines, user) == ToPolygons()(track);
    TrackPermuted(lib, mine);
    SameMembers(mine, track);
  }

  lemma ClaimantTrack(lib: Library, config: Config, lines: seq<LiveLine>, user: string)
    requires user in Claimants(lib, config, lines)
    ensures |Track(lib, lines, user)| >= 2
  {
  }

  lemma TrackPermuted(lib: Library, mine: seq<LiveLine>)
    requires lib.Lawful()
    ensures multiset(lib.oldestFirst(mine)) == multiset(mine)
  {
  }

  /** A claimant's polygon is made of all of the claimant's lines and no others, one vertex per line in the order of
      time, and is as late as the latest. */
  lemma ClaimLaw(lib: Library, config: Config, lines: seq<LiveLine>, user: string)
    requires lib.Lawful() && user in Claimants(lib, config, lines)
    ensures var p := ClaimOf(lib, lines, user);
            && p.runner == user
            && multiset(p.coords) == multiset(Apply(Filter(lines, SentBy(user)), CoordOf()))
            && (var track := lib.oldestFirst(Filter(lines, SentBy(user)));
                |p.coords| == |track| == |Filter(lines, SentBy(user))|
                && forall k :: 0 <= k < |track| ==> p.coords[k] == Coord(track[k].x, track[k].y, track[k].time))
            && (forall j, k :: 0 <= j < k < |p.coords| ==> p.coords[j].time <= p.coords[k].time)
            && (forall line <- lines :: line.sender == user ==> line.time <= p.time)
            && exists line <- lines :: line.sender == user && line.time == p.time
  {
    ClaimIsTrack(lib, config, lines, user);
    hide Claimants, ToPolygon, Filter, Apply;
    ClaimMembers(lib, lines, user);
    ClaimInOrder(lib, lines, user);
  }

  lemma ClaimMembers(lib: Library, lines: seq<LiveLine>, user: string)
    requires lib.Lawful() && Track(lib, lines, user) != []
    ensures var p := ToPolygon(Track(lib, lines, user));
            && p.runner == user
            && multiset(p.coords) == multiset(Apply(Filter(lines, SentBy(user)), CoordOf()))
            && (forall line <- lines :: line.sender == user ==> line.time <= p.time)
            && exists line <- lines :: line.sender == user && line.time == p.time
  {
    var mine, track := Filter(lines, SentBy(user)), Track(lib, lines, user);
    TrackPermuted(lib, mine);
    SameMembers(mine, track);
    ApplyPermuted(track, mine, CoordOf());
    assert track[0] in track && track[0] in mine;
    forall line <- lines | line.sender == user ensures line.time <= MaxTime(track) {
      FilterMember(lines, SentBy(user), line);
    }
  }

  lemma ClaimInOrder(lib: Library, lines: seq<LiveLine>, user: string)
    requires lib.Lawful() && Track(lib, lines, user) != []
    ensures var p, track := ToPolygon(Track(lib, lines, user)), lib.oldestFirst(Filter(lines, SentBy(user)));
            && |p.coords| == |track| == |Filter(lines, SentBy(user))|
            && (forall k :: 0 <= k < |track| ==> p.coords[k] == Coord(track[k].x, track[k].y, track[k].time))
            && forall j, k :: 0 <= j < k < |p.coords| ==> p.coords[j].time <= p.coords[k].time
  {
    var mine, track := Filter(lines, SentBy(user)), Track(lib, lines, user);
    TrackPermuted(lib, mine);
    SameLength(track, mine);
    ToPolygonLaw(track);
    hide ToPolygon;
    assert OldestFirst(track);
  }

  /** Every line of a claimant is inside the claim. */
  lemma ClaimHoldsItsLines(lib: Library, config: Config, lines: seq<LiveLine>, line: LiveLine)
    requires lib.Lawful() && line in lines && line.sender in Claimants(lib, config, lines)
    ensures Holds(ClaimOf(lib, lines, line.sender), line)
  {
    ClaimIsTrack(lib, config, lines, line.sender);
    FilterMember(lines, SentBy(line.sender), line);
    VertexOfLine(Track(lib, lines, line.sender), line);
  }

  lemma VertexOfLine(track: seq<LiveLine>, line: LiveLine)
    requires line in track
    ensures Holds(ToPolygon(track), line)
  {
    var k :| 0 <= k < |track| && track[k] == line;
    var coords := ToPolygon(track).coords;
    assert coords[k] == CoordOf()(line);
    assert coords[k] in coords && SamePlace(coords[k], PointOf(line));
  }

  // ----- newest claim wins

  lemma ClaimListed(lib: Library, lines: seq<LiveLine>, stored: seq<Polygon>, order: seq<string>, user: string)
    requires user in order
    ensures ClaimOf(lib, lines, user) in AllPolygons(lib, lines, stored, order)
  {
  }

  lemma {:induction false} OneClaimEach(lib: Library, config: Config, lines: seq<LiveLine>,
                  order: seq<string>, user: string)
    requires lib.Lawful() && Distinct(order)
    requires forall k :: 0 <= k < |order| ==> order[k] in Claimants(lib, config, lines)
    ensures |Filter(Apply(order, ClaimBy(lib, lines)), RunBy(user))| == if user in order then 1 else 0
  {
    hide Claimants, ToPolygon, Track;
    if order != [] {
      var front, last := order[..|order| - 1], order[|order| - 1];
      OneClaimEach(lib, config, lines, front, user);
      assert order == front + [last];
      ApplyAppend(front, [last], ClaimBy(lib, lines));
      ClaimLaw(lib, config, lines, last);
      FilterSingle(Apply(front, ClaimBy(lib, lines)), ClaimBy(lib, lines)(last), RunBy(user));
    }
  }

  lemma FilterSingle<T>(s: seq<T>, x: T, keep: T -> bool)
    ensures |Filter(s + [x], keep)| == |Filter(s, keep)| + if keep(x) then 1 else 0
  {
  }

  /** The claim of `user` is newer than every stored polygon and than every other claim. */
  ghost predicate NewestClaim(lib: Library, config: Config, lines: seq<LiveLine>, stored: seq<Polygon>, user: string) {
    && user in Claimants(lib, config, lines)
    && (forall q <- stored :: q.time < ClaimOf(lib, lines, user).time)
    && forall other <- Claimants(lib, config, lines) | other != user ::
         ClaimOf(lib, lines, other).time < ClaimOf(lib, lines, user).time
  }

  /** A runner without stored polygon whose claim is the newest gets it whole, and has no live line left. */
  lemma NewestClaimWins(lib: Library, config: Config, lines: seq<LiveLine>, stored: seq<Polygon>,
                  order: seq<string>, user: string)
    requires lib.Lawful() && Lists(order, Claimants(lib, config, lines))
    requires NewestClaim(lib, config, lines, stored, user)
    requires forall q <- stored :: q.runner != user
    ensures Filter(Processed(lib, lines, stored, order), RunBy(user)) == [ClaimOf(lib, lines, user)]
    ensures forall line <- Remaining(lines, Processed(lib, lines, stored, order)) :: line.sender != user
  {
    var all, claim := AllPolygons(lib, lines, stored, order), ClaimOf(lib, lines, user);
    ClaimLaw(lib, config, lines, user);
    ClaimListed(lib, lines, stored, order, user);
    OnlyClaimOf(lib, config, lines, stored, order, user);
    OthersOlder(lib, config, lines, stored, order, user);
    hide Claimants, ClaimBy, Remaining, Clean, Filter;
    NewestUntouched(lib, all, claim);
    NoLinesLeft(lib, config, lines, Processed(lib, lines, stored, order), user);
  }

  lemma OnlyClaimOf(lib: Library, config: Config, lines: seq<LiveLine>, stored: seq<Polygon>,
                  order: seq<string>, user: string)
    requires lib.Lawful() && Lists(order, Claimants(lib, config, lines)) && user in order
    requires forall q <- stored :: q.runner != user
    ensures |Filter(AllPolygons(lib, lines, stored, order), RunBy(user))| == 1
  {
    hide Claimants, ClaimBy;
    FilterAppend(stored, Apply(order, ClaimBy(lib, lines)), RunBy(user));
    FilterNone(stored, RunBy(user));
    OneClaimEach(lib, config, lines, order, user);
  }

  /** Once a claim is territory, none of the claimant's lines remain. */
  lemma NoLinesLeft(lib: Library, config: Config, lines: seq<LiveLine>, polygons: seq<Polygon>, user: string)
    requires lib.Lawful() && user in Claimants(lib, config, lines) && ClaimOf(lib, lines, user) in polygons
    ensures forall line <- Remaining(lines, polygons) :: line.sender != user
  {
    hide Claimants, ClaimBy;
    forall line <- Remaining(lines, polygons) ensures line.sender != user {
      if line.sender == user {
        ClaimHoldsItsLines(lib, config, lines, line);
        NoneInTerritory(lines, polygons, line);
      }
    }
  }

  lemma OthersOlder(lib: Library, config: Config, lines: seq<LiveLine>, stored: seq<Polygon>,
                  order: seq<string>, user: string)
    requires Lists(order, Claimants(lib, config, lines)) && NewestClaim(lib, config, lines, stored, user)
    ensures forall q <- AllPolygons(lib, lines, stored, order) ::
              q == ClaimOf(lib, lines, user) || q.time < ClaimOf(lib, lines, user).time
  {
    var claims := Apply(order, ClaimBy(lib, lines));
    forall q <- stored + claims ensures q == ClaimOf(lib, lines, user) || q.time < ClaimOf(lib, lines, user).time {
      if q in claims {
        var k :| 0 <= k < |claims| && claims[k] == q;
        assert order[k] in order && q == ClaimOf(lib, lines, order[k]);
      }
    }
  }

  // ----- order independence

  function WhenSent(): LiveLine -> int {
    (line: LiveLine) => line.time
  }

  /** No user has two lines at the same time. */
  ghost predicate DistinctPerUser(lines: seq<LiveLine>) {
    forall i, j :: 0 <= i < j < |lines| && lines[i].sender == lines[j].sender ==> lines[i].time != lines[j].time
  }

  lemma SameTrack(lib: Library, lines: seq<LiveLine>, lines': seq<LiveLine>, user: string)
    requires lib.Lawful() && multiset(lines) == multiset(lines') && DistinctPerUser(lines)
    ensures Track(lib, lines, user) == Track(lib, lines', user)
  {
    var mine, mine' := Filter(lines, SentBy(user)), Filter(lines', SentBy(user));
    FilterPermuted(lines, lines', SentBy(user));
    FilterDistinct(lines, SentBy(user), WhenSent());
    DistinctKeysPermuted(mine, lib.oldestFirst(mine), WhenSent());
    SortedByDistinctKeys(lib.oldestFirst(mine), lib.oldestFirst(mine'), WhenSent());
  }

  lemma SameClaimants(lib: Library, config: Config, lines: seq<LiveLine>, lines': seq<LiveLine>)
    requires lib.Lawful() && multiset(lines) == multiset(lines') && DistinctPerUser(lines)
    ensures Claimants(lib, config, lines) == Claimants(lib, config, lines')
    ensures forall user <- Claimants(lib, config, lines) :: ClaimOf(lib, lines, user) == ClaimOf(lib, lines', user)
  {
    SameMembers(lines, lines');
    assert Senders(lines) == Senders(lines');
    forall user ensures Track(lib, lines, user) == Track(lib, lines', user) {
      SameTrack(lib, lines, lines', user);
    }
  }

  lemma {:induction false} SameClaims(lib: Library, lines: seq<LiveLine>, lines': seq<LiveLine>, order: seq<string>)
    requires forall k :: 0 <= k < |order| ==> ClaimOf(lib, lines, order[k]) == ClaimOf(lib, lines', order[k])
    ensures Apply(order, ClaimBy(lib, lines)) == Apply(order, ClaimBy(lib, lines'))
  {
  }

  /** The polygons depend on the order neither of the lines, nor of the stored polygons, nor of map iteration. */
  lemma PolygonsOrderIndependent(lib: Library, config: Config, lines: seq<LiveLine>, lines': seq<LiveLine>,
                                 stored: seq<Polygon>, stored': seq<Polygon>, order: seq<string>, order': seq<string>)
    requires lib.Lawful()
    requires multiset(lines) == multiset(lines') && DistinctPerUser(lines)
    requires multiset(stored) == multiset(stored')
    requires Lists(order, Claimants(lib, config, lines)) && Lists(order', Claimants(lib, config, lines'))
    requires DistinctTimes(AllPolygons(lib, lines, stored, order))
    ensures Processed(lib, lines, stored, order) == Processed(lib, lines', stored', order')
  {
    SameClaimants(lib, config, lines, lines');
    DistinctSame(order, order');
    ApplyPermuted(order, order', ClaimBy(lib, lines));
    assert forall k :: 0 <= k < |order'| ==> order'[k] in order';
    SameClaims(lib, lines, lines', order');
    OrderIndependent(lib, AllPolygons(lib, lines, stored, order), AllPolygons(lib, lines', stored', order'));
  }

  // ----- territory and bookkeeping

  /** No live line that is kept lies in territory, and another pass over it would change nothing. */
  lemma KeptLinesOutside(lib: Library, lines: seq<LiveLine>, stored: seq<Polygon>, order: seq<string>)
    ensures var polygons := Processed(lib, lines, stored, order);
            && (forall line <- Remaining(lines, polygons), p <- polygons :: !Holds(p, line))
            && Remaining(Remaining(lines, polygons), polygons) == Remaining(lines, polygons)
            && Subsequence(Remaining(lines, polygons), lines)
  {
    var polygons := Processed(lib, lines, stored, order);
    forall line <- Remaining(lines, polygons), p <- polygons ensures !Holds(p, line) {
      NoneInTerritory(lines, polygons, line);
    }
    SecondPassIdle(lines, polygons);
    RemainingLaw(lines, polygons);
  }

  /** The runners with territory are those with a stored polygon and the claimants. */
  lemma RunnersAccounted(lib: Library, config: Config, lines: seq<LiveLine>, stored: seq<Polygon>,
                  order: seq<string>, user: string)
    requires lib.Lawful() && Lists(order, Claimants(lib, config, lines))
    ensures (exists p <- Processed(lib, lines, stored, order) :: p.runner == user)
       <==> (exists p <- stored :: p.runner == user) || user in Claimants(lib, config, lines)
    ensures |Filter(Processed(lib, lines, stored, order), RunBy(user))|
         <= |Filter(stored, RunBy(user))| + if user in Claimants(lib, config, lines) then 1 else 0
  {
    var claims := Apply(order, ClaimBy(lib, lines));
    hide Clean, Filter, ClaimBy;
    OneClaimEach(lib, config, lines, order, user);
    FilterAppend(stored, claims, RunBy(user));
    RunnersKept(lib, stored + claims, user);
    FilterNone(Processed(lib, lines, stored, order), RunBy(user));
    FilterNone(stored, RunBy(user));
  }

  /** Every vertex of the result is a vertex of a stored polygon or the place and time of a live line. */
  lemma VerticesAccounted(lib: Library, config: Config, lines: seq<LiveLine>, stored: seq<Polygon>, order: seq<string>,
                          p: Polygon, c: Coord)
    requires lib.Lawful() && Lists(order, Claimants(lib, config, lines))
    requires p in Processed(lib, lines, stored, order) && c in p.coords
    ensures (exists q <- stored :: c in q.coords) || exists line <- lines :: c == Coord(line.x, line.y, line.time)
  {
    var claims := Apply(order, ClaimBy(lib, lines));
    CleanVertices(lib, stored + claims, p, c);
    var q :| q in stored + claims && c in q.coords;
    if q !in stored {
      var k :| 0 <= k < |claims| && claims[k] == q;
      var user := order[k];
      assert user in order;
      ClaimLaw(lib, config, lines, user);
      var mine := Filter(lines, SentBy(user));
      SameMembers(q.coords, Apply(mine, CoordOf()));
      var i :| 0 <= i < |mine| && Apply(mine, CoordOf())[i] == c;
      assert mine[i] in mine;
    }
  }

  /** A polygon that lost its time moves no cutoff: a line enters at its own time or at that of a polygon that came
      through cleaning verbatim. Only a line sent before time zero can enter at time zero. */
  lemma EntryThroughVerbatim(lib: Library, polygons: seq<Polygon>, line: LiveLine)
    requires lib.Lawful()
    ensures var cleaned := Clean(lib, polygons);
            || EntryTime(line, cleaned) == line.time
            || (line.time < ZERO_TIME && EntryTime(line, cleaned) == ZERO_TIME)
            || exists p <- cleaned :: p in polygons && Holds(p, line) && EntryTime(line, cleaned) == p.time
  {
    hide Clean, Holds;
    var cleaned := Clean(lib, polygons);
    EntryTimeLaw(line, cleaned);
    if EntryTime(line, cleaned) != line.time {
      var p :| p in cleaned && Holds(p, line) && EntryTime(line, cleaned) == p.time;
      CleanTimes(lib, polygons, p);
    }
  }

  // ----- the cycle rule

  /** The documented rule: the ends are close and the time between them is long enough. */
  predicate DocumentedCycle(lines: seq<LiveLine>, config: Config) {
    |lines| >= 2
    && var first, last := lines[0], lines[|lines| - 1];
    && (config.doSecondsForCycleCheck ==>
          Seconds(last.time - first.time) >= config.numSecondsForCycle as real - DELTA)
    && config.distanceFunc(first.x, first.y, last.x, last.y) <= config.metersThresholdForCycle - DELTA
  }

  /** The code subtracts the other way round. On lines in time order it follows the documented rule exactly
      when there are fewer than two lines, or the seconds check is off, or the ends are too far apart, or the
      time between them is too short for the rule, or short enough for its negative to pass the check. */
  lemma CycleRule(lines: seq<LiveLine>, config: Config)
    requires OldestFirst(lines)
    ensures IsCycle(lines, config) == DocumentedCycle(lines, config)
       <==> |lines| < 2
            || var first, last := lines[0], lines[|lines| - 1];
               var elapsed := Seconds(last.time - first.time);
               || !config.doSecondsForCycleCheck
               || config.distanceFunc(first.x, first.y, last.x, last.y) > config.metersThresholdForCycle - DELTA
               || elapsed < config.numSecondsForCycle as real - DELTA
               || elapsed <= DELTA - config.numSecondsForCycle as real
  {
    if |lines| >= 2 {
      SecondsReversed(lines[0].time, lines[|lines| - 1].time);
    }
  }

  lemma SecondsReversed(earlier: Time, later: Time)
    requires earlier <= later
    ensures Seconds(earlier - later) == -Seconds(later - earlier) <= 0.0
  {
  }

  /** The failing case occurs: two lines at one place, twenty seconds apart, under the production thresholds. */
  lemma CycleMissed()
    ensures var lines := [LiveLine(0.0, 0.0, 0, "runner", "group"), LiveLine(0.0, 0.0, 20000000000, "runner", "group")];
            var config := Config((_, _, _, _) => 0.0, true, 10, 1.0);
            OldestFirst(lines) && DocumentedCycle(lines, config) && !IsCycle(lines, config)
  {
  }

  /** With the seconds check on, for at least one second, nobody ever claims anything. */
  lemma SecondsCheckBlocksClaims(lib: Library, config: Config, lines: seq<LiveLine>, stored: seq<Polygon>,
                  order: seq<string>)
    requires lib.Lawful() && config.doSecondsForCycleCheck && config.numSecondsForCycle >= 1
    requires Lists(order, Claimants(lib, config, lines))
    ensures Claimants(lib, config, lines) == {}
    ensures Processed(lib, lines, stored, order) == Clean(lib, stored)
  {
    forall user ensures user !in Claimants(lib, config, lines) {
      var track := Track(lib, lines, user);
      if |track| >= 2 {
        assert track[0].time <= track[|track| - 1].time;
      }
    }
    assert Claimants(lib, config, lines) == {};
    if order != [] {
      SomeMember(order);
      assert false;
    }
    assert AllPolygons(lib, lines, stored, order) == stored;
  }

  lemma SomeMember<T(!new)>(s: seq<T>)
    requires s != []
    ensures exists x :: x in s
  {
    assert s[0] in s;
  }
}
