/** `processData`: from live points and stored polygons to the cleaned polygons and the points that remain. */
module Pipeline {
  import opened Cleaning
  import opened GoLibrary
  import opened LiveLines
  import opened Runners
  import opened Schema
  import opened Sequences

  const DELTA := 0.00001

  datatype Config = Config(
    distanceFunc: (real, real, real, real) -> real,
    doSecondsForCycleCheck: bool,
    numSecondsForCycle: int,
    metersThresholdForCycle: real)

  function Seconds(nanoseconds: int): real {
    nanoseconds as real / 1000000000.0
  }

  /** The test in numbers: nanoseconds, and the tolerance of 0.00001 in seconds and in metres. */
  lemma CycleInNumbers(lines: seq<LiveLine>, config: Config)
    ensures IsCycle(lines, config)
       <==> |lines| >= 2
            && var first, last := lines[0], lines[|lines| - 1];
            && (config.doSecondsForCycleCheck ==>
                  first.time - last.time >= config.numSecondsForCycle * 1000000000 - 10000)
            && config.distanceFunc(first.x, first.y, last.x, last.y) <= config.metersThresholdForCycle - 0.00001
  {
  }

  /** The production thresholds: ten seconds and one metre, the earlier time minus the later one. */
  lemma ProductionCycle(lines: seq<LiveLine>, distance: (real, real, real, real) -> real, check: bool)
    requires |lines| >= 2
    ensures var first, last := lines[0], lines[|lines| - 1];
            IsCycle(lines, Config(distance, check, 10, 1.0))
            <==> distance(first.x, first.y, last.x, last.y) <= 0.99999
                 && (check ==> first.time - last.time >= 9999990000)
  {
    CycleInNumbers(lines, Config(distance, check, 10, 1.0));
  }

  predicate IsCycle(lines: seq<LiveLine>, config: Config) {
    |lines| >= 2
    && var first, last := lines[0], lines[|lines| - 1];
    && !(config.doSecondsForCycleCheck
         && Seconds(first.time - last.time) < config.numSecondsForCycle as real - DELTA)
    && !(config.distanceFunc(first.x, first.y, last.x, last.y) > config.metersThresholdForCycle - DELTA)
  }

  // ----- polygons from lines

  function CoordOf(): LiveLine -> Coord {
    (line: LiveLine) => Coord(line.x, line.y, line.time)
  }

  function MaxTime(lines: seq<LiveLine>): (t: Time)
    requires lines != []
    ensures forall line <- lines :: line.time <= t
    ensures exists line <- lines :: line.time == t
  {
    if |lines| == 1 then lines[0].time
    else
      var t := MaxTime(lines[1..]);
      assert lines == [lines[0]] + lines[1..];
      if lines[0].time > t then lines[0].time else t
  }

  function ToPolygon(lines: seq<LiveLine>): Polygon
    requires lines != []
  {
    Polygon(Apply(lines, CoordOf()), lines[0].sender, MaxTime(lines))
  }

  /** One vertex per line, in the order of the lines, under the first sender, as late as the latest line. */
  lemma ToPolygonLaw(lines: seq<LiveLine>)
    requires lines != []
    ensures var p := ToPolygon(lines);
            && |p.coords| == |lines|
            && (forall k :: 0 <= k < |lines| ==> p.coords[k] == Coord(lines[k].x, lines[k].y, lines[k].time))
            && p.runner == lines[0].sender
            && (forall line <- lines :: line.time <= p.time) && exists line <- lines :: line.time == p.time
  {
  }

  method ToPolygonData(lines: seq<LiveLine>) returns (r: Polygon)
    requires lines != []
    ensures r == ToPolygon(lines)
    ensures |r.coords| == |lines| && r.runner == lines[0].sender
    ensures forall k :: 0 <= k < |lines| ==> r.coords[k] == Coord(lines[k].x, lines[k].y, lines[k].time)
    ensures (forall line <- lines :: line.time <= r.time) && exists line <- lines :: line.time == r.time
  {
    var maxTime := lines[|lines| - 1].time;
    var coords: seq<Coord> := [];
    assert Apply(lines[..0], CoordOf()) == [];
    hide Apply, MaxTime;
    for i := 0 to |lines|
      invariant coords == Apply(lines[..i], CoordOf())
      invariant forall k :: 0 <= k < i ==> lines[k].time <= maxTime
      invariant exists line <- lines :: line.time == maxTime
    {
      ApplyStep(lines, i, CoordOf());
      coords := coords + [Coord(lines[i].x, lines[i].y, lines[i].time)];
      if lines[i].time > maxTime {
        maxTime := lines[i].time;
      }
    }
    assert lines[..|lines|] == lines;
    assert maxTime == MaxTime(lines);
    ToPolygonLaw(lines);
    r := Polygon(coords, lines[0].sender, maxTime);
  }

  // ----- lines by user

  function SentBy(user: string): LiveLine -> bool {
    (line: LiveLine) => line.sender == user
  }

  function Senders(lines: seq<LiveLine>): set<string> {
    set line <- lines :: line.sender
  }

  /** One user's lines, oldest first. */
  function Track(lib: Library, lines: seq<LiveLine>, user: string): seq<LiveLine> {
    lib.oldestFirst(Filter(lines, SentBy(user)))
  }

  type Tracks = map<string, seq<LiveLine>>

  /** Every sender's lines are stored under the sender. */
  ghost predicate IsGrouped(tracks: Tracks, lines: seq<LiveLine>) {
    tracks.Keys == Senders(lines)
    && forall user :: user in tracks ==> tracks[user] == Filter(lines, SentBy(user))
  }

  /** Every sender's lines are stored under the sender, oldest first. */
  ghost predicate IsSegregated(lib: Library, tracks: Tracks, lines: seq<LiveLine>) {
    tracks.Keys == Senders(lines)
    && forall user :: user in tracks ==> tracks[user] == Track(lib, lines, user)
  }

  method SegregatePointsByUser(lib: Library, lines: seq<LiveLine>) returns (tracks: Tracks)
    ensures IsSegregated(lib, tracks, lines)
  {
    var grouped := GroupByUser(lines);
    tracks := SortTracks(lib, grouped);
  }

  /** The second loop of `segregatePointsByUser`, in the arbitrary order of Go's map iteration. */
  method SortTracks(lib: Library, grouped: Tracks) returns (tracks: Tracks)
    ensures tracks.Keys == grouped.Keys
    ensures forall user :: user in tracks ==> tracks[user] == lib.oldestFirst(grouped[user])
  {
    tracks := grouped;
    var keys := grouped.Keys;
    while keys != {}
      invariant keys <= tracks.Keys == grouped.Keys
      invariant forall user :: user in tracks ==>
                  tracks[user] == if user in keys then grouped[user] else lib.oldestFirst(grouped[user])
      decreases keys
    {
      var user :| user in keys;
      keys := keys - {user};
      tracks := tracks[user := lib.oldestFirst(tracks[user])];
    }
  }

  /** The first loop of `segregatePointsByUser`. */
  method GroupByUser(lines: seq<LiveLine>) returns (tracks: Tracks)
    ensures IsGrouped(tracks, lines)
  {
    tracks := map[];
    for i := 0 to |lines|
      invariant IsGrouped(tracks, lines[..i])
    {
      AppendToTrack(lines, i, tracks);
      tracks := tracks[lines[i].sender := Lookup(tracks, lines[i].sender) + [lines[i]]];
    }
    assert lines[..|lines|] == lines;
  }

  lemma AppendToTrack(lines: seq<LiveLine>, i: nat, tracks: Tracks)
    requires i < |lines| && IsGrouped(tracks, lines[..i])
    ensures IsGrouped(tracks[lines[i].sender := Lookup(tracks, lines[i].sender) + [lines[i]]], lines[..i + 1])
  {
    var sender := lines[i].sender;
    assert Senders(lines[..i + 1]) == Senders(lines[..i]) + {sender} by {
      assert lines[..i + 1] == lines[..i] + [lines[i]];
    }
    assert Lookup(tracks, sender) == Filter(lines[..i], SentBy(sender)) by {
      FilterNone(lines[..i], SentBy(sender));
    }
    hide Lookup, Senders;
    var after := tracks[sender := Lookup(tracks, sender) + [lines[i]]];
    forall user | user in after ensures after[user] == Filter(lines[..i + 1], SentBy(user)) {
      FilterStep(lines, i, SentBy(user));
    }
  }

  // ----- users that close a cycle

  type Cycles = map<string, seq<seq<LiveLine>>>

  /** Exactly the tracks that are cycles, each as the only entry of its user. */
  ghost predicate AreCycles(cycles: Cycles, tracks: Tracks, users: set<string>, config: Config)
    requires users <= tracks.Keys
  {
    (forall user :: user in cycles <==> user in users && IsCycle(tracks[user], config))
    && forall user :: user in cycles ==> cycles[user] == [tracks[user]]
  }

  method CreateUserPolygonsMap(tracks: Tracks, config: Config) returns (cycles: Cycles)
    ensures AreCycles(cycles, tracks, tracks.Keys, config)
  {
    cycles := map[];
    var keys := tracks.Keys;
    while keys != {}
      invariant keys <= tracks.Keys
      invariant AreCycles(cycles, tracks, tracks.Keys - keys, config)
      decreases keys
    {
      var user :| user in keys;
      keys := keys - {user};
      if IsCycle(tracks[user], config) {
        cycles := cycles[user := Lookup(cycles, user) + [tracks[user]]];
      }
    }
    assert tracks.Keys - keys == tracks.Keys;
  }

  function ToPolygons(): seq<LiveLine> -> Polygon {
    (lines: seq<LiveLine>) => if lines == [] then Polygon([], "", ZERO_TIME) else ToPolygon(lines)
  }

  /** The polygons of the users, in the order in which the map is iterated over. */
  function Claims(cycles: Cycles, order: seq<string>): seq<Polygon> {
    if order == [] then []
    else
      var user := order[|order| - 1];
      Claims(cycles, order[..|order| - 1]) + Apply(Lookup(cycles, user), ToPolygons())
  }

  /** `ToPolygonData` looks at the first and the last line, so there has to be one. */
  ghost predicate NoneEmpty(cycles: Cycles) {
    forall user, k :: user in cycles && 0 <= k < |cycles[user]| ==> cycles[user][k] != []
  }

  method AddPolygonsToNewPolygonArray(polygonData: seq<Polygon>, cycles: Cycles)
    returns (newPolygons: seq<Polygon>, ghost order: seq<string>)
    requires NoneEmpty(cycles)
    ensures Lists(order, cycles.Keys)
    ensures newPolygons == polygonData + Claims(cycles, order)
  {
    newPolygons := [];
    for i := 0 to |polygonData|
      invariant newPolygons == polygonData[..i]
    {
      newPolygons := newPolygons + [polygonData[i]];
    }
    newPolygons, order := AppendClaims(newPolygons, cycles);
  }

  /** The second loop, in the arbitrary order of Go's map iteration. */
  method AppendClaims(polygons: seq<Polygon>, cycles: Cycles) returns (r: seq<Polygon>, ghost order: seq<string>)
    requires NoneEmpty(cycles)
    ensures Lists(order, cycles.Keys) && r == polygons + Claims(cycles, order)
  {
    r, order := polygons, [];
    var keys := cycles.Keys;
    ghost var done: set<string> := {};
    while keys != {}
      invariant keys + done == cycles.Keys && keys !! done
      invariant Lists(order, done)
      invariant r == polygons + Claims(cycles, order)
      decreases keys
    {
      var user :| user in keys;
      ListsExtend(order, done, user);
      ClaimsExtend(polygons, cycles, order, user);
      r := AppendPolygons(r, Lookup(cycles, user));
      keys := keys - {user};
      done := done + {user};
      order := order + [user];
    }
    assert done == cycles.Keys;
  }

  lemma ClaimsExtend(polygons: seq<Polygon>, cycles: Cycles, order: seq<string>, user: string)
    ensures polygons + Claims(cycles, order + [user])
         == (polygons + Claims(cycles, order)) + Apply(Lookup(cycles, user), ToPolygons())
  {
  }

  /** The inner loop, over one user's lists of lines. */
  method AppendPolygons(polygons: seq<Polygon>, lists: seq<seq<LiveLine>>) returns (r: seq<Polygon>)
    requires forall k :: 0 <= k < |lists| ==> lists[k] != []
    ensures r == polygons + Apply(lists, ToPolygons())
  {
    r := polygons;
    assert Apply(lists[..0], ToPolygons()) == [];
    hide ToPolygon, MaxTime, Apply;
    for k := 0 to |lists|
      invariant r == polygons + Apply(lists[..k], ToPolygons())
    {
      var polygon := ToPolygonData(lists[k]);
      ApplyStep(lists, k, ToPolygons());
      r := r + [polygon];
    }
    assert lists[..|lists|] == lists;
  }

  // ----- the whole

  /** The users whose live lines close a cycle. */
  function Claimants(lib: Library, config: Config, lines: seq<LiveLine>): set<string> {
    set user <- Senders(lines) | IsCycle(Track(lib, lines, user), config)
  }

  function ClaimBy(lib: Library, lines: seq<LiveLine>): string -> Polygon {
    (user: string) => ToPolygons()(Track(lib, lines, user))
  }

  /** Stored polygons and new claims, the users taken in the given order. */
  function AllPolygons(lib: Library, lines: seq<LiveLine>, stored: seq<Polygon>, order: seq<string>): seq<Polygon> {
    stored + Apply(order, ClaimBy(lib, lines))
  }

  ghost function Processed(lib: Library, lines: seq<LiveLine>, stored: seq<Polygon>, order: seq<string>): seq<Polygon> {
    Clean(lib, AllPolygons(lib, lines, stored, order))
  }

  method ProcessData(lib: Library, lines: seq<LiveLine>, stored: seq<Polygon>, config: Config)
    returns (newLines: seq<LiveLine>, newPolygons: seq<Polygon>, ghost order: seq<string>)
    ensures Lists(order, Claimants(lib, config, lines))
    ensures newPolygons == Processed(lib, lines, stored, order)
         == Clean(lib, stored + Apply(order, ClaimBy(lib, lines)))
    ensures newLines == Remaining(lines, newPolygons)
  {
    var tracks := SegregatePointsByUser(lib, lines);
    var cycles := CreateUserPolygonsMap(tracks, config);
    CyclesAreClaimants(lib, config, lines, tracks, cycles);
    newPolygons, order := AddPolygonsToNewPolygonArray(stored, cycles);
    Assembled(lib, lines, stored, cycles, order);
    newPolygons := CleanPolygons(lib, newPolygons);
    newLines := RemovePointsFromLiveLinesData(lines, newPolygons);
  }

  ghost predicate AreTracks(lib: Library, lines: seq<LiveLine>, cycles: Cycles) {
    forall user :: user in cycles ==> cycles[user] == [Track(lib, lines, user)]
  }

  lemma CyclesAreClaimants(lib: Library, config: Config, lines: seq<LiveLine>, tracks: Tracks, cycles: Cycles)
    requires IsSegregated(lib, tracks, lines) && AreCycles(cycles, tracks, tracks.Keys, config)
    ensures cycles.Keys == Claimants(lib, config, lines)
    ensures AreTracks(lib, lines, cycles) && NoneEmpty(cycles)
  {
  }

  lemma Assembled(lib: Library, lines: seq<LiveLine>, stored: seq<Polygon>, cycles: Cycles, order: seq<string>)
    requires AreTracks(lib, lines, cycles) && Lists(order, cycles.Keys)
    ensures stored + Claims(cycles, order) == AllPolygons(lib, lines, stored, order)
  {
    ClaimsAreTracks(lib, lines, cycles, order);
  }

  lemma {:induction false} ClaimsAreTracks(lib: Library, lines: seq<LiveLine>, cycles: Cycles, order: seq<string>)
    requires AreTracks(lib, lines, cycles) && forall k :: 0 <= k < |order| ==> order[k] in cycles
    ensures Claims(cycles, order) == Apply(order, ClaimBy(lib, lines))
  {
    hide Track, ToPolygons, ClaimBy, Lookup;
    if order != [] {
      var front, user := order[..|order| - 1], order[|order| - 1];
      ClaimsAreTracks(lib, lines, cycles, front);
      ApplyAppend(front, [user], ClaimBy(lib, lines));
      assert order == front + [user];
      OneClaim(lib, lines, cycles, user);
    }
  }

  lemma OneClaim(lib: Library, lines: seq<LiveLine>, cycles: Cycles, user: string)
    requires AreTracks(lib, lines, cycles) && user in cycles
    ensures Apply(Lookup(cycles, user), ToPolygons()) == Apply([user], ClaimBy(lib, lines))
  {
  }
}
