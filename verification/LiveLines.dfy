/** `removePointsFromLiveLinesData`: dropping the live points that territory has swallowed. */
module LiveLines {
  import opened Exactness
  import opened RayCasting
  import opened Schema
  import opened Sequences

  // ----- what the code computes

  function PointOf(line: LiveLine): Coord {
    Coord(line.x, line.y, ZERO_TIME)
  }

  predicate Holds(polygon: Polygon, line: LiveLine) {
    IsInside(PointOf(line), polygon.coords)
  }

  /** A polygon holds a line exactly when its place is inside, whatever time goes with the place. */
  lemma HoldsPlace(polygon: Polygon, line: LiveLine, time: Time)
    ensures Holds(polygon, line) <==> IsInside(Coord(line.x, line.y, time), polygon.coords)
  {
    SamePlaceSameAnswer(PointOf(line), Coord(line.x, line.y, time), polygon.coords, polygon.coords);
  }

  predicate InTerritory(line: LiveLine, polygons: seq<Polygon>) {
    exists p <- polygons :: Holds(p, line)
  }

  /** The time of the line or, if later, the latest time of a polygon that holds it. */
  function EntryTime(line: LiveLine, polygons: seq<Polygon>): Time {
    if polygons == [] then line.time
    else
      var t, p := EntryTime(line, polygons[..|polygons| - 1]), polygons[|polygons| - 1];
      if Holds(p, line) && p.time > t then p.time else t
  }

  type Cutoffs = map<string, Time>

  /** A line earlier than its runner's cutoff is skipped, whatever holds it. */
  function Advance(cutoffs: Cutoffs, line: LiveLine, polygons: seq<Polygon>): Cutoffs {
    if line.sender in cutoffs && line.time < cutoffs[line.sender] then cutoffs
    else if InTerritory(line, polygons) then cutoffs[line.sender := EntryTime(line, polygons)]
    else cutoffs
  }

  function CutoffsOf(lines: seq<LiveLine>, polygons: seq<Polygon>): Cutoffs {
    if lines == [] then map[]
    else Advance(CutoffsOf(lines[..|lines| - 1], polygons), lines[|lines| - 1], polygons)
  }

  function Survives(cutoffs: Cutoffs): LiveLine -> bool {
    (line: LiveLine) => !(line.sender in cutoffs && line.time <= cutoffs[line.sender])
  }

  function Remaining(lines: seq<LiveLine>, polygons: seq<Polygon>): seq<LiveLine> {
    Filter(lines, Survives(CutoffsOf(lines, polygons)))
  }

  method RemovePointsFromLiveLinesData(lines: seq<LiveLine>, polygons: seq<Polygon>) returns (newLines: seq<LiveLine>)
    ensures newLines == Remaining(lines, polygons)
  {
    hide InTerritory, EntryTime;
    var mapLastPointBeforeDeletion: map<string, Time> := map[];
    for i := 0 to |lines|
      invariant mapLastPointBeforeDeletion == CutoffsOf(lines[..i], polygons)
    {
      assert lines[..i + 1][..i] == lines[..i];
      var line := lines[i];
      if line.sender in mapLastPointBeforeDeletion {
        if line.time < mapLastPointBeforeDeletion[line.sender] {
          continue;
        }
      }
      var isAnyPointInPolygon, currMaxTime := Scan(line, polygons);
      if isAnyPointInPolygon {
        mapLastPointBeforeDeletion := mapLastPointBeforeDeletion[line.sender := currMaxTime];
      }
    }
    assert lines[..|lines|] == lines;
    newLines := [];
    for i := 0 to |lines|
      invariant newLines == Filter(lines[..i], Survives(CutoffsOf(lines, polygons)))
    {
      FilterStep(lines, i, Survives(CutoffsOf(lines, polygons)));
      var line := lines[i];
      if line.sender in mapLastPointBeforeDeletion {
        if !(line.time > mapLastPointBeforeDeletion[line.sender]) {
          continue;
        }
      }
      newLines := newLines + [line];
    }
  }

  /** The inner loop over the polygons. */
  method Scan(line: LiveLine, polygons: seq<Polygon>) returns (isAnyPointInPolygon: bool, currMaxTime: Time)
    ensures isAnyPointInPolygon == InTerritory(line, polygons)
    ensures currMaxTime == EntryTime(line, polygons)
  {
    currMaxTime := line.time;
    isAnyPointInPolygon := false;
    for k := 0 to |polygons|
      invariant isAnyPointInPolygon == InTerritory(line, polygons[..k])
      invariant currMaxTime == EntryTime(line, polygons[..k])
    {
      TerritoryStep(line, polygons, k);
      assert polygons[..k + 1][..k] == polygons[..k];
      var temp := IsPointInPolygon(PointOf(line), polygons[k].coords);
      if temp {
        isAnyPointInPolygon := true;
        if polygons[k].time > currMaxTime {
          currMaxTime := polygons[k].time;
        }
      }
    }
    assert polygons[..|polygons|] == polygons;
  }

  lemma TerritoryStep(line: LiveLine, polygons: seq<Polygon>, k: nat)
    requires k < |polygons|
    ensures InTerritory(line, polygons[..k + 1]) <==> InTerritory(line, polygons[..k]) || Holds(polygons[k], line)
  {
  }

  // ----- laws of the entry time and the cutoffs

  /** The entry time is the largest of the line's own time and the times of the polygons that hold it. */
  lemma {:induction false} EntryTimeLaw(line: LiveLine, polygons: seq<Polygon>)
    ensures EntryTime(line, polygons) >= line.time
    ensures forall p <- polygons :: Holds(p, line) ==> EntryTime(line, polygons) >= p.time
    ensures EntryTime(line, polygons) == line.time
            || exists p <- polygons :: Holds(p, line) && EntryTime(line, polygons) == p.time
  {
    if polygons != [] {
      EntryTimeLaw(line, polygons[..|polygons| - 1]);
      assert polygons == polygons[..|polygons| - 1] + [polygons[|polygons| - 1]];
    }
  }

  ghost predicate NoLower(before: Cutoffs, after: Cutoffs) {
    forall r :: r in before ==> r in after && before[r] <= after[r]
  }

  lemma AdvanceNoLower(cutoffs: Cutoffs, line: LiveLine, polygons: seq<Polygon>)
    ensures NoLower(cutoffs, Advance(cutoffs, line, polygons))
    ensures InTerritory(line, polygons) ==>
              var after := Advance(cutoffs, line, polygons);
              line.sender in after && line.time <= after[line.sender]
  {
    EntryTimeLaw(line, polygons);
  }

  /** Despite the early skip a cutoff never decreases while the lines are read. */
  lemma {:induction false} CutoffsNeverDecrease(lines: seq<LiveLine>, polygons: seq<Polygon>, i: nat)
    requires i <= |lines|
    ensures NoLower(CutoffsOf(lines[..i], polygons), CutoffsOf(lines, polygons))
  {
    if i == |lines| {
      assert lines[..i] == lines;
    } else {
      var front := lines[..|lines| - 1];
      assert lines[..i] == front[..i];
      CutoffsNeverDecrease(front, polygons, i);
      AdvanceNoLower(CutoffsOf(front, polygons), lines[|lines| - 1], polygons);
    }
  }

  lemma SwallowedBelowCutoff(lines: seq<LiveLine>, polygons: seq<Polygon>, line: LiveLine)
    requires line in lines && InTerritory(line, polygons)
    ensures !Survives(CutoffsOf(lines, polygons))(line)
  {
    var i :| 0 <= i < |lines| && lines[i] == line;
    assert lines[..i + 1][..i] == lines[..i];
    AdvanceNoLower(CutoffsOf(lines[..i], polygons), line, polygons);
    CutoffsNeverDecrease(lines, polygons, i + 1);
  }

  /** No surviving live line is inside any of the polygons. */
  lemma NoneInTerritory(lines: seq<LiveLine>, polygons: seq<Polygon>, line: LiveLine)
    requires line in Remaining(lines, polygons)
    ensures !InTerritory(line, polygons)
  {
    if InTerritory(line, polygons) {
      SwallowedBelowCutoff(lines, polygons, line);
    }
  }

  /** A cutoff is the entry time of one of the runner's own lines in territory. */
  lemma {:induction false} CutoffWitness(lines: seq<LiveLine>, polygons: seq<Polygon>, runner: string)
    ensures runner in CutoffsOf(lines, polygons) <==>
              exists w <- lines :: w.sender == runner && InTerritory(w, polygons)
    ensures runner in CutoffsOf(lines, polygons) ==>
              exists w <- lines :: w.sender == runner && InTerritory(w, polygons)
                                   && EntryTime(w, polygons) == CutoffsOf(lines, polygons)[runner]
  {
    if lines != [] {
      var front, last := lines[..|lines| - 1], lines[|lines| - 1];
      CutoffWitness(front, polygons, runner);
      assert lines == front + [last];
    }
  }

  /** Why a line goes: some line of the same runner is inside a polygon and entered no earlier. */
  lemma RemovalWitness(lines: seq<LiveLine>, polygons: seq<Polygon>, line: LiveLine)
    requires line in lines && line !in Remaining(lines, polygons)
    ensures exists w <- lines :: w.sender == line.sender && InTerritory(w, polygons)
                                 && (line.time <= w.time || exists p <- polygons :: Holds(p, w) && line.time <= p.time)
  {
    FilterMember(lines, Survives(CutoffsOf(lines, polygons)), line);
    CutoffWitness(lines, polygons, line.sender);
    var w :| w in lines && w.sender == line.sender && InTerritory(w, polygons)
             && EntryTime(w, polygons) == CutoffsOf(lines, polygons)[line.sender];
    EntryTimeLaw(w, polygons);
  }

  /** Removal is downward closed in time, runner by runner. */
  lemma RemovalDownward(lines: seq<LiveLine>, polygons: seq<Polygon>, line: LiveLine, earlier: LiveLine)
    requires line in lines && line !in Remaining(lines, polygons)
    requires earlier.sender == line.sender && earlier.time <= line.time
    ensures earlier !in Remaining(lines, polygons)
  {
    FilterMember(lines, Survives(CutoffsOf(lines, polygons)), line);
  }

  /** The surviving lines are a subsequence of the lines, and a runner without swallowed lines loses none. */
  lemma RemainingLaw(lines: seq<LiveLine>, polygons: seq<Polygon>)
    ensures Subsequence(Remaining(lines, polygons), lines)
    ensures forall line <- lines | !exists w <- lines :: w.sender == line.sender && InTerritory(w, polygons) ::
              line in Remaining(lines, polygons)
  {
    var cutoffs := CutoffsOf(lines, polygons);
    FilterSubsequence(lines, Survives(cutoffs));
    forall line <- lines | !exists w <- lines :: w.sender == line.sender && InTerritory(w, polygons)
      ensures line in Remaining(lines, polygons)
    {
      CutoffWitness(lines, polygons, line.sender);
      FilterMember(lines, Survives(cutoffs), line);
    }
  }

  /** A second pass with the same polygons removes nothing. */
  lemma SecondPassIdle(lines: seq<LiveLine>, polygons: seq<Polygon>)
    ensures Remaining(Remaining(lines, polygons), polygons) == Remaining(lines, polygons)
  {
    var once := Remaining(lines, polygons);
    forall line <- once ensures Survives(CutoffsOf(once, polygons))(line) {
      CutoffWitness(once, polygons, line.sender);
      if line.sender in CutoffsOf(once, polygons) {
        var w :| w in once && w.sender == line.sender && InTerritory(w, polygons);
        NoneInTerritory(lines, polygons, w);
      }
    }
    FilterAll(once, Survives(CutoffsOf(once, polygons)));
  }

  // ----- the early skip

  /** A line of `runner` inside some polygon. */
  predicate Entered(line: LiveLine, polygons: seq<Polygon>, runner: string) {
    line.sender == runner && InTerritory(line, polygons)
  }

  /** `w` entered, and every line of its runner that entered later was sent before the entry of `w`: such a
      line is skipped once `w` has been read. A condition on times and entry times alone. */
  ghost predicate Standing(w: LiveLine, lines: seq<LiveLine>, polygons: seq<Polygon>) {
    w in lines && InTerritory(w, polygons)
    && forall u <- lines :: Entered(u, polygons, w.sender) ==>
         EntryTime(u, polygons) <= EntryTime(w, polygons) || u.time < EntryTime(w, polygons)
  }

  /** No line of the runner entered later than `w`. */
  ghost predicate Latest(w: LiveLine, lines: seq<LiveLine>, polygons: seq<Polygon>) {
    forall u <- lines :: Entered(u, polygons, w.sender) ==> EntryTime(u, polygons) <= EntryTime(w, polygons)
  }

  ghost predicate HasCutoff(lines: seq<LiveLine>, polygons: seq<Polygon>, runner: string, cutoff: Time) {
    runner in CutoffsOf(lines, polygons) && CutoffsOf(lines, polygons)[runner] == cutoff
  }

  /** The runner's cutoff is no less than the entry time of any of their lines. */
  ghost predicate CutoffBounds(lines: seq<LiveLine>, polygons: seq<Polygon>, runner: string) {
    forall u <- lines :: Entered(u, polygons, runner) ==>
      var cutoffs := CutoffsOf(lines, polygons);
      runner in cutoffs && EntryTime(u, polygons) <= cutoffs[runner]
  }

  lemma ReadOrSkipped(lines: seq<LiveLine>, polygons: seq<Polygon>, u: LiveLine)
    requires u in lines && InTerritory(u, polygons)
    ensures var cutoffs := CutoffsOf(lines, polygons);
            u.sender in cutoffs && (EntryTime(u, polygons) <= cutoffs[u.sender] || u.time < cutoffs[u.sender])
  {
    var i :| 0 <= i < |lines| && lines[i] == u;
    assert lines[..i + 1][..i] == lines[..i];
    AdvanceNoLower(CutoffsOf(lines[..i], polygons), u, polygons);
    CutoffsNeverDecrease(lines, polygons, i);
    CutoffsNeverDecrease(lines, polygons, i + 1);
  }

  /** A cutoff is the entry time of a standing line. */
  lemma CutoffStands(lines: seq<LiveLine>, polygons: seq<Polygon>, runner: string) returns (w: LiveLine)
    requires runner in CutoffsOf(lines, polygons)
    ensures w.sender == runner && Standing(w, lines, polygons)
    ensures HasCutoff(lines, polygons, runner, EntryTime(w, polygons))
  {
    CutoffWitness(lines, polygons, runner);
    w :| w in lines && w.sender == runner && InTerritory(w, polygons)
         && EntryTime(w, polygons) == CutoffsOf(lines, polygons)[runner];
    forall u <- lines | Entered(u, polygons, w.sender)
      ensures EntryTime(u, polygons) <= EntryTime(w, polygons) || u.time < EntryTime(w, polygons)
    {
      ReadOrSkipped(lines, polygons, u);
    }
  }

  /** A standing line that is read first sets the cutoff for good. */
  lemma {:induction false} FirstStands(w: LiveLine, rest: seq<LiveLine>, polygons: seq<Polygon>)
    requires Standing(w, [w] + rest, polygons)
    ensures HasCutoff([w] + rest, polygons, w.sender, EntryTime(w, polygons))
  {
    if rest == [] {
      OnlyLine(w, polygons);
      assert [w] + rest == [w];
    } else {
      var front, last := rest[..|rest| - 1], rest[|rest| - 1];
      assert rest == front + [last];
      StandingFewer(w, front, last, polygons);
      FirstStands(w, front, polygons);
      CutoffsExtend([w] + front, last, polygons);
      assert [w] + rest == ([w] + front) + [last];
      hide CutoffsOf, Standing;
      StandsStep(CutoffsOf([w] + front, polygons), w, last, polygons);
    }
  }

  lemma CutoffsExtend(lines: seq<LiveLine>, last: LiveLine, polygons: seq<Polygon>)
    ensures CutoffsOf(lines + [last], polygons) == Advance(CutoffsOf(lines, polygons), last, polygons)
  {
    assert (lines + [last])[..|lines|] == lines;
  }

  lemma OnlyLine(w: LiveLine, polygons: seq<Polygon>)
    requires InTerritory(w, polygons)
    ensures HasCutoff([w], polygons, w.sender, EntryTime(w, polygons))
  {
    assert [w][..0] == [];
    assert CutoffsOf([w][..0], polygons) == map[];
  }

  lemma StandingFewer(w: LiveLine, front: seq<LiveLine>, last: LiveLine, polygons: seq<Polygon>)
    requires var rest := front + [last]; Standing(w, [w] + rest, polygons)
    ensures Standing(w, [w] + front, polygons)
    ensures Entered(last, polygons, w.sender) ==>
              EntryTime(last, polygons) <= EntryTime(w, polygons) || last.time < EntryTime(w, polygons)
  {
    var t := [w] + (front + [last]);
    assert t == ([w] + front) + [last];
    assert last in t && forall u <- [w] + front :: u in t;
  }

  lemma StandsStep(cutoffs: Cutoffs, w: LiveLine, last: LiveLine, polygons: seq<Polygon>)
    requires w.sender in cutoffs && cutoffs[w.sender] == EntryTime(w, polygons)
    requires Entered(last, polygons, w.sender) ==>
               EntryTime(last, polygons) <= EntryTime(w, polygons) || last.time < EntryTime(w, polygons)
    ensures var after := Advance(cutoffs, last, polygons);
            w.sender in after && after[w.sender] == EntryTime(w, polygons)
  {
    EntryTimeLaw(last, polygons);
  }

  lemma ReadFirst(w: LiveLine, lines: seq<LiveLine>, polygons: seq<Polygon>) returns (t: seq<LiveLine>)
    requires Standing(w, lines, polygons)
    ensures multiset(t) == multiset(lines)
    ensures HasCutoff(t, polygons, w.sender, EntryTime(w, polygons))
  {
    var before, after := SplitAt(lines, w);
    t := [w] + (before + after);
    assert multiset(t) == multiset(lines);
    SameMembers(t, lines);
    FirstStands(w, before + after, polygons);
  }

  lemma StandingPermuted(w: LiveLine, s: seq<LiveLine>, t: seq<LiveLine>, polygons: seq<Polygon>)
    requires multiset(s) == multiset(t)
    ensures Standing(w, s, polygons) == Standing(w, t, polygons)
    ensures Latest(w, s, polygons) == Latest(w, t, polygons)
  {
    SameMembers(s, t);
  }

  /** The cutoffs a runner can end up with, over all orders of the lines, are the entry times of the standing lines. */
  lemma ReachableCutoffs(lines: seq<LiveLine>, polygons: seq<Polygon>, runner: string, cutoff: Time)
    ensures (exists t :: multiset(t) == multiset(lines) && HasCutoff(t, polygons, runner, cutoff))
       <==> (exists w <- lines :: w.sender == runner && Standing(w, lines, polygons)
                                  && EntryTime(w, polygons) == cutoff)
  {
    if t :| multiset(t) == multiset(lines) && HasCutoff(t, polygons, runner, cutoff) {
      var w := CutoffStands(t, polygons, runner);
      StandingPermuted(w, t, lines, polygons);
    }
    if w :| w in lines && w.sender == runner && Standing(w, lines, polygons) && EntryTime(w, polygons) == cutoff {
      var t := ReadFirst(w, lines, polygons);
    }
  }

  /** The cutoff is the latest entry of the runner, for every order of the lines, exactly when no line
      stands but the latest. */
  lemma CutoffsAreLatest(lines: seq<LiveLine>, polygons: seq<Polygon>, runner: string)
    ensures (forall t :: multiset(t) == multiset(lines) ==> CutoffBounds(t, polygons, runner))
       <==> (forall w <- lines :: w.sender == runner && Standing(w, lines, polygons) ==> Latest(w, lines, polygons))
  {
    if forall t :: multiset(t) == multiset(lines) ==> CutoffBounds(t, polygons, runner) {
      forall w <- lines | w.sender == runner && Standing(w, lines, polygons) ensures Latest(w, lines, polygons) {
        var t := ReadFirst(w, lines, polygons);
        assert CutoffBounds(t, polygons, runner);
        SameMembers(t, lines);
      }
    }
    if forall w <- lines :: w.sender == runner && Standing(w, lines, polygons) ==> Latest(w, lines, polygons) {
      forall t | multiset(t) == multiset(lines) ensures CutoffBounds(t, polygons, runner) {
        StandingBounds(lines, t, polygons, runner);
      }
    }
  }

  lemma StandingBounds(lines: seq<LiveLine>, t: seq<LiveLine>, polygons: seq<Polygon>, runner: string)
    requires multiset(t) == multiset(lines)
    requires forall w <- lines :: w.sender == runner && Standing(w, lines, polygons) ==> Latest(w, lines, polygons)
    ensures CutoffBounds(t, polygons, runner)
  {
    SameMembers(t, lines);
    forall u <- t | Entered(u, polygons, runner)
      ensures runner in CutoffsOf(t, polygons) && EntryTime(u, polygons) <= CutoffsOf(t, polygons)[runner]
    {
      ReadOrSkipped(t, polygons, u);
      var w := CutoffStands(t, polygons, runner);
      StandingPermuted(w, t, lines, polygons);
    }
  }

  /** No line of the runner falls between the entry times of two standing lines. */
  ghost predicate SameReach(lines: seq<LiveLine>, polygons: seq<Polygon>) {
    forall v <- lines, w <- lines, l <- lines ::
      (Standing(v, lines, polygons) && Standing(w, lines, polygons) && v.sender == w.sender == l.sender
       && l.time <= EntryTime(v, polygons)) ==> l.time <= EntryTime(w, polygons)
  }

  /** When no line stands but the latest, the order of the lines does not matter. */
  lemma LatestOrderFree(lines: seq<LiveLine>, polygons: seq<Polygon>)
    requires forall w <- lines :: Standing(w, lines, polygons) ==> Latest(w, lines, polygons)
    ensures forall t :: multiset(t) == multiset(lines) ==>
                          multiset(Remaining(t, polygons)) == multiset(Remaining(lines, polygons))
  {
    KeptOrderFree(lines, polygons);
  }

  lemma SameSurvivors(lines: seq<LiveLine>, t: seq<LiveLine>, polygons: seq<Polygon>, l: LiveLine)
    requires SameReach(lines, polygons) && multiset(t) == multiset(lines) && l in lines
    ensures Survives(CutoffsOf(t, polygons))(l) == Survives(CutoffsOf(lines, polygons))(l)
  {
    SameMembers(t, lines);
    CutoffWitness(t, polygons, l.sender);
    CutoffWitness(lines, polygons, l.sender);
    if l.sender in CutoffsOf(lines, polygons) {
      var v := CutoffStands(lines, polygons, l.sender);
      var w := CutoffStands(t, polygons, l.sender);
      StandingPermuted(w, t, lines, polygons);
    }
  }

  /** The same lines are kept, whatever the order they come in, exactly when no line of a runner falls between
      the entry times of two standing lines. */
  lemma KeptOrderFree(lines: seq<LiveLine>, polygons: seq<Polygon>)
    ensures (forall t :: multiset(t) == multiset(lines) ==>
                           multiset(Remaining(t, polygons)) == multiset(Remaining(lines, polygons)))
       <==> SameReach(lines, polygons)
  {
    if SameReach(lines, polygons) {
      forall t | multiset(t) == multiset(lines)
        ensures multiset(Remaining(t, polygons)) == multiset(Remaining(lines, polygons))
      {
        forall l <- lines ensures Survives(CutoffsOf(t, polygons))(l) == Survives(CutoffsOf(lines, polygons))(l) {
          SameSurvivors(lines, t, polygons, l);
        }
        FilterSame(lines, Survives(CutoffsOf(t, polygons)), Survives(CutoffsOf(lines, polygons)));
        FilterPermuted(t, lines, Survives(CutoffsOf(t, polygons)));
      }
    } else {
      var v, w, l :| v in lines && w in lines && l in lines
                     && Standing(v, lines, polygons) && Standing(w, lines, polygons)
                     && v.sender == w.sender == l.sender
                     && l.time <= EntryTime(v, polygons) && l.time > EntryTime(w, polygons);
      var t := ReadFirst(v, lines, polygons);
      var t' := ReadFirst(w, lines, polygons);
      KeptBy(t, polygons, l);
      KeptBy(t', polygons, l);
      SameMembers(t', lines);
      assert multiset(Remaining(t, polygons)) != multiset(Remaining(t', polygons));
    }
  }

  lemma KeptBy(t: seq<LiveLine>, polygons: seq<Polygon>, l: LiveLine)
    ensures l in multiset(Remaining(t, polygons)) <==> l in t && Survives(CutoffsOf(t, polygons))(l)
  {
    FilterMember(t, Survives(CutoffsOf(t, polygons)), l);
    assert l in multiset(Remaining(t, polygons)) <==> l in Remaining(t, polygons);
  }

  function At(place: real, time: Time): LiveLine {
    LiveLine(place + 1.0, place + 1.0, time, "runner", "group")
  }

  function Ground(place: real, time: Time): Polygon {
    Polygon([Coord(place, place, time), Coord(place + 3.0, place, time), Coord(place, place + 3.0, time)],
            "rival", time)
  }

  lemma GroundHolds(place: real, time: Time, line: LiveLine, d: real)
    requires line.x == line.y == place + d + 1.0
    ensures d == 0.0 ==> Holds(Ground(place, time), line)
    ensures d > 1.0 || d < -1.0 ==> !Holds(Ground(place, time), line)
  {
    hide Orient, IsInside;
    var q, t := PointOf(line), Ground(place, time).coords;
    OrientIs(t[0], t[1], t[2], 3.0, 0.0, 0.0, 3.0);
    OrientIs(t[0], t[1], q, 3.0, 0.0, d + 1.0, d + 1.0);
    OrientIs(t[1], t[2], q, -3.0, 3.0, d - 2.0, d + 1.0);
    OrientIs(t[2], t[0], q, 0.0, -3.0, d + 1.0, d - 2.0);
    SidesLaw(q, t[0], t[1], t[2]);
    assert t == [t[0], t[1], t[2]];
  }

  /** The skip makes the order of the lines matter: the same three lines, two results. */
  lemma OrderOfLinesMatters()
    ensures var polygons := [Ground(0.0, 10), Ground(5.0, 20)];
            var a, b, c := At(0.0, 1), At(5.0, 5), At(9.0, 15);
            Remaining([a, b, c], polygons) == [c] && Remaining([b, a, c], polygons) == []
  {
    var polygons := [Ground(0.0, 10), Ground(5.0, 20)];
    var a, b, c := At(0.0, 1), At(5.0, 5), At(9.0, 15);
    TwoGrounds(0.0, 1);
    TwoGrounds(5.0, 5);
    TwoGrounds(9.0, 15);
    hide InTerritory, EntryTime, Ground, Remaining;
    OfThreeRemain(a, b, c, polygons, map["runner" := 10]);
    OfThreeRemain(b, a, c, polygons, map["runner" := 20]);
  }

  lemma TwoGrounds(place: real, time: Time)
    requires place == 0.0 || place == 5.0 || place == 9.0
    ensures var polygons, line := [Ground(0.0, 10), Ground(5.0, 20)], At(place, time);
            && (InTerritory(line, polygons) <==> place != 9.0)
            && EntryTime(line, polygons) == if place == 5.0 && time < 20 then 20
                                            else if place == 0.0 && time < 10 then 10 else time
  {
    var polygons, line := [Ground(0.0, 10), Ground(5.0, 20)], At(place, time);
    GroundHolds(0.0, 10, line, place);
    GroundHolds(5.0, 20, line, place - 5.0);
    hide Holds;
    assert polygons[..1] == [Ground(0.0, 10)] && polygons[..1][..0] == [];
    assert polygons[0] in polygons && polygons[1] in polygons;
    assert EntryTime(line, polygons[..1]) == if place == 0.0 && time < 10 then 10 else time;
  }

  lemma OfThreeRemain(p: LiveLine, q: LiveLine, r: LiveLine, polygons: seq<Polygon>, cutoffs: Cutoffs)
    requires Advance(Advance(Advance(map[], p, polygons), q, polygons), r, polygons) == cutoffs
    ensures Remaining([p, q, r], polygons)
         == (if Survives(cutoffs)(p) then [p] else []) + (if Survives(cutoffs)(q) then [q] else [])
            + (if Survives(cutoffs)(r) then [r] else [])
  {
    FilterThree(p, q, r, Survives(cutoffs));
    assert [p, q, r][..2] == [p, q] && [p, q][..1] == [p] && [p][..0] == [];
    assert CutoffsOf([p], polygons) == Advance(map[], p, polygons);
    assert CutoffsOf([p, q], polygons) == Advance(CutoffsOf([p], polygons), q, polygons);
  }
}
