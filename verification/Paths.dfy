/** Paths and closed lists of points, for any symmetric notion of an edge being hit. */
module Paths {
  import opened Sequences

  /** Is an odd number of the edges of the open path hit? */
  predicate PathParity<T>(hits: (T, T) -> bool, path: seq<T>) {
    |path| >= 2
    && PathParity(hits, path[..|path| - 1]) != hits(path[|path| - 2], path[|path| - 1])
  }

  /** The path that walks once around a closed list. */
  function Closed<T>(s: seq<T>): seq<T> {
    if s == [] then [] else s + [s[0]]
  }

  /** Is an odd number of the edges of the closed list hit? */
  predicate CycleParity<T>(hits: (T, T) -> bool, s: seq<T>) {
    PathParity(hits, Closed(s))
  }

  /** The index after `i`, going around. */
  function Next<T>(s: seq<T>, i: nat): (j: nat)
    requires i < |s|
    ensures j < |s|
  {
    if i + 1 == |s| then 0 else i + 1
  }

  ghost predicate Symmetric<T(!new)>(hits: (T, T) -> bool) {
    forall a, b :: hits(a, b) == hits(b, a)
  }

  /** The closed list with one more point between entries `i` and `i + 1`. */
  function Insert<T>(s: seq<T>, i: nat, m: T): seq<T>
    requires i < |s|
  {
    s[..i + 1] + [m] + s[i + 1..]
  }

  lemma PathExtend<T>(hits: (T, T) -> bool, s: seq<T>, b: T)
    ensures PathParity(hits, s + [b]) == (PathParity(hits, s) != (s != [] && hits(s[|s| - 1], b)))
  {
    var t := s + [b];
    assert t[..|t| - 1] == s && t[|t| - 1] == b;
  }

  lemma EdgePath<T>(hits: (T, T) -> bool, a: T, b: T)
    ensures PathParity(hits, [a, b]) == hits(a, b)
  {
  }

  lemma {:induction false} PathJoin<T>(hits: (T, T) -> bool, s: seq<T>, t: seq<T>)
    requires s != [] && t != [] && s[|s| - 1] == t[0]
    ensures PathParity(hits, s + t[1..]) == (PathParity(hits, s) != PathParity(hits, t))
  {
    if |t| == 1 {
      assert s + t[1..] == s;
    } else {
      var front := t[..|t| - 1];
      PathJoin(hits, s, front);
      assert (s + t[1..])[..|s + t[1..]| - 1] == s + front[1..];
      assert (s + t[1..])[|s + t[1..]| - 2] == t[|t| - 2];
    }
  }

  lemma {:induction false} PathReversed<T(!new)>(hits: (T, T) -> bool, s: seq<T>)
    requires Symmetric(hits)
    ensures PathParity(hits, Reverse(s)) == PathParity(hits, s)
  {
    if |s| >= 2 {
      var front := s[..|s| - 1];
      PathReversed(hits, front);
      var edge := [s[|s| - 1], s[|s| - 2]];
      assert Reverse(s) == edge + Reverse(front)[1..];
      PathJoin(hits, edge, Reverse(front));
      EdgePath(hits, s[|s| - 1], s[|s| - 2]);
    }
  }

  lemma JoinThree<T>(hits: (T, T) -> bool, start: seq<T>, middle: seq<T>, end: seq<T>)
    requires start != [] && middle != [] && end != []
    requires start[|start| - 1] == middle[0] && middle[|middle| - 1] == end[0]
    ensures PathParity(hits, (start + middle[1..]) + end[1..])
         == ((PathParity(hits, start) != PathParity(hits, middle)) != PathParity(hits, end))
  {
    var joined := start + middle[1..];
    PathJoin(hits, start, middle);
    LastOfJoin(start, middle);
    PathJoin(hits, joined, end);
  }

  lemma LastOfJoin<T>(s: seq<T>, t: seq<T>)
    requires s != [] && t != [] && s[|s| - 1] == t[0]
    ensures (s + t[1..])[|s + t[1..]| - 1] == t[|t| - 1]
  {
  }

  lemma JoinAndClose<T>(hits: (T, T) -> bool, s: seq<T>, t: seq<T>)
    requires s != [] && t != [] && s[|s| - 1] == t[0]
    ensures PathParity(hits, (s + t[1..]) + [s[0]])
         == ((PathParity(hits, s) != PathParity(hits, t)) != hits(t[|t| - 1], s[0]))
  {
    hide PathParity;
    PathJoin(hits, s, t);
    LastOfJoin(s, t);
    PathExtend(hits, s + t[1..], s[0]);
  }

  /** Three paths that close up, and the two closed paths that share the chord `middle` spans. */
  lemma ChordOfPaths<T>(hits: (T, T) -> bool, start: seq<T>, middle: seq<T>, end: seq<T>)
    requires start != [] && middle != [] && end != []
    requires start[|start| - 1] == middle[0] && middle[|middle| - 1] == end[0] && end[|end| - 1] == start[0]
    requires hits(middle[0], end[0]) == hits(end[0], middle[0])
    ensures PathParity(hits, (start + middle[1..]) + end[1..])
         == (PathParity(hits, middle + [middle[0]]) != PathParity(hits, (end + start[1..]) + [end[0]]))
  {
    JoinThree(hits, start, middle, end);
    PathExtend(hits, middle, middle[0]);
    JoinAndClose(hits, end, start);
  }

  lemma CutAround<T>(s: seq<T>, i: nat, j: nat)
    requires i <= j < |s|
    ensures s[..j + 1] + (s[j..] + [s[0]])[1..] == Closed(s)
    ensures s[..i + 1] + s[i..j + 1][1..] == s[..j + 1]
    ensures (s[j..] + [s[0]]) + s[..i + 1][1..] == s[j..] + s[..i + 1]
  {
  }

  /** Cutting a closed list along the chord between two of its entries splits the parity by exclusive or. */
  lemma ChordParity<T(!new)>(hits: (T, T) -> bool, s: seq<T>, i: nat, j: nat)
    requires Symmetric(hits) && i <= j < |s|
    ensures CycleParity(hits, s)
         == (CycleParity(hits, s[i..j + 1]) != CycleParity(hits, s[j..] + s[..i + 1]))
  {
    CutAround(s, i, j);
    ChordOfPaths(hits, s[..i + 1], s[i..j + 1], s[j..] + [s[0]]);
  }

  lemma SwapPaths<T>(hits: (T, T) -> bool, there: seq<T>, back: seq<T>)
    requires there != [] && back != [] && there[|there| - 1] == back[0] && back[|back| - 1] == there[0]
    ensures PathParity(hits, there + back[1..]) == PathParity(hits, back + there[1..])
  {
    PathJoin(hits, there, back);
    PathJoin(hits, back, there);
  }

  lemma RotationParity<T>(hits: (T, T) -> bool, s: seq<T>, k: nat)
    requires k <= |s|
    ensures CycleParity(hits, s[k..] + s[..k]) == CycleParity(hits, s)
  {
    if k == |s| {
      assert s[k..] + s[..k] == s;
    } else {
      CutAround(s, k, k);
      SwapPaths(hits, s[..k + 1], s[k..] + [s[0]]);
      TurnedClosed(s, k);
    }
  }

  lemma TurnedClosed<T>(s: seq<T>, k: nat)
    requires k < |s|
    ensures s[k..] + s[..k + 1] == Closed(s[k..] + s[..k])
  {
  }

  lemma ReversedClosed<T>(s: seq<T>)
    requires s != []
    ensures var r := Reverse(s);
            Reverse(Closed(s)) == Closed(r[|s| - 1..] + r[..|s| - 1])
  {
    hide Reverse;
    ReverseExtend(s, s[0]);
    LastInFront(Reverse(s));
  }

  lemma LastInFront<T>(r: seq<T>)
    requires r != []
    ensures Closed(r[|r| - 1..] + r[..|r| - 1]) == [r[|r| - 1]] + r
  {
    var front, last := r[..|r| - 1], r[|r| - 1];
    assert r[|r| - 1..] == [last];
    assert r == front + [last];
    assert Closed([last] + front) == ([last] + front) + [last];
  }

  lemma ReversalParity<T(!new)>(hits: (T, T) -> bool, s: seq<T>)
    requires Symmetric(hits)
    ensures CycleParity(hits, Reverse(s)) == CycleParity(hits, s)
  {
    if s != [] {
      var r := Reverse(s);
      PathReversed(hits, Closed(s));
      ReversedClosed(s);
      RotationParity(hits, r, |s| - 1);
    }
  }

  lemma ShortCycle<T(!new)>(hits: (T, T) -> bool, s: seq<T>)
    requires |s| <= 2 && Symmetric(hits) && forall a :: !hits(a, a)
    ensures !CycleParity(hits, s)
  {
    if |s| == 1 {
      assert Closed(s) == [s[0], s[0]];
      EdgePath(hits, s[0], s[0]);
    } else if |s| == 2 {
      assert Closed(s) == [s[0], s[1]] + [s[0]];
      PathExtend(hits, [s[0], s[1]], s[0]);
      EdgePath(hits, s[0], s[1]);
    }
  }

  lemma TriangleParity<T>(hits: (T, T) -> bool, a: T, b: T, c: T)
    ensures CycleParity(hits, [a, b, c]) == ((hits(a, b) != hits(b, c)) != hits(c, a))
  {
    assert Closed([a, b, c]) == [a, b] + [c] + [a];
    PathExtend(hits, [a, b] + [c], a);
    PathExtend(hits, [a, b], c);
    EdgePath(hits, a, b);
  }

  lemma InsertOnPath<T>(hits: (T, T) -> bool, before: seq<T>, m: T, after: seq<T>)
    requires before != [] && after != []
    requires var a, b := before[|before| - 1], after[0]; hits(a, b) == (hits(a, m) != hits(m, b))
    ensures PathParity(hits, (before + [m] + [after[0]]) + after[1..])
         == PathParity(hits, (before + [after[0]]) + after[1..])
  {
    PathJoin(hits, before + [m] + [after[0]], after);
    PathJoin(hits, before + [after[0]], after);
    PathExtend(hits, before, after[0]);
    PathExtend(hits, before, m);
    PathExtend(hits, before + [m], after[0]);
  }

  /** Replacing an edge by two that together are hit as it was leaves the parity alone. */
  lemma InsertParity<T>(hits: (T, T) -> bool, s: seq<T>, i: nat, m: T)
    requires i < |s|
    requires var a, b := s[i], s[Next(s, i)]; hits(a, b) == (hits(a, m) != hits(m, b))
    ensures CycleParity(hits, Insert(s, i, m)) == CycleParity(hits, s)
  {
    var before, after := s[..i + 1], s[i + 1..] + [s[0]];
    InsertOnPath(hits, before, m, after);
    InsertAround(s, i, m);
  }

  lemma InsertAround<T>(s: seq<T>, i: nat, m: T)
    requires i < |s|
    ensures var before, after := s[..i + 1], s[i + 1..] + [s[0]];
            (before + [m] + [after[0]]) + after[1..] == Closed(Insert(s, i, m))
            && (before + [after[0]]) + after[1..] == Closed(s)
  {
  }

  /** The exclusive or of the parities of the triangles that fan out from entry 0. */
  predicate FanParity<T>(hits: (T, T) -> bool, s: seq<T>) {
    |s| >= 3
    && FanParity(hits, s[..|s| - 1]) != CycleParity(hits, [s[0], s[|s| - 2], s[|s| - 1]])
  }

  lemma CutLastEar<T(!new)>(hits: (T, T) -> bool, s: seq<T>)
    requires Symmetric(hits) && |s| >= 3
    ensures CycleParity(hits, s)
         == (CycleParity(hits, s[..|s| - 1]) != CycleParity(hits, [s[0], s[|s| - 2], s[|s| - 1]]))
  {
    hide CycleParity;
    var n := |s|;
    ChordParity(hits, s, 0, n - 2);
    assert s[0..n - 1] == s[..n - 1];
    var ear := [s[0], s[n - 2], s[n - 1]];
    assert s[n - 2..] + s[..1] == ear[1..] + ear[..1];
    RotationParity(hits, ear, 1);
  }

  lemma {:induction false} FanOut<T(!new)>(hits: (T, T) -> bool, s: seq<T>)
    requires Symmetric(hits) && forall a :: !hits(a, a)
    ensures CycleParity(hits, s) == FanParity(hits, s)
  {
    if |s| >= 3 {
      CutLastEar(hits, s);
      FanOut(hits, s[..|s| - 1]);
    } else {
      ShortCycle(hits, s);
    }
  }

  /** The relation holds along every edge of the closed list. */
  ghost predicate AllEdges<T>(rel: (T, T) -> bool, s: seq<T>) {
    forall i :: 0 <= i < |s| ==> rel(s[i], s[Next(s, i)])
  }

  /** The relation holds along the open path. */
  ghost predicate AllSteps<T>(rel: (T, T) -> bool, s: seq<T>) {
    forall i {:trigger s[i]} :: 0 <= i < |s| - 1 ==> rel(s[i], s[i + 1])
  }

  lemma EdgesAreSteps<T>(rel: (T, T) -> bool, s: seq<T>)
    requires s != []
    ensures AllEdges(rel, s) <==> AllSteps(rel, s) && rel(s[|s| - 1], s[0])
  {
    if AllEdges(rel, s) {
      forall i {:trigger s[i]} | 0 <= i < |s| - 1 ensures rel(s[i], s[i + 1]) {
        assert Next(s, i) == i + 1;
      }
      assert Next(s, |s| - 1) == 0;
    }
  }

  lemma FirstAndLastEdges<T>(rel: (T, T) -> bool, s: seq<T>)
    requires |s| >= 2 && AllEdges(rel, s)
    ensures rel(s[0], s[1]) && rel(s[|s| - 2], s[|s| - 1]) && rel(s[|s| - 1], s[0])
  {
    assert Next(s, 0) == 1 && Next(s, |s| - 2) == |s| - 1 && Next(s, |s| - 1) == 0;
  }

  lemma StepsExtend<T>(rel: (T, T) -> bool, s: seq<T>)
    requires |s| >= 2
    ensures AllSteps(rel, s) <==> AllSteps(rel, s[..|s| - 1]) && rel(s[|s| - 2], s[|s| - 1])
  {
  }

  /** Cutting the ear at the last vertex off a polygon, when a point is on one side of the cut only. */
  lemma EarOrRest<T>(rel: (T, T) -> bool, s: seq<T>)
    requires |s| >= 3
    requires var a, b, c := s[0], s[|s| - 2], s[|s| - 1];
             && rel(a, b) != rel(b, a)
             && (rel(a, b) && rel(b, c) && rel(c, a) ==> AllSteps(rel, s[..|s| - 1]))
             && (AllEdges(rel, s[..|s| - 1]) ==> rel(b, c) && rel(c, a))
    ensures var a, b, c := s[0], s[|s| - 2], s[|s| - 1];
            AllEdges(rel, s) <==> (AllEdges(rel, s[..|s| - 1]) != (rel(a, b) && rel(b, c) && rel(c, a)))
  {
    EdgesAreSteps(rel, s);
    StepsExtend(rel, s);
    EdgesAreSteps(rel, s[..|s| - 1]);
  }
}
