/** Sums along paths and over lists, for any real weights. */
module Sums {
  import opened Paths
  import opened Sequences

  function PathSum<T>(w: (T, T) -> real, path: seq<T>): real {
    if |path| < 2 then 0.0 else PathSum(w, path[..|path| - 1]) + w(path[|path| - 2], path[|path| - 1])
  }

  function CycleSum<T>(w: (T, T) -> real, s: seq<T>): real {
    PathSum(w, Closed(s))
  }

  ghost predicate Antisymmetric<T(!new)>(w: (T, T) -> real) {
    forall a, b :: w(a, b) == -w(b, a)
  }

  lemma SumExtend<T>(w: (T, T) -> real, s: seq<T>, p: T)
    ensures PathSum(w, s + [p]) == PathSum(w, s) + if s == [] then 0.0 else w(s[|s| - 1], p)
  {
  }

  lemma {:induction false} SumJoin<T>(w: (T, T) -> real, s: seq<T>, t: seq<T>)
    requires s != [] && t != [] && s[|s| - 1] == t[0]
    ensures PathSum(w, s + t[1..]) == PathSum(w, s) + PathSum(w, t)
  {
    if |t| == 1 {
      assert s + t[1..] == s;
    } else {
      var front, last := t[..|t| - 1], t[|t| - 1];
      SumJoin(w, s, front);
      hide PathSum;
      LastOfJoin(s, front);
      JoinExtend(s, t);
      SumExtend(w, s + front[1..], last);
      SumExtend(w, front, last);
    }
  }

  lemma JoinExtend<T>(s: seq<T>, t: seq<T>)
    requires |t| >= 2
    ensures var front, last := t[..|t| - 1], t[|t| - 1];
            t == front + [last] && s + t[1..] == (s + front[1..]) + [last]
  {
  }

  lemma {:induction false} SumReversed<T(!new)>(w: (T, T) -> real, s: seq<T>)
    requires Antisymmetric(w)
    ensures PathSum(w, Reverse(s)) == -PathSum(w, s)
  {
    if |s| >= 2 {
      var front, last := s[..|s| - 1], s[|s| - 1];
      SumReversed(w, front);
      var edge := [last, front[|front| - 1]];
      assert Reverse(s) == edge + Reverse(front)[1..];
      SumJoin(w, edge, Reverse(front));
      SumExtend(w, [last], front[|front| - 1]);
      assert [last] + [front[|front| - 1]] == edge;
    }
  }

  /** Starting the list elsewhere changes nothing. */
  lemma RotationSum<T>(w: (T, T) -> real, s: seq<T>, k: nat)
    requires k <= |s|
    ensures CycleSum(w, s[k..] + s[..k]) == CycleSum(w, s)
  {
    if k == |s| {
      assert s[k..] + s[..k] == s;
    } else {
      CutAround(s, k, k);
      SumJoin(w, s[..k + 1], s[k..] + [s[0]]);
      SumJoin(w, s[k..] + [s[0]], s[..k + 1]);
      TurnedClosed(s, k);
    }
  }

  /** Travelling the other way round changes the sign. */
  lemma ReversalSum<T(!new)>(w: (T, T) -> real, s: seq<T>)
    requires Antisymmetric(w)
    ensures CycleSum(w, Reverse(s)) == -CycleSum(w, s)
  {
    if s != [] {
      var r := Reverse(s);
      SumReversed(w, Closed(s));
      ReversedClosed(s);
      RotationSum(w, r, |s| - 1);
    }
  }

  /** A change of every weight by a difference of potentials adds up to the difference at the ends. */
  lemma {:induction false} PotentialSum<T(!new)>(w: (T, T) -> real, s: seq<T>, f: T -> T, g: T -> real)
    requires s != [] && forall a, b :: w(f(a), f(b)) == w(a, b) + g(b) - g(a)
    ensures PathSum(w, Apply(s, f)) == PathSum(w, s) + g(s[|s| - 1]) - g(s[0])
  {
    if |s| >= 2 {
      var front, last := s[..|s| - 1], s[|s| - 1];
      PotentialSum(w, front, f, g);
      ApplyStep(s, |s| - 1, f);
      assert s[..|s|] == s;
      hide Apply;
      SumExtend(w, Apply(front, f), f(last));
      assert w(f(front[|front| - 1]), f(last)) == w(front[|front| - 1], last) + g(last) - g(front[|front| - 1]);
    }
  }

  lemma PotentialCycle<T(!new)>(w: (T, T) -> real, s: seq<T>, f: T -> T, g: T -> real)
    requires forall a, b :: w(f(a), f(b)) == w(a, b) + g(b) - g(a)
    ensures CycleSum(w, Apply(s, f)) == CycleSum(w, s)
  {
    if s != [] {
      PotentialSum(w, Closed(s), f, g);
      ApplyAppend(s, [s[0]], f);
      assert Apply([s[0]], f) == [f(s[0])];
    }
  }

  /** The sum over the triangles that fan out from entry 0. */
  function FanSum<T>(turn: (T, T, T) -> real, s: seq<T>): real {
    if |s| < 3 then 0.0 else FanSum(turn, s[..|s| - 1]) + turn(s[0], s[|s| - 2], s[|s| - 1])
  }

  lemma CloseSum<T>(w: (T, T) -> real, s: seq<T>)
    requires s != []
    ensures CycleSum(w, s) == PathSum(w, s) + w(s[|s| - 1], s[0])
  {
  }

  /** A sum around a closed list is the sum over its fan triangles. */
  lemma {:induction false} FanOutSum<T(!new)>(w: (T, T) -> real, turn: (T, T, T) -> real, s: seq<T>)
    requires Antisymmetric(w) && forall a, b, c :: turn(a, b, c) == w(a, b) + w(b, c) + w(c, a)
    ensures CycleSum(w, s) == FanSum(turn, s)
  {
    if |s| >= 3 {
      var front := s[..|s| - 1];
      FanOutSum(w, turn, front);
      CloseSum(w, s);
      CloseSum(w, front);
    } else if |s| == 2 {
      CloseSum(w, s);
      SumExtend(w, [s[0]], s[1]);
      assert s == [s[0]] + [s[1]];
    } else if |s| == 1 {
      CloseSum(w, s);
      assert w(s[0], s[0]) == -w(s[0], s[0]);
    }
  }

  ghost predicate Within<T>(turn: (T, T, T) -> real, s: seq<T>, k: real) {
    forall a <- s, b <- s, c <- s :: -k <= turn(a, b, c) <= k
  }

  lemma WithinSubset<T>(turn: (T, T, T) -> real, s: seq<T>, t: seq<T>, k: real)
    requires Within(turn, s, k) && forall x <- t :: x in s
    ensures Within(turn, t, k)
  {
  }

  lemma {:induction false} FanBound<T>(turn: (T, T, T) -> real, s: seq<T>, k: real)
    requires |s| >= 2 && Within(turn, s, k)
    ensures -Times(|s| - 2, k) <= FanSum(turn, s) <= Times(|s| - 2, k)
  {
    if |s| >= 3 {
      var front := s[..|s| - 1];
      assert forall p <- front :: p in s;
      FanBound(turn, front, k);
      assert s[0] in s && s[|s| - 2] in s && s[|s| - 1] in s;
    }
  }

  /** The bound for any selection from `t` is that of `t`. */
  lemma SelectionBound<T>(turn: (T, T, T) -> real, s: seq<T>, t: seq<T>, k: real)
    requires 2 <= |t| && |s| <= |t| && (forall x <- s :: x in t) && Within(turn, t, k) && k >= 0.0
    ensures -Times(|t| - 2, k) <= FanSum(turn, s) <= Times(|t| - 2, k)
  {
    if |s| >= 2 {
      WithinSubset(turn, t, s, k);
      FanBound(turn, s, k);
      TimesMonotone(|s| - 2, |t| - 2, k);
    } else {
      TimesMonotone(0, |t| - 2, k);
    }
  }

  /** `n` times `k`. */
  function Times(n: nat, k: real): real {
    if n == 0 then 0.0 else Times(n - 1, k) + k
  }

  lemma {:induction false} TimesIs(n: nat, k: real)
    ensures Times(n, k) == n as real * k
  {
    if n > 0 {
      TimesIs(n - 1, k);
      assert n as real * k == (n - 1) as real * k + k;
    }
  }

  lemma {:induction false} TimesMonotone(m: nat, n: nat, k: real)
    requires m <= n && k >= 0.0
    ensures 0.0 <= Times(m, k) <= Times(n, k)
  {
    if n > 0 {
      TimesMonotone(if m == n then m - 1 else m, n - 1, k);
    }
  }

  function Total<T>(value: T -> real, s: seq<T>): real {
    if s == [] then 0.0 else Total(value, s[..|s| - 1]) + value(s[|s| - 1])
  }

  lemma TotalExtend<T>(value: T -> real, s: seq<T>, x: T)
    ensures Total(value, s + [x]) == Total(value, s) + value(x)
  {
  }

  function WithKey<K(==), T>(key: T -> K, k: K): T -> bool {
    x => key(x) == k
  }

  /** The total of the elements with key `k`. */
  function TotalOf<K(==), T>(value: T -> real, key: T -> K, s: seq<T>, k: K): real {
    Total(value, Filter(s, WithKey(key, k)))
  }

  lemma TotalOfExtend<K, T>(value: T -> real, key: T -> K, s: seq<T>, x: T, k: K)
    ensures TotalOf(value, key, s + [x], k) == TotalOf(value, key, s, k) + if key(x) == k then value(x) else 0.0
  {
    var mine := Filter(s, WithKey(key, k));
    assert (s + [x])[..|s|] == s;
    assert Filter(s + [x], WithKey(key, k)) == if key(x) == k then mine + [x] else mine;
    TotalExtend(value, mine, x);
  }

  ghost predicate Occurs<K, T>(key: T -> K, s: seq<T>, k: K) {
    exists x <- s :: key(x) == k
  }

  ghost predicate KeysOccur<K(!new), T>(totals: map<K, real>, key: T -> K, s: seq<T>) {
    forall k :: k in totals <==> Occurs(key, s, k)
  }

  /** The keys of the elements, each with its total. */
  ghost predicate AreTotals<K(!new), T>(totals: map<K, real>, value: T -> real, key: T -> K, s: seq<T>) {
    KeysOccur(totals, key, s) && Agree(totals, TotalsBy(value, key, s))
  }

  function TotalsBy<K(==), T>(value: T -> real, key: T -> K, s: seq<T>): K -> real {
    k => TotalOf(value, key, s, k)
  }

  ghost predicate Agree<K(!new)>(totals: map<K, real>, f: K -> real) {
    forall k :: k in totals ==> totals[k] == f(k)
  }

  lemma AgreeAfter<K(!new)>(totals: map<K, real>, f: K -> real, g: K -> real, k: K, v: real)
    requires Agree(totals, f)
    requires forall j :: g(j) == (if j in totals then f(j) else 0.0) + if j == k then v else 0.0
    ensures Agree(totals[k := if k in totals then totals[k] + v else v], g)
  {
  }

  lemma NoneOccurs<K, T>(value: T -> real, key: T -> K, s: seq<T>, k: K)
    requires !Occurs(key, s, k)
    ensures TotalOf(value, key, s, k) == 0.0
  {
    FilterNone(s, WithKey(key, k));
  }

  lemma AddTotal<K(!new), T>(totals: map<K, real>, value: T -> real, key: T -> K, s: seq<T>, x: T, k: K, v: real)
    requires AreTotals(totals, value, key, s) && k == key(x) && v == value(x)
    ensures AreTotals(totals[k := if k in totals then totals[k] + v else v], value, key, s + [x])
  {
    var after := totals[k := if k in totals then totals[k] + v else v];
    KeysExtend(totals, key, s, x, after[k]);
    var f, g := TotalsBy(value, key, s), TotalsBy(value, key, s + [x]);
    forall j ensures g(j) == (if j in totals then f(j) else 0.0) + if j == k then v else 0.0 {
      ValueExtend(totals, value, key, s, x, j);
    }
    AgreeAfter(totals, f, g, k, v);
  }

  lemma ValueExtend<K(!new), T>(totals: map<K, real>, value: T -> real, key: T -> K, s: seq<T>, x: T, k: K)
    requires AreTotals(totals, value, key, s)
    ensures TotalOf(value, key, s + [x], k)
         == (if k in totals then TotalOf(value, key, s, k) else 0.0) + if key(x) == k then value(x) else 0.0
  {
    TotalOfExtend(value, key, s, x, k);
    if k !in totals {
      NoneOccurs(value, key, s, k);
    }
  }

  lemma KeysExtend<K(!new), T>(totals: map<K, real>, key: T -> K, s: seq<T>, x: T, v: real)
    requires KeysOccur(totals, key, s)
    ensures KeysOccur(totals[key(x) := v], key, s + [x])
  {
  }

  /** The totals of the given keys, added up. */
  function SumOver<K(==), T>(value: T -> real, key: T -> K, s: seq<T>, keys: seq<K>): real {
    if keys == [] then 0.0 else SumOver(value, key, s, keys[1..]) + TotalOf(value, key, s, keys[0])
  }

  /** One more element adds its value to the total of its key and to no other. */
  lemma {:induction false} SumStep<K, T>(value: T -> real, key: T -> K, s: seq<T>, x: T, keys: seq<K>)
    requires forall i, j :: 0 <= i < j < |keys| ==> keys[i] != keys[j]
    ensures SumOver(value, key, s + [x], keys)
         == SumOver(value, key, s, keys) + if key(x) in keys then value(x) else 0.0
  {
    if keys != [] {
      SumStep(value, key, s, x, keys[1..]);
      assert keys[0] !in keys[1..];
      assert keys == [keys[0]] + keys[1..];
      TotalOfExtend(value, key, s, x, keys[0]);
    }
  }

  /** Totals by key add up to the whole: nothing is lost and nothing counted twice. */
  lemma {:induction false} TotalsConserved<K, T>(value: T -> real, key: T -> K, s: seq<T>, keys: seq<K>)
    requires forall i, j :: 0 <= i < j < |keys| ==> keys[i] != keys[j]
    requires forall x <- s :: key(x) in keys
    ensures SumOver(value, key, s, keys) == Total(value, s)
  {
    if s == [] {
      SumOfNothing(value, key, keys);
    } else {
      var front, x := s[..|s| - 1], s[|s| - 1];
      assert s == front + [x];
      TotalsConserved(value, key, front, keys);
      SumStep(value, key, front, x, keys);
    }
  }

  lemma {:induction false} SumOfNothing<K, T>(value: T -> real, key: T -> K, keys: seq<K>)
    ensures SumOver(value, key, [], keys) == 0.0
  {
    if keys != [] {
      SumOfNothing(value, key, keys[1..]);
    }
  }
}
