/** Laws of sequences that every part of the model needs. */
module Sequences {

  /** Reading a map of slices: a missing key reads as nil. */
  function Lookup<K, V>(m: map<K, seq<V>>, key: K): seq<V> {
    if key in m then m[key] else []
  }

  /** The elements that satisfy `keep`, in their original order. */
  function Filter<T>(s: seq<T>, keep: T -> bool): (r: seq<T>)
    ensures |r| <= |s|
    ensures forall x <- r :: x in s && keep(x)
  {
    if s == [] then []
    else Filter(s[..|s| - 1], keep) + if keep(s[|s| - 1]) then [s[|s| - 1]] else []
  }

  lemma FilterStep<T>(s: seq<T>, i: nat, keep: T -> bool)
    requires i < |s|
    ensures Filter(s[..i + 1], keep) == Filter(s[..i], keep) + if keep(s[i]) then [s[i]] else []
  {
    assert s[..i + 1][..i] == s[..i];
  }

  lemma Recombine<T>(data: seq<T>, idx: nat, x: T, rest: seq<T>)
    requires idx < |data|
    ensures data[..idx] + ([x] + data[idx + 1..]) == data[idx := x]
    ensures data[..idx] + ([data[idx]] + rest) == data[..idx + 1] + rest
  {
  }

  lemma SplitLast<T>(s: seq<T>, t: seq<T>)
    requires t != []
    ensures var front, last := t[..|t| - 1], t[|t| - 1];
            t == front + [last] && s + t == (s + front) + [last]
  {
  }

  lemma {:induction false} FilterAppend<T>(s: seq<T>, t: seq<T>, keep: T -> bool)
    ensures Filter(s + t, keep) == Filter(s, keep) + Filter(t, keep)
  {
    if t == [] {
      assert s + t == s;
    } else {
      assert (s + t)[..|s + t| - 1] == s + t[..|t| - 1];
      FilterAppend(s, t[..|t| - 1], keep);
    }
  }

  lemma FilterAround<T>(s: seq<T>, i: nat, keep: T -> bool)
    requires i < |s|
    ensures Filter(s, keep) == Filter(s[..i], keep) + (if keep(s[i]) then [s[i]] else []) + Filter(s[i + 1..], keep)
  {
    hide Filter;
    SplitHere(s, i + 1);
    FilterAppend(s[..i + 1], s[i + 1..], keep);
    FilterStep(s, i, keep);
  }

  lemma SplitHere<T>(s: seq<T>, i: nat)
    requires i <= |s|
    ensures s == s[..i] + s[i..]
  {
  }

  lemma {:induction false} FilterCount<T>(s: seq<T>, keep: T -> bool, x: T)
    ensures multiset(Filter(s, keep))[x] == if keep(x) then multiset(s)[x] else 0
  {
    if s != [] {
      assert s == s[..|s| - 1] + [s[|s| - 1]];
      FilterCount(s[..|s| - 1], keep, x);
    }
  }

  lemma FilterMember<T>(s: seq<T>, keep: T -> bool, x: T)
    ensures x in Filter(s, keep) <==> x in s && keep(x)
  {
  }

  lemma FilterPermuted<T(!new)>(s: seq<T>, t: seq<T>, keep: T -> bool)
    requires multiset(s) == multiset(t)
    ensures multiset(Filter(s, keep)) == multiset(Filter(t, keep))
    ensures |Filter(s, keep)| == |Filter(t, keep)|
  {
    forall x ensures multiset(Filter(s, keep))[x] == multiset(Filter(t, keep))[x] {
      FilterCount(s, keep, x);
      FilterCount(t, keep, x);
    }
    assert multiset(Filter(s, keep)) == multiset(Filter(t, keep));
    SameLength(Filter(s, keep), Filter(t, keep));
  }

  lemma SameLength<T>(s: seq<T>, t: seq<T>)
    requires multiset(s) == multiset(t)
    ensures |s| == |t|
  {
    assert |s| == |multiset(s)| && |t| == |multiset(t)|;
  }

  lemma SameMembers<T(!new)>(s: seq<T>, t: seq<T>)
    requires multiset(s) == multiset(t)
    ensures forall x :: x in s <==> x in t
  {
    forall x ensures x in s <==> x in t {
      assert x in s <==> x in multiset(s);
      assert x in t <==> x in multiset(t);
    }
  }

  lemma {:induction false} FilterSame<T>(s: seq<T>, p: T -> bool, q: T -> bool)
    requires forall x <- s :: p(x) == q(x)
    ensures Filter(s, p) == Filter(s, q)
  {
    if s != [] {
      FilterSame(s[..|s| - 1], p, q);
    }
  }

  lemma {:induction false} FilterAll<T>(s: seq<T>, p: T -> bool)
    ensures (forall x <- s :: p(x)) <==> |Filter(s, p)| == |s|
    ensures (forall x <- s :: p(x)) ==> Filter(s, p) == s
  {
    if s != [] {
      var front, last := s[..|s| - 1], s[|s| - 1];
      FilterAll(front, p);
      assert Filter(s, p) == Filter(front, p) + if p(last) then [last] else [];
      hide Filter;
      SplitHere(s, |s| - 1);
      assert s[|s| - 1..] == [last];
      AllExtend(front, last, p);
    }
  }

  lemma AllExtend<T>(s: seq<T>, x: T, p: T -> bool)
    ensures (forall y <- s + [x] :: p(y)) <==> (forall y <- s :: p(y)) && p(x)
  {
    assert x in s + [x] && forall y <- s :: y in s + [x];
  }

  lemma {:induction false} FilterNone<T>(s: seq<T>, p: T -> bool)
    ensures (forall x <- s :: !p(x)) <==> Filter(s, p) == []
  {
    if s != [] {
      FilterNone(s[..|s| - 1], p);
      assert s == s[..|s| - 1] + [s[|s| - 1]];
    }
  }

  /** Filtering twice keeps what passes both tests. */
  lemma {:induction false} FilterTwice<T>(s: seq<T>, p: T -> bool, q: T -> bool, both: T -> bool)
    requires forall x <- s :: both(x) == (p(x) && q(x))
    ensures Filter(Filter(s, p), q) == Filter(s, both)
  {
    if s != [] {
      var front, last := s[..|s| - 1], s[|s| - 1];
      FilterTwice(front, p, q, both);
      FilterAppend(Filter(front, p), if p(last) then [last] else [], q);
      FilterOne(last, q);
    }
  }

  lemma FilterThree<T>(p: T, q: T, r: T, keep: T -> bool)
    ensures Filter([p, q, r], keep)
         == (if keep(p) then [p] else []) + (if keep(q) then [q] else []) + (if keep(r) then [r] else [])
  {
    assert [p, q, r][..2] == [p, q] && [p, q][..1] == [p] && [p][..0] == [];
    assert Filter([p], keep) == if keep(p) then [p] else [];
    assert Filter([p, q], keep) == Filter([p], keep) + if keep(q) then [q] else [];
  }

  /** `t` is `s` with some elements left out. */
  ghost predicate Subsequence<T>(t: seq<T>, s: seq<T>) {
    if t == [] then true
    else if s == [] then false
    else (t[|t| - 1] == s[|s| - 1] && Subsequence(t[..|t| - 1], s[..|s| - 1]))
         || Subsequence(t, s[..|s| - 1])
  }

  lemma {:induction false} FilterSubsequence<T>(s: seq<T>, keep: T -> bool)
    ensures Subsequence(Filter(s, keep), s)
  {
    if s != [] {
      var front := Filter(s[..|s| - 1], keep);
      FilterSubsequence(s[..|s| - 1], keep);
      assert (front + [s[|s| - 1]])[..|front|] == front;
      assert Filter(s, keep) == if keep(s[|s| - 1]) then front + [s[|s| - 1]] else front;
    }
  }

  function Apply<S, T>(s: seq<S>, f: S -> T): (r: seq<T>)
    ensures |r| == |s|
    ensures forall k :: 0 <= k < |s| ==> r[k] == f(s[k])
  {
    if s == [] then [] else [f(s[0])] + Apply(s[1..], f)
  }

  lemma ApplyAppend<S, T>(s: seq<S>, t: seq<S>, f: S -> T)
    ensures Apply(s + t, f) == Apply(s, f) + Apply(t, f)
  {
  }

  lemma ApplyStep<S, T>(s: seq<S>, k: nat, f: S -> T)
    requires k < |s|
    ensures Apply(s[..k + 1], f) == Apply(s[..k], f) + [f(s[k])]
  {
  }

  lemma SplitAt<T>(s: seq<T>, x: T) returns (before: seq<T>, after: seq<T>)
    requires x in multiset(s)
    ensures s == before + [x] + after
  {
    var j :| 0 <= j < |s| && s[j] == x;
    before, after := s[..j], s[j + 1..];
  }

  lemma {:induction false} ApplyPermuted<S, T>(s: seq<S>, t: seq<S>, f: S -> T)
    requires multiset(s) == multiset(t)
    ensures multiset(Apply(s, f)) == multiset(Apply(t, f))
  {
    SameLength(s, t);
    if s != [] {
      TailMultiset(s);
      var before, after := SplitAt(t, s[0]);
      assert multiset(before + after) == multiset(t) - multiset{s[0]};
      ApplyPermuted(s[1..], before + after, f);
      ApplyAppend(before, after, f);
      ApplyAppend(before + [s[0]], after, f);
      ApplyAppend(before, [s[0]], f);
    }
  }

  function Reverse<T>(s: seq<T>): (r: seq<T>)
    ensures |r| == |s|
    ensures forall i :: 0 <= i < |s| ==> r[i] == s[|s| - 1 - i]
  {
    if s == [] then [] else Reverse(s[1..]) + [s[0]]
  }

  lemma ReverseExtend<T>(s: seq<T>, x: T)
    ensures Reverse(s + [x]) == [x] + Reverse(s)
  {
    hide Reverse;
    var r := Reverse(s + [x]);
    assert r[0] == x;
    forall i | 0 < i < |r| ensures r[i] == ([x] + Reverse(s))[i] {
      assert r[i] == (s + [x])[|s| - i];
    }
  }

  lemma {:induction false} FilterReverse<T>(s: seq<T>, keep: T -> bool)
    ensures Filter(Reverse(s), keep) == Reverse(Filter(s, keep))
  {
    if s != [] {
      var front, last := s[..|s| - 1], s[|s| - 1];
      FilterReverse(front, keep);
      hide Reverse, Filter;
      SplitHere(s, |s| - 1);
      assert s[|s| - 1..] == [last];
      FilterReverseStep(front, last, keep);
    }
  }

  lemma FilterReverseStep<T>(front: seq<T>, last: T, keep: T -> bool)
    requires Filter(Reverse(front), keep) == Reverse(Filter(front, keep))
    ensures Filter(Reverse(front + [last]), keep) == Reverse(Filter(front + [last], keep))
  {
    hide Reverse, Filter;
    ReverseExtend(front, last);
    FilterAppend([last], Reverse(front), keep);
    FilterAppend(front, [last], keep);
    FilterOne(last, keep);
    if keep(last) {
      ReverseExtend(Filter(front, keep), last);
    } else {
      assert Filter(front, keep) + [] == Filter(front, keep);
    }
  }

  lemma FilterOne<T>(x: T, keep: T -> bool)
    ensures Filter([x], keep) == if keep(x) then [x] else []
  {
    assert [x][..0] == [];
  }

  lemma ReversedOrder<T>(s: seq<T>, atMost: (T, T) -> bool)
    ensures InOrder(Reverse(s), atMost) <==> forall i, j :: 0 <= i < j < |s| ==> atMost(s[j], s[i])
  {
    hide Reverse;
    var r := Reverse(s);
    if InOrder(r, atMost) {
      forall i, j | 0 <= i < j < |s| ensures atMost(s[j], s[i]) {
        assert atMost(r[|s| - 1 - j], r[|s| - 1 - i]);
      }
    }
  }

  lemma {:induction false} ReverseMultiset<T>(s: seq<T>)
    ensures multiset(Reverse(s)) == multiset(s)
  {
    if s != [] {
      ReverseMultiset(s[1..]);
      assert s == [s[0]] + s[1..];
    }
  }

  /** Sorted lists with strictly ordered keys are determined by their elements. */
  ghost predicate StrictlyAscending<T(!new)>(s: seq<T>, before: (T, T) -> bool) {
    forall i, j :: 0 <= i < j < |s| ==> before(s[i], s[j])
  }

  lemma {:induction false} SortedUnique<T(!new)>(s: seq<T>, t: seq<T>, before: (T, T) -> bool)
    requires multiset(s) == multiset(t)
    requires StrictlyAscending(s, before) && StrictlyAscending(t, before)
    requires forall x <- s, y <- s | before(x, y) :: !before(y, x)
    ensures s == t
  {
    SameLength(s, t);
    SameMembers(s, t);
    if s != [] {
      SameHead(s, t, before);
      TailMultiset(s);
      TailMultiset(t);
      SortedUnique(s[1..], t[1..], before);
    }
  }

  lemma TailMultiset<T>(s: seq<T>)
    requires s != []
    ensures multiset(s[1..]) == multiset(s) - multiset{s[0]}
    ensures s == [s[0]] + s[1..]
  {
    assert s == [s[0]] + s[1..];
  }

  lemma SameHead<T(!new)>(s: seq<T>, t: seq<T>, before: (T, T) -> bool)
    requires s != [] && t != [] && s[0] in t && t[0] in s
    requires StrictlyAscending(s, before) && StrictlyAscending(t, before)
    requires forall x <- s, y <- s | before(x, y) :: !before(y, x)
    ensures s[0] == t[0]
  {
  }

  // ----- lists without related entries

  ghost predicate Unrelated<T>(s: seq<T>, rel: (T, T) -> bool) {
    forall i, j :: 0 <= i < j < |s| ==> !rel(s[i], s[j])
  }

  /** The same of the entries that satisfy `keep`. */
  ghost predicate KeptUnrelated<T>(s: seq<T>, keep: T -> bool, rel: (T, T) -> bool) {
    forall i, j :: 0 <= i < j < |s| && keep(s[i]) && keep(s[j]) ==> !rel(s[i], s[j])
  }

  lemma UnrelatedExtend<T>(s: seq<T>, x: T, rel: (T, T) -> bool)
    ensures Unrelated(s + [x], rel) <==> Unrelated(s, rel) && forall y <- s :: !rel(y, x)
  {
    var r := s + [x];
    assert forall k :: 0 <= k < |s| ==> r[k] == s[k];
    assert r[|s|] == x;
  }

  lemma KeptUnrelatedExtend<T>(s: seq<T>, x: T, keep: T -> bool, rel: (T, T) -> bool)
    ensures KeptUnrelated(s + [x], keep, rel)
       <==> KeptUnrelated(s, keep, rel) && (keep(x) ==> forall y <- s :: keep(y) ==> !rel(y, x))
  {
    var r := s + [x];
    assert forall k :: 0 <= k < |s| ==> r[k] == s[k];
    assert r[|s|] == x;
  }

  lemma {:induction false} FilterUnrelated<T>(s: seq<T>, keep: T -> bool, rel: (T, T) -> bool)
    ensures Unrelated(Filter(s, keep), rel) <==> KeptUnrelated(s, keep, rel)
  {
    if s != [] {
      var front, last := s[..|s| - 1], s[|s| - 1];
      assert s == front + [last];
      FilterUnrelated(front, keep, rel);
      KeptUnrelatedExtend(front, last, keep, rel);
      UnrelatedExtend(Filter(front, keep), last, rel);
      FilterMembers(front, keep);
      assert Filter(s, keep) == if keep(last) then Filter(front, keep) + [last] else Filter(front, keep);
      hide Filter, Unrelated, KeptUnrelated;
    }
  }

  lemma FilterMembers<T>(s: seq<T>, keep: T -> bool)
    ensures forall x <- s :: keep(x) ==> x in Filter(s, keep)
  {
    forall x <- s ensures keep(x) ==> x in Filter(s, keep) {
      FilterMember(s, keep, x);
    }
  }

  lemma UnrelatedPermuted<T(!new)>(s: seq<T>, t: seq<T>, rel: (T, T) -> bool)
    requires multiset(s) == multiset(t) && Unrelated(s, rel)
    requires forall x, y :: rel(x, y) == rel(y, x)
    ensures Unrelated(t, rel)
  {
    forall i, j | 0 <= i < j < |t| ensures !rel(t[i], t[j]) {
      SameMembers(s, t);
      assert t[i] in t;
      var before, after := SplitAt(s, t[i]);
      var k := WithoutEntry(before + after, t, i, j);
      assert t[j] == if k < |before| then s[k] else s[k + 1];
      assert t[i] == s[|before|];
    }
  }

  lemma WithoutEntry<T(!new)>(r: seq<T>, t: seq<T>, i: nat, j: nat) returns (k: nat)
    requires i < j < |t| && multiset(r) + multiset{t[i]} == multiset(t)
    ensures k < |r| && r[k] == t[j]
  {
    var rest := t[..i] + t[i + 1..];
    RestMultiset(t, i);
    assert multiset(r) == multiset(t) - multiset{t[i]};
    SameMembers(rest, r);
    assert rest[j - 1] == t[j] && rest[j - 1] in rest;
    k :| 0 <= k < |r| && r[k] == t[j];
  }

  lemma RestMultiset<T>(t: seq<T>, i: nat)
    requires i < |t|
    ensures multiset(t[..i] + t[i + 1..]) == multiset(t) - multiset{t[i]}
  {
    assert t == t[..i] + ([t[i]] + t[i + 1..]);
  }

  // ----- sorting by distinct keys

  ghost predicate DistinctKeys<T>(s: seq<T>, key: T -> int) {
    forall i, j :: 0 <= i < j < |s| ==> key(s[i]) != key(s[j])
  }

  ghost predicate AscendingKeys<T>(s: seq<T>, key: T -> int) {
    forall i, j :: 0 <= i < j < |s| ==> key(s[i]) <= key(s[j])
  }

  function SameKey<T>(key: T -> int): (T, T) -> bool {
    (x, y) => key(x) == key(y)
  }

  lemma DistinctKeysPermuted<T(!new)>(s: seq<T>, t: seq<T>, key: T -> int)
    requires multiset(s) == multiset(t) && DistinctKeys(s, key)
    ensures DistinctKeys(t, key)
  {
    UnrelatedPermuted(s, t, SameKey(key));
    assert Unrelated(t, SameKey(key));
  }

  function ByKey<T>(key: T -> int): (T, T) -> bool {
    (x, y) => key(x) < key(y)
  }

  /** Distinct keys leave a sort by key no choice. */
  lemma SortedByDistinctKeys<T(!new)>(s: seq<T>, t: seq<T>, key: T -> int)
    requires multiset(s) == multiset(t) && DistinctKeys(s, key)
    requires AscendingKeys(s, key) && AscendingKeys(t, key)
    ensures s == t
  {
    DistinctKeysPermuted(s, t, key);
    SortedUnique(s, t, ByKey(key));
  }

  lemma FilterDistinct<T(!new)>(s: seq<T>, keep: T -> bool, key: T -> int)
    requires forall i, j :: 0 <= i < j < |s| && keep(s[i]) && keep(s[j]) ==> key(s[i]) != key(s[j])
    ensures DistinctKeys(Filter(s, keep), key)
  {
    FilterUnrelated(s, keep, SameKey(key));
    assert Unrelated(Filter(s, keep), SameKey(key));
  }

  // ----- sorting by a total order

  ghost predicate InOrder<T>(s: seq<T>, atMost: (T, T) -> bool) {
    forall i, j :: 0 <= i < j < |s| ==> atMost(s[i], s[j])
  }

  ghost predicate TotalOrder<T(!new)>(atMost: (T, T) -> bool) {
    && (forall x, y :: atMost(x, y) || atMost(y, x))
    && forall x, y, z :: atMost(x, y) && atMost(y, z) ==> atMost(x, z)
  }

  function InsertBy<T>(s: seq<T>, x: T, atMost: (T, T) -> bool): seq<T> {
    if s == [] || atMost(x, s[0]) then [x] + s else [s[0]] + InsertBy(s[1..], x, atMost)
  }

  function SortBy<T>(s: seq<T>, atMost: (T, T) -> bool): seq<T> {
    if s == [] then [] else InsertBy(SortBy(s[1..], atMost), s[0], atMost)
  }

  lemma {:induction false} InsertByLaw<T(!new)>(s: seq<T>, x: T, atMost: (T, T) -> bool)
    requires TotalOrder(atMost) && InOrder(s, atMost)
    ensures multiset(InsertBy(s, x, atMost)) == multiset(s) + multiset{x}
    ensures InOrder(InsertBy(s, x, atMost), atMost)
  {
    if s == [] || atMost(x, s[0]) {
      forall j | 0 <= j < |s| ensures atMost(x, s[j]) {
        assert j == 0 || atMost(s[0], s[j]);
      }
      InOrderCons(x, s, atMost);
    } else {
      var r := InsertBy(s[1..], x, atMost);
      assert InsertBy(s, x, atMost) == [s[0]] + r;
      hide InsertBy;
      InsertByLaw(s[1..], x, atMost);
      HeadBack(s, x, r);
      forall j | 0 <= j < |r| ensures atMost(s[0], r[j]) {
        InsertedMember(s[1..], x, r, j);
      }
      hide InOrder, TotalOrder;
      InOrderCons(s[0], r, atMost);
    }
  }

  lemma HeadBack<T>(s: seq<T>, x: T, r: seq<T>)
    requires s != [] && multiset(r) == multiset(s[1..]) + multiset{x}
    ensures multiset([s[0]] + r) == multiset(s) + multiset{x}
  {
    TailMultiset(s);
  }

  lemma InOrderCons<T>(x: T, s: seq<T>, atMost: (T, T) -> bool)
    requires InOrder(s, atMost) && forall j :: 0 <= j < |s| ==> atMost(x, s[j])
    ensures InOrder([x] + s, atMost)
  {
  }

  lemma InsertedMember<T>(s: seq<T>, x: T, r: seq<T>, j: nat)
    requires multiset(r) == multiset(s) + multiset{x} && j < |r|
    ensures r[j] == x || r[j] in s
  {
    assert r[j] in multiset(r);
  }

  lemma {:induction false} SortByLaw<T(!new)>(s: seq<T>, atMost: (T, T) -> bool)
    requires TotalOrder(atMost)
    ensures multiset(SortBy(s, atMost)) == multiset(s) && InOrder(SortBy(s, atMost), atMost)
  {
    if s != [] {
      SortByLaw(s[1..], atMost);
      InsertByLaw(SortBy(s[1..], atMost), s[0], atMost);
      TailMultiset(s);
    }
  }
}
