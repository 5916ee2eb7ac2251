/** Runner names and their sorted order, which `slices.Sort` gives. */
module Runners {
  import opened Sequences

  /** Go's order of strings. */
  predicate Less(a: string, b: string) {
    b != [] && (a == [] || a[0] < b[0] || (a[0] == b[0] && Less(a[1..], b[1..])))
  }

  /** `a` and `b` differ first at `k`, where `a` has the lower character. */
  ghost predicate LowerAt(a: string, b: string, k: nat) {
    k < |a| && k < |b| && a[..k] == b[..k] && a[k] < b[k]
  }

  /** The order of strings without recursion: a proper prefix comes first, else the first difference decides. */
  ghost predicate Precedes(a: string, b: string) {
    a < b || exists k :: LowerAt(a, b, k)
  }

  lemma {:induction false} LessIsPrecedes(a: string, b: string)
    ensures Less(a, b) <==> Precedes(a, b)
  {
    if a != [] && b != [] {
      LessIsPrecedes(a[1..], b[1..]);
      PrecedesTail(a, b);
    }
  }

  lemma PrecedesTail(a: string, b: string)
    requires a != [] && b != []
    ensures Precedes(a, b) <==> a[0] < b[0] || (a[0] == b[0] && Precedes(a[1..], b[1..]))
  {
    assert a == [a[0]] + a[1..] && b == [b[0]] + b[1..];
    assert a < b <==> a[0] == b[0] && a[1..] < b[1..];
    DiffersTail(a, b);
  }

  lemma DiffersTail(a: string, b: string)
    requires a != [] && b != []
    ensures (exists k :: LowerAt(a, b, k)) <==> a[0] < b[0] || (a[0] == b[0] && exists k :: LowerAt(a[1..], b[1..], k))
  {
    if k: nat :| LowerAt(a, b, k) {
      if k > 0 {
        assert a[..k][0] == b[..k][0] && a[..k][1..] == a[1..][..k - 1] && b[..k][1..] == b[1..][..k - 1];
        assert LowerAt(a[1..], b[1..], k - 1);
      }
    }
    if a[0] < b[0] {
      assert LowerAt(a, b, 0);
    }
    if k: nat :| a[0] == b[0] && LowerAt(a[1..], b[1..], k) {
      assert a[..k + 1] == [a[0]] + a[1..][..k] && b[..k + 1] == [b[0]] + b[1..][..k];
      assert LowerAt(a, b, k + 1);
    }
  }

  lemma {:induction false} LessOrder(a: string, b: string)
    ensures Less(a, b) ==> !Less(b, a)
    ensures Less(a, b) || a == b || Less(b, a)
    ensures !Less(a, a)
  {
    if a != [] && b != [] && a[0] == b[0] {
      LessOrder(a[1..], b[1..]);
      assert a == [a[0]] + a[1..] && b == [b[0]] + b[1..];
    }
    if a != [] {
      LessOrder(a[1..], a[1..]);
    }
  }

  lemma {:induction false} LessTransitive(a: string, b: string, c: string)
    requires Less(a, b) && Less(b, c)
    ensures Less(a, c)
  {
    if a != [] && a[0] == b[0] == c[0] {
      LessTransitive(a[1..], b[1..], c[1..]);
    }
  }

  function Before(): (string, string) -> bool {
    (a, b) => Less(a, b)
  }

  ghost predicate Distinct(s: seq<string>) {
    forall i, j :: 0 <= i < j < |s| ==> s[i] != s[j]
  }

  /** `s` lists `names`, each once. */
  ghost predicate Lists(s: seq<string>, names: set<string>) {
    Distinct(s) && forall x :: x in s <==> x in names
  }

  lemma ListsExtend(s: seq<string>, names: set<string>, x: string)
    requires Lists(s, names) && x !in names
    ensures Lists(s + [x], names + {x})
  {
  }

  function Insert(s: seq<string>, x: string): seq<string> {
    if s == [] || Less(x, s[0]) then [x] + s else [s[0]] + Insert(s[1..], x)
  }

  lemma {:induction false} InsertAscending(s: seq<string>, x: string)
    requires StrictlyAscending(s, Before()) && x !in s
    ensures StrictlyAscending(Insert(s, x), Before())
    ensures forall y :: y in Insert(s, x) <==> y == x || y in s
  {
    if s != [] && !Less(x, s[0]) {
      InsertAscending(s[1..], x);
      LessOrder(x, s[0]);
      var r := Insert(s[1..], x);
      forall j | 0 <= j < |r| ensures Less(s[0], r[j]) {
        assert r[j] in r;
        assert r[j] != x ==> r[j] in s[1..];
      }
      assert s == [s[0]] + s[1..];
    } else if s != [] {
      forall j | 0 <= j < |s| ensures Less(x, s[j]) {
        if j > 0 {
          assert Before()(s[0], s[j]);
          LessTransitive(x, s[0], s[j]);
        }
      }
    }
  }

  /** The names in ascending order. */
  ghost function Ascending(names: set<string>): (r: seq<string>)
    ensures StrictlyAscending(r, Before()) && Lists(r, names)
  {
    if names == {} then []
    else
      var x :| x in names;
      InsertAscending(Ascending(names - {x}), x);
      var r := Insert(Ascending(names - {x}), x);
      AscendingDistinct(r);
      r
  }

  lemma AscendingDistinct(s: seq<string>)
    requires StrictlyAscending(s, Before())
    ensures Distinct(s)
  {
    forall i, j | 0 <= i < j < |s| ensures s[i] != s[j] {
      assert Before()(s[i], s[j]);
      LessOrder(s[i], s[i]);
    }
  }

  lemma AscendingPrecedes(s: seq<string>)
    requires StrictlyAscending(s, Before())
    ensures forall i, j :: 0 <= i < j < |s| ==> Precedes(s[i], s[j])
  {
    forall i, j | 0 <= i < j < |s| ensures Precedes(s[i], s[j]) {
      assert Before()(s[i], s[j]);
      LessIsPrecedes(s[i], s[j]);
    }
  }

  /** Only one list has the names in ascending order. */
  lemma AscendingUnique(s: seq<string>, names: set<string>)
    requires StrictlyAscending(s, Before()) && forall x :: x in s <==> x in names
    ensures s == Ascending(names)
  {
    var t := Ascending(names);
    AscendingDistinct(s);
    DistinctSame(s, t);
    forall x <- s, y <- s | Before()(x, y) ensures !Before()(y, x) {
      LessOrder(x, y);
    }
    SortedUnique(s, t, Before());
  }

  lemma {:induction false} DistinctSame(s: seq<string>, t: seq<string>)
    requires Distinct(s)
    requires Distinct(t)
    requires forall x :: x in s <==> x in t
    ensures multiset(s) == multiset(t)
  {
    forall x ensures multiset(s)[x] == multiset(t)[x] {
      OccursOnce(s, x);
      OccursOnce(t, x);
    }
  }

  lemma {:induction false} OccursOnce(s: seq<string>, x: string)
    requires Distinct(s)
    ensures multiset(s)[x] == if x in s then 1 else 0
  {
    if s != [] {
      TailMultiset(s);
      OccursOnce(s[1..], x);
      assert s[0] !in s[1..];
    }
  }

  /** `slices.Sort` on distinct names. */
  method Sort(names: seq<string>) returns (r: seq<string>)
    requires Distinct(names)
    ensures r == Ascending(set x <- names)
    ensures |r| == |names| && multiset(r) == multiset(names)
    ensures forall i, j :: 0 <= i < j < |r| ==> Precedes(r[i], r[j])
  {
    r := [];
    for i := 0 to |names|
      invariant StrictlyAscending(r, Before())
      invariant forall x :: x in r <==> x in names[..i]
    {
      assert names[i] !in names[..i];
      InsertAscending(r, names[i]);
      r := Insert(r, names[i]);
    }
    assert names[..|names|] == names;
    AscendingUnique(r, set x <- names);
    AscendingDistinct(r);
    DistinctSame(r, names);
    SameLength(r, names);
    AscendingPrecedes(r);
  }
}
