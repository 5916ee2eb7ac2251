/** What the services take from elsewhere and the model leaves open: the trigonometric distance and
    Go's unstable sorts. Only the properties in `Lawful` are known of them. */
module GoLibrary {
  import opened Schema
  import opened Sequences

  /** The start value of the nearest-neighbour search, more than any distance on Earth in metres. */
  const SENTINEL := 1000000007.0

  datatype Library = Library(
    distance: (real, real, real, real) -> real,
    sortByNorm: seq<Coord> -> seq<Coord>,
    newestFirst: seq<Polygon> -> seq<Polygon>,
    oldestFirst: seq<LiveLine> -> seq<LiveLine>)
  {
    function Distance(p: Coord, q: Coord): real {
      distance(p.x, p.y, q.x, q.y)
    }

    /** The comparator of `sortByNorm` truncates the difference of the norms to an integer. Go promises a sorted
        result only where that is a weak order; otherwise a permutation is all there is. */
    ghost predicate Lawful() {
      && (forall s :: multiset(sortByNorm(s)) == multiset(s))
      && (forall s :: Comparable(s) ==> NormAscending(sortByNorm(s)))
      && (forall s :: multiset(newestFirst(s)) == multiset(s) && NewestFirst(newestFirst(s)))
      && (forall s :: multiset(oldestFirst(s)) == multiset(s) && OldestFirst(oldestFirst(s)))
    }

    ghost predicate Bounded() {
      forall p, q, p', q' :: 0.0 <= distance(p, q, p', q') < SENTINEL
    }
  }

  function Norm(p: Coord): real {
    p.x * p.x + p.y * p.y
  }

  /** The comparator of `sortByNorm` takes the two for equal. */
  predicate Close(p: Coord, q: Coord) {
    -1.0 < Norm(p) - Norm(q) < 1.0
  }

  ghost predicate Comparable(s: seq<Coord>) {
    forall p <- s, q <- s, r <- s :: Close(p, q) && Close(q, r) ==> Close(p, r)
  }

  ghost predicate NormAscending(s: seq<Coord>) {
    forall i, j :: 0 <= i < j < |s| ==> Norm(s[i]) < Norm(s[j]) + 1.0
  }

  ghost predicate NewestFirst(s: seq<Polygon>) {
    forall i, j :: 0 <= i < j < |s| ==> s[i].time >= s[j].time
  }

  ghost predicate OldestFirst(s: seq<LiveLine>) {
    forall i, j :: 0 <= i < j < |s| ==> s[i].time <= s[j].time
  }

  /** The assumptions are met by some library, so what is proved from them is not empty. */
  lemma LawfulLibraryExists() returns (lib: Library)
    ensures lib.Lawful() && lib.Bounded()
  {
    var near := (p: Coord, q: Coord) => Norm(p) <= Norm(q);
    var newer := (p: Polygon, q: Polygon) => p.time >= q.time;
    var older := (p: LiveLine, q: LiveLine) => p.time <= q.time;
    lib := Library((_, _, _, _) => 0.0, s => SortBy(s, near), s => SortBy(s, newer), s => SortBy(s, older));
    hide Norm;
    forall s ensures multiset(lib.sortByNorm(s)) == multiset(s) && NormAscending(lib.sortByNorm(s)) {
      SortByLaw(s, near);
    }
    forall s ensures multiset(lib.newestFirst(s)) == multiset(s) && NewestFirst(lib.newestFirst(s)) {
      SortByLaw(s, newer);
    }
    forall s ensures multiset(lib.oldestFirst(s)) == multiset(s) && OldestFirst(lib.oldestFirst(s)) {
      SortByLaw(s, older);
    }
  }
}
