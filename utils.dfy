/** The three-way comparators every sort in the dashboard uses.  utils.ts compares
    ISO 8601 strings, whose lexicographic order is their chronological order in
    one UTC format; index.js subtracts millisecond values.  Both are modelled on
    integer milliseconds. */
module Utils {
  import opened Sorting

  /** utils.ts `sortByCreatedAt`, applied to the two `createdAt` values. */
  function SortByCreatedAt(a: int, b: int): (r: int)
    ensures -1 <= r <= 1
    ensures r < 0 <==> a < b
    ensures r == 0 <==> a == b
  {
    if a < b then -1 else if a > b then 1 else 0
  }

  /** utils.ts `byCommittedDateDesc`, applied to the two `committedDate` values:
      the ascending comparator with its sign flipped. */
  function ByCommittedDateDesc(a: int, b: int): (r: int)
    ensures r == -SortByCreatedAt(a, b)
  {
    if a > b then -1 else if a < b then 1 else 0
  }

  /** index.js `sortByCreatedAt`: the difference of the two millisecond values,
      first minus second; only its sign matters to the sort. */
  function MillisAscending(a: int, b: int): (r: int)
    ensures r < 0 <==> SortByCreatedAt(a, b) < 0
    ensures r == 0 <==> SortByCreatedAt(a, b) == 0
    ensures r > 0 <==> SortByCreatedAt(a, b) > 0
  {
    a - b
  }

  /** index.js `byCommittedDateDesc`: the difference of the two millisecond
      values, second minus first. */
  function MillisDescending(a: int, b: int): (r: int)
    ensures r < 0 <==> ByCommittedDateDesc(a, b) < 0
    ensures r == 0 <==> ByCommittedDateDesc(a, b) == 0
    ensures r > 0 <==> ByCommittedDateDesc(a, b) > 0
  {
    b - a
  }

  /** A comparator derived from one key is antisymmetric, and 'not after' is
      transitive: the conditions `Array.prototype.sort` needs of a comparator. */
  lemma ComparatorIsConsistent(a: int, b: int, c: int)
    ensures SortByCreatedAt(a, b) == -SortByCreatedAt(b, a)
    ensures ByCommittedDateDesc(a, b) == -ByCommittedDateDesc(b, a)
    ensures SortByCreatedAt(a, b) <= 0 && SortByCreatedAt(b, c) <= 0 ==> SortByCreatedAt(a, c) <= 0
    ensures ByCommittedDateDesc(a, b) <= 0 && ByCommittedDateDesc(b, c) <= 0 ==> ByCommittedDateDesc(a, c) <= 0
  {
  }

  /** The key that makes an ascending sort order by `key` descending. */
  function Negated<T>(key: T -> int): T -> int
  {
    x => -key(x)
  }

  /** Sorting with `sortByCreatedAt` permutes the elements and puts no
      element after a later one: `createdAt` is non-decreasing. */
  lemma SortedAscending<T>(s: seq<T>, createdAt: T -> int)
    ensures multiset(SortBy(s, createdAt)) == multiset(s)
    ensures var r := SortBy(s, createdAt);
      forall i, j :: 0 <= i < j < |r| ==>
        SortByCreatedAt(createdAt(r[i]), createdAt(r[j])) <= 0 && createdAt(r[i]) <= createdAt(r[j])
  {
  }

  /** Sorting with `byCommittedDateDesc` permutes the elements, and
      `committedDate` is non-increasing. */
  lemma SortedDescending<T>(s: seq<T>, committedDate: T -> int)
    ensures multiset(SortBy(s, Negated(committedDate))) == multiset(s)
    ensures var r := SortBy(s, Negated(committedDate));
      forall i, j :: 0 <= i < j < |r| ==>
        ByCommittedDateDesc(committedDate(r[i]), committedDate(r[j])) <= 0
        && committedDate(r[i]) >= committedDate(r[j])
  {
    var r := SortBy(s, Negated(committedDate));
    forall i, j | 0 <= i < j < |r|
      ensures committedDate(r[i]) >= committedDate(r[j])
    {
      assert Negated(committedDate)(r[i]) <= Negated(committedDate)(r[j]);
      assert Negated(committedDate)(r[i]) == -committedDate(r[i]);
      assert Negated(committedDate)(r[j]) == -committedDate(r[j]);
    }
  }
}
