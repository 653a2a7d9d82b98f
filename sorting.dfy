/** `Array.prototype.sort` with a comparator derived from an integer key.  The
    engine's sort is stable (ECMAScript 2019 and later), so the model is a stable
    insertion sort: an element is placed before the first element whose key is
    not smaller than its own, and elements with equal keys keep their input order. */
module Sorting {
  import opened Seqs

  /** Non-decreasing in `key`. */
  ghost predicate SortedBy<T>(s: seq<T>, key: T -> int)
  {
    forall i, j :: 0 <= i < j < |s| ==> key(s[i]) <= key(s[j])
  }

  function InsertFirst<T>(x: T, t: seq<T>, key: T -> int): (r: seq<T>)
    ensures |r| == |t| + 1
  {
    if t == [] || key(x) <= key(t[0]) then [x] + t
    else [t[0]] + InsertFirst(x, t[1..], key)
  }

  lemma {:induction false} InsertMultiset<T>(x: T, t: seq<T>, key: T -> int)
    ensures multiset(InsertFirst(x, t, key)) == multiset(t) + multiset{x}
  {
    if t != [] && key(x) > key(t[0]) {
      InsertMultiset(x, t[1..], key);
      assert t == [t[0]] + t[1..];
    }
  }

  /** The sort: a permutation of its input, ordered by `key`. */
  function SortBy<T>(s: seq<T>, key: T -> int): (r: seq<T>)
    ensures multiset(r) == multiset(s)
    ensures |r| == |s|
    ensures SortedBy(r, key)
  {
    if s == [] then []
    else
      var t := SortBy(s[1..], key);
      InsertSorted(s[0], t, key);
      InsertMultiset(s[0], t, key);
      assert s == [s[0]] + s[1..];
      InsertFirst(s[0], t, key)
  }

  /** Two elements already in key order stay as they are. */
  lemma SortedPair<T>(x: T, y: T, key: T -> int)
    requires key(x) <= key(y)
    ensures SortBy([x, y], key) == [x, y]
  {
    assert [x, y][1..] == [y] && [y][1..] == [];
    assert SortBy([y], key) == [y];
  }

  /** The first element of a sorted sequence has the smallest key. */
  lemma SortedHeadMin<T>(t: seq<T>, key: T -> int, y: T)
    requires SortedBy(t, key) && y in t
    ensures key(t[0]) <= key(y)
  {
    var k :| 0 <= k < |t| && t[k] == y;
  }

  lemma {:induction false} InsertSorted<T>(x: T, t: seq<T>, key: T -> int)
    requires SortedBy(t, key)
    ensures SortedBy(InsertFirst(x, t, key), key)
  {
    if t != [] && key(x) > key(t[0]) {
      var rest := InsertFirst(x, t[1..], key);
      InsertSorted(x, t[1..], key);
      InsertAboveHead(x, t, key);
      var r := [t[0]] + rest;
      forall i, j | 0 <= i < j < |r|
        ensures key(r[i]) <= key(r[j])
      {
        if i == 0 {
          assert r[j] in rest;
        } else {
          assert r[i] == rest[i - 1] && r[j] == rest[j - 1];
        }
      }
    }
  }

  /** Inserting past the head of a sorted sequence puts nothing below the head. */
  lemma InsertAboveHead<T>(x: T, t: seq<T>, key: T -> int)
    requires SortedBy(t, key) && t != [] && key(x) > key(t[0])
    ensures forall y :: y in InsertFirst(x, t[1..], key) ==> key(t[0]) <= key(y)
  {
    var rest := InsertFirst(x, t[1..], key);
    InsertMultiset(x, t[1..], key);
    forall y | y in rest
      ensures key(t[0]) <= key(y)
    {
      assert y in multiset(rest);
      if y != x {
        assert y in t[1..];
        SortedHeadMin(t, key, y);
      }
    }
  }

  /** Filtering an inserted-into sorted sequence is inserting into the filtered one. */
  lemma {:induction false} InsertFilter<T>(x: T, t: seq<T>, key: T -> int, p: T -> bool)
    requires SortedBy(t, key)
    ensures Filter(InsertFirst(x, t, key), p)
         == if p(x) then InsertFirst(x, Filter(t, p), key) else Filter(t, p)
  {
    if t == [] || key(x) <= key(t[0]) {
      InsertFilterFront(x, t, key, p);
    } else {
      var t0, tail := t[0], t[1..];
      assert SortedBy(tail, key);
      InsertFilter(x, tail, key, p);
      InsertFilterStep(x, t0, tail, key, p);
      assert t == [t0] + tail;
    }
  }

  /** `x` goes in front: it is no larger than anything that survives the filter. */
  lemma InsertFilterFront<T>(x: T, t: seq<T>, key: T -> int, p: T -> bool)
    requires SortedBy(t, key)
    requires t == [] || key(x) <= key(t[0])
    ensures Filter(InsertFirst(x, t, key), p)
         == if p(x) then InsertFirst(x, Filter(t, p), key) else Filter(t, p)
  {
    FilterCons(x, t, p);
    var ft := Filter(t, p);
    if p(x) && ft != [] {
      assert ft[0] in t;
      SortedHeadMin(t, key, ft[0]);
    }
  }

  /** `x` goes past the head `t0`: the filtered head, if kept, stays in front. */
  lemma InsertFilterStep<T>(x: T, t0: T, tail: seq<T>, key: T -> int, p: T -> bool)
    requires key(x) > key(t0)
    requires Filter(InsertFirst(x, tail, key), p)
          == if p(x) then InsertFirst(x, Filter(tail, p), key) else Filter(tail, p)
    ensures Filter(InsertFirst(x, [t0] + tail, key), p)
         == if p(x) then InsertFirst(x, Filter([t0] + tail, p), key) else Filter([t0] + tail, p)
  {
    var ins := InsertFirst(x, tail, key);
    var ft := Filter(tail, p);
    var head: seq<T> := if p(t0) then [t0] else [];
    calc {
      Filter(InsertFirst(x, [t0] + tail, key), p);
      { assert ([t0] + tail)[1..] == tail; }
      Filter([t0] + ins, p);
      { FilterCons(t0, ins, p); }
      head + Filter(ins, p);
    }
    FilterCons(t0, tail, p);
    assert Filter([t0] + tail, p) == head + ft;
    if p(x) {
      if p(t0) {
        assert ([t0] + ft)[1..] == ft;
        assert InsertFirst(x, [t0] + ft, key) == [t0] + InsertFirst(x, ft, key);
      } else {
        assert head + ft == ft;
      }
    }
  }

  lemma FilterCons<T>(x: T, t: seq<T>, p: T -> bool)
    ensures Filter([x] + t, p) == (if p(x) then [x] else []) + Filter(t, p)
  {
    assert ([x] + t)[1..] == t;
  }

  /** Sorting and filtering commute: `xs.sort(c).filter(p)` equals
      `xs.filter(p).sort(c)`.  This is what makes the order of the sort and the
      draft filter in the open-PR path irrelevant. */
  lemma {:induction false} SortFilterCommute<T>(s: seq<T>, key: T -> int, p: T -> bool)
    ensures Filter(SortBy(s, key), p) == SortBy(Filter(s, p), key)
  {
    if s != [] {
      var x, tail := s[0], s[1..];
      assert s == [x] + tail;
      SortFilterCommute(tail, key, p);
      var st := SortBy(tail, key);
      var ft := Filter(tail, p);
      calc {
        Filter(SortBy(s, key), p);
        Filter(InsertFirst(x, st, key), p);
        { InsertFilter(x, st, key, p); }
        if p(x) then InsertFirst(x, Filter(st, p), key) else Filter(st, p);
        if p(x) then InsertFirst(x, SortBy(ft, key), key) else SortBy(ft, key);
      }
      FilterCons(x, tail, p);
      if p(x) {
        assert Filter(s, p) == [x] + ft;
        assert ([x] + ft)[1..] == ft;
        assert SortBy([x] + ft, key) == InsertFirst(x, SortBy(ft, key), key);
      } else {
        assert Filter(s, p) == ft;
      }
    }
  }

  /** A sequence whose keys are all the same is left as it is. */
  lemma {:induction false} SortConstantKey<T>(s: seq<T>, key: T -> int, v: int)
    requires forall y :: y in s ==> key(y) == v
    ensures SortBy(s, key) == s
  {
    if s != [] {
      assert forall y :: y in s[1..] ==> y in s;
      SortConstantKey(s[1..], key, v);
      assert s == [s[0]] + s[1..];
    }
  }

  /** Stability: the elements that share one key value come out in input order. */
  lemma SortStable<T>(s: seq<T>, key: T -> int, p: T -> bool, v: int)
    requires forall y :: p(y) <==> key(y) == v
    ensures Filter(SortBy(s, key), p) == Filter(s, p)
  {
    SortFilterCommute(s, key, p);
    SortConstantKey(Filter(s, p), key, v);
  }

  lemma {:induction false} InsertDistinct<T, U>(x: T, t: seq<T>, key: T -> int, f: T -> U)
    requires DistinctBy(t, f)
    requires forall y :: y in t ==> f(y) != f(x)
    ensures DistinctBy(InsertFirst(x, t, key), f)
  {
    if t != [] && key(x) > key(t[0]) {
      assert forall y :: y in t[1..] ==> y in t;
      InsertDistinct(x, t[1..], key, f);
      var rest := InsertFirst(x, t[1..], key);
      InsertMultiset(x, t[1..], key);
      var r := [t[0]] + rest;
      forall i, j | 0 <= i < j < |r|
        ensures f(r[i]) != f(r[j])
      {
        if i == 0 {
          assert r[j] in multiset(rest);
          if r[j] != x {
            assert r[j] in t[1..];
            var k :| 0 <= k < |t[1..]| && t[1..][k] == r[j];
            assert t[k + 1] == r[j];
          }
        } else {
          assert r[i] == rest[i - 1] && r[j] == rest[j - 1];
        }
      }
    }
  }

  /** Sorting keeps a projection injective: a list with pairwise-distinct URLs
      still has them after the sort. */
  lemma {:induction false} SortPreservesDistinct<T, U>(s: seq<T>, key: T -> int, f: T -> U)
    requires DistinctBy(s, f)
    ensures DistinctBy(SortBy(s, key), f)
  {
    if s != [] {
      assert DistinctBy(s[1..], f) by {
        forall i, j | 0 <= i < j < |s[1..]| ensures f(s[1..][i]) != f(s[1..][j]) {
          assert s[1..][i] == s[i + 1] && s[1..][j] == s[j + 1];
        }
      }
      SortPreservesDistinct(s[1..], key, f);
      var t := SortBy(s[1..], key);
      forall y | y in t ensures f(y) != f(s[0]) {
        assert y in multiset(s[1..]);
        var k :| 0 <= k < |s[1..]| && s[1..][k] == y;
        assert s[k + 1] == y;
      }
      InsertDistinct(s[0], t, key, f);
    }
  }
}
