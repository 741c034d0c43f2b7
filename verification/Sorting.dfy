/** Stable sorting by an integer key, filtering, and counting on sequences. */
module Sorting {

  ghost predicate Ordered<T>(s: seq<T>, key: T -> int) {
    forall i, j :: 0 <= i < j < |s| ==> key(s[i]) <= key(s[j])
  }

  /** Puts x behind every element whose key is not larger. */
  function Insert<T>(s: seq<T>, x: T, key: T -> int): (r: seq<T>)
    ensures |r| == |s| + 1
  {
    if |s| == 0 || key(s[|s| - 1]) <= key(x) then s + [x]
    else Insert(s[..|s| - 1], x, key) + [s[|s| - 1]]
  }

  function Sort<T>(s: seq<T>, key: T -> int): (r: seq<T>)
    ensures |r| == |s|
  {
    if |s| == 0 then [] else Insert(Sort(s[..|s| - 1], key), s[|s| - 1], key)
  }

  function Filter<T>(s: seq<T>, p: T -> bool): (r: seq<T>)
    ensures |r| <= |s|
  {
    if |s| == 0 then []
    else if p(s[|s| - 1]) then Filter(s[..|s| - 1], p) + [s[|s| - 1]]
    else Filter(s[..|s| - 1], p)
  }

  function Itself(): int -> int {
    (x: int) => x
  }

  function Count<T>(s: seq<T>, p: T -> bool): (n: nat)
    ensures n <= |s|
  {
    if |s| == 0 then 0 else Count(s[..|s| - 1], p) + if p(s[|s| - 1]) then 1 else 0
  }

  function Sum<T>(s: seq<T>, w: T -> int): int {
    if |s| == 0 then 0 else Sum(s[..|s| - 1], w) + w(s[|s| - 1])
  }

  lemma {:induction false} InsertMembers<T(!new)>(s: seq<T>, x: T, key: T -> int)
    ensures forall y :: y in Insert(s, x, key) <==> y in s || y == x
  {
    if |s| == 0 || key(s[|s| - 1]) <= key(x) {
    } else {
      assert s == s[..|s| - 1] + [s[|s| - 1]];
      InsertMembers(s[..|s| - 1], x, key);
    }
  }

  lemma {:induction false} InsertIsOrdered<T(!new)>(s: seq<T>, x: T, key: T -> int)
    requires Ordered(s, key)
    ensures Ordered(Insert(s, x, key), key)
  {
    if |s| == 0 || key(s[|s| - 1]) <= key(x) {
    } else {
      var front, last := s[..|s| - 1], s[|s| - 1];
      InsertIsOrdered(front, x, key);
      InsertMembers(front, x, key);
      var r := Insert(front, x, key);
      forall i | 0 <= i < |r| ensures key(r[i]) <= key(last) {
        assert r[i] in r;
      }
    }
  }

  lemma {:induction false} InsertPermutes<T>(s: seq<T>, x: T, key: T -> int)
    ensures multiset(Insert(s, x, key)) == multiset(s) + multiset{x}
  {
    if |s| == 0 || key(s[|s| - 1]) <= key(x) {
    } else {
      InsertPermutes(s[..|s| - 1], x, key);
      assert s == s[..|s| - 1] + [s[|s| - 1]];
    }
  }

  lemma {:induction false} SortIsOrdered<T(!new)>(s: seq<T>, key: T -> int)
    ensures Ordered(Sort(s, key), key)
  {
    if |s| > 0 {
      SortIsOrdered(s[..|s| - 1], key);
      InsertIsOrdered(Sort(s[..|s| - 1], key), s[|s| - 1], key);
    }
  }

  lemma {:induction false} SortPermutes<T>(s: seq<T>, key: T -> int)
    ensures multiset(Sort(s, key)) == multiset(s)
  {
    if |s| > 0 {
      var front, last := s[..|s| - 1], s[|s| - 1];
      SortPermutes(front, key);
      InsertPermutes(Sort(front, key), last, key);
      assert multiset(s) == multiset(front) + multiset{last} by {
        assert s == front + [last];
      }
    }
  }

  lemma {:induction false} SortKeepsMembers<T(!new)>(s: seq<T>, key: T -> int)
    ensures forall x :: x in Sort(s, key) <==> x in s
  {
    if |s| > 0 {
      SortKeepsMembers(s[..|s| - 1], key);
      InsertMembers(Sort(s[..|s| - 1], key), s[|s| - 1], key);
      assert s == s[..|s| - 1] + [s[|s| - 1]];
    }
  }

  lemma {:induction false} FilterMembers<T(!new)>(s: seq<T>, p: T -> bool)
    ensures forall x :: x in Filter(s, p) <==> x in s && p(x)
  {
    if |s| > 0 {
      FilterMembers(s[..|s| - 1], p);
      assert s == s[..|s| - 1] + [s[|s| - 1]];
    }
  }

  lemma {:induction false} SameFilter<T(!new)>(s: seq<T>, p: T -> bool, q: T -> bool)
    requires forall x :: x in s ==> p(x) == q(x)
    ensures Filter(s, p) == Filter(s, q) && Count(s, p) == Count(s, q)
  {
    if |s| > 0 {
      assert s[|s| - 1] in s;
      SameFilter(s[..|s| - 1], p, q);
    }
  }

  /** Filter and Insert one element further on. */
  lemma FilterStep<T(!new)>(s: seq<T>, x: T, p: T -> bool)
    ensures Filter(s + [x], p) == if p(x) then Filter(s, p) + [x] else Filter(s, p)
  {
    assert (s + [x])[..|s|] == s;
  }

  lemma InsertStep<T>(s: seq<T>, last: T, x: T, key: T -> int)
    requires key(last) > key(x)
    ensures Insert(s + [last], x, key) == Insert(s, x, key) + [last]
  {
    assert (s + [last])[..|s|] == s;
  }

  lemma SortStep<T>(s: seq<T>, x: T, key: T -> int)
    ensures Sort(s + [x], key) == Insert(Sort(s, key), x, key)
  {
    assert (s + [x])[..|s|] == s;
  }

  lemma {:induction false} FilterInsert<T(!new)>(s: seq<T>, x: T, key: T -> int, p: T -> bool)
    requires Ordered(s, key)
    ensures Filter(Insert(s, x, key), p) == if p(x) then Insert(Filter(s, p), x, key) else Filter(s, p)
  {
    if |s| == 0 || key(s[|s| - 1]) <= key(x) {
      FilterStep(s, x, p);
      var f := Filter(s, p);
      if |f| > 0 {
        FilterMembers(s, p);
        assert f[|f| - 1] in s;
      }
    } else {
      var front, last := s[..|s| - 1], s[|s| - 1];
      FilterInsert(front, x, key, p);
      FilterStep(Insert(front, x, key), last, p);
      if p(last) {
        InsertStep(Filter(front, p), last, x, key);
      }
    }
  }

  /** Filtering and sorting commute, ties included. */
  lemma {:induction false} FilterSort<T(!new)>(s: seq<T>, key: T -> int, p: T -> bool)
    ensures Filter(Sort(s, key), p) == Sort(Filter(s, p), key)
  {
    if |s| > 0 {
      var front, last := s[..|s| - 1], s[|s| - 1];
      FilterSort(front, key, p);
      SortIsOrdered(front, key);
      FilterInsert(Sort(front, key), last, key, p);
      if p(last) {
        SortStep(Filter(front, p), last, key);
      }
    }
  }

  lemma {:induction false} FilterFilter<T(!new)>(s: seq<T>, p: T -> bool, q: T -> bool, both: T -> bool)
    requires forall x :: x in s ==> (both(x) <==> p(x) && q(x))
    ensures Filter(Filter(s, p), q) == Filter(s, both)
  {
    if |s| > 0 {
      var front, last := s[..|s| - 1], s[|s| - 1];
      FilterFilter(front, p, q, both);
      assert last in s;
      if p(last) {
        FilterStep(Filter(front, p), last, q);
      }
    }
  }

  lemma {:induction false} FilterNone<T(!new)>(s: seq<T>, p: T -> bool)
    requires forall x :: x in s ==> !p(x)
    ensures Filter(s, p) == []
  {
    if |s| > 0 {
      FilterNone(s[..|s| - 1], p);
    }
  }

  lemma {:induction false} CountSort<T(!new)>(s: seq<T>, key: T -> int, p: T -> bool)
    ensures Count(Sort(s, key), p) == Count(s, p)
  {
    CountIsFilterLength(s, p);
    CountIsFilterLength(Sort(s, key), p);
    FilterSort(s, key, p);
  }

  lemma {:induction false} CountIsFilterLength<T(!new)>(s: seq<T>, p: T -> bool)
    ensures Count(s, p) == |Filter(s, p)|
  {
    if |s| > 0 {
      CountIsFilterLength(s[..|s| - 1], p);
    }
  }

  lemma {:induction false} CountFilter<T(!new)>(s: seq<T>, q: T -> bool, p: T -> bool)
    requires forall x :: x in s && p(x) ==> q(x)
    ensures Count(Filter(s, q), p) == Count(s, p)
  {
    FilterFilter(s, q, p, p);
    CountIsFilterLength(s, p);
    CountIsFilterLength(Filter(s, q), p);
  }

  /** A count is zero, at most one, or at least one exactly when the obvious witness says so. */
  lemma {:induction false} CountWitness<T(!new)>(s: seq<T>, p: T -> bool)
    ensures Count(s, p) >= 1 <==> exists i :: 0 <= i < |s| && p(s[i])
    ensures Count(s, p) <= 1 <==> forall i, j :: 0 <= i < j < |s| ==> !(p(s[i]) && p(s[j]))
  {
    if |s| > 0 {
      var front, last := s[..|s| - 1], s[|s| - 1];
      CountWitness(front, p);
      if p(last) {
        assert p(s[|s| - 1]);
        if i :| 0 <= i < |front| && p(front[i]) {
          assert p(s[i]) && p(s[|s| - 1]);
        }
      } else if Count(s, p) >= 1 {
        var i :| 0 <= i < |front| && p(front[i]);
        assert p(s[i]);
      }
    }
  }

  lemma {:induction false} CountUpTo<T>(s: seq<T>, p: T -> bool, n: nat)
    requires n <= |s| && forall k :: n <= k < |s| ==> !p(s[k])
    ensures Count(s, p) <= n
  {
    if |s| > n {
      CountUpTo(s[..|s| - 1], p, n);
    }
  }

  lemma {:induction false} CountFrom<T>(s: seq<T>, p: T -> bool, n: nat)
    requires n <= |s| && forall k :: 0 <= k < n ==> !p(s[k])
    ensures Count(s, p) <= |s| - n
  {
    if |s| > n {
      CountFrom(s[..|s| - 1], p, n);
    } else if |s| > 0 {
      CountFrom(s[..|s| - 1], p, n - 1);
    }
  }

  lemma {:induction false} SumInsert<T(!new)>(s: seq<T>, x: T, key: T -> int, w: T -> int)
    ensures Sum(Insert(s, x, key), w) == Sum(s, w) + w(x)
  {
    if |s| == 0 || key(s[|s| - 1]) <= key(x) {
      assert (s + [x])[..|s|] == s;
    } else {
      var front, last := s[..|s| - 1], s[|s| - 1];
      SumInsert(front, x, key, w);
      var r := Insert(front, x, key);
      assert (r + [last])[..|r|] == r;
    }
  }

  lemma {:induction false} SumSort<T(!new)>(s: seq<T>, key: T -> int, w: T -> int)
    ensures Sum(Sort(s, key), w) == Sum(s, w)
  {
    if |s| > 0 {
      SumSort(s[..|s| - 1], key, w);
      SumInsert(Sort(s[..|s| - 1], key), s[|s| - 1], key, w);
    }
  }

  lemma SumStep<T(!new)>(s: seq<T>, x: T, w: T -> int)
    ensures Sum(s + [x], w) == Sum(s, w) + w(x)
  {
    assert (s + [x])[..|s|] == s;
  }
}
