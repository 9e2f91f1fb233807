/** The order in which a processor reports its jobs: ascending by execution
    time, stable on ties (jobs with the same execution time keep their
    arrival order). `SortByTime` is insertion sort, inserting each job from
    the back of the already sorted prefix, which is what the in-place array
    sort in module Processors does step by step. */
module JobOrder {
  import opened Jobs

  /** Ascending by execution time. */
  predicate Sorted(s: seq<Job>)
  {
    forall i, k :: 0 <= i < k < |s| ==> s[i].executionTime <= s[k].executionTime
  }

  /** The jobs of `s` whose execution time is `t`, in their order in `s`. */
  function WithTime(s: seq<Job>, t: int): seq<Job>
  {
    if s == [] then []
    else WithTime(s[..|s| - 1], t) + (if s[|s| - 1].executionTime == t then [s[|s| - 1]] else [])
  }

  /** `r` orders the jobs of `s` by execution time and keeps, for every
      execution time, the arrival order of the jobs that have it. */
  ghost predicate IsStableSortOf(r: seq<Job>, s: seq<Job>)
  {
    Sorted(r) && forall t :: WithTime(r, t) == WithTime(s, t)
  }

  /** Inserts `x` into `s` after the last job that is not slower than `x`,
      moving past slower jobs from the back. */
  function Insert(s: seq<Job>, x: Job): seq<Job>
  {
    if s == [] || s[|s| - 1].executionTime <= x.executionTime then s + [x]
    else Insert(s[..|s| - 1], x) + [s[|s| - 1]]
  }

  /** Stable insertion sort by execution time. */
  function SortByTime(s: seq<Job>): seq<Job>
  {
    if s == [] then [] else Insert(SortByTime(s[..|s| - 1]), s[|s| - 1])
  }

  lemma WithTimeAppend(s: seq<Job>, x: Job, t: int)
    ensures WithTime(s + [x], t) == WithTime(s, t) + (if x.executionTime == t then [x] else [])
  {
    assert (s + [x])[..|s|] == s;
  }

  /** In a list `s`, `x` goes at the position `j` where the jobs before are
      not slower than `x` and the jobs from `j` on are. */
  lemma {:induction false} InsertAt(s: seq<Job>, x: Job, j: nat)
    requires j <= |s|
    requires j == 0 || s[j - 1].executionTime <= x.executionTime
    requires forall k :: j <= k < |s| ==> s[k].executionTime > x.executionTime
    ensures Insert(s, x) == s[..j] + [x] + s[j..]
  {
    if j < |s| {
      var s', last := s[..|s| - 1], s[|s| - 1];
      assert Insert(s, x) == Insert(s', x) + [last];
      InsertAt(s', x, j);
      assert s'[..j] == s[..j];
      assert s[j..] == s'[j..] + [last];
    }
  }

  lemma {:induction false} InsertMultiset(s: seq<Job>, x: Job)
    ensures multiset(Insert(s, x)) == multiset(s) + multiset{x}
  {
    if s != [] && s[|s| - 1].executionTime > x.executionTime {
      var s' := s[..|s| - 1];
      InsertMultiset(s', x);
      assert s == s' + [s[|s| - 1]];
    }
  }

  lemma {:induction false} InsertSorted(s: seq<Job>, x: Job)
    requires Sorted(s)
    ensures Sorted(Insert(s, x))
  {
    if s != [] && s[|s| - 1].executionTime > x.executionTime {
      var s', last := s[..|s| - 1], s[|s| - 1];
      InsertSorted(s', x);
      InsertMultiset(s', x);
      var r := Insert(s', x);
      forall i | 0 <= i < |r|
        ensures r[i].executionTime <= last.executionTime
      {
        assert r[i] in multiset(s') + multiset{x};
        if r[i] != x {
          var k :| 0 <= k < |s'| && s'[k] == r[i];
          assert s[k] == r[i];
        }
      }
    }
  }

  lemma {:induction false} InsertWithTime(s: seq<Job>, x: Job, t: int)
    ensures WithTime(Insert(s, x), t) == WithTime(s, t) + (if x.executionTime == t then [x] else [])
  {
    if s == [] || s[|s| - 1].executionTime <= x.executionTime {
      WithTimeAppend(s, x, t);
    } else {
      var s', last := s[..|s| - 1], s[|s| - 1];
      InsertWithTime(s', x, t);
      WithTimeAppend(Insert(s', x), last, t);
      assert s == s' + [last];
      WithTimeAppend(s', last, t);
    }
  }

  /** `SortByTime` is a stable sort: sorted, a permutation of its input,
      and order-preserving among jobs of equal execution time. */
  lemma {:induction false} SortByTimeIsStableSort(s: seq<Job>)
    ensures IsStableSortOf(SortByTime(s), s)
    ensures multiset(SortByTime(s)) == multiset(s)
  {
    if s != [] {
      var s', last := s[..|s| - 1], s[|s| - 1];
      var r', r := SortByTime(s'), SortByTime(s);
      assert r == Insert(r', last);
      assert s == s' + [last];
      SortByTimeIsStableSort(s');
      InsertSorted(r', last);
      InsertMultiset(r', last);
      forall t
        ensures WithTime(r, t) == WithTime(s, t)
      {
        InsertWithTime(r', last, t);
        WithTimeAppend(s', last, t);
      }
    }
  }

  /** The jobs with execution time `t` are exactly the jobs of `s` that
      have it. */
  lemma {:induction false} WithTimeMembers(s: seq<Job>, t: int)
    ensures forall x :: x in WithTime(s, t) <==> x in s && x.executionTime == t
  {
    if s != [] {
      var s', last := s[..|s| - 1], s[|s| - 1];
      WithTimeMembers(s', t);
      assert s == s' + [last];
    }
  }

  /** Agreement on the jobs of every execution time means the same jobs:
      in particular, both lists are empty or neither is. */
  lemma SameMembers(r1: seq<Job>, r2: seq<Job>)
    requires forall t :: WithTime(r1, t) == WithTime(r2, t)
    ensures forall x :: x in r1 <==> x in r2
    ensures r1 == [] <==> r2 == []
  {
    if r1 != [] {
      WithTimeMembers(r1, r1[0].executionTime);
      WithTimeMembers(r2, r1[0].executionTime);
    }
    if r2 != [] {
      WithTimeMembers(r1, r2[0].executionTime);
      WithTimeMembers(r2, r2[0].executionTime);
    }
    forall x
      ensures x in r1 <==> x in r2
    {
      WithTimeMembers(r1, x.executionTime);
      WithTimeMembers(r2, x.executionTime);
    }
  }

  /** Two sorted lists that agree on the jobs of every execution time end
      with the same job. */
  lemma SortedWithTimeLast(p1: seq<Job>, m1: Job, p2: seq<Job>, m2: Job)
    requires Sorted(p1 + [m1]) && Sorted(p2 + [m2])
    requires forall t :: WithTime(p1 + [m1], t) == WithTime(p2 + [m2], t)
    ensures m1 == m2
  {
    var r1, r2 := p1 + [m1], p2 + [m2];
    SameMembers(r1, r2);
    assert m1 in r1 && m2 in r2;
    var k1 :| 0 <= k1 < |r2| && r2[k1] == m1;
    var k2 :| 0 <= k2 < |r1| && r1[k2] == m2;
    assert r2[k1].executionTime <= r2[|r2| - 1].executionTime;
    assert r1[k2].executionTime <= r1[|r1| - 1].executionTime;
    var t := m1.executionTime;
    WithTimeAppend(p1, m1, t);
    WithTimeAppend(p2, m2, t);
    var w := WithTime(r1, t);
    assert m1 == w[|w| - 1] == m2;
  }

  /** Lists that agree on the jobs of every execution time and end with the
      same job still agree once that job is removed. */
  lemma WithTimeDropLast(p1: seq<Job>, p2: seq<Job>, m: Job)
    requires forall t :: WithTime(p1 + [m], t) == WithTime(p2 + [m], t)
    ensures forall t :: WithTime(p1, t) == WithTime(p2, t)
  {
    forall t
      ensures WithTime(p1, t) == WithTime(p2, t)
    {
      WithTimeAppend(p1, m, t);
      WithTimeAppend(p2, m, t);
      var w := WithTime(p1 + [m], t);
      assert w == WithTime(p2 + [m], t);
      if m.executionTime == t {
        assert WithTime(p1, t) == w[..|w| - 1];
        assert WithTime(p2, t) == w[..|w| - 1];
      } else {
        assert WithTime(p1, t) + [] == WithTime(p1, t);
        assert WithTime(p2, t) + [] == WithTime(p2, t);
      }
    }
  }

  /** Two sorted lists that agree, for every execution time, on the jobs
      having it (in order) are the same list. */
  lemma {:induction false} SortedWithTimeUnique(r1: seq<Job>, r2: seq<Job>)
    requires Sorted(r1) && Sorted(r2)
    requires forall t :: WithTime(r1, t) == WithTime(r2, t)
    ensures r1 == r2
  {
    SameMembers(r1, r2);
    if r1 != [] {
      var p1, m1 := r1[..|r1| - 1], r1[|r1| - 1];
      var p2, m2 := r2[..|r2| - 1], r2[|r2| - 1];
      assert r1 == p1 + [m1] && r2 == p2 + [m2];
      SortedWithTimeLast(p1, m1, p2, m2);
      WithTimeDropLast(p1, p2, m1);
      assert Sorted(p1) && Sorted(p2);
      SortedWithTimeUnique(p1, p2);
    }
  }

  /** There is only one stable sort by execution time: any list that is one
      equals `SortByTime(s)`. */
  lemma StableSortUnique(r: seq<Job>, s: seq<Job>)
    requires IsStableSortOf(r, s)
    ensures r == SortByTime(s)
  {
    SortByTimeIsStableSort(s);
    SortedWithTimeUnique(r, SortByTime(s));
  }
}
