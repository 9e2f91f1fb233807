/** A processor: a fixed time capacity and an append-only schedule of jobs
    whose total execution time never exceeds that capacity.

    `Schedule` is the abstract value of a processor (what equality compares
    and what the aggregates are computed from); the class `Processor` is the
    mutable object, whose methods are proved against functions of its
    `Schedule`. */
module Processors {
  import opened Jobs
  import opened JobOrder

  /** The abstract value of a processor: its time limit and its jobs in
      arrival order. */
  datatype Schedule = Schedule(timeLimit: int, jobs: seq<Job>)

  /** The capacity invariant: the jobs on a processor take, in all, no more
      time than its limit. */
  predicate WithinLimit(s: Schedule)
  {
    TotalTime(s.jobs) <= s.timeLimit
  }

  /** The whole representation invariant of a processor: a positive limit
      that its jobs stay within. */
  predicate ValidSchedule(s: Schedule)
  {
    s.timeLimit > 0 && WithinLimit(s)
  }

  /** Whether `j` fits next to the jobs already on `s`. */
  predicate Fits(s: Schedule, j: Job)
  {
    TotalTime(s.jobs) + j.executionTime <= s.timeLimit
  }

  /** The schedule after offering `j` to `s`: appended when it fits,
      otherwise unchanged. */
  function Offer(s: Schedule, j: Job): Schedule
  {
    if Fits(s, j) then Schedule(s.timeLimit, s.jobs + [j]) else s
  }

  /** The schedule of a processor with limit `limit` after each job of
      `offered` has been offered to it, in order. */
  function Build(limit: int, offered: seq<Job>): Schedule
  {
    if offered == [] then Schedule(limit, [])
    else Offer(Build(limit, offered[..|offered| - 1]), offered[|offered| - 1])
  }

  /** Equality of two processors as documented: the same time limit and the
      same jobs in the same order. */
  predicate ProcessorEq(a: Schedule, b: Schedule)
  {
    a.timeLimit == b.timeLimit && |a.jobs| == |b.jobs| &&
    forall k :: 0 <= k < |a.jobs| ==> a.jobs[k] == b.jobs[k]
  }

  /** A job fits exactly when appending it keeps the capacity invariant. */
  lemma FitsIffStaysWithinLimit(s: Schedule, j: Job)
    ensures Fits(s, j) <==> WithinLimit(Schedule(s.timeLimit, s.jobs + [j]))
  {
    TotalTimeAppend(s.jobs, j);
  }

  /** Offering a job keeps the time limit; an accepted job is appended and
      adds exactly its execution time, a rejected one changes nothing. */
  lemma OfferEffect(s: Schedule, j: Job)
    ensures Offer(s, j).timeLimit == s.timeLimit
    ensures Fits(s, j) ==> Offer(s, j).jobs == s.jobs + [j]
    ensures Fits(s, j) ==> TotalTime(Offer(s, j).jobs) == TotalTime(s.jobs) + j.executionTime
    ensures !Fits(s, j) ==> Offer(s, j) == s
  {
    TotalTimeAppend(s.jobs, j);
  }

  /** Offering a job preserves the representation invariant, whether or not
      the job is accepted. */
  lemma OfferPreservesInvariant(s: Schedule, j: Job)
    requires ValidSchedule(s)
    ensures ValidSchedule(Offer(s, j))
  {
    FitsIffStaysWithinLimit(s, j);
  }

  /** Every processor built by construction and offers satisfies the
      representation invariant, and holds only jobs it was offered, each at
      most as often as it was offered. */
  lemma {:induction false} BuildIsValid(limit: int, offered: seq<Job>)
    requires limit > 0
    ensures Build(limit, offered).timeLimit == limit
    ensures ValidSchedule(Build(limit, offered))
    ensures multiset(Build(limit, offered).jobs) <= multiset(offered)
  {
    if offered != [] {
      var prefix, last := offered[..|offered| - 1], offered[|offered| - 1];
      BuildIsValid(limit, prefix);
      OfferPreservesInvariant(Build(limit, prefix), last);
      assert offered == prefix + [last];
    }
  }

  /** A processor with limit 10 accepts jobs taking 4 and 5 time units and
      then rejects one taking 3 (9 + 3 > 10); its total is 9 and its peak
      memory usage is the larger of the accepted jobs' usages. */
  lemma OfferScenario()
    ensures Build(10, [Job(4, 5), Job(5, 9), Job(3, 1)]) == Schedule(10, [Job(4, 5), Job(5, 9)])
    ensures TotalTime([Job(4, 5), Job(5, 9)]) == 9
    ensures PeakMemory([Job(4, 5), Job(5, 9)]) == 9
  {
    var offered := [Job(4, 5), Job(5, 9), Job(3, 1)];
    assert offered[..1] == [Job(4, 5)];
    assert offered[..2] == [Job(4, 5), Job(5, 9)];
    assert [Job(4, 5)][..0] == [];
    assert [Job(4, 5), Job(5, 9)][..1] == [Job(4, 5)];
    assert TotalTime([Job(4, 5)]) == 4;
  }

  /** Processor equality is structural equality of the abstract values;
      hence it is reflexive and symmetric. */
  lemma ProcessorEqIsEquality(a: Schedule, b: Schedule)
    ensures ProcessorEq(a, b) <==> a == b
    ensures ProcessorEq(a, a)
    ensures ProcessorEq(a, b) <==> ProcessorEq(b, a)
  {
    if ProcessorEq(a, b) {
      assert a.jobs == b.jobs;
    }
  }

  /** Processor equality is sensitive to the order of the jobs: swapping two
      different jobs gives an unequal processor. */
  lemma ProcessorEqOrderSensitive(s: Schedule, i: nat, k: nat)
    requires i < k < |s.jobs| && s.jobs[i] != s.jobs[k]
    ensures !ProcessorEq(s, Schedule(s.timeLimit, s.jobs[i := s.jobs[k]][k := s.jobs[i]]))
  {
    var swapped := s.jobs[i := s.jobs[k]][k := s.jobs[i]];
    assert swapped[i] != s.jobs[i];
  }

  class Processor {
    /** The capacity of this processor; it is never reassigned. */
    const timeLimit: int
    /** The jobs on this processor, in arrival order. */
    var jobs: seq<Job>

    ghost function Model(): Schedule
      reads this
    {
      Schedule(timeLimit, jobs)
    }

    ghost predicate Valid()
      reads this
    {
      ValidSchedule(Model())
    }

    /** A new processor with the given capacity and no jobs. */
    constructor (timeLimit: int)
      requires timeLimit > 0
      ensures Valid()
      ensures this.timeLimit == timeLimit && jobs == []
      ensures TotalTime(jobs) == 0 && PeakMemory(jobs) == 0
    {
      this.timeLimit := timeLimit;
      jobs := [];
    }

    /** Whether `job` can be added without exceeding the time limit. */
    method CanFitJob(job: Job) returns (fits: bool)
      ensures fits <==> TotalTime(jobs) + job.executionTime <= timeLimit
    {
      var total := GetTotalComputationTime();
      fits := total + job.executionTime <= timeLimit;
    }

    /** Appends `job` to the schedule when it fits, and reports whether it
        did. */
    method AddJob(job: Job) returns (added: bool)
      modifies this
      ensures added == Fits(old(Model()), job)
      ensures Model() == Offer(old(Model()), job)
      ensures added ==> jobs == old(jobs) + [job]
      ensures added ==> TotalTime(jobs) == old(TotalTime(jobs)) + job.executionTime
      ensures !added ==> jobs == old(jobs)
      ensures old(Valid()) ==> Valid()
    {
      added := CanFitJob(job);
      if added {
        jobs := jobs + [job];
      }
      OfferEffect(old(Model()), job);
      if old(Valid()) {
        OfferPreservesInvariant(old(Model()), job);
      }
    }

    /** The largest memory usage among the jobs, or 0 when there are none. */
    method GetPeakMemoryUsage() returns (peak: int)
      ensures peak == PeakMemory(jobs)
      ensures peak >= 0
      ensures forall k :: 0 <= k < |jobs| ==> jobs[k].memoryUsage <= peak
      ensures peak == 0 || exists k :: 0 <= k < |jobs| && peak == jobs[k].memoryUsage
    {
      peak := 0;
      for i := 0 to |jobs|
        invariant peak == PeakMemory(jobs[..i])
      {
        assert jobs[..i + 1][..i] == jobs[..i];
        peak := Max(peak, jobs[i].memoryUsage);
      }
      assert jobs[..|jobs|] == jobs;
      PeakMemoryIsMax(jobs);
    }

    /** The sum of the execution times of the jobs, 0 when there are none. */
    method GetTotalComputationTime() returns (total: int)
      ensures total == TotalTime(jobs)
    {
      total := 0;
      for i := 0 to |jobs|
        invariant total == TotalTime(jobs[..i])
      {
        assert jobs[..i + 1][..i] == jobs[..i];
        total := total + jobs[i].executionTime;
      }
      assert jobs[..|jobs|] == jobs;
    }

    /** Whether `that` is a processor with the same time limit and the same
        jobs in the same order; false for no processor. */
    method Equals(that: Processor?) returns (eq: bool)
      ensures eq <==> that != null && ProcessorEq(Model(), that.Model())
    {
      if that == null {
        return false;
      }
      if timeLimit != that.timeLimit {
        return false;
      }
      if jobs != that.jobs {
        ProcessorEqIsEquality(Model(), that.Model());
        return false;
      }
      return true;
    }

    /** The capacity this processor was created with. */
    method GetTimeLimit() returns (limit: int)
      ensures limit == timeLimit
    {
      limit := timeLimit;
    }

    /** A new array holding the jobs sorted by execution time, jobs with the
        same execution time in arrival order; the schedule itself is left as
        it is. */
    method GetJobs() returns (sorted: array<Job>)
      ensures fresh(sorted)
      ensures sorted[..] == SortByTime(jobs)
      ensures IsStableSortOf(sorted[..], jobs)
      ensures multiset(sorted[..]) == multiset(jobs)
    {
      var js := jobs;
      sorted := new Job[|js|](k requires 0 <= k < |js| => js[k]);
      assert sorted[..] == js;
      SortByExecutionTime(sorted);
      SortByTimeIsStableSort(jobs);
    }
  }

  /** Sorts `a` in place by execution time, stably: each job in turn is moved
      left past the slower jobs before it. */
  method SortByExecutionTime(a: array<Job>)
    modifies a
    ensures a[..] == SortByTime(old(a[..]))
  {
    ghost var input := a[..];
    for i := 0 to a.Length
      invariant a[i..] == input[i..]
      invariant a[..i] == SortByTime(input[..i])
    {
      InsertInPlace(a, i);
      assert input[..i + 1][..i] == input[..i];
    }
    assert input[..a.Length] == input;
  }

  /** Moves `a[i]` left past the slower jobs of the sorted prefix `a[..i]`,
      so that `a[..i + 1]` becomes that prefix with `a[i]` inserted. */
  method InsertInPlace(a: array<Job>, i: nat)
    requires i < a.Length
    modifies a
    ensures a[..i + 1] == Insert(old(a[..i]), old(a[i]))
    ensures a[i + 1..] == old(a[i + 1..])
  {
    ghost var done := a[..i];
    var x := a[i];
    var j := ShiftSlower(a, i, x);
    a[j] := x;
    InsertAt(done, x, j);
    assert a[..i + 1] == done[..j] + [x] + done[j..] by {
      forall k | 0 <= k <= i
        ensures a[..i + 1][k] == (done[..j] + [x] + done[j..])[k]
      {
      }
    }
  }

  /** Shifts the jobs of `a[..i]` that are slower than `x`, from the back,
      one place to the right, and returns the index of the gap they leave:
      the jobs before the gap are not slower than `x`, those after it are. */
  method ShiftSlower(a: array<Job>, i: nat, x: Job) returns (j: nat)
    requires i < a.Length
    modifies a
    ensures j <= i
    ensures forall k :: 0 <= k < j ==> a[k] == old(a[k])
    ensures forall k :: j < k <= i ==> a[k] == old(a[k - 1])
    ensures forall k :: i < k < a.Length ==> a[k] == old(a[k])
    ensures j == 0 || old(a[j - 1]).executionTime <= x.executionTime
    ensures forall k :: j <= k < i ==> old(a[k]).executionTime > x.executionTime
  {
    j := i;
    while j > 0 && a[j - 1].executionTime > x.executionTime
      invariant j <= i
      invariant forall k :: 0 <= k < j ==> a[k] == old(a[k])
      invariant forall k :: j < k <= i ==> a[k] == old(a[k - 1])
      invariant forall k :: i < k < a.Length ==> a[k] == old(a[k])
      invariant forall k :: j <= k < i ==> old(a[k]).executionTime > x.executionTime
    {
      a[j] := a[j - 1];
      j := j - 1;
    }
  }
}
