/** A placement: an ordered list of processors, with two aggregates over
    them — the cost (the sum of the peak memory usages) and the makespan
    (the largest total computation time, 0 when there is no work).

    The placement holds references to its processors, so a processor that
    gains a job after it was added changes the placement's aggregates too;
    the aggregates are specified over `Snapshot()`, the abstract values of
    the processors at the time of the call. */
module Placements {
  import opened Jobs
  import opened Processors

  /** The sum of the peak memory usages of `ss`. */
  function Cost(ss: seq<Schedule>): int
  {
    if ss == [] then 0 else Cost(ss[..|ss| - 1]) + PeakMemory(ss[|ss| - 1].jobs)
  }

  /** The running maximum of the total computation times of `ss`, starting
      from 0. */
  function MakeSpan(ss: seq<Schedule>): int
  {
    if ss == [] then 0 else Max(MakeSpan(ss[..|ss| - 1]), TotalTime(ss[|ss| - 1].jobs))
  }

  /** The largest time limit among `ss`, or 0 when there are none. */
  function MaxLimit(ss: seq<Schedule>): int
  {
    if ss == [] then 0 else Max(MaxLimit(ss[..|ss| - 1]), ss[|ss| - 1].timeLimit)
  }

  /** Equality of two placements as documented: as many processors, and
      equal processors at every index. */
  predicate PlacementEq(a: seq<Schedule>, b: seq<Schedule>)
  {
    |a| == |b| && forall i :: 0 <= i < |a| ==> ProcessorEq(a[i], b[i])
  }

  /** The abstract values of the processors `ps`, in order. */
  ghost function Models(ps: seq<Processor>): (ss: seq<Schedule>)
    reads set p | p in ps
    ensures |ss| == |ps|
    ensures forall i :: 0 <= i < |ps| ==> ss[i] == ps[i].Model()
  {
    if ps == [] then [] else Models(ps[..|ps| - 1]) + [ps[|ps| - 1].Model()]
  }

  /** The cost is the sum of the parts' costs; appending a processor adds
      exactly its peak memory usage. */
  lemma {:induction false} CostConcat(a: seq<Schedule>, b: seq<Schedule>)
    ensures Cost(a + b) == Cost(a) + Cost(b)
  {
    if b == [] {
      assert a + b == a;
    } else {
      var b' := b[..|b| - 1];
      assert (a + b)[..|a + b| - 1] == a + b';
      CostConcat(a, b');
    }
  }

  /** The cost of a placement is never negative, since every peak memory
      usage is at least 0. */
  lemma {:induction false} CostNonNegative(ss: seq<Schedule>)
    ensures Cost(ss) >= 0
  {
    if ss != [] {
      CostNonNegative(ss[..|ss| - 1]);
      PeakMemoryIsMax(ss[|ss| - 1].jobs);
    }
  }

  /** The makespan is the maximum of 0 and every processor's total
      computation time: it bounds every total, it is 0 for no processors,
      and it is either 0 or the total of some processor. */
  lemma {:induction false} MakeSpanIsMax(ss: seq<Schedule>)
    ensures MakeSpan(ss) >= 0
    ensures forall i :: 0 <= i < |ss| ==> TotalTime(ss[i].jobs) <= MakeSpan(ss)
    ensures ss == [] ==> MakeSpan(ss) == 0
    ensures MakeSpan(ss) == 0 || exists i :: 0 <= i < |ss| && MakeSpan(ss) == TotalTime(ss[i].jobs)
  {
    if ss != [] {
      var ss' := ss[..|ss| - 1];
      MakeSpanIsMax(ss');
      assert forall i :: 0 <= i < |ss'| ==> ss'[i] == ss[i];
      if MakeSpan(ss) != 0 && MakeSpan(ss) != TotalTime(ss[|ss| - 1].jobs) {
        var i :| 0 <= i < |ss'| && MakeSpan(ss') == TotalTime(ss'[i].jobs);
        assert MakeSpan(ss) == TotalTime(ss[i].jobs);
      }
    }
  }

  /** With non-negative execution times, the makespan is 0 exactly when no
      processor has work: every job on every processor takes no time (in
      particular, when every processor is empty). */
  lemma MakeSpanZeroIffNoWork(ss: seq<Schedule>)
    requires forall i, k :: 0 <= i < |ss| && 0 <= k < |ss[i].jobs| ==> ss[i].jobs[k].executionTime >= 0
    ensures MakeSpan(ss) == 0 <==>
      forall i, k :: 0 <= i < |ss| && 0 <= k < |ss[i].jobs| ==> ss[i].jobs[k].executionTime == 0
  {
    MakeSpanIsMax(ss);
    forall i | 0 <= i < |ss|
      ensures TotalTime(ss[i].jobs) >= 0
      ensures TotalTime(ss[i].jobs) == 0 <==> forall k :: 0 <= k < |ss[i].jobs| ==> ss[i].jobs[k].executionTime == 0
    {
      TotalTimeZero(ss[i].jobs);
    }
  }

  /** The makespan of a concatenation is the larger of the parts'
      makespans. */
  lemma {:induction false} MakeSpanConcat(a: seq<Schedule>, b: seq<Schedule>)
    ensures MakeSpan(a + b) == Max(MakeSpan(a), MakeSpan(b))
  {
    if b == [] {
      assert a + b == a;
      MakeSpanIsMax(a);
    } else {
      var b' := b[..|b| - 1];
      assert (a + b)[..|a + b| - 1] == a + b';
      MakeSpanConcat(a, b');
    }
  }

  /** Neither aggregate depends on the order of the processors: exchanging
      two blocks of processors leaves the cost and the makespan as they
      were. */
  lemma MetricsIgnoreOrder(a: seq<Schedule>, b: seq<Schedule>)
    ensures Cost(a + b) == Cost(b + a)
    ensures MakeSpan(a + b) == MakeSpan(b + a)
  {
    CostConcat(a, b);
    CostConcat(b, a);
    MakeSpanConcat(a, b);
    MakeSpanConcat(b, a);
  }

  /** When every processor keeps its capacity invariant, the makespan is at
      most the largest time limit (0 when there are no processors). */
  lemma {:induction false} MakeSpanWithinMaxLimit(ss: seq<Schedule>)
    requires forall i :: 0 <= i < |ss| ==> WithinLimit(ss[i])
    ensures MakeSpan(ss) <= MaxLimit(ss)
  {
    if ss != [] {
      var ss' := ss[..|ss| - 1];
      assert forall i :: 0 <= i < |ss'| ==> ss'[i] == ss[i];
      MakeSpanWithinMaxLimit(ss');
    }
  }

  /** Two processors with limit 10, one holding jobs of 4 and 5 time units
      and one holding a job of 10: the makespan is 10 and the cost is the
      sum of the two peak memory usages. */
  lemma MetricsScenario()
    ensures MakeSpan([Schedule(10, [Job(4, 5), Job(5, 9)]), Schedule(10, [Job(10, 3)])]) == 10
    ensures Cost([Schedule(10, [Job(4, 5), Job(5, 9)]), Schedule(10, [Job(10, 3)])]) == 12
  {
    var p1, p2 := Schedule(10, [Job(4, 5), Job(5, 9)]), Schedule(10, [Job(10, 3)]);
    OfferScenario();
    assert [p1, p2][..1] == [p1];
    assert [p1][..0] == [];
    assert [Job(10, 3)][..0] == [];
  }

  /** Placement equality is structural equality of the sequences of
      processor values; hence it is reflexive and symmetric. */
  lemma PlacementEqIsEquality(a: seq<Schedule>, b: seq<Schedule>)
    ensures PlacementEq(a, b) <==> a == b
    ensures PlacementEq(a, a)
    ensures PlacementEq(a, b) <==> PlacementEq(b, a)
  {
    forall i | 0 <= i < |a| && i < |b|
      ensures ProcessorEq(a[i], b[i]) <==> a[i] == b[i]
      ensures ProcessorEq(a[i], a[i])
      ensures ProcessorEq(a[i], b[i]) <==> ProcessorEq(b[i], a[i])
    {
      ProcessorEqIsEquality(a[i], b[i]);
    }
    forall i | 0 <= i < |a|
      ensures ProcessorEq(a[i], a[i])
    {
      ProcessorEqIsEquality(a[i], a[i]);
    }
  }

  /** Placement equality is sensitive to the order of the processors:
      swapping two unequal processors gives an unequal placement. */
  lemma PlacementEqOrderSensitive(ss: seq<Schedule>, i: nat, k: nat)
    requires i < k < |ss| && !ProcessorEq(ss[i], ss[k])
    ensures !PlacementEq(ss, ss[i := ss[k]][k := ss[i]])
  {
    var swapped := ss[i := ss[k]][k := ss[i]];
    assert swapped[i] == ss[k];
    ProcessorEqIsEquality(ss[i], ss[k]);
  }

  /** The abstract values of the processors with one more appended. */
  lemma ModelsAppend(ps: seq<Processor>, p: Processor)
    ensures Models(ps + [p]) == Models(ps) + [p.Model()]
  {
    assert (ps + [p])[..|ps|] == ps;
  }

  /** `MakeSpanIsMax` and `MakeSpanWithinMaxLimit` for processor objects:
      the makespan bounds every processor's total, and is within the
      largest time limit when each processor keeps its invariant. */
  lemma MakeSpanOfProcessors(ps: seq<Processor>)
    ensures MakeSpan(Models(ps)) >= 0
    ensures forall i :: 0 <= i < |ps| ==> TotalTime(ps[i].jobs) <= MakeSpan(Models(ps))
    ensures (forall p :: p in ps ==> p.Valid()) ==> MakeSpan(Models(ps)) <= MaxLimit(Models(ps))
  {
    var ss := Models(ps);
    MakeSpanIsMax(ss);
    if forall p :: p in ps ==> p.Valid() {
      forall i | 0 <= i < |ss|
        ensures WithinLimit(ss[i])
      {
        assert ps[i] in ps;
      }
      MakeSpanWithinMaxLimit(ss);
    }
  }

  class Placement {
    /** The processors of this placement, in the order they were added. */
    var processors: seq<Processor>

    ghost function Snapshot(): seq<Schedule>
      reads this, set p | p in processors
    {
      Models(processors)
    }

    /** Every processor of the placement keeps its own invariant. */
    ghost predicate Valid()
      reads this, set p | p in processors
    {
      forall p :: p in processors ==> p.Valid()
    }

    /** A new placement without processors. */
    constructor ()
      ensures processors == []
      ensures Valid()
      ensures Cost(Snapshot()) == 0 && MakeSpan(Snapshot()) == 0
    {
      processors := [];
    }

    /** Appends `processor` to the placement; this always succeeds. */
    method AddProcessor(processor: Processor)
      modifies this
      ensures processors == old(processors) + [processor]
      ensures Snapshot() == old(Snapshot()) + [processor.Model()]
      ensures Cost(Snapshot()) == old(Cost(Snapshot())) + PeakMemory(processor.jobs)
      ensures old(Valid()) && processor.Valid() ==> Valid()
    {
      ghost var before := Snapshot();
      processors := processors + [processor];
      ModelsAppend(old(processors), processor);
      CostConcat(before, [processor.Model()]);
    }

    /** The sum of the peak memory usages of the processors, 0 when there
        are none. */
    method GetCost() returns (cost: int)
      ensures cost == Cost(Snapshot())
      ensures cost >= 0
    {
      ghost var ss := Snapshot();
      cost := 0;
      for i := 0 to |processors|
        invariant cost == Cost(ss[..i])
      {
        assert ss[..i + 1][..i] == ss[..i];
        var peak := processors[i].GetPeakMemoryUsage();
        cost := cost + peak;
      }
      assert ss[..|ss|] == ss;
      CostNonNegative(ss);
    }

    /** The largest total computation time among the processors, 0 when
        there is no work; bounded by the largest time limit when every
        processor keeps its invariant. */
    method GetMakeSpan() returns (span: int)
      ensures span == MakeSpan(Snapshot())
      ensures span >= 0
      ensures forall i :: 0 <= i < |processors| ==> TotalTime(processors[i].jobs) <= span
      ensures Valid() ==> span <= MaxLimit(Snapshot())
    {
      ghost var ss := Snapshot();
      span := 0;
      for i := 0 to |processors|
        invariant span == MakeSpan(ss[..i])
      {
        assert ss[..i + 1][..i] == ss[..i];
        var total := processors[i].GetTotalComputationTime();
        span := Max(span, total);
      }
      assert ss[..|ss|] == ss;
      MakeSpanOfProcessors(processors);
    }

    /** Whether `that` is a placement with as many processors, equal index
        by index; false for no placement. */
    method Equals(that: Placement?) returns (eq: bool)
      ensures eq <==> that != null && PlacementEq(Snapshot(), that.Snapshot())
    {
      if that == null {
        return false;
      }
      if |processors| != |that.processors| {
        return false;
      }
      for i := 0 to |processors|
        invariant forall k :: 0 <= k < i ==> ProcessorEq(processors[k].Model(), that.processors[k].Model())
      {
        var same := processors[i].Equals(that.processors[i]);
        if !same {
          return false;
        }
      }
      return true;
    }
  }
}
