/** Jobs and the two per-processor aggregates computed over a job list:
    the total execution time (a sum) and the peak memory usage (a maximum
    that starts at 0). Both are defined from the end of the list, in the
    same order as the accumulator loops that compute them. */
module Jobs {

  /** An immutable unit of work. Equality is structural. */
  datatype Job = Job(executionTime: int, memoryUsage: int)

  function Max(a: int, b: int): int
  {
    if a < b then b else a
  }

  /** Sum of the execution times of `js`, in order. */
  function TotalTime(js: seq<Job>): int
  {
    if js == [] then 0 else TotalTime(js[..|js| - 1]) + js[|js| - 1].executionTime
  }

  /** Running maximum of the memory usages of `js`, starting from 0. */
  function PeakMemory(js: seq<Job>): int
  {
    if js == [] then 0 else Max(PeakMemory(js[..|js| - 1]), js[|js| - 1].memoryUsage)
  }

  /** Appending one job adds exactly its execution time. */
  lemma TotalTimeAppend(js: seq<Job>, j: Job)
    ensures TotalTime(js + [j]) == TotalTime(js) + j.executionTime
  {
    assert (js + [j])[..|js|] == js;
  }

  /** The total time of a concatenation is the sum of the totals. */
  lemma {:induction false} TotalTimeConcat(a: seq<Job>, b: seq<Job>)
    ensures TotalTime(a + b) == TotalTime(a) + TotalTime(b)
  {
    if b == [] {
      assert a + b == a;
    } else {
      var b' := b[..|b| - 1];
      assert (a + b)[..|a + b| - 1] == a + b';
      TotalTimeConcat(a, b');
    }
  }

  /** With non-negative execution times, the total is 0 exactly when every
      job takes no time. */
  lemma {:induction false} TotalTimeZero(js: seq<Job>)
    requires forall k :: 0 <= k < |js| ==> js[k].executionTime >= 0
    ensures TotalTime(js) >= 0
    ensures TotalTime(js) == 0 <==> forall k :: 0 <= k < |js| ==> js[k].executionTime == 0
  {
    if js != [] {
      var js' := js[..|js| - 1];
      TotalTimeZero(js');
      assert forall k :: 0 <= k < |js'| ==> js'[k] == js[k];
    }
  }

  /** The peak memory usage is the maximum of 0 and every job's usage:
      it bounds every job, it is 0 for no jobs, and it is either 0 or the
      usage of some job. */
  lemma {:induction false} PeakMemoryIsMax(js: seq<Job>)
    ensures PeakMemory(js) >= 0
    ensures forall k :: 0 <= k < |js| ==> js[k].memoryUsage <= PeakMemory(js)
    ensures js == [] ==> PeakMemory(js) == 0
    ensures PeakMemory(js) == 0 || exists k :: 0 <= k < |js| && PeakMemory(js) == js[k].memoryUsage
  {
    if js != [] {
      var js' := js[..|js| - 1];
      PeakMemoryIsMax(js');
      assert forall k :: 0 <= k < |js'| ==> js'[k] == js[k];
      if PeakMemory(js) != 0 && PeakMemory(js) != js[|js| - 1].memoryUsage {
        var k :| 0 <= k < |js'| && PeakMemory(js') == js'[k].memoryUsage;
        assert PeakMemory(js) == js[k].memoryUsage;
      }
    }
  }
}
