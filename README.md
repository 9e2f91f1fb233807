# Datacenter placement model

A Dafny model of the `datacenter` package's core, which scores a fixed
assignment of jobs to processors.

- A **Job** is an immutable pair: an execution time and a memory usage.
  Equality is structural (`Jobs.Job`).
- A **Processor** has a time limit fixed at construction and an append-only
  schedule of jobs. `addJob` accepts a job only when the total execution time
  stays within the limit. `getPeakMemoryUsage` and `getTotalComputationTime`
  are accumulator loops: a maximum that starts at 0, and a sum. `getJobs`
  returns a new array of the jobs, sorted stably by execution time.
  `equals` compares the time limit and the job sequence
  (`Processors.Processor`).
- A **Placement** is an ordered list of processor references. `getCost` is
  the sum of the peak memory usages. `getMakeSpan` is the largest total
  computation time, or 0 when there is no work. `equals` is order-sensitive
  and compares processors index by index (`Placements.Placement`).

The state of each class is abstracted as a value, and every method is proved
against pure functions of that value:

- A processor's abstract value is `Schedule(timeLimit, jobs)`.
- A placement's abstract value is `Snapshot()`, the sequence of its
  processors' schedules.

The Java representation-invariant comment leaves one conjunct open. The model
fills it in: the jobs' total execution time is at most the time limit
(`ValidSchedule`). `addJob` preserves this, and so does every processor
built by construction and offers (`OfferPreservesInvariant`,
`BuildIsValid`).

The code disagrees with its documentation in one place, and the model follows
the code. The comment on `getJobs` promises the jobs "in scheduled order", but
the code returns a copy sorted by execution time. `List.sort` is stable, so
the model's `GetJobs` returns the stable sort by execution time, which is
unique (`JobOrder.StableSortUnique`). It computes that sort with an in-place insertion sort on a fresh array.

## Model

| member | source | states |
|---|---|---|
| Jobs.TotalTimeAppend | src/main/java/datacenter/Processor.java:72-79 | appending a job raises the total computation time by exactly that job's execution time |
| Jobs.TotalTimeConcat | src/main/java/datacenter/Processor.java:72-79 | the total computation time of two job lists joined is the sum of their totals |
| Jobs.TotalTimeZero | src/main/java/datacenter/Processor.java:72-79 | with non-negative execution times the total is non-negative, and it is 0 exactly when every job takes no time |
| Jobs.PeakMemoryIsMax | src/main/java/datacenter/Processor.java:58-65 | the peak memory usage is at least 0 and at least every job's usage, is 0 for no jobs, and is either 0 or some job's usage |
| JobOrder.SortByTimeIsStableSort | src/main/java/datacenter/Processor.java:112-116 | the sorted view is ascending by execution time, is a permutation of the jobs, and keeps the arrival order among jobs with equal execution time |
| JobOrder.StableSortUnique | src/main/java/datacenter/Processor.java:114 | any list that is a stable sort of the jobs by execution time equals the model's sorted view, so every stable sort (TimSort included) gives the same result |
| JobOrder.SortedWithTimeUnique | src/main/java/datacenter/Processor.java:114 | two lists sorted by execution time that hold the same jobs of each execution time in the same order are equal |
| JobOrder.InsertAt | src/main/java/datacenter/Processor.java:114 | inserting a job places it at the position where the jobs before it are not slower and the jobs after it are slower |
| JobOrder.InsertSorted | src/main/java/datacenter/Processor.java:114 | inserting a job into a list sorted by execution time keeps it sorted |
| JobOrder.InsertWithTime | src/main/java/datacenter/Processor.java:114 | inserting a job places it after every job already there with the same execution time (stability) |
| Processors.FitsIffStaysWithinLimit | src/main/java/datacenter/Processor.java:37-39 | a job fits exactly when appending it keeps the total within the time limit |
| Processors.OfferEffect | src/main/java/datacenter/Processor.java:46-52 | offering a job keeps the time limit; an accepted job is appended and adds exactly its execution time; a rejected job changes nothing |
| Processors.OfferPreservesInvariant | src/main/java/datacenter/Processor.java:46-52 | offering a job preserves the representation invariant: a positive time limit, and a total within the limit |
| Processors.BuildIsValid | src/main/java/datacenter/Processor.java:14-17 | every processor built from a positive limit by a sequence of offers keeps that limit and satisfies the invariant, and it holds only jobs it was offered |
| Processors.OfferScenario | src/main/java/datacenter/Processor.java:46-52 | with limit 10, jobs of 4 and 5 time units are accepted and one of 3 is then rejected; total 9, peak memory 9 |
| Processors.ProcessorEqIsEquality | src/main/java/datacenter/Processor.java:86-98 | documented processor equality (same limit, same jobs in the same order) coincides with value equality, and is reflexive and symmetric |
| Processors.ProcessorEqOrderSensitive | src/main/java/datacenter/Processor.java:81-98 | swapping two different jobs gives an unequal processor |
| Processors.Processor.constructor | src/main/java/datacenter/Processor.java:27-30 | a new processor has the given limit, no jobs, total 0 and peak memory 0, and satisfies the invariant |
| Processors.Processor.CanFitJob | src/main/java/datacenter/Processor.java:37-39 | true exactly when the current total plus the job's execution time is within the limit; changes nothing |
| Processors.Processor.AddJob | src/main/java/datacenter/Processor.java:46-52 | returns whether the job fitted in the pre-state; on true the job is appended and the total grows by its execution time; on false the jobs are unchanged; the invariant is preserved |
| Processors.Processor.GetPeakMemoryUsage | src/main/java/datacenter/Processor.java:58-65 | the result is the maximum of 0 and every job's memory usage: it bounds every job and is 0 or some job's usage |
| Processors.Processor.GetTotalComputationTime | src/main/java/datacenter/Processor.java:72-79 | the result is the sum of the execution times in order (0 for no jobs) |
| Processors.Processor.Equals | src/main/java/datacenter/Processor.java:86-98 | false for no processor; otherwise true exactly when the time limits are equal and the job sequences are equal element by element |
| Processors.Processor.GetTimeLimit | src/main/java/datacenter/Processor.java:104-106 | returns the time limit, which is a constant set by the constructor |
| Processors.Processor.GetJobs | src/main/java/datacenter/Processor.java:112-116 | returns a fresh array holding a stable sort of the jobs by execution time (a sorted permutation); the schedule itself is not changed |
| Processors.SortByExecutionTime | src/main/java/datacenter/Processor.java:114 | sorting the copy in place leaves exactly the stable sort by execution time of its former contents |
| Processors.InsertInPlace | src/main/java/datacenter/Processor.java:114 | one pass of the in-place sort inserts the next job into the sorted prefix and leaves the rest of the array alone |
| Processors.ShiftSlower | src/main/java/datacenter/Processor.java:114 | the slower jobs at the end of the sorted prefix move one place right, and the returned gap separates the jobs that are not slower from those that are |
| Placements.CostConcat | src/main/java/datacenter/Placement.java:27-33 | the cost of two processor lists joined is the sum of their costs |
| Placements.CostNonNegative | src/main/java/datacenter/Placement.java:27-33 | the cost is never negative |
| Placements.MakeSpanIsMax | src/main/java/datacenter/Placement.java:41-47 | the makespan is at least 0 and at least every processor's total, is 0 for no processors, and is 0 or some processor's total |
| Placements.MakeSpanConcat | src/main/java/datacenter/Placement.java:41-47 | the makespan of two processor lists joined is the larger of their makespans |
| Placements.MetricsIgnoreOrder | src/main/java/datacenter/Placement.java:27-47 | exchanging two blocks of processors changes neither the cost nor the makespan |
| Placements.MakeSpanZeroIffNoWork | src/main/java/datacenter/Placement.java:35-47 | with non-negative execution times, the makespan is 0 exactly when there is no work (no processors, or only jobs that take no time) |
| Placements.MakeSpanWithinMaxLimit | src/main/java/datacenter/Placement.java:41-47 | when every processor keeps its invariant, the makespan is at most the largest time limit (0 for no processors) |
| Placements.MetricsScenario | src/main/java/datacenter/Placement.java:27-47 | processors with jobs of 4 and 5 time units and of 10 time units give makespan 10; the cost is the sum of their peaks |
| Placements.PlacementEqIsEquality | src/main/java/datacenter/Placement.java:57-70 | documented placement equality (same count, equal processors index by index) coincides with value equality, and is reflexive and symmetric |
| Placements.PlacementEqOrderSensitive | src/main/java/datacenter/Placement.java:49-70 | swapping two unequal processors gives an unequal placement |
| Placements.Placement.constructor | src/main/java/datacenter/Placement.java:12-14 | a new placement has no processors; cost 0 and makespan 0 |
| Placements.Placement.AddProcessor | src/main/java/datacenter/Placement.java:19-21 | appends the processor at the end and changes nothing else; the cost grows by its peak memory usage |
| Placements.Placement.GetCost | src/main/java/datacenter/Placement.java:27-33 | the result is the sum of the processors' peak memory usages (0 for none), and is non-negative |
| Placements.Placement.GetMakeSpan | src/main/java/datacenter/Placement.java:36-47 | the result is the maximum of 0 and every processor's total; when every processor is valid it is at most the largest time limit |
| Placements.Placement.Equals | src/main/java/datacenter/Placement.java:57-70 | false for no placement or different counts; otherwise true exactly when the processors are equal index by index |

## Left out

- `getMeanFlowTime` and `getMedianFlowTime` (Placement.java:76-88): both are unimplemented stubs that return -1 as a `double`. There is no behaviour to model, and the intended result involves floating-point division.
- Java 32-bit `int` overflow: job times and memory usages, sums and maxima are mathematical integers. So `Processors.Processor.GetTotalComputationTime`, `Processors.Processor.CanFitJob`, `Processors.Processor.AddJob`, `Placements.Placement.GetCost` and `Placements.Placement.GetMakeSpan` do not model wrap-around on large inputs.
- Processors.Processor.AddJob: wrap-around can change the acceptance decision in Java. For example, with total 5 and limit 10, a job taking `Integer.MAX_VALUE` makes `5 + MAX_VALUE` wrap negative, so Java accepts it and the true total then exceeds the limit. The model rejects that job.
- Processors.OfferPreservesInvariant: the invariant holds only for unbounded integers, and so does `Processors.BuildIsValid`; with 32-bit wrap-around the example above breaks it.
- The `Job` class is not part of this model. It is taken to be an immutable two-field value with structural equality, which `jobs.equals(...)` relies on.
- Null arguments to `addJob` and `addProcessor` are not modelled: jobs are values and processors are non-null references. Null for `equals` is modelled with a nullable parameter.
- `Processors.Processor.constructor` requires a positive time limit. This is the documented caller obligation; Java does not check it.
- The TimSort internals behind `List.sort` are not modelled. Any stable sort by execution time gives the same result: `JobOrder.SortByTimeIsStableSort` shows that the model's sorted view is one, and `JobOrder.StableSortUnique` shows that there is no other.
- `equals(Processor)` and `equals(Placement)` overload `Object.equals` rather than override it (Processor.java:86, Placement.java:57). A call through an `Object` reference, and every hash-based collection, still compares by identity. The model's `Equals` methods cover only the overloads.
- Aliasing: a placement holds references, so one processor may appear more than once, and a job added to a processor after `addProcessor` changes the placement's metrics. The model keeps this behaviour: the metrics are stated over the processors' state at the time of the query.
