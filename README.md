# Non-preemptive CPU scheduling: FCFS and SJF

This project models the scheduling core of `p2/RosmeryMartin.c`, a C program that simulates a
single CPU over a fixed batch of processes. Each process record holds:
- a process number;
- an arrival time and a burst time;
- four times the scheduler fills in: idle (start), completion, turnaround and waiting.

The program runs one of two disciplines over the records, in place in the caller's array:

- **FCFS** bubble-sorts the batch by arrival time. It then runs the records back to back from the
  first arrival on. One loop fills in completion, turnaround and waiting times, adds them to the
  two totals and records the execution order.
- **SJF** uses the same bubble sort. It then puts the shortest of the records that arrived with
  the first one into slot 0. For every later slot i it scans a window of candidates: slot i's
  own occupant, whether or not it has arrived, together with the contiguous run of records
  from i + 1 up to the first one that arrives after slot i - 1 completes. Records past that
  first late arrival are never seen. The scan swaps the shortest candidate (the first of
  several with the same burst) into slot i. That record starts when the CPU is free, or at its
  arrival if the CPU is idle. A final loop fills in turnaround and waiting times, the totals
  and the execution order.

The record array is a Dafny `array<Process>`, and every source loop that changes the records is
a method that changes that array. The two scans that pick the shortest record
(`SjfScheduler.FindFirstShortest` and `SjfScheduler.ShortestArrived`) only read the array and
return an index. The whole-run methods are each proved equal to a specification function on
sequences:
- `ArrivalSort`: a stable insertion sort;
- `FcfsTimes` and `FcfsSchedule`;
- `Step`, `Run` and `SjfSchedule`;
- `Annotated`.

`ArrivalOrder.BubblePass`, a single inner pass of the sort, is specified by what it establishes
instead: the sorted tail grows by one, the rest of the tail stays as it was, and the new last
record of the prefix is a latest arrival of the old prefix.

Lemmas about those functions state what the schedules guarantee.

Files:
- `processes.dfy`: the record, the loading step that numbers records `1..n`, and reordering facts.
- `statistics.dfy`: turnaround and waiting times, totals, the shape of a timeline, and the
  metrics loop.
- `arrival_order.dfy`: the bubble sort and its specification.
- `fcfs.dfy`: the FCFS scheduler, and the gap-aware FCFS clock (see Findings).
- `sjf.dfy`: the SJF scheduler, with the scan window as written and the widened window (see
  Findings).

Three points where the code's behaviour is easy to misread:

- The bubble sort swaps neighbours only when the left one arrives strictly later, so it is
  stable. Equal arrivals keep their input order, and `ArrivalOrder.SortByArrival` proves this.
- FCFS as written never lets the CPU idle. A record arriving after its predecessor completed
  still starts at that completion, and its waiting time is negative. A schedule in which no
  record runs before it arrives has non-negative waiting times; the gap-aware clock (see
  Findings) is such a schedule, and FCFS as written is not.
- The comment at `p2/RosmeryMartin.c:133` promises the shortest of the remaining records that
  have arrived. As written, SJF admits the records that arrived by the previous completion, not
  those that arrived by the slot's own start. The property therefore holds only against the
  previous completion, as `SjfScheduler.SjfGreedy` states for the window as written. For the
  widened window (`UntilStart`) the same lemma states it against the start time.

## Model

| member | source | states |
|---|---|---|
| Processes.LoadBatch | p2/RosmeryMartin.c:67-71 | record i is numbered i + 1 and takes its burst and arrival from input line i; the loaded trace is exactly 1..n |
| ArrivalOrder.ArrivalSortSpec | p2/RosmeryMartin.c:101-112 | the specification sort orders by arrival, is a permutation of its input, and keeps every group of equal arrivals in input order |
| ArrivalOrder.OrderedTiesUnique | p2/RosmeryMartin.c:101-112 | two arrival-ordered batches with the same groups of equal arrivals are equal, so a stable sort's result is unique |
| ArrivalOrder.SortedWithTiesIsArrivalSort | p2/RosmeryMartin.c:101-112 | any arrival-ordered rearrangement that keeps the groups of equal arrivals is the specification sort |
| ArrivalOrder.ArrivalSortOfOrdered | p2/RosmeryMartin.c:101-112 | sorting a batch already in arrival order changes nothing |
| ArrivalOrder.ArrivalSortKeepsIdOrder | p2/RosmeryMartin.c:105 | in a batch loaded in number order, records with equal arrivals stay in increasing number order |
| ArrivalOrder.SwapNext | p2/RosmeryMartin.c:105-110 | swapping neighbours where the left arrives strictly later exchanges exactly those two slots, keeps the multiset and keeps equal-arrival groups |
| ArrivalOrder.BubblePass | p2/RosmeryMartin.c:193-201 | one inner pass moves a latest arrival of the unsorted prefix to its end and permutes only the prefix, leaving the sorted tail as it was; the sorted tail grows by one; multiset and equal-arrival groups are kept |
| ArrivalOrder.SortByArrival | p2/RosmeryMartin.c:101-112 | the bubble sort leaves the array equal to the specification sort of its old contents: arrival-ordered, a permutation, stable; the identical loop at lines 191-202 too |
| FcfsScheduler.Fcfs | p2/RosmeryMartin.c:183-233 | the array ends as the FCFS schedule of its old contents, the order array is its trace of process numbers, and the totals are the summed turnaround and waiting times |
| FcfsScheduler.RunInOrder | p2/RosmeryMartin.c:206-218 | the timing loop over an arrival-ordered array yields the FCFS times, the trace and the totals |
| FcfsScheduler.SlotTimes | p2/RosmeryMartin.c:208-213 | slot i completes at the clock before it plus its burst, with turnaround and waiting derived from that completion |
| FcfsScheduler.TimesRecurrence | p2/RosmeryMartin.c:206-215 | keys and idle times are untouched; the first record completes at arrival plus burst, each later one at the previous completion plus its burst; waiting is previous completion minus arrival, and 0 for the first |
| FcfsScheduler.FcfsRecurrence | p2/RosmeryMartin.c:206-215 | the same recurrence and metric formulas for the schedule of an unsorted batch |
| FcfsScheduler.FcfsOrder | p2/RosmeryMartin.c:190-218 | the FCFS schedule is arrival-ordered and a permutation of the batch in its keys and in its trace |
| FcfsScheduler.FcfsIncreasing | p2/RosmeryMartin.c:208-209 | with positive bursts a recurrence-following schedule has strictly increasing completions |
| FcfsScheduler.FcfsTimeline | p2/RosmeryMartin.c:206-215 | with positive bursts completions strictly increase, and a waiting time is non-negative exactly when the record had arrived by its predecessor's completion |
| FcfsScheduler.FcfsTotals | p2/RosmeryMartin.c:211-214 | the summed waiting time equals the summed turnaround minus the summed burst |
| FcfsScheduler.SameBurstsSameCompletion | p2/RosmeryMartin.c:206-209 | the FCFS clock depends only on the first arrival and the bursts |
| FcfsScheduler.CompletionIsPrefixBurst | p2/RosmeryMartin.c:206-209 | slot i completes at the first arrival plus the bursts of slots 0..i |
| FcfsScheduler.TimesIdempotent | p2/RosmeryMartin.c:206-215 | re-timing an already timed batch changes nothing |
| FcfsScheduler.FcfsIdempotent | p2/RosmeryMartin.c:190-215 | scheduling an FCFS schedule again gives the same schedule |
| FcfsScheduler.FcfsLoadedTrace | p2/RosmeryMartin.c:69 | for a freshly loaded batch the FCFS trace is a permutation of 1..n, and records with equal arrivals run in number order |
| FcfsScheduler.FcfsExample | p2/RosmeryMartin.c:206-215 | the batch (5,0),(3,1),(8,2) completes at 5, 8, 16 with turnarounds 5, 7, 14 and waits 0, 4, 6 |
| FcfsScheduler.FcfsGapExample | p2/RosmeryMartin.c:206-214 | as written, (1,0),(1,10) completes the second record at 2 with waiting -9; the gap-aware clock completes it at 11 with waiting 0 |
| FcfsScheduler.GapTimesDispatched | p2/RosmeryMartin.c:206-210 | the gap-aware clock keeps the keys and yields a timeline with the metric formulas |
| FcfsScheduler.GapScheduleDispatched | p2/RosmeryMartin.c:206-210 | the gap-aware FCFS schedule is a timeline and a permutation of the batch, and every waiting time is non-negative |
| FcfsScheduler.GapFreeAgrees | p2/RosmeryMartin.c:206-209 | while no record arrives after its predecessor completes, the gap-aware clock agrees with the as-written one |
| SjfScheduler.ShortestIn | p2/RosmeryMartin.c:134-140 | the burst scan settles on a slot in its range whose burst is no longer than any in the range and strictly shorter than every one before it |
| SjfScheduler.RunEnd | p2/RosmeryMartin.c:134 | the scan stops at the first slot whose record arrived after the bound, or at the end; every slot before that arrived by the bound |
| SjfScheduler.TieEnd | p2/RosmeryMartin.c:115 | the first scan stops at the first slot whose arrival differs from slot 0's; every slot before that shares it |
| SjfScheduler.FindFirstShortest | p2/RosmeryMartin.c:115-121 | the loop returns the first shortest burst among the records that arrived with the first one |
| SjfScheduler.ShortestArrived | p2/RosmeryMartin.c:134-140 | the loop returns the first shortest burst among slot i and the following records that arrived by the bound |
| SjfScheduler.PlaceFirst | p2/RosmeryMartin.c:115-128 | the array becomes the batch with the first pick swapped to slot 0 and timed from its arrival |
| SjfScheduler.PlaceNext | p2/RosmeryMartin.c:133-152 | the array becomes one pass of the scheduling loop over slot i, with the window as written |
| SjfScheduler.Sjf | p2/RosmeryMartin.c:93-180 | the array ends as the SJF schedule of its old contents, the order array is its trace, and the totals are the summed turnaround and waiting times |
| SjfScheduler.FirstFrame | p2/RosmeryMartin.c:123-128 | placing slot 0 moves the pick to the front, timed from its arrival; the old front takes the pick's slot, nothing else moves, and the keys are a permutation |
| SjfScheduler.StepFrame | p2/RosmeryMartin.c:134-152 | a pass keeps slots before i and changes only slot i and the pick's slot; the pick starts at the later of the previous completion and its arrival and runs its burst; the slots from i on are permuted |
| SjfScheduler.RunFrame | p2/RosmeryMartin.c:131-153 | the loop from slot i on keeps the slots before i and permutes the rest |
| SjfScheduler.SlotTimed | p2/RosmeryMartin.c:147-152 | slot i starts at the later of the previous completion and its arrival and runs its burst, in any later state that shares slots 0..i with the state after its pass |
| SjfScheduler.RunTimed | p2/RosmeryMartin.c:131-153 | after the loop every slot from i on starts at the later of the previous completion and its arrival, and completes after its burst |
| SjfScheduler.TimelineDispatched | p2/RosmeryMartin.c:114-153 | the placed batch is a timeline and a permutation of the input's keys |
| SjfScheduler.PickWindow | p2/RosmeryMartin.c:134-140 | in a shaped batch, the scan's bound is at least the previous completion, the pick is the first shortest in the window, everything past the window arrived after the bound, and a pick other than slot i means slot i arrived in the window |
| SjfScheduler.GateIsBound | p2/RosmeryMartin.c:134-152 | the gate of the slot just placed is the bound its scan used |
| SjfScheduler.StepGreedy | p2/RosmeryMartin.c:134-152 | the pick has a burst no longer than any later record that arrived by the gate, and when the CPU had gone idle it is the earliest remaining record |
| SjfScheduler.StepShape | p2/RosmeryMartin.c:131-153 | a pass keeps the unplaced slots shaped: the records arrived by the new completion first, then the rest in arrival order |
| SjfScheduler.ChoiceKept | p2/RosmeryMartin.c:131-153 | later passes only permute the slots after i, so they keep the choice made for slot i |
| SjfScheduler.ChoiceExtends | p2/RosmeryMartin.c:131-153 | a greedy choice for slot i before greedy slots from i + 1 on makes all slots from i on greedy |
| SjfScheduler.SlotSettled | p2/RosmeryMartin.c:131-153 | what the pass for slot i chose still holds after every later pass |
| SjfScheduler.RunGreedy | p2/RosmeryMartin.c:131-153 | from a shaped state, with positive bursts, the loop fills every slot shortest-first by its gate and earliest-first after an idle gap |
| SjfScheduler.FirstGreedy | p2/RosmeryMartin.c:115-128 | slot 0 of a sorted batch holds the earliest arrival with the shortest burst among its ties, and the slots behind stay in arrival order |
| SjfScheduler.FirstReady | p2/RosmeryMartin.c:100-128 | after sorting and placing slot 0, slot 0 is front greedy, the rest are shaped, and the bursts stay positive |
| SjfScheduler.FrontKept | p2/RosmeryMartin.c:131-153 | keeping slot 0 and permuting the rest keeps slot 0 front greedy |
| SjfScheduler.TimelineGreedy | p2/RosmeryMartin.c:100-153 | the placed batch satisfies all the greedy facts |
| SjfScheduler.SameTimesGreedy | p2/RosmeryMartin.c:157-165 | the greedy facts carry over between batches that agree on arrival, burst, idle and completion in every slot |
| SjfScheduler.AnnotatedGreedy | p2/RosmeryMartin.c:157-165 | the metrics loop keeps the greedy facts |
| SjfScheduler.SjfOrder | p2/RosmeryMartin.c:93-165 | the SJF schedule is a permutation of the batch in keys and in trace, a timeline, and obeys the metric formulas |
| SjfScheduler.SjfNoOverlap | p2/RosmeryMartin.c:147-161 | with positive bursts nothing starts before it arrives or before an earlier slot completes, completions strictly increase, waiting is start minus arrival and never negative, and the first record never waits |
| SjfScheduler.SjfTotals | p2/RosmeryMartin.c:157-165 | the summed waiting time equals the summed turnaround minus the summed burst |
| SjfScheduler.SjfLoadedTrace | p2/RosmeryMartin.c:69 | for a freshly loaded batch the SJF trace is a permutation of 1..n |
| SjfScheduler.SjfGreedy | p2/RosmeryMartin.c:114-153 | slot 0 holds an earliest arrival with the shortest burst among its ties; every later slot has a burst no longer than any later record that arrived by its gate; a slot after an idle gap holds the earliest remaining record |
| SjfScheduler.SjfExample | p2/RosmeryMartin.c:93-165 | (7,0),(4,2),(1,4),(4,5) runs P1, P3, P2, P4, completing at 7, 8, 12, 16 and waiting 0, 3, 6, 7 |
| SjfScheduler.SjfIdleExample | p2/RosmeryMartin.c:134-152 | as written, (2,0),(9,5),(1,5) runs P1, P2, P3: P2 starts at 5 although P3, with a shorter burst, also arrived at 5; the schedule is not shortest-first by start time |
| SjfScheduler.SjfIdleCorrected | p2/RosmeryMartin.c:134-152 | with the widened window the same batch runs P1, P3, P2, completing at 2, 6, 15, and is shortest-first by start time |
| Statistics.Report | p2/RosmeryMartin.c:157-165 | the metrics loop leaves the array annotated with turnaround and waiting times, the order array is the trace, and the totals are the sums |
| Statistics.WaitingUpToPrefix | p2/RosmeryMartin.c:159-162 | over every prefix of a measured batch, summed waiting equals summed turnaround minus summed burst |
| Statistics.WaitingTotal | p2/RosmeryMartin.c:159-162 | over a measured batch, summed waiting equals summed turnaround minus summed burst |
| Statistics.AnnotatedKeeps | p2/RosmeryMartin.c:157-165 | annotating keeps keys, idle and completion times, a timeline and the burst total, and establishes the metric formulas |
| Statistics.DispatchedChain | p2/RosmeryMartin.c:147-152 | in a timeline with positive bursts, a later slot starts no earlier than an earlier one completes and completes strictly later |
| Statistics.DispatchedTimeline | p2/RosmeryMartin.c:147-152 | in a timeline with positive bursts nothing starts before it arrives, and slots neither overlap nor complete out of order |
| Statistics.DispatchedWaiting | p2/RosmeryMartin.c:159-161 | in a measured timeline each waiting time is the delay from arrival to start, never negative, and 0 for the first slot |

## Left out

- Reading the input file, the command-line selection of the algorithm, and all `printf` output
  are not modelled, including the two print loops at lines 169-174 and 222-227, which only read
  the records. The loader is given its `(burst, arrival)` lines as a sequence.
- The two averages are floating-point divisions of the totals by n. The C program accumulates
  the totals themselves in `float` variables (lines 96, 160, 162, 187, 212 and 214). They equal
  the model's integer totals only while every partial sum stays below 2^24 in magnitude. The
  model returns the exact integer totals, and the averages are those totals divided by the
  batch size.
- The caller's fixed capacity of 50 records, and the variable-length order array, are not
  modelled. The order array is a fresh `array<int>` of the batch size.
- Both schedulers require a batch of at least one record. The source reads `process[0]`
  unconditionally and divides by n.
- Integers are unbounded. The C `int` sums can overflow for large inputs, and that overflow
  is not modelled.
- The C program leaves the derived fields of a loaded record uninitialised. The model loads
  them as 0.
- FcfsScheduler.FcfsTimeline: assumes positive bursts. The source does not check bursts, and
  with a zero burst completions are only non-decreasing.
- FcfsScheduler.FcfsIncreasing: assumes positive bursts, for the same reason.
- SjfScheduler.SjfNoOverlap: assumes positive bursts, for the same reason.
- SjfScheduler.SjfGreedy: assumes positive bursts. The shape argument needs completions to
  be no earlier than starts.
- FcfsScheduler.Fcfs: FCFS never writes the idle field. The model keeps whatever value the
  record had.

## Findings

| source | as written | input that shows it | evidently intended | confidence | as-written member | corrected member |
|---|---|---|---|---|---|---|
| p2/RosmeryMartin.c:206-210 | the FCFS clock adds each burst to the previous completion even when the next record has not yet arrived | (burst 1, arrival 0), (burst 1, arrival 10): the second record completes at 2, before it arrives, and waits -9 | a record starts at the later of the previous completion and its arrival, so no waiting time is negative | not executed | FcfsScheduler.FcfsGapExample | FcfsScheduler.GapScheduleDispatched |
| p2/RosmeryMartin.c:134 | the SJF scan admits only records that arrived by the previous completion, even when the CPU idles until slot i's record arrives | (2, 0), (9, 5), (1, 5): the CPU is free at 2 and idles until 5; the scan sees only P2 and runs its burst of 9 before P3's burst of 1, which arrived at the same time | the scan admits every record that arrived by slot i's start time | not executed | SjfScheduler.SjfIdleExample | SjfScheduler.SjfGreedy |
