/**
 * First-come first-served: sort by arrival, then run the records back to back from the
 * first arrival on, filling in completion, turnaround and waiting times in one pass.
 */
module FcfsScheduler {
  import opened Processes
  import opened Statistics
  import opened ArrivalOrder

  /**
   * As written, the clock starts at the first record's arrival and every record, in slot
   * order, completes at the clock plus its burst, which becomes the new clock.
   */
  function FcfsCompletion(t: seq<Process>, i: nat): int
    requires i < |t|
  {
    (if i == 0 then t[0].arrival else FcfsCompletion(t, i - 1)) + t[i].burst
  }

  /** Record i with its FCFS completion, turnaround and waiting times; its idle field is left as it was. */
  function FcfsTimed(t: seq<Process>, i: nat): Process
    requires i < |t|
  {
    Measured(t[i].(completion := FcfsCompletion(t, i)))
  }

  function FcfsTimes(t: seq<Process>): seq<Process>
  {
    seq(|t|, i requires 0 <= i < |t| => FcfsTimed(t, i))
  }

  function FcfsSchedule(s: seq<Process>): seq<Process>
  {
    FcfsTimes(ArrivalSort(s))
  }

  /** The FCFS scheduler: sort, then one loop that times, measures and traces every record. */
  method Fcfs(a: array<Process>) returns (order: array<int>, totalTurnaround: int, totalWaiting: int)
    requires a.Length >= 1
    modifies a
    ensures fresh(order)
    ensures a[..] == FcfsSchedule(old(a[..]))
    ensures order[..] == Ids(a[..])
    ensures totalTurnaround == TotalTurnaround(a[..]) && totalWaiting == TotalWaiting(a[..])
  {
    SortByArrival(a);
    order, totalTurnaround, totalWaiting := RunInOrder(a);
  }

  /** The FCFS timing loop over an arrival-ordered array. */
  method RunInOrder(a: array<Process>) returns (order: array<int>, totalTurnaround: int, totalWaiting: int)
    requires a.Length >= 1
    modifies a
    ensures fresh(order)
    ensures a[..] == FcfsTimes(old(a[..]))
    ensures order[..] == Ids(a[..])
    ensures totalTurnaround == TotalTurnaround(a[..]) && totalWaiting == TotalWaiting(a[..])
  {
    ghost var sorted := a[..];
    ghost var times := FcfsTimes(sorted);
    order := new int[a.Length];
    totalTurnaround, totalWaiting := 0, 0;
    var completion := a[0].arrival;
    for i := 0 to a.Length
      invariant forall k :: 0 <= k < i ==> a[k] == times[k]
      invariant forall k :: i <= k < a.Length ==> a[k] == sorted[k]
      invariant completion == if i == 0 then sorted[0].arrival else FcfsCompletion(sorted, i - 1)
      invariant forall k :: 0 <= k < i ==> order[k] == a[k].id
      invariant totalTurnaround == TurnaroundUpTo(times, i)
      invariant totalWaiting == WaitingUpTo(times, i)
    {
      SlotTimes(sorted, i, completion);
      var p := a[i];
      completion := completion + p.burst;
      p := p.(completion := completion);
      p := p.(turnaround := p.completion - p.arrival);
      totalTurnaround := totalTurnaround + p.turnaround;
      p := p.(waiting := p.turnaround - p.burst);
      totalWaiting := totalWaiting + p.waiting;
      a[i] := p;
      order[i] := p.id;
    }
    assert a[..] == times;
    assert order[..] == Ids(a[..]);
  }

  /** Slot i of the FCFS times, given the clock before it. */
  lemma SlotTimes(t: seq<Process>, i: nat, clock: int)
    requires i < |t| && clock == if i == 0 then t[0].arrival else FcfsCompletion(t, i - 1)
    ensures FcfsCompletion(t, i) == clock + t[i].burst
    ensures FcfsTimes(t)[i] == Measured(t[i].(completion := clock + t[i].burst))
  {
  }

  /**
   * The FCFS recurrence over an arrival-ordered batch t: the first record completes at its
   * arrival plus its burst, every later one at its predecessor's completion plus its own
   * burst; waiting is the gap between the predecessor's completion and the record's arrival.
   */
  lemma TimesRecurrence(t: seq<Process>)
    requires |t| >= 1
    ensures |FcfsTimes(t)| == |t| && Keys(FcfsTimes(t)) == Keys(t)
    ensures forall i :: 0 <= i < |t| ==> FcfsTimes(t)[i].idle == t[i].idle
    ensures FcfsTimes(t)[0].completion == t[0].arrival + t[0].burst
    ensures forall i :: 1 <= i < |t| ==>
      FcfsTimes(t)[i].completion == FcfsTimes(t)[i - 1].completion + t[i].burst
    ensures MetricsHold(FcfsTimes(t))
    ensures FcfsTimes(t)[0].waiting == 0
    ensures forall i :: 1 <= i < |t| ==>
      FcfsTimes(t)[i].waiting == FcfsTimes(t)[i - 1].completion - t[i].arrival
  {
  }

  /** The recurrence, stated for the schedule of an unsorted batch. */
  lemma FcfsRecurrence(s: seq<Process>)
    requires |s| >= 1
    ensures var t := FcfsSchedule(s);
      |t| == |s| &&
      t[0].completion == t[0].arrival + t[0].burst &&
      (forall i :: 1 <= i < |t| ==> t[i].completion == t[i - 1].completion + t[i].burst) &&
      MetricsHold(t) &&
      t[0].waiting == 0 &&
      (forall i :: 1 <= i < |t| ==> t[i].waiting == t[i - 1].completion - t[i].arrival)
  {
    var sorted := ArrivalSort(s);
    TimesRecurrence(sorted);
    assert forall i :: 0 <= i < |sorted| ==> Keys(FcfsTimes(sorted))[i] == Keys(sorted)[i];
  }

  /** FCFS output is ordered by arrival and is a permutation of the batch. */
  lemma FcfsOrder(s: seq<Process>)
    requires |s| >= 1
    ensures ArrivalOrdered(FcfsSchedule(s))
    ensures multiset(Keys(FcfsSchedule(s))) == multiset(Keys(s))
    ensures multiset(Ids(FcfsSchedule(s))) == multiset(Ids(s))
  {
    var sorted := ArrivalSort(s);
    var t := FcfsSchedule(s);
    ArrivalSortSpec(s);
    TimesRecurrence(sorted);
    PermutationKeepsKeys(sorted, s);
    KeysPermutationKeepsIds(t, s);
    forall x, y | 0 <= x < y < |t| ensures t[x].arrival <= t[y].arrival {
      assert Keys(t)[x] == Keys(sorted)[x] && Keys(t)[y] == Keys(sorted)[y];
    }
  }

  lemma {:induction false} FcfsIncreasing(t: seq<Process>, i: nat, j: nat)
    requires i < j < |t| && PositiveBursts(t)
    requires forall k :: 1 <= k < |t| ==> t[k].completion == t[k - 1].completion + t[k].burst
    ensures t[i].completion < t[j].completion
    decreases j - i
  {
    if i + 1 < j {
      FcfsIncreasing(t, i, j - 1);
    }
  }

  /**
   * With positive bursts FCFS completion times strictly increase, and a waiting time is
   * non-negative exactly when the record had arrived by the time its predecessor completed.
   */
  lemma FcfsTimeline(s: seq<Process>)
    requires |s| >= 1 && PositiveBursts(s)
    ensures var t := FcfsSchedule(s);
      |t| == |s| &&
      (forall i, j :: 0 <= i < j < |t| ==> t[i].completion < t[j].completion) &&
      (forall i :: 1 <= i < |t| ==> (t[i].waiting >= 0 <==> t[i].arrival <= t[i - 1].completion))
  {
    FcfsRecurrence(s);
    FcfsOrder(s);
    var t := FcfsSchedule(s);
    PermutationKeepsPositive(t, s);
    forall i, j | 0 <= i < j < |t| ensures t[i].completion < t[j].completion {
      FcfsIncreasing(t, i, j);
    }
  }

  /** The summed waiting time of an FCFS run is its summed turnaround minus its summed burst. */
  lemma FcfsTotals(s: seq<Process>)
    requires |s| >= 1
    ensures TotalWaiting(FcfsSchedule(s)) == TotalTurnaround(FcfsSchedule(s)) - TotalBurst(FcfsSchedule(s))
  {
    FcfsRecurrence(s);
    WaitingTotal(FcfsSchedule(s));
  }

  /** The as-written clock depends only on the first arrival and the bursts. */
  lemma {:induction false} SameBurstsSameCompletion(t: seq<Process>, u: seq<Process>, i: nat)
    requires i < |t| == |u| && t[0].arrival == u[0].arrival
    requires forall k :: 0 <= k < |t| ==> t[k].burst == u[k].burst
    ensures FcfsCompletion(t, i) == FcfsCompletion(u, i)
  {
    if i > 0 {
      SameBurstsSameCompletion(t, u, i - 1);
    }
  }

  /** The as-written clock in closed form: the first arrival plus every burst up to slot i. */
  lemma {:induction false} CompletionIsPrefixBurst(t: seq<Process>, i: nat)
    requires i < |t|
    ensures FcfsCompletion(t, i) == t[0].arrival + BurstUpTo(t, i + 1)
  {
    if i > 0 {
      CompletionIsPrefixBurst(t, i - 1);
    }
  }

  /** Timing an already timed batch again changes nothing. */
  lemma TimesIdempotent(t: seq<Process>)
    requires |t| >= 1
    ensures FcfsTimes(FcfsTimes(t)) == FcfsTimes(t)
  {
    var u := FcfsTimes(t);
    forall i | 0 <= i < |t| ensures FcfsTimed(u, i) == u[i] {
      SameBurstsSameCompletion(u, t, i);
    }
  }

  /** Running FCFS on its own output gives the same schedule back. */
  lemma FcfsIdempotent(s: seq<Process>)
    requires |s| >= 1
    ensures FcfsSchedule(FcfsSchedule(s)) == FcfsSchedule(s)
  {
    FcfsOrder(s);
    ArrivalSortOfOrdered(FcfsSchedule(s));
    TimesIdempotent(ArrivalSort(s));
  }

  /** For a freshly loaded batch the trace is a permutation of 1..n and ties keep input order. */
  lemma FcfsLoadedTrace(jobs: seq<Job>)
    requires |jobs| >= 1
    ensures multiset(Ids(FcfsSchedule(Loaded(jobs)))) == multiset(IdRange(|jobs|))
    ensures TiesByIncreasingId(FcfsSchedule(Loaded(jobs)))
  {
    var s := Loaded(jobs);
    var sorted := ArrivalSort(s);
    var t := FcfsSchedule(s);
    FcfsOrder(s);
    TimesRecurrence(sorted);
    assert Ids(s) == IdRange(|jobs|);
    ArrivalSortKeepsIdOrder(s);
    forall x, y | 0 <= x < y < |t| && t[x].arrival == t[y].arrival ensures t[x].id < t[y].id {
      assert Keys(t)[x] == Keys(sorted)[x] && Keys(t)[y] == Keys(sorted)[y];
    }
  }

  /** The batch (5, 0), (3, 1), (8, 2) completes at 5, 8, 16 and waits 0, 4, 6. */
  lemma FcfsExample()
    ensures FcfsSchedule(Loaded([Job(5, 0), Job(3, 1), Job(8, 2)])) ==
      [Process(1, 0, 5, 0, 5, 5, 0), Process(2, 1, 3, 0, 8, 7, 4), Process(3, 2, 8, 0, 16, 14, 6)]
  {
    var s := Loaded([Job(5, 0), Job(3, 1), Job(8, 2)]);
    assert |s| == 3 && s[0] == Process(1, 0, 5, 0, 0, 0, 0) && s[1] == Process(2, 1, 3, 0, 0, 0, 0)
      && s[2] == Process(3, 2, 8, 0, 0, 0, 0);
    assert ArrivalOrdered(s);
    ArrivalSortOfOrdered(s);
    assert FcfsCompletion(s, 0) == 5;
    assert FcfsCompletion(s, 1) == 8;
    assert FcfsCompletion(s, 2) == 16;
  }

  /**
   * The intended FCFS clock: a record starts when the CPU is free and it has arrived,
   * so an idle gap before a late arrival is waited out instead of run through.
   */
  function GapStart(t: seq<Process>, i: nat): int
    requires i < |t|
  {
    if i == 0 then t[0].arrival else Max(GapStart(t, i - 1) + t[i - 1].burst, t[i].arrival)
  }

  function GapTimed(t: seq<Process>, i: nat): Process
    requires i < |t|
  {
    Measured(t[i].(idle := GapStart(t, i), completion := GapStart(t, i) + t[i].burst))
  }

  function GapTimes(t: seq<Process>): seq<Process>
  {
    seq(|t|, i requires 0 <= i < |t| => GapTimed(t, i))
  }

  function GapSchedule(s: seq<Process>): seq<Process>
  {
    GapTimes(ArrivalSort(s))
  }

  /** Timing a batch with the gap-aware clock keeps its keys and yields a measured timeline. */
  lemma GapTimesDispatched(t: seq<Process>)
    requires |t| >= 1
    ensures |GapTimes(t)| == |t| && Keys(GapTimes(t)) == Keys(t)
    ensures Dispatched(GapTimes(t)) && MetricsHold(GapTimes(t))
  {
    var r := GapTimes(t);
    forall i | 1 <= i < |r| ensures r[i].idle == Max(r[i - 1].completion, r[i].arrival) {
      assert r[i] == GapTimed(t, i) && r[i - 1] == GapTimed(t, i - 1);
    }
  }

  /** The gap-aware schedule is a timeline whose waiting times are the delays from arrival to start. */
  lemma GapScheduleDispatched(s: seq<Process>)
    requires |s| >= 1
    ensures |GapSchedule(s)| == |s| && Dispatched(GapSchedule(s)) && MetricsHold(GapSchedule(s))
    ensures multiset(Keys(GapSchedule(s))) == multiset(Keys(s))
    ensures forall i :: 0 <= i < |s| ==> GapSchedule(s)[i].waiting >= 0
  {
    var t := ArrivalSort(s);
    ArrivalSortSpec(s);
    PermutationKeepsKeys(t, s);
    GapTimesDispatched(t);
    DispatchedWaiting(GapTimes(t));
  }

  /** Where no record arrives after its predecessor completes, the gap-aware schedule is the as-written one. */
  lemma {:induction false} GapFreeAgrees(t: seq<Process>, i: nat)
    requires i < |t|
    requires forall k :: 1 <= k <= i ==> t[k].arrival <= FcfsCompletion(t, k - 1)
    ensures GapStart(t, i) + t[i].burst == FcfsCompletion(t, i)
  {
    if i > 0 {
      GapFreeAgrees(t, i - 1);
    }
  }

  /**
   * As written, a record that arrives after the CPU has gone idle is still run back to back:
   * for (1, 0), (1, 10) the second record completes at 2, before it arrives, and waits -9;
   * the gap-aware schedule completes it at 11 with no wait.
   */
  lemma FcfsGapExample()
    ensures FcfsSchedule(Loaded([Job(1, 0), Job(1, 10)]))[1].completion == 2
    ensures FcfsSchedule(Loaded([Job(1, 0), Job(1, 10)]))[1].waiting == -9
    ensures GapSchedule(Loaded([Job(1, 0), Job(1, 10)]))[1].completion == 11
    ensures GapSchedule(Loaded([Job(1, 0), Job(1, 10)]))[1].waiting == 0
  {
    var s := Loaded([Job(1, 0), Job(1, 10)]);
    assert |s| == 2 && s[0] == Process(1, 0, 1, 0, 0, 0, 0) && s[1] == Process(2, 10, 1, 0, 0, 0, 0);
    assert ArrivalOrdered(s);
    ArrivalSortOfOrdered(s);
    assert FcfsCompletion(s, 0) == 1;
    assert FcfsCompletion(s, 1) == 2;
    assert GapStart(s, 0) == 0;
    assert GapStart(s, 1) == 10;
  }
}
