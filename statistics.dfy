/**
 * Per-record turnaround and waiting times, the batch totals, and the shape of a
 * timeline in which the CPU serves one record at a time and never before it arrives.
 */
module Statistics {
  import opened Processes

  function Max(x: int, y: int): int { if x < y then y else x }

  /** A record with its turnaround and waiting times derived from its completion time. */
  function Measured(p: Process): Process
  {
    p.(turnaround := p.completion - p.arrival, waiting := p.completion - p.arrival - p.burst)
  }

  function Annotated(s: seq<Process>): seq<Process> { Map(Measured, s) }

  /** Turnaround is completion minus arrival and waiting is turnaround minus burst, for every record. */
  predicate MetricsHold(s: seq<Process>)
  {
    forall k :: 0 <= k < |s| ==>
      s[k].turnaround == s[k].completion - s[k].arrival && s[k].waiting == s[k].turnaround - s[k].burst
  }

  /** The sums of bursts, turnarounds and waiting times over the first n slots. */
  function BurstUpTo(s: seq<Process>, n: nat): int
    requires n <= |s|
  {
    if n == 0 then 0 else BurstUpTo(s, n - 1) + s[n - 1].burst
  }

  function TurnaroundUpTo(s: seq<Process>, n: nat): int
    requires n <= |s|
  {
    if n == 0 then 0 else TurnaroundUpTo(s, n - 1) + s[n - 1].turnaround
  }

  function WaitingUpTo(s: seq<Process>, n: nat): int
    requires n <= |s|
  {
    if n == 0 then 0 else WaitingUpTo(s, n - 1) + s[n - 1].waiting
  }

  function TotalBurst(s: seq<Process>): int { BurstUpTo(s, |s|) }

  function TotalTurnaround(s: seq<Process>): int { TurnaroundUpTo(s, |s|) }

  function TotalWaiting(s: seq<Process>): int { WaitingUpTo(s, |s|) }

  /**
   * A timeline: the first record starts when it arrives, every later one when both the
   * CPU is free and it has arrived, and each runs for its whole burst.
   */
  predicate Dispatched(t: seq<Process>)
  {
    |t| >= 1 &&
    t[0].idle == t[0].arrival &&
    (forall i :: 1 <= i < |t| ==> t[i].idle == Max(t[i - 1].completion, t[i].arrival)) &&
    (forall i :: 0 <= i < |t| ==> t[i].completion == t[i].idle + t[i].burst)
  }

  /** Over any prefix, the summed waiting time is the summed turnaround minus the summed burst. */
  lemma {:induction false} WaitingUpToPrefix(s: seq<Process>, n: nat)
    requires MetricsHold(s) && n <= |s|
    ensures WaitingUpTo(s, n) == TurnaroundUpTo(s, n) - BurstUpTo(s, n)
  {
    if n > 0 {
      WaitingUpToPrefix(s, n - 1);
    }
  }

  /** The summed waiting time is the summed turnaround minus the summed burst. */
  lemma WaitingTotal(s: seq<Process>)
    requires MetricsHold(s)
    ensures TotalWaiting(s) == TotalTurnaround(s) - TotalBurst(s)
  {
    WaitingUpToPrefix(s, |s|);
  }

  /** Sums of bursts depend on the bursts alone. */
  lemma {:induction false} SameBurstsSameSum(s: seq<Process>, u: seq<Process>, n: nat)
    requires n <= |s| == |u|
    requires forall k :: 0 <= k < |s| ==> s[k].burst == u[k].burst
    ensures BurstUpTo(s, n) == BurstUpTo(u, n)
  {
    if n > 0 {
      SameBurstsSameSum(s, u, n - 1);
    }
  }

  /** Annotating keeps every record's key and times, and makes the metric formulas hold. */
  lemma AnnotatedKeeps(s: seq<Process>)
    ensures |Annotated(s)| == |s| && Keys(Annotated(s)) == Keys(s)
    ensures MetricsHold(Annotated(s))
    ensures forall k :: 0 <= k < |s| ==>
      Annotated(s)[k].idle == s[k].idle && Annotated(s)[k].completion == s[k].completion
    ensures Dispatched(s) ==> Dispatched(Annotated(s))
    ensures TotalBurst(Annotated(s)) == TotalBurst(s)
  {
    SameBurstsSameSum(Annotated(s), s, |s|);
  }

  /** Two records overlap in nothing, the later starts after the earlier completes. */
  lemma {:induction false} DispatchedChain(t: seq<Process>, i: nat, j: nat)
    requires Dispatched(t) && PositiveBursts(t)
    requires i < j < |t|
    ensures t[i].completion <= t[j].idle
    ensures t[i].completion < t[j].completion
    decreases j - i
  {
    if i + 1 < j {
      DispatchedChain(t, i, j - 1);
    }
  }

  /** In a timeline with positive bursts no record starts before it arrives or before its predecessors finish. */
  lemma DispatchedTimeline(t: seq<Process>)
    requires Dispatched(t) && PositiveBursts(t)
    ensures forall i :: 0 <= i < |t| ==> t[i].arrival <= t[i].idle
    ensures forall i, j :: 0 <= i < j < |t| ==> t[i].completion <= t[j].idle
    ensures forall i, j :: 0 <= i < j < |t| ==> t[i].completion < t[j].completion
  {
    forall i | 0 <= i < |t| ensures t[i].arrival <= t[i].idle {
      StartsAfterArrival(t, i);
    }
    forall i, j | 0 <= i < j < |t|
      ensures t[i].completion <= t[j].idle && t[i].completion < t[j].completion
    {
      DispatchedChain(t, i, j);
    }
  }

  lemma StartsAfterArrival(t: seq<Process>, i: nat)
    requires Dispatched(t) && i < |t|
    ensures t[i].arrival <= t[i].idle
  {
    if i > 0 {
      assert t[i].idle == Max(t[i - 1].completion, t[i].arrival);
    }
  }

  /** In a measured timeline each waiting time is the delay from arrival to start, so never negative. */
  lemma DispatchedWaiting(t: seq<Process>)
    requires Dispatched(t) && MetricsHold(t)
    ensures forall i :: 0 <= i < |t| ==> t[i].waiting == t[i].idle - t[i].arrival >= 0
    ensures t[0].waiting == 0
  {
    forall i | 0 <= i < |t| ensures t[i].waiting == t[i].idle - t[i].arrival >= 0 {
      StartsAfterArrival(t, i);
    }
  }

  /**
   * The metrics loop shared by both schedulers: it fills in turnaround and waiting times,
   * sums them and records the execution order.
   */
  method Report(a: array<Process>) returns (order: array<int>, totalTurnaround: int, totalWaiting: int)
    modifies a
    ensures fresh(order)
    ensures a[..] == Annotated(old(a[..]))
    ensures order[..] == Ids(a[..])
    ensures totalTurnaround == TotalTurnaround(a[..]) && totalWaiting == TotalWaiting(a[..])
  {
    ghost var after := Annotated(a[..]);
    order := new int[a.Length];
    totalTurnaround, totalWaiting := 0, 0;
    for i := 0 to a.Length
      invariant forall k :: 0 <= k < i ==> a[k] == after[k]
      invariant forall k :: i <= k < a.Length ==> a[k] == old(a[k])
      invariant forall k :: 0 <= k < i ==> order[k] == a[k].id
      invariant totalTurnaround == TurnaroundUpTo(after, i) && totalWaiting == WaitingUpTo(after, i)
    {
      var p := a[i];
      p := p.(turnaround := p.completion - p.arrival);
      totalTurnaround := totalTurnaround + p.turnaround;
      p := p.(waiting := p.turnaround - p.burst);
      totalWaiting := totalWaiting + p.waiting;
      a[i] := p;
      order[i] := p.id;
    }
    assert a[..] == after;
    assert order[..] == Ids(a[..]);
  }
}
