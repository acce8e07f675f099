/**
 * Shortest job first, non-preemptive: sort by arrival, put the shortest of the records that
 * arrived first into slot 0, then fill every later slot with the shortest record that had
 * arrived by the time the previous one completed, swapping it into place.
 */
module SjfScheduler {
  import opened Processes
  import opened Statistics
  import opened ArrivalOrder

  /**
   * Which records the scan for slot i may pick from. As written, those that arrived by the time
   * the previous record completed; the corrected window also admits those that arrived by the
   * time slot i can start, which matters when the CPU has gone idle.
   */
  datatype Window = AsWritten | UntilStart

  function Swap(s: seq<Process>, i: nat, j: nat): (r: seq<Process>)
    requires i < |s| && j < |s|
    ensures |r| == |s|
  {
    s[i := s[j]][j := s[i]]
  }

  /** Where a burst scan over slots lo..hi-1 settles: the first record with the smallest burst. */
  function ShortestIn(s: seq<Process>, lo: nat, hi: nat): (m: nat)
    requires lo < hi <= |s|
    ensures lo <= m < hi
    ensures forall k :: lo <= k < hi ==> s[m].burst <= s[k].burst
    ensures forall k :: lo <= k < m ==> s[m].burst < s[k].burst
    decreases hi
  {
    if hi == lo + 1 then lo
    else
      var m := ShortestIn(s, lo, hi - 1);
      if s[hi - 1].burst < s[m].burst then hi - 1 else m
  }

  /** Where a scan from slot j stops: the first slot whose record arrived after bound, or the end. */
  function RunEnd(s: seq<Process>, j: nat, bound: int): (e: nat)
    requires j <= |s|
    ensures j <= e <= |s|
    ensures forall k :: j <= k < e ==> s[k].arrival <= bound
    ensures e < |s| ==> s[e].arrival > bound
    decreases |s| - j
  {
    if j == |s| || s[j].arrival > bound then j else RunEnd(s, j + 1, bound)
  }

  /** Where the scan for slot 0 stops: the first slot whose arrival differs from slot 0's, or the end. */
  function TieEnd(s: seq<Process>, j: nat): (e: nat)
    requires 1 <= |s| && j <= |s|
    ensures j <= e <= |s|
    ensures forall k :: j <= k < e ==> s[k].arrival == s[0].arrival
    ensures e < |s| ==> s[e].arrival != s[0].arrival
    decreases |s| - j
  {
    if j == |s| || s[j].arrival != s[0].arrival then j else TieEnd(s, j + 1)
  }

  function FirstPick(s: seq<Process>): nat
    requires |s| >= 1
  {
    ShortestIn(s, 0, TieEnd(s, 1))
  }

  /** Slot 0 of an arrival-ordered batch: the pick is swapped to the front and runs from its arrival. */
  function SjfFirst(s: seq<Process>): (r: seq<Process>)
    requires |s| >= 1
    ensures |r| == |s|
  {
    var t := Swap(s, 0, FirstPick(s));
    t[0 := t[0].(idle := t[0].arrival, completion := t[0].arrival + t[0].burst)]
  }

  /** The latest arrival the scan for slot i admits. */
  function Bound(s: seq<Process>, i: nat, w: Window): int
    requires 1 <= i < |s|
  {
    match w
    case AsWritten => s[i - 1].completion
    case UntilStart => Max(s[i - 1].completion, s[i].arrival)
  }

  function Pick(s: seq<Process>, i: nat, w: Window): nat
    requires 1 <= i < |s|
  {
    ShortestIn(s, i, RunEnd(s, i + 1, Bound(s, i, w)))
  }

  /** Slot i timed: it starts when the previous record completes, or at its arrival if that is later. */
  function Started(t: seq<Process>, i: nat): Process
    requires 1 <= i < |t|
  {
    var start := if t[i].arrival <= t[i - 1].completion then t[i - 1].completion else t[i].arrival;
    t[i].(idle := start, completion := start + t[i].burst)
  }

  /** One pass of the scheduling loop: pick for slot i, swap the pick into place and time it. */
  function Step(s: seq<Process>, i: nat, w: Window): (r: seq<Process>)
    requires 1 <= i < |s|
    ensures |r| == |s|
  {
    var t := Swap(s, i, Pick(s, i, w));
    t[i := Started(t, i)]
  }

  /** The scheduling loop from slot i on: one pass per slot, up to the last. */
  function Run(s: seq<Process>, i: nat, w: Window): (r: seq<Process>)
    requires 1 <= i <= |s|
    ensures |r| == |s|
    decreases |s| - i
  {
    if i == |s| then s else Run(Step(s, i, w), i + 1, w)
  }

  /** Every slot placed and timed, before the metrics loop. */
  function SjfTimeline(s: seq<Process>, w: Window): (r: seq<Process>)
    requires |s| >= 1
    ensures |r| == |s|
  {
    Run(SjfFirst(ArrivalSort(s)), 1, w)
  }

  function SjfSchedule(s: seq<Process>, w: Window): (r: seq<Process>)
    requires |s| >= 1
    ensures |r| == |s|
  {
    Annotated(SjfTimeline(s, w))
  }

  /** The scan for slot 0 over the records that arrived together with the first one. */
  method FindFirstShortest(a: array<Process>) returns (min: nat)
    requires a.Length >= 1
    ensures min == FirstPick(a[..])
  {
    min := 0;
    var j := 1;
    while j < a.Length && a[j].arrival == a[0].arrival
      invariant 1 <= j <= TieEnd(a[..], 1)
      invariant min == ShortestIn(a[..], 0, j)
      decreases a.Length - j
    {
      if a[j].burst < a[min].burst {
        min := j;
      }
      j := j + 1;
    }
  }

  /** The scan for slot i over the records from slot i + 1 on that arrived by bound. */
  method ShortestArrived(a: array<Process>, i: nat, bound: int) returns (min: nat)
    requires 1 <= i < a.Length
    ensures min == ShortestIn(a[..], i, RunEnd(a[..], i + 1, bound))
  {
    min := i;
    var j := i + 1;
    while j < a.Length && a[j].arrival <= bound
      invariant i + 1 <= j <= RunEnd(a[..], i + 1, bound)
      invariant min == ShortestIn(a[..], i, j)
      decreases a.Length - j
    {
      if a[j].burst < a[min].burst {
        min := j;
      }
      j := j + 1;
    }
  }

  /** Slot 0: pick, swap through a temporary, and time it from its arrival. */
  method PlaceFirst(a: array<Process>)
    requires a.Length >= 1
    modifies a
    ensures a[..] == SjfFirst(old(a[..]))
  {
    var min := FindFirstShortest(a);
    var temp := a[0];
    a[0] := a[min];
    a[min] := temp;
    a[0] := a[0].(idle := a[0].arrival);
    a[0] := a[0].(completion := a[0].idle + a[0].burst);
  }

  /** One pass of the scheduling loop over slot i. */
  method PlaceNext(a: array<Process>, i: nat)
    requires 1 <= i < a.Length
    modifies a
    ensures a[..] == Step(old(a[..]), i, AsWritten)
  {
    var min := ShortestArrived(a, i, a[i - 1].completion);
    var temp := a[i];
    a[i] := a[min];
    a[min] := temp;
    if a[i].arrival <= a[i - 1].completion {
      a[i] := a[i].(idle := a[i - 1].completion);
    } else {
      a[i] := a[i].(idle := a[i].arrival);
    }
    a[i] := a[i].(completion := a[i].idle + a[i].burst);
  }

  /** The SJF scheduler: sort, place slot 0, place every later slot, then measure and trace. */
  method Sjf(a: array<Process>) returns (order: array<int>, totalTurnaround: int, totalWaiting: int)
    requires a.Length >= 1
    modifies a
    ensures fresh(order)
    ensures a[..] == SjfSchedule(old(a[..]), AsWritten)
    ensures order[..] == Ids(a[..])
    ensures totalTurnaround == TotalTurnaround(a[..]) && totalWaiting == TotalWaiting(a[..])
  {
    SortByArrival(a);
    PlaceFirst(a);
    ghost var first := a[..];
    for i := 1 to a.Length
      invariant Run(a[..], i, AsWritten) == Run(first, 1, AsWritten)
    {
      PlaceNext(a, i);
    }
    order, totalTurnaround, totalWaiting := Report(a);
  }

  lemma KeysConcat(x: seq<Process>, y: seq<Process>)
    ensures Keys(x + y) == Keys(x) + Keys(y)
  {
    MapConcat(KeyOf, x, y);
  }

  /** Keeping the slots before j and permuting the rest keeps the slots before any i <= j and permutes the rest. */
  lemma SuffixPermutation(s: seq<Process>, t: seq<Process>, i: nat, j: nat)
    requires i <= j <= |s| == |t|
    requires t[..j] == s[..j] && multiset(Keys(t[j..])) == multiset(Keys(s[j..]))
    ensures t[..i] == s[..i] && multiset(Keys(t[i..])) == multiset(Keys(s[i..]))
  {
    assert t[..i] == t[..j][..i];
    assert s[..i] == s[..j][..i];
    assert t[i..] == t[i..j] + t[j..];
    assert s[i..] == s[i..j] + s[j..];
    assert t[i..j] == s[i..j];
    KeysConcat(t[i..j], t[j..]);
    KeysConcat(s[i..j], s[j..]);
  }

  /** Keeping a prefix and permuting the rest permutes the whole. */
  lemma WholePermutation(s: seq<Process>, t: seq<Process>, i: nat)
    requires i <= |s| == |t|
    requires t[..i] == s[..i] && multiset(Keys(t[i..])) == multiset(Keys(s[i..]))
    ensures multiset(Keys(t)) == multiset(Keys(s))
  {
    SuffixPermutation(s, t, 0, i);
    assert t[0..] == t && s[0..] == s;
  }

  /** A record in the permuted part of t has a record with the same key in the same part of s. */
  lemma SuffixMember(s: seq<Process>, t: seq<Process>, i: nat, k: nat)
    requires i <= k < |t| && i <= |s|
    requires multiset(Keys(t[i..])) == multiset(Keys(s[i..]))
    ensures exists x :: i <= x < |s| && KeyOf(s[x]) == KeyOf(t[k])
  {
    assert Keys(t[i..])[k - i] == KeyOf(t[k]);
    assert KeyOf(t[k]) in multiset(Keys(s[i..]));
    var y :| 0 <= y < |s[i..]| && Keys(s[i..])[y] == KeyOf(t[k]);
    assert KeyOf(s[i + y]) == KeyOf(t[k]);
  }

  /** Exchanging two elements keeps the multiset of a sequence. */
  lemma SwapKeepsMultiset(x: seq<Process>, j: nat, k: nat)
    requires j < |x| && k < |x|
    ensures multiset(Swap(x, j, k)) == multiset(x)
  {
    if j != k {
      var y := x[j := x[k]];
      assert multiset(y) == multiset(x) - multiset{x[j]} + multiset{x[k]};
      assert y[k] == x[k];
      assert multiset(y[k := x[j]]) == multiset(y) - multiset{x[k]} + multiset{x[j]};
    }
  }

  /** Swapping two slots at or after i keeps the prefix before i and swaps within the suffix. */
  lemma SwapSuffix(s: seq<Process>, i: nat, m: nat)
    requires i <= m < |s|
    ensures Swap(s, i, m)[..i] == s[..i] && Swap(s, i, m)[i..] == Swap(s[i..], 0, m - i)
  {
  }

  /** Rewriting slot i with a record of the same key keeps the prefix and the keys of the suffix. */
  lemma RewriteKeys(u: seq<Process>, i: nat, p: Process)
    requires i < |u| && KeyOf(p) == KeyOf(u[i])
    ensures u[i := p][..i] == u[..i] && Keys(u[i := p][i..]) == Keys(u[i..])
  {
    assert Keys(u[i := p][i..]) == Keys(u[i..])[0 := KeyOf(p)];
  }

  /** Swapping the records in slots i and m >= i, then rewriting slot i with the same key. */
  lemma PlaceFrame(s: seq<Process>, i: nat, m: nat, p: Process)
    requires i <= m < |s| && KeyOf(p) == KeyOf(s[m])
    ensures var t := Swap(s, i, m)[i := p];
      t[..i] == s[..i] &&
      multiset(Keys(t[i..])) == multiset(Keys(s[i..]))
  {
    var u := Swap(s, i, m);
    SwapSuffix(s, i, m);
    SwapKeepsMultiset(s[i..], 0, m - i);
    PermutationKeepsKeys(u[i..], s[i..]);
    RewriteKeys(u, i, p);
  }

  /**
   * Placing slot 0 of an arrival-ordered batch: the pick moves to the front and starts at its
   * arrival, the front record takes the pick's slot, and nothing else moves.
   */
  lemma FirstFrame(s: seq<Process>)
    requires |s| >= 1
    ensures var f := SjfFirst(s); var m := FirstPick(s);
      KeyOf(f[0]) == KeyOf(s[m]) &&
      f[0].idle == f[0].arrival && f[0].completion == f[0].idle + f[0].burst &&
      (m != 0 ==> f[m] == s[0]) &&
      (forall k :: 0 < k < |s| && k != m ==> f[k] == s[k]) &&
      multiset(Keys(f)) == multiset(Keys(s))
  {
    var m := FirstPick(s);
    var u := Swap(s, 0, m);
    PlaceFrame(s, 0, m, SjfFirst(s)[0]);
    assert SjfFirst(s)[0..] == SjfFirst(s) && s[0..] == s;
  }

  /**
   * A pass over slot i leaves the slots before i alone and changes only slot i and the pick's
   * slot: the pick moves to slot i and starts when the CPU is free and it has arrived, and the
   * records from slot i on are a permutation of those before the pass.
   */
  lemma StepFrame(s: seq<Process>, i: nat, w: Window)
    requires 1 <= i < |s|
    ensures var t := Step(s, i, w); var m := Pick(s, i, w);
      t[..i] == s[..i] &&
      KeyOf(t[i]) == KeyOf(s[m]) &&
      (m != i ==> t[m] == s[i]) &&
      (forall k :: i < k < |s| && k != m ==> t[k] == s[k]) &&
      t[i].idle == Max(s[i - 1].completion, t[i].arrival) &&
      t[i].completion == t[i].idle + t[i].burst &&
      multiset(Keys(t[i..])) == multiset(Keys(s[i..]))
  {
    var m := Pick(s, i, w);
    PlaceFrame(s, i, m, Started(Swap(s, i, m), i));
  }

  /** The loop from slot i on keeps the slots before i and permutes the rest. */
  lemma {:induction false} RunFrame(s: seq<Process>, i: nat, w: Window)
    requires 1 <= i <= |s|
    ensures Run(s, i, w)[..i] == s[..i]
    ensures multiset(Keys(Run(s, i, w)[i..])) == multiset(Keys(s[i..]))
    decreases |s| - i
  {
    if i < |s| {
      var t := Step(s, i, w);
      RunFrame(t, i + 1, w);
      StepFrame(s, i, w);
      FrameCompose(s, t, Run(t, i + 1, w), i);
    }
  }

  lemma FrameCompose(s: seq<Process>, t: seq<Process>, r: seq<Process>, i: nat)
    requires i < |s| == |t| == |r|
    requires t[..i] == s[..i] && multiset(Keys(t[i..])) == multiset(Keys(s[i..]))
    requires r[..i + 1] == t[..i + 1] && multiset(Keys(r[i + 1..])) == multiset(Keys(t[i + 1..]))
    ensures r[..i] == s[..i] && multiset(Keys(r[i..])) == multiset(Keys(s[i..]))
  {
    SuffixPermutation(t, r, i, i + 1);
  }

  lemma PrefixAt(r: seq<Process>, t: seq<Process>, n: nat, k: nat)
    requires k < n <= |r| && n <= |t| && r[..n] == t[..n]
    ensures r[k] == t[k]
  {
    assert r[k] == r[..n][k];
  }

  /** Slot i keeps the timing its pass gave it in any later state that shares slots 0..i. */
  lemma SlotTimed(s: seq<Process>, t: seq<Process>, r: seq<Process>, i: nat, w: Window)
    requires 1 <= i < |s| && t == Step(s, i, w) && |r| == |s| && r[..i + 1] == t[..i + 1]
    ensures r[i].idle == Max(r[i - 1].completion, r[i].arrival) && r[i].completion == r[i].idle + r[i].burst
  {
    StepFrame(s, i, w);
    PrefixAt(r, t, i + 1, i);
    PrefixAt(r, t, i + 1, i - 1);
    PrefixAt(t, s, i, i - 1);
  }

  /** From slot i on, the loop times every slot as the CPU's timeline demands. */
  lemma {:induction false} RunTimed(s: seq<Process>, i: nat, w: Window)
    requires 1 <= i <= |s|
    ensures var r := Run(s, i, w);
      forall k :: i <= k < |r| ==>
        r[k].idle == Max(r[k - 1].completion, r[k].arrival) && r[k].completion == r[k].idle + r[k].burst
    decreases |s| - i
  {
    if i < |s| {
      var t := Step(s, i, w);
      RunTimed(t, i + 1, w);
      RunFrame(t, i + 1, w);
      SlotTimed(s, t, Run(t, i + 1, w), i, w);
    }
  }

  /**
   * The placed batch is a timeline: slot 0 starts at its arrival and every later slot when the
   * CPU is free and it has arrived; it is a reordering of the input batch.
   */
  lemma TimelineDispatched(s: seq<Process>, w: Window)
    requires |s| >= 1
    ensures Dispatched(SjfTimeline(s, w))
    ensures multiset(Keys(SjfTimeline(s, w))) == multiset(Keys(s))
  {
    var sorted := ArrivalSort(s);
    var f := SjfFirst(sorted);
    var r := SjfTimeline(s, w);
    FirstFrame(sorted);
    RunFrame(f, 1, w);
    RunTimed(f, 1, w);
    PrefixAt(r, f, 1, 0);
    ArrivalSortSpec(s);
    PermutationKeepsKeys(sorted, s);
    WholePermutation(f, r, 1);
  }

  /**
   * The shape the unplaced slots keep from slot i on: once a record arrived after c, it is no
   * later than any record behind it, so the records arrived by c come first, then the rest in
   * arrival order.
   */
  predicate Shaped(s: seq<Process>, i: nat, c: int)
  {
    forall x, y :: i <= x < y < |s| && s[x].arrival > c ==> s[x].arrival <= s[y].arrival
  }

  /** The arrival time by which slot i's competitors had to arrive. */
  function Gate(t: seq<Process>, i: nat, w: Window): int
    requires 1 <= i < |t|
  {
    match w
    case AsWritten => t[i - 1].completion
    case UntilStart => t[i].idle
  }

  /** Facts about the scan for slot i when the unplaced slots are shaped. */
  lemma PickWindow(s: seq<Process>, i: nat, w: Window)
    requires 1 <= i < |s| && Shaped(s, i, s[i - 1].completion)
    ensures var c := s[i - 1].completion; var b := Bound(s, i, w);
      var e := RunEnd(s, i + 1, b); var m := Pick(s, i, w);
      c <= b && m == ShortestIn(s, i, e) &&
      (forall k :: e <= k < |s| ==> s[k].arrival > b) &&
      (m != i ==> s[i].arrival <= b)
  {
    var c := s[i - 1].completion;
    var b := Bound(s, i, w);
    var e := RunEnd(s, i + 1, b);
    forall k | e <= k < |s| ensures s[k].arrival > b {
      if k > e {
        assert s[e].arrival > c;
      }
    }
  }

  /** The gate of the slot just placed is the bound its scan used. */
  lemma GateIsBound(s: seq<Process>, i: nat, w: Window)
    requires 1 <= i < |s| && Shaped(s, i, s[i - 1].completion)
    ensures Gate(Step(s, i, w), i, w) == Bound(s, i, w)
  {
    var m := Pick(s, i, w);
    PickWindow(s, i, w);
    StepFrame(s, i, w);
    if w == UntilStart && s[i].arrival > s[i - 1].completion && m != i {
      assert s[i].arrival <= s[m].arrival;
    }
  }

  /**
   * The pick for slot i has a burst no longer than any later record that arrived by the gate; and
   * if the CPU went idle before it, it is the earliest of the records left.
   */
  lemma StepGreedy(s: seq<Process>, i: nat, w: Window)
    requires 1 <= i < |s| && Shaped(s, i, s[i - 1].completion)
    ensures SlotChoice(Step(s, i, w), i, w)
  {
    var c := s[i - 1].completion;
    var b := Bound(s, i, w);
    var e := RunEnd(s, i + 1, b);
    var m := Pick(s, i, w);
    var t := Step(s, i, w);
    PickWindow(s, i, w);
    GateIsBound(s, i, w);
    StepFrame(s, i, w);
    PrefixAt(t, s, i, i - 1);
    forall k | i < k < |t| && t[k].arrival <= Gate(t, i, w) ensures t[i].burst <= t[k].burst {
      if k != m {
        assert t[k] == s[k];
      }
    }
    if t[i].arrival > t[i - 1].completion {
      forall k | i < k < |t| ensures t[i].arrival <= t[k].arrival {
        if k != m {
          assert t[k] == s[k];
        }
      }
    }
  }

  /**
   * If the slots after i up to e all arrived by b and the slots from e on are those of a shaped s
   * and arrived after b, then from slot i + 1 on every record that arrived after b is no later
   * than any record behind it.
   */
  lemma ShapeAfterWindow(s: seq<Process>, t: seq<Process>, i: nat, e: nat, b: int, c: int)
    requires i < e <= |s| == |t| && c <= b && Shaped(s, i, c)
    requires forall k :: i < k < e ==> t[k].arrival <= b
    requires forall k :: e <= k < |s| ==> t[k] == s[k] && s[k].arrival > b
    ensures forall x, y :: i + 1 <= x < y < |t| && t[x].arrival > b ==> t[x].arrival <= t[y].arrival
  {
    forall x, y | i + 1 <= x < y < |t| && t[x].arrival > b ensures t[x].arrival <= t[y].arrival {
      assert e <= x;
      assert t[x] == s[x] && t[y] == s[y];
    }
  }

  /** A pass keeps the unplaced slots shaped, now against the completion of the slot just placed. */
  lemma StepShape(s: seq<Process>, i: nat, w: Window)
    requires 1 <= i < |s| && Shaped(s, i, s[i - 1].completion) && s[Pick(s, i, w)].burst >= 0
    ensures Shaped(Step(s, i, w), i + 1, Step(s, i, w)[i].completion)
  {
    var b := Bound(s, i, w);
    var e := RunEnd(s, i + 1, b);
    var m := Pick(s, i, w);
    var t := Step(s, i, w);
    PickWindow(s, i, w);
    GateIsBound(s, i, w);
    StepFrame(s, i, w);
    assert b <= t[i].idle <= t[i].completion;
    forall k | i < k < e ensures t[k].arrival <= b {
      if k != m {
        assert t[k] == s[k];
      }
    }
    ShapeAfterWindow(s, t, i, e, b, s[i - 1].completion);
  }

  /** Every slot from i on holds the shortest of the later records that arrived by its gate. */
  predicate PicksShortest(r: seq<Process>, i: nat, w: Window)
    requires 1 <= i
  {
    forall x, k :: i <= x < k < |r| && r[k].arrival <= Gate(r, x, w) ==> r[x].burst <= r[k].burst
  }

  /** Every slot from i on that the CPU idled before holds the earliest of the remaining records. */
  predicate EarliestWhenIdle(r: seq<Process>, i: nat)
    requires 1 <= i
  {
    forall x, k :: i <= x < k < |r| && r[x].arrival > r[x - 1].completion ==> r[x].arrival <= r[k].arrival
  }

  /**
   * Slot i holds a record whose burst is no longer than that of any later record that arrived by
   * its gate, and, if the CPU went idle before it, one that arrives no later than any later record.
   */
  predicate SlotChoice(t: seq<Process>, i: nat, w: Window)
    requires 1 <= i < |t|
  {
    (forall k :: i < k < |t| && t[k].arrival <= Gate(t, i, w) ==> t[i].burst <= t[k].burst) &&
    (t[i].arrival > t[i - 1].completion ==> forall k :: i < k < |t| ==> t[i].arrival <= t[k].arrival)
  }

  /** Permuting the slots after i keeps the choice made for slot i. */
  lemma ChoiceKept(t: seq<Process>, r: seq<Process>, i: nat, w: Window)
    requires 1 <= i < |t| == |r| && SlotChoice(t, i, w)
    requires r[..i + 1] == t[..i + 1] && multiset(Keys(r[i + 1..])) == multiset(Keys(t[i + 1..]))
    ensures SlotChoice(r, i, w)
  {
    PrefixAt(r, t, i + 1, i);
    PrefixAt(r, t, i + 1, i - 1);
    assert Gate(r, i, w) == Gate(t, i, w);
    forall k | i < k < |r|
      ensures (r[k].arrival <= Gate(r, i, w) ==> r[i].burst <= r[k].burst)
      ensures (r[i].arrival > r[i - 1].completion ==> r[i].arrival <= r[k].arrival)
    {
      SuffixMember(t, r, i + 1, k);
      var x :| i + 1 <= x < |t| && KeyOf(t[x]) == KeyOf(r[k]);
    }
  }

  /** A choice for slot i in front of greedy slots from i + 1 on makes the slots from i on greedy. */
  lemma ChoiceExtends(r: seq<Process>, i: nat, w: Window)
    requires 1 <= i < |r| && SlotChoice(r, i, w)
    requires PicksShortest(r, i + 1, w) && EarliestWhenIdle(r, i + 1)
    ensures PicksShortest(r, i, w) && EarliestWhenIdle(r, i)
  {
    forall x, k | i <= x < k < |r| && r[k].arrival <= Gate(r, x, w) ensures r[x].burst <= r[k].burst {
      if x == i {
        assert i < k < |r| && r[k].arrival <= Gate(r, i, w);
      }
    }
    forall x, k | i <= x < k < |r| && r[x].arrival > r[x - 1].completion ensures r[x].arrival <= r[k].arrival {
      if x == i {
        assert i < k < |r|;
      }
    }
  }

  /** What the pass for slot i chose survives the later passes, which only permute the slots after i. */
  lemma SlotSettled(s: seq<Process>, t: seq<Process>, r: seq<Process>, i: nat, w: Window)
    requires 1 <= i < |s| && Shaped(s, i, s[i - 1].completion) && t == Step(s, i, w) && |r| == |s|
    requires r[..i + 1] == t[..i + 1] && multiset(Keys(r[i + 1..])) == multiset(Keys(t[i + 1..]))
    requires PicksShortest(r, i + 1, w) && EarliestWhenIdle(r, i + 1)
    ensures PicksShortest(r, i, w) && EarliestWhenIdle(r, i)
  {
    StepGreedy(s, i, w);
    ChoiceKept(t, r, i, w);
    ChoiceExtends(r, i, w);
  }

  /** From a shaped state, the loop fills every slot from i on greedily. */
  lemma {:induction false} RunGreedy(s: seq<Process>, i: nat, w: Window)
    requires 1 <= i <= |s| && Shaped(s, i, s[i - 1].completion) && PositiveBursts(s)
    ensures PicksShortest(Run(s, i, w), i, w) && EarliestWhenIdle(Run(s, i, w), i)
    decreases |s| - i
  {
    if i < |s| {
      var t := Step(s, i, w);
      StepFrame(s, i, w);
      WholePermutation(s, t, i);
      PermutationKeepsPositive(t, s);
      StepShape(s, i, w);
      RunGreedy(t, i + 1, w);
      RunFrame(t, i + 1, w);
      SlotSettled(s, t, Run(t, i + 1, w), i, w);
    }
  }

  /**
   * Slot 0 of an arrival-ordered batch holds the shortest of the records that arrived first,
   * and the slots behind it stay in arrival order.
   */
  lemma FirstGreedy(s: seq<Process>)
    requires |s| >= 1 && ArrivalOrdered(s)
    ensures FrontGreedy(SjfFirst(s))
    ensures var f := SjfFirst(s); forall x, y :: 1 <= x < y < |f| ==> f[x].arrival <= f[y].arrival
  {
    var f := SjfFirst(s);
    var m := FirstPick(s);
    var e := TieEnd(s, 1);
    FirstFrame(s);
    assert f[0].arrival == s[0].arrival;
    forall k | 1 <= k < |f| ensures f[k].arrival == s[k].arrival {
      if k != m {
        assert f[k] == s[k];
      }
    }
    forall k | 0 < k < |f| && f[k].arrival == f[0].arrival ensures f[0].burst <= f[k].burst {
      if k != m {
        assert f[k] == s[k];
      }
    }
  }

  /**
   * The SJF schedule reorders the batch, keeping every record's number, arrival and burst; it is
   * a timeline, and turnaround and waiting times follow the completion times.
   */
  lemma SjfOrder(s: seq<Process>, w: Window)
    requires |s| >= 1
    ensures var r := SjfSchedule(s, w);
      multiset(Keys(r)) == multiset(Keys(s)) && multiset(Ids(r)) == multiset(Ids(s)) &&
      Dispatched(r) && MetricsHold(r)
  {
    var q := SjfTimeline(s, w);
    TimelineDispatched(s, w);
    AnnotatedKeeps(q);
    KeysPermutationKeepsIds(SjfSchedule(s, w), s);
  }

  /**
   * With positive bursts no record starts before it arrives or before every earlier slot has
   * completed, completion times strictly increase, and every waiting time is the delay from
   * arrival to start, so never negative; the first record never waits.
   */
  lemma SjfNoOverlap(s: seq<Process>, w: Window)
    requires |s| >= 1 && PositiveBursts(s)
    ensures var r := SjfSchedule(s, w);
      (forall i :: 0 <= i < |r| ==> r[i].arrival <= r[i].idle) &&
      (forall i, j :: 0 <= i < j < |r| ==> r[i].completion <= r[j].idle) &&
      (forall i, j :: 0 <= i < j < |r| ==> r[i].completion < r[j].completion) &&
      (forall i :: 0 <= i < |r| ==> r[i].waiting == r[i].idle - r[i].arrival >= 0) &&
      r[0].waiting == 0
  {
    var r := SjfSchedule(s, w);
    SjfOrder(s, w);
    PermutationKeepsPositive(r, s);
    DispatchedTimeline(r);
    DispatchedWaiting(r);
  }

  /** The summed waiting time of an SJF run is its summed turnaround minus its summed burst. */
  lemma SjfTotals(s: seq<Process>, w: Window)
    requires |s| >= 1
    ensures TotalWaiting(SjfSchedule(s, w)) == TotalTurnaround(SjfSchedule(s, w)) - TotalBurst(SjfSchedule(s, w))
  {
    SjfOrder(s, w);
    WaitingTotal(SjfSchedule(s, w));
  }

  /** For a freshly loaded batch the execution trace is a permutation of 1..n. */
  lemma SjfLoadedTrace(jobs: seq<Job>, w: Window)
    requires |jobs| >= 1
    ensures multiset(Ids(SjfSchedule(Loaded(jobs), w))) == multiset(IdRange(|jobs|))
  {
    SjfOrder(Loaded(jobs), w);
    assert Ids(Loaded(jobs)) == IdRange(|jobs|);
  }

  /** The greedy facts about the placed batch, before the metrics loop. */
  predicate GreedyFrom(r: seq<Process>, w: Window)
  {
    FrontGreedy(r) && PicksShortest(r, 1, w) && EarliestWhenIdle(r, 1)
  }

  /** Slot 0 holds the earliest arrival, and among the records that arrived with it, the shortest burst. */
  predicate FrontGreedy(r: seq<Process>)
  {
    |r| >= 1 &&
    (forall k :: 0 < k < |r| ==> r[0].arrival <= r[k].arrival) &&
    (forall k :: 0 < k < |r| && r[k].arrival == r[0].arrival ==> r[0].burst <= r[k].burst)
  }

  /** After slot 0 is placed the batch is ready for the loop: front greedy, shaped and with positive bursts. */
  lemma FirstReady(s: seq<Process>)
    requires |s| >= 1 && PositiveBursts(s)
    ensures FrontGreedy(SjfFirst(ArrivalSort(s)))
    ensures Shaped(SjfFirst(ArrivalSort(s)), 1, SjfFirst(ArrivalSort(s))[0].completion)
    ensures PositiveBursts(SjfFirst(ArrivalSort(s)))
  {
    var sorted := ArrivalSort(s);
    var f := SjfFirst(sorted);
    ArrivalSortSpec(s);
    PermutationKeepsKeys(sorted, s);
    FirstFrame(sorted);
    FirstGreedy(sorted);
    PermutationKeepsPositive(f, s);
  }

  /** Keeping slot 0 and permuting the rest keeps slot 0 front greedy. */
  lemma FrontKept(f: seq<Process>, q: seq<Process>)
    requires FrontGreedy(f) && |q| == |f| && q[..1] == f[..1]
    requires multiset(Keys(q[1..])) == multiset(Keys(f[1..]))
    ensures FrontGreedy(q)
  {
    PrefixAt(q, f, 1, 0);
    forall k | 0 < k < |q|
      ensures q[0].arrival <= q[k].arrival
      ensures q[k].arrival == q[0].arrival ==> q[0].burst <= q[k].burst
    {
      SuffixMember(f, q, 1, k);
      var x :| 1 <= x < |f| && KeyOf(f[x]) == KeyOf(q[k]);
    }
  }

  lemma TimelineGreedy(s: seq<Process>, w: Window)
    requires |s| >= 1 && PositiveBursts(s)
    ensures GreedyFrom(SjfTimeline(s, w), w)
  {
    var f := SjfFirst(ArrivalSort(s));
    FirstReady(s);
    RunGreedy(f, 1, w);
    RunFrame(f, 1, w);
    FrontKept(f, Run(f, 1, w));
  }

  /** Two batches whose records agree slot by slot on arrival, burst, start and completion. */
  predicate SameTimes(q: seq<Process>, r: seq<Process>)
  {
    |q| == |r| &&
    forall k :: 0 <= k < |q| ==>
      r[k].arrival == q[k].arrival && r[k].burst == q[k].burst &&
      r[k].idle == q[k].idle && r[k].completion == q[k].completion
  }

  /** The greedy facts speak only of arrivals, bursts and times, so they carry over between such batches. */
  lemma SameTimesGreedy(q: seq<Process>, r: seq<Process>, w: Window)
    requires GreedyFrom(q, w) && SameTimes(q, r)
    ensures GreedyFrom(r, w)
  {
    SameTimesFront(q, r);
    SameTimesShortest(q, r, w);
    SameTimesEarliest(q, r);
  }

  lemma SameTimesFront(q: seq<Process>, r: seq<Process>)
    requires FrontGreedy(q) && SameTimes(q, r)
    ensures FrontGreedy(r)
  {
    assert r[0].arrival == q[0].arrival && r[0].burst == q[0].burst;
  }

  lemma SameTimesShortest(q: seq<Process>, r: seq<Process>, w: Window)
    requires |q| >= 1 && PicksShortest(q, 1, w) && SameTimes(q, r)
    ensures PicksShortest(r, 1, w)
  {
    forall x, k | 1 <= x < k < |r| && r[k].arrival <= Gate(r, x, w) ensures r[x].burst <= r[k].burst {
      assert Gate(r, x, w) == Gate(q, x, w);
    }
  }

  lemma SameTimesEarliest(q: seq<Process>, r: seq<Process>)
    requires |q| >= 1 && EarliestWhenIdle(q, 1) && SameTimes(q, r)
    ensures EarliestWhenIdle(r, 1)
  {
    forall x, k | 1 <= x < k < |r| && r[x].arrival > r[x - 1].completion ensures r[x].arrival <= r[k].arrival {
      assert q[x].arrival > q[x - 1].completion;
    }
  }

  /** The metrics loop changes neither keys nor times, so it keeps the greedy facts. */
  lemma AnnotatedGreedy(q: seq<Process>, w: Window)
    requires GreedyFrom(q, w)
    ensures GreedyFrom(Annotated(q), w)
  {
    SameTimesGreedy(q, Annotated(q), w);
  }

  /**
   * The greedy choice. Slot 0 holds a record with the earliest arrival and the shortest burst
   * among those that arrived with it. Every later slot holds a record whose burst is no longer
   * than that of any record behind it that arrived by the gate: as written, the previous slot's
   * completion; corrected, the slot's own start. A slot the CPU idled before holds the earliest
   * of the records left.
   */
  lemma SjfGreedy(s: seq<Process>, w: Window)
    requires |s| >= 1 && PositiveBursts(s)
    ensures var r := SjfSchedule(s, w);
      (forall k :: 0 < k < |r| ==> r[0].arrival <= r[k].arrival) &&
      (forall k :: 0 < k < |r| && r[k].arrival == r[0].arrival ==> r[0].burst <= r[k].burst) &&
      PicksShortest(r, 1, w) && EarliestWhenIdle(r, 1)
  {
    TimelineGreedy(s, w);
    AnnotatedGreedy(SjfTimeline(s, w), w);
  }

  /** The four-record example after slot 0 is placed: P1 at the front, completing at 7. */
  lemma ExampleFirst(s: seq<Process>)
    requires |s| == 4 && s[0] == Process(1, 0, 7, 0, 0, 0, 0) && s[1] == Process(2, 2, 4, 0, 0, 0, 0)
    requires s[2] == Process(3, 4, 1, 0, 0, 0, 0) && s[3] == Process(4, 5, 4, 0, 0, 0, 0)
    ensures var f := SjfFirst(s);
      f[0] == Process(1, 0, 7, 0, 7, 0, 0) && f[1] == s[1] && f[2] == s[2] && f[3] == s[3]
  {
    assert TieEnd(s, 1) == 1;
  }

  /** The finished timeline of the example, before the metrics are filled in. */
  predicate ExampleDone(v: seq<Process>)
  {
    |v| == 4 && v[0] == Process(1, 0, 7, 0, 7, 0, 0) && v[1] == Process(3, 4, 1, 7, 8, 0, 0) &&
    v[2] == Process(2, 2, 4, 8, 12, 0, 0) && v[3] == Process(4, 5, 4, 12, 16, 0, 0)
  }

  /** Slot 3: P4 runs from 12 to 16. */
  lemma ExampleSlot3(u: seq<Process>)
    requires |u| == 4 && u[0] == Process(1, 0, 7, 0, 7, 0, 0) && u[1] == Process(3, 4, 1, 7, 8, 0, 0)
    requires u[2] == Process(2, 2, 4, 8, 12, 0, 0) && u[3] == Process(4, 5, 4, 0, 0, 0, 0)
    ensures ExampleDone(Run(u, 3, AsWritten))
  {
    assert RunEnd(u, 4, 12) == 4;
    var v := Step(u, 3, AsWritten);
    assert Run(u, 3, AsWritten) == Run(v, 4, AsWritten) == v;
  }

  /** Slot 2: P2 and P4 tie on burst 4, and the scan keeps the first, P2; it runs from 8 to 12. */
  lemma ExampleSlot2(t: seq<Process>)
    requires |t| == 4 && t[0] == Process(1, 0, 7, 0, 7, 0, 0) && t[1] == Process(3, 4, 1, 7, 8, 0, 0)
    requires t[2] == Process(2, 2, 4, 0, 0, 0, 0) && t[3] == Process(4, 5, 4, 0, 0, 0, 0)
    ensures ExampleDone(Run(t, 2, AsWritten))
  {
    assert RunEnd(t, 4, 8) == 4 && RunEnd(t, 3, 8) == 4;
    assert ShortestIn(t, 2, 4) == 2;
    ExampleSlot3(Step(t, 2, AsWritten));
  }

  /** Slot 1: of P2, P3 and P4, all arrived by 7, P3 has the shortest burst; it runs from 7 to 8. */
  lemma ExampleSlot1(f: seq<Process>)
    requires |f| == 4 && f[0] == Process(1, 0, 7, 0, 7, 0, 0) && f[1] == Process(2, 2, 4, 0, 0, 0, 0)
    requires f[2] == Process(3, 4, 1, 0, 0, 0, 0) && f[3] == Process(4, 5, 4, 0, 0, 0, 0)
    ensures ExampleDone(Run(f, 1, AsWritten))
  {
    assert RunEnd(f, 4, 7) == 4 && RunEnd(f, 3, 7) == 4 && RunEnd(f, 2, 7) == 4;
    assert ShortestIn(f, 1, 3) == 2 && ShortestIn(f, 1, 4) == 2;
    ExampleSlot2(Step(f, 1, AsWritten));
  }

  /**
   * The batch (7, 0), (4, 2), (1, 4), (4, 5): P1 runs first, then P3, P2 and P4, completing at
   * 7, 8, 12 and 16 and waiting 0, 3, 6 and 7.
   */
  lemma SjfExample()
    ensures var r := SjfSchedule(Loaded([Job(7, 0), Job(4, 2), Job(1, 4), Job(4, 5)]), AsWritten);
      |r| == 4 &&
      r[0] == Process(1, 0, 7, 0, 7, 7, 0) && r[1] == Process(3, 4, 1, 7, 8, 4, 3) &&
      r[2] == Process(2, 2, 4, 8, 12, 10, 6) && r[3] == Process(4, 5, 4, 12, 16, 11, 7)
  {
    var s := Loaded([Job(7, 0), Job(4, 2), Job(1, 4), Job(4, 5)]);
    assert |s| == 4 && s[0] == Process(1, 0, 7, 0, 0, 0, 0) && s[1] == Process(2, 2, 4, 0, 0, 0, 0) &&
      s[2] == Process(3, 4, 1, 0, 0, 0, 0) && s[3] == Process(4, 5, 4, 0, 0, 0, 0);
    assert ArrivalOrdered(s);
    ArrivalSortOfOrdered(s);
    ExampleFirst(s);
    ExampleSlot1(SjfFirst(s));
  }

  /**
   * The batch (2, 0), (9, 5), (1, 5). The CPU is free at 2 and idles until 5, when P2 and P3
   * arrive together. As written the scan's window ends at the previous completion, 2, so it
   * sees only P2 and runs the burst of 9 ahead of the burst of 1 that had arrived by its start:
   * the schedule is not shortest-first among the records arrived by each start. With the window
   * extended to the start time P3 runs first, completing at 6, and P2 at 15.
   */
  lemma SjfIdleExample()
    ensures var r := SjfSchedule(Loaded([Job(2, 0), Job(9, 5), Job(1, 5)]), AsWritten);
      Ids(r) == [1, 2, 3] && r[1].idle == 5 && r[2].arrival <= r[1].idle && r[2].burst < r[1].burst &&
      !PicksShortest(r, 1, UntilStart)
  {
    var s := IdleBatch();
    IdleFirst(s);
    IdleAsWritten(SjfFirst(s));
    var r := SjfSchedule(s, AsWritten);
    assert r[0].id == 1 && r[1] == Measured(Process(2, 5, 9, 5, 14, 0, 0)) && r[2] == Measured(Process(3, 5, 1, 14, 15, 0, 0));
    assert Ids(r) == [r[0].id, r[1].id, r[2].id];
  }

  /** The corrected window on the same batch: P3 runs at 5, and every slot is shortest-first by its start. */
  lemma SjfIdleCorrected()
    ensures var r := SjfSchedule(Loaded([Job(2, 0), Job(9, 5), Job(1, 5)]), UntilStart);
      Ids(r) == [1, 3, 2] && r[0].completion == 2 && r[1].completion == 6 && r[2].completion == 15 &&
      PicksShortest(r, 1, UntilStart)
  {
    var s := IdleBatch();
    IdleFirst(s);
    IdleUntilStart(SjfFirst(s));
    var r := SjfSchedule(s, UntilStart);
    assert r[0].id == 1 && r[1] == Measured(Process(3, 5, 1, 5, 6, 0, 0)) && r[2] == Measured(Process(2, 5, 9, 6, 15, 0, 0));
    TraceOfThree(r, 1, 3, 2);
    ShortestOfTwo(r);
  }

  /**
   * The trace of a three-record schedule, slot by slot. A separate lemma so that the large
   * schedule term in SjfIdleCorrected stays out of its proof.
   */
  lemma TraceOfThree(r: seq<Process>, a: int, b: int, c: int)
    requires |r| == 3 && r[0].id == a && r[1].id == b && r[2].id == c
    ensures Ids(r) == [a, b, c]
  {
  }

  /**
   * In a three-record schedule whose slot 1 is no longer than slot 2, slot 1 is shortest-first by
   * its start. A separate lemma for the same reason as TraceOfThree.
   */
  lemma ShortestOfTwo(r: seq<Process>)
    requires |r| == 3 && r[1].burst <= r[2].burst
    ensures PicksShortest(r, 1, UntilStart)
  {
  }

  /** The loaded batch (2, 0), (9, 5), (1, 5), already in arrival order. */
  function IdleBatch(): (s: seq<Process>)
    ensures s == Loaded([Job(2, 0), Job(9, 5), Job(1, 5)]) && ArrivalSort(s) == s
    ensures |s| == 3 && s[0] == Process(1, 0, 2, 0, 0, 0, 0) && s[1] == Process(2, 5, 9, 0, 0, 0, 0)
    ensures s[2] == Process(3, 5, 1, 0, 0, 0, 0)
  {
    var s := Loaded([Job(2, 0), Job(9, 5), Job(1, 5)]);
    assert |s| == 3 && s[0] == Process(1, 0, 2, 0, 0, 0, 0) && s[1] == Process(2, 5, 9, 0, 0, 0, 0) &&
      s[2] == Process(3, 5, 1, 0, 0, 0, 0);
    assert ArrivalOrdered(s);
    ArrivalSortOfOrdered(s);
    s
  }

  lemma IdleFirst(s: seq<Process>)
    requires |s| == 3 && s[0] == Process(1, 0, 2, 0, 0, 0, 0) && s[1] == Process(2, 5, 9, 0, 0, 0, 0)
    requires s[2] == Process(3, 5, 1, 0, 0, 0, 0)
    ensures var f := SjfFirst(s);
      |f| == 3 && f[0] == Process(1, 0, 2, 0, 2, 0, 0) && f[1] == s[1] && f[2] == s[2]
  {
    assert TieEnd(s, 1) == 1;
  }

  /** As written: slot 1 sees only P2, which waits for the idle CPU until 5 and runs to 14. */
  lemma IdleAsWritten(f: seq<Process>)
    requires |f| == 3 && f[0] == Process(1, 0, 2, 0, 2, 0, 0) && f[1] == Process(2, 5, 9, 0, 0, 0, 0)
    requires f[2] == Process(3, 5, 1, 0, 0, 0, 0)
    ensures var v := Run(f, 1, AsWritten);
      |v| == 3 && v[0] == f[0] && v[1] == Process(2, 5, 9, 5, 14, 0, 0) && v[2] == Process(3, 5, 1, 14, 15, 0, 0)
  {
    assert RunEnd(f, 2, 2) == 2;
    var t := Step(f, 1, AsWritten);
    assert RunEnd(t, 3, 14) == 3;
    var u := Step(t, 2, AsWritten);
    assert Run(f, 1, AsWritten) == Run(t, 2, AsWritten) == Run(u, 3, AsWritten) == u;
  }

  /** Extended to the start time 5, the window of slot 1 holds P2 and P3, and P3 is shorter. */
  lemma IdleUntilStart(f: seq<Process>)
    requires |f| == 3 && f[0] == Process(1, 0, 2, 0, 2, 0, 0) && f[1] == Process(2, 5, 9, 0, 0, 0, 0)
    requires f[2] == Process(3, 5, 1, 0, 0, 0, 0)
    ensures var v := Run(f, 1, UntilStart);
      |v| == 3 && v[0] == f[0] && v[1] == Process(3, 5, 1, 5, 6, 0, 0) && v[2] == Process(2, 5, 9, 6, 15, 0, 0)
  {
    assert RunEnd(f, 3, 5) == 3 && RunEnd(f, 2, 5) == 3;
    assert ShortestIn(f, 1, 3) == 2;
    var t := Step(f, 1, UntilStart);
    assert RunEnd(t, 3, 6) == 3;
    var u := Step(t, 2, UntilStart);
    assert Run(f, 1, UntilStart) == Run(t, 2, UntilStart) == Run(u, 3, UntilStart) == u;
  }
}
