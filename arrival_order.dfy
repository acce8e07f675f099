/**
 * Ordering a batch by arrival time: the specification (a stable insertion sort, and the
 * fact that a sorted sequence with the same equal-arrival runs is unique) and the
 * in-place bubble sort both schedulers run first.
 */
module ArrivalOrder {
  import opened Processes

  predicate ArrivalOrdered(s: seq<Process>)
  {
    forall x, y :: 0 <= x < y < |s| ==> s[x].arrival <= s[y].arrival
  }

  /** The records of s that arrive at time t, in the order s has them. */
  function WithArrival(s: seq<Process>, t: int): seq<Process>
  {
    if s == [] then []
    else (if s[0].arrival == t then [s[0]] else []) + WithArrival(s[1..], t)
  }

  /** u keeps the records of s that share an arrival time in the order s has them. */
  ghost predicate KeepsTies(u: seq<Process>, s: seq<Process>)
  {
    forall t :: WithArrival(u, t) == WithArrival(s, t)
  }

  /** Inserts x after every record of u that arrives no later than x. */
  function Insert(u: seq<Process>, x: Process): (r: seq<Process>)
    ensures |r| == |u| + 1
    decreases |u|
  {
    if u == [] then [x]
    else if u[|u| - 1].arrival <= x.arrival then u + [x]
    else Insert(u[..|u| - 1], x) + [u[|u| - 1]]
  }

  /** The stable sort by arrival time: insertion sort, later records inserted after ties. */
  function ArrivalSort(s: seq<Process>): (r: seq<Process>)
    ensures |r| == |s|
    decreases |s|
  {
    if s == [] then [] else Insert(ArrivalSort(s[..|s| - 1]), s[|s| - 1])
  }

  lemma {:induction false} WithArrivalConcat(s: seq<Process>, u: seq<Process>, t: int)
    ensures WithArrival(s + u, t) == WithArrival(s, t) + WithArrival(u, t)
    decreases |s|
  {
    if s != [] {
      var head := if s[0].arrival == t then [s[0]] else [];
      assert (s + u)[0] == s[0] && (s + u)[1..] == s[1..] + u;
      assert WithArrival(s, t) == head + WithArrival(s[1..], t);
      calc {
        WithArrival(s + u, t);
        head + WithArrival(s[1..] + u, t);
        { WithArrivalConcat(s[1..], u, t); }
        head + (WithArrival(s[1..], t) + WithArrival(u, t));
        (head + WithArrival(s[1..], t)) + WithArrival(u, t);
      }
    } else {
      assert s + u == u;
    }
  }

  lemma WithArrivalPair(x: Process, y: Process, t: int)
    ensures WithArrival([x, y], t) == WithArrival([x], t) + WithArrival([y], t)
  {
    WithArrivalConcat([x], [y], t);
    assert [x] + [y] == [x, y];
  }

  /** Swapping two adjacent records with different arrival times keeps every tie run. */
  lemma SwapKeepsTies(s: seq<Process>, j: nat)
    requires j + 1 < |s| && s[j].arrival != s[j + 1].arrival
    ensures KeepsTies(s[j := s[j + 1]][j + 1 := s[j]], s)
  {
    var u := s[j := s[j + 1]][j + 1 := s[j]];
    assert s == s[..j] + [s[j], s[j + 1]] + s[j + 2..];
    assert u == s[..j] + [s[j + 1], s[j]] + s[j + 2..];
    forall t ensures WithArrival(u, t) == WithArrival(s, t) {
      WithArrivalConcat(s[..j] + [s[j], s[j + 1]], s[j + 2..], t);
      WithArrivalConcat(s[..j], [s[j], s[j + 1]], t);
      WithArrivalConcat(s[..j] + [s[j + 1], s[j]], s[j + 2..], t);
      WithArrivalConcat(s[..j], [s[j + 1], s[j]], t);
      WithArrivalPair(s[j], s[j + 1], t);
      WithArrivalPair(s[j + 1], s[j], t);
    }
  }

  lemma {:induction false} InsertPermutes(u: seq<Process>, x: Process)
    ensures multiset(Insert(u, x)) == multiset(u) + multiset{x}
    decreases |u|
  {
    if u != [] && x.arrival < u[|u| - 1].arrival {
      var init, last := u[..|u| - 1], u[|u| - 1];
      assert u == init + [last];
      InsertPermutes(init, x);
    }
  }

  lemma {:induction false} InsertOrdered(u: seq<Process>, x: Process)
    requires ArrivalOrdered(u)
    ensures ArrivalOrdered(Insert(u, x))
    decreases |u|
  {
    if u != [] && x.arrival < u[|u| - 1].arrival {
      var init, last := u[..|u| - 1], u[|u| - 1];
      InsertOrdered(init, x);
      InsertPermutes(init, x);
      var r := Insert(init, x);
      forall k | 0 <= k < |r| ensures r[k].arrival <= last.arrival {
        assert r[k] in multiset(r);
        if r[k] != x {
          assert r[k] in init;
        }
      }
    }
  }

  lemma {:induction false} InsertKeepsTies(u: seq<Process>, x: Process, t: int)
    ensures WithArrival(Insert(u, x), t) == WithArrival(u, t) + WithArrival([x], t)
    decreases |u|
  {
    if u == [] {
    } else if u[|u| - 1].arrival <= x.arrival {
      WithArrivalConcat(u, [x], t);
    } else {
      var init, last := u[..|u| - 1], u[|u| - 1];
      assert u == init + [last];
      InsertKeepsTies(init, x, t);
      WithArrivalConcat(Insert(init, x), [last], t);
      WithArrivalConcat(init, [last], t);
    }
  }

  /** ArrivalSort orders by arrival, permutes its input and keeps equal arrivals in input order. */
  lemma {:induction false} ArrivalSortSpec(s: seq<Process>)
    ensures ArrivalOrdered(ArrivalSort(s))
    ensures multiset(ArrivalSort(s)) == multiset(s)
    ensures KeepsTies(ArrivalSort(s), s)
    decreases |s|
  {
    if s != [] {
      var init, last := s[..|s| - 1], s[|s| - 1];
      assert s == init + [last];
      ArrivalSortSpec(init);
      InsertOrdered(ArrivalSort(init), last);
      InsertPermutes(ArrivalSort(init), last);
      forall t ensures WithArrival(ArrivalSort(s), t) == WithArrival(s, t) {
        InsertKeepsTies(ArrivalSort(init), last, t);
        WithArrivalConcat(init, [last], t);
      }
    }
  }

  lemma {:induction false} FirstArrivalIsEarliest(v: seq<Process>, t: int)
    requires ArrivalOrdered(v) && WithArrival(v, t) != []
    ensures v != [] && v[0].arrival <= t
    decreases |v|
  {
    if v[0].arrival != t {
      FirstArrivalIsEarliest(v[1..], t);
    }
  }

  lemma NonEmptyRun(s: seq<Process>)
    ensures s != [] ==> WithArrival(s, s[0].arrival) != []
  {
  }

  /** Two arrival-ordered, non-empty sequences with the same tie runs start with the same record. */
  lemma SameFirst(u: seq<Process>, v: seq<Process>)
    requires u != [] && v != []
    requires ArrivalOrdered(u) && ArrivalOrdered(v) && KeepsTies(u, v)
    ensures u[0] == v[0]
  {
    var a := u[0].arrival;
    assert WithArrival(u, a) == [u[0]] + WithArrival(u[1..], a);
    FirstArrivalIsEarliest(v, a);
    var b := v[0].arrival;
    assert WithArrival(v, b) == [v[0]] + WithArrival(v[1..], b);
    FirstArrivalIsEarliest(u, b);
    assert a == b;
    assert WithArrival(u, a) == WithArrival(v, a);
    assert WithArrival(u, a)[0] == u[0] && WithArrival(v, a)[0] == v[0];
  }

  /** Dropping the same first record from two sequences keeps a shared tie run shared. */
  lemma TailTie(u: seq<Process>, v: seq<Process>, t: int)
    requires u != [] && v != [] && u[0] == v[0]
    requires WithArrival(u, t) == WithArrival(v, t)
    ensures WithArrival(u[1..], t) == WithArrival(v[1..], t)
  {
    var head := if u[0].arrival == t then [u[0]] else [];
    var x, y := WithArrival(u[1..], t), WithArrival(v[1..], t);
    assert head + x == head + y;
    assert x == (head + x)[|head|..];
    assert y == (head + y)[|head|..];
  }

  /** Two arrival-ordered sequences with the same tie runs are equal. */
  lemma {:induction false} OrderedTiesUnique(u: seq<Process>, v: seq<Process>)
    requires ArrivalOrdered(u) && ArrivalOrdered(v) && KeepsTies(u, v)
    ensures u == v
    decreases |u|
  {
    if u == [] || v == [] {
      NonEmptyRun(u);
      NonEmptyRun(v);
    } else {
      SameFirst(u, v);
      var u', v' := u[1..], v[1..];
      forall t ensures WithArrival(u', t) == WithArrival(v', t) {
        TailTie(u, v, t);
      }
      OrderedTiesUnique(u', v');
      assert u == [u[0]] + u' && v == [v[0]] + v';
    }
  }

  /** Sorting an arrival-ordered sequence changes nothing. */
  lemma ArrivalSortOfOrdered(s: seq<Process>)
    requires ArrivalOrdered(s)
    ensures ArrivalSort(s) == s
  {
    ArrivalSortSpec(s);
    OrderedTiesUnique(ArrivalSort(s), s);
  }

  /** Process numbers strictly increase along s, as they do in a freshly loaded batch. */
  predicate IdsIncreasing(s: seq<Process>)
  {
    forall x, y :: 0 <= x < y < |s| ==> s[x].id < s[y].id
  }

  /** Records of s with equal arrival times appear in increasing process-number order. */
  predicate TiesByIncreasingId(s: seq<Process>)
  {
    forall x, y :: 0 <= x < y < |s| && s[x].arrival == s[y].arrival ==> s[x].id < s[y].id
  }

  lemma {:induction false} WithArrivalMembers(s: seq<Process>, t: int)
    ensures forall x :: x in WithArrival(s, t) <==> x in s && x.arrival == t
    decreases |s|
  {
    if s != [] {
      WithArrivalMembers(s[1..], t);
      assert s == [s[0]] + s[1..];
    }
  }

  lemma {:induction false} RunOfIncreasing(s: seq<Process>, t: int)
    requires IdsIncreasing(s)
    ensures IdsIncreasing(WithArrival(s, t))
    decreases |s|
  {
    if s != [] {
      RunOfIncreasing(s[1..], t);
      WithArrivalMembers(s[1..], t);
      var rest := WithArrival(s[1..], t);
      forall k | 0 <= k < |rest| ensures s[0].id < rest[k].id {
        assert rest[k] in s[1..];
      }
    }
  }

  lemma IncreasingSuffix(h: seq<Process>, x: seq<Process>)
    requires IdsIncreasing(h + x)
    ensures IdsIncreasing(x)
  {
    forall i, j | 0 <= i < j < |x| ensures x[i].id < x[j].id {
      assert (h + x)[|h| + i] == x[i] && (h + x)[|h| + j] == x[j];
    }
  }

  lemma {:induction false} TiesFromRuns(u: seq<Process>)
    requires forall t :: IdsIncreasing(WithArrival(u, t))
    ensures TiesByIncreasingId(u)
    decreases |u|
  {
    if u != [] {
      var r := u[1..];
      forall t ensures IdsIncreasing(WithArrival(r, t)) {
        assert IdsIncreasing(WithArrival(u, t));
        var head := if u[0].arrival == t then [u[0]] else [];
        assert WithArrival(u, t) == head + WithArrival(r, t);
        IncreasingSuffix(head, WithArrival(r, t));
      }
      TiesFromRuns(r);
      var a := u[0].arrival;
      WithArrivalMembers(r, a);
      var run := WithArrival(u, a);
      assert run == [u[0]] + WithArrival(r, a);
      assert IdsIncreasing(run) && run[0] == u[0];
      forall y | 0 < y < |u| && u[y].arrival == a ensures u[0].id < u[y].id {
        assert u[y] == r[y - 1];
        assert u[y] in WithArrival(r, a);
        var k :| 0 <= k < |WithArrival(r, a)| && WithArrival(r, a)[k] == u[y];
        assert run[k + 1] == u[y];
      }
    }
  }

  /** Sorting a batch numbered in input order leaves equal arrivals in number order. */
  lemma ArrivalSortKeepsIdOrder(s: seq<Process>)
    requires IdsIncreasing(s)
    ensures TiesByIncreasingId(ArrivalSort(s))
  {
    ArrivalSortSpec(s);
    forall t ensures IdsIncreasing(WithArrival(ArrivalSort(s), t)) {
      RunOfIncreasing(s, t);
    }
    TiesFromRuns(ArrivalSort(s));
  }

  /** Any arrival-ordered sequence that keeps the tie runs of s is ArrivalSort(s). */
  lemma SortedWithTiesIsArrivalSort(u: seq<Process>, s: seq<Process>)
    requires ArrivalOrdered(u) && KeepsTies(u, s)
    ensures u == ArrivalSort(s)
  {
    ArrivalSortSpec(s);
    forall t ensures WithArrival(u, t) == WithArrival(ArrivalSort(s), t) {
      assert WithArrival(u, t) == WithArrival(s, t);
    }
    OrderedTiesUnique(u, ArrivalSort(s));
  }

  /** Exchanges the records at j and j + 1, of which the left one arrives strictly later. */
  method SwapNext(a: array<Process>, j: int)
    requires 0 <= j && j + 1 < a.Length && a[j].arrival > a[j + 1].arrival
    modifies a
    ensures a[..] == old(a[..])[j := old(a[j + 1])][j + 1 := old(a[j])]
    ensures multiset(a[..]) == multiset(old(a[..]))
    ensures KeepsTies(a[..], old(a[..]))
  {
    var temp := a[j];
    a[j] := a[j + 1];
    a[j + 1] := temp;
    SwapKeepsTies(old(a[..]), j);
  }

  /** The records from position m on are in arrival order. */
  predicate OrderedFrom(s: seq<Process>, m: nat)
  {
    forall x, y :: m <= x < y < |s| ==> s[x].arrival <= s[y].arrival
  }

  /** No record before position m arrives later than one from position m on. */
  predicate SplitAt(s: seq<Process>, m: nat)
  {
    forall x, y :: 0 <= x < m <= y < |s| ==> s[x].arrival <= s[y].arrival
  }

  /** The record at j arrives no earlier than any before it. */
  predicate LatestAt(s: seq<Process>, j: nat)
    requires j < |s|
  {
    forall x :: 0 <= x <= j ==> s[x].arrival <= s[j].arrival
  }

  /** Swapping two neighbours inside s[..m] leaves s[m..] alone and permutes s[..m]. */
  lemma PrefixSwap(s: seq<Process>, j: nat, m: nat)
    requires j + 1 < m <= |s|
    ensures s[j := s[j + 1]][j + 1 := s[j]][m..] == s[m..]
    ensures multiset(s[j := s[j + 1]][j + 1 := s[j]][..m]) == multiset(s[..m])
  {
    var u := s[j := s[j + 1]][j + 1 := s[j]];
    assert u[..m] == s[..m][j := s[j + 1]][j + 1 := s[j]];
  }

  /** The latest arrival of a permuted prefix is no earlier than anything the old prefix held. */
  lemma LatestOfPrefix(s: seq<Process>, u: seq<Process>, m: nat)
    requires 1 <= m <= |s| == |u|
    requires multiset(u[..m]) == multiset(s[..m]) && LatestAt(u, m - 1)
    ensures forall x :: 0 <= x < m ==> s[x].arrival <= u[m - 1].arrival
  {
    forall x | 0 <= x < m ensures s[x].arrival <= u[m - 1].arrival {
      assert s[x] == s[..m][x];
      assert s[x] in multiset(u[..m]);
      var y :| 0 <= y < m && u[..m][y] == s[x];
    }
  }

  /** Permuting s[..m] and keeping s[m..] permutes s. */
  lemma PrefixPermutes(s: seq<Process>, u: seq<Process>, m: nat)
    requires m <= |s| == |u|
    requires u[m..] == s[m..] && multiset(u[..m]) == multiset(s[..m])
    ensures multiset(u) == multiset(s)
  {
    assert s == s[..m] + s[m..] && u == u[..m] + u[m..];
  }

  /**
   * Where a bubble pass over s[..m] stands after j comparisons, starting from start: the latest
   * arrival seen so far is at j, the tail from m on is sorted and as it was, and only the
   * prefix has been permuted.
   */
  ghost predicate PassState(s: seq<Process>, start: seq<Process>, orig: seq<Process>, m: nat, j: nat)
  {
    j < m <= |s| == |start| && LatestAt(s, j) && OrderedFrom(s, m) && SplitAt(s, m) &&
    KeepsTies(s, orig) && s[m..] == start[m..] && multiset(s[..m]) == multiset(start[..m])
  }

  /** One comparison of a bubble pass over s[..m] moves the latest arrival seen so far one step right. */
  lemma PassStep(s: seq<Process>, u: seq<Process>, start: seq<Process>, orig: seq<Process>, m: nat, j: nat)
    requires j + 1 < m && PassState(s, start, orig, m, j)
    requires u == if s[j].arrival > s[j + 1].arrival then s[j := s[j + 1]][j + 1 := s[j]] else s
    ensures PassState(u, start, orig, m, j + 1)
  {
    if u != s {
      PrefixSwap(s, j, m);
      SwapKeepsTies(s, j);
    }
  }

  /** A finished pass over s[..m] leaves s[m - 1..] ordered and split from the rest, its last record a latest arrival. */
  lemma PassDone(s: seq<Process>, start: seq<Process>, orig: seq<Process>, m: nat)
    requires 1 <= m && PassState(s, start, orig, m, m - 1)
    requires multiset(start) == multiset(orig)
    ensures OrderedFrom(s, m - 1) && SplitAt(s, m - 1)
    ensures multiset(s) == multiset(orig) && KeepsTies(s, orig)
    ensures s[m..] == start[m..] && multiset(s[..m]) == multiset(start[..m])
    ensures forall x :: 0 <= x < m ==> start[x].arrival <= s[m - 1].arrival
  {
    LatestOfPrefix(start, s, m);
    PrefixPermutes(start, s, m);
  }

  /**
   * One pass of the bubble sort over a[..m]: neighbours are swapped when the left one arrives
   * strictly later, so the latest arrival of the prefix ends at m - 1.
   */
  method BubblePass(a: array<Process>, m: int, ghost orig: seq<Process>)
    requires 2 <= m <= a.Length
    requires OrderedFrom(a[..], m) && SplitAt(a[..], m)
    requires multiset(a[..]) == multiset(orig) && KeepsTies(a[..], orig)
    modifies a
    ensures OrderedFrom(a[..], m - 1) && SplitAt(a[..], m - 1)
    ensures multiset(a[..]) == multiset(orig) && KeepsTies(a[..], orig)
    ensures a[m..] == old(a[m..]) && multiset(a[..m]) == multiset(old(a[..m]))
    ensures forall x :: 0 <= x < m ==> old(a[x]).arrival <= a[m - 1].arrival
  {
    ghost var start := a[..];
    var j := 0;
    while j < m - 1
      invariant 0 <= j <= m - 1
      invariant PassState(a[..], start, orig, m, j)
    {
      ghost var before := a[..];
      if a[j].arrival > a[j + 1].arrival {
        SwapNext(a, j);
      }
      PassStep(before, a[..], start, orig, m, j);
      j := j + 1;
    }
    PassDone(a[..], start, orig, m);
  }

  /**
   * The bubble sort both schedulers start with: pass i moves the latest arrival of the
   * unsorted prefix to its end, swapping neighbours only when the left one arrives strictly later.
   */
  method SortByArrival(a: array<Process>)
    modifies a
    ensures a[..] == ArrivalSort(old(a[..]))
    ensures ArrivalOrdered(a[..]) && multiset(a[..]) == multiset(old(a[..]))
    ensures KeepsTies(a[..], old(a[..]))
  {
    var n := a.Length;
    var i := 0;
    while i < n - 1
      invariant 0 <= i <= (if n == 0 then 0 else n - 1)
      invariant OrderedFrom(a[..], n - i) && SplitAt(a[..], n - i)
      invariant multiset(a[..]) == multiset(old(a[..]))
      invariant KeepsTies(a[..], old(a[..]))
    {
      BubblePass(a, n - i, old(a[..]));
      i := i + 1;
    }
    assert n >= 1 ==> OrderedFrom(a[..], 1) && SplitAt(a[..], 1);
    SortedWithTiesIsArrivalSort(a[..], old(a[..]));
  }
}
