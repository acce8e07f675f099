/** The batch of process records that both schedulers work on, and how it is loaded. */
module Processes {

  /** One input line: a CPU burst and an arrival time, in the order the loader reads them. */
  datatype Job = Job(burst: int, arrival: int)

  /** A process record: its number, its two inputs and the four times a scheduler computes. */
  datatype Process = Process(
    id: int,
    arrival: int,
    burst: int,
    idle: int,
    completion: int,
    turnaround: int,
    waiting: int)

  /** The part of a record a scheduler may move around but never changes. */
  datatype Key = Key(id: int, arrival: int, burst: int)

  function KeyOf(p: Process): Key { Key(p.id, p.arrival, p.burst) }

  function IdOf(p: Process): int { p.id }

  function KeyId(k: Key): int { k.id }

  function Map<A, B>(f: A -> B, s: seq<A>): (r: seq<B>)
    ensures |r| == |s| && forall k :: 0 <= k < |s| ==> r[k] == f(s[k])
  {
    seq(|s|, k requires 0 <= k < |s| => f(s[k]))
  }

  function Keys(s: seq<Process>): seq<Key> { Map(KeyOf, s) }

  /** The execution-order trace: the process numbers in slot order. */
  function Ids(s: seq<Process>): seq<int> { Map(IdOf, s) }

  function IdRange(n: nat): seq<int> { seq(n, k => k + 1) }

  predicate PositiveBursts(s: seq<Process>)
  {
    forall k :: 0 <= k < |s| ==> s[k].burst > 0
  }

  /** The batch as loaded: record i gets number i + 1; the derived times start at 0. */
  function Loaded(jobs: seq<Job>): seq<Process>
  {
    seq(|jobs|, i requires 0 <= i < |jobs| => Process(i + 1, jobs[i].arrival, jobs[i].burst, 0, 0, 0, 0))
  }

  /** The loading loop: numbers the records 1..n in input order. */
  method LoadBatch(jobs: seq<Job>) returns (a: array<Process>)
    ensures fresh(a)
    ensures a[..] == Loaded(jobs)
    ensures Ids(a[..]) == IdRange(|jobs|)
  {
    a := new Process[|jobs|];
    for i := 0 to |jobs|
      invariant a[..i] == Loaded(jobs)[..i]
    {
      a[i] := Process(i + 1, jobs[i].arrival, jobs[i].burst, 0, 0, 0, 0);
    }
    assert a[..] == a[..|jobs|];
    forall k | 0 <= k < |jobs| ensures Ids(a[..])[k] == IdRange(|jobs|)[k] {
      assert a[k] == Loaded(jobs)[k];
    }
  }

  lemma MapConcat<A, B>(f: A -> B, s: seq<A>, t: seq<A>)
    ensures Map(f, s + t) == Map(f, s) + Map(f, t)
  {
  }

  /** Taking out the element at position k removes one copy of it from the multiset. */
  lemma RemoveAt<A>(t: seq<A>, k: nat)
    requires k < |t|
    ensures t == t[..k] + [t[k]] + t[k + 1..]
    ensures multiset(t[..k] + t[k + 1..]) == multiset(t) - multiset{t[k]}
  {
    assert t == t[..k] + [t[k]] + t[k + 1..];
  }

  /** Taking out the first element removes one copy of it from the multiset. */
  lemma RemoveFirst<A>(s: seq<A>)
    requires s != []
    ensures multiset(s[1..]) == multiset(s) - multiset{s[0]}
  {
    assert s == [s[0]] + s[1..];
  }

  /** Mapping the sequence without its first element loses exactly the image of s[0]. */
  lemma MapRemoveFirst<A, B>(f: A -> B, s: seq<A>)
    requires s != []
    ensures multiset(Map(f, s)) == multiset(Map(f, s[1..])) + multiset{f(s[0])}
  {
    MapRemoveAt(f, s, 0);
    assert s[..0] + s[1..] == s[1..];
  }

  /** Mapping the sequence with position k taken out loses exactly the image of t[k]. */
  lemma MapRemoveAt<A, B>(f: A -> B, t: seq<A>, k: nat)
    requires k < |t|
    ensures multiset(Map(f, t)) == multiset(Map(f, t[..k] + t[k + 1..])) + multiset{f(t[k])}
  {
    RemoveAt(t, k);
    MapConcat(f, t[..k] + [t[k]], t[k + 1..]);
    MapConcat(f, t[..k], [t[k]]);
    MapConcat(f, t[..k], t[k + 1..]);
  }

  /** Applying a function element-wise keeps a permutation a permutation. */
  lemma {:induction false} MapKeepsPermutation<A, B>(f: A -> B, s: seq<A>, t: seq<A>)
    requires multiset(s) == multiset(t)
    ensures multiset(Map(f, s)) == multiset(Map(f, t))
    decreases |s|
  {
    if s == [] {
      assert |multiset(t)| == 0;
    } else {
      var x := s[0];
      assert x in multiset(t);
      var k :| 0 <= k < |t| && t[k] == x;
      var rest := t[..k] + t[k + 1..];
      RemoveAt(t, k);
      RemoveFirst(s);
      assert multiset(s[1..]) == multiset(rest);
      MapKeepsPermutation(f, s[1..], rest);
      MapRemoveFirst(f, s);
      MapRemoveAt(f, t, k);
    }
  }

  /** Records that are a permutation of each other have keys that are. */
  lemma PermutationKeepsKeys(s: seq<Process>, t: seq<Process>)
    requires multiset(s) == multiset(t)
    ensures multiset(Keys(s)) == multiset(Keys(t))
  {
    MapKeepsPermutation(KeyOf, s, t);
  }

  /** Records whose keys are a permutation of each other have traces that are. */
  lemma KeysPermutationKeepsIds(s: seq<Process>, t: seq<Process>)
    requires multiset(Keys(s)) == multiset(Keys(t))
    ensures multiset(Ids(s)) == multiset(Ids(t))
  {
    MapKeepsPermutation(KeyId, Keys(s), Keys(t));
    assert Map(KeyId, Keys(s)) == Ids(s);
    assert Map(KeyId, Keys(t)) == Ids(t);
  }

  /** A reordering of a batch with positive bursts has positive bursts. */
  lemma PermutationKeepsPositive(s: seq<Process>, u: seq<Process>)
    requires multiset(Keys(s)) == multiset(Keys(u)) && PositiveBursts(u)
    ensures PositiveBursts(s)
  {
    forall k | 0 <= k < |s| ensures s[k].burst > 0 {
      assert Keys(s)[k] in multiset(Keys(u));
      var j :| 0 <= j < |u| && Keys(u)[j] == Keys(s)[k];
    }
  }
}
