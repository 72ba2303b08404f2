/**
 * Results of goroutines that run concurrently, gathered under a mutex in
 * whatever order they end.
 */
module Gathering {
  import opened Sequences

  /** A component's error result: nil, or an error standing for some entries. */
  datatype Fault<E> = NoFault | Fault(entries: seq<E>)

  function EntriesIn<E>(f: Fault<E>): seq<E> {
    if f.NoFault? then [] else f.entries
  }

  function AllOf<E>(faults: seq<Fault<E>>): seq<E> {
    if faults == [] then []
    else AllOf(faults[..|faults| - 1]) + EntriesIn(faults[|faults| - 1])
  }

  /** All entries are the concatenation of those of each fault: nothing is left out, and nil contributes nothing. */
  lemma {:induction false} AllOfConcatenates<E>(a: seq<Fault<E>>, b: seq<Fault<E>>)
    ensures AllOf(a + b) == AllOf(a) + AllOf(b)
    decreases |b|
  {
    if b == [] {
      assert a + b == a;
    } else {
      var n := |b| - 1;
      AllOfConcatenates(a, b[..n]);
      assert (a + b)[..|a + b| - 1] == a + b[..n] && (a + b)[|a + b| - 1] == b[n];
      Regroup(AllOf(a), AllOf(b[..n]), EntriesIn(b[n]));
    }
  }

  lemma AllOfOne<E>(f: Fault<E>)
    ensures AllOf([f]) == if f.Fault? then f.entries else []
  {
    assert [f][..0] == [];
  }

  ghost predicate Contributed<E>(faults: seq<Fault<E>>, x: E) {
    exists k :: 0 <= k < |faults| && x in EntriesIn(faults[k])
  }

  lemma ContributedLast<E>(faults: seq<Fault<E>>, x: E)
    requires faults != []
    ensures
      var n := |faults| - 1;
      Contributed(faults, x) <==> Contributed(faults[..n], x) || x in EntriesIn(faults[n])
  {
    var n := |faults| - 1;
    if Contributed(faults[..n], x) {
      var k :| 0 <= k < n && x in EntriesIn(faults[..n][k]);
      assert x in EntriesIn(faults[k]);
    }
    if Contributed(faults, x) {
      var k :| 0 <= k < |faults| && x in EntriesIn(faults[k]);
      assert k < n ==> x in EntriesIn(faults[..n][k]);
    }
  }

  lemma {:induction false} InAllOf<E>(faults: seq<Fault<E>>, x: E)
    ensures x in AllOf(faults) <==> exists k :: 0 <= k < |faults| && x in EntriesIn(faults[k])
    decreases |faults|
  {
    if faults != [] {
      InAllOf(faults[..|faults| - 1], x);
      ContributedLast(faults, x);
    }
    assert Contributed(faults, x) <==> exists k :: 0 <= k < |faults| && x in EntriesIn(faults[k]);
  }

  /** A component is silent when it returned nil or an error without entries. */
  lemma SilentMeans<E>(f: Fault<E>)
    ensures EntriesIn(f) == [] <==> f.NoFault? || f.entries == []
  {}

  /** The entries of the goroutines that ended, whatever order they ended in. */
  ghost function Collected<E>(faults: seq<Fault<E>>, ended: set<nat>): multiset<E> {
    if faults == [] then multiset{}
    else
      var n := |faults| - 1;
      Collected(faults[..n], ended) + if n in ended then multiset(EntriesIn(faults[n])) else multiset{}
  }

  lemma {:induction false} CollectOne<E>(faults: seq<Fault<E>>, ended: set<nat>, k: nat)
    requires k !in ended
    ensures Collected(faults, ended + {k})
         == Collected(faults, ended) + if k < |faults| then multiset(EntriesIn(faults[k])) else multiset{}
    decreases |faults|
  {
    if faults != [] {
      CollectOne(faults[..|faults| - 1], ended, k);
    }
  }

  lemma {:induction false} CollectNone<E>(faults: seq<Fault<E>>)
    ensures Collected(faults, {}) == multiset{}
    decreases |faults|
  {
    if faults != [] {
      CollectNone(faults[..|faults| - 1]);
    }
  }

  lemma {:induction false} CollectEach<E>(faults: seq<Fault<E>>, ended: set<nat>)
    requires forall k: nat :: k < |faults| ==> k in ended
    ensures Collected(faults, ended) == multiset(AllOf(faults))
    decreases |faults|
  {
    if faults != [] {
      CollectEach(faults[..|faults| - 1], ended);
    }
  }

  function Below(n: nat): (r: set<nat>)
    ensures forall k: nat :: k in r <==> k < n
  {
    if n == 0 then {} else Below(n - 1) + {n - 1}
  }

  lemma Shrinks(all: set<nat>, part: set<nat>, k: nat)
    requires k in all && k !in part
    ensures |all - (part + {k})| < |all - part|
  {
    assert all - (part + {k}) == (all - part) - {k};
  }

  /** The same entries, each as often, in any order. */
  ghost predicate SameEntries<E>(a: seq<E>, b: seq<E>) {
    multiset(a) == multiset(b)
  }

  /** Nothing is gathered exactly when every component is silent. */
  lemma {:induction false} SilentIff<E>(faults: seq<Fault<E>>)
    ensures AllOf(faults) == [] <==> forall k :: 0 <= k < |faults| ==> EntriesIn(faults[k]) == []
    decreases |faults|
  {
    if faults != [] {
      SilentIff(faults[..|faults| - 1]);
    }
  }
}
