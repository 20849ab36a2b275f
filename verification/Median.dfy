/** The pool's reference peak (`reference_peak` in src/peer/pool.rs): the lower median of the
    announced peaks, characterised by counting. */
module Median {
  import opened Prelude
  import opened StableSort

  function ByHeight(h: nat): Key { (h, 0) }

  function Ranked(announced: seq<nat>): seq<nat> { Sort(announced, ByHeight) }

  predicate Ascending(s: seq<nat>) { forall i, j :: 0 <= i < j < |s| ==> s[i] <= s[j] }

  lemma {:induction false} RankedRanks(announced: seq<nat>)
    ensures Ascending(Ranked(announced))
    ensures multiset(Ranked(announced)) == multiset(announced)
    ensures |Ranked(announced)| == |announced|
  {
    SortIsStable(announced, ByHeight);
    var ranked := Ranked(announced);
    assert |multiset(ranked)| == |multiset(announced)|;
    forall i, j | 0 <= i < j < |ranked|
      ensures ranked[i] <= ranked[j]
    {
      assert !Less(ByHeight(ranked[j]), ByHeight(ranked[i]));
    }
  }

  function ReferencePeak(announced: seq<nat>): Option<nat>
  {
    RankedRanks(announced);
    if announced == [] then None else Some(Ranked(announced)[(|announced| - 1) / 2])
  }

  /** How many of the announced peaks are above `h`. */
  function CountAbove(s: seq<nat>, h: int): nat
  {
    if s == [] then 0
    else CountAbove(s[..|s| - 1], h) + if s[|s| - 1] > h then 1 else 0
  }

  lemma {:induction false} CountIsBounded(s: seq<nat>, h: int)
    ensures CountAbove(s, h) <= |s|
    ensures (forall i :: 0 <= i < |s| ==> s[i] <= h) ==> CountAbove(s, h) == 0
  {
    if s != [] { CountIsBounded(s[..|s| - 1], h); }
  }

  lemma {:induction false} CountOfConcat(a: seq<nat>, b: seq<nat>, h: int)
    ensures CountAbove(a + b, h) == CountAbove(a, h) + CountAbove(b, h)
  {
    if b == [] {
      assert a + b == a;
    } else {
      var n := |b| - 1;
      assert (a + b)[..|a| + n] == a + b[..n];
      CountOfConcat(a, b[..n], h);
    }
  }

  lemma {:induction false} CountIsPermutationInvariant(a: seq<nat>, b: seq<nat>, h: int)
    requires multiset(a) == multiset(b)
    ensures CountAbove(a, h) == CountAbove(b, h)
  {
    if a == [] {
      assert |multiset(b)| == 0;
      assert b == [];
    } else {
      var n := |a| - 1;
      var x := a[n];
      assert x in multiset(b);
      var k :| 0 <= k < |b| && b[k] == x;
      var without := b[..k] + b[k + 1..];
      assert b == b[..k] + [x] + b[k + 1..];
      assert a == a[..n] + [x];
      assert multiset(without) == multiset(b) - multiset{x};
      assert multiset(a[..n]) == multiset(a) - multiset{x};
      CountIsPermutationInvariant(a[..n], without, h);
      CountOfConcat(b[..k] + [x], b[k + 1..], h);
      CountOfConcat(b[..k], [x], h);
      CountOfConcat(b[..k], b[k + 1..], h);
      assert [x][..0] == [];
    }
  }

  /** In an ascending list the element at `i` exceeds `h` exactly when it and all after it do. */
  lemma {:induction false} RankByCounting(s: seq<nat>, i: nat, h: int)
    requires Ascending(s) && i < |s|
    ensures s[i] > h <==> CountAbove(s, h) >= |s| - i
  {
    var n := |s| - 1;
    CountIsBounded(s, h);
    CountIsBounded(s[..n], h);
    if i < n {
      RankByCounting(s[..n], i, h);
    }
  }

  /** The reference exceeds `h` if and only if more than half of the announced peaks do. */
  lemma {:induction false} ReferenceExceedsIffMajority(announced: seq<nat>, h: int)
    requires announced != []
    ensures ReferencePeak(announced).value > h <==> 2 * CountAbove(announced, h) > |announced|
  {
    var sorted := Ranked(announced);
    RankedRanks(announced);
    RankByCounting(sorted, (|announced| - 1) / 2, h);
    CountIsPermutationInvariant(sorted, announced, h);
  }

  lemma {:induction false} NoHigherThanItsPermutation(a: seq<nat>, b: seq<nat>)
    requires multiset(a) == multiset(b) && |a| == |b| && a != []
    ensures ReferencePeak(a).value <= ReferencePeak(b).value
  {
    var rb := ReferencePeak(b).value;
    ReferenceExceedsIffMajority(a, rb);
    ReferenceExceedsIffMajority(b, rb);
    CountIsPermutationInvariant(a, b, rb);
  }

  /** The order in which peers announced does not matter. */
  lemma {:induction false} ReferenceIsPermutationInvariant(a: seq<nat>, b: seq<nat>)
    requires multiset(a) == multiset(b)
    ensures ReferencePeak(a) == ReferencePeak(b)
  {
    assert |multiset(a)| == |multiset(b)|;
    if a != [] {
      NoHigherThanItsPermutation(a, b);
      NoHigherThanItsPermutation(b, a);
    }
  }

  lemma {:induction false} CountIsAntitone(s: seq<nat>, low: int, high: int)
    requires low <= high
    ensures CountAbove(s, high) <= CountAbove(s, low)
  {
    if s != [] { CountIsAntitone(s[..|s| - 1], low, high); }
  }
}
