/** What a round's selection guarantees: nobody is lost or doubled by the spread, no subnet runs ahead
    of another, and the kept candidates are the best-ranked copies of distinct addresses. */
module DialFairness {
  import opened Prelude
  import opened Net
  import opened StableSort
  import opened DialSelection

  // ---------------------------------------------------------------------------
  // Prefixes of the spread
  // ---------------------------------------------------------------------------

  lemma {:induction false} PassPrefix(s: Candidates, order: seq<SubnetKey>, r: nat, j: nat) returns (m: nat)
    requires j <= |Pass(s, order, r)|
    ensures m <= |order| && Pass(s, order, r)[..j] == Pass(s, order[..m], r)
  {
    var n := |order|;
    if j == |Pass(s, order, r)| {
      m := n;
      assert order[..m] == order;
    } else {
      m := PassPrefix(s, order[..n - 1], r, j);
      assert order[..n - 1][..m] == order[..m];
    }
  }

  /** Every prefix of the passes is some whole passes and the start of one more. */
  lemma {:induction false} PassesPrefix(s: Candidates, order: seq<SubnetKey>, passes: nat, j: nat)
    returns (r: nat, m: nat)
    requires j <= |Passes(s, order, passes)|
    ensures m <= |order| && (r < passes || (r == 0 && m == 0))
    ensures Passes(s, order, passes)[..j] == Passes(s, order, r) + Pass(s, order[..m], r)
  {
    if passes == 0 {
      r, m := 0, 0;
    } else {
      OneMorePass(s, order, passes - 1);
      var before := Passes(s, order, passes - 1);
      if j <= |before| {
        r, m := PassesPrefix(s, order, passes - 1, j);
      } else {
        r := passes - 1;
        m := PassPrefix(s, order, r, j - |before|);
      }
    }
  }

  lemma {:induction false} LevelOfPrefix(s: Candidates, order: seq<SubnetKey>, r: nat, m: nat, k: SubnetKey)
    requires DistinctKeys(order) && m <= |order| && (k in order <==> Bucket(s, k) != [])
    ensures var count := |Bucket(Passes(s, order, r) + Pass(s, order[..m], r), k)|;
      Min(r, |Bucket(s, k)|) <= count <= Min(r + 1, |Bucket(s, k)|)
  {
    BucketOfPasses(s, order, r, k);
    BucketOfPass(s, order[..m], r, k);
    BucketOfConcat(Passes(s, order, r), Pass(s, order[..m], r), k);
  }

  /** At every point of the discovered spread, no subnet has been given two more places than another
      that still has candidates waiting. */
  lemma {:induction false} NoSubnetRunsAhead(s: Candidates, j: nat, a: SubnetKey, b: SubnetKey)
    requires j <= |SpreadDiscovered(s)|
    requires |Bucket(SpreadDiscovered(s)[..j], b)| < |Bucket(s, b)|
    ensures |Bucket(SpreadDiscovered(s)[..j], a)| <= |Bucket(SpreadDiscovered(s)[..j], b)| + 1
  {
    OrderCovers(s);
    var order := Order(s);
    var r, m := PassesPrefix(s, order, Longest(s, order), j);
    LevelOfPrefix(s, order, r, m, a);
    LevelOfPrefix(s, order, r, m, b);
  }

  // ---------------------------------------------------------------------------
  // Coverage
  // ---------------------------------------------------------------------------

  function Keys(order: seq<SubnetKey>): set<SubnetKey> { set k | k in order }

  lemma {:induction false} DistinctKeysCount(order: seq<SubnetKey>)
    requires DistinctKeys(order)
    ensures |Keys(order)| == |order|
  {
    if order != [] {
      var n := |order| - 1;
      DistinctKeysCount(order[..n]);
      assert Keys(order) == Keys(order[..n]) + {order[n]};
    }
  }

  lemma {:induction false} OrderIsNoLonger(s: Candidates)
    ensures |Order(s)| <= |s|
  {
    if s != [] { OrderIsNoLonger(s[..|s| - 1]); }
  }

  lemma {:induction false} OrderAppend(s: Candidates, c: DialCandidate)
    ensures Order(s + [c]) ==
      if c.origin.Priority? || SubnetOf(c.address) in Order(s) then Order(s) else Order(s) + [SubnetOf(c.address)]
  {
    assert (s + [c])[..|s|] == s;
  }

  /** The first pass takes one candidate from each subnet, in the subnets' order. */
  lemma {:induction false} FirstPassVisitsEverySubnet(s: Candidates, order: seq<SubnetKey>)
    requires DistinctKeys(order)
    requires forall i :: 0 <= i < |order| ==> Bucket(s, order[i]) != []
    ensures |Pass(s, order, 0)| == |order| && Order(Pass(s, order, 0)) == order
  {
    if order != [] {
      var n := |order| - 1;
      FirstPassVisitsEverySubnet(s, order[..n]);
      BucketMembers(s, order[n]);
      var first := Bucket(s, order[n])[0];
      assert first in Bucket(s, order[n]);
      OrderAppend(Pass(s, order[..n], 0), first);
      assert order == order[..n] + [order[n]];
    }
  }

  lemma {:induction false} FirstPassStart(s: Candidates, order: seq<SubnetKey>, m: nat)
    requires order == Order(s) && m <= |order|
    ensures |Pass(s, order[..m], 0)| == m && |Order(Pass(s, order[..m], 0))| == m
  {
    OrderCovers(s);
    forall i | 0 <= i < m
      ensures Bucket(s, order[..m][i]) != []
    {
      assert order[..m][i] in order;
    }
    FirstPassVisitsEverySubnet(s, order[..m]);
  }

  lemma {:induction false} LaterPassesCoverEverySubnet(s: Candidates, order: seq<SubnetKey>, r: nat, m: nat)
    requires order == Order(s) && m <= |order| && r > 0
    ensures |Order(Passes(s, order, r) + Pass(s, order[..m], r))| == |order|
  {
    var start := Passes(s, order, r) + Pass(s, order[..m], r);
    OrderCovers(s);
    OrderCovers(start);
    forall k
      ensures k in Keys(Order(start)) <==> k in Keys(order)
    {
      LevelOfPrefix(s, order, r, m, k);
    }
    assert Keys(Order(start)) == Keys(order);
    DistinctKeysCount(order);
    DistinctKeysCount(Order(start));
  }

  /** The first `j` discovered places cover as many subnets as `j` places can. */
  lemma {:induction false} FirstPlacesCoverDistinctSubnets(s: Candidates, j: nat)
    requires j <= |SpreadDiscovered(s)|
    ensures |Order(SpreadDiscovered(s)[..j])| == Min(j, |Order(s)|)
  {
    OrderCovers(s);
    var order := Order(s);
    var r, m := PassesPrefix(s, order, Longest(s, order), j);
    if r == 0 {
      FirstPassStart(s, order, m);
      assert Passes(s, order, 0) + Pass(s, order[..m], 0) == Pass(s, order[..m], 0);
    } else {
      LaterPassesCoverEverySubnet(s, order, r, m);
      OrderIsNoLonger(SpreadDiscovered(s)[..j]);
    }
  }

  // ---------------------------------------------------------------------------
  // The spread is a permutation
  // ---------------------------------------------------------------------------

  lemma {:induction false} PrioritiesOfConcat(a: Candidates, b: Candidates)
    ensures Priorities(a + b) == Priorities(a) + Priorities(b)
  {
    if b == [] {
      assert a + b == a;
    } else {
      var n := |b| - 1;
      assert (a + b)[..|a| + n] == a + b[..n];
      PrioritiesOfConcat(a, b[..n]);
    }
  }

  lemma {:induction false} PrioritiesAreFixed(s: Candidates)
    ensures Priorities(Priorities(s)) == Priorities(s)
    ensures forall c :: c in Priorities(s) ==> c.origin.Priority?
  {
    if s != [] {
      var n := |s| - 1;
      PrioritiesAreFixed(s[..n]);
      if s[n].origin.Priority? {
        PrioritiesOfConcat(Priorities(s[..n]), [s[n]]);
        assert [s[n]][..0] == [];
        assert Priorities([s[n]]) == [s[n]];
      } else {
        assert Priorities(s) == Priorities(s[..n]);
      }
    }
  }

  predicate AllDiscovered(s: Candidates)
  {
    forall i :: 0 <= i < |s| ==> s[i].origin.Discovered?
  }

  lemma {:induction false} BucketIsDiscovered(s: Candidates, k: SubnetKey)
    ensures AllDiscovered(Bucket(s, k))
  {
    if s != [] { BucketIsDiscovered(s[..|s| - 1], k); }
  }

  lemma {:induction false} PassIsDiscovered(s: Candidates, order: seq<SubnetKey>, r: nat)
    ensures AllDiscovered(Pass(s, order, r))
  {
    if order != [] {
      var n := |order| - 1;
      PassIsDiscovered(s, order[..n], r);
      BucketIsDiscovered(s, order[n]);
    }
  }

  lemma {:induction false} PassesAreDiscovered(s: Candidates, order: seq<SubnetKey>, r: nat)
    ensures AllDiscovered(Passes(s, order, r))
  {
    if r > 0 {
      PassesAreDiscovered(s, order, r - 1);
      PassIsDiscovered(s, order, r - 1);
      OneMorePass(s, order, r - 1);
    }
  }

  lemma {:induction false} NoPriorities(s: Candidates)
    requires AllDiscovered(s)
    ensures Priorities(s) == []
  {
    if s != [] { NoPriorities(s[..|s| - 1]); }
  }

  lemma {:induction false} SpreadIsDiscovered(s: Candidates)
    ensures AllDiscovered(SpreadDiscovered(s))
    ensures Priorities(SpreadDiscovered(s)) == []
  {
    PassesAreDiscovered(s, Order(s), Longest(s, Order(s)));
    NoPriorities(SpreadDiscovered(s));
  }

  function HomeOf(s: Candidates, c: DialCandidate): Candidates
  {
    if c.origin.Priority? then Priorities(s) else Bucket(s, SubnetOf(c.address))
  }

  lemma {:induction false} CountedAtHome(s: Candidates, c: DialCandidate)
    ensures multiset(s)[c] == multiset(HomeOf(s, c))[c]
  {
    if s != [] {
      var n := |s| - 1;
      CountedAtHome(s[..n], c);
      assert s == s[..n] + [s[n]];
      assert multiset(s) == multiset(s[..n]) + multiset{s[n]};
      var home, added := HomeOf(s[..n], c), HomeOf(s, c);
      assert added == home || added == home + [s[n]];
    }
  }

  lemma {:induction false} HomesAreKept(s: Candidates, c: DialCandidate)
    ensures HomeOf(Spread(s), c) == HomeOf(s, c)
  {
    if c.origin.Priority? {
      PrioritiesOfConcat(Priorities(s), SpreadDiscovered(s));
      PrioritiesAreFixed(s);
      SpreadIsDiscovered(s);
    } else {
      SpreadKeepsSubnetOrder(s, SubnetOf(c.address));
    }
  }

  lemma {:induction false} SameHomesSameMembers(a: Candidates, b: Candidates)
    requires forall c :: HomeOf(a, c) == HomeOf(b, c)
    ensures multiset(a) == multiset(b)
    ensures |a| == |b|
  {
    forall c
      ensures multiset(a)[c] == multiset(b)[c]
    {
      CountedAtHome(a, c);
      CountedAtHome(b, c);
      assert HomeOf(a, c) == HomeOf(b, c);
    }
    assert multiset(a) == multiset(b);
    assert |multiset(a)| == |a| && |multiset(b)| == |b|;
  }

  /** The spread loses nobody and doubles nobody. */
  lemma {:induction false} SpreadIsAPermutation(s: Candidates)
    ensures multiset(Spread(s)) == multiset(s)
    ensures |Spread(s)| == |s|
  {
    forall c
      ensures HomeOf(Spread(s), c) == HomeOf(s, c)
    {
      HomesAreKept(s, c);
    }
    SameHomesSameMembers(Spread(s), s);
  }

  // ---------------------------------------------------------------------------
  // Addresses
  // ---------------------------------------------------------------------------

  lemma {:induction false} AddressesMember(s: Candidates, a: SocketAddr)
    ensures a in Addresses(s) <==> exists c :: c in s && c.address == a
  {
    if s != [] {
      var n := |s| - 1;
      AddressesMember(s[..n], a);
      assert s == s[..n] + [s[n]];
      if c :| c in s && c.address == a {
        assert c in s[..n] || c == s[n];
      }
      if s[n].address == a {
        assert s[n] in s;
      }
    }
  }

  lemma {:induction false} SameMembersSameAddresses(a: Candidates, b: Candidates)
    requires multiset(a) == multiset(b)
    ensures Addresses(a) == Addresses(b)
  {
    forall x
      ensures x in Addresses(a) <==> x in Addresses(b)
    {
      AddressesMember(a, x);
      AddressesMember(b, x);
      assert forall c :: c in a <==> c in multiset(a);
      assert forall c :: c in b <==> c in multiset(b);
    }
  }

  /** As many addresses as candidates means no address twice. */
  lemma {:induction false} CountedDistinct(s: Candidates)
    ensures |Addresses(s)| <= |s|
    ensures |Addresses(s)| == |s| ==>
      forall i, j :: 0 <= i < j < |s| ==> s[i].address != s[j].address
  {
    if s != [] {
      var n := |s| - 1;
      CountedDistinct(s[..n]);
      if |Addresses(s)| == |s| {
        AddressesMember(s[..n], s[n].address);
        forall i | 0 <= i < n
          ensures s[i].address != s[n].address
        {
          assert s[i] in s[..n];
        }
      }
    }
  }

  lemma {:induction false} AddressesAppend(s: Candidates, c: DialCandidate)
    ensures Addresses(s + [c]) == Addresses(s) + {c.address}
  {
    assert (s + [c])[..|s|] == s;
  }

  lemma {:induction false} DedupKeepsEveryAddress(s: Candidates)
    ensures Addresses(Dedup(s)) == Addresses(s)
    ensures |Dedup(s)| == |Addresses(s)|
  {
    if s != [] {
      var n := |s| - 1;
      DedupKeepsEveryAddress(s[..n]);
      AddressesAppend(Dedup(s[..n]), s[n]);
    }
  }

  lemma {:induction false} DedupMembers(s: Candidates, c: DialCandidate)
    requires c in Dedup(s)
    ensures c in s
  {
    var n := |s| - 1;
    if c in Dedup(s[..n]) {
      DedupMembers(s[..n], c);
    }
  }

  lemma {:induction false} LastIsNoBetter(s: Candidates, kept: DialCandidate, n: nat)
    requires Sorted(s, Rank) && |s| == n + 1 && kept in s[..n]
    ensures !Less(Rank(s[n]), Rank(kept))
  {
    var i :| 0 <= i < n && s[i] == kept;
  }

  /** From a ranked list, the copy of an address that is kept is its best-ranked one. */
  lemma {:induction false} DedupKeepsTheBest(s: Candidates, kept: DialCandidate, other: DialCandidate)
    requires Sorted(s, Rank)
    requires kept in Dedup(s) && other in s && kept.address == other.address
    ensures !Less(Rank(other), Rank(kept))
  {
    var n := |s| - 1;
    if kept in Dedup(s[..n]) {
      if other in s[..n] {
        DedupKeepsTheBest(s[..n], kept, other);
      } else {
        DedupMembers(s[..n], kept);
        LastIsNoBetter(s, kept, n);
      }
    } else if other in s[..n] {
      AddressesMember(s[..n], other.address);
      assert false;
    }
  }

  // ---------------------------------------------------------------------------
  // The round
  // ---------------------------------------------------------------------------

  /** Every candidate of the list is the best-ranked copy of its address. */
  predicate BestCopies(list: Candidates, candidates: Candidates)
  {
    forall kept, other :: kept in list && other in candidates && kept.address == other.address ==>
      !Less(Rank(other), Rank(kept))
  }

  lemma {:induction false} RankedAndDistinct(candidates: Candidates)
    ensures var distinct := Dedup(Sort(candidates, Rank));
      && |distinct| == |Addresses(candidates)|
      && Addresses(distinct) == Addresses(candidates)
      && BestCopies(distinct, candidates)
  {
    var ranked := Sort(candidates, Rank);
    SortIsStable(candidates, Rank);
    SameMembersSameAddresses(ranked, candidates);
    DedupKeepsEveryAddress(ranked);
    forall kept, other | kept in Dedup(ranked) && other in candidates && kept.address == other.address
      ensures !Less(Rank(other), Rank(kept))
    {
      assert other in multiset(candidates);
      assert other in multiset(ranked);
      DedupKeepsTheBest(ranked, kept, other);
    }
  }

  lemma {:induction false} BestCopiesInAnyOrder(all: Candidates, distinct: Candidates, candidates: Candidates, n: nat)
    requires multiset(all) == multiset(distinct) && BestCopies(distinct, candidates) && n <= |all|
    ensures BestCopies(all[..n], candidates)
  {
    forall kept | kept in all[..n]
      ensures kept in distinct
    {
      assert kept in multiset(all);
    }
  }

  /** A round keeps as many candidates as it has slots, or one for every address it reached; no address
      twice; each the best-ranked copy of its address. */
  lemma {:induction false} TheRoundKeepsDistinctBestCandidates(candidates: Candidates, slots: nat)
    ensures var kept := MostCredible(candidates, slots);
      && |kept| == Min(slots, |Addresses(candidates)|)
      && (forall i, j :: 0 <= i < j < |kept| ==> kept[i].address != kept[j].address)
      && BestCopies(kept, candidates)
  {
    var distinct := Dedup(Sort(candidates, Rank));
    var all := Spread(distinct);
    RankedAndDistinct(candidates);
    SpreadIsAPermutation(distinct);
    SameMembersSameAddresses(all, distinct);
    CountedDistinct(all);
    BestCopiesInAnyOrder(all, distinct, candidates, Min(slots, |all|));
  }

  lemma {:induction false} PriorityFirst(
      priority: Candidates, rest: Candidates, all: Candidates, slots: nat, subnets: nat)
    requires AllDiscovered(rest) && all == priority + rest
    requires forall j :: 0 <= j <= |rest| ==> |Order(rest[..j])| == Min(j, subnets)
    ensures var kept := all[..Min(slots, |all|)];
      var first := Min(slots, |priority|);
      && first <= |kept|
      && kept[..first] == priority[..first]
      && AllDiscovered(kept[first..])
      && |Order(kept[first..])| == Min(|kept| - first, subnets)
  {
    var kept := all[..Min(slots, |all|)];
    var first := Min(slots, |priority|);
    assert kept[first..] == rest[..|kept| - first];
  }

  /** Priority candidates come first and are left out only when priority candidates fill every slot;
      the discovered ones that follow cover as many subnets as their number allows. */
  lemma {:induction false} TheRoundPrefersPriorityThenVariety(candidates: Candidates, slots: nat)
    ensures var distinct := Dedup(Sort(candidates, Rank));
      var kept := MostCredible(candidates, slots);
      var first := Min(slots, |Priorities(distinct)|);
      && first <= |kept|
      && kept[..first] == Priorities(distinct)[..first]
      && AllDiscovered(kept[first..])
      && |Order(kept[first..])| == Min(|kept| - first, |Order(distinct)|)
  {
    var distinct := Dedup(Sort(candidates, Rank));
    var rest := SpreadDiscovered(distinct);
    SpreadIsDiscovered(distinct);
    forall j | 0 <= j <= |rest|
      ensures |Order(rest[..j])| == Min(j, |Order(distinct)|)
    {
      FirstPlacesCoverDistinctSubnets(distinct, j);
    }
    PriorityFirst(Priorities(distinct), rest, Spread(distinct), slots, |Order(distinct)|);
  }
}
