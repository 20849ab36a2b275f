/** What a round's ranking is worth (`most_credible` in src/peer/pool.rs), in handshake times and origins:
    which copy of an address is kept, who is left out, and in which order the kept ones stand. */
module DialRanking {
  import opened Prelude
  import opened Net
  import opened StableSort
  import opened DialSelection
  import opened DialFairness

  // ---------------------------------------------------------------------------
  // Order
  // ---------------------------------------------------------------------------

  /** `a` stands somewhere before `b`. */
  ghost predicate Before<T(!new)>(s: seq<T>, a: T, b: T)
  {
    exists p, q :: 0 <= p < q < |s| && s[p] == a && s[q] == b
  }

  lemma {:induction false} BeforeIsIn<T(!new)>(s: seq<T>, a: T, b: T)
    requires Before(s, a, b)
    ensures a in s && b in s
  {
    var p, q :| 0 <= p < q < |s| && s[p] == a && s[q] == b;
  }

  lemma {:induction false} BeforeInOneMore<T(!new)>(s: seq<T>, x: T, a: T, b: T)
    ensures Before(s + [x], a, b) <==> Before(s, a, b) || (a in s && b == x)
  {
    var t := s + [x];
    if Before(t, a, b) {
      var p, q :| 0 <= p < q < |t| && t[p] == a && t[q] == b;
      if q < |s| {
        assert s[p] == a && s[q] == b;
      }
    }
    if Before(s, a, b) {
      var p, q :| 0 <= p < q < |s| && s[p] == a && s[q] == b;
      assert t[p] == a && t[q] == b;
    } else if a in s && b == x {
      var p :| 0 <= p < |s| && s[p] == a;
      assert t[p] == a && t[|s|] == b;
    }
  }

  lemma {:induction false} FilteringKeepsOrder<T(!new)>(s: seq<T>, keep: T -> bool, a: T, b: T)
    requires keep(a) && keep(b)
    ensures Before(Filter(s, keep), a, b) <==> Before(s, a, b)
  {
    if s != [] {
      var n := |s| - 1;
      FilteringKeepsOrder(s[..n], keep, a, b);
      FilterMembers(s[..n], keep);
      assert s == s[..n] + [s[n]];
      BeforeInOneMore(s[..n], s[n], a, b);
      BeforeInOneMore(Filter(s[..n], keep), s[n], a, b);
    }
  }

  lemma {:induction false} EqualKeysKeepOrder<T(!new)>(s: seq<T>, key: T -> Key, k: Key, a: T, b: T)
    requires key(a) == k && key(b) == k
    ensures Before(WithKey(s, key, k), a, b) <==> Before(s, a, b)
  {
    FilteringKeepsOrder(s, x => key(x) == k, a, b);
  }

  lemma {:induction false} DedupKeepsOrder(s: Candidates, a: DialCandidate, b: DialCandidate)
    requires Before(Dedup(s), a, b)
    ensures Before(s, a, b)
  {
    if s != [] {
      var n := |s| - 1;
      assert s == s[..n] + [s[n]];
      BeforeInOneMore(s[..n], s[n], a, b);
      BeforeInOneMore(Dedup(s[..n]), s[n], a, b);
      if Before(Dedup(s[..n]), a, b) {
        DedupKeepsOrder(s[..n], a, b);
      } else {
        DedupMembers(s[..n], a);
      }
    }
  }

  /** What a ranked list says of two candidates, one before the other. */
  predicate NoSlower(a: DialCandidate, b: DialCandidate)
  {
    (b.origin.Priority? ==> a.origin.Priority?) && (a.origin == b.origin ==> a.handshake <= b.handshake)
  }

  lemma {:induction false} RankedInOrder(candidates: Candidates, a: DialCandidate, b: DialCandidate)
    requires Before(Sort(candidates, Rank), a, b)
    ensures NoSlower(a, b)
    ensures a.origin == b.origin && a.handshake == b.handshake ==> Before(candidates, a, b)
  {
    var ranked := Sort(candidates, Rank);
    SortIsStable(candidates, Rank);
    var p, q :| 0 <= p < q < |ranked| && ranked[p] == a && ranked[q] == b;
    assert !Less(Rank(ranked[q]), Rank(ranked[p]));
    if a.origin == b.origin && a.handshake == b.handshake {
      var k := Rank(a);
      EqualKeysKeepOrder(ranked, Rank, k, a, b);
      EqualKeysKeepOrder(candidates, Rank, k, a, b);
      assert WithKey(ranked, Rank, k) == WithKey(candidates, Rank, k);
    }
  }

  // ---------------------------------------------------------------------------
  // Through the spread
  // ---------------------------------------------------------------------------

  /** Both are priority candidates, or both discovered ones of one /24 or /48. */
  predicate Rivals(a: DialCandidate, b: DialCandidate)
  {
    if a.origin.Priority? then b.origin.Priority? else b.origin.Discovered? && SameBlock(a.address.ip, b.address.ip)
  }

  predicate SameBlock(x: IpAddr, y: IpAddr)
  {
    || (x.V4? && y.V4? && x.a == y.a && x.b == y.b && x.c == y.c)
    || (x.V6? && y.V6? && x.s0 == y.s0 && x.s1 == y.s1 && x.s2 == y.s2)
  }

  lemma {:induction false} BucketIsAFilter(s: Candidates, k: SubnetKey)
    ensures Bucket(s, k) == Filter(s, c => InSubnet(c, k))
  {
    if s != [] { BucketIsAFilter(s[..|s| - 1], k); }
  }

  lemma {:induction false} PrioritiesAreAFilter(s: Candidates)
    ensures Priorities(s) == Filter(s, (c: DialCandidate) => c.origin.Priority?)
  {
    if s != [] { PrioritiesAreAFilter(s[..|s| - 1]); }
  }

  lemma {:induction false} RivalsKeepOrderAtHome(s: Candidates, a: DialCandidate, b: DialCandidate)
    requires Rivals(a, b)
    ensures Before(HomeOf(s, a), a, b) <==> Before(s, a, b)
  {
    if a.origin.Priority? {
      PrioritiesAreAFilter(s);
      FilteringKeepsOrder(s, (c: DialCandidate) => c.origin.Priority?, a, b);
    } else {
      BucketIsAFilter(s, SubnetOf(a.address));
      FilteringKeepsOrder(s, c => InSubnet(c, SubnetOf(a.address)), a, b);
    }
  }

  /** Among rivals the spread keeps the order of the round, which is that of the ranking. */
  lemma {:induction false} RivalsKeepTheirRank(candidates: Candidates, a: DialCandidate, b: DialCandidate)
    requires Rivals(a, b) && Before(Spread(Dedup(Sort(candidates, Rank))), a, b)
    ensures a.handshake <= b.handshake
    ensures a.handshake == b.handshake ==> Before(candidates, a, b)
  {
    var distinct := Dedup(Sort(candidates, Rank));
    HomesAreKept(distinct, a);
    RivalsKeepOrderAtHome(Spread(distinct), a, b);
    RivalsKeepOrderAtHome(distinct, a, b);
    DedupKeepsOrder(Sort(candidates, Rank), a, b);
    RankedInOrder(candidates, a, b);
  }

  // ---------------------------------------------------------------------------
  // The round
  // ---------------------------------------------------------------------------

  /** The kept copy of an address is a priority one if any is, and the fastest of its origin. */
  lemma {:induction false} TheKeptCopyIsTheBest(
      candidates: Candidates, slots: nat, kept: DialCandidate, other: DialCandidate)
    requires kept in MostCredible(candidates, slots) && other in candidates && other.address == kept.address
    ensures kept in candidates
    ensures other.origin.Priority? ==> kept.origin.Priority?
    ensures other.origin == kept.origin ==> kept.handshake <= other.handshake
  {
    KeptIsFromTheRound(candidates, slots, kept);
    BestOfItsAddress(candidates, kept, other);
  }

  lemma {:induction false} BestOfItsAddress(candidates: Candidates, best: DialCandidate, other: DialCandidate)
    requires best in Dedup(Sort(candidates, Rank)) && other in candidates && other.address == best.address
    ensures NoSlower(best, other)
  {
    RankedAndDistinct(candidates);
    assert !Less(Rank(other), Rank(best));
  }

  lemma {:induction false} KeptIsFromTheRound(candidates: Candidates, slots: nat, kept: DialCandidate)
    requires kept in MostCredible(candidates, slots)
    ensures kept in Dedup(Sort(candidates, Rank)) && kept in candidates
  {
    var ranked := Sort(candidates, Rank);
    var all := Spread(Dedup(ranked));
    SpreadIsAPermutation(Dedup(ranked));
    assert kept in multiset(all);
    DedupMembers(ranked, kept);
    SortIsStable(candidates, Rank);
    assert kept in multiset(ranked);
  }

  /** The kept priority candidates, and the kept ones of each subnet, stand in ascending handshake, and
      those that tie as the round produced them. */
  lemma {:induction false} RivalsStandByHandshake(candidates: Candidates, slots: nat, i: nat, j: nat)
    requires i < j < |MostCredible(candidates, slots)|
    ensures var a, b := MostCredible(candidates, slots)[i], MostCredible(candidates, slots)[j];
      Rivals(a, b) ==> a.handshake <= b.handshake && (a.handshake == b.handshake ==> Before(candidates, a, b))
  {
    var all := Spread(Dedup(Sort(candidates, Rank)));
    var a, b := MostCredible(candidates, slots)[i], MostCredible(candidates, slots)[j];
    assert all[i] == a && all[j] == b;
    if Rivals(a, b) {
      RivalsKeepTheirRank(candidates, a, b);
    }
  }

  /** No copy of the address was dialled as a priority one, unless this one was. */
  predicate OfOneOrigin(candidates: Candidates, c: DialCandidate)
  {
    c.origin.Discovered? ==> forall copy :: copy in candidates && copy.address == c.address ==> copy.origin.Discovered?
  }

  predicate LeftOut(candidates: Candidates, slots: nat, c: DialCandidate)
  {
    && c in candidates && OfOneOrigin(candidates, c)
    && forall kept :: kept in MostCredible(candidates, slots) ==> kept.address != c.address
  }

  lemma {:induction false} TheBestCopy(candidates: Candidates, c: DialCandidate) returns (best: DialCandidate)
    requires c in candidates && OfOneOrigin(candidates, c)
    ensures best in Dedup(Sort(candidates, Rank)) && best.address == c.address
    ensures best.origin == c.origin && best.handshake <= c.handshake
  {
    var ranked := Sort(candidates, Rank);
    RankedAndDistinct(candidates);
    AddressesMember(candidates, c.address);
    AddressesMember(Dedup(ranked), c.address);
    best :| best in Dedup(ranked) && best.address == c.address;
    BestOfItsAddress(candidates, best, c);
    DedupMembers(ranked, best);
    SortIsStable(candidates, Rank);
    assert best in multiset(ranked);
  }

  lemma {:induction false} InThePrefixIsBefore<T(!new)>(s: seq<T>, n: nat, a: T, b: T)
    requires n <= |s| && a in s[..n] && b in s && b !in s[..n]
    ensures Before(s, a, b)
  {
    var p :| 0 <= p < n && s[..n][p] == a;
    var q :| 0 <= q < |s| && s[q] == b;
    assert q >= n;
    assert s[p] == a;
  }

  /** A candidate whose address is left out is no faster than any rival that is kept. */
  lemma {:induction false} TheLeftOutAreNoFaster(
      candidates: Candidates, slots: nat, kept: DialCandidate, other: DialCandidate)
    requires kept in MostCredible(candidates, slots) && LeftOut(candidates, slots, other) && Rivals(kept, other)
    ensures kept.handshake <= other.handshake
  {
    var distinct := Dedup(Sort(candidates, Rank));
    var all := Spread(distinct);
    var best := TheBestCopy(candidates, other);
    SpreadIsAPermutation(distinct);
    assert best in multiset(distinct);
    assert best in multiset(all);
    InThePrefixIsBefore(all, Min(slots, |all|), kept, best);
    RivalsKeepTheirRank(candidates, kept, best);
  }

  // ---------------------------------------------------------------------------
  // Which subnets
  // ---------------------------------------------------------------------------

  lemma {:induction false} HeadsStay(s: Candidates, c: DialCandidate, k: SubnetKey)
    requires Bucket(s, k) != []
    ensures Bucket(s + [c], k) != [] && Bucket(s + [c], k)[0] == Bucket(s, k)[0]
  {
    assert (s + [c])[..|s|] == s;
  }

  /** Subnets come in the order of their first candidates. */
  lemma {:induction false} SubnetsByFirstAppearance(s: Candidates, y: nat, x: nat)
    requires y < x < |Order(s)|
    ensures Bucket(s, Order(s)[y]) != [] && Bucket(s, Order(s)[x]) != []
    ensures Before(s, Bucket(s, Order(s)[y])[0], Bucket(s, Order(s)[x])[0])
  {
    var n := |s| - 1;
    var rest, order := Order(s[..n]), Order(s);
    assert s == s[..n] + [s[n]];
    OrderCovers(s[..n]);
    OrderCovers(s);
    var a := Bucket(s[..n], order[y])[0];
    HeadsStay(s[..n], s[n], order[y]);
    if x < |rest| {
      SubnetsByFirstAppearance(s[..n], y, x);
      HeadsStay(s[..n], s[n], order[x]);
      BeforeInOneMore(s[..n], s[n], a, Bucket(s, order[x])[0]);
    } else {
      assert order[x] !in rest;
      assert Bucket(s[..n], order[x]) == [];
      BucketMembers(s[..n], order[y]);
      assert a in Bucket(s[..n], order[y]);
      BeforeInOneMore(s[..n], s[n], a, s[n]);
    }
  }

  lemma {:induction false} FirstPassMember(s: Candidates, order: seq<SubnetKey>, c: DialCandidate) returns (y: nat)
    requires c in Pass(s, order, 0)
    ensures y < |order| && Bucket(s, order[y]) != [] && c == Bucket(s, order[y])[0]
  {
    var n := |order| - 1;
    if c in Pass(s, order[..n], 0) {
      y := FirstPassMember(s, order[..n], c);
    } else {
      y := n;
    }
  }

  lemma {:induction false} HeadIsFirst(s: Candidates, k: SubnetKey, d: DialCandidate)
    requires d in s && InSubnet(d, k)
    ensures Bucket(s, k) != [] && (d == Bucket(s, k)[0] || Before(s, Bucket(s, k)[0], d))
  {
    BucketIsAFilter(s, k);
    FilterMembers(s, c => InSubnet(c, k));
    var bucket := Bucket(s, k);
    var i :| 0 <= i < |bucket| && bucket[i] == d;
    if i > 0 {
      assert bucket[0] in bucket;
      FilteringKeepsOrder(s, c => InSubnet(c, k), bucket[0], d);
    }
  }

  lemma {:induction false} StillInTheFirstPass(s: Candidates, r: nat, m: nat, k: SubnetKey)
    requires m <= |Order(s)| && Bucket(s, k) != []
    requires Bucket(Passes(s, Order(s), r) + Pass(s, Order(s)[..m], r), k) == []
    ensures r == 0 && k !in Order(s)[..m]
  {
    OrderCovers(s);
    LevelOfPrefix(s, Order(s), r, m, k);
    var passes, pass := Passes(s, Order(s), r), Pass(s, Order(s)[..m], r);
    BucketOfConcat(passes, pass, k);
    BucketOfPass(s, Order(s)[..m], r, k);
  }

  /** While a subnet has no place, only the first of the subnets before it have one. */
  lemma {:induction false} OnlyHeadsBefore(s: Candidates, j: nat, k: SubnetKey, c: DialCandidate)
    returns (y: nat, x: nat)
    requires j <= |SpreadDiscovered(s)| && c in SpreadDiscovered(s)[..j]
    requires Bucket(s, k) != [] && Bucket(SpreadDiscovered(s)[..j], k) == []
    ensures y < x < |Order(s)| && Order(s)[x] == k
    ensures Bucket(s, Order(s)[y]) != [] && c == Bucket(s, Order(s)[y])[0]
  {
    var r, m := PassesPrefix(s, Order(s), Longest(s, Order(s)), j);
    StillInTheFirstPass(s, r, m, k);
    EmptyStart(Passes(s, Order(s), r), Pass(s, Order(s)[..m], r), r, s);
    y := FirstPassMember(s, Order(s)[..m], c);
    x := PlaceOf(s, k);
  }

  lemma {:induction false} EmptyStart(passes: Candidates, pass: Candidates, r: nat, s: Candidates)
    requires r == 0 && passes == Passes(s, Order(s), r)
    ensures passes + pass == pass
  {
  }

  lemma {:induction false} PlaceOf(s: Candidates, k: SubnetKey) returns (x: nat)
    requires Bucket(s, k) != []
    ensures x < |Order(s)| && Order(s)[x] == k
  {
    OrderCovers(s);
    x :| 0 <= x < |Order(s)| && Order(s)[x] == k;
  }

  lemma {:induction false} RankedHeads(candidates: Candidates, j: nat, c: DialCandidate, d: DialCandidate)
    requires var distinct := Dedup(Sort(candidates, Rank));
      && j <= |SpreadDiscovered(distinct)| && c in SpreadDiscovered(distinct)[..j]
      && d in distinct && d.origin.Discovered?
      && Bucket(SpreadDiscovered(distinct)[..j], SubnetOf(d.address)) == []
    ensures c.handshake <= d.handshake
  {
    var ranked := Sort(candidates, Rank);
    var distinct := Dedup(ranked);
    var k := SubnetOf(d.address);
    HeadIsFirst(distinct, k, d);
    var y, x := OnlyHeadsBefore(distinct, j, k, c);
    var head := Bucket(distinct, k)[0];
    SubnetsByFirstAppearance(distinct, y, x);
    DedupKeepsOrder(ranked, c, head);
    RankedInOrder(candidates, c, head);
    if d != head {
      DedupKeepsOrder(ranked, head, d);
      RankedInOrder(candidates, head, d);
    }
    AreDiscovered(distinct, k, Order(distinct)[y]);
  }

  lemma {:induction false} AreDiscovered(s: Candidates, k: SubnetKey, l: SubnetKey)
    requires Bucket(s, k) != [] && Bucket(s, l) != []
    ensures Bucket(s, k)[0].origin.Discovered? && Bucket(s, l)[0].origin.Discovered?
  {
    BucketMembers(s, k);
    BucketMembers(s, l);
    assert Bucket(s, k)[0] in Bucket(s, k) && Bucket(s, l)[0] in Bucket(s, l);
  }

  lemma {:induction false} PrefixOfTwo<T>(a: seq<T>, b: seq<T>, n: nat)
    requires n <= |a| + |b|
    ensures (a + b)[..n] == a[..Min(|a|, n)] + b[..n - Min(|a|, n)]
  {
  }

  lemma {:induction false} DiscoveredOfThePrefix(distinct: Candidates, slots: nat, k: SubnetKey) returns (j: nat)
    ensures var all := Spread(distinct);
      var kept := all[..Min(slots, |all|)];
      && j <= |SpreadDiscovered(distinct)|
      && (forall c :: c in kept && c.origin.Discovered? ==> c in SpreadDiscovered(distinct)[..j])
      && Bucket(kept, k) == Bucket(SpreadDiscovered(distinct)[..j], k)
  {
    PrioritiesAreFixed(distinct);
    j := DiscoveredOf(Priorities(distinct), SpreadDiscovered(distinct), Min(slots, |Spread(distinct)|), k);
  }

  lemma {:induction false} DiscoveredOf(priority: Candidates, rest: Candidates, n: nat, k: SubnetKey)
    returns (j: nat)
    requires n <= |priority + rest| && forall c :: c in priority ==> c.origin.Priority?
    ensures j <= |rest|
    ensures forall c :: c in (priority + rest)[..n] && c.origin.Discovered? ==> c in rest[..j]
    ensures Bucket((priority + rest)[..n], k) == Bucket(rest[..j], k)
  {
    var first := Min(|priority|, n);
    j := n - first;
    PrefixOfTwo(priority, rest, n);
    var start := priority[..first];
    forall c | c in start
      ensures c in priority
    {
    }
    BucketOfConcat(start, rest[..j], k);
    NoBucketOfPriorities(start, k);
  }

  lemma {:induction false} NoBucketOfPriorities(s: Candidates, k: SubnetKey)
    requires forall c :: c in s ==> c.origin.Priority?
    ensures Bucket(s, k) == []
  {
    if s != [] {
      assert s[|s| - 1] in s;
      NoBucketOfPriorities(s[..|s| - 1], k);
    }
  }

  /** And if no candidate of its subnet is kept, it is no faster than any discovered one that is. */
  lemma {:induction false} ASubnetLeftOutIsNoFaster(
      candidates: Candidates, slots: nat, kept: DialCandidate, other: DialCandidate)
    requires kept in MostCredible(candidates, slots) && kept.origin.Discovered?
    requires LeftOut(candidates, slots, other) && other.origin.Discovered?
    requires forall c :: c in MostCredible(candidates, slots) ==> !Rivals(other, c)
    ensures kept.handshake <= other.handshake
  {
    var distinct := Dedup(Sort(candidates, Rank));
    var best := TheBestCopy(candidates, other);
    var k := SubnetOf(best.address);
    var j := DiscoveredOfThePrefix(distinct, slots, k);
    BucketMembers(MostCredible(candidates, slots), k);
    var bucket := Bucket(MostCredible(candidates, slots), k);
    if bucket != [] {
      assert bucket[0] in bucket;
      assert Rivals(other, bucket[0]);
      assert false;
    }
    RankedHeads(candidates, j, kept, best);
  }

  lemma {:induction false} PrioritiesBeforeTheRest(
      kept: Candidates, priority: Candidates, first: nat, i: nat, j: nat)
    requires i < j < |kept| && first <= |kept| && first <= |priority|
    requires kept[..first] == priority[..first] && AllDiscovered(kept[first..])
    requires forall c :: c in priority ==> c.origin.Priority?
    ensures kept[j].origin.Priority? ==> kept[i].origin.Priority?
  {
    if j >= first {
      assert kept[first..][j - first] == kept[j];
    } else {
      assert kept[i] == kept[..first][i] == priority[i];
    }
  }

  /** Priority candidates come first, and one is left out only if priority candidates have every place. */
  lemma {:induction false} PrioritiesHaveTheFirstPlaces(candidates: Candidates, slots: nat, i: nat, j: nat)
    requires i < j < |MostCredible(candidates, slots)|
    ensures MostCredible(candidates, slots)[j].origin.Priority? ==> MostCredible(candidates, slots)[i].origin.Priority?
  {
    TheRoundPrefersPriorityThenVariety(candidates, slots);
    var priority := Priorities(Dedup(Sort(candidates, Rank)));
    PrioritiesAreFixed(Dedup(Sort(candidates, Rank)));
    PrioritiesBeforeTheRest(MostCredible(candidates, slots), priority, Min(slots, |priority|), i, j);
  }

  lemma {:induction false} APriorityIsLeftOutForPrioritiesOnly(
      candidates: Candidates, slots: nat, other: DialCandidate, kept: DialCandidate)
    requires LeftOut(candidates, slots, other) && other.origin.Priority?
    requires kept in MostCredible(candidates, slots)
    ensures kept.origin.Priority?
  {
    var distinct := Dedup(Sort(candidates, Rank));
    TheRoundPrefersPriorityThenVariety(candidates, slots);
    PrioritiesAreFixed(distinct);
    PrioritiesAreAFilter(distinct);
    FilterMembers(distinct, (c: DialCandidate) => c.origin.Priority?);
    var best := TheBestCopy(candidates, other);
    WhollyPriority(MostCredible(candidates, slots), Priorities(distinct), slots, best);
  }

  lemma {:induction false} WhollyPriority(
      list: Candidates, priority: Candidates, slots: nat, best: DialCandidate)
    requires var first := Min(slots, |priority|);
      first <= |list| <= slots && list[..first] == priority[..first]
    requires best in priority && best !in list
    requires forall c :: c in priority ==> c.origin.Priority?
    ensures forall c :: c in list ==> c.origin.Priority?
  {
    var i :| 0 <= i < |priority| && priority[i] == best;
    var first := Min(slots, |priority|);
    assert list[..first] == list;
    assert forall c :: c in list ==> c in priority[..first];
  }
}
