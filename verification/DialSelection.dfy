/** How a round of dials is judged (`most_credible` and `spread_across_subnets` in src/peer/pool.rs):
    rank, keep one candidate per address, spread over subnets, and keep as many as there are slots. */
module DialSelection {
  import opened Prelude
  import opened Net
  import opened PeerPool
  import opened StableSort

  /** A /24 of IPv4 or a /48 of IPv6. */
  datatype SubnetKey = Subnet4(a: nat, b: nat, c: nat) | Subnet6(s0: nat, s1: nat, s2: nat)

  function SubnetOf(address: SocketAddr): SubnetKey
  {
    match address.ip
    case V4(a, b, c, _) => Subnet4(a, b, c)
    case V6(s0, s1, s2, _, _, _, _, _) => Subnet6(s0, s1, s2)
  }

  /** A dial that succeeded; `connection` names the live connection it carries. */
  datatype DialCandidate = DialCandidate(
    origin: PeerOrigin, address: SocketAddr, handshake: nat, connection: nat)

  type Candidates = seq<DialCandidate>

  function Rank(c: DialCandidate): Key { (if c.origin.Priority? then 0 else 1, c.handshake) }

  function Addresses(s: Candidates): set<SocketAddr>
  {
    if s == [] then {} else Addresses(s[..|s| - 1]) + {s[|s| - 1].address}
  }

  /** The first candidate of each address. */
  function Dedup(s: Candidates): Candidates
  {
    if s == [] then []
    else
      var n := |s| - 1;
      if s[n].address in Addresses(s[..n]) then Dedup(s[..n]) else Dedup(s[..n]) + [s[n]]
  }

  predicate InSubnet(c: DialCandidate, k: SubnetKey)
  {
    c.origin.Discovered? && SubnetOf(c.address) == k
  }

  function Priorities(s: Candidates): Candidates
  {
    if s == [] then []
    else Priorities(s[..|s| - 1]) + if s[|s| - 1].origin.Priority? then [s[|s| - 1]] else []
  }

  /** The discovered candidates of one subnet, in order. */
  function Bucket(s: Candidates, k: SubnetKey): Candidates
  {
    if s == [] then []
    else Bucket(s[..|s| - 1], k) + if InSubnet(s[|s| - 1], k) then [s[|s| - 1]] else []
  }

  /** The subnets of the discovered candidates, by first appearance. */
  function Order(s: Candidates): seq<SubnetKey>
  {
    if s == [] then []
    else
      var rest, c := Order(s[..|s| - 1]), s[|s| - 1];
      if c.origin.Priority? || SubnetOf(c.address) in rest then rest else rest + [SubnetOf(c.address)]
  }

  /** What pass number `r` takes from the subnets in `order`. */
  function Pass(s: Candidates, order: seq<SubnetKey>, r: nat): Candidates
  {
    if order == [] then []
    else
      var bucket := Bucket(s, order[|order| - 1]);
      Pass(s, order[..|order| - 1], r) + if |bucket| > r then [bucket[r]] else []
  }

  function Passes(s: Candidates, order: seq<SubnetKey>, r: nat): Candidates
  {
    if r == 0 then [] else Passes(s, order, r - 1) + Pass(s, order, r - 1)
  }

  function Longest(s: Candidates, order: seq<SubnetKey>): nat
  {
    if order == [] then 0
    else
      var rest, last := Longest(s, order[..|order| - 1]), |Bucket(s, order[|order| - 1])|;
      if rest <= last then last else rest
  }

  function SpreadDiscovered(s: Candidates): Candidates
  {
    Passes(s, Order(s), Longest(s, Order(s)))
  }

  function Spread(s: Candidates): Candidates { Priorities(s) + SpreadDiscovered(s) }

  function MostCredible(candidates: Candidates, slots: nat): Candidates
  {
    var all := Spread(Dedup(Sort(candidates, Rank)));
    all[..Min(slots, |all|)]
  }

  // ---------------------------------------------------------------------------
  // Facts about buckets
  // ---------------------------------------------------------------------------

  predicate DistinctKeys(order: seq<SubnetKey>)
  {
    forall i, j :: 0 <= i < j < |order| ==> order[i] != order[j]
  }

  lemma {:induction false} OrderCovers(s: Candidates)
    ensures DistinctKeys(Order(s))
    ensures forall k :: k in Order(s) <==> Bucket(s, k) != []
  {
    if s != [] {
      OrderCovers(s[..|s| - 1]);
    }
  }

  lemma {:induction false} BucketMembers(s: Candidates, k: SubnetKey)
    ensures forall c :: c in Bucket(s, k) ==> c in s && InSubnet(c, k)
  {
    if s != [] {
      BucketMembers(s[..|s| - 1], k);
      assert s == s[..|s| - 1] + [s[|s| - 1]];
    }
  }

  lemma {:induction false} BucketOfConcat(a: Candidates, b: Candidates, k: SubnetKey)
    ensures Bucket(a + b, k) == Bucket(a, k) + Bucket(b, k)
  {
    if b == [] {
      assert a + b == a;
    } else {
      var n := |b| - 1;
      assert (a + b)[..|a| + n] == a + b[..n];
      BucketOfConcat(a, b[..n], k);
    }
  }

  lemma {:induction false} BucketOfOne(c: DialCandidate, k: SubnetKey)
    ensures Bucket([c], k) == if InSubnet(c, k) then [c] else []
  {
    assert [c][..0] == [];
  }

  lemma {:induction false} LongestBounds(s: Candidates, order: seq<SubnetKey>, i: nat)
    requires i < |order|
    ensures |Bucket(s, order[i])| <= Longest(s, order)
  {
    var n := |order| - 1;
    if i < n {
      LongestBounds(s, order[..n], i);
    }
  }

  lemma {:induction false} LongestOfOneMore(s: Candidates, order: seq<SubnetKey>, j: nat, r: nat)
    requires j < |order|
    ensures Longest(s, order[..j + 1]) > r <==> Longest(s, order[..j]) > r || |Bucket(s, order[j])| > r
  {
    assert order[..j + 1][..j] == order[..j];
  }

  lemma {:induction false} PassOfOneMore(s: Candidates, order: seq<SubnetKey>, j: nat, r: nat)
    requires j < |order|
    ensures Pass(s, order[..j + 1], r)
      == Pass(s, order[..j], r) + if |Bucket(s, order[j])| > r then [Bucket(s, order[j])[r]] else []
  {
    assert order[..j + 1][..j] == order[..j];
  }

  lemma {:induction false} EmptyPass(s: Candidates, order: seq<SubnetKey>, r: nat)
    requires Longest(s, order) <= r
    ensures Pass(s, order, r) == []
  {
    if order != [] {
      EmptyPass(s, order[..|order| - 1], r);
    }
  }

  lemma {:induction false} OneMorePass(s: Candidates, order: seq<SubnetKey>, r: nat)
    ensures Passes(s, order, r + 1) == Passes(s, order, r) + Pass(s, order, r)
  {
  }

  lemma {:induction false} OneMorePassOnto(prefix: Candidates, s: Candidates, order: seq<SubnetKey>, r: nat)
    ensures prefix + Passes(s, order, r + 1) == prefix + Passes(s, order, r) + Pass(s, order, r)
  {
    OneMorePass(s, order, r);
  }

  lemma {:induction false} PassesSettle(s: Candidates, order: seq<SubnetKey>, r: nat, enough: nat)
    requires r >= enough
    requires forall q: nat :: q >= enough ==> Pass(s, order, q) == []
    ensures Passes(s, order, r) == Passes(s, order, enough)
  {
    if r > enough {
      PassesSettle(s, order, r - 1, enough);
      OneMorePass(s, order, r - 1);
    }
  }

  lemma {:induction false} LatePassesAreEmpty(s: Candidates, order: seq<SubnetKey>, r: nat, longest: nat)
    requires longest == Longest(s, order) && r >= longest
    ensures Passes(s, order, r) == Passes(s, order, longest)
  {
    forall q: nat | q >= longest
      ensures Pass(s, order, q) == []
    {
      EmptyPass(s, order, q);
    }
    PassesSettle(s, order, r, longest);
  }

  // ---------------------------------------------------------------------------
  // The loops
  // ---------------------------------------------------------------------------

  function Drop(bucket: Candidates, r: nat): Candidates
  {
    if r <= |bucket| then bucket[r..] else []
  }

  predicate Drained(buckets: map<SubnetKey, Candidates>, s: Candidates, order: seq<SubnetKey>, j: nat, r: nat)
    requires j <= |order|
  {
    && (forall i :: 0 <= i < |order| ==> order[i] in buckets)
    && (forall i :: 0 <= i < j ==> buckets[order[i]] == Drop(Bucket(s, order[i]), r + 1))
    && (forall i :: j <= i < |order| ==> buckets[order[i]] == Drop(Bucket(s, order[i]), r))
  }

  lemma {:induction false} DrainOne(
      buckets: map<SubnetKey, Candidates>, s: Candidates, order: seq<SubnetKey>, j: nat, r: nat, rest: Candidates)
    requires DistinctKeys(order) && j < |order| && Drained(buckets, s, order, j, r)
    requires rest == Drop(Bucket(s, order[j]), r + 1)
    ensures Drained(buckets[order[j] := rest], s, order, j + 1, r)
  {
  }

  method FillBuckets(candidates: Candidates)
    returns (priority: Candidates, order: seq<SubnetKey>, buckets: map<SubnetKey, Candidates>)
    ensures priority == Priorities(candidates)
    ensures order == Order(candidates)
    ensures Drained(buckets, candidates, order, 0, 0)
  {
    priority, order, buckets := [], [], map[];
    for i := 0 to |candidates|
      invariant priority == Priorities(candidates[..i])
      invariant order == Order(candidates[..i])
      invariant forall k :: k in buckets <==> k in order
      invariant forall k :: k in buckets ==> buckets[k] == Bucket(candidates[..i], k)
    {
      var candidate := candidates[i];
      assert candidates[..i + 1][..i] == candidates[..i];
      OrderCovers(candidates[..i]);
      if candidate.origin.Priority? {
        priority := priority + [candidate];
        continue;
      }
      var key := SubnetOf(candidate.address);
      if key !in buckets {
        order := order + [key];
        buckets := buckets[key := []];
      }
      buckets := buckets[key := buckets[key] + [candidate]];
    }
    assert candidates[..|candidates|] == candidates;
  }

  /** One pass over the subnets: take the head of every bucket that has one, and report whether any
      bucket still has more. */
  method TakeOnePass(s: Candidates, order: seq<SubnetKey>, buckets: map<SubnetKey, Candidates>, ghost r: nat)
    returns (taken: Candidates, left: map<SubnetKey, Candidates>, remaining: bool)
    requires DistinctKeys(order) && Drained(buckets, s, order, 0, r)
    ensures taken == Pass(s, order, r)
    ensures Drained(left, s, order, 0, r + 1)
    ensures remaining <==> Longest(s, order) > r + 1
  {
    taken, left, remaining := [], buckets, false;
    for j := 0 to |order|
      invariant taken == Pass(s, order[..j], r)
      invariant Drained(left, s, order, j, r)
      invariant remaining <==> Longest(s, order[..j]) > r + 1
    {
      var key := order[j];
      PassOfOneMore(s, order, j, r);
      LongestOfOneMore(s, order, j, r + 1);
      var bucket := left[key];
      DrainOne(left, s, order, j, r, Drop(Bucket(s, key), r + 1));
      if bucket != [] {
        taken := taken + [bucket[0]];
        left := left[key := bucket[1..]];
        remaining := remaining || |bucket| > 1;
      } else {
        assert left[key := []] == left;
      }
    }
    assert order[..|order|] == order;
  }

  /** `spread_across_subnets`. */
  method SpreadAcrossSubnets(candidates: Candidates) returns (spread: Candidates)
    ensures spread == Spread(candidates)
  {
    var priority, order, buckets := FillBuckets(candidates);
    OrderCovers(candidates);
    spread := priority;
    var remaining := true;
    ghost var r, longest := 0, Longest(candidates, order);
    while remaining
      invariant spread == priority + Passes(candidates, order, r)
      invariant Drained(buckets, candidates, order, 0, r)
      invariant remaining && r > 0 ==> r < longest
      invariant !remaining ==> r >= longest
      decreases if remaining then longest + 1 - r else 0
    {
      var taken: Candidates;
      taken, buckets, remaining := TakeOnePass(candidates, order, buckets, r);
      OneMorePassOnto(priority, candidates, order, r);
      spread := spread + taken;
      r := r + 1;
    }
    LatePassesAreEmpty(candidates, order, r, longest);
  }

  /** `most_credible`. */
  method SelectMostCredible(candidates: Candidates, slots: nat) returns (kept: Candidates)
    ensures kept == MostCredible(candidates, slots)
  {
    var ranked := Sort(candidates, Rank);
    var seen: set<SocketAddr> := {};
    var distinct: Candidates := [];
    for i := 0 to |ranked|
      invariant seen == Addresses(ranked[..i])
      invariant distinct == Dedup(ranked[..i])
    {
      assert ranked[..i + 1][..i] == ranked[..i];
      if ranked[i].address !in seen {
        seen := seen + {ranked[i].address};
        distinct := distinct + [ranked[i]];
      }
    }
    assert ranked[..|ranked|] == ranked;
    var spread := SpreadAcrossSubnets(distinct);
    kept := if slots < |spread| then spread[..slots] else spread;
    assert spread[..|spread|] == spread;
  }

  // ---------------------------------------------------------------------------
  // What the spread does
  // ---------------------------------------------------------------------------

  lemma {:induction false} BucketOfPass(s: Candidates, order: seq<SubnetKey>, r: nat, k: SubnetKey)
    requires DistinctKeys(order)
    ensures Bucket(Pass(s, order, r), k)
      == if k in order && |Bucket(s, k)| > r then [Bucket(s, k)[r]] else []
  {
    if order != [] {
      var n := |order| - 1;
      var bucket := Bucket(s, order[n]);
      BucketOfPass(s, order[..n], r, k);
      if |bucket| > r {
        BucketMembers(s, order[n]);
        assert bucket[r] in bucket;
        BucketOfConcat(Pass(s, order[..n], r), [bucket[r]], k);
        BucketOfOne(bucket[r], k);
      } else {
        assert Pass(s, order, r) == Pass(s, order[..n], r);
      }
    }
  }

  lemma {:induction false} TakeOneMore<T>(whole: seq<T>, r: nat)
    ensures whole[..Min(r, |whole|)] + (if |whole| > r then [whole[r]] else []) == whole[..Min(r + 1, |whole|)]
  {
  }

  lemma {:induction false} BucketGrows(s: Candidates, before: Candidates, pass: Candidates, k: SubnetKey, r: nat)
    requires Bucket(before, k) == Bucket(s, k)[..Min(r, |Bucket(s, k)|)]
    requires Bucket(pass, k) == if |Bucket(s, k)| > r then [Bucket(s, k)[r]] else []
    ensures Bucket(before + pass, k) == Bucket(s, k)[..Min(r + 1, |Bucket(s, k)|)]
  {
    BucketOfConcat(before, pass, k);
    TakeOneMore(Bucket(s, k), r);
  }

  /** After `r` passes each listed subnet has contributed its first `r` candidates, or all. */
  lemma {:induction false} BucketOfPasses(s: Candidates, order: seq<SubnetKey>, r: nat, k: SubnetKey)
    requires DistinctKeys(order) && (k in order <==> Bucket(s, k) != [])
    ensures Bucket(Passes(s, order, r), k) == Bucket(s, k)[..Min(r, |Bucket(s, k)|)]
  {
    if r > 0 {
      BucketOfPasses(s, order, r - 1, k);
      BucketOfPass(s, order, r - 1, k);
      BucketGrows(s, Passes(s, order, r - 1), Pass(s, order, r - 1), k, r - 1);
      OneMorePass(s, order, r - 1);
    }
  }

  lemma {:induction false} BucketOfPriorities(s: Candidates, k: SubnetKey)
    ensures Bucket(Priorities(s), k) == []
  {
    if s != [] {
      var n := |s| - 1;
      BucketOfPriorities(s[..n], k);
      if s[n].origin.Priority? {
        BucketOfConcat(Priorities(s[..n]), [s[n]], k);
        BucketOfOne(s[n], k);
      } else {
        assert Priorities(s) == Priorities(s[..n]);
      }
    }
  }

  lemma {:induction false} EveryPassTaken(s: Candidates, order: seq<SubnetKey>, k: SubnetKey)
    requires DistinctKeys(order) && (k in order <==> Bucket(s, k) != [])
    ensures Bucket(Passes(s, order, Longest(s, order)), k) == Bucket(s, k)
  {
    BucketOfPasses(s, order, Longest(s, order), k);
    if k in order {
      var i :| 0 <= i < |order| && order[i] == k;
      LongestBounds(s, order, i);
    }
  }

  /** Within a subnet the order of the round is kept, and nobody is lost. */
  lemma {:induction false} SpreadKeepsSubnetOrder(s: Candidates, k: SubnetKey)
    ensures Bucket(SpreadDiscovered(s), k) == Bucket(s, k)
    ensures Bucket(Spread(s), k) == Bucket(s, k)
  {
    OrderCovers(s);
    EveryPassTaken(s, Order(s), k);
    BucketOfPriorities(s, k);
    BucketOfConcat(Priorities(s), SpreadDiscovered(s), k);
  }
}
