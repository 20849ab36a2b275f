/** What every run of the coin cache keeps, whatever the peer sends, and exactly what one update
    does to each coin and to the peak. */
module CacheInvariants {
  import opened Prelude
  import opened CoinCache

  /** Every coin is filed under its own id and none was created above the peak. */
  predicate Sound(c: Cache)
  {
    && (forall id :: id in c.coins ==> c.coins[id].coin.id == id)
    && (forall id :: id in c.coins ==> !AbovePeak(c, c.coins[id]))
  }

  // ---------------------------------------------------------------------------
  // Admission
  // ---------------------------------------------------------------------------

  /** The last state in `states` about `id` that is not above the peak. */
  function LastAdmissible(c: Cache, states: seq<CoinState>, id: Bytes32): Option<CoinState>
  {
    if states == [] then None
    else
      var s := states[|states| - 1];
      if s.coin.id == id && !AbovePeak(c, s) then Some(s)
      else LastAdmissible(c, states[..|states| - 1], id)
  }

  function Ids(states: seq<CoinState>): set<Bytes32> { set s | s in states :: s.coin.id }

  lemma {:induction false} IdsOfOneMore(states: seq<CoinState>, s: CoinState)
    ensures Ids(states + [s]) == Ids(states) + {s.coin.id}
  {
  }

  lemma {:induction false} AdmissibleIsMentioned(c: Cache, states: seq<CoinState>, id: Bytes32)
    ensures var s := LastAdmissible(c, states, id);
      s.Some? ==> s.value in states && s.value.coin.id == id && !AbovePeak(c, s.value)
    ensures LastAdmissible(c, states, id).None? ==>
      forall s :: s in states && s.coin.id == id ==> AbovePeak(c, s)
  {
    if states != [] {
      AdmissibleIsMentioned(c, states[..|states| - 1], id);
      assert states == states[..|states| - 1] + [states[|states| - 1]];
    }
  }

  lemma {:induction false} CacheCoinBounds(c: Cache, s: CoinState)
    ensures var after := CacheCoin(c, s);
      && after == c.(coins := after.coins)
      && c.coins.Keys <= after.coins.Keys <= c.coins.Keys + {s.coin.id}
      && (after.coins.Keys == c.coins.Keys || |c.coins| < MaxCachedCoins(c))
      && |after.coins| <= |c.coins| + if after.coins.Keys == c.coins.Keys then 0 else 1
  {
    var after := CacheCoin(c, s);
    KeysCount(c.coins);
    KeysCount(after.coins);
    assert after.coins.Keys == c.coins.Keys || after.coins.Keys == c.coins.Keys + {s.coin.id};
  }

  /** Admission changes nothing but the coins, drops none, adds only coins it was offered, and never
      takes the map past the cap. */
  lemma {:induction false} CacheAllBounds(c: Cache, states: seq<CoinState>)
    ensures var after := CacheAll(c, states);
      && after == c.(coins := after.coins)
      && c.coins.Keys <= after.coins.Keys <= c.coins.Keys + Ids(states)
      && (|after.coins| <= MaxCachedCoins(c) || |after.coins| <= |c.coins|)
  {
    if states != [] {
      var n := |states| - 1;
      CacheAllBounds(c, states[..n]);
      CacheCoinBounds(CacheAll(c, states[..n]), states[n]);
      IdsOfOneMore(states[..n], states[n]);
      assert states == states[..n] + [states[n]];
    }
  }

  /** A coin offered with an admissible state holds the last such state, unless the cache is full. */
  lemma {:induction false} CacheAllAt(c: Cache, states: seq<CoinState>, id: Bytes32)
    ensures var after := CacheAll(c, states);
      var last := LastAdmissible(c, states, id);
      && (id in after.coins && last.Some? ==> after.coins[id] == last.value)
      && (id in after.coins && last.None? ==> id in c.coins && after.coins[id] == c.coins[id])
      && (id !in after.coins && last.Some? ==> |after.coins| >= MaxCachedCoins(c))
  {
    if states != [] {
      var n := |states| - 1;
      CacheAllAt(c, states[..n], id);
      CacheAllBounds(c, states[..n]);
      var before, after := CacheAll(c, states[..n]), CacheAll(c, states);
      assert before.coins.Keys <= after.coins.Keys;
      SubmapIsNoLarger(before.coins, after.coins);
    }
  }

  lemma {:induction false} CacheAllIsSound(c: Cache, states: seq<CoinState>)
    requires Sound(c)
    ensures Sound(CacheAll(c, states))
  {
    CacheAllBounds(c, states);
    var after := CacheAll(c, states);
    forall id | id in after.coins
      ensures after.coins[id].coin.id == id && !AbovePeak(after, after.coins[id])
    {
      CacheAllAt(c, states, id);
      AdmissibleIsMentioned(c, states, id);
    }
  }

  // ---------------------------------------------------------------------------
  // Every run
  // ---------------------------------------------------------------------------

  /** Every public mutation of the cache. */
  datatype Op =
    | SetPeak(height: nat, hash: Bytes32)
    | Seed(states: seq<CoinState>)
    | TrackCoins(ids: set<Bytes32>)
    | TrackPuzzleHashes(hashes: set<Bytes32>)
    | UntrackCoins(ids: set<Bytes32>)
    | Update(items: seq<CoinState>, height: nat, fork: nat, hash: Bytes32)

  function Step(c: Cache, op: Op): Cache
  {
    match op
    case SetPeak(height, hash) => UpdatePeak(c, height, hash, false)
    case Seed(states) => CacheAll(c, states)
    case TrackCoins(ids) => c.(subscribedCoins := c.subscribedCoins + ids)
    case TrackPuzzleHashes(hashes) => c.(subscribedPuzzleHashes := c.subscribedPuzzleHashes + hashes)
    case UntrackCoins(ids) => Untrack(c, ids)
    case Update(items, height, fork, hash) => AfterUpdate(c, items, height, fork, hash)
  }

  function Run(ops: seq<Op>): Cache
  {
    if ops == [] then EMPTY else Step(Run(ops[..|ops| - 1]), ops[|ops| - 1])
  }

  /** The largest cap the run has ever had. */
  function HighWater(ops: seq<Op>): nat
  {
    if ops == [] then MaxCachedCoins(EMPTY)
    else
      var before := HighWater(ops[..|ops| - 1]);
      var now := MaxCachedCoins(Run(ops));
      if before <= now then now else before
  }

  lemma {:induction false} SubmapIsNoLarger(small: Coins, large: Coins)
    requires small.Keys <= large.Keys
    ensures |small| <= |large|
  {
    KeysCount(small);
    KeysCount(large);
    SubsetIsNoLarger(small.Keys, large.Keys);
  }

  lemma {:induction false} KeysCount(m: Coins)
    ensures |m.Keys| == |m|
  {}

  lemma {:induction false} SettledIsSound(c: Cache, items: seq<CoinState>, height: nat, fork: nat, hash: Bytes32)
    requires Sound(c)
    ensures var s := Settled(c, items, height, fork, hash);
      Sound(s) && s.coins.Keys <= c.coins.Keys && |s.coins| <= |c.coins|
      && MaxCachedCoins(s) == MaxCachedCoins(c)
  {
    SubmapIsNoLarger(Settled(c, items, height, fork, hash).coins, c.coins);
  }

  lemma {:induction false} UpdateIsSound(c: Cache, items: seq<CoinState>, height: nat, fork: nat, hash: Bytes32)
    requires Sound(c)
    ensures var after := AfterUpdate(c, items, height, fork, hash);
      Sound(after) && MaxCachedCoins(after) == MaxCachedCoins(c)
      && (|after.coins| <= MaxCachedCoins(c) || |after.coins| <= |c.coins|)
  {
    SettledIsSound(c, items, height, fork, hash);
    var settled := Settled(c, items, height, fork, hash);
    CacheAllIsSound(settled, SubscribedItems(settled, items));
    CacheAllBounds(settled, SubscribedItems(settled, items));
  }

  /** Over every run, hostile input included: no cached coin was created above the peak (so a
      confirmation count `peak - created` never underflows), and the coins never outnumber the
      largest cap the run has had. */
  lemma {:induction false} EveryRunIsSound(ops: seq<Op>)
    ensures Sound(Run(ops))
    ensures |Run(ops).coins| <= HighWater(ops)
  {
    if ops != [] {
      var rest := ops[..|ops| - 1];
      EveryRunIsSound(rest);
      var before, after := Run(rest), Run(ops);
      match ops[|ops| - 1]
      case SetPeak(height, hash) => SubmapIsNoLarger(after.coins, before.coins);
      case Seed(states) =>
        CacheAllIsSound(before, states);
        CacheAllBounds(before, states);
      case TrackCoins(_) =>
      case TrackPuzzleHashes(_) =>
      case UntrackCoins(_) =>
      case Update(items, height, fork, hash) =>
        UpdateIsSound(before, items, height, fork, hash);
    }
  }

  // ---------------------------------------------------------------------------
  // The exact effect of one update
  // ---------------------------------------------------------------------------

  lemma {:induction false} SubscribedItemsAreReasserted(c: Cache, items: seq<CoinState>)
    ensures Ids(SubscribedItems(c, items)) == Reasserted(c, items)
    ensures forall s :: s in SubscribedItems(c, items) <==> s in items && IsSubscribed(c, s)
  {
    FilterMembers(items, s => IsSubscribed(c, s));
  }

  /** A coin no subscribed item mentions survives exactly when it existed at the fork and the new
      peak has reached it, and it survives as it stood at the fork. */
  lemma {:induction false} UnmentionedCoinsFallBackToTheFork(
      c: Cache, items: seq<CoinState>, height: nat, fork: nat, hash: Bytes32, id: Bytes32)
    requires Sound(c)
    requires id !in Reasserted(c, items)
    ensures var after := AfterUpdate(c, items, height, fork, hash);
      && (id in after.coins <==>
           id in c.coins && !Above(c.coins[id].created, fork) && !AbovePeak(after, c.coins[id]))
      && (id in after.coins ==>
           && after.coins[id] == Unspend(c.coins[id], fork)
           && !Above(after.coins[id].created, fork)
           && !Above(after.coins[id].spent, fork))
  {
    var settled := Settled(c, items, height, fork, hash);
    var admitted := SubscribedItems(settled, items);
    SubscribedItemsAreReasserted(settled, items);
    CacheAllBounds(settled, admitted);
    CacheAllAt(settled, admitted, id);
    AdmissibleIsMentioned(settled, admitted, id);
  }

  /** A coin that subscribed items mention holds the last of their states that the new peak admits;
      failing any, its old state if that survived. It is refused only when the cache is full. */
  lemma {:induction false} MentionedCoinsHoldTheLastItem(
      c: Cache, items: seq<CoinState>, height: nat, fork: nat, hash: Bytes32, id: Bytes32)
    requires Sound(c)
    requires id in Reasserted(c, items)
    ensures var after := AfterUpdate(c, items, height, fork, hash);
      var last := LastAdmissible(after, SubscribedItems(c, items), id);
      && (last.Some? && id in after.coins ==> after.coins[id] == last.value)
      && (last.Some? && id !in after.coins ==> |after.coins| >= MaxCachedCoins(c))
      && (last.None? ==>
           && (id in after.coins <==> id in c.coins && !AbovePeak(after, c.coins[id]))
           && (id in after.coins ==> after.coins[id] == c.coins[id]))
  {
    var settled := Settled(c, items, height, fork, hash);
    var after := AfterUpdate(c, items, height, fork, hash);
    SameFilter(c, settled, items);
    CacheAllBounds(settled, SubscribedItems(settled, items));
    CacheAllAt(settled, SubscribedItems(settled, items), id);
    SamePeakSameAdmissible(settled, after, SubscribedItems(c, items), id);
  }

  lemma {:induction false} SameFilter(c: Cache, d: Cache, items: seq<CoinState>)
    requires c.subscribedCoins == d.subscribedCoins
    requires c.subscribedPuzzleHashes == d.subscribedPuzzleHashes
    ensures SubscribedItems(c, items) == SubscribedItems(d, items)
  {
    if items != [] {
      SameFilter(c, d, items[..|items| - 1]);
    }
  }

  lemma {:induction false} SamePeakSameAdmissible(c: Cache, d: Cache, states: seq<CoinState>, id: Bytes32)
    requires c.peak == d.peak
    ensures LastAdmissible(c, states, id) == LastAdmissible(d, states, id)
  {
    if states != [] {
      SamePeakSameAdmissible(c, d, states[..|states| - 1], id);
    }
  }

  /** The peak falls only for a reorg that changed a coin the update did not re-assert, from a fork
      below the old peak, and never below that fork. */
  lemma {:induction false} PeakFallsOnlyForAGenuineReorg(
      c: Cache, items: seq<CoinState>, height: nat, fork: nat, hash: Bytes32)
    requires Sound(c)
    ensures var after := AfterUpdate(c, items, height, fork, hash);
      && after.peak.Some?
      && (c.peak.Some? && after.peak.value.height < c.peak.value.height ==>
           && after.peak.value == Peak(height, hash)
           && fork <= height
           && fork < c.peak.value.height
           && exists id :: id in c.coins && id !in Reasserted(c, items)
                && (id !in after.coins || after.coins[id] != c.coins[id]))
      && (c.peak.Some? && height > c.peak.value.height ==> after.peak.value == Peak(height, hash))
  {
    var settled := Settled(c, items, height, fork, hash);
    var after := AfterUpdate(c, items, height, fork, hash);
    CacheAllBounds(settled, SubscribedItems(settled, items));
    if c.peak.Some? && after.peak.value.height < c.peak.value.height {
      var id :| id in c.coins && id !in Reasserted(c, items)
        && (Above(c.coins[id].created, fork) || Above(c.coins[id].spent, fork));
      UnmentionedCoinsFallBackToTheFork(c, items, height, fork, hash, id);
      assert id !in after.coins || after.coins[id] != c.coins[id];
    }
  }

  /** Some cached coin that no subscribed item names was created or spent above the fork. */
  ghost predicate UndoesACoin(c: Cache, items: seq<CoinState>, fork: nat)
  {
    exists id :: id in c.coins
      && (forall s :: s in items && s.coin.id == id ==>
           s.coin.id !in c.subscribedCoins && s.coin.puzzleHash !in c.subscribedPuzzleHashes)
      && ((c.coins[id].created.Some? && c.coins[id].created.value > fork)
          || (c.coins[id].spent.Some? && c.coins[id].spent.value > fork))
  }

  /** An update below the peak lowers it if and only if it does not end below its own fork and undoes
      a cached coin. Otherwise the peak stands. */
  lemma {:induction false} ThePeakFallsIff(
      c: Cache, items: seq<CoinState>, height: nat, fork: nat, hash: Bytes32)
    requires c.peak.Some? && height < c.peak.value.height
    ensures AfterUpdate(c, items, height, fork, hash).peak
      == if fork <= height && UndoesACoin(c, items, fork) then Some(Peak(height, hash)) else c.peak
  {
    var settled := Settled(c, items, height, fork, hash);
    CacheAllBounds(settled, SubscribedItems(settled, items));
    if UndoesACoin(c, items, fork) {
      var id :| id in c.coins
        && (forall s :: s in items && s.coin.id == id ==>
             s.coin.id !in c.subscribedCoins && s.coin.puzzleHash !in c.subscribedPuzzleHashes)
        && ((c.coins[id].created.Some? && c.coins[id].created.value > fork)
            || (c.coins[id].spent.Some? && c.coins[id].spent.value > fork));
      assert id !in Reasserted(c, items);
    }
  }

  /** An update at or above the peak always moves it, whatever the rollback did. */
  lemma {:induction false} ThePeakRises(
      c: Cache, items: seq<CoinState>, height: nat, fork: nat, hash: Bytes32)
    requires c.peak.None? || height >= c.peak.value.height
    ensures AfterUpdate(c, items, height, fork, hash).peak == Some(Peak(height, hash))
  {
    var settled := Settled(c, items, height, fork, hash);
    CacheAllBounds(settled, SubscribedItems(settled, items));
  }

  /** An item that nobody subscribed to, by id or by puzzle hash, changes nothing. */
  lemma {:induction false} UnsolicitedItemsChangeNothing(
      c: Cache, items: seq<CoinState>, s: CoinState, height: nat, fork: nat, hash: Bytes32)
    requires s.coin.id !in c.subscribedCoins && s.coin.puzzleHash !in c.subscribedPuzzleHashes
    ensures AfterUpdate(c, items + [s], height, fork, hash) == AfterUpdate(c, items, height, fork, hash)
  {
    assert Reasserted(c, items + [s]) == Reasserted(c, items);
    var settled := Settled(c, items, height, fork, hash);
    FilterAppend(items, s, x => IsSubscribed(settled, x));
  }

  /** Bare peak announcements: the highest seen, with the hash of the last to reach it. */
  function Highest(peak: Option<Peak>, heard: seq<Peak>): Option<Peak>
  {
    if heard == [] then peak
    else
      var p := heard[|heard| - 1];
      var best := Highest(peak, heard[..|heard| - 1]);
      if best.None? || p.height >= best.value.height then Some(p) else best
  }

  function SetPeaks(c: Cache, heard: seq<Peak>): Cache
  {
    if heard == [] then c
    else
      var p := heard[|heard| - 1];
      UpdatePeak(SetPeaks(c, heard[..|heard| - 1]), p.height, p.hash, false)
  }

  lemma {:induction false} HighestIsTheMaximum(peak: Option<Peak>, heard: seq<Peak>)
    ensures Highest(peak, heard).Some? <==> peak.Some? || heard != []
    ensures Highest(peak, heard).Some? ==> Highest(peak, heard) == peak || Highest(peak, heard).value in heard
    ensures forall p :: p in heard || Some(p) == peak ==> p.height <= Highest(peak, heard).value.height
  {
    if heard != [] {
      var n := |heard| - 1;
      HighestIsTheMaximum(peak, heard[..n]);
      assert heard == heard[..n] + [heard[n]];
    }
  }

  /** `set_peak` alone computes a running maximum, and over a sound cache that has heard a peak it
      drops no coin. */
  lemma {:induction false} SetPeakIsARunningMaximum(c: Cache, heard: seq<Peak>)
    ensures SetPeaks(c, heard).peak == Highest(c.peak, heard)
    ensures Sound(c) && c.peak.Some? ==> SetPeaks(c, heard) == c.(peak := Highest(c.peak, heard))
  {
    if heard != [] {
      var n := |heard| - 1;
      SetPeakIsARunningMaximum(c, heard[..n]);
      if Sound(c) && c.peak.Some? {
        HighestIsTheMaximum(c.peak, heard);
        assert Sweep(c.coins, Highest(c.peak, heard).value.height) == c.coins;
      }
    }
  }
}
