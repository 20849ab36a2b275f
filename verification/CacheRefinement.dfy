/** Under an honest peer the cache IS the chain: after every update, reorgs included, the cached
    states of the subscribed coins are the chain's own.

    The one way this can fail is the cap. `untrack_coins` lowers it while the coin it untracks stays
    cached, so room for a coin still subscribed can run out; `Room` is the exact condition. */
module CacheRefinement {
  import opened Prelude
  import opened CoinCache
  import opened CacheInvariants
  import opened Chain

  function Watched(c: Cache, m: Coins): Coins
  {
    map id | id in m && IsSubscribed(c, m[id]) :: m[id]
  }

  /** The cache is sound, its peak is not behind the chain, and every cached coin, subscribed or not,
      is a coin of the chain created where the cache says. */
  predicate Grounded(c: Cache, chain: Blocks)
  {
    && chain != [] && ValidChain(chain) && Sound(c)
    && (c.peak.Some? ==> c.peak.value.height >= |chain| - 1)
    && forall id :: id in c.coins ==>
         id in StateOf(chain)
         && c.coins[id].coin == StateOf(chain)[id].coin
         && c.coins[id].created == StateOf(chain)[id].created
  }

  /** The refinement: what the cache holds of the subscribed coins is what the chain holds of them. */
  predicate Mirrors(c: Cache, chain: Blocks)
  {
    Grounded(c, chain) && Watched(c, c.coins) == Watched(c, StateOf(chain))
  }

  /** An honest update from chain `old` to chain `new`: the chains agree up to the fork, subscribed
      items are states of the new chain, and every subscribed coin whose new state is not its old
      state cut back to the fork is among them. Items nobody subscribed to are unconstrained. */
  predicate HonestUpdate(c: Cache, old_: Blocks, new_: Blocks, items: seq<CoinState>, fork: nat)
  {
    && fork < |old_| && fork < |new_| && old_[..fork + 1] == new_[..fork + 1]
    && ValidChain(old_) && ValidChain(new_)
    && (forall s :: s in items && IsSubscribed(c, s) ==>
         s.coin.id in StateOf(new_) && StateOf(new_)[s.coin.id] == s)
    && (forall id :: id in StateOf(new_) && IsSubscribed(c, StateOf(new_)[id]) ==>
         StateOf(new_)[id] in items
         || (id in StateOf(old_[..fork + 1]) && StateOf(old_[..fork + 1])[id] == StateOf(new_)[id]))
  }

  /** Whether the cache can take every coin it is offered. */
  predicate Room(c: Cache, states: seq<CoinState>)
  {
    Ids(states) <= c.coins.Keys
    || |c.coins| + |Ids(states) - c.coins.Keys| <= MaxCachedCoins(c)
  }

  lemma {:induction false} DisjointUnionCount(m: Coins, extra: set<Bytes32>)
    ensures |m.Keys + extra| == |m| + |extra - m.Keys|
  {
    KeysCount(m);
    assert m.Keys + extra == m.Keys + (extra - m.Keys);
  }

  lemma {:induction false} ProperSubsetIsSmaller<T>(a: set<T>, b: set<T>)
    requires a < b
    ensures |a| < |b|
  {
    assert b - a != {};
    var x :| x in b - a;
    SubsetIsNoLarger(a, b - {x});
  }

  lemma {:induction false} WholeNeedsRoom(c: Cache, states: seq<CoinState>)
    requires CacheAll(c, states).coins.Keys == c.coins.Keys + Ids(states)
    ensures Room(c, states)
  {
    var whole := c.coins.Keys + Ids(states);
    CacheAllBounds(c, states);
    DisjointUnionCount(c.coins, Ids(states));
    KeysCount(CacheAll(c, states).coins);
    if !(Ids(states) <= c.coins.Keys) {
      assert c.coins.Keys < whole;
      ProperSubsetIsSmaller(c.coins.Keys, whole);
    }
  }

  lemma {:induction false} RoomSuffices(c: Cache, states: seq<CoinState>)
    requires forall s :: s in states ==> !AbovePeak(c, s)
    requires Room(c, states)
    ensures CacheAll(c, states).coins.Keys == c.coins.Keys + Ids(states)
  {
    var after := CacheAll(c, states);
    var whole := c.coins.Keys + Ids(states);
    CacheAllBounds(c, states);
    if after.coins.Keys != whole {
      DisjointUnionCount(c.coins, Ids(states));
      KeysCount(after.coins);
      var id :| id in whole && id !in after.coins;
      CacheAllAt(c, states, id);
      AdmissibleIsMentioned(c, states, id);
      ProperSubsetIsSmaller(after.coins.Keys, whole);
    }
  }

  /** A batch of states at or below the peak is admitted whole exactly when there is room for it. */
  lemma {:induction false} AdmittedWholeIffRoom(c: Cache, states: seq<CoinState>)
    requires forall s :: s in states ==> !AbovePeak(c, s)
    ensures CacheAll(c, states).coins.Keys == c.coins.Keys + Ids(states) <==> Room(c, states)
  {
    if Room(c, states) {
      RoomSuffices(c, states);
    }
    if CacheAll(c, states).coins.Keys == c.coins.Keys + Ids(states) {
      WholeNeedsRoom(c, states);
    }
  }

  // ---------------------------------------------------------------------------
  // One update
  // ---------------------------------------------------------------------------

  lemma {:induction false} HonestItemsAreAdmissible(
      c: Cache, old_: Blocks, new_: Blocks, items: seq<CoinState>, fork: nat, hash: Bytes32)
    requires Grounded(c, old_)
    requires HonestUpdate(c, old_, new_, items, fork)
    ensures var settled := Settled(c, items, |new_| - 1, fork, hash);
      && settled.peak.Some? && settled.peak.value.height >= |new_| - 1
      && SubscribedItems(settled, items) == SubscribedItems(c, items)
      && (forall s :: s in SubscribedItems(c, items) ==> !AbovePeak(settled, s))
  {
    var settled := Settled(c, items, |new_| - 1, fork, hash);
    SameFilter(c, settled, items);
    SubscribedItemsAreReasserted(c, items);
    forall s | s in SubscribedItems(c, items)
      ensures !AbovePeak(settled, s)
    {
      StatesLieWithinTheChain(new_, s.coin.id);
    }
  }

  /** A coin the update mentions, if it is cached afterwards, has the new chain's state. */
  lemma {:induction false} MentionedCoinIsNew(
      c: Cache, old_: Blocks, new_: Blocks, items: seq<CoinState>, fork: nat, hash: Bytes32, id: Bytes32)
    requires Grounded(c, old_)
    requires HonestUpdate(c, old_, new_, items, fork)
    requires id in Reasserted(c, items)
    ensures var after := AfterUpdate(c, items, |new_| - 1, fork, hash);
      id in StateOf(new_) && (id in after.coins ==> after.coins[id] == StateOf(new_)[id])
  {
    var settled := Settled(c, items, |new_| - 1, fork, hash);
    HonestItemsAreAdmissible(c, old_, new_, items, fork, hash);
    SubscribedItemsAreReasserted(c, items);
    AdmissibleIsMentioned(settled, SubscribedItems(c, items), id);
    CacheAllAt(settled, SubscribedItems(c, items), id);
  }

  lemma {:induction false} PeakReachesTheNewTip(
      c: Cache, old_: Blocks, new_: Blocks, items: seq<CoinState>, fork: nat, hash: Bytes32)
    requires Grounded(c, old_)
    requires HonestUpdate(c, old_, new_, items, fork)
    ensures var after := AfterUpdate(c, items, |new_| - 1, fork, hash);
      after.peak.Some? && after.peak.value.height >= |new_| - 1 >= fork
  {
    var settled := Settled(c, items, |new_| - 1, fork, hash);
    CacheAllBounds(settled, SubscribedItems(settled, items));
  }

  lemma {:induction false} UnmentionedCoinStays(
      c: Cache, items: seq<CoinState>, height: nat, fork: nat, hash: Bytes32, id: Bytes32, after: Cache)
    requires Sound(c) && id !in Reasserted(c, items)
    requires after == AfterUpdate(c, items, height, fork, hash)
    requires after.peak.Some? && after.peak.value.height >= fork
    ensures id in after.coins <==> id in c.coins && !Above(c.coins[id].created, fork)
    ensures id in after.coins ==> after.coins[id] == Unspend(c.coins[id], fork)
  {
    UnmentionedCoinsFallBackToTheFork(c, items, height, fork, hash, id);
  }

  /** A survivor of the rollback is a coin of both chains, at one id. */
  lemma {:induction false} SurvivorIsShared(
      id: Bytes32, fork: nat, cached: Coins, after: Coins, oldStates: Coins, newStates: Coins, shared: Coins)
    requires id in cached ==>
      id in oldStates && cached[id].coin == oldStates[id].coin && cached[id].created == oldStates[id].created
    requires id in after <==> id in cached && !Above(cached[id].created, fork)
    requires id in after ==> after[id] == Unspend(cached[id], fork)
    requires id in shared <==> id in oldStates && !Above(oldStates[id].created, fork)
    requires id in shared ==>
      && shared[id] == Unspend(oldStates[id], fork)
      && id in newStates && newStates[id].coin == shared[id].coin && newStates[id].created == shared[id].created
    ensures id in after <==> id in cached && id in shared
    ensures id in after ==>
      && shared[id] == Unspend(oldStates[id], fork)
      && id in newStates && after[id].coin == newStates[id].coin && after[id].created == newStates[id].created
  {
  }

  /** A coin the update does not mention is cached afterwards exactly when it was cached and existed
      at the fork, and then it is still a coin of the chain. */
  lemma {:induction false} UnmentionedCoinIsOld(
      c: Cache, old_: Blocks, new_: Blocks, items: seq<CoinState>, fork: nat, hash: Bytes32, id: Bytes32)
    requires Grounded(c, old_)
    requires HonestUpdate(c, old_, new_, items, fork)
    requires id !in Reasserted(c, items)
    ensures var after := AfterUpdate(c, items, |new_| - 1, fork, hash);
      var shared := StateOf(old_[..fork + 1]);
      && (id in after.coins <==> id in c.coins && id in shared)
      && (id in after.coins ==>
           && after.coins[id] == Unspend(c.coins[id], fork)
           && shared[id] == Unspend(StateOf(old_)[id], fork)
           && id in StateOf(new_)
           && after.coins[id].coin == StateOf(new_)[id].coin
           && after.coins[id].created == StateOf(new_)[id].created)
  {
    var after := AfterUpdate(c, items, |new_| - 1, fork, hash);
    PeakReachesTheNewTip(c, old_, new_, items, fork, hash);
    UnmentionedCoinStays(c, items, |new_| - 1, fork, hash, id, after);
    SharedCoins(old_, new_, fork, id);
    SurvivorIsShared(
      id, fork, c.coins, after.coins, StateOf(old_), StateOf(new_), StateOf(old_[..fork + 1]));
  }

  lemma {:induction false} UpdateStaysGrounded(
      c: Cache, old_: Blocks, new_: Blocks, items: seq<CoinState>, fork: nat, hash: Bytes32)
    requires Grounded(c, old_)
    requires HonestUpdate(c, old_, new_, items, fork)
    ensures Grounded(AfterUpdate(c, items, |new_| - 1, fork, hash), new_)
  {
    var after := AfterUpdate(c, items, |new_| - 1, fork, hash);
    var settled := Settled(c, items, |new_| - 1, fork, hash);
    HonestItemsAreAdmissible(c, old_, new_, items, fork, hash);
    SettledIsSound(c, items, |new_| - 1, fork, hash);
    CacheAllIsSound(settled, SubscribedItems(c, items));
    CacheAllBounds(settled, SubscribedItems(c, items));
    forall id | id in after.coins
      ensures id in StateOf(new_)
        && after.coins[id].coin == StateOf(new_)[id].coin
        && after.coins[id].created == StateOf(new_)[id].created
    {
      if id in Reasserted(c, items) {
        MentionedCoinIsNew(c, old_, new_, items, fork, hash, id);
      } else {
        UnmentionedCoinIsOld(c, old_, new_, items, fork, hash, id);
      }
    }
  }

  /** Coin by coin: what is cached of the subscribed coins afterwards is right, and a subscribed coin
      of the new chain can be missing only if the update mentioned it. */
  lemma {:induction false} UpdateIsRightAt(
      c: Cache, old_: Blocks, new_: Blocks, items: seq<CoinState>, fork: nat, hash: Bytes32, id: Bytes32)
    requires Mirrors(c, old_)
    requires HonestUpdate(c, old_, new_, items, fork)
    ensures var after := AfterUpdate(c, items, |new_| - 1, fork, hash);
      && (id in Watched(c, after.coins) ==>
           id in Watched(c, StateOf(new_)) && after.coins[id] == StateOf(new_)[id])
      && (id in Watched(c, StateOf(new_)) && id !in Watched(c, after.coins) ==>
           id in Reasserted(c, items) && id !in after.coins)
  {
    var after := AfterUpdate(c, items, |new_| - 1, fork, hash);
    if id in Reasserted(c, items) {
      MentionedCoinIsNew(c, old_, new_, items, fork, hash, id);
    } else {
      UnmentionedCoinIsOld(c, old_, new_, items, fork, hash, id);
      var shared := StateOf(old_[..fork + 1]);
      if id in after.coins && IsSubscribed(c, after.coins[id]) {
        assert id in Watched(c, c.coins);
        StatesLieWithinTheChain(new_, id);
      }
      if id in Watched(c, StateOf(new_)) {
        StatesLieWithinTheChain(new_, id);
        TruncationIsRollback(old_, fork);
        assert id in shared && shared[id] == StateOf(new_)[id];
        assert id in Watched(c, StateOf(old_));
      }
    }
  }

  lemma {:induction false} UpdateIsRightButForTheMissing(
      c: Cache, old_: Blocks, new_: Blocks, items: seq<CoinState>, fork: nat, hash: Bytes32)
    requires Mirrors(c, old_)
    requires HonestUpdate(c, old_, new_, items, fork)
    ensures var after := AfterUpdate(c, items, |new_| - 1, fork, hash);
      Watched(c, after.coins) == Watched(c, StateOf(new_)) <==> Reasserted(c, items) <= after.coins.Keys
  {
    var after := AfterUpdate(c, items, |new_| - 1, fork, hash);
    forall id
      ensures id in Watched(c, after.coins) ==>
        id in Watched(c, StateOf(new_)) && after.coins[id] == StateOf(new_)[id]
      ensures id in Watched(c, StateOf(new_)) && id !in Watched(c, after.coins) ==>
        id in Reasserted(c, items) && id !in after.coins
    {
      UpdateIsRightAt(c, old_, new_, items, fork, hash, id);
    }
    forall id | id in Reasserted(c, items)
      ensures id in Watched(c, StateOf(new_))
    {
      var s :| s in items && IsSubscribed(c, s) && s.coin.id == id;
    }
    if Reasserted(c, items) <= after.coins.Keys {
      assert Watched(c, after.coins).Keys == Watched(c, StateOf(new_)).Keys;
    }
  }

  /** An honest update over a cache that mirrors the old chain leaves one that mirrors the new chain
      if and only if the cache had room for the coins the update introduced. */
  lemma {:induction false} UpdateMirrorsIffRoom(
      c: Cache, old_: Blocks, new_: Blocks, items: seq<CoinState>, fork: nat, hash: Bytes32)
    requires Mirrors(c, old_)
    requires HonestUpdate(c, old_, new_, items, fork)
    ensures Mirrors(AfterUpdate(c, items, |new_| - 1, fork, hash), new_)
      <==> Room(Settled(c, items, |new_| - 1, fork, hash), SubscribedItems(c, items))
  {
    var after := AfterUpdate(c, items, |new_| - 1, fork, hash);
    var settled := Settled(c, items, |new_| - 1, fork, hash);
    var admitted := SubscribedItems(c, items);
    UpdateStaysGrounded(c, old_, new_, items, fork, hash);
    UpdateIsRightButForTheMissing(c, old_, new_, items, fork, hash);
    HonestItemsAreAdmissible(c, old_, new_, items, fork, hash);
    SubscribedItemsAreReasserted(c, items);
    CacheAllBounds(settled, admitted);
    AdmittedWholeIffRoom(settled, admitted);
    SameSubscriptions(c, after, after.coins);
    SameSubscriptions(c, after, StateOf(new_));
  }

  lemma {:induction false} SameSubscriptions(c: Cache, d: Cache, m: Coins)
    requires c.subscribedCoins == d.subscribedCoins
    requires c.subscribedPuzzleHashes == d.subscribedPuzzleHashes
    ensures Watched(c, m) == Watched(d, m)
  {
  }
}
