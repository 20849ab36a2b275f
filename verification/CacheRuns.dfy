/** Whole runs of a light client against an honest peer: subscriptions, peak announcements, updates
    across reorgs and unsubscriptions, in any order. */
module CacheRuns {
  import opened Prelude
  import opened CoinCache
  import opened CacheInvariants
  import opened Chain
  import opened CacheRefinement

  datatype Event =
    | Updated(items: seq<CoinState>, fork: nat, hash: Bytes32, chain: Blocks)
    | HeardPeak(height: nat, hash: Bytes32)
    | Subscribed(ids: set<Bytes32>, hashes: set<Bytes32>, states: seq<CoinState>)
    | Unsubscribed(ids: set<Bytes32>)

  datatype World = World(cache: Cache, chain: Blocks)

  function Tracked(c: Cache, ids: set<Bytes32>, hashes: set<Bytes32>): Cache
  {
    c.(subscribedCoins := c.subscribedCoins + ids,
       subscribedPuzzleHashes := c.subscribedPuzzleHashes + hashes)
  }

  function After(w: World, e: Event): World
  {
    match e
    case Updated(items, fork, hash, chain) =>
      if chain == [] then w
      else World(AfterUpdate(w.cache, items, |chain| - 1, fork, hash), chain)
    case HeardPeak(height, hash) => w.(cache := UpdatePeak(w.cache, height, hash, false))
    case Subscribed(ids, hashes, states) =>
      w.(cache := CacheAll(Tracked(w.cache, ids, hashes), states))
    case Unsubscribed(ids) => w.(cache := Untrack(w.cache, ids))
  }

  /** What an honest peer may do to this world. A subscription is answered with the chain's states of
      the coins it asks for, all of those not yet followed (answers from an earlier chain are the subject
      of `LateAnswers`); the first peak announced is not behind the chain; later announcements are
      unconstrained. */
  predicate Honest(w: World, e: Event)
  {
    match e
    case Updated(items, fork, hash, chain) =>
      fork < |chain| && HonestUpdate(w.cache, w.chain, chain, items, fork)
    case HeardPeak(height, hash) => w.cache.peak.None? ==> height >= |w.chain| - 1
    case Subscribed(ids, hashes, states) =>
      var c := Tracked(w.cache, ids, hashes);
      && (forall s :: s in states ==>
           IsSubscribed(c, s) && s.coin.id in StateOf(w.chain) && StateOf(w.chain)[s.coin.id] == s)
      && (forall id :: id in StateOf(w.chain) && IsSubscribed(c, StateOf(w.chain)[id]) ==>
           IsSubscribed(w.cache, StateOf(w.chain)[id]) || StateOf(w.chain)[id] in states)
    case Unsubscribed(_) => true
  }

  predicate HasRoom(w: World, e: Event)
  {
    match e
    case Updated(items, fork, hash, chain) =>
      chain == [] || Room(Settled(w.cache, items, |chain| - 1, fork, hash), SubscribedItems(w.cache, items))
    case Subscribed(ids, hashes, states) => Room(Tracked(w.cache, ids, hashes), states)
    case HeardPeak(_, _) => true
    case Unsubscribed(_) => true
  }

  lemma {:induction false} AnswersAreAdmissible(
      w: World, ids: set<Bytes32>, hashes: set<Bytes32>, states: seq<CoinState>)
    requires Grounded(w.cache, w.chain)
    requires Honest(w, Subscribed(ids, hashes, states))
    ensures forall s :: s in states ==> !AbovePeak(Tracked(w.cache, ids, hashes), s)
  {
    forall s | s in states
      ensures !AbovePeak(Tracked(w.cache, ids, hashes), s)
    {
      StatesLieWithinTheChain(w.chain, s.coin.id);
    }
  }

  lemma {:induction false} SubscriptionIsRightAt(
      w: World, ids: set<Bytes32>, hashes: set<Bytes32>, states: seq<CoinState>, id: Bytes32)
    requires Mirrors(w.cache, w.chain)
    requires Honest(w, Subscribed(ids, hashes, states))
    ensures var after := After(w, Subscribed(ids, hashes, states)).cache;
      var full := StateOf(w.chain);
      && (id in after.coins ==>
           && id in full && after.coins[id].coin == full[id].coin
           && after.coins[id].created == full[id].created
           && (IsSubscribed(after, after.coins[id]) ==> after.coins[id] == full[id]))
      && (id in full && IsSubscribed(after, full[id]) && id !in after.coins ==> id in Ids(states))
      && (id in Ids(states) ==> id in full && IsSubscribed(after, full[id]))
  {
    var c := Tracked(w.cache, ids, hashes);
    var full := StateOf(w.chain);
    CacheAllBounds(c, states);
    CacheAllAt(c, states, id);
    AdmissibleIsMentioned(c, states, id);
    AnswersAreAdmissible(w, ids, hashes, states);
    if id in full && IsSubscribed(w.cache, full[id]) {
      assert id in Watched(w.cache, full);
      assert id in Watched(w.cache, w.cache.coins);
    }
    if id in full {
      StatesLieWithinTheChain(w.chain, id);
    }
  }

  lemma {:induction false} SubscriptionStaysGrounded(
      w: World, ids: set<Bytes32>, hashes: set<Bytes32>, states: seq<CoinState>)
    requires Mirrors(w.cache, w.chain)
    requires Honest(w, Subscribed(ids, hashes, states))
    ensures Grounded(After(w, Subscribed(ids, hashes, states)).cache, w.chain)
  {
    var c := Tracked(w.cache, ids, hashes);
    CacheAllIsSound(c, states);
    CacheAllBounds(c, states);
    var after := CacheAll(c, states);
    forall id | id in after.coins
      ensures id in StateOf(w.chain) && after.coins[id].coin == StateOf(w.chain)[id].coin
        && after.coins[id].created == StateOf(w.chain)[id].created
    {
      SubscriptionIsRightAt(w, ids, hashes, states, id);
    }
  }

  lemma {:induction false} SubscriptionIsRightButForTheMissing(
      w: World, ids: set<Bytes32>, hashes: set<Bytes32>, states: seq<CoinState>)
    requires Mirrors(w.cache, w.chain)
    requires Honest(w, Subscribed(ids, hashes, states))
    ensures var after := After(w, Subscribed(ids, hashes, states)).cache;
      Watched(after, after.coins) == Watched(after, StateOf(w.chain)) <==> Ids(states) <= after.coins.Keys
  {
    var after := After(w, Subscribed(ids, hashes, states)).cache;
    forall id
      ensures id in Watched(after, after.coins) ==>
        id in Watched(after, StateOf(w.chain)) && after.coins[id] == StateOf(w.chain)[id]
      ensures id in Watched(after, StateOf(w.chain)) && id !in Watched(after, after.coins) ==>
        id in Ids(states) && id !in after.coins
      ensures id in Ids(states) ==> id in Watched(after, StateOf(w.chain))
    {
      SubscriptionIsRightAt(w, ids, hashes, states, id);
    }
    if Ids(states) <= after.coins.Keys {
      assert Watched(after, after.coins).Keys == Watched(after, StateOf(w.chain)).Keys;
    }
  }

  lemma {:induction false} SubscriptionMirrorsIffRoom(
      w: World, ids: set<Bytes32>, hashes: set<Bytes32>, states: seq<CoinState>)
    requires Mirrors(w.cache, w.chain)
    requires Honest(w, Subscribed(ids, hashes, states))
    ensures Mirrors(After(w, Subscribed(ids, hashes, states)).cache, w.chain)
      <==> HasRoom(w, Subscribed(ids, hashes, states))
  {
    SubscriptionStaysGrounded(w, ids, hashes, states);
    SubscriptionIsRightButForTheMissing(w, ids, hashes, states);
    AnswersAreAdmissible(w, ids, hashes, states);
    CacheAllBounds(Tracked(w.cache, ids, hashes), states);
    AdmittedWholeIffRoom(Tracked(w.cache, ids, hashes), states);
  }

  lemma {:induction false} PeakStaysMirrored(w: World, height: nat, hash: Bytes32)
    requires Mirrors(w.cache, w.chain)
    requires Honest(w, HeardPeak(height, hash))
    ensures Mirrors(After(w, HeardPeak(height, hash)).cache, w.chain)
  {
    var c := w.cache;
    forall id | id in c.coins && (c.peak.None? || height >= c.peak.value.height)
      ensures !Above(c.coins[id].created, height)
    {
      StatesLieWithinTheChain(w.chain, id);
    }
    var after := After(w, HeardPeak(height, hash)).cache;
    assert after.coins == c.coins;
    SameSubscriptions(c, after, c.coins);
    SameSubscriptions(c, after, StateOf(w.chain));
  }

  lemma {:induction false} UnsubscriptionStaysMirrored(w: World, ids: set<Bytes32>)
    requires Mirrors(w.cache, w.chain)
    ensures Mirrors(After(w, Unsubscribed(ids)).cache, w.chain)
  {
    var after := Untrack(w.cache, ids);
    var full := StateOf(w.chain);
    forall id
      ensures id in Watched(after, w.cache.coins) <==> id in Watched(after, full)
      ensures id in Watched(after, full) ==> w.cache.coins[id] == full[id]
    {
      if id in w.cache.coins && IsSubscribed(w.cache, w.cache.coins[id]) {
        assert id in Watched(w.cache, w.cache.coins);
      }
      if id in full && IsSubscribed(w.cache, full[id]) {
        assert id in Watched(w.cache, full);
      }
    }
    assert Watched(after, w.cache.coins) == Watched(after, full);
  }

  lemma {:induction false} EventMirrorsIffRoom(w: World, e: Event)
    requires Mirrors(w.cache, w.chain)
    requires Honest(w, e)
    ensures Mirrors(After(w, e).cache, After(w, e).chain) <==> HasRoom(w, e)
  {
    match e
    case Updated(items, fork, hash, chain) =>
      UpdateMirrorsIffRoom(w.cache, w.chain, chain, items, fork, hash);
    case HeardPeak(height, hash) => PeakStaysMirrored(w, height, hash);
    case Subscribed(ids, hashes, states) => SubscriptionMirrorsIffRoom(w, ids, hashes, states);
    case Unsubscribed(ids) => UnsubscriptionStaysMirrored(w, ids);
  }

  // ---------------------------------------------------------------------------
  // Runs
  // ---------------------------------------------------------------------------

  function AfterAll(start: World, events: seq<Event>): World
  {
    if events == [] then start
    else After(AfterAll(start, events[..|events| - 1]), events[|events| - 1])
  }

  predicate HonestRun(start: World, events: seq<Event>)
  {
    events == [] ||
    (HonestRun(start, events[..|events| - 1])
     && Honest(AfterAll(start, events[..|events| - 1]), events[|events| - 1]))
  }

  predicate RoomThroughout(start: World, events: seq<Event>)
  {
    events == [] ||
    (RoomThroughout(start, events[..|events| - 1])
     && HasRoom(AfterAll(start, events[..|events| - 1]), events[|events| - 1]))
  }

  predicate MirrorsThroughout(start: World, events: seq<Event>)
  {
    var w := AfterAll(start, events);
    Mirrors(w.cache, w.chain)
    && (events == [] || MirrorsThroughout(start, events[..|events| - 1]))
  }

  /** In any honest run that starts with the cache empty, the cache mirrors the chain after every
      event if and only if every event found the room it needed. */
  lemma {:induction false} RunMirrorsIffRoom(chain: Blocks, events: seq<Event>)
    requires chain != [] && ValidChain(chain)
    requires HonestRun(World(EMPTY, chain), events)
    ensures MirrorsThroughout(World(EMPTY, chain), events)
      <==> RoomThroughout(World(EMPTY, chain), events)
  {
    var start := World(EMPTY, chain);
    if events == [] {
      assert Watched(EMPTY, EMPTY.coins) == Watched(EMPTY, StateOf(chain));
    } else {
      var before := events[..|events| - 1];
      RunMirrorsIffRoom(chain, before);
      if MirrorsThroughout(start, before) {
        EventMirrorsIffRoom(AfterAll(start, before), events[|events| - 1]);
      }
    }
  }

  // ---------------------------------------------------------------------------
  // Subscriptions that are never dropped
  // ---------------------------------------------------------------------------

  predicate NeverLetsGo(events: seq<Event>)
  {
    forall i :: 0 <= i < |events| ==> !events[i].Unsubscribed?
  }

  function CoinsAt(states: Coins, hash: Bytes32): set<Bytes32>
  {
    set id | id in states && states[id].coin.puzzleHash == hash
  }

  /** One place for each followed coin and ten thousand for each followed puzzle hash. */
  function Share(c: Cache): nat { |c.subscribedCoins| + 10_000 * |c.subscribedPuzzleHashes| }

  /** Every followed puzzle hash has at most ten thousand coins, spent ones included, on the chain. */
  predicate FewPerHash(w: World)
  {
    forall hash :: hash in w.cache.subscribedPuzzleHashes ==> |CoinsAt(StateOf(w.chain), hash)| <= 10_000
  }

  predicate FewPerHashThroughout(start: World, events: seq<Event>)
  {
    FewPerHash(AfterAll(start, events))
    && (events == [] || FewPerHashThroughout(start, events[..|events| - 1]))
  }

  lemma {:induction false} UnionIsNoLarger<T>(a: set<T>, b: set<T>)
    ensures |a + b| <= |a| + |b|
  {
    assert a + b == a + (b - a);
    SubsetIsNoLarger(b - a, b);
  }

  function PayingTo(states: Coins, hashes: set<Bytes32>): set<Bytes32>
  {
    set id | id in states && states[id].coin.puzzleHash in hashes
  }

  lemma {:induction false} CoinsAtHashesCount(states: Coins, hashes: set<Bytes32>)
    requires forall hash :: hash in hashes ==> |CoinsAt(states, hash)| <= 10_000
    ensures |PayingTo(states, hashes)| <= 10_000 * |hashes|
    decreases hashes
  {
    if hashes == {} {
      assert PayingTo(states, hashes) == {};
    } else {
      var hash :| hash in hashes;
      var rest := hashes - {hash};
      CoinsAtHashesCount(states, rest);
      assert |hashes| == |rest| + 1;
      assert PayingTo(states, hashes) == PayingTo(states, rest) + CoinsAt(states, hash);
      UnionIsNoLarger(PayingTo(states, rest), CoinsAt(states, hash));
    }
  }

  /** So the followed coins of the chain fit the cap. */
  lemma {:induction false} FollowedCoinsFit(c: Cache, states: Coins)
    requires forall hash :: hash in c.subscribedPuzzleHashes ==> |CoinsAt(states, hash)| <= 10_000
    requires Share(c) <= USIZE_MAX
    requires forall id :: id in states ==> states[id].coin.id == id
    ensures |Watched(c, states).Keys| <= MaxCachedCoins(c)
  {
    var paying := PayingTo(states, c.subscribedPuzzleHashes);
    CoinsAtHashesCount(states, c.subscribedPuzzleHashes);
    assert Watched(c, states).Keys <= c.subscribedCoins + paying;
    SubsetIsNoLarger(Watched(c, states).Keys, c.subscribedCoins + paying);
    UnionIsNoLarger(c.subscribedCoins, paying);
    assert MaxCachedCoins(c) == Share(c);
  }

  predicate HoldsOnlyFollowedCoins(c: Cache)
  {
    forall id :: id in c.coins ==> IsSubscribed(c, c.coins[id])
  }

  lemma {:induction false} RoomForTheChain(c: Cache, states: seq<CoinState>, full: Coins)
    requires c.coins.Keys + Ids(states) <= Watched(c, full).Keys
    requires |Watched(c, full).Keys| <= MaxCachedCoins(c)
    ensures Room(c, states)
  {
    SubsetIsNoLarger(c.coins.Keys + Ids(states), Watched(c, full).Keys);
    DisjointUnionCount(c.coins, Ids(states));
  }

  lemma {:induction false} AdmissionHoldsOnlyFollowed(c: Cache, states: seq<CoinState>)
    requires HoldsOnlyFollowedCoins(c)
    requires forall s :: s in states ==> IsSubscribed(c, s)
    ensures HoldsOnlyFollowedCoins(CacheAll(c, states))
  {
    CacheAllBounds(c, states);
    var after := CacheAll(c, states);
    forall id | id in after.coins
      ensures IsSubscribed(after, after.coins[id])
    {
      CacheAllAt(c, states, id);
      AdmissibleIsMentioned(c, states, id);
    }
  }

  /** Cached coins that are followed and on the chain are followed coins of the chain. */
  lemma {:induction false} GroundedAndFollowed(c: Cache, full: Coins)
    requires HoldsOnlyFollowedCoins(c)
    requires forall id :: id in c.coins ==> id in full && c.coins[id].coin == full[id].coin
    ensures c.coins.Keys <= Watched(c, full).Keys
  {
    forall id | id in c.coins
      ensures id in Watched(c, full)
    {
      assert c.coins[id].coin == full[id].coin;
    }
  }

  lemma {:induction false} UpdatesHoldOnlyFollowed(
      c: Cache, items: seq<CoinState>, height: nat, fork: nat, hash: Bytes32)
    requires HoldsOnlyFollowedCoins(c)
    ensures HoldsOnlyFollowedCoins(AfterUpdate(c, items, height, fork, hash))
  {
    var settled := Settled(c, items, height, fork, hash);
    SubscribedItemsAreReasserted(settled, items);
    AdmissionHoldsOnlyFollowed(settled, SubscribedItems(settled, items));
  }

  lemma {:induction false} ItemsAreFollowed(
      c: Cache, old_: Blocks, new_: Blocks, items: seq<CoinState>, fork: nat)
    requires HonestUpdate(c, old_, new_, items, fork)
    ensures Ids(SubscribedItems(c, items)) <= Watched(c, StateOf(new_)).Keys
  {
    SubscribedItemsAreReasserted(c, items);
  }

  lemma {:induction false} SurvivorsAreFollowed(
      c: Cache, old_: Blocks, new_: Blocks, items: seq<CoinState>, fork: nat, hash: Bytes32)
    requires Grounded(c, old_) && HonestUpdate(c, old_, new_, items, fork) && HoldsOnlyFollowedCoins(c)
    ensures Settled(c, items, |new_| - 1, fork, hash).coins.Keys <= Watched(c, StateOf(new_)).Keys
  {
    var settled := Settled(c, items, |new_| - 1, fork, hash);
    var after := AfterUpdate(c, items, |new_| - 1, fork, hash);
    UpdatesHoldOnlyFollowed(c, items, |new_| - 1, fork, hash);
    UpdateStaysGrounded(c, old_, new_, items, fork, hash);
    CacheAllBounds(settled, SubscribedItems(settled, items));
    GroundedAndFollowed(after, StateOf(new_));
    SameSubscriptions(c, after, StateOf(new_));
  }

  lemma {:induction false} UpdatesFit(
      c: Cache, old_: Blocks, new_: Blocks, items: seq<CoinState>, fork: nat, hash: Bytes32)
    requires Grounded(c, old_) && HonestUpdate(c, old_, new_, items, fork) && HoldsOnlyFollowedCoins(c)
    requires |Watched(c, StateOf(new_)).Keys| <= MaxCachedCoins(c)
    ensures Room(Settled(c, items, |new_| - 1, fork, hash), SubscribedItems(c, items))
  {
    var settled := Settled(c, items, |new_| - 1, fork, hash);
    SurvivorsAreFollowed(c, old_, new_, items, fork, hash);
    ItemsAreFollowed(c, old_, new_, items, fork);
    SameSubscriptions(c, settled, StateOf(new_));
    RoomForTheChain(settled, SubscribedItems(c, items), StateOf(new_));
  }

  lemma {:induction false} SubscriptionsFit(
      w: World, ids: set<Bytes32>, hashes: set<Bytes32>, states: seq<CoinState>)
    requires Grounded(w.cache, w.chain) && Honest(w, Subscribed(ids, hashes, states))
    requires HoldsOnlyFollowedCoins(w.cache)
    ensures var c := Tracked(w.cache, ids, hashes);
      && HoldsOnlyFollowedCoins(CacheAll(c, states))
      && (|Watched(c, StateOf(w.chain)).Keys| <= MaxCachedCoins(c) ==> Room(c, states))
  {
    var c := Tracked(w.cache, ids, hashes);
    AdmissionHoldsOnlyFollowed(c, states);
    AnswersFit(c, states, StateOf(w.chain));
  }

  lemma {:induction false} AnswersFit(c: Cache, states: seq<CoinState>, full: Coins)
    requires HoldsOnlyFollowedCoins(c)
    requires forall id :: id in c.coins ==> id in full && c.coins[id].coin == full[id].coin
    requires forall s :: s in states ==> IsSubscribed(c, s) && s.coin.id in full && full[s.coin.id] == s
    ensures |Watched(c, full).Keys| <= MaxCachedCoins(c) ==> Room(c, states)
  {
    GroundedAndFollowed(c, full);
    assert Ids(states) <= Watched(c, full).Keys;
    if |Watched(c, full).Keys| <= MaxCachedCoins(c) {
      RoomForTheChain(c, states, full);
    }
  }

  lemma {:induction false} NeverLettingGoKeepsRoom(w: World, e: Event, after: World)
    requires Grounded(w.cache, w.chain) && HoldsOnlyFollowedCoins(w.cache)
    requires Honest(w, e) && after == After(w, e) && !e.Unsubscribed?
    requires FewPerHash(after)
    requires Share(w.cache) <= USIZE_MAX && Share(after.cache) <= USIZE_MAX
    ensures HasRoom(w, e)
    ensures HoldsOnlyFollowedCoins(after.cache)
  {
    OneEventSubscribes(w, e);
    match e
    case Updated(items, fork, hash, chain) => FollowedUpdatesFit(w, items, fork, hash, chain);
    case HeardPeak(height, hash) =>
    case Subscribed(ids, hashes, states) => FollowedAnswersFit(w, ids, hashes, states);
  }

  lemma {:induction false} FollowedUpdatesFit(
      w: World, items: seq<CoinState>, fork: nat, hash: Bytes32, chain: Blocks)
    requires Grounded(w.cache, w.chain) && HoldsOnlyFollowedCoins(w.cache)
    requires fork < |chain| && HonestUpdate(w.cache, w.chain, chain, items, fork)
    requires FewPerHash(World(w.cache, chain)) && Share(w.cache) <= USIZE_MAX
    ensures HasRoom(w, Updated(items, fork, hash, chain))
    ensures HoldsOnlyFollowedCoins(AfterUpdate(w.cache, items, |chain| - 1, fork, hash))
  {
    ChainIsFiledById(chain);
    FollowedCoinsFit(w.cache, StateOf(chain));
    UpdatesHoldOnlyFollowed(w.cache, items, |chain| - 1, fork, hash);
    UpdatesFit(w.cache, w.chain, chain, items, fork, hash);
  }

  lemma {:induction false} FollowedAnswersFit(
      w: World, ids: set<Bytes32>, hashes: set<Bytes32>, states: seq<CoinState>)
    requires Grounded(w.cache, w.chain) && HoldsOnlyFollowedCoins(w.cache)
    requires Honest(w, Subscribed(ids, hashes, states))
    requires FewPerHash(World(Tracked(w.cache, ids, hashes), w.chain))
    requires Share(Tracked(w.cache, ids, hashes)) <= USIZE_MAX
    ensures HasRoom(w, Subscribed(ids, hashes, states))
    ensures HoldsOnlyFollowedCoins(CacheAll(Tracked(w.cache, ids, hashes), states))
  {
    ChainIsFiledById(w.chain);
    FollowedCoinsFit(Tracked(w.cache, ids, hashes), StateOf(w.chain));
    SubscriptionsFit(w, ids, hashes, states);
  }

  lemma {:induction false} ChainIsFiledById(chain: Blocks)
    requires ValidChain(chain)
    ensures forall id :: id in StateOf(chain) ==> StateOf(chain)[id].coin.id == id
  {
    forall id | id in StateOf(chain)
      ensures StateOf(chain)[id].coin.id == id
    {
      StatesLieWithinTheChain(chain, id);
    }
  }

  lemma {:induction false} RoomMirrors(chain: Blocks, events: seq<Event>, w: World)
    requires chain != [] && ValidChain(chain)
    requires HonestRun(World(EMPTY, chain), events) && RoomThroughout(World(EMPTY, chain), events)
    requires w == AfterAll(World(EMPTY, chain), events)
    ensures Mirrors(w.cache, w.chain) && Grounded(w.cache, w.chain)
  {
    RunMirrorsIffRoom(chain, events);
  }

  lemma {:induction false} MirroringFollowed(c: Cache, chain: Blocks)
    requires Mirrors(c, chain) && HoldsOnlyFollowedCoins(c)
    ensures c.coins == map id | id in StateOf(chain)
      && (id in c.subscribedCoins || StateOf(chain)[id].coin.puzzleHash in c.subscribedPuzzleHashes)
      :: StateOf(chain)[id]
  {
    ChainIsFiledById(chain);
    assert Watched(c, c.coins) == c.coins;
  }

  lemma {:induction false} FollowersHaveRoomOnceMore(
      chain: Blocks, events: seq<Event>, e: Event, before: World, after: World)
    requires chain != [] && ValidChain(chain)
    requires HonestRun(World(EMPTY, chain), events) && RoomThroughout(World(EMPTY, chain), events)
    requires before == AfterAll(World(EMPTY, chain), events) && HoldsOnlyFollowedCoins(before.cache)
    requires Honest(before, e) && after == After(before, e) && !e.Unsubscribed? && FewPerHash(after)
    requires Share(before.cache) <= USIZE_MAX && Share(after.cache) <= USIZE_MAX
    ensures HasRoom(before, e) && HoldsOnlyFollowedCoins(after.cache)
  {
    RoomMirrors(chain, events, before);
    NeverLettingGoKeepsRoom(before, e, after);
  }

  /** What the subscriptions of a run leave followed. */
  function FollowedIds(events: seq<Event>): set<Bytes32>
  {
    if events == [] then {}
    else
      var before, e := FollowedIds(events[..|events| - 1]), events[|events| - 1];
      if e.Subscribed? then before + e.ids else if e.Unsubscribed? then before - e.ids else before
  }

  function FollowedHashes(events: seq<Event>): set<Bytes32>
  {
    if events == [] then {}
    else
      var before, e := FollowedHashes(events[..|events| - 1]), events[|events| - 1];
      if e.Subscribed? then before + e.hashes else before
  }

  lemma {:induction false} OneEventSubscribes(w: World, e: Event)
    ensures After(w, e).cache.subscribedCoins == (match e
      case Subscribed(ids, _, _) => w.cache.subscribedCoins + ids
      case Unsubscribed(ids) => w.cache.subscribedCoins - ids
      case _ => w.cache.subscribedCoins)
    ensures After(w, e).cache.subscribedPuzzleHashes == (match e
      case Subscribed(_, hashes, _) => w.cache.subscribedPuzzleHashes + hashes
      case _ => w.cache.subscribedPuzzleHashes)
  {
    match e
    case Updated(items, fork, hash, chain) =>
      if chain != [] {
        var settled := Settled(w.cache, items, |chain| - 1, fork, hash);
        CacheAllBounds(settled, SubscribedItems(settled, items));
      }
    case Subscribed(ids, hashes, states) => CacheAllBounds(Tracked(w.cache, ids, hashes), states);
    case _ =>
  }

  lemma {:induction false} SubscriptionsGrow(w: World, e: Event)
    requires !e.Unsubscribed?
    ensures w.cache.subscribedCoins <= After(w, e).cache.subscribedCoins
    ensures w.cache.subscribedPuzzleHashes <= After(w, e).cache.subscribedPuzzleHashes
  {
    OneEventSubscribes(w, e);
  }

  lemma {:induction false} ShareGrows(w: World, e: Event, after: World)
    requires after == After(w, e) && !e.Unsubscribed?
    ensures Share(w.cache) <= Share(after.cache)
  {
    SubscriptionsGrow(w, e);
    SubsetIsNoLarger(w.cache.subscribedCoins, after.cache.subscribedCoins);
    SubsetIsNoLarger(w.cache.subscribedPuzzleHashes, after.cache.subscribedPuzzleHashes);
  }

  /** Nothing but a subscription or its end changes what a client follows. */
  lemma {:induction false} WhatIsFollowed(chain: Blocks, events: seq<Event>)
    ensures var c := AfterAll(World(EMPTY, chain), events).cache;
      c.subscribedCoins == FollowedIds(events) && c.subscribedPuzzleHashes == FollowedHashes(events)
  {
    if events != [] {
      var n := |events| - 1;
      WhatIsFollowed(chain, events[..n]);
      OneEventSubscribes(AfterAll(World(EMPTY, chain), events[..n]), events[n]);
    }
  }

  /** A client that never lets go, and no followed hash of which outgrows its share of the cap, always has
      room. */
  lemma {:induction false} FollowersAlwaysHaveRoom(chain: Blocks, events: seq<Event>)
    requires chain != [] && ValidChain(chain)
    requires HonestRun(World(EMPTY, chain), events) && NeverLetsGo(events)
    requires FewPerHashThroughout(World(EMPTY, chain), events)
    requires Share(AfterAll(World(EMPTY, chain), events).cache) <= USIZE_MAX
    ensures RoomThroughout(World(EMPTY, chain), events)
    ensures HoldsOnlyFollowedCoins(AfterAll(World(EMPTY, chain), events).cache)
  {
    var start := World(EMPTY, chain);
    if events != [] {
      var n := |events| - 1;
      var before, after := AfterAll(start, events[..n]), AfterAll(start, events);
      ShareGrows(before, events[n], after);
      FollowersAlwaysHaveRoom(chain, events[..n]);
      FollowersHaveRoomOnceMore(chain, events[..n], events[n], before, after);
    }
  }

  /** Such a client holds, after any honest run, exactly the chain's states of the coins it follows, by id or
      by puzzle hash: nothing missing, nothing stale, nothing else. */
  lemma {:induction false} CacheRefinesTheChain(chain: Blocks, events: seq<Event>)
    requires chain != [] && ValidChain(chain)
    requires HonestRun(World(EMPTY, chain), events) && NeverLetsGo(events)
    requires FewPerHashThroughout(World(EMPTY, chain), events)
    requires Share(AfterAll(World(EMPTY, chain), events).cache) <= USIZE_MAX
    ensures var w := AfterAll(World(EMPTY, chain), events);
      var full := StateOf(w.chain);
      w.cache.coins == map id | id in full
        && (id in FollowedIds(events) || full[id].coin.puzzleHash in FollowedHashes(events)) :: full[id]
  {
    WhatIsFollowed(chain, events);
    var w := AfterAll(World(EMPTY, chain), events);
    FollowersAlwaysHaveRoom(chain, events);
    RoomMirrors(chain, events, w);
    MirroringFollowed(w.cache, w.chain);
  }

  /** Without puzzle hashes the condition on them is empty. */
  lemma {:induction false} FollowingCoinsAlwaysHasRoom(chain: Blocks, events: seq<Event>)
    requires chain != [] && ValidChain(chain)
    requires HonestRun(World(EMPTY, chain), events) && NeverLetsGo(events)
    requires AfterAll(World(EMPTY, chain), events).cache.subscribedPuzzleHashes == {}
    requires |AfterAll(World(EMPTY, chain), events).cache.subscribedCoins| <= USIZE_MAX
    ensures RoomThroughout(World(EMPTY, chain), events)
  {
    NoHashesThroughout(World(EMPTY, chain), events);
    FollowersAlwaysHaveRoom(chain, events);
  }

  lemma {:induction false} NoHashesThroughout(start: World, events: seq<Event>)
    requires NeverLetsGo(events) && AfterAll(start, events).cache.subscribedPuzzleHashes == {}
    ensures FewPerHashThroughout(start, events)
  {
    if events != [] {
      var n := |events| - 1;
      SubscriptionsGrow(AfterAll(start, events[..n]), events[n]);
      NoHashesThroughout(start, events[..n]);
    }
  }

  // ---------------------------------------------------------------------------
  // The drive loop
  // ---------------------------------------------------------------------------

  function SpentIds(items: seq<CoinState>): set<Bytes32>
  {
    set s | s in items && s.spent.Some? :: s.coin.id
  }

  lemma {:induction false} SpentIdsOfOneMore(items: seq<CoinState>, i: nat)
    requires i < |items|
    ensures SpentIds(items[..i + 1])
      == SpentIds(items[..i]) + if items[i].spent.Some? then {items[i].coin.id} else {}
  {
    assert items[..i + 1] == items[..i] + [items[i]];
  }

  /** The drive loop applies an update and then stops tracking every coin the update says is spent. */
  method ApplyCoinStates(
      cache: CoinStateCache, items: seq<CoinState>, height: nat, fork: nat, hash: Bytes32)
    modifies cache
    ensures cache.View()
      == Untrack(AfterUpdate(old(cache.View()), items, height, fork, hash), SpentIds(items))
  {
    var spent: seq<Bytes32> := [];
    for i := 0 to |items|
      invariant cache.View() == old(cache.View())
      invariant forall id :: id in spent <==> id in SpentIds(items[..i])
    {
      SpentIdsOfOneMore(items, i);
      if items[i].spent.Some? {
        spent := spent + [items[i].coin.id];
      }
    }
    assert items[..|items|] == items;
    cache.ApplyUpdate(items, height, fork, hash);
    cache.UntrackCoins(spent);
    assert (set id | id in spent) == SpentIds(items);
  }

  // Two coins are followed. The first is spent by the second block and the drive loop untracks it;
  // the third block creates the second coin.

  const FIRST_COIN := Coin(1, 0)
  const SECOND_COIN := Coin(2, 0)
  const FIRST_UNSPENT := CoinState(FIRST_COIN, Some(0), None)
  const FIRST_SPENT := CoinState(FIRST_COIN, Some(0), Some(1))
  const SECOND_BORN := CoinState(SECOND_COIN, Some(2), None)
  const GENESIS: Blocks := [Block(map[1 := FIRST_COIN], {})]
  const SPENDING: Blocks := GENESIS + [Block(map[], {1})]
  const CREATING: Blocks := SPENDING + [Block(map[2 := SECOND_COIN], {})]

  const FOLLOWED: seq<Event> := [Subscribed({1, 2}, {}, [FIRST_UNSPENT])]
  const SPENT: seq<Event> := FOLLOWED + [Updated([FIRST_SPENT], 0, 7, SPENDING)]
  const LET_GO: seq<Event> := SPENT + [Unsubscribed({1})]
  const STARVING_RUN: seq<Event> := LET_GO + [Updated([SECOND_BORN], 1, 8, CREATING)]

  lemma {:induction false} OneMoreBlock(chain: Blocks, block: Block)
    ensures StateOf(chain + [block]) == Extend(StateOf(chain), block, |chain|)
    ensures ValidChain(chain + [block]) <==> ValidChain(chain) && ValidBlock(StateOf(chain), block)
  {
    assert (chain + [block])[..|chain|] == chain;
  }

  lemma {:induction false} OneMoreEvent(start: World, events: seq<Event>, e: Event)
    ensures AfterAll(start, events + [e]) == After(AfterAll(start, events), e)
    ensures HonestRun(start, events + [e]) <==>
      HonestRun(start, events) && Honest(AfterAll(start, events), e)
  {
    assert (events + [e])[..|events|] == events;
  }

  lemma {:induction false} OneItem(c: Cache, s: CoinState)
    requires IsSubscribed(c, s)
    ensures CacheAll(c, [s]) == CacheCoin(c, s)
    ensures SubscribedItems(c, [s]) == [s]
    ensures Reasserted(c, [s]) == {s.coin.id}
  {
    assert [s][..0] == [];
    assert SubscribedItems(c, [s]) == Filter([], x => IsSubscribed(c, x)) + [s];
  }

  lemma {:induction false} TheThreeChains()
    ensures ValidChain(GENESIS) && StateOf(GENESIS) == map[1 := FIRST_UNSPENT]
    ensures ValidChain(SPENDING) && StateOf(SPENDING) == map[1 := FIRST_SPENT]
    ensures ValidChain(CREATING) && StateOf(CREATING) == map[1 := FIRST_SPENT, 2 := SECOND_BORN]
  {
    OneMoreBlock([], GENESIS[0]);
    assert [] + [GENESIS[0]] == GENESIS;
    OneMoreBlock(GENESIS, Block(map[], {1}));
    OneMoreBlock(SPENDING, Block(map[2 := SECOND_COIN], {}));
  }

  lemma {:induction false} FollowingIsHonest()
    ensures Honest(World(EMPTY, GENESIS), FOLLOWED[0])
  {
    TheThreeChains();
  }

  lemma {:induction false} FollowingIsCached()
    ensures After(World(EMPTY, GENESIS), FOLLOWED[0])
      == World(Cache(map[1 := FIRST_UNSPENT], {1, 2}, {}, None), GENESIS)
  {
    var tracked := Tracked(EMPTY, {1, 2}, {});
    assert tracked == Cache(map[], {1, 2}, {}, None);
    OneItem(tracked, FIRST_UNSPENT);
  }

  lemma {:induction false} TheFirstCoinIsFollowed()
    ensures HonestRun(World(EMPTY, GENESIS), FOLLOWED)
    ensures AfterAll(World(EMPTY, GENESIS), FOLLOWED)
      == World(Cache(map[1 := FIRST_UNSPENT], {1, 2}, {}, None), GENESIS)
  {
    FollowingIsHonest();
    FollowingIsCached();
    OneMoreEvent(World(EMPTY, GENESIS), [], FOLLOWED[0]);
    assert [] + [FOLLOWED[0]] == FOLLOWED;
  }

  const BEFORE_SPEND := Cache(map[1 := FIRST_UNSPENT], {1, 2}, {}, None)
  const AFTER_SPEND := Cache(map[1 := FIRST_SPENT], {1, 2}, {}, Some(Peak(1, 7)))
  const UNTRACKED := Cache(map[1 := FIRST_SPENT], {2}, {}, Some(Peak(1, 7)))

  lemma {:induction false} SpendingIsHonest()
    ensures HonestUpdate(BEFORE_SPEND, GENESIS, SPENDING, [FIRST_SPENT], 0)
  {
    TheThreeChains();
    assert SPENDING[..1] == GENESIS[..1];
  }

  lemma {:induction false} SpendingIsCached()
    ensures AfterUpdate(BEFORE_SPEND, [FIRST_SPENT], 1, 0, 7) == AFTER_SPEND
  {
    OneItem(BEFORE_SPEND, FIRST_SPENT);
    var settled := Settled(BEFORE_SPEND, [FIRST_SPENT], 1, 0, 7);
    assert settled == BEFORE_SPEND.(peak := Some(Peak(1, 7)));
    OneItem(settled, FIRST_SPENT);
  }

  lemma {:induction false} CreationIsHonest()
    ensures HonestUpdate(UNTRACKED, SPENDING, CREATING, [SECOND_BORN], 1)
  {
    TheThreeChains();
    assert CREATING[..2] == SPENDING[..2] == SPENDING;
  }

  lemma {:induction false} CreationIsRefused()
    ensures AfterUpdate(UNTRACKED, [SECOND_BORN], 2, 1, 8) == UNTRACKED.(peak := Some(Peak(2, 8)))
  {
    OneItem(UNTRACKED, SECOND_BORN);
    var settled := Settled(UNTRACKED, [SECOND_BORN], 2, 1, 8);
    assert settled == UNTRACKED.(peak := Some(Peak(2, 8)));
    OneItem(settled, SECOND_BORN);
  }

  lemma {:induction false} TheFirstCoinIsSpent()
    ensures HonestRun(World(EMPTY, GENESIS), SPENT)
    ensures AfterAll(World(EMPTY, GENESIS), SPENT) == World(AFTER_SPEND, SPENDING)
  {
    TheFirstCoinIsFollowed();
    SpendingIsHonest();
    SpendingIsCached();
    OneMoreEvent(World(EMPTY, GENESIS), FOLLOWED, Updated([FIRST_SPENT], 0, 7, SPENDING));
  }

  lemma {:induction false} TheFirstCoinIsLetGo()
    ensures HonestRun(World(EMPTY, GENESIS), LET_GO)
    ensures AfterAll(World(EMPTY, GENESIS), LET_GO) == World(UNTRACKED, SPENDING)
  {
    TheFirstCoinIsSpent();
    OneMoreEvent(World(EMPTY, GENESIS), SPENT, Unsubscribed({1}));
    assert Untrack(AFTER_SPEND, {1}) == UNTRACKED;
  }

  lemma {:induction false} TheSecondCoinIsRefused()
    ensures HonestRun(World(EMPTY, GENESIS), STARVING_RUN)
    ensures AfterAll(World(EMPTY, GENESIS), STARVING_RUN)
      == World(UNTRACKED.(peak := Some(Peak(2, 8))), CREATING)
  {
    TheFirstCoinIsLetGo();
    CreationIsHonest();
    CreationIsRefused();
    OneMoreEvent(World(EMPTY, GENESIS), LET_GO, Updated([SECOND_BORN], 1, 8, CREATING));
  }

  lemma {:induction false} TheRunFollowsTheDriveLoop()
    ensures STARVING_RUN[1] == Updated([FIRST_SPENT], 0, 7, SPENDING)
    ensures STARVING_RUN[2] == Unsubscribed(SpentIds([FIRST_SPENT]))
  {
    assert STARVING_RUN[1] == SPENT[1] && STARVING_RUN[2] == LET_GO[2];
    assert SpentIds([FIRST_SPENT]) == {1};
  }

  /** Untracking a spent coin lowers the cap while the coin stays cached, so the drive loop can leave
      no room for a coin the client still follows: honest throughout, and yet the cache ends without
      a followed coin that the chain holds. */
  lemma {:induction false} DriveLoopCanStarveAFollowedCoin()
    ensures HonestRun(World(EMPTY, GENESIS), STARVING_RUN)
    ensures STARVING_RUN[1] == Updated([FIRST_SPENT], 0, 7, SPENDING)
    ensures STARVING_RUN[2] == Unsubscribed(SpentIds([FIRST_SPENT]))
    ensures var w := AfterAll(World(EMPTY, GENESIS), STARVING_RUN);
      2 in w.cache.subscribedCoins && 2 in StateOf(w.chain) && 2 !in w.cache.coins
  {
    TheThreeChains();
    TheRunFollowsTheDriveLoop();
    TheSecondCoinIsRefused();
  }
}
