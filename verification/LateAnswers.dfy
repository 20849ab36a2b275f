/** Answers that arrive late: `subscribe_coins` and `subscribe_puzzle_hashes` (src/peer/light_client/mod.rs)
    await the peer's answer and only then take the lock, track what was asked for and seed the cache.
    The chain, and the cache with it, can have moved on since the answer was given. */
module LateAnswers {
  import opened Prelude
  import opened CoinCache
  import opened CacheInvariants
  import opened Chain
  import opened CacheRefinement
  import opened CacheRuns

  /** Those of the states that a subscription to `ids` and `hashes` asks for. */
  function Asked(ids: set<Bytes32>, hashes: set<Bytes32>, m: Coins): Coins
  {
    Watched(Tracked(EMPTY, ids, hashes), m)
  }

  /** The peer answers with what `then_`, its chain at the time, holds of the coins asked for. */
  predicate AnsweredFrom(then_: Blocks, ids: set<Bytes32>, hashes: set<Bytes32>, states: seq<CoinState>)
  {
    var answer := Asked(ids, hashes, StateOf(then_));
    && ValidChain(then_)
    && (forall s :: s in states ==> s.coin.id in answer && answer[s.coin.id] == s)
    && (forall id :: id in answer ==> answer[id] in states)
  }

  function NotAbovePeak(c: Cache, m: Coins): Coins
  {
    map id | id in m && !AbovePeak(c, m[id]) :: m[id]
  }

  /** What the cache holds of the coins asked for, overwritten by the answer. */
  function Overwritten(c: Cache, ids: set<Bytes32>, hashes: set<Bytes32>, answer: Coins): Coins
  {
    Asked(ids, hashes, c.coins) + NotAbovePeak(c, Asked(ids, hashes, answer))
  }

  lemma {:induction false} AnswersAreUnique(
      then_: Blocks, ids: set<Bytes32>, hashes: set<Bytes32>, states: seq<CoinState>, c: Cache, id: Bytes32)
    requires AnsweredFrom(then_, ids, hashes, states)
    ensures var kept := NotAbovePeak(c, Asked(ids, hashes, StateOf(then_)));
      LastAdmissible(c, states, id) == if id in kept then Some(kept[id]) else None
  {
    AdmissibleIsMentioned(c, states, id);
    var answer := Asked(ids, hashes, StateOf(then_));
    if id in answer {
      StatesLieWithinTheChain(then_, id);
      assert answer[id] in states;
    }
  }

  /** With room for the answer, a coin ends up with the answer's state, unless that is above the peak. */
  lemma {:induction false} TheAnswerLands(
      w: World, ids: set<Bytes32>, hashes: set<Bytes32>, states: seq<CoinState>, then_: Blocks, id: Bytes32)
    requires AnsweredFrom(then_, ids, hashes, states)
    requires Room(Tracked(w.cache, ids, hashes), states)
    ensures var after := CacheAll(Tracked(w.cache, ids, hashes), states).coins;
      var kept := NotAbovePeak(w.cache, Asked(ids, hashes, StateOf(then_)));
      && (id in after <==> id in kept || id in w.cache.coins)
      && (id in after ==> after[id] == if id in kept then kept[id] else w.cache.coins[id])
  {
    var c := Tracked(w.cache, ids, hashes);
    var after := CacheAll(c, states);
    AnswersAreUnique(then_, ids, hashes, states, c, id);
    AdmissibleIsMentioned(c, states, id);
    CacheAllAt(c, states, id);
    CacheAllBounds(c, states);
    var whole := c.coins.Keys + Ids(states);
    if LastAdmissible(c, states, id).Some? && id !in after.coins {
      assert id in Ids(states);
      DisjointUnionCount(c.coins, Ids(states));
      KeysCount(after.coins);
      ProperSubsetIsSmaller(after.coins.Keys, whole);
    }
  }

  /** Of the coins asked for, the cache then holds exactly the overwritten ones. */
  lemma {:induction false} LandingIsOverwriting(
      w: World, ids: set<Bytes32>, hashes: set<Bytes32>, states: seq<CoinState>, then_: Blocks)
    requires AnsweredFrom(then_, ids, hashes, states)
    requires Room(Tracked(w.cache, ids, hashes), states)
    ensures Asked(ids, hashes, CacheAll(Tracked(w.cache, ids, hashes), states).coins)
      == Overwritten(w.cache, ids, hashes, StateOf(then_))
  {
    var after := CacheAll(Tracked(w.cache, ids, hashes), states).coins;
    var old_, new_ := Overwritten(w.cache, ids, hashes, StateOf(then_)), Asked(ids, hashes, after);
    forall id
      ensures id in new_ <==> id in old_
      ensures id in new_ ==> new_[id] == old_[id]
    {
      TheAnswerLands(w, ids, hashes, states, then_, id);
    }
  }

  lemma {:induction false} FewerAreWatched(c: Cache, q: Cache, a: Coins, b: Coins)
    requires q.subscribedCoins <= c.subscribedCoins && q.subscribedPuzzleHashes <= c.subscribedPuzzleHashes
    requires Watched(c, a) == Watched(c, b)
    ensures Watched(q, a) == Watched(q, b)
  {
    forall id
      ensures id in Watched(q, a) <==> id in Watched(q, b)
      ensures id in Watched(q, a) ==> Watched(q, a)[id] == Watched(q, b)[id]
    {
      assert id in Watched(c, a) <==> id in Watched(c, b);
    }
  }

  /** A late answer leaves the cache mirroring the chain if and only if, for the coins asked for, what
      the cache held overwritten by the answer is what the chain now holds. */
  lemma {:induction false} ALateAnswerMirrorsIff(
      w: World, ids: set<Bytes32>, hashes: set<Bytes32>, states: seq<CoinState>, then_: Blocks)
    requires Mirrors(w.cache, w.chain)
    requires AnsweredFrom(then_, ids, hashes, states)
    requires Room(Tracked(w.cache, ids, hashes), states)
    ensures Mirrors(After(w, Subscribed(ids, hashes, states)).cache, w.chain)
      <==> Overwritten(w.cache, ids, hashes, StateOf(then_)) == Asked(ids, hashes, StateOf(w.chain))
  {
    LandingIsOverwriting(w, ids, hashes, states, then_);
    CacheAllBounds(Tracked(w.cache, ids, hashes), states);
    var after := After(w, Subscribed(ids, hashes, states)).cache;
    if Mirrors(after, w.chain) {
      FewerAreWatched(after, Tracked(EMPTY, ids, hashes), after.coins, StateOf(w.chain));
    }
    if Asked(ids, hashes, after.coins) == Asked(ids, hashes, StateOf(w.chain)) {
      RightAnswersMirror(w, ids, hashes, states, then_);
    }
  }

  lemma {:induction false} OthersKeepTheirState(
      w: World, ids: set<Bytes32>, hashes: set<Bytes32>, states: seq<CoinState>, then_: Blocks, after: Coins)
    requires AnsweredFrom(then_, ids, hashes, states)
    requires Room(Tracked(w.cache, ids, hashes), states)
    requires after == CacheAll(Tracked(w.cache, ids, hashes), states).coins
    ensures KeepsOthers(w.cache.coins, after, ids, hashes)
  {
    CacheAllBounds(Tracked(w.cache, ids, hashes), states);
    forall id | id in after && id !in Asked(ids, hashes, after)
      ensures id in w.cache.coins && after[id] == w.cache.coins[id]
    {
      TheAnswerLands(w, ids, hashes, states, then_, id);
    }
  }

  predicate KeepsOthers(before: Coins, after: Coins, ids: set<Bytes32>, hashes: set<Bytes32>)
  {
    && before.Keys <= after.Keys
    && forall id :: id in after && id !in Asked(ids, hashes, after) ==> id in before && after[id] == before[id]
  }

  lemma {:induction false} RightAnswersMirror(
      w: World, ids: set<Bytes32>, hashes: set<Bytes32>, states: seq<CoinState>, then_: Blocks)
    requires Mirrors(w.cache, w.chain)
    requires AnsweredFrom(then_, ids, hashes, states)
    requires Room(Tracked(w.cache, ids, hashes), states)
    requires Asked(ids, hashes, CacheAll(Tracked(w.cache, ids, hashes), states).coins)
      == Asked(ids, hashes, StateOf(w.chain))
    ensures Mirrors(CacheAll(Tracked(w.cache, ids, hashes), states), w.chain)
  {
    var c := Tracked(w.cache, ids, hashes);
    CacheAllBounds(c, states);
    OthersKeepTheirState(w, ids, hashes, states, then_, CacheAll(c, states).coins);
    assert Sound(c);
    CacheAllIsSound(c, states);
    RightPerCoin(w.cache, CacheAll(c, states), ids, hashes, w.chain);
  }

  lemma {:induction false} RightPerCoin(
      before: Cache, after: Cache, ids: set<Bytes32>, hashes: set<Bytes32>, chain: Blocks)
    requires Mirrors(before, chain) && Sound(after)
    requires after == Tracked(before, ids, hashes).(coins := after.coins)
    requires Asked(ids, hashes, after.coins) == Asked(ids, hashes, StateOf(chain))
    requires KeepsOthers(before.coins, after.coins, ids, hashes)
    ensures Mirrors(after, chain)
  {
    WatchedAlike(before, after, ids, hashes, StateOf(chain));
    forall id | id in after.coins
      ensures var full := StateOf(chain);
        id in full && after.coins[id].coin == full[id].coin && after.coins[id].created == full[id].created
    {
      assert id in Asked(ids, hashes, after.coins) <==> id in Asked(ids, hashes, StateOf(chain));
    }
  }

  /** What is watched is what was watched before and what is asked for. */
  lemma {:induction false} WatchedAlike(
      before: Cache, after: Cache, ids: set<Bytes32>, hashes: set<Bytes32>, full: Coins)
    requires Watched(before, before.coins) == Watched(before, full)
    requires after == Tracked(before, ids, hashes).(coins := after.coins)
    requires Asked(ids, hashes, after.coins) == Asked(ids, hashes, full)
    requires KeepsOthers(before.coins, after.coins, ids, hashes)
    ensures Watched(after, after.coins) == Watched(after, full)
  {
    forall id
      ensures id in Watched(after, after.coins) <==> id in Watched(after, full)
      ensures id in Watched(after, after.coins) ==> after.coins[id] == full[id]
    {
      assert id in Asked(ids, hashes, after.coins) <==> id in Asked(ids, hashes, full);
      assert id in Watched(before, before.coins) <==> id in Watched(before, full);
    }
  }

  /** A client that held none of the coins it asks for mirrors the chain afterwards if and only if no
      coin it asked for was created or spent by a block added since the answer was given. */
  lemma {:induction false} AFreshSubscriptionMirrorsIffUntouched(
      w: World, ids: set<Bytes32>, hashes: set<Bytes32>, states: seq<CoinState>, tip: nat)
    requires Mirrors(w.cache, w.chain) && tip < |w.chain|
    requires AnsweredFrom(w.chain[..tip + 1], ids, hashes, states)
    requires Room(Tracked(w.cache, ids, hashes), states)
    requires Asked(ids, hashes, w.cache.coins) == map[]
    ensures Mirrors(After(w, Subscribed(ids, hashes, states)).cache, w.chain)
      <==> forall id :: id in Asked(ids, hashes, StateOf(w.chain)) ==>
             !Above(StateOf(w.chain)[id].created, tip) && !Above(StateOf(w.chain)[id].spent, tip)
  {
    var full := StateOf(w.chain);
    TruncationIsRollback(w.chain, tip);
    ALateAnswerMirrorsIff(w, ids, hashes, states, w.chain[..tip + 1]);
    EarlierAnswersLieBelowThePeak(w, ids, hashes, tip);
    UntouchedIffRolledBackAlike(Tracked(EMPTY, ids, hashes), full, tip);
  }

  lemma {:induction false} EarlierAnswersLieBelowThePeak(
      w: World, ids: set<Bytes32>, hashes: set<Bytes32>, tip: nat)
    requires Mirrors(w.cache, w.chain) && tip < |w.chain|
    requires Asked(ids, hashes, w.cache.coins) == map[]
    ensures Overwritten(w.cache, ids, hashes, StateOf(w.chain[..tip + 1]))
      == Asked(ids, hashes, StateOf(w.chain[..tip + 1]))
  {
    TruncationIsRollback(w.chain, tip);
    var answer := Asked(ids, hashes, StateOf(w.chain[..tip + 1]));
    forall id | id in answer
      ensures !AbovePeak(w.cache, answer[id])
    {
      StatesLieWithinTheChain(w.chain[..tip + 1], id);
    }
    assert NotAbovePeak(w.cache, answer) == answer;
  }

  lemma {:induction false} UntouchedIffRolledBackAlike(q: Cache, full: Coins, tip: nat)
    ensures Watched(q, RollBack(full, {}, tip)) == Watched(q, full)
      <==> forall id :: id in Watched(q, full) ==> !Above(full[id].created, tip) && !Above(full[id].spent, tip)
  {
    var back := RollBack(full, {}, tip);
    if Watched(q, back) == Watched(q, full) {
      forall id | id in Watched(q, full)
        ensures !Above(full[id].created, tip) && !Above(full[id].spent, tip)
      {
        assert id in Watched(q, back);
      }
    }
  }

  // One coin, asked for when it is unspent. While the answer is on its way the block that spends it is
  // announced, and nothing is subscribed yet.

  const MOVED_ON := World(Cache(map[], {}, {}, Some(Peak(1, 7))), SPENDING)

  lemma {:induction false} NothingIsAdmitted(c: Cache, s: CoinState)
    requires !IsSubscribed(c, s)
    ensures SubscribedItems(c, [s]) == [] && Reasserted(c, [s]) == {}
  {
    assert SubscribedItems(c, [s]) == Filter([], x => IsSubscribed(c, x));
  }

  lemma {:induction false} TheUpdateIsDropped()
    ensures After(World(EMPTY, GENESIS), Updated([FIRST_SPENT], 0, 7, SPENDING)) == MOVED_ON
  {
    NothingIsAdmitted(EMPTY, FIRST_SPENT);
    var settled := Settled(EMPTY, [FIRST_SPENT], 1, 0, 7);
    assert settled == MOVED_ON.cache;
    NothingIsAdmitted(settled, FIRST_SPENT);
  }

  lemma {:induction false} TheUpdateWasHonest()
    ensures Honest(World(EMPTY, GENESIS), Updated([FIRST_SPENT], 0, 7, SPENDING))
  {
    TheThreeChains();
    assert SPENDING[..1] == GENESIS[..1];
  }

  lemma {:induction false} TheAnswerWasHonest()
    ensures AnsweredFrom(GENESIS, {1}, {}, [FIRST_UNSPENT])
  {
    TheThreeChains();
    assert Asked({1}, {}, map[1 := FIRST_UNSPENT]) == map[1 := FIRST_UNSPENT];
  }

  lemma {:induction false} TheAnswerIsSeeded()
    ensures After(MOVED_ON, Subscribed({1}, {}, [FIRST_UNSPENT]))
      == World(Cache(map[1 := FIRST_UNSPENT], {1}, {}, Some(Peak(1, 7))), SPENDING)
  {
    var tracked := Tracked(MOVED_ON.cache, {1}, {});
    assert tracked == Cache(map[], {1}, {}, Some(Peak(1, 7)));
    OneItem(tracked, FIRST_UNSPENT);
  }

  /** The update that spends the coin is dropped as unsubscribed, the older answer lands after it, and
      the cache holds a followed coin as unspent that the chain has spent. */
  lemma {:induction false} ALateAnswerCanBeStale()
    ensures Honest(World(EMPTY, GENESIS), Updated([FIRST_SPENT], 0, 7, SPENDING))
    ensures AnsweredFrom(GENESIS, {1}, {}, [FIRST_UNSPENT])
    ensures var moved := After(World(EMPTY, GENESIS), Updated([FIRST_SPENT], 0, 7, SPENDING));
      var w := After(moved, Subscribed({1}, {}, [FIRST_UNSPENT]));
      && 1 in w.cache.subscribedCoins
      && w.cache.coins == map[1 := FIRST_UNSPENT] && StateOf(w.chain) == map[1 := FIRST_SPENT]
  {
    TheUpdateWasHonest();
    TheAnswerWasHonest();
    TheThreeChains();
    TheUpdateIsDropped();
    TheAnswerIsSeeded();
  }
}
