/** The light client's coin cache (src/peer/light_client/cache.rs): the local mirror of subscribed
    coins, kept current by an untrusted peer's update stream.

    `Cache` is the value of the object's four fields, and every mutating method of `CoinStateCache`
    is proved equal to a function on that value; the theorems about the cache are stated on those
    functions. Heights are only ever compared here, so they are naturals and the `u32` of the source
    is included. A coin's id is a hash of the coin, so it is an arbitrary attribute of the coin. */
module CoinCache {
  import opened Prelude

  type Bytes32 = nat

  datatype Coin = Coin(id: Bytes32, puzzleHash: Bytes32)

  datatype CoinState = CoinState(coin: Coin, created: Option<nat>, spent: Option<nat>)

  datatype Peak = Peak(height: nat, hash: Bytes32)

  type Coins = map<Bytes32, CoinState>

  datatype Cache = Cache(
    coins: Coins,
    subscribedCoins: set<Bytes32>,
    subscribedPuzzleHashes: set<Bytes32>,
    peak: Option<Peak>)

  const MAX_COINS_PER_PUZZLE_HASH: nat := 10_000

  const EMPTY := Cache(map[], {}, {}, None)

  predicate Above(h: Option<nat>, bar: nat) { h.Some? && h.value > bar }

  predicate IsSubscribed(c: Cache, s: CoinState)
  {
    s.coin.id in c.subscribedCoins || s.coin.puzzleHash in c.subscribedPuzzleHashes
  }

  /** The ids an update is authoritative about. */
  function Reasserted(c: Cache, items: seq<CoinState>): set<Bytes32>
  {
    set s | s in items && IsSubscribed(c, s) :: s.coin.id
  }

  /** A coin state as it stood at `fork`: a later spend has not happened yet. */
  function Unspend(s: CoinState, fork: nat): CoinState
  {
    if Above(s.spent, fork) then s.(spent := None) else s
  }

  /** What survives a rollback to `fork` when the coins in `keep` are left to their new states. */
  function RollBack(coins: Coins, keep: set<Bytes32>, fork: nat): Coins
  {
    map id | id in coins && (id in keep || !Above(coins[id].created, fork))
      :: if id in keep then coins[id] else Unspend(coins[id], fork)
  }

  predicate RollbackChanges(coins: Coins, keep: set<Bytes32>, fork: nat)
  {
    exists id :: id in coins && id !in keep
      && (Above(coins[id].created, fork) || Above(coins[id].spent, fork))
  }

  function Sweep(coins: Coins, height: nat): Coins
  {
    map id | id in coins && !Above(coins[id].created, height) :: coins[id]
  }

  function UpdatePeak(c: Cache, height: nat, hash: Bytes32, allowLower: bool): Cache
  {
    if c.peak.None? || height >= c.peak.value.height || allowLower
    then c.(peak := Some(Peak(height, hash)), coins := Sweep(c.coins, height))
    else c
  }

  function MaxCachedCoins(c: Cache): nat
  {
    SaturatingAdd(|c.subscribedCoins|,
                  SaturatingMul(|c.subscribedPuzzleHashes|, MAX_COINS_PER_PUZZLE_HASH))
  }

  predicate AbovePeak(c: Cache, s: CoinState)
  {
    c.peak.Some? && Above(s.created, c.peak.value.height)
  }

  function CacheCoin(c: Cache, s: CoinState): Cache
  {
    if AbovePeak(c, s) then c
    else if s.coin.id !in c.coins && |c.coins| >= MaxCachedCoins(c) then c
    else c.(coins := c.coins[s.coin.id := s])
  }

  function CacheAll(c: Cache, states: seq<CoinState>): Cache
  {
    if states == [] then c
    else CacheCoin(CacheAll(c, states[..|states| - 1]), states[|states| - 1])
  }

  function SubscribedItems(c: Cache, items: seq<CoinState>): seq<CoinState>
  {
    Filter(items, s => IsSubscribed(c, s))
  }

  predicate GenuineReorg(c: Cache, items: seq<CoinState>, height: nat, fork: nat)
  {
    RollbackChanges(c.coins, Reasserted(c, items), fork) && height >= fork
    && c.peak.Some? && fork < c.peak.value.height
  }

  /** The cache once the rollback and the peak change are done and before any item is admitted. */
  function Settled(c: Cache, items: seq<CoinState>, height: nat, fork: nat, hash: Bytes32): Cache
  {
    UpdatePeak(c.(coins := RollBack(c.coins, Reasserted(c, items), fork)),
               height, hash, GenuineReorg(c, items, height, fork))
  }

  function AfterUpdate(c: Cache, items: seq<CoinState>, height: nat, fork: nat, hash: Bytes32): Cache
  {
    var settled := Settled(c, items, height, fork, hash);
    CacheAll(settled, SubscribedItems(settled, items))
  }

  function Untrack(c: Cache, ids: set<Bytes32>): Cache
  {
    c.(subscribedCoins := c.subscribedCoins - ids)
  }

  /** The cache object. */
  class CoinStateCache {
    var coins: Coins
    var subscribedCoins: set<Bytes32>
    var subscribedPuzzleHashes: set<Bytes32>
    var peak: Option<Peak>

    function View(): Cache
      reads this
    {
      Cache(coins, subscribedCoins, subscribedPuzzleHashes, peak)
    }

    constructor ()
      ensures View() == EMPTY
    {
      coins, subscribedCoins, subscribedPuzzleHashes, peak := map[], {}, {}, None;
    }

    method SetPeak(height: nat, hash: Bytes32)
      modifies this
      ensures View() == UpdatePeak(old(View()), height, hash, false)
    {
      ChangePeak(height, hash, false);
    }

    method Get(id: Bytes32) returns (s: Option<CoinState>)
      ensures s.Some? <==> id in coins
      ensures s.Some? ==> s.value == coins[id]
    {
      s := if id in coins then Some(coins[id]) else None;
    }

    method Seed(states: seq<CoinState>)
      modifies this
      ensures View() == CacheAll(old(View()), states)
    {
      for i := 0 to |states|
        invariant View() == CacheAll(old(View()), states[..i])
      {
        assert states[..i + 1][..i] == states[..i];
        Admit(states[i]);
      }
      assert states[..|states|] == states;
    }

    method TrackCoins(ids: seq<Bytes32>)
      modifies this`subscribedCoins
      ensures View() == old(View()).(subscribedCoins := old(subscribedCoins) + (set id | id in ids))
    {
      subscribedCoins := subscribedCoins + (set id | id in ids);
    }

    method TrackPuzzleHashes(hashes: seq<Bytes32>)
      modifies this`subscribedPuzzleHashes
      ensures View() == old(View()).(
                subscribedPuzzleHashes := old(subscribedPuzzleHashes) + (set h | h in hashes))
    {
      subscribedPuzzleHashes := subscribedPuzzleHashes + (set h | h in hashes);
    }

    method UntrackCoins(ids: seq<Bytes32>)
      modifies this`subscribedCoins
      ensures View() == old(View()).(subscribedCoins := old(subscribedCoins) - (set id | id in ids))
    {
      for i := 0 to |ids|
        invariant subscribedCoins == old(subscribedCoins) - (set id | id in ids[..i])
      {
        subscribedCoins := subscribedCoins - {ids[i]};
        assert forall id :: id in ids[..i + 1] <==> id in ids[..i] || id == ids[i];
      }
      assert ids[..|ids|] == ids;
    }

    /** `apply_update`: roll back, decide whether the peak may fall, move the peak, admit items. */
    method ApplyUpdate(items: seq<CoinState>, height: nat, fork: nat, hash: Bytes32)
      modifies this
      ensures View() == AfterUpdate(old(View()), items, height, fork, hash)
    {
      var reasserted := CollectReasserted(items);
      var rolledBack := Retain(reasserted, fork);
      var genuine := rolledBack && height >= fork && peak.Some? && fork < peak.value.height;
      ChangePeak(height, hash, genuine);
      AdmitSubscribed(items);
    }

    method CollectReasserted(items: seq<CoinState>) returns (reasserted: set<Bytes32>)
      ensures reasserted == Reasserted(View(), items)
    {
      reasserted := {};
      for i := 0 to |items|
        invariant reasserted == Reasserted(View(), items[..i])
      {
        assert items[..i + 1] == items[..i] + [items[i]];
        if Subscribed(items[i]) {
          reasserted := reasserted + {items[i].coin.id};
        }
      }
      assert items[..|items|] == items;
    }

    method AdmitSubscribed(items: seq<CoinState>)
      modifies this`coins
      ensures View() == CacheAll(old(View()), SubscribedItems(old(View()), items))
    {
      ghost var before := View();
      for i := 0 to |items|
        invariant View() == CacheAll(before, SubscribedItems(before, items[..i]))
      {
        assert items[..i + 1][..i] == items[..i];
        if Subscribed(items[i]) {
          ghost var admitted := SubscribedItems(before, items[..i + 1]);
          assert admitted[..|admitted| - 1] == SubscribedItems(before, items[..i]);
          Admit(items[i]);
        }
      }
      assert items[..|items|] == items;
    }

    /** The `retain` closure of `apply_update`, run over the map in no particular order. */
    method Retain(reasserted: set<Bytes32>, fork: nat) returns (rolledBack: bool)
      modifies this`coins
      ensures coins == RollBack(old(coins), reasserted, fork)
      ensures rolledBack <==> RollbackChanges(old(coins), reasserted, fork)
    {
      rolledBack := false;
      var pending := coins.Keys;
      while pending != {}
        invariant pending <= old(coins).Keys
        invariant forall id ::
          id in coins
          <==>
          id in old(coins)
          && (id in pending || id in reasserted || !Above(old(coins)[id].created, fork))
        invariant forall id :: id in coins ==>
          coins[id] ==
          if id in pending || id in reasserted then old(coins)[id] else Unspend(old(coins)[id], fork)
        invariant rolledBack <==>
          (exists id :: id in old(coins) && id !in pending && id !in reasserted
            && (Above(old(coins)[id].created, fork) || Above(old(coins)[id].spent, fork)))
        decreases pending
      {
        var id :| id in pending;
        pending := pending - {id};
        if id !in reasserted {
          if Above(coins[id].created, fork) {
            rolledBack := true;
            coins := coins - {id};
          } else if Above(coins[id].spent, fork) {
            coins := coins[id := coins[id].(spent := None)];
            rolledBack := true;
          }
        }
      }
    }

    /** `update_peak`. */
    method ChangePeak(height: nat, hash: Bytes32, allowLower: bool)
      modifies this
      ensures View() == UpdatePeak(old(View()), height, hash, allowLower)
    {
      var changed := peak.None? || height >= peak.value.height || allowLower;
      if !changed {
        return;
      }
      peak := Some(Peak(height, hash));
      coins := map id | id in coins && !Above(coins[id].created, height) :: coins[id];
    }

    /** `cache_coin`: the only way a coin enters the map. */
    method Admit(state: CoinState)
      modifies this`coins
      ensures View() == CacheCoin(old(View()), state)
    {
      if state.created.Some? {
        if peak.Some? && state.created.value > peak.value.height {
          return;
        }
      }
      var id := state.coin.id;
      if id !in coins && |coins| >= MaxCachedCoins(View()) {
        return;
      }
      coins := coins[id := state];
    }

    predicate Subscribed(state: CoinState)
      reads this
    {
      state.coin.id in subscribedCoins || state.coin.puzzleHash in subscribedPuzzleHashes
    }
  }
}
