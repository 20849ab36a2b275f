/** The block chain an honest peer reports on, and the coin states it holds. A block creates coins
    whose ids are new and spends coins that exist and are unspent; a reorg replaces a suffix. */
module Chain {
  import opened Prelude
  import opened CoinCache

  datatype Block = Block(created: map<Bytes32, Coin>, spent: set<Bytes32>)

  type Blocks = seq<Block>

  /** The coin states once `block` is added at height `h`. */
  function Extend(before: Coins, block: Block, h: nat): Coins
  {
    map id | id in before.Keys + block.created.Keys ::
      var base := if id in block.created then CoinState(block.created[id], Some(h), None)
                  else before[id];
      if id in block.spent then base.(spent := Some(h)) else base
  }

  /** The coin states of the chain, each with the heights it was created and spent at. */
  function StateOf(chain: Blocks): Coins
  {
    if chain == [] then map[]
    else Extend(StateOf(chain[..|chain| - 1]), chain[|chain| - 1], |chain| - 1)
  }

  predicate ValidBlock(before: Coins, block: Block)
  {
    && (forall id :: id in block.created ==> id !in before && block.created[id].id == id)
    && (forall id :: id in block.spent ==>
         id in block.created || (id in before && before[id].spent.None?))
  }

  predicate ValidChain(chain: Blocks)
  {
    chain == [] ||
    (ValidChain(chain[..|chain| - 1])
     && ValidBlock(StateOf(chain[..|chain| - 1]), chain[|chain| - 1]))
  }

  /** Coins are filed under their ids and lie within the chain. */
  lemma {:induction false} StatesLieWithinTheChain(chain: Blocks, id: Bytes32)
    requires ValidChain(chain)
    requires id in StateOf(chain)
    ensures var s := StateOf(chain)[id];
      && s.coin.id == id
      && s.created.Some? && s.created.value < |chain|
      && !Above(s.spent, |chain| - 1)
  {
    var h := |chain| - 1;
    if id in StateOf(chain[..h]) {
      StatesLieWithinTheChain(chain[..h], id);
    }
  }

  lemma {:induction false} ABlockAboveTheForkRollsOff(before: Coins, block: Block, h: nat, fork: nat)
    requires ValidBlock(before, block)
    requires fork < h
    ensures RollBack(Extend(before, block, h), {}, fork) == RollBack(before, {}, fork)
  {
    var after := Extend(before, block, h);
    forall id
      ensures id in RollBack(after, {}, fork) <==> id in RollBack(before, {}, fork)
      ensures id in RollBack(before, {}, fork) ==>
        RollBack(after, {}, fork)[id] == RollBack(before, {}, fork)[id]
    {
    }
  }

  /** Cutting the chain back to a fork and reading its states is the same as rolling its states back
      to that fork. */
  lemma {:induction false} TruncationIsRollback(chain: Blocks, fork: nat)
    requires ValidChain(chain)
    requires fork < |chain|
    ensures ValidChain(chain[..fork + 1])
    ensures StateOf(chain[..fork + 1]) == RollBack(StateOf(chain), {}, fork)
  {
    var h := |chain| - 1;
    if fork == h {
      assert chain[..fork + 1] == chain;
      var full := StateOf(chain);
      forall id | id in full
        ensures !Above(full[id].created, fork) && Unspend(full[id], fork) == full[id]
      {
        StatesLieWithinTheChain(chain, id);
      }
      assert RollBack(full, {}, fork) == full;
    } else {
      TruncationIsRollback(chain[..h], fork);
      assert chain[..h][..fork + 1] == chain[..fork + 1];
      ABlockAboveTheForkRollsOff(StateOf(chain[..h]), chain[h], h, fork);
    }
  }

  /** Two chains that agree up to a fork: a coin is in the shared part exactly when the first chain
      created it by then, and the second chain then has the same coin, created at the same height. */
  lemma {:induction false} SharedCoins(first: Blocks, second: Blocks, fork: nat, id: Bytes32)
    requires ValidChain(first) && ValidChain(second)
    requires fork < |first| && fork < |second|
    requires first[..fork + 1] == second[..fork + 1]
    ensures var shared := StateOf(first[..fork + 1]);
      && (id in shared <==> id in StateOf(first) && !Above(StateOf(first)[id].created, fork))
      && (id in shared ==>
           && shared[id] == Unspend(StateOf(first)[id], fork)
           && id in StateOf(second)
           && StateOf(second)[id].coin == shared[id].coin
           && StateOf(second)[id].created == shared[id].created)
  {
    TruncationIsRollback(first, fork);
    TruncationIsRollback(second, fork);
  }
}
