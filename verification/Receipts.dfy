/** Looking up the outcome of a transaction in a block (core/node.go:221-234), and what a mined block answers. */
module Receipts {
  import opened Wrappers
  import opened BigInt
  import opened Types
  import opened Ledger
  import opened Wire
  import opened Nonces
  import opened Order
  import opened Pool
  import opened Chain
  import opened Mining
  import opened Issuance
  import opened Stall
  import opened Carry

  // i is the first place of an identifier among the block's transactions, or their number.
  predicate Finds(b: Block, c: Cid, i: nat) {
    && i <= |b.txs|
    && (forall j :: 0 <= j < i ==> TxCidOf(b.txs[j]) != c)
    && (i < |b.txs| ==> TxCidOf(b.txs[i]) == c)
  }

  // The search of `SendNewTransactionAndWait` in one block: the receipt at the index of the first transaction with
  // the identifier. A block that carries no receipt there makes the caller panic.
  method FindReceipt(b: Block, c: Cid) returns (i: nat, found: Option<Result<Receipt, Failure>>)
    ensures Finds(b, c, i)
    ensures found == if i == |b.txs| then None
                     else if i < |b.receipts| then Some(Ok(b.receipts[i])) else Some(Err(Panicked))
  {
    hide TxCidOf;
    i := 0;
    while i < |b.txs|
      invariant i <= |b.txs| && forall j :: 0 <= j < i ==> TxCidOf(b.txs[j]) != c
    {
      if TxCidOf(b.txs[i]) == c {
        return i, Some(if i < |b.receipts| then Ok(b.receipts[i]) else Err(Panicked));
      }
      i := i + 1;
    }
    found := None;
  }

  // A mined block holds the reward first, then each pooled transaction exactly once, and one receipt for each: the
  // outcome of running it in the state that the transactions before it leave behind.
  lemma MinedContents(
    root: Actors, current: Block, address: Address, pool: Pooled, pooled: seq<Transaction>, t: Transaction)
    requires Keyed(pool) && IsOrder(pool, pooled) && NextBlock(root, current, address, pooled).Ok?
    ensures var nb := NextBlock(root, current, address, pooled).value;
            && |nb.txs| == |nb.receipts| == 1 + |pool|
            && nb.txs[0] == RewardTx(address, root[TOKEN].nonce)
            && multiset(nb.txs[1..])[t] == (if TxCidOf(t) in pool && pool[TxCidOf(t)] == t then 1 else 0)
            && RootOf(current).Some? && Apply(RootOf(current).value, nb.txs).error.None?
            && forall i :: 0 <= i < |nb.txs| ==> nb.receipts[i] == ReceiptAt(RootOf(current).value, nb.txs, i)
  {
    hide Exec, TxCidOf, Apply, IsOrder, Keyed, NextBlock;
    var nb := NextBlock(root, current, address, pooled).value;
    MinedOnState(root, current, address, pooled);
    MinedReceipts(root, current, address, pooled);
    OrderCounts(pool, pooled, t);
    OrderLength(pool, pooled);
    assert nb.txs[1..] == pooled;
  }

  lemma MinedOnState(root: Actors, current: Block, address: Address, pooled: seq<Transaction>)
    requires NextBlock(root, current, address, pooled).Ok?
    ensures RootOf(current).Some?
  {
    hide Apply, RootOf, CidOf;
  }

  lemma OrderLength(pool: Pooled, pooled: seq<Transaction>)
    requires IsOrder(pool, pooled)
    ensures |pooled| == |pool|
  {
  }

  lemma OrderPlaces(pool: Pooled, pooled: seq<Transaction>, c: Cid)
    requires Keyed(pool) && IsOrder(pool, pooled) && c in pool
    ensures exists i :: 0 <= i < |pooled| && pooled[i] == pool[c] && TxCidOf(pooled[i]) == c
    ensures forall i :: 0 <= i < |pooled| && TxCidOf(pooled[i]) == c ==> pooled[i] == pool[c]
  {
    hide TxCidOf;
    var keys :| Lists(pool, keys, pooled);
    DistinctKeysCover(pool.Keys, keys, c);
    assert c in keys;
    var i :| 0 <= i < |keys| && keys[i] == c;
    assert pooled[i] == pool[c];
  }

  // In the block mined from a pool, the search for the identifier of a pooled transaction answers with the outcome of
  // executing that transaction, unless the reward has the same identifier: then it answers with the
  // reward's outcome, which is a revert.
  lemma FoundReceipt(
    root: Actors, current: Block, address: Address, pool: Pooled, pooled: seq<Transaction>, c: Cid, i: nat)
    requires Keyed(pool) && IsOrder(pool, pooled) && NextBlock(root, current, address, pooled).Ok? && c in pool
    requires Finds(NextBlock(root, current, address, pooled).value, c, i)
    ensures var nb := NextBlock(root, current, address, pooled).value;
            && i < |nb.txs| == |nb.receipts|
            && RootOf(current).Some? && Apply(RootOf(current).value, nb.txs).error.None?
            && nb.receipts[i] == ReceiptAt(RootOf(current).value, nb.txs, i)
            && (c != TxCidOf(nb.txs[0]) ==> nb.txs[i] == pool[c])
            && (c == TxCidOf(nb.txs[0]) ==> i == 0 && (|nb.txs| < UINT64_LIMIT ==> !nb.receipts[0].success))
  {
    hide Exec, TxCidOf, Apply, IsOrder, NextBlock, ReceiptAt, Keyed;
    MinedContents(root, current, address, pool, pooled, pool[c]);
    var nb := NextBlock(root, current, address, pooled).value;
    MinedTxs(root, current, address, pooled);
    OrderPlaces(pool, pooled, c);
    var k :| 0 <= k < |pooled| && pooled[k] == pool[c] && TxCidOf(pooled[k]) == c;
    assert nb.txs[k + 1] == pool[c];
    if c != TxCidOf(nb.txs[0]) {
      assert nb.txs[i] == pooled[i - 1];
    } else {
      SameFields(nb.txs[0], pool[c]);
      if |nb.txs| < UINT64_LIMIT && nb.receipts[0].success {
        NoReplay(RootOf(current).value, nb.txs, 0, k + 1);
      }
    }
  }

  lemma OnePlace(pool: Pooled, pooled: seq<Transaction>, i: nat, k: nat)
    requires Keyed(pool) && IsOrder(pool, pooled) && i < |pooled| && k < |pooled| && pooled[i] == pooled[k]
    ensures i == k
  {
    hide TxCidOf;
    var keys :| Lists(pool, keys, pooled);
    assert keys[i] == TxCidOf(pooled[i]) && keys[k] == TxCidOf(pooled[k]);
  }

  // Executing a received reward: it succeeds exactly if the reserve covers it.
  lemma ReceivedRewardOutcome(actors: Actors, t: Transaction, address: Address)
    requires TokenWorld(actors) && t == Normal(RewardTx(address, t.nonce)) && Exec(actors, t).result.Ok?
    ensures Exec(actors, t).result.value == Receipt(Reserve(actors) >= MINING_REWARD, NIL)
  {
    var reward := RewardTx(address, t.nonce);
    ReceivedTransfer(reward, address, MINING_REWARD);
    hide Bytes, SetBytes, AddressCast, NumberCast, Normal, Moved;
    RunsExactly(actors, t);
    assert actors[t.to].memory == actors[TOKEN].memory;
  }

  lemma RevertsAlike(actors: Actors, tx: Transaction)
    requires Exec(actors, tx).Reverted()
    ensures Exec(actors, tx).result == Ok(Receipt(false, NIL))
  {
    hide CallOf;
  }

  // The exact condition for the search to answer with the outcome of the pooled transaction itself, which stands at
  // place k + 1 of the block: the reward has another identifier, or the reserve cannot pay when its turn comes. (Any
  // block built on a known one has the state and the number of transactions that are asked for here.)
  lemma LookupIsRight(
    root: Actors, current: Block, address: Address, pool: Pooled, pooled: seq<Transaction>,
    nb: Block, c: Cid, i: nat, k: nat, turn: Actors)
    requires KnownGood(CidOf(current)) && NextBlock(root, current, address, pooled) == Ok(nb)
    requires Keyed(pool) && IsOrder(pool, pooled)
    requires c in pool && Normal(pool[c]) == pool[c] && k < |pooled| < UINT64_LIMIT - 1 && pooled[k] == pool[c]
    requires Finds(nb, c, i)
    requires RootOf(current).Some? && |nb.txs| == |pooled| + 1
    requires turn == Apply(RootOf(current).value, nb.txs[..k + 1]).actors
    ensures i < |nb.receipts| && k + 1 < |nb.receipts| && nb.txs != [] && TokenWorld(turn)
    ensures nb.receipts[i] == nb.receipts[k + 1] <==> c != TxCidOf(nb.txs[0]) || Reserve(turn) < MINING_REWARD
  {
    hide *;
    FoundReceipt(root, current, address, pool, pooled, c, i);
    MinedReceipts(root, current, address, pooled);
    KnownState(current);
    PooledUnder(pool, c);
    var actors := RootOf(current).value;
    assert nb.txs[k + 1] == pool[c];
    ApplyTokenWorld(actors, nb.txs[..k + 1]);
    if c != TxCidOf(nb.txs[0]) {
      FindsOnePlace(pool, pooled, nb.txs[0], nb, c, i, k);
    } else {
      SameFields(nb.txs[0], pool[c]);
      RewardNonce(address, root[TOKEN].nonce);
      ReceiptsCompared(actors, nb.txs, k + 1, address);
    }
  }

  lemma RewardNonce(address: Address, nonce: Uint64)
    ensures RewardTx(address, nonce).nonce == nonce
  {
  }

  lemma PooledUnder(pool: Pooled, c: Cid)
    requires Keyed(pool) && c in pool
    ensures TxCidOf(pool[c]) == c
  {
    hide TxCidOf;
  }

  lemma FindsOnePlace(
    pool: Pooled, pooled: seq<Transaction>, first: Transaction, b: Block, c: Cid, i: nat, k: nat)
    requires Keyed(pool) && IsOrder(pool, pooled) && b.txs == [first] + pooled && Finds(b, c, i)
    requires k < |pooled| && c in pool && pooled[k] == pool[c] && i < |b.txs| && b.txs[i] == pool[c]
    requires c != TxCidOf(first)
    ensures i == k + 1
  {
    hide TxCidOf, IsOrder, Keyed;
    assert b.txs[i] == pooled[i - 1];
    OnePlace(pool, pooled, i - 1, k);
  }

  lemma ReceiptsCompared(actors: Actors, txs: seq<Transaction>, j: nat, address: Address)
    requires TokenWorld(actors) && Apply(actors, txs).error.None? && j < |txs| && !ReceiptAt(actors, txs, 0).success
    requires txs[j] == Normal(RewardTx(address, txs[j].nonce))
    ensures TokenWorld(Apply(actors, txs[..j]).actors)
    ensures ReceiptAt(actors, txs, 0) == ReceiptAt(actors, txs, j) <==>
            Reserve(Apply(actors, txs[..j]).actors) < MINING_REWARD
  {
    hide Exec, Normal, TokenWorld, Reserve, Apply;
    var turn := Apply(actors, txs[..j]).actors;
    ApplyTokenWorld(actors, txs[..j]);
    ApplyPrefix(actors, txs, j);
    ApplyPrefix(actors, txs, 0);
    ReceivedRewardOutcome(turn, txs[j], address);
    RevertsAlike(Apply(actors, txs[..0]).actors, txs[0]);
  }

  // ---------- a lookup that goes wrong ----------

  // The reserve is one token short of the reward; the pool holds a payment of one token to the reserve and, behind
  // it, the reward as a receiver would send it. The reward reverts, the payment fills the reserve, and the
  // pooled copy succeeds; but the search for it finds the reward first.
  function Refill(payer: Address, nonce: Uint64): Transaction {
    Pays(payer, TOKEN, nonce, 1)
  }

  function Copy(address: Address, nonce: Uint64): Transaction {
    Normal(RewardTx(address, nonce))
  }

  lemma LookupGoesWrong(actors: Actors, address: Address, payer: Address)
    requires TokenWorld(actors) && Reserve(actors) == MINING_REWARD - 1 && Wireable(address) && address != TOKEN
    requires payer in actors && payer != TOKEN && Balance(TokenMemory(actors), payer) > 0
    ensures var txs := [RewardTx(address, actors[TOKEN].nonce), Refill(payer, actors[payer].nonce),
                        Copy(address, actors[TOKEN].nonce)];
            && Apply(actors, txs).error.None?
            && TxCidOf(txs[0]) == TxCidOf(txs[2])
            && ReceiptAt(actors, txs, 0) == Receipt(false, NIL) && ReceiptAt(actors, txs, 2) == Receipt(true, NIL)
  {
    hide Exec, Balance, PaymentOf, Normal, Pays, WithActor, Apply, RewardTx, Paid;
    var reward, refill, copy := RewardTx(address, actors[TOKEN].nonce), Refill(payer, actors[payer].nonce),
                                Copy(address, actors[TOKEN].nonce);
    TransactionRoundTrip(reward);
    var s1 := WithActor(actors, address);
    RewardFallsShort(actors, address);
    RefillIsPayable(s1, payer);
    PayableRuns(s1, refill);
    var s2 := Exec(s1, refill).actors;
    RefillFillsReserve(s1, payer, s2);
    CopyIsPayable(s2, address);
    PayableRuns(s2, copy);
    ThreeRun(actors, reward, refill, copy, s1, s2);
  }

  // The same as a mined block: on any known block in such a state (PoorReserve gives one), a pool of these two received
  // transactions builds, and the search for the copy answers with a receipt that is not its own.
  lemma MinedLookupGoesWrong(current: Block, address: Address, payer: Address)
    requires KnownGood(CidOf(current)) && RootOf(current).Some? && TokenWorld(RootOf(current).value)
    requires Wireable(address) && address != TOKEN && payer != TOKEN && payer in RootOf(current).value
    requires Reserve(RootOf(current).value) == MINING_REWARD - 1
    requires Balance(TokenMemory(RootOf(current).value), payer) > 0
    ensures var actors := RootOf(current).value;
            var refill, copy := Refill(payer, actors[payer].nonce), Copy(address, actors[TOKEN].nonce);
            var pool := map[TxCidOf(refill) := refill, TxCidOf(copy) := copy];
            var mined := NextBlock(actors, current, address, [refill, copy]);
            && Keyed(pool) && IsOrder(pool, [refill, copy]) && Normal(refill) == refill && Normal(copy) == copy
            && mined.Ok? && Finds(mined.value, TxCidOf(copy), 0)
            && |mined.value.receipts| == 3 && mined.value.receipts[0] != mined.value.receipts[2]
  {
    hide KnownGood, CidOf, Balance, Pays, Normal, RewardTx, Apply, TokenWorld, Reserve, NextBlock, RootOf, ReceiptAt;
    var actors := RootOf(current).value;
    TokenIsThere(actors);
    var reward, refill, copy := RewardTx(address, actors[TOKEN].nonce), Refill(payer, actors[payer].nonce),
                                Copy(address, actors[TOKEN].nonce);
    LookupGoesWrong(actors, address, payer);
    BuildsIfRuns(actors, current, address, [refill, copy]);
    assert [reward] + [refill, copy] == [reward, refill, copy];
    TransactionRoundTrip(reward);
    PaysIsNormal(payer, TOKEN, actors[payer].nonce, 1);
    PaysSender(payer, TOKEN, actors[payer].nonce, 1);
    CopySender(address, actors[TOKEN].nonce);
    PairIsOrder(refill, copy);
    MinedReceipts(actors, current, address, [refill, copy]);
  }

  lemma CopySender(address: Address, nonce: Uint64)
    ensures Copy(address, nonce).from == TOKEN
  {
  }

  lemma PairIsOrder(t: Transaction, u: Transaction)
    requires t.from != u.from
    ensures var pool := map[TxCidOf(t) := t, TxCidOf(u) := u];
            Keyed(pool) && IsOrder(pool, [t, u])
  {
    assert TxCidOf(t) != TxCidOf(u) by {
      if TxCidOf(t) == TxCidOf(u) {
        SameFields(t, u);
      }
    }
    hide TxCidOf;
    var pool := map[TxCidOf(t) := t, TxCidOf(u) := u];
    assert pool.Keys == {TxCidOf(t), TxCidOf(u)} && |pool| == |pool.Keys|;
    assert Lists(pool, [TxCidOf(t), TxCidOf(u)], [t, u]);
  }

  lemma MinedReceipts(root: Actors, current: Block, address: Address, pooled: seq<Transaction>)
    requires NextBlock(root, current, address, pooled).Ok? && RootOf(current).Some?
    ensures TOKEN in root
    ensures var nb := NextBlock(root, current, address, pooled).value;
            && nb.txs == [RewardTx(address, root[TOKEN].nonce)] + pooled && |nb.receipts| == |nb.txs|
            && Apply(RootOf(current).value, nb.txs).error.None?
            && forall i :: 0 <= i < |nb.txs| ==> nb.receipts[i] == ReceiptAt(RootOf(current).value, nb.txs, i)
  {
    hide Apply, RewardTx, CidOf, ReceiptAt;
  }

  lemma RewardFallsShort(actors: Actors, address: Address)
    requires TokenWorld(actors) && Reserve(actors) < MINING_REWARD
    ensures var s := WithActor(actors, address);
            && Exec(actors, RewardTx(address, actors[TOKEN].nonce)) == Executed(s, Ok(Receipt(false, NIL)))
            && TokenWorld(s) && TokenMemory(s) == TokenMemory(actors)
            && forall a :: a in actors ==> a in s && s[a] == actors[a]
  {
    hide Exec, Balance, PaymentOf;
    RewardIsPayment(actors, address, actors[TOKEN].nonce);
    ShortPayment(actors, RewardTx(address, actors[TOKEN].nonce));
  }

  lemma RefillIsPayable(actors: Actors, payer: Address)
    requires TokenWorld(actors) && payer in actors && payer != TOKEN && Balance(TokenMemory(actors), payer) > 0
    ensures Payable(actors, Refill(payer, actors[payer].nonce))
  {
    hide Balance, PaymentOf;
    PaysWhat(payer, TOKEN, actors[payer].nonce, 1);
  }

  lemma RefillFillsReserve(actors: Actors, payer: Address, after: Actors)
    requires TokenWorld(actors) && payer in actors && payer != TOKEN && Reserve(actors) == MINING_REWARD - 1
    requires Payable(actors, Refill(payer, actors[payer].nonce))
    requires Paid(actors, Refill(payer, actors[payer].nonce), after)
    ensures TokenWorld(after) && Reserve(after) == MINING_REWARD && after[TOKEN].nonce == actors[TOKEN].nonce
  {
    hide Balance, PaymentOf, Pays, Bytes, SetBytes;
    var refill := Refill(payer, actors[payer].nonce);
    PaysWhat(payer, TOKEN, actors[payer].nonce, 1);
    assert refill.from == payer by { PaysSender(payer, TOKEN, actors[payer].nonce, 1); }
    assert PaidAt(TokenMemory(actors), refill, TokenMemory(after), TOKEN);
    PaidBalance(TokenMemory(actors), refill, TokenMemory(after), TOKEN);
    assert NonceOf(after, TOKEN) == NonceOf(actors, TOKEN);
  }

  lemma CopyIsPayable(actors: Actors, address: Address)
    requires TokenWorld(actors) && Reserve(actors) >= MINING_REWARD && Wireable(address) && address != TOKEN
    ensures Payable(actors, Copy(address, actors[TOKEN].nonce))
  {
    hide Balance, Bytes, SetBytes;
    var reward := RewardTx(address, actors[TOKEN].nonce);
    ReceivedTransfer(reward, address, MINING_REWARD);
    AddressCastWire(reward.params[0]);
    assert Normal(reward).params[0] == NormalParam(reward.params[0]);
  }

  lemma ThreeRun(actors: Actors, t: Transaction, u: Transaction, v: Transaction, s1: Actors, s2: Actors)
    requires Exec(actors, t) == Executed(s1, Ok(Receipt(false, NIL)))
    requires Exec(s1, u).result.Ok? && Exec(s1, u).actors == s2 && Exec(s2, v).result == Ok(Receipt(true, NIL))
    ensures Apply(actors, [t, u, v]).error.None?
    ensures ReceiptAt(actors, [t, u, v], 0) == Receipt(false, NIL)
    ensures ReceiptAt(actors, [t, u, v], 2) == Receipt(true, NIL)
  {
    hide Exec;
    var txs := [t, u, v];
    assert txs[..3] == txs && txs[..0] == [];
    ApplyNext(actors, txs, 0);
    ApplyNext(actors, txs, 1);
    ApplyNext(actors, txs, 2);
  }

  // Such a state is that of a genuine block: the reserve pays out all but 999,999 tokens on top of genesis.
  lemma PoorReserve(payer: Address) returns (b: Block)
    requires payer != TOKEN
    ensures KnownGood(CidOf(b)) && RootOf(b).Some? && TokenWorld(RootOf(b).value)
    ensures var actors := RootOf(b).value;
            && Reserve(actors) == MINING_REWARD - 1
            && payer in actors && Balance(TokenMemory(actors), payer) > 0
  {
    hide Balance, PaymentOf, Pays, Exec, TokenWorld, Paid, GENESIS_ACTORS, KnownGood, CidOf, Apply, NormalBlock;
    var amount := INITIAL_TOKENS - MINING_REWARD + 1;
    var tx := Pays(TOKEN, payer, 0, amount);
    GenesisPays(payer, amount);
    PayableRuns(GENESIS_ACTORS, tx);
    var after := Exec(GENESIS_ACTORS, tx).actors;
    ReservePays(GENESIS_ACTORS, payer, amount, after);
    b := Block(Some(CidOf(GENESIS)), [tx], [], 1, Some(StateCid(after)), None, None);
    ApplyOne(GENESIS_ACTORS, tx);
    PaysIsNormal(TOKEN, payer, 0, amount);
    OneBlockChain(b, tx, after);
  }

  lemma PaysIsNormal(from: Address, to: Address, nonce: Uint64, amount: nat)
    ensures Normal(Pays(from, to, nonce, amount)) == Pays(from, to, nonce, amount)
  {
    var tx := Pays(from, to, nonce, amount);
    assert Normal(tx).params == tx.params;
  }

  lemma GenesisPays(payer: Address, amount: nat)
    requires payer != TOKEN && amount <= INITIAL_TOKENS
    ensures Payable(GENESIS_ACTORS, Pays(TOKEN, payer, 0, amount))
    ensures TokenWorld(GENESIS_ACTORS) && Reserve(GENESIS_ACTORS) == INITIAL_TOKENS
    ensures TOKEN in GENESIS_ACTORS && GENESIS_ACTORS[TOKEN].nonce == 0
  {
    hide PaymentOf, SetBytes;
    PaysWhat(TOKEN, payer, 0, amount);
  }

  lemma ReservePays(actors: Actors, payer: Address, amount: nat, after: Actors)
    requires TokenWorld(actors) && payer != TOKEN && TOKEN in actors && actors[TOKEN].nonce == 0
    requires amount > 0 && Payable(actors, Pays(TOKEN, payer, 0, amount))
    requires Paid(actors, Pays(TOKEN, payer, 0, amount), after)
    ensures TokenWorld(after) && Reserve(after) == Reserve(actors) - amount
    ensures payer in after && Balance(TokenMemory(after), payer) > 0
  {
    hide Balance, PaymentOf, Pays, Bytes, SetBytes;
    var tx := Pays(TOKEN, payer, 0, amount);
    PaysWhat(TOKEN, payer, 0, amount);
    PaysSender(TOKEN, payer, 0, amount);
    assert PaidAt(TokenMemory(actors), tx, TokenMemory(after), TOKEN);
    assert PaidAt(TokenMemory(actors), tx, TokenMemory(after), payer);
    PaidBalance(TokenMemory(actors), tx, TokenMemory(after), TOKEN);
    PaidBalance(TokenMemory(actors), tx, TokenMemory(after), payer);
  }

  lemma OneBlockChain(b: Block, tx: Transaction, after: Actors)
    requires b.parent == Some(CidOf(GENESIS)) && b.txs == [tx] && b.receipts == [] && Normal(tx) == tx
    requires b.tickLimit.None? && b.ticksUsed.None? && b.stateRoot == Some(StateCid(after))
    requires Apply(GENESIS_ACTORS, [tx]) == Applied(after, None)
    ensures KnownGood(CidOf(b)) && RootOf(b) == Some(after)
  {
    hide GENESIS_ACTORS, Apply, Normal;
    BlockRoundTrip(GENESIS);
    GenesisAlone(NormalBlock(GENESIS));
    assert ParentOf(b) == Some(GENESIS);
    BusyIsNotGenesis(b);
    BlockRoundTrip(b);
    assert NormalBlock(b).txs == b.txs && NormalBlock(b).receipts == b.receipts;
    assert NormalBlock(b) == b;
    assert ReplayState(GENESIS) == Some(GENESIS_ACTORS);
  }
}
