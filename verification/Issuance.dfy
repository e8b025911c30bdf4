/** How mining drains the reserve (state/miner.go): a million tokens a block until two thousand blocks
    have been paid, and nothing after that, while mining goes on. */
module Issuance {
  import opened BigInt
  import opened Types
  import opened Ledger
  import opened Chain
  import opened Mining
  import Wire

  function Reserve(actors: Actors): nat
    requires TokenWorld(actors)
  {
    Balance(TokenMemory(actors), TOKEN)
  }

  // A mining reward to an account other than the reserve, in memory or received.
  predicate IsReward(tx: Transaction) {
    && tx.from == TOKEN
    && PaymentOf(tx).Some? && PaymentOf(tx).value.amount == MINING_REWARD && PaymentOf(tx).value.to != TOKEN
  }

  predicate LeavesReserve(tx: Transaction) {
    tx.from != TOKEN && (PaymentOf(tx).Some? ==> PaymentOf(tx).value.to != TOKEN)
  }

  lemma RewardTxIsReward(address: Address, nonce: Uint64)
    requires address != TOKEN
    ensures IsReward(RewardTx(address, nonce))
    ensures Wire.Wireable(address) ==> IsReward(Normal(RewardTx(address, nonce)))
  {
    var tx := RewardTx(address, nonce);
    Wire.AddressCastWire(tx.params[0]);
    Wire.NumberCastWire(tx.params[1]);
  }

  // A chain of mined blocks: the reward first, and nothing else that touches the reserve.
  predicate MinedChain(b: Block)
    decreases Depth(b.parent)
  {
    IsGenesis(b) ||
    (&& ParentOf(b).Some? && MinedChain(ParentOf(b).value)
     && b.txs != [] && IsReward(b.txs[0])
     && forall i :: 1 <= i < |b.txs| ==> LeavesReserve(b.txs[i]))
  }

  function Length(b: Block): nat
    decreases Depth(b.parent)
  {
    if IsGenesis(b) || ParentOf(b).None? then 0 else Length(ParentOf(b).value) + 1
  }

  // How many of the chain's rewards were paid.
  function RewardsPaid(b: Block): nat
    requires Genuine(b)
    decreases Depth(b.parent)
  {
    if IsGenesis(b) || b.txs == [] then 0
    else
      var p := ParentOf(b).value;
      RewardsPaid(p) + if Exec(ReplayState(p).value, b.txs[0]).Succeeded() then 1 else 0
  }

  lemma RewardStep(actors: Actors, tx: Transaction)
    requires TokenWorld(actors) && IsReward(tx) && Exec(actors, tx).result.Ok?
    ensures TokenWorld(Exec(actors, tx).actors)
    ensures Exec(actors, tx).Succeeded() <==> Reserve(actors) >= 1_000_000
    ensures Reserve(Exec(actors, tx).actors) ==
            if Exec(actors, tx).Succeeded() then Reserve(actors) - 1_000_000 else Reserve(actors)
  {
    ExecTokenWorld(actors, tx);
    ExecFrame(actors, tx);
    hide Bytes, SetBytes, AddressCast, NumberCast;
  }

  lemma ReserveFrame(actors: Actors, tx: Transaction)
    requires TokenWorld(actors) && LeavesReserve(tx)
    ensures TokenWorld(Exec(actors, tx).actors)
    ensures Reserve(Exec(actors, tx).actors) == Reserve(actors)
  {
    ExecTokenWorld(actors, tx);
    ExecFrame(actors, tx);
    hide Bytes, SetBytes, AddressCast, NumberCast;
  }

  lemma {:induction false} ReserveFrameList(actors: Actors, txs: seq<Transaction>)
    requires TokenWorld(actors) && forall i :: 0 <= i < |txs| ==> LeavesReserve(txs[i])
    ensures TokenWorld(Apply(actors, txs).actors)
    ensures Reserve(Apply(actors, txs).actors) == Reserve(actors)
  {
    hide Exec, LeavesReserve, Reserve;
    if txs != [] {
      ReserveFrameList(actors, txs[..|txs| - 1]);
      ReserveFrame(Apply(actors, txs[..|txs| - 1]).actors, txs[|txs| - 1]);
    }
  }

  function PaidOut(n: nat): nat {
    if n < 2000 then n else 2000
  }

  lemma BlockReserve(actors: Actors, b: Block)
    requires TokenWorld(actors) && Check(actors, b).Some?
    requires b.txs != [] && IsReward(b.txs[0]) && forall i :: 1 <= i < |b.txs| ==> LeavesReserve(b.txs[i])
    ensures TokenWorld(Check(actors, b).value)
    ensures Exec(actors, b.txs[0]).Succeeded() <==> Reserve(actors) >= MINING_REWARD
    ensures Reserve(Check(actors, b).value) ==
            if Exec(actors, b.txs[0]).Succeeded() then Reserve(actors) - MINING_REWARD else Reserve(actors)
  {
    hide Exec, IsReward, LeavesReserve, Reserve;
    assert b.txs == [b.txs[0]] + b.txs[1..];
    ApplyConcat(actors, [b.txs[0]], b.txs[1..]);
    ApplyOne(actors, b.txs[0]);
    RewardStep(actors, b.txs[0]);
    ReserveFrameList(Exec(actors, b.txs[0]).actors, b.txs[1..]);
  }

  // On a chain of n mined blocks exactly min(n, 2000) rewards were paid, and the reserve holds the rest.
  lemma {:induction false} IssuanceBound(b: Block)
    requires Genuine(b) && MinedChain(b)
    ensures TokenWorld(ReplayState(b).value)
    ensures RewardsPaid(b) == PaidOut(Length(b))
    ensures Reserve(ReplayState(b).value) == 2_000_000_000 - 1_000_000 * PaidOut(Length(b))
    decreases Depth(b.parent)
  {
    hide Exec, IsReward, LeavesReserve, Check, Reserve, CidOf, IsGenesis, GENESIS_ACTORS, TokenWorld, PaidOut;
    GenuineTokenWorld(b);
    if IsGenesis(b) {
      GenesisAlone(b);
      GenesisReserve();
    } else {
      IssuanceBound(ParentOf(b).value);
      BlockReserve(ReplayState(ParentOf(b).value).value, b);
      OneMorePaid(Length(ParentOf(b).value));
    }
  }

  lemma GenesisReserve()
    ensures TokenWorld(GENESIS_ACTORS) && Reserve(GENESIS_ACTORS) == 2_000_000_000 && PaidOut(0) == 0
  {
    hide Bytes, SetBytes;
  }

  lemma OneMorePaid(n: nat)
    ensures PaidOut(n + 1) == PaidOut(n) + if 2_000_000_000 - 1_000_000 * PaidOut(n) >= MINING_REWARD then 1 else 0
  {
  }

  // After exhaustion the reward reverts instead of failing, so blocks keep coming, on the same condition.
  lemma MiningOutlivesTheReserve(root: Actors, current: Block, address: Address)
    requires KnownGood(CidOf(current)) && address != TOKEN
    requires MinedChain(NormalBlock(current)) && Length(NormalBlock(current)) >= 2000
    ensures RootOf(current).Some? && TOKEN in RootOf(current).value
    ensures var nb := NextBlock(root, current, address, []);
            && (nb.Ok? <==> TOKEN in root && root[TOKEN].nonce == RootOf(current).value[TOKEN].nonce)
            && (nb.Ok? ==> nb.value.receipts == [Receipt(false, NIL)])
  {
    EmptyPoolBuilds(root, current, address);
    KnownState(current);
    BlockRoundTrip(current);
    var actors := RootOf(current).value;
    assert Reserve(actors) < MINING_REWARD by {
      IssuanceBound(NormalBlock(current));
    }
    if NextBlock(root, current, address, []).Ok? {
      hide KnownGood, MinedChain, Length, NormalBlock, EncodeBlock, RootOf, Reserve;
      var tx := RewardTx(address, root[TOKEN].nonce);
      RewardReverts(actors, tx, address);
      assert [tx] + [] == [tx];
    }
  }

  lemma RewardReverts(actors: Actors, tx: Transaction, address: Address)
    requires TokenWorld(actors) && Reserve(actors) < MINING_REWARD
    requires tx == RewardTx(address, tx.nonce) && address != TOKEN && Apply(actors, [tx]).error.None?
    ensures ReceiptList(actors, [tx]) == [Receipt(false, NIL)]
  {
    RewardTxIsReward(address, tx.nonce);
    hide IsReward, Reserve;
    ApplyOne(actors, tx);
    RewardStep(actors, tx);
    assert [tx][..0] == [];
    assert ReceiptAt(actors, [tx], 0) == Exec(actors, tx).result.value;
  }
}
