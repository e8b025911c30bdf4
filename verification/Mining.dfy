/** Building the next block (state/miner.go), and what validators make of it. */
module Mining {
  import opened Wrappers
  import opened BigInt
  import opened Types
  import opened Ledger
  import opened Wire
  import opened Chain
  import opened Order

  const MINING_REWARD: int := 1_000_000

  function RewardTx(address: Address, nonce: Uint64): Transaction {
    Transaction(TOKEN, TOKEN, nonce, None, None, TRANSFER, [Addr(address), Big(MINING_REWARD)])
  }

  function NextHeight(b: Block): Uint64 {
    if b.height + 1 == UINT64_LIMIT then 0 else b.height + 1
  }

  function ReceiptList(actors: Actors, txs: seq<Transaction>): seq<Receipt>
    requires Apply(actors, txs).error.None?
  {
    seq(|txs|, i requires 0 <= i < |txs| => ReceiptAt(actors, txs, i))
  }

  // `getNextBlock`: root is the manager's current state, which only supplies the reward's nonce;
  // the transactions run on the state of the block being mined on.
  function NextBlock(root: Actors, current: Block, address: Address, pooled: seq<Transaction>): Result<Block, Failure> {
    if TOKEN !in root then Err(ActorNotFound)
    else
      var txs := [RewardTx(address, root[TOKEN].nonce)] + pooled;
      match RootOf(current)
      case None => Err(MemoryNotFound)
      case Some(actors) =>
        var r := Apply(actors, txs);
        if r.error.Some? then Err(r.error.value)
        else Ok(Block(Some(CidOf(current)), txs, ReceiptList(actors, txs), NextHeight(current),
                      Some(StateCid(r.actors)), None, None))
  }

  // The header of a mined block and its first transaction, in full: the height is the next one, modulo 2^64.
  lemma MinedHeader(root: Actors, current: Block, address: Address, pooled: seq<Transaction>)
    requires NextBlock(root, current, address, pooled).Ok?
    ensures TOKEN in root
    ensures var nb := NextBlock(root, current, address, pooled).value;
            && nb.parent == Some(CidOf(current)) && nb.tickLimit.None? && nb.ticksUsed.None?
            && nb.height == (if current.height + 1 < 0x1_0000_0000_0000_0000 then current.height + 1 else 0)
            && nb.txs == [Transaction(TOKEN, TOKEN, root[TOKEN].nonce, None, None, TRANSFER,
                                      [Addr(address), Big(1_000_000)])] + pooled
  {
    hide Exec, Apply, ReceiptList;
  }

  // Whatever the manager's state was, a mined block is a genuine child of the block it was mined on.
  lemma MinedIsGenuine(root: Actors, current: Block, address: Address, pooled: seq<Transaction>)
    requires KnownGood(CidOf(current))
    requires NextBlock(root, current, address, pooled).Ok?
    ensures var nb := NextBlock(root, current, address, pooled).value;
            && ParentOf(nb) == Some(NormalBlock(current))
            && Genuine(nb)
  {
    hide Apply, Check;
    BlockRoundTrip(current);
    var nb := NextBlock(root, current, address, pooled).value;
    BusyIsNotGenesis(nb);
    assert Check(RootOf(current).value, nb).Some? by {
      MinedChecks(root, current, address, pooled);
    }
  }

  lemma MinedChecks(root: Actors, current: Block, address: Address, pooled: seq<Transaction>)
    requires NextBlock(root, current, address, pooled).Ok?
    ensures Check(RootOf(current).value, NextBlock(root, current, address, pooled).value).Some?
  {
    hide Exec;
  }

  // A child of a known block that checks against its state needs no more than its own replay.
  lemma ChildOfKnown(good: set<Cid>, available: set<Cid>, best: Block, current: Block, nb: Block)
    requires CidOf(current) in good && CidOf(current) in available
    requires nb.parent == Some(CidOf(current)) && RootOf(current).Some? && Check(RootOf(current).value, nb).Some?
    ensures Validate(good, available, best, nb).ok <==> Score(nb) > Score(best)
  {
    BlockRoundTrip(current);
    var base := NormalBlock(current);
    assert ParentOf(nb) == Some(base);
    hide Check, EncodeBlock, NormalBlock, ParentOf;
    if CidOf(nb) in good {
      assert Walk(good, available, nb) == Some(Path([], nb));
    } else {
      assert Walk(good, available, base) == Some(Path([], base));
      assert [nb] + [] == [nb];
      assert Walk(good, available, nb) == Some(Path([nb], base));
      assert PathState(RootOf(base).value, [nb][1..]) == Some(RootOf(base).value);
    }
  }

  // The miner's own node accepts its block exactly when it is higher than the best block, so mining on the
  // best block is accepted exactly when the height does not wrap.
  lemma MinerAgreesWithValidator(
    good: set<Cid>, available: set<Cid>, best: Block,
    root: Actors, current: Block, address: Address, pooled: seq<Transaction>)
    requires CidOf(current) in good && CidOf(current) in available
    requires NextBlock(root, current, address, pooled).Ok?
    ensures var nb := NextBlock(root, current, address, pooled).value;
            && (Validate(good, available, best, nb).ok <==> Score(nb) > Score(best))
            && (best == current ==> (Validate(good, available, best, nb).ok <==> current.height + 1 < UINT64_LIMIT))
  {
    var nb := NextBlock(root, current, address, pooled).value;
    MinedChecks(root, current, address, pooled);
    hide Check, Validate, Apply;
    ChildOfKnown(good, available, best, current, nb);
  }

  lemma MinedTxs(root: Actors, current: Block, address: Address, pooled: seq<Transaction>)
    requires NextBlock(root, current, address, pooled).Ok?
    ensures TOKEN in root
    ensures NextBlock(root, current, address, pooled).value.txs == [RewardTx(address, root[TOKEN].nonce)] + pooled
  {
    hide Exec;
  }

  lemma RewardIsStable(address: Address, nonce: Uint64)
    ensures Stable(RewardTx(address, nonce)) <==> Wireable(address)
  {
    hide Wireable;
  }

  // Which mined blocks mean the same to receivers: a check on the miner's address and the pool.
  lemma MinedIsStable(root: Actors, current: Block, address: Address, pooled: seq<Transaction>)
    requires NextBlock(root, current, address, pooled).Ok?
    ensures StableBlock(NextBlock(root, current, address, pooled).value) <==> Wireable(address) && StableList(pooled)
  {
    hide NextBlock, Wireable, RewardTx, Stable;
    var nb := NextBlock(root, current, address, pooled).value;
    MinedTxs(root, current, address, pooled);
    RewardIsStable(address, root[TOKEN].nonce);
    assert forall i :: 0 <= i < |pooled| ==> nb.txs[i + 1] == pooled[i];
    if StableBlock(nb) {
      forall i | 0 <= i < |pooled|
        ensures Stable(pooled[i])
      {
        assert Stable(nb.txs[i + 1]);
      }
      assert Stable(nb.txs[0]);
    } else {
      var i :| 0 <= i < |nb.txs| && !Stable(nb.txs[i]);
      assert i > 0 ==> nb.txs[i] == pooled[i - 1];
    }
  }

  // A miner with a readable address and a received pool mines blocks that every other node, whatever it
  // already knows, accepts as soon as it can fetch the ancestors and the block is higher than its best.
  lemma ReceiversAgree(
    root: Actors, current: Block, address: Address, pooled: seq<Transaction>,
    good: set<Cid>, available: set<Cid>, best: Block)
    requires KnownGood(CidOf(current)) && NextBlock(root, current, address, pooled).Ok?
    requires Wireable(address) && StableList(pooled)
    requires var nb := NextBlock(root, current, address, pooled).value;
             Sound(good) && Fetchable(available, NormalBlock(nb))
    ensures var nb := NextBlock(root, current, address, pooled).value;
            Validate(good, available, best, NormalBlock(nb)).ok <==> Score(nb) > Score(best)
  {
    var nb := NextBlock(root, current, address, pooled).value;
    MinedIsGenuine(root, current, address, pooled);
    MinedIsStable(root, current, address, pooled);
    StableReplay(nb);
    NormalBlockIsStable(nb);
    CacheIsExact(good, available, best, NormalBlock(nb));
  }

  // Receivers read a reward to this address as its miner does: the address survives the wire, or the reserve is
  // exhausted and both the address and what it is mistaken for already have an actor.
  predicate ReadsBack(actors: Actors, address: Address)
    requires TokenWorld(actors)
  {
    || Wireable(address)
    || (&& Balance(TokenMemory(actors), TOKEN) < MINING_REWARD && address in actors
        && AddressCast(Decoded(Text(address))).Ok? && AddressCast(Decoded(Text(address))).value in actors)
  }

  lemma KnownState(current: Block)
    requires KnownGood(CidOf(current))
    ensures RootOf(current).Some? && RootOf(current) == ReplayState(NormalBlock(current))
    ensures TokenWorld(RootOf(current).value)
  {
    BlockRoundTrip(current);
    GenuineTokenWorld(NormalBlock(current));
  }

  // The block that a miner builds with an empty pool is genuine for receivers if and only if its reward reads
  // back. A random address whose first two bytes spell "0x" makes a miner whose blocks, while the
  // reserve can pay, only its own node accepts.
  lemma RewardReadsBack(root: Actors, current: Block, address: Address)
    requires KnownGood(CidOf(current)) && NextBlock(root, current, address, []).Ok?
    ensures RootOf(current).Some? && TokenWorld(RootOf(current).value)
    ensures Genuine(NormalBlock(NextBlock(root, current, address, []).value)) <==>
            ReadsBack(RootOf(current).value, address)
  {
    KnownState(current);
    EmptyMined(root, current, address);
    hide *;
    var nb := NextBlock(root, current, address, []).value;
    var actors, tx := RootOf(current).value, RewardTx(address, root[TOKEN].nonce);
    ChildIsGenuine(current, nb);
    OneCheck(actors, nb, tx);
    OneCheck(actors, NormalBlock(nb), Normal(tx));
    ReceivedReward(actors, tx, address);
  }

  lemma EmptyMined(root: Actors, current: Block, address: Address)
    requires NextBlock(root, current, address, []).Ok? && RootOf(current).Some?
    ensures TOKEN in root
    ensures var nb, tx := NextBlock(root, current, address, []).value, RewardTx(address, root[TOKEN].nonce);
            && nb.txs == [tx] && NormalBlock(nb).txs == [Normal(tx)] && nb.parent == Some(CidOf(current))
            && tx == RewardTx(address, tx.nonce) && Check(RootOf(current).value, nb).Some?
  {
    hide Exec, Normal, Check, ReceiptList, EncodeBlock;
    MinedChecks(root, current, address, []);
  }

  lemma OneCheck(actors: Actors, b: Block, tx: Transaction)
    requires b.txs == [tx]
    ensures Check(actors, b).Some? <==>
            Exec(actors, tx).result.Ok? && b.stateRoot == Some(StateCid(Exec(actors, tx).actors))
  {
    hide Exec;
    ApplyOne(actors, tx);
  }

  lemma ChildIsGenuine(current: Block, nb: Block)
    requires KnownGood(CidOf(current)) && RootOf(current).Some? && nb.parent == Some(CidOf(current)) && nb.txs != []
    ensures Genuine(NormalBlock(nb)) <==> Check(RootOf(current).value, NormalBlock(nb)).Some?
    ensures NormalBlock(nb).stateRoot == nb.stateRoot
  {
    BlockRoundTrip(current);
    SameParent(nb);
    BusyIsNotGenesis(NormalBlock(nb));
    hide Check, IsGenesis, EncodeBlock;
  }

  lemma ReceivedReward(actors: Actors, tx: Transaction, address: Address)
    requires TokenWorld(actors) && tx == RewardTx(address, tx.nonce) && Exec(actors, tx).result.Ok?
    ensures var o := Exec(actors, Normal(tx));
            o.result.Ok? && o.actors == Exec(actors, tx).actors <==> ReadsBack(actors, address)
  {
    hide Exec, Normal, Balance, WithActor;
    if Wireable(address) {
      assert Stable(tx);
      StableExec(actors, tx);
    } else if Balance(TokenMemory(actors), TOKEN) >= MINING_REWARD {
      RewardTellsApart(actors, tx, address);
    } else {
      RevertedRewards(actors, tx, address);
    }
  }

  // With an exhausted reserve all that is left of a reward is the actor it creates.
  lemma RevertedRewards(actors: Actors, tx: Transaction, address: Address)
    requires TokenWorld(actors) && Balance(TokenMemory(actors), TOKEN) < MINING_REWARD && !Wireable(address)
    requires tx == RewardTx(address, tx.nonce) && Exec(actors, tx).result.Ok?
    ensures var o := Exec(actors, Normal(tx));
            o.result.Ok? && o.actors == Exec(actors, tx).actors <==>
            && address in actors && AddressCast(Decoded(Text(address))).Ok?
            && AddressCast(Decoded(Text(address))).value in actors
  {
    hide AddressCast, PaymentOf, Normal, Balance, Wireable, Exec, TokenWorld;
    RewardAfterTheWire(tx, address);
    var t := Normal(tx);
    Reached(actors, tx);
    assert Preflight(actors, t) == Preflight(actors, tx);
    ShortPayment(actors, tx);
    if AddressCast(t.params[0]).Ok? {
      ShortPayment(actors, t);
      var b := AddressCast(t.params[0]).value;
      assert address in WithActor(actors, address) && b in WithActor(actors, b);
    } else {
      NotUnderstood(actors, t);
    }
  }

  // A transfer that its sender cannot cover creates the recipient and reverts.
  lemma ShortPayment(actors: Actors, tx: Transaction)
    requires TokenWorld(actors) && Preflight(actors, tx).None? && PaymentOf(tx).Some?
    requires Balance(TokenMemory(actors), tx.from) < PaymentOf(tx).value.amount
    ensures Exec(actors, tx) == Executed(WithActor(actors, PaymentOf(tx).value.to), Ok(Receipt(false, NIL)))
  {
    hide AddressCast, NumberCast, SetBytes, WithActor;
    assert actors[tx.to].memory == actors[TOKEN].memory;
  }

  lemma NotUnderstood(actors: Actors, tx: Transaction)
    requires tx.call == TRANSFER && |tx.params| == 2 && AddressCast(tx.params[0]).Err?
    ensures !Exec(actors, tx).result.Ok?
  {
    hide NumberCast;
  }

  lemma RewardTellsApart(actors: Actors, tx: Transaction, address: Address)
    requires TokenWorld(actors) && Balance(TokenMemory(actors), TOKEN) >= MINING_REWARD
    requires tx == RewardTx(address, tx.nonce) && Exec(actors, tx).result.Ok? && !Wireable(address)
    ensures var o := Exec(actors, Normal(tx));
            o.result.Err? || o.actors != Exec(actors, tx).actors
  {
    var t := Normal(tx);
    RewardAfterTheWire(tx, address);
    assert t.call == TRANSFER && t.to == t.from == TOKEN;
    hide Exec, Normal, PaymentOf, Moved, Wireable;
    if Exec(actors, t).result.Ok? {
      TransferIsUnderstood(actors, t);
      RewardMemory(actors, tx);
      RewardMemory(actors, t);
      CreditTellsApart(TokenMemory(actors), address, PaymentOf(t).value.to);
    }
  }

  lemma RewardAfterTheWire(tx: Transaction, address: Address)
    requires tx == RewardTx(address, tx.nonce) && !Wireable(address)
    ensures address != TOKEN && PaymentOf(tx) == Some(Payment(address, MINING_REWARD))
    ensures PaymentOf(Normal(tx)).Some? ==>
              PaymentOf(Normal(tx)).value.to != address && PaymentOf(Normal(tx)).value.amount == MINING_REWARD
    ensures var t := Normal(tx);
            && t.call == TRANSFER && t.from == t.to == TOKEN && t.nonce == tx.nonce && |t.params| == 2
            && t.params[0] == Decoded(Text(address))
            && (AddressCast(t.params[0]).Ok? ==>
                  PaymentOf(t) == Some(Payment(AddressCast(t.params[0]).value, MINING_REWARD)))
  {
    assert TOKEN[..2][0] == 116;
    assert NumberCast(Normal(tx).params[1]) == Ok(MINING_REWARD);
    AddressCastWire(tx.params[0]);
    NumberCastWire(tx.params[1]);
  }

  lemma TransferIsUnderstood(actors: Actors, tx: Transaction)
    requires tx.call == TRANSFER && |tx.params| == 2 && Exec(actors, tx).result.Ok?
    ensures PaymentOf(tx).Some?
  {
  }

  lemma RewardMemory(actors: Actors, tx: Transaction)
    requires TokenWorld(actors) && Balance(TokenMemory(actors), TOKEN) >= MINING_REWARD
    requires tx.to == tx.from == TOKEN && Exec(actors, tx).result.Ok?
    requires PaymentOf(tx).Some? && PaymentOf(tx).value.amount == MINING_REWARD
    ensures TokenWorld(Exec(actors, tx).actors)
    ensures TokenMemory(Exec(actors, tx).actors) ==
            Moved(TokenMemory(actors), TOKEN, PaymentOf(tx).value.to, MINING_REWARD)
  {
    ExecTokenWorld(actors, tx);
    hide Bytes, SetBytes, AddressCast, NumberCast;
  }

  lemma CreditTellsApart(m: Memory, a: Address, b: Address)
    requires a != TOKEN && a != b && Balance(m, TOKEN) >= MINING_REWARD
    ensures Moved(m, TOKEN, a, MINING_REWARD) != Moved(m, TOKEN, b, MINING_REWARD)
  {
    hide Bytes, SetBytes;
    assert Balance(Moved(m, TOKEN, a, MINING_REWARD), a) == Balance(m, a) + MINING_REWARD;
    assert Balance(Moved(m, TOKEN, b, MINING_REWARD), a) == Balance(m, a);
  }

  // With an empty pool a block can be built on a known block exactly when the reward's nonce, read from the
  // manager's state, is the one due in the state of the block being mined on: the reward then at
  // worst reverts. A miner that lags behind the best block fails as soon as the two differ.
  lemma EmptyPoolBuilds(root: Actors, current: Block, address: Address)
    requires KnownGood(CidOf(current))
    ensures RootOf(current).Some? && TOKEN in RootOf(current).value
    ensures NextBlock(root, current, address, []).Ok? <==>
            TOKEN in root && root[TOKEN].nonce == RootOf(current).value[TOKEN].nonce
  {
    hide KnownGood, CidOf, TokenWorld, Exec, RewardTx, ReceiptList, ReplayState, NormalBlock;
    KnownState(current);
    if TOKEN in root {
      var actors, tx := RootOf(current).value, RewardTx(address, root[TOKEN].nonce);
      RewardRuns(actors, address, root[TOKEN].nonce);
      ApplyOne(actors, tx);
      assert [tx] + [] == [tx];
    } else {
      RewardRuns(RootOf(current).value, address, 0);
    }
  }

  // In a state grown from genesis all that can stop a reward is its nonce.
  lemma RewardRuns(actors: Actors, address: Address, nonce: Uint64)
    requires TokenWorld(actors)
    ensures TOKEN in actors
    ensures Exec(actors, RewardTx(address, nonce)).result.Ok? <==> nonce == actors[TOKEN].nonce
  {
    hide SetBytes, Bytes;
    var tx := RewardTx(address, nonce);
    assert PaymentOf(tx) == Some(Payment(address, MINING_REWARD));
  }

  // Two orders of the same pool build blocks with the same state root, if after the reward the pooled
  // payments are independent.
  lemma OrderOfPoolDoesNotMatter(
    root: Actors, current: Block, address: Address, xs: seq<Transaction>, ys: seq<Transaction>)
    requires TOKEN in root && RootOf(current).Some? && multiset(xs) == multiset(ys)
    requires var first := Apply(RootOf(current).value, [RewardTx(address, root[TOKEN].nonce)]);
             first.error.None? && Independent(first.actors, multiset(xs))
    ensures NextBlock(root, current, address, xs).Ok? && NextBlock(root, current, address, ys).Ok?
    ensures NextBlock(root, current, address, xs).value.stateRoot ==
            NextBlock(root, current, address, ys).value.stateRoot
  {
    hide Exec, Independent, Payable;
    var actors, reward := RootOf(current).value, RewardTx(address, root[TOKEN].nonce);
    OrderDoesNotMatter(Apply(actors, [reward]).actors, xs, ys);
    ApplyConcat(actors, [reward], xs);
    ApplyConcat(actors, [reward], ys);
  }
}
