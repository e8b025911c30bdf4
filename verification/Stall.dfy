/** Which blocks can be built, and how one pooled transaction can stop a miner (state/miner.go:112-129,
    types/transaction_pool.go): one that the contract can make nothing of, or whose nonce its sender has used, can
    never run, makes every block that includes it fail, and is never cleared from the pool. */
module Stall {
  import opened Wrappers
  import opened BigInt
  import opened Types
  import opened Ledger
  import opened Wire
  import opened Nonces
  import opened Chain
  import opened Laws
  import opened Mining
  import opened Pool
  import opened Protocol

  // ---------- which lists run, and which blocks can be built ----------

  // A block can be built on a known block exactly when every transaction, the reward first, comes to a sender that
  // exists and is due its nonce, and makes sense to the contract.
  lemma BuildsExactly(root: Actors, current: Block, address: Address, pooled: seq<Transaction>)
    requires KnownGood(CidOf(current))
    ensures RootOf(current).Some? && TokenWorld(RootOf(current).value)
    ensures NextBlock(root, current, address, pooled).Ok? <==>
            && TOKEN in root
            && RunsThrough(RootOf(current).value, [RewardTx(address, root[TOKEN].nonce)] + pooled)
  {
    hide KnownGood, CidOf, TokenWorld, Apply, RunsThrough, RewardTx, NextBlock;
    KnownState(current);
    BuildsIfRuns(root, current, address, pooled);
    if TOKEN in root {
      RunsThroughExactly(RootOf(current).value, [RewardTx(address, root[TOKEN].nonce)] + pooled);
    }
  }

  lemma BuildsIfRuns(root: Actors, current: Block, address: Address, pooled: seq<Transaction>)
    requires RootOf(current).Some?
    ensures NextBlock(root, current, address, pooled).Ok? <==>
            && TOKEN in root
            && Apply(RootOf(current).value, [RewardTx(address, root[TOKEN].nonce)] + pooled).error.None?
  {
    hide Apply, RewardTx, RootOf, ReceiptList, CidOf;
  }

  predicate RunsThrough(actors: Actors, txs: seq<Transaction>)
    requires TokenWorld(actors)
  {
    forall i :: 0 <= i < |txs| ==> RunsNext(actors, txs, i)
  }

  predicate RunsNext(actors: Actors, txs: seq<Transaction>, i: nat)
    requires TokenWorld(actors) && i < |txs|
  {
    var before := Apply(actors, txs[..i]).actors;
    ApplyTokenWorld(actors, txs[..i]);
    Due(before, txs[i]) && Understood(TokenMemory(before), txs[i])
  }

  lemma {:induction false} RunsThroughExactly(actors: Actors, txs: seq<Transaction>)
    requires TokenWorld(actors)
    ensures Apply(actors, txs).error.None? <==> RunsThrough(actors, txs)
  {
    hide Exec, TokenWorld, Understood;
    if txs != [] {
      var n := |txs| - 1;
      RunsThroughExactly(actors, txs[..n]);
      forall i | 0 <= i < n
        ensures RunsNext(actors, txs[..n], i) == RunsNext(actors, txs, i)
      {
        assert txs[..n][..i] == txs[..i] && txs[..n][i] == txs[i];
      }
      ApplyTokenWorld(actors, txs[..n]);
      RunsExactly(Apply(actors, txs[..n]).actors, txs[n]);
      assert RunsNext(actors, txs, n) == Exec(Apply(actors, txs[..n]).actors, txs[n]).result.Ok?;
      hide RunsNext;
    }
  }

  // Transfers by distinct senders that all have an actor run to the end exactly when every nonce is the stored one.
  lemma {:induction false} TransfersRunExactly(actors: Actors, txs: seq<Transaction>)
    requires TokenWorld(actors)
    requires forall i :: 0 <= i < |txs| ==> txs[i].to == TOKEN && txs[i].from in actors && PaymentOf(txs[i]).Some?
    requires forall i, j :: 0 <= i < j < |txs| ==> txs[i].from != txs[j].from
    ensures Apply(actors, txs).error.None? <==> forall i :: 0 <= i < |txs| ==> Due(actors, txs[i])
  {
    hide Exec, TokenWorld, Due;
    if txs != [] {
      var n := |txs| - 1;
      var rest := txs[..n];
      assert forall i :: 0 <= i < n ==> rest[i] == txs[i];
      TransfersRunExactly(actors, rest);
      ApplyTokenWorld(actors, rest);
      RunsExactly(Apply(actors, rest).actors, txs[n]);
      OthersLeaveDue(actors, rest, txs[n]);
      TransferIsUnderstood(TokenMemory(Apply(actors, rest).actors), txs[n]);
      AllDue(actors, txs);
      hide PaymentOf, Understood;
    }
  }

  lemma AllDue(actors: Actors, txs: seq<Transaction>)
    requires txs != []
    ensures var n := |txs| - 1;
            (forall i :: 0 <= i < |txs| ==> Due(actors, txs[i])) <==>
            (forall i :: 0 <= i < n ==> Due(actors, txs[..n][i])) && Due(actors, txs[n])
  {
    hide Due;
    var n := |txs| - 1;
    if (forall i :: 0 <= i < n ==> Due(actors, txs[..n][i])) && Due(actors, txs[n]) {
      forall i | 0 <= i < |txs|
        ensures Due(actors, txs[i])
      {
        assert i < n ==> Due(actors, txs[..n][i]);
      }
    }
  }

  lemma TransferIsUnderstood(m: Memory, tx: Transaction)
    requires tx.to == TOKEN && PaymentOf(tx).Some?
    ensures Understood(m, tx)
  {
    hide AddressCast, NumberCast;
    assert TRANSFER[0] != GET_BALANCE[0];
  }

  // Whether a transaction is due depends on its sender's own transactions only.
  lemma {:induction false} OthersLeaveDue(actors: Actors, txs: seq<Transaction>, tx: Transaction)
    requires tx.from in actors && forall i :: 0 <= i < |txs| ==> txs[i].from != tx.from
    ensures Due(Apply(actors, txs).actors, tx) <==> Due(actors, tx)
  {
    hide Exec;
    NonceLaw(actors, txs, tx.from);
    ActorsStay(actors, txs, tx.from);
    NothingUsed(actors, txs, tx.from);
    SmallResidue(NonceOf(actors, tx.from));
  }

  lemma {:induction false} NothingUsed(actors: Actors, txs: seq<Transaction>, a: Address)
    requires forall i :: 0 <= i < |txs| ==> txs[i].from != a
    ensures Used(actors, txs, a) == []
  {
    hide Exec;
    if txs != [] {
      NothingUsed(actors, txs[..|txs| - 1], a);
    }
  }

  // With a pool of transfers by distinct senders other than the reserve, a block can be built exactly when the reward
  // and every pooled transaction carry the nonce stored for their sender.
  lemma TransfersBuildExactly(root: Actors, current: Block, address: Address, pooled: seq<Transaction>)
    requires KnownGood(CidOf(current)) && RootOf(current).Some?
    requires forall i :: 0 <= i < |pooled| ==>
               && pooled[i].to == TOKEN && PaymentOf(pooled[i]).Some?
               && pooled[i].from in RootOf(current).value && pooled[i].from != TOKEN
    requires forall i, j :: 0 <= i < j < |pooled| ==> pooled[i].from != pooled[j].from
    ensures TOKEN in RootOf(current).value
    ensures NextBlock(root, current, address, pooled).Ok? <==>
            && TOKEN in root && root[TOKEN].nonce == RootOf(current).value[TOKEN].nonce
            && forall i :: 0 <= i < |pooled| ==> Due(RootOf(current).value, pooled[i])
  {
    hide *;
    KnownState(current);
    BuildsIfRuns(root, current, address, pooled);
    var actors := RootOf(current).value;
    TokenIsThere(actors);
    if TOKEN in root {
      RewardIsPayment(actors, address, root[TOKEN].nonce);
      TransfersAfter(actors, RewardTx(address, root[TOKEN].nonce), pooled);
    }
  }

  lemma TokenIsThere(actors: Actors)
    requires TokenWorld(actors)
    ensures TOKEN in actors
  {
  }

  lemma TransfersAfter(actors: Actors, first: Transaction, rest: seq<Transaction>)
    requires TokenWorld(actors) && first.to == TOKEN && first.from in actors && PaymentOf(first).Some?
    requires forall i :: 0 <= i < |rest| ==>
               && rest[i].to == TOKEN && PaymentOf(rest[i]).Some?
               && rest[i].from in actors && rest[i].from != first.from
    requires forall i, j :: 0 <= i < j < |rest| ==> rest[i].from != rest[j].from
    ensures Apply(actors, [first] + rest).error.None? <==>
            Due(actors, first) && forall i :: 0 <= i < |rest| ==> Due(actors, rest[i])
  {
    hide *;
    var txs := [first] + rest;
    assert forall i :: 0 < i < |txs| ==> txs[i] == rest[i - 1];
    TransfersRunExactly(actors, txs);
    if forall i :: 0 <= i < |txs| ==> Due(actors, txs[i]) {
      assert Due(actors, txs[0]);
      forall i | 0 <= i < |rest|
        ensures Due(actors, rest[i])
      {
        assert Due(actors, txs[i + 1]);
      }
    }
  }

  lemma RewardIsPayment(actors: Actors, address: Address, nonce: Uint64)
    requires TOKEN in actors
    ensures var tx := RewardTx(address, nonce);
            && tx.to == tx.from == TOKEN && PaymentOf(tx) == Some(Payment(address, MINING_REWARD))
            && (Due(actors, tx) <==> nonce == actors[TOKEN].nonce)
  {
  }

  // A pooled transaction from the reserve with the nonce that is due competes with the reward: as long as the reserve
  // can pay, no block can be built.
  lemma RewardRival(root: Actors, current: Block, address: Address, pooled: seq<Transaction>, k: nat)
    requires KnownGood(CidOf(current)) && RootOf(current).Some? && TokenWorld(RootOf(current).value)
    requires Balance(TokenMemory(RootOf(current).value), TOKEN) >= MINING_REWARD
    requires k < |pooled| < UINT64_LIMIT - 1 && pooled[k].from == TOKEN
    requires pooled[k].nonce == RootOf(current).value[TOKEN].nonce
    ensures NextBlock(root, current, address, pooled).Err?
  {
    hide KnownGood, CidOf, Apply, NextBlock, Balance, TokenWorld, RewardTx, Used, ReceiptAt, RootOf;
    var actors := RootOf(current).value;
    BuildsIfRuns(root, current, address, pooled);
    TokenIsThere(actors);
    if NextBlock(root, current, address, pooled).Ok? {
      var reward := RewardTx(address, root[TOKEN].nonce);
      var txs := [reward] + pooled;
      assert txs[k + 1] == pooled[k];
      RewardIsPayment(actors, address, root[TOKEN].nonce);
      FirstIsDue(actors, txs);
      CoveredRewardSucceeds(actors, txs, reward);
      NoReplay(actors, txs, 0, k + 1);
    }
  }

  lemma FirstIsDue(actors: Actors, txs: seq<Transaction>)
    requires txs != [] && Apply(actors, txs).error.None?
    ensures Due(actors, txs[0]) && Exec(actors, txs[0]).result.Ok?
    ensures ReceiptAt(actors, txs, 0) == Exec(actors, txs[0]).result.value
  {
    hide Exec;
    ApplyPrefix(actors, txs, 0);
    assert txs[..0] == [];
    Reached(actors, txs[0]);
  }

  lemma CoveredRewardSucceeds(actors: Actors, txs: seq<Transaction>, reward: Transaction)
    requires TokenWorld(actors) && Balance(TokenMemory(actors), TOKEN) >= MINING_REWARD
    requires txs != [] && txs[0] == reward && Apply(actors, txs).error.None?
    requires reward.from == TOKEN && PaymentOf(reward).Some? && PaymentOf(reward).value.amount == MINING_REWARD
    ensures ReceiptAt(actors, txs, 0).success
  {
    FirstIsDue(actors, txs);
    hide Apply, Bytes, SetBytes, AddressCast, NumberCast, Moved;
  }

  // ---------- transactions that nothing can save ----------

  // On the chain up to b the sender has gone past this nonce.
  predicate Spent(b: Block, tx: Transaction) {
    tx.nonce < |UsedBy(b, tx.from)|
  }

  predicate Hopeless(b: Block, tx: Transaction) {
    Spent(b, tx) || !Sensible(tx)
  }

  lemma SpentStays(p: Block, b: Block, tx: Transaction)
    requires Genuine(b) && IsAncestor(p, b) && Spent(p, tx)
    ensures Spent(b, tx)
  {
    hide UsedBy;
    AncestorUsed(p, b, tx.from);
  }

  // How often the sender of the i-th of some transactions run on b has succeeded before it.
  function UsedBefore(b: Block, txs: seq<Transaction>, i: nat): nat
    requires Genuine(b) && i < |txs|
  {
    |UsedBy(b, txs[i].from)| + |Used(ReplayState(b).value, txs[..i], txs[i].from)|
  }

  // A transaction that gets a receipt on b, before its sender's nonces wrap, carries the number of its sender's
  // successes so far, and is sensible.
  lemma ReceiptMeansHope(b: Block, txs: seq<Transaction>, i: nat)
    requires Genuine(b) && i < |txs| && Apply(ReplayState(b).value, txs).error.None?
    ensures UsedBefore(b, txs, i) < UINT64_LIMIT ==> txs[i].nonce == UsedBefore(b, txs, i) && !Spent(b, txs[i])
    ensures Sensible(txs[i])
    ensures Exec(Apply(ReplayState(b).value, txs[..i]).actors, txs[i]).result.Ok?
    ensures TokenWorld(Apply(ReplayState(b).value, txs[..i]).actors)
  {
    hide Used, NonceOf, UsedBy, ReplayState, Apply, Sensible, TokenWorld, Exec;
    var actors := ReplayState(b).value;
    if UsedBefore(b, txs, i) < UINT64_LIMIT {
      StoredNonce(b, txs[i].from);
      DueNonce(actors, txs, i);
      SmallResidue(UsedBefore(b, txs, i));
    }
    GenuineTokenWorld(b);
    ApplyTokenWorld(actors, txs[..i]);
    ApplyPrefix(actors, txs, i);
    SensibleExactly(txs[i]);
  }

  // A pooled transaction that is hopeless at p stops every block on p and on every descendant of p, in whatever order
  // the pool is read and whatever the manager's state; one that makes no sense does so whatever its nonce.
  lemma HopelessStopsMining(
    p: Block, root: Actors, current: Block, address: Address, pool: Pooled, pooled: seq<Transaction>, c: Cid)
    requires KnownGood(CidOf(current)) && IsAncestor(p, NormalBlock(current))
    requires IsOrder(pool, pooled) && c in pool && Hopeless(p, pool[c])
    requires Sensible(pool[c]) ==> |UsedBy(NormalBlock(current), pool[c].from)| + |pool| < UINT64_LIMIT
    ensures NextBlock(root, current, address, pooled).Err?
  {
    hide Spent, UsedBy, Sensible, IsAncestor, Apply, NormalBlock, CidOf, IsOrder, KnownGood;
    hide ReplayState, Used, NextBlock, RootOf, RewardTx;
    KnownState(current);
    BuildsIfRuns(root, current, address, pooled);
    var b := NormalBlock(current);
    KnownIsGenuine(current);
    if NextBlock(root, current, address, pooled).Ok? {
      var i := PlaceInOrder(pool, pooled, c);
      var txs := [RewardTx(address, root[TOKEN].nonce)] + pooled;
      assert txs[i + 1] == pool[c];
      ReceiptMeansHope(b, txs, i + 1);
      if Sensible(pool[c]) {
        SpentStays(p, b, pool[c]);
      }
    }
  }

  lemma KnownIsGenuine(current: Block)
    requires KnownGood(CidOf(current))
    ensures Genuine(NormalBlock(current))
  {
    BlockRoundTrip(current);
  }

  lemma PlaceInOrder(pool: Pooled, pooled: seq<Transaction>, c: Cid) returns (i: nat)
    requires IsOrder(pool, pooled) && c in pool
    ensures i < |pooled| == |pool| && pooled[i] == pool[c]
  {
    var keys :| Lists(pool, keys, pooled);
    DistinctKeysCover(pool.Keys, keys, c);
    i :| 0 <= i < |keys| && keys[i] == c;
  }

  // The miner's timer then does nothing at all.
  lemma StalledMiner(p: Block, n: NodeState, remote: set<Cid>, pooled: seq<Transaction>, c: Cid)
    requires NodeInv(n) && IsAncestor(p, NormalBlock(n.current))
    requires IsOrder(n.mgr.pool, pooled) && c in n.mgr.pool && Hopeless(p, n.mgr.pool[c])
    requires Sensible(n.mgr.pool[c]) ==>
               |UsedBy(NormalBlock(n.current), n.mgr.pool[c].from)| + |n.mgr.pool| < UINT64_LIMIT
    ensures Mine(n, remote, pooled) == Mined(n, None)
  {
    assert KnownGood(CidOf(n.current)) by {
      hide KnownGood, KnownParent, CidOf;
      assert Sound(n.mgr.good);
    }
    hide NodeInv, KnownGood, Hopeless, UsedBy, IsOrder, NextBlock, Process, Sensible;
    HopelessStopsMining(p, n.mgr.root, n.current, n.address, n.mgr.pool, pooled, c);
  }

  lemma SameFields(t: Transaction, u: Transaction)
    requires TxCidOf(t) == TxCidOf(u)
    ensures t.from == u.from && t.nonce == u.nonce && Normal(t) == Normal(u)
  {
    TxCidIdentifies(t, u);
  }

  // ---------- which transactions a later block can carry ----------

  // Wherever b carries the transaction, its sender's nonces have not wrapped by then.
  ghost predicate InTime(b: Block, tx: Transaction) {
    ParentOf(b).Some? && Genuine(ParentOf(b).value) ==>
      forall i :: 0 <= i < |b.txs| && TxCidOf(b.txs[i]) == TxCidOf(tx) ==>
        UsedBefore(ParentOf(b).value, b.txs, i) < UINT64_LIMIT
  }

  // The block that a genuine descendant's transactions run on.
  lemma ParentBelow(p: Block, b: Block, a: Address) returns (above: Block)
    requires Genuine(b) && IsAncestor(p, b) && p != b
    ensures ParentOf(b) == Some(above)
    ensures Genuine(above) && IsAncestor(p, above) && |UsedBy(above, a)| <= |UsedBy(b, a)|
    ensures Apply(ReplayState(above).value, b.txs).error.None?
  {
    NoParentOfGenesis(b);
    above := ParentOf(b).value;
    AncestorUsed(above, b, a);
    hide UsedBy, Apply, CidOf;
  }

  lemma UsedAddsUp(b: Block, a: Address)
    requires Genuine(b) && ParentOf(b).Some?
    ensures Genuine(ParentOf(b).value)
    ensures |UsedBy(b, a)| ==
            |UsedBy(ParentOf(b).value, a)| + |Used(ReplayState(ParentOf(b).value).value, b.txs, a)|
  {
    var above := ParentOf(b).value;
    NoParentOfGenesis(b);
    ReplayIsApply(above);
    UsedConcat(GENESIS_ACTORS, Transcript(above), b.txs, a);
    hide Used, Apply, Check, CidOf, GENESIS_ACTORS;
  }

  // It is enough that the sender has not used all its nonces by the end of the block.
  lemma EarlyIsInTime(b: Block, tx: Transaction)
    requires Genuine(b) && |UsedBy(b, tx.from)| < UINT64_LIMIT
    ensures InTime(b, tx)
  {
    hide Used, UsedBy, TxCidOf, ReplayState, ParentOf;
    if ParentOf(b).Some? && Genuine(ParentOf(b).value) {
      var above := ParentOf(b).value;
      UsedAddsUp(b, tx.from);
      forall i | 0 <= i < |b.txs| && TxCidOf(b.txs[i]) == TxCidOf(tx)
        ensures UsedBefore(above, b.txs, i) < UINT64_LIMIT
      {
        SameFields(b.txs[i], tx);
        assert b.txs == b.txs[..i] + b.txs[i..];
        UsedPrefix(ReplayState(above).value, b.txs[..i], b.txs[i..], tx.from);
      }
    }
  }

  // b is a later block of the chain through p that carries the transaction.
  ghost predicate Carries(p: Block, b: Block, tx: Transaction) {
    Genuine(b) && StableBlock(b) && IsAncestor(p, b) && p != b && InTime(b, tx) && TxCidOf(tx) in Cleared(b)
  }

  // Two forms of a transaction with one identifier make sense together.
  lemma SameSense(actors: Actors, t: Transaction, u: Transaction)
    requires Stable(t) && Stable(u) && Normal(t) == Normal(u) && TokenWorld(actors) && Exec(actors, u).result.Ok?
    ensures Sensible(t)
  {
    hide Exec, Stable, Normal, Sensible, TokenWorld;
    StableExec(actors, t);
    StableExec(actors, u);
    SensibleExactly(t);
  }

  lemma CarriedHasHope(p: Block, b: Block, tx: Transaction)
    requires Carries(p, b, tx) && Stable(tx)
    ensures !Hopeless(p, tx)
  {
    hide UsedBy, TxCidOf, Apply, Exec, Spent, CidOf, Sensible, Stable, UsedBefore, TokenWorld, Normal, ReplayState;
    var above := ParentBelow(p, b, tx.from);
    var i :| 0 <= i < |b.txs| && TxCidOf(b.txs[i]) == TxCidOf(tx);
    SameFields(b.txs[i], tx);
    ReceiptMeansHope(above, b.txs, i);
    SpentAlike(above, tx, b.txs[i]);
    if Spent(p, tx) {
      SpentStays(p, above, tx);
    }
    SameSense(Apply(ReplayState(above).value, b.txs[..i]).actors, tx, b.txs[i]);
  }

  lemma SpentAlike(b: Block, t: Transaction, u: Transaction)
    requires t.from == u.from && t.nonce == u.nonce
    ensures Spent(b, t) == Spent(b, u)
  {
    hide UsedBy;
  }

  // So a hopeless transaction stays pooled whatever descendant of p the node processes.
  lemma HopelessStaysPooled(p: Block, m: Manager, remote: set<Cid>, b: Block, c: Cid)
    requires ManagerInv(m) && StableBlock(b) && IsAncestor(p, b) && p != b
    requires c in m.pool && Stable(m.pool[c]) && Hopeless(p, m.pool[c]) && InTime(b, m.pool[c])
    ensures c in Process(m, remote, b).mgr.pool && Process(m, remote, b).mgr.pool[c] == m.pool[c]
  {
    ProcessStep(m, remote, b);
    assert TxCidOf(m.pool[c]) == c;
    hide ManagerInv, Hopeless, InTime, Process, Cleared, ReplayState, TxCidOf, Stable;
    if Process(m, remote, b).accepted && c in Cleared(b) {
      CarriedHasHope(p, b, m.pool[c]);
    }
  }

  // ---------- a pooled transaction that makes no sense ----------

  // A transaction of an unknown method, from the reserve: no signature is asked for.
  const SENSELESS: Transaction := Transaction(TOKEN, TOKEN, 0, None, None, [102], [])

  // A fresh node that receives it pools it, although no nonce has been used, and can then mine on no block, genesis
  // and the blocks of its peers included.
  lemma SenselessStalls(address: Address, remote: set<Cid>, current: Block, pooled: seq<Transaction>)
    requires KnownGood(CidOf(current))
    ensures var n := ReceiveTx(StartNode(address), Marshal(SENSELESS));
            && TxCidOf(SENSELESS) in n.mgr.pool && !Spent(GENESIS, SENSELESS) && !Sensible(SENSELESS)
            && (IsOrder(n.mgr.pool, pooled) ==>
                  Mine(n.(current := current), remote, pooled) == Mined(n.(current := current), None))
  {
    TransactionRoundTrip(SENSELESS);
    assert Normal(SENSELESS) == SENSELESS;
    SenselessIsPooled(address);
    var n := ReceiveTx(StartNode(address), Marshal(SENSELESS));
    assert !Sensible(SENSELESS) by {
      assert TRANSFER[0] == 116 && GET_BALANCE[0] == 103;
    }
    hide KnownGood, CidOf, NormalBlock, EncodeBlock, ReceiveTx, NextBlock, TxCidOf, Sensible, IsOrder, UsedBy, Process;
    if IsOrder(n.mgr.pool, pooled) {
      HopelessStopsMining(NormalBlock(current), n.mgr.root, current, n.address, n.mgr.pool, pooled, TxCidOf(SENSELESS));
    }
  }

  lemma SenselessIsPooled(address: Address)
    ensures var n := ReceiveTx(StartNode(address), Marshal(SENSELESS));
            && n == StartNode(address).(mgr := START.(pool := map[TxCidOf(SENSELESS) := SENSELESS]))
            && !Spent(GENESIS, SENSELESS)
  {
    TransactionRoundTrip(SENSELESS);
    assert Normal(SENSELESS) == SENSELESS;
    hide Marshal, Unmarshal;
    assert map[][TxCidOf(SENSELESS) := SENSELESS] == map[TxCidOf(SENSELESS) := SENSELESS];
  }
}
