/** One node (core/node.go, core/protocol.go): it wires a store, a state manager and a miner together and reacts to
    one message or one timer at a time. Each reaction is proved to be the step of module Protocol. */
module Node {
  import opened Wrappers
  import opened Types
  import opened Ledger
  import opened Wire
  import opened Chain
  import opened Mining
  import opened Pool
  import opened Protocol
  import opened Contract
  import opened Genesis
  import opened StateManagement

  class ToychainNode {
    const cs: Store
    const stateMgr: StateManager
    const miner: Miner
    // What this node has published on the block topic.
    var published: seq<EncodedBlock>

    ghost predicate Wired()
      reads this, stateMgr, miner
    {
      && stateMgr.cs == cs && miner.cs == cs
      && stateMgr.miner == miner && miner.stateMgr == stateMgr && miner.txPool == stateMgr.txPool
    }

    ghost function View(): NodeState
      reads this, stateMgr, stateMgr.stateRoot, stateMgr.txPool, stateMgr.cs, miner
    {
      NodeState(stateMgr.Model(), miner.currentBlock, miner.newBlocks, miner.address)
    }

    ghost predicate Valid()
      reads this, stateMgr, stateMgr.stateRoot, stateMgr.txPool, stateMgr.cs, miner
    {
      Wired() && NodeInv(View()) && HeldRoots(stateMgr.knownGoodBlocks, stateMgr.cs.held)
    }

    // A fresh node is the initial state of every run.
    constructor (baseAddr: Address)
      ensures Wired() && View() == StartNode(baseAddr) && published == []
      ensures Wireable(baseAddr) ==> Valid()
    {
      hide NodeInv, ManagerInv, HeldRoots, CidOf, Wireable, BlocksIn, Closed, RootOf, EncodeBlock, GENESIS_ACTORS;
      var store := new Store();
      var genesis := CreateGenesisBlock(store);
      ghost var held := store.held;
      store.Put(CidOf(genesis));
      ClosedGrows(held, store.held, GENESIS_ACTORS);
      var st := LoadState(store, genesis.stateRoot);
      var mgr := new StateManager(store, genesis, st);
      var m := new Miner(mgr.txPool, genesis, baseAddr, store);
      m.stateMgr := mgr;
      mgr.miner := m;
      GenesisIsOnlyBlock(store.held);
      cs, stateMgr, miner, published := store, mgr, m, [];
      new;
      if Wireable(baseAddr) {
        StartNodeInv(baseAddr);
      }
    }

    // Store, process, publish.
    method SendNewBlock(b: Block) returns (ok: bool)
      requires Wired() && stateMgr.Valid()
      modifies this`published, stateMgr`knownGoodBlocks, stateMgr`bestBlock, stateMgr`headCid, stateMgr`stateRoot,
               stateMgr.txPool`txs, cs`held
      ensures var m := old(stateMgr.Model());
              Processed(stateMgr.Model(), ok) == Process(m.(stored := m.stored + {CidOf(b)}), old(cs.remote), b)
      ensures published == if ok then old(published) + [EncodeBlock(b)] else old(published)
      ensures old(cs.held) <= cs.held && HeldRoots(stateMgr.knownGoodBlocks, cs.held)
      ensures Wired()
    {
      hide Process, ManagerInv, EncodeBlock;
      ghost var m, held := stateMgr.Model(), cs.held;
      cs.Put(CidOf(b));
      assert BlocksIn(cs.held) == m.stored + {CidOf(b)};
      StoringKeepsInv(m, CidOf(b));
      HeldRootsGrow(stateMgr.knownGoodBlocks, held, cs.held);
      ok := stateMgr.ProcessNewBlock(b);
      if ok {
        published := published + [EncodeBlock(b)];
      }
    }

    // The timer branch of the miner's loop.
    method BlockFound() returns (ghost pooled: seq<Transaction>)
      requires Valid()
      modifies this`published, stateMgr`knownGoodBlocks, stateMgr`bestBlock, stateMgr`headCid, stateMgr`stateRoot,
               stateMgr.txPool`txs, cs`held, miner`currentBlock
      ensures IsOrder(old(View()).mgr.pool, pooled)
      ensures var r := Mine(old(View()), old(cs.remote), pooled);
              && View() == r.node
              && published == if r.published.Some? then old(published) + [r.published.value] else old(published)
      ensures Valid()
    {
      hide NextBlock, Process, NodeInv, EncodeBlock, IsOrder, ManagerInv, RootHeld, HeldRoots;
      ghost var before, held := View(), cs.held;
      ManagerOf(before);
      KnownRootHeld(stateMgr.knownGoodBlocks, cs.held, miner.currentBlock);
      var next;
      next, pooled := miner.GetNextBlock();
      HeldRootsGrow(stateMgr.knownGoodBlocks, held, cs.held);
      MineStep(before, cs.remote, pooled);
      assert View() == before;
      if next.Err? {
        return;
      }
      var sent := SendNewBlock(next.value);
      if sent {
        miner.currentBlock := next.value;
      }
    }

    // The channel branch of the miner's loop.
    method NewBlockTaken()
      requires Valid()
      modifies miner`currentBlock, miner`newBlocks
      ensures View() == TakeBlock(old(View()))
      ensures Valid()
    {
      hide NodeInv, ManagerInv, HeldRoots;
      ghost var before := View();
      TakeBlockStep(before);
      if |miner.newBlocks| > 0 {
        miner.currentBlock := miner.newBlocks[0];
        miner.newBlocks := miner.newBlocks[1..];
      }
    }

    // One message of `processNewBlocks` that came from another peer.
    method ProcessNewBlockMessage(data: EncodedBlock)
      requires Valid()
      modifies stateMgr`knownGoodBlocks, stateMgr`bestBlock, stateMgr`headCid, stateMgr`stateRoot,
               stateMgr.txPool`txs, cs`held, miner`newBlocks
      ensures View() == ReceiveBlock(old(View()), old(cs.remote), data)
      ensures Valid()
    {
      hide Process, NodeInv, ManagerInv, HeldRoots, DecodeBlock;
      ReceiveBlockStep(View(), cs.remote, data);
      ManagerOf(View());
      var blk := DecodeBlock(data);
      if blk.Some? {
        stateMgr.Inform(blk.value);
      }
    }

    // One message of `processNewTransactions`.
    method ProcessNewTransactionMessage(data: seq<Value>)
      requires Valid()
      modifies stateMgr.txPool`txs
      ensures View() == ReceiveTx(old(View()), data)
      ensures Valid()
    {
      hide NodeInv, HeldRoots, Unmarshal;
      ReceiveTxStep(View(), data);
      var tx := Unmarshal(data);
      if tx.Some? {
        stateMgr.InformTx(tx.value);
      }
    }

    method HelloPeer() returns (hello: Hello)
      ensures hello == HelloOf(View())
    {
      hello := Hello(stateMgr.headCid, Score(stateMgr.bestBlock));
    }

    method HandleHelloStream(hello: Hello)
      requires Valid()
      modifies stateMgr`knownGoodBlocks, stateMgr`bestBlock, stateMgr`headCid, stateMgr`stateRoot,
               stateMgr.txPool`txs, cs`held, miner`newBlocks
      ensures View() == ReceiveHello(old(View()), old(cs.remote), hello)
      ensures Valid()
    {
      hide Process, NodeInv, ManagerInv, HeldRoots, BlockAt;
      ReceiveHelloStep(View(), cs.remote, hello);
      ManagerOf(View());
      if hello.head.None? {
        return;
      }
      if hello.height <= Score(stateMgr.bestBlock) {
        return;
      }
      FetchSeesBlocks(cs.held, cs.remote, hello.head.value);
      var blk := stateMgr.FetchBlock(hello.head);
      if blk.None? {
        return;
      }
      stateMgr.Inform(blk.value);
    }
  }

  lemma GenesisIsOnlyBlock(held: set<Cid>)
    requires held == {GENESIS_ACTORS[TOKEN].memory.value, StateCid(GENESIS_ACTORS), CidOf(GENESIS)}
    ensures BlocksIn(held) == {CidOf(GENESIS)}
  {
  }

  lemma FetchSeesBlocks(held: set<Cid>, remote: set<Cid>, c: Cid)
    ensures BlockAt(c).Some? ==> (c in held + remote <==> c in BlocksIn(held) + remote)
  {
  }
}
