/** The miner's loop run by itself (state/miner.go:65-95): a chain of empty-pool blocks, and what it pays out. */
module MinerLoop {
  import opened Wrappers
  import opened Types
  import opened Ledger
  import opened Wire
  import opened Chain
  import opened Mining
  import opened Issuance
  import opened Pool
  import opened Protocol

  // The timer fires once for each element, with whatever peers serve at the time, and the pool empty.
  function MineOn(n: NodeState, remotes: seq<set<Cid>>): NodeState {
    if remotes == [] then n else Mine(MineOn(n, remotes[..|remotes| - 1]), remotes[|remotes| - 1], []).node
  }

  // The node mines on its best block, with nothing pooled, after some number of mined blocks.
  ghost predicate OnItsWay(n: NodeState, address: Address, k: nat) {
    && NodeInv(n) && n.current == n.mgr.best && n.mgr.pool == map[] && n.inbox == [] && n.address == address
    && Score(n.mgr.best) == k
    && MinedChain(NormalBlock(n.mgr.best)) && Length(NormalBlock(n.mgr.best)) == k
  }

  lemma StartsMining(address: Address)
    requires Wireable(address)
    ensures OnItsWay(StartNode(address), address, 0)
  {
    StartNodeInv(address);
    hide NodeInv, GENESIS_ACTORS, Wireable;
    BlockRoundTrip(GENESIS);
    GenesisAlone(NormalBlock(GENESIS));
  }

  lemma MinedExtends(root: Actors, current: Block, address: Address)
    requires KnownGood(CidOf(current)) && NextBlock(root, current, address, []).Ok?
    requires Wireable(address) && address != TOKEN && MinedChain(NormalBlock(current))
    ensures var nb := NormalBlock(NextBlock(root, current, address, []).value);
            MinedChain(nb) && Length(nb) == Length(NormalBlock(current)) + 1
  {
    var mined := NextBlock(root, current, address, []).value;
    var nb := NormalBlock(mined);
    MinedIsGenuine(root, current, address, []);
    SameParent(mined);
    MinedHeader(root, current, address, []);
    RewardTxIsReward(address, root[TOKEN].nonce);
    assert mined.txs == [RewardTx(address, root[TOKEN].nonce)] by { MinedTxs(root, current, address, []); }
    assert nb.txs == [Normal(mined.txs[0])];
    BusyIsNotGenesis(nb);
    hide NextBlock, IsReward, Normal, Genuine, KnownGood, CidOf, LeavesReserve;
  }

  // One more firing publishes the next block and moves on to it.
  lemma KeepsMining(n: NodeState, remote: set<Cid>, address: Address, k: nat)
    requires OnItsWay(n, address, k) && address != TOKEN && k + 1 < UINT64_LIMIT
    ensures OnItsWay(Mine(n, remote, []).node, address, k + 1) && Mine(n, remote, []).published.Some?
  {
    hide NodeInv, NextBlock, MinedChain, Length, KnownGood, CidOf, Process, Wireable;
    BestOf(n);
    EmptyIsOrder();
    MiningExtends(n, remote, []);
    MinerMovesOn(n, remote, []);
    MineStep(n, remote, []);
    MinedIsAdopted(n, remote);
    MinedHeader(n.mgr.root, n.current, n.address, []);
    MinedExtends(n.mgr.root, n.current, n.address);
  }

  lemma BestOf(n: NodeState)
    requires NodeInv(n)
    ensures KnownGood(CidOf(n.mgr.best)) && Wireable(n.address)
  {
    hide KnownGood, CidOf, ManagerInv, Wireable;
    BestIsKnown(n.mgr);
  }

  lemma EmptyIsOrder()
    ensures IsOrder(map[], [])
  {
    assert Lists(map[], [], []);
  }

  lemma MinedIsAdopted(n: NodeState, remote: set<Cid>)
    requires NodeInv(n) && n.mgr.pool == map[] && Mine(n, remote, []).published.Some?
    ensures NextBlock(n.mgr.root, n.current, n.address, []).Ok?
    ensures var after := Mine(n, remote, []).node;
            after.mgr.best == NextBlock(n.mgr.root, n.current, n.address, []).value && after.mgr.pool == map[]
  {
    hide NextBlock, Validate, CidOf, NodeInv, Cleared;
    var nb := NextBlock(n.mgr.root, n.current, n.address, []).value;
    assert n.mgr.pool - Cleared(nb) == map[];
  }

  // After k firings of a fresh node's timer, for any k below 2^64, the node is k blocks high, mines on its best block,
  // and its chain is one of k mined blocks.
  lemma {:induction false} MinesOneByOne(address: Address, remotes: seq<set<Cid>>)
    requires Wireable(address) && address != TOKEN && |remotes| < UINT64_LIMIT
    ensures OnItsWay(MineOn(StartNode(address), remotes), address, |remotes|)
  {
    hide OnItsWay, Mine, StartNode, Wireable;
    if remotes == [] {
      StartsMining(address);
    } else {
      var k := |remotes| - 1;
      MinesOneByOne(address, remotes[..k]);
      KeepsMining(MineOn(StartNode(address), remotes[..k]), remotes[k], address, k);
    }
  }

  // So it has paid out a million tokens for each of the first two thousand blocks, and holds the rest.
  lemma MinedReserve(address: Address, remotes: seq<set<Cid>>)
    requires Wireable(address) && address != TOKEN && |remotes| < UINT64_LIMIT
    ensures var n, k := MineOn(StartNode(address), remotes), |remotes|;
            && n.mgr.best.height == k && n.current == n.mgr.best
            && TokenWorld(n.mgr.root)
            && Reserve(n.mgr.root) == 2_000_000_000 - 1_000_000 * (if k < 2000 then k else 2000)
  {
    var n := MineOn(StartNode(address), remotes);
    MinesOneByOne(address, remotes);
    ReserveOf(n, address, |remotes|);
  }

  lemma ReserveOf(n: NodeState, address: Address, k: nat)
    requires OnItsWay(n, address, k)
    ensures TokenWorld(n.mgr.root)
    ensures Reserve(n.mgr.root) == 2_000_000_000 - 1_000_000 * (if k < 2000 then k else 2000)
  {
    hide MinedChain, Length, Reserve, TokenWorld, CidOf, Wireable;
    BestIsKnown(n.mgr);
    KnownState(n.mgr.best);
    assert Genuine(NormalBlock(n.mgr.best));
    IssuanceBound(NormalBlock(n.mgr.best));
  }
}
