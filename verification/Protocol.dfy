/** What one node does, as steps on values (state/state_manager.go, state/miner.go, core/node.go,
    core/protocol.go). The classes of modules StateManagement and Node are proved to take these steps. */
module Protocol {
  import opened Wrappers
  import opened Types
  import opened Wire
  import opened Chain
  import opened Mining
  import opened Pool

  /** The state manager: stored are the identifiers of the blocks this node put into its own store. */
  datatype Manager = Manager(
    best: Block, head: Option<Cid>, root: Actors, pool: Pooled, good: set<Cid>, stored: set<Cid>)

  /** A node: its manager, the block being mined on, the blocks waiting to be handed to the miner, and the
      address rewards go to. */
  datatype NodeState = NodeState(mgr: Manager, current: Block, inbox: seq<Block>, address: Address)

  const START: Manager :=
    Manager(GENESIS, None, GENESIS_ACTORS, map[], {CidOf(GENESIS)}, {CidOf(GENESIS)})

  function StartNode(address: Address): NodeState {
    NodeState(START, GENESIS, [], address)
  }

  // ---------- the manager ----------

  // `acceptNewBlock`, for a block whose state can be loaded.
  function Accept(m: Manager, b: Block): Manager {
    Manager(b, Some(CidOf(b)), if RootOf(b).Some? then RootOf(b).value else m.root, m.pool - Cleared(b),
            m.good + {CidOf(b)}, m.stored + {CidOf(b)})
  }

  datatype Processed = Processed(mgr: Manager, accepted: bool)

  // `ProcessNewBlock`, with remote the content that peers serve meanwhile.
  function Process(m: Manager, remote: set<Cid>, b: Block): Processed {
    var v := Validate(m.good, m.stored + remote, m.best, b);
    var checked := m.(good := v.good);
    if v.ok then Processed(Accept(checked, b), true) else Processed(checked, false)
  }

  // `InformTx`.
  function InformTx(m: Manager, tx: Transaction): Manager {
    if tx.from in m.root && m.root[tx.from].nonce == tx.nonce then m.(pool := m.pool[TxCidOf(tx) := tx]) else m
  }

  predicate ManagerInv(m: Manager) {
    && Sound(m.good)
    && CidOf(m.best) in m.good && CidOf(m.best) in m.stored
    && RootOf(m.best) == Some(m.root)
    && (m.head.None? ==> m.best == GENESIS)
    && (m.head.Some? ==> m.head.value == CidOf(m.best))
    && Keyed(m.pool)
  }

  lemma StartInv()
    ensures ManagerInv(START)
  {
    GenesisSound();
  }

  // A block that passes validation has a loadable state.
  lemma AcceptedHasRoot(good: set<Cid>, available: set<Cid>, best: Block, b: Block)
    requires Sound(good) && Validate(good, available, best, b).ok
    ensures RootOf(b).Some?
  {
    hide Check;
    WalkShape(good, available, b);
    var p := Walk(good, available, b).value;
    if p.blocks != [] {
      assert p.blocks[0] == b;
      assert Check(PathState(RootOf(p.base).value, p.blocks[1..]).value, b).Some?;
      ChecksOutHasRoot(PathState(RootOf(p.base).value, p.blocks[1..]).value, b);
    }
  }

  lemma ChecksOutHasRoot(actors: Actors, b: Block)
    requires Check(actors, b).Some?
    ensures RootOf(b) == Check(actors, b)
  {
  }

  lemma ClearingKeepsKeys(pool: Pooled, cleared: set<Cid>)
    requires Keyed(pool)
    ensures Keyed(pool - cleared)
  {
    hide TxCidOf;
  }

  // Each call keeps the invariant. An accepted block is strictly higher and becomes the best, known and stored,
  // with its identifier as head, its own state as current state, and exactly its transactions gone from the
  // pool; a rejected one changes nothing but the set of known blocks.
  lemma ProcessStep(m: Manager, remote: set<Cid>, b: Block)
    requires ManagerInv(m) && StableBlock(b)
    ensures var p := Process(m, remote, b);
            && ManagerInv(p.mgr)
            && m.good <= p.mgr.good && m.stored <= p.mgr.stored
            && (p.accepted ==>
                  && Score(b) > Score(m.best) && Genuine(b)
                  && p.mgr.best == b && p.mgr.head == Some(CidOf(b)) && RootOf(b) == Some(p.mgr.root)
                  && p.mgr.root == ReplayState(b).value
                  && CidOf(b) in p.mgr.good
                  && p.mgr.pool == m.pool - Cleared(b))
            && (!p.accepted ==> p.mgr == m.(good := p.mgr.good))
  {
    hide Cleared, Sound, Keyed, TxCidOf, CidOf;
    var available := m.stored + remote;
    ValidateKeepsSound(m.good, available, m.best, b);
    if Validate(m.good, available, m.best, b).ok {
      AcceptedIsGenuine(m.good, available, m.best, b);
      AcceptedHasRoot(m.good, available, m.best, b);
      ClearingKeepsKeys(m.pool, Cleared(b));
      var v := Validate(m.good, available, m.best, b);
      hide Validate, ReplayState;
      assert v.good + {CidOf(b)} == v.good;
    }
  }

  // With its ancestors at hand, a node accepts exactly the higher genuine blocks.
  lemma ProcessIsExact(m: Manager, remote: set<Cid>, b: Block)
    requires ManagerInv(m) && StableBlock(b) && Fetchable(m.stored + remote, b)
    ensures Process(m, remote, b).accepted <==> Score(b) > Score(m.best) && Genuine(b)
  {
    CacheIsExact(m.good, m.stored + remote, m.best, b);
  }

  lemma UnmarshalIsStable(fields: seq<Value>)
    requires Unmarshal(fields).Some?
    ensures Stable(Unmarshal(fields).value)
  {
  }

  // ---------- the node ----------

  // `Inform`: process, and hand an accepted block to the miner.
  function Inform(n: NodeState, remote: set<Cid>, b: Block): NodeState {
    var p := Process(n.mgr, remote, b);
    n.(mgr := p.mgr, inbox := if p.accepted then n.inbox + [b] else n.inbox)
  }

  // One message of `processNewBlocks`. Bytes that do not decode make the program panic; here they change nothing.
  function ReceiveBlock(n: NodeState, remote: set<Cid>, e: EncodedBlock): NodeState {
    match DecodeBlock(e)
    case None => n
    case Some(b) => Inform(n, remote, b)
  }

  // One message of `processNewTransactions`.
  function ReceiveTx(n: NodeState, fields: seq<Value>): NodeState {
    match Unmarshal(fields)
    case None => n
    case Some(tx) => n.(mgr := InformTx(n.mgr, tx))
  }

  // The miner's loop takes a new block off its channel.
  function TakeBlock(n: NodeState): NodeState {
    if n.inbox == [] then n else n.(current := n.inbox[0], inbox := n.inbox[1..])
  }

  datatype Mined = Mined(node: NodeState, published: Option<EncodedBlock>)

  // The miner's timer fires: build a block, store it, process it, publish it, and mine on it.
  function Mine(n: NodeState, remote: set<Cid>, pooled: seq<Transaction>): Mined {
    match NextBlock(n.mgr.root, n.current, n.address, pooled)
    case Err(_) => Mined(n, None)
    case Ok(nb) =>
      var p := Process(n.mgr.(stored := n.mgr.stored + {CidOf(nb)}), remote, nb);
      if p.accepted then Mined(n.(mgr := p.mgr, current := nb), Some(EncodeBlock(nb)))
      else Mined(n.(mgr := p.mgr), None)
  }

  datatype Hello = Hello(head: Option<Cid>, height: Uint64)

  // `HelloPeer`.
  function HelloOf(n: NodeState): Hello {
    Hello(n.mgr.head, Score(n.mgr.best))
  }

  // `handleHelloStream`.
  function ReceiveHello(n: NodeState, remote: set<Cid>, h: Hello): NodeState {
    if h.head.None? || h.height <= Score(n.mgr.best) then n
    else if h.head.value !in n.mgr.stored + remote || BlockAt(h.head.value).None? then n
    else Inform(n, remote, BlockAt(h.head.value).value)
  }

  predicate NodeInv(n: NodeState) {
    && ManagerInv(n.mgr)
    && CidOf(n.current) in n.mgr.good && CidOf(n.current) in n.mgr.stored
    && (forall i :: 0 <= i < |n.inbox| ==> CidOf(n.inbox[i]) in n.mgr.good && CidOf(n.inbox[i]) in n.mgr.stored)
    && Wireable(n.address)
    && (forall c :: c in n.mgr.pool ==> Stable(n.mgr.pool[c]))
  }

  lemma ManagerOf(n: NodeState)
    requires NodeInv(n)
    ensures ManagerInv(n.mgr) && CidOf(n.current) in n.mgr.good
  {
  }

  lemma StartNodeInv(address: Address)
    requires Wireable(address)
    ensures NodeInv(StartNode(address))
  {
    StartInv();
  }

  predicate Advances(n: NodeState, n': NodeState) {
    && n.mgr.good <= n'.mgr.good && n.mgr.stored <= n'.mgr.stored
    && Score(n.mgr.best) <= Score(n'.mgr.best)
    && (n'.mgr.best != n.mgr.best ==> Score(n.mgr.best) < Score(n'.mgr.best))
  }

  lemma InformStep(n: NodeState, remote: set<Cid>, b: Block)
    requires NodeInv(n) && StableBlock(b)
    ensures NodeInv(Inform(n, remote, b)) && Advances(n, Inform(n, remote, b))
    ensures Inform(n, remote, b).mgr.best == n.mgr.best || Inform(n, remote, b).mgr.best == b
  {
    hide Process, ManagerInv, Stable, CidOf, Genuine, ReplayState, RootOf, Cleared;
    ProcessStep(n.mgr, remote, b);
    InvStores(Process(n.mgr, remote, b).mgr);
  }

  lemma InvStores(m: Manager)
    requires ManagerInv(m)
    ensures CidOf(m.best) in m.stored && CidOf(m.best) in m.good
  {
  }

  lemma ReceiveBlockStep(n: NodeState, remote: set<Cid>, e: EncodedBlock)
    requires NodeInv(n)
    ensures NodeInv(ReceiveBlock(n, remote, e)) && Advances(n, ReceiveBlock(n, remote, e))
  {
    hide NodeInv, Inform;
    if DecodeBlock(e).Some? {
      var b := DecodeBlock(e).value;
      DecodedIsNormal(e);
      NormalBlockIsStable(b);
      InformStep(n, remote, b);
    }
  }

  lemma InformTxStep(m: Manager, tx: Transaction)
    requires ManagerInv(m)
    ensures ManagerInv(InformTx(m, tx))
  {
    hide TxCidOf, Sound, CidOf, RootOf;
  }

  lemma ReceiveTxStep(n: NodeState, fields: seq<Value>)
    requires NodeInv(n)
    ensures NodeInv(ReceiveTx(n, fields)) && Advances(n, ReceiveTx(n, fields))
  {
    if Unmarshal(fields).Some? {
      UnmarshalIsStable(fields);
      InformTxStep(n.mgr, Unmarshal(fields).value);
      hide Stable, TxCidOf, ManagerInv, Unmarshal, CidOf, Wireable;
    }
  }

  lemma TakeBlockStep(n: NodeState)
    requires NodeInv(n)
    ensures NodeInv(TakeBlock(n)) && Advances(n, TakeBlock(n))
  {
    hide ManagerInv, Stable, CidOf;
  }

  lemma ReceiveHelloStep(n: NodeState, remote: set<Cid>, h: Hello)
    requires NodeInv(n)
    ensures NodeInv(ReceiveHello(n, remote, h)) && Advances(n, ReceiveHello(n, remote, h))
  {
    hide NodeInv, Inform;
    if h.head.Some? && BlockAt(h.head.value).Some? {
      var b := BlockAt(h.head.value).value;
      DecodedIsNormal(h.head.value.block);
      NormalBlockIsStable(b);
      InformStep(n, remote, b);
    }
  }

  lemma OrderIsStable(pool: Pooled, pooled: seq<Transaction>)
    requires IsOrder(pool, pooled) && forall c :: c in pool ==> Stable(pool[c])
    ensures StableList(pooled)
  {
    var keys :| Lists(pool, keys, pooled);
  }

  lemma StoringKeepsInv(m: Manager, c: Cid)
    requires ManagerInv(m)
    ensures ManagerInv(m.(stored := m.stored + {c}))
  {
    hide Sound, Keyed, CidOf, RootOf;
  }

  lemma MinedBlockIsSound(n: NodeState, pooled: seq<Transaction>)
    requires NodeInv(n) && IsOrder(n.mgr.pool, pooled)
    requires NextBlock(n.mgr.root, n.current, n.address, pooled).Ok?
    ensures var nb := NextBlock(n.mgr.root, n.current, n.address, pooled).value;
            StableBlock(nb) && ManagerInv(n.mgr.(stored := n.mgr.stored + {CidOf(nb)}))
  {
    OrderIsStable(n.mgr.pool, pooled);
    MinedIsStable(n.mgr.root, n.current, n.address, pooled);
    hide NextBlock, ManagerInv, Stable;
    StoringKeepsInv(n.mgr, CidOf(NextBlock(n.mgr.root, n.current, n.address, pooled).value));
  }

  lemma MineStep(n: NodeState, remote: set<Cid>, pooled: seq<Transaction>)
    requires NodeInv(n) && IsOrder(n.mgr.pool, pooled)
    ensures NodeInv(Mine(n, remote, pooled).node) && Advances(n, Mine(n, remote, pooled).node)
  {
    hide NextBlock, Process, Stable, EncodeBlock, ManagerInv, Genuine, ReplayState, RootOf, Cleared, Wireable;
    var next := NextBlock(n.mgr.root, n.current, n.address, pooled);
    if next.Ok? {
      MinedBlockIsSound(n, pooled);
      var m := n.mgr.(stored := n.mgr.stored + {CidOf(next.value)});
      ProcessStep(m, remote, next.value);
      InvStores(Process(m, remote, next.value).mgr);
    }
  }

  // What a node publishes is what it has just accepted as its best block.
  lemma PublishedIsAccepted(n: NodeState, remote: set<Cid>, pooled: seq<Transaction>)
    requires NodeInv(n) && IsOrder(n.mgr.pool, pooled) && Mine(n, remote, pooled).published.Some?
    ensures var r := Mine(n, remote, pooled);
            && BlockCid(r.published.value) == CidOf(r.node.mgr.best)
            && CidOf(r.node.mgr.best) in r.node.mgr.good
            && Score(r.node.mgr.best) > Score(n.mgr.best)
  {
    hide NextBlock, Process, Stable, EncodeBlock, ManagerInv, Genuine, ReplayState, RootOf, Cleared, NodeInv;
    MinedBlockIsSound(n, pooled);
    var nb := NextBlock(n.mgr.root, n.current, n.address, pooled).value;
    ProcessStep(n.mgr.(stored := n.mgr.stored + {CidOf(nb)}), remote, nb);
  }

  lemma BestIsKnown(m: Manager)
    requires ManagerInv(m)
    ensures KnownGood(CidOf(m.best)) && RootOf(m.best) == Some(m.root)
  {
    hide KnownGood, KnownParent, CidOf;
  }

  // Mining on the best block extends the chain unless a pooled transaction is fatal or the height wraps; with an
  // empty pool, unless the height wraps.
  lemma MiningExtends(n: NodeState, remote: set<Cid>, pooled: seq<Transaction>)
    requires NodeInv(n) && IsOrder(n.mgr.pool, pooled) && n.current == n.mgr.best
    ensures Mine(n, remote, pooled).published.Some? <==>
            NextBlock(n.mgr.root, n.current, n.address, pooled).Ok? && n.current.height + 1 < UINT64_LIMIT
    ensures pooled == [] ==> (Mine(n, remote, pooled).published.Some? <==> n.current.height + 1 < UINT64_LIMIT)
  {
    BestIsKnown(n.mgr);
    if pooled == [] {
      EmptyPoolBuilds(n.mgr.root, n.current, n.address);
    }
    var next := NextBlock(n.mgr.root, n.current, n.address, pooled);
    if next.Ok? {
      var m := n.mgr.(stored := n.mgr.stored + {CidOf(next.value)});
      hide NextBlock, NodeInv, Validate;
      MinerAgreesWithValidator(m.good, m.stored + remote, m.best, n.mgr.root, n.current, n.address, pooled);
    }
  }

  // ---------- what each reaction does, in full ----------

  // A transaction is pooled, under its identifier, exactly when its sender exists with just its nonce in the current
  // state; nothing else changes.
  lemma InformTxExactly(m: Manager, tx: Transaction, c: Cid)
    ensures var after := InformTx(m, tx);
            && (c in after.pool <==>
                  c in m.pool || (c == TxCidOf(tx) && tx.from in m.root && m.root[tx.from].nonce == tx.nonce))
            && (c in after.pool ==>
                  after.pool[c] ==
                  if c == TxCidOf(tx) && tx.from in m.root && m.root[tx.from].nonce == tx.nonce then tx else m.pool[c])
            && after.(pool := m.pool) == m
  {
    hide TxCidOf;
  }

  // A transaction sent by somebody reaches the pool exactly on that condition.
  lemma ReceiveTxExactly(n: NodeState, tx: Transaction)
    ensures var after := ReceiveTx(n, Marshal(tx));
            && (TxCidOf(tx) in after.mgr.pool <==>
                  TxCidOf(tx) in n.mgr.pool || (tx.from in n.mgr.root && n.mgr.root[tx.from].nonce == tx.nonce))
            && after.(mgr := n.mgr) == n && after.mgr.(pool := n.mgr.pool) == n.mgr
  {
    TransactionRoundTrip(tx);
    hide Marshal, Unmarshal;
  }

  // A received block whose ancestors are at hand becomes the best block and is handed to the miner, behind those that
  // wait already, exactly if it is higher and genuine; otherwise the miner, the best block and the pool see nothing.
  lemma ReceiveBlockExactly(n: NodeState, remote: set<Cid>, e: EncodedBlock, b: Block)
    requires NodeInv(n) && DecodeBlock(e) == Some(b) && Fetchable(n.mgr.stored + remote, b)
    ensures var after := ReceiveBlock(n, remote, e);
            && after.current == n.current && after.address == n.address
            && if Score(b) > Score(n.mgr.best) && Genuine(b)
               then && after.mgr.best == b && after.mgr.head == Some(CidOf(b)) && after.inbox == n.inbox + [b]
                    && after.mgr.root == ReplayState(b).value && after.mgr.pool == n.mgr.pool - Cleared(b)
               else after.inbox == n.inbox && after.mgr == n.mgr.(good := after.mgr.good)
  {
    hide NodeInv, Process, DecodeBlock, Fetchable, CidOf, Cleared, ManagerInv, ReplayState, RootOf;
    ManagerOf(n);
    DecodedIsNormal(e);
    NormalBlockIsStable(b);
    ProcessIsExact(n.mgr, remote, b);
    ProcessStep(n.mgr, remote, b);
  }

  // A hello that is higher and whose head can be fetched is taken as the receipt of that block; any other changes
  // nothing.
  lemma HelloIsReceipt(n: NodeState, remote: set<Cid>, head: EncodedBlock, height: Uint64)
    ensures ReceiveHello(n, remote, Hello(Some(BlockCid(head)), height)) ==
            if height > n.mgr.best.height && BlockCid(head) in n.mgr.stored + remote then ReceiveBlock(n, remote, head)
            else n
    ensures ReceiveHello(n, remote, Hello(None, height)) == n
  {
    hide Inform, DecodeBlock;
  }

  // A node says hello without a head until it has accepted a block, and then with the last one it accepted.
  lemma HelloNamesLastAccepted(n: NodeState, remote: set<Cid>, b: Block, address: Address)
    ensures HelloOf(StartNode(address)) == Hello(None, 0)
    ensures HelloOf(Inform(n, remote, b)) ==
            if Process(n.mgr, remote, b).accepted then Hello(Some(CidOf(b)), b.height) else HelloOf(n)
  {
    hide Validate, CidOf, RootOf, Cleared, GENESIS_ACTORS;
  }

  // The miner takes all blocks that wait.
  function Drained(n: NodeState, k: nat): NodeState
    decreases k
  {
    if k == 0 then n else Drained(TakeBlock(n), k - 1)
  }

  // They reach it in the order in which they were accepted.
  lemma {:induction false} TakesInOrder(n: NodeState, k: nat)
    requires k <= |n.inbox|
    ensures Drained(n, k) == n.(current := if k == 0 then n.current else n.inbox[k - 1], inbox := n.inbox[k..])
    decreases k
  {
    if k > 0 {
      TakesInOrder(TakeBlock(n), k - 1);
      assert n.inbox[1..][k - 1..] == n.inbox[k..];
    }
  }

  // So a block accepted from a peer is the one that is mined on once those before it have been taken.
  lemma AcceptedIsMinedOn(n: NodeState, remote: set<Cid>, b: Block)
    requires Process(n.mgr, remote, b).accepted
    ensures var after := Inform(n, remote, b);
            && |after.inbox| == |n.inbox| + 1
            && Drained(after, |after.inbox|).current == b && Drained(after, |after.inbox|).inbox == []
  {
    hide Process;
    var after := Inform(n, remote, b);
    TakesInOrder(after, |after.inbox|);
  }

  // The miner moves on to the block it has published, and stays where it is if it publishes none; what it has built is
  // stored in either case.
  lemma MinerMovesOn(n: NodeState, remote: set<Cid>, pooled: seq<Transaction>)
    ensures var r := Mine(n, remote, pooled);
            && r.node.inbox == n.inbox && r.node.address == n.address
            && (NextBlock(n.mgr.root, n.current, n.address, pooled).Ok? ==>
                  CidOf(NextBlock(n.mgr.root, n.current, n.address, pooled).value) in r.node.mgr.stored)
            && if r.published.Some?
               then CidOf(r.node.current) == BlockCid(r.published.value) && r.node.current == r.node.mgr.best
               else r.node.current == n.current && r.node.mgr.best == n.mgr.best && r.node.mgr.pool == n.mgr.pool
  {
    hide NextBlock, Validate, EncodeBlock;
  }
}
