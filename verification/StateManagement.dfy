/** The state manager and the miner as they run (state/state_manager.go, state/miner.go): fields updated in
    place, a parent walk, a reverse replay loop over one mutable state, a loop over the transactions of the
    next block. Every method is proved to take the step that module Protocol gives it. */
module StateManagement {
  import opened Wrappers
  import opened Types
  import opened Ledger
  import opened Chain
  import opened Mining
  import opened Pool
  import opened Protocol
  import opened Contract

  // ---------- what the store holds ----------

  function BlocksIn(held: set<Cid>): set<Cid> {
    set c | c in held && c.BlockCid?
  }

  // A block's state can be loaded, with every memory root under it.
  predicate RootHeld(held: set<Cid>, b: Block) {
    RootOf(b).Some? && b.stateRoot.value in held && Closed(held, RootOf(b).value)
  }

  predicate HeldRoots(good: set<Cid>, held: set<Cid>) {
    forall c :: c in good && BlockAt(c).Some? ==> RootHeld(held, BlockAt(c).value)
  }

  lemma HeldRootsGrow(good: set<Cid>, held: set<Cid>, held': set<Cid>)
    requires HeldRoots(good, held) && held <= held'
    ensures HeldRoots(good, held')
  {
    hide BlockAt;
  }

  lemma KnownRootHeld(good: set<Cid>, held: set<Cid>, b: Block)
    requires HeldRoots(good, held) && CidOf(b) in good
    ensures RootHeld(held, b)
  {
    BlockRoundTrip(b);
    assert BlockAt(CidOf(b)) == Some(NormalBlock(b));
  }

  lemma AddHeldRoot(good: set<Cid>, held: set<Cid>, b: Block)
    requires HeldRoots(good, held) && RootHeld(held, b)
    ensures HeldRoots(good + {CidOf(b)}, held)
  {
    BlockRoundTrip(b);
    assert BlockAt(CidOf(b)) == Some(NormalBlock(b));
    hide BlockAt, EncodeBlock, NormalBlock;
  }

  // The walk looks at nothing but blocks.
  lemma {:induction false} WalkSeesBlocks(good: set<Cid>, held: set<Cid>, remote: set<Cid>, b: Block)
    ensures Walk(good, held + remote, b) == Walk(good, BlocksIn(held) + remote, b)
    decreases Depth(b.parent)
  {
    hide CidOf, DecodeBlock;
    if ParentOf(b).Some? {
      WalkSeesBlocks(good, held, remote, ParentOf(b).value);
    }
  }

  lemma ValidateSeesBlocks(good: set<Cid>, held: set<Cid>, remote: set<Cid>, best: Block, b: Block)
    ensures Validate(good, held + remote, best, b) == Validate(good, BlocksIn(held) + remote, best, b)
  {
    WalkSeesBlocks(good, held, remote, b);
  }

  // ---------- the replay loop ----------

  // The blocks learned are exactly those below the point where the replay stopped.
  lemma LearnedFrom(good: set<Cid>, actors: Actors, blocks: seq<Block>, i: nat)
    requires i <= |blocks| && PathState(actors, blocks[i..]).Some?
    requires i > 0 ==> PathState(actors, blocks[i - 1..]).None?
    ensures Learned(good, actors, blocks) == good + set j | i <= j < |blocks| :: CidOf(blocks[j])
  {
    hide CidOf, PathState;
    forall j | 0 <= j < |blocks|
      ensures PathState(actors, blocks[j..]).Some? <==> i <= j
    {
      if i <= j {
        SuffixesReplay(actors, blocks, i, j);
      } else if PathState(actors, blocks[j..]).Some? {
        SuffixesReplay(actors, blocks, j, i - 1);
      }
    }
  }

  lemma PathStep(actors: Actors, blocks: seq<Block>, i: nat, st: Actors)
    requires i < |blocks| && PathState(actors, blocks[i + 1..]) == Some(st)
    ensures PathState(actors, blocks[i..]) == Check(st, blocks[i])
  {
    assert blocks[i..][1..] == blocks[i + 1..];
  }

  // The state nodes that checking a block writes: memory roots, and the state it leads to.
  function BlockWrites(actors: Actors, b: Block): set<Cid> {
    var r := Apply(actors, b.txs);
    ListWrites(actors, b.txs) + if r.error.None? then {StateCid(r.actors)} else {}
  }

  // Those that replaying a path writes, up to and including the block that fails.
  function PathWrites(actors: Actors, blocks: seq<Block>): set<Cid> {
    if blocks == [] then {}
    else
      match PathState(actors, blocks[1..])
      case None => PathWrites(actors, blocks[1..])
      case Some(before) => PathWrites(actors, blocks[1..]) + BlockWrites(before, blocks[0])
  }

  function ValidationWrites(good: set<Cid>, available: set<Cid>, best: Block, b: Block): set<Cid> {
    if Score(b) <= Score(best) then {}
    else
      match Walk(good, available, b)
      case None => {}
      case Some(p) => if RootOf(p.base).Some? then PathWrites(RootOf(p.base).value, p.blocks) else {}
  }

  lemma WritesStep(actors: Actors, blocks: seq<Block>, i: nat, st: Actors)
    requires i < |blocks| && PathState(actors, blocks[i + 1..]) == Some(st)
    ensures PathWrites(actors, blocks[i..]) == PathWrites(actors, blocks[i + 1..]) + BlockWrites(st, blocks[i])
  {
    hide BlockWrites, PathState;
    assert blocks[i..][1..] == blocks[i + 1..];
  }

  // Nothing is written above the block that fails.
  lemma {:induction false} WritesStop(actors: Actors, blocks: seq<Block>, i: nat)
    requires i <= |blocks| && PathState(actors, blocks[i..]).None?
    ensures PathWrites(actors, blocks) == PathWrites(actors, blocks[i..])
    decreases i
  {
    hide BlockWrites, Check;
    if i == 0 {
      assert blocks[0..] == blocks;
    } else {
      assert blocks[i - 1..][1..] == blocks[i..];
      WritesStop(actors, blocks, i - 1);
    }
  }

  lemma EmptyPath(actors: Actors, blocks: seq<Block>)
    ensures PathState(actors, blocks[|blocks|..]) == Some(actors) && PathWrites(actors, blocks[|blocks|..]) == {}
  {
  }

  lemma FreshManager(held: set<Cid>)
    requires CidOf(GENESIS) in held && StateCid(GENESIS_ACTORS) in held && Closed(held, GENESIS_ACTORS)
    ensures ManagerInv(START.(stored := BlocksIn(held))) && HeldRoots({CidOf(GENESIS)}, held)
  {
    hide GENESIS_ACTORS, Sound, Closed;
    StartInv();
    AddHeldRoot({}, held, GENESIS);
    assert {} + {CidOf(GENESIS)} == {CidOf(GENESIS)};
  }

  class StateManager {
    var bestBlock: Block
    var headCid: Option<Cid>
    var stateRoot: State
    const txPool: TransactionPool
    var knownGoodBlocks: set<Cid>
    const cs: Store
    var miner: Miner?

    ghost function Model(): Manager
      reads this, stateRoot, txPool, cs
    {
      Manager(bestBlock, headCid, stateRoot.root, txPool.txs, knownGoodBlocks, BlocksIn(cs.held))
    }

    ghost predicate Valid()
      reads this, stateRoot, txPool, cs
    {
      ManagerInv(Model()) && HeldRoots(knownGoodBlocks, cs.held)
    }

    // The manager over a store that holds genesis and its state.
    constructor (cs: Store, genesis: Block, st: State)
      requires genesis == GENESIS && st.root == GENESIS_ACTORS
      requires CidOf(GENESIS) in cs.held && StateCid(GENESIS_ACTORS) in cs.held && Closed(cs.held, GENESIS_ACTORS)
      ensures Valid() && this.cs == cs && fresh(txPool) && stateRoot == st && miner == null
      ensures Model() == START.(stored := BlocksIn(cs.held))
    {
      hide GENESIS_ACTORS, HeldRoots, ManagerInv, BlocksIn, CidOf, Closed;
      this.cs := cs;
      bestBlock, headCid, stateRoot := genesis, None, st;
      txPool := new TransactionPool();
      knownGoodBlocks := {CidOf(genesis)};
      miner := null;
      new;
      FreshManager(cs.held);
    }

    method FetchBlock(c: Option<Cid>) returns (b: Option<Block>)
      ensures b == if c.Some? && c.value in cs.Available() then BlockAt(c.value) else None
    {
      b := if c.Some? && c.value in cs.Available() then BlockAt(c.value) else None;
    }

    method CheckBlockStateChangeValid(st: State, b: Block) returns (ok: bool)
      requires st.store == cs
      modifies st`root, cs`held
      ensures var s := ApplyIn(old(cs.Available()), old(st.root), b.txs);
              && st.root == s.applied.actors
              && ok == (s.applied.error.None? && b.stateRoot == Some(StateCid(st.root)))
              && cs.held == old(cs.held) + s.puts + if s.applied.error.None? then {StateCid(st.root)} else {}
    {
      var failure := st.ApplyTransactions(b.txs);
      if failure.Some? {
        return false;
      }
      var c := st.Flush();
      return b.stateRoot == Some(c);
    }

    // Checking on a complete state: the outcome is Check, and the new state is complete again.
    method CheckOnClosed(st: State, b: Block) returns (ok: bool)
      requires st.store == cs && Closed(cs.held, st.root)
      modifies st`root, cs`held
      ensures ok == Check(old(st.root), b).Some?
      ensures ok ==> Check(old(st.root), b) == Some(st.root) && RootHeld(cs.held, b) && Closed(cs.held, st.root)
      ensures cs.held == old(cs.held) + BlockWrites(old(st.root), b)
      ensures BlocksIn(cs.held) == old(BlocksIn(cs.held))
    {
      ApplyClosed(cs.held, cs.remote, st.root, b.txs);
      ok := CheckBlockStateChangeValid(st, b);
    }

    method ValidateBlock(b: Block) returns (ok: bool)
      requires Valid()
      modifies `knownGoodBlocks, cs`held
      ensures Verdict(ok, knownGoodBlocks) == Validate(old(knownGoodBlocks), old(cs.Available()), bestBlock, b)
      ensures cs.held == old(cs.held) + ValidationWrites(old(knownGoodBlocks), old(cs.Available()), bestBlock, b)
      ensures BlocksIn(cs.held) == old(BlocksIn(cs.held))
      ensures HeldRoots(knownGoodBlocks, cs.held)
    {
      hide ManagerInv, CidOf, Check, BlockAt, HeldRoots, WalkedSoFar, Walk, Learned, PathWrites, PathState, BlocksIn;
      if Score(b) <= Score(bestBlock) {
        return false;
      }
      ghost var good, available := knownGoodBlocks, cs.Available();
      var validating: seq<Block> := [];
      var baseBlk := b;
      WalkStart(good, available, b);
      while CidOf(baseBlk) !in knownGoodBlocks
        invariant knownGoodBlocks == good && cs.Available() == available && cs.held == old(cs.held)
        invariant WalkedSoFar(good, available, b, validating, baseBlk)
        decreases Depth(baseBlk.parent)
      {
        var next := FetchBlock(baseBlk.parent);
        WalkOneMore(good, available, b, validating, baseBlk);
        if next.None? {
          return false;
        }
        validating := validating + [baseBlk];
        baseBlk := next.value;
      }
      WalkDone(good, available, b, validating, baseBlk);
      KnownRootHeld(good, cs.held, baseBlk);

      var st := LoadState(cs, baseBlk.stateRoot);
      ghost var actors := st.root;
      EmptyPath(actors, validating);
      for i := |validating| downto 0
        invariant st.store == cs && Closed(cs.held, st.root)
        invariant PathState(actors, validating[i..]) == Some(st.root)
        invariant knownGoodBlocks == good + set j | i <= j < |validating| :: CidOf(validating[j])
        invariant cs.held == old(cs.held) + PathWrites(actors, validating[i..])
        invariant BlocksIn(cs.held) == old(BlocksIn(cs.held))
        invariant HeldRoots(knownGoodBlocks, cs.held)
      {
        PathStep(actors, validating, i, st.root);
        WritesStep(actors, validating, i, st.root);
        ghost var before := cs.held;
        var valid := CheckOnClosed(st, validating[i]);
        HeldRootsGrow(knownGoodBlocks, before, cs.held);
        if !valid {
          LearnedFrom(good, actors, validating, i + 1);
          NotAllReplay(actors, validating, i);
          WritesStop(actors, validating, i);
          return false;
        }
        AddHeldRoot(knownGoodBlocks, cs.held, validating[i]);
        knownGoodBlocks := knownGoodBlocks + {CidOf(validating[i])};
      }
      LearnedFrom(good, actors, validating, 0);
      assert validating[0..] == validating;
      return true;
    }

    // The loop over the block's transactions clears exactly their identifiers from the pool. The call fails,
    // with the block accepted and the old state kept, when the block's state cannot be loaded.
    method AcceptNewBlock(blk: Block) returns (ok: bool)
      modifies `knownGoodBlocks, `bestBlock, `headCid, `stateRoot, txPool`txs, cs`held
      ensures ok <==> RootOf(blk).Some? && blk.stateRoot.value in old(cs.Available())
      ensures Model() == Accept(old(Model()), blk).(root := if ok then RootOf(blk).value else old(stateRoot.root))
      ensures cs.held == old(cs.held) + {CidOf(blk)}
      ensures stateRoot == old(stateRoot) || fresh(stateRoot)
    {
      hide CidOf, TxCidOf;
      cs.Put(CidOf(blk));
      assert CidOf(blk).BlockCid? by { CidIsBlock(blk); }
      knownGoodBlocks := knownGoodBlocks + {CidOf(blk)};
      bestBlock := blk;
      headCid := Some(CidOf(blk));
      for i := 0 to |blk.txs|
        modifies txPool`txs
        invariant txPool.txs == old(txPool.txs) - set j | 0 <= j < i :: TxCidOf(blk.txs[j])
      {
        txPool.ClearTx(TxCidOf(blk.txs[i]));
      }
      var st := LoadState(cs, blk.stateRoot);
      if st == null {
        return false;
      }
      stateRoot := st;
      return true;
    }

    method ProcessNewBlock(blk: Block) returns (accepted: bool)
      requires Valid()
      modifies `knownGoodBlocks, `bestBlock, `headCid, `stateRoot, txPool`txs, cs`held
      ensures Processed(Model(), accepted) == Process(old(Model()), old(cs.remote), blk)
      ensures old(cs.held) <= cs.held && HeldRoots(knownGoodBlocks, cs.held)
      ensures StableBlock(blk) ==> Valid()
      ensures stateRoot == old(stateRoot) || fresh(stateRoot)
    {
      hide ManagerInv, CidOf, Cleared, HeldRoots, RootHeld, Walk, Learned, Sound, ValidationWrites, TxCidOf, PathState;
      ghost var m, good, available := Model(), knownGoodBlocks, cs.Available();
      assert ManagerInv(m);
      ValidateSeesBlocks(good, cs.held, cs.remote, bestBlock, blk);
      if StableBlock(blk) {
        ProcessStep(m, cs.remote, blk);
      }
      var valid := ValidateBlock(blk);
      if !valid {
        return false;
      }
      KnownSetIsSound(m);
      AcceptedHasRoot(good, available, bestBlock, blk);
      AcceptedIsKnown(good, available, bestBlock, blk);
      KnownRootHeld(knownGoodBlocks, cs.held, blk);
      RootsHeldLoad(cs.held, blk);
      ghost var held, known := cs.held, knownGoodBlocks;
      if Score(blk) > Score(bestBlock) {
        accepted := AcceptNewBlock(blk);
        assert knownGoodBlocks == known;
        HeldRootsGrow(knownGoodBlocks, held, cs.held);
      } else {
        assert false;
      }
    }

    method InformTx(tx: Transaction)
      modifies txPool`txs
      ensures Model() == Protocol.InformTx(old(Model()), tx)
    {
      var act := stateRoot.GetActor(tx.from);
      if act == null {
        return;
      }
      if act.nonce != tx.nonce {
        return;
      }
      txPool.Add(tx);
    }

    // An accepted block is sent to the miner's channel.
    method Inform(blk: Block)
      requires Valid() && miner != null
      modifies `knownGoodBlocks, `bestBlock, `headCid, `stateRoot, txPool`txs, cs`held, miner`newBlocks
      ensures var p := Process(old(Model()), old(cs.remote), blk);
              && Model() == p.mgr
              && miner.newBlocks == if p.accepted then old(miner.newBlocks) + [blk] else old(miner.newBlocks)
      ensures old(cs.held) <= cs.held && HeldRoots(knownGoodBlocks, cs.held)
      ensures StableBlock(blk) ==> Valid()
      ensures stateRoot == old(stateRoot) || fresh(stateRoot)
    {
      hide Process, StableBlock, ManagerInv, HeldRoots;
      var accepted := ProcessNewBlock(blk);
      if accepted {
        miner.newBlocks := miner.newBlocks + [blk];
      }
    }
  }

  lemma CidIsBlock(b: Block)
    ensures CidOf(b).BlockCid?
  {
  }

  lemma KnownSetIsSound(m: Manager)
    requires ManagerInv(m)
    ensures Sound(m.good)
  {
  }

  lemma RootsHeldLoad(held: set<Cid>, b: Block)
    requires RootHeld(held, b)
    ensures RootOf(b).Some? && b.stateRoot.value in held
  {
  }

  class Miner {
    var newBlocks: seq<Block>
    var currentBlock: Block
    const address: Address
    const txPool: TransactionPool
    var stateMgr: StateManager?
    const cs: Store

    constructor (txPool: TransactionPool, bestBlock: Block, coinbase: Address, cs: Store)
      ensures newBlocks == [] && currentBlock == bestBlock && address == coinbase
      ensures this.txPool == txPool && stateMgr == null && this.cs == cs
    {
      newBlocks, currentBlock, address := [], bestBlock, coinbase;
      this.txPool, stateMgr, this.cs := txPool, null, cs;
    }

    // The next block, for whichever order the pool was read in; nothing but the store changes.
    method GetNextBlock() returns (r: Result<Block, Failure>, ghost pooled: seq<Transaction>)
      requires stateMgr != null && RootHeld(cs.held, currentBlock)
      modifies cs`held
      ensures IsOrder(txPool.txs, pooled)
      ensures r == NextBlock(stateMgr.stateRoot.root, currentBlock, address, pooled)
      ensures old(cs.held) <= cs.held && BlocksIn(cs.held) == old(BlocksIn(cs.held))
      ensures r.Ok? ==> RootHeld(cs.held, r.value)
    {
      hide TxCidOf, CidOf, Exec, IsOrder, ExecIn, Puts, Writes, RewardTx, ReceiptList, Apply, NextHeight;
      var nonce := stateMgr.stateRoot.NonceForActor(TOKEN);
      if nonce.None? {
        pooled := txPool.GetBestTxs();
        return Err(ActorNotFound), pooled;
      }
      var reward := RewardTx(address, nonce.value);
      var best := txPool.GetBestTxs();
      pooled := best;
      var txs := [reward] + best;
      var s := LoadState(cs, currentBlock.stateRoot);
      ghost var actors := s.root;
      assert Apply(actors, txs[..0]) == Applied(actors, None) by { ApplyNothing(actors, txs); }
      var receipts: seq<Receipt> := [];
      for i := 0 to |txs|
        invariant s.store == cs && Apply(actors, txs[..i]) == Applied(s.root, None)
        invariant |receipts| == i && forall j :: 0 <= j < i ==> IsReceipt(actors, txs, j, receipts[j])
        invariant Closed(cs.held, s.root)
        invariant old(cs.held) <= cs.held && BlocksIn(cs.held) == old(BlocksIn(cs.held))
      {
        ExecClosed(cs.held, cs.remote, s.root, txs[i]);
        ApplyNext(actors, txs, i);
        var receipt := s.ActorExec(txs[i]);
        if receipt.Err? {
          ApplyStops(actors, txs, i + 1);
          return Err(receipt.error), pooled;
        }
        receipts := receipts + [receipt.value];
      }
      assert txs[..|txs|] == txs;
      var stateCid := s.Flush();
      ReceiptsMatch(actors, txs, receipts);
      var height := NextHeight(currentBlock);
      r := Ok(Block(Some(CidOf(currentBlock)), txs, receipts, height, Some(stateCid), None, None));
    }
  }

  lemma ApplyNothing(actors: Actors, txs: seq<Transaction>)
    ensures Apply(actors, txs[..0]) == Applied(actors, None)
  {
  }

  predicate IsReceipt(actors: Actors, txs: seq<Transaction>, i: nat, r: Receipt)
    requires i < |txs|
  {
    Exec(Apply(actors, txs[..i]).actors, txs[i]).result == Ok(r)
  }

  lemma ReceiptsMatch(actors: Actors, txs: seq<Transaction>, receipts: seq<Receipt>)
    requires Apply(actors, txs).error.None? && |receipts| == |txs|
    requires forall i :: 0 <= i < |txs| ==> IsReceipt(actors, txs, i, receipts[i])
    ensures receipts == ReceiptList(actors, txs)
  {
    hide Exec, Apply;
    forall i | 0 <= i < |txs|
      ensures receipts[i] == ReceiptAt(actors, txs, i)
    {
      assert IsReceipt(actors, txs, i, receipts[i]);
    }
  }

  lemma NotAllReplay(actors: Actors, blocks: seq<Block>, i: nat)
    requires i < |blocks| && PathState(actors, blocks[i..]).None?
    ensures PathState(actors, blocks).None?
  {
    if PathState(actors, blocks).Some? {
      assert blocks[0..] == blocks;
      SuffixesReplay(actors, blocks, 0, i);
    }
  }

  // The state of the walk after some iterations: the whole walk is what was collected plus the rest.
  predicate WalkedSoFar(good: set<Cid>, available: set<Cid>, b: Block, validating: seq<Block>, base: Block) {
    match Walk(good, available, base)
    case None => Walk(good, available, b) == None
    case Some(p) => Walk(good, available, b) == Some(Path(validating + p.blocks, p.base))
  }

  lemma WalkStart(good: set<Cid>, available: set<Cid>, b: Block)
    ensures WalkedSoFar(good, available, b, [], b)
  {
    hide CidOf, ParentOf;
    if Walk(good, available, b).Some? {
      assert [] + Walk(good, available, b).value.blocks == Walk(good, available, b).value.blocks;
    }
  }

  lemma WalkOneMore(good: set<Cid>, available: set<Cid>, b: Block, validating: seq<Block>, base: Block)
    requires WalkedSoFar(good, available, b, validating, base) && CidOf(base) !in good
    ensures base.parent.Some? && base.parent.value in available && BlockAt(base.parent.value).Some? ==>
              && ParentOf(base) == BlockAt(base.parent.value)
              && WalkedSoFar(good, available, b, validating + [base], BlockAt(base.parent.value).value)
    ensures !(base.parent.Some? && base.parent.value in available && BlockAt(base.parent.value).Some?) ==>
              Walk(good, available, b).None?
  {
    hide CidOf, BlockAt;
    if base.parent.Some? && base.parent.value in available && BlockAt(base.parent.value).Some? {
      var next := ParentOf(base).value;
      if Walk(good, available, next).Some? {
        var p := Walk(good, available, next).value;
        assert validating + ([base] + p.blocks) == validating + [base] + p.blocks;
      }
    }
  }

  lemma WalkDone(good: set<Cid>, available: set<Cid>, b: Block, validating: seq<Block>, base: Block)
    requires WalkedSoFar(good, available, b, validating, base) && CidOf(base) in good
    ensures Walk(good, available, b) == Some(Path(validating, base))
  {
    assert validating + [] == validating;
  }
}
