/** Building the first block (core/genesis.go) with the executor's own classes. */
module Genesis {
  import opened Wrappers
  import opened BigInt
  import opened Types
  import Ledger
  import opened Chain
  import opened Contract

  // Every node builds the same block, and can load its state afterwards.
  method CreateGenesisBlock(cs: Store) returns (genesis: Block)
    modifies cs`held
    ensures genesis == GENESIS
    ensures cs.held == old(cs.held) + {GENESIS_ACTORS[Ledger.TOKEN].memory.value, StateCid(GENESIS_ACTORS)}
    ensures Closed(cs.held, GENESIS_ACTORS)
  {
    hide Bytes, SetBytes;
    var s := new State(cs, map[]);
    var tokenState := new ContractState(cs, map[]);
    tokenState.Set(Ledger.TOKEN, Bytes(INITIAL_TOKENS));
    var tsCid := MemoryCid(tokenState.n);
    cs.Put(tsCid);
    var tokActor := new LoadedActor(Actor(Some(Ledger.TOKEN_CODE), Some(tsCid), 0));
    s.SetActor(Ledger.TOKEN, tokActor);
    assert tokenState.n == map[Ledger.TOKEN := Bytes(INITIAL_TOKENS)];
    assert s.root == GENESIS_ACTORS;
    var srcid := s.Flush();
    genesis := Block(None, [], [], 0, Some(srcid), None, None);
  }
}
