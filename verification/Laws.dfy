/** Laws of every chain grown from genesis, for whatever transactions it carries. */
module Laws {
  import opened Wrappers
  import opened BigInt
  import opened Types
  import opened Ledger
  import opened Chain
  import opened Supply
  import opened Nonces

  // The supply at a block is what genesis issued plus what the transactions up to it minted.
  lemma SupplyLaw(b: Block)
    requires Genuine(b)
    ensures TokenWorld(ReplayState(b).value) && TokenWorld(GENESIS_ACTORS)
    ensures SupplyOf(ReplayState(b).value) == INITIAL_TOKENS + MintedBy(GENESIS_ACTORS, Transcript(b))
  {
    hide MintedBy;
    GenesisTokenWorld();
    ReplayIsApply(b);
    ApplySupply(GENESIS_ACTORS, Transcript(b));
    GenesisSupply();
  }

  lemma GenesisSupply()
    ensures TokenWorld(GENESIS_ACTORS) && SupplyOf(GENESIS_ACTORS) == INITIAL_TOKENS
  {
    var m := TokenMemory(GENESIS_ACTORS);
    TotalAt(m, TOKEN);
    assert m - {TOKEN} == map[];
  }

  // The first block and its state, written out.
  lemma GenesisWrittenOut()
    ensures GENESIS.parent.None? && GENESIS.txs == [] && GENESIS.height == 0 && RootOf(GENESIS) == Some(GENESIS_ACTORS)
    ensures GENESIS_ACTORS.Keys == {TOKEN} && GENESIS_ACTORS[TOKEN].code == Some(CodeCid(TOKEN))
    ensures GENESIS_ACTORS[TOKEN].nonce == 0 && TokenWorld(GENESIS_ACTORS)
    ensures TokenMemory(GENESIS_ACTORS).Keys == {TOKEN} && Balance(TokenMemory(GENESIS_ACTORS), TOKEN) == 2_000_000_000
  {
    hide Bytes, SetBytes;
  }

  // If every transfer is non-negative and to somebody else, no token is ever created or destroyed.
  lemma SupplyIsConstant(b: Block)
    requires Genuine(b)
    requires forall i :: 0 <= i < |Transcript(b)| ==> Proper(Transcript(b)[i])
    ensures TokenWorld(ReplayState(b).value) && SupplyOf(ReplayState(b).value) == 2_000_000_000
  {
    SupplyLaw(b);
    ProperMintsNothing(GENESIS_ACTORS, Transcript(b));
  }

  // If no transfer is negative, the supply grows by exactly what accounts pay themselves.
  lemma SelfPaymentsInflate(b: Block)
    requires Genuine(b)
    requires forall i :: 0 <= i < |Transcript(b)| && PaymentOf(Transcript(b)[i]).Some? ==>
                           PaymentOf(Transcript(b)[i]).value.amount >= 0
    ensures TokenWorld(ReplayState(b).value)
    ensures SupplyOf(ReplayState(b).value) == INITIAL_TOKENS + SelfPaid(GENESIS_ACTORS, Transcript(b))
  {
    SupplyLaw(b);
    MintedIsSelfPaid(GENESIS_ACTORS, Transcript(b));
  }

  // The successful transactions of an address carry nonces 0, 1, 2, … in order, and the stored nonce is the
  // number of them, modulo 2^64.
  lemma ReplayProtection(b: Block, a: Address)
    requires Genuine(b)
    ensures var used := Used(GENESIS_ACTORS, Transcript(b), a);
            && (forall i :: 0 <= i < |used| ==> used[i] == i % UINT64_LIMIT)
            && NonceOf(ReplayState(b).value, a) == |used| % UINT64_LIMIT
  {
    ReplayIsApply(b);
    FreshNonces(GENESIS_ACTORS, Transcript(b), a);
  }

  lemma FreshNonces(actors: Actors, txs: seq<Transaction>, a: Address)
    requires NonceOf(actors, a) == 0
    ensures var used := Used(actors, txs, a);
            && (forall i :: 0 <= i < |used| ==> used[i] == i % UINT64_LIMIT)
            && NonceOf(Apply(actors, txs).actors, a) == |used| % UINT64_LIMIT
  {
    hide Used, NonceOf, Apply;
    NonceLaw(actors, txs, a);
    var used := Used(actors, txs, a);
    forall i | 0 <= i < |used|
      ensures used[i] == i % UINT64_LIMIT
    {
      assert used[i] == (NonceOf(actors, a) + i) % UINT64_LIMIT;
    }
  }

  // The outcome of the i-th transaction of the chain that ends in b.
  function Outcome(b: Block, i: nat): Receipt
    requires Genuine(b) && i < |Transcript(b)|
  {
    ReplayIsApply(b);
    ReceiptAt(GENESIS_ACTORS, Transcript(b), i)
  }

  // Once a transaction has succeeded, the rest of the chain holds no transaction of its sender and nonce.
  lemma NothingRunsTwice(b: Block, i: nat, j: nat)
    requires Genuine(b) && i < j < |Transcript(b)| < UINT64_LIMIT
    requires Outcome(b, i).success && Transcript(b)[i].from == Transcript(b)[j].from
    ensures Transcript(b)[i].nonce != Transcript(b)[j].nonce
  {
    hide Used;
    ReplayIsApply(b);
    NoReplay(GENESIS_ACTORS, Transcript(b), i, j);
  }

  lemma {:induction false} ActorsStay(actors: Actors, txs: seq<Transaction>, a: Address)
    requires a in actors
    ensures a in Apply(actors, txs).actors && actors[a].code == Apply(actors, txs).actors[a].code
  {
    hide Exec;
    if txs != [] {
      ActorsStay(actors, txs[..|txs| - 1], a);
      ExecFrame(Apply(actors, txs[..|txs| - 1]).actors, txs[|txs| - 1]);
    }
  }

  // The successful nonces of an address up to a block.
  function UsedBy(b: Block, a: Address): seq<Uint64> {
    Used(GENESIS_ACTORS, Transcript(b), a)
  }

  lemma {:induction false} UsedPrefix(actors: Actors, xs: seq<Transaction>, ys: seq<Transaction>, a: Address)
    ensures |Used(actors, xs, a)| <= |Used(actors, xs + ys, a)|
  {
    hide SucceedsLast;
    if ys == [] {
      assert xs + ys == xs;
    } else {
      UsedPrefix(actors, xs, ys[..|ys| - 1], a);
      assert (xs + ys)[..|xs + ys| - 1] == xs + ys[..|ys| - 1];
    }
  }

  lemma {:induction false} AncestorUsed(p: Block, b: Block, a: Address)
    requires Genuine(b) && IsAncestor(p, b)
    ensures Genuine(p) && |UsedBy(p, a)| <= |UsedBy(b, a)|
    decreases Depth(b.parent)
  {
    hide Used;
    if p != b {
      var above := ParentOf(b).value;
      AncestorUsed(p, above, a);
      UsedPrefix(GENESIS_ACTORS, Transcript(above), b.txs, a);
    }
  }

  lemma StepKeepsActors(b: Block, a: Address)
    requires Genuine(b) && !IsGenesis(b)
    requires a in ReplayState(ParentOf(b).value).value
    ensures a in ReplayState(b).value
    ensures ReplayState(b).value[a].code == ReplayState(ParentOf(b).value).value[a].code
  {
    ActorsStay(ReplayState(ParentOf(b).value).value, b.txs, a);
  }

  // From any ancestor to any descendant no actor disappears or changes its code.
  lemma {:induction false} ActorsAreNeverDeleted(p: Block, b: Block, a: Address)
    requires Genuine(b) && IsAncestor(p, b)
    ensures Genuine(p)
    ensures a in ReplayState(p).value ==>
              a in ReplayState(b).value && ReplayState(b).value[a].code == ReplayState(p).value[a].code
    decreases Depth(b.parent)
  {
    hide IsGenesis, Check;
    if p != b {
      NoParentOfGenesis(b);
      ActorsAreNeverDeleted(p, ParentOf(b).value, a);
      if a in ReplayState(p).value {
        StepKeepsActors(b, a);
      }
    }
  }

  // Nor does a nonce go down, as long as the address has not gone through all 2^64 of them.
  lemma NoncesNeverFall(p: Block, b: Block, a: Address)
    requires Genuine(b) && IsAncestor(p, b) && |UsedBy(b, a)| < UINT64_LIMIT
    ensures Genuine(p)
    ensures NonceOf(ReplayState(p).value, a) == |UsedBy(p, a)| <= |UsedBy(b, a)| == NonceOf(ReplayState(b).value, a)
  {
    AncestorUsed(p, b, a);
    StoredNonce(p, a);
    StoredNonce(b, a);
    hide *;
  }

  lemma StoredNonce(b: Block, a: Address)
    requires Genuine(b) && |UsedBy(b, a)| < UINT64_LIMIT
    ensures NonceOf(ReplayState(b).value, a) == |UsedBy(b, a)|
  {
    ReplayProtection(b, a);
    SmallResidue(|UsedBy(b, a)|);
    hide Used, NonceOf, ReplayState;
  }

  lemma SmallResidue(n: nat)
    requires n < UINT64_LIMIT
    ensures n % UINT64_LIMIT == n
  {
  }

  lemma NoParentOfGenesis(b: Block)
    requires ParentOf(b).Some?
    ensures !IsGenesis(b)
  {
    if IsGenesis(b) {
      GenesisAlone(b);
    }
  }
}
