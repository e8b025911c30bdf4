/** Block validation (state/state_manager.go). A block is genuine when replaying every block from genesis up
    to it reproduces every state root on the way. Validation replays only the part above the first block it
    already knows to be good; the theorems here say that this shortcut never changes the answer. */
module Chain {
  import opened Wrappers
  import opened BigInt
  import opened Types
  import opened Ledger
  import opened Wire

  // ---------- genesis (core/genesis.go) ----------

  const INITIAL_TOKENS: nat := 2_000_000_000

  const GENESIS_ACTORS: Actors :=
    map[TOKEN := Actor(Some(TOKEN_CODE), Some(MemoryCid(map[TOKEN := Bytes(INITIAL_TOKENS)])), 0)]

  const GENESIS: Block := Block(None, [], [], 0, Some(StateCid(GENESIS_ACTORS)), None, None)

  // ---------- parent links ----------

  // The block that fetching c yields, if c is the identifier of a decodable block.
  function BlockAt(c: Cid): Option<Block> {
    if c.BlockCid? then DecodeBlock(c.block) else None
  }

  function Depth(c: Option<Cid>): nat {
    match c
    case Some(BlockCid(e)) => 1 + Depth(e.parent)
    case _ => 0
  }

  function ParentOf(b: Block): (p: Option<Block>)
    ensures p.Some? ==> Depth(p.value.parent) < Depth(b.parent)
    ensures p.Some? ==> NormalBlock(p.value) == p.value
  {
    if b.parent.Some? && BlockAt(b.parent.value).Some? then
      DecodedIsNormal(b.parent.value.block);
      BlockAt(b.parent.value)
    else
      None
  }

  predicate IsGenesis(b: Block) {
    CidOf(b) == CidOf(GENESIS)
  }

  lemma GenesisAlone(b: Block)
    requires IsGenesis(b)
    ensures b == GENESIS
  {
    assert EncodeBlock(b).txs == [] && |b.txs| == |EncodeBlock(b).txs|;
    assert EncodeBlock(b).receipts == [] && |b.receipts| == |EncodeBlock(b).receipts|;
  }

  lemma BusyIsNotGenesis(b: Block)
    requires b.txs != []
    ensures !IsGenesis(b)
  {
    if IsGenesis(b) {
      GenesisAlone(b);
    }
  }

  // ---------- one block ----------

  // `checkBlockStateChangeValid`: run the transactions and compare the root; the state reached if it agrees.
  function Check(actors: Actors, b: Block): Option<Actors> {
    var r := Apply(actors, b.txs);
    if r.error.None? && b.stateRoot == Some(StateCid(r.actors)) then Some(r.actors) else None
  }

  predicate StableBlock(b: Block) {
    StableList(b.txs)
  }

  lemma NormalBlockIsStable(b: Block)
    ensures StableBlock(NormalBlock(b))
  {
    forall i | 0 <= i < |b.txs|
      ensures Stable(NormalBlock(b).txs[i])
    {
      NormalIsStable(b.txs[i]);
    }
  }

  lemma StableCheck(actors: Actors, b: Block)
    requires StableBlock(b)
    ensures Check(actors, NormalBlock(b)) == Check(actors, b)
  {
    StableApply(actors, b.txs);
    assert NormalBlock(b).txs == NormalList(b.txs);
  }

  // ---------- the whole chain ----------

  // The state after every transaction from genesis to b, provided every root on the way agrees.
  function ReplayState(b: Block): (r: Option<Actors>)
    ensures r.Some? ==> b.stateRoot == Some(StateCid(r.value))
    decreases Depth(b.parent)
  {
    if IsGenesis(b) then
      GenesisAlone(b);
      Some(GENESIS_ACTORS)
    else
      match ParentOf(b)
      case None => None
      case Some(p) =>
        match ReplayState(p)
        case None => None
        case Some(actors) => Check(actors, b)
  }

  predicate Genuine(b: Block) {
    ReplayState(b).Some?
  }

  lemma StableReplay(b: Block)
    requires StableBlock(b)
    ensures ReplayState(NormalBlock(b)) == ReplayState(b)
  {
    BlockRoundTrip(b);
    assert ParentOf(NormalBlock(b)) == ParentOf(b);
    if !IsGenesis(b) && ParentOf(b).Some? && ReplayState(ParentOf(b).value).Some? {
      StableCheck(ReplayState(ParentOf(b).value).value, b);
    }
  }

  // All transactions from genesis to b, in order.
  function Transcript(b: Block): seq<Transaction>
    decreases Depth(b.parent)
  {
    if IsGenesis(b) || ParentOf(b).None? then [] else Transcript(ParentOf(b).value) + b.txs
  }

  // Replaying block by block is running one list: whatever holds of all lists holds of all chains.
  lemma {:induction false} ReplayIsApply(b: Block)
    requires Genuine(b)
    ensures Apply(GENESIS_ACTORS, Transcript(b)) == Applied(ReplayState(b).value, None)
    decreases Depth(b.parent)
  {
    if !IsGenesis(b) {
      var p := ParentOf(b).value;
      ReplayIsApply(p);
      ApplyConcat(GENESIS_ACTORS, Transcript(p), b.txs);
    }
  }

  lemma GenesisTokenWorld()
    ensures TokenWorld(GENESIS_ACTORS)
  {
  }

  lemma GenuineTokenWorld(b: Block)
    requires Genuine(b)
    ensures TokenWorld(ReplayState(b).value)
  {
    ReplayIsApply(b);
    GenesisTokenWorld();
    ApplyTokenWorld(GENESIS_ACTORS, Transcript(b));
  }

  // ---------- validation ----------

  datatype Path = Path(blocks: seq<Block>, base: Block)

  // The parent walk: the blocks not yet known to be good, newest first, and the known block below them.
  function Walk(good: set<Cid>, available: set<Cid>, b: Block): Option<Path>
    decreases Depth(b.parent)
  {
    if CidOf(b) in good then Some(Path([], b))
    else if b.parent.Some? && b.parent.value in available && ParentOf(b).Some? then
      match Walk(good, available, ParentOf(b).value)
      case None => None
      case Some(p) => Some(Path([b] + p.blocks, p.base))
    else None
  }

  // The state after replaying a path, oldest block first.
  function PathState(actors: Actors, blocks: seq<Block>): Option<Actors> {
    if blocks == [] then Some(actors)
    else
      match PathState(actors, blocks[1..])
      case None => None
      case Some(before) => Check(before, blocks[0])
  }

  function Below(p: Path, i: nat): Block
    requires i < |p.blocks|
  {
    if i + 1 < |p.blocks| then p.blocks[i + 1] else p.base
  }

  predicate Linked(available: set<Cid>, p: Path, i: nat)
    requires i < |p.blocks|
  {
    && p.blocks[i].parent.Some? && p.blocks[i].parent.value in available
    && ParentOf(p.blocks[i]) == Some(Below(p, i))
  }

  // What the walk hands to the replay: a path of unknown blocks on top of a known one, each with its parent
  // available, and its parent the next of the path.
  lemma {:induction false} WalkShape(good: set<Cid>, available: set<Cid>, b: Block)
    requires Walk(good, available, b).Some?
    ensures var p := Walk(good, available, b).value;
            && CidOf(p.base) in good
            && (p.blocks == [] ==> p.base == b)
            && (p.blocks != [] ==> p.blocks[0] == b && NormalBlock(p.base) == p.base)
            && (forall i :: 0 <= i < |p.blocks| ==> CidOf(p.blocks[i]) !in good)
            && (forall i :: 0 <= i < |p.blocks| ==> Linked(available, p, i))
    decreases Depth(b.parent)
  {
    hide CidOf, ParentOf;
    if CidOf(b) !in good {
      var parent := ParentOf(b).value;
      WalkShape(good, available, parent);
      var p, q := Walk(good, available, b).value, Walk(good, available, parent).value;
      assert p.blocks == [b] + q.blocks && p.base == q.base;
      assert Linked(available, p, 0);
      forall i | 0 < i < |p.blocks|
        ensures Linked(available, p, i)
      {
        assert Linked(available, q, i - 1);
      }
    }
  }

  // Every ancestor that some walk may need can be fetched.
  predicate Fetchable(available: set<Cid>, b: Block)
    decreases Depth(b.parent)
  {
    IsGenesis(b) || ParentOf(b).None? || (b.parent.value in available && Fetchable(available, ParentOf(b).value))
  }

  datatype Verdict = Verdict(ok: bool, good: set<Cid>)

  // The state of a known block; a known block that is no block or has no state root is never loaded.
  function RootOf(b: Block): Option<Actors> {
    if b.stateRoot.Some? && b.stateRoot.value.StateCid? then Some(b.stateRoot.value.actors) else None
  }

  // The known blocks after replaying a path: those whose part of the path replays.
  function Learned(good: set<Cid>, actors: Actors, blocks: seq<Block>): set<Cid> {
    good + set i | 0 <= i < |blocks| && PathState(actors, blocks[i..]).Some? :: CidOf(blocks[i])
  }

  // `validateBlock`.
  function Validate(good: set<Cid>, available: set<Cid>, best: Block, b: Block): Verdict {
    if Score(b) <= Score(best) then Verdict(false, good)
    else
      match Walk(good, available, b)
      case None => Verdict(false, good)
      case Some(p) =>
        match RootOf(p.base)
        case None => Verdict(false, good)
        case Some(actors) => Verdict(PathState(actors, p.blocks).Some?, Learned(good, actors, p.blocks))
  }

  // A path that replays does so from every block on down.
  lemma {:induction false} SuffixesReplay(actors: Actors, blocks: seq<Block>, i: nat, j: nat)
    requires i <= j <= |blocks| && PathState(actors, blocks[i..]).Some?
    ensures PathState(actors, blocks[j..]).Some?
    decreases j - i
  {
    hide Check;
    if i < j {
      assert blocks[i..][1..] == blocks[i + 1..];
      SuffixesReplay(actors, blocks, i + 1, j);
    }
  }

  // ---------- the cache is exact ----------

  predicate KnownGood(c: Cid) {
    BlockAt(c).Some? && CidOf(BlockAt(c).value) == c && Genuine(BlockAt(c).value)
  }

  predicate KnownParent(good: set<Cid>, c: Cid)
    requires KnownGood(c)
  {
    c == CidOf(GENESIS) || CidOf(ParentOf(BlockAt(c).value).value) in good
  }

  // Genesis is known, every known block is genuine, and so is its parent, down to genesis.
  predicate Sound(good: set<Cid>) {
    && CidOf(GENESIS) in good
    && (forall c {:trigger KnownGood(c)} :: c in good ==> KnownGood(c))
    && (forall c {:trigger KnownParent(good, c)} :: c in good && KnownGood(c) ==> KnownParent(good, c))
  }

  lemma GenesisSound()
    ensures Sound({CidOf(GENESIS)})
  {
    BlockRoundTrip(GENESIS);
    GenesisAlone(NormalBlock(GENESIS));
  }

  lemma KnownBlock(good: set<Cid>, b: Block)
    requires Sound(good) && CidOf(b) in good
    ensures Genuine(NormalBlock(b)) && RootOf(b) == ReplayState(NormalBlock(b))
    ensures b.stateRoot == NormalBlock(b).stateRoot
  {
    BlockRoundTrip(b);
    assert BlockAt(CidOf(b)) == Some(NormalBlock(b));
    assert KnownGood(CidOf(b));
  }

  // Along a path on a known base, the carried state is the replayed state.
  lemma {:induction false} PathIsReplay(good: set<Cid>, available: set<Cid>, b: Block, i: nat)
    requires Sound(good) && StableBlock(b)
    requires Walk(good, available, b).Some? && i <= |Walk(good, available, b).value.blocks|
    ensures var p := Walk(good, available, b).value;
            && RootOf(p.base).Some?
            && PathState(RootOf(p.base).value, p.blocks[i..]) == ReplayState(if i == 0 then b else Below(p, i - 1))
    decreases |Walk(good, available, b).value.blocks| - i
  {
    hide Check, Walk, CidOf, NormalBlock;
    var p := Walk(good, available, b).value;
    WalkShape(good, available, b);
    KnownBlock(good, p.base);
    if i == |p.blocks| {
      if p.blocks == [] {
        StableReplay(b);
      }
    } else {
      PathIsReplay(good, available, b, i + 1);
      assert p.blocks[i..][1..] == p.blocks[i + 1..] && p.blocks[i..][0] == p.blocks[i];
      assert !IsGenesis(p.blocks[i]);
      assert Linked(available, p, i);
    }
  }

  // Without a complete walk there is nothing to replay.
  lemma {:induction false} NoWalkNoReplay(good: set<Cid>, available: set<Cid>, b: Block)
    requires Sound(good) && Fetchable(available, b) && Walk(good, available, b).None?
    ensures !Genuine(b)
    decreases Depth(b.parent)
  {
    if ParentOf(b).Some? && !IsGenesis(b) {
      NoWalkNoReplay(good, available, ParentOf(b).value);
    }
  }

  // The cache is exact: whatever sound set of blocks is already known, a block whose ancestors can be fetched
  // is accepted if and only if it is higher than the best block and replaying the chain from genesis
  // reproduces every state root.
  lemma CacheIsExact(good: set<Cid>, available: set<Cid>, best: Block, b: Block)
    requires Sound(good) && StableBlock(b) && Fetchable(available, b)
    ensures Validate(good, available, best, b).ok <==> Score(b) > Score(best) && Genuine(b)
  {
    if Walk(good, available, b).None? {
      NoWalkNoReplay(good, available, b);
    } else {
      WalkShape(good, available, b);
      PathIsReplay(good, available, b, 0);
    }
  }

  lemma AcceptedIsKnown(good: set<Cid>, available: set<Cid>, best: Block, b: Block)
    requires Validate(good, available, best, b).ok
    ensures CidOf(b) in Validate(good, available, best, b).good
  {
    WalkShape(good, available, b);
    var p := Walk(good, available, b).value;
    if p.blocks != [] {
      assert p.blocks[0..] == p.blocks;
      assert CidOf(p.blocks[0]) in Learned(good, RootOf(p.base).value, p.blocks);
    }
  }

  // With ancestors missing, validation may still fail, but it never accepts what a replay would not.
  lemma AcceptedIsGenuine(good: set<Cid>, available: set<Cid>, best: Block, b: Block)
    requires Sound(good) && StableBlock(b) && Validate(good, available, best, b).ok
    ensures Score(b) > Score(best) && Genuine(b)
    ensures CidOf(b) in Validate(good, available, best, b).good
  {
    PathIsReplay(good, available, b, 0);
    AcceptedIsKnown(good, available, best, b);
  }

  // Two nodes that know different sound sets agree on every block both can fetch.
  lemma VerdictIgnoresCache(
    good: set<Cid>, good': set<Cid>, available: set<Cid>, available': set<Cid>, best: Block, b: Block)
    requires Sound(good) && Sound(good') && StableBlock(b)
    requires Fetchable(available, b) && Fetchable(available', b)
    ensures Validate(good, available, best, b).ok == Validate(good', available', best, b).ok
  {
    CacheIsExact(good, available, best, b);
    CacheIsExact(good', available', best, b);
  }

  // Validation, accepted or not, keeps the set sound and adds nothing but genuine ancestors of the block or the
  // block itself.
  lemma ValidateKeepsSound(good: set<Cid>, available: set<Cid>, best: Block, b: Block)
    requires Sound(good) && StableBlock(b)
    ensures Sound(Validate(good, available, best, b).good)
    ensures good <= Validate(good, available, best, b).good
  {
    hide Check, KnownGood, KnownParent, CidOf, Sound;
    var v := Validate(good, available, best, b);
    if Walk(good, available, b).Some? && RootOf(Walk(good, available, b).value.base).Some? {
      var p := Walk(good, available, b).value;
      var actors := RootOf(p.base).value;
      forall c | c in v.good && c !in good
        ensures KnownGood(c) && KnownParent(v.good, c)
      {
        var i :| 0 <= i < |p.blocks| && PathState(actors, p.blocks[i..]).Some? && c == CidOf(p.blocks[i]);
        LearnedBlock(good, available, b, i);
      }
      GrowSound(good, v.good);
    }
  }

  // A sound set stays sound when known blocks with known parents are added.
  lemma GrowSound(good: set<Cid>, good': set<Cid>)
    requires Sound(good) && good <= good'
    requires forall c :: c in good' && c !in good ==> KnownGood(c) && KnownParent(good', c)
    ensures Sound(good')
  {
    forall c | c in good' && KnownGood(c)
      ensures KnownParent(good', c)
    {
      if c in good {
        assert KnownParent(good, c);
      }
    }
    hide KnownGood, KnownParent, CidOf;
  }

  predicate IsAncestor(a: Block, b: Block)
    decreases Depth(b.parent)
  {
    a == b || (ParentOf(b).Some? && IsAncestor(a, ParentOf(b).value))
  }

  // Validation learns about nothing but the block and its ancestors.
  lemma LearnsOnlyAncestors(good: set<Cid>, available: set<Cid>, best: Block, b: Block, c: Cid)
    requires c in Validate(good, available, best, b).good && c !in good
    ensures exists a :: IsAncestor(a, b) && CidOf(a) == c
  {
    hide CidOf, PathState;
    var blocks := Walk(good, available, b).value.blocks;
    var i :| 0 <= i < |blocks| && c == CidOf(blocks[i]);
    EntryIsAncestor(good, available, b, i);
  }

  lemma {:induction false} EntryIsAncestor(good: set<Cid>, available: set<Cid>, b: Block, i: nat)
    requires Walk(good, available, b).Some? && i < |Walk(good, available, b).value.blocks|
    ensures IsAncestor(Walk(good, available, b).value.blocks[i], b)
    decreases i
  {
    hide CidOf;
    if i > 0 {
      EntryIsAncestor(good, available, ParentOf(b).value, i - 1);
    }
  }

  lemma LearnedBlock(good: set<Cid>, available: set<Cid>, b: Block, i: nat)
    requires Sound(good) && StableBlock(b) && Walk(good, available, b).Some?
    requires var p := Walk(good, available, b).value;
             i < |p.blocks| && RootOf(p.base).Some? && PathState(RootOf(p.base).value, p.blocks[i..]).Some?
    ensures var p := Walk(good, available, b).value;
            && KnownGood(CidOf(p.blocks[i]))
            && KnownParent(Learned(good, RootOf(p.base).value, p.blocks), CidOf(p.blocks[i]))
  {
    hide Check, Walk, EncodeBlock, NormalBlock;
    var p := Walk(good, available, b).value;
    var actors := RootOf(p.base).value;
    var x := p.blocks[i];
    WalkShape(good, available, b);
    PathIsReplay(good, available, b, i);
    PathBlockIsStable(good, available, b, i);
    BlockRoundTrip(x);
    StableReplay(x);
    assert BlockAt(CidOf(x)) == Some(NormalBlock(x));
    assert ParentOf(NormalBlock(x)) == ParentOf(x) by { SameParent(x); }
    assert Linked(available, p, i);
    if i + 1 < |p.blocks| {
      assert p.blocks[i..][1..] == p.blocks[i + 1..];
      assert PathState(actors, p.blocks[i + 1..]).Some?;
      assert CidOf(p.blocks[i + 1]) in Learned(good, actors, p.blocks);
    }
  }

  lemma SameParent(b: Block)
    ensures ParentOf(NormalBlock(b)) == ParentOf(b)
  {
  }

  lemma PathBlockIsStable(good: set<Cid>, available: set<Cid>, b: Block, i: nat)
    requires StableBlock(b) && Walk(good, available, b).Some? && i < |Walk(good, available, b).value.blocks|
    ensures StableBlock(Walk(good, available, b).value.blocks[i])
  {
    hide Walk, NormalBlock;
    var p := Walk(good, available, b).value;
    WalkShape(good, available, b);
    if i > 0 {
      assert Linked(available, p, i - 1);
      NormalBlockIsStable(p.blocks[i]);
    }
  }
}
