/** One node that validates and accepts several blocks at once (state/state_manager.go). Each call of ProcessNewBlock is
    a task that moves by one loop iteration of the validation, or one assignment of the acceptance, at a time; all
    tasks share the known blocks, the best block, its identifier, the current state and the pool,
    without a lock. */
module Interleaving {
  import opened Wrappers
  import opened Types
  import opened Chain
  import opened Pool
  import opened Protocol

  datatype Reason = NotHigher | NotFetched | Invalid | Finished

  // Passed has compared its score with the best block's and has still to replace it; Naming has replaced it and
  // has still to set the head; Clearing is in the loop over the block's transactions.
  datatype Task =
    | Walking(target: Block, path: Path)
    | Replaying(target: Block, path: Path, left: nat, st: Actors)
    | Validated(target: Block)
    | Passed(target: Block)
    | Naming(target: Block)
    | Clearing(target: Block, next: nat)
    | Stopped(target: Block, why: Reason)

  datatype Shared = Shared(
    best: Block, head: Option<Cid>, root: Actors, pool: Pooled, good: set<Cid>, tasks: map<nat, Task>)

  datatype Move =
    | Arrive(id: nat, block: Block)
    | Advance(id: nat, available: set<Cid>)
    | Offer(tx: Transaction)

  const IDLE: Shared := Shared(GENESIS, None, GENESIS_ACTORS, map[], {CidOf(GENESIS)}, map[])

  // One iteration of the parent walk, or the load of the base state that ends it.
  function WalkOn(good: set<Cid>, available: set<Cid>, t: Task): Task
    requires t.Walking?
  {
    var base := t.path.base;
    if CidOf(base) in good then
      (match RootOf(base)
       case None => Stopped(t.target, Invalid)
       case Some(st) => Replaying(t.target, t.path, |t.path.blocks|, st))
    else if base.parent.None? then Stopped(t.target, Invalid)
    else if base.parent.value !in available then Stopped(t.target, NotFetched)
    else
      match ParentOf(base)
      case None => Stopped(t.target, Invalid)
      case Some(next) => Walking(t.target, Path(t.path.blocks + [base], next))
  }

  // One iteration of the replay: left counts the blocks still to be checked, the oldest first.
  function ReplayOn(s: Shared, id: nat): Shared
    requires id in s.tasks && s.tasks[id].Replaying? && 0 < s.tasks[id].left <= |s.tasks[id].path.blocks|
  {
    var t := s.tasks[id];
    var b := t.path.blocks[t.left - 1];
    match Check(t.st, b)
    case None => s.(tasks := s.tasks[id := Stopped(t.target, Invalid)])
    case Some(st) =>
      s.(good := s.good + {CidOf(b)}, tasks := s.tasks[id := Replaying(t.target, t.path, t.left - 1, st)])
  }

  // One step of the acceptance: the best block, the head, the pool one transaction at a time, the state.
  function AcceptOn(s: Shared, id: nat): Shared
    requires id in s.tasks
  {
    match s.tasks[id]
    case Passed(target) =>
      s.(best := target, good := s.good + {CidOf(target)}, tasks := s.tasks[id := Naming(target)])
    case Naming(target) => s.(head := Some(CidOf(target)), tasks := s.tasks[id := Clearing(target, 0)])
    case Clearing(target, next) =>
      if next < |target.txs| then
        s.(pool := s.pool - {TxCidOf(target.txs[next])}, tasks := s.tasks[id := Clearing(target, next + 1)])
      else
        s.(root := if RootOf(target).Some? then RootOf(target).value else s.root,
           tasks := s.tasks[id := Stopped(target, Finished)])
    case _ => s
  }

  function AdvanceOn(s: Shared, id: nat, available: set<Cid>): Shared
    requires id in s.tasks
  {
    match s.tasks[id]
    case Walking(_, _) => s.(tasks := s.tasks[id := WalkOn(s.good, available, s.tasks[id])])
    case Replaying(target, path, left, _) =>
      if left == 0 || left > |path.blocks| then s.(tasks := s.tasks[id := Validated(target)])
      else ReplayOn(s, id)
    case Validated(target) =>
      if Score(target) > Score(s.best) then s.(tasks := s.tasks[id := Passed(target)])
      else s.(tasks := s.tasks[id := Stopped(target, NotHigher)])
    case Stopped(_, _) => s
    case _ => AcceptOn(s, id)
  }

  function Step(s: Shared, m: Move): Shared {
    match m
    case Arrive(id, b) =>
      if id in s.tasks then s
      else if Score(b) <= Score(s.best) then s.(tasks := s.tasks[id := Stopped(b, NotHigher)])
      else s.(tasks := s.tasks[id := Walking(b, Path([], b))])
    case Advance(id, available) => if id in s.tasks then AdvanceOn(s, id, available) else s
    case Offer(tx) =>
      if tx.from in s.root && s.root[tx.from].nonce == tx.nonce then s.(pool := s.pool[TxCidOf(tx) := tx]) else s
  }

  function Run(s: Shared, ms: seq<Move>): Shared {
    if ms == [] then s else Step(Run(s, ms[..|ms| - 1]), ms[|ms| - 1])
  }

  // ---------- the invariant ----------

  function Entry(path: Path, i: nat): Block
    requires i <= |path.blocks|
  {
    if i < |path.blocks| then path.blocks[i] else path.base
  }

  predicate Hangs(path: Path, i: nat)
    requires i < |path.blocks|
  {
    !IsGenesis(path.blocks[i]) && ParentOf(path.blocks[i]) == Some(Entry(path, i + 1))
  }

  // A parent-linked path down from the target; none of its blocks above the base is genesis.
  predicate Descends(target: Block, path: Path) {
    && Entry(path, 0) == target
    && forall i {:trigger Hangs(path, i)} :: 0 <= i < |path.blocks| ==> Hangs(path, i)
  }

  predicate TaskInv(good: set<Cid>, t: Task) {
    && StableBlock(t.target)
    && match t
       case Walking(target, path) => Descends(target, path)
       case Replaying(target, path, left, st) =>
         && Descends(target, path) && left <= |path.blocks|
         && ReplayState(Entry(path, left)) == Some(st)
         && CidOf(Entry(path, left)) in good
       case Validated(target) => Genuine(target) && CidOf(target) in good
       case Passed(target) => Genuine(target) && CidOf(target) in good
       case Naming(target) => Genuine(target) && CidOf(target) in good
       case Clearing(target, _) => Genuine(target) && CidOf(target) in good
       case Stopped(target, why) => why == Invalid ==> !Genuine(target)
  }

  // The state of a known block.
  predicate KnownRoot(good: set<Cid>, root: Actors) {
    exists c :: c in good && BlockAt(c).Some? && RootOf(BlockAt(c).value) == Some(root)
  }

  predicate SharedInv(s: Shared) {
    && Sound(s.good)
    && Genuine(s.best) && CidOf(s.best) in s.good
    && (s.head.Some? ==> s.head.value in s.good)
    && KnownRoot(s.good, s.root)
    && Keyed(s.pool)
    && forall id :: id in s.tasks ==> TaskInv(s.good, s.tasks[id])
  }

  lemma TaskInvGrows(good: set<Cid>, good': set<Cid>, t: Task)
    requires TaskInv(good, t) && good <= good'
    ensures TaskInv(good', t)
  {
  }

  lemma {:induction false} EntryIsStable(target: Block, path: Path, i: nat)
    requires Descends(target, path) && StableBlock(target) && i <= |path.blocks|
    ensures StableBlock(Entry(path, i))
  {
    if i > 0 {
      assert Hangs(path, i - 1);
      NormalBlockIsStable(Entry(path, i));
    }
  }

  // If the target is genuine, so is every block below it on its path.
  lemma {:induction false} GenuineBelow(target: Block, path: Path, i: nat)
    requires Descends(target, path) && Genuine(target) && i <= |path.blocks|
    ensures Genuine(Entry(path, i))
  {
    hide Genuine, IsGenesis, ParentOf;
    if i > 0 {
      GenuineBelow(target, path, i - 1);
      assert Hangs(path, i - 1);
      ParentIsGenuine(path.blocks[i - 1]);
    }
  }

  lemma ParentIsGenuine(b: Block)
    requires Genuine(b) && !IsGenesis(b)
    ensures ParentOf(b).Some? && Genuine(ParentOf(b).value)
  {
    hide Check, CidOf, ParentOf, IsGenesis;
  }

  lemma KnownStable(good: set<Cid>, b: Block)
    requires Sound(good) && CidOf(b) in good && StableBlock(b)
    ensures Genuine(b) && RootOf(b) == ReplayState(b)
  {
    KnownBlock(good, b);
    StableReplay(b);
  }

  lemma BottomFails(good: set<Cid>, t: Task)
    requires t.Walking? && TaskInv(good, t) && !IsGenesis(t.path.base) && ParentOf(t.path.base).None?
    ensures TaskInv(good, Stopped(t.target, Invalid))
  {
    hide CidOf, ParentOf, StableBlock, Check;
    if Genuine(t.target) {
      GenuineBelow(t.target, t.path, |t.path.blocks|);
    }
  }

  lemma BottomLoads(good: set<Cid>, t: Task)
    requires Sound(good) && t.Walking? && TaskInv(good, t) && CidOf(t.path.base) in good
    ensures RootOf(t.path.base).Some?
    ensures TaskInv(good, Replaying(t.target, t.path, |t.path.blocks|, RootOf(t.path.base).value))
  {
    EntryIsStable(t.target, t.path, |t.path.blocks|);
    hide CidOf, ParentOf, StableBlock, ReplayState, Sound, RootOf;
    KnownStable(good, t.path.base);
  }

  lemma WalkOnInv(good: set<Cid>, available: set<Cid>, t: Task)
    requires Sound(good) && t.Walking? && TaskInv(good, t)
    ensures TaskInv(good, WalkOn(good, available, t))
  {
    hide ParentOf, StableBlock, ReplayState, Sound, RootOf, CidOf;
    var base := t.path.base;
    GenesisIsKnown(good);
    if CidOf(base) in good {
      BottomLoads(good, t);
    } else if ParentOf(base).None? {
      BottomFails(good, t);
    } else {
      ParentIsNamed(base);
      Extended(t.target, t.path, ParentOf(base).value);
    }
  }

  lemma GenesisIsKnown(good: set<Cid>)
    requires Sound(good)
    ensures CidOf(GENESIS) in good
  {
    hide KnownGood, KnownParent, CidOf;
  }

  lemma ParentIsNamed(b: Block)
    requires ParentOf(b).Some?
    ensures b.parent.Some?
  {
  }

  lemma Extended(target: Block, path: Path, next: Block)
    requires Descends(target, path) && !IsGenesis(path.base) && ParentOf(path.base) == Some(next)
    ensures Descends(target, Path(path.blocks + [path.base], next))
  {
    hide ParentOf, CidOf;
    var longer := Path(path.blocks + [path.base], next);
    forall i | 0 <= i < |longer.blocks|
      ensures Hangs(longer, i)
    {
      if i < |path.blocks| {
        assert Hangs(path, i);
      }
    }
  }

  // A block that checks on top of a known parent may be added.
  lemma AddChild(good: set<Cid>, b: Block, parent: Block)
    requires Sound(good) && StableBlock(b) && Genuine(b) && ParentOf(b) == Some(parent) && CidOf(parent) in good
    ensures Sound(good + {CidOf(b)})
  {
    BlockRoundTrip(b);
    StableReplay(b);
    SameParent(b);
    assert BlockAt(CidOf(b)) == Some(NormalBlock(b));
    assert KnownGood(CidOf(b)) && KnownParent(good + {CidOf(b)}, CidOf(b));
    hide KnownGood, KnownParent, CidOf, Sound;
    GrowSound(good, good + {CidOf(b)});
  }

  lemma SetTask(s: Shared, id: nat, t: Task)
    requires SharedInv(s) && TaskInv(s.good, t)
    ensures SharedInv(s.(tasks := s.tasks[id := t]))
  {
    hide TaskInv, Sound, CidOf, KnownRoot, Genuine, Keyed;
  }

  lemma GrowGood(s: Shared, good: set<Cid>)
    requires SharedInv(s) && Sound(good) && s.good <= good
    ensures SharedInv(s.(good := good))
  {
    hide Sound, CidOf, RootOf, Genuine, TaskInv, Keyed;
    forall id | id in s.tasks
      ensures TaskInv(good, s.tasks[id])
    {
      TaskInvGrows(s.good, good, s.tasks[id]);
    }
  }

  // One iteration, seen from its task: the block it checks is the next one up the path.
  lemma NextUp(good: set<Cid>, t: Task)
    requires TaskInv(good, t) && t.Replaying? && t.left > 0
    ensures var b := t.path.blocks[t.left - 1];
            && StableBlock(b) && ReplayState(b) == Check(t.st, b)
            && ParentOf(b) == Some(Entry(t.path, t.left)) && CidOf(Entry(t.path, t.left)) in good
  {
    var b := t.path.blocks[t.left - 1];
    assert Hangs(t.path, t.left - 1);
    EntryIsStable(t.target, t.path, t.left - 1);
    hide CidOf, ParentOf, Check, StableBlock;
  }

  lemma ReplayGoesUp(good: set<Cid>, t: Task, st: Actors)
    requires TaskInv(good, t) && t.Replaying? && t.left > 0
    requires CidOf(t.path.blocks[t.left - 1]) in good && ReplayState(t.path.blocks[t.left - 1]) == Some(st)
    ensures TaskInv(good, Replaying(t.target, t.path, t.left - 1, st))
  {
    hide CidOf, ReplayState, StableBlock, Descends;
  }

  lemma ReplayFails(good: set<Cid>, t: Task)
    requires TaskInv(good, t) && t.Replaying? && t.left > 0 && !Genuine(t.path.blocks[t.left - 1])
    ensures TaskInv(good, Stopped(t.target, Invalid))
  {
    hide CidOf, ParentOf, ReplayState, StableBlock;
    if Genuine(t.target) {
      GenuineBelow(t.target, t.path, t.left - 1);
    }
  }

  lemma ReplayOnInv(s: Shared, id: nat)
    requires SharedInv(s) && id in s.tasks && s.tasks[id].Replaying?
    requires TaskInv(s.good, s.tasks[id]) && 0 < s.tasks[id].left <= |s.tasks[id].path.blocks|
    ensures SharedInv(ReplayOn(s, id))
  {
    var t := s.tasks[id];
    var b := t.path.blocks[t.left - 1];
    KnownSound(s);
    hide CidOf, Check, ReplayState, SharedInv, TaskInv, Sound, ParentOf;
    NextUp(s.good, t);
    if Genuine(b) {
      var good := s.good + {CidOf(b)};
      AddChild(s.good, b, Entry(t.path, t.left));
      GrowGood(s, good);
      TaskInvGrows(s.good, good, t);
      ReplayGoesUp(good, t, ReplayState(b).value);
      SetTask(s.(good := good), id, Replaying(t.target, t.path, t.left - 1, ReplayState(b).value));
    } else {
      ReplayFails(s.good, t);
      SetTask(s, id, Stopped(t.target, Invalid));
    }
  }

  lemma KnownSound(s: Shared)
    requires SharedInv(s)
    ensures Sound(s.good)
  {
  }

  lemma RootIsKnown(good: set<Cid>, b: Block)
    requires CidOf(b) in good && RootOf(b).Some?
    ensures KnownRoot(good, RootOf(b).value)
  {
    BlockRoundTrip(b);
    assert BlockAt(CidOf(b)) == Some(NormalBlock(b));
  }

  // Each field of the shared state may take a value that belongs to a known block.
  lemma SetFields(s: Shared, best: Block, head: Option<Cid>, root: Actors, pool: Pooled)
    requires SharedInv(s) && Genuine(best) && CidOf(best) in s.good && (head.Some? ==> head.value in s.good)
    requires KnownRoot(s.good, root) && Keyed(pool)
    ensures SharedInv(s.(best := best, head := head, root := root, pool := pool))
  {
    hide TaskInv, Sound, CidOf, KnownRoot, Genuine, Keyed;
  }

  lemma PassedInv(s: Shared, id: nat)
    requires SharedInv(s) && id in s.tasks && s.tasks[id].Passed?
    ensures SharedInv(AcceptOn(s, id))
  {
    hide SharedInv, TaskInv, KnownRoot, Keyed, Genuine, CidOf, RootOf, TxCidOf;
    var t := s.tasks[id];
    AcceptedTarget(s, id);
    AcceptingTask(s.good, t);
    var known := s.good + {CidOf(t.target)};
    assert AcceptOn(s, id) == s.(best := t.target, good := known, tasks := s.tasks[id := Naming(t.target)]);
    hide *;
    assert known == s.good;
    SetFields(s, t.target, s.head, s.root, s.pool);
    SetTask(s.(best := t.target), id, Naming(t.target));
  }

  lemma NamingInv(s: Shared, id: nat)
    requires SharedInv(s) && id in s.tasks && s.tasks[id].Naming?
    ensures SharedInv(AcceptOn(s, id))
  {
    hide SharedInv, TaskInv, KnownRoot, Keyed, Genuine, CidOf, RootOf, TxCidOf;
    var t := s.tasks[id];
    AcceptedTarget(s, id);
    AcceptingTask(s.good, t);
    var head := Some(CidOf(t.target));
    assert AcceptOn(s, id) == s.(head := head, tasks := s.tasks[id := Clearing(t.target, 0)]);
    hide *;
    SetFields(s, s.best, head, s.root, s.pool);
    SetTask(s.(head := head), id, Clearing(t.target, 0));
  }

  lemma ClearingInv(s: Shared, id: nat)
    requires SharedInv(s) && id in s.tasks && s.tasks[id].Clearing?
    ensures SharedInv(AcceptOn(s, id))
  {
    hide SharedInv, TaskInv, KnownRoot, Keyed, Genuine, CidOf, RootOf;
    AcceptedTarget(s, id);
    AcceptingTask(s.good, s.tasks[id]);
    if s.tasks[id].next < |s.tasks[id].target.txs| {
      ClearOne(s, id, s.tasks[id]);
    } else {
      LoadLast(s, id, s.tasks[id].target);
    }
  }

  lemma ClearOne(s: Shared, id: nat, t: Task)
    requires SharedInv(s) && Keyed(s.pool) && KnownRoot(s.good, s.root)
    requires id in s.tasks && s.tasks[id] == t && t.Clearing? && t.next < |t.target.txs|
    requires Genuine(s.best) && CidOf(s.best) in s.good && (s.head.Some? ==> s.head.value in s.good)
    requires TaskInv(s.good, Clearing(t.target, t.next + 1))
    ensures SharedInv(AcceptOn(s, id))
  {
    hide SharedInv, TaskInv, KnownRoot, Keyed, Genuine, CidOf, RootOf, TxCidOf;
    var rest := s.pool - {TxCidOf(t.target.txs[t.next])};
    ClearingKeepsKeys(s.pool, {TxCidOf(t.target.txs[t.next])});
    assert AcceptOn(s, id) == s.(pool := rest, tasks := s.tasks[id := Clearing(t.target, t.next + 1)]);
    hide *;
    SetFields(s, s.best, s.head, s.root, rest);
    SetTask(s.(pool := rest), id, Clearing(t.target, t.next + 1));
  }

  lemma LoadLast(s: Shared, id: nat, target: Block)
    requires SharedInv(s) && Keyed(s.pool) && RootOf(target).Some? && KnownRoot(s.good, RootOf(target).value)
    requires id in s.tasks && s.tasks[id].Clearing? && s.tasks[id].target == target
    requires s.tasks[id].next >= |target.txs|
    requires Genuine(s.best) && CidOf(s.best) in s.good && (s.head.Some? ==> s.head.value in s.good)
    requires TaskInv(s.good, Stopped(target, Finished))
    ensures SharedInv(AcceptOn(s, id))
  {
    hide SharedInv, TaskInv, KnownRoot, Keyed, Genuine, CidOf, RootOf, TxCidOf;
    var root := RootOf(target).value;
    assert AcceptOn(s, id) == s.(root := root, tasks := s.tasks[id := Stopped(target, Finished)]);
    hide *;
    SetFields(s, s.best, s.head, root, s.pool);
    SetTask(s.(root := root), id, Stopped(target, Finished));
  }

  lemma AcceptedTarget(s: Shared, id: nat)
    requires SharedInv(s) && id in s.tasks && (s.tasks[id].Passed? || s.tasks[id].Naming? || s.tasks[id].Clearing?)
    ensures var target := s.tasks[id].target;
            && TaskInv(s.good, s.tasks[id]) && Genuine(target) && CidOf(target) in s.good
            && RootOf(target).Some? && KnownRoot(s.good, RootOf(target).value)
    ensures Genuine(s.best) && CidOf(s.best) in s.good && (s.head.Some? ==> s.head.value in s.good)
    ensures KnownRoot(s.good, s.root) && Keyed(s.pool)
  {
    var target := s.tasks[id].target;
    assert TaskInv(s.good, s.tasks[id]);
    hide Sound, Keyed, CidOf, StableBlock, ReplayState, RootOf;
    KnownStable(s.good, target);
    RootIsKnown(s.good, target);
  }

  lemma AcceptingTask(good: set<Cid>, t: Task)
    requires TaskInv(good, t) && (t.Passed? || t.Naming? || t.Clearing?)
    ensures TaskInv(good, Naming(t.target)) && TaskInv(good, Stopped(t.target, Finished))
    ensures forall next: nat :: TaskInv(good, Clearing(t.target, next))
  {
  }

  predicate StableMove(m: Move) {
    m.Arrive? ==> StableBlock(m.block)
  }

  lemma ArriveInv(good: set<Cid>, b: Block)
    requires StableBlock(b)
    ensures TaskInv(good, Walking(b, Path([], b))) && TaskInv(good, Stopped(b, NotHigher))
  {
  }

  // The replay is over: its last block is the target.
  lemma EndOfReplay(good: set<Cid>, t: Task)
    requires t.Replaying? && t.left == 0 && TaskInv(good, t)
    ensures TaskInv(good, Validated(t.target))
  {
  }

  lemma TaskOf(s: Shared, id: nat)
    requires SharedInv(s) && id in s.tasks
    ensures TaskInv(s.good, s.tasks[id]) && Sound(s.good)
    ensures s.tasks[id].Replaying? ==> s.tasks[id].left <= |s.tasks[id].path.blocks|
  {
    hide Sound, CidOf, ReplayState;
  }

  lemma OfferInv(s: Shared, tx: Transaction)
    requires SharedInv(s)
    ensures SharedInv(Step(s, Offer(tx)))
  {
    hide TxCidOf, TaskInv, Sound, KnownRoot, RootOf, CidOf, Genuine;
  }

  lemma AdvanceInv(s: Shared, id: nat, available: set<Cid>)
    requires SharedInv(s) && id in s.tasks
    ensures SharedInv(AdvanceOn(s, id, available))
  {
    hide SharedInv, TaskInv, Sound, WalkOn, ReplayOn, AcceptOn;
    TaskOf(s, id);
    var t := s.tasks[id];
    match t
    case Walking(_, _) =>
      WalkOnInv(s.good, available, t);
      SetTask(s, id, WalkOn(s.good, available, t));
    case Replaying(target, _, left, _) =>
      if left == 0 {
        EndOfReplay(s.good, t);
        SetTask(s, id, Validated(target));
      } else {
        ReplayOnInv(s, id);
      }
    case Validated(target) =>
      Compared(s.good, target);
      SetTask(s, id, Passed(target));
      SetTask(s, id, Stopped(target, NotHigher));
    case Passed(_) => PassedInv(s, id);
    case Naming(_) => NamingInv(s, id);
    case Clearing(_, _) => ClearingInv(s, id);
    case Stopped(_, _) =>
  }

  lemma Compared(good: set<Cid>, target: Block)
    requires TaskInv(good, Validated(target))
    ensures TaskInv(good, Passed(target)) && TaskInv(good, Stopped(target, NotHigher))
  {
  }

  lemma MoveInv(s: Shared, m: Move)
    requires SharedInv(s) && StableMove(m)
    ensures SharedInv(Step(s, m))
  {
    hide SharedInv, TaskInv, AdvanceOn;
    match m
    case Arrive(id, b) =>
      ArriveInv(s.good, b);
      SetTask(s, id, Walking(b, Path([], b)));
      SetTask(s, id, Stopped(b, NotHigher));
    case Advance(id, available) =>
      if id in s.tasks {
        AdvanceInv(s, id, available);
      }
    case Offer(tx) => OfferInv(s, tx);
  }

  // Known blocks are never forgotten.
  lemma KnownOnlyGrows(s: Shared, m: Move)
    ensures s.good <= Step(s, m).good
  {
    hide CidOf, Check, WalkOn;
  }

  // Whatever the interleaving, at the granularity of loop iterations and assignments: the known blocks stay genuine and
  // closed under parents, the best block is genuine and known, head and current state are those of known
  // blocks, a task that ends validated has a genuine target, and a task that ends invalid does not.
  lemma {:induction false} EveryInterleavingIsSound(ms: seq<Move>)
    requires forall i :: 0 <= i < |ms| ==> StableMove(ms[i])
    ensures SharedInv(Run(IDLE, ms))
  {
    if ms == [] {
      GenesisSound();
      RootIsKnown({CidOf(GENESIS)}, GENESIS);
    } else {
      hide SharedInv, StableMove, Step;
      EveryInterleavingIsSound(ms[..|ms| - 1]);
      MoveInv(Run(IDLE, ms[..|ms| - 1]), ms[|ms| - 1]);
    }
  }
}
