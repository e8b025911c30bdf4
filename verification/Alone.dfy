/** A task that runs with nobody else moving does what `ProcessNewBlock` does as one step: the machine of module
    Interleaving refines the steps of module Protocol. */
module Alone {
  import opened Wrappers
  import opened Types
  import opened Chain
  import opened Pool
  import opened Protocol
  import opened Interleaving

  function Drive(s: Shared, m: Move, n: nat): Shared
    decreases n
  {
    if n == 0 then s else Drive(Step(s, m), m, n - 1)
  }

  lemma NoDrive(s: Shared, m: Move)
    ensures Drive(s, m, 0) == s
  {
  }

  lemma {:induction false} DriveOn(s: Shared, m: Move, n: nat, k: nat)
    ensures Drive(s, m, n + k) == Drive(Drive(s, m, n), m, k)
    decreases n
  {
    hide Step;
    if n > 0 {
      DriveOn(Step(s, m), m, n - 1, k);
    }
  }

  lemma {:induction false} RunConcat(s: Shared, ms: seq<Move>, ns: seq<Move>)
    ensures Run(s, ms + ns) == Run(Run(s, ms), ns)
  {
    hide Step;
    if ns == [] {
      assert ms + ns == ms;
    } else {
      RunConcat(s, ms, ns[..|ns| - 1]);
      assert (ms + ns)[..|ms + ns| - 1] == ms + ns[..|ns| - 1];
    }
  }

  lemma RunOne(s: Shared, m: Move)
    ensures Run(s, [m]) == Step(s, m)
  {
    hide Step;
    assert [m][..0] == [];
  }

  function Repeat(m: Move, n: nat): (ms: seq<Move>)
    ensures |ms| == n && forall i :: 0 <= i < n ==> ms[i] == m
  {
    if n == 0 then [] else [m] + Repeat(m, n - 1)
  }

  lemma {:induction false} DriveIsRun(s: Shared, m: Move, n: nat)
    ensures Run(s, Repeat(m, n)) == Drive(s, m, n)
    decreases n
  {
    hide Step;
    if n > 0 {
      RunConcat(s, [m], Repeat(m, n - 1));
      RunOne(s, m);
      DriveIsRun(Step(s, m), m, n - 1);
    }
  }

  // ---------- the walk ----------

  // What a walk from path.base comes to.
  ghost predicate Walked(good: set<Cid>, available: set<Cid>, b: Block, path: Path, t: Task) {
    match Walk(good, available, path.base)
    case None => t.Stopped? && t.target == b && t.why != Finished
    case Some(p) =>
      match RootOf(p.base)
      case None => t.Stopped? && t.target == b && t.why != Finished
      case Some(st) => t == Replaying(b, Path(path.blocks + p.blocks, p.base), |path.blocks + p.blocks|, st)
  }

  lemma {:induction false} WalkAlone(s: Shared, id: nat, available: set<Cid>, b: Block, path: Path)
    returns (n: nat, t: Task)
    requires id in s.tasks && s.tasks[id] == Walking(b, path)
    ensures Drive(s, Advance(id, available), n) == s.(tasks := s.tasks[id := t])
    ensures Walked(s.good, available, b, path, t)
    decreases Depth(path.base.parent)
  {
    hide CidOf, RootOf, Walked, Walk, WalkOn, ParentOf, Depth;
    var next := WalkOn(s.good, available, s.tasks[id]);
    var s' := s.(tasks := s.tasks[id := next]);
    assert Step(s, Advance(id, available)) == s';
    if next.Walking? {
      WalkedOnce(s.good, available, b, path);
      n, t := WalkAlone(s', id, available, b, next.path);
      WalkedMore(s.good, available, b, path, t);
      assert s'.tasks[id := t] == s.tasks[id := t];
      n := n + 1;
    } else {
      WalkedOnce(s.good, available, b, path);
      t := next;
      assert Drive(s', Advance(id, available), 0) == s';
      n := 1;
    }
  }

  lemma WalkedOnce(good: set<Cid>, available: set<Cid>, b: Block, path: Path)
    ensures var t := WalkOn(good, available, Walking(b, path));
            if t.Walking? then t.target == b && Depth(t.path.base.parent) < Depth(path.base.parent)
            else Walked(good, available, b, path, t)
  {
    hide CidOf, RootOf;
    assert path.blocks + [] == path.blocks;
  }

  lemma WalkedMore(good: set<Cid>, available: set<Cid>, b: Block, path: Path, t: Task)
    requires var next := WalkOn(good, available, Walking(b, path));
             next.Walking? && Walked(good, available, b, next.path, t)
    ensures Walked(good, available, b, path, t)
  {
    hide CidOf, RootOf;
    var next := WalkOn(good, available, Walking(b, path)).path;
    if Walk(good, available, next.base).Some? {
      var p := Walk(good, available, next.base).value;
      assert path.blocks + ([path.base] + p.blocks) == next.blocks + p.blocks;
    }
  }

  // ---------- the replay ----------

  function LearnedBelow(actors: Actors, blocks: seq<Block>, left: nat): set<Cid>
    requires left <= |blocks|
  {
    set i | 0 <= i < left && PathState(actors, blocks[i..]).Some? :: CidOf(blocks[i])
  }

  lemma {:induction false} ReplayAlone(
    s: Shared, id: nat, available: set<Cid>, b: Block, path: Path, left: nat, actors: Actors, st: Actors)
    returns (n: nat, t: Task)
    requires id in s.tasks && s.tasks[id] == Replaying(b, path, left, st) && left <= |path.blocks|
    requires PathState(actors, path.blocks[left..]) == Some(st)
    ensures Drive(s, Advance(id, available), n) ==
            s.(good := s.good + LearnedBelow(actors, path.blocks, left), tasks := s.tasks[id := t])
    ensures t == if PathState(actors, path.blocks).Some? then Validated(b) else Stopped(b, Invalid)
    decreases left
  {
    hide CidOf, PathState, Check, LearnedBelow;
    var m, blocks := Advance(id, available), path.blocks;
    if left == 0 {
      LearnedNothing(actors, blocks);
      assert blocks[0..] == blocks;
      t := Validated(b);
      assert Step(s, m) == s.(tasks := s.tasks[id := t]);
      assert Drive(Step(s, m), m, 0) == Step(s, m);
      n := 1;
    } else {
      LearnedOneMore(actors, blocks, left, st);
      if Check(st, blocks[left - 1]).Some? {
        var st' := Check(st, blocks[left - 1]).value;
        var known := s.good + {CidOf(blocks[left - 1])};
        var s' := s.(good := known, tasks := s.tasks[id := Replaying(b, path, left - 1, st')]);
        assert Step(s, m) == s';
        n, t := ReplayAlone(s', id, available, b, path, left - 1, actors, st');
        assert s'.tasks[id := t] == s.tasks[id := t];
        assert known + LearnedBelow(actors, blocks, left - 1) == s.good + LearnedBelow(actors, blocks, left);
        n := n + 1;
      } else {
        t := Stopped(b, Invalid);
        assert Step(s, m) == s.(tasks := s.tasks[id := t]);
        assert Drive(Step(s, m), m, 0) == Step(s, m);
        n := 1;
      }
    }
  }

  lemma LearnedNothing(actors: Actors, blocks: seq<Block>)
    ensures LearnedBelow(actors, blocks, 0) == {}
  {
  }

  lemma LearnedOneMore(actors: Actors, blocks: seq<Block>, left: nat, st: Actors)
    requires 0 < left <= |blocks| && PathState(actors, blocks[left..]) == Some(st)
    ensures PathState(actors, blocks[left - 1..]) == Check(st, blocks[left - 1])
    ensures Check(st, blocks[left - 1]).Some? ==>
              LearnedBelow(actors, blocks, left) == LearnedBelow(actors, blocks, left - 1) + {CidOf(blocks[left - 1])}
    ensures Check(st, blocks[left - 1]).None? ==>
              LearnedBelow(actors, blocks, left) == {} && PathState(actors, blocks).None?
  {
    hide CidOf, Check;
    assert blocks[left - 1..][1..] == blocks[left..];
    if Check(st, blocks[left - 1]).None? {
      forall i | 0 <= i < left
        ensures PathState(actors, blocks[i..]).None?
      {
        if PathState(actors, blocks[i..]).Some? {
          SuffixesReplay(actors, blocks, i, left - 1);
        }
      }
      assert blocks[0..] == blocks;
    }
  }

  // ---------- validation and acceptance ----------

  lemma WalkVerdict(good: set<Cid>, available: set<Cid>, best: Block, b: Block, t: Task)
    requires Score(b) > Score(best) && Walked(good, available, b, Path([], b), t)
    ensures var v := Validate(good, available, best, b);
            if t.Replaying?
            then && t.target == b && t.left == |t.path.blocks| && PathState(t.st, t.path.blocks[t.left..]) == Some(t.st)
                 && v == Verdict(PathState(t.st, t.path.blocks).Some?, good + LearnedBelow(t.st, t.path.blocks, t.left))
            else v == Verdict(false, good) && t.Stopped? && t.target == b && t.why != Finished
  {
    hide Walk, CidOf, RootOf, PathState;
    if t.Replaying? {
      var p := Walk(good, available, b).value;
      assert [] + p.blocks == p.blocks;
      WholePath(t.st, t.path.blocks);
    }
  }

  lemma WholePath(actors: Actors, blocks: seq<Block>)
    ensures PathState(actors, blocks[|blocks|..]) == Some(actors)
  {
  }

  lemma MovePasses(s: Shared, id: nat, available: set<Cid>, b: Block)
    requires id in s.tasks && s.tasks[id] == Validated(b) && Score(b) > Score(s.best)
    ensures Step(s, Advance(id, available)) == s.(tasks := s.tasks[id := Passed(b)])
  {
  }

  // Left alone, a validation ends with the verdict and the known blocks of `validateBlock`.
  lemma ValidationAlone(s: Shared, id: nat, available: set<Cid>, b: Block) returns (n: nat, t: Task)
    requires id in s.tasks && s.tasks[id] == Walking(b, Path([], b)) && Score(b) > Score(s.best)
    ensures var v := Validate(s.good, available, s.best, b);
            && Drive(s, Advance(id, available), n) == s.(good := v.good, tasks := s.tasks[id := t])
            && (v.ok ==> t == Passed(b))
            && (!v.ok ==> t.Stopped? && t.target == b && t.why != Finished)
  {
    hide Step, Validate, Walk, Walked, CidOf, PathState, LearnedBelow;
    var m := Advance(id, available);
    n, t := WalkAlone(s, id, available, b, Path([], b));
    WalkVerdict(s.good, available, s.best, b, t);
    if t.Replaying? {
      var walked := s.(tasks := s.tasks[id := t]);
      var k, r := ReplayAlone(walked, id, available, b, t.path, t.left, t.st, t.st);
      DriveOn(s, m, n, k);
      n := n + k;
      var known := s.good + LearnedBelow(t.st, t.path.blocks, t.left);
      var replayed := s.(good := known, tasks := s.tasks[id := r]);
      assert walked.tasks[id := r] == s.tasks[id := r];
      if r.Validated? {
        MovePasses(replayed, id, available, b);
        DriveOn(s, m, n, 1);
        assert Drive(Step(replayed, m), m, 0) == Step(replayed, m);
        assert replayed.tasks[id := Passed(b)] == s.tasks[id := Passed(b)];
        n, r := n + 1, Passed(b);
      }
      t := r;
    }
  }

  function ClearedFrom(b: Block, k: nat): set<Cid> {
    set i | k <= i < |b.txs| :: TxCidOf(b.txs[i])
  }

  lemma {:induction false} ClearAlone(s: Shared, id: nat, available: set<Cid>, b: Block, k: nat) returns (n: nat)
    requires id in s.tasks && s.tasks[id] == Clearing(b, k)
    ensures Drive(s, Advance(id, available), n) ==
            s.(pool := s.pool - ClearedFrom(b, k), root := if RootOf(b).Some? then RootOf(b).value else s.root,
               tasks := s.tasks[id := Stopped(b, Finished)])
    decreases if k < |b.txs| then |b.txs| - k else 0
  {
    hide RootOf, TxCidOf;
    var m := Advance(id, available);
    if k >= |b.txs| {
      assert ClearedFrom(b, k) == {};
      assert s.pool - {} == s.pool;
      assert Drive(Step(s, m), m, 0) == Step(s, m);
      n := 1;
    } else {
      var rest := s.pool - {TxCidOf(b.txs[k])};
      var s' := s.(pool := rest, tasks := s.tasks[id := Clearing(b, k + 1)]);
      assert Step(s, m) == s';
      n := ClearAlone(s', id, available, b, k + 1);
      assert rest - ClearedFrom(b, k + 1) == s.pool - ClearedFrom(b, k) by {
        assert ClearedFrom(b, k) == {TxCidOf(b.txs[k])} + ClearedFrom(b, k + 1);
      }
      assert s'.tasks[id := Stopped(b, Finished)] == s.tasks[id := Stopped(b, Finished)];
      n := n + 1;
    }
  }

  // The fields that acceptance replaces.
  function Merged(m: Manager, tasks: map<nat, Task>): Shared {
    Shared(m.best, m.head, m.root, m.pool, m.good, tasks)
  }

  lemma AcceptanceAlone(s: Shared, id: nat, available: set<Cid>, m: Manager, b: Block) returns (n: nat)
    requires id in s.tasks && s.tasks[id] == Passed(b) && s == Merged(m, s.tasks)
    ensures Drive(s, Advance(id, available), n) == Merged(Protocol.Accept(m, b), s.tasks[id := Stopped(b, Finished)])
  {
    hide RootOf, TxCidOf, CidOf, ClearedFrom;
    var move := Advance(id, available);
    var s1 := s.(best := b, good := s.good + {CidOf(b)}, tasks := s.tasks[id := Naming(b)]);
    var s2 := s1.(head := Some(CidOf(b)), tasks := s.tasks[id := Clearing(b, 0)]);
    assert Step(s, move) == s1;
    assert Step(s1, move) == s2 by {
      assert s1.tasks[id := Clearing(b, 0)] == s2.tasks;
    }
    n := ClearAlone(s2, id, available, b, 0);
    assert ClearedFrom(b, 0) == Cleared(b) by { AllCleared(b); }
    assert s2.tasks[id := Stopped(b, Finished)] == s.tasks[id := Stopped(b, Finished)];
    hide Step, Cleared;
    assert Drive(s1, move, n + 1) == Drive(s2, move, n);
    n := n + 2;
  }

  lemma AllCleared(b: Block)
    ensures ClearedFrom(b, 0) == Cleared(b)
  {
    hide TxCidOf;
  }

  // Refinement: a block that arrives while nothing else moves is processed exactly as in one step, with the same
  // verdict, best block, head, state, pool and known blocks.
  lemma TaskAloneIsProcess(s: Shared, id: nat, m: Manager, remote: set<Cid>, b: Block) returns (n: nat, why: Reason)
    requires id !in s.tasks && s == Merged(m, s.tasks)
    ensures var p := Process(m, remote, b);
            && Run(s, [Arrive(id, b)] + Repeat(Advance(id, m.stored + remote), n)) ==
               Merged(p.mgr, s.tasks[id := Stopped(b, why)])
            && (p.accepted <==> why == Finished)
  {
    hide Validate, CidOf, Protocol.Accept, Repeat, Drive, Run, AdvanceOn;
    var available := m.stored + remote;
    var move, arrived := Advance(id, available), Step(s, Arrive(id, b));
    var t: Task;
    if Score(b) <= Score(s.best) {
      TooLow(m.good, available, m.best, b);
      assert Drive(arrived, move, 0) == arrived by { NoDrive(arrived, move); }
      n, why := 0, NotHigher;
    } else {
      n, t := ValidationAlone(arrived, id, available, b);
      var v := Validate(m.good, available, m.best, b);
      assert arrived.tasks[id := t] == s.tasks[id := t];
      hide Step;
      if v.ok {
        var checked := m.(good := v.good);
        var k := AcceptanceAlone(Merged(checked, s.tasks[id := t]), id, available, checked, b);
        DriveOn(arrived, move, n, k);
        assert s.tasks[id := t][id := Stopped(b, Finished)] == s.tasks[id := Stopped(b, Finished)];
        n, why := n + k, Finished;
      } else {
        why := t.why;
      }
    }
    hide Step;
    RunConcat(s, [Arrive(id, b)], Repeat(move, n));
    RunOne(s, Arrive(id, b));
    DriveIsRun(arrived, move, n);
  }

  lemma TooLow(good: set<Cid>, available: set<Cid>, best: Block, b: Block)
    requires Score(b) <= Score(best)
    ensures Validate(good, available, best, b) == Verdict(false, good)
  {
  }

  // Pooling a transaction is one step in both.
  lemma OfferIsInformTx(m: Manager, tasks: map<nat, Task>, tx: Transaction)
    ensures Step(Merged(m, tasks), Offer(tx)) == Merged(InformTx(m, tx), tasks)
  {
    hide TxCidOf;
  }
}
