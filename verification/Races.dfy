/** What the missing lock costs (state/state_manager.go:72-119): when concurrent acceptances still raise the best score,
    when they keep best block, head and state together, and runs in which they do not. */
module Races {
  import opened Wrappers
  import opened Types
  import opened Chain
  import opened Interleaving
  import opened Alone

  predicate Pending(s: Shared, id: nat) {
    id in s.tasks && s.tasks[id].Passed?
  }

  function Target(s: Shared, id: nat): Block
    requires id in s.tasks
  {
    s.tasks[id].target
  }

  function Adopt(s: Shared, id: nat): Shared {
    Step(s, Advance(id, {}))
  }

  // ---------- the best score ----------

  // Every block about to replace the best one is higher by the margin: not lower for 0, strictly higher for 1.
  ghost predicate Ahead(s: Shared, margin: nat) {
    forall id :: Pending(s, id) ==> Score(Target(s, id)) >= Score(s.best) + margin
  }

  // No two tasks have both passed the comparison with targets closer than the margin.
  ghost predicate Apart(s: Shared, margin: nat) {
    forall i, j :: Pending(s, i) && Pending(s, j) && i != j ==> Score(Target(s, i)) >= Score(Target(s, j)) + margin
  }

  ghost predicate Exclusive(s: Shared) {
    forall i, j :: Pending(s, i) && Pending(s, j) ==> i == j
  }

  ghost predicate SameScores(s: Shared) {
    forall i, j :: Pending(s, i) && Pending(s, j) ==> Score(Target(s, i)) == Score(Target(s, j))
  }

  // For margin 1 this says that at most one task has passed, for margin 0 that all that have passed tie.
  lemma ApartMeans(s: Shared)
    ensures Apart(s, 1) <==> Exclusive(s)
    ensures Apart(s, 0) <==> SameScores(s)
  {
    forall i, j | Apart(s, 1) && Pending(s, i) && Pending(s, j)
      ensures i == j
    {
      if i != j {
        assert false;
      }
    }
    forall i, j | Apart(s, 0) && Pending(s, i) && Pending(s, j)
      ensures Score(Target(s, i)) == Score(Target(s, j))
    {
    }
  }

  predicate RaisedBy(before: Block, after: Block, margin: nat) {
    after == before || Score(after) >= Score(before) + margin
  }

  // How one step changes what is pending.
  lemma StepPending(s: Shared, m: Move, id: nat)
    ensures Pending(Step(s, m), id) ==>
              && id in s.tasks && Target(Step(s, m), id) == Target(s, id)
              && (Pending(s, id) || Score(Target(s, id)) > Score(s.best))
    ensures Step(s, m).best != s.best ==>
              m.Advance? && Pending(s, m.id) && Step(s, m).best == Target(s, m.id) && !Pending(Step(s, m), m.id)
    ensures Pending(s, id) && Pending(Step(s, m), id) ==> m.Advance? ==> m.id != id
    ensures m.Advance? && m.id != id && Pending(Step(s, m), id) ==> Pending(s, id)
  {
    hide CidOf, RootOf, Check, TxCidOf, WalkOn, Score;
    if m.Advance? && m.id in s.tasks && s.tasks[m.id].Walking? {
      WalkingOn(s.good, m.available, s.tasks[m.id]);
    }
  }

  lemma WalkingOn(good: set<Cid>, available: set<Cid>, t: Task)
    requires t.Walking?
    ensures var next := WalkOn(good, available, t);
            next.Walking? || next.Replaying? || next.Stopped?
  {
    hide CidOf, RootOf, ParentOf;
  }

  lemma StepStaysAhead(s: Shared, m: Move, margin: nat)
    requires margin <= 1 && Ahead(s, margin) && Apart(s, margin)
    ensures Ahead(Step(s, m), margin) && RaisedBy(s.best, Step(s, m).best, margin)
  {
    hide Step;
    forall id | Pending(Step(s, m), id)
      ensures Score(Target(Step(s, m), id)) >= Score(Step(s, m).best) + margin
    {
      StepPending(s, m, id);
    }
    StepPending(s, m, 0);
  }

  // In any run in which the passed tasks stay apart, up to the last step, every change of the best block raises it.
  ghost predicate ApartSoFar(ms: seq<Move>, n: nat, margin: nat)
    requires n <= |ms| + 1
  {
    forall k :: 0 <= k < n ==> Apart(Run(IDLE, ms[..k]), margin)
  }

  lemma {:induction false} RunStaysAhead(ms: seq<Move>, n: nat, margin: nat)
    requires margin <= 1 && n <= |ms| && ApartSoFar(ms, n, margin)
    ensures Ahead(Run(IDLE, ms[..n]), margin)
    ensures n > 0 ==> RaisedBy(Run(IDLE, ms[..n - 1]).best, Run(IDLE, ms[..n]).best, margin)
  {
    hide Step, Apart, Ahead;
    if n == 0 {
      NothingPending(margin);
    } else {
      RunStaysAhead(ms, n - 1, margin);
      assert ms[..n][..n - 1] == ms[..n - 1];
      StepStaysAhead(Run(IDLE, ms[..n - 1]), ms[n - 1], margin);
    }
  }

  lemma NothingPending(margin: nat)
    ensures Ahead(Run(IDLE, []), margin)
  {
  }

  predicate Raises(s: Shared, i: nat, margin: nat) {
    Score(Adopt(s, i).best) >= Score(s.best) + margin
  }

  // Whichever passed task replaces the best block next, and whichever does so after it, raises the score.
  ghost predicate AcceptancesRaise(s: Shared, margin: nat) {
    && (forall i :: Pending(s, i) ==> Raises(s, i, margin))
    && (forall i, j :: Pending(s, i) && Pending(s, j) && i != j ==> Raises(Adopt(s, i), j, margin))
  }

  lemma AcceptTwice(s: Shared, i: nat, j: nat)
    requires Pending(s, i)
    ensures Adopt(s, i).best == Target(s, i)
    ensures Pending(s, j) && i != j ==> Adopt(Adopt(s, i), j).best == Target(s, j)
  {
    hide CidOf, RootOf, TxCidOf;
  }

  lemma RaisesMeans(s: Shared, i: nat, j: nat, margin: nat)
    requires Pending(s, i)
    ensures Raises(s, i, margin) <==> Score(Target(s, i)) >= Score(s.best) + margin
    ensures Pending(s, j) && i != j ==>
              (Raises(Adopt(s, i), j, margin) <==> Score(Target(s, j)) >= Score(Target(s, i)) + margin)
  {
    AcceptTwice(s, i, j);
    hide Adopt, Pending;
  }

  // Where everything pending is ahead, any one or two acceptances in a row raise the best score if and only if the
  // passed tasks are apart.
  lemma PairsRaiseExactly(s: Shared, margin: nat)
    requires Ahead(s, margin)
    ensures Apart(s, margin) <==> AcceptancesRaise(s, margin)
  {
    hide Adopt, Raises;
    forall i, j | Pending(s, i)
      ensures Raises(s, i, margin)
      ensures Pending(s, j) && i != j ==>
                (Raises(Adopt(s, i), j, margin) <==> Score(Target(s, j)) >= Score(Target(s, i)) + margin)
    {
      RaisesMeans(s, i, j, margin);
    }
    if !Apart(s, margin) {
      var i, j :| Pending(s, i) && Pending(s, j) && i != j && Score(Target(s, i)) < Score(Target(s, j)) + margin;
      assert !Raises(Adopt(s, j), i, margin);
    }
  }

  // The exact condition over whole runs. For margin 1: the acceptances that may follow any part of the run all strictly
  // raise the best score if and only if two tasks have never both passed the comparison. For margin 0: none of
  // them lowers it if and only if the tasks that have passed at any one time tie.
  lemma AcceptancesRaiseExactly(ms: seq<Move>, margin: nat)
    requires margin <= 1
    ensures ApartSoFar(ms, |ms| + 1, margin) <==>
            forall k :: 0 <= k <= |ms| ==> AcceptancesRaise(Run(IDLE, ms[..k]), margin)
  {
    hide Run, Ahead, Apart, AcceptancesRaise;
    if ApartSoFar(ms, |ms| + 1, margin) {
      forall k | 0 <= k <= |ms|
        ensures AcceptancesRaise(Run(IDLE, ms[..k]), margin)
      {
        RunStaysAhead(ms, k, margin);
        PairsRaiseExactly(Run(IDLE, ms[..k]), margin);
      }
    }
    if forall k :: 0 <= k <= |ms| ==> AcceptancesRaise(Run(IDLE, ms[..k]), margin) {
      forall k | 0 <= k <= |ms|
        ensures Apart(Run(IDLE, ms[..k]), margin)
      {
        RaisingIsAhead(Run(IDLE, ms[..k]), margin);
        PairsRaiseExactly(Run(IDLE, ms[..k]), margin);
      }
    }
  }

  lemma RaisingIsAhead(s: Shared, margin: nat)
    requires AcceptancesRaise(s, margin)
    ensures Ahead(s, margin)
  {
    hide Adopt, Raises;
    forall i | Pending(s, i)
      ensures Score(Target(s, i)) >= Score(s.best) + margin
    {
      assert Raises(s, i, margin);
      RaisesMeans(s, i, i, margin);
    }
  }

  // ---------- best block, head and state ----------

  predicate Accepting(t: Task) {
    t.Passed? || t.Naming? || t.Clearing?
  }

  predicate Underway(t: Task) {
    t.Naming? || t.Clearing?
  }

  predicate HeadAgrees(s: Shared) {
    s.head == Some(CidOf(s.best)) || (s.head.None? && s.best == GENESIS)
  }

  predicate RootAgrees(s: Shared) {
    RootOf(s.best) == Some(s.root)
  }

  // Whenever no acceptance is under way, head and current state are those of the best block.
  ghost predicate Settled(s: Shared) {
    (forall id :: id in s.tasks ==> !Underway(s.tasks[id])) ==> HeadAgrees(s) && RootAgrees(s)
  }

  // u is about to replace the best block while t has still to set the head to another block, or the current state
  // to another state.
  predicate Conflicts(t: Task, u: Task) {
    && u.Passed?
    && match t
       case Passed(b) => CidOf(b) != CidOf(u.target)
       case Naming(b) => CidOf(b) != CidOf(u.target)
       case Clearing(b, _) => RootOf(b) != RootOf(u.target)
       case _ => false
  }

  ghost predicate Calm(s: Shared) {
    forall i, j :: i in s.tasks && j in s.tasks ==> !Conflicts(s.tasks[i], s.tasks[j])
  }

  // At most one task is anywhere between its comparison with the best block and its last assignment.
  ghost predicate Serial(s: Shared) {
    forall i, j :: i in s.tasks && j in s.tasks && Accepting(s.tasks[i]) && Accepting(s.tasks[j]) ==> i == j
  }

  // A lock around the comparison and the acceptance would do.
  lemma SerialIsCalm(s: Shared)
    requires Serial(s)
    ensures Calm(s)
  {
    hide CidOf, RootOf;
  }

  // Where an acceptance under way has got to.
  predicate InOrder(s: Shared, t: Task) {
    match t
    case Naming(b) => CidOf(s.best) == CidOf(b)
    case Clearing(b, _) => RootOf(s.best) == RootOf(b)
    case _ => true
  }

  ghost predicate Orderly(s: Shared) {
    && (forall id :: id in s.tasks ==> InOrder(s, s.tasks[id]))
    && ((forall id :: id in s.tasks ==> !s.tasks[id].Naming?) ==> HeadAgrees(s))
    && ((forall id :: id in s.tasks ==> !Underway(s.tasks[id])) ==> RootAgrees(s))
  }

  lemma OrderlyIsSettled(s: Shared)
    requires Orderly(s)
    ensures Settled(s)
  {
    hide HeadAgrees, RootAgrees, InOrder;
  }

  lemma CidFixesRoot(b: Block, c: Block)
    requires CidOf(b) == CidOf(c)
    ensures RootOf(b) == RootOf(c)
  {
    assert EncodeBlock(b).stateRoot == EncodeBlock(c).stateRoot;
  }

  // A step of a task that is not accepting leaves best block, head and state alone, and puts no acceptance under way.
  lemma OtherStep(s: Shared, m: Move, id: nat)
    requires m.Advance? && m.id in s.tasks ==> !Accepting(s.tasks[m.id])
    ensures Step(s, m).best == s.best && Step(s, m).head == s.head && Step(s, m).root == s.root
    ensures id in s.tasks ==> id in Step(s, m).tasks && (Step(s, m).tasks[id] == s.tasks[id] || !Underway(s.tasks[id]))
    ensures id in Step(s, m).tasks ==>
              (id in s.tasks && Step(s, m).tasks[id] == s.tasks[id]) || !Underway(Step(s, m).tasks[id])
  {
    hide CidOf, RootOf, Check, TxCidOf, WalkOn, Score;
    if m.Advance? && m.id in s.tasks && s.tasks[m.id].Walking? {
      WalkingOn(s.good, m.available, s.tasks[m.id]);
    }
  }

  lemma AcceptKeepsOrder(s: Shared, id: nat)
    requires Orderly(s) && Calm(s) && id in s.tasks && Accepting(s.tasks[id])
    requires RootOf(s.tasks[id].target).Some?
    ensures Orderly(AcceptOn(s, id)) && Calm(AcceptOn(s, id))
  {
    hide Orderly, Calm, AcceptOn;
    AcceptKeepsCalm(s, id);
    match s.tasks[id]
    case Passed(_) => PassedKeepsOrder(s, id);
    case Naming(_) => NamingKeepsOrder(s, id);
    case Clearing(_, _) => ClearingKeepsOrder(s, id);
  }

  lemma PassedKeepsOrder(s: Shared, id: nat)
    requires Orderly(s) && Calm(s) && id in s.tasks && s.tasks[id].Passed?
    ensures Orderly(AcceptOn(s, id))
  {
    hide CidOf, RootOf, HeadAgrees, RootAgrees;
    var s' := AcceptOn(s, id);
    forall j | j in s'.tasks
      ensures InOrder(s', s'.tasks[j])
    {
      assert !Conflicts(s.tasks[j], s.tasks[id]);
    }
    assert s'.tasks[id].Naming?;
  }

  lemma NamingKeepsOrder(s: Shared, id: nat)
    requires Orderly(s) && id in s.tasks && s.tasks[id].Naming?
    ensures Orderly(AcceptOn(s, id))
  {
    assert InOrder(s, s.tasks[id]);
    CidFixesRoot(s.best, s.tasks[id].target);
    hide CidOf, RootOf, RootAgrees;
    var s' := AcceptOn(s, id);
    forall j | j in s'.tasks
      ensures InOrder(s', s'.tasks[j])
    {
      assert j != id ==> InOrder(s, s.tasks[j]);
    }
    assert Underway(s'.tasks[id]);
    hide InOrder;
  }

  lemma ClearingKeepsOrder(s: Shared, id: nat)
    requires Orderly(s) && id in s.tasks && s.tasks[id].Clearing? && RootOf(s.tasks[id].target).Some?
    ensures Orderly(AcceptOn(s, id))
  {
    hide CidOf, RootOf, TxCidOf;
    assert InOrder(s, s.tasks[id]);
    var s' := AcceptOn(s, id);
    AcceptGoesOn(s, id);
    assert s'.best == s.best && s'.head == s.head && !s'.tasks[id].Naming?;
    assert s'.tasks[id].Clearing? || RootAgrees(s');
    assert s'.tasks[id].Clearing? ==> s'.tasks[id].target == s.tasks[id].target;
    AgreementOf(s, s');
    hide AcceptOn, HeadAgrees, RootAgrees;
    forall j | j in s'.tasks
      ensures InOrder(s', s'.tasks[j])
    {
      assert InOrder(s, s.tasks[j]);
    }
    if forall j :: j in s'.tasks ==> !s'.tasks[j].Naming? {
      forall j | j in s.tasks
        ensures !s.tasks[j].Naming?
      {
        assert j in s'.tasks;
      }
    }
  }

  lemma AgreementOf(s: Shared, s': Shared)
    requires s'.best == s.best && s'.head == s.head
    ensures HeadAgrees(s') == HeadAgrees(s)
    ensures s'.root == s.root ==> RootAgrees(s') == RootAgrees(s)
  {
  }

  lemma AcceptKeepsCalm(s: Shared, id: nat)
    requires Calm(s) && id in s.tasks && Accepting(s.tasks[id])
    ensures Calm(AcceptOn(s, id))
  {
    var s' := AcceptOn(s, id);
    forall i, j | i in s'.tasks && j in s'.tasks
      ensures !Conflicts(s'.tasks[i], s'.tasks[j])
    {
      assert !Conflicts(s.tasks[i], s.tasks[j]);
      if CidOf(s.tasks[i].target) == CidOf(s.tasks[j].target) {
        CidFixesRoot(s.tasks[i].target, s.tasks[j].target);
      }
      hide CidOf, RootOf, TxCidOf;
    }
  }

  lemma StepStaysOrderly(s: Shared, m: Move)
    requires SharedInv(s) && Orderly(s) && Calm(s)
    ensures Orderly(Step(s, m))
  {
    hide CidOf, RootOf, TxCidOf, HeadAgrees, RootAgrees, AcceptOn, SharedInv, Calm;
    if m.Advance? && m.id in s.tasks && Accepting(s.tasks[m.id]) {
      AcceptedTarget(s, m.id);
      AcceptKeepsOrder(s, m.id);
    } else {
      var s' := Step(s, m);
      hide Step;
      OtherStep(s, m, 0);
      forall id | id in s'.tasks
        ensures InOrder(s', s'.tasks[id])
      {
        OtherStep(s, m, id);
      }
      forall id | id in s.tasks
        ensures id in s'.tasks && (s'.tasks[id] == s.tasks[id] || !Underway(s.tasks[id]))
      {
        OtherStep(s, m, id);
      }
      AgreementOf(s, s');
    }
  }

  lemma {:induction false} CalmRunsAreOrderly(ms: seq<Move>, n: nat)
    requires n <= |ms| && forall i :: 0 <= i < |ms| ==> StableMove(ms[i])
    requires forall k :: 0 <= k < n ==> Calm(Run(IDLE, ms[..k]))
    ensures Orderly(Run(IDLE, ms[..n])) && SharedInv(Run(IDLE, ms[..n]))
  {
    hide Step, Calm, Orderly, StableMove, SharedInv;
    EveryInterleavingIsSound(ms[..n]);
    if n == 0 {
      IdleIsOrderly();
    } else {
      CalmRunsAreOrderly(ms, n - 1);
      assert ms[..n][..n - 1] == ms[..n - 1];
      StepStaysOrderly(Run(IDLE, ms[..n - 1]), ms[n - 1]);
    }
  }

  lemma IdleIsOrderly()
    ensures Orderly(Run(IDLE, []))
  {
  }

  // ---------- finishing what is under way ----------

  // Moves that only finish acceptances which have begun, or passed the comparison.
  predicate Finishes(s: Shared, ns: seq<Move>) {
    forall k :: 0 <= k < |ns| ==> ns[k].Advance? && ns[k].id in s.tasks && Accepting(s.tasks[ns[k].id])
  }

  // However they are finished, head and state end up those of the best block.
  ghost predicate AlwaysSettles(s: Shared) {
    forall ns :: Finishes(s, ns) ==> Settled(Run(s, ns))
  }

  ghost predicate Begun(s: Shared, s': Shared) {
    forall id :: id in s.tasks && Accepting(s.tasks[id]) ==>
      id in s'.tasks && (Accepting(s'.tasks[id]) || s'.tasks[id].Stopped?)
  }

  lemma {:induction false} CalmSettles(s: Shared, ns: seq<Move>)
    requires SharedInv(s) && Orderly(s) && Calm(s) && Finishes(s, ns)
    ensures var s' := Run(s, ns);
            SharedInv(s') && Orderly(s') && Calm(s') && Begun(s, s')
  {
    hide SharedInv, Orderly, Calm, AcceptOn, Step, CidOf, RootOf, KnownRoot, TaskInv, Genuine, StableMove;
    if ns != [] {
      var n := |ns| - 1;
      CalmSettles(s, ns[..n]);
      var s', id := Run(s, ns[..n]), ns[n].id;
      FinishingStep(s', ns[n]);
      if Accepting(s'.tasks[id]) {
        AcceptedTarget(s', id);
        AcceptKeepsOrder(s', id);
        MoveInv(s', ns[n]);
        AcceptGoesOn(s', id);
      }
    }
  }

  lemma FinishingStep(s: Shared, m: Move)
    requires m.Advance? && m.id in s.tasks && (Accepting(s.tasks[m.id]) || s.tasks[m.id].Stopped?)
    ensures Step(s, m) == if Accepting(s.tasks[m.id]) then AcceptOn(s, m.id) else s
    ensures StableMove(m)
  {
    hide AcceptOn;
  }

  lemma AcceptGoesOn(s: Shared, id: nat)
    requires id in s.tasks && Accepting(s.tasks[id])
    ensures var s' := AcceptOn(s, id);
            && s'.tasks.Keys == s.tasks.Keys && (Accepting(s'.tasks[id]) || s'.tasks[id].Stopped?)
            && forall j :: j in s.tasks && j != id ==> s'.tasks[j] == s.tasks[j]
  {
    hide CidOf, RootOf, TxCidOf;
  }

  lemma FinishOne(s: Shared, id: nat) returns (n: nat)
    requires id in s.tasks && Underway(s.tasks[id])
    ensures var s', t := Drive(s, Advance(id, {}), n), s.tasks[id];
            && s'.best == s.best && s'.tasks == s.tasks[id := Stopped(t.target, Finished)]
            && s'.head == (if t.Naming? then Some(CidOf(t.target)) else s.head)
            && s'.root == (if RootOf(t.target).Some? then RootOf(t.target).value else s.root)
  {
    hide CidOf, RootOf, TxCidOf, ClearedFrom;
    var t, m := s.tasks[id], Advance(id, {});
    if t.Naming? {
      var s1 := s.(head := Some(CidOf(t.target)), tasks := s.tasks[id := Clearing(t.target, 0)]);
      assert Step(s, m) == s1;
      n := ClearAlone(s1, id, {}, t.target, 0);
      assert s1.tasks[id := Stopped(t.target, Finished)] == s.tasks[id := Stopped(t.target, Finished)];
      n := n + 1;
    } else {
      n := ClearAlone(s, id, {}, t.target, t.next);
    }
  }

  function Busy(s: Shared, keep: set<nat>): set<nat> {
    set id | id in s.tasks && id !in keep && Underway(s.tasks[id])
  }

  // All acceptances under way but some can be finished; that leaves the best block, and the head too if none of them
  // had still to set it.
  lemma {:induction false} FinishOthers(s: Shared, keep: set<nat>) returns (ns: seq<Move>)
    ensures Finishes(s, ns) && forall k :: 0 <= k < |ns| ==> ns[k].id !in keep
    ensures var s' := Run(s, ns);
            && s'.best == s.best && s'.tasks.Keys == s.tasks.Keys && Busy(s', keep) == {}
            && (forall id :: id in s.tasks ==>
                  if id in Busy(s, keep) then s'.tasks[id].Stopped? else s'.tasks[id] == s.tasks[id])
            && ((forall id :: id in Busy(s, keep) ==> !s.tasks[id].Naming?) ==> s'.head == s.head)
    decreases |Busy(s, keep)|
  {
    hide Step, CidOf, RootOf, Repeat, Drive;
    ns := [];
    if Busy(s, keep) != {} {
      var id :| id in Busy(s, keep);
      var m := Advance(id, {});
      var n := FinishOne(s, id);
      var s1 := Drive(s, m, n);
      assert Busy(s1, keep) == Busy(s, keep) - {id};
      var rest := FinishOthers(s1, keep);
      ns := Repeat(m, n) + rest;
      DriveIsRun(s, m, n);
      RunConcat(s, Repeat(m, n), rest);
      assert forall k :: 0 <= k < n ==> Repeat(m, n)[k] == m;
    }
  }

  ghost predicate NoneNew(s: Shared, s': Shared) {
    forall id :: id in s'.tasks && Accepting(s'.tasks[id]) ==> id in s.tasks && Accepting(s.tasks[id])
  }

  lemma FinishesAfter(s: Shared, ns: seq<Move>, ms: seq<Move>)
    requires Finishes(s, ns) && NoneNew(s, Run(s, ns)) && Finishes(Run(s, ns), ms)
    ensures Finishes(s, ns + ms) && Run(s, ns + ms) == Run(Run(s, ns), ms)
  {
    hide Step, Run;
    RunConcat(s, ns, ms);
  }

  // The first two steps of an acceptance.
  lemma Overtakes(s: Shared, j: nat)
    requires Pending(s, j)
    ensures var ns, b := [Advance(j, {}), Advance(j, {})], Target(s, j);
            && Finishes(s, ns)
            && Run(s, ns) == s.(best := b, head := Some(CidOf(b)), good := s.good + {CidOf(b)},
                                tasks := s.tasks[j := Clearing(b, 0)])
  {
    hide CidOf, RootOf, TxCidOf, Run;
    var m, b := Advance(j, {}), Target(s, j);
    var s1 := s.(best := b, good := s.good + {CidOf(b)}, tasks := s.tasks[j := Naming(b)]);
    assert Step(s, m) == s1;
    assert s1.tasks[j := Clearing(b, 0)] == s.tasks[j := Clearing(b, 0)];
    assert [m, m] == [m] + [m];
    RunConcat(s, [m], [m]);
    RunOne(s, m);
    RunOne(s1, m);
  }

  // Between i's two assignments j makes its own: the head ends up i's and the best block j's.
  lemma OvertakenHead(s: Shared, i: nat, j: nat) returns (ns: seq<Move>)
    requires i in s.tasks && s.tasks[i].Naming? && Pending(s, j) && CidOf(Target(s, i)) != CidOf(Target(s, j))
    requires Busy(s, {i, j}) == {}
    ensures Finishes(s, ns) && !Settled(Run(s, ns))
  {
    hide CidOf, RootOf, Run, Step;
    Overtakes(s, j);
    var b, first := Target(s, i), [Advance(j, {}), Advance(j, {})];
    var s1 := Run(s, first);
    var s2 := s1.(head := Some(CidOf(b)), tasks := s1.tasks[i := Clearing(b, 0)]);
    NamingStep(s1, i);
    RunOne(s1, Advance(i, {}));
    FinishesAfter(s, first, [Advance(i, {})]);
    assert forall id :: id in Busy(s2, {}) ==> !s2.tasks[id].Naming?;
    var rest := FinishOthers(s2, {});
    FinishesAfter(s, first + [Advance(i, {})], rest);
    ns := first + [Advance(i, {})] + rest;
    var s' := Run(s, ns);
    forall id | id in s'.tasks
      ensures !Underway(s'.tasks[id])
    {
      assert id !in Busy(s', {});
    }
    assert s'.head == Some(CidOf(b)) && s'.best == Target(s, j);
  }

  lemma NamingStep(s: Shared, i: nat)
    requires i in s.tasks && s.tasks[i].Naming?
    ensures var b := Target(s, i);
            Step(s, Advance(i, {})) == s.(head := Some(CidOf(b)), tasks := s.tasks[i := Clearing(b, 0)])
  {
    hide CidOf;
  }

  // Between i's last two assignments j makes all of its own: the state ends up i's and the best block j's.
  lemma OvertakenRoot(s: Shared, i: nat, j: nat) returns (ns: seq<Move>)
    requires i in s.tasks && s.tasks[i].Clearing? && Pending(s, j)
    requires RootOf(Target(s, i)).Some? && RootOf(Target(s, i)) != RootOf(Target(s, j))
    requires Busy(s, {i, j}) == {}
    ensures Finishes(s, ns) && !Settled(Run(s, ns))
  {
    hide CidOf, RootOf, Run, Step, Drive, Repeat;
    Overtakes(s, j);
    var b, first := Target(s, i), [Advance(j, {}), Advance(j, {})];
    var s1 := Run(s, first);
    var second := FinishOthers(s1, {i});
    var s2 := Run(s1, second);
    FinishesAfter(s, first, second);
    assert i !in Busy(s1, {i}) && s2.tasks[i] == s.tasks[i];
    var n := FinishOne(s2, i);
    DriveIsRun(s2, Advance(i, {}), n);
    var third := Repeat(Advance(i, {}), n);
    assert Finishes(s2, third) by { RepeatFinishes(s2, i, n); }
    FinishesAfter(s, first + second, third);
    ns := first + second + third;
    var s' := Run(s, ns);
    forall id | id in s'.tasks
      ensures !Underway(s'.tasks[id])
    {
      assert id !in Busy(s2, {i});
    }
    assert s'.root == RootOf(b).value && s'.best == Target(s, j);
  }

  lemma RepeatFinishes(s: Shared, id: nat, n: nat)
    requires id in s.tasks && Accepting(s.tasks[id])
    ensures Finishes(s, Repeat(Advance(id, {}), n))
  {
  }

  // A conflict can always be brought about.
  lemma ConflictUnsettles(s: Shared, i: nat, j: nat) returns (ns: seq<Move>)
    requires i in s.tasks && j in s.tasks && Conflicts(s.tasks[i], s.tasks[j]) && RootOf(Target(s, i)).Some?
    ensures Finishes(s, ns) && !Settled(Run(s, ns))
  {
    hide CidOf, RootOf, Run, Step, Settled;
    var first := FinishOthers(s, {i, j});
    var s1 := Run(s, first);
    assert i !in Busy(s, {i, j}) && j !in Busy(s, {i, j});
    assert NoneNew(s, s1);
    var rest;
    match s1.tasks[i] {
      case Passed(b) =>
        var s2 := s1.(best := b, good := s1.good + {CidOf(b)}, tasks := s1.tasks[i := Naming(b)]);
        PassedStep(s1, i);
        RunOne(s1, Advance(i, {}));
        FinishesAfter(s, first, [Advance(i, {})]);
        assert Busy(s2, {i, j}) == {} by {
          assert forall id :: id in s2.tasks && id != i ==> s2.tasks[id] == s1.tasks[id];
          assert forall id :: id in Busy(s2, {i, j}) ==> id in Busy(s1, {i, j});
        }
        first := first + [Advance(i, {})];
        rest := OvertakenHead(s2, i, j);
      case Naming(_) => rest := OvertakenHead(s1, i, j);
      case Clearing(_, _) => rest := OvertakenRoot(s1, i, j);
    }
    FinishesAfter(s, first, rest);
    ns := first + rest;
  }

  lemma PassedStep(s: Shared, i: nat)
    requires Pending(s, i)
    ensures var b := Target(s, i);
            Step(s, Advance(i, {})) == s.(best := b, good := s.good + {CidOf(b)}, tasks := s.tasks[i := Naming(b)])
  {
    hide CidOf;
  }

  // The exact condition over whole runs: after every part of the run, however the acceptances begun by then are
  // finished, head and current state end up those of the best block, if and only if at no point of the run a
  // task that has passed the comparison conflicts with another one.
  lemma SettlesExactly(ms: seq<Move>)
    requires forall i :: 0 <= i < |ms| ==> StableMove(ms[i])
    ensures (forall k :: 0 <= k <= |ms| ==> Calm(Run(IDLE, ms[..k]))) <==>
            (forall k :: 0 <= k <= |ms| ==> AlwaysSettles(Run(IDLE, ms[..k])))
  {
    hide Calm, AlwaysSettles, Orderly, SharedInv, Run, StableMove;
    if forall k :: 0 <= k <= |ms| ==> Calm(Run(IDLE, ms[..k])) {
      forall k | 0 <= k <= |ms|
        ensures AlwaysSettles(Run(IDLE, ms[..k]))
      {
        CalmRunsAreOrderly(ms, k);
        OrderlyAlwaysSettles(Run(IDLE, ms[..k]));
      }
    }
    if forall k :: 0 <= k <= |ms| ==> AlwaysSettles(Run(IDLE, ms[..k])) {
      forall k | 0 <= k <= |ms|
        ensures Calm(Run(IDLE, ms[..k]))
      {
        EveryInterleavingIsSound(ms[..k]);
        SettlingIsCalm(Run(IDLE, ms[..k]));
      }
    }
  }

  lemma OrderlyAlwaysSettles(s: Shared)
    requires SharedInv(s) && Orderly(s) && Calm(s)
    ensures AlwaysSettles(s)
  {
    hide Calm, Orderly, SharedInv, Settled, Finishes, Run;
    forall ns | Finishes(s, ns)
      ensures Settled(Run(s, ns))
    {
      CalmSettles(s, ns);
      OrderlyIsSettled(Run(s, ns));
    }
  }

  lemma SettlingIsCalm(s: Shared)
    requires SharedInv(s) && AlwaysSettles(s)
    ensures Calm(s)
  {
    hide SharedInv, Settled, Finishes, Run, CidOf, RootOf;
    forall i, j | i in s.tasks && j in s.tasks
      ensures !Conflicts(s.tasks[i], s.tasks[j])
    {
      if Conflicts(s.tasks[i], s.tasks[j]) {
        AcceptedTarget(s, i);
        var ns := ConflictUnsettles(s, i, j);
      }
    }
  }

  // ---------- runs that break both ----------

  // A block that some node could accept now.
  predicate Acceptable(s: Shared, available: set<Cid>, b: Block) {
    StableBlock(b) && Genuine(b) && Fetchable(available, b) && Score(b) > Score(s.best)
  }

  lemma Passes(s: Shared, id: nat, available: set<Cid>, b: Block) returns (n: nat, good: set<Cid>)
    requires Sound(s.good) && Acceptable(s, available, b) && id in s.tasks && s.tasks[id] == Walking(b, Path([], b))
    ensures Drive(s, Advance(id, available), n) == s.(good := good, tasks := s.tasks[id := Passed(b)]) && Sound(good)
  {
    hide Step, CidOf, Sound, Validate;
    var t;
    n, t := ValidationAlone(s, id, available, b);
    CacheIsExact(s.good, available, s.best, b);
    ValidateKeepsSound(s.good, available, s.best, b);
    good := Validate(s.good, available, s.best, b).good;
  }

  lemma Arrives(s: Shared, id: nat, b: Block)
    requires id !in s.tasks && Score(b) > Score(s.best)
    ensures Step(s, Arrive(id, b)) == s.(tasks := s.tasks[id := Walking(b, Path([], b))])
  {
  }

  // From any state, two acceptable blocks can both pass the comparison before either is accepted.
  lemma BothPass(s: Shared, i: nat, j: nat, available: set<Cid>, b: Block, c: Block) returns (ms: seq<Move>)
    requires Sound(s.good) && i !in s.tasks && j !in s.tasks && i != j
    requires Acceptable(s, available, b) && Acceptable(s, available, c)
    ensures var s' := Run(s, ms);
            && s'.best == s.best && Pending(s', i) && Pending(s', j) && Target(s', i) == b && Target(s', j) == c
  {
    hide Step, CidOf, Sound, StableBlock, Genuine, Fetchable;
    var mi, mj := Advance(i, available), Advance(j, available);
    Arrives(s, i, b);
    var s1 := s.(tasks := s.tasks[i := Walking(b, Path([], b))]);
    var n, good := Passes(s1, i, available, b);
    var s2 := s1.(good := good, tasks := s1.tasks[i := Passed(b)]);
    Arrives(s2, j, c);
    var s3 := s2.(tasks := s2.tasks[j := Walking(c, Path([], c))]);
    var k, good' := Passes(s3, j, available, c);
    hide Acceptable;
    ms := [Arrive(i, b)] + Repeat(mi, n) + ([Arrive(j, c)] + Repeat(mj, k));
    Follows(s, Arrive(i, b), mi, n);
    Follows(s2, Arrive(j, c), mj, k);
    RunConcat(s, [Arrive(i, b)] + Repeat(mi, n), [Arrive(j, c)] + Repeat(mj, k));
  }

  lemma Follows(s: Shared, first: Move, m: Move, n: nat)
    ensures Run(s, [first] + Repeat(m, n)) == Drive(Step(s, first), m, n)
  {
    hide Step;
    RunConcat(s, [first], Repeat(m, n));
    RunOne(s, first);
    DriveIsRun(Step(s, first), m, n);
  }

  // The comparison with the best block and its replacement are two steps: any two acceptable blocks of different
  // heights have a run that accepts the higher one and then replaces it by the lower one.
  lemma BestScoreCanFall(s: Shared, i: nat, j: nat, available: set<Cid>, low: Block, high: Block)
    returns (ms: seq<Move>)
    requires Sound(s.good) && i !in s.tasks && j !in s.tasks && i != j
    requires Acceptable(s, available, low) && Acceptable(s, available, high) && Score(low) < Score(high)
    ensures var s' := Run(s, ms + [Advance(j, {})]);
            s'.best == high && Run(s, ms + [Advance(j, {})] + [Advance(i, {})]).best == low
  {
    hide Step, CidOf, Sound, Acceptable, Run;
    ms := BothPass(s, i, j, available, low, high);
    var s' := Run(s, ms);
    AcceptTwice(s', j, i);
    RunConcat(s, ms, [Advance(j, {})]);
    RunOne(s', Advance(j, {}));
    RunConcat(s, ms + [Advance(j, {})], [Advance(i, {})]);
    RunOne(Step(s', Advance(j, {})), Advance(i, {}));
  }

  // Any two acceptable blocks with different identifiers have a run that ends, with no acceptance under way, in a head
  // or a current state that is not the best block's.
  lemma HeadCanDisagree(s: Shared, i: nat, j: nat, available: set<Cid>, b: Block, c: Block) returns (ms: seq<Move>)
    requires Sound(s.good) && i !in s.tasks && j !in s.tasks && i != j
    requires Acceptable(s, available, b) && Acceptable(s, available, c) && CidOf(b) != CidOf(c)
    ensures !Settled(Run(s, ms))
  {
    hide Step, CidOf, Sound, Run, RootOf, Settled, ReplayState, Finishes;
    var race := BothPass(s, i, j, available, b, c);
    GenuineRoot(b);
    var rest := ConflictUnsettles(Run(s, race), i, j);
    ms := race + rest;
    RunConcat(s, race, rest);
  }

  lemma GenuineRoot(b: Block)
    requires Genuine(b)
    ensures RootOf(b).Some?
  {
  }

  function EmptyChild(height: Uint64): Block {
    Block(Some(CidOf(GENESIS)), [], [], height, GENESIS.stateRoot, None, None)
  }

  // Such blocks exist from the start: children of genesis without transactions.
  lemma ChildrenAreAcceptable(h: Uint64)
    requires h > 0
    ensures Acceptable(IDLE, {CidOf(GENESIS)}, EmptyChild(h)) && Sound(IDLE.good)
    ensures forall k: Uint64 :: k != h ==> CidOf(EmptyChild(h)) != CidOf(EmptyChild(k))
  {
    hide GENESIS_ACTORS, CidOf, Check, ParentOf, Sound, IsGenesis;
    GenesisSound();
    var b := EmptyChild(h);
    HeightsTellApart(h);
    ParentIsGenesis(b);
    EmptyChecks(GENESIS_ACTORS, b);
    assert ReplayState(GENESIS) == Some(GENESIS_ACTORS);
    assert Genuine(b);
    assert Fetchable({CidOf(GENESIS)}, b);
  }

  lemma HeightsTellApart(h: Uint64)
    requires h > 0
    ensures !IsGenesis(EmptyChild(h)) && IsGenesis(GENESIS)
    ensures forall k: Uint64 :: k != h ==> CidOf(EmptyChild(h)) != CidOf(EmptyChild(k))
  {
    hide GENESIS_ACTORS;
    assert EncodeBlock(GENESIS).height == 0;
    assert forall k: Uint64 :: EncodeBlock(EmptyChild(k)).height == k;
  }

  lemma EmptyChecks(actors: Actors, b: Block)
    requires b.txs == [] && b.stateRoot == Some(StateCid(actors))
    ensures Check(actors, b) == Some(actors)
  {
  }

  lemma ParentIsGenesis(b: Block)
    requires b.parent == Some(CidOf(GENESIS))
    ensures ParentOf(b) == Some(GENESIS)
  {
    hide GENESIS_ACTORS;
    BlockRoundTrip(GENESIS);
    GenesisAlone(NormalBlock(GENESIS));
  }
}
