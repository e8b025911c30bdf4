/** Hellos sent while acceptances overlap (core/protocol.go:28-46): the hello reads the head and the best block one
    after the other, and an acceptance sets them one after the other. */
module Greetings {
  import opened Wrappers
  import opened Types
  import opened Chain
  import opened Protocol
  import opened Interleaving
  import opened Alone
  import opened Races

  // The hello names a genuine block of the height it states.
  predicate Truthful(h: Hello) {
    h.head.Some? ==> KnownGood(h.head.value) && h.head.value.block.height == h.height
  }

  ghost predicate NoneNaming(s: Shared) {
    forall id :: id in s.tasks ==> !s.tasks[id].Naming?
  }

  predicate HeadIsLower(s: Shared) {
    s.head.Some? ==> s.head.value.BlockCid? && s.head.value.block.height < Score(s.best)
  }

  // Between its two assignments an acceptance leaves a head that is lower than the best block.
  ghost predicate LaggingHead(s: Shared) {
    NoneNaming(s) || HeadIsLower(s)
  }

  ghost predicate AtMostOneNaming(s: Shared) {
    forall i, j :: i in s.tasks && j in s.tasks && s.tasks[i].Naming? && s.tasks[j].Naming? ==> i == j
  }

  lemma PassedMeetsNoNaming(s: Shared, id: nat)
    requires Orderly(s) && Calm(s) && Ahead(s, 1) && Pending(s, id)
    ensures NoneNaming(s)
  {
    forall j | j in s.tasks
      ensures !s.tasks[j].Naming?
    {
      if s.tasks[j].Naming? {
        assert !Conflicts(s.tasks[j], s.tasks[id]) && InOrder(s, s.tasks[j]);
        SameHeight(s.tasks[j].target, s.tasks[id].target);
        SameHeight(s.best, s.tasks[j].target);
      }
    }
  }

  lemma SameHeight(b: Block, c: Block)
    requires CidOf(b) == CidOf(c)
    ensures Score(b) == Score(c)
  {
    assert EncodeBlock(b).height == EncodeBlock(c).height;
  }

  lemma HeadHeight(s: Shared)
    requires HeadAgrees(s) && s.head.Some?
    ensures s.head.value.BlockCid? && s.head.value.block.height == Score(s.best)
  {
  }

  lemma StepKeepsLag(s: Shared, m: Move)
    requires Orderly(s) && Calm(s) && Ahead(s, 1)
    requires LaggingHead(s) && AtMostOneNaming(s)
    ensures LaggingHead(Step(s, m)) && AtMostOneNaming(Step(s, m))
  {
    hide Step, Calm, CidOf;
    if m.Advance? && m.id in s.tasks && s.tasks[m.id].Passed? {
      PassedMeetsNoNaming(s, m.id);
      AdoptingLags(s, m);
    } else {
      hide Orderly, Ahead;
      OrdinaryStep(s, m);
    }
  }

  lemma AdoptingLags(s: Shared, m: Move)
    requires m.Advance? && Pending(s, m.id) && NoneNaming(s) && HeadAgrees(s)
    requires Score(s.tasks[m.id].target) > Score(s.best)
    ensures HeadIsLower(Step(s, m)) && AtMostOneNaming(Step(s, m))
  {
    if s.head.Some? {
      HeadHeight(s);
    }
    hide CidOf;
  }

  lemma OrdinaryStep(s: Shared, m: Move)
    requires m.Advance? ==> !Pending(s, m.id)
    requires LaggingHead(s) && AtMostOneNaming(s)
    ensures LaggingHead(Step(s, m)) && AtMostOneNaming(Step(s, m))
  {
    var s' := Step(s, m);
    hide Step, CidOf, HeadIsLower;
    forall id | id in s'.tasks && s'.tasks[id].Naming?
      ensures id in s.tasks && s.tasks[id].Naming? && s'.best == s.best && s'.head == s.head
    {
      StaysNaming(s, m, id);
    }
    if !NoneNaming(s') {
      var id :| id in s'.tasks && s'.tasks[id].Naming?;
      assert s.tasks[id].Naming?;
      LowerDependsOn(s, s');
    }
  }

  lemma LowerDependsOn(s: Shared, s': Shared)
    requires s'.best == s.best && s'.head == s.head
    ensures HeadIsLower(s') == HeadIsLower(s)
  {
  }

  // Only the step from Passed starts naming; while a task stays there, nothing else touches best block or head but the
  // step of another task that names.
  lemma StaysNaming(s: Shared, m: Move, id: nat)
    requires (m.Advance? ==> !Pending(s, m.id)) && AtMostOneNaming(s)
    requires id in Step(s, m).tasks && Step(s, m).tasks[id].Naming?
    ensures id in s.tasks && s.tasks[id].Naming? && Step(s, m).best == s.best && Step(s, m).head == s.head
  {
    hide CidOf, RootOf, Check, TxCidOf, WalkOn, Score;
    if m.Advance? && m.id in s.tasks && s.tasks[m.id].Walking? {
      WalkingOn(s.good, m.available, s.tasks[m.id]);
    }
  }

  // At every point of the run no two passed tasks conflict, and no two have passed at once.
  ghost predicate Tame(ms: seq<Move>) {
    && (forall i :: 0 <= i < |ms| ==> StableMove(ms[i]))
    && (forall k :: 0 <= k < |ms| ==> Calm(Run(IDLE, ms[..k])))
    && ApartSoFar(ms, |ms|, 1)
  }

  lemma {:induction false} TameRunsLag(ms: seq<Move>, n: nat)
    requires Tame(ms) && n <= |ms|
    ensures LaggingHead(Run(IDLE, ms[..n])) && AtMostOneNaming(Run(IDLE, ms[..n]))
    ensures Orderly(Run(IDLE, ms[..n])) && SharedInv(Run(IDLE, ms[..n]))
  {
    hide Step, Calm, Orderly, StableMove, SharedInv, Ahead, Apart, LaggingHead, AtMostOneNaming;
    CalmRunsAreOrderly(ms, n);
    if n == 0 {
      IdleLags();
    } else {
      TameRunsLag(ms, n - 1);
      TameIsApart(ms, n - 1);
      RunStaysAhead(ms, n - 1, 1);
      assert ms[..n][..n - 1] == ms[..n - 1];
      StepKeepsLag(Run(IDLE, ms[..n - 1]), ms[n - 1]);
    }
  }

  lemma IdleLags()
    ensures LaggingHead(Run(IDLE, [])) && AtMostOneNaming(Run(IDLE, []))
  {
  }

  lemma {:induction false} BestRises(ms: seq<Move>, k: nat, l: nat)
    requires Tame(ms) && k <= l <= |ms|
    ensures Score(Run(IDLE, ms[..k]).best) <= Score(Run(IDLE, ms[..l]).best)
    decreases l - k
  {
    hide *;
    if k < l {
      BestRises(ms, k, l - 1);
      TameIsApart(ms, l);
      RunStaysAhead(ms, l, 1);
      RaisedIsHigher(Run(IDLE, ms[..l - 1]).best, Run(IDLE, ms[..l]).best);
    }
  }

  lemma RaisedIsHigher(before: Block, after: Block)
    requires RaisedBy(before, after, 1)
    ensures Score(before) <= Score(after)
  {
  }

  lemma TameIsApart(ms: seq<Move>, n: nat)
    requires Tame(ms) && n <= |ms|
    ensures ApartSoFar(ms, n, 1)
  {
    hide Apart, Calm, StableMove, Run;
  }

  // A hello that reads the head at one point of a run of overlapping calls and the best block at another. If the head
  // is not read between the two assignments of an acceptance, it is truthful exactly if there is no head yet or
  // the best score is the same at both points; if it is, and the best block is read later, it is not.
  lemma OverlappingHello(ms: seq<Move>, k: nat, l: nat)
    requires Tame(ms) && k <= |ms| && l <= |ms|
    ensures var s, s' := Run(IDLE, ms[..k]), Run(IDLE, ms[..l]);
            var h := Hello(s.head, Score(s'.best));
            && (NoneNaming(s) ==> (Truthful(h) <==> h.head.None? || Score(s.best) == Score(s'.best)))
            && (!NoneNaming(s) && k <= l ==> (Truthful(h) <==> h.head.None?))
  {
    hide Run, Calm, KnownGood, CidOf, Tame, Score;
    var s, s' := Run(IDLE, ms[..k]), Run(IDLE, ms[..l]);
    TameRunsLag(ms, k);
    HeadIsKnownGood(s);
    if s.head.Some? && NoneNaming(s) {
      HeadHeight(s);
    }
    if k <= l {
      BestRises(ms, k, l);
    }
    hide SharedInv, NoneNaming, HeadAgrees;
  }

  lemma HeadIsKnownGood(s: Shared)
    requires SharedInv(s)
    ensures s.head.Some? ==> KnownGood(s.head.value) && s.head.value.BlockCid?
  {
    if s.head.Some? {
      assert Sound(s.good) && s.head.value in s.good;
      assert KnownGood(s.head.value);
    }
    hide CidOf;
  }

  // So a second acceptance makes hellos untrue for as long as it is between the two: the old head at the new height.
  lemma HelloCanLie(s: Shared, id: nat)
    requires HeadAgrees(s) && s.head.Some? && Pending(s, id) && Score(Target(s, id)) > Score(s.best)
    ensures var s' := Adopt(s, id);
            !Truthful(Hello(s'.head, Score(s'.best)))
  {
    HeadHeight(s);
    AcceptTwice(s, id, id);
    hide CidOf, KnownGood;
  }
}
