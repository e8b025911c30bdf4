/** Several nodes that start from one genesis and exchange blocks, transactions and hellos, in any
    interleaving, with messages late, repeated, lost or made up (core/node.go, core/protocol.go). */
module Network {
  import opened Types
  import opened Wire
  import opened Chain
  import opened Pool
  import opened Protocol

  datatype Publication = Publication(publisher: nat, block: EncodedBlock)

  datatype Net = Net(nodes: seq<NodeState>, published: set<Publication>, hellos: set<Hello>)

  /** One step of one node; remote is whatever its peers happen to serve during the step. */
  datatype Event =
    | Mines(i: nat, remote: set<Cid>, pooled: seq<Transaction>)
    | Receives(i: nat, remote: set<Cid>, block: EncodedBlock)
    | ReceivesTx(i: nat, fields: seq<Value>)
    | Takes(i: nat)
    | Greets(i: nat)
    | Hears(i: nat, remote: set<Cid>, hello: Hello)

  function Start(addresses: seq<Address>): Net {
    Net(seq(|addresses|, i requires 0 <= i < |addresses| => StartNode(addresses[i])), {}, {})
  }

  ghost predicate Enabled(s: Net, e: Event) {
    e.i < |s.nodes| && (e.Mines? ==> IsOrder(s.nodes[e.i].mgr.pool, e.pooled))
  }

  function NodeStep(n: NodeState, e: Event): NodeState {
    match e
    case Mines(_, remote, pooled) => Mine(n, remote, pooled).node
    case Receives(_, remote, block) => ReceiveBlock(n, remote, block)
    case ReceivesTx(_, fields) => ReceiveTx(n, fields)
    case Takes(_) => TakeBlock(n)
    case Greets(_) => n
    case Hears(_, remote, hello) => ReceiveHello(n, remote, hello)
  }

  function Publishes(n: NodeState, e: Event): set<Publication> {
    if e.Mines? && Mine(n, e.remote, e.pooled).published.Some?
    then {Publication(e.i, Mine(n, e.remote, e.pooled).published.value)} else {}
  }

  // Events that are not enabled do nothing, so every list of events is a run.
  ghost function Step(s: Net, e: Event): Net {
    if !Enabled(s, e) then s
    else
      var n := s.nodes[e.i];
      Net(s.nodes[e.i := NodeStep(n, e)], s.published + Publishes(n, e),
          s.hellos + if e.Greets? then {HelloOf(n)} else {})
  }

  ghost function Run(s: Net, es: seq<Event>): Net {
    if es == [] then s else Step(Run(s, es[..|es| - 1]), es[|es| - 1])
  }

  // ---------- what every run keeps ----------

  function Best(s: Net, i: nat): Uint64
    requires i < |s.nodes|
  {
    Score(s.nodes[i].mgr.best)
  }

  // A published block is known good at its publisher, whose best block is at least as high.
  predicate Honoured(s: Net, p: Publication) {
    && p.publisher < |s.nodes|
    && BlockCid(p.block) in s.nodes[p.publisher].mgr.good
    && p.block.height <= Best(s, p.publisher)
  }

  // A hello names a genuine block of the height it states, which some node has reached.
  predicate Honest(s: Net, h: Hello) {
    h.head.Some? ==>
      && KnownGood(h.head.value) && h.head.value.block.height == h.height
      && exists i :: 0 <= i < |s.nodes| && h.height <= Best(s, i)
  }

  predicate NodesSound(s: Net) {
    forall i :: 0 <= i < |s.nodes| ==> NodeInv(s.nodes[i])
  }

  predicate NetInv(s: Net) {
    && NodesSound(s)
    && (forall p :: p in s.published ==> Honoured(s, p))
    && (forall h :: h in s.hellos ==> Honest(s, h))
  }

  lemma NodeStepInv(n: NodeState, e: Event)
    requires NodeInv(n) && (e.Mines? ==> IsOrder(n.mgr.pool, e.pooled))
    ensures NodeInv(NodeStep(n, e)) && Advances(n, NodeStep(n, e))
  {
    hide NodeInv, Advances, Mine, ReceiveBlock, ReceiveTx, TakeBlock, ReceiveHello;
    match e
    case Mines(_, remote, pooled) => MineStep(n, remote, pooled);
    case Receives(_, remote, block) => ReceiveBlockStep(n, remote, block);
    case ReceivesTx(_, fields) => ReceiveTxStep(n, fields);
    case Takes(_) => TakeBlockStep(n);
    case Greets(_) => Standing(n);
    case Hears(_, remote, hello) => ReceiveHelloStep(n, remote, hello);
  }

  lemma Standing(n: NodeState)
    ensures Advances(n, n)
  {
  }

  // When one node advances, what was honoured and honest stays so.
  lemma AdvanceKeeps(s: Net, i: nat, n: NodeState, s': Net)
    requires i < |s.nodes| && Advances(s.nodes[i], n) && s'.nodes == s.nodes[i := n]
    ensures forall p :: Honoured(s, p) ==> Honoured(s', p)
    ensures forall h :: Honest(s, h) ==> Honest(s', h)
  {
    hide KnownGood;
    assert forall j :: 0 <= j < |s.nodes| ==> Best(s, j) <= Best(s', j);
  }

  lemma HelloIsHonest(s: Net, i: nat)
    requires i < |s.nodes| && NodeInv(s.nodes[i])
    ensures Honest(s, HelloOf(s.nodes[i]))
  {
    hide KnownGood, KnownParent;
    assert HelloOf(s.nodes[i]).height <= Best(s, i);
  }

  lemma StepKeepsNodes(s: Net, e: Event)
    requires NodesSound(s)
    ensures NodesSound(Step(s, e))
  {
    hide NodeInv, Advances, NodeStep, Publishes, HelloOf, IsOrder;
    if Enabled(s, e) {
      NodeStepInv(s.nodes[e.i], e);
    }
  }

  // Whatever was honoured or honest before a step still is.
  lemma StepKeepsPromises(s: Net, e: Event)
    requires NodesSound(s)
    ensures forall p :: Honoured(s, p) ==> Honoured(Step(s, e), p)
    ensures forall h :: Honest(s, h) ==> Honest(Step(s, e), h)
  {
    hide NodeInv, Advances, NodeStep, Publishes, Honoured, Honest, HelloOf, IsOrder;
    if Enabled(s, e) {
      NodeStepInv(s.nodes[e.i], e);
      AdvanceKeeps(s, e.i, NodeStep(s.nodes[e.i], e), Step(s, e));
    }
  }

  lemma StepInv(s: Net, e: Event)
    requires NetInv(s)
    ensures NetInv(Step(s, e))
  {
    StepKeepsNodes(s, e);
    StepKeepsPromises(s, e);
    hide NodeStep, Publishes, Honoured, Honest, HelloOf, IsOrder;
    var s' := Step(s, e);
    forall p | p in s'.published
      ensures Honoured(s', p)
    {
      if p !in s.published {
        assert NodeInv(s.nodes[e.i]);
        PublicationIsHonoured(s, e, p);
      }
    }
    forall h | h in s'.hellos
      ensures Honest(s', h)
    {
      if h !in s.hellos {
        assert NodeInv(s.nodes[e.i]);
        HelloIsHonest(s, e.i);
      }
    }
  }

  lemma PublicationIsHonoured(s: Net, e: Event, p: Publication)
    requires Enabled(s, e) && NodeInv(s.nodes[e.i]) && p in Publishes(s.nodes[e.i], e)
    ensures Honoured(Step(s, e), p)
  {
    hide NodeInv, Mine, IsOrder;
    PublishedIsAccepted(s.nodes[e.i], e.remote, e.pooled);
  }

  lemma {:induction false} RunInv(s: Net, es: seq<Event>)
    requires NetInv(s)
    ensures NetInv(Run(s, es)) && |Run(s, es).nodes| == |s.nodes|
  {
    hide NetInv, NodeStep;
    if es != [] {
      RunInv(s, es[..|es| - 1]);
      StepInv(Run(s, es[..|es| - 1]), es[|es| - 1]);
    }
  }

  // In every run from genesis, of any number of nodes with readable addresses: every node's known blocks are
  // genuine and closed under parents, its best block, head and state agree, and every published block is
  // already accepted by its publisher.
  lemma EveryRunIsSound(addresses: seq<Address>, es: seq<Event>)
    requires forall i :: 0 <= i < |addresses| ==> Wireable(addresses[i])
    ensures NetInv(Run(Start(addresses), es))
  {
    forall i | 0 <= i < |addresses|
      ensures NodeInv(Start(addresses).nodes[i])
    {
      StartNodeInv(addresses[i]);
    }
    RunInv(Start(addresses), es);
  }

  // A block that one node knows to be good is accepted at any other node that can fetch its ancestors,
  // exactly if that node has nothing as high.
  lemma KnownGoodTravels(s: Net, i: nat, j: nat, c: Cid, remote: set<Cid>)
    requires NetInv(s) && i < |s.nodes| && j < |s.nodes|
    requires c in s.nodes[i].mgr.good && BlockAt(c).Some?
    requires Fetchable(s.nodes[j].mgr.stored + remote, BlockAt(c).value)
    ensures Process(s.nodes[j].mgr, remote, BlockAt(c).value).accepted <==> Score(BlockAt(c).value) > Best(s, j)
  {
    NodesAreSound(s, i);
    NodesAreSound(s, j);
    hide NetInv, Process, Fetchable;
    assert KnownGood(c);
    DecodedIsNormal(c.block);
    NormalBlockIsStable(BlockAt(c).value);
    ProcessIsExact(s.nodes[j].mgr, remote, BlockAt(c).value);
  }

  // No node's best score ever falls.
  lemma {:induction false} ScoresNeverFall(s: Net, es: seq<Event>, i: nat)
    requires NetInv(s) && i < |s.nodes|
    ensures |Run(s, es).nodes| == |s.nodes| && Best(s, i) <= Best(Run(s, es), i)
  {
    hide NetInv, NodeStep, NodeInv;
    RunInv(s, es);
    if es != [] {
      var before, e := Run(s, es[..|es| - 1]), es[|es| - 1];
      ScoresNeverFall(s, es[..|es| - 1], i);
      RunInv(s, es[..|es| - 1]);
      if Enabled(before, e) {
        assert NodeInv(before.nodes[e.i]) by { NodesAreSound(before, e.i); }
        NodeStepInv(before.nodes[e.i], e);
      }
    }
  }

  lemma NodesAreSound(s: Net, i: nat)
    requires NetInv(s) && i < |s.nodes|
    ensures NodeInv(s.nodes[i])
  {
  }

  // ---------- convergence ----------

  // Once mining has stopped, only blocks that were published and hellos that were sent are received.
  predicate Quiet(s: Net, e: Event) {
    && !e.Mines?
    && (e.Receives? ==> exists p :: p in s.published && p.block == e.block)
    && (e.Hears? ==> e.hello in s.hellos)
  }

  ghost predicate QuietRun(s: Net, es: seq<Event>) {
    forall k :: 0 <= k < |es| ==> Quiet(Run(s, es[..k]), es[k])
  }

  predicate Ceiling(s: Net, top: nat) {
    && (forall i :: 0 <= i < |s.nodes| ==> Best(s, i) <= top)
    && (forall p :: p in s.published ==> p.block.height <= top)
    && (forall h :: h in s.hellos && h.head.Some? ==> h.head.value.BlockCid? && h.head.value.block.height <= top)
  }

  lemma CeilingOf(s: Net, top: nat)
    requires NetInv(s) && forall i :: 0 <= i < |s.nodes| ==> Best(s, i) <= top
    ensures Ceiling(s, top)
  {
    hide NodeInv, KnownParent;
    forall p | p in s.published
      ensures p.block.height <= top
    {
      assert Honoured(s, p);
    }
    forall h | h in s.hellos && h.head.Some?
      ensures h.head.value.BlockCid? && h.head.value.block.height <= top
    {
      assert Honest(s, h);
    }
  }

  // Informing a node of a block cannot lift it above both its own best and the block.
  lemma InformBound(n: NodeState, remote: set<Cid>, b: Block)
    ensures Score(Inform(n, remote, b).mgr.best) in {Score(n.mgr.best), Score(b)}
  {
    hide Validate;
  }

  // The height of the block that an event brings, if it brings one.
  function Brought(e: Event): nat {
    match e
    case Receives(_, _, block) => block.height
    case Hears(_, _, Hello(Some(BlockCid(block)), _)) => block.height
    case _ => 0
  }

  lemma StepBound(n: NodeState, e: Event, top: nat)
    requires !e.Mines? && Score(n.mgr.best) <= top && Brought(e) <= top
    ensures Score(NodeStep(n, e).mgr.best) <= top
  {
    hide Inform, Unmarshal;
    match e
    case Receives(_, remote, block) =>
      if DecodeBlock(block).Some? {
        InformBound(n, remote, DecodeBlock(block).value);
      }
    case Hears(_, remote, hello) =>
      if hello.head.Some? && BlockAt(hello.head.value).Some? {
        InformBound(n, remote, BlockAt(hello.head.value).value);
      }
    case _ =>
  }

  lemma QuietStep(s: Net, e: Event, top: nat)
    requires NetInv(s) && Ceiling(s, top) && Quiet(s, e)
    ensures Ceiling(Step(s, e), top)
  {
    hide NetInv, NodeStep, IsOrder;
    if Enabled(s, e) {
      assert Best(s, e.i) <= top;
      StepBound(s.nodes[e.i], e, top);
      StepInv(s, e);
      assert forall i :: 0 <= i < |s.nodes| && i != e.i ==> Best(Step(s, e), i) == Best(s, i);
      CeilingOf(Step(s, e), top);
    }
  }

  lemma {:induction false} QuietRunKeepsCeiling(s: Net, es: seq<Event>, top: nat)
    requires NetInv(s) && Ceiling(s, top) && QuietRun(s, es)
    ensures Ceiling(Run(s, es), top)
  {
    hide NetInv, Ceiling, Quiet, Step;
    if es != [] {
      var n := |es| - 1;
      assert QuietRun(s, es[..n]) by {
        forall k | 0 <= k < n
          ensures Quiet(Run(s, es[..n][..k]), es[..n][k])
        {
          assert es[..n][..k] == es[..k];
        }
      }
      QuietRunKeepsCeiling(s, es[..n], top);
      RunInv(s, es[..n]);
      QuietStep(Run(s, es[..n]), es[n], top);
    }
  }

  // Everything the hello's head needs can be fetched.
  predicate Complete(n: NodeState, remote: set<Cid>, h: Hello) {
    h.head.Some? ==>
      && h.head.value in n.mgr.stored + remote
      && (BlockAt(h.head.value).Some? ==> Fetchable(n.mgr.stored + remote, BlockAt(h.head.value).value))
  }

  // A node that hears an honest hello with everything at hand ends up at least as high as the hello; a hello
  // without a head is only sent while the sender is still at genesis, whose height is zero.
  lemma HearingLifts(s: Net, j: nat, remote: set<Cid>, h: Hello)
    requires j < |s.nodes| && NodeInv(s.nodes[j]) && Honest(s, h) && Complete(s.nodes[j], remote, h)
    requires h.head.None? ==> h.height == 0
    ensures Score(ReceiveHello(s.nodes[j], remote, h).mgr.best) >= h.height
  {
    hide Process, Fetchable, NodeInv, ManagerInv, Genuine, StableBlock, NormalBlock, CidOf;
    var n := s.nodes[j];
    if h.head.Some? && h.height > Score(n.mgr.best) {
      var b := BlockAt(h.head.value).value;
      DecodedIsNormal(h.head.value.block);
      NormalBlockIsStable(b);
      ManagerOf(n);
      ProcessIsExact(n.mgr, remote, b);
      ProcessStep(n.mgr, remote, b);
    }
  }

  lemma HeadlessIsGenesis(n: NodeState)
    requires NodeInv(n)
    ensures HelloOf(n).head.None? ==> HelloOf(n).height == 0
  {
  }

  // During the run, i says hello, and later j hears that very hello with everything at hand.
  ghost predicate Heard(s: Net, es: seq<Event>, i: nat, j: nat) {
    exists k, l :: 0 <= k < l < |es| && HeardAt(s, es, i, j, k, l)
  }

  ghost predicate HeardAt(s: Net, es: seq<Event>, i: nat, j: nat, k: nat, l: nat)
    requires k < l < |es|
  {
    && es[k] == Greets(i) && es[l].Hears? && es[l].i == j
    && i < |Run(s, es[..k]).nodes| && j < |Run(s, es[..l]).nodes|
    && es[l].hello == HelloOf(Run(s, es[..k]).nodes[i])
    && Complete(Run(s, es[..l]).nodes[j], es[l].remote, es[l].hello)
  }

  lemma {:induction false} RunConcat(s: Net, es: seq<Event>, fs: seq<Event>)
    ensures Run(s, es + fs) == Run(Run(s, es), fs)
  {
    hide Step;
    if fs == [] {
      assert es + fs == es;
    } else {
      RunConcat(s, es, fs[..|fs| - 1]);
      assert (es + fs)[..|es + fs| - 1] == es + fs[..|fs| - 1];
    }
  }

  lemma HelloStaysHonest(s: Net, es: seq<Event>, i: nat, k: nat, l: nat)
    requires NetInv(s) && i < |s.nodes| && k < l < |es| && i < |Run(s, es[..k]).nodes|
    ensures var h := HelloOf(Run(s, es[..k]).nodes[i]);
            Honest(Run(s, es[..l]), h) && h.height >= Best(s, i) && (h.head.None? ==> h.height == 0)
  {
    hide Run, NetInv, NodeInv, Honest;
    var sent := Run(s, es[..k]);
    RunInv(s, es[..k]);
    ScoresNeverFall(s, es[..k], i);
    NodesAreSound(sent, i);
    HeadlessIsGenesis(sent.nodes[i]);
    HelloIsHonest(sent, i);
    assert es[..l] == es[..k] + es[k..l];
    RunConcat(s, es[..k], es[k..l]);
    HonestStays(sent, es[k..l], HelloOf(sent.nodes[i]));
  }

  lemma RunSplit(s: Net, es: seq<Event>, l: nat)
    requires l < |es|
    ensures Run(s, es) == Run(Step(Run(s, es[..l]), es[l]), es[l + 1..])
  {
    hide Step;
    assert es == es[..l] + ([es[l]] + es[l + 1..]);
    RunConcat(s, es[..l], [es[l]] + es[l + 1..]);
    RunConcat(Run(s, es[..l]), [es[l]], es[l + 1..]);
    RunOne(Run(s, es[..l]), es[l]);
  }

  lemma ListenerRises(s: Net, e: Event)
    requires NetInv(s) && e.Hears? && e.i < |s.nodes|
    requires Honest(s, e.hello) && Complete(s.nodes[e.i], e.remote, e.hello)
    requires e.hello.head.None? ==> e.hello.height == 0
    ensures |Step(s, e).nodes| == |s.nodes| && Best(Step(s, e), e.i) >= e.hello.height
  {
    hide NodeInv, ReceiveHello, Complete, Honest;
    NodesAreSound(s, e.i);
    HearingLifts(s, e.i, e.remote, e.hello);
  }

  lemma HeardLifts(s: Net, es: seq<Event>, i: nat, j: nat)
    requires NetInv(s) && i < |s.nodes| && j < |s.nodes| && Heard(s, es, i, j)
    ensures |Run(s, es).nodes| == |s.nodes| && Best(Run(s, es), j) >= Best(s, i)
  {
    hide Run, NetInv, NodeInv, Complete, Honest, Step, HelloOf;
    var k, l :| 0 <= k < l < |es| && HeardAt(s, es, i, j, k, l);
    RunInv(s, es[..l]);
    HelloStaysHonest(s, es, i, k, l);
    var here := Run(s, es[..l]);
    ListenerRises(here, es[l]);
    StepInv(here, es[l]);
    RunSplit(s, es, l);
    ScoresNeverFall(Step(here, es[l]), es[l + 1..], j);
  }

  lemma RunOne(s: Net, e: Event)
    ensures Run(s, [e]) == Step(s, e)
  {
    assert [e][..0] == [];
  }

  lemma {:induction false} HonestStays(s: Net, es: seq<Event>, h: Hello)
    requires NetInv(s) && Honest(s, h)
    ensures Honest(Run(s, es), h)
  {
    hide NetInv, Honest, NodeStep, NodeInv;
    if es != [] {
      var before, e := Run(s, es[..|es| - 1]), es[|es| - 1];
      HonestStays(s, es[..|es| - 1], h);
      RunInv(s, es[..|es| - 1]);
      if Enabled(before, e) {
        NodesAreSound(before, e.i);
        NodeStepInv(before.nodes[e.i], e);
        AdvanceKeeps(before, e.i, NodeStep(before.nodes[e.i], e), Step(before, e));
      }
    }
  }

  lemma {:induction false} HighestNode(s: Net, count: nat) returns (i: nat)
    requires 0 < count <= |s.nodes|
    ensures i < count && forall j :: 0 <= j < count ==> Best(s, j) <= Best(s, i)
  {
    if count == 1 {
      i := 0;
    } else {
      i := HighestNode(s, count - 1);
      if Best(s, i) < Best(s, count - 1) {
        i := count - 1;
      }
    }
  }

  // Convergence: from any sound state, once mining has stopped and every node has heard a hello that each other
  // node sent afterwards, with all blocks at hand, all best scores are equal, and equal to the highest
  // there was when mining stopped.
  lemma HellosConverge(s: Net, es: seq<Event>, i: nat)
    requires NetInv(s) && QuietRun(s, es) && i < |s.nodes|
    requires forall j, k :: 0 <= j < |s.nodes| && 0 <= k < |s.nodes| && j != k ==> Heard(s, es, j, k)
    ensures |Run(s, es).nodes| == |s.nodes|
    ensures forall j :: 0 <= j < |s.nodes| ==> Best(s, j) <= Best(Run(s, es), i)
    ensures exists j :: 0 <= j < |s.nodes| && Best(Run(s, es), i) == Best(s, j)
    ensures forall j :: 0 <= j < |s.nodes| ==> Best(Run(s, es), j) == Best(Run(s, es), i)
  {
    hide Run, NetInv, QuietRun, Heard;
    var end := Run(s, es);
    var m := HighestNode(s, |s.nodes|);
    var top := Best(s, m);
    CeilingOf(s, top);
    QuietRunKeepsCeiling(s, es, top);
    RunInv(s, es);
    assert forall j :: 0 <= j < |s.nodes| ==> Best(end, j) <= top;
    hide Ceiling;
    forall j | 0 <= j < |s.nodes|
      ensures Best(end, j) == top
    {
      if j == m {
        ScoresNeverFall(s, es, m);
      } else {
        HeardLifts(s, es, m, j);
      }
    }
  }

  // The exchange of two peers on connecting: each greets, then each hears the other.
  function Handshake(s: Net, remote0: set<Cid>, remote1: set<Cid>): seq<Event>
    requires |s.nodes| == 2
  {
    [Greets(0), Greets(1), Hears(1, remote1, HelloOf(s.nodes[0])), Hears(0, remote0, HelloOf(s.nodes[1]))]
  }

  lemma NextStep(s: Net, es: seq<Event>, n: nat)
    requires n < |es|
    ensures Run(s, es[..0]) == s && Run(s, es[..n + 1]) == Step(Run(s, es[..n]), es[n])
  {
    hide Step;
    assert es[..n + 1][..n] == es[..n];
  }

  lemma GreetingOnlySends(s: Net, i: nat)
    requires i < |s.nodes|
    ensures Step(s, Greets(i)).nodes == s.nodes
    ensures Step(s, Greets(i)).hellos == s.hellos + {HelloOf(s.nodes[i])}
  {
    hide HelloOf, Mine;
    assert s.nodes[i := s.nodes[i]] == s.nodes;
  }

  lemma HearingIsLocal(s: Net, i: nat, remote: set<Cid>, h: Hello)
    ensures var t := Step(s, Hears(i, remote, h));
            && |t.nodes| == |s.nodes| && t.hellos == s.hellos
            && forall j :: 0 <= j < |s.nodes| && j != i ==> t.nodes[j] == s.nodes[j]
  {
    hide ReceiveHello, Mine;
  }

  lemma GreetStep(s: Net, es: seq<Event>, n: nat, i: nat)
    requires n < |es| && i < |Run(s, es[..n]).nodes| && es[n] == Greets(i)
    ensures Run(s, es[..n + 1]).nodes == Run(s, es[..n]).nodes
    ensures HelloOf(Run(s, es[..n]).nodes[i]) in Run(s, es[..n + 1]).hellos
    ensures forall h :: h in Run(s, es[..n]).hellos ==> h in Run(s, es[..n + 1]).hellos
  {
    hide Run, HelloOf, Step;
    NextStep(s, es, n);
    GreetingOnlySends(Run(s, es[..n]), i);
  }

  // After both have greeted, both hellos are out and no node has changed.
  lemma BothGreet(s: Net, es: seq<Event>)
    requires |s.nodes| == 2 && |es| >= 2 && es[0] == Greets(0) && es[1] == Greets(1)
    ensures Run(s, es[..0]) == s && Run(s, es[..1]).nodes == s.nodes
    ensures Run(s, es[..2]).nodes == s.nodes
    ensures HelloOf(s.nodes[0]) in Run(s, es[..2]).hellos && HelloOf(s.nodes[1]) in Run(s, es[..2]).hellos
  {
    hide HelloOf, Step;
    assert Run(s, es[..0]) == s;
    hide Run;
    GreetStep(s, es, 0, 0);
    GreetStep(s, es, 1, 1);
  }

  // Nothing in the exchange touches node 0 before it hears.
  lemma HandshakeStates(s: Net, remote0: set<Cid>, remote1: set<Cid>)
    requires |s.nodes| == 2
    ensures var es := Handshake(s, remote0, remote1);
            && Run(s, es[..0]) == s && Run(s, es[..1]).nodes == s.nodes
            && Run(s, es[..2]).nodes == s.nodes
            && HelloOf(s.nodes[0]) in Run(s, es[..2]).hellos && HelloOf(s.nodes[1]) in Run(s, es[..2]).hellos
            && |Run(s, es[..3]).nodes| == 2
            && Run(s, es[..3]).nodes[0] == s.nodes[0]
            && Run(s, es[..3]).hellos == Run(s, es[..2]).hellos
  {
    hide Run, HelloOf, Step;
    var es := Handshake(s, remote0, remote1);
    BothGreet(s, es);
    NextStep(s, es, 2);
    HearingIsLocal(Run(s, es[..2]), 1, remote1, HelloOf(s.nodes[0]));
  }

  lemma HandshakeIsQuiet(s: Net, remote0: set<Cid>, remote1: set<Cid>)
    requires |s.nodes| == 2
    ensures QuietRun(s, Handshake(s, remote0, remote1))
  {
    var es := Handshake(s, remote0, remote1);
    HandshakeStates(s, remote0, remote1);
    hide Run, HelloOf;
    assert Quiet(Run(s, es[..2]), es[2]) && Quiet(Run(s, es[..3]), es[3]);
  }

  lemma HandshakeIsHeard(s: Net, remote0: set<Cid>, remote1: set<Cid>)
    requires |s.nodes| == 2
    requires Complete(s.nodes[0], remote0, HelloOf(s.nodes[1]))
    requires Complete(s.nodes[1], remote1, HelloOf(s.nodes[0]))
    ensures Heard(s, Handshake(s, remote0, remote1), 0, 1) && Heard(s, Handshake(s, remote0, remote1), 1, 0)
  {
    var es := Handshake(s, remote0, remote1);
    HandshakeStates(s, remote0, remote1);
    hide Run, HelloOf, Complete;
    assert HeardAt(s, es, 0, 1, 0, 2);
    assert HeardAt(s, es, 1, 0, 1, 3);
  }

  // One exchange of hellos, with both heads' blocks at hand, brings two nodes to the higher of their scores.
  lemma HandshakeConverges(s: Net, remote0: set<Cid>, remote1: set<Cid>)
    requires NetInv(s) && |s.nodes| == 2
    requires Complete(s.nodes[0], remote0, HelloOf(s.nodes[1]))
    requires Complete(s.nodes[1], remote1, HelloOf(s.nodes[0]))
    ensures var end := Run(s, Handshake(s, remote0, remote1));
            && |end.nodes| == 2
            && Best(end, 0) == Best(end, 1) == if Best(s, 0) < Best(s, 1) then Best(s, 1) else Best(s, 0)
  {
    hide *;
    HandshakeIsQuiet(s, remote0, remote1);
    HandshakeIsHeard(s, remote0, remote1);
    HellosConverge(s, Handshake(s, remote0, remote1), 0);
  }
}
