/** Whatever is not hopeless can still be carried: from any block, a chain of ordinary transactions leads to a state in
    which a given transaction is due and makes sense (state/state_manager.go:97-111, contract/contract.go). */
module Carry {
  import opened Wrappers
  import opened BigInt
  import opened Types
  import opened Ledger
  import opened Wire
  import opened Nonces
  import opened Chain
  import opened Laws
  import opened Mining
  import opened Pool
  import opened Protocol
  import opened Stall

  // A transfer as it is received.
  function Pays(from: Address, to: Address, nonce: Uint64, amount: nat): Transaction {
    Transaction(TOKEN, from, nonce, None, None, TRANSFER,
                [Decoded(Text(AddressText(to))), Decoded(Blob(Bytes(amount)))])
  }

  lemma PaysWhat(from: Address, to: Address, nonce: Uint64, amount: nat)
    ensures PaymentOf(Pays(from, to, nonce, amount)) == Some(Payment(to, amount))
    ensures Stable(Pays(from, to, nonce, amount))
  {
    hide Bytes, SetBytes, EncodeHex;
    AddressTextRoundTrip(to);
    assert HasHexPrefix(AddressText(to));
  }

  // ---------- lists that lead to a state ----------

  // A list of received transactions that leads from one state grown from genesis to another, and in which a succeeds
  // some number of times.
  ghost predicate Leads(actors: Actors, txs: seq<Transaction>, after: Actors, a: Address, used: nat) {
    && TokenWorld(actors) && TokenWorld(after)
    && Apply(actors, txs) == Applied(after, None) && StableList(txs)
    && |Used(actors, txs, a)| == used
  }

  lemma LeadsNowhere(actors: Actors, a: Address)
    requires TokenWorld(actors)
    ensures Leads(actors, [], actors, a, 0)
  {
  }

  lemma LeadsOn(actors: Actors, txs: seq<Transaction>, mid: Actors, a: Address, used: nat, tx: Transaction)
    requires Leads(actors, txs, mid, a, used) && Stable(tx) && Exec(mid, tx).result.Ok?
    ensures var o := Exec(mid, tx);
            Leads(actors, txs + [tx], o.actors, a, used + if tx.from == a && o.Succeeded() then 1 else 0)
  {
    hide Exec, TokenWorld, Stable;
    assert (txs + [tx])[..|txs|] == txs;
    ExecTokenWorld(mid, tx);
    assert forall i :: 0 <= i < |txs + [tx]| ==> Stable((txs + [tx])[i]);
    LastUsed(actors, txs + [tx], a);
  }

  // ---------- the two kinds of transaction that are needed ----------

  // More than the sender has: the recipient gets an actor and nothing else changes.
  lemma TooMuch(actors: Actors, from: Address, to: Address)
    requires TokenWorld(actors) && from in actors
    ensures var tx := Pays(from, to, actors[from].nonce, Balance(TokenMemory(actors), from) + 1);
            Exec(actors, tx) == Executed(WithActor(actors, to), Ok(Receipt(false, NIL)))
  {
    hide Balance, WithActor, Exec, PaymentOf;
    var tx := Pays(from, to, actors[from].nonce, Balance(TokenMemory(actors), from) + 1);
    PaysWhat(from, to, actors[from].nonce, Balance(TokenMemory(actors), from) + 1);
    assert Preflight(actors, tx).None?;
    ShortPayment(actors, tx);
  }

  // Nothing at all: both parties get an entry, and the sender uses a nonce.
  lemma Nothing(actors: Actors, from: Address, to: Address)
    requires TokenWorld(actors) && from in actors
    ensures var tx := Pays(from, to, actors[from].nonce, 0);
            var o := Exec(actors, tx);
            && o.Succeeded() && TokenWorld(o.actors)
            && actors.Keys <= o.actors.Keys && to in TokenMemory(o.actors)
            && o.actors[from].nonce == NextNonce(actors[from].nonce)
            && (forall a :: a in actors && a != from ==> o.actors[a].nonce == actors[a].nonce)
            && TokenMemory(actors).Keys <= TokenMemory(o.actors).Keys
  {
    var tx := Pays(from, to, actors[from].nonce, 0);
    PaysWhat(from, to, actors[from].nonce, 0);
    hide Bytes, SetBytes, AddressCast, NumberCast, Pays, Balance;
    ExecTokenWorld(actors, tx);
    ExecFrame(actors, tx);
    NothingIsCovered(actors, tx, to);
  }

  lemma NothingIsCovered(actors: Actors, tx: Transaction, to: Address)
    requires TokenWorld(actors) && tx.to == TOKEN && Due(actors, tx) && PaymentOf(tx) == Some(Payment(to, 0))
    ensures Preflight(actors, tx).None? && Exec(actors, tx).Succeeded()
    ensures CallOf(actors, tx).memory == Moved(TokenMemory(actors), tx.from, to, 0)
    ensures Updated(actors, tx, TOKEN).memory == Some(MemoryCid(CallOf(actors, tx).memory))
  {
    hide Bytes, SetBytes, AddressCast, NumberCast, Moved;
  }

  // ---------- bringing a transaction about ----------

  // The sender pays itself nothing until its nonce is the one wanted.
  lemma {:induction false} CatchUp(actors: Actors, txs: seq<Transaction>, mid: Actors, used: nat, t: Transaction)
    returns (more: seq<Transaction>, after: Actors)
    requires Leads(actors, txs, mid, t.from, used) && t.from in mid && mid[t.from].nonce <= t.nonce
    ensures Leads(actors, more, after, t.from, used + t.nonce - mid[t.from].nonce)
    ensures Due(after, t) && TokenMemory(mid).Keys <= TokenMemory(after).Keys
    decreases t.nonce - mid[t.from].nonce
  {
    hide Exec, Apply, TokenWorld, Used, Pays, StableList;
    if mid[t.from].nonce == t.nonce {
      more, after := txs, mid;
    } else {
      var tx := Pays(t.from, t.from, mid[t.from].nonce, 0);
      PaysSender(t.from, t.from, mid[t.from].nonce, 0);
      Nothing(mid, t.from, t.from);
      LeadsOn(actors, txs, mid, t.from, used, tx);
      more, after := CatchUp(actors, txs + [tx], Exec(mid, tx).actors, used + 1, t);
    }
  }

  lemma PaysSender(from: Address, to: Address, nonce: Uint64, amount: nat)
    ensures Pays(from, to, nonce, amount).from == from && Stable(Pays(from, to, nonce, amount))
  {
    PaysWhat(from, to, nonce, amount);
  }

  // An existing account lets any address have an actor, without using a nonce.
  lemma GiveActor(actors: Actors, txs: seq<Transaction>, mid: Actors, a: Address, used: nat, to: Address)
    returns (more: seq<Transaction>, after: Actors)
    requires Leads(actors, txs, mid, a, used)
    ensures Leads(actors, more, after, a, used) && after == WithActor(mid, to)
  {
    assert TOKEN in mid;
    hide Exec, Apply, TokenWorld, Used, Pays, Balance, StableList, WithActor;
    var amount := Balance(TokenMemory(mid), TOKEN) + 1;
    var tx := Pays(TOKEN, to, mid[TOKEN].nonce, amount);
    PaysSender(TOKEN, to, mid[TOKEN].nonce, amount);
    TooMuch(mid, TOKEN, to);
    LeadsOn(actors, txs, mid, a, used, tx);
    more, after := txs + [tx], WithActor(mid, to);
  }

  // The account that a query asks for.
  function Asked(t: Transaction): Address {
    if t.call == GET_BALANCE && |t.params| == 1 && PlainAddressCast(t.params[0]).Ok?
    then PlainAddressCast(t.params[0]).value else TOKEN
  }

  lemma AskedIsUnderstood(m: Memory, t: Transaction)
    requires Sensible(t) && Asked(t) in m
    ensures Understood(m, t)
  {
    assert TRANSFER[0] != GET_BALANCE[0];
  }

  // From any state grown from genesis whose sender's nonce has not passed it, a sensible transaction can be made to
  // run: its sender gets an actor, the account it asks for an entry, and its nonce its turn.
  lemma Prepared(actors: Actors, t: Transaction) returns (txs: seq<Transaction>, after: Actors)
    requires TokenWorld(actors) && Sensible(t) && NonceOf(actors, t.from) <= t.nonce
    ensures Leads(actors, txs, after, t.from, t.nonce - NonceOf(actors, t.from))
    ensures Exec(after, t).result.Ok?
  {
    hide Exec, Apply, TokenWorld, Used, Pays, Sensible, Understood, Asked, StableList;
    var helper := if t.from == TOKEN then [] else TOKEN;
    LeadsNowhere(actors, t.from);
    var mid;
    txs, mid := GiveActor(actors, [], actors, t.from, 0, helper);
    txs, mid := GiveActor(actors, txs, mid, t.from, 0, t.from);
    assert helper in mid && t.from in mid && helper != t.from && mid[t.from].nonce == NonceOf(actors, t.from);
    var tx := Pays(helper, Asked(t), mid[helper].nonce, 0);
    PaysSender(helper, Asked(t), mid[helper].nonce, 0);
    Nothing(mid, helper, Asked(t));
    LeadsOn(actors, txs, mid, t.from, 0, tx);
    txs, after := CatchUp(actors, txs + [tx], Exec(mid, tx).actors, 0, t);
    AskedIsUnderstood(TokenMemory(after), t);
    RunsExactly(after, t);
  }

  // ---------- the block that carries it ----------

  // Any height will do: validation does not relate it to the parent's.
  lemma CarryingBlock(p: Block, t: Transaction, height: Uint64) returns (b: Block)
    requires Genuine(p) && NormalBlock(p) == p && Stable(t) && !Hopeless(p, t)
    ensures Carries(p, b, t) && Score(b) == height
  {
    hide Exec, Apply, TokenWorld, Used, Sensible, Stable, UsedBy, NonceOf, Leads, TxCidOf, InTime, Carries, ReplayState;
    var actors := ReplayState(p).value;
    GenuineTokenWorld(p);
    StoredNonce(p, t.from);
    var txs, after := Prepared(actors, t);
    var total := LeadsToBlock(actors, txs, after, t);
    b := Block(Some(CidOf(p)), txs + [t], [], height, Some(StateCid(total)), None, None);
    CarriesIt(p, b, txs, t, after, total);
  }

  lemma LeadsToBlock(actors: Actors, txs: seq<Transaction>, after: Actors, t: Transaction) returns (total: Actors)
    requires NonceOf(actors, t.from) <= t.nonce
    requires Leads(actors, txs, after, t.from, t.nonce - NonceOf(actors, t.from))
    requires Exec(after, t).result.Ok? && Stable(t)
    ensures Apply(actors, txs + [t]) == Applied(total, None) && StableList(txs + [t])
    ensures |Used(actors, txs, t.from)| == t.nonce - NonceOf(actors, t.from)
  {
    hide Exec, TokenWorld, Used, Stable, NonceOf, Apply;
    total := Exec(after, t).actors;
    var all := txs + [t];
    assert all[..|txs|] == txs && all[..|txs| + 1] == all;
    ApplyNext(actors, all, |txs|);
    assert forall i :: 0 <= i < |all| ==> Stable(all[i]);
  }

  lemma CarriesIt(p: Block, b: Block, txs: seq<Transaction>, t: Transaction, after: Actors, total: Actors)
    requires Genuine(p) && NormalBlock(p) == p
    requires b.parent == Some(CidOf(p)) && b.txs == txs + [t] && b.stateRoot == Some(StateCid(total))
    requires Apply(ReplayState(p).value, b.txs) == Applied(total, None) && StableList(b.txs)
    requires |UsedBy(p, t.from)| + |Used(ReplayState(p).value, txs, t.from)| == t.nonce
    ensures Carries(p, b, t)
  {
    hide Exec, Apply, Used, UsedBy, TxCidOf;
    BlockRoundTrip(p);
    assert ParentOf(b) == Some(p);
    BusyIsNotGenesis(b);
    assert Genuine(b);
    assert TxCidOf(b.txs[|txs|]) == TxCidOf(t);
    InTimeIfCounted(p, b, txs, t);
    assert IsAncestor(p, p);
  }

  lemma InTimeIfCounted(p: Block, b: Block, txs: seq<Transaction>, t: Transaction)
    requires Genuine(p) && ParentOf(b) == Some(p) && b.txs == txs + [t]
    requires |UsedBy(p, t.from)| + |Used(ReplayState(p).value, txs, t.from)| < UINT64_LIMIT
    ensures InTime(b, t)
  {
    hide UsedBy, ReplayState, TxCidOf, Used;
    forall i | 0 <= i < |b.txs| && TxCidOf(b.txs[i]) == TxCidOf(t)
      ensures UsedBefore(p, b.txs, i) < UINT64_LIMIT
    {
      SameFields(b.txs[i], t);
      assert b.txs[..i] == txs[..i] && txs == txs[..i] + txs[i..];
      UsedPrefix(ReplayState(p).value, txs[..i], txs[i..], t.from);
    }
  }

  // The exact condition: before its sender's nonces wrap, some later block of the chain through p can carry a received
  // transaction if and only if at p its nonce is not spent and the contract can make sense of it.
  lemma CarriedExactly(p: Block, t: Transaction)
    requires Genuine(p) && NormalBlock(p) == p && Stable(t)
    ensures (exists b :: Carries(p, b, t)) <==> !Hopeless(p, t)
  {
    hide Carries, Hopeless, Stable, Genuine, NormalBlock;
    if !Hopeless(p, t) {
      var b := CarryingBlock(p, t, 0);
    } else {
      forall b
        ensures !Carries(p, b, t)
      {
        if Carries(p, b, t) {
          CarriedHasHope(p, b, t);
        }
      }
    }
  }

  // ---------- leaving the pool ----------

  // Everything above a block that its validation may fetch.
  function Ancestry(b: Block): set<Cid>
    decreases Depth(b.parent)
  {
    if ParentOf(b).None? then {} else {b.parent.value} + Ancestry(ParentOf(b).value)
  }

  lemma {:induction false} AncestryIsEnough(available: set<Cid>, b: Block)
    requires Ancestry(b) <= available
    ensures Fetchable(available, b)
    decreases Depth(b.parent)
  {
    hide CidOf;
    if ParentOf(b).Some? {
      AncestryIsEnough(available, ParentOf(b).value);
    }
  }

  // Processing b, a later block of the chain through p, takes the transaction out of the pool.
  ghost predicate Clears(p: Block, m: Manager, remote: set<Cid>, b: Block, c: Cid) {
    && StableBlock(b) && IsAncestor(p, b) && p != b
    && c in m.pool && InTime(b, m.pool[c]) && c !in Process(m, remote, b).mgr.pool
  }

  // The same for the pool: some later block of the chain through p, with its ancestors served, makes the node drop a
  // pooled transaction if and only if the transaction is not hopeless at p.
  lemma LeavesPoolExactly(p: Block, m: Manager, c: Cid)
    requires ManagerInv(m) && c in m.pool && Stable(m.pool[c])
    requires Genuine(p) && NormalBlock(p) == p && Score(m.best) + 1 < UINT64_LIMIT
    ensures (exists remote, b :: Clears(p, m, remote, b, c)) <==> !Hopeless(p, m.pool[c])
  {
    hide ManagerInv, Stable, Hopeless, Genuine, NormalBlock, InTime, Process, StableBlock, IsAncestor;
    if !Hopeless(p, m.pool[c]) {
      var b := CarryingBlock(p, m.pool[c], Score(m.best) + 1);
      ClearsIt(p, m, b, c);
    } else {
      forall remote, b
        ensures !Clears(p, m, remote, b, c)
      {
        if Clears(p, m, remote, b, c) {
          HopelessStaysPooled(p, m, remote, b, c);
        }
      }
    }
  }

  lemma ClearsIt(p: Block, m: Manager, b: Block, c: Cid)
    requires ManagerInv(m) && c in m.pool && Carries(p, b, m.pool[c]) && Score(b) > Score(m.best)
    ensures Clears(p, m, Ancestry(b), b, c)
  {
    assert TxCidOf(m.pool[c]) == c;
    hide ManagerInv, Stable, Genuine, InTime, Process, StableBlock, IsAncestor, TxCidOf, Cleared, ReplayState;
    AncestryIsEnough(m.stored + Ancestry(b), b);
    ProcessIsExact(m, Ancestry(b), b);
    ProcessStep(m, Ancestry(b), b);
  }
}
