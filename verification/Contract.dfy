/** The executor as it runs (contract/contract.go, contract/state.go): a store of content-addressed
    nodes, states and contract states mutated in place, and actor records that are loaded, changed
    and written back. Every method is proved equal to the atomic meaning in module Ledger. */
module Contract {
  import opened Wrappers
  import opened BigInt
  import opened Types
  import Ledger

  /** The content-addressed store: what this node holds, and what its peers would serve now. */
  class Store {
    var held: set<Cid>
    var remote: set<Cid>

    constructor ()
      ensures held == {} && remote == {}
    {
      held, remote := {}, {};
    }

    function Available(): set<Cid>
      reads this
    {
      held + remote
    }

    method Put(c: Cid)
      modifies this`held
      ensures held == old(held) + {c}
    {
      held := held + {c};
    }
  }

  /** A loaded actor: a private copy until it is written back. */
  class LoadedActor {
    var code: Option<Cid>
    var memory: Option<Cid>
    var nonce: Uint64

    constructor (a: Actor)
      ensures Record() == a
    {
      code, memory, nonce := a.code, a.memory, a.nonce;
    }

    function Record(): Actor
      reads this
    {
      Actor(code, memory, nonce)
    }
  }

  /** One contract's storage, loaded from its memory root. */
  class ContractState {
    var n: Memory
    const cstr: Store

    constructor (cstr: Store, n: Memory)
      ensures this.cstr == cstr && this.n == n
    {
      this.cstr, this.n := cstr, n;
    }

    method Get(k: Address) returns (data: Option<seq<Byte>>)
      ensures data == if k in n then Some(n[k]) else None
    {
      data := if k in n then Some(n[k]) else None;
    }

    method Set(k: Address, val: seq<Byte>)
      modifies this`n
      ensures n == old(n)[k := val]
    {
      n := n[k := val];
    }

    method Flush() returns (c: Cid)
      modifies cstr`held
      ensures c == MemoryCid(n) && cstr.held == old(cstr.held) + {c}
    {
      c := MemoryCid(n);
      cstr.Put(c);
    }
  }

  datatype CallContext = CallContext(
    state: State, contractState: ContractState, from: Address, fromNonce: Uint64, address: Address)

  // ---------- the token contract ----------

  // The second half of a transfer, once the recipient exists: both reads, the check, both writes.
  method Move(ctx: CallContext, toAddr: Address, amount: int) returns (r: Result<Param, Ledger.Error>)
    modifies ctx.contractState`n
    ensures var m := old(ctx.contractState.n);
            if Ledger.Balance(m, ctx.from) < amount
            then r == Err(Ledger.Revert) && ctx.contractState.n == m
            else r == Ok(Ledger.NIL) && ctx.contractState.n == Ledger.Moved(m, ctx.from, toAddr, amount)
  {
    hide SetBytes, Bytes;
    NoBytesAreZero();
    var cs := ctx.contractState;
    var fromData := cs.Get(ctx.from);
    var fromBalance: int := SetBytes(if fromData.Some? then fromData.value else []);
    assert fromBalance == Ledger.Balance(cs.n, ctx.from);
    if fromBalance < amount {
      return Err(Ledger.Revert);
    }
    fromBalance := fromBalance - amount;

    var toData := cs.Get(toAddr);
    var toBalance: int := SetBytes(if toData.Some? then toData.value else []);
    assert toBalance == Ledger.Balance(cs.n, toAddr);
    toBalance := toBalance + amount;

    hide Ledger.Balance;
    cs.Set(ctx.from, Bytes(Abs(fromBalance)));
    cs.Set(toAddr, Bytes(Abs(toBalance)));
    return Ok(Ledger.NIL);
  }

  lemma NoBytesAreZero()
    ensures SetBytes([]) == 0
  {
  }

  method Transfer(ctx: CallContext, args: seq<Param>) returns (r: Result<Param, Ledger.Error>)
    modifies ctx.state`root, ctx.contractState`n
    ensures Ledger.CallOutcome(ctx.state.root, ctx.contractState.n, r) ==
            Ledger.Transfer(old(ctx.state.root), old(ctx.contractState.n), ctx.from, args)
  {
    hide Ledger.AddressCast, Ledger.NumberCast;
    if |args| != 2 {
      return Err(Ledger.Revert);
    }
    var castTo := Ledger.AddressCast(args[0]);
    if castTo.Err? {
      return Err(castTo.error);
    }
    var toAddr := castTo.value;
    var castAmount := Ledger.NumberCast(args[1]);
    if castAmount.Err? {
      return Err(castAmount.error);
    }
    var amount := castAmount.value;

    var found := ctx.state.GetActor(toAddr);
    if found == null {
      var empty := new LoadedActor(Ledger.EMPTY_ACTOR);
      ctx.state.SetActor(toAddr, empty);
    }

    r := Move(ctx, toAddr, amount);
  }

  method GetBalance(ctx: CallContext, args: seq<Param>) returns (r: Result<Param, Ledger.Error>)
    ensures r == Ledger.GetBalance(ctx.contractState.n, args)
  {
    if |args| != 1 {
      return Err(Ledger.Fatal(Ledger.WrongArguments));
    }
    var addr := Ledger.PlainAddressCast(args[0]);
    if addr.Err? {
      return Err(addr.error);
    }
    var accData := ctx.contractState.Get(addr.value);
    if accData.None? {
      return Err(Ledger.Fatal(Ledger.BalanceNotFound));
    }
    return Ok(Big(SetBytes(accData.value)));
  }

  method Call(ctx: CallContext, call: seq<Byte>, args: seq<Param>) returns (r: Result<Param, Ledger.Error>)
    modifies ctx.state`root, ctx.contractState`n
    ensures Ledger.CallOutcome(ctx.state.root, ctx.contractState.n, r) ==
            Ledger.Call(old(ctx.state.root), old(ctx.contractState.n), ctx.from, call, args)
  {
    if call == Ledger.TRANSFER {
      r := Transfer(ctx, args);
    } else if call == Ledger.GET_BALANCE {
      r := GetBalance(ctx, args);
    } else {
      r := Err(Ledger.Fatal(Ledger.MethodNotFound));
    }
  }

  predicate ErrIsFatal(e: Ledger.Error) {
    e.Fatal?
  }

  // ---------- execution against a store ----------

  // The one failure that depends on the store: the target's memory root cannot be loaded.
  predicate LacksMemory(available: set<Cid>, actors: Actors, tx: Transaction) {
    Ledger.Preflight(actors, tx).None? && actors[tx.to].memory.value !in available
  }

  function ExecIn(available: set<Cid>, actors: Actors, tx: Transaction): Ledger.Executed {
    if LacksMemory(available, actors, tx) then Ledger.Executed(actors, Err(Ledger.MemoryNotFound))
    else Ledger.Exec(actors, tx)
  }

  // The nodes one execution writes to the store.
  function Puts(available: set<Cid>, actors: Actors, tx: Transaction): set<Cid> {
    if ExecIn(available, actors, tx).Succeeded() then {MemoryCid(Ledger.CallOf(actors, tx).memory)} else {}
  }

  datatype Stored = Stored(applied: Ledger.Applied, puts: set<Cid>)

  function ApplyIn(available: set<Cid>, actors: Actors, txs: seq<Transaction>): Stored {
    if txs == [] then Stored(Ledger.Applied(actors, None), {})
    else
      var before := ApplyIn(available, actors, txs[..|txs| - 1]);
      if before.applied.error.Some? then before
      else
        var here := available + before.puts;
        var o := ExecIn(here, before.applied.actors, txs[|txs| - 1]);
        Stored(Ledger.Applied(o.actors, if o.result.Err? then Some(o.result.error) else None),
               before.puts + Puts(here, before.applied.actors, txs[|txs| - 1]))
  }

  // Every memory root of the state can be loaded.
  predicate Closed(available: set<Cid>, actors: Actors) {
    forall a :: a in actors && actors[a].memory.Some? ==> actors[a].memory.value in available
  }

  // What executing a transaction, and a list up to its first fatal one, writes when nothing has to be fetched.
  function Writes(actors: Actors, tx: Transaction): set<Cid> {
    if Ledger.Exec(actors, tx).Succeeded() then {MemoryCid(Ledger.CallOf(actors, tx).memory)} else {}
  }

  function ListWrites(actors: Actors, txs: seq<Transaction>): set<Cid> {
    if txs == [] then {}
    else
      var before := Ledger.Apply(actors, txs[..|txs| - 1]);
      ListWrites(actors, txs[..|txs| - 1]) +
      if before.error.None? then Writes(before.actors, txs[|txs| - 1]) else {}
  }

  lemma ClosedGrows(available: set<Cid>, more: set<Cid>, actors: Actors)
    requires Closed(available, actors) && available <= more
    ensures Closed(more, actors)
  {
  }

  // From a state whose memory roots are all in this node's own store, whatever peers serve, no load fails;
  // what is written is memory, and completes the next state.
  lemma ExecClosed(held: set<Cid>, remote: set<Cid>, actors: Actors, tx: Transaction)
    requires Closed(held, actors)
    ensures ExecIn(held + remote, actors, tx) == Ledger.Exec(actors, tx)
    ensures Puts(held + remote, actors, tx) == Writes(actors, tx)
    ensures Closed(held + Puts(held + remote, actors, tx), Ledger.Exec(actors, tx).actors)
    ensures forall c :: c in Puts(held + remote, actors, tx) ==> c.MemoryCid?
  {
    Ledger.ExecFrame(actors, tx);
  }

  lemma {:induction false} ApplyClosed(held: set<Cid>, remote: set<Cid>, actors: Actors, txs: seq<Transaction>)
    requires Closed(held, actors)
    ensures var s := ApplyIn(held + remote, actors, txs);
            && s.applied == Ledger.Apply(actors, txs) && s.puts == ListWrites(actors, txs)
            && Closed(held + s.puts, s.applied.actors)
            && forall c :: c in s.puts ==> c.MemoryCid?
  {
    hide ExecIn, Puts, Writes, Ledger.Exec;
    if txs != [] {
      var n := |txs| - 1;
      ApplyClosed(held, remote, actors, txs[..n]);
      var before := ApplyIn(held + remote, actors, txs[..n]);
      assert held + remote + before.puts == held + before.puts + remote;
      ExecClosed(held + before.puts, remote, before.applied.actors, txs[n]);
      assert held + (before.puts + Puts(held + remote + before.puts, before.applied.actors, txs[n])) ==
             held + before.puts + Puts(held + remote + before.puts, before.applied.actors, txs[n]);
    }
  }

  /** A state of the ledger: the actors under its root, changed in place. */
  class State {
    var root: Actors
    const store: Store

    constructor (store: Store, root: Actors)
      ensures this.store == store && this.root == root
    {
      this.store, this.root := store, root;
    }

    method GetActor(a: Address) returns (act: LoadedActor?)
      ensures act == null <==> a !in root
      ensures act != null ==> fresh(act) && act.Record() == root[a]
    {
      if a !in root {
        return null;
      }
      act := new LoadedActor(root[a]);
    }

    method SetActor(a: Address, act: LoadedActor)
      modifies this`root
      ensures root == old(root)[a := act.Record()]
    {
      root := root[a := act.Record()];
    }

    // None stands for a nil code, whose comparison dereferences it.
    method GetContract(code: Option<Cid>) returns (failure: Option<Ledger.Failure>)
      ensures failure == if code.None? then Some(Ledger.Panicked)
                         else if code != Some(Ledger.TOKEN_CODE) then Some(Ledger.NoContract) else None
    {
      if code.None? {
        return Some(Ledger.Panicked);
      }
      failure := if code.value == Ledger.TOKEN_CODE then None else Some(Ledger.NoContract);
    }

    method LoadContractState(mem: Option<Cid>) returns (cs: ContractState?)
      ensures cs == null <==> !(mem.Some? && mem.value.MemoryCid? && mem.value in store.Available())
      ensures cs != null ==> fresh(cs) && cs.cstr == store && cs.n == mem.value.memory
    {
      if mem.Some? && mem.value.MemoryCid? && mem.value in store.Available() {
        cs := new ContractState(store, mem.value.memory);
      } else {
        cs := null;
      }
    }

    method ActorExec(tx: Transaction) returns (r: Result<Receipt, Ledger.Failure>)
      modifies this`root, store`held
      ensures Ledger.Executed(root, r) == ExecIn(old(store.Available()), old(root), tx)
      ensures store.held == old(store.held) + Puts(old(store.Available()), old(root), tx)
    {
      hide SetBytes, Bytes, Ledger.AddressCast, Ledger.NumberCast;
      hide Ledger.Call, Ledger.Transfer, Ledger.GetBalance, Ledger.WithActor;
      var act := GetActor(tx.to);
      if act == null {
        return Err(Ledger.ActorNotFound);
      }
      var from: LoadedActor := act;
      if tx.to != tx.from {
        var a := GetActor(tx.from);
        if a == null {
          return Err(Ledger.ActorNotFound);
        }
        from := a;
      }
      if from.nonce != tx.nonce {
        return Err(Ledger.InvalidNonce);
      }
      from.nonce := Ledger.NextNonce(from.nonce);

      var noContract := GetContract(act.code);
      if noContract.Some? {
        return Err(noContract.value);
      }
      var st := LoadContractState(act.memory);
      if st == null {
        return Err(Ledger.MemoryNotFound);
      }
      var val := Call(CallContext(this, st, tx.from, tx.nonce, tx.to), tx.call, tx.params);
      if val.Err? {
        if ErrIsFatal(val.error) {
          return Err(val.error.why);
        }
        return Ok(Receipt(false, Ledger.NIL));
      }
      var nmemory := st.Flush();
      act.memory := Some(nmemory);
      SetActor(tx.to, act);
      if tx.to != tx.from {
        SetActor(tx.from, from);
      }
      return Ok(Receipt(true, val.value));
    }

    method NonceForActor(a: Address) returns (nonce: Option<Uint64>)
      ensures nonce == if a in root then Some(root[a].nonce) else None
    {
      var act := GetActor(a);
      nonce := if act == null then None else Some(act.nonce);
    }

    method ApplyTransactions(txs: seq<Transaction>) returns (failure: Option<Ledger.Failure>)
      modifies this`root, store`held
      ensures var s := ApplyIn(old(store.Available()), old(root), txs);
              Ledger.Applied(root, failure) == s.applied && store.held == old(store.held) + s.puts
    {
      ghost var available := store.Available();
      for i := 0 to |txs|
        invariant var s := ApplyIn(available, old(root), txs[..i]);
                  s.applied == Ledger.Applied(root, None) && store.held == old(store.held) + s.puts
      {
        assert txs[..i + 1][..i] == txs[..i];
        assert store.Available() == available + ApplyIn(available, old(root), txs[..i]).puts;
        var r := ActorExec(txs[i]);
        if r.Err? {
          ApplyInStops(available, old(root), txs, i + 1);
          return Some(r.error);
        }
      }
      assert txs[..|txs|] == txs;
      return None;
    }

    method Flush() returns (c: Cid)
      modifies store`held
      ensures c == StateCid(root) && store.held == old(store.held) + {c}
    {
      c := StateCid(root);
      store.Put(c);
    }
  }

  // Nothing runs after the first failure.
  lemma {:induction false} ApplyInStops(available: set<Cid>, actors: Actors, txs: seq<Transaction>, i: nat)
    requires i <= |txs| && ApplyIn(available, actors, txs[..i]).applied.error.Some?
    ensures ApplyIn(available, actors, txs) == ApplyIn(available, actors, txs[..i])
  {
    if i == |txs| {
      assert txs[..i] == txs;
    } else {
      assert txs[..|txs| - 1][..i] == txs[..i];
      ApplyInStops(available, actors, txs[..|txs| - 1], i);
    }
  }

  // Loading a state by its root; None stands for a nil root.
  method LoadState(store: Store, c: Option<Cid>) returns (s: State?)
    ensures s == null <==> !(c.Some? && c.value.StateCid? && c.value in store.Available())
    ensures s != null ==> fresh(s) && s.store == store && s.root == c.value.actors
  {
    if c.Some? && c.value.StateCid? && c.value in store.Available() {
      s := new State(store, c.value.actors);
    } else {
      s := null;
    }
  }
}
