/** The meaning of a transaction: what executing it does to the actors of a state
    (contract/contract.go, contract/state.go). Exec is one atomic step on values; the classes of
    module Contract load records, call the contract and write records back, and are proved equal to it. */
module Ledger {
  import opened Wrappers
  import opened BigInt
  import opened Types

  // The bytes of "toychain", "transfer" and "getBalance".
  const TOKEN: Address := [116, 111, 121, 99, 104, 97, 105, 110]
  const TRANSFER: seq<Byte> := [116, 114, 97, 110, 115, 102, 101, 114]
  const GET_BALANCE: seq<Byte> := [103, 101, 116, 66, 97, 108, 97, 110, 99, 101]

  const TOKEN_CODE: Cid := CodeCid(TOKEN)
  const EMPTY_ACTOR: Actor := Actor(None, None, 0)
  const NIL: Param := Decoded(Null)

  datatype Failure =
    | ActorNotFound
    | InvalidNonce
    | NoContract
    | MemoryNotFound
    | MethodNotFound
    | WrongArguments
    | NotAnAddress
    | NotANumber
    | BalanceNotFound
    | Panicked

  // The two classes `errIsFatal` tells apart.
  datatype Error = Revert | Fatal(why: Failure)

  // ---------- arguments ----------

  function AddressCast(p: Param): Result<Address, Error> {
    match p
    case Addr(a) => Ok(a)
    case Decoded(Text(s)) =>
      if |s| < 2 then Err(Fatal(Panicked))
      else if HasHexPrefix(s) then
        match ParseAddress(s)
        case Some(a) => Ok(a)
        case None => Err(Fatal(NotAnAddress))
      else Ok(s)
    case _ => Err(Fatal(NotAnAddress))
  }

  function NumberCast(p: Param): Result<int, Error> {
    match p
    case Big(n) => Ok(n)
    case Decoded(Text(s)) =>
      (match ParseDecimal(s)
       case Some(n) => Ok(n)
       case None => Err(Fatal(NotANumber)))
    case Decoded(Float(x)) => Ok(Int64OfFloat(x))
    case Decoded(Blob(s)) => Ok(SetBytes(s))
    case _ => Err(Fatal(Panicked))
  }

  // The cast of the typed call closure: a string is taken as it stands, with or without "0x".
  function PlainAddressCast(p: Param): Result<Address, Error> {
    match p
    case Addr(a) => Ok(a)
    case Decoded(Text(s)) => Ok(s)
    case _ => Err(Fatal(NotAnAddress))
  }

  // ---------- the token contract ----------

  function Balance(m: Memory, a: Address): nat {
    if a in m then SetBytes(m[a]) else 0
  }

  // Both balances are read before either is written, and only magnitudes are stored.
  function Moved(m: Memory, from: Address, to: Address, amount: int): Memory
    requires amount <= Balance(m, from)
  {
    m[from := Bytes(Balance(m, from) - amount)][to := Bytes(Abs(Balance(m, to) + amount))]
  }

  datatype CallOutcome = CallOutcome(actors: Actors, memory: Memory, result: Result<Param, Error>)

  function WithActor(actors: Actors, a: Address): Actors {
    if a in actors then actors else actors[a := EMPTY_ACTOR]
  }

  function Transfer(actors: Actors, m: Memory, from: Address, params: seq<Param>): CallOutcome {
    if |params| != 2 then CallOutcome(actors, m, Err(Revert))
    else
      match AddressCast(params[0])
      case Err(e) => CallOutcome(actors, m, Err(e))
      case Ok(to) =>
        match NumberCast(params[1])
        case Err(e) => CallOutcome(actors, m, Err(e))
        case Ok(amount) =>
          if Balance(m, from) < amount then CallOutcome(WithActor(actors, to), m, Err(Revert))
          else CallOutcome(WithActor(actors, to), Moved(m, from, to, amount), Ok(NIL))
  }

  function GetBalance(m: Memory, params: seq<Param>): Result<Param, Error> {
    if |params| != 1 then Err(Fatal(WrongArguments))
    else
      match PlainAddressCast(params[0])
      case Err(e) => Err(e)
      case Ok(a) => if a in m then Ok(Big(SetBytes(m[a]))) else Err(Fatal(BalanceNotFound))
  }

  // Whatever the contract does, it leaves every existing actor's record alone.
  function Call(actors: Actors, m: Memory, from: Address, call: seq<Byte>, params: seq<Param>): (o: CallOutcome)
    ensures forall a :: a in actors ==> a in o.actors && o.actors[a] == actors[a]
  {
    if call == TRANSFER then Transfer(actors, m, from, params)
    else if call == GET_BALANCE then CallOutcome(actors, m, GetBalance(m, params))
    else CallOutcome(actors, m, Err(Fatal(MethodNotFound)))
  }

  // ---------- executing one transaction ----------

  // Everything that can stop a transaction before the contract is called, in order.
  function Preflight(actors: Actors, tx: Transaction): Option<Failure> {
    if tx.to !in actors || tx.from !in actors then Some(ActorNotFound)
    else if actors[tx.from].nonce != tx.nonce then Some(InvalidNonce)
    else if actors[tx.to].code.None? then Some(Panicked)
    else if actors[tx.to].code != Some(TOKEN_CODE) then Some(NoContract)
    else if actors[tx.to].memory.None? || !actors[tx.to].memory.value.MemoryCid? then Some(MemoryNotFound)
    else None
  }

  function NextNonce(n: Uint64): Uint64 {
    if n + 1 == UINT64_LIMIT then 0 else n + 1
  }

  // The target's memory and the sender's nonce, updated in the actors as the call left them.
  function Commit(actors: Actors, tx: Transaction, m: Memory): Actors
    requires tx.to in actors && tx.from in actors
  {
    var stored := actors[tx.to := actors[tx.to].(memory := Some(MemoryCid(m)))];
    stored[tx.from := stored[tx.from].(nonce := NextNonce(stored[tx.from].nonce))]
  }

  datatype Executed = Executed(actors: Actors, result: Result<Receipt, Failure>) {
    predicate Succeeded() {
      result.Ok? && result.value.success
    }

    predicate Reverted() {
      result.Ok? && !result.value.success
    }
  }

  function CallOf(actors: Actors, tx: Transaction): CallOutcome
    requires Preflight(actors, tx).None?
  {
    Call(actors, actors[tx.to].memory.value.memory, tx.from, tx.call, tx.params)
  }

  function Exec(actors: Actors, tx: Transaction): Executed {
    match Preflight(actors, tx)
    case Some(f) => Executed(actors, Err(f))
    case None =>
      var out := CallOf(actors, tx);
      match out.result
      case Err(Fatal(f)) => Executed(out.actors, Err(f))
      case Err(Revert) => Executed(out.actors, Ok(Receipt(false, NIL)))
      case Ok(v) => Executed(Commit(out.actors, tx, out.memory), Ok(Receipt(true, v)))
  }

  /** What a transfer asks for, once both arguments are understood. */
  datatype Payment = Payment(to: Address, amount: int)

  function PaymentOf(tx: Transaction): Option<Payment> {
    if tx.call == TRANSFER && |tx.params| == 2 && AddressCast(tx.params[0]).Ok? && NumberCast(tx.params[1]).Ok?
    then Some(Payment(AddressCast(tx.params[0]).value, NumberCast(tx.params[1]).value))
    else None
  }

  // The only address a transaction can create an actor at.
  function Recipients(tx: Transaction): set<Address> {
    if PaymentOf(tx).Some? then {PaymentOf(tx).value.to} else {}
  }

  // The record an actor has after a successful transaction, from the record it had before.
  function Updated(actors: Actors, tx: Transaction, a: Address): Actor
    requires Preflight(actors, tx).None? && a in actors
  {
    Actor(actors[a].code,
          if a == tx.to then Some(MemoryCid(CallOf(actors, tx).memory)) else actors[a].memory,
          if a == tx.from then NextNonce(actors[a].nonce) else actors[a].nonce)
  }

  // What one transaction may change: nothing when it fails; the sender's nonce and the target's memory
  // when it succeeds, with or without To == From; and never more than one new, empty actor.
  lemma ExecFrame(actors: Actors, tx: Transaction)
    ensures var o := Exec(actors, tx);
            && actors.Keys <= o.actors.Keys <= actors.Keys + Recipients(tx)
            && (o.result.Err? ==> o.actors == actors)
            && (o.Reverted() ==> forall a :: a in actors ==> o.actors[a] == actors[a])
            && (o.Succeeded() ==> forall a :: a in actors ==> o.actors[a] == Updated(actors, tx, a))
            && (forall a :: a in o.actors && a !in actors ==> o.actors[a] == EMPTY_ACTOR)
  {
  }

  // Whatever gets a receipt has passed the checks.
  lemma Reached(actors: Actors, tx: Transaction)
    requires Exec(actors, tx).result.Ok?
    ensures Preflight(actors, tx).None? && tx.from in actors && actors[tx.from].nonce == tx.nonce
  {
    hide CallOf;
  }

  // A reverted transaction can be executed again: it passes the same checks.
  lemma RevertKeepsPreflight(actors: Actors, tx: Transaction, again: Transaction)
    requires Exec(actors, tx).Reverted()
    requires Preflight(actors, again).None?
    ensures Preflight(Exec(actors, tx).actors, again).None?
  {
    hide Exec;
    ExecFrame(actors, tx);
  }

  // ---------- executing a list ----------

  datatype Applied = Applied(actors: Actors, error: Option<Failure>)

  // Transactions run in order; the first fatal error stops the list.
  function Apply(actors: Actors, txs: seq<Transaction>): Applied {
    if txs == [] then Applied(actors, None)
    else
      var before := Apply(actors, txs[..|txs| - 1]);
      if before.error.Some? then before
      else
        var o := Exec(before.actors, txs[|txs| - 1]);
        Applied(o.actors, if o.result.Err? then Some(o.result.error) else None)
  }

  lemma {:induction false} ApplyConcat(actors: Actors, xs: seq<Transaction>, ys: seq<Transaction>)
    ensures Apply(actors, xs + ys) ==
            if Apply(actors, xs).error.Some? then Apply(actors, xs) else Apply(Apply(actors, xs).actors, ys)
  {
    hide Exec;
    if ys == [] {
      assert xs + ys == xs;
    } else {
      ApplyConcat(actors, xs, ys[..|ys| - 1]);
      assert (xs + ys)[..|xs + ys| - 1] == xs + ys[..|ys| - 1];
    }
  }

  lemma ApplyOne(actors: Actors, tx: Transaction)
    ensures var o := Exec(actors, tx);
            Apply(actors, [tx]) == Applied(o.actors, if o.result.Err? then Some(o.result.error) else None)
  {
    hide Exec;
    assert [tx][..0] == [];
  }

  lemma ApplyNext(actors: Actors, txs: seq<Transaction>, i: nat)
    requires i < |txs| && Apply(actors, txs[..i]).error.None?
    ensures var o := Exec(Apply(actors, txs[..i]).actors, txs[i]);
            Apply(actors, txs[..i + 1]) == Applied(o.actors, if o.result.Err? then Some(o.result.error) else None)
  {
    hide Exec;
    assert txs[..i + 1][..i] == txs[..i];
  }

  // A list that runs to its end does so prefix by prefix, and none of its transactions is fatal.
  lemma {:induction false} ApplyPrefix(actors: Actors, txs: seq<Transaction>, i: nat)
    requires Apply(actors, txs).error.None? && i <= |txs|
    ensures Apply(actors, txs[..i]).error.None?
    ensures i < |txs| ==> Exec(Apply(actors, txs[..i]).actors, txs[i]).result.Ok?
    ensures i < |txs| ==> Exec(Apply(actors, txs[..i]).actors, txs[i]).actors == Apply(actors, txs[..i + 1]).actors
  {
    hide Exec;
    assert txs == txs[..i] + txs[i..];
    ApplyConcat(actors, txs[..i], txs[i..]);
    if i < |txs| {
      assert txs[i..] == [txs[i]] + txs[i + 1..];
      ApplyConcat(Apply(actors, txs[..i]).actors, [txs[i]], txs[i + 1..]);
      ApplyOne(Apply(actors, txs[..i]).actors, txs[i]);
      assert txs[..i + 1] == txs[..i] + [txs[i]];
      ApplyConcat(actors, txs[..i], [txs[i]]);
    }
  }

  // Nothing runs after the first failure.
  lemma {:induction false} ApplyStops(actors: Actors, txs: seq<Transaction>, i: nat)
    requires i <= |txs| && Apply(actors, txs[..i]).error.Some?
    ensures Apply(actors, txs) == Apply(actors, txs[..i])
  {
    hide Exec;
    assert txs == txs[..i] + txs[i..];
    ApplyConcat(actors, txs[..i], txs[i..]);
  }

  // The receipt of the i-th transaction is its outcome in the state the first i leave behind.
  function ReceiptAt(actors: Actors, txs: seq<Transaction>, i: nat): Receipt
    requires Apply(actors, txs).error.None? && i < |txs|
  {
    ApplyPrefix(actors, txs, i);
    Exec(Apply(actors, txs[..i]).actors, txs[i]).result.value
  }

  // A list in which every transaction reverts leaves every record as it was, adds only empty
  // recipients, and leaves every transaction as executable as before.
  lemma {:induction false} RevertedList(actors: Actors, txs: seq<Transaction>, again: Transaction)
    requires Apply(actors, txs).error.None?
    requires forall i :: 0 <= i < |txs| ==> !ReceiptAt(actors, txs, i).success
    ensures var after := Apply(actors, txs).actors;
            && actors.Keys <= after.Keys
            && (forall a :: a in actors ==> after[a] == actors[a])
            && (forall a :: a in after && a !in actors ==>
                  after[a] == EMPTY_ACTOR && exists i :: 0 <= i < |txs| && a in Recipients(txs[i]))
            && (Preflight(actors, again).None? ==> Preflight(after, again).None?)
  {
    hide Exec, AddressCast, Preflight;
    if txs != [] {
      var n := |txs| - 1;
      var before := Apply(actors, txs[..n]);
      ApplyPrefix(actors, txs, n);
      forall i | 0 <= i < n
        ensures !ReceiptAt(actors, txs[..n], i).success
      {
        assert txs[..n][..i] == txs[..i];
        assert ReceiptAt(actors, txs, i) == ReceiptAt(actors, txs[..n], i);
      }
      RevertedList(actors, txs[..n], again);
      assert Exec(before.actors, txs[n]).result.value == ReceiptAt(actors, txs, n);
      if Preflight(before.actors, again).None? {
        RevertKeepsPreflight(before.actors, txs[n], again);
      }
      ExecFrame(before.actors, txs[n]);
      var after := Apply(actors, txs).actors;
      forall a | a in after && a !in actors
        ensures after[a] == EMPTY_ACTOR && exists i :: 0 <= i < |txs| && a in Recipients(txs[i])
      {
        if a in before.actors {
          var i :| 0 <= i < n && a in Recipients(txs[..n][i]);
          assert a in Recipients(txs[i]);
        } else {
          assert a in Recipients(txs[n]);
        }
      }
    }
  }

  // ---------- the shape of every state grown from genesis ----------

  // Only the token actor carries code and memory.
  predicate TokenWorld(actors: Actors) {
    && TOKEN in actors
    && actors[TOKEN].code == Some(TOKEN_CODE)
    && actors[TOKEN].memory.Some? && actors[TOKEN].memory.value.MemoryCid?
    && forall a :: a in actors && a != TOKEN ==> actors[a].code.None? && actors[a].memory.None?
  }

  function TokenMemory(actors: Actors): Memory
    requires TokenWorld(actors)
  {
    actors[TOKEN].memory.value.memory
  }

  function NonceOf(actors: Actors, a: Address): Uint64 {
    if a in actors then actors[a].nonce else 0
  }

  // In such a state only the token contract can be called, and the state keeps its shape.
  lemma ExecTokenWorld(actors: Actors, tx: Transaction)
    requires TokenWorld(actors)
    ensures TokenWorld(Exec(actors, tx).actors)
    ensures Preflight(actors, tx).None? ==> tx.to == TOKEN
  {
    ExecFrame(actors, tx);
  }

  lemma {:induction false} ApplyTokenWorld(actors: Actors, txs: seq<Transaction>)
    requires TokenWorld(actors)
    ensures TokenWorld(Apply(actors, txs).actors)
  {
    hide Exec, TokenWorld;
    if txs != [] {
      var before := Apply(actors, txs[..|txs| - 1]);
      ApplyTokenWorld(actors, txs[..|txs| - 1]);
      ExecTokenWorld(before.actors, txs[|txs| - 1]);
    }
  }

  // ---------- what can run at all ----------

  // The contract makes sense of the transaction in some memory: a transfer with two readable arguments, or with any
  // other number of them, which just reverts; or a query of one readable address.
  predicate Sensible(tx: Transaction) {
    && tx.to == TOKEN
    && if tx.call == TRANSFER then |tx.params| == 2 ==> PaymentOf(tx).Some?
       else tx.call == GET_BALANCE && |tx.params| == 1 && PlainAddressCast(tx.params[0]).Ok?
  }

  // It makes sense of it in this memory: a query also needs the account.
  predicate Understood(m: Memory, tx: Transaction) {
    Sensible(tx) && (tx.call == GET_BALANCE ==> PlainAddressCast(tx.params[0]).value in m)
  }

  predicate Due(actors: Actors, tx: Transaction) {
    tx.from in actors && actors[tx.from].nonce == tx.nonce
  }

  // In a state grown from genesis a transaction gets a receipt exactly when its sender exists, its nonce is due, and
  // the contract makes sense of it.
  lemma RunsExactly(actors: Actors, tx: Transaction)
    requires TokenWorld(actors)
    ensures Exec(actors, tx).result.Ok? <==> Due(actors, tx) && Understood(TokenMemory(actors), tx)
  {
    hide SetBytes, Bytes, Moved, Balance;
    CastsFailFatally(tx);
    hide AddressCast, NumberCast, PlainAddressCast;
  }

  lemma CastsFailFatally(tx: Transaction)
    ensures forall i :: 0 <= i < |tx.params| ==> var p := tx.params[i];
              && (AddressCast(p).Err? ==> AddressCast(p).error.Fatal?)
              && (NumberCast(p).Err? ==> NumberCast(p).error.Fatal?)
              && (PlainAddressCast(p).Err? ==> PlainAddressCast(p).error.Fatal?)
  {
  }

  // A transaction is sensible exactly when some state grown from genesis would run it.
  lemma SensibleExactly(tx: Transaction)
    ensures Sensible(tx) <==> exists actors :: TokenWorld(actors) && Exec(actors, tx).result.Ok?
  {
    if Sensible(tx) {
      var m: Memory := if tx.call == GET_BALANCE then map[PlainAddressCast(tx.params[0]).value := []] else map[];
      var actors := map[tx.from := Actor(None, None, tx.nonce)]
                       [TOKEN := Actor(Some(TOKEN_CODE), Some(MemoryCid(m)), tx.nonce)];
      hide Exec, AddressCast, NumberCast;
      RunsExactly(actors, tx);
      assert TokenWorld(actors) && Exec(actors, tx).result.Ok?;
    } else {
      hide Exec, Sensible;
      forall actors | TokenWorld(actors)
        ensures !Exec(actors, tx).result.Ok?
      {
        RunsExactly(actors, tx);
      }
    }
  }

  // ---------- every outcome, told from the transaction ----------

  predicate Spells(s: seq<Byte>, name: string) {
    |s| == |name| && forall i :: 0 <= i < |s| ==> s[i] == name[i] as int
  }

  lemma NamesSpelled()
    ensures Spells(TOKEN, "toychain") && Spells(TRANSFER, "transfer") && Spells(GET_BALANCE, "getBalance")
    ensures Spells(HEX_PREFIX, "0x")
  {
  }

  // An argument is an address exactly if it is one in memory, or text of at least two characters: the hexadecimal form
  // of the address behind "0x", in either letter case, or else the address itself. Shorter text panics.
  lemma AddressCastExactly(p: Param, a: Address)
    ensures AddressCast(p) == Ok(a) <==>
            p == Addr(a) ||
            (&& p.Decoded? && p.value.Text? && |p.value.text| >= 2
             && if p.value.text[0] == 48 && p.value.text[1] == 120 then LowerCase(p.value.text[2..]) == EncodeHex(a)
                else p.value.text == a)
    ensures AddressCast(p) == Err(Fatal(Panicked)) <==> p.Decoded? && p.value.Text? && |p.value.text| < 2
    ensures AddressCast(p).Err? ==> AddressCast(p).error in {Fatal(Panicked), Fatal(NotAnAddress)}
  {
    if p.Decoded? && p.value.Text? && |p.value.text| >= 2 {
      DecodeHexExactly(p.value.text[2..], a);
      assert HasHexPrefix(p.value.text) <==> p.value.text[0] == 48 && p.value.text[1] == 120;
    }
    hide DecodeHex, EncodeHex;
  }

  // An argument is a number exactly if it is one in memory, decimal text, a float, or bytes; any other kind panics.
  lemma NumberCastExactly(p: Param, n: int)
    ensures NumberCast(p) == Ok(n) <==>
            match p
            case Big(k) => k == n
            case Decoded(Text(s)) => exists digits :: IsDecimal(digits, Abs(n)) && Signs(s, digits, n)
            case Decoded(Float(x)) => n == Int64OfFloat(x)
            case Decoded(Blob(s)) => n >= 0 && SetBytes(s) == n
            case _ => false
    ensures NumberCast(p) == Err(Fatal(NotANumber)) <==>
            p.Decoded? && p.value.Text? && forall k :: ParseDecimal(p.value.text) != Some(k)
    ensures NumberCast(p) == Err(Fatal(Panicked)) <==>
            !p.Big? && !(p.Decoded? && (p.value.Text? || p.value.Float? || p.value.Blob?))
  {
    if p.Decoded? && p.value.Text? {
      DecimalExactly(p.value.text, n);
    }
    hide IsDecimal, Signs, ParseDecimal, Int64OfFloat;
  }

  // A call in good order that reverts: a transfer without exactly two arguments changes nothing at all, one that its
  // sender cannot cover adds its recipient; nothing else reverts.
  lemma RevertsExactly(actors: Actors, tx: Transaction)
    requires TokenWorld(actors) && tx.to == TOKEN && Due(actors, tx)
    ensures var m := TokenMemory(actors);
            && (Exec(actors, tx).Reverted() <==>
                  && tx.call == TRANSFER
                  && (|tx.params| == 2 ==> PaymentOf(tx).Some? && Balance(m, tx.from) < PaymentOf(tx).value.amount))
            && (tx.call == TRANSFER && |tx.params| != 2 ==>
                  Exec(actors, tx) == Executed(actors, Ok(Receipt(false, NIL))))
  {
    CastsFailFatally(tx);
    hide AddressCast, NumberCast, PlainAddressCast, SetBytes, Bytes, Moved, Balance;
  }

  // A query answers the queried account's stored number, whether the address came from memory or off the wire.
  lemma QueryAnswers(actors: Actors, q: Transaction, a: Address)
    requires TokenWorld(actors) && q.to == TOKEN && Due(actors, q) && q.call == GET_BALANCE
    requires q.params in {[Addr(a)], [Decoded(Text(a))]}
    ensures Exec(actors, q).result ==
            if a in TokenMemory(actors) then Ok(Receipt(true, Big(SetBytes(TokenMemory(actors)[a]))))
            else Err(BalanceNotFound)
  {
    hide SetBytes;
    assert TRANSFER[0] != GET_BALANCE[0];
  }

  // Every way to fail before the contract is called, in any state; the actors then stay as they are.
  lemma StopsBeforeTheCall(actors: Actors, tx: Transaction)
    ensures var stopped := (f: Failure) => Exec(actors, tx) == Executed(actors, Err(f));
            if tx.to !in actors || tx.from !in actors then stopped(ActorNotFound)
            else if actors[tx.from].nonce != tx.nonce then stopped(InvalidNonce)
            else match actors[tx.to].code
                 case None => stopped(Panicked)
                 case Some(c) =>
                   if c != CodeCid(TOKEN) then stopped(NoContract)
                   else match actors[tx.to].memory
                        case Some(MemoryCid(_)) => Preflight(actors, tx).None?
                        case _ => stopped(MemoryNotFound)
  {
    hide Call;
  }

  // Every way to fail, and the first that applies is the one reported.
  lemma FailsExactly(actors: Actors, tx: Transaction)
    requires TokenWorld(actors)
    ensures var r := Exec(actors, tx).result;
            if tx.to !in actors || tx.from !in actors then r == Err(ActorNotFound)
            else if actors[tx.from].nonce != tx.nonce then r == Err(InvalidNonce)
            else if tx.to != TOKEN then r == Err(Panicked)
            else if tx.call == TRANSFER && |tx.params| == 2 then
              && (r == Err(Panicked) <==>
                    || AddressCast(tx.params[0]) == Err(Fatal(Panicked))
                    || (AddressCast(tx.params[0]).Ok? && NumberCast(tx.params[1]) == Err(Fatal(Panicked))))
              && (r == Err(NotAnAddress) <==> AddressCast(tx.params[0]) == Err(Fatal(NotAnAddress)))
              && (r == Err(NotANumber) <==>
                    AddressCast(tx.params[0]).Ok? && NumberCast(tx.params[1]) == Err(Fatal(NotANumber)))
            else if tx.call == TRANSFER then r.Ok?
            else if tx.call != GET_BALANCE then r == Err(MethodNotFound)
            else if |tx.params| != 1 then r == Err(WrongArguments)
            else if !tx.params[0].Addr? && !(tx.params[0].Decoded? && tx.params[0].value.Text?)
                 then r == Err(NotAnAddress)
            else r.Ok? || r == Err(BalanceNotFound)
  {
    if tx.call == TRANSFER && |tx.params| == 2 {
      AddressCastExactly(tx.params[0], TOKEN);
      NumberCastExactly(tx.params[1], 0);
      CastsFailFatally(tx);
      hide AddressCast, NumberCast, PlainAddressCast, SetBytes, Bytes, Moved, Balance;
    } else {
      hide AddressCast, NumberCast, SetBytes, Bytes, Moved, Balance;
    }
  }
}
