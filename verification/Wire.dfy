/** Whether a transaction means the same where it was built and where it was received. A miner runs the
    reward on an Address and a *big.Int; every receiver runs it on the decoded string and bytes. */
module Wire {
  import opened BigInt
  import opened Types
  import opened Ledger
  import opened Wrappers

  // Addresses that `addressCast` reads back from their own bytes.
  predicate Wireable(a: Address) {
    |a| >= 2 && !(a[0] == 48 && a[1] == 120)
  }

  lemma AddressCastWire(p: Param)
    ensures AddressCast(NormalParam(p)) == AddressCast(p) <==> (p.Addr? ==> Wireable(p.address))
  {
  }

  lemma NumberCastWire(p: Param)
    ensures NumberCast(NormalParam(p)) == NumberCast(p) <==> !p.Addr? && (p.Big? ==> p.number >= 0)
  {
  }

  // A check on the arguments alone: a transfer's first argument is not an unreadable address, its second
  // is neither an address nor a negative number.
  predicate Stable(tx: Transaction) {
    tx.call == TRANSFER && |tx.params| == 2 ==>
      && (tx.params[0].Addr? ==> Wireable(tx.params[0].address))
      && !tx.params[1].Addr?
      && (tx.params[1].Big? ==> tx.params[1].number >= 0)
  }

  lemma NormalIsStable(tx: Transaction)
    ensures Stable(Normal(tx))
  {
  }

  // A stable transaction has the same outcome before and after the wire, in every state.
  lemma StableExec(actors: Actors, tx: Transaction)
    requires Stable(tx)
    ensures Exec(actors, Normal(tx)) == Exec(actors, tx)
  {
    assert Preflight(actors, Normal(tx)) == Preflight(actors, tx);
    if |tx.params| == 2 {
      AddressCastWire(tx.params[0]);
      NumberCastWire(tx.params[1]);
    }
    if |tx.params| == 1 {
      assert PlainAddressCast(NormalParam(tx.params[0])) == PlainAddressCast(tx.params[0]);
    }
    if Preflight(actors, tx).None? {
      assert CallOf(actors, Normal(tx)) == CallOf(actors, tx);
    }
  }

  // A state in which the transfer of n out of tx.from goes through.
  function Funded(tx: Transaction, n: int): Actors {
    map[tx.from := Actor(None, None, tx.nonce)]
    [tx.to := Actor(Some(TOKEN_CODE), Some(MemoryCid(map[tx.from := Bytes(Abs(n))])), tx.nonce)]
  }

  lemma FundedMemory(tx: Transaction, n: int, t: Transaction)
    requires t.from == tx.from && t.to == tx.to && t.nonce == tx.nonce
    requires PaymentOf(t).Some? && PaymentOf(t).value.amount <= Abs(n)
    ensures var o := Exec(Funded(tx, n), t);
            && o.Succeeded() && tx.to in o.actors
            && o.actors[tx.to].memory ==
               Some(MemoryCid(Moved(map[tx.from := Bytes(Abs(n))], tx.from,
                                    PaymentOf(t).value.to, PaymentOf(t).value.amount)))
  {
    ExecFrame(Funded(tx, n), t);
  }

  lemma MovedDiffers(from: Address, n: int, a: Address, b: Address)
    requires a != b || n < 0
    ensures var m: Memory := map[from := Bytes(Abs(n))];
            Moved(m, from, a, n) != Moved(m, from, b, Abs(n))
  {
    var m: Memory := map[from := Bytes(Abs(n))];
    var x, y := Moved(m, from, a, n), Moved(m, from, b, Abs(n));
    if a != b {
      assert x.Keys == {from, a} && y.Keys == {from, b};
      assert a in x.Keys && b in y.Keys;
    } else {
      assert Balance(m, from) == -n;
      assert from != a ==> Balance(x, from) == -2 * n && Balance(y, from) == 0;
      assert from == a ==> Balance(x, from) == 0 && Balance(y, from) == -2 * n;
    }
  }

  lemma UnreadableFails(actors: Actors, tx: Transaction)
    requires tx.call == TRANSFER && |tx.params| == 2 && AddressCast(tx.params[0]).Err?
    ensures !Exec(actors, tx).Succeeded()
  {
    hide AddressCast, NumberCast;
  }

  // What receivers make of a transfer built in memory.
  lemma ReceivedTransfer(tx: Transaction, a: Address, n: int)
    requires tx.call == TRANSFER && tx.params == [Addr(a), Big(n)]
    ensures PaymentOf(tx) == Some(Payment(a, n))
    ensures var t := Normal(tx);
            && t.call == TRANSFER && |t.params| == 2 && t.from == tx.from && t.to == tx.to && t.nonce == tx.nonce
            && (AddressCast(t.params[0]).Ok? ==>
                  && PaymentOf(t) == Some(Payment(AddressCast(t.params[0]).value, Abs(n)))
                  && (AddressCast(t.params[0]).value == a ==> Wireable(a)))
  {
    hide Bytes, SetBytes, ParseAddress, ParseDecimal;
    var t := Normal(tx);
    assert t.params == [Decoded(Text(a)), Decoded(Blob(Bytes(Abs(n))))];
    AddressCastWire(tx.params[0]);
  }

  // When the recipient cannot be read back or the amount is negative, the funded state tells the two apart.
  lemma WireDependence(tx: Transaction, a: Address, n: int)
    requires tx.call == TRANSFER && tx.params == [Addr(a), Big(n)]
    requires !Wireable(a) || n < 0
    ensures Exec(Funded(tx, n), Normal(tx)) != Exec(Funded(tx, n), tx)
  {
    hide *;
    ReceivedTransfer(tx, a, n);
    NoSmallerThanItself(n);
    FundedMemory(tx, n, tx);
    var t := Normal(tx);
    if AddressCast(t.params[0]).Ok? {
      FundedMemory(tx, n, t);
      MovedDiffers(tx.from, n, a, PaymentOf(t).value.to);
    } else {
      UnreadableFails(Funded(tx, n), t);
    }
  }

  lemma NoSmallerThanItself(n: int)
    ensures n <= Abs(n)
  {
  }

  // The exact law for a transfer built in memory: it is the same transaction for sender and receiver in
  // every state if and only if its recipient is readable and its amount is not negative.
  lemma WireIndependence(tx: Transaction, a: Address, n: int)
    requires tx.call == TRANSFER && tx.params == [Addr(a), Big(n)]
    ensures (forall actors :: Exec(actors, Normal(tx)) == Exec(actors, tx)) <==> Wireable(a) && n >= 0
  {
    hide Exec, Normal;
    if Wireable(a) && n >= 0 {
      forall actors {
        StableExec(actors, tx);
      }
    } else {
      WireDependence(tx, a, n);
    }
  }

  predicate StableList(txs: seq<Transaction>) {
    forall i :: 0 <= i < |txs| ==> Stable(txs[i])
  }

  function NormalList(txs: seq<Transaction>): seq<Transaction> {
    seq(|txs|, i requires 0 <= i < |txs| => Normal(txs[i]))
  }

  lemma {:induction false} StableApply(actors: Actors, txs: seq<Transaction>)
    requires StableList(txs)
    ensures Apply(actors, NormalList(txs)) == Apply(actors, txs)
  {
    hide Exec, Normal, Stable;
    if txs != [] {
      var n := |txs| - 1;
      StableApply(actors, txs[..n]);
      assert NormalList(txs)[..n] == NormalList(txs[..n]);
      StableExec(Apply(actors, txs[..n]).actors, txs[n]);
    }
  }
}
