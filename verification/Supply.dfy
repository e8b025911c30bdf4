/** How many tokens exist: the sum of all stored balances, and what each transaction adds to it. */
module Supply {
  import opened BigInt
  import opened Types
  import opened Ledger

  ghost function Total(m: Memory): nat {
    if m == map[] then 0
    else
      var k :| k in m;
      SetBytes(m[k]) + Total(m - {k})
  }

  lemma {:induction false} TotalAt(m: Memory, k: Address)
    requires k in m
    ensures Total(m) == SetBytes(m[k]) + Total(m - {k})
  {
    var j :| j in m && Total(m) == SetBytes(m[j]) + Total(m - {j});
    if j != k {
      TotalAt(m - {j}, k);
      TotalAt(m - {k}, j);
      assert m - {j} - {k} == m - {k} - {j};
    }
  }

  lemma TotalSet(m: Memory, k: Address, v: seq<Byte>)
    ensures Total(m[k := v]) == Total(m) - Balance(m, k) + SetBytes(v)
  {
    TotalAt(m[k := v], k);
    assert m[k := v] - {k} == m - {k};
    if k in m {
      TotalAt(m, k);
    } else {
      assert m - {k} == m;
    }
  }

  lemma TotalMoved(m: Memory, from: Address, to: Address, amount: int)
    requires amount <= Balance(m, from)
    ensures Total(Moved(m, from, to, amount)) == Total(m) +
            if to == from then Abs(Balance(m, from) + amount) - Balance(m, from)
            else Abs(Balance(m, to) + amount) - (Balance(m, to) + amount)
  {
    hide SetBytes, Bytes;
    var rest := Bytes(Balance(m, from) - amount);
    var gained := Bytes(Abs(Balance(m, to) + amount));
    TotalSet(m, from, rest);
    TotalSet(m[from := rest], to, gained);
  }

  // What executing tx adds to the supply, from the balances before it: nothing unless a transfer succeeds;
  // then the second write overwrites the first when sender and recipient coincide, and a recipient balance
  // pushed below zero is stored without its sign.
  function Minted(actors: Actors, tx: Transaction): int
    requires TokenWorld(actors)
  {
    if !Exec(actors, tx).Succeeded() || PaymentOf(tx).None? then 0
    else
      var Payment(to, amount) := PaymentOf(tx).value;
      var m := TokenMemory(actors);
      if to == tx.from then Abs(Balance(m, tx.from) + amount) - Balance(m, tx.from)
      else Abs(Balance(m, to) + amount) - (Balance(m, to) + amount)
  }

  ghost function SupplyOf(actors: Actors): nat
    requires TokenWorld(actors)
  {
    Total(TokenMemory(actors))
  }

  lemma ExecSupply(actors: Actors, tx: Transaction)
    requires TokenWorld(actors)
    ensures TokenWorld(Exec(actors, tx).actors)
    ensures SupplyOf(Exec(actors, tx).actors) == SupplyOf(actors) + Minted(actors, tx)
  {
    hide Bytes, SetBytes, AddressCast, NumberCast, Balance, Moved;
    ExecTokenWorld(actors, tx);
    ExecFrame(actors, tx);
    if Exec(actors, tx).Succeeded() {
      var m := TokenMemory(actors);
      if PaymentOf(tx).Some? {
        TotalMoved(m, tx.from, PaymentOf(tx).value.to, PaymentOf(tx).value.amount);
        assert CallOf(actors, tx).memory == Moved(m, tx.from, PaymentOf(tx).value.to, PaymentOf(tx).value.amount);
      } else {
        assert CallOf(actors, tx).memory == m;
      }
    }
  }

  // Exactly which successful transfers keep the sum of all balances.
  lemma ConservesExactly(actors: Actors, tx: Transaction)
    requires TokenWorld(actors) && Exec(actors, tx).Succeeded() && PaymentOf(tx).Some?
    ensures TokenWorld(Exec(actors, tx).actors)
    ensures var Payment(to, amount) := PaymentOf(tx).value;
            var m := TokenMemory(actors);
            SupplyOf(Exec(actors, tx).actors) == SupplyOf(actors) <==>
            if to == tx.from then amount == 0 || amount == -2 * Balance(m, to) else Balance(m, to) + amount >= 0
  {
    ExecSupply(actors, tx);
    hide Exec, PaymentOf, Balance, SupplyOf;
  }

  // A caller can see this before sending: a non-negative amount, to somebody else.
  predicate Proper(tx: Transaction) {
    PaymentOf(tx).Some? ==> PaymentOf(tx).value.amount >= 0 && PaymentOf(tx).value.to != tx.from
  }

  function MintedBy(actors: Actors, txs: seq<Transaction>): int
    requires TokenWorld(actors)
  {
    if txs == [] then 0
    else
      var n := |txs| - 1;
      var before := Apply(actors, txs[..n]);
      ApplyTokenWorld(actors, txs[..n]);
      MintedBy(actors, txs[..n]) + if before.error.None? then Minted(before.actors, txs[n]) else 0
  }

  // Over any list, the supply moves by exactly what its transactions mint.
  lemma {:induction false} ApplySupply(actors: Actors, txs: seq<Transaction>)
    requires TokenWorld(actors)
    ensures TokenWorld(Apply(actors, txs).actors)
    ensures SupplyOf(Apply(actors, txs).actors) == SupplyOf(actors) + MintedBy(actors, txs)
  {
    hide Exec, Minted;
    ApplyTokenWorld(actors, txs);
    if txs != [] {
      var n := |txs| - 1;
      ApplySupply(actors, txs[..n]);
      ExecSupply(Apply(actors, txs[..n]).actors, txs[n]);
    }
  }

  lemma {:induction false} ProperMintsNothing(actors: Actors, txs: seq<Transaction>)
    requires TokenWorld(actors)
    requires forall i :: 0 <= i < |txs| ==> Proper(txs[i])
    ensures MintedBy(actors, txs) == 0
  {
    hide Exec, PaymentOf;
    if txs != [] {
      var n := |txs| - 1;
      ApplyTokenWorld(actors, txs[..n]);
      ProperMintsNothing(actors, txs[..n]);
      assert Proper(txs[n]);
    }
  }

  // The sum of the amounts of the successful transfers from an account to itself.
  function SelfPaid(actors: Actors, txs: seq<Transaction>): int {
    if txs == [] then 0
    else
      var n := |txs| - 1;
      var before := Apply(actors, txs[..n]);
      var t := txs[n];
      SelfPaid(actors, txs[..n]) +
      if && before.error.None? && Exec(before.actors, t).Succeeded()
         && PaymentOf(t).Some? && PaymentOf(t).value.to == t.from
      then PaymentOf(t).value.amount else 0
  }

  // With no negative amount, a list mints exactly what accounts pay themselves.
  lemma {:induction false} MintedIsSelfPaid(actors: Actors, txs: seq<Transaction>)
    requires TokenWorld(actors)
    requires forall i :: 0 <= i < |txs| && PaymentOf(txs[i]).Some? ==> PaymentOf(txs[i]).value.amount >= 0
    ensures MintedBy(actors, txs) == SelfPaid(actors, txs)
  {
    hide Exec, PaymentOf;
    if txs != [] {
      var n := |txs| - 1;
      ApplyTokenWorld(actors, txs[..n]);
      forall i | 0 <= i < n && PaymentOf(txs[..n][i]).Some?
        ensures PaymentOf(txs[..n][i]).value.amount >= 0
      {
        assert txs[..n][i] == txs[i];
      }
      MintedIsSelfPaid(actors, txs[..n]);
    }
  }
}
