/** The pool hands out transactions in no particular order (types/transaction_pool.go), so the order must not
    matter. It does not for covered transfers of distinct senders to other accounts. */
module Order {
  import opened Wrappers
  import opened BigInt
  import opened Types
  import opened Ledger

  // A transfer that would go through now: right nonce, covered, not negative, to somebody else.
  predicate Payable(actors: Actors, tx: Transaction) {
    && TokenWorld(actors)
    && tx.to == TOKEN
    && tx.from in actors && actors[tx.from].nonce == tx.nonce
    && PaymentOf(tx).Some?
    && PaymentOf(tx).value.to != tx.from
    && 0 <= PaymentOf(tx).value.amount <= Balance(TokenMemory(actors), tx.from)
  }

  function Incoming(tx: Transaction, a: Address): int
    requires PaymentOf(tx).Some?
  {
    (if a == PaymentOf(tx).value.to then PaymentOf(tx).value.amount else 0) -
    (if a == tx.from then PaymentOf(tx).value.amount else 0)
  }

  predicate Touches(tx: Transaction, a: Address)
    requires PaymentOf(tx).Some?
  {
    a == tx.from || a == PaymentOf(tx).value.to
  }

  // The memory after a payment, seen from one address: the two parties' entries are written in minimal
  // form, everybody else's are left as they are.
  predicate PaidAt(m: Memory, tx: Transaction, m': Memory, a: Address)
    requires PaymentOf(tx).Some?
  {
    && (a in m' <==> a in m || Touches(tx, a))
    && Balance(m, a) + Incoming(tx, a) >= 0
    && (a in m' ==> m'[a] == if Touches(tx, a) then Bytes(Balance(m, a) + Incoming(tx, a)) else m[a])
  }

  ghost predicate PaidMemory(m: Memory, tx: Transaction, m': Memory)
    requires PaymentOf(tx).Some?
  {
    forall a :: PaidAt(m, tx, m', a)
  }

  lemma MovedIsPaid(m: Memory, tx: Transaction)
    requires PaymentOf(tx).Some? && PaymentOf(tx).value.to != tx.from
    requires 0 <= PaymentOf(tx).value.amount <= Balance(m, tx.from)
    ensures PaidMemory(m, tx, Moved(m, tx.from, PaymentOf(tx).value.to, PaymentOf(tx).value.amount))
  {
    hide Bytes, SetBytes, PaymentOf;
  }

  lemma PaidBalance(m: Memory, tx: Transaction, m': Memory, a: Address)
    requires PaymentOf(tx).Some? && PaidAt(m, tx, m', a)
    ensures Balance(m', a) == Balance(m, a) + Incoming(tx, a)
  {
    hide PaymentOf;
  }

  // What a payment that goes through does to the actors.
  ghost predicate Paid(actors: Actors, tx: Transaction, after: Actors)
    requires Payable(actors, tx)
  {
    && TokenWorld(after)
    && after.Keys == actors.Keys + {PaymentOf(tx).value.to}
    && PaidMemory(TokenMemory(actors), tx, TokenMemory(after))
    && (forall a :: a in after ==>
          && NonceOf(after, a) == (if a == tx.from then NextNonce(actors[a].nonce) else NonceOf(actors, a))
          && (a != TOKEN ==> after[a] == Actor(None, None, NonceOf(after, a))))
  }

  lemma PayableRuns(actors: Actors, tx: Transaction)
    requires Payable(actors, tx)
    ensures Exec(actors, tx).result == Ok(Receipt(true, NIL))
    ensures Paid(actors, tx, Exec(actors, tx).actors)
  {
    hide Bytes, SetBytes, AddressCast, NumberCast, Moved, Balance;
    ExecFrame(actors, tx);
    ExecTokenWorld(actors, tx);
    MovedIsPaid(TokenMemory(actors), tx);
    assert CallOf(actors, tx).memory ==
           Moved(TokenMemory(actors), tx.from, PaymentOf(tx).value.to, PaymentOf(tx).value.amount);
  }

  // What a balance query answers after a payment: the old balance, less what was paid, plus what was received.
  lemma QueryAfterPayment(actors: Actors, t: Transaction, q: Transaction, a: Address)
    requires Payable(actors, t) && (a in TokenMemory(actors) || Touches(t, a))
    requires q.to == TOKEN && q.call == GET_BALANCE && q.params in {[Addr(a)], [Decoded(Text(a))]}
    requires Due(Exec(actors, t).actors, q)
    ensures Balance(TokenMemory(actors), a) + Incoming(t, a) >= 0
    ensures Exec(Exec(actors, t).actors, q).result ==
            Ok(Receipt(true, Big(Balance(TokenMemory(actors), a) + Incoming(t, a))))
  {
    hide Exec, PaymentOf, Touches, Incoming, Due, SetBytes;
    PayableRuns(actors, t);
    var after := Exec(actors, t).actors;
    assert PaidAt(TokenMemory(actors), t, TokenMemory(after), a);
    PaidBalance(TokenMemory(actors), t, TokenMemory(after), a);
    QueryAnswers(after, q, a);
  }

  lemma StaysPayable(actors: Actors, t: Transaction, u: Transaction)
    requires Payable(actors, t) && Payable(actors, u) && t.from != u.from
    ensures Payable(Exec(actors, t).actors, u)
  {
    PayableRuns(actors, t);
    hide Exec, PaymentOf, Balance;
    assert PaidAt(TokenMemory(actors), t, TokenMemory(Exec(actors, t).actors), u.from);
    PaidBalance(TokenMemory(actors), t, TokenMemory(Exec(actors, t).actors), u.from);
  }

  // Two payments in a row, seen from one address: the order has left no trace.
  lemma PaidTwice(m: Memory, t: Transaction, mt: Memory, u: Transaction, mtu: Memory, a: Address)
    requires PaymentOf(t).Some? && PaymentOf(u).Some?
    requires PaidAt(m, t, mt, a) && PaidAt(mt, u, mtu, a)
    ensures a in mtu <==> a in m || Touches(t, a) || Touches(u, a)
    ensures a in mtu ==> Balance(m, a) + Incoming(t, a) + Incoming(u, a) >= 0
    ensures a in mtu ==>
              mtu[a] == if Touches(t, a) || Touches(u, a)
                        then Bytes(Balance(m, a) + Incoming(t, a) + Incoming(u, a)) else m[a]
  {
    hide PaymentOf, Balance, Bytes;
    PaidBalance(m, t, mt, a);
  }

  lemma PaidMemoriesCommute(m: Memory, t: Transaction, u: Transaction, mt: Memory, mu: Memory, mtu: Memory, mut: Memory)
    requires PaymentOf(t).Some? && PaymentOf(u).Some?
    requires PaidMemory(m, t, mt) && PaidMemory(mt, u, mtu)
    requires PaidMemory(m, u, mu) && PaidMemory(mu, t, mut)
    ensures mtu == mut
  {
    hide PaymentOf, Balance, Bytes, PaidAt, Incoming, Touches;
    forall a
      ensures a in mtu <==> a in mut
      ensures a in mtu ==> mtu[a] == mut[a]
    {
      assert PaidAt(m, t, mt, a) && PaidAt(mt, u, mtu, a);
      assert PaidAt(m, u, mu, a) && PaidAt(mu, t, mut, a);
      PaidTwice(m, t, mt, u, mtu, a);
      PaidTwice(m, u, mu, t, mut, a);
    }
  }

  // Two payments of different senders commute, to the last byte of memory.
  lemma PaymentsCommute(actors: Actors, t: Transaction, u: Transaction)
    requires Payable(actors, t) && Payable(actors, u) && t.from != u.from
    ensures Exec(Exec(actors, t).actors, u).actors == Exec(Exec(actors, u).actors, t).actors
  {
    hide Exec, Payable, Paid;
    StaysPayable(actors, t, u);
    StaysPayable(actors, u, t);
    PayableRuns(actors, t);
    PayableRuns(actors, u);
    var at, au := Exec(actors, t).actors, Exec(actors, u).actors;
    PayableRuns(at, u);
    PayableRuns(au, t);
    PaidCommute(actors, t, u, at, au, Exec(at, u).actors, Exec(au, t).actors);
  }

  lemma PaidCommute(actors: Actors, t: Transaction, u: Transaction, at: Actors, au: Actors, atu: Actors, aut: Actors)
    requires Payable(actors, t) && Payable(actors, u) && t.from != u.from
    requires Payable(at, u) && Payable(au, t)
    requires Paid(actors, t, at) && Paid(at, u, atu)
    requires Paid(actors, u, au) && Paid(au, t, aut)
    ensures atu == aut
  {
    hide PaymentOf, Balance, PaidMemory, NextNonce, Preflight;
    PaidMemoriesCommute(TokenMemory(actors), t, u, TokenMemory(at), TokenMemory(au),
                        TokenMemory(atu), TokenMemory(aut));
    assert atu.Keys == aut.Keys;
    forall a | a in atu
      ensures atu[a] == aut[a]
    {
      assert NonceOf(atu, a) == NonceOf(aut, a);
    }
  }

  // A batch in which no sender appears twice and every payment is covered from the start.
  predicate Independent(actors: Actors, txs: multiset<Transaction>) {
    && (forall t :: t in txs ==> Payable(actors, t) && txs[t] == 1)
    && (forall t, u :: t in txs && u in txs && t.from == u.from ==> t == u)
  }

  predicate AvoidsSender(txs: seq<Transaction>, a: Address) {
    forall i :: 0 <= i < |txs| ==> txs[i].from != a
  }

  lemma {:induction false} StillPayable(actors: Actors, txs: seq<Transaction>, u: Transaction)
    requires Independent(actors, multiset(txs)) && Payable(actors, u) && AvoidsSender(txs, u.from)
    ensures Apply(actors, txs).error.None? && Payable(Apply(actors, txs).actors, u)
  {
    hide Exec, Payable;
    if txs != [] {
      var n := |txs| - 1;
      var last := txs[n];
      DropLast(actors, txs);
      StillPayable(actors, txs[..n], last);
      StillPayable(actors, txs[..n], u);
      PayableRuns(Apply(actors, txs[..n]).actors, last);
      StaysPayable(Apply(actors, txs[..n]).actors, last, u);
    }
  }

  lemma DropLast(actors: Actors, txs: seq<Transaction>)
    requires txs != [] && Independent(actors, multiset(txs))
    ensures var n := |txs| - 1;
            && Independent(actors, multiset(txs[..n]))
            && Payable(actors, txs[n])
            && AvoidsSender(txs[..n], txs[n].from)
  {
    hide Payable;
    var n := |txs| - 1;
    var rest, last := txs[..n], txs[n];
    assert txs == rest + [last];
    assert multiset(txs) == multiset(rest) + multiset{last};
    assert last in multiset(txs);
    forall i | 0 <= i < n
      ensures rest[i].from != last.from
    {
      assert rest[i] in multiset(rest);
      assert rest[i] in multiset(txs);
    }
    forall t | t in multiset(rest)
      ensures Payable(actors, t) && multiset(rest)[t] == 1
    {
      assert t in multiset(txs);
    }
  }

  lemma ApplySnoc(actors: Actors, txs: seq<Transaction>, x: Transaction)
    requires Apply(actors, txs).error.None?
    ensures var o := Exec(Apply(actors, txs).actors, x);
            Apply(actors, txs + [x]) == Applied(o.actors, if o.result.Err? then Some(o.result.error) else None)
  {
    hide Exec;
    assert (txs + [x])[..|txs|] == txs;
  }

  lemma SwapLastTwo(actors: Actors, txs: seq<Transaction>, x: Transaction, y: Transaction)
    requires Apply(actors, txs).error.None?
    requires Payable(Apply(actors, txs).actors, x) && Payable(Apply(actors, txs).actors, y) && x.from != y.from
    ensures Apply(actors, txs + [x]).error.None?
    ensures Apply(actors, txs + [x] + [y]) == Apply(actors, txs + [y] + [x])
  {
    hide Exec, Payable, Paid, Apply;
    var s := Apply(actors, txs).actors;
    PaymentsCommute(s, x, y);
    StaysPayable(s, x, y);
    StaysPayable(s, y, x);
    PayableRuns(s, x);
    PayableRuns(s, y);
    PayableRuns(Exec(s, x).actors, y);
    PayableRuns(Exec(s, y).actors, x);
    ApplySnoc(actors, txs, x);
    ApplySnoc(actors, txs, y);
    ApplySnoc(actors, txs + [x], y);
    ApplySnoc(actors, txs + [y], x);
  }

  // A payment may be moved behind any batch that does not share its sender.
  lemma {:induction false} MoveToEnd(actors: Actors, front: seq<Transaction>, x: Transaction, back: seq<Transaction>)
    requires Independent(actors, multiset(front + back))
    requires Payable(actors, x) && AvoidsSender(front + back, x.from)
    ensures Apply(actors, front + [x] + back) == Apply(actors, front + back + [x])
  {
    hide Exec, Payable, Apply, Independent;
    if back == [] {
      assert front + [x] + back == front + back + [x];
    } else {
      var n := |back| - 1;
      var rest, last := back[..n], back[n];
      assert front + back == front + rest + [last];
      assert (front + back)[..|front + back| - 1] == front + rest;
      assert (front + back)[|front + back| - 1] == last;
      DropLast(actors, front + back);
      MoveToEnd(actors, front, x, rest);
      StillPayable(actors, front + rest, x);
      StillPayable(actors, front + rest, last);
      SwapLastTwo(actors, front + rest, x, last);
      ApplySnoc(actors, front + [x] + rest, last);
      ApplySnoc(actors, front + rest + [x], last);
      assert front + [x] + back == front + [x] + rest + [last];
    }
  }

  // Where x stands in a permutation of rest and x.
  lemma TakeOut(rest: seq<Transaction>, x: Transaction, ys: seq<Transaction>)
    returns (front: seq<Transaction>, back: seq<Transaction>)
    requires multiset(rest + [x]) == multiset(ys)
    ensures ys == front + [x] + back && multiset(front + back) == multiset(rest)
  {
    assert multiset(rest + [x]) == multiset(rest) + multiset{x};
    assert x in multiset(ys);
    var k :| 0 <= k < |ys| && ys[k] == x;
    front, back := ys[..k], ys[k + 1..];
    assert ys == front + [x] + back;
    assert multiset(ys) == multiset(front + back) + multiset{x};
    assert multiset(rest) == multiset(ys) - multiset{x};
    assert multiset(front + back) == multiset(ys) - multiset{x};
  }

  // Every order of an independent batch runs to its end, every payment succeeds, and all orders
  // end in the same actors with the same balances.
  lemma {:induction false} OrderDoesNotMatter(actors: Actors, xs: seq<Transaction>, ys: seq<Transaction>)
    requires Independent(actors, multiset(xs)) && multiset(xs) == multiset(ys)
    ensures Apply(actors, xs).error.None?
    ensures forall i :: 0 <= i < |xs| ==> ReceiptAt(actors, xs, i) == Receipt(true, NIL)
    ensures Apply(actors, ys) == Apply(actors, xs)
  {
    assert Apply(actors, []) == Applied(actors, None);
    hide Exec, Payable, Independent, Apply, ReceiptAt;
    if xs == [] {
      assert |multiset(ys)| == 0;
      assert ys == [];
    } else {
      var n := |xs| - 1;
      var rest, x := xs[..n], xs[n];
      assert xs == rest + [x];
      DropLast(actors, xs);
      var front: seq<Transaction>, back: seq<Transaction> := TakeOut(rest, x, ys);
      OrderDoesNotMatter(actors, rest, front + back);
      forall i | 0 <= i < |front + back|
        ensures (front + back)[i].from != x.from
      {
        assert (front + back)[i] in multiset(front + back);
        assert (front + back)[i] in multiset(rest);
      }
      MoveToEnd(actors, front, x, back);
      StillPayable(actors, rest, x);
      PayableRuns(Apply(actors, rest).actors, x);
      ApplySnoc(actors, front + back, x);
      ApplySnoc(actors, rest, x);
      assert Apply(actors, xs).error.None?;
      AllSucceed(actors, xs);
    }
  }

  lemma AllSucceed(actors: Actors, xs: seq<Transaction>)
    requires xs != [] && Apply(actors, xs).error.None?
    requires var n := |xs| - 1;
             && Apply(actors, xs[..n]).error.None?
             && (forall i :: 0 <= i < n ==> ReceiptAt(actors, xs[..n], i) == Receipt(true, NIL))
             && Exec(Apply(actors, xs[..n]).actors, xs[n]).result == Ok(Receipt(true, NIL))
    ensures forall i :: 0 <= i < |xs| ==> ReceiptAt(actors, xs, i) == Receipt(true, NIL)
  {
    hide Exec, Apply;
    var n := |xs| - 1;
    forall i | 0 <= i < |xs|
      ensures ReceiptAt(actors, xs, i) == Receipt(true, NIL)
    {
      ApplyPrefix(actors, xs, i);
      if i < n {
        ApplyPrefix(actors, xs[..n], i);
        assert xs[..n][..i] == xs[..i] && xs[..n][i] == xs[i];
        assert ReceiptAt(actors, xs[..n], i) == Receipt(true, NIL);
      }
    }
  }
}
