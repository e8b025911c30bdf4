/** Replay protection: the nonces that succeed from one address, over any list of transactions. */
module Nonces {
  import opened Types
  import opened Ledger

  predicate SucceedsLast(actors: Actors, txs: seq<Transaction>, a: Address)
    requires txs != []
  {
    var n := |txs| - 1;
    var before := Apply(actors, txs[..n]);
    before.error.None? && txs[n].from == a && Exec(before.actors, txs[n]).Succeeded()
  }

  // The nonces of the transactions from a that succeed, in order.
  function Used(actors: Actors, txs: seq<Transaction>, a: Address): (r: seq<Uint64>)
    ensures |r| <= |txs|
  {
    if txs == [] then []
    else
      var earlier := Used(actors, txs[..|txs| - 1], a);
      if SucceedsLast(actors, txs, a) then earlier + [txs[|txs| - 1].nonce] else earlier
  }

  lemma NonceStep(actors: Actors, tx: Transaction, a: Address)
    ensures NonceOf(Exec(actors, tx).actors, a) ==
            if tx.from == a && Exec(actors, tx).Succeeded() then (NonceOf(actors, a) + 1) % UINT64_LIMIT
            else NonceOf(actors, a)
    ensures Exec(actors, tx).result.Ok? ==> tx.nonce == NonceOf(actors, tx.from)
  {
    hide Exec, CallOf, Recipients, Preflight, NextNonce;
    if Exec(actors, tx).result.Ok? {
      Reached(actors, tx);
    }
    ExecFrame(actors, tx);
    NextIsSuccessor(NonceOf(actors, a));
  }

  lemma NextIsSuccessor(n: Uint64)
    ensures NextNonce(n) == (n + 1) % UINT64_LIMIT
  {
  }

  predicate CountsFrom(start: nat, nonces: seq<Uint64>) {
    forall i :: 0 <= i < |nonces| ==> nonces[i] == (start + i) % UINT64_LIMIT
  }

  // They count up by one from the stored nonce, modulo 2^64, and the stored nonce is the next of them.
  lemma {:induction false} NonceLaw(actors: Actors, txs: seq<Transaction>, a: Address)
    ensures CountsFrom(NonceOf(actors, a), Used(actors, txs, a))
    ensures NonceOf(Apply(actors, txs).actors, a) == (NonceOf(actors, a) + |Used(actors, txs, a)|) % UINT64_LIMIT
  {
    hide Exec, NonceOf, CountsFrom;
    if txs != [] {
      var n := |txs| - 1;
      NonceLaw(actors, txs[..n], a);
      NonceStep(Apply(actors, txs[..n]).actors, txs[n], a);
      NextResidue(NonceOf(actors, a), |Used(actors, txs[..n], a)|);
      CountsOn(NonceOf(actors, a), Used(actors, txs[..n], a), txs[n].nonce);
    } else {
      NothingCounted(NonceOf(actors, a));
    }
  }

  lemma CountsOn(start: nat, nonces: seq<Uint64>, next: Uint64)
    requires CountsFrom(start, nonces)
    ensures next == (start + |nonces|) % UINT64_LIMIT ==> CountsFrom(start, nonces + [next])
  {
  }

  lemma NothingCounted(start: Uint64)
    ensures CountsFrom(start, []) && (start + 0) % UINT64_LIMIT == start
  {
  }

  lemma NextResidue(n: nat, k: nat)
    ensures ((n + k) % UINT64_LIMIT + 1) % UINT64_LIMIT == (n + (k + 1)) % UINT64_LIMIT
  {
  }

  lemma {:induction false} UsedGrows(actors: Actors, txs: seq<Transaction>, i: nat, a: Address)
    requires Apply(actors, txs).error.None? && i < |txs|
    requires txs[i].from == a && ReceiptAt(actors, txs, i).success
    ensures |Used(actors, txs[..i], a)| < |Used(actors, txs, a)|
  {
    hide Exec;
    var n := |txs| - 1;
    ApplyPrefix(actors, txs, i);
    if i == n {
      assert Exec(Apply(actors, txs[..n]).actors, txs[n]).result.value == ReceiptAt(actors, txs, n);
    } else {
      ApplyPrefix(actors, txs, n);
      assert txs[..n][..i] == txs[..i] && txs[..n][i] == txs[i];
      assert ReceiptAt(actors, txs[..n], i) == ReceiptAt(actors, txs, i);
      UsedGrows(actors, txs[..n], i, a);
    }
  }

  lemma {:induction false} UsedConcat(actors: Actors, xs: seq<Transaction>, ys: seq<Transaction>, a: Address)
    requires Apply(actors, xs).error.None?
    ensures Used(actors, xs + ys, a) == Used(actors, xs, a) + Used(Apply(actors, xs).actors, ys, a)
  {
    hide Exec;
    if ys == [] {
      assert xs + ys == xs;
    } else {
      var n := |ys| - 1;
      UsedConcat(actors, xs, ys[..n], a);
      ApplyConcat(actors, xs, ys[..n]);
      assert (xs + ys)[..|xs + ys| - 1] == xs + ys[..n] && (xs + ys)[|xs + ys| - 1] == ys[n];
      hide Apply, Used, SucceedsLast;
      LastUsed(actors, xs + ys, a);
      LastUsed(Apply(actors, xs).actors, ys, a);
    }
  }

  lemma LastUsed(actors: Actors, txs: seq<Transaction>, a: Address)
    requires txs != []
    ensures var n := |txs| - 1;
            var before := Apply(actors, txs[..n]);
            Used(actors, txs, a) ==
            Used(actors, txs[..n], a) +
            if before.error.None? && txs[n].from == a && Exec(before.actors, txs[n]).Succeeded()
            then [txs[n].nonce] else []
  {
    hide Exec, Apply;
  }

  // A transaction that gets as far as a receipt carries the nonce its sender is due.
  lemma DueNonce(actors: Actors, txs: seq<Transaction>, i: nat)
    requires Apply(actors, txs).error.None? && i < |txs|
    ensures txs[i].nonce == (NonceOf(actors, txs[i].from) + |Used(actors, txs[..i], txs[i].from)|) % UINT64_LIMIT
  {
    hide Exec, NonceOf, Used, CountsFrom, Apply;
    ApplyPrefix(actors, txs, i);
    NonceLaw(actors, txs[..i], txs[i].from);
    NonceStep(Apply(actors, txs[..i]).actors, txs[i], txs[i].from);
  }

  // After a transaction has succeeded, no transaction of the same sender and nonce even reaches the contract,
  // until the sender has gone through all 2^64 nonces: nothing can be replayed, and a second pooled
  // transaction with a nonce that has been used is fatal to the list that holds it.
  lemma NoReplay(actors: Actors, txs: seq<Transaction>, i: nat, j: nat)
    requires Apply(actors, txs).error.None? && i < j < |txs|
    requires txs[i].from == txs[j].from && ReceiptAt(actors, txs, i).success
    requires |Used(actors, txs[..j], txs[i].from)| < UINT64_LIMIT
    ensures txs[i].nonce != txs[j].nonce
  {
    hide Exec, NonceOf, Used, Apply;
    var a := txs[i].from;
    ApplyPrefix(actors, txs, j);
    assert txs[..j][..i] == txs[..i] && txs[..j][i] == txs[i];
    assert ReceiptAt(actors, txs[..j], i) == ReceiptAt(actors, txs, i);
    UsedGrows(actors, txs[..j], i, a);
    DueNonce(actors, txs, i);
    DueNonce(actors, txs, j);
    DistinctResidues(NonceOf(actors, a), |Used(actors, txs[..i], a)|, |Used(actors, txs[..j], a)|);
  }

  lemma DistinctResidues(n: nat, p: nat, q: nat)
    requires p < q < p + UINT64_LIMIT
    ensures (n + p) % UINT64_LIMIT != (n + q) % UINT64_LIMIT
  {
  }
}
