/** The transaction pool (types/transaction_pool.go): a map keyed by transaction identifier, read in no
    particular order. */
module Pool {
  import opened Types
  import opened Ledger
  import opened Order

  type Pooled = map<Cid, Transaction>

  predicate Keyed(pool: Pooled) {
    forall c :: c in pool ==> TxCidOf(pool[c]) == c
  }

  function Cleared(b: Block): set<Cid> {
    set i | 0 <= i < |b.txs| :: TxCidOf(b.txs[i])
  }

  predicate Lists(pool: Pooled, keys: seq<Cid>, out: seq<Transaction>) {
    && |out| == |keys| == |pool|
    && (forall i :: 0 <= i < |keys| ==> keys[i] in pool && out[i] == pool[keys[i]])
    && (forall i, j :: 0 <= i < j < |keys| ==> keys[i] != keys[j])
  }

  // One of the orders in which the pool may be read: every key once.
  ghost predicate IsOrder(pool: Pooled, out: seq<Transaction>) {
    exists keys :: Lists(pool, keys, out)
  }

  class TransactionPool {
    var txs: Pooled

    constructor ()
      ensures txs == map[]
    {
      txs := map[];
    }

    method Add(tx: Transaction)
      modifies this`txs
      ensures txs == old(txs)[TxCidOf(tx) := tx]
    {
      txs := txs[TxCidOf(tx) := tx];
    }

    method ClearTx(c: Cid)
      modifies this`txs
      ensures txs == old(txs) - {c}
    {
      txs := txs - {c};
    }

    method GetBestTxs() returns (out: seq<Transaction>)
      ensures IsOrder(txs, out)
    {
      out := [];
      var left := txs.Keys;
      ghost var keys: seq<Cid> := [];
      while left != {}
        invariant left <= txs.Keys && |out| == |keys| && |keys| + |left| == |txs|
        invariant forall i :: 0 <= i < |keys| ==> keys[i] in txs && keys[i] !in left && out[i] == txs[keys[i]]
        invariant forall i, j :: 0 <= i < j < |keys| ==> keys[i] != keys[j]
      {
        var c :| c in left;
        out := out + [txs[c]];
        keys := keys + [c];
        left := left - {c};
      }
      assert Lists(txs, keys, out);
    }
  }

  lemma {:induction false} DistinctKeysCover(s: set<Cid>, keys: seq<Cid>, c: Cid)
    requires |keys| == |s| && (forall i :: 0 <= i < |keys| ==> keys[i] in s)
    requires forall i, j :: 0 <= i < j < |keys| ==> keys[i] != keys[j]
    requires c in s
    ensures c in keys
  {
    if keys != [] && keys[|keys| - 1] != c {
      DistinctKeysCover(s - {keys[|keys| - 1]}, keys[..|keys| - 1], c);
    }
  }

  lemma {:induction false} DistinctCount(out: seq<Transaction>, t: Transaction)
    requires forall i, j :: 0 <= i < j < |out| ==> out[i] != out[j]
    ensures multiset(out)[t] == if t in out then 1 else 0
  {
    if out != [] {
      var n := |out| - 1;
      assert out == out[..n] + [out[n]];
      DistinctCount(out[..n], t);
    }
  }

  // Each pooled transaction comes out exactly once, and nothing else does.
  lemma OrderCounts(pool: Pooled, out: seq<Transaction>, t: Transaction)
    requires Keyed(pool) && IsOrder(pool, out)
    ensures multiset(out)[t] == if TxCidOf(t) in pool && pool[TxCidOf(t)] == t then 1 else 0
  {
    hide TxCidOf;
    var keys :| Lists(pool, keys, out);
    forall i, j | 0 <= i < j < |out|
      ensures out[i] != out[j]
    {
      assert TxCidOf(out[i]) == keys[i] && TxCidOf(out[j]) == keys[j];
    }
    DistinctCount(out, t);
    if TxCidOf(t) in pool && pool[TxCidOf(t)] == t {
      DistinctKeysCover(pool.Keys, keys, TxCidOf(t));
    }
  }

  // Any two readings of one pool are permutations of each other.
  lemma OrdersArePermutations(pool: Pooled, xs: seq<Transaction>, ys: seq<Transaction>)
    requires Keyed(pool) && IsOrder(pool, xs) && IsOrder(pool, ys)
    ensures multiset(xs) == multiset(ys)
  {
    forall t
      ensures multiset(xs)[t] == multiset(ys)[t]
    {
      OrderCounts(pool, xs, t);
      OrderCounts(pool, ys, t);
    }
  }

  // Whichever way a pool of covered payments by distinct senders is read, all of it is executed
  // and the resulting actors and balances are the same.
  lemma AnyOrderWillDo(actors: Actors, pool: Pooled, xs: seq<Transaction>, ys: seq<Transaction>)
    requires Keyed(pool) && IsOrder(pool, xs) && IsOrder(pool, ys)
    requires forall c :: c in pool ==> Payable(actors, pool[c])
    requires forall c, d :: c in pool && d in pool && c != d ==> pool[c].from != pool[d].from
    ensures Apply(actors, xs).error.None? && Apply(actors, ys) == Apply(actors, xs)
    ensures forall i :: 0 <= i < |xs| ==> ReceiptAt(actors, xs, i) == Receipt(true, NIL)
  {
    hide TxCidOf, Payable, Apply;
    OrdersArePermutations(pool, xs, ys);
    forall t | t in multiset(xs)
      ensures multiset(xs)[t] == 1 && TxCidOf(t) in pool && pool[TxCidOf(t)] == t
    {
      OrderCounts(pool, xs, t);
    }
    OrderDoesNotMatter(actors, xs, ys);
  }
}
