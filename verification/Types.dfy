/** Addresses, transactions, receipts and blocks, their encoded forms, and content identifiers
    (types/types.go). A content identifier is a free constructor over the encoded content, so
    equal identifiers mean equal encodings and parent links cannot form a cycle. */
module Types {
  import opened Wrappers
  import opened BigInt

  const UINT64_LIMIT: int := 0x1_0000_0000_0000_0000

  type Uint64 = n: int | 0 <= n < 0x1_0000_0000_0000_0000

  type Address = seq<Byte>

  /** A decoded CBOR value; Opaque stands for every form that no code below inspects. */
  datatype Value =
    | Null
    | Text(text: seq<Byte>)
    | Blob(blob: seq<Byte>)
    | Uint(n: Uint64)
    | Float(x: real)
    | List(items: seq<Value>)
    | Opaque(tag: nat)

  /** The dynamic type of one element of Params: an Address or a *big.Int built in memory, or
      whatever decoding produced. */
  datatype Param = Addr(address: Address) | Big(number: int) | Decoded(value: Value)

  datatype Transaction = Transaction(
    to: Address,
    from: Address,
    nonce: Uint64,
    tickCost: Option<int>,
    ticks: Option<int>,
    call: seq<Byte>,
    params: seq<Param>)

  datatype Receipt = Receipt(success: bool, result: Param)

  datatype Block = Block(
    parent: Option<Cid>,
    txs: seq<Transaction>,
    receipts: seq<Receipt>,
    height: Uint64,
    stateRoot: Option<Cid>,
    tickLimit: Option<int>,
    ticksUsed: Option<int>)

  datatype EncodedReceipt = EncodedReceipt(success: bool, result: Value)

  datatype EncodedBlock = EncodedBlock(
    parent: Option<Cid>,
    txs: seq<seq<Value>>,
    receipts: seq<EncodedReceipt>,
    height: Uint64,
    stateRoot: Option<Cid>,
    tickLimit: Value,
    ticksUsed: Value)

  datatype Actor = Actor(code: Option<Cid>, memory: Option<Cid>, nonce: Uint64)

  type Actors = map<Address, Actor>

  // The contract's storage: an address is mapped to the big-endian bytes of its balance.
  type Memory = map<Address, seq<Byte>>

  datatype Cid =
    | BlockCid(block: EncodedBlock)
    | TxCid(fields: seq<Value>)
    | StateCid(actors: Actors)
    | MemoryCid(memory: Memory)
    | CodeCid(name: seq<Byte>)

  // ---------- transactions ----------

  function EncodeParam(p: Param): Value {
    match p
    case Addr(a) => Text(a)
    case Big(n) => Blob(Bytes(Abs(n)))
    case Decoded(v) => v
  }

  function EncodeBig(n: Option<int>): Value {
    if n.None? then Null else Blob(Bytes(Abs(n.value)))
  }

  function DecodeBig(v: Value): Option<int> {
    if v.Blob? then Some(SetBytes(v.blob)) else None
  }

  // The marshalling half of the transform: seven fields, the signature left out.
  function Marshal(tx: Transaction): seq<Value> {
    [Text(tx.to), Text(tx.from), Uint(tx.nonce), EncodeBig(tx.tickCost), EncodeBig(tx.ticks), Text(tx.call),
     List(seq(|tx.params|, i requires 0 <= i < |tx.params| => EncodeParam(tx.params[i])))]
  }

  // The unmarshalling half; None is the length error or a failed type assertion.
  function Unmarshal(x: seq<Value>): Option<Transaction> {
    if |x| == 7 && x[0].Text? && x[1].Text? && x[2].Uint? && x[5].Text? && x[6].List? then
      Some(Transaction(x[0].text, x[1].text, x[2].n, DecodeBig(x[3]), DecodeBig(x[4]), x[5].text,
                       seq(|x[6].items|, i requires 0 <= i < |x[6].items| => Decoded(x[6].items[i]))))
    else
      None
  }

  function NormalParam(p: Param): Param {
    Decoded(EncodeParam(p))
  }

  function NormalBig(n: Option<int>): Option<int> {
    if n.None? then None else Some(Abs(n.value))
  }

  // What a receiver sees of a transaction.
  function Normal(tx: Transaction): Transaction {
    tx.(tickCost := NormalBig(tx.tickCost), ticks := NormalBig(tx.ticks),
        params := seq(|tx.params|, i requires 0 <= i < |tx.params| => NormalParam(tx.params[i])))
  }

  function TxCidOf(tx: Transaction): Cid {
    TxCid(Marshal(tx))
  }

  // Sending a transaction, as seven fields in their order, yields its normal form and keeps its identifier.
  lemma TransactionRoundTrip(tx: Transaction)
    ensures var x := Marshal(tx);
            && |x| == 7 && x[0] == Text(tx.to) && x[1] == Text(tx.from) && x[2] == Uint(tx.nonce)
            && DecodeBig(x[3]) == NormalBig(tx.tickCost) && DecodeBig(x[4]) == NormalBig(tx.ticks)
            && x[5] == Text(tx.call) && x[6].List? && |x[6].items| == |tx.params|
    ensures Unmarshal(Marshal(tx)) == Some(Normal(tx))
    ensures Marshal(Normal(tx)) == Marshal(tx)
    ensures Normal(Normal(tx)) == Normal(tx)
  {
    var items := Marshal(tx)[6].items;
    assert Unmarshal(Marshal(tx)).value.params == Normal(tx).params;
    assert forall i :: 0 <= i < |tx.params| ==> Decoded(items[i]) == Normal(tx).params[i];
    assert forall i :: 0 <= i < |tx.params| ==> EncodeParam(Normal(tx).params[i]) == items[i];
    assert Normal(Normal(tx)).params == Normal(tx).params;
    assert Marshal(Normal(tx))[6].items == items;
  }

  // Transactions share an identifier exactly when receivers cannot tell them apart.
  lemma TxCidIdentifies(t: Transaction, u: Transaction)
    ensures TxCidOf(t) == TxCidOf(u) <==> Normal(t) == Normal(u)
  {
    TransactionRoundTrip(t);
    TransactionRoundTrip(u);
  }

  predicate MinimalTicks(v: Value) {
    v.Null? || (v.Blob? && (v.blob == [] || v.blob[0] != 0))
  }

  // Encoded transactions are malleable in their tick fields and nowhere else: re-encoding a decoded
  // transaction gives back the same bytes exactly when both tick fields are minimal.
  lemma MalleableTicks(x: seq<Value>)
    requires Unmarshal(x).Some?
    ensures Marshal(Unmarshal(x).value) == x <==> MinimalTicks(x[3]) && MinimalTicks(x[4])
  {
    var y := Marshal(Unmarshal(x).value);
    assert y[6].items == x[6].items;
    ReencodedBig(x[3]);
    ReencodedBig(x[4]);
    if MinimalTicks(x[3]) && MinimalTicks(x[4]) {
      assert forall i :: 0 <= i < 7 ==> y[i] == x[i];
    } else {
      assert y[3] != x[3] || y[4] != x[4];
    }
  }

  lemma ReencodedBig(v: Value)
    ensures EncodeBig(DecodeBig(v)) == v <==> MinimalTicks(v)
  {
    if v.Blob? {
      BytesOfSetBytes(v.blob);
    }
  }

  // ---------- blocks ----------

  function EncodeReceipt(r: Receipt): EncodedReceipt {
    EncodedReceipt(r.success, EncodeParam(r.result))
  }

  function DecodeReceipt(r: EncodedReceipt): Receipt {
    Receipt(r.success, Decoded(r.result))
  }

  function EncodeBlock(b: Block): EncodedBlock {
    EncodedBlock(b.parent,
                 seq(|b.txs|, i requires 0 <= i < |b.txs| => Marshal(b.txs[i])),
                 seq(|b.receipts|, i requires 0 <= i < |b.receipts| => EncodeReceipt(b.receipts[i])),
                 b.height, b.stateRoot, EncodeBig(b.tickLimit), EncodeBig(b.ticksUsed))
  }

  // What a field of type *big.Int decodes from; a transaction's tick fields go through an untyped list and
  // take anything.
  predicate IsBig(v: Value) {
    v.Null? || v.Blob?
  }

  // None when some transaction or one of the block's own tick fields does not decode.
  function DecodeBlock(e: EncodedBlock): Option<Block> {
    if && (forall i :: 0 <= i < |e.txs| ==> Unmarshal(e.txs[i]).Some?)
       && IsBig(e.tickLimit) && IsBig(e.ticksUsed) then
      Some(Block(e.parent,
                 seq(|e.txs|, i requires 0 <= i < |e.txs| => Unmarshal(e.txs[i]).value),
                 seq(|e.receipts|, i requires 0 <= i < |e.receipts| => DecodeReceipt(e.receipts[i])),
                 e.height, e.stateRoot, DecodeBig(e.tickLimit), DecodeBig(e.ticksUsed)))
    else
      None
  }

  function NormalBlock(b: Block): Block {
    b.(txs := seq(|b.txs|, i requires 0 <= i < |b.txs| => Normal(b.txs[i])),
       receipts := seq(|b.receipts|, i requires 0 <= i < |b.receipts| => DecodeReceipt(EncodeReceipt(b.receipts[i]))),
       tickLimit := NormalBig(b.tickLimit), ticksUsed := NormalBig(b.ticksUsed))
  }

  function CidOf(b: Block): Cid {
    BlockCid(EncodeBlock(b))
  }

  function Score(b: Block): Uint64 {
    b.height
  }

  // Decoding the bytes behind a block's identifier yields its normal form, which has that identifier.
  lemma BlockRoundTrip(b: Block)
    ensures DecodeBlock(EncodeBlock(b)) == Some(NormalBlock(b))
    ensures CidOf(NormalBlock(b)) == CidOf(b)
    ensures NormalBlock(NormalBlock(b)) == NormalBlock(b)
    ensures |NormalBlock(b).receipts| == |b.receipts|
    ensures forall i :: 0 <= i < |b.receipts| ==>
              NormalBlock(b).receipts[i] == Receipt(b.receipts[i].success, NormalParam(b.receipts[i].result))
  {
    var e, n := EncodeBlock(b), NormalBlock(b);
    forall i | 0 <= i < |b.txs|
      ensures Unmarshal(e.txs[i]) == Some(n.txs[i]) && Marshal(n.txs[i]) == e.txs[i] && Normal(n.txs[i]) == n.txs[i]
    {
      TransactionRoundTrip(b.txs[i]);
    }
    assert DecodeBlock(e).value.txs == n.txs;
    assert DecodeBlock(e).value.receipts == n.receipts;
    assert EncodeBlock(n).txs == e.txs;
    assert EncodeBlock(n).receipts == e.receipts;
    assert NormalBlock(n).txs == n.txs;
    assert NormalBlock(n).receipts == n.receipts;
  }

  // A decoded block is its own normal form.
  lemma DecodedIsNormal(e: EncodedBlock)
    requires DecodeBlock(e).Some?
    ensures NormalBlock(DecodeBlock(e).value) == DecodeBlock(e).value
  {
    var b := DecodeBlock(e).value;
    forall i | 0 <= i < |b.txs|
      ensures Normal(b.txs[i]) == b.txs[i]
    {
      var t := b.txs[i];
      assert t == Unmarshal(e.txs[i]).value;
      assert Normal(t).params == t.params;
    }
    assert NormalBlock(b).txs == b.txs;
    assert NormalBlock(b).receipts == b.receipts;
  }

  predicate LeadingZero(v: Value) {
    v.Blob? && v.blob != [] && v.blob[0] == 0
  }

  // The tick fields of a block and of all its transactions have no leading zero.
  predicate MinimalBlock(e: EncodedBlock)
    requires DecodeBlock(e).Some?
  {
    && !LeadingZero(e.tickLimit) && !LeadingZero(e.ticksUsed)
    && forall i :: 0 <= i < |e.txs| ==> MinimalTicks(e.txs[i][3]) && MinimalTicks(e.txs[i][4])
  }

  // A block fetched under an identifier has that identifier exactly when its own tick fields and those of its
  // transactions are minimal; otherwise the node knows the same block under another identifier.
  lemma MalleableBlocks(e: EncodedBlock)
    requires DecodeBlock(e).Some?
    ensures CidOf(DecodeBlock(e).value) == BlockCid(e) <==> MinimalBlock(e)
  {
    var b := DecodeBlock(e).value;
    var again := EncodeBlock(b);
    assert again.receipts == e.receipts;
    ReencodedBig(e.tickLimit);
    ReencodedBig(e.ticksUsed);
    ReencodedTxs(e);
    hide Unmarshal, Marshal, MinimalTicks, EncodeBig, DecodeBig;
    if MinimalBlock(e) {
      assert again.txs == e.txs;
    }
  }

  lemma ReencodedTxs(e: EncodedBlock)
    requires DecodeBlock(e).Some?
    ensures forall i :: 0 <= i < |e.txs| ==>
              && |e.txs[i]| == 7
              && (EncodeBlock(DecodeBlock(e).value).txs[i] == e.txs[i] <==>
                    MinimalTicks(e.txs[i][3]) && MinimalTicks(e.txs[i][4]))
  {
    hide Unmarshal, Marshal, MinimalTicks;
    forall i | 0 <= i < |e.txs|
      ensures |e.txs[i]| == 7
      ensures EncodeBlock(DecodeBlock(e).value).txs[i] == e.txs[i] <==>
              MinimalTicks(e.txs[i][3]) && MinimalTicks(e.txs[i][4])
    {
      EncodedLength(e.txs[i]);
      MalleableTicks(e.txs[i]);
    }
  }

  lemma EncodedLength(x: seq<Value>)
    requires Unmarshal(x).Some?
    ensures |x| == 7
  {
  }

  // ---------- address text ----------

  const HEX_PREFIX: seq<Byte> := [48, 120]

  predicate HasHexPrefix(s: seq<Byte>) {
    |s| >= 2 && s[..2] == HEX_PREFIX
  }

  // `Address.String`.
  function AddressText(a: Address): seq<Byte> {
    HEX_PREFIX + EncodeHex(a)
  }

  // `ParseAddress` past its slice of the first two characters.
  function ParseAddress(s: seq<Byte>): Option<Address>
    requires |s| >= 2
  {
    DecodeHex(if HasHexPrefix(s) then s[2..] else s)
  }

  lemma AddressTextRoundTrip(a: Address)
    ensures ParseAddress(AddressText(a)) == Some(a)
  {
    HexRoundTrip(a);
    assert AddressText(a)[..2] == HEX_PREFIX && AddressText(a)[2..] == EncodeHex(a);
  }
}
