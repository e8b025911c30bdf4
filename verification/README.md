# Toychain: a verified model of the ledger, its validator, its miner and its nodes

Toychain is a small blockchain. A state is a tree of actors; one actor, the token contract, keeps a separately
stored map of balances. A transaction names a target actor, a sender and a nonce, and runs a contract method. A block
carries transactions and the root of the state they lead to. Nodes mine blocks, publish them, validate what
they receive, and greet each other with their best block.

The model has four layers, and its results go across them.

1. **Transactions** (`Types`, `Ledger`, `Contract`, `Wire`, `Supply`, `Nonces`, `Order`). `Ledger.Exec` gives a transaction
   an atomic meaning on values. The classes of `Contract` do what the Go code does: they load private copies of
   actors, call the contract, flush memory and write the copies back. They are proved equal to `Exec`, with and without
   `To == From`.
2. **Chains** (`Chain`, `Genesis`, `Laws`, `StateManagement`). A block is *genuine* when replaying every block from
   genesis reproduces every state root. `KnownGoodBlocks` is a cache for that, and it is proved exact. Since a replayed
   chain is one list of transactions (`Chain.ReplayIsApply`), laws of all lists become laws of all chains.
3. **Mining** (`Pool`, `Mining`, `Issuance`, `MinerLoop`, `Stall`, `Carry`, `Receipts`).
4. **Nodes** (`Protocol`, `Node`, `Network`, `Interleaving`, `Alone`, `Races`, `Greetings`). `Protocol` gives the steps of one node on
   values; the classes of `StateManagement` and `Node` are proved to take exactly these steps; `Network` runs any
   number of nodes in any interleaving. `Interleaving` runs many calls of `ProcessNewBlock` at one node, a loop
   iteration or an assignment at a time; `Alone` proves that a call left alone is the step of `Protocol`, and
   `Races` and `Greetings` say what concurrent calls can break and exactly when they do not.

## Reading the model

- A content identifier is a free constructor over the *encoded* content. Identifiers are equal exactly when encodings are.
  A `Block` in memory and the block its receivers decode can differ: the reward is built from an `Address` and a
  `*big.Int`, receivers see a string and bytes. `Normal` and `NormalBlock` are the decoded forms.
- A HAMT is a finite map. A store is the set of identifiers a node holds, plus those its peers would serve right now
  (`remote`). Every theorem holds for whatever `remote` is, unless it asks for ancestors to be fetchable.
- A Go panic (a nil code pointer, a parameter of an unexpected type, a string shorter than two characters) is the fatal
  failure `Panicked`.
- A tick field of a transaction travels in an untyped list and decodes from anything; the two tick fields of a block are
  typed big integers, and a block in which one of them is neither null nor bytes does not decode.
- Nonces and heights are 64-bit and wrap.

## What turned out false, and exactly when it holds

- *A miner's block is valid for everybody.* It is valid for the miner's own node whatever the address, since that node
  runs it on the parameters in memory. For a block mined with an empty pool, receivers agree if and only if the address
  has at least two bytes and does not start with the characters `0x`, or the reserve can no longer pay and both the
  address and what it is mistaken for already have an actor (`Mining.RewardReadsBack`). With any pool of received
  transactions, the first condition suffices (`Mining.ReceiversAgree`), and it is exactly what makes one
  transfer independent of the wire in every state (`Wire.WireIndependence`). Addresses are 20 random bytes.
- *With an empty pool the miner can always go on.* Exactly when the manager's current state and the state of the block
  being mined on hold the same nonce for the token actor (`Mining.EmptyPoolBuilds`). The reward's nonce comes from
  the first and runs on the second, so a miner that has not taken the best block off its channel may fail.
- *A bad transaction in the pool is dropped sooner or later.* Pooling looks at sender and nonce only. Take any block of a
  chain. Before nonces wrap, some later block of that chain makes a node drop a received transaction from its pool if
  and only if, at that block, its sender has not gone past its nonce and the contract can make sense of it
  (`Carry.LeavesPoolExactly`, `Carry.CarriedExactly`); `Ledger.SensibleExactly` says what makes sense. A
  transaction that fails this stops every block that a miner holding it could build on that chain
  (`Stall.HopelessStopsMining`): one message does it to a fresh node (`Stall.SenselessStalls`).
- *The miner can build a block from its pool.* Exactly when each transaction in turn, the reward first, finds its sender
  due and makes sense (`Stall.BuildsExactly`); with transfers of distinct senders other than the reserve, exactly when the
  reward and all of them carry the stored nonces (`Stall.TransfersBuildExactly`). A pooled transaction from the
  reserve with the nonce that is due stops a miner whose reserve can pay (`Stall.RewardRival`).
- *Looking up a received, pooled transaction's receipt in a mined block gives its own outcome.* If and only if the reward has another
  identifier or, when the transaction's turn comes, the reserve cannot pay the reward (`Receipts.LookupIsRight`).
  Otherwise the lookup answers with the reward's revert for a transaction that succeeded, as it does in every
  known state of `Receipts.MinedLookupGoesWrong`; `Receipts.PoorReserve` gives one.
- *A hello names a block of the height it states.* In calls that overlap without conflicts, a hello whose head is not read
  between the two assignments of an acceptance does so if and only if there is no head yet or the best score is the
  same when it is read; otherwise, with the best block read later, only if there is no head yet
  (`Greetings.OverlappingHello`, `Greetings.HelloCanLie`).
- *Transfers keep the supply.* Exactly when sender and recipient differ and the recipient's balance does not go below
  zero, or when they coincide and the amount is zero or minus twice the balance (`Supply.ConservesExactly`). A successful
  non-negative transfer to oneself creates its amount.
- *Transactions are not malleable.* Re-encoding a decoded transaction returns the same fields exactly when its two tick
  fields are minimal (`Types.MalleableTicks`), and a block is known under the identifier it was fetched by exactly when
  this holds of all its transactions and of its own two tick fields (`Types.MalleableBlocks`). This is why
  `Chain.WalkShape` links a block to the *decoded* parent rather than to the parent's recomputed identifier.
- *Every acceptance raises the best score.* Comparing with the best block and replacing it are two steps. In a run of
  concurrent calls, all acceptances that may follow any part of it raise the score if and only if two calls have never
  both passed the comparison, and none lowers it if and only if the calls that have passed at any one time tie
  (`Races.AcceptancesRaiseExactly`, `Races.PairsRaiseExactly`). Otherwise it can fall: any two acceptable blocks of
  different heights have a run that does it (`Races.BestScoreCanFall`).
- *Between acceptances, head and current state are those of the best block.* In a run of concurrent calls, however the
  acceptances begun by any point of it are finished, they are, if and only if at no point of it a call that has passed
  the comparison meets another one that has still to set the head to a different block or the state to a different
  state (`Races.SettlesExactly`); one call at a time between comparison and last assignment is enough
  (`Races.SerialIsCalm`). Otherwise any two acceptable blocks break it (`Races.HeadCanDisagree`).

## Model

| member | source | states |
|---|---|---|
| BigInt.Bytes | contract/contract.go:168-172 | the stored bytes of a balance read back as that number and have no leading zero |
| BigInt.BytesOfSetBytes | types/types.go:157-163 | reading bytes and writing them again returns them exactly when there is no leading zero |
| BigInt.HexRoundTrip | types/types.go:50-80 | hexadecimal text of any byte string decodes to it |
| BigInt.DecodeHexExactly | types/types.go:70-80 | text decodes to a byte string if and only if it is that string's encoding in either letter case |
| BigInt.DecimalRoundTrip | contract/contract.go:99-104 | a number written in decimal, with or without a sign, is read back |
| BigInt.DecimalExactly | contract/contract.go:99-104 | text is read as a number if and only if it is the number's decimal form, up to leading zeros and a sign |
| BigInt.Int64Truncates | contract/contract.go:107-108 | a float loses its fraction toward zero, and one that does not fit becomes the least int64 |
| Types.AddressTextRoundTrip | types/types.go:50-80 | an address's text form parses back to the address |
| Types.TransactionRoundTrip | types/types.go:137-175 | sending a transaction, as seven fields in order, yields its normal form, keeps its encoding, and sending again changes nothing |
| Types.TxCidIdentifies | types/types.go:187-194 | two transactions share an identifier exactly when receivers cannot tell them apart |
| Types.MalleableTicks | types/types.go:151-174 | a decoded transaction re-encodes to the same fields exactly when both tick fields are minimal |
| Types.MalleableBlocks | types/types.go:44-107 | a fetched block's recomputed identifier is the one it was fetched by exactly when its own tick fields and those of its transactions are minimal |
| Types.BlockRoundTrip | types/types.go:23-107 | decoding a block's encoding, all seven fields of it, yields its normal form, under the same identifier and with the same receipts |
| Contract.Move | contract/contract.go:146-176 | both balances are read before either is written; too little money reverts and writes nothing |
| Contract.Transfer | contract/contract.go:117-177 | argument errors, account creation and both writes are those of the transfer's meaning, error by error |
| Contract.GetBalance | contract/contract.go:73-80 | answers the stored balance, and fails fatally on an unknown account or a bad argument |
| Contract.Call | contract/contract.go:62-71 | dispatches to the two methods and fails fatally on any other name |
| Contract.State.GetActor | contract/state.go:39-63 | yields a private copy of the stored record, or nothing |
| Contract.State.SetActor | contract/state.go:65-76 | replaces exactly the record of that address |
| Contract.State.GetContract | contract/state.go:249-256 | only the token code is executable; a nil code cannot be compared |
| Contract.State.LoadContractState | contract/state.go:236-246 | loads the memory root if it is one and the store has it |
| Contract.State.ActorExec | contract/state.go:89-160 | loading copies, calling, flushing and writing back is the atomic step of the model, aliased or not, and puts just the new memory into the store |
| Contract.State.ApplyTransactions | contract/state.go:205-215 | runs the list up to the first fatal error, with the state and store that leaves |
| Contract.State.Flush | contract/state.go:217-223 | stores the state and returns the identifier of its content |
| Contract.LoadState | contract/state.go:15-22 | a fresh state with the actors under the root, if the store has it |
| Contract.ExecClosed | contract/state.go:116-119 | from a state whose memory is all in the store no load fails, and the next state's memory is in the store |
| Contract.ApplyClosed | contract/state.go:205-215 | the same for lists: execution against the store is execution on values |
| Ledger.Call | contract/contract.go:132-144 | a contract call leaves the record of every existing actor alone, so writing back loaded copies loses no update |
| Ledger.ExecFrame | contract/state.go:89-160 | failure changes nothing; success changes the sender's nonce by one and the target's memory only; at most one new, empty actor |
| Ledger.RevertKeepsPreflight | contract/state.go:129-141 | after a revert, whatever could be executed still passes the same checks |
| Ledger.RevertedList | contract/state.go:205-215 | a list of reverts leaves all records as they were and adds only empty recipients |
| Ledger.ApplyConcat | contract/state.go:205-215 | running two lists in a row is running their concatenation |
| Ledger.ApplyPrefix | contract/state.go:205-215 | a list that runs to its end does so prefix by prefix, with no fatal transaction in it |
| Ledger.RunsExactly | contract/state.go:89-141 | in states grown from genesis a transaction gets a receipt if and only if its sender exists and is due its nonce, and the contract makes sense of it |
| Ledger.SensibleExactly | contract/contract.go:62-177 | the check on target, method and arguments is exactly whether some such state would run the transaction |
| Ledger.AddressCastExactly | contract/contract.go:82-94 | which arguments are which address, which are not one, and which panic |
| Ledger.NumberCastExactly | contract/contract.go:97-115 | which arguments are which number, which are not one, and which panic |
| Ledger.RevertsExactly | contract/contract.go:117-155 | a call reverts if and only if it is a transfer without exactly two arguments, which changes nothing, or one that its sender cannot cover |
| Ledger.QueryAnswers | contract/contract.go:73-80 | a query answers the stored balance of the very address it names, in memory or off the wire, and fails if there is none |
| Ledger.StopsBeforeTheCall | contract/state.go:89-127 | in any state, which transactions fail before the contract is called, why, and that they change nothing |
| Ledger.FailsExactly | contract/state.go:89-141 | for every transaction, which of the failures it meets |
| Ledger.NamesSpelled | contract/contract.go:19-71 | the names of the contract and its methods, and the address prefix, letter by letter |
| Ledger.ExecTokenWorld | contract/state.go:249-256 | in states grown from genesis only the token contract can be called, and that stays so |
| Wire.AddressCastWire | contract/contract.go:82-94 | an argument casts to the same address after the wire exactly when it is no unreadable address |
| Wire.NumberCastWire | contract/contract.go:97-115 | an argument casts to the same number after the wire exactly when it is no address and no negative number |
| Wire.StableExec | contract/contract.go:82-115 | a transaction that passes this check on its arguments has the same outcome before and after the wire in every state |
| Wire.WireIndependence | contract/contract.go:82-115 | a transfer built from an address and a big integer means the same to receivers in every state if and only if the address is readable and the amount not negative |
| Wire.StableApply | contract/state.go:205-215 | lists of such transactions lead to the same state before and after the wire |
| Supply.TotalMoved | contract/contract.go:146-174 | what one transfer adds to the sum of all balances, for every amount, self-transfers included |
| Supply.ExecSupply | contract/contract.go:146-174 | executing any transaction moves the supply by what it mints |
| Supply.ConservesExactly | contract/contract.go:146-174 | exactly which successful transfers keep the supply |
| Supply.ApplySupply | contract/state.go:205-215 | over any list the supply moves by the sum of what its transactions mint |
| Supply.MintedIsSelfPaid | contract/contract.go:146-174 | with no negative amount, a list mints exactly what accounts pay themselves |
| Nonces.NonceLaw | contract/state.go:106-157 | the successful nonces of an address count up by one from the stored nonce modulo 2^64, and the stored nonce is the next |
| Nonces.DueNonce | contract/state.go:106-109 | a transaction that gets a receipt carries the nonce its sender is due |
| Nonces.NoReplay | contract/state.go:106-109 | after a success no transaction of the same sender and nonce runs in the rest of the list |
| Order.PayableRuns | contract/contract.go:117-177 | a covered transfer to somebody else succeeds, moves the amount, and touches nobody else's entry |
| Order.QueryAfterPayment | contract/contract.go:73-80 | a balance query after a payment answers the old balance less what was paid plus what was received |
| Order.PaymentsCommute | types/transaction_pool.go:32-38 | payments of distinct senders commute, to the last byte of memory |
| Order.OrderDoesNotMatter | types/transaction_pool.go:32-38 | every permutation of independent payments runs to its end, all succeed, and all end in the same state |
| Pool.TransactionPool.Add | types/transaction_pool.go:18-26 | the transaction is stored under its identifier |
| Pool.TransactionPool.ClearTx | types/transaction_pool.go:28-30 | exactly that identifier is removed |
| Pool.TransactionPool.GetBestTxs | types/transaction_pool.go:32-38 | returns the pool in some order, each key once |
| Pool.OrdersArePermutations | types/transaction_pool.go:32-38 | any two readings of one pool are permutations of each other |
| Pool.AnyOrderWillDo | types/transaction_pool.go:32-38 | whichever way a pool of covered payments by distinct senders is read, all succeed with the same final state |
| Genesis.CreateGenesisBlock | core/genesis.go:14-49 | every node builds the same first block, whose state and memory it can load |
| Chain.ReplayIsApply | state/state_manager.go:194-199 | replaying a genuine chain block by block is running all its transactions from genesis as one list |
| Chain.GenuineTokenWorld | core/genesis.go:33-39 | in every genuine state only the token actor has code and memory |
| Chain.WalkShape | state/state_manager.go:172-187 | the walk collects exactly the unknown blocks down to a known one, each entry's decoded parent being the next |
| Chain.PathIsReplay | state/state_manager.go:189-199 | replaying oldest first from the known base, the carried state at each entry is the state replayed from genesis |
| Chain.CacheIsExact | state/state_manager.go:161-202 | with ancestors fetchable, a block is accepted if and only if it is higher than the best block and the replay from genesis reproduces every root |
| Chain.VerdictIgnoresCache | state/state_manager.go:161-202 | the answer does not depend on which genuine blocks are already known |
| Chain.AcceptedIsGenuine | state/state_manager.go:161-202 | with ancestors missing, whatever is accepted is still genuine and higher, and becomes known |
| Chain.ValidateKeepsSound | state/state_manager.go:172-199 | accepted or not, validation keeps the known blocks genuine and closed under parents, and only adds |
| Chain.LearnsOnlyAncestors | state/state_manager.go:194-199 | what validation adds is the block or one of its ancestors |
| Laws.SupplyLaw | contract/contract.go:146-174 | at every genuine block the supply is what genesis issued plus what the chain minted |
| Laws.GenesisWrittenOut | core/genesis.go:12-49 | the first block and its state: one actor, nonce zero, 2,000,000,000 tokens |
| Laws.SupplyIsConstant | core/genesis.go:12-26 | with only non-negative transfers to others the balances of every genuine state sum to 2,000,000,000 |
| Laws.SelfPaymentsInflate | contract/contract.go:146-174 | with non-negative amounts the supply exceeds that by exactly the successful self-transfers |
| Laws.ReplayProtection | contract/state.go:106-157 | along any genuine chain an address succeeds with nonces 0, 1, 2, … in order and its stored nonce is their number, modulo 2^64 |
| Laws.NothingRunsTwice | contract/state.go:106-109 | once a transaction has succeeded, the rest of the chain holds no transaction of its sender and nonce |
| Laws.ActorsAreNeverDeleted | contract/state.go:65-76 | from any ancestor to any genuine descendant no actor disappears or changes its code |
| Laws.NoncesNeverFall | contract/state.go:106-157 | nor does a stored nonce go down, until its address has used all 2^64 of them; it is the number of successes so far |
| Mining.MinedIsGenuine | state/miner.go:98-141 | whatever the manager's current state, a mined block is a genuine child of the block it was mined on |
| Mining.MinedHeader | state/miner.go:98-117 | parent, height (the next, modulo 2^64), empty tick fields and transactions of a mined block, the reward written out |
| Mining.MinerAgreesWithValidator | state/miner.go:98-141 | the own node accepts a mined block exactly when it is higher; on the best block, exactly when the height does not wrap |
| Mining.MinedIsStable | state/miner.go:104-117 | a mined block means the same to receivers if and only if the miner's address is readable and the pool was received |
| Mining.ReceiversAgree | state/miner.go:98-141 | such a block is accepted by every node that can fetch its ancestors and has nothing as high |
| Mining.RewardReadsBack | state/miner.go:104-110 | the block mined with an empty pool is genuine for receivers if and only if the miner's address is readable, or the reserve is exhausted and both readings of the address already have an actor |
| Mining.EmptyPoolBuilds | state/miner.go:98-129 | with an empty pool a block can be built on a known block if and only if the manager's state and the block's state agree on the reward's nonce |
| Mining.OrderOfPoolDoesNotMatter | state/miner.go:112-139 | two orders of independent pooled payments build blocks with the same state root |
| Issuance.RewardStep | state/miner.go:63-110 | a reward succeeds exactly when the reserve covers it, and then takes exactly that much |
| Issuance.IssuanceBound | state/miner.go:63-141 | on a chain of n mined blocks exactly min(n, 2000) rewards are paid and the reserve is 2,000,000,000 less a million for each |
| Issuance.MiningOutlivesTheReserve | state/miner.go:125-132 | after exhaustion blocks are still built, on the same condition, with a reverted reward |
| MinerLoop.KeepsMining | state/miner.go:78-93 | a node that mines on its best block with nothing pooled publishes the next block and goes on from it |
| MinerLoop.MinesOneByOne | state/miner.go:65-95 | after k firings of a fresh node's timer the node is k high, mines on its best block, and its chain is one of k mined blocks |
| MinerLoop.MinedReserve | state/miner.go:63-95 | and its current state holds 2,000,000,000 less a million for each of the first two thousand |
| Stall.BuildsExactly | state/miner.go:98-141 | a block can be built on a known block if and only if each transaction, the reward first, comes to a sender that exists and is due its nonce, and makes sense to the contract |
| Stall.TransfersRunExactly | contract/state.go:106-109 | transfers by distinct existing senders run to the end if and only if every nonce is the stored one |
| Stall.TransfersBuildExactly | state/miner.go:98-141 | with a pool of such transfers a block can be built if and only if the reward and all of them carry the stored nonces |
| Stall.RewardRival | state/miner.go:99-110 | a pooled transaction from the reserve with the due nonce stops every block while the reserve can pay |
| Stall.HopelessStopsMining | state/miner.go:112-129 | a pooled transaction whose nonce is spent on a chain, or that the contract can make nothing of, stops every block on that chain's later blocks; the latter whatever its nonce |
| Stall.StalledMiner | state/miner.go:78-93 | the miner's timer then changes nothing and publishes nothing |
| Stall.HopelessStaysPooled | state/state_manager.go:97-111 | no later block of that chain, accepted or not, clears the transaction from the pool |
| Stall.SenselessStalls | state/state_manager.go:204-221 | a concrete transaction with an unspent nonce that a fresh node pools and then mines on no known block |
| Carry.Prepared | contract/contract.go:117-177 | from any state grown from genesis, a list of ordinary transfers leads to one that runs a given sensible transaction whose nonce has not been passed |
| Carry.CarriedExactly | state/state_manager.go:142-157 | before nonces wrap, some later block of a chain can carry a received transaction if and only if it is neither spent nor senseless there |
| Carry.LeavesPoolExactly | state/state_manager.go:86-111 | the same for leaving the pool of a node that processes the block |
| Protocol.ProcessStep | state/state_manager.go:72-119 | an accepted block is strictly higher, genuine, and becomes best, head, known and current state, with exactly its transactions gone from the pool; a rejected one changes only the known blocks |
| Protocol.ProcessIsExact | state/state_manager.go:72-83 | with ancestors fetchable a node accepts exactly the higher genuine blocks |
| Protocol.InformTxStep | state/state_manager.go:204-221 | pooling a transaction keeps the manager's invariant |
| Protocol.InformTxExactly | state/state_manager.go:204-221 | the pool gains a transaction if and only if its sender exists and its nonce is exactly the stored one; nothing else changes |
| Protocol.ReceiveTxExactly | core/node.go:118-133 | a transaction that somebody sends reaches the pool on exactly that condition |
| Protocol.ReceiveBlockExactly | core/node.go:141-159 | with ancestors at hand, a received block becomes best and is queued for the miner if and only if it is higher and genuine |
| Protocol.HelloIsReceipt | core/protocol.go:48-69 | a higher hello whose head can be fetched is the receipt of that block, any other is nothing |
| Protocol.HelloNamesLastAccepted | core/protocol.go:28-46 | a hello has no head before the first acceptance, and then names the last accepted block and its height |
| Protocol.TakesInOrder | state/miner.go:75-77 | the miner takes accepted blocks in the order of their acceptance |
| Protocol.AcceptedIsMinedOn | state/state_manager.go:58-64 | an accepted block is the one mined on once those before it have been taken |
| Protocol.MinerMovesOn | state/miner.go:88-93 | the miner goes on from the block it has published, stays where it is if it publishes none, and stores what it built |
| Protocol.ReceiveBlockStep | core/node.go:141-159 | any decodable or undecodable message keeps the node's invariant and never lowers its best score |
| Protocol.ReceiveHelloStep | core/protocol.go:48-69 | so does any hello, honest or not |
| Protocol.MineStep | state/miner.go:78-93 | so does mining |
| Protocol.PublishedIsAccepted | core/node.go:161-172 | what a node publishes is the block it has just accepted as its best |
| Protocol.MiningExtends | state/miner.go:78-93 | mining on the best block publishes exactly when no transaction is fatal and the height does not wrap; with an empty pool, exactly when the height does not wrap |
| StateManagement.StateManager.constructor | core/node.go:70-86 | the manager starts with genesis as best and only known block, no head, and genesis' state |
| StateManagement.StateManager.CheckBlockStateChangeValid | state/state_manager.go:142-157 | runs the block's transactions on the given state, flushes, and compares the root |
| StateManagement.StateManager.ValidateBlock | state/state_manager.go:161-202 | the walk loop and the reverse replay loop compute the verdict and the known blocks of the model and change nothing else but the store, which gains exactly the state nodes of the blocks that were checked; every known state stays loadable |
| StateManagement.StateManager.AcceptNewBlock | state/state_manager.go:86-119 | sets best, head and state, and clears exactly the block's transactions from the pool; without a loadable state it still does all but the last |
| StateManagement.StateManager.ProcessNewBlock | state/state_manager.go:72-83 | validating and accepting is the manager's step, and accepting never fails after a successful validation |
| StateManagement.StateManager.InformTx | state/state_manager.go:204-221 | a transaction is pooled exactly when its sender exists and its nonce is the current one |
| StateManagement.StateManager.Inform | state/state_manager.go:58-64 | an accepted block, and no other, goes to the miner |
| StateManagement.Miner.GetNextBlock | state/miner.go:98-141 | the loop builds the block of the model for the order the pool was read in, receipts included, and changes only the store |
| Node.ToychainNode.constructor | core/node.go:47-90 | a new node is in the initial state of every run |
| Node.ToychainNode.SendNewBlock | core/node.go:161-172 | stores, processes, and publishes exactly if accepted |
| Node.ToychainNode.BlockFound | state/miner.go:78-93 | the timer branch is the mining step |
| Node.ToychainNode.NewBlockTaken | state/miner.go:75-77 | the channel branch hands the next accepted block to the miner |
| Node.ToychainNode.ProcessNewBlockMessage | core/node.go:141-159 | receiving a block is the receiving step |
| Node.ToychainNode.ProcessNewTransactionMessage | core/node.go:118-133 | receiving a transaction is the pooling step |
| Node.ToychainNode.HelloPeer | core/protocol.go:28-46 | the hello carries the head and the best score |
| Node.ToychainNode.HandleHelloStream | core/protocol.go:48-69 | handling a hello is the hearing step |
| Receipts.FindReceipt | core/node.go:221-234 | the first transaction with the identifier and the receipt at its index, or a panic if there is none there |
| Receipts.MinedContents | state/miner.go:112-132 | a mined block holds the reward, then each pooled transaction once, and receipt i is the outcome of transaction i after the first i |
| Receipts.FoundReceipt | core/node.go:221-234 | in a mined block the search for a pooled transaction finds that very transaction, unless the reward has its identifier; then it finds the reward, reverted |
| Receipts.LookupIsRight | core/node.go:221-234 | the search answers with the pooled transaction's own outcome if and only if the reward has another identifier or the reserve cannot pay at the transaction's turn |
| Receipts.LookupGoesWrong | core/node.go:221-234 | a list of three, run with the reserve one token short, in which the first and the third share an identifier, the first reverts and the third succeeds |
| Receipts.MinedLookupGoesWrong | core/node.go:221-234 | the same as a mined block, with its pool |
| Receipts.PoorReserve | contract/contract.go:146-176 | a genuine block with such a state, one transfer above genesis |
| Network.StepInv | core/node.go:118-172 | every step of any node keeps all nodes sound, every publication accepted by its publisher and every hello honest |
| Network.EveryRunIsSound | core/node.go:47-172 | in every run of nodes with readable addresses from genesis all of this holds |
| Network.KnownGoodTravels | state/state_manager.go:161-202 | a block known good at one node is accepted at any other that can fetch its ancestors, exactly if that node has nothing as high |
| Network.ScoresNeverFall | state/state_manager.go:72-83 | over any run no node's best score falls |
| Network.HearingLifts | core/protocol.go:48-69 | a node that hears an honest hello with everything at hand ends at least as high; a hello without a head loses nothing |
| Network.HellosConverge | core/protocol.go:28-69 | once mining has stopped and every node has heard a later hello of each other node, all best scores equal the highest there was |
| Network.HandshakeConverges | core/protocol.go:28-79 | two peers that greet each other once, with both heads' blocks at hand, both end at the higher of their two best scores |
| Interleaving.MoveInv | state/state_manager.go:86-202 | every loop iteration and every assignment of any of the concurrent calls keeps the shared invariant |
| Interleaving.EveryInterleavingIsSound | state/state_manager.go:72-202 | under any interleaving known blocks stay genuine and closed under parents, best block, head and state are each those of a known block, validated targets are genuine and invalid ones are not |
| Interleaving.KnownOnlyGrows | state/state_manager.go:195-199 | no step forgets a known block |
| Alone.ValidationAlone | state/state_manager.go:161-202 | a validation during which nothing else moves ends with the verdict and the known blocks of the model |
| Alone.TaskAloneIsProcess | state/state_manager.go:72-119 | a whole call during which nothing else moves is the manager's step: best, head, state, pool, known blocks and verdict |
| Alone.OfferIsInformTx | state/state_manager.go:204-221 | pooling is the same step among concurrent calls |
| Races.StepStaysAhead | state/state_manager.go:77-94 | while at most one call has passed the comparison, or all that have tie, a step that changes the best block raises, or does not lower, its score, and the next state is ready again |
| Races.ApartMeans | state/state_manager.go:77-94 | the condition is that at most one call has passed the comparison (strict), or that all that have passed tie (not lower) |
| Races.RunStaysAhead | state/state_manager.go:77-94 | in every such run from the start, every change of the best block raises, or does not lower, its score |
| Races.PairsRaiseExactly | state/state_manager.go:77-94 | a step of the next result: in one state whose passed calls are ahead of the best block, what one or two acceptances do to the score |
| Races.AcceptancesRaiseExactly | state/state_manager.go:77-94 | over whole runs from the start: the acceptances that may follow any part of it all raise the score if and only if no two calls have ever both passed, and never lower it if and only if those that have passed tie |
| Races.BestScoreCanFall | state/state_manager.go:77-94 | any two acceptable blocks of different heights have a run in which the higher is accepted and then replaced by the lower |
| Races.SettlesExactly | state/state_manager.go:86-119 | in any run, however the acceptances begun by any point are finished, head and current state end up the best block's, if and only if no call that has passed the comparison ever meets a conflicting one |
| Races.SerialIsCalm | state/state_manager.go:72-119 | one acceptance at a time rules every conflict out |
| Races.HeadCanDisagree | state/state_manager.go:86-119 | any two acceptable blocks with different identifiers have a run that ends, between acceptances, in a head or a current state that is not the best block's |
| Races.ChildrenAreAcceptable | core/genesis.go:14-49 | such blocks exist from the start: children of genesis of every height |
| Greetings.OverlappingHello | core/protocol.go:37-40 | a hello sent during overlapping calls is truthful exactly when head and best score belong together, by when each was read |
| Greetings.HelloCanLie | core/protocol.go:37-40 | between the two assignments of an acceptance a hello states the new height for the old head |

## Left out

- Signatures, ticks as a cost, and authentication: the code does not implement them; tick fields only travel.
- Go-typed parameters other than addresses, big integers and decoded values: only code that builds transactions in memory could use them, and it does not.
- NaN and infinite float parameters: floats are reals here; a float beyond the int64 range becomes the least int64, as on amd64.
- The reflective call closure: `getBalance` is called directly with its one argument cast as the closure casts it.
- HAMT nodes, the CBOR byte codec, hashing and identifiers: maps, lossless codecs and free constructors stand for them.
- Store write errors: a put always succeeds; a load fails exactly when neither the node nor a peer has the content.
- The block service's cache of fetched blocks: a block fetched from a peer is fetched again next time.
- StateManagement.StateManager.Inform: the channel to the miner is a queue of the blocks whose senders wait on it; that a waiting sender handles nothing else meanwhile is not modelled, so the model has more runs than the program.
- Memory model of unlocked Go maps and pointers: each loop iteration and each assignment is atomic, and adding an accepted block to the known ones, where it already is, happens together with making it the best block.
- Concurrent calls and several nodes at once: `Network` runs nodes whose calls do not overlap; `Greetings` covers what an overlapping node tells the others.
- Protocol.ReceiveBlockStep: a panic, on a message that does not decode or wherever the model says `Panicked`, ends the process; the model's node takes no step for that message and may take some afterwards, so it has more runs than the program.
- Node.ToychainNode.ProcessNewBlockMessage: the same.
- Node.ToychainNode.ProcessNewTransactionMessage: the same.
- Timers, randomness, logging, contexts, block notifications, pubsub and streams: reduced to the steps they trigger.
- `ActorCall`, JSON forms of addresses and actors, `lookup`, `seal`, the commands, the lock file and libp2p set-up: services around the ledger.
