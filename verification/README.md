# Verified model of BlockRock and Nexus

A Dafny model of the three parts of the repository that have to be right together, with proofs about every run.

**The ledger** (`blockrock-core`). Blocks are validated against cached balances, nonces and a transaction
index; a mempool admits transactions against that state plus what is already queued, drains in (sender, nonce)
order and is filtered again after every block. `Ledger.dfy`, `Validation.dfy`, `Pool.dfy` and `Chain.dfy` say what
the operations compute and prove the joint invariant: the caches are what a full replay computes, and each
sender's queue is consecutive from its chain nonce and covered by its balance. From it follow sound admission
(what was queued can be sealed, in any order that keeps each sender's nonces in sequence), exact reconciliation,
double entry, conservation and the absence of replays. `Mempool.dfy` and `Blockchain.dfy` are the mutable objects,
each method proved to compute the specified function. `Wire.dfy` has the signed byte format and its decoder,
`Tampering.dfy` what the block hash protects, `Refusals.dfy` when each operation says yes and what each refusal means,
`Runs.dfy` whole runs of one node and the submission path.

**The network** (`zion-core/src/network`). `Sync.dfy` has the rules for applying announcements, snapshots and
gossiped transactions, `Network.dfy` a step system over any number of nodes whose messages may be lost, delayed,
duplicated or reordered, `Termination.dfy` the bound on relaying, `Node.dfy` the mutable handlers and
`Gossip.dfy` the transaction scheduler with its window, receipts and retry delays. `Convergence.dfy` and
`Settling.dfy` say when all nodes end on one chain, `Delivery.dfy` when a queue arrives whole, `SealingKeys.dfy` when
an authority's key is learned.

**Nexus** (`nexus`). `Journey.dfy` merges backups; `Nexus.dfy` is the compare-and-swap server with any number of
browsers, each a state machine with drafts, conflicts and revisions; `NexusOutcomes.dfy` says what each step leads
to, `NexusRuns.dfy` has the runs that lose something; `NexusClient.dfy` has the stateful objects.

Run `dafny verify dfyconfig.toml`.

## How it is modelled

- Hashes and signatures are symbolic: a digest records what was hashed, a signature who signed which message. The
  transaction id is a digest of the real byte encoding, whose injectivity is proved. For the block hash only the
  sequence of hasher updates is recorded; that its concatenated bytes are injective is not claimed (its fields are
  not length-prefixed). The statements of `Tampering.dfy` change one thing at a time, which does not need it.
- Texts are byte strings no longer than a Rust allocation. Amounts, indexes and timestamps have their width;
  the `as u32` casts are explicit, and results that need a chain shorter than 2^32 blocks say so.
- Clock readings, the signing key, the order in which a hash map yields its values, connected peers and whether the
  store accepted a write are parameters or arbitrary choices. One `drive` call uses one clock reading.
- In `Network.dfy` messages come from honest nodes, all nodes start from the same genesis and allocation, one node
  seals, and any two nodes that know a name know it under the same key. `Termination.dfy` and every `...KeepsInv`
  lemma of `Sync.dfy` need none of this.
- The asynchronous handlers of the browser are cut at their awaits; `boot` and one other handler can be waiting at the
  same time, as the page offers the logout while it loads. A request that the browser has given up on may
  still reach the server later; an answer to a GET may be any server state since it was sent. There is one tab per
  browser, one account, and local storage works.

## Where the code and its documentation differ

The model follows the code.

- `docs/nodo.md:195-197` says a sender's available funds do not change when its queue is sealed. They rise by what it
  receives in the block (`SealIsInvisible`), so they stay the same only if that is nothing (`SealKeepsFundsIff`,
  `SealedFundsWitness`).
- `blockrock-core/src/blockchain.rs:524-526` says validation mutates its state only on success. It records the id
  before most checks and debits before the overflow check (`BatchFailureIsCleanIff`, `OverflowWitness`); the ledger
  stays untouched because callers drop the copy.
- `zion-core/src/network/sync.rs:159-161` says a sealing key is never learned from its own block. It is learned, when
  the authority is itself a sender in that block, for exactly the names that are authorised without a key
  (`SealingKeyIsLearnedIff`, `SealingKeyWitness`).
- `add_public_key` and `register_authority` overwrite a binding, which can make the pool unsealable
  (`RebindingBreaksSealingIff`, `RebindingWitness`) or the chain invalid (`RebindingKeepsChainValidIff`,
  `RebindingChainWitness`). The account route guards against it (`zion-core/src/api/rest.rs:210-218`), and the merges
  of `sync.rs` never rebind.
- `nexus/README.md:16-17` promises that a local draft is kept through an interruption. Runs that lose it: a logout
  after a login whose load failed (`LogoutAfterFailedLoadLoses`), a logout while the first load is under way
  (`LogoutDuringLoadLoses`), and settling a conflict left over from a logout (`SettlingLoses`). The exact condition on
  a single step is `NextLosesIff`. The second run also leaves `pending` set, and the next session can then send an
  empty journey nobody asked for (`StalePendingEmptiesTheServer`, `SyncSendsTheDraftIff`).

## Model

| member | source | states |
|---|---|---|
| `Wire.BuildSigningPayload` | blockrock-core/src/transaction.rs:50-75 | The bytes filled field by field are the canonical encoding: domain, length-prefixed sender and receiver, amount, nonce, optional tagged payload. |
| `Wire.DecodeInvertsSigningPayload` | blockrock-core/src/transaction.rs:50-75 | A decoder written from the byte format alone recovers every content, a missing and an empty payload told apart. |
| `Wire.SigningPayloadInjective` | blockrock-core/src/transaction.rs:50-75 | Equal signed bytes mean equal sender, receiver, amount, nonce and payload. |
| `Wire.PayloadOnlyAppends` | blockrock-core/src/transaction.rs:11-14 | Without payload the bytes are what they were before payloads existed; a payload strictly extends them. |
| `Transactions.ValidIdsIdentify` | blockrock-core/src/transaction.rs:162-184 | Two transactions with valid, equal ids have the same content. |
| `Transactions.SignatureBinds` | blockrock-core/src/transaction.rs:204-214 | A signature verifies exactly on the content it was made for, with a valid id, under the key that made it. |
| `Blocks.CalculateHash` | blockrock-core/src/block.rs:93-112 | The hash fed update by update is the digest of index, timestamp, transactions, previous hash and authority. |
| `Blocks.SealedBlockVerifies` | blockrock-core/src/block.rs:58-91 | A freshly sealed block has a valid hash and verifies under exactly the sealing key. |
| `Tampering.TransactionsAreHashed` | blockrock-core/src/block.rs:93-112 | Adding or removing a transaction, or changing the id, sender, receiver, amount, nonce or signature of one, changes the block hash. |
| `Tampering.HeaderIsHashed` | blockrock-core/src/block.rs:93-112 | So does changing the index, the timestamp, the previous hash or the authority, and nothing else of the header does. |
| `Tampering.AlteredBlockIsRefused` | blockrock-core/src/blockchain.rs:542-544 | A verified block whose transactions are altered in one of those ways, hash and seal kept, is refused with `CorruptedHash`. |
| `Tampering.AlteredHeaderIsRefused` | blockrock-core/src/blockchain.rs:536-544 | A verified block with an altered header is refused: `WrongIndex`, `BrokenLink` or `CorruptedHash`, each in its case. |
| `Tampering.AlteredPayloadIsRefused` | blockrock-core/src/blockchain.rs:580-582 | An altered payload does not change the block hash, and is refused by the id. |
| `Ledger.DoubleEntry` | blockrock-core/src/blockchain.rs:574-644 | For every accepted sequence and every account: new balance + sent = old balance + received; self-transfers cancel out, minting debits nobody. |
| `Ledger.Conservation` | blockrock-core/src/blockchain.rs:574-644 | The total supply grows by exactly the minted amounts. |
| `Ledger.NoReplay` | blockrock-core/src/blockchain.rs:580-630 | In every accepted sequence a sender's nonces are n, n+1, n+2, ... and the stored nonce advances by their number. |
| `Ledger.IdsAccumulate` | blockrock-core/src/blockchain.rs:580-585 | Accepted ids are new and pairwise distinct, and are exactly what `seen` gains. |
| `Ledger.AcceptedAreAuthentic` | blockrock-core/src/blockchain.rs:580-603 | Whatever is accepted has a valid id and, unless minted, a known sender, a verifying signature and an allowed payload. |
| `Ledger.ApplyAllNeedsSenderKeys` | blockrock-core/src/blockchain.rs:594-603 | The verdict depends on the keys of the senders alone. |
| `Ledger.PayableIsAccepted` | blockrock-core/src/blockchain.rs:574-644 | A batch that is authentic, in nonce sequence and covered per sender is accepted whole; only a balance overflow can stop it, and not while the supply fits in 64 bits. |
| `Ledger.PayableAcceptedIff` | blockrock-core/src/blockchain.rs:634-642 | Such a batch is accepted if and only if every credit fits in 64 bits at its turn, read off the opening balances and the batch. |
| `Ledger.FailureIsCleanIff` | blockrock-core/src/blockchain.rs:580-642 | A failed transaction leaves the working copy untouched if and only if its id is wrong or known; every later failure has recorded the id. |
| `Ledger.BatchFailureIsCleanIff` | blockrock-core/src/blockchain.rs:524-568 | A failed block leaves the working copy untouched, once its own checks pass, if and only if its first transaction has a wrong or a known id. |
| `Ledger.OverflowComesAfterTheDebit` | blockrock-core/src/blockchain.rs:624-639 | When the credit overflows, the sender has been debited and its nonce advanced in the working copy. |
| `Ledger.OverflowWitness` | blockrock-core/src/blockchain.rs:624-639 | Such a transaction: one unit for a receiver at the largest balance. |
| `Refusals.TransactionIsAcceptedIff` | blockrock-core/src/blockchain.rs:574-644 | A transaction is accepted on chain exactly if id, payload size, key, signature, nonce and funds are right and the credit fits. |
| `Refusals.ErrorsExplain` | blockrock-core/src/blockchain.rs:574-644 | Each error names what is wrong with the transaction in the state it met. |
| `Validation.ReplayFlattens` | blockrock-core/src/blockchain.rs:490-511 | A valid chain is one accepted sequence of all its transactions. |
| `Validation.ValidChainAccounting` | blockrock-core/src/blockchain.rs:490-511 | In every valid chain: double entry from the initial allocation, supply = initial + minted, nonces 0, 1, 2, ... per sender with their count stored, no id twice. |
| `Validation.UnspentNonceIsNew` | blockrock-core/src/blockchain.rs:606-613 | A valid transaction whose nonce is not yet consumed is not on chain. |
| `Validation.VerdictTransfers` | blockrock-core/src/blockchain.rs:527-569 | A block valid for one node is valid, with the same effect, for every node that trusts its names and binds them alike. |
| `Validation.ReplayTransfers` | blockrock-core/src/blockchain.rs:490-511 | The same for whole chains: same balances and nonces. |
| `Validation.ReplayMonotone` | blockrock-core/src/blockchain.rs:490-511 | Learning keys and authorities never changes the verdict on, or the state of, a valid chain. |
| `Validation.ReplayPrefix` | blockrock-core/src/blockchain.rs:490-511 | A prefix of a valid chain is valid. |
| `Validation.FirstErrorWins` | blockrock-core/src/blockchain.rs:498-509 | The first invalid block decides the error of the whole replay. |
| `Validation.BlockCarriesItsIndex` | blockrock-core/src/blockchain.rs:536-541 | Every block of a valid chain carries its own position (mod 2^32, as the cast does). |
| `Tampering.ValidChainIsLinked` | blockrock-core/src/blockchain.rs:536-544 | In a valid chain every block has a valid hash and names the hash of the block before it. |
| `Refusals.BlockIsAcceptedIff` | blockrock-core/src/blockchain.rs:527-569 | A block is accepted exactly if it sits at the tip, is intact, is sealed by an authority under its known key, genesis excepted, and its transactions are accepted in turn. |
| `Refusals.BlockErrorsExplain` | blockrock-core/src/blockchain.rs:536-563 | Each error names what is wrong with the block. |
| `Validation.IndexOfIndexes` | blockrock-core/src/blockchain.rs:513-521 | The rebuilt index knows exactly the ids on chain, and every entry points at a transaction with that id. |
| `Validation.LookupIsScan` | blockrock-core/src/blockchain.rs:404-411 | On a valid chain, lookup answers every id as a linear scan of all blocks does. |
| `Pool.QueueKeepsSound` | blockrock-core/src/mempool.rs:63-159 | Queueing keeps the pool invariant: authentic, new, per sender consecutive from the chain nonce and covered by the balance, total weight within the cap. |
| `Pool.NothingSaturates` | blockrock-core/src/mempool.rs:127-142 | Under that invariant the u64 sum cannot overflow and the saturating subtraction never saturates. |
| `Refusals.AdmissionIff` | blockrock-core/src/mempool.rs:63-159 | A transaction is admitted exactly under these conditions; `MempoolFull` is the answer exactly when room alone is missing, `DuplicateTransaction` exactly for a sound transaction that is on chain or pending. |
| `Refusals.RefusalsExplain` | blockrock-core/src/mempool.rs:63-159 | Each refusal names what is wrong, with the expected nonce, the available funds or the queued weight. |
| `Refusals.PoolIsBounded` | blockrock-core/src/mempool.rs:144-153 | All names, payloads and 128 bytes for each pending transaction together stay within 1 MiB. |
| `Pool.RearrangedIsPayable` | blockrock-core/src/mempool.rs:161-172 | Any order that keeps each sender's nonce order is as payable as the admission order. |
| `Pool.DrainedIsPayable` | blockrock-core/src/mempool.rs:161-172 | The (sender, nonce) drain order is such an order. |
| `Sequences.DrainedIsStable` | blockrock-core/src/mempool.rs:169-171 | Transactions with equal sender and nonce stay in the order they came in. |
| `Pool.RunIsLongest` | blockrock-core/src/blockchain.rs:477-488 | What a sender keeps is the longest stretch of its queue that starts at the new nonce and fits the new funds; nothing if that nonce is not queued. |
| `Pool.ReconciliationIsExact` | blockrock-core/src/blockchain.rs:477-488 | For any new ledger state each sender keeps exactly that run; the pool is sound again and no heavier, and `MempoolFull` never occurs on the way. |
| `ChainModel.NewChainIsSound` | blockrock-core/src/blockchain.rs:191-229 | A fresh chain satisfies the joint invariant: caches = replay, index = rebuild, pool sound. |
| `ChainModel.InitialSupply` | blockrock-core/src/blockchain.rs:192-199 | The initial allocation adds up to 1230. |
| `ChainModel.InitialAllocation` | blockrock-core/src/blockchain.rs:192-199 | Who starts with what; every other account with nothing. |
| `ChainModel.QueueKeepsInv` | blockrock-core/src/blockchain.rs:262-274 | Queueing keeps the joint invariant. |
| `ChainModel.InstallKeepsInv` | blockrock-core/src/blockchain.rs:383-390 | Installing any valid chain keeps the invariant and leaves each sender its longest run. |
| `ChainModel.AppendKeepsInv` | blockrock-core/src/blockchain.rs:350-370 | A block validated against the caches alone yields the state a full replay of the longer chain computes. |
| `ChainModel.AdoptKeepsInv` | blockrock-core/src/blockchain.rs:372-391 | Adoption keeps the invariant. |
| `Refusals.ChainIsAdoptedIff` | blockrock-core/src/blockchain.rs:372-391 | A chain is adopted exactly if it is longer, has our genesis hash and validates; a longer one with another genesis is refused with `GenesisMismatch`. |
| `Refusals.ForeignSnapshotIsRefused` | zion-core/src/network/sync.rs:135-153 | A longer snapshot with another genesis is refused with `GenesisMismatch` and leaves no trace. |
| `ChainModel.AddBlockKeepsInv` | blockrock-core/src/blockchain.rs:318-346 | Adding an own block, minting ones included, keeps the invariant. |
| `Refusals.OwnBlockIsAddedIff` | blockrock-core/src/blockchain.rs:318-346 | An own block is added exactly for a registered authority with its registered key and acceptable transactions; each other case has its error. |
| `Refusals.OwnBlockSays` | blockrock-core/src/blockchain.rs:318-346 | The added block carries its height, the time, the transactions, the authority and the previous hash. |
| `ChainModel.SealKeepsInv` | blockrock-core/src/blockchain.rs:295-314 | Sealing keeps the invariant. |
| `ChainModel.GrowthKeepsInv` | blockrock-core/src/blockchain.rs:233-240 | Learning names and authorities keeps the invariant. |
| `ChainModel.RebindingKeepsChainValidIff` | blockrock-core/src/blockchain.rs:233-240 | After a new binding the chain still validates, with the same state, if and only if the key is unchanged, or the name sent nothing on chain and sealed no block after genesis. |
| `Runs.RebindingChainWitness` | blockrock-core/src/blockchain.rs:233-240 | A chain with one sealed block that validates, and no longer does once its sealer is rebound. |
| `ChainModel.RebindingKeepsInvIff` | blockrock-core/src/blockchain.rs:233-240 | The joint invariant survives a new binding if and only if the key is unchanged, or the chain stays valid and the name has nothing pending. |
| `ChainModel.InvMeans` | blockrock-core/src/blockchain.rs:404-411 | Every reachable chain: lookup = scan, known exactly if on chain, double entry, supply, nonces in order, ids distinct. |
| `ChainModel.AdmissionIsSound` | blockrock-core/src/blockchain.rs:295-314 | A registered authority can seal the whole pool in any per-sender nonce order; it fails only by overflow, exactly when some credit does not fit at its turn, never while the supply fits. |
| `ChainModel.SealSucceeds` | blockrock-core/src/blockchain.rs:295-314 | Hence `seal_mempool` on a non-empty pool appends a block while the supply fits. |
| `ChainModel.SealIsInvisible` | blockrock-core/src/blockchain.rs:295-314 | A seal puts exactly the pending transactions on chain, empties the pool, leaves every expected nonce and raises available funds by exactly what is received in the block. |
| `ChainModel.SealKeepsFundsIff` | blockrock-core/src/blockchain.rs:295-314 | A seal leaves available funds unchanged if and only if the sender receives nothing in the block. |
| `Runs.SealedFundsWitness` | blockrock-core/src/blockchain.rs:295-314 | One pending transfer of one unit: sealing it raises what the receiver may spend by one. |
| `ChainModel.ConfirmedPrefixKeepsSuccessors` | blockrock-core/src/blockchain.rs:477-488 | A peer block with exactly the first k pending transactions of a sender keeps all its others; k = 0 is isolation of senders. |
| `Runs.StepGrows` | zion-core/src/api/rest.rs:210-220 | No operation rebinds a known name, drops an authority, shortens the chain or exchanges its genesis. |
| `Runs.RegistrationBindsIff` | zion-core/src/api/rest.rs:202-220 | The account route binds a name exactly if it is not the minting account and has no other key, and touches no other name. |
| `Runs.RunKeepsInv` | blockrock-core/src/blockchain.rs:463-511 | Any run of queue, seal, add, append, adopt, announcement, snapshot, gossip and registration steps keeps the joint invariant. |
| `Runs.ReachableStateIsReplayed` | blockrock-core/src/blockchain.rs:490-511 | After any run from a fresh chain: cached state = full replay, index = rebuild, pool sound, supply = 1230 + minted, genesis as it was. |
| `Runs.RebindingBreaksSealingIff` | blockrock-core/src/blockchain.rs:233-240 | After a new binding the pool can still be sealed if and only if the key is unchanged, or the name is not the sealing authority and has nothing pending. |
| `Runs.RebindingWitness` | blockrock-core/src/blockchain.rs:233-240 | A chain with one pending transfer that seals, and no longer does once its sender is rebound. |
| `Runs.SubmissionFailsOnlyOnPersistence` | zion-core/src/ledger.rs:60-108 | An admitted submission then fails only because the store did, whatever other tasks do between queueing and sealing, while the supply fits. |
| `Runs.SubmissionSealsIff` | zion-core/src/ledger.rs:97-108 | With the pool at 64 KiB an authority under its registered key seals everything pending by then, announces it exactly if it was saved, and reports a failure exactly if it was not; in every other case no block is added. |
| `Runs.FullPoolIsSealed` | zion-core/src/ledger.rs:97-108 | Undisturbed, the submission that fills the pool is on chain when it returns and nothing is pending. |
| `Runs.AnnouncedSealIsAppended` | zion-core/src/ledger.rs:117-143 | A persisted seal announces a block of exactly what was pending, and a node in step with the sealer appends it and reaches the same state. |
| `Sync.FailedStepsLeaveNoTrace` | zion-core/src/network/sync.rs:95-153 | An announcement that is not appended, a snapshot that is not adopted and a gossiped transaction that is not accepted leave blocks, state, keys, authorities, index and pool as before. |
| `Refusals.AnnouncementAnswers` | zion-core/src/network/sync.rs:102-118 | `Known` exactly for a block below our height with our hash there, `OutOfOrder` exactly for one above, or below with another hash; at our height it is appended or refused. |
| `Refusals.AnnouncementNames` | zion-core/src/network/sync.rs:79-90 | An announcement carries the keys of exactly the known senders of its block. |
| `Refusals.GossipAnswers` | zion-core/src/network/transactions.rs:42-81 | The exact answer: `Confirmed` iff on chain, `AlreadyKnown` iff pending, `Accepted` iff admissible with room, `Busy` iff admissible without, for an offer with our genesis and a key we have or may learn. |
| `Sync.AnnouncementTeaches` | zion-core/src/network/sync.rs:155-170 | Even of a conflicting message: the names learned are senders of its block, each new key is the one in the message, no known name is rebound and no authority is learned. |
| `Sync.SnapshotTeaches` | zion-core/src/network/sync.rs:172-192 | New keys are those of the message, known names are not rebound, and a new authority is one the message names and whose key is known. |
| `Sync.GossipTeaches` | zion-core/src/network/transactions.rs:42-81 | An accepted transaction adds at most its sender's key and touches no block, balance or authority. |
| `Sync.AnnouncementKeepsInv` | zion-core/src/network/sync.rs:95-131 | Applying any announcement, honest or not, keeps the joint invariant. |
| `Sync.SnapshotKeepsInv` | zion-core/src/network/sync.rs:135-153 | Applying any snapshot keeps the joint invariant. |
| `Sync.GossipKeepsInv` | zion-core/src/network/transactions.rs:42-81 | Applying any gossiped transaction keeps the joint invariant. |
| `Sync.NextBlockIsAppended` | zion-core/src/network/sync.rs:95-131 | The next block of a valid chain is appended by every node that holds the blocks before it, trusts the authority and disagrees on no name. |
| `Sync.AnnouncedBlockIsAppended` | zion-core/src/network/sync.rs:79-131 | An honest node's newest block is appended by a node one block behind; both then hold equal blocks, balances and nonces. |
| `Sync.LongerPrefixIsAdopted` | zion-core/src/network/sync.rs:135-153 | A longer stretch of a valid chain is adopted by every node that holds a prefix of it, if the names travel along. |
| `Sync.LongerSnapshotIsAdopted` | zion-core/src/network/sync.rs:71-153 | An honest longer snapshot is always adopted; both then hold equal blocks, balances and nonces. |
| `Sync.InSyncDelivery` | zion-core/src/network/transactions.rs:42-81 | A node with the same blocks whose queue for the sender is exactly the earlier pending transactions answers the next one Accepted, or Busy exactly when the pool has no room. |
| `Delivery.InSyncQueueDelivery` | zion-core/src/network/transactions.rs:42-81 | Delivering the rest of a sender's queue in nonce order, with room, ends with the same queue at both nodes. |
| `Sync.AppendedUnderKnownSeal` | zion-core/src/network/sync.rs:155-170 | A block is appended only under an authorised name whose key was known, or who is itself a sender in the block. |
| `SealingKeys.SealingKeyIsLearnedIff` | zion-core/src/network/sync.rs:155-170 | For every name, the minting account included: a node learns a key for it from a block sealed with that key, for some announcement, if and only if it authorises the name and has no key for it. |
| `SealingKeys.SealingKeyWitness` | zion-core/src/network/sync.rs:155-170 | A fresh node that authorises a name without a key learns the key from the block sealed with it. |
| `Network.InitialIsGood` | blockrock-core/src/blockchain.rs:191-229 | Fresh nodes with a common genesis that trust the sealer satisfy the network invariant. |
| `Network.HonestAnnouncement` | zion-core/src/network/sync.rs:95-131 | In an honest network an announcement is Known, Appended or OutOfOrder by its index alone, never rejected. |
| `Network.HonestSnapshot` | zion-core/src/network/sync.rs:135-153 | A snapshot is adopted exactly when it is longer. |
| `Network.HandleIsGood` | zion-core/src/network/service.rs:23-130 | Handling an honest message keeps the node honest, never shortens its chain and sends only honest messages. |
| `Network.HandleSends` | zion-core/src/network/service.rs:39-116 | What handling sends: one acknowledgement for an announcement, a chain request to its author exactly when it was out of order, a chain to whoever asks, and after growth the new tip to every peer but the one it came from. |
| `Network.StepIsSafe` | zion-core/src/network/service.rs:23-130 | Every delivery, loss, duplication, seal, submission or registration keeps the network invariant and every node's blocks. |
| `Network.Agreement` | zion-core/src/network/service.rs:23-130 | After any run every node's chain is a prefix of the sealer's, any two are prefix-comparable, equal heights mean equal blocks and state, and no chain lost a block. |
| `Network.NothingIsRejected` | zion-core/src/network/service.rs:23-130 | In every such state no sync message in flight will be rejected, and what it will do is determined by heights. |
| `Termination.HandlingCosts` | zion-core/src/network/service.rs:23-130 | What handling one message sends weighs less than the message, except that growth pays for one round of relays. |
| `Termination.ConsumingDecreases` | zion-core/src/network/service.rs:51-69 | Every delivery or loss lowers the potential built from missing blocks and weighted messages, on any topology and for any message contents. |
| `Termination.RelayingTerminates` | zion-core/src/network/service.rs:51-69 | A run that only handles or loses messages is at most as long as the initial potential. |
| `Termination.HonestNetsAreBounded` | zion-core/src/network/service.rs:51-69 | Every state honest nodes reach has such a bound. |
| `Convergence.AllNodesConverge` | zion-core/src/network/service.rs:85-117 | Once nobody seals, a run in which every node is brought one snapshot of the sealer's chain ends with all nodes on that chain, balances and nonces equal. |
| `Convergence.CaughtUpForGood` | zion-core/src/network/sync.rs:135-153 | A node that was brought the final chain has it at the end of the run, whatever it receives later. |
| `Convergence.AskingCatchesUp` | zion-core/src/network/service.rs:36-40 | From any honest state, one delivered chain request to the sealer and its delivered answer are enough. |
| `Convergence.SealerStays` | zion-core/src/network/service.rs:23-130 | Without a new seal no message changes the sealer's own chain. |
| `Settling.StepKeepsLevelInv` | zion-core/src/network/service.rs:23-130 | Every lossless step keeps, across each connection: the neighbour is no lower, or the newest block, its question or the answer is on the way. |
| `Settling.RelayingReachesEveryone` | zion-core/src/network/service.rs:49-61 | In a lossless run over fixed connections, with any seals on the way, once no sync message is in flight every node that the sealer's connections lead to holds its blocks, balances and nonces. |
| `Settling.DeliveriesBringAgreement` | zion-core/src/network/service.rs:23-130 | Every lossless run can be continued by deliveries alone, no more than the potential, to such an agreement. |
| `MempoolClass.SortBySenderAndNonce` | blockrock-core/src/mempool.rs:169-171 | The result is sorted by (sender, nonce), a rearrangement of the input, and keeps equal keys in order. |
| `MempoolClass.Mempool.CountQueued` | blockrock-core/src/mempool.rs:112-116 | Counting over the map in any order counts the sender's admitted transactions. |
| `MempoolClass.Mempool.SumQueued` | blockrock-core/src/mempool.rs:129-134 | Summing over the map in any order gives what the sender has committed. |
| `MempoolClass.Mempool.Queue` | blockrock-core/src/mempool.rs:63-159 | Refuses with the first failing check of the seven and changes nothing, or admits; byte count and map follow. |
| `MempoolClass.Mempool.SortedPending` | zion-core/src/network/transactions.rs:109-110 | The pending transactions in (sender, nonce) order, whatever order the map yields. |
| `MempoolClass.Mempool.Drain` | blockrock-core/src/mempool.rs:163-172 | Returns exactly what was pending, sorted, and leaves the pool and its byte count empty. |
| `BlockchainClass.WorkingState.ApplyTransaction` | blockrock-core/src/blockchain.rs:574-644 | The in-place update computes the specified transition; on an error it reports the specified one and leaves exactly what `Ledger.AfterFailure` says. |
| `BlockchainClass.WorkingState.VerifyBlock` | blockrock-core/src/blockchain.rs:527-569 | The in-place check computes the specified verdict; a block refused on its own leaves the copy untouched, one refused for a transaction leaves what was applied before. |
| `BlockchainClass.Blockchain.constructor` | blockrock-core/src/blockchain.rs:191-229 | Builds the specified fresh chain. |
| `BlockchainClass.Blockchain.RegisterAuthority` | blockrock-core/src/blockchain.rs:233-236 | Adds authority and key; the object stays valid if and only if the name keeps its key or is involved in nothing. |
| `BlockchainClass.Blockchain.AddPublicKey` | blockrock-core/src/blockchain.rs:238-240 | Binds the key; the object stays valid under exactly the same condition. |
| `BlockchainClass.Blockchain.GetTransaction` | blockrock-core/src/blockchain.rs:404-411 | Looks the id up; found exactly if indexed. |
| `BlockchainClass.Blockchain.QueueTransaction` | blockrock-core/src/blockchain.rs:262-274 | Implements the specified admission; a refusal changes nothing. |
| `BlockchainClass.Blockchain.ReconcileMempool` | blockrock-core/src/blockchain.rs:480-488 | Drains and queues again; the pool becomes the specified reconciliation, all else unchanged. |
| `BlockchainClass.Blockchain.RebuildTransactionIndex` | blockrock-core/src/blockchain.rs:513-521 | The nested loops compute the index of all blocks. |
| `BlockchainClass.Blockchain.CommitBlock` | blockrock-core/src/blockchain.rs:463-475 | Pushes the block, indexes it, installs the state and reconciles: the specified installation. |
| `BlockchainClass.Blockchain.TryAppendBlock` | blockrock-core/src/blockchain.rs:350-370 | Implements the specified append; an error leaves everything as it was. |
| `BlockchainClass.Blockchain.Replay` | blockrock-core/src/blockchain.rs:490-511 | The loop computes the specified replay and its first error. |
| `BlockchainClass.Blockchain.Validate` | blockrock-core/src/blockchain.rs:415-417 | The stored chain of a valid object always validates. |
| `BlockchainClass.Blockchain.TryAdoptChain` | blockrock-core/src/blockchain.rs:372-391 | Implements the specified adoption; a refusal or error leaves everything as it was. |
| `BlockchainClass.Blockchain.AddBlock` | blockrock-core/src/blockchain.rs:318-346 | Checks the sealer, seals and appends; an error leaves everything as it was. |
| `BlockchainClass.Blockchain.SealMempool` | blockrock-core/src/blockchain.rs:295-314 | Drains and seals; on an error the pool is put back and nothing has changed. |
| `Node.ApplyAnnouncement` | zion-core/src/network/sync.rs:95-131 | Learns, tries and restores in place, with the specified outcome and chain. |
| `Node.ApplySnapshot` | zion-core/src/network/sync.rs:135-153 | The same for snapshots. |
| `Node.ApplyTransaction` | zion-core/src/network/transactions.rs:42-81 | The same for one gossiped transaction: learning its sender is atomic with admission. |
| `Node.AnswerTransaction` | zion-core/src/network/transactions.rs:194-199 | What goes back on the wire: Busy exactly for a full pool, Rejected for every other error. |
| `Node.MergeBlockAccounts` | zion-core/src/network/sync.rs:162-170 | The loop learns exactly the missing keys of the block's senders. |
| `Node.MergeAccounts` | zion-core/src/network/sync.rs:174-180 | The loop learns exactly the missing keys. |
| `Node.MergeAuthorities` | zion-core/src/network/sync.rs:186-192 | The loop learns exactly the new authorities whose key is known. |
| `Node.AnnounceTip` | zion-core/src/network/sync.rs:79-90 | The newest block with the keys its senders have here. |
| `Node.HandleSyncEvent` | zion-core/src/network/service.rs:23-130 | One event: the specified chain, and the specified answers, relays and chain requests in order. |
| `Node.SealPending` | zion-core/src/ledger.rs:117-143 | Seals, reports whether the store kept it, and then announces the new block with its senders' keys. |
| `Node.Submit` | zion-core/src/ledger.rs:60-108 | Queues, decides whether to seal, lets the other tasks do anything while the lock is released, then seals and announces. |
| `Node.PerformAll` | blockrock-core/src/blockchain.rs:262-391 | Any sequence of operations on the object is the specified run, so what holds of runs holds of the object. |
| `Gossip.TransactionGossip.Retain` | zion-core/src/network/transactions.rs:111-122 | Exactly the requests, delays and unexpired receipts of connected peers and pending transactions are kept, with their deadlines. |
| `Gossip.TransactionGossip.DrivePeer` | zion-core/src/network/transactions.rs:126-180 | The entries it adds are the requests it hands to the network, one for one and all to this peer; the table holds at most 16 entries for it and one per sender; afterwards the peer is full or every sender with a key is served. |
| `Gossip.TransactionGossip.Drive` | zion-core/src/network/transactions.rs:103-181 | Entries added and requests sent correspond one for one, all to connected peers, at most 16 entries each; each request is pending, due and has live receipts for its predecessors; requests of connected peers and pending transactions keep their entry and get no second request for peer and sender, all others lose it; afterwards every peer is full, or each sender with a key is in flight, fully receipted, or waiting on its own retry delay. |
| `Gossip.TransactionGossip.OnResponse` | zion-core/src/network/transactions.rs:210-249 | An answer frees its slot; an acknowledgement becomes a receipt, `Confirmed` asks for the chain at most once per receipt lifetime, a refusal delays only itself. |
| `Gossip.TransactionGossip.OnOutboundFailure` | zion-core/src/network/transactions.rs:252-261 | A lost request frees its slot and may be retried after a delay. |
| `Gossip.TransactionGossip.ReceiptsAreEarned` | zion-core/src/network/transactions.rs:223-227 | A live receipt is an acknowledgement, less than one receipt lifetime old, of a request that carried the transaction to that peer. |
| `Gossip.PredecessorsWereAcknowledged` | zion-core/src/network/transactions.rs:139-157 | Nonces reach a peer in order: each pending predecessor of what is sent was sent to that very peer and acknowledged by it less than one receipt lifetime ago. |
| `JourneyModel.MergeLists` | nexus/src/domain/journey.ts:151-162 | The loop over a cloned list computes the specified merge, stopping at a clash. |
| `JourneyModel.MergeKeeps` | nexus/src/domain/journey.ts:151-162 | The old list stays in front, exactly the items of both are there, identifiers stay unique. |
| `JourneyModel.MergeFailsIff` | nexus/src/domain/journey.ts:156-160 | The merge fails if and only if one identifier names two different items. |
| `JourneyModel.MergedInterests` | nexus/src/domain/journey.ts:167-171 | The merged interests are, for each spelling up to case, the last one given. |
| `JourneyModel.MergeInterestsIdempotent` | nexus/src/domain/journey.ts:167-171 | Merging the same interests again changes nothing, order and spelling included. |
| `JourneyModel.ImportFailsIff` | nexus/src/domain/journey.ts:150-173 | An import of a parsed backup fails exactly for two different steps or goals under one identifier, or together more than 10000 steps, 100 goals or 50 interests. |
| `JourneyModel.ImportIsIdempotent` | nexus/src/domain/journey.ts:150-173 | Importing the same backup twice equals importing it once. |
| `JourneyModel.ImportKeepsEverything` | nexus/src/domain/journey.ts:150-173 | An import keeps the pause, every old item in place and every imported one, and parses. |
| `NexusModel.NextKeepsInv` | nexus/src/composables/useJourney.ts:86-153 | Every step, a logout during the first load included, keeps: revision = accepted writes, PUTs based on the version they name, a page with work pending knows local storage, a settled page shows the server version. |
| `NexusModel.WritesReplaceWhatTheySaw` | nexus/server/app.py:358-366 | Over every run the revision counts accepted writes, and each replaced exactly the version its device had last loaded or written; no revision is written twice. |
| `NexusModel.SyncedPagesAgreeWithTheServer` | nexus/src/composables/useJourney.ts:212-241 | A loaded page without conflict or pending changes shows the server's journey of its revision and keeps no draft. |
| `NexusOutcomes.ConflictIff` | nexus/src/composables/useJourney.ts:125-240 | Exactly which steps start a conflict, a refused write, a draft of another revision, a logout finding a draft the page does not remember, and which end one. |
| `NexusOutcomes.ReadVersionIsShown` | nexus/src/composables/useJourney.ts:226-231 | A loaded page that reads a version in the background shows it, with nothing pending and no conflict. |
| `NexusOutcomes.QuietSyncShowsTheServer` | nexus/src/composables/useJourney.ts:212-233 | A quiet page that completes one synchronisation shows what the server held. |
| `NexusOutcomes.EditIsStoredAndSent` | nexus/src/composables/useJourney.ts:242-258 | An edit on a page without conflict is stored as a draft and sent on the version it was made on. |
| `NexusOutcomes.CurrentEditIsWritten` | nexus/src/composables/useJourney.ts:216-224 | On the current version the edit becomes the next version, and the page is quiet with no draft left. |
| `NexusOutcomes.ServerSideIsTaken` | nexus/src/composables/useJourney.ts:265-282 | Taking the server side shows the version just read and forgets the draft. |
| `NexusOutcomes.OwnSideIsSettled` | nexus/src/composables/useJourney.ts:265-282 | Once the own side is accepted, the page shows the new version with no draft and no conflict. |
| `NexusOutcomes.LogoutShowsNothing` | nexus/src/composables/useJourney.ts:311-321 | After a logout nobody is signed in and nothing of the journey is shown. |
| `NexusOutcomes.FailureOnlyEndsTheWait` | nexus/src/composables/useJourney.ts:234-240 | A failed request changes nothing but the wait; an expired session is noticed exactly by a refused synchronisation. |
| `NexusOutcomes.LoadShows` | nexus/src/composables/useJourney.ts:125-153 | A load shows a draft that says something else as pending, in conflict exactly if made on another revision, or else the server version with no draft left. |
| `NexusOutcomes.PendingWorkSurvivesLogin` | nexus/src/composables/useJourney.ts:171-205 | Work pending at a login is there after the load that follows, with a draft or without, unless the server already has it. |
| `NexusModel.LoginRestoresIff` | nexus/src/composables/useJourney.ts:171-211 | A login brings back what the page remembered exactly when neither the draft nor the server already says it; with a draft in local storage it never has to. |
| `NexusModel.NextLosesIff` | nexus/src/composables/useJourney.ts:113-124 | A step loses an unsent change if and only if it is the end of a logout on a page that remembers the draft, or the acceptance of the visible version in a conflict on a page with nothing pending. |
| `NexusModel.UnsentChangesAreKept` | nexus/src/composables/useJourney.ts:91-112 | Over every run without those two steps an unsent change is in local storage until the server has it or the user discards it. |
| `NexusRuns.LogoutAfterFailedLoadLoses` | nexus/src/composables/useJourney.ts:304-327 | A run that loses one: edit offline, session expires, log in but the load fails, log out. |
| `NexusRuns.LogoutDuringLoadLoses` | nexus/src/composables/useJourney.ts:154-170 | A run that loses one: edit offline, reload, log out while the first load is under way; the load takes the draft up, the logout deletes it. |
| `NexusRuns.SettlingLoses` | nexus/src/composables/useJourney.ts:265-296 | A run that loses one: a conflict left over from a logout is settled by sending the empty page that is shown. |
| `NexusRuns.StalePendingEmptiesTheServer` | nexus/src/composables/useJourney.ts:212-225 | After the second run and a failed reconnection, the next background synchronisation replaces the journey on the server with the empty one. |
| `NexusRuns.SyncSendsTheDraftIff` | nexus/src/composables/useJourney.ts:212-225 | In every reachable state, what the background synchronisation sends is the draft in local storage, revision included, if and only if the page remembers one. |
| `NexusClass.JourneyServer.UpdateJourney` | nexus/server/app.py:358-366 | Compare-and-swap: written exactly if the named revision is current, and then it is the next version. |
| `NexusClass.JourneyServer.GetJourney` | nexus/server/app.py:353-356 | The current version with its revision. |
| `NexusClass.JourneyClient.Sync` | nexus/src/composables/useJourney.ts:212-225 | Sends what is pending with its revision, else asks for the server version; nothing while busy, signed out or in conflict. |
| `NexusClass.JourneyClient.Change` | nexus/src/composables/useJourney.ts:242-258 | An allowed edit is stored as a draft and sent with the revision it was made on. |
| `NexusClass.JourneyClient.LoggedOut` | nexus/src/composables/useJourney.ts:304-327 | A stored draft survives the end of a logout if and only if the page does not remember it, loaded or not. |
| `NexusClass.JourneyClient.Dispatch` | nexus/src/composables/useJourney.ts:125-327 | On every event of the system the page object does and sends exactly what the system step says, so the theorems about runs are about this object. |

## Left out

- Ledger.NoReplay: stored nonces are unbounded numbers, so the wrap of a `u64` nonce counter after 2^64 transactions of one sender is not modelled.
- Node.HandleSyncEvent: gossiped transactions are handled by `Node.AnswerTransaction`; persisting a changed chain is not part of it.
- Settling.RelayingReachesEveryone: connections are fixed and a connection once made is never lost; with losses, `Convergence.AskingCatchesUp` says what repairs them.
- Network.Agreement: with several sealing nodes chains can fork at equal height and stay forked, so the network theorem has one sealer.
- Runs.RunKeepsInv: the runs contain no step that rebinds a name; a node that registers its own key at start-up validates its chain afterwards, and `ChainModel.RebindingKeepsChainValidIff` says when that succeeds.
- Gossip.TransactionGossip.Drive: several clock readings inside one call are taken as one; the window of 16 is that of the table, which forgets requests of transactions no longer pending even if they are still unanswered, so more requests than that can be open on the wire.
- NexusModel.UnsentChangesAreKept: several tabs of one browser, storage events, failing local storage, unreadable drafts, password change and account deletion are not modelled.
- Ed25519, SHA-256, BLAKE2 and hexadecimal encoding: library code, symbolic here.
- The libp2p swarm, mDNS, locks and channels, the REST and gRPC routes: only the message steps they drive.
- Files, JSON, environment variables, key storage: input and output.
- Adversarial peers in the network theorems: a forged message is covered only by the invariants of `Sync.dfy`.
- Accounts, passwords, sessions, throttling and CSRF of the Nexus server: an expired session is just a failed request.
- Validation of single texts, timestamps and identifiers in `journey.ts`, and the format of the export file.
- `undo` of Nexus: it is an edit with an earlier journey.
- `zion-core/src/monitoring.rs`, the widgets, MQTT and Tron code and the generated protobuf module.
