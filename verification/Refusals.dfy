/**
 When each operation says yes, and what each refusal means: exact conditions for transactions, blocks, chains,
 announcements and gossip, in terms a caller can check beforehand.
 */
module Refusals {
  import opened Prelude
  import opened Crypto
  import opened Wire
  import opened Transactions
  import opened Blocks
  import opened Sequences
  import opened Ledger
  import opened Validation
  import opened Pool
  import opened ChainModel
  import opened Sync

  // ----- A transaction in a block. -----

  /** What the receiver holds when the credit is made. */
  function HeldBefore(st: LedgerState, t: Transaction): int {
    st.Balance(t.receiver) - if t.sender == t.receiver && t.sender != MINT_ACCOUNT then t.amount else 0
  }

  /** A transaction is accepted on chain exactly under these conditions. */
  lemma TransactionIsAcceptedIff(keys: Keys, acc: Accumulator, t: Transaction)
    ensures Ledger.ApplyTransaction(keys, acc, t).Ok? <==>
      && t.HasValidId() && t.id !in acc.seen && t.PayloadLength() <= 4096
      && (t.sender == MINT_ACCOUNT
          || (&& t.sender in keys && t.Verify(keys[t.sender])
              && t.nonce == acc.state.NextNonce(t.sender) && t.amount <= acc.state.Balance(t.sender)))
      && HeldBefore(acc.state, t) + t.amount < TWO_TO_THE_64
  {
    hide SigningPayload;
  }

  /** What an error says about the transaction and the state it met. */
  ghost predicate Explains(keys: Keys, acc: Accumulator, t: Transaction, e: ChainError) {
    match e
    case TamperedTransaction(id) => id == t.id && !t.HasValidId()
    case DuplicateTransaction(id) => id == t.id && id in acc.seen
    case PayloadTooLarge(id, size, max) => id == t.id && t.payload.Some? && size == |t.payload.value| > max == 4096
    case UnknownSender(s) => s == t.sender && s != MINT_ACCOUNT && s !in keys
    case InvalidSignature(id) => id == t.id && t.sender in keys && !t.Verify(keys[t.sender])
    case InvalidNonce(s, expected, found) => s == t.sender && expected == acc.state.NextNonce(s) && found == t.nonce != expected
    case InsufficientFunds(s, balance, amount) => s == t.sender && balance == acc.state.Balance(s) < amount == t.amount
    case BalanceOverflow(account) => account == t.receiver && HeldBefore(acc.state, t) + t.amount >= TWO_TO_THE_64
    case _ => false
  }

  lemma ErrorsExplain(keys: Keys, acc: Accumulator, t: Transaction)
    requires Ledger.ApplyTransaction(keys, acc, t).Err?
    ensures Explains(keys, acc, t, Ledger.ApplyTransaction(keys, acc, t).error)
  {
    hide SigningPayload;
  }

  // ----- A transaction for the pool. -----

  /** Everything admission asks for but room. */
  ghost predicate Admissible(keys: Keys, st: LedgerState, seen: set<Digest>, pool: seq<Transaction>, t: Transaction) {
    && t.sender != MINT_ACCOUNT && t.HasValidId() && t.PayloadLength() <= 4096
    && t.id !in seen && t.id !in Ids(pool)
    && t.sender in keys && t.Verify(keys[t.sender])
    && t.nonce == st.NextNonce(t.sender) + |Of(pool, t.sender)|
    && (t.amount == 0 || Amounts(Of(pool, t.sender)) + t.amount <= st.Balance(t.sender))
  }

  lemma AdmissionIff(keys: Keys, st: LedgerState, seen: set<Digest>, pool: seq<Transaction>, t: Transaction)
    ensures Refused(keys, st, seen, pool, t).None? <==>
      Admissible(keys, st, seen, pool, t) && TotalWeight(pool) + t.Weight() <= 1024 * 1024
    ensures (exists queued, max :: Refused(keys, st, seen, pool, t) == Some(MempoolFull(queued, max))) <==>
      Admissible(keys, st, seen, pool, t) && TotalWeight(pool) + t.Weight() > 1024 * 1024
    ensures (exists id :: Refused(keys, st, seen, pool, t) == Some(DuplicateTransaction(id))) <==>
      t.sender != MINT_ACCOUNT && t.HasValidId() && t.PayloadLength() <= 4096 && (t.id in seen || t.id in Ids(pool))
  {
    hide SigningPayload, Of;
    if Admissible(keys, st, seen, pool, t) && TotalWeight(pool) + t.Weight() > MAX_MEMPOOL_BYTES {
      assert Refused(keys, st, seen, pool, t) == Some(MempoolFull(TotalWeight(pool), MAX_MEMPOOL_BYTES));
    }
    if t.sender != MINT_ACCOUNT && t.HasValidId() && t.PayloadLength() <= 4096 && (t.id in seen || t.id in Ids(pool)) {
      assert Refused(keys, st, seen, pool, t) == Some(DuplicateTransaction(t.id));
    }
  }

  /** What a refusal of the pool says. A full pool is named only when nothing else is wrong. */
  ghost predicate PoolExplains(keys: Keys, st: LedgerState, seen: set<Digest>, pool: seq<Transaction>, t: Transaction,
                               e: ChainError) {
    match e
    case ReservedSender(s) => s == t.sender == MINT_ACCOUNT
    case TamperedTransaction(id) => id == t.id && !t.HasValidId()
    case PayloadTooLarge(id, size, max) => id == t.id && t.payload.Some? && size == |t.payload.value| > max == 4096
    case DuplicateTransaction(id) => id == t.id && (id in seen || id in Ids(pool))
    case UnknownSender(s) => s == t.sender && s !in keys
    case InvalidSignature(id) => id == t.id && t.sender in keys && !t.Verify(keys[t.sender])
    case InvalidNonce(s, expected, found) =>
      s == t.sender && expected == st.NextNonce(s) + |Of(pool, s)| && found == t.nonce != expected
    case InsufficientFunds(s, balance, amount) =>
      && s == t.sender && amount == t.amount > balance
      && Amounts(Of(pool, s)) + amount > st.Balance(s)
      && (Amounts(Of(pool, s)) <= st.Balance(s) ==> balance == st.Balance(s) - Amounts(Of(pool, s)))
    case MempoolFull(queued, max) =>
      && Admissible(keys, st, seen, pool, t)
      && queued == TotalWeight(pool) && max == 1024 * 1024 < queued + t.Weight()
    case _ => false
  }

  lemma RefusalsExplain(keys: Keys, st: LedgerState, seen: set<Digest>, pool: seq<Transaction>, t: Transaction)
    requires Refused(keys, st, seen, pool, t).Some?
    ensures PoolExplains(keys, st, seen, pool, t, Refused(keys, st, seen, pool, t).value)
  {
    hide SigningPayload, Of;
  }

  lemma {:induction false} WeightCoversContent(txs: seq<Transaction>)
    ensures TotalWeight(txs) >= ContentBytes(txs) + 128 * |txs|
  {
    if txs != [] {
      WeightCoversContent(txs[1..]);
    }
  }

  /** The variable parts of what is pending. */
  function ContentBytes(txs: seq<Transaction>): nat {
    if txs == [] then 0
    else |txs[0].sender| + |txs[0].receiver| + (if txs[0].payload.Some? then |txs[0].payload.value| else 0)
         + ContentBytes(txs[1..])
  }

  /** A pool holds at most 1 MiB, counting every name, payload and 128 bytes for each transaction. */
  lemma PoolIsBounded(c: Chain)
    requires Inv(c)
    ensures ContentBytes(c.pool) + 128 * |c.pool| <= 1024 * 1024
  {
    WeightCoversContent(c.pool);
  }

  // ----- A block. -----

  /** A block is accepted exactly when it sits at the tip, is intact, is sealed by an authority under its known key,
      genesis excepted, and all its transactions are accepted in turn. */
  lemma BlockIsAcceptedIff(rules: Rules, b: Block, index: u32, previousHash: Digest, acc: Accumulator)
    ensures VerifyBlock(rules, b, index, previousHash, acc).Ok? <==>
      && b.index == index && b.previousHash == previousHash && b.IsHashValid()
      && (b.index == 0
          || (b.authority in rules.authorities && b.authority in rules.keys && b.VerifySeal(rules.keys[b.authority])))
      && ApplyAll(rules.keys, acc, b.transactions).Ok?
  {
    hide HashOf, ApplyAll;
  }

  ghost predicate BlockExplains(rules: Rules, b: Block, index: u32, previousHash: Digest, e: ChainError) {
    match e
    case WrongIndex(expected, found) => expected == index && found == b.index != expected
    case BrokenLink(i) => i == b.index && b.previousHash != previousHash
    case CorruptedHash(i) => i == b.index && !b.IsHashValid()
    case UnauthorizedAuthority(name) => name == b.authority && b.index > 0 && name !in rules.authorities
    case UnknownAuthorityKey(name) => name == b.authority && b.index > 0 && name in rules.authorities && name !in rules.keys
    case UnsealedBlock(i) => i == b.index > 0 && b.authoritySignature.None?
    case InvalidSeal(i) =>
      i == b.index > 0 && b.authoritySignature.Some? && b.authority in rules.keys && !b.VerifySeal(rules.keys[b.authority])
    case _ => false
  }

  lemma BlockErrorsExplain(rules: Rules, b: Block, index: u32, previousHash: Digest)
    requires InspectBlock(rules, b, index, previousHash).Some?
    ensures BlockExplains(rules, b, index, previousHash, InspectBlock(rules, b, index, previousHash).value)
  {
    hide HashOf;
  }

  /** `add_block` succeeds exactly for a registered authority with its registered key, if the transactions are
      accepted in turn. */
  lemma OwnBlockIsAddedIff(c: Chain, txs: seq<Transaction>, authority: Text, key: SigningKey, now: u64)
    ensures AddBlock(c, txs, authority, key, now).Ok? <==>
      && authority in c.authorities && authority in c.keys && c.keys[authority] == key.Public()
      && ApplyAll(c.keys, Accumulator(c.state, c.OnChain()), txs).Ok?
    ensures authority !in c.authorities ==> AddBlock(c, txs, authority, key, now) == Err(UnauthorizedAuthority(authority))
    ensures authority in c.authorities && authority !in c.keys ==>
      AddBlock(c, txs, authority, key, now) == Err(UnknownAuthorityKey(authority))
    ensures authority in c.authorities && authority in c.keys && c.keys[authority] != key.Public() ==>
      AddBlock(c, txs, authority, key, now) == Err(AuthorityKeyMismatch(authority))
  {
    if MaySeal(c, authority, key) {
      SealedBlockVerdict(c, txs, authority, key, now);
    }
    hide VerifyBlock, SealedBlock, Install;
  }

  /** What the added block says. */
  lemma OwnBlockSays(c: Chain, txs: seq<Transaction>, authority: Text, key: SigningKey, now: u64)
    requires AddBlock(c, txs, authority, key, now).Ok?
    ensures var next := AddBlock(c, txs, authority, key, now).value;
      && next.blocks != [] && Front(next.blocks) == c.blocks
      && var b := Tip(next.blocks);
      && b.index == AsU32(|c.blocks|) && b.timestamp == now && b.transactions == txs
      && b.authority == authority && b.previousHash == LastHash(c.blocks)
  {
    hide HashOf, VerifyBlock, Reconciled, IndexOf;
  }

  // ----- A whole chain. -----

  /** A chain is adopted exactly when it is longer, starts from our genesis and validates; a longer one with another
      genesis is refused for that, whatever it holds. */
  lemma ChainIsAdoptedIff(c: Chain, blocks: seq<Block>)
    requires c.blocks != []
    ensures (TryAdopt(c, blocks).Ok? && TryAdopt(c, blocks).value.Some?) <==>
      && |blocks| > |c.blocks| && blocks[0].hash == c.blocks[0].hash
      && Replay(c.Trust(), c.initial, blocks).Ok?
    ensures |blocks| > |c.blocks| && blocks[0].hash != c.blocks[0].hash ==> TryAdopt(c, blocks) == Err(GenesisMismatch)
    ensures |blocks| <= |c.blocks| ==> TryAdopt(c, blocks) == Ok(None)
  {
    hide Replay, Install;
  }

  /** A snapshot from a foreign genesis is refused without a trace, however long it is. */
  lemma ForeignSnapshotIsRefused(c: Chain, s: ChainSnapshot)
    requires c.blocks != [] && |s.blocks| > |c.blocks| && s.blocks[0].hash != c.blocks[0].hash
    ensures ApplySnapshot(c, s) == Reply(c, Err(GenesisMismatch))
  {
    hide Replay, Install;
    FailedStepsLeaveNoTrace(c, BlockAnnouncement(s.blocks[0], map[]), s,
                            TransactionAnnouncement(s.blocks[0].hash, Idle(), VerifyingKey(0)));
  }

  function Idle(): Transaction {
    Transaction(Literal([]), [], [], 0, 0, None, None)
  }

  /** Two nodes started under different names have different genesis blocks. */
  lemma GenesisNamesTheAuthority(a: Text, b: Text)
    requires a != b
    ensures Genesis(a).hash != Genesis(b).hash
  {
    var chunks := (name: Text) => [Bytes(LittleEndian(0, 4)), Bytes(LittleEndian(0, 8))] + AllTransactionChunks([])
                                  + [DigestText(ZERO_HASH), Bytes(name)];
    assert chunks(a)[3] == Bytes(a) && chunks(b)[3] == Bytes(b);
    assert Genesis(a).hash == Blake2b(chunks(a)) && Genesis(b).hash == Blake2b(chunks(b));
  }

  // ----- An announced block. -----

  /** The answer to an announcement that does not sit at our height depends on the height and our own block alone: a
      node on another fork gets `OutOfOrder`, and so asks for the chain. One that does is appended or refused. */
  lemma AnnouncementAnswers(c: Chain, a: BlockAnnouncement)
    requires c.Height() < TWO_TO_THE_32
    ensures var r := ApplyAnnouncement(c, a).result; var i := a.block.index;
      && (r == Ok(Known) <==> i < c.Height() && c.blocks[i].hash == a.block.hash)
      && (r == Ok(OutOfOrder) <==> i > c.Height() || (i < c.Height() && c.blocks[i].hash != a.block.hash))
      && (i == c.Height() <==> r == Ok(Appended) || r.Err?)
  {
    hide TryAppend;
  }

  /** An announcement names the keys of exactly the known senders of its block. */
  lemma AnnouncementNames(c: Chain, b: Block, name: Text)
    ensures var accounts := AnnouncementOf(c, b).accounts;
      && (name in accounts <==> name in c.keys && exists t :: t in b.transactions && t.sender == name)
      && (name in accounts ==> accounts[name] == c.keys[name])
  {
  }

  // ----- A gossiped transaction. -----

  /** The offer names our genesis, and the key this node has for the sender or, unless it is an authority, may learn. */
  predicate Presentable(c: Chain, a: TransactionAnnouncement) {
    && c.blocks != [] && c.blocks[0].hash == a.genesisHash
    && if a.transaction.sender in c.keys then c.keys[a.transaction.sender] == a.senderKey
       else a.transaction.sender !in c.authorities
  }

  predicate Intact(t: Transaction) {
    t.sender != MINT_ACCOUNT && t.HasValidId() && t.PayloadLength() <= 4096
  }

  lemma GossipedResult(c: Chain, a: TransactionAnnouncement)
    requires Inv(c) && Presentable(c, a)
    ensures var t := a.transaction; var keys := c.keys[t.sender := a.senderKey];
      var refusal := Refused(keys, c.state, c.OnChain(), c.pool, t);
      Sync.ApplyTransaction(c, a).result ==
      match refusal
      case None => Ok(Accepted)
      case Some(DuplicateTransaction(_)) => Ok(if t.id in c.OnChain() then Confirmed else AlreadyKnown)
      case Some(e) => Err(e)
  {
    var t := a.transaction;
    InvMeans(c, t.sender, t.id);
    assert t.sender in c.keys ==> c.keys[t.sender := a.senderKey] == c.keys;
    hide Inv, Refused;
  }

  lemma OnChainIds(c: Chain)
    requires Inv(c)
    ensures c.OnChain() == Ids(AllTransactions(c.blocks)) && c.OnChain() !! Ids(c.pool)
  {
    IndexOfIndexes(c.blocks);
    hide Replay;
  }

  /** The answer to a gossiped transaction, exactly. A transaction on chain is `Confirmed`, so that a peer that lags
      asks for the chain; one that is only pending is merely known. */
  lemma GossipAnswers(c: Chain, a: TransactionAnnouncement)
    requires Inv(c)
    ensures var t := a.transaction; var response := ResponseTo(Sync.ApplyTransaction(c, a).result);
      var wanted := Presentable(c, a)
        && Admissible(c.keys[t.sender := a.senderKey], c.state, c.OnChain(), c.pool, t);
      var room := TotalWeight(c.pool) + t.Weight() <= 1024 * 1024;
      && (response == Confirmed <==> Presentable(c, a) && Intact(t) && t.id in Ids(AllTransactions(c.blocks)))
      && (response == AlreadyKnown <==> Presentable(c, a) && Intact(t) && t.id in Ids(c.pool))
      && (response == Accepted <==> wanted && room)
      && (response == Busy <==> wanted && !room)
  {
    var t := a.transaction;
    OnChainIds(c);
    if Presentable(c, a) {
      GossipedResult(c, a);
      AdmissionIff(c.keys[t.sender := a.senderKey], c.state, c.OnChain(), c.pool, t);
    }
    hide Inv, Refused, Admissible, AllTransactions;
  }
}
