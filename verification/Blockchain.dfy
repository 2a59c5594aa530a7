/**
 `blockrock-core/src/blockchain.rs` in its own form: a mutable chain object with cached balances, nonces and
 transaction index, owning a mempool. Every method is tied to the function of `ChainModel` it implements.
 */
module BlockchainClass {
  import opened Prelude
  import opened Crypto
  import opened Transactions
  import opened Blocks
  import opened Sequences
  import opened Ledger
  import opened Validation
  import opened Pool
  import opened ChainModel
  import opened MempoolClass

  /** The scratch copies of balances, nonces and seen ids that validation mutates. */
  class WorkingState {
    var balances: map<Text, u64>
    var nonces: map<Text, nat>
    var seen: set<Digest>

    constructor (balances: map<Text, u64>, nonces: map<Text, nat>, seen: set<Digest>)
      ensures Acc() == Accumulator(LedgerState(balances, nonces), seen)
    {
      this.balances, this.nonces, this.seen := balances, nonces, seen;
    }

    ghost function Acc(): Accumulator
      reads this
    {
      Accumulator(LedgerState(balances, nonces), seen)
    }

    /** `apply_transaction`. A failure can leave this copy half updated; its owner then drops it. */
    method ApplyTransaction(publicKeys: Keys, t: Transaction) returns (failure: Option<ChainError>)
      modifies this
      ensures match Ledger.ApplyTransaction(publicKeys, old(Acc()), t)
              case Ok(next) => failure == None && Acc() == next
              case Err(e) => failure == Some(e) && Acc() == AfterFailure(old(Acc()), t, e)
    {
      hide Wire.SigningPayload, Move;
      if !t.HasValidId() {
        return Some(TamperedTransaction(t.id));
      }
      if t.id in seen {
        return Some(DuplicateTransaction(t.id));
      }
      seen := seen + {t.id};
      if !t.PayloadWithinLimit() {
        return Some(PayloadTooLarge(t.id, t.PayloadLength(), MAX_PAYLOAD_BYTES));
      }
      if t.sender != MINT_ACCOUNT {
        if t.sender !in publicKeys {
          return Some(UnknownSender(t.sender));
        }
        if !t.Verify(publicKeys[t.sender]) {
          return Some(InvalidSignature(t.id));
        }
      }
      failure := Transfer(t);
    }

    /** The part of `apply_transaction` that moves nonce and balances. */
    method Transfer(t: Transaction) returns (failure: Option<ChainError>)
      modifies this`balances, this`nonces
      ensures match Move(old(Acc()).state, t)
              case Ok(next) => failure == None && Acc().state == next
              case Err(e) => failure == Some(e)
      ensures failure.Some? ==>
        && !failure.value.TamperedTransaction? && !failure.value.DuplicateTransaction?
        && Acc().state == AfterFailure(old(Acc()), t, failure.value).state
    {
      if t.sender != MINT_ACCOUNT {
        var expected := if t.sender in nonces then nonces[t.sender] else 0;
        if t.nonce != expected {
          return Some(InvalidNonce(t.sender, expected, t.nonce));
        }
        var balance: u64 := if t.sender in balances then balances[t.sender] else 0;
        if balance < t.amount {
          return Some(InsufficientFunds(t.sender, balance, t.amount));
        }
        balances := balances[t.sender := balance - t.amount];
        nonces := nonces[t.sender := expected + 1];
      }
      var credited := (if t.receiver in balances then balances[t.receiver] else 0) + t.amount;
      if credited >= TWO_TO_THE_64 {
        return Some(BalanceOverflow(t.receiver));
      }
      balances := balances[t.receiver := credited];
      return None;
    }

    /** `verify_block`. */
    method VerifyBlock(authorities: set<Text>, publicKeys: Keys, b: Block, expectedIndex: u32, previousHash: Digest)
      returns (failure: Option<ChainError>)
      modifies this
      ensures match Validation.VerifyBlock(Rules(authorities, publicKeys), b, expectedIndex, previousHash, old(Acc()))
              case Ok(next) => failure == None && Acc() == next
              case Err(e) => failure == Some(e)
      ensures failure.Some? ==>
        Acc() == if InspectBlock(Rules(authorities, publicKeys), b, expectedIndex, previousHash).Some?
                 then old(Acc()) else Leftover(publicKeys, old(Acc()), b.transactions)
    {
      hide HashOf, Ledger.ApplyTransaction, AfterFailure;
      if b.index != expectedIndex {
        return Some(WrongIndex(expectedIndex, b.index));
      }
      if b.previousHash != previousHash {
        return Some(BrokenLink(b.index));
      }
      var hash := CalculateHash(b);
      if hash != b.hash {
        return Some(CorruptedHash(b.index));
      }
      if b.index > 0 {
        if b.authority !in authorities {
          return Some(UnauthorizedAuthority(b.authority));
        }
        if b.authority !in publicKeys {
          return Some(UnknownAuthorityKey(b.authority));
        }
        if b.authoritySignature.None? {
          return Some(UnsealedBlock(b.index));
        }
        if !b.VerifySeal(publicKeys[b.authority]) {
          return Some(InvalidSeal(b.index));
        }
      }
      failure := ApplyTransactions(publicKeys, b.transactions);
    }

    /** The loop over a block's transactions; the first failure stops it. */
    method ApplyTransactions(publicKeys: Keys, txs: seq<Transaction>) returns (failure: Option<ChainError>)
      modifies this
      ensures match ApplyAll(publicKeys, old(Acc()), txs)
              case Ok(next) => failure == None && Acc() == next
              case Err(e) => failure == Some(e) && Acc() == Leftover(publicKeys, old(Acc()), txs)
    {
      hide Ledger.ApplyTransaction, AfterFailure;
      assert txs[0..] == txs;
      for i := 0 to |txs|
        invariant ApplyAll(publicKeys, Acc(), txs[i..]) == ApplyAll(publicKeys, old(Acc()), txs)
        invariant Leftover(publicKeys, Acc(), txs[i..]) == Leftover(publicKeys, old(Acc()), txs)
      {
        assert txs[i..][0] == txs[i] && txs[i..][1..] == txs[i + 1..];
        failure := ApplyTransaction(publicKeys, txs[i]);
        if failure.Some? {
          return;
        }
      }
      failure := None;
    }
  }

  class Blockchain {
    var blocks: seq<Block>
    const authority: Text
    var authorities: set<Text>
    var balances: map<Text, u64>
    const initialBalances: map<Text, u64>
    var nonces: map<Text, nat>
    var publicKeys: Keys
    var transactionIndex: Index
    var mempool: Mempool

    ghost function View(): Chain
      reads this, mempool
    {
      Chain(blocks, authority, authorities, publicKeys, initialBalances, LedgerState(balances, nonces),
            transactionIndex, mempool.log)
    }

    /** The object is in one piece: the pool's counters match its contents and index entries point home. */
    ghost predicate Wired()
      reads this, mempool
    {
      mempool.Valid() && Indexes(transactionIndex, blocks)
    }

    ghost predicate Valid()
      reads this, mempool
    {
      mempool.Valid() && Inv(View())
    }

    lemma ValidIsWired()
      requires Valid()
      ensures Wired() && DistinctKeys(mempool.log)
    {
      IndexOfIndexes(blocks);
      PayableHasDistinctKeys(publicKeys, Accumulator(LedgerState(balances, nonces), transactionIndex.Keys), mempool.log);
    }

    constructor (authority: Text, initialAuthorities: Keys)
      ensures Valid() && fresh(mempool)
      ensures View() == NewChain(authority, initialAuthorities)
    {
      this.authority := authority;
      blocks := [Genesis(authority)];
      authorities := {authority} + initialAuthorities.Keys;
      publicKeys := initialAuthorities;
      initialBalances := InitialBalances();
      balances := InitialBalances();
      nonces := map[];
      transactionIndex := map[];
      mempool := new Mempool();
      new;
      NewChainIsSound(authority, initialAuthorities);
    }

    /** `register_authority` overwrites unconditionally. The object stays valid if and only if the name keeps its
        key or is not involved in anything. */
    method RegisterAuthority(name: Text, key: VerifyingKey)
      requires Valid()
      modifies this`authorities, this`publicKeys
      ensures View() == old(View()).(authorities := old(authorities) + {name}, keys := old(publicKeys)[name := key])
      ensures Valid() <==> (name in old(publicKeys) && old(publicKeys)[name] == key) || Uninvolved(old(View()), name)
      ensures name !in old(publicKeys) ==> Valid()
    {
      hide Inv, Uninvolved;
      RebindingKeepsInvIff(View(), authorities + {name}, name, key);
      NewNameIsUninvolved(View(), name);
      authorities := authorities + {name};
      publicKeys := publicKeys[name := key];
    }

    /** `add_public_key` overwrites unconditionally as well. */
    method AddPublicKey(name: Text, key: VerifyingKey)
      requires Valid()
      modifies this`publicKeys
      ensures View() == old(View()).(keys := old(publicKeys)[name := key])
      ensures Valid() <==> (name in old(publicKeys) && old(publicKeys)[name] == key) || Uninvolved(old(View()), name)
      ensures name !in old(publicKeys) ==> Valid()
    {
      hide Inv, Uninvolved;
      RebindingKeepsInvIff(View(), authorities, name, key);
      NewNameIsUninvolved(View(), name);
      assert View().(authorities := authorities) == View();
      publicKeys := publicKeys[name := key];
    }

    method GetTransaction(id: Digest) returns (found: Option<Transaction>)
      requires Wired()
      ensures found == View().Get(id)
      ensures found.Some? <==> id in transactionIndex
    {
      if id !in transactionIndex {
        return None;
      }
      assert PointsAt(transactionIndex[id], blocks, id);
      var (height, position) := transactionIndex[id];
      found := Some(blocks[height].transactions[position]);
    }

    method QueueTransaction(t: Transaction) returns (r: Result<Digest, ChainError>)
      requires Wired()
      modifies mempool
      ensures Wired() && (old(Valid()) ==> Valid())
      ensures match ChainModel.QueueTransaction(old(View()), t)
              case Ok(next) => r == Ok(t.id) && View() == next
              case Err(e) => r == Err(e) && View() == old(View())
    {
      ghost var before := View();
      if t.sender == MINT_ACCOUNT {
        return Err(ReservedSender(t.sender));
      }
      var found := GetTransaction(t.id);
      r := mempool.Queue(t, publicKeys, balances, nonces, found.Some?);
      hide Refusal, Inv;
      if r.Ok? && old(Valid()) {
        QueueKeepsInv(before, t);
      }
    }

    /** `reconcile_mempool`. */
    method ReconcileMempool()
      requires Wired() && DistinctKeys(mempool.log)
      modifies mempool
      ensures Wired()
      ensures View() == old(View()).(pool := Reconciled(publicKeys, LedgerState(balances, nonces),
                                                        transactionIndex.Keys, old(mempool.log)))
    {
      hide Refused, Drained;
      ghost var st, seen := LedgerState(balances, nonces), transactionIndex.Keys;
      ghost var before := View();
      var pending := mempool.Drain();
      assert pending[0..] == pending;
      for i := 0 to |pending|
        invariant Wired() && View() == before.(pool := mempool.log)
        invariant Requeue(publicKeys, st, seen, mempool.log, pending[i..])
               == Requeue(publicKeys, st, seen, [], pending)
      {
        assert pending[i..][0] == pending[i] && pending[i..][1..] == pending[i + 1..];
        var _ := QueueTransaction(pending[i]);
      }
    }

    /** The id table of one block, entered transaction by transaction. */
    method IndexTransactions(height: nat, txs: seq<Transaction>)
      modifies this`transactionIndex
      ensures transactionIndex == IndexBlock(old(transactionIndex), height, 0, txs)
    {
      assert txs[0..] == txs;
      for position := 0 to |txs|
        invariant IndexBlock(transactionIndex, height, position, txs[position..])
               == IndexBlock(old(transactionIndex), height, 0, txs)
      {
        assert txs[position..][0] == txs[position] && txs[position..][1..] == txs[position + 1..];
        transactionIndex := transactionIndex[txs[position].id := (height, position)];
      }
    }

    method RebuildTransactionIndex()
      modifies this`transactionIndex
      ensures transactionIndex == IndexOf(blocks)
    {
      transactionIndex := map[];
      for height := 0 to |blocks|
        invariant transactionIndex == IndexOf(blocks[..height])
      {
        IndexTransactions(height, blocks[height].transactions);
        assert Front(blocks[..height + 1]) == blocks[..height] && Tip(blocks[..height + 1]) == blocks[height];
      }
      assert blocks[..|blocks|] == blocks;
    }

    /** `commit_block`. */
    method CommitBlock(b: Block, state: WorkingState)
      requires Wired() && DistinctKeys(mempool.log) && transactionIndex == IndexOf(blocks)
      requires state != (this as object) && state != (mempool as object)
      modifies this`blocks, this`balances, this`nonces, this`transactionIndex, mempool
      ensures Wired()
      ensures View() == Install(old(View()), old(blocks) + [b], old(state.Acc()).state)
    {
      var height := |blocks|;
      IndexAppend(blocks, b);
      blocks := blocks + [b];
      IndexTransactions(height, b.transactions);
      balances := state.balances;
      nonces := state.nonces;
      IndexOfIndexes(blocks);
      ReconcileMempool();
    }

    method TryAppendBlock(b: Block) returns (failure: Option<ChainError>)
      requires Valid()
      modifies this`blocks, this`balances, this`nonces, this`transactionIndex, mempool
      ensures Valid()
      ensures match TryAppend(old(View()), b)
              case Ok(next) => failure == None && View() == next
              case Err(e) => failure == Some(e) && View() == old(View())
    {
      hide Inv, Install, Validation.VerifyBlock;
      ghost var before := View();
      var state := new WorkingState(balances, nonces, transactionIndex.Keys);
      failure := state.VerifyBlock(authorities, publicKeys, b, AsU32(|blocks|), LastHash(blocks));
      if failure.None? {
        AppendKeepsInv(before, b);
        ValidIsWired();
        InvIndex(before);
        CommitBlock(b, state);
      }
    }

    /** `replay`: validates `candidate` from block 0 on a fresh state. */
    method Replay(candidate: seq<Block>) returns (failure: Option<ChainError>, state: WorkingState)
      ensures fresh(state)
      ensures match Validation.Replay(Rules(authorities, publicKeys), initialBalances, candidate)
              case Ok(end) => failure == None && state.Acc() == end
              case Err(e) => failure == Some(e)
    {
      hide Validation.VerifyBlock;
      ghost var rules := Rules(authorities, publicKeys);
      state := new WorkingState(initialBalances, map[], {});
      var previousHash := ZERO_HASH;
      for i := 0 to |candidate|
        invariant fresh(state)
        invariant previousHash == LastHash(candidate[..i])
        invariant Validation.Replay(rules, initialBalances, candidate[..i]) == Ok(state.Acc())
      {
        assert candidate[..i + 1] == candidate[..i] + [candidate[i]];
        ReplayAppend(rules, initialBalances, candidate[..i], candidate[i]);
        failure := state.VerifyBlock(authorities, publicKeys, candidate[i], AsU32(i), previousHash);
        if failure.Some? {
          FirstErrorWins(rules, initialBalances, candidate, i + 1);
          return;
        }
        previousHash := candidate[i].hash;
      }
      assert candidate[..|candidate|] == candidate;
      failure := None;
    }

    /** `validate`: in a valid object the stored chain always passes. */
    method Validate() returns (failure: Option<ChainError>)
      requires Valid()
      ensures failure == None
    {
      var state;
      failure, state := Replay(blocks);
    }

    method TryAdoptChain(candidate: seq<Block>) returns (r: Result<bool, ChainError>)
      requires Valid()
      modifies this`blocks, this`balances, this`nonces, this`transactionIndex, mempool
      ensures Valid()
      ensures match TryAdopt(old(View()), candidate)
              case Ok(Some(next)) => r == Ok(true) && View() == next
              case Ok(None) => r == Ok(false) && View() == old(View())
              case Err(e) => r == Err(e) && View() == old(View())
    {
      hide Inv, Validation.Replay, Reconciled;
      ghost var before := View();
      InvTrustsItsBlocks(before);
      if |candidate| <= |blocks| {
        return Ok(false);
      }
      if blocks[0].hash != candidate[0].hash {
        return Err(GenesisMismatch);
      }
      var failure, state := Replay(candidate);
      if failure.Some? {
        return Err(failure.value);
      }
      AdoptKeepsInv(before, candidate);
      ValidIsWired();
      blocks := candidate;
      balances := state.balances;
      nonces := state.nonces;
      RebuildTransactionIndex();
      IndexOfIndexes(blocks);
      ReconcileMempool();
      return Ok(true);
    }

    method AddBlock(txs: seq<Transaction>, sealer: Text, key: SigningKey, now: u64) returns (r: Result<u32, ChainError>)
      requires Valid()
      modifies this`blocks, this`balances, this`nonces, this`transactionIndex, mempool
      ensures Valid()
      ensures match ChainModel.AddBlock(old(View()), txs, sealer, key, now)
              case Ok(next) => r == Ok(AsU32(|old(blocks)|)) && View() == next
              case Err(e) => r == Err(e) && View() == old(View())
    {
      hide Inv, TryAppend;
      if sealer !in authorities {
        return Err(UnauthorizedAuthority(sealer));
      }
      if sealer !in publicKeys {
        return Err(UnknownAuthorityKey(sealer));
      }
      if publicKeys[sealer] != key.Public() {
        return Err(AuthorityKeyMismatch(sealer));
      }
      var index := AsU32(|blocks|);
      var b := SealedBlock(index, txs, LastHash(blocks), sealer, key, now);
      var failure := TryAppendBlock(b);
      if failure.Some? {
        return Err(failure.value);
      }
      return Ok(index);
    }

    method SealMempool(sealer: Text, key: SigningKey, now: u64) returns (r: Result<Option<u32>, ChainError>)
      requires Valid()
      modifies this`blocks, this`balances, this`nonces, this`transactionIndex, this`mempool, mempool
      ensures Valid() && (mempool == old(mempool) || fresh(mempool))
      ensures match ChainModel.SealMempool(old(View()), sealer, key, now)
              case Ok(Some(next)) => r == Ok(Some(AsU32(|old(blocks)|))) && View() == next
              case Ok(None) => r == Ok(None) && View() == old(View())
              case Err(e) => r == Err(e) && View() == old(View())
    {
      hide Inv, ChainModel.AddBlock, Drained;
      ghost var before := View();
      var pendingBefore := new Mempool.Clone(mempool);
      ValidIsWired();
      var transactions := mempool.Drain();
      DrainedMultiset(before.pool);
      EmptyPoolKeepsInv(before);
      assert View() == before.(pool := []);
      if |transactions| == 0 {
        assert |multiset(before.pool)| == |before.pool|;
        return Ok(None);
      }
      var added := AddBlock(transactions, sealer, key, now);
      if added.Err? {
        mempool := pendingBefore;
        return Err(added.error);
      }
      return Ok(Some(added.value));
    }
  }
}
