/**
 When a sealing key is learned from the very block it seals: what `merge_block_accounts` of
 `zion-core/src/network/sync.rs` does for an authority that is also a sender.
 */
module SealingKeys {
  import opened Prelude
  import opened Crypto
  import opened Wire
  import opened Transactions
  import opened Blocks
  import opened Sequences
  import opened Ledger
  import opened Validation
  import opened Pool
  import opened ChainModel
  import opened Sync

  /** A transaction of `name` that moves nothing. */
  function Idle(name: Text, nonce: u64, key: SigningKey): Transaction {
    NewTransaction(Content(name, name, 0, nonce, None), key)
  }

  /** A block under `name`, sealed with `key`, that holds one such transaction, announced with the key. */
  function SelfSealed(c: Chain, name: Text, nonce: u64, key: SigningKey, now: u64): BlockAnnouncement {
    BlockAnnouncement(SealedBlock(AsU32(c.Height()), [Idle(name, nonce, key)], LastHash(c.blocks), name, key, now),
                      map[name := key.Public()])
  }

  /** A name without a key has never sent anything. */
  lemma UnknownNameIsUnused(c: Chain, name: Text)
    requires Inv(c) && name !in c.keys && name != MINT_ACCOUNT
    ensures c.state.NextNonce(name) == 0
  {
    hide Sound;
    ReplayFlattens(c.Trust(), c.initial, c.blocks);
    ValidChainAccounting(c.Trust(), c.initial, c.blocks, name);
    var txs := AllTransactions(c.blocks);
    AcceptedAreAuthentic(c.keys, Opening(c.initial), txs);
    OfMembers(txs, name);
    assert forall t :: t !in Of(txs, name);
  }

  function IdleId(name: Text, nonce: u64): Digest {
    ComputeId(Content(name, name, 0, nonce, None))
  }

  /** The ids of the first `n` such transactions. */
  function IdleIds(name: Text, n: nat): set<Digest>
    requires n <= TWO_TO_THE_64
  {
    if n == 0 then {} else IdleIds(name, n - 1) + {IdleId(name, n - 1)}
  }

  lemma {:induction false} IdleIdsHold(name: Text, n: nat, id: Digest)
    requires n <= TWO_TO_THE_64 && id in IdleIds(name, n)
    ensures exists k: nat :: k < n && id == IdleId(name, k)
  {
    hide IdleId;
    if id != IdleId(name, n - 1) {
      IdleIdsHold(name, n - 1, id);
    }
  }

  /** They are all different. */
  lemma {:induction false} IdleIdsDiffer(name: Text, n: nat)
    requires n <= TWO_TO_THE_64
    ensures |IdleIds(name, n)| == n
  {
    if n > 0 {
      IdleIdsDiffer(name, n - 1);
      if IdleId(name, n - 1) in IdleIds(name, n - 1) {
        IdleIdsHold(name, n - 1, IdleId(name, n - 1));
        var k: nat :| k < n - 1 && IdleId(name, n - 1) == IdleId(name, k);
        SigningPayloadInjective(Content(name, name, 0, n - 1, None), Content(name, name, 0, k, None));
      }
    }
  }

  lemma {:induction false} SubsetIsSmaller<T>(a: set<T>, b: set<T>)
    requires a <= b
    ensures |a| <= |b|
  {
    if a != {} {
      var x :| x in a;
      SubsetIsSmaller(a - {x}, b - {x});
    }
  }

  lemma Outnumbers<T>(a: set<T>, b: set<T>) returns (x: T)
    requires |a| > |b|
    ensures x in a && x !in b
  {
    if a <= b {
      SubsetIsSmaller(a, b);
      assert false;
    }
    x :| x in a && x !in b;
  }

  /** A nonce whose transaction is in block order: the next one, which for the minting account, whose nonces nobody
      counts, is any that gives a new id. */
  lemma FreshNonce(c: Chain, name: Text) returns (nonce: u64)
    requires Inv(c) && name !in c.keys
    requires name == MINT_ACCOUNT ==> |c.OnChain()| < TWO_TO_THE_64
    ensures name != MINT_ACCOUNT ==> nonce == c.state.NextNonce(name)
    ensures IdleId(name, nonce) !in c.OnChain()
  {
    if name != MINT_ACCOUNT {
      UnknownNameIsUnused(c, name);
      nonce := 0;
      UnspentNonceIsNew(c.Trust(), c.initial, c.blocks, Idle(name, 0, SigningKey(0)));
      ValidChainAccounting(c.Trust(), c.initial, c.blocks, name);
    } else {
      hide Inv, IdleId, IdleIds;
      var n := |c.OnChain()| + 1;
      IdleIdsDiffer(name, n);
      var id := Outnumbers(IdleIds(name, n), c.OnChain());
      IdleIdsHold(name, n, id);
      var k: nat :| k < n && id == IdleId(name, k);
      nonce := k;
    }
  }

  /** Such a transaction is acceptable on any chain that has just learned the key. */
  lemma NothingMoved(c: Chain, name: Text, nonce: u64, key: SigningKey)
    requires name != MINT_ACCOUNT ==> nonce == c.state.NextNonce(name)
    requires IdleId(name, nonce) !in c.OnChain()
    ensures ApplyAll(c.keys[name := key.Public()], Accumulator(c.state, c.OnChain()), [Idle(name, nonce, key)]).Ok?
  {
    hide SigningPayload;
    var t := Idle(name, nonce, key);
    var keys, acc := c.keys[name := key.Public()], Accumulator(c.state, c.OnChain());
    assert Inspect(keys, acc.seen, t) == None;
    assert Move(acc.state, t).Ok?;
    assert Ledger.ApplyTransaction(keys, acc, t).Ok?;
    assert [t][1..] == [];
  }

  lemma SelfSealedTeaches(c: Chain, name: Text, nonce: u64, key: SigningKey, now: u64)
    requires name !in c.keys
    ensures var a := SelfSealed(c, name, nonce, key, now);
      MergeBlockAccounts(c.keys, a.block, a.accounts) == c.keys[name := key.Public()]
  {
    var a := SelfSealed(c, name, nonce, key, now);
    hide HashOf;
    assert a.block.transactions[0] in a.block.transactions;
    assert Senders(a.block.transactions) == {name};
  }

  lemma SelfSealedIsAppended(c: Chain, name: Text, nonce: u64, key: SigningKey, now: u64)
    requires Inv(c) && c.Height() < TWO_TO_THE_32 && name in c.authorities && name !in c.keys
    requires name != MINT_ACCOUNT ==> nonce == c.state.NextNonce(name)
    requires IdleId(name, nonce) !in c.OnChain()
    ensures LearnsSealer(c, SelfSealed(c, name, nonce, key, now), name, key.Public())
  {
    var a := SelfSealed(c, name, nonce, key, now);
    SelfSealedTeaches(c, name, nonce, key, now);
    var taught := c.(keys := c.keys[name := key.Public()]);
    NothingMoved(c, name, nonce, key);
    hide Inv, MergeBlockAccounts;
    SealedBlockVerdict(taught, a.block.transactions, name, key, now);
    hide VerifyBlock, Install, NewTransaction, HashOf;
  }

  /** The node had no key for `name`, appends a block announced under that name, and binds the name to `key`. */
  ghost predicate LearnsSealer(c: Chain, a: BlockAnnouncement, name: Text, key: VerifyingKey) {
    var r := ApplyAnnouncement(c, a);
    && name !in c.keys && a.block.authority == name
    && r.result == Ok(Appended) && name in r.chain.keys && r.chain.keys[name] == key
  }

  /** A sealing key can be learned from the very block it seals, and any key can, if and only if the node authorises
      the name and has no key for it. The minting account needs a nonce that gives a new id, as nobody counts its
      nonces. */
  lemma SealingKeyIsLearnedIff(c: Chain, name: Text, key: VerifyingKey)
    requires Inv(c) && c.Height() < TWO_TO_THE_32
    requires name == MINT_ACCOUNT ==> |c.OnChain()| < TWO_TO_THE_64
    ensures (exists a: BlockAnnouncement :: LearnsSealer(c, a, name, key)) <==> name in c.authorities && name !in c.keys
  {
    if name in c.authorities && name !in c.keys {
      var nonce := FreshNonce(c, name);
      SelfSealedIsAppended(c, name, nonce, SigningKey(key.seed), 0);
      assert LearnsSealer(c, SelfSealed(c, name, nonce, SigningKey(key.seed), 0), name, key);
    }
    forall a: BlockAnnouncement | LearnsSealer(c, a, name, key)
      ensures name in c.authorities
    {
      AppendedBlockIndex(c, a);
      AppendedUnderKnownSeal(c, a);
    }
  }

  lemma AppendedBlockIndex(c: Chain, a: BlockAnnouncement)
    requires ApplyAnnouncement(c, a).result == Ok(Appended) && c.blocks != [] && c.Height() < TWO_TO_THE_32
    ensures a.block.index > 0
  {
  }

  /** The smallest case: a fresh node that authorises a name, whatever it is, without a key for it. */
  lemma SealingKeyWitness(authority: Text, key: SigningKey, now: u64)
    ensures var c := NewChain(authority, map[]);
      LearnsSealer(c, SelfSealed(c, authority, 0, key, now), authority, key.Public())
  {
    NewChainIsSound(authority, map[]);
    SelfSealedIsAppended(NewChain(authority, map[]), authority, 0, key, now);
  }
}
