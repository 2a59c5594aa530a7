/**
 Delivery of a sender's whole queue by gossip (`apply_transaction`, `zion-core/src/network/transactions.rs`).
 */
module Delivery {
  import opened Prelude
  import opened Crypto
  import opened Wire
  import opened Transactions
  import opened Blocks
  import opened Sequences
  import opened Ledger
  import opened Validation
  import opened Pool
  import opened ChainModel
  import opened Sync

  /** Transactions arrive as gossip one after the other; the answers do not matter to the sender's order. */
  function DeliverAll(c: Chain, genesis: Digest, key: VerifyingKey, txs: seq<Transaction>): Chain
    decreases txs
  {
    if txs == [] then c
    else DeliverAll(Sync.ApplyTransaction(c, TransactionAnnouncement(genesis, txs[0], key)).chain, genesis, key, txs[1..])
  }

  /** What an admitted transaction changes when it arrives as gossip. */
  lemma AdmittedGossip(c: Chain, t: Transaction, key: VerifyingKey)
    requires c.blocks != [] && t.sender != MINT_ACCOUNT
    requires if t.sender in c.keys then c.keys[t.sender] == key else t.sender !in c.authorities
    requires Authentic(c.keys[t.sender := key], t)
    requires t.nonce == ExpectedNonce(c.state, c.pool, t.sender)
    requires t.amount <= Available(c.state, c.pool, t.sender)
    requires t.id !in Ids(c.pool) && t.id !in c.OnChain()
    requires TotalWeight(c.pool) + t.Weight() <= MAX_MEMPOOL_BYTES
    ensures Sync.ApplyTransaction(c, TransactionAnnouncement(c.blocks[0].hash, t, key)).chain
         == c.(keys := c.keys[t.sender := key], pool := c.pool + [t])
  {
    var taught := if t.sender in c.keys then c else c.(keys := c.keys[t.sender := key]);
    assert taught.keys == c.keys[t.sender := key];
    NextIsAdmitted(taught, t);
  }

  /** One delivery in sync with room keeps everything that the next one needs. */
  lemma InSyncStep(source: Chain, target: Chain, s: Text, k: nat)
    requires Inv(source) && Inv(target) && source.initial == target.initial
    requires source.blocks == target.blocks && Agree(source.keys, target.keys)
    requires k < |Of(source.pool, s)| && Of(target.pool, s) == Of(source.pool, s)[..k]
    requires s !in target.keys ==> s !in target.authorities
    requires TotalWeight(target.pool) + Of(source.pool, s)[k].Weight() <= MAX_MEMPOOL_BYTES
    ensures source.blocks != [] && s in source.keys
    ensures var t := Of(source.pool, s)[k];
      var next := target.(keys := target.keys[s := source.keys[s]], pool := target.pool + [t]);
      && Sync.ApplyTransaction(target, TransactionAnnouncement(source.blocks[0].hash, t, source.keys[s])).chain == next
      && Inv(next) && Of(next.pool, s) == Of(source.pool, s)[..k + 1] && Agree(source.keys, next.keys)
  {
    hide Inv, Sync.ApplyTransaction, Of, Available, ExpectedNonce, Authentic, Agree, TotalWeight;
    var t := Of(source.pool, s)[k];
    NextInLine(source, target, s, k);
    PendingIsAuthentic(source, target.keys, t);
    AgreeingKeys(source, target, s);
    NextIsNew(target, t);
    AdmittedGossip(target, t, source.keys[s]);
    GossipKeepsInv(target, TransactionAnnouncement(source.blocks[0].hash, t, source.keys[s]));
    OfAppend(target.pool, t, s);
    assert Of(source.pool, s)[..k + 1] == Of(source.pool, s)[..k] + [t];
  }

  lemma PendingIsAuthentic(source: Chain, keys: Keys, t: Transaction)
    requires Inv(source) && t in source.pool
    ensures source.blocks != [] && t.HasValidId() && t.sender != MINT_ACCOUNT && t.sender in source.keys
    ensures Authentic(keys[t.sender := source.keys[t.sender]], t)
  {
    assert Authentic(source.keys, t);
  }

  lemma AgreeingKeys(source: Chain, target: Chain, s: Text)
    requires Agree(source.keys, target.keys) && s in source.keys
    ensures s in target.keys ==> target.keys[s] == source.keys[s]
    ensures Agree(source.keys, target.keys[s := source.keys[s]])
  {
  }

  lemma DeliverFirst(c: Chain, genesis: Digest, key: VerifyingKey, txs: seq<Transaction>)
    ensures txs == [] ==> DeliverAll(c, genesis, key, txs) == c
    ensures txs != [] ==>
      DeliverAll(c, genesis, key, txs)
      == DeliverAll(Sync.ApplyTransaction(c, TransactionAnnouncement(genesis, txs[0], key)).chain, genesis, key, txs[1..])
  {
  }

  /** Delivering what a sender has pending, in nonce order and with room, ends with the same queue at both nodes. */
  lemma {:induction false} InSyncQueueDelivery(source: Chain, target: Chain, s: Text, k: nat)
    requires Inv(source) && Inv(target) && source.initial == target.initial
    requires source.blocks == target.blocks && Agree(source.keys, target.keys)
    requires k < |Of(source.pool, s)| && Of(target.pool, s) == Of(source.pool, s)[..k]
    requires s !in target.keys ==> s !in target.authorities
    requires TotalWeight(target.pool) + TotalWeight(Of(source.pool, s)[k..]) <= MAX_MEMPOOL_BYTES
    ensures s in source.keys
    ensures var end := DeliverAll(target, source.blocks[0].hash, source.keys[s], Of(source.pool, s)[k..]);
      && Inv(end) && Of(end.pool, s) == Of(source.pool, s)
      && end.pool == target.pool + Of(source.pool, s)[k..]
    decreases |Of(source.pool, s)| - k
  {
    hide Inv, Agree, Sync.ApplyTransaction, Of, DeliverAll;
    var view := Of(source.pool, s);
    var t, rest := view[k], view[k + 1..];
    assert view[k..][0] == t && view[k..][1..] == rest;
    WeightOfRest(view, k);
    InSyncStep(source, target, s, k);
    var genesis, key := source.blocks[0].hash, source.keys[s];
    DeliverFirst(target, genesis, key, view[k..]);
    var next := Sync.ApplyTransaction(target, TransactionAnnouncement(genesis, t, key)).chain;
    TotalWeightAppend(target.pool, t);
    assert target.pool + [t] + rest == target.pool + view[k..];
    if k + 1 < |view| {
      InSyncQueueDelivery(source, next, s, k + 1);
    } else {
      DeliverFirst(next, genesis, key, []);
      assert rest == [] && view[..k + 1] == view;
    }
  }

  lemma WeightOfRest(view: seq<Transaction>, k: nat)
    requires k < |view|
    ensures TotalWeight(view[k..]) == view[k].Weight() + TotalWeight(view[k + 1..])
  {
    assert view[k..][1..] == view[k + 1..];
  }
}
