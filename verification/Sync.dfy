/**
 The rules for applying what peers send (`zion-core/src/network/sync.rs` and `apply_transaction` of
 `zion-core/src/network/transactions.rs`) as functions on chains, what a rejected message leaves behind,
 and what honest nodes can count on.
 */
module Sync {
  import opened Prelude
  import opened Crypto
  import opened Wire
  import opened Transactions
  import opened Blocks
  import opened Sequences
  import opened Ledger
  import opened Validation
  import opened Pool
  import opened ChainModel

  datatype BlockAnnouncement = BlockAnnouncement(block: Block, accounts: Keys)

  datatype ChainSnapshot = ChainSnapshot(blocks: seq<Block>, accounts: Keys, authorities: set<Text>)

  datatype TransactionAnnouncement =
    TransactionAnnouncement(genesisHash: Digest, transaction: Transaction, senderKey: VerifyingKey)

  datatype BlockOutcome = Appended | Known | OutOfOrder

  datatype Response = Accepted | AlreadyKnown | Confirmed | Busy | Rejected

  /** The chain after a step, and what the step answered. */
  datatype Reply<T> = Reply(chain: Chain, result: Result<T, ChainError>)

  function SnapshotOf(c: Chain): ChainSnapshot {
    ChainSnapshot(c.blocks, c.keys, c.authorities)
  }

  function Senders(txs: seq<Transaction>): set<Text> {
    set t | t in txs :: t.sender
  }

  lemma SendersOfNone(txs: seq<Transaction>)
    ensures Senders(txs[..0]) == {}
  {
  }

  lemma SendersAppend(txs: seq<Transaction>, i: nat)
    requires i < |txs|
    ensures Senders(txs[..i + 1]) == Senders(txs[..i]) + {txs[i].sender}
  {
    assert txs[..i + 1] == txs[..i] + [txs[i]];
    assert forall t :: t in txs[..i + 1] <==> t in txs[..i] || t == txs[i];
  }

  /** The bindings of the given names. */
  function Restrict(keys: Keys, names: set<Text>): Keys {
    map name | name in names && name in keys :: keys[name]
  }

  lemma RestrictStep(keys: Keys, names: set<Text>, name: Text)
    ensures Restrict(keys, names + {name})
         == if name in keys then Restrict(keys, names)[name := keys[name]] else Restrict(keys, names)
    ensures Restrict(keys, {}) == map[]
    ensures Restrict(keys, keys.Keys) == keys
  {
  }

  /** The block with the keys its senders have at this node. */
  function AnnouncementOf(c: Chain, b: Block): BlockAnnouncement {
    BlockAnnouncement(b, Restrict(c.keys, Senders(b.transactions)))
  }

  // ----- Merging what a message teaches; existing bindings always win. -----

  function MergeAccounts(keys: Keys, accounts: Keys): Keys {
    accounts + keys
  }

  function MergeBlockAccounts(keys: Keys, b: Block, accounts: Keys): Keys {
    MergeAccounts(keys, Restrict(accounts, Senders(b.transactions)))
  }

  /** Learning one more name: nothing happens if it is already bound. */
  lemma MergeStep(keys: Keys, accounts: Keys, names: set<Text>, name: Text)
    ensures var merged := MergeAccounts(keys, Restrict(accounts, names));
      MergeAccounts(keys, Restrict(accounts, names + {name}))
      == if name !in merged && name in accounts then merged[name := accounts[name]] else merged
    ensures MergeAccounts(keys, Restrict(accounts, {})) == keys
  {
  }

  /** An authority is learned only if its key is already known. */
  function MergeAuthorities(authorities: set<Text>, keys: Keys, offered: set<Text>): set<Text> {
    authorities + set name | name in offered && name in keys
  }

  lemma AuthorityStep(authorities: set<Text>, keys: Keys, offered: set<Text>, name: Text)
    ensures var merged := MergeAuthorities(authorities, keys, offered);
      MergeAuthorities(authorities, keys, offered + {name})
      == if name !in merged && name in keys then merged + {name} else merged
    ensures MergeAuthorities(authorities, keys, {}) == authorities
  {
  }

  // ----- Applying messages. -----

  function ApplyAnnouncement(c: Chain, a: BlockAnnouncement): Reply<BlockOutcome> {
    var height := AsU32(c.Height());
    if a.block.index < height then
      Reply(c, Ok(if a.block.index < c.Height() && c.blocks[a.block.index].hash == a.block.hash
                  then Known else OutOfOrder))
    else if a.block.index > height then Reply(c, Ok(OutOfOrder))
    else
      var taught := c.(keys := MergeBlockAccounts(c.keys, a.block, a.accounts));
      match TryAppend(taught, a.block)
      case Ok(next) => Reply(next, Ok(Appended))
      case Err(e) => Reply(taught.(keys := c.keys), Err(e))
  }

  function ApplySnapshot(c: Chain, s: ChainSnapshot): Reply<bool> {
    if |s.blocks| <= c.Height() then Reply(c, Ok(false))
    else
      var keys := MergeAccounts(c.keys, s.accounts);
      var taught := c.(keys := keys, authorities := MergeAuthorities(c.authorities, keys, s.authorities));
      match TryAdopt(taught, s.blocks)
      case Ok(Some(next)) => Reply(next, Ok(true))
      case Ok(None) => Reply(taught.(keys := c.keys, authorities := c.authorities), Ok(false))
      case Err(e) => Reply(taught.(keys := c.keys, authorities := c.authorities), Err(e))
  }

  function ApplyTransaction(c: Chain, a: TransactionAnnouncement): Reply<Response> {
    var t := a.transaction;
    if c.blocks == [] || c.blocks[0].hash != a.genesisHash then Reply(c, Err(GenesisMismatch))
    else if t.sender !in c.keys && t.sender in c.authorities then Reply(c, Err(UnknownSender(t.sender)))
    else if t.sender in c.keys && c.keys[t.sender] != a.senderKey then Reply(c, Err(InvalidSignature(t.id)))
    else
      var taught := if t.sender in c.keys then c else c.(keys := c.keys[t.sender := a.senderKey]);
      match QueueTransaction(taught, t)
      case Ok(next) => Reply(next, Ok(Accepted))
      case Err(e) =>
        var restored := if t.sender in c.keys then taught else taught.(keys := taught.keys - {t.sender});
        Reply(restored,
              if !e.DuplicateTransaction? then Err(e)
              else if c.Get(t.id).Some? then Ok(Confirmed) else Ok(AlreadyKnown))
  }

  /** What a node answers on the wire. */
  function ResponseTo(r: Result<Response, ChainError>): Response {
    match r
    case Ok(response) => response
    case Err(MempoolFull(_, _)) => Busy
    case Err(_) => Rejected
  }

  // ----- Failed steps leave no trace. -----

  lemma FailedStepsLeaveNoTrace(c: Chain, a: BlockAnnouncement, s: ChainSnapshot, t: TransactionAnnouncement)
    ensures ApplyAnnouncement(c, a).result != Ok(Appended) ==> ApplyAnnouncement(c, a).chain == c
    ensures ApplySnapshot(c, s).result != Ok(true) ==> ApplySnapshot(c, s).chain == c
    ensures ApplyTransaction(c, t).result != Ok(Accepted) ==> ApplyTransaction(c, t).chain == c
  {
    var sender := t.transaction.sender;
    assert sender !in c.keys ==> c.keys[sender := t.senderKey] - {sender} == c.keys;
  }

  // ----- What an accepted step may teach: never a new key for a known name. -----

  /** A block teaches only keys of its own senders, taken from the message, and no authority. */
  lemma AnnouncementTeaches(c: Chain, a: BlockAnnouncement, all: Keys)
    ensures var r := ApplyAnnouncement(c, a).chain;
      && Extends(r.keys, c.keys)
      && r.keys.Keys <= c.keys.Keys + Senders(a.block.transactions)
      && (forall name :: name in r.keys && name !in c.keys ==> name in a.accounts && r.keys[name] == a.accounts[name])
      && (Extends(all, c.keys) && Extends(all, a.accounts) ==> Extends(all, r.keys))
      && r.authorities == c.authorities && r.initial == c.initial
      && c.blocks <= r.blocks
  {
    hide TryAppend;
    AppendOnlyAdds(c.(keys := MergeBlockAccounts(c.keys, a.block, a.accounts)), a.block);
  }

  lemma AppendOnlyAdds(c: Chain, b: Block)
    ensures TryAppend(c, b).Ok? ==>
      var next := TryAppend(c, b).value;
      && next.blocks == c.blocks + [b]
      && next.keys == c.keys && next.authorities == c.authorities && next.initial == c.initial
  {
    hide VerifyBlock, Reconciled, IndexOf;
  }

  lemma AdoptOnlyReplaces(c: Chain, blocks: seq<Block>)
    ensures TryAdopt(c, blocks).Ok? && TryAdopt(c, blocks).value.Some? ==>
      var next := TryAdopt(c, blocks).value.value;
      && next.blocks == blocks && c.Height() < |blocks|
      && (c.blocks != [] ==> blocks[0].hash == c.blocks[0].hash)
      && next.keys == c.keys && next.authorities == c.authorities && next.initial == c.initial
  {
    hide Replay, Reconciled, IndexOf;
  }

  /** An adopted chain teaches names, and authorities only together with their keys. */
  lemma SnapshotTeaches(c: Chain, s: ChainSnapshot, all: Keys)
    ensures var r := ApplySnapshot(c, s).chain;
      && Extends(r.keys, c.keys)
      && (forall name :: name in r.keys && name !in c.keys ==> name in s.accounts && r.keys[name] == s.accounts[name])
      && (Extends(all, c.keys) && Extends(all, s.accounts) ==> Extends(all, r.keys))
      && c.authorities <= r.authorities && r.initial == c.initial
      && (forall name :: name in r.authorities - c.authorities ==> name in s.authorities && name in r.keys)
      && c.Height() <= r.Height()
      && (c.blocks != [] ==> r.blocks != [] && r.blocks[0].hash == c.blocks[0].hash)
  {
    hide TryAdopt;
    var keys := MergeAccounts(c.keys, s.accounts);
    AdoptOnlyReplaces(c.(keys := keys, authorities := MergeAuthorities(c.authorities, keys, s.authorities)), s.blocks);
  }

  /** An accepted transaction teaches its sender's key alone. */
  lemma GossipTeaches(c: Chain, a: TransactionAnnouncement, all: Keys)
    ensures var r := ApplyTransaction(c, a).chain; var sender := a.transaction.sender;
      && Extends(r.keys, c.keys)
      && r.keys.Keys <= c.keys.Keys + {sender}
      && (sender in r.keys && sender !in c.keys ==> r.keys[sender] == a.senderKey)
      && (Extends(all, c.keys) && sender in all && all[sender] == a.senderKey ==> Extends(all, r.keys))
      && r.authorities == c.authorities && r.initial == c.initial
      && r.blocks == c.blocks && r.state == c.state && r.index == c.index
  {
    hide Refused;
    var sender := a.transaction.sender;
    assert sender !in c.keys ==> c.keys[sender := a.senderKey] - {sender} == c.keys;
  }

  // ----- The invariant is kept. -----

  lemma AnnouncementKeepsInv(c: Chain, a: BlockAnnouncement)
    requires Inv(c)
    ensures Inv(ApplyAnnouncement(c, a).chain)
  {
    var keys := MergeBlockAccounts(c.keys, a.block, a.accounts);
    GrowthKeepsInv(c, c.authorities, keys);
    var taught := c.(keys := keys);
    assert taught == c.(authorities := c.authorities, keys := keys);
    if TryAppend(taught, a.block).Ok? {
      AppendKeepsInv(taught, a.block);
    }
  }

  lemma SnapshotKeepsInv(c: Chain, s: ChainSnapshot)
    requires Inv(c)
    ensures Inv(ApplySnapshot(c, s).chain)
  {
    if |s.blocks| > c.Height() {
      var keys := MergeAccounts(c.keys, s.accounts);
      var authorities := MergeAuthorities(c.authorities, keys, s.authorities);
      GrowthKeepsInv(c, authorities, keys);
      var taught := c.(keys := keys, authorities := authorities);
      assert taught == c.(authorities := authorities, keys := keys);
      var r := TryAdopt(taught, s.blocks);
      if r.Ok? && r.value.Some? {
        AdoptKeepsInv(taught, s.blocks);
      }
    }
  }

  lemma GossipKeepsInv(c: Chain, a: TransactionAnnouncement)
    requires Inv(c)
    ensures Inv(ApplyTransaction(c, a).chain)
  {
    var t := a.transaction;
    if ApplyTransaction(c, a).result == Ok(Accepted) {
      var keys := if t.sender in c.keys then c.keys else c.keys[t.sender := a.senderKey];
      GrowthKeepsInv(c, c.authorities, keys);
      var taught := c.(keys := keys);
      assert taught == c.(authorities := c.authorities, keys := keys);
      assert t.sender in c.keys ==> taught == c;
      QueueKeepsInv(taught, t);
    } else {
      var noBlock := BlockAnnouncement(Genesis([]), map[]);
      FailedStepsLeaveNoTrace(c, noBlock, SnapshotOf(c), a);
    }
  }

  // ----- Validity transfers between honest nodes. -----

  /** The announcement carries the key of every sender that needs one. */
  lemma AnnouncementCarriesKeys(c: Chain, b: Block)
    requires KnowsSenders(c.keys, b)
    ensures KnowsSenders(AnnouncementOf(c, b).accounts, b)
    ensures Extends(c.keys, AnnouncementOf(c, b).accounts)
  {
  }

  /** Replaying the receiver's blocks under the author's rules gives the receiver's own caches. */
  lemma SameBlocksSameState(author: Chain, receiver: Chain)
    requires Inv(author) && Inv(receiver) && author.initial == receiver.initial
    requires receiver.blocks <= author.blocks
    requires Agree(author.keys, receiver.keys)
    ensures Replay(author.Trust(), author.initial, receiver.blocks)
         == Ok(Accumulator(receiver.state, receiver.OnChain()))
    ensures receiver.blocks == author.blocks ==> receiver.state == author.state
  {
    assert author.blocks[..receiver.Height()] == receiver.blocks;
    ReplayPrefix(author.Trust(), author.initial, author.blocks, receiver.Height());
    ReplayTrusts(receiver.Trust(), receiver.initial, receiver.blocks);
    ReplayTransfers(author.Trust(), receiver.Trust(), author.initial, receiver.blocks);
  }

  /** The next block of a valid chain is appended by every node that holds the blocks before it, trusts
      the sealing authority, and disagrees on no name with the author or with the keys that travel along. */
  lemma NextBlockIsAppended(author: Chain, receiver: Chain, a: BlockAnnouncement)
    requires Inv(author) && Inv(receiver) && author.initial == receiver.initial
    requires receiver.blocks <= author.blocks && receiver.Height() < author.Height() < TWO_TO_THE_32
    requires a.block == author.blocks[receiver.Height()]
    requires KnowsSenders(a.accounts, a.block)
    requires Agree(author.keys, receiver.keys) && Agree(author.keys, a.accounts)
    requires a.block.authority in receiver.authorities && a.block.authority in receiver.keys
    ensures ApplyAnnouncement(receiver, a).result == Ok(Appended)
    ensures ApplyAnnouncement(receiver, a).chain.blocks == author.blocks[..receiver.Height() + 1]
  {
    var h, b := receiver.Height(), a.block;
    var keys := MergeBlockAccounts(receiver.keys, b, a.accounts);
    var taught := receiver.(keys := keys);
    assert author.blocks[..h + 1] == receiver.blocks + [b];
    ReplayPrefix(author.Trust(), author.initial, author.blocks, h + 1);
    ReplayAppend(author.Trust(), author.initial, receiver.blocks, b);
    BlockCarriesItsIndex(author.Trust(), author.initial, author.blocks, h);
    assert TrustsBlock(taught.Trust(), b);
    assert Agree(author.keys, keys);
    SameBlocksSameState(author, receiver);
    VerdictTransfers(author.Trust(), taught.Trust(), b, AsU32(h), LastHash(receiver.blocks),
                     Accumulator(receiver.state, receiver.OnChain()));
  }

  lemma NamesStayAgreed(author: Chain, receiver: Chain, next: Chain, taught: Keys)
    requires Agree(author.keys, receiver.keys) && Extends(author.keys, taught)
    requires Extends(author.keys + receiver.keys, receiver.keys) && Extends(author.keys + receiver.keys, taught) ==>
      Extends(author.keys + receiver.keys, next.keys)
    ensures Agree(author.keys, next.keys)
  {
    var all := author.keys + receiver.keys;
    assert Extends(all, author.keys) && Extends(all, receiver.keys) && Extends(all, taught);
  }

  /** An honest node's newest block is always appended by a node exactly one block behind; both then hold
      the same blocks, balances and nonces. */
  lemma AnnouncedBlockIsAppended(author: Chain, receiver: Chain)
    requires Inv(author) && Inv(receiver) && author.initial == receiver.initial
    requires author.blocks == receiver.blocks + [Tip(author.blocks)]
    requires author.Height() < TWO_TO_THE_32
    requires Agree(author.keys, receiver.keys)
    requires Tip(author.blocks).authority in receiver.authorities
    requires Tip(author.blocks).authority in receiver.keys
    ensures var r := ApplyAnnouncement(receiver, AnnouncementOf(author, Tip(author.blocks)));
      r.result == Ok(Appended) && r.chain.blocks == author.blocks && r.chain.state == author.state
  {
    hide Inv;
    var b := Tip(author.blocks);
    var a := AnnouncementOf(author, b);
    InvTrustsItsBlocks(author);
    assert TrustsBlock(author.Trust(), b);
    AnnouncementCarriesKeys(author, b);
    NextBlockIsAppended(author, receiver, a);
    AnnouncementKeepsInv(receiver, a);
    AnnouncementTeaches(receiver, a, author.keys + receiver.keys);
    NamesStayAgreed(author, receiver, ApplyAnnouncement(receiver, a).chain, a.accounts);
    SameBlocksSameState(author, ApplyAnnouncement(receiver, a).chain);
  }

  /** A longer stretch of a valid chain is adopted by every node that holds a prefix of it and disagrees on
      no name, provided the names it mentions travel along. */
  lemma LongerPrefixIsAdopted(author: Chain, receiver: Chain, s: ChainSnapshot)
    requires Inv(author) && Inv(receiver) && author.initial == receiver.initial
    requires receiver.blocks <= author.blocks && s.blocks <= author.blocks && receiver.Height() < |s.blocks|
    requires TrustsBlocks(Rules(s.authorities, s.accounts), s.blocks)
    requires Agree(author.keys, receiver.keys) && Agree(author.keys, s.accounts)
    ensures ApplySnapshot(receiver, s).result == Ok(true)
    ensures ApplySnapshot(receiver, s).chain.blocks == s.blocks
  {
    hide IndexOf, Reconciled, Sound, Extended;
    var keys := MergeAccounts(receiver.keys, s.accounts);
    var taught := receiver.(keys := keys, authorities := MergeAuthorities(receiver.authorities, keys, s.authorities));
    assert author.blocks[..|s.blocks|] == s.blocks;
    ReplayPrefix(author.Trust(), author.initial, author.blocks, |s.blocks|);
    assert TrustsBlocks(taught.Trust(), s.blocks);
    assert Agree(author.keys, keys);
    ReplayTransfers(author.Trust(), taught.Trust(), author.initial, s.blocks);
    assert receiver.blocks[0] == author.blocks[0] == s.blocks[0];
  }

  /** An honest node's longer snapshot is always adopted by a node that holds a prefix of it; both then
      hold the same blocks, balances and nonces. */
  lemma LongerSnapshotIsAdopted(author: Chain, receiver: Chain)
    requires Inv(author) && Inv(receiver) && author.initial == receiver.initial
    requires receiver.blocks <= author.blocks && receiver.Height() < author.Height()
    requires Agree(author.keys, receiver.keys)
    ensures var r := ApplySnapshot(receiver, SnapshotOf(author));
      r.result == Ok(true) && r.chain.blocks == author.blocks && r.chain.state == author.state
  {
    hide Inv;
    var s := SnapshotOf(author);
    InvTrustsItsBlocks(author);
    LongerPrefixIsAdopted(author, receiver, s);
    SnapshotKeepsInv(receiver, s);
    SnapshotTeaches(receiver, s, author.keys + receiver.keys);
    NamesStayAgreed(author, receiver, ApplySnapshot(receiver, s).chain, s.accounts);
    SameBlocksSameState(author, ApplySnapshot(receiver, s).chain);
  }

  // ----- Delivery of pending transactions. -----

  lemma PendingNonces(c: Chain, x: Transaction)
    requires Inv(c) && x in c.pool
    ensures x.HasValidId() && x.nonce < ExpectedNonce(c.state, c.pool, x.sender)
  {
    var view := Of(c.pool, x.sender);
    assert SenderPayable(c.state, view, x.sender);
    OfMembers(c.pool, x.sender);
    var i :| 0 <= i < |view| && view[i] == x;
    assert view[i].nonce == c.state.NextNonce(x.sender) + i;
    assert Authentic(c.keys, x);
  }

  /** A transaction with the nonce its sender is expected to use next, or a later one, is not pending. */
  lemma NotPending(c: Chain, t: Transaction)
    requires Inv(c) && t.HasValidId()
    requires t.nonce >= ExpectedNonce(c.state, c.pool, t.sender)
    ensures t.id !in Ids(c.pool)
  {
    forall x | x in c.pool
      ensures x.id != t.id
    {
      PendingNonces(c, x);
      if x.id == t.id {
        ValidIdsIdentify(x, t);
      }
    }
  }

  /** The source's k-th pending transaction is exactly what the target expects next. */
  lemma NextInLine(source: Chain, target: Chain, s: Text, k: nat)
    requires Inv(source) && Inv(target) && source.initial == target.initial
    requires source.blocks == target.blocks && Agree(source.keys, target.keys)
    requires k < |Of(source.pool, s)| && Of(target.pool, s) == Of(source.pool, s)[..k]
    ensures var t := Of(source.pool, s)[k];
      && t.sender == s && t in source.pool
      && t.nonce == ExpectedNonce(target.state, target.pool, s)
      && t.amount <= Available(target.state, target.pool, s)
      && source.state == target.state
  {
    var view := Of(source.pool, s);
    OfMembers(source.pool, s);
    assert view[k] in view;
    SameBlocksSameState(source, target);
    assert SenderPayable(source.state, view, s);
    assert view[k].nonce == source.state.NextNonce(s) + k;
    AmountsPrefixNext(view, k);
  }

  lemma NextIsNew(target: Chain, t: Transaction)
    requires Inv(target) && t.HasValidId() && t.sender != MINT_ACCOUNT
    requires t.nonce == ExpectedNonce(target.state, target.pool, t.sender)
    ensures t.id !in Ids(target.pool) && t.id !in target.OnChain() && target.Get(t.id) == None
  {
    NotPending(target, t);
    UnspentNonceIsNew(target.Trust(), target.initial, target.blocks, t);
    InvMeans(target, t.sender, t.id);
    ValidChainAccounting(target.Trust(), target.initial, target.blocks, t.sender);
  }

  /** An authentic, new, affordable transaction with the expected nonce is admitted if there is room. */
  lemma NextIsAdmitted(c: Chain, t: Transaction)
    requires Authentic(c.keys, t) && t.sender != MINT_ACCOUNT
    requires t.nonce == ExpectedNonce(c.state, c.pool, t.sender)
    requires t.amount <= Available(c.state, c.pool, t.sender)
    requires t.id !in Ids(c.pool) && t.id !in c.OnChain()
    ensures QueueTransaction(c, t)
         == if TotalWeight(c.pool) + t.Weight() > MAX_MEMPOOL_BYTES
            then Err(MempoolFull(TotalWeight(c.pool), MAX_MEMPOOL_BYTES))
            else Ok(c.(pool := c.pool + [t]))
  {
  }

  /** The answer to such a transaction when it arrives as gossip. */
  lemma GossipOfNext(c: Chain, t: Transaction, key: VerifyingKey)
    requires c.blocks != [] && t.sender != MINT_ACCOUNT
    requires if t.sender in c.keys then c.keys[t.sender] == key else t.sender !in c.authorities
    requires Authentic(c.keys[t.sender := key], t)
    requires t.nonce == ExpectedNonce(c.state, c.pool, t.sender)
    requires t.amount <= Available(c.state, c.pool, t.sender)
    requires t.id !in Ids(c.pool) && t.id !in c.OnChain()
    ensures ResponseTo(ApplyTransaction(c, TransactionAnnouncement(c.blocks[0].hash, t, key)).result)
         == if TotalWeight(c.pool) + t.Weight() > MAX_MEMPOOL_BYTES then Busy else Accepted
  {
    var taught := if t.sender in c.keys then c else c.(keys := c.keys[t.sender := key]);
    assert taught.keys == c.keys[t.sender := key];
    NextIsAdmitted(taught, t);
  }

  /** In-sync delivery. A node with the same blocks as the source, whose queue for the sender holds exactly
      the transactions before the k-th, and which knows the sender under the same key or not at all (and
      then not as an authority), accepts the k-th; it can only be too full. */
  lemma InSyncDelivery(source: Chain, target: Chain, s: Text, k: nat)
    requires Inv(source) && Inv(target) && source.initial == target.initial
    requires source.blocks == target.blocks && Agree(source.keys, target.keys)
    requires k < |Of(source.pool, s)| && Of(target.pool, s) == Of(source.pool, s)[..k]
    requires s !in target.keys ==> s !in target.authorities
    ensures s in source.keys
    ensures var t := Of(source.pool, s)[k];
      ResponseTo(ApplyTransaction(target, TransactionAnnouncement(source.blocks[0].hash, t, source.keys[s])).result)
      == if TotalWeight(target.pool) + t.Weight() > MAX_MEMPOOL_BYTES then Busy else Accepted
  {
    var t := Of(source.pool, s)[k];
    NextInLine(source, target, s, k);
    assert Authentic(source.keys, t) && t.sender != MINT_ACCOUNT;
    NextIsNew(target, t);
    GossipOfNext(target, t, source.keys[s]);
  }

  /** An announced block is appended only under an authority the node already authorised, and under a key
      it already had, unless that authority is itself a sender in the block. */
  lemma AppendedUnderKnownSeal(c: Chain, a: BlockAnnouncement)
    requires ApplyAnnouncement(c, a).result == Ok(Appended) && a.block.index > 0
    ensures a.block.authority in c.authorities
    ensures a.block.authority in c.keys || a.block.authority in Senders(a.block.transactions)
  {
  }
}
