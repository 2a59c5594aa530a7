/**
 Whole runs of one node: any mixture of local operations and peer messages, starting from a fresh chain, and
 the submission path of `zion-core/src/ledger.rs`.
 */
module Runs {
  import opened Prelude
  import opened Crypto
  import opened Wire
  import opened Transactions
  import opened Blocks
  import opened Sequences
  import opened Ledger
  import opened Validation
  import opened Pool
  import opened ChainModel
  import opened Sync

  datatype Operation =
    | Queue(t: Transaction)
    | Seal(authority: Text, key: SigningKey, now: u64)
    | Add(txs: seq<Transaction>, authority: Text, key: SigningKey, now: u64)
    | Append(b: Block)
    | Adopt(blocks: seq<Block>)
    | Announce(a: BlockAnnouncement)
    | Snapshot(s: ChainSnapshot)
    | Gossip(offer: TransactionAnnouncement)
    | Register(name: Text, publicKey: VerifyingKey)
    | Authorise(name: Text, publicKey: VerifyingKey)

  /** `POST /accounts`: the minting account is reserved and a bound name is never rebound. */
  function RegisterAccount(c: Chain, name: Text, key: VerifyingKey): Chain {
    if name == MINT_ACCOUNT || (name in c.keys && c.keys[name] != key) then c
    else c.(keys := c.keys[name := key])
  }

  /** `register_authority` where it rebinds nothing. */
  function RegisterAuthority(c: Chain, name: Text, key: VerifyingKey): Chain {
    if name in c.keys && c.keys[name] != key then c
    else c.(authorities := c.authorities + {name}, keys := c.keys[name := key])
  }

  /** The chain after an operation; a refused one leaves it as it was. */
  function Step(c: Chain, op: Operation): Chain {
    match op
    case Queue(t) =>
      (match QueueTransaction(c, t) case Ok(next) => next case Err(_) => c)
    case Seal(authority, key, now) =>
      (match SealMempool(c, authority, key, now) case Ok(Some(next)) => next case _ => c)
    case Add(txs, authority, key, now) =>
      (match AddBlock(c, txs, authority, key, now) case Ok(next) => next case Err(_) => c)
    case Append(b) =>
      (match TryAppend(c, b) case Ok(next) => next case Err(_) => c)
    case Adopt(blocks) =>
      (match TryAdopt(c, blocks) case Ok(Some(next)) => next case _ => c)
    case Announce(a) => ApplyAnnouncement(c, a).chain
    case Snapshot(s) => ApplySnapshot(c, s).chain
    case Gossip(offer) => Sync.ApplyTransaction(c, offer).chain
    case Register(name, key) => RegisterAccount(c, name, key)
    case Authorise(name, key) => RegisterAuthority(c, name, key)
  }

  function Run(c: Chain, ops: seq<Operation>): Chain
    decreases |ops|
  {
    if ops == [] then c else Step(Run(c, ops[..|ops| - 1]), ops[|ops| - 1])
  }

  lemma LocalStepKeepsInv(c: Chain, op: Operation)
    requires Inv(c) && !op.Announce? && !op.Snapshot? && !op.Gossip?
    ensures Inv(Step(c, op))
  {
    hide Inv, QueueTransaction, SealMempool, AddBlock, TryAppend, TryAdopt;
    match op
    case Queue(t) =>
      if QueueTransaction(c, t).Ok? { QueueKeepsInv(c, t); }
    case Seal(authority, key, now) =>
      var r := SealMempool(c, authority, key, now);
      if r.Ok? && r.value.Some? { SealKeepsInv(c, authority, key, now); }
    case Add(txs, authority, key, now) =>
      if AddBlock(c, txs, authority, key, now).Ok? { AddBlockKeepsInv(c, txs, authority, key, now); }
    case Append(b) =>
      if TryAppend(c, b).Ok? { AppendKeepsInv(c, b); }
    case Adopt(blocks) =>
      var r := TryAdopt(c, blocks);
      if r.Ok? && r.value.Some? { AdoptKeepsInv(c, blocks); }
    case Register(name, key) =>
      var next := RegisterAccount(c, name, key);
      GrowthKeepsInv(c, c.authorities, next.keys);
      assert next == c.(authorities := c.authorities, keys := next.keys);
    case Authorise(name, key) =>
      var next := RegisterAuthority(c, name, key);
      GrowthKeepsInv(c, next.authorities, next.keys);
      assert next == c.(authorities := next.authorities, keys := next.keys);
  }

  lemma StepKeepsInv(c: Chain, op: Operation)
    requires Inv(c)
    ensures Inv(Step(c, op))
  {
    hide Inv, ApplyAnnouncement, ApplySnapshot, Sync.ApplyTransaction;
    match op
    case Announce(a) => AnnouncementKeepsInv(c, a);
    case Snapshot(s) => SnapshotKeepsInv(c, s);
    case Gossip(offer) => GossipKeepsInv(c, offer);
    case _ => LocalStepKeepsInv(c, op);
  }

  /** Names only accumulate: no operation rebinds a known name, drops an authority, changes the allocation, shortens
      the chain or exchanges its genesis. */
  ghost predicate Grows(c: Chain, next: Chain) {
    && (c.blocks != [] ==> next.blocks != [] && next.blocks[0].hash == c.blocks[0].hash)
    && Extends(next.keys, c.keys)
    && c.authorities <= next.authorities
    && next.initial == c.initial
    && c.Height() <= next.Height()
  }

  lemma BlockStepGrows(c: Chain, op: Operation)
    requires op.Seal? || op.Add? || op.Append? || op.Adopt?
    ensures Grows(c, Step(c, op))
  {
    hide TryAppend, TryAdopt, Drained, SealedBlock;
    match op
    case Seal(authority, key, now) =>
      AppendOnlyAdds(c.(pool := []), SealedBlock(AsU32(c.Height()), Drained(c.pool), LastHash(c.blocks), authority, key, now));
    case Add(txs, authority, key, now) =>
      AppendOnlyAdds(c, SealedBlock(AsU32(c.Height()), txs, LastHash(c.blocks), authority, key, now));
    case Append(b) =>
      AppendOnlyAdds(c, b);
    case Adopt(blocks) =>
      AdoptOnlyReplaces(c, blocks);
  }

  lemma StepGrows(c: Chain, op: Operation)
    ensures Grows(c, Step(c, op))
  {
    hide ApplyAnnouncement, ApplySnapshot, Sync.ApplyTransaction, Refused, SealMempool, AddBlock, TryAppend, TryAdopt;
    match op
    case Announce(a) => AnnouncementTeaches(c, a, map[]);
    case Snapshot(s) => SnapshotTeaches(c, s, map[]);
    case Gossip(offer) => GossipTeaches(c, offer, map[]);
    case Queue(t) =>
    case Register(_, _) =>
    case Authorise(_, _) =>
    case _ => BlockStepGrows(c, op);
  }

  /** The account route binds a name exactly when it is not the minting account and has no other key. */
  lemma RegistrationBindsIff(c: Chain, name: Text, key: VerifyingKey)
    ensures var next := RegisterAccount(c, name, key);
      && next == c.(keys := next.keys)
      && (name in next.keys && next.keys[name] == key <==>
            (name in c.keys && c.keys[name] == key) || (name != MINT_ACCOUNT && name !in c.keys))
      && (forall other :: other != name ==>
            (other in next.keys <==> other in c.keys) && (other in c.keys ==> next.keys[other] == c.keys[other]))
  {
  }

  lemma {:induction false} RunKeepsInv(c: Chain, ops: seq<Operation>)
    requires Inv(c)
    ensures Inv(Run(c, ops)) && Grows(c, Run(c, ops))
    decreases |ops|
  {
    hide Inv, Step;
    if ops != [] {
      var front := ops[..|ops| - 1];
      RunKeepsInv(c, front);
      StepKeepsInv(Run(c, front), ops[|ops| - 1]);
      StepGrows(Run(c, front), ops[|ops| - 1]);
    }
  }

  /** Incremental state refines replay, over every run from a fresh chain: the cached balances and nonces are
      what validating all blocks from the initial allocation computes, and the cached index is what a rebuild
      computes. */
  lemma {:induction false} ReachableStateIsReplayed(authority: Text, initialAuthorities: Keys, ops: seq<Operation>)
    ensures var c := Run(NewChain(authority, initialAuthorities), ops);
      && Replay(c.Trust(), InitialBalances(), c.blocks) == Ok(Accumulator(c.state, c.OnChain()))
      && c.index == IndexOf(c.blocks)
      && Sound(c.keys, c.state, c.OnChain(), c.pool)
      && Supply(c.state.balances) == 1230 + Minted(AllTransactions(c.blocks))
      && c.blocks != [] && c.blocks[0].hash == Genesis(authority).hash
  {
    var c0 := NewChain(authority, initialAuthorities);
    NewChainIsSound(authority, initialAuthorities);
    RunKeepsInv(c0, ops);
    InvMeans(Run(c0, ops), MINT_ACCOUNT, ZERO_HASH);
    InitialSupply();
    hide Step, Replay, IndexOf, Sound, Minted, AllTransactions;
  }

  /** A rebound sender's pending transactions stop the seal: none of them verifies under the new key. */
  lemma ReboundSenderIsRefused(c: Chain, name: Text, key: VerifyingKey, t: Transaction)
    requires Inv(c) && t in c.pool && t.sender == name && c.keys[name] != key
    ensures ApplyAll(c.keys[name := key], Accumulator(c.state, c.OnChain()), Drained(c.pool)).Err?
  {
    var rebound, acc, txs := c.keys[name := key], Accumulator(c.state, c.OnChain()), Drained(c.pool);
    assert Authentic(c.keys, t) && t.sender != MINT_ACCOUNT;
    DrainedMultiset(c.pool);
    MultisetMembers(txs, c.pool);
    if ApplyAll(rebound, acc, txs).Ok? {
      AcceptedAreAuthentic(rebound, acc, txs);
      assert false;
    }
  }

  /** `add_public_key` and `register_authority` do not check for an earlier binding. Rebinding a name keeps the
      pool sealable if and only if the key stays the same, or the name is not the sealing authority and has
      nothing pending. */
  lemma RebindingBreaksSealingIff(c: Chain, name: Text, key: VerifyingKey, authority: Text, sealing: SigningKey, now: u64)
    requires Inv(c) && MaySeal(c, authority, sealing) && c.pool != [] && Supply(c.state.balances) < TWO_TO_THE_64
    ensures SealMempool(c.(keys := c.keys[name := key]), authority, sealing, now).Ok?
       <==> (name != authority && Of(c.pool, name) == []) || (name in c.keys && c.keys[name] == key)
  {
    var rebound := c.(keys := c.keys[name := key]);
    var acc, txs := Accumulator(c.state, c.OnChain()), Drained(c.pool);
    if name == authority {
      SealSucceeds(c, authority, sealing, now);
      if c.keys[name] == key {
        assert rebound.keys == c.keys;
      }
    } else {
      RebindingKeepsPayableIff(c, name, key);
      SealedBlockVerdict(rebound.(pool := []), txs, authority, sealing, now);
      OfMembers(c.pool, name);
      if Payable(rebound.keys, acc, c.pool) {
        DrainedIsPayable(rebound.keys, acc, c.pool);
        PayableIsAccepted(rebound.keys, acc, txs);
      } else {
        var t := Of(c.pool, name)[0];
        assert t in Of(c.pool, name);
        assert Authentic(c.keys, t);
        ReboundSenderIsRefused(c, name, key, t);
      }
    }
  }

  /** The smallest such case: Alice has one transfer pending, and her name is given another key. */
  lemma RebindingWitness(node: SigningKey, alice: SigningKey, other: VerifyingKey, now: u64)
    requires other != alice.Public()
    ensures var c0 := NewChain(NODE1, map[NODE1 := node.Public(), ALICE := alice.Public()]);
      var t := NewTransaction(Content(ALICE, BOB, 1, 0, None), alice);
      && QueueTransaction(c0, t).Ok?
      && var c := QueueTransaction(c0, t).value;
      && SealMempool(c, NODE1, node, now).Ok?
      && SealMempool(c.(keys := c.keys[ALICE := other]), NODE1, node, now).Err?
  {
    var c0 := NewChain(NODE1, map[NODE1 := node.Public(), ALICE := alice.Public()]);
    var t := NewTransaction(Content(ALICE, BOB, 1, 0, None), alice);
    NewChainIsSound(NODE1, map[NODE1 := node.Public(), ALICE := alice.Public()]);
    NamesDiffer();
    AliceMayQueue(c0, t, alice);
    InitialSupply();
    PendingRebinding(c0, t, node, other, now);
  }

  lemma PendingRebinding(c0: Chain, t: Transaction, node: SigningKey, other: VerifyingKey, now: u64)
    requires Inv(c0) && QueueTransaction(c0, t) == Ok(c0.(pool := [t])) && t.sender == ALICE && ALICE != NODE1
    requires MaySeal(c0, NODE1, node) && Supply(c0.state.balances) < TWO_TO_THE_64
    requires ALICE in c0.keys && c0.keys[ALICE] != other
    ensures SealMempool(c0.(pool := [t]), NODE1, node, now).Ok?
    ensures SealMempool(c0.(pool := [t]).(keys := c0.keys[ALICE := other]), NODE1, node, now).Err?
  {
    hide Inv, SealMempool, QueueTransaction, Refused, Supply;
    var c := c0.(pool := [t]);
    QueueKeepsInv(c0, t);
    assert Of(c.pool, ALICE) != [];
    RebindingBreaksSealingIff(c, NODE1, node.Public(), NODE1, node, now);
    assert c.(keys := c.keys[NODE1 := node.Public()]) == c;
    RebindingBreaksSealingIff(c, ALICE, other, NODE1, node, now);
  }

  lemma AliceMayQueue(c: Chain, t: Transaction, alice: SigningKey)
    requires t == NewTransaction(Content(ALICE, BOB, 1, 0, None), alice)
    requires c.pool == [] && c.index == map[] && c.state == LedgerState(InitialBalances(), map[])
    requires ALICE in c.keys && c.keys[ALICE] == alice.Public()
    ensures QueueTransaction(c, t) == Ok(c.(pool := [t]))
  {
    NamesDiffer();
    assert c.state.Balance(ALICE) == 100;
    assert t.Weight() <= MAX_MEMPOOL_BYTES;
    assert [] + [t] == [t];
  }

  /** A chain whose only block after genesis was sealed by NODE1 is no longer valid once NODE1 gets another key. */
  lemma RebindingChainWitness(node: SigningKey, other: VerifyingKey, now: u64)
    requires other != node.Public()
    ensures var c0 := NewChain(NODE1, map[NODE1 := node.Public()]);
      && AddBlock(c0, [], NODE1, node, now).Ok?
      && var c := AddBlock(c0, [], NODE1, node, now).value;
      && Replay(c.Trust(), c.initial, c.blocks).Ok?
      && Replay(Rules(c.authorities, c.keys[NODE1 := other]), c.initial, c.blocks).Err?
  {
    var c0 := NewChain(NODE1, map[NODE1 := node.Public()]);
    NewChainIsSound(NODE1, map[NODE1 := node.Public()]);
    SealedBlockVerdict(c0, [], NODE1, node, now);
    var c := AddBlock(c0, [], NODE1, node, now).value;
    AddBlockKeepsInv(c0, [], NODE1, node, now);
    assert Tip(c.blocks).index == 1 && Tip(c.blocks).authority == NODE1 && c.keys == c0.keys;
    hide Inv, AddBlock, Replay, SealedBlock;
    assert Inv(c) && !BlockWithout(Tip(c.blocks), NODE1) && Tip(c.blocks) in c.blocks;
    InvMeansValid(c);
    RebindingKeepsChainValidIff(c, c.authorities, NODE1, other);
  }

  lemma InvMeansValid(c: Chain)
    requires Inv(c)
    ensures Replay(c.Trust(), c.initial, c.blocks).Ok?
  {
  }

  /** One transfer from Alice to Bob is pending; sealing it raises what Bob may spend by one. */
  lemma SealedFundsWitness(node: SigningKey, alice: SigningKey, now: u64)
    ensures var c0 := NewChain(NODE1, map[NODE1 := node.Public(), ALICE := alice.Public()]);
      var t := NewTransaction(Content(ALICE, BOB, 1, 0, None), alice);
      && QueueTransaction(c0, t).Ok?
      && var c := QueueTransaction(c0, t).value;
      && SealMempool(c, NODE1, node, now).Ok? && SealMempool(c, NODE1, node, now).value.Some?
      && var next := SealMempool(c, NODE1, node, now).value.value;
      Available(next.state, next.pool, BOB) == Available(c.state, c.pool, BOB) + 1
  {
    var c0 := NewChain(NODE1, map[NODE1 := node.Public(), ALICE := alice.Public()]);
    var t := NewTransaction(Content(ALICE, BOB, 1, 0, None), alice);
    NewChainIsSound(NODE1, map[NODE1 := node.Public(), ALICE := alice.Public()]);
    NamesDiffer();
    AliceMayQueue(c0, t, alice);
    InitialSupply();
    OneTransferSealed(c0, t, node, now);
  }

  lemma OneTransferSealed(c0: Chain, t: Transaction, node: SigningKey, now: u64)
    requires Inv(c0) && QueueTransaction(c0, t) == Ok(c0.(pool := [t])) && t.receiver == BOB && t.amount == 1
    requires MaySeal(c0, NODE1, node) && Supply(c0.state.balances) < TWO_TO_THE_64
    ensures var c := c0.(pool := [t]); var r := SealMempool(c, NODE1, node, now);
      r.Ok? && r.value.Some?
      && Available(r.value.value.state, r.value.value.pool, BOB) == Available(c.state, c.pool, BOB) + 1
  {
    hide Inv, SealMempool, Available, Supply, QueueTransaction;
    var c := c0.(pool := [t]);
    QueueKeepsInv(c0, t);
    SealSucceeds(c, NODE1, node, now);
    var next := SealMempool(c, NODE1, node, now).value.value;
    SealIsInvisible(c, NODE1, node, now, next, BOB);
    SealedChain(c, NODE1, node, now, next);
    assert Drained([t]) == [t] && [t][1..] == [];
  }

  // ----- Submission. -----

  datatype Submission =
    | Queued(id: Digest, pending: nat)
    | RejectedSubmission(reason: ChainError)
    | BusyNode
    | NotSealed(reason: ChainError)
    | NotPersisted

  /** The pool is full enough and the node is an authority under the key it registered. */
  predicate WorthSealing(c: Chain, authority: Text, key: SigningKey) {
    && TotalWeight(c.pool) >= SEAL_THRESHOLD_BYTES
    && authority in c.authorities
    && authority in c.keys && c.keys[authority] == key.Public()
  }

  /** What `seal_pending` leaves behind: the chain, why it failed if it did, and the block it announces. */
  datatype Sealing = Sealing(chain: Chain, failure: Option<Submission>, announced: Option<BlockAnnouncement>)

  /** `seal_pending`: seals, persists and announces; `saved` says whether the store accepted the chain. */
  function SealPending(c: Chain, authority: Text, key: SigningKey, now: u64, saved: bool): Sealing {
    match SealMempool(c, authority, key, now)
    case Err(e) => Sealing(c, Some(NotSealed(e)), None)
    case Ok(None) => Sealing(c, None, None)
    case Ok(Some(next)) =>
      if !saved then Sealing(next, Some(NotPersisted), None)
      else Sealing(next, None, if next.blocks == [] then None else Some(AnnouncementOf(next, Tip(next.blocks))))
  }

  datatype Submitted = Submitted(chain: Chain, outcome: Submission, announced: Option<BlockAnnouncement>)

  /** `submit`. The lock is released between queueing and sealing: `meanwhile` is whatever the other tasks of
      the node do in between. */
  function Submit(c: Chain, t: Transaction, authority: Text, key: SigningKey, meanwhile: seq<Operation>, now: u64,
                  saved: bool): Submitted
  {
    if t.sender == MINT_ACCOUNT then Submitted(c, RejectedSubmission(ReservedSender(t.sender)), None)
    else
      match QueueTransaction(c, t)
      case Err(MempoolFull(_, _)) => Submitted(c, BusyNode, None)
      case Err(e) => Submitted(c, RejectedSubmission(e), None)
      case Ok(queued) =>
        var before := Run(queued, meanwhile);
        if !WorthSealing(queued, authority, key) then Submitted(before, Queued(t.id, |queued.pool|), None)
        else
          var r := SealPending(before, authority, key, now, saved);
          Submitted(r.chain, if r.failure.Some? then r.failure.value else Queued(t.id, |queued.pool|), r.announced)
  }

  /** Once a submission is admitted, sealing on its behalf can fail only because the store did, whatever
      happens between queueing and sealing, as long as the total supply fits in 64 bits. */
  lemma SubmissionFailsOnlyOnPersistence(c: Chain, t: Transaction, authority: Text, key: SigningKey,
                                         meanwhile: seq<Operation>, now: u64, saved: bool)
    requires Inv(c) && QueueTransaction(c, t).Ok?
    requires Supply(Run(QueueTransaction(c, t).value, meanwhile).state.balances) < TWO_TO_THE_64
    ensures var r := Submit(c, t, authority, key, meanwhile, now, saved);
      && (r.outcome == Queued(t.id, |c.pool| + 1) || (r.outcome == NotPersisted && !saved))
      && Inv(r.chain)
  {
    var queued := QueueTransaction(c, t).value;
    assert t.sender != MINT_ACCOUNT && |queued.pool| == |c.pool| + 1;
    QueueKeepsInv(c, t);
    hide Inv, QueueTransaction, SealMempool, Run;
    var before := Run(queued, meanwhile);
    RunKeepsInv(queued, meanwhile);
    if WorthSealing(queued, authority, key) {
      assert MaySeal(before, authority, key);
      SealOutcome(before, authority, key, now);
    }
  }

  /** When a submission seals. With the pool at 64 KiB or more, an authority under its registered key turns everything
      that is pending by then into a block; in every other case no block is added on its behalf. */
  lemma SubmissionSealsIff(c: Chain, t: Transaction, authority: Text, key: SigningKey, meanwhile: seq<Operation>, now: u64,
                           saved: bool)
    requires Inv(c) && QueueTransaction(c, t).Ok?
    requires Supply(Run(QueueTransaction(c, t).value, meanwhile).state.balances) < TWO_TO_THE_64
    ensures var before := Run(QueueTransaction(c, t).value, meanwhile);
      var r := Submit(c, t, authority, key, meanwhile, now, saved);
      var worth := TotalWeight(c.pool) + t.Weight() >= 64 * 1024 && MaySeal(c, authority, key);
      && (worth && before.pool != [] ==>
            && |r.chain.blocks| == |before.blocks| + 1 && r.chain.pool == []
            && multiset(Tip(r.chain.blocks).transactions) == multiset(before.pool)
            && r.chain.OnChain() == before.OnChain() + Ids(before.pool)
            && (r.announced.Some? <==> saved))
      && (!worth || before.pool == [] ==> r.chain == before && r.announced.None?)
      && r.outcome == if worth && before.pool != [] && !saved then NotPersisted else Queued(t.id, |c.pool| + 1)
  {
    var queued := QueueTransaction(c, t).value;
    assert t.sender != MINT_ACCOUNT && |queued.pool| == |c.pool| + 1;
    TotalWeightAppend(c.pool, t);
    QueueKeepsInv(c, t);
    hide Inv, QueueTransaction, SealMempool, Run;
    var before := Run(queued, meanwhile);
    RunKeepsInv(queued, meanwhile);
    if WorthSealing(queued, authority, key) && before.pool != [] {
      assert MaySeal(before, authority, key);
      SealOutcome(before, authority, key, now);
      SealIsInvisible(before, authority, key, now, SealMempool(before, authority, key, now).value.value, authority);
    } else if WorthSealing(queued, authority, key) {
      SealOutcome(before, authority, key, now);
    }
  }

  /** Undisturbed, the submission that fills the pool is on chain when it returns, and nothing is pending. */
  lemma FullPoolIsSealed(c: Chain, t: Transaction, authority: Text, key: SigningKey, now: u64, saved: bool)
    requires Inv(c) && QueueTransaction(c, t).Ok? && Supply(c.state.balances) < TWO_TO_THE_64
    requires TotalWeight(c.pool) + t.Weight() >= 64 * 1024 && MaySeal(c, authority, key)
    ensures var r := Submit(c, t, authority, key, [], now, saved);
      t.id in r.chain.OnChain() && r.chain.pool == [] && |r.chain.blocks| == |c.blocks| + 1
  {
    var queued := QueueTransaction(c, t).value;
    assert Run(queued, []) == queued && queued.pool == c.pool + [t] && t in queued.pool;
    SubmissionSealsIff(c, t, authority, key, [], now, saved);
  }

  lemma SealOutcome(c: Chain, authority: Text, key: SigningKey, now: u64)
    requires Inv(c) && MaySeal(c, authority, key) && Supply(c.state.balances) < TWO_TO_THE_64
    ensures var r := SealMempool(c, authority, key, now);
      r.Ok? && (r.value.Some? ==> Inv(r.value.value)) && (r.value.None? <==> c.pool == [])
  {
    if c.pool != [] {
      SealSucceeds(c, authority, key, now);
      SealKeepsInv(c, authority, key, now);
    }
    hide Inv, AddBlock, Drained;
  }

  /** A seal that persists announces a block holding exactly what was pending, and every honest node one block
      behind that trusts the sealer appends it. */
  lemma AnnouncedSealIsAppended(c: Chain, authority: Text, key: SigningKey, now: u64, receiver: Chain)
    requires Inv(c) && MaySeal(c, authority, key) && c.pool != [] && Supply(c.state.balances) < TWO_TO_THE_64
    requires c.Height() + 1 < TWO_TO_THE_32
    requires Inv(receiver) && receiver.initial == c.initial && receiver.blocks == c.blocks && Agree(c.keys, receiver.keys)
    requires authority in receiver.authorities && authority in receiver.keys
    ensures var r := SealPending(c, authority, key, now, true);
      && r.announced.Some?
      && multiset(r.announced.value.block.transactions) == multiset(c.pool)
      && ApplyAnnouncement(receiver, r.announced.value).result == Ok(Appended)
      && ApplyAnnouncement(receiver, r.announced.value).chain.state == r.chain.state
  {
    SealSucceeds(c, authority, key, now);
    var next := SealMempool(c, authority, key, now).value.value;
    SealKeepsInv(c, authority, key, now);
    SealIsInvisible(c, authority, key, now, next, authority);
    SealedByAuthority(c, authority, key, now, next);
    hide Inv, SealMempool, ApplyAnnouncement, Agree;
    AnnouncedBlockIsAppended(next, receiver);
  }

  lemma SealedByAuthority(c: Chain, authority: Text, key: SigningKey, now: u64, next: Chain)
    requires SealMempool(c, authority, key, now) == Ok(Some(next))
    ensures next.blocks != [] && Tip(next.blocks).authority == authority
    ensures next.keys == c.keys && next.authorities == c.authorities && next.initial == c.initial
  {
    hide TryAppend, Drained;
    AppendOnlyAdds(c.(pool := []), SealedBlock(AsU32(c.Height()), Drained(c.pool), LastHash(c.blocks), authority, key, now));
  }
}
