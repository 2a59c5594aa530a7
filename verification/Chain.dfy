/**
 The whole ledger of one node as a value: block list, cached balances and nonces, transaction index, known
 names and mempool, with every operation of `blockrock-core/src/blockchain.rs` as a function on it, and the
 joint invariant those operations keep.
 */
module ChainModel {
  import opened Prelude
  import opened Crypto
  import opened Transactions
  import opened Blocks
  import opened Sequences
  import opened Ledger
  import opened Validation
  import opened Pool

  datatype Chain = Chain(
    blocks: seq<Block>,
    authority: Text,
    authorities: set<Text>,
    keys: Keys,
    initial: map<Text, u64>,
    state: LedgerState,
    index: Index,
    pool: seq<Transaction>)
  {
    function Trust(): Rules {
      Rules(authorities, keys)
    }

    function OnChain(): set<Digest> {
      index.Keys
    }

    function Height(): nat {
      |blocks|
    }

    /** `get_transaction`. */
    function Get(id: Digest): Option<Transaction> {
      Lookup(index, blocks, id)
    }
  }

  /** The joint invariant: the caches are what a full replay of the blocks computes, the index is what a
      rebuild computes, and the pool is sound over them. */
  ghost predicate Inv(c: Chain) {
    && c.blocks != []
    && Replay(c.Trust(), c.initial, c.blocks) == Ok(Accumulator(c.state, c.OnChain()))
    && c.index == IndexOf(c.blocks)
    && Sound(c.keys, c.state, c.OnChain(), c.pool)
  }

  lemma InvTrustsItsBlocks(c: Chain)
    requires Inv(c)
    ensures TrustsBlocks(c.Trust(), c.blocks) && c.blocks != []
  {
    ReplayTrusts(c.Trust(), c.initial, c.blocks);
  }

  lemma InvIndex(c: Chain)
    requires Inv(c)
    ensures c.index == IndexOf(c.blocks)
  {
  }

  lemma InvNumbersItsBlocks(c: Chain, k: nat)
    requires Inv(c) && k < c.Height()
    ensures c.blocks[k].index == AsU32(k)
  {
    BlockCarriesItsIndex(c.Trust(), c.initial, c.blocks, k);
  }

  // ----- Genesis. -----

  const ALICE: Text := [65, 108, 105, 99, 101]
  const BOB: Text := [66, 111, 98]
  const CHARLIE: Text := [67, 104, 97, 114, 108, 105, 101]
  const NODE1: Text := [78, 111, 100, 101, 49]
  const NODE2: Text := [78, 111, 100, 101, 50]

  function InitialBalances(): map<Text, u64> {
    map[][MINT_ACCOUNT := 1000][ALICE := 100][BOB := 50][CHARLIE := 30][NODE1 := 50][NODE2 := 0]
  }

  const GENESIS_TIMESTAMP: u64 := 0

  function Genesis(authority: Text): Block {
    NewBlock(0, [], ZERO_HASH, authority, GENESIS_TIMESTAMP)
  }

  /** `Blockchain::new`. */
  function NewChain(authority: Text, initialAuthorities: Keys): Chain {
    Chain([Genesis(authority)], authority, {authority} + initialAuthorities.Keys, initialAuthorities,
          InitialBalances(), LedgerState(InitialBalances(), map[]), map[], [])
  }

  lemma NewChainIsSound(authority: Text, initialAuthorities: Keys)
    ensures Inv(NewChain(authority, initialAuthorities))
  {
    var c := NewChain(authority, initialAuthorities);
    var none: seq<Block> := [];
    var genesis := Genesis(authority);
    assert Front(c.blocks) == none && Tip(c.blocks) == genesis;
    assert genesis.IsHashValid();
    assert VerifyBlock(c.Trust(), genesis, AsU32(0), LastHash(none), Opening(c.initial)) == Ok(Opening(c.initial));
    assert c.OnChain() == {};
    assert Accumulator(c.state, c.OnChain()) == Opening(c.initial);
    EmptyIsSound(c.keys, c.state, c.OnChain());
  }

  /** The initial allocation adds up to 1230. */
  lemma InitialSupply()
    ensures Supply(InitialBalances()) == 1230
  {
    var m0: map<Text, u64> := map[];
    var m1 := m0[MINT_ACCOUNT := 1000];
    var m2 := m1[ALICE := 100];
    var m3 := m2[BOB := 50];
    var m4 := m3[CHARLIE := 30];
    var m5 := m4[NODE1 := 50];
    NamesDiffer();
    SupplyUpdate(m0, MINT_ACCOUNT, 1000);
    SupplyUpdate(m1, ALICE, 100);
    SupplyUpdate(m2, BOB, 50);
    SupplyUpdate(m3, CHARLIE, 30);
    SupplyUpdate(m4, NODE1, 50);
    SupplyUpdate(m5, NODE2, 0);
  }

  /** Who starts with what. */
  lemma InitialAllocation(account: Text)
    ensures var st := LedgerState(InitialBalances(), map[]);
      && st.Balance(MINT_ACCOUNT) == 1000 && st.Balance(ALICE) == 100 && st.Balance(BOB) == 50
      && st.Balance(CHARLIE) == 30 && st.Balance(NODE1) == 50
      && (account !in {MINT_ACCOUNT, ALICE, BOB, CHARLIE, NODE1} ==> st.Balance(account) == 0)
  {
    NamesDiffer();
  }

  lemma NamesDiffer()
    ensures MINT_ACCOUNT !in {ALICE, BOB, CHARLIE, NODE1, NODE2}
    ensures ALICE !in {BOB, CHARLIE, NODE1, NODE2}
    ensures BOB !in {CHARLIE, NODE1, NODE2}
    ensures CHARLIE !in {NODE1, NODE2}
    ensures NODE1 != NODE2
  {
    assert MINT_ACCOUNT[0] == 83 && ALICE[0] == 65 && BOB[0] == 66 && CHARLIE[0] == 67;
    assert NODE1[0] == 78 && NODE2[0] == 78 && NODE1[4] == 49 && NODE2[4] == 50;
  }

  // ----- Operations. -----

  /** `queue_transaction`. */
  function QueueTransaction(c: Chain, t: Transaction): Result<Chain, ChainError> {
    match Refused(c.keys, c.state, c.OnChain(), c.pool, t)
    case Some(e) => Err(e)
    case None => Ok(c.(pool := c.pool + [t]))
  }

  /** Replaces the block list and everything derived from it, then reconciles the pool. */
  function Install(c: Chain, blocks: seq<Block>, state: LedgerState): Chain {
    var index := IndexOf(blocks);
    c.(blocks := blocks, state := state, index := index,
       pool := Reconciled(c.keys, state, index.Keys, c.pool))
  }

  /** `try_append_block`: the block is validated against the caches alone. */
  function TryAppend(c: Chain, b: Block): Result<Chain, ChainError> {
    match VerifyBlock(c.Trust(), b, AsU32(c.Height()), LastHash(c.blocks), Accumulator(c.state, c.OnChain()))
    case Err(e) => Err(e)
    case Ok(end) => Ok(Install(c, c.blocks + [b], end.state))
  }

  /** `try_adopt_chain`: `None` when the local chain stays. */
  function TryAdopt(c: Chain, blocks: seq<Block>): Result<Option<Chain>, ChainError> {
    if |blocks| <= c.Height() then Ok(None)
    else if c.blocks != [] && c.blocks[0].hash != blocks[0].hash then Err(GenesisMismatch)
    else
      match Replay(c.Trust(), c.initial, blocks)
      case Err(e) => Err(e)
      case Ok(end) => Ok(Some(Install(c, blocks, end.state)))
  }

  /** `add_block`. */
  function AddBlock(c: Chain, txs: seq<Transaction>, authority: Text, key: SigningKey, now: u64)
    : Result<Chain, ChainError>
  {
    if authority !in c.authorities then Err(UnauthorizedAuthority(authority))
    else if authority !in c.keys then Err(UnknownAuthorityKey(authority))
    else if c.keys[authority] != key.Public() then Err(AuthorityKeyMismatch(authority))
    else TryAppend(c, SealedBlock(AsU32(c.Height()), txs, LastHash(c.blocks), authority, key, now))
  }

  /** `seal_mempool`: `None` when there was nothing to seal; on an error the pool is put back. */
  function SealMempool(c: Chain, authority: Text, key: SigningKey, now: u64): Result<Option<Chain>, ChainError> {
    if c.pool == [] then Ok(None)
    else
      match AddBlock(c.(pool := []), Drained(c.pool), authority, key, now)
      case Err(e) => Err(e)
      case Ok(next) => Ok(Some(next))
  }

  // ----- The invariant is kept. -----

  lemma QueueKeepsInv(c: Chain, t: Transaction)
    requires Inv(c) && QueueTransaction(c, t).Ok?
    ensures Inv(QueueTransaction(c, t).value)
  {
    QueueKeepsSound(c.keys, c.state, c.OnChain(), c.pool, t);
  }

  /** Installing any valid chain keeps the invariant and reconciles the pool exactly. */
  lemma InstallKeepsInv(c: Chain, blocks: seq<Block>, end: Accumulator)
    requires Inv(c) && blocks != []
    requires Replay(c.Trust(), c.initial, blocks) == Ok(end)
    ensures Inv(Install(c, blocks, end.state))
    ensures forall s :: Of(Install(c, blocks, end.state).pool, s)
                     == Run(Of(c.pool, s), end.state.NextNonce(s), end.state.Balance(s))
  {
    ValidChainAccounting(c.Trust(), c.initial, blocks, MINT_ACCOUNT);
    IndexOfIndexes(blocks);
    var seen := IndexOf(blocks).Keys;
    assert seen == end.seen;
    forall t | t in c.pool && t.nonce >= end.state.NextNonce(t.sender)
      ensures t.id !in seen
    {
      UnspentNonceIsNew(c.Trust(), c.initial, blocks, t);
    }
    ReconciliationIsExact(c.keys, Accumulator(c.state, c.OnChain()), c.keys, end.state, seen, c.pool);
  }

  /** Incremental state refines replay: appending validates against the caches, yet the result is what a
      replay of the longer chain computes. */
  lemma AppendKeepsInv(c: Chain, b: Block)
    requires Inv(c) && TryAppend(c, b).Ok?
    ensures Inv(TryAppend(c, b).value)
    ensures Replay(c.Trust(), c.initial, c.blocks + [b]).Ok?
    ensures forall s :: Of(TryAppend(c, b).value.pool, s)
                     == Run(Of(c.pool, s), TryAppend(c, b).value.state.NextNonce(s),
                            TryAppend(c, b).value.state.Balance(s))
  {
    ReplayAppend(c.Trust(), c.initial, c.blocks, b);
    InstallKeepsInv(c, c.blocks + [b], Replay(c.Trust(), c.initial, c.blocks + [b]).value);
  }

  lemma AdoptKeepsInv(c: Chain, blocks: seq<Block>)
    requires Inv(c) && TryAdopt(c, blocks).Ok? && TryAdopt(c, blocks).value.Some?
    ensures Inv(TryAdopt(c, blocks).value.value)
  {
    InstallKeepsInv(c, blocks, Replay(c.Trust(), c.initial, blocks).value);
  }

  lemma EmptyPoolKeepsInv(c: Chain)
    requires Inv(c)
    ensures Inv(c.(pool := []))
  {
    EmptyIsSound(c.keys, c.state, c.OnChain());
  }

  lemma AddBlockKeepsInv(c: Chain, txs: seq<Transaction>, authority: Text, key: SigningKey, now: u64)
    requires Inv(c) && AddBlock(c, txs, authority, key, now).Ok?
    ensures Inv(AddBlock(c, txs, authority, key, now).value)
  {
    AppendKeepsInv(c, SealedBlock(AsU32(c.Height()), txs, LastHash(c.blocks), authority, key, now));
  }

  lemma {:induction false} SealKeepsInv(c: Chain, authority: Text, key: SigningKey, now: u64)
    requires Inv(c) && SealMempool(c, authority, key, now).Ok? && SealMempool(c, authority, key, now).value.Some?
    ensures Inv(SealMempool(c, authority, key, now).value.value)
  {
    EmptyPoolKeepsInv(c);
    AddBlockKeepsInv(c.(pool := []), Drained(c.pool), authority, key, now);
  }

  lemma PayableWithMoreKeys(keys: Keys, more: Keys, acc: Accumulator, txs: seq<Transaction>)
    requires Payable(keys, acc, txs) && Extends(more, keys)
    ensures Payable(more, acc, txs)
  {
    forall t | t in txs
      ensures Authentic(more, t) && t.sender != MINT_ACCOUNT
    {
      assert Authentic(keys, t);
    }
  }

  /** Learning names and authorities keeps the invariant. */
  lemma GrowthKeepsInv(c: Chain, authorities: set<Text>, keys: Keys)
    requires Inv(c) && RulesGrow(c.Trust(), Rules(authorities, keys))
    ensures Inv(c.(authorities := authorities, keys := keys))
  {
    ReplayMonotone(c.Trust(), Rules(authorities, keys), c.initial, c.blocks);
    PayableWithMoreKeys(c.keys, keys, Accumulator(c.state, c.OnChain()), c.pool);
  }

  lemma RebindingKeepsPayableIff(c: Chain, name: Text, key: VerifyingKey)
    requires Inv(c)
    ensures Payable(c.keys[name := key], Accumulator(c.state, c.OnChain()), c.pool)
       <==> Of(c.pool, name) == [] || (name in c.keys && c.keys[name] == key)
  {
    var rebound, acc := c.keys[name := key], Accumulator(c.state, c.OnChain());
    OfMembers(c.pool, name);
    forall t | t in c.pool
      ensures Authentic(rebound, t) <==> t.sender != name || c.keys[name] == key
    {
      assert Authentic(c.keys, t);
    }
    hide Authentic;
    if Of(c.pool, name) != [] {
      var t := Of(c.pool, name)[0];
      assert t in Of(c.pool, name);
      assert t in c.pool && t.sender == name;
    } else {
      assert forall t :: t in c.pool ==> t.sender != name by {
        forall t | t in c.pool
          ensures t.sender != name
        {
          assert t !in Of(c.pool, name);
        }
      }
    }
  }

  /** `name` has nothing pending, sent nothing on chain (minting needs no key) and sealed no block after genesis. */
  ghost predicate Uninvolved(c: Chain, name: Text) {
    && Of(c.pool, name) == []
    && forall b :: b in c.blocks ==> BlockWithout(b, name)
  }

  ghost predicate BlockWithout(b: Block, name: Text) {
    && (b.index > 0 ==> b.authority != name)
    && (forall t :: t in b.transactions && t.sender != MINT_ACCOUNT ==> t.sender != name)
  }

  /** A valid chain that does not need a name stays valid, with the same state, whatever key the name gets. */
  lemma UnusedNameIsFree(c: Chain, name: Text, key: VerifyingKey)
    requires Inv(c) && forall b :: b in c.blocks ==> BlockWithout(b, name)
    ensures Replay(Rules(c.authorities, c.keys[name := key]), c.initial, c.blocks) == Replay(c.Trust(), c.initial, c.blocks)
  {
    var without, rebound := Rules(c.authorities, c.keys - {name}), Rules(c.authorities, c.keys[name := key]);
    ReplayTrusts(c.Trust(), c.initial, c.blocks);
    forall b | b in c.blocks
      ensures TrustsBlock(without, b)
    {
      assert TrustsBlock(c.Trust(), b) && BlockWithout(b, name);
    }
    hide Replay, Sound;
    ReplayTransfers(c.Trust(), without, c.initial, c.blocks);
    ReplayMonotone(without, rebound, c.initial, c.blocks);
  }

  /** Nothing verifies under two different keys. */
  lemma OneKeyPerSignature(keys: Keys, name: Text, key: VerifyingKey, b: Block)
    requires SignedUnder(keys, b) && SignedUnder(keys[name := key], b)
    requires name in keys ==> keys[name] != key
    ensures BlockWithout(b, name)
  {
    forall t | t in b.transactions && t.sender != MINT_ACCOUNT
      ensures t.sender != name
    {
      assert Authentic(keys, t) && Authentic(keys[name := key], t);
    }
  }

  /** The exact effect of `add_public_key` and `register_authority` on the validity of the chain: it stays valid if
      and only if the name keeps its key, or sent nothing on chain and sealed no block after genesis. */
  lemma RebindingKeepsChainValidIff(c: Chain, authorities: set<Text>, name: Text, key: VerifyingKey)
    requires Inv(c) && c.authorities <= authorities
    ensures Replay(Rules(authorities, c.keys[name := key]), c.initial, c.blocks).Ok?
       <==> (name in c.keys && c.keys[name] == key) || (forall b :: b in c.blocks ==> BlockWithout(b, name))
    ensures Replay(Rules(authorities, c.keys[name := key]), c.initial, c.blocks).Ok? ==>
      Replay(Rules(authorities, c.keys[name := key]), c.initial, c.blocks) == Replay(c.Trust(), c.initial, c.blocks)
  {
    var rebound := Rules(authorities, c.keys[name := key]);
    if name in c.keys && c.keys[name] == key {
      ReplayMonotone(c.Trust(), rebound, c.initial, c.blocks);
    } else if forall b :: b in c.blocks ==> BlockWithout(b, name) {
      UnusedNameIsFree(c, name, key);
      ReplayMonotone(Rules(c.authorities, rebound.keys), rebound, c.initial, c.blocks);
    } else if Replay(rebound, c.initial, c.blocks).Ok? {
      ReplayIsSigned(c.Trust(), c.initial, c.blocks);
      ReplayIsSigned(rebound, c.initial, c.blocks);
      hide SignedUnder, Replay;
      forall b | b in c.blocks
        ensures BlockWithout(b, name)
      {
        OneKeyPerSignature(c.keys, name, key, b);
      }
      assert false;
    }
  }

  /** The effect on the joint invariant: the chain must stay valid, and the name must keep its key or have nothing
      pending. */
  lemma RebindingKeepsInvIff(c: Chain, authorities: set<Text>, name: Text, key: VerifyingKey)
    requires Inv(c) && c.authorities <= authorities
    ensures Inv(c.(authorities := authorities, keys := c.keys[name := key]))
       <==> (name in c.keys && c.keys[name] == key) || Uninvolved(c, name)
  {
    RebindingKeepsPayableIff(c, name, key);
    RebindingKeepsChainValidIff(c, authorities, name, key);
    hide Replay, Payable;
  }

  lemma NewNameIsUninvolved(c: Chain, name: Text)
    requires Inv(c)
    ensures name !in c.keys ==> Uninvolved(c, name)
  {
    if name !in c.keys {
      ReplayIsSigned(c.Trust(), c.initial, c.blocks);
      forall b | b in c.blocks
        ensures BlockWithout(b, name)
      {
        assert SignedUnder(c.keys, b);
      }
      OfMembers(c.pool, name);
      assert forall t :: t !in Of(c.pool, name);
    }
  }

  /** What every reachable chain says about itself: the index answers like a linear scan, balances obey
      double entry, the supply is the initial supply plus what was minted, and nobody replays. */
  lemma InvMeans(c: Chain, account: Text, id: Digest)
    requires Inv(c)
    ensures c.Get(id) == Scan(AllTransactions(c.blocks), id)
    ensures c.Get(id).Some? <==> id in c.OnChain()
    ensures c.state.Balance(account) + Sent(AllTransactions(c.blocks), account)
         == LedgerState(c.initial, map[]).Balance(account) + Received(AllTransactions(c.blocks), account)
    ensures Supply(c.state.balances) == Supply(c.initial) + Minted(AllTransactions(c.blocks))
    ensures account != MINT_ACCOUNT ==>
      && Consecutive(Of(AllTransactions(c.blocks), account), 0)
      && c.state.NextNonce(account) == |Of(AllTransactions(c.blocks), account)|
    ensures DistinctIds(AllTransactions(c.blocks))
  {
    LookupIsScan(c.Trust(), c.initial, c.blocks, id);
    IndexOfIndexes(c.blocks);
    if id in c.index {
      assert PointsAt(c.index[id], c.blocks, id);
    }
    ValidChainAccounting(c.Trust(), c.initial, c.blocks, account);
  }

  // ----- Admission is sound: what the pool admitted can be sealed. -----

  /** The node may seal as `authority`. */
  ghost predicate MaySeal(c: Chain, authority: Text, key: SigningKey) {
    authority in c.authorities && authority in c.keys && c.keys[authority] == key.Public()
  }

  /** A sealed block of payable transactions is judged on its transactions alone. */
  lemma SealedBlockVerdict(c: Chain, txs: seq<Transaction>, authority: Text, key: SigningKey, now: u64)
    requires MaySeal(c, authority, key)
    ensures var b := SealedBlock(AsU32(c.Height()), txs, LastHash(c.blocks), authority, key, now);
      && b.transactions == txs
      && VerifyBlock(c.Trust(), b, AsU32(c.Height()), LastHash(c.blocks), Accumulator(c.state, c.OnChain()))
         == ApplyAll(c.keys, Accumulator(c.state, c.OnChain()), txs)
  {
    SealedBlockVerifies(AsU32(c.Height()), txs, LastHash(c.blocks), authority, key, now, key.Public());
  }

  /** In every state that satisfies the invariant, a registered authority can seal the whole pool, in any
      order that keeps each sender's nonce order. The one possible failure is a receiver's balance
      overflowing 64 bits, which happens exactly when some credit does not fit at its turn, and never
      while the total supply fits. */
  lemma AdmissionIsSound(c: Chain, order: seq<Transaction>, authority: Text, key: SigningKey, now: u64)
    requires Inv(c) && MaySeal(c, authority, key)
    requires multiset(order) == multiset(c.pool) && KeepsNonceOrder(order)
    ensures var r := AddBlock(c.(pool := []), order, authority, key, now);
      && (r.Err? ==> r.error.BalanceOverflow?)
      && (r.Ok? <==> forall k :: 0 <= k < |order| ==> CreditFitsAt(c.state, order, k))
      && (Supply(c.state.balances) < TWO_TO_THE_64 ==> r.Ok?)
  {
    var acc := Accumulator(c.state, c.OnChain());
    RearrangedIsPayable(c.keys, acc, c.pool, order);
    PayableIsAccepted(c.keys, acc, order);
    PayableAcceptedIff(c.keys, acc, order);
    SealedBlockVerdict(c.(pool := []), order, authority, key, now);
  }

  /** The drained order is such an order, so `seal_mempool` succeeds. */
  lemma {:induction false} SealSucceeds(c: Chain, authority: Text, key: SigningKey, now: u64)
    requires Inv(c) && MaySeal(c, authority, key) && c.pool != []
    ensures var r := SealMempool(c, authority, key, now);
      && (r.Err? ==> r.error.BalanceOverflow?)
      && (Supply(c.state.balances) < TWO_TO_THE_64 ==> r.Ok? && r.value.Some?)
  {
    DrainedMultiset(c.pool);
    DrainedKeepsNonceOrder(c.keys, Accumulator(c.state, c.OnChain()), c.pool);
    AdmissionIsSound(c, Drained(c.pool), authority, key, now);
  }

  lemma {:induction false} ReconciledNothing(keys: Keys, st: LedgerState, seen: set<Digest>)
    ensures Reconciled(keys, st, seen, []) == []
  {
  }

  /** The block a successful seal appends, and that the pool is empty afterwards. */
  lemma SealedChain(c: Chain, authority: Text, key: SigningKey, now: u64, next: Chain)
    requires Inv(c) && SealMempool(c, authority, key, now) == Ok(Some(next))
    ensures next.blocks == c.blocks + [Tip(next.blocks)] && next.pool == []
    ensures Tip(next.blocks).transactions == Drained(c.pool)
    ensures ApplyAll(c.keys, Accumulator(c.state, c.OnChain()), Drained(c.pool))
         == Ok(Accumulator(next.state, next.OnChain()))
  {
    var txs := Drained(c.pool);
    var b := SealedBlock(AsU32(c.Height()), txs, LastHash(c.blocks), authority, key, now);
    assert next.blocks == c.blocks + [b] && Tip(next.blocks) == b;
    SealedBlockVerdict(c, txs, authority, key, now);
    ReconciledNothing(c.keys, next.state, next.OnChain());
    SealKeepsInv(c, authority, key, now);
    ReplayAppend(c.Trust(), c.initial, c.blocks, b);
  }

  /** Sealing is invisible to the next submitter: the nonce expected from every sender stays what it was,
      and what it may still spend rises by exactly what it receives in the block. Everything pending is
      on chain afterwards and the pool is empty. */
  lemma SealIsInvisible(c: Chain, authority: Text, key: SigningKey, now: u64, next: Chain, s: Text)
    requires Inv(c) && SealMempool(c, authority, key, now) == Ok(Some(next))
    ensures next.blocks == c.blocks + [Tip(next.blocks)] && next.pool == []
    ensures multiset(Tip(next.blocks).transactions) == multiset(c.pool)
    ensures next.OnChain() == c.OnChain() + Ids(c.pool)
    ensures ExpectedNonce(next.state, next.pool, s) == ExpectedNonce(c.state, c.pool, s)
    ensures Available(next.state, next.pool, s)
         == Available(c.state, c.pool, s) + Received(Tip(next.blocks).transactions, s)
  {
    var txs, acc := Drained(c.pool), Accumulator(c.state, c.OnChain());
    SealedChain(c, authority, key, now, next);
    DrainedMultiset(c.pool);
    MultisetMembers(txs, c.pool);
    assert Ids(txs) == Ids(c.pool);
    IdsAccumulate(c.keys, acc, txs);
    DoubleEntry(c.keys, acc, txs, s);
    NothingSaturates(c.keys, c.state, c.OnChain(), c.pool, s);
    SealedNonces(c, txs, s);
  }

  /** A seal leaves what a sender may still spend unchanged if and only if it receives nothing in the block. */
  lemma SealKeepsFundsIff(c: Chain, authority: Text, key: SigningKey, now: u64, next: Chain, s: Text)
    requires Inv(c) && SealMempool(c, authority, key, now) == Ok(Some(next))
    ensures next.blocks != []
    ensures Available(next.state, next.pool, s) == Available(c.state, c.pool, s)
       <==> Received(Tip(next.blocks).transactions, s) == 0
  {
    SealIsInvisible(c, authority, key, now, next, s);
  }

  /** The minting account never has anything pending; everyone else's nonce advances by its queue. */
  lemma SealedNonces(c: Chain, txs: seq<Transaction>, s: Text)
    requires Inv(c) && txs == Drained(c.pool)
    requires ApplyAll(c.keys, Accumulator(c.state, c.OnChain()), txs).Ok?
    ensures var end := ApplyAll(c.keys, Accumulator(c.state, c.OnChain()), txs).value.state;
      && end.NextNonce(s) == c.state.NextNonce(s) + |Of(c.pool, s)|
      && Sent(txs, s) == Amounts(Of(c.pool, s))
  {
    var acc := Accumulator(c.state, c.OnChain());
    DrainedIsPayable(c.keys, acc, c.pool);
    assert Of(txs, s) == Of(c.pool, s);
    if s == MINT_ACCOUNT {
      NothingFrom(c.pool, s);
      MintKeepsNonce(c.keys, acc, txs);
    } else {
      NoReplay(c.keys, acc, txs, s);
    }
  }

  lemma {:induction false} NothingFrom(txs: seq<Transaction>, s: Text)
    requires forall t :: t in txs ==> t.sender != s
    ensures Of(txs, s) == []
  {
    if txs != [] {
      assert txs[0] in txs;
      assert forall t :: t in txs[1..] ==> t in txs;
      NothingFrom(txs[1..], s);
    }
  }

  lemma {:induction false} MintKeepsNonce(keys: Keys, acc: Accumulator, txs: seq<Transaction>)
    requires ApplyAll(keys, acc, txs).Ok?
    ensures ApplyAll(keys, acc, txs).value.state.NextNonce(MINT_ACCOUNT) == acc.state.NextNonce(MINT_ACCOUNT)
    decreases txs
  {
    if txs != [] {
      var next := ApplyTransaction(keys, acc, txs[0]).value;
      MoveEntry(acc.state, txs[0], next.state, MINT_ACCOUNT);
      MintKeepsNonce(keys, next, txs[1..]);
    }
  }

  // ----- Isolation of senders. -----

  lemma AppendView(c: Chain, b: Block, next: Chain, s: Text)
    requires Inv(c) && TryAppend(c, b) == Ok(next)
    ensures Of(next.pool, s) == Run(Of(c.pool, s), next.state.NextNonce(s), next.state.Balance(s))
    ensures SenderPayable(c.state, Of(c.pool, s), s)
  {
    AppendKeepsInv(c, b);
    assert Payable(c.keys, Accumulator(c.state, c.OnChain()), c.pool);
  }

  /** Where a block that took the first `k` pending transactions of a sender leaves that sender. */
  lemma AfterConfirming(c: Chain, b: Block, next: Chain, s: Text, k: nat)
    requires Inv(c) && TryAppend(c, b) == Ok(next) && s != MINT_ACCOUNT
    requires k <= |Of(c.pool, s)| && Of(b.transactions, s) == Of(c.pool, s)[..k]
    ensures next.state.NextNonce(s) == c.state.NextNonce(s) + k
    ensures Amounts(Of(c.pool, s)[k..]) <= next.state.Balance(s)
  {
    var acc := Accumulator(c.state, c.OnChain());
    DoubleEntry(c.keys, acc, b.transactions, s);
    NoReplay(c.keys, acc, b.transactions, s);
    assert SenderPayable(c.state, Of(c.pool, s), s);
    AmountsSplit(Of(c.pool, s), k);
  }

  /** A peer block that confirms exactly the first `k` transactions a sender has pending keeps all the
      others; with `k == 0`, a block that does not mention the sender costs it nothing. */
  lemma {:induction false} ConfirmedPrefixKeepsSuccessors(c: Chain, b: Block, next: Chain, s: Text, k: nat)
    requires Inv(c) && TryAppend(c, b) == Ok(next) && s != MINT_ACCOUNT
    requires k <= |Of(c.pool, s)| && Of(b.transactions, s) == Of(c.pool, s)[..k]
    ensures Of(next.pool, s) == Of(c.pool, s)[k..]
  {
    AfterConfirming(c, b, next, s, k);
    AppendView(c, b, next, s);
    RunKeepsSuffix(Of(c.pool, s), c.state.NextNonce(s), k, next.state.Balance(s));
  }
}
