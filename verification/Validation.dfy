/**
 Block validation and replay (`verify_block`, `replay`) and the transaction index, as functions
 (`blockrock-core/src/blockchain.rs`).
 */
module Validation {
  import opened Prelude
  import opened Crypto
  import opened Transactions
  import opened Blocks
  import opened Sequences
  import opened Ledger

  /** What a node validates against: who may seal, and which key each name is bound to. */
  datatype Rules = Rules(authorities: set<Text>, keys: Keys)

  /** The checks on the block itself. Genesis has no seal: it is the root of trust. */
  function InspectBlock(rules: Rules, b: Block, expectedIndex: u32, previousHash: Digest): Option<ChainError> {
    if b.index != expectedIndex then Some(WrongIndex(expectedIndex, b.index))
    else if b.previousHash != previousHash then Some(BrokenLink(b.index))
    else if !b.IsHashValid() then Some(CorruptedHash(b.index))
    else if b.index == 0 then None
    else if b.authority !in rules.authorities then Some(UnauthorizedAuthority(b.authority))
    else if b.authority !in rules.keys then Some(UnknownAuthorityKey(b.authority))
    else if b.authoritySignature.None? then Some(UnsealedBlock(b.index))
    else if !b.VerifySeal(rules.keys[b.authority]) then Some(InvalidSeal(b.index))
    else None
  }

  function VerifyBlock(rules: Rules, b: Block, expectedIndex: u32, previousHash: Digest, acc: Accumulator)
    : Result<Accumulator, ChainError>
  {
    match InspectBlock(rules, b, expectedIndex, previousHash)
    case Some(e) => Err(e)
    case None => ApplyAll(rules.keys, acc, b.transactions)
  }

  const ZERO_HASH: Digest := Literal([48])

  function Opening(initial: map<Text, u64>): Accumulator {
    Accumulator(LedgerState(initial, map[]), {})
  }

  function Front(blocks: seq<Block>): seq<Block>
    requires blocks != []
  {
    blocks[..|blocks| - 1]
  }

  function Tip(blocks: seq<Block>): Block
    requires blocks != []
  {
    blocks[|blocks| - 1]
  }

  function LastHash(blocks: seq<Block>): Digest {
    if blocks == [] then ZERO_HASH else Tip(blocks).hash
  }

  /** Validates `b` on top of a replay that may already have failed. */
  function Extended(rules: Rules, r: Result<Accumulator, ChainError>, b: Block, index: u32, previousHash: Digest)
    : Result<Accumulator, ChainError>
  {
    match r
    case Err(e) => Err(e)
    case Ok(end) => VerifyBlock(rules, b, index, previousHash, end)
  }

  /** Validation from block 0 over the initial allocation; the first error wins. */
  function Replay(rules: Rules, initial: map<Text, u64>, blocks: seq<Block>): Result<Accumulator, ChainError>
    decreases |blocks|
  {
    if blocks == [] then Ok(Opening(initial))
    else
      Extended(rules, Replay(rules, initial, Front(blocks)), Tip(blocks),
               AsU32(|blocks| - 1), LastHash(Front(blocks)))
  }

  /** All transactions of a chain, in chain order. */
  function AllTransactions(blocks: seq<Block>): seq<Transaction>
    decreases |blocks|
  {
    if blocks == [] then [] else AllTransactions(Front(blocks)) + Tip(blocks).transactions
  }

  /** Replaying a chain with one more block is validating that block on top of the old replay: the
      incremental path and the full replay agree, errors included. */
  lemma {:induction false} ReplayAppend(rules: Rules, initial: map<Text, u64>, blocks: seq<Block>, b: Block)
    ensures Replay(rules, initial, blocks + [b])
         == Extended(rules, Replay(rules, initial, blocks), b, AsU32(|blocks|), LastHash(blocks))
  {
    assert Front(blocks + [b]) == blocks && Tip(blocks + [b]) == b;
  }

  /** A valid chain is one long accepted sequence of transactions. */
  lemma {:induction false} ReplayFlattens(rules: Rules, initial: map<Text, u64>, blocks: seq<Block>)
    requires Replay(rules, initial, blocks).Ok?
    ensures ApplyAll(rules.keys, Opening(initial), AllTransactions(blocks)) == Replay(rules, initial, blocks)
    decreases |blocks|
  {
    if blocks != [] {
      ReplayFlattens(rules, initial, Front(blocks));
      ApplyAllConcat(rules.keys, Opening(initial), AllTransactions(Front(blocks)), Tip(blocks).transactions);
    }
  }

  /** In every valid chain: balances are initial + received - sent, the supply is the initial supply plus
      what was minted, each ordinary sender's nonces are 0, 1, 2, ... with their count stored, and no
      transaction id appears twice. */
  lemma {:induction false} ValidChainAccounting(rules: Rules, initial: map<Text, u64>, blocks: seq<Block>, account: Text)
    requires Replay(rules, initial, blocks).Ok?
    ensures var txs := AllTransactions(blocks);
      var end := Replay(rules, initial, blocks).value;
      && end.state.Balance(account) + Sent(txs, account)
         == LedgerState(initial, map[]).Balance(account) + Received(txs, account)
      && Supply(end.state.balances) == Supply(initial) + Minted(txs)
      && DistinctIds(txs)
      && end.seen == Ids(txs)
      && (account != MINT_ACCOUNT ==>
            && Consecutive(Of(txs, account), 0)
            && end.state.NextNonce(account) == |Of(txs, account)|)
  {
    var txs, acc := AllTransactions(blocks), Opening(initial);
    ReplayFlattens(rules, initial, blocks);
    DoubleEntry(rules.keys, acc, txs, account);
    Conservation(rules.keys, acc, txs);
    IdsAccumulate(rules.keys, acc, txs);
    if account != MINT_ACCOUNT {
      NoReplay(rules.keys, acc, txs, account);
    }
  }

  /** A transaction whose nonce its sender has not yet consumed is not in the chain. */
  lemma UnspentNonceIsNew(rules: Rules, initial: map<Text, u64>, blocks: seq<Block>, t: Transaction)
    requires Replay(rules, initial, blocks).Ok?
    requires t.HasValidId() && t.sender != MINT_ACCOUNT
    requires t.nonce >= Replay(rules, initial, blocks).value.state.NextNonce(t.sender)
    ensures t.id !in Ids(AllTransactions(blocks))
  {
    var txs := AllTransactions(blocks);
    ValidChainAccounting(rules, initial, blocks, t.sender);
    ReplayFlattens(rules, initial, blocks);
    AcceptedAreAuthentic(rules.keys, Opening(initial), txs);
    OfMembers(txs, t.sender);
    forall x | x in txs && x.sender == t.sender
      ensures x.nonce < t.nonce
    {
      var i :| 0 <= i < |Of(txs, t.sender)| && Of(txs, t.sender)[i] == x;
      assert x.nonce == 0 + i;
    }
    forall x | x in txs
      ensures x.id != t.id
    {
      if x.id == t.id {
        ValidIdsIdentify(x, t);
      }
    }
  }

  // ----- Which rules a verdict depends on. -----

  ghost predicate Agree(a: Keys, b: Keys) {
    forall name :: name in a && name in b ==> a[name] == b[name]
  }

  /** The names a block needs: its authority, unless it is genesis, and the senders of its transfers. */
  ghost predicate TrustsBlock(rules: Rules, b: Block) {
    && (b.index > 0 ==> b.authority in rules.authorities && b.authority in rules.keys)
    && KnowsSenders(rules.keys, b)
  }

  ghost predicate KnowsSenders(keys: Keys, b: Block) {
    forall t :: t in b.transactions && t.sender != MINT_ACCOUNT ==> t.sender in keys
  }

  ghost predicate TrustsBlocks(rules: Rules, blocks: seq<Block>) {
    forall b :: b in blocks ==> TrustsBlock(rules, b)
  }

  lemma VerifiedBlockIsTrusted(rules: Rules, b: Block, index: u32, previousHash: Digest, acc: Accumulator)
    requires VerifyBlock(rules, b, index, previousHash, acc).Ok?
    ensures TrustsBlock(rules, b)
  {
    AcceptedAreAuthentic(rules.keys, acc, b.transactions);
  }

  /** A verdict carries over to any node that trusts the names involved and binds them alike. */
  lemma VerdictTransfers(rules: Rules, other: Rules, b: Block, index: u32, previousHash: Digest, acc: Accumulator)
    requires VerifyBlock(rules, b, index, previousHash, acc).Ok?
    requires TrustsBlock(other, b) && Agree(rules.keys, other.keys)
    ensures VerifyBlock(other, b, index, previousHash, acc) == VerifyBlock(rules, b, index, previousHash, acc)
  {
    VerifiedBlockIsTrusted(rules, b, index, previousHash, acc);
    ApplyAllNeedsSenderKeys(rules.keys, other.keys, acc, b.transactions);
  }

  lemma {:induction false} ReplayTrusts(rules: Rules, initial: map<Text, u64>, blocks: seq<Block>)
    requires Replay(rules, initial, blocks).Ok?
    ensures TrustsBlocks(rules, blocks)
    decreases |blocks|
  {
    if blocks != [] {
      var front := Front(blocks);
      ReplayTrusts(rules, initial, front);
      VerifiedBlockIsTrusted(rules, Tip(blocks), AsU32(|front|), LastHash(front), Replay(rules, initial, front).value);
      TrustsOneMore(rules, blocks);
    }
  }

  lemma TrustsOneMore(rules: Rules, blocks: seq<Block>)
    requires blocks != [] && TrustsBlocks(rules, Front(blocks)) && TrustsBlock(rules, Tip(blocks))
    ensures TrustsBlocks(rules, blocks)
  {
    forall b | b in blocks
      ensures TrustsBlock(rules, b)
    {
      assert b == Tip(blocks) || b in Front(blocks);
    }
  }

  /** A valid chain is valid, with the same balances and nonces, for every node that trusts the names it
      mentions and binds them alike. */
  lemma {:induction false} ReplayTransfers(rules: Rules, other: Rules, initial: map<Text, u64>, blocks: seq<Block>)
    requires Replay(rules, initial, blocks).Ok?
    requires TrustsBlocks(other, blocks) && Agree(rules.keys, other.keys)
    ensures Replay(other, initial, blocks) == Replay(rules, initial, blocks)
    decreases |blocks|
  {
    if blocks != [] {
      var front := Front(blocks);
      ReplayTransfers(rules, other, initial, front);
      VerdictTransfers(rules, other, Tip(blocks), AsU32(|front|), LastHash(front), Replay(rules, initial, front).value);
    }
  }

  /** What a valid block proves about the keys it was judged with. */
  ghost predicate SignedUnder(keys: Keys, b: Block) {
    && (b.index > 0 ==> b.authority in keys && b.VerifySeal(keys[b.authority]))
    && (forall t :: t in b.transactions && t.sender != MINT_ACCOUNT ==> Authentic(keys, t))
  }

  lemma {:induction false} ReplayIsSigned(rules: Rules, initial: map<Text, u64>, blocks: seq<Block>)
    requires Replay(rules, initial, blocks).Ok?
    ensures forall b :: b in blocks ==> SignedUnder(rules.keys, b)
    decreases |blocks|
  {
    hide SignedUnder;
    if blocks != [] {
      var front, b := Front(blocks), Tip(blocks);
      ReplayIsSigned(rules, initial, front);
      TipIsSigned(rules, b, AsU32(|front|), LastHash(front), Replay(rules, initial, front).value);
      assert forall x :: x in blocks ==> x == b || x in front;
    }
  }

  lemma TipIsSigned(rules: Rules, b: Block, index: u32, previousHash: Digest, acc: Accumulator)
    requires VerifyBlock(rules, b, index, previousHash, acc).Ok?
    ensures SignedUnder(rules.keys, b)
  {
    hide HashOf, Authentic;
    AcceptedAreAuthentic(rules.keys, acc, b.transactions);
  }

  ghost predicate RulesGrow(from: Rules, to: Rules) {
    from.authorities <= to.authorities && Extends(to.keys, from.keys)
  }

  /** Learning names never invalidates a valid chain nor changes what it computes. */
  lemma {:induction false} ReplayMonotone(rules: Rules, more: Rules, initial: map<Text, u64>, blocks: seq<Block>)
    requires RulesGrow(rules, more)
    requires Replay(rules, initial, blocks).Ok?
    ensures Replay(more, initial, blocks) == Replay(rules, initial, blocks)
  {
    ReplayTrusts(rules, initial, blocks);
    assert TrustsBlocks(more, blocks);
    ReplayTransfers(rules, more, initial, blocks);
  }

  /** A prefix of a valid chain is valid. */
  lemma {:induction false} ReplayPrefix(rules: Rules, initial: map<Text, u64>, blocks: seq<Block>, k: nat)
    requires k <= |blocks| && Replay(rules, initial, blocks).Ok?
    ensures Replay(rules, initial, blocks[..k]).Ok?
    decreases |blocks| - k
  {
    if k < |blocks| {
      ReplayPrefix(rules, initial, blocks, k + 1);
      assert Front(blocks[..k + 1]) == blocks[..k];
    } else {
      assert blocks[..k] == blocks;
    }
  }

  /** The first invalid block decides the verdict on the whole chain. */
  lemma {:induction false} FirstErrorWins(rules: Rules, initial: map<Text, u64>, blocks: seq<Block>, k: nat)
    requires k <= |blocks| && Replay(rules, initial, blocks[..k]).Err?
    ensures Replay(rules, initial, blocks) == Replay(rules, initial, blocks[..k])
    decreases |blocks| - k
  {
    if k < |blocks| {
      assert blocks[..k + 1] == blocks[..k] + [blocks[k]];
      ReplayAppend(rules, initial, blocks[..k], blocks[k]);
      FirstErrorWins(rules, initial, blocks, k + 1);
    } else {
      assert blocks[..k] == blocks;
    }
  }

  /** Every block of a valid chain carries its own position. */
  lemma BlockCarriesItsIndex(rules: Rules, initial: map<Text, u64>, blocks: seq<Block>, k: nat)
    requires k < |blocks| && Replay(rules, initial, blocks).Ok?
    ensures blocks[k].index == AsU32(k)
  {
    ReplayPrefix(rules, initial, blocks, k + 1);
    assert Tip(blocks[..k + 1]) == blocks[k];
  }

  // ----- The transaction index. -----

  type Index = map<Digest, (nat, nat)>

  /** Inserts the transactions of block `height`, the first of them at position `position`. */
  function IndexBlock(index: Index, height: nat, position: nat, txs: seq<Transaction>): Index
    decreases txs
  {
    if txs == [] then index
    else IndexBlock(index[txs[0].id := (height, position)], height, position + 1, txs[1..])
  }

  /** The index a rebuild computes. */
  function IndexOf(blocks: seq<Block>): Index
    decreases |blocks|
  {
    if blocks == [] then map[]
    else IndexBlock(IndexOf(Front(blocks)), |blocks| - 1, 0, Tip(blocks).transactions)
  }

  /** `get_transaction`. */
  function Lookup(index: Index, blocks: seq<Block>, id: Digest): Option<Transaction> {
    if id !in index then None
    else
      var (height, position) := index[id];
      if height >= |blocks| then None
      else if position >= |blocks[height].transactions| then None
      else Some(blocks[height].transactions[position])
  }

  /** The first transaction with this id, found by scanning. */
  function Scan(txs: seq<Transaction>, id: Digest): Option<Transaction> {
    if txs == [] then None
    else if txs[0].id == id then Some(txs[0])
    else Scan(txs[1..], id)
  }

  lemma IndexAppend(blocks: seq<Block>, b: Block)
    ensures IndexOf(blocks + [b]) == IndexBlock(IndexOf(blocks), |blocks|, 0, b.transactions)
  {
    assert Front(blocks + [b]) == blocks;
  }

  /** The index knows exactly the ids on chain and every entry points at a transaction with that id. */
  ghost predicate Indexes(index: Index, blocks: seq<Block>) {
    && index.Keys == Ids(AllTransactions(blocks))
    && forall id :: id in index ==> PointsAt(index[id], blocks, id)
  }

  ghost predicate PointsAt(entry: (nat, nat), blocks: seq<Block>, id: Digest) {
    && entry.0 < |blocks|
    && entry.1 < |blocks[entry.0].transactions|
    && blocks[entry.0].transactions[entry.1].id == id
  }

  lemma {:induction false} IndexBlockKnows(index: Index, height: nat, position: nat, txs: seq<Transaction>,
                                           blocks: seq<Block>)
    requires height < |blocks| && position + |txs| == |blocks[height].transactions|
    requires txs == blocks[height].transactions[position..]
    requires forall id :: id in index ==> PointsAt(index[id], blocks, id)
    ensures var r := IndexBlock(index, height, position, txs);
      && r.Keys == index.Keys + Ids(txs)
      && forall id :: id in r ==> PointsAt(r[id], blocks, id)
    decreases txs
  {
    if txs != [] {
      assert txs[0] == blocks[height].transactions[position];
      IndexBlockKnows(index[txs[0].id := (height, position)], height, position + 1, txs[1..], blocks);
      IdsHead(txs);
    }
  }

  lemma {:induction false} IndexOfIndexes(blocks: seq<Block>)
    ensures Indexes(IndexOf(blocks), blocks)
    decreases |blocks|
  {
    if blocks != [] {
      var front, b := Front(blocks), Tip(blocks);
      IndexOfIndexes(front);
      assert Ids(AllTransactions(blocks)) == Ids(AllTransactions(front)) + Ids(b.transactions);
      forall id | id in IndexOf(front)
        ensures PointsAt(IndexOf(front)[id], blocks, id)
      {
        assert PointsAt(IndexOf(front)[id], front, id);
      }
      IndexBlockKnows(IndexOf(front), |front|, 0, b.transactions, blocks);
    }
  }

  lemma {:induction false} ScanFinds(txs: seq<Transaction>, t: Transaction)
    requires DistinctIds(txs) && t in txs
    ensures Scan(txs, t.id) == Some(t)
  {
    if txs[0] != t {
      var i :| 0 <= i < |txs| && txs[i] == t;
      assert txs[0].id != txs[i].id;
      assert txs[1..][i - 1] == t;
      ScanFinds(txs[1..], t);
    }
  }

  lemma {:induction false} ScanMisses(txs: seq<Transaction>, id: Digest)
    requires id !in Ids(txs)
    ensures Scan(txs, id) == None
  {
    if txs != [] {
      IdsHead(txs);
      ScanMisses(txs[1..], id);
    }
  }

  lemma {:induction false} AllTransactionsContains(blocks: seq<Block>, h: nat, t: Transaction)
    requires h < |blocks| && t in blocks[h].transactions
    ensures t in AllTransactions(blocks)
    decreases |blocks|
  {
    if h < |blocks| - 1 {
      AllTransactionsContains(Front(blocks), h, t);
    }
  }

  /** On a valid chain the index answers every id exactly as a linear scan of all blocks would. */
  lemma LookupIsScan(rules: Rules, initial: map<Text, u64>, blocks: seq<Block>, id: Digest)
    requires Replay(rules, initial, blocks).Ok?
    ensures Lookup(IndexOf(blocks), blocks, id) == Scan(AllTransactions(blocks), id)
  {
    var index, txs := IndexOf(blocks), AllTransactions(blocks);
    ValidChainAccounting(rules, initial, blocks, MINT_ACCOUNT);
    IndexOfIndexes(blocks);
    if id in index {
      assert PointsAt(index[id], blocks, id);
      var t := blocks[index[id].0].transactions[index[id].1];
      AllTransactionsContains(blocks, index[id].0, t);
      ScanFinds(txs, t);
    } else {
      ScanMisses(txs, id);
    }
  }
}
