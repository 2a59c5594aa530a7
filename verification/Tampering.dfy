/**
 What the block hash protects (`calculate_hash`, `blockrock-core/src/block.rs`, checked by `verify_block`). Every
 statement changes one thing at a time, so none of them depends on where one field ends and the next begins in the
 hashed bytes.
 */
module Tampering {
  import opened Prelude
  import opened Crypto
  import opened Wire
  import opened Transactions
  import opened Blocks
  import opened Ledger
  import opened Validation

  /** `u` is `t` with one of the fields changed that go into the block hash. The payload goes into the id. */
  predicate ChangesOneField(t: Transaction, u: Transaction) {
    || (u.id != t.id && u == t.(id := u.id))
    || (u.sender != t.sender && u == t.(sender := u.sender))
    || (u.receiver != t.receiver && u == t.(receiver := u.receiver))
    || (u.amount != t.amount && u == t.(amount := u.amount))
    || (u.nonce != t.nonce && u == t.(nonce := u.nonce))
    || (u.signature != t.signature && u == t.(signature := u.signature))
  }

  /** A change to the transactions of a block. */
  datatype Alteration =
    | Replace(k: nat, t: Transaction)
    | Insert(k: nat, t: Transaction)
    | Remove(k: nat)

  predicate Alters(change: Alteration, txs: seq<Transaction>) {
    match change
    case Replace(k, t) => k < |txs| && ChangesOneField(txs[k], t)
    case Insert(k, _) => k <= |txs|
    case Remove(k) => k < |txs|
  }

  function Altered(change: Alteration, txs: seq<Transaction>): seq<Transaction>
    requires Alters(change, txs)
  {
    match change
    case Replace(k, t) => txs[..k] + [t] + txs[k + 1..]
    case Insert(k, t) => txs[..k] + [t] + txs[k..]
    case Remove(k) => txs[..k] + txs[k + 1..]
  }

  lemma LittleEndianInjective(x: u64, y: u64)
    requires LittleEndian(x, 8) == LittleEndian(y, 8)
    ensures x == y
  {
    U64RoundTrip(x);
    U64RoundTrip(y);
  }

  lemma IndexInjective(x: u32, y: u32)
    requires LittleEndian(x, 4) == LittleEndian(y, 4)
    ensures x == y
  {
    assert Pow256(4) == TWO_TO_THE_32;
    LittleEndianRoundTrip(x, 4);
    LittleEndianRoundTrip(y, 4);
  }

  lemma ChunksDetermine(t: Transaction, u: Transaction)
    requires TransactionChunks(t) == TransactionChunks(u)
    ensures t.id == u.id && t.sender == u.sender && t.receiver == u.receiver
    ensures t.amount == u.amount && t.nonce == u.nonce && t.signature == u.signature
  {
    var a, b := TransactionChunks(t), TransactionChunks(u);
    assert a[0] == b[0] && a[1] == b[1] && a[2] == b[2] && a[3] == b[3] && a[4] == b[4];
    LittleEndianInjective(t.amount, u.amount);
    LittleEndianInjective(t.nonce, u.nonce);
    assert |a| == |b|;
    if t.signature.Some? {
      assert a[5] == b[5];
    }
  }

  lemma FieldsAreFed(t: Transaction, u: Transaction)
    requires ChangesOneField(t, u)
    ensures TransactionChunks(t) != TransactionChunks(u)
  {
    hide TransactionChunks;
    if TransactionChunks(t) == TransactionChunks(u) {
      ChunksDetermine(t, u);
    }
  }

  lemma {:induction false} ChunksConcat(a: seq<Transaction>, b: seq<Transaction>)
    ensures AllTransactionChunks(a + b) == AllTransactionChunks(a) + AllTransactionChunks(b)
  {
    if a == [] {
      assert a + b == b;
    } else {
      assert (a + b)[1..] == a[1..] + b;
      ChunksConcat(a[1..], b);
    }
  }

  lemma ChunksAround(before: seq<Transaction>, t: Transaction, after: seq<Transaction>)
    ensures AllTransactionChunks(before + [t] + after)
         == AllTransactionChunks(before) + TransactionChunks(t) + AllTransactionChunks(after)
  {
    ChunksConcat(before + [t], after);
    AllTransactionChunksAppend(before, t);
  }

  lemma MiddleMatters<T>(before: seq<T>, x: seq<T>, y: seq<T>, after: seq<T>)
    requires before + x + after == before + y + after
    ensures x == y
  {
    assert |x| == |y|;
    assert x == (before + x + after)[|before|..|before| + |x|];
    assert y == (before + y + after)[|before|..|before| + |y|];
  }

  lemma AlterationIsFed(change: Alteration, txs: seq<Transaction>)
    requires Alters(change, txs)
    ensures AllTransactionChunks(Altered(change, txs)) != AllTransactionChunks(txs)
  {
    var k := change.k;
    hide TransactionChunks, ChangesOneField;
    match change
    case Replace(_, t) =>
      assert txs == txs[..k] + [txs[k]] + txs[k + 1..];
      ChunksAround(txs[..k], t, txs[k + 1..]);
      ChunksAround(txs[..k], txs[k], txs[k + 1..]);
      FieldsAreFed(txs[k], t);
      if AllTransactionChunks(Altered(change, txs)) == AllTransactionChunks(txs) {
        MiddleMatters(AllTransactionChunks(txs[..k]), TransactionChunks(txs[k]), TransactionChunks(t),
                      AllTransactionChunks(txs[k + 1..]));
      }
    case Insert(_, t) =>
      assert txs == txs[..k] + txs[k..];
      ChunksAround(txs[..k], t, txs[k..]);
      ChunksConcat(txs[..k], txs[k..]);
      SomethingIsFed(t);
    case Remove(_) =>
      assert txs == txs[..k] + [txs[k]] + txs[k + 1..];
      ChunksAround(txs[..k], txs[k], txs[k + 1..]);
      ChunksConcat(txs[..k], txs[k + 1..]);
      SomethingIsFed(txs[k]);
  }

  lemma SomethingIsFed(t: Transaction)
    ensures |TransactionChunks(t)| > 0
  {
  }

  // ----- The hash. -----

  /** Adding or removing a transaction, or changing one hashed field of one, changes the block hash. */
  lemma TransactionsAreHashed(b: Block, change: Alteration)
    requires Alters(change, b.transactions)
    ensures HashOf(b.(transactions := Altered(change, b.transactions))) != HashOf(b)
  {
    AlterationIsFed(change, b.transactions);
    var other := b.(transactions := Altered(change, b.transactions));
    hide Altered, AllTransactionChunks;
    if HashOf(other) == HashOf(b) {
      MiddleMatters([Bytes(LittleEndian(b.index, 4)), Bytes(LittleEndian(b.timestamp, 8))],
                    AllTransactionChunks(b.transactions), AllTransactionChunks(other.transactions),
                    [DigestText(b.previousHash), Bytes(b.authority)]);
    }
  }

  /** So does changing the index, the timestamp, the previous hash or the authority; the stored hash and the seal are
      not covered. */
  lemma HeaderIsHashed(b: Block, index: u32, timestamp: u64, previousHash: Digest, authority: Text, hash: Digest,
                       seal: Option<Signature>)
    ensures HashOf(b.(index := index)) == HashOf(b) <==> index == b.index
    ensures HashOf(b.(timestamp := timestamp)) == HashOf(b) <==> timestamp == b.timestamp
    ensures HashOf(b.(previousHash := previousHash)) == HashOf(b) <==> previousHash == b.previousHash
    ensures HashOf(b.(authority := authority)) == HashOf(b) <==> authority == b.authority
    ensures HashOf(b.(hash := hash, authoritySignature := seal)) == HashOf(b)
  {
    var middle := AllTransactionChunks(b.transactions);
    FirstAndLast(Bytes(LittleEndian(b.index, 4)), Bytes(LittleEndian(b.timestamp, 8)), middle,
                 DigestText(b.previousHash), Bytes(b.authority));
    FirstAndLast(Bytes(LittleEndian(index, 4)), Bytes(LittleEndian(b.timestamp, 8)), middle,
                 DigestText(b.previousHash), Bytes(b.authority));
    FirstAndLast(Bytes(LittleEndian(b.index, 4)), Bytes(LittleEndian(timestamp, 8)), middle,
                 DigestText(b.previousHash), Bytes(b.authority));
    FirstAndLast(Bytes(LittleEndian(b.index, 4)), Bytes(LittleEndian(b.timestamp, 8)), middle,
                 DigestText(previousHash), Bytes(b.authority));
    FirstAndLast(Bytes(LittleEndian(b.index, 4)), Bytes(LittleEndian(b.timestamp, 8)), middle,
                 DigestText(b.previousHash), Bytes(authority));
    hide AllTransactionChunks, LittleEndian;
    if HashOf(b.(index := index)) == HashOf(b) {
      IndexInjective(index, b.index);
    }
    if HashOf(b.(timestamp := timestamp)) == HashOf(b) {
      LittleEndianInjective(timestamp, b.timestamp);
    }
  }

  lemma FirstAndLast(a: Chunk, b: Chunk, middle: seq<Chunk>, c: Chunk, d: Chunk)
    ensures var s := [a, b] + middle + [c, d];
      s[0] == a && s[1] == b && s[|s| - 2] == c && s[|s| - 1] == d
  {
  }

  // ----- The verdict. -----

  /** A block that verified is refused as corrupted once its transactions are altered and hash and seal are kept,
      whatever state it is judged in. */
  lemma AlteredBlockIsRefused(rules: Rules, b: Block, index: u32, previousHash: Digest, acc: Accumulator,
                              change: Alteration, later: Accumulator)
    requires VerifyBlock(rules, b, index, previousHash, acc).Ok? && Alters(change, b.transactions)
    ensures var other := b.(transactions := Altered(change, b.transactions));
      VerifyBlock(rules, other, index, previousHash, later) == Err(CorruptedHash(index))
  {
    TransactionsAreHashed(b, change);
    hide HashOf, Altered, ApplyAll;
  }

  /** The same for the header; a changed index or link is noticed before the hash is computed. */
  lemma AlteredHeaderIsRefused(rules: Rules, b: Block, index: u32, previousHash: Digest, acc: Accumulator, later: Accumulator,
                               otherIndex: u32, timestamp: u64, otherPrevious: Digest, authority: Text)
    requires VerifyBlock(rules, b, index, previousHash, acc).Ok?
    ensures timestamp != b.timestamp ==>
      VerifyBlock(rules, b.(timestamp := timestamp), index, previousHash, later) == Err(CorruptedHash(index))
    ensures authority != b.authority ==>
      VerifyBlock(rules, b.(authority := authority), index, previousHash, later) == Err(CorruptedHash(index))
    ensures otherIndex != b.index ==>
      && VerifyBlock(rules, b.(index := otherIndex), index, previousHash, later) == Err(WrongIndex(index, otherIndex))
      && VerifyBlock(rules, b.(index := otherIndex), otherIndex, previousHash, later) == Err(CorruptedHash(otherIndex))
    ensures otherPrevious != b.previousHash ==>
      && VerifyBlock(rules, b.(previousHash := otherPrevious), index, previousHash, later) == Err(BrokenLink(index))
      && VerifyBlock(rules, b.(previousHash := otherPrevious), index, otherPrevious, later) == Err(CorruptedHash(index))
  {
    HeaderIsHashed(b, otherIndex, timestamp, otherPrevious, authority, b.hash, b.authoritySignature);
    hide HashOf, ApplyAll;
  }

  lemma {:induction false} ApplyAllPrefix(keys: Keys, acc: Accumulator, a: seq<Transaction>, b: seq<Transaction>)
    requires ApplyAll(keys, acc, a + b).Ok?
    ensures ApplyAll(keys, acc, a).Ok?
    decreases a
  {
    if a != [] {
      assert (a + b)[0] == a[0] && (a + b)[1..] == a[1..] + b;
      ApplyAllPrefix(keys, ApplyTransaction(keys, acc, a[0]).value, a[1..], b);
    }
  }

  /** An altered payload leaves the block hash as it was, and is refused all the same, by the id. */
  lemma AlteredPayloadIsRefused(rules: Rules, b: Block, index: u32, previousHash: Digest, acc: Accumulator, k: nat,
                                payload: Option<Text>)
    requires VerifyBlock(rules, b, index, previousHash, acc).Ok?
    requires k < |b.transactions| && payload != b.transactions[k].payload
    ensures var t := b.transactions[k].(payload := payload);
      var other := b.(transactions := b.transactions[k := t]);
      && HashOf(other) == HashOf(b)
      && VerifyBlock(rules, other, index, previousHash, acc) == Err(TamperedTransaction(t.id))
  {
    var txs, t := b.transactions, b.transactions[k].(payload := payload);
    hide HashOf, ApplyAll, ApplyTransaction;
    PayloadIsNotHashed(b, k, payload);
    TamperedAt(rules.keys, acc, txs, k, t);
  }

  lemma PayloadIsNotHashed(b: Block, k: nat, payload: Option<Text>)
    requires k < |b.transactions|
    ensures HashOf(b.(transactions := b.transactions[k := b.transactions[k].(payload := payload)])) == HashOf(b)
  {
    var txs, t := b.transactions, b.transactions[k].(payload := payload);
    var before, after := txs[..k], txs[k + 1..];
    assert txs == before + [txs[k]] + after && txs[k := t] == before + [t] + after;
    ChunksAround(before, txs[k], after);
    ChunksAround(before, t, after);
    assert TransactionChunks(t) == TransactionChunks(txs[k]);
    hide AllTransactionChunks, TransactionChunks;
  }

  /** A payload swapped into an accepted batch stops it at that transaction. */
  lemma TamperedAt(keys: Keys, acc: Accumulator, txs: seq<Transaction>, k: nat, t: Transaction)
    requires ApplyAll(keys, acc, txs).Ok? && k < |txs|
    requires t.payload != txs[k].payload && t == txs[k].(payload := t.payload)
    ensures ApplyAll(keys, acc, txs[k := t]) == Err(TamperedTransaction(t.id))
  {
    hide ApplyAll, ApplyTransaction;
    var before, after := txs[..k], txs[k + 1..];
    assert txs == before + ([txs[k]] + after) && txs[k := t] == before + ([t] + after);
    ApplyAllPrefix(keys, acc, before, [txs[k]] + after);
    AcceptedAreAuthentic(keys, acc, txs);
    NewPayloadBreaksId(txs[k], t);
    ApplyAllConcat(keys, acc, before, [t] + after);
    FirstIsTampered(keys, ApplyAll(keys, acc, before).value, t, after);
  }

  lemma NewPayloadBreaksId(t: Transaction, u: Transaction)
    requires t.HasValidId() && u.payload != t.payload && u == t.(payload := u.payload)
    ensures !u.HasValidId()
  {
    hide SigningPayload;
    if u.HasValidId() {
      ValidIdsIdentify(u, t);
    }
  }

  lemma FirstIsTampered(keys: Keys, acc: Accumulator, t: Transaction, after: seq<Transaction>)
    requires !t.HasValidId()
    ensures ApplyAll(keys, acc, [t] + after) == Err(TamperedTransaction(t.id))
  {
  }

  /** A valid chain is linked: every block has a valid hash and names the hash of the block before it. */
  lemma {:induction false} ValidChainIsLinked(rules: Rules, initial: map<Text, u64>, blocks: seq<Block>, k: nat)
    requires Replay(rules, initial, blocks).Ok? && k < |blocks|
    ensures blocks[k].IsHashValid()
    ensures blocks[k].previousHash == if k == 0 then ZERO_HASH else blocks[k - 1].hash
    decreases |blocks|
  {
    hide HashOf, ApplyAll;
    if k < |blocks| - 1 {
      ValidChainIsLinked(rules, initial, Front(blocks), k);
    }
  }
}
