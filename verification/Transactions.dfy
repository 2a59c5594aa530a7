/** Symbolic cryptography: a digest records what was hashed, a signature who signed which message. */
module Crypto {
  import opened Prelude

  datatype VerifyingKey = VerifyingKey(seed: nat)

  datatype SigningKey = SigningKey(seed: nat) {
    function Public(): VerifyingKey {
      VerifyingKey(seed)
    }
  }

  /** A string holding a hash. `Literal` is any text that no hash function produced. */
  datatype Digest =
    | Sha256(bytes: seq<byte>)
    | Blake2b(chunks: seq<Chunk>)
    | Literal(text: Text)
  {
    /** Length of the text: both hashes are written as 32 bytes in hexadecimal. */
    function Length(): nat {
      if Literal? then |text| else 64
    }
  }

  /** One `update` of a running hasher. */
  datatype Chunk =
    | Bytes(bytes: seq<byte>)
    | DigestText(digest: Digest)
    | SignatureBytes(signature: Signature)

  /** The two signing domains, "blockrock.transaction.v1" and "blockrock.block.v1". */
  datatype Message =
    | TransactionMessage(bytes: seq<byte>)
    | BlockMessage(hash: Digest)

  datatype Signature = Signature(signer: VerifyingKey, message: Message)

  function Sign(key: SigningKey, message: Message): Signature {
    Signature(key.Public(), message)
  }

  predicate Verifies(key: VerifyingKey, message: Message, signature: Signature) {
    signature == Signature(key, message)
  }
}

/** `blockrock-core/src/transaction.rs`. */
module Transactions {
  import opened Prelude
  import opened Crypto
  import opened Wire

  const MAX_PAYLOAD_BYTES: nat := 4 * 1024
  const TRANSACTION_OVERHEAD: nat := 128

  function ComputeId(c: Content): Digest {
    Sha256(SigningPayload(c))
  }

  datatype Transaction = Transaction(
    id: Digest,
    sender: Text,
    receiver: Text,
    amount: u64,
    nonce: u64,
    payload: Option<Text>,
    signature: Option<Signature>)
  {
    function Body(): Content {
      Content(sender, receiver, amount, nonce, payload)
    }

    predicate HasValidId() {
      id == ComputeId(Body())
    }

    function PayloadLength(): nat {
      if payload.None? then 0 else |payload.value|
    }

    function Weight(): nat {
      id.Length() + |sender| + |receiver| + PayloadLength() + TRANSACTION_OVERHEAD
    }

    predicate PayloadWithinLimit() {
      PayloadLength() <= MAX_PAYLOAD_BYTES
    }

    predicate Verify(key: VerifyingKey) {
      && signature.Some?
      && HasValidId()
      && Verifies(key, TransactionMessage(SigningPayload(Body())), signature.value)
    }
  }

  /** `Transaction::new_with_payload`: build the content, then sign it. */
  function NewTransaction(c: Content, key: SigningKey): Transaction {
    Transaction(ComputeId(c), c.sender, c.receiver, c.amount, c.nonce, c.payload,
                Some(Sign(key, TransactionMessage(SigningPayload(c)))))
  }

  /** A valid id determines the whole content. */
  lemma ValidIdsIdentify(a: Transaction, b: Transaction)
    requires a.HasValidId() && b.HasValidId() && a.id == b.id
    ensures a.Body() == b.Body()
  {
    SigningPayloadInjective(a.Body(), b.Body());
  }

  /** Signing binds: a transaction verifies under exactly one key, and a signature lifted onto
      different content never verifies. */
  lemma SignatureBinds(c: Content, key: SigningKey, t: Transaction, other: VerifyingKey)
    requires t.signature == NewTransaction(c, key).signature
    ensures t.Verify(other) <==> t.Body() == c && t.HasValidId() && other == key.Public()
  {
    if t.Verify(other) {
      SigningPayloadInjective(t.Body(), c);
    }
  }
}

/** `blockrock-core/src/block.rs`. */
module Blocks {
  import opened Prelude
  import opened Crypto
  import opened Wire
  import opened Transactions

  datatype Block = Block(
    index: u32,
    timestamp: u64,
    transactions: seq<Transaction>,
    previousHash: Digest,
    hash: Digest,
    authority: Text,
    authoritySignature: Option<Signature>)
  {
    predicate IsHashValid() {
      hash == HashOf(this)
    }

    predicate VerifySeal(key: VerifyingKey) {
      authoritySignature.Some? && Verifies(key, BlockMessage(hash), authoritySignature.value)
    }

    function Sealed(key: SigningKey): Block {
      this.(authoritySignature := Some(Sign(key, BlockMessage(hash))))
    }
  }

  /** What one transaction feeds to the block hasher. Its payload enters only through its id. */
  function TransactionChunks(t: Transaction): seq<Chunk> {
    [DigestText(t.id), Bytes(t.sender), Bytes(t.receiver),
     Bytes(LittleEndian(t.amount, 8)), Bytes(LittleEndian(t.nonce, 8))]
    + if t.signature.Some? then [SignatureBytes(t.signature.value)] else []
  }

  function AllTransactionChunks(txs: seq<Transaction>): seq<Chunk> {
    if txs == [] then [] else TransactionChunks(txs[0]) + AllTransactionChunks(txs[1..])
  }

  /** The hash covers every field except the hash itself and the seal. */
  function HashOf(b: Block): Digest {
    Blake2b([Bytes(LittleEndian(b.index, 4)), Bytes(LittleEndian(b.timestamp, 8))]
            + AllTransactionChunks(b.transactions)
            + [DigestText(b.previousHash), Bytes(b.authority)])
  }

  /** `Block::with_timestamp`: an unsealed block. */
  function NewBlock(index: u32, transactions: seq<Transaction>, previousHash: Digest, authority: Text,
                    timestamp: u64): Block {
    var draft := Block(index, timestamp, transactions, previousHash, Literal([]), authority, None);
    draft.(hash := HashOf(draft))
  }

  function SealedBlock(index: u32, transactions: seq<Transaction>, previousHash: Digest, authority: Text,
                       key: SigningKey, timestamp: u64): Block {
    NewBlock(index, transactions, previousHash, authority, timestamp).Sealed(key)
  }

  lemma {:induction false} AllTransactionChunksAppend(txs: seq<Transaction>, t: Transaction)
    ensures AllTransactionChunks(txs + [t]) == AllTransactionChunks(txs) + TransactionChunks(t)
  {
    if txs == [] {
      assert [t][1..] == [];
    } else {
      AllTransactionChunksAppend(txs[1..], t);
      assert (txs + [t])[1..] == txs[1..] + [t];
    }
  }

  method FeedTransaction(fed: seq<Chunk>, tx: Transaction) returns (r: seq<Chunk>)
    ensures r == fed + TransactionChunks(tx)
  {
    r := fed + [DigestText(tx.id)];
    r := r + [Bytes(tx.sender)];
    r := r + [Bytes(tx.receiver)];
    r := r + [Bytes(LittleEndian(tx.amount, 8))];
    r := r + [Bytes(LittleEndian(tx.nonce, 8))];
    if tx.signature.Some? {
      r := r + [SignatureBytes(tx.signature.value)];
    }
  }

  /** `calculate_hash` as the code runs it, one `update` at a time. */
  method CalculateHash(b: Block) returns (hash: Digest)
    ensures hash == HashOf(b)
  {
    var fed: seq<Chunk> := [Bytes(LittleEndian(b.index, 4)), Bytes(LittleEndian(b.timestamp, 8))];
    ghost var head := fed;
    for i := 0 to |b.transactions|
      invariant fed == head + AllTransactionChunks(b.transactions[..i])
    {
      AllTransactionChunksAppend(b.transactions[..i], b.transactions[i]);
      assert b.transactions[..i + 1] == b.transactions[..i] + [b.transactions[i]];
      fed := FeedTransaction(fed, b.transactions[i]);
    }
    assert b.transactions[..|b.transactions|] == b.transactions;
    fed := fed + [DigestText(b.previousHash), Bytes(b.authority)];
    hash := Blake2b(fed);
  }

  /** What `add_block` seals is well-formed for whoever holds the sealing key. */
  lemma SealedBlockVerifies(index: u32, txs: seq<Transaction>, previousHash: Digest, authority: Text,
                            key: SigningKey, timestamp: u64, other: VerifyingKey)
    ensures var b := SealedBlock(index, txs, previousHash, authority, key, timestamp);
            && b.IsHashValid()
            && (b.VerifySeal(other) <==> other == key.Public())
  {
  }
}
