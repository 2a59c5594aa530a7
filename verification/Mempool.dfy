/**
 `blockrock-core/src/mempool.rs`: a hash map of pending transactions and a running byte count. The map yields
 its values in no particular order, so every loop over it takes them in an arbitrary one.
 */
module MempoolClass {
  import opened Prelude
  import opened Crypto
  import opened Wire
  import opened Transactions
  import opened Sequences
  import opened Ledger
  import opened Pool

  /** The transactions of `txs` whose id has been visited. */
  function Visited(txs: seq<Transaction>, ids: set<Digest>): seq<Transaction> {
    if txs == [] then []
    else (if txs[0].id in ids then [txs[0]] else []) + Visited(txs[1..], ids)
  }

  lemma {:induction false} VisitedAll(txs: seq<Transaction>, ids: set<Digest>)
    requires Ids(txs) <= ids
    ensures Visited(txs, ids) == txs
  {
    if txs != [] {
      IdsHead(txs);
      VisitedAll(txs[1..], ids);
    }
  }

  lemma {:induction false} VisitedNone(txs: seq<Transaction>, s: Text)
    ensures Visited(txs, {}) == [] && Of(Visited(txs, {}), s) == [] && Amounts(Of(Visited(txs, {}), s)) == 0
  {
    if txs != [] {
      VisitedNone(txs[1..], s);
    }
  }

  lemma VisitedStep(txs: seq<Transaction>, ids: set<Digest>)
    requires txs != []
    ensures Visited(txs, ids)
         == if txs[0].id in ids then [txs[0]] + Visited(txs[1..], ids) else Visited(txs[1..], ids)
  {
  }

  lemma {:induction false} VisitedUnrelated(txs: seq<Transaction>, ids: set<Digest>, id: Digest)
    requires id !in Ids(txs)
    ensures Visited(txs, ids + {id}) == Visited(txs, ids)
  {
    if txs != [] {
      IdsHead(txs);
      VisitedUnrelated(txs[1..], ids, id);
    }
  }

  /** `after` holds one more transaction than `before`, namely `t`. */
  ghost predicate Gains(before: seq<Transaction>, after: seq<Transaction>, t: Transaction, s: Text) {
    && multiset(after) == multiset(before) + multiset{t}
    && |Of(after, s)| == |Of(before, s)| + (if t.sender == s then 1 else 0)
    && Amounts(Of(after, s)) == Amounts(Of(before, s)) + (if t.sender == s then t.amount else 0)
  }

  lemma GainsHead(txs: seq<Transaction>, t: Transaction, s: Text)
    ensures Gains(txs, [t] + txs, t, s)
  {
    assert ([t] + txs)[1..] == txs;
    OfHead([t] + txs, s);
  }

  lemma GainsCons(x: Transaction, before: seq<Transaction>, after: seq<Transaction>, t: Transaction, s: Text)
    requires Gains(before, after, t, s)
    ensures Gains([x] + before, [x] + after, t, s)
  {
    assert ([x] + before)[1..] == before && ([x] + after)[1..] == after;
    OfHead([x] + before, s);
    OfHead([x] + after, s);
  }

  /** Visiting one more transaction adds exactly that one. */
  lemma {:induction false} VisitOne(txs: seq<Transaction>, ids: set<Digest>, t: Transaction, s: Text)
    requires DistinctIds(txs) && t in txs && t.id !in ids
    ensures Gains(Visited(txs, ids), Visited(txs, ids + {t.id}), t, s)
  {
    hide Gains, Visited, Ids;
    var rest := txs[1..];
    var before, after := Visited(rest, ids), Visited(rest, ids + {t.id});
    DistinctIdsTail(txs);
    VisitedStep(txs, ids);
    VisitedStep(txs, ids + {t.id});
    if txs[0] == t {
      IdNotIn(rest, t.id);
      VisitedUnrelated(rest, ids, t.id);
      GainsHead(before, t, s);
    } else {
      assert t in rest;
      VisitOne(rest, ids, t, s);
      if txs[0].id in ids {
        GainsCons(txs[0], before, after, t, s);
      }
    }
  }

  lemma IdNotIn(txs: seq<Transaction>, id: Digest)
    requires forall t :: t in txs ==> t.id != id
    ensures id !in Ids(txs)
  {
  }

  /** The stable sort by (sender, nonce), by insertion from the back. */
  method SortBySenderAndNonce(txs: seq<Transaction>) returns (sorted: seq<Transaction>)
    ensures sorted == Drained(txs)
    ensures Sorted(sorted) && multiset(sorted) == multiset(txs)
    ensures forall sender, nonce :: Alike(sorted, sender, nonce) == Alike(txs, sender, nonce)
  {
    DrainedSorted(txs);
    DrainedMultiset(txs);
    forall sender, nonce
      ensures Alike(Drained(txs), sender, nonce) == Alike(txs, sender, nonce)
    {
      DrainedIsStable(txs, sender, nonce);
    }
    sorted := [];
    for i := |txs| downto 0
      invariant sorted == Drained(txs[i..])
    {
      assert txs[i..][1..] == txs[i + 1..];
      sorted := Insert(txs[i], sorted);
    }
    assert txs[0..] == txs;
  }

  class Mempool {
    var pending: map<Digest, Transaction>
    var bytes: nat
    /** The pending transactions in the order they were admitted. */
    ghost var log: seq<Transaction>

    ghost predicate Valid()
      reads this
    {
      && DistinctIds(log)
      && pending.Keys == Ids(log)
      && (forall t :: t in log ==> pending[t.id] == t)
      && bytes == TotalWeight(log)
    }

    constructor ()
      ensures Valid() && log == []
    {
      pending, bytes, log := map[], 0, [];
    }

    /** `clone`. */
    constructor Clone(other: Mempool)
      requires other.Valid()
      ensures Valid() && log == other.log
    {
      pending, bytes, log := other.pending, other.bytes, other.log;
    }

    lemma PendingIsLogged(id: Digest)
      requires Valid() && id in pending
      ensures pending[id] in log && pending[id].id == id
    {
      var t :| t in log && t.id == id;
    }

    /** How many pending transactions `sender` has: filter and count over the values of the map. */
    method CountQueued(sender: Text) returns (count: nat)
      requires Valid()
      ensures count == |Of(log, sender)|
    {
      hide Visited, Of, Amounts, Ids, TotalWeight, DistinctIds;
      count := 0;
      var rest := pending.Keys;
      ghost var visited: set<Digest> := {};
      VisitedNone(log, sender);
      while rest != {}
        invariant rest + visited == pending.Keys && rest !! visited
        invariant count == |Of(Visited(log, visited), sender)|
        decreases rest
      {
        var id :| id in rest;
        var t := pending[id];
        PendingIsLogged(id);
        VisitOne(log, visited, t, sender);
        if t.sender == sender {
          count := count + 1;
        }
        rest, visited := rest - {id}, visited + {id};
      }
      VisitedAll(log, visited);
    }

    /** What `sender` has already committed: filter, map and sum over the values of the map. */
    method SumQueued(sender: Text) returns (spent: nat)
      requires Valid()
      ensures spent == Amounts(Of(log, sender))
    {
      hide Visited, Of, Amounts, Ids, TotalWeight, DistinctIds;
      spent := 0;
      var rest := pending.Keys;
      ghost var visited: set<Digest> := {};
      VisitedNone(log, sender);
      while rest != {}
        invariant rest + visited == pending.Keys && rest !! visited
        invariant spent == Amounts(Of(Visited(log, visited), sender))
        decreases rest
      {
        var id :| id in rest;
        var t := pending[id];
        PendingIsLogged(id);
        VisitOne(log, visited, t, sender);
        if t.sender == sender {
          spent := spent + t.amount;
        }
        rest, visited := rest - {id}, visited + {id};
      }
      VisitedAll(log, visited);
    }

    method Queue(t: Transaction, publicKeys: Keys, balances: map<Text, u64>, nonces: map<Text, nat>,
                 existsOnChain: bool)
      returns (r: Result<Digest, ChainError>)
      requires Valid()
      modifies this
      ensures Valid()
      ensures match Refusal(publicKeys, LedgerState(balances, nonces), existsOnChain, old(log), t)
              case Some(e) => r == Err(e) && log == old(log) && pending == old(pending) && bytes == old(bytes)
              case None => r == Ok(t.id) && log == old(log) + [t]
    {
      hide SigningPayload, Of, Amounts, TotalWeight;
      if !t.HasValidId() {
        return Err(TamperedTransaction(t.id));
      }
      if !t.PayloadWithinLimit() {
        return Err(PayloadTooLarge(t.id, t.PayloadLength(), MAX_PAYLOAD_BYTES));
      }
      if existsOnChain {
        return Err(DuplicateTransaction(t.id));
      }
      if t.id in pending {
        return Err(DuplicateTransaction(t.id));
      }
      if t.sender !in publicKeys {
        return Err(UnknownSender(t.sender));
      }
      if !t.Verify(publicKeys[t.sender]) {
        return Err(InvalidSignature(t.id));
      }
      var queued := CountQueued(t.sender);
      var expected := (if t.sender in nonces then nonces[t.sender] else 0) + queued;
      if t.nonce != expected {
        return Err(InvalidNonce(t.sender, expected, t.nonce));
      }
      var spent := SumQueued(t.sender);
      var balance := if t.sender in balances then balances[t.sender] else 0;
      var available := if spent <= balance then balance - spent else 0;
      if available < t.amount {
        return Err(InsufficientFunds(t.sender, available, t.amount));
      }
      var weight := t.Weight();
      if bytes + weight > MAX_MEMPOOL_BYTES {
        return Err(MempoolFull(bytes, MAX_MEMPOOL_BYTES));
      }
      Admit(t);
      return Ok(t.id);
    }

    method Admit(t: Transaction)
      requires Valid() && t.id !in pending
      modifies this
      ensures Valid() && log == old(log) + [t]
    {
      DistinctIdsAppend(log, t);
      TotalWeightAppend(log, t);
      pending := pending[t.id := t];
      bytes := bytes + t.Weight();
      log := log + [t];
    }

    /** The values of the map, in whatever order it yields them. */
    method Collect() returns (collected: seq<Transaction>)
      requires Valid()
      ensures multiset(collected) == multiset(log)
    {
      hide Visited, Of, Amounts, Ids, TotalWeight, DistinctIds;
      collected := [];
      var rest := pending.Keys;
      ghost var visited: set<Digest> := {};
      VisitedNone(log, MINT_ACCOUNT);
      while rest != {}
        invariant rest + visited == pending.Keys && rest !! visited
        invariant multiset(collected) == multiset(Visited(log, visited))
        decreases rest
      {
        var id :| id in rest;
        PendingIsLogged(id);
        VisitOne(log, visited, pending[id], MINT_ACCOUNT);
        collected := collected + [pending[id]];
        rest, visited := rest - {id}, visited + {id};
      }
      VisitedAll(log, visited);
    }

    /** The pending transactions sorted by (sender, nonce). When no two of them share sender and nonce the
        result does not depend on the order of the map. */
    method SortedPending() returns (txs: seq<Transaction>)
      requires Valid()
      ensures Sorted(txs) && multiset(txs) == multiset(log)
      ensures DistinctKeys(log) ==> txs == Drained(log)
    {
      var collected := Collect();
      txs := SortBySenderAndNonce(collected);
      DrainedSorted(collected);
      DrainedMultiset(collected);
      DrainedSorted(log);
      DrainedMultiset(log);
      if DistinctKeys(log) {
        DistinctKeysDrained(log, txs);
        SortedUnique(txs, Drained(log));
      }
    }

    /** Empties the pool and returns what it held, sorted. */
    method Drain() returns (txs: seq<Transaction>)
      requires Valid()
      modifies this
      ensures Valid() && log == [] && pending == map[] && bytes == 0
      ensures Sorted(txs) && multiset(txs) == multiset(old(log))
      ensures DistinctKeys(old(log)) ==> txs == Drained(old(log))
    {
      txs := SortedPending();
      pending, bytes, log := map[], 0, [];
    }

    /** `len`. */
    method Len() returns (n: nat)
      requires Valid()
      ensures n == |log|
    {
      IdsCount(log);
      n := |pending.Keys|;
    }

    /** `is_worth_sealing`. */
    predicate IsWorthSealing()
      reads this
    {
      bytes >= SEAL_THRESHOLD_BYTES
    }
  }

  lemma {:induction false} IdsCount(txs: seq<Transaction>)
    requires DistinctIds(txs)
    ensures |Ids(txs)| == |txs|
  {
    if txs != [] {
      DistinctIdsTail(txs);
      IdsCount(txs[1..]);
      IdsHead(txs);
    }
  }

  /** Keys stay distinct under rearrangement, as long as the transactions are. */
  lemma DistinctKeysDrained(log: seq<Transaction>, txs: seq<Transaction>)
    requires DistinctKeys(log) && DistinctIds(log) && multiset(txs) == multiset(log)
    ensures DistinctKeys(txs)
  {
    DistinctIdsPermutation(log, txs);
    MultisetMembers(log, txs);
    forall i, j | 0 <= i < j < |txs|
      ensures txs[i].sender != txs[j].sender || txs[i].nonce != txs[j].nonce
    {
      assert txs[i] in log && txs[j] in log && txs[i].id != txs[j].id;
      var a :| 0 <= a < |log| && log[a] == txs[i];
      var b :| 0 <= b < |log| && log[b] == txs[j];
    }
  }
}
