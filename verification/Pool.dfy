/**
 The mempool (`blockrock-core/src/mempool.rs`) as the sequence of pending transactions in the order they
 were admitted, and its reconciliation with a new ledger state.
 */
module Pool {
  import opened Prelude
  import opened Crypto
  import opened Transactions
  import opened Sequences
  import opened Ledger

  const SEAL_THRESHOLD_BYTES: nat := 64 * 1024
  const MAX_MEMPOOL_BYTES: nat := 1024 * 1024

  /** Nonce the next submission of `s` must carry: the chain's, plus what `s` has queued. */
  function ExpectedNonce(st: LedgerState, pool: seq<Transaction>, s: Text): nat {
    st.NextNonce(s) + |Of(pool, s)|
  }

  /** Funds `s` may still commit: `saturating_sub` of what it has queued. */
  function Available(st: LedgerState, pool: seq<Transaction>, s: Text): nat {
    var spent := Amounts(Of(pool, s));
    if spent <= st.Balance(s) then st.Balance(s) - spent else 0
  }

  /** Why `Mempool::queue` refuses `t`, checks in the order of the code; `None` when it admits it. */
  function Refusal(keys: Keys, st: LedgerState, onChain: bool, pool: seq<Transaction>, t: Transaction)
    : Option<ChainError>
  {
    if !t.HasValidId() then Some(TamperedTransaction(t.id))
    else if !t.PayloadWithinLimit() then Some(PayloadTooLarge(t.id, t.PayloadLength(), MAX_PAYLOAD_BYTES))
    else if onChain then Some(DuplicateTransaction(t.id))
    else if t.id in Ids(pool) then Some(DuplicateTransaction(t.id))
    else if t.sender !in keys then Some(UnknownSender(t.sender))
    else if !t.Verify(keys[t.sender]) then Some(InvalidSignature(t.id))
    else if t.nonce != ExpectedNonce(st, pool, t.sender) then
      Some(InvalidNonce(t.sender, ExpectedNonce(st, pool, t.sender), t.nonce))
    else if Available(st, pool, t.sender) < t.amount then
      Some(InsufficientFunds(t.sender, Available(st, pool, t.sender), t.amount))
    else if TotalWeight(pool) + t.Weight() > MAX_MEMPOOL_BYTES then
      Some(MempoolFull(TotalWeight(pool), MAX_MEMPOOL_BYTES))
    else None
  }

  /** `Blockchain::queue_transaction`: value may be minted in a block but never through the pool. */
  function Refused(keys: Keys, st: LedgerState, seen: set<Digest>, pool: seq<Transaction>, t: Transaction)
    : Option<ChainError>
  {
    if t.sender == MINT_ACCOUNT then Some(ReservedSender(t.sender))
    else Refusal(keys, st, t.id in seen, pool, t)
  }

  function Queue(keys: Keys, st: LedgerState, seen: set<Digest>, pool: seq<Transaction>, t: Transaction)
    : seq<Transaction>
  {
    if Refused(keys, st, seen, pool, t).None? then pool + [t] else pool
  }

  /** The invariant of a pool over a ledger: every sender's pending transactions are authentic, carry the
      nonces that follow its chain nonce, and are covered by its balance; none is on chain; the weight
      stays under the cap. */
  ghost predicate Sound(keys: Keys, st: LedgerState, seen: set<Digest>, pool: seq<Transaction>) {
    && Payable(keys, Accumulator(st, seen), pool)
    && TotalWeight(pool) <= MAX_MEMPOOL_BYTES
  }

  lemma QueueKeepsSender(st: LedgerState, pool: seq<Transaction>, t: Transaction, s: Text)
    requires SenderPayable(st, Of(pool, s), s)
    requires t.sender == s ==> t.nonce == ExpectedNonce(st, pool, s) && t.amount <= Available(st, pool, s)
    ensures SenderPayable(st, Of(pool + [t], s), s)
  {
    OfAppend(pool, t, s);
    if t.sender == s {
      AmountsAppend(Of(pool, s), t);
    }
  }

  lemma {:induction false} QueueKeepsSound(keys: Keys, st: LedgerState, seen: set<Digest>, pool: seq<Transaction>, t: Transaction)
    requires Sound(keys, st, seen, pool)
    ensures Sound(keys, st, seen, Queue(keys, st, seen, pool, t))
  {
    if Refused(keys, st, seen, pool, t).None? {
      AdmissionKeepsSound(keys, st, seen, pool, t);
    }
  }

  lemma {:induction false} AdmissionKeepsSound(keys: Keys, st: LedgerState, seen: set<Digest>, pool: seq<Transaction>, t: Transaction)
    requires Sound(keys, st, seen, pool)
    requires Authentic(keys, t) && t.sender != MINT_ACCOUNT && t.id !in seen && t.id !in Ids(pool)
    requires t.nonce == ExpectedNonce(st, pool, t.sender) && t.amount <= Available(st, pool, t.sender)
    requires TotalWeight(pool) + t.Weight() <= MAX_MEMPOOL_BYTES
    ensures Sound(keys, st, seen, pool + [t])
  {
    var bigger := pool + [t];
    TotalWeightAppend(pool, t);
    forall s
      ensures SenderPayable(st, Of(bigger, s), s)
    {
      assert SenderPayable(st, Of(pool, s), s);
      QueueKeepsSender(st, pool, t, s);
    }
    DistinctIdsAppend(pool, t);
  }

  /** While the pool is sound, what a sender has queued never exceeds its balance: the `u64` sum cannot
      overflow and the saturating subtraction never saturates. */
  lemma NothingSaturates(keys: Keys, st: LedgerState, seen: set<Digest>, pool: seq<Transaction>, s: Text)
    requires Sound(keys, st, seen, pool)
    ensures Amounts(Of(pool, s)) < TWO_TO_THE_64
    ensures Available(st, pool, s) + Amounts(Of(pool, s)) == st.Balance(s)
  {
    assert SenderPayable(st, Of(pool, s), s);
  }

  // ----- Orders in which a pool can be sealed. -----

  lemma PayableKeepsNonceOrder(keys: Keys, acc: Accumulator, pool: seq<Transaction>)
    requires Payable(keys, acc, pool)
    ensures KeepsNonceOrder(pool)
  {
    forall i, j | 0 <= i < j < |pool| && pool[i].sender == pool[j].sender
      ensures pool[i].nonce < pool[j].nonce
    {
      assert SenderPayable(acc.state, Of(pool, pool[i].sender), pool[i].sender);
      ConsecutiveAscends(pool, i, j, acc.state.NextNonce(pool[i].sender));
    }
  }

  /** Any rearrangement that keeps each sender's nonce order is just as payable. */
  lemma RearrangedIsPayable(keys: Keys, acc: Accumulator, pool: seq<Transaction>, txs: seq<Transaction>)
    requires Payable(keys, acc, pool)
    requires multiset(txs) == multiset(pool) && KeepsNonceOrder(txs)
    ensures Payable(keys, acc, txs)
    ensures forall s :: Of(txs, s) == Of(pool, s)
  {
    PayableKeepsNonceOrder(keys, acc, pool);
    MultisetMembers(txs, pool);
    DistinctIdsPermutation(pool, txs);
    forall s
      ensures Of(txs, s) == Of(pool, s) && SenderPayable(acc.state, Of(txs, s), s)
    {
      SameViews(txs, pool, s);
      assert SenderPayable(acc.state, Of(pool, s), s);
    }
    assert Ids(txs) == Ids(pool);
  }

  lemma PayableHasDistinctKeys(keys: Keys, acc: Accumulator, pool: seq<Transaction>)
    requires Payable(keys, acc, pool)
    ensures DistinctKeys(pool)
  {
    PayableKeepsNonceOrder(keys, acc, pool);
  }

  /** The drained order is one of them. */
  lemma DrainedKeepsNonceOrder(keys: Keys, acc: Accumulator, pool: seq<Transaction>)
    requires Payable(keys, acc, pool)
    ensures KeepsNonceOrder(Drained(pool))
  {
    var txs := Drained(pool);
    DrainedSorted(pool);
    DrainedMultiset(pool);
    PayableKeepsNonceOrder(keys, acc, pool);
    MultisetMembers(txs, pool);
    DistinctIdsPermutation(pool, txs);
    forall i, j | 0 <= i < j < |txs| && txs[i].sender == txs[j].sender
      ensures txs[i].nonce < txs[j].nonce
    {
      assert InOrder(txs[i], txs[j]);
      TextLessTotal(txs[i].sender, txs[j].sender);
      assert txs[i] in pool && txs[j] in pool;
      assert txs[i].id != txs[j].id;
    }
  }

  lemma DrainedIsPayable(keys: Keys, acc: Accumulator, pool: seq<Transaction>)
    requires Payable(keys, acc, pool)
    ensures Payable(keys, acc, Drained(pool))
    ensures forall s :: Of(Drained(pool), s) == Of(pool, s)
  {
    DrainedMultiset(pool);
    DrainedKeepsNonceOrder(keys, acc, pool);
    RearrangedIsPayable(keys, acc, pool, Drained(pool));
  }

  // ----- Reconciliation. -----

  /** Queues `rest` one after the other, ignoring refusals. */
  function Requeue(keys: Keys, st: LedgerState, seen: set<Digest>, pool: seq<Transaction>, rest: seq<Transaction>)
    : seq<Transaction>
    decreases rest
  {
    if rest == [] then pool
    else Requeue(keys, st, seen, Queue(keys, st, seen, pool, rest[0]), rest[1..])
  }

  /** The refusals met on the way. */
  function Refusals(keys: Keys, st: LedgerState, seen: set<Digest>, pool: seq<Transaction>, rest: seq<Transaction>)
    : seq<ChainError>
    decreases rest
  {
    if rest == [] then []
    else
      (match Refused(keys, st, seen, pool, rest[0])
       case None => []
       case Some(e) => [e])
      + Refusals(keys, st, seen, Queue(keys, st, seen, pool, rest[0]), rest[1..])
  }

  /** `reconcile_mempool`: drain, then queue again against the new state. */
  function Reconciled(keys: Keys, st: LedgerState, seen: set<Digest>, pool: seq<Transaction>): seq<Transaction> {
    Requeue(keys, st, seen, [], Drained(pool))
  }

  /** The run of `queue` that starts at nonce `n` and stops at the first transaction `funds` cannot pay. */
  function Run(queue: seq<Transaction>, n: nat, funds: nat): seq<Transaction> {
    if queue == [] then []
    else if queue[0].nonce < n then Run(queue[1..], n, funds)
    else if queue[0].nonce == n && queue[0].amount <= funds then
      [queue[0]] + Run(queue[1..], n + 1, funds - queue[0].amount)
    else []
  }

  /** Started at its own first nonce, a queue yields its longest affordable prefix. */
  lemma {:induction false} RunFromHead(queue: seq<Transaction>, n: nat, funds: nat)
    requires Consecutive(queue, n)
    ensures var r := Run(queue, n, funds);
      && |r| <= |queue|
      && r == queue[..|r|]
      && Amounts(r) <= funds
      && (|r| == |queue| || Amounts(r) + queue[|r|].amount > funds)
  {
    if queue != [] {
      assert queue[0].nonce == n + 0;
      ConsecutiveDrop(queue, n, 1);
      if queue[0].amount <= funds {
        var tail := Run(queue[1..], n + 1, funds - queue[0].amount);
        RunFromHead(queue[1..], n + 1, funds - queue[0].amount);
        assert ([queue[0]] + tail)[1..] == tail;
        assert queue[..1 + |tail|] == [queue[0]] + queue[1..][..|tail|];
      }
    }
  }

  lemma ConsecutiveDrop(queue: seq<Transaction>, n: nat, k: nat)
    requires Consecutive(queue, n) && k <= |queue|
    ensures Consecutive(queue[k..], n + k)
  {
    forall i | 0 <= i < |queue| - k
      ensures queue[k..][i].nonce == n + k + i
    {
      assert queue[k..][i] == queue[k + i];
    }
  }

  /** Everything below the starting nonce is skipped. */
  lemma {:induction false} RunSkips(queue: seq<Transaction>, base: nat, k: nat, n: nat, funds: nat)
    requires Consecutive(queue, base) && k <= |queue| && base + k <= n
    ensures Run(queue, n, funds) == Run(queue[k..], n, funds)
  {
    if k == 0 {
      assert queue[0..] == queue;
    } else {
      assert queue[0].nonce == base + 0;
      ConsecutiveDrop(queue, base, 1);
      RunSkips(queue[1..], base + 1, k - 1, n, funds);
      assert queue[1..][k - 1..] == queue[k..];
    }
  }

  /** What `Run` computes, said without it: the longest affordable stretch of the queue that starts at
      nonce `n`; nothing when the queue does not contain nonce `n`. */
  lemma RunIsLongest(queue: seq<Transaction>, base: nat, n: nat, funds: nat)
    requires Consecutive(queue, base)
    ensures var r := Run(queue, n, funds);
      && (n < base || base + |queue| <= n ==> r == [])
      && (base <= n < base + |queue| ==>
            && n - base + |r| <= |queue|
            && r == queue[n - base..][..|r|]
            && Amounts(r) <= funds
            && (n - base + |r| == |queue| || Amounts(r) + queue[n - base + |r|].amount > funds))
  {
    if n < base {
      assert queue != [] ==> queue[0].nonce == base + 0;
    } else if base + |queue| <= n {
      RunSkips(queue, base, |queue|, n, funds);
    } else {
      RunSkips(queue, base, n - base, n, funds);
      ConsecutiveDrop(queue, base, n - base);
      RunFromHead(queue[n - base..], n, funds);
    }
  }

  /** Confirming the first `k` transactions of a queue keeps all the others. */
  lemma RunKeepsSuffix(queue: seq<Transaction>, base: nat, k: nat, funds: nat)
    requires Consecutive(queue, base) && k <= |queue|
    requires Amounts(queue[k..]) <= funds
    ensures Run(queue, base + k, funds) == queue[k..]
  {
    RunSkips(queue, base, k, base + k, funds);
    ConsecutiveDrop(queue, base, k);
    RunKeepsAll(queue[k..], base + k, funds);
  }

  /** A queue that already starts at the chain nonce and is covered is kept whole. */
  lemma RunKeepsAll(queue: seq<Transaction>, n: nat, funds: nat)
    requires Consecutive(queue, n) && Amounts(queue) <= funds
    ensures Run(queue, n, funds) == queue
  {
    RunFromHead(queue, n, funds);
    var k := |Run(queue, n, funds)|;
    if k < |queue| {
      AmountsPrefixNext(queue, k);
    }
  }

  /** Successive nonces, wherever they start. */
  ghost predicate Steady(queue: seq<Transaction>) {
    forall i :: 0 <= i < |queue| - 1 ==> queue[i + 1].nonce == queue[i].nonce + 1
  }

  ghost predicate Requeueable(keys: Keys, st: LedgerState, seen: set<Digest>, pool: seq<Transaction>,
                              rest: seq<Transaction>) {
    && Sound(keys, st, seen, pool)
    && TotalWeight(pool) + TotalWeight(rest) <= MAX_MEMPOOL_BYTES
    && (forall t :: t in rest ==>
          && Authentic(keys, t) && t.sender != MINT_ACCOUNT && t.id !in Ids(pool)
          && (t.nonce >= st.NextNonce(t.sender) ==> t.id !in seen))
    && DistinctIds(rest)
    && (forall s :: Steady(Of(rest, s)))
  }

  /** The queue after one drained transaction: nonce and funds decide alone. */
  function Advance(st: LedgerState, pool: seq<Transaction>, t: Transaction): seq<Transaction> {
    if t.nonce == ExpectedNonce(st, pool, t.sender) && t.amount <= Available(st, pool, t.sender)
    then pool + [t] else pool
  }

  lemma RequeueOne(keys: Keys, st: LedgerState, seen: set<Digest>, pool: seq<Transaction>, rest: seq<Transaction>)
    requires rest != [] && Requeueable(keys, st, seen, pool, rest)
    ensures Queue(keys, st, seen, pool, rest[0]) == Advance(st, pool, rest[0])
    ensures var r := Refused(keys, st, seen, pool, rest[0]); r.Some? ==> !r.value.MempoolFull?
  {
    assert rest[0] in rest;
  }

  lemma {:induction false} RequeueableTail(keys: Keys, st: LedgerState, seen: set<Digest>, pool: seq<Transaction>, rest: seq<Transaction>)
    requires rest != [] && Requeueable(keys, st, seen, pool, rest)
    ensures Requeueable(keys, st, seen, Queue(keys, st, seen, pool, rest[0]), rest[1..])
  {
    var t, tail := rest[0], rest[1..];
    RequeueOne(keys, st, seen, pool, rest);
    QueueKeepsSound(keys, st, seen, pool, t);
    TotalWeightAppend(pool, t);
    DistinctIdsTail(rest);
    assert forall x :: x in pool + [t] ==> x in pool || x == t;
    forall s
      ensures Steady(Of(tail, s))
    {
      SteadyTail(rest, s);
    }
  }

  lemma SteadyTail(rest: seq<Transaction>, s: Text)
    requires rest != [] && Steady(Of(rest, s))
    ensures Steady(Of(rest[1..], s))
  {
    OfHead(rest, s);
    if rest[0].sender == s {
      var view, tail := Of(rest, s), Of(rest[1..], s);
      forall i | 0 <= i < |tail| - 1
        ensures tail[i + 1].nonce == tail[i].nonce + 1
      {
        assert tail[i] == view[i + 1] && tail[i + 1] == view[i + 2];
      }
    }
  }

  /** What a sender holds plus the run still to come. */
  function Outlook(held: seq<Transaction>, view: seq<Transaction>, n: nat, funds: nat): seq<Transaction> {
    held + Run(view, n, funds)
  }

  lemma {:induction false} OutlookTake(held: seq<Transaction>, view: seq<Transaction>, n: nat, funds: nat)
    requires view != [] && view[0].nonce == n && view[0].amount <= funds
    ensures Outlook(held + [view[0]], view[1..], n + 1, funds - view[0].amount) == Outlook(held, view, n, funds)
  {
    var run := Run(view[1..], n + 1, funds - view[0].amount);
    assert held + ([view[0]] + run) == held + [view[0]] + run;
  }

  lemma {:induction false} OutlookPass(held: seq<Transaction>, view: seq<Transaction>, n: nat, funds: nat)
    requires view != [] && Steady(view) && !(view[0].nonce == n && view[0].amount <= funds)
    ensures Outlook(held, view[1..], n, funds) == Outlook(held, view, n, funds)
  {
    assert |view| > 1 ==> view[0 + 1].nonce == view[0].nonce + 1;
  }

  function Prospect(st: LedgerState, pool: seq<Transaction>, rest: seq<Transaction>, s: Text): seq<Transaction> {
    Outlook(Of(pool, s), Of(rest, s), ExpectedNonce(st, pool, s), Available(st, pool, s))
  }

  lemma AdvanceOfSender(st: LedgerState, pool: seq<Transaction>, t: Transaction)
    requires SenderPayable(st, Of(pool, t.sender), t.sender)
    ensures var s := t.sender; var next := Advance(st, pool, t);
      if t.nonce == ExpectedNonce(st, pool, s) && t.amount <= Available(st, pool, s) then
        && Of(next, s) == Of(pool, s) + [t]
        && ExpectedNonce(st, next, s) == ExpectedNonce(st, pool, s) + 1
        && Available(st, next, s) == Available(st, pool, s) - t.amount
      else next == pool
  {
    OfAppend(pool, t, t.sender);
    AmountsAppend(Of(pool, t.sender), t);
  }

  lemma AdvanceOfOther(st: LedgerState, pool: seq<Transaction>, t: Transaction, s: Text)
    requires t.sender != s
    ensures Of(Advance(st, pool, t), s) == Of(pool, s)
  {
    OfAppend(pool, t, s);
  }

  lemma {:induction false} OwnStep(st: LedgerState, pool: seq<Transaction>, rest: seq<Transaction>)
    requires rest != [] && Steady(Of(rest, rest[0].sender))
    requires SenderPayable(st, Of(pool, rest[0].sender), rest[0].sender)
    ensures Prospect(st, Advance(st, pool, rest[0]), rest[1..], rest[0].sender) == Prospect(st, pool, rest, rest[0].sender)
  {
    var t, s := rest[0], rest[0].sender;
    var next, view, tail := Advance(st, pool, t), Of(rest, s), Of(rest[1..], s);
    var n, funds := ExpectedNonce(st, pool, s), Available(st, pool, s);
    OfHead(rest, s);
    AdvanceOfSender(st, pool, t);
    assert view[1..] == tail;
    if t.nonce == n && t.amount <= funds {
      OutlookTake(Of(pool, s), view, n, funds);
    } else {
      OutlookPass(Of(pool, s), view, n, funds);
    }
  }

  lemma {:induction false} OtherStep(st: LedgerState, pool: seq<Transaction>, rest: seq<Transaction>, s: Text)
    requires rest != [] && rest[0].sender != s
    ensures Prospect(st, Advance(st, pool, rest[0]), rest[1..], s) == Prospect(st, pool, rest, s)
  {
    OfHead(rest, s);
    AdvanceOfOther(st, pool, rest[0], s);
  }

  /** No step changes any sender's prospect. */
  lemma {:induction false} RunStep(st: LedgerState, pool: seq<Transaction>, rest: seq<Transaction>, s: Text)
    requires rest != [] && Steady(Of(rest, s)) && SenderPayable(st, Of(pool, s), s)
    ensures Prospect(st, Advance(st, pool, rest[0]), rest[1..], s) == Prospect(st, pool, rest, s)
  {
    if rest[0].sender == s {
      OwnStep(st, pool, rest);
    } else {
      OtherStep(st, pool, rest, s);
    }
  }

  lemma {:induction false} RequeueExact(keys: Keys, st: LedgerState, seen: set<Digest>, pool: seq<Transaction>,
                                        rest: seq<Transaction>, s: Text)
    requires Requeueable(keys, st, seen, pool, rest)
    ensures var r := Requeue(keys, st, seen, pool, rest);
      && Sound(keys, st, seen, r)
      && Of(r, s) == Prospect(st, pool, rest, s)
      && TotalWeight(r) <= TotalWeight(pool) + TotalWeight(rest)
    ensures forall e :: e in Refusals(keys, st, seen, pool, rest) ==> !e.MempoolFull?
    decreases rest
  {
    if rest != [] {
      var next := Queue(keys, st, seen, pool, rest[0]);
      RequeueOne(keys, st, seen, pool, rest);
      RunStep(st, pool, rest, s);
      RequeueableTail(keys, st, seen, pool, rest);
      TotalWeightAppend(pool, rest[0]);
      RequeueExact(keys, st, seen, next, rest[1..], s);
    } else {
      assert Of(pool, s) + [] == Of(pool, s);
    }
  }

  lemma ConsecutiveIsSteady(queue: seq<Transaction>, n: nat)
    requires Consecutive(queue, n)
    ensures Steady(queue)
  {
    forall i | 0 <= i < |queue| - 1
      ensures queue[i + 1].nonce == queue[i].nonce + 1
    {
      assert queue[i].nonce == n + i && queue[i + 1].nonce == n + (i + 1);
    }
  }

  lemma {:induction false} DrainedIsRequeueable(oldKeys: Keys, was: Accumulator, keys: Keys, st: LedgerState, seen: set<Digest>,
                             pool: seq<Transaction>)
    requires Sound(oldKeys, was.state, was.seen, pool)
    requires Extends(keys, oldKeys)
    requires forall t :: t in pool && t.nonce >= st.NextNonce(t.sender) ==> t.id !in seen
    ensures Requeueable(keys, st, seen, [], Drained(pool))
    ensures forall s :: Of(Drained(pool), s) == Of(pool, s)
  {
    var drained := Drained(pool);
    DrainedIsPayable(oldKeys, was, pool);
    DrainedWeight(pool);
    DrainedMultiset(pool);
    MultisetMembers(drained, pool);
    forall s
      ensures Steady(Of(drained, s))
    {
      assert SenderPayable(was.state, Of(drained, s), s);
      ConsecutiveIsSteady(Of(drained, s), was.state.NextNonce(s));
    }
    EmptyIsSound(keys, st, seen);
  }

  lemma EmptyIsSound(keys: Keys, st: LedgerState, seen: set<Digest>)
    ensures Sound(keys, st, seen, [])
  {
    var empty: seq<Transaction> := [];
    assert forall s :: Of(empty, s) == empty;
  }

  lemma {:induction false} ReconciledView(oldKeys: Keys, was: Accumulator, keys: Keys, st: LedgerState, seen: set<Digest>,
                       pool: seq<Transaction>, s: Text)
    requires Sound(oldKeys, was.state, was.seen, pool)
    requires Extends(keys, oldKeys)
    requires forall t :: t in pool && t.nonce >= st.NextNonce(t.sender) ==> t.id !in seen
    ensures Of(Reconciled(keys, st, seen, pool), s) == Run(Of(pool, s), st.NextNonce(s), st.Balance(s))
  {
    DrainedIsRequeueable(oldKeys, was, keys, st, seen, pool);
    RequeueExact(keys, st, seen, [], Drained(pool), s);
    ProspectFromNothing(st, Drained(pool), s);
  }

  lemma ProspectFromNothing(st: LedgerState, rest: seq<Transaction>, s: Text)
    ensures Prospect(st, [], rest, s) == Run(Of(rest, s), st.NextNonce(s), st.Balance(s))
  {
    var empty: seq<Transaction> := [];
    assert Of(empty, s) == empty;
  }

  /** Reconciliation is exact. Whatever the new ledger state, each sender keeps precisely the longest run
      of its old pending transactions that starts at its new chain nonce and fits its new balance; the
      pool is sound again, no heavier than before, and the cap refuses nothing on the way. */
  lemma {:induction false} ReconciliationIsExact(oldKeys: Keys, was: Accumulator, keys: Keys, st: LedgerState, seen: set<Digest>,
                              pool: seq<Transaction>)
    requires Sound(oldKeys, was.state, was.seen, pool)
    requires Extends(keys, oldKeys)
    requires forall t :: t in pool && t.nonce >= st.NextNonce(t.sender) ==> t.id !in seen
    ensures Sound(keys, st, seen, Reconciled(keys, st, seen, pool))
    ensures forall s :: Of(Reconciled(keys, st, seen, pool), s) == Run(Of(pool, s), st.NextNonce(s), st.Balance(s))
    ensures TotalWeight(Reconciled(keys, st, seen, pool)) <= TotalWeight(pool)
    ensures forall e :: e in Refusals(keys, st, seen, [], Drained(pool)) ==> !e.MempoolFull?
  {
    forall s
      ensures Of(Reconciled(keys, st, seen, pool), s) == Run(Of(pool, s), st.NextNonce(s), st.Balance(s))
    {
      ReconciledView(oldKeys, was, keys, st, seen, pool, s);
    }
    DrainedIsRequeueable(oldKeys, was, keys, st, seen, pool);
    DrainedWeight(pool);
    RequeueExact(keys, st, seen, [], Drained(pool), MINT_ACCOUNT);
  }
}
