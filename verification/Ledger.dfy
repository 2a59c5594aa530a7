/**
 The transition function of the ledger (`apply_transaction`, `blockrock-core/src/blockchain.rs`) and what
 it guarantees for every accepted sequence of transactions: double entry, conservation, no replay.
 */
module Ledger {
  import opened Prelude
  import opened Crypto
  import Wire
  import opened Transactions
  import opened Sequences

  /** The ASCII bytes of "System". */
  const MINT_ACCOUNT: Text := [83, 121, 115, 116, 101, 109]

  datatype ChainError =
    | UnauthorizedAuthority(name: Text)
    | UnknownAuthorityKey(name: Text)
    | AuthorityKeyMismatch(name: Text)
    | UnsealedBlock(index: u32)
    | InvalidSeal(index: u32)
    | WrongIndex(expectedIndex: u32, foundIndex: u32)
    | BrokenLink(index: u32)
    | CorruptedHash(index: u32)
    | GenesisMismatch
    | DuplicateTransaction(id: Digest)
    | TamperedTransaction(id: Digest)
    | ReservedSender(sender: Text)
    | UnknownSender(sender: Text)
    | InvalidSignature(id: Digest)
    | InvalidNonce(sender: Text, expected: nat, found: u64)
    | InsufficientFunds(sender: Text, balance: nat, amount: u64)
    | BalanceOverflow(account: Text)
    | PayloadTooLarge(id: Digest, size: nat, max: nat)
    | MempoolFull(queued: nat, max: nat)

  type Keys = map<Text, VerifyingKey>

  /** Balances and nonces; an absent account holds 0 and expects nonce 0. */
  datatype LedgerState = LedgerState(balances: map<Text, u64>, nonces: map<Text, nat>) {
    function Balance(account: Text): u64 {
      if account in balances then balances[account] else 0
    }

    function NextNonce(account: Text): nat {
      if account in nonces then nonces[account] else 0
    }
  }

  /** The running state of a validation: the ledger so far and every transaction id met so far. */
  datatype Accumulator = Accumulator(state: LedgerState, seen: set<Digest>)

  /** The checks that look at the transaction and the registered keys alone. */
  predicate Authentic(keys: Keys, t: Transaction) {
    && t.HasValidId()
    && t.PayloadWithinLimit()
    && t.sender in keys
    && t.Verify(keys[t.sender])
  }

  /** The checks before any balance is read; `None` when they all pass. */
  function Inspect(keys: Keys, seen: set<Digest>, t: Transaction): Option<ChainError> {
    if !t.HasValidId() then Some(TamperedTransaction(t.id))
    else if t.id in seen then Some(DuplicateTransaction(t.id))
    else if !t.PayloadWithinLimit() then Some(PayloadTooLarge(t.id, t.PayloadLength(), MAX_PAYLOAD_BYTES))
    else if t.sender == MINT_ACCOUNT then None
    else if t.sender !in keys then Some(UnknownSender(t.sender))
    else if !t.Verify(keys[t.sender]) then Some(InvalidSignature(t.id))
    else None
  }

  function Debit(st: LedgerState, t: Transaction): LedgerState
    requires t.amount <= st.Balance(t.sender)
  {
    LedgerState(st.balances[t.sender := st.Balance(t.sender) - t.amount],
                st.nonces[t.sender := st.NextNonce(t.sender) + 1])
  }

  function Credit(st: LedgerState, t: Transaction): Result<LedgerState, ChainError> {
    var credited := st.Balance(t.receiver) + t.amount;
    if credited >= TWO_TO_THE_64 then Err(BalanceOverflow(t.receiver))
    else Ok(st.(balances := st.balances[t.receiver := credited]))
  }

  /** Moves the value: nonce, funds and overflow are checked on the way. Minting debits nobody. */
  function Move(st: LedgerState, t: Transaction): Result<LedgerState, ChainError> {
    if t.sender == MINT_ACCOUNT then Credit(st, t)
    else if t.nonce != st.NextNonce(t.sender) then
      Err(InvalidNonce(t.sender, st.NextNonce(t.sender), t.nonce))
    else if st.Balance(t.sender) < t.amount then
      Err(InsufficientFunds(t.sender, st.Balance(t.sender), t.amount))
    else Credit(Debit(st, t), t)
  }

  function ApplyTransaction(keys: Keys, acc: Accumulator, t: Transaction): Result<Accumulator, ChainError> {
    match Inspect(keys, acc.seen, t)
    case Some(e) => Err(e)
    case None =>
      match Move(acc.state, t)
      case Err(e) => Err(e)
      case Ok(st) => Ok(Accumulator(st, acc.seen + {t.id}))
  }

  function ApplyAll(keys: Keys, acc: Accumulator, txs: seq<Transaction>): Result<Accumulator, ChainError>
    decreases txs
  {
    if txs == [] then Ok(acc)
    else
      match ApplyTransaction(keys, acc, txs[0])
      case Err(e) => Err(e)
      case Ok(next) => ApplyAll(keys, next, txs[1..])
  }

  lemma {:induction false} ApplyAllConcat(keys: Keys, acc: Accumulator, a: seq<Transaction>, b: seq<Transaction>)
    requires ApplyAll(keys, acc, a).Ok?
    ensures ApplyAll(keys, acc, a + b) == ApplyAll(keys, ApplyAll(keys, acc, a).value, b)
    decreases a
  {
    if a == [] {
      assert a + b == b;
    } else {
      var all, rest, r := a + b, a[1..], ApplyTransaction(keys, acc, a[0]);
      assert all[0] == a[0] && all[1..] == rest + b;
      assert r.Ok?;
      ApplyAllConcat(keys, r.value, rest, b);
    }
  }

  // ----- What a failure leaves in the working copy. -----

  /** The working copy after `t` failed with `e`: untouched before the id is recorded, else with the id, and with
      the debit when only the credit failed. */
  function AfterFailure(acc: Accumulator, t: Transaction, e: ChainError): Accumulator {
    if e.TamperedTransaction? || e.DuplicateTransaction? then acc
    else
      var debited := e.BalanceOverflow? && t.sender != MINT_ACCOUNT && t.amount <= acc.state.Balance(t.sender);
      Accumulator(if debited then Debit(acc.state, t) else acc.state, acc.seen + {t.id})
  }

  /** The same for a list of transactions, the first failure of which stops it. */
  function Leftover(keys: Keys, acc: Accumulator, txs: seq<Transaction>): Accumulator
    decreases txs
  {
    if txs == [] then acc
    else
      match ApplyTransaction(keys, acc, txs[0])
      case Err(e) => AfterFailure(acc, txs[0], e)
      case Ok(next) => Leftover(keys, next, txs[1..])
  }

  lemma FailureIsCleanIff(keys: Keys, acc: Accumulator, t: Transaction)
    requires ApplyTransaction(keys, acc, t).Err?
    ensures var e := ApplyTransaction(keys, acc, t).error;
      AfterFailure(acc, t, e) == acc <==> e.TamperedTransaction? || e.DuplicateTransaction?
  {
    var e := ApplyTransaction(keys, acc, t).error;
    hide Wire.SigningPayload;
    if !e.TamperedTransaction? && !e.DuplicateTransaction? {
      assert t.id !in acc.seen && t.id in AfterFailure(acc, t, e).seen;
    }
  }

  lemma {:induction false} LeftoverRemembers(keys: Keys, acc: Accumulator, txs: seq<Transaction>)
    ensures acc.seen <= Leftover(keys, acc, txs).seen
    decreases txs
  {
    if txs != [] && ApplyTransaction(keys, acc, txs[0]).Ok? {
      LeftoverRemembers(keys, ApplyTransaction(keys, acc, txs[0]).value, txs[1..]);
    }
  }

  /** A failed batch leaves the working copy as it was if and only if its very first transaction has a wrong or a
      known id. */
  lemma BatchFailureIsCleanIff(keys: Keys, acc: Accumulator, txs: seq<Transaction>)
    requires ApplyAll(keys, acc, txs).Err?
    ensures Leftover(keys, acc, txs) == acc <==> !txs[0].HasValidId() || txs[0].id in acc.seen
  {
    var first := ApplyTransaction(keys, acc, txs[0]);
    if first.Err? {
      FailureIsCleanIff(keys, acc, txs[0]);
    } else {
      LeftoverRemembers(keys, first.value, txs[1..]);
      assert txs[0].id in Leftover(keys, acc, txs).seen;
    }
  }

  /** Whatever the sender, when the credit overflows the debit has already been made. */
  lemma OverflowComesAfterTheDebit(keys: Keys, acc: Accumulator, t: Transaction)
    requires t.sender != MINT_ACCOUNT && ApplyTransaction(keys, acc, t) == Err(BalanceOverflow(t.receiver))
    ensures var left := AfterFailure(acc, t, BalanceOverflow(t.receiver));
      && left.state.Balance(t.sender) + t.amount == acc.state.Balance(t.sender)
      && left.state.NextNonce(t.sender) == acc.state.NextNonce(t.sender) + 1
  {
  }

  /** Such a transaction exists: one unit for a receiver whose balance is already the largest possible. */
  lemma OverflowWitness(key: SigningKey, sender: Text, receiver: Text)
    requires sender != receiver && sender != MINT_ACCOUNT
    ensures var t := NewTransaction(Wire.Content(sender, receiver, 1, 0, None), key);
      var acc := Accumulator(LedgerState(map[sender := 1, receiver := TWO_TO_THE_64 - 1], map[]), {});
      && ApplyTransaction(map[sender := key.Public()], acc, t) == Err(BalanceOverflow(receiver))
      && AfterFailure(acc, t, BalanceOverflow(receiver)).state.Balance(sender) == 0
  {
    var t := NewTransaction(Wire.Content(sender, receiver, 1, 0, None), key);
    var acc := Accumulator(LedgerState(map[sender := 1, receiver := TWO_TO_THE_64 - 1], map[]), {});
    assert Inspect(map[sender := key.Public()], acc.seen, t) == None;
    hide Wire.SigningPayload;
    assert Debit(acc.state, t).Balance(receiver) == TWO_TO_THE_64 - 1;
  }

  // ----- Double entry. -----

  /** Everything credited to `account`. */
  function Received(txs: seq<Transaction>, account: Text): nat {
    if txs == [] then 0
    else (if txs[0].receiver == account then txs[0].amount else 0) + Received(txs[1..], account)
  }

  /** Everything debited from `account`; minting debits nobody. */
  function Sent(txs: seq<Transaction>, account: Text): nat {
    if account == MINT_ACCOUNT then 0 else Amounts(Of(txs, account))
  }

  function Minted(txs: seq<Transaction>): nat {
    Amounts(Of(txs, MINT_ACCOUNT))
  }

  lemma MoveEntry(st: LedgerState, t: Transaction, next: LedgerState, account: Text)
    requires Move(st, t) == Ok(next)
    ensures next.Balance(account) + (if t.sender == account && account != MINT_ACCOUNT then t.amount else 0)
         == st.Balance(account) + (if t.receiver == account then t.amount else 0)
    ensures next.NextNonce(account)
         == st.NextNonce(account) + if t.sender == account && account != MINT_ACCOUNT then 1 else 0
  {
  }

  /** For every accepted sequence and every account:
      new balance + sent == old balance + received. Self-transfers cancel out. */
  lemma {:induction false} DoubleEntry(keys: Keys, acc: Accumulator, txs: seq<Transaction>, account: Text)
    requires ApplyAll(keys, acc, txs).Ok?
    ensures ApplyAll(keys, acc, txs).value.state.Balance(account) + Sent(txs, account)
         == acc.state.Balance(account) + Received(txs, account)
    decreases txs
  {
    if txs != [] {
      var next := ApplyTransaction(keys, acc, txs[0]).value;
      MoveEntry(acc.state, txs[0], next.state, account);
      DoubleEntry(keys, next, txs[1..], account);
      OfHead(txs, account);
    }
  }

  /** Total supply: the sum of all balances. */
  ghost function Supply(balances: map<Text, u64>): nat
    decreases |balances|
  {
    if balances == map[] then 0
    else
      var a :| a in balances;
      balances[a] + Supply(balances - {a})
  }

  lemma {:induction false} SupplyWithout(balances: map<Text, u64>, a: Text)
    requires a in balances
    ensures Supply(balances) == balances[a] + Supply(balances - {a})
    decreases |balances|
  {
    var b :| b in balances && Supply(balances) == balances[b] + Supply(balances - {b});
    if b != a {
      SupplyWithout(balances - {b}, a);
      SupplyWithout(balances - {a}, b);
      assert balances - {b} - {a} == balances - {a} - {b};
    }
  }

  lemma SupplyUpdate(balances: map<Text, u64>, a: Text, v: u64)
    ensures Supply(balances[a := v]) + (if a in balances then balances[a] else 0) == Supply(balances) + v
  {
    SupplyWithout(balances[a := v], a);
    assert balances[a := v] - {a} == balances - {a};
    if a in balances {
      SupplyWithout(balances, a);
    } else {
      assert balances - {a} == balances;
    }
  }

  lemma SupplyOfDebit(st: LedgerState, t: Transaction)
    requires t.amount <= st.Balance(t.sender)
    ensures Supply(Debit(st, t).balances) + t.amount == Supply(st.balances)
  {
    SupplyUpdate(st.balances, t.sender, st.Balance(t.sender) - t.amount);
    if t.sender !in st.balances {
      assert t.amount == 0;
    }
  }

  lemma MoveSupply(st: LedgerState, t: Transaction, next: LedgerState)
    requires Move(st, t) == Ok(next)
    ensures Supply(next.balances) == Supply(st.balances) + if t.sender == MINT_ACCOUNT then t.amount else 0
  {
    var paid := if t.sender == MINT_ACCOUNT then st else Debit(st, t);
    if t.sender != MINT_ACCOUNT {
      SupplyOfDebit(st, t);
    }
    SupplyUpdate(paid.balances, t.receiver, paid.Balance(t.receiver) + t.amount);
  }

  /** Transfers conserve the supply; it grows by exactly what is minted. */
  lemma {:induction false} Conservation(keys: Keys, acc: Accumulator, txs: seq<Transaction>)
    requires ApplyAll(keys, acc, txs).Ok?
    ensures Supply(ApplyAll(keys, acc, txs).value.state.balances) == Supply(acc.state.balances) + Minted(txs)
    decreases txs
  {
    if txs != [] {
      var next := ApplyTransaction(keys, acc, txs[0]).value;
      MoveSupply(acc.state, txs[0], next.state);
      Conservation(keys, next, txs[1..]);
      OfHead(txs, MINT_ACCOUNT);
    }
  }

  // ----- No replay. -----

  lemma {:induction false} IdsAccumulate(keys: Keys, acc: Accumulator, txs: seq<Transaction>)
    requires ApplyAll(keys, acc, txs).Ok?
    ensures ApplyAll(keys, acc, txs).value.seen == acc.seen + Ids(txs)
    ensures Ids(txs) !! acc.seen
    ensures DistinctIds(txs)
    decreases txs
  {
    if txs != [] {
      IdsAccumulate(keys, ApplyTransaction(keys, acc, txs[0]).value, txs[1..]);
      IdsHead(txs);
      forall j | 1 <= j < |txs|
        ensures txs[j].id != txs[0].id
      {
        assert txs[j] == txs[1..][j - 1];
        assert txs[j].id in Ids(txs[1..]);
      }
    }
  }

  lemma IdsHead(txs: seq<Transaction>)
    requires txs != []
    ensures Ids(txs) == {txs[0].id} + Ids(txs[1..])
  {
    assert forall t :: t in txs <==> t == txs[0] || t in txs[1..];
  }

  /** In every accepted sequence each ordinary sender's nonces are n, n+1, n+2, ... and the stored nonce
      advances by their number. */
  lemma {:induction false} NoReplay(keys: Keys, acc: Accumulator, txs: seq<Transaction>, sender: Text)
    requires ApplyAll(keys, acc, txs).Ok?
    requires sender != MINT_ACCOUNT
    ensures Consecutive(Of(txs, sender), acc.state.NextNonce(sender))
    ensures ApplyAll(keys, acc, txs).value.state.NextNonce(sender)
         == acc.state.NextNonce(sender) + |Of(txs, sender)|
    decreases txs
  {
    if txs != [] {
      var next := ApplyTransaction(keys, acc, txs[0]).value;
      MoveEntry(acc.state, txs[0], next.state, sender);
      NoReplay(keys, next, txs[1..], sender);
      OfHead(txs, sender);
      ConsecutiveHead(txs, sender, acc.state.NextNonce(sender));
    }
  }

  lemma ConsecutiveHead(txs: seq<Transaction>, s: Text, n: nat)
    requires txs != []
    ensures txs[0].sender == s ==>
      (Consecutive(Of(txs, s), n) <==> txs[0].nonce == n && Consecutive(Of(txs[1..], s), n + 1))
    ensures txs[0].sender != s ==> (Consecutive(Of(txs, s), n) <==> Consecutive(Of(txs[1..], s), n))
  {
    OfHead(txs, s);
    if txs[0].sender == s {
      var view, rest := Of(txs, s), Of(txs[1..], s);
      assert forall i :: 0 <= i < |rest| ==> rest[i] == view[i + 1];
      if Consecutive(view, n) {
        assert view[0].nonce == n + 0;
      }
      if txs[0].nonce == n && Consecutive(rest, n + 1) {
        forall i | 0 <= i < |view|
          ensures view[i].nonce == n + i
        {
          assert i > 0 ==> view[i] == rest[i - 1];
        }
      }
    }
  }

  /** Every accepted transaction is authentic, minted ones excepted. */
  lemma {:induction false} AcceptedAreAuthentic(keys: Keys, acc: Accumulator, txs: seq<Transaction>)
    requires ApplyAll(keys, acc, txs).Ok?
    ensures forall t :: t in txs ==> t.HasValidId() && (t.sender != MINT_ACCOUNT ==> Authentic(keys, t))
    decreases txs
  {
    if txs != [] {
      AcceptedAreAuthentic(keys, ApplyTransaction(keys, acc, txs[0]).value, txs[1..]);
      assert txs == [txs[0]] + txs[1..];
    }
  }

  // ----- Growing key sets. -----

  /** `larger` keeps every binding of `smaller`. */
  ghost predicate Extends(larger: Keys, smaller: Keys) {
    forall name :: name in smaller ==> name in larger && larger[name] == smaller[name]
  }

  /** The outcome depends on the keys of the senders alone. */
  lemma {:induction false} ApplyAllNeedsSenderKeys(keys: Keys, other: Keys, acc: Accumulator, txs: seq<Transaction>)
    requires forall t :: t in txs && t.sender != MINT_ACCOUNT ==>
      t.sender in keys && t.sender in other && keys[t.sender] == other[t.sender]
    ensures ApplyAll(other, acc, txs) == ApplyAll(keys, acc, txs)
    decreases txs
  {
    if txs != [] {
      var r := ApplyTransaction(keys, acc, txs[0]);
      assert ApplyTransaction(other, acc, txs[0]) == r;
      if r.Ok? {
        ApplyAllNeedsSenderKeys(keys, other, r.value, txs[1..]);
      }
    }
  }

  // ----- What can be sealed. -----

  /** A batch in which every sender's transactions are authentic, in nonce sequence and affordable,
      in whatever order different senders are interleaved. */
  ghost predicate Payable(keys: Keys, acc: Accumulator, txs: seq<Transaction>) {
    && DistinctIds(txs)
    && Ids(txs) !! acc.seen
    && (forall t :: t in txs ==> Authentic(keys, t) && t.sender != MINT_ACCOUNT)
    && (forall s :: SenderPayable(acc.state, Of(txs, s), s))
  }

  ghost predicate SenderPayable(st: LedgerState, queue: seq<Transaction>, s: Text) {
    Consecutive(queue, st.NextNonce(s)) && Amounts(queue) <= st.Balance(s)
  }

  /** The first transaction of a payable batch can fail in one way only. */
  lemma PayableHead(keys: Keys, acc: Accumulator, txs: seq<Transaction>)
    requires txs != [] && Payable(keys, acc, txs)
    ensures txs[0].amount <= acc.state.Balance(txs[0].sender)
    ensures Inspect(keys, acc.seen, txs[0]) == None
    ensures txs[0].sender != MINT_ACCOUNT
    ensures Move(acc.state, txs[0]) == Credit(Debit(acc.state, txs[0]), txs[0])
  {
    var t := txs[0];
    assert t in txs && t.id in Ids(txs);
    assert SenderPayable(acc.state, Of(txs, t.sender), t.sender);
    OfHead(txs, t.sender);
    ConsecutiveHead(txs, t.sender, acc.state.NextNonce(t.sender));
  }

  /** Paying the head leaves every sender's remaining queue payable. */
  lemma SenderPayableTail(st: LedgerState, next: LedgerState, txs: seq<Transaction>, s: Text)
    requires txs != [] && Move(st, txs[0]) == Ok(next) && txs[0].sender != MINT_ACCOUNT
    requires SenderPayable(st, Of(txs, s), s)
    ensures SenderPayable(next, Of(txs[1..], s), s)
  {
    OfHead(txs, s);
    ConsecutiveHead(txs, s, st.NextNonce(s));
    MoveEntry(st, txs[0], next, s);
  }

  lemma PayableTail(keys: Keys, acc: Accumulator, txs: seq<Transaction>, next: Accumulator)
    requires txs != [] && Payable(keys, acc, txs)
    requires ApplyTransaction(keys, acc, txs[0]) == Ok(next)
    ensures Payable(keys, next, txs[1..])
  {
    PayableHead(keys, acc, txs);
    IdsHead(txs);
    forall s
      ensures SenderPayable(next.state, Of(txs[1..], s), s)
    {
      assert SenderPayable(acc.state, Of(txs, s), s);
      SenderPayableTail(acc.state, next.state, txs, s);
    }
    DistinctIdsTail(txs);
  }

  /** A payable batch is accepted whole; only a receiver's balance overflowing 64 bits can stop it, and
      not even that while the total supply fits. */
  lemma {:induction false} PayableIsAccepted(keys: Keys, acc: Accumulator, txs: seq<Transaction>)
    requires Payable(keys, acc, txs)
    ensures var r := ApplyAll(keys, acc, txs); r.Err? ==> r.error.BalanceOverflow?
    ensures Supply(acc.state.balances) < TWO_TO_THE_64 ==> ApplyAll(keys, acc, txs).Ok?
    decreases txs
  {
    if txs != [] {
      PayableHead(keys, acc, txs);
      CreditFits(Debit(acc.state, txs[0]), txs[0]);
      SupplyOfDebit(acc.state, txs[0]);
      var r := ApplyTransaction(keys, acc, txs[0]);
      if r.Ok? {
        MoveSupply(acc.state, txs[0], r.value.state);
        PayableTail(keys, acc, txs, r.value);
        PayableIsAccepted(keys, r.value, txs[1..]);
      }
    }
  }

  lemma CreditFits(st: LedgerState, t: Transaction)
    ensures Supply(st.balances) + t.amount < TWO_TO_THE_64 ==> Credit(st, t).Ok?
    ensures Credit(st, t).Err? ==> Credit(st, t).error.BalanceOverflow?
  {
    if t.receiver in st.balances {
      SupplyWithout(st.balances, t.receiver);
    }
  }

  /** Whether the k-th credit of a batch fits in 64 bits, read off the initial state and the batch. */
  predicate CreditFitsAt(st: LedgerState, txs: seq<Transaction>, k: nat)
    requires k < |txs|
  {
    st.Balance(txs[k].receiver) + Received(txs[..k + 1], txs[k].receiver)
      < TWO_TO_THE_64 + Sent(txs[..k + 1], txs[k].receiver)
  }

  lemma FirstCreditFits(st: LedgerState, txs: seq<Transaction>)
    requires txs != [] && txs[0].sender != MINT_ACCOUNT && txs[0].amount <= st.Balance(txs[0].sender)
    ensures CreditFitsAt(st, txs, 0) <==> Credit(Debit(st, txs[0]), txs[0]).Ok?
  {
    var t, one := txs[0], txs[..1];
    var empty: seq<Transaction> := [];
    assert one[0] == t && one[1..] == empty;
    OfHead(one, t.receiver);
    assert Received(one, t.receiver) == t.amount + Received(empty, t.receiver);
    assert Sent(one, t.receiver) == if t.sender == t.receiver then t.amount else 0;
  }

  lemma LaterCreditFits(st: LedgerState, next: LedgerState, txs: seq<Transaction>, k: nat)
    requires txs != [] && Move(st, txs[0]) == Ok(next) && k + 1 < |txs|
    ensures CreditFitsAt(next, txs[1..], k) <==> CreditFitsAt(st, txs, k + 1)
  {
    var a, all, rest := txs[k + 1].receiver, txs[..k + 2], txs[1..][..k + 1];
    assert all[0] == txs[0] && all[1..] == rest;
    OfHead(all, a);
    MoveEntry(st, txs[0], next, a);
    assert Received(all, a) == (if txs[0].receiver == a then txs[0].amount else 0) + Received(rest, a);
    assert Sent(all, a) == (if txs[0].sender == a && a != MINT_ACCOUNT then txs[0].amount else 0) + Sent(rest, a);
  }

  /** Exactly when a payable batch is accepted: no credit overflows when its turn comes. */
  lemma {:induction false} PayableAcceptedIff(keys: Keys, acc: Accumulator, txs: seq<Transaction>)
    requires Payable(keys, acc, txs)
    ensures ApplyAll(keys, acc, txs).Ok? <==> forall k :: 0 <= k < |txs| ==> CreditFitsAt(acc.state, txs, k)
    decreases txs
  {
    if txs != [] {
      PayableHead(keys, acc, txs);
      FirstCreditFits(acc.state, txs);
      var r := ApplyTransaction(keys, acc, txs[0]);
      if r.Ok? {
        PayableTail(keys, acc, txs, r.value);
        PayableAcceptedIff(keys, r.value, txs[1..]);
        forall k | 0 <= k < |txs| - 1
          ensures CreditFitsAt(r.value.state, txs[1..], k) <==> CreditFitsAt(acc.state, txs, k + 1)
        {
          LaterCreditFits(acc.state, r.value.state, txs, k);
        }
        assert forall k :: 0 < k < |txs| ==>
          (CreditFitsAt(acc.state, txs, k) <==> CreditFitsAt(r.value.state, txs[1..], k - 1));
      }
    }
  }
}
