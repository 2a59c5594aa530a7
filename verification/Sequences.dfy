/**
 Per-sender views of a transaction sequence, and the (sender, nonce) order the mempool drains in.
 */
module Sequences {
  import opened Prelude
  import opened Crypto
  import opened Transactions

  /** The transactions `sender` signed, in order. */
  function Of(txs: seq<Transaction>, sender: Text): seq<Transaction> {
    if txs == [] then []
    else (if txs[0].sender == sender then [txs[0]] else []) + Of(txs[1..], sender)
  }

  function Amounts(txs: seq<Transaction>): nat {
    if txs == [] then 0 else txs[0].amount + Amounts(txs[1..])
  }

  function TotalWeight(txs: seq<Transaction>): nat {
    if txs == [] then 0 else txs[0].Weight() + TotalWeight(txs[1..])
  }

  function Ids(txs: seq<Transaction>): set<Digest> {
    set t | t in txs :: t.id
  }

  ghost predicate DistinctIds(txs: seq<Transaction>) {
    forall i, j :: 0 <= i < j < |txs| ==> txs[i].id != txs[j].id
  }

  lemma DistinctIdsTail(txs: seq<Transaction>)
    requires txs != [] && DistinctIds(txs)
    ensures DistinctIds(txs[1..])
    ensures forall t :: t in txs[1..] ==> t in txs && t.id != txs[0].id
  {
    assert forall i :: 0 <= i < |txs[1..]| ==> txs[1..][i] == txs[i + 1];
  }

  lemma DistinctIdsAppend(txs: seq<Transaction>, t: Transaction)
    requires DistinctIds(txs) && t.id !in Ids(txs)
    ensures DistinctIds(txs + [t])
    ensures Ids(txs + [t]) == Ids(txs) + {t.id}
    ensures forall x :: x in txs + [t] <==> x in txs || x == t
  {
    assert forall x :: x in txs ==> x.id in Ids(txs);
  }

  /** Nonces n, n+1, n+2, ... */
  ghost predicate Consecutive(txs: seq<Transaction>, n: nat) {
    forall i :: 0 <= i < |txs| ==> txs[i].nonce == n + i
  }

  lemma OfUnfolds(txs: seq<Transaction>, sender: Text)
    ensures txs == [] ==> Of(txs, sender) == []
    ensures txs != [] ==>
      Of(txs, sender) == (if txs[0].sender == sender then [txs[0]] else []) + Of(txs[1..], sender)
  {
  }

  lemma {:induction false} OfConcat(a: seq<Transaction>, b: seq<Transaction>, sender: Text)
    ensures Of(a + b, sender) == Of(a, sender) + Of(b, sender)
  {
    hide Of;
    OfUnfolds(a, sender);
    if a == [] {
      assert a + b == b;
    } else {
      OfUnfolds(a + b, sender);
      OfConcat(a[1..], b, sender);
      assert (a + b)[1..] == a[1..] + b && (a + b)[0] == a[0];
    }
  }

  lemma OfAppend(a: seq<Transaction>, t: Transaction, sender: Text)
    ensures Of(a + [t], sender) == if t.sender == sender then Of(a, sender) + [t] else Of(a, sender)
  {
    OfConcat(a, [t], sender);
    assert [t][1..] == [];
    assert Of(a, sender) + [] == Of(a, sender);
  }

  lemma {:induction false} OfMembers(txs: seq<Transaction>, sender: Text)
    ensures forall t :: t in Of(txs, sender) <==> t in txs && t.sender == sender
  {
    if txs != [] {
      OfMembers(txs[1..], sender);
      assert forall t :: t in txs <==> t == txs[0] || t in txs[1..];
    }
  }

  lemma OfHead(txs: seq<Transaction>, sender: Text)
    requires txs != []
    ensures txs[0].sender == sender ==>
      && Of(txs, sender) != [] && Of(txs, sender)[0] == txs[0] && Of(txs, sender)[1..] == Of(txs[1..], sender)
    ensures txs[0].sender != sender ==> Of(txs, sender) == Of(txs[1..], sender)
    ensures Amounts(Of(txs, sender))
         == (if txs[0].sender == sender then txs[0].amount else 0) + Amounts(Of(txs[1..], sender))
  {
    var rest := Of(txs[1..], sender);
    assert ([txs[0]] + rest)[1..] == rest;
  }

  lemma {:induction false} AmountsConcat(a: seq<Transaction>, b: seq<Transaction>)
    ensures Amounts(a + b) == Amounts(a) + Amounts(b)
  {
    if a == [] {
      assert a + b == b;
    } else {
      AmountsConcat(a[1..], b);
      assert (a + b)[1..] == a[1..] + b;
    }
  }

  lemma AmountsSplit(txs: seq<Transaction>, k: nat)
    requires k <= |txs|
    ensures Amounts(txs) == Amounts(txs[..k]) + Amounts(txs[k..])
  {
    assert txs == txs[..k] + txs[k..];
    AmountsConcat(txs[..k], txs[k..]);
  }

  lemma AmountsAppend(a: seq<Transaction>, t: Transaction)
    ensures Amounts(a + [t]) == Amounts(a) + t.amount
  {
    AmountsConcat(a, [t]);
    assert Amounts([t]) == t.amount + Amounts([t][1..]);
  }

  lemma TotalWeightAppend(a: seq<Transaction>, t: Transaction)
    ensures TotalWeight(a + [t]) == TotalWeight(a) + t.Weight()
  {
    TotalWeightConcat(a, [t]);
    assert TotalWeight([t]) == t.Weight() + TotalWeight([t][1..]);
  }

  /** A proper prefix and the transaction after it never cost more than the whole. */
  lemma AmountsPrefixNext(txs: seq<Transaction>, k: nat)
    requires k < |txs|
    ensures Amounts(txs[..k]) + txs[k].amount <= Amounts(txs)
  {
    assert txs[..k + 1] == txs[..k] + [txs[k]];
    AmountsAppend(txs[..k], txs[k]);
    assert txs == txs[..k + 1] + txs[k + 1..];
    AmountsConcat(txs[..k + 1], txs[k + 1..]);
  }

  lemma {:induction false} TotalWeightConcat(a: seq<Transaction>, b: seq<Transaction>)
    ensures TotalWeight(a + b) == TotalWeight(a) + TotalWeight(b)
  {
    if a == [] {
      assert a + b == b;
    } else {
      TotalWeightConcat(a[1..], b);
      assert (a + b)[1..] == a[1..] + b;
    }
  }

  // ----- The drain order. -----

  /** Byte order of Rust strings. */
  predicate TextLess(a: seq<byte>, b: seq<byte>) {
    if b == [] then false
    else if a == [] then true
    else if a[0] != b[0] then a[0] < b[0]
    else TextLess(a[1..], b[1..])
  }

  lemma {:induction false} TextLessTransitive(a: seq<byte>, b: seq<byte>, c: seq<byte>)
    requires TextLess(a, b) && TextLess(b, c)
    ensures TextLess(a, c)
  {
    if a != [] && a[0] == b[0] == c[0] {
      TextLessTransitive(a[1..], b[1..], c[1..]);
    }
  }

  lemma {:induction false} TextLessTotal(a: seq<byte>, b: seq<byte>)
    ensures TextLess(a, b) || a == b || TextLess(b, a)
    ensures !(TextLess(a, b) && TextLess(b, a))
    ensures !TextLess(a, a)
  {
    if a != [] && b != [] && a[0] == b[0] {
      TextLessTotal(a[1..], b[1..]);
      assert a == [a[0]] + a[1..] && b == [b[0]] + b[1..];
    }
    if a != [] {
      TextLessIrreflexive(a);
    }
  }

  lemma {:induction false} TextLessIrreflexive(a: seq<byte>)
    ensures !TextLess(a, a)
  {
    if a != [] {
      TextLessIrreflexive(a[1..]);
    }
  }

  /** `a.sender.cmp(&b.sender).then_with(|| a.nonce.cmp(&b.nonce))` is not `Greater`. */
  predicate InOrder(a: Transaction, b: Transaction) {
    TextLess(a.sender, b.sender) || (a.sender == b.sender && a.nonce <= b.nonce)
  }

  lemma InOrderTransitive(a: Transaction, b: Transaction, c: Transaction)
    requires InOrder(a, b) && InOrder(b, c)
    ensures InOrder(a, c)
  {
    if TextLess(a.sender, b.sender) && TextLess(b.sender, c.sender) {
      TextLessTransitive(a.sender, b.sender, c.sender);
    }
  }

  lemma InOrderTotal(a: Transaction, b: Transaction)
    ensures InOrder(a, b) || InOrder(b, a)
    ensures InOrder(a, b) && InOrder(b, a) ==> a.sender == b.sender && a.nonce == b.nonce
  {
    TextLessTotal(a.sender, b.sender);
  }

  ghost predicate Sorted(txs: seq<Transaction>) {
    forall i, j :: 0 <= i < j < |txs| ==> InOrder(txs[i], txs[j])
  }

  /** Two different pending transactions never carry the same sender and nonce. */
  ghost predicate DistinctKeys(txs: seq<Transaction>) {
    forall i, j :: 0 <= i < j < |txs| ==> txs[i].sender != txs[j].sender || txs[i].nonce != txs[j].nonce
  }

  function Insert(t: Transaction, txs: seq<Transaction>): seq<Transaction> {
    if txs == [] then [t]
    else if InOrder(t, txs[0]) then [t] + txs
    else [txs[0]] + Insert(t, txs[1..])
  }

  /** The stable sort by (sender, nonce). */
  function Drained(txs: seq<Transaction>): seq<Transaction> {
    if txs == [] then [] else Insert(txs[0], Drained(txs[1..]))
  }

  /** The transactions with this sender and nonce, in order. */
  function Alike(txs: seq<Transaction>, sender: Text, nonce: u64): seq<Transaction> {
    if txs == [] then []
    else (if txs[0].sender == sender && txs[0].nonce == nonce then [txs[0]] else []) + Alike(txs[1..], sender, nonce)
  }

  lemma {:induction false} InsertAlike(t: Transaction, txs: seq<Transaction>, sender: Text, nonce: u64)
    ensures Alike(Insert(t, txs), sender, nonce)
         == (if t.sender == sender && t.nonce == nonce then [t] else []) + Alike(txs, sender, nonce)
  {
    if txs != [] {
      if InOrder(t, txs[0]) {
        assert ([t] + txs)[1..] == txs;
      } else {
        InsertAlike(t, txs[1..], sender, nonce);
        assert ([txs[0]] + Insert(t, txs[1..]))[1..] == Insert(t, txs[1..]);
        TextLessTotal(t.sender, txs[0].sender);
      }
    }
  }

  /** The sort is stable: transactions with equal keys stay in the order they came in. */
  lemma {:induction false} DrainedIsStable(txs: seq<Transaction>, sender: Text, nonce: u64)
    ensures Alike(Drained(txs), sender, nonce) == Alike(txs, sender, nonce)
  {
    if txs != [] {
      DrainedIsStable(txs[1..], sender, nonce);
      InsertAlike(txs[0], Drained(txs[1..]), sender, nonce);
    }
  }

  lemma {:induction false} InsertMultiset(t: Transaction, txs: seq<Transaction>)
    ensures multiset(Insert(t, txs)) == multiset(txs) + multiset{t}
  {
    if txs != [] {
      assert txs == [txs[0]] + txs[1..];
      if !InOrder(t, txs[0]) {
        InsertMultiset(t, txs[1..]);
      }
    }
  }

  /** Draining loses and invents nothing. */
  lemma {:induction false} DrainedMultiset(txs: seq<Transaction>)
    ensures multiset(Drained(txs)) == multiset(txs)
  {
    if txs != [] {
      assert txs == [txs[0]] + txs[1..];
      DrainedMultiset(txs[1..]);
      InsertMultiset(txs[0], Drained(txs[1..]));
    }
  }

  lemma MultisetMembers(a: seq<Transaction>, b: seq<Transaction>)
    requires multiset(a) == multiset(b)
    ensures forall t :: t in a <==> t in b
  {
    forall t
      ensures t in a <==> t in b
    {
      assert t in a <==> t in multiset(a);
      assert t in b <==> t in multiset(b);
    }
  }

  lemma {:induction false} InsertSorted(t: Transaction, txs: seq<Transaction>)
    requires Sorted(txs)
    ensures Sorted(Insert(t, txs))
  {
    if txs == [] {
    } else if InOrder(t, txs[0]) {
      forall x | x in txs[1..]
        ensures InOrder(t, x)
      {
        assert InOrder(txs[0], x);
        InOrderTransitive(t, txs[0], x);
      }
    } else {
      InOrderTotal(t, txs[0]);
      InsertSorted(t, txs[1..]);
      var rest := Insert(t, txs[1..]);
      InsertMultiset(t, txs[1..]);
      forall x | x in rest
        ensures InOrder(txs[0], x)
      {
        assert x in multiset(rest);
        assert x == t || x in txs[1..];
      }
    }
  }

  lemma {:induction false} DrainedSorted(txs: seq<Transaction>)
    ensures Sorted(Drained(txs))
  {
    if txs != [] {
      DrainedSorted(txs[1..]);
      InsertSorted(txs[0], Drained(txs[1..]));
    }
  }

  lemma SortedHead(txs: seq<Transaction>, t: Transaction)
    requires Sorted(txs) && t in txs
    ensures InOrder(txs[0], t)
  {
    if t != txs[0] {
      var i :| 0 <= i < |txs| && txs[i] == t;
    }
  }

  lemma SortedHeadsAgree(a: seq<Transaction>, b: seq<Transaction>)
    requires Sorted(a) && Sorted(b) && multiset(a) == multiset(b) && DistinctKeys(a) && a != [] && b != []
    ensures a[0] == b[0]
  {
    MultisetMembers(a, b);
    assert a[0] in b && b[0] in a;
    SortedHead(a, b[0]);
    SortedHead(b, a[0]);
    InOrderTotal(a[0], b[0]);
  }

  lemma SortedTail(txs: seq<Transaction>)
    requires txs != [] && Sorted(txs)
    ensures Sorted(txs[1..])
    ensures DistinctKeys(txs) ==> DistinctKeys(txs[1..])
    ensures multiset(txs[1..]) == multiset(txs) - multiset{txs[0]}
  {
    assert txs == [txs[0]] + txs[1..];
    assert forall i :: 0 <= i < |txs[1..]| ==> txs[1..][i] == txs[i + 1];
  }

  /** A sorted arrangement of transactions with distinct keys is unique, whatever order the hash map
      yielded them in. */
  lemma {:induction false} SortedUnique(a: seq<Transaction>, b: seq<Transaction>)
    requires Sorted(a) && Sorted(b) && multiset(a) == multiset(b) && DistinctKeys(a)
    ensures a == b
  {
    assert |a| == |multiset(a)| == |multiset(b)| == |b|;
    if a != [] {
      SortedHeadsAgree(a, b);
      SortedTail(a);
      SortedTail(b);
      SortedUnique(a[1..], b[1..]);
      assert a == [a[0]] + a[1..] && b == [b[0]] + b[1..];
    }
  }

  lemma {:induction false} InsertWeight(t: Transaction, txs: seq<Transaction>)
    ensures TotalWeight(Insert(t, txs)) == t.Weight() + TotalWeight(txs)
  {
    if txs == [] {
    } else if InOrder(t, txs[0]) {
      assert ([t] + txs)[1..] == txs;
    } else {
      InsertWeight(t, txs[1..]);
      var rest := Insert(t, txs[1..]);
      assert ([txs[0]] + rest)[1..] == rest;
    }
  }

  lemma {:induction false} DrainedWeight(txs: seq<Transaction>)
    ensures TotalWeight(Drained(txs)) == TotalWeight(txs)
  {
    if txs != [] {
      DrainedWeight(txs[1..]);
      InsertWeight(txs[0], Drained(txs[1..]));
    }
  }

  // ----- Positions inside a sender's subsequence. -----

  /** Two transactions of one sender stand in the sequence in the order they stand in its view. */
  lemma {:induction false} ConsecutiveAscends(txs: seq<Transaction>, i: nat, j: nat, n: nat)
    requires i < j < |txs| && txs[i].sender == txs[j].sender
    requires Consecutive(Of(txs, txs[i].sender), n)
    ensures n <= txs[i].nonce < txs[j].nonce
  {
    var s := txs[i].sender;
    var view := Of(txs, s);
    if i == 0 {
      assert view == [txs[0]] + Of(txs[1..], s);
      OfMembers(txs[1..], s);
      assert txs[1..][j - 1] == txs[j];
      var k :| 0 <= k < |Of(txs[1..], s)| && Of(txs[1..], s)[k] == txs[j];
      assert view[0].nonce == n + 0 && view[k + 1] == txs[j];
    } else {
      var rest := txs[1..];
      if txs[0].sender == s {
        assert view == [txs[0]] + Of(rest, s);
        forall k | 0 <= k < |Of(rest, s)|
          ensures Of(rest, s)[k].nonce == n + 1 + k
        {
          assert Of(rest, s)[k] == view[k + 1];
        }
        ConsecutiveAscends(rest, i - 1, j - 1, n + 1);
      } else {
        assert view == Of(rest, s);
        ConsecutiveAscends(rest, i - 1, j - 1, n);
      }
    }
  }

  // ----- Rearrangements. -----

  /** Each sender's transactions appear in ascending nonce order. */
  ghost predicate KeepsNonceOrder(txs: seq<Transaction>) {
    forall i, j :: 0 <= i < j < |txs| && txs[i].sender == txs[j].sender ==> txs[i].nonce < txs[j].nonce
  }

  lemma {:induction false} OfCounts(txs: seq<Transaction>, s: Text, t: Transaction)
    ensures multiset(Of(txs, s))[t] == if t.sender == s then multiset(txs)[t] else 0
  {
    if txs != [] {
      OfCounts(txs[1..], s, t);
      assert txs == [txs[0]] + txs[1..];
    }
  }

  ghost predicate Ascending(txs: seq<Transaction>) {
    forall i, j :: 0 <= i < j < |txs| ==> txs[i].nonce < txs[j].nonce
  }

  lemma {:induction false} OfAscends(txs: seq<Transaction>, s: Text)
    requires KeepsNonceOrder(txs)
    ensures Ascending(Of(txs, s))
  {
    if txs != [] {
      var rest := txs[1..];
      assert forall i :: 0 <= i < |rest| ==> rest[i] == txs[i + 1];
      OfAscends(rest, s);
      OfHead(txs, s);
      OfMembers(rest, s);
      if txs[0].sender == s {
        var view := Of(txs, s);
        forall k | 0 < k < |view|
          ensures txs[0].nonce < view[k].nonce
        {
          assert view[1..][k - 1] == view[k];
          assert view[k] in rest;
        }
        AscendingCons(view);
      }
    }
  }

  lemma AscendingCons(view: seq<Transaction>)
    requires view != [] && Ascending(view[1..])
    requires forall k :: 0 < k < |view| ==> view[0].nonce < view[k].nonce
    ensures Ascending(view)
  {
    forall i, j | 0 <= i < j < |view|
      ensures view[i].nonce < view[j].nonce
    {
      if i > 0 {
        assert view[i] == view[1..][i - 1] && view[j] == view[1..][j - 1];
      }
    }
  }

  lemma OneSenderSorted(view: seq<Transaction>, s: Text)
    requires Ascending(view)
    requires forall t :: t in view ==> t.sender == s
    ensures Sorted(view) && DistinctKeys(view)
  {
  }

  /** Two arrangements of the same transactions that keep every sender's nonce order give every sender
      the same view. */
  lemma SameViews(a: seq<Transaction>, b: seq<Transaction>, s: Text)
    requires multiset(a) == multiset(b) && KeepsNonceOrder(a) && KeepsNonceOrder(b)
    ensures Of(a, s) == Of(b, s)
  {
    forall t
      ensures multiset(Of(a, s))[t] == multiset(Of(b, s))[t]
    {
      OfCounts(a, s, t);
      OfCounts(b, s, t);
    }
    OfAscends(a, s);
    OfMembers(a, s);
    OneSenderSorted(Of(a, s), s);
    OfAscends(b, s);
    OfMembers(b, s);
    OneSenderSorted(Of(b, s), s);
    SortedUnique(Of(a, s), Of(b, s));
  }

  lemma DistinctIdsPermutation(a: seq<Transaction>, b: seq<Transaction>)
    requires multiset(a) == multiset(b) && DistinctIds(a)
    ensures DistinctIds(b)
  {
    forall i, j | 0 <= i < j < |b|
      ensures b[i].id != b[j].id
    {
      MultisetMembers(a, b);
      if b[i].id == b[j].id {
        assert b[i] in a && b[j] in a;
        assert b[i] == b[j];
        TwiceInMultiset(b, i, j);
        OnceInMultiset(a, b[i]);
      }
    }
  }

  lemma TwiceInMultiset(b: seq<Transaction>, i: nat, j: nat)
    requires i < j < |b| && b[i] == b[j]
    ensures multiset(b)[b[i]] >= 2
  {
    assert b == b[..j] + [b[j]] + b[j + 1..];
    assert b[..j][i] == b[i];
    assert multiset(b[..j])[b[i]] >= 1;
  }

  lemma {:induction false} OnceInMultiset(a: seq<Transaction>, t: Transaction)
    requires DistinctIds(a)
    ensures multiset(a)[t] <= 1
  {
    if a != [] {
      assert a == [a[0]] + a[1..];
      assert forall i :: 0 <= i < |a[1..]| ==> a[1..][i] == a[i + 1];
      OnceInMultiset(a[1..], t);
      forall i | 0 <= i < |a[1..]|
        ensures a[1..][i] != a[0]
      {
        assert a[1..][i] == a[i + 1];
      }
    }
  }
}
