/**
 `TransactionGossip` (`zion-core/src/network/transactions.rs`): the scheduler that forwards pending
 transactions to connected peers with a bounded window, receipts and retry delays.
 */
module Gossip {
  import opened Prelude
  import opened Crypto
  import opened Transactions
  import opened Blocks
  import opened Sequences
  import opened Ledger
  import opened ChainModel
  import opened MempoolClass
  import opened BlockchainClass
  import opened Sync

  type Peer = nat
  /** Milliseconds. */
  type Instant = nat
  type RequestId = nat
  type Deadlines = map<Peer, map<Digest, Instant>>

  const BLOCK_TIME: nat := 5000
  const RETRY_DELAY: nat := 2000
  const RECEIPT_TTL: nat := 2 * BLOCK_TIME
  const MAX_INFLIGHT_PER_PEER: nat := 16

  datatype InFlight = InFlight(peer: Peer, id: Digest, sender: Text)

  /** A transaction request handed to the network. */
  datatype Sent = Sent(peer: Peer, announcement: TransactionAnnouncement)

  /** The part of the libp2p swarm the scheduler uses: it numbers transaction requests in the order it takes them,
      and takes requests for a chain. */
  class Swarm {
    var transactions: seq<Sent>
    var chainRequests: seq<Peer>

    constructor ()
      ensures transactions == [] && chainRequests == []
    {
      transactions, chainRequests := [], [];
    }

    method SendTransaction(peer: Peer, a: TransactionAnnouncement) returns (request: RequestId)
      modifies this`transactions
      ensures request == |old(transactions)|
      ensures transactions == old(transactions) + [Sent(peer, a)]
    {
      request := |transactions|;
      transactions := transactions + [Sent(peer, a)];
    }

    method AskForChain(peer: Peer)
      modifies this`chainRequests
      ensures chainRequests == old(chainRequests) + [peer]
    {
      chainRequests := chainRequests + [peer];
    }
  }

  // ----- Deadlines. -----

  /** The entry for (`peer`, `id`) lies after `now`: a live receipt, or a retry still to wait for. */
  predicate Later(table: Deadlines, peer: Peer, id: Digest, now: Instant) {
    peer in table && id in table[peer] && table[peer][id] > now
  }

  predicate Has(table: Deadlines, peer: Peer, id: Digest) {
    peer in table && id in table[peer]
  }

  /** Receipts that are still live, for connected peers and transactions still pending. */
  function KeepReceipts(known: Deadlines, ids: set<Digest>, peers: set<Peer>, now: Instant): Deadlines {
    var live := map peer | peer in known ::
      map id | id in known[peer] && id in ids && known[peer][id] > now :: known[peer][id];
    map peer | peer in live && peer in peers && live[peer] != map[] :: live[peer]
  }

  /** Retry delays, elapsed ones included, for connected peers and transactions still pending. */
  function KeepDeferred(retryAfter: Deadlines, ids: set<Digest>, peers: set<Peer>): Deadlines {
    var kept := map peer | peer in retryAfter ::
      map id | id in retryAfter[peer] && id in ids :: retryAfter[peer][id];
    map peer | peer in kept && peer in peers && kept[peer] != map[] :: kept[peer]
  }

  function KeepRequests(inFlight: map<RequestId, InFlight>, ids: set<Digest>, peers: set<Peer>)
    : map<RequestId, InFlight>
  {
    map r | r in inFlight && inFlight[r].peer in peers && inFlight[r].id in ids :: inFlight[r]
  }

  lemma KeptReceipt(known: Deadlines, ids: set<Digest>, peers: set<Peer>, now: Instant, peer: Peer, id: Digest)
    ensures var kept := KeepReceipts(known, ids, peers, now);
      && (Has(kept, peer, id) <==> peer in peers && id in ids && Later(known, peer, id, now))
      && (Has(kept, peer, id) ==> kept[peer][id] == known[peer][id])
  {
    var live := map p | p in known ::
      map i | i in known[p] && i in ids && known[p][i] > now :: known[p][i];
    if Later(known, peer, id, now) && id in ids {
      assert id in live[peer];
    }
  }

  lemma KeptDeferral(retryAfter: Deadlines, ids: set<Digest>, peers: set<Peer>, peer: Peer, id: Digest)
    ensures var kept := KeepDeferred(retryAfter, ids, peers);
      && (Has(kept, peer, id) <==> peer in peers && id in ids && Has(retryAfter, peer, id))
      && (Has(kept, peer, id) ==> kept[peer][id] == retryAfter[peer][id])
  {
    var all := map p | p in retryAfter :: map i | i in retryAfter[p] && i in ids :: retryAfter[p][i];
    if Has(retryAfter, peer, id) && id in ids {
      assert id in all[peer];
    }
  }

  /** Exactly the entries of connected peers and transactions still pending are kept, with their deadlines. */
  ghost predicate KeepsDeadlines(before: Deadlines, after: Deadlines, ids: set<Digest>, peers: set<Peer>) {
    forall peer, id ::
      && (Has(after, peer, id) <==> peer in peers && id in ids && Has(before, peer, id))
      && (Has(after, peer, id) ==> after[peer][id] == before[peer][id])
  }

  /** The same for receipts that have not expired. */
  ghost predicate KeepsLiveReceipts(before: Deadlines, after: Deadlines, ids: set<Digest>, peers: set<Peer>, now: Instant) {
    forall peer, id ::
      && (Has(after, peer, id) <==> peer in peers && id in ids && Later(before, peer, id, now))
      && (Has(after, peer, id) ==> after[peer][id] == before[peer][id])
  }

  /** Every request to a connected peer for a transaction still pending keeps its entry, every other one loses it, and
      no request from number `from` on is a second one to the same peer for the same sender. */
  ghost predicate KeepsRequests(before: map<RequestId, InFlight>, after: map<RequestId, InFlight>, sent: seq<Sent>,
                                from: nat, ids: set<Digest>, peers: set<Peer>) {
    && from <= |sent|
    && forall r :: r in before ==>
      var wanted := before[r].peer in peers && before[r].id in ids;
      && (r in after <==> wanted)
      && (r in after ==> after[r] == before[r])
      && (wanted ==> forall q :: from <= q < |sent| ==>
            !(sent[q].peer == before[r].peer && sent[q].announcement.transaction.sender == before[r].sender))
  }

  lemma RequestsAreKept(before: map<RequestId, InFlight>, after: map<RequestId, InFlight>, sent: seq<Sent>, from: nat,
                        ids: set<Digest>, peers: set<Peer>)
    requires EntersWhatItSends(KeepRequests(before, ids, peers), after, sent, from, peers)
    requires forall r :: r in KeepRequests(before, ids, peers) ==> r in after && after[r] == before[r]
    requires Windowed(after) && Backed(after, sent) && forall r :: r in before ==> r < from
    ensures KeepsRequests(before, after, sent, from, ids, peers)
  {
    hide At;
    forall r, q | r in before && before[r].peer in peers && before[r].id in ids && from <= q < |sent|
      ensures !(sent[q].peer == before[r].peer && sent[q].announcement.transaction.sender == before[r].sender)
    {
      assert r in KeepRequests(before, ids, peers) && q in after && Carries(sent, q, after[q]);
    }
  }

  lemma RetainedRequests(before: map<RequestId, InFlight>, sent: seq<Sent>, ids: set<Digest>, peers: set<Peer>)
    requires Windowed(before) && Backed(before, sent)
    ensures var kept := KeepRequests(before, ids, peers);
      && Windowed(kept) && Backed(kept, sent)
      && KeepsRequests(before, kept, sent, |sent|, ids, peers)
  {
    FewerRequests(before, KeepRequests(before, ids, peers));
    hide Windowed;
  }

  lemma DeadlinesAreKept(known: Deadlines, retryAfter: Deadlines, ids: set<Digest>, peers: set<Peer>, now: Instant)
    ensures KeepsDeadlines(retryAfter, KeepDeferred(retryAfter, ids, peers), ids, peers)
    ensures KeepsLiveReceipts(known, KeepReceipts(known, ids, peers, now), ids, peers, now)
  {
    hide KeepDeferred, KeepReceipts;
    forall peer, id
      ensures var kept := KeepDeferred(retryAfter, ids, peers);
        && (Has(kept, peer, id) <==> peer in peers && id in ids && Has(retryAfter, peer, id))
        && (Has(kept, peer, id) ==> kept[peer][id] == retryAfter[peer][id])
    {
      KeptDeferral(retryAfter, ids, peers, peer, id);
    }
    forall peer, id
      ensures var kept := KeepReceipts(known, ids, peers, now);
        && (Has(kept, peer, id) <==> peer in peers && id in ids && Later(known, peer, id, now))
        && (Has(kept, peer, id) ==> kept[peer][id] == known[peer][id])
    {
      KeptReceipt(known, ids, peers, now, peer, id);
    }
  }

  function Stamp(table: Deadlines, peer: Peer, id: Digest, at: Instant): Deadlines {
    table[peer := (if peer in table then table[peer] else map[])[id := at]]
  }

  /** A stamp sets one deadline and leaves all others. */
  lemma Stamped(table: Deadlines, peer: Peer, id: Digest, at: Instant, p: Peer, i: Digest)
    ensures var after := Stamp(table, peer, id, at);
      && Has(after, peer, id) && after[peer][id] == at
      && (p != peer || i != id ==>
            (Has(after, p, i) <==> Has(table, p, i)) && (Has(after, p, i) ==> after[p][i] == table[p][i]))
  {
  }

  /** Every receipt stems from an acknowledgement one receipt lifetime before it expires. */
  ghost predicate Earned(known: Deadlines, acknowledged: set<(Peer, Digest, Instant)>) {
    forall peer, id :: Has(known, peer, id) ==>
      known[peer][id] >= RECEIPT_TTL && (peer, id, known[peer][id] - RECEIPT_TTL) in acknowledged
  }

  lemma EarnReceipt(known: Deadlines, acknowledged: set<(Peer, Digest, Instant)>, peer: Peer, id: Digest, now: Instant)
    requires Earned(known, acknowledged)
    ensures Earned(Stamp(known, peer, id, now + RECEIPT_TTL), acknowledged + {(peer, id, now)})
  {
    var more := Stamp(known, peer, id, now + RECEIPT_TTL);
    forall p, i | Has(more, p, i)
      ensures more[p][i] >= RECEIPT_TTL
      ensures (p, i, more[p][i] - RECEIPT_TTL) in acknowledged + {(peer, id, now)}
    {
      if p != peer || i != id {
        assert Has(known, p, i) && more[p][i] == known[p][i];
      }
    }
  }

  lemma KeepEarned(known: Deadlines, acknowledged: set<(Peer, Digest, Instant)>, ids: set<Digest>, peers: set<Peer>,
                   now: Instant)
    requires Earned(known, acknowledged)
    ensures Earned(KeepReceipts(known, ids, peers, now), acknowledged)
    ensures forall peer, id :: Has(KeepReceipts(known, ids, peers, now), peer, id) ==>
      Later(KeepReceipts(known, ids, peers, now), peer, id, now)
  {
    hide KeepReceipts;
    var kept := KeepReceipts(known, ids, peers, now);
    forall peer, id | Has(kept, peer, id)
      ensures Later(kept, peer, id, now) && Has(known, peer, id) && kept[peer][id] == known[peer][id]
    {
      KeptReceipt(known, ids, peers, now, peer, id);
    }
  }

  // ----- The window. -----

  /** Requests in flight to one peer. */
  function At(inFlight: map<RequestId, InFlight>, peer: Peer): set<RequestId> {
    set r | r in inFlight && inFlight[r].peer == peer
  }

  /** At most 16 entries per peer, and one per peer and sender. The table forgets requests of transactions that are
      no longer pending, so it is the requests still of interest that are bounded. */
  ghost predicate Windowed(inFlight: map<RequestId, InFlight>) {
    && (forall peer :: |At(inFlight, peer)| <= MAX_INFLIGHT_PER_PEER)
    && (forall r, q ::
          r in inFlight && q in inFlight
          && inFlight[r].peer == inFlight[q].peer && inFlight[r].sender == inFlight[q].sender
          ==> r == q)
  }

  ghost predicate Outstanding(inFlight: map<RequestId, InFlight>, peer: Peer, sender: Text) {
    exists r :: r in inFlight && inFlight[r].peer == peer && inFlight[r].sender == sender
  }

  /** Every pending transaction of the same sender with a lower nonce has a live receipt at `peer`. */
  ghost predicate PrefixReceipted(pending: seq<Transaction>, known: Deadlines, peer: Peer, t: Transaction, now: Instant) {
    forall x :: x in pending && x.sender == t.sender && x.nonce < t.nonce ==> Later(known, peer, x.id, now)
  }

  /** The transaction has no receipt and waits on its own retry delay, and nothing before it is outstanding. */
  ghost predicate WaitsOn(pending: seq<Transaction>, known: Deadlines, retryAfter: Deadlines, peer: Peer, t: Transaction,
                          now: Instant) {
    && t in pending
    && !Has(known, peer, t.id)
    && Later(retryAfter, peer, t.id, now)
    && PrefixReceipted(pending, known, peer, t, now)
  }

  ghost predicate Waiting(pending: seq<Transaction>, known: Deadlines, retryAfter: Deadlines, peer: Peer, s: Text,
                          now: Instant) {
    exists t: Transaction :: t.sender == s && WaitsOn(pending, known, retryAfter, peer, t, now)
  }

  /** Nothing more can be done for this sender at this peer now. */
  ghost predicate SenderServed(pending: seq<Transaction>, known: Deadlines, retryAfter: Deadlines,
                               inFlight: map<RequestId, InFlight>, peer: Peer, s: Text, now: Instant) {
    || Outstanding(inFlight, peer, s)
    || (forall t :: t in pending && t.sender == s ==> Later(known, peer, t.id, now))
    || Waiting(pending, known, retryAfter, peer, s, now)
  }

  /** The window of the peer is full, or every sender with a known key is served. */
  ghost predicate PeerServed(pending: seq<Transaction>, keys: Keys, known: Deadlines, retryAfter: Deadlines,
                             inFlight: map<RequestId, InFlight>, peer: Peer, now: Instant) {
    || |At(inFlight, peer)| == MAX_INFLIGHT_PER_PEER
    || forall s :: s in keys ==> SenderServed(pending, known, retryAfter, inFlight, peer, s, now)
  }

  /** A request as it should be: a pending transaction with its sender's key and our genesis, due for
      (re)transmission, whose predecessors the peer has acknowledged. */
  ghost predicate WellSent(s: Sent, pending: seq<Transaction>, keys: Keys, genesis: Digest, known: Deadlines,
                           retryAfter: Deadlines, now: Instant) {
    var t := s.announcement.transaction;
    && t in pending
    && s.announcement.genesisHash == genesis
    && t.sender in keys && s.announcement.senderKey == keys[t.sender]
    && !Has(known, s.peer, t.id)
    && !Later(retryAfter, s.peer, t.id, now)
    && PrefixReceipted(pending, known, s.peer, t, now)
  }

  // ----- Entries and requests. -----

  /** The entry records what request `r` carried to whom. */
  predicate Carries(sent: seq<Sent>, r: RequestId, entry: InFlight) {
    && r < |sent| && sent[r].peer == entry.peer
    && sent[r].announcement.transaction.id == entry.id && sent[r].announcement.transaction.sender == entry.sender
  }

  /** Every entry of the table stands for a request that was handed to the network. */
  ghost predicate Backed(inFlight: map<RequestId, InFlight>, sent: seq<Sent>) {
    forall r :: r in inFlight ==> Carries(sent, r, inFlight[r])
  }

  /** A request with this transaction went to this peer. */
  ghost predicate WasSent(sent: seq<Sent>, peer: Peer, id: Digest) {
    exists r :: 0 <= r < |sent| && sent[r].peer == peer && sent[r].announcement.transaction.id == id
  }

  /** Only what was sent has been acknowledged. */
  ghost predicate Answered(acknowledged: set<(Peer, Digest, Instant)>, sent: seq<Sent>) {
    forall peer, id, at :: (peer, id, at) in acknowledged ==> WasSent(sent, peer, id)
  }

  /** The entries `after` has beyond `before` are the requests from number `from` on, one for one, each to a peer
      in `peers`. */
  ghost predicate EntersWhatItSends(before: map<RequestId, InFlight>, after: map<RequestId, InFlight>, sent: seq<Sent>,
                                    from: nat, peers: set<Peer>) {
    && from <= |sent|
    && (forall r: RequestId :: r in after <==> r in before || from <= r < |sent|)
    && (forall r :: from <= r < |sent| ==> sent[r].peer in peers)
  }

  lemma OldRequests(inFlight: map<RequestId, InFlight>, sent: seq<Sent>)
    requires Backed(inFlight, sent)
    ensures forall r :: r in inFlight ==> r < |sent|
  {
  }

  lemma SentMore(inFlight: map<RequestId, InFlight>, acknowledged: set<(Peer, Digest, Instant)>, sent: seq<Sent>, s: Sent,
                 entry: InFlight)
    requires Backed(inFlight, sent) && Answered(acknowledged, sent)
    requires s.peer == entry.peer && s.announcement.transaction.id == entry.id
    requires s.announcement.transaction.sender == entry.sender
    ensures Backed(inFlight[|sent| := entry], sent + [s]) && Answered(acknowledged, sent + [s])
    ensures |sent| !in inFlight
  {
    assert (sent + [s])[|sent|] == s;
    forall peer, id, at | (peer, id, at) in acknowledged
      ensures WasSent(sent + [s], peer, id)
    {
      assert WasSent(sent, peer, id);
      var r :| 0 <= r < |sent| && sent[r].peer == peer && sent[r].announcement.transaction.id == id;
      assert (sent + [s])[r] == sent[r];
    }
  }

  lemma EntersOne(before: map<RequestId, InFlight>, after: map<RequestId, InFlight>, sent: seq<Sent>, from: nat,
                  peers: set<Peer>, s: Sent, entry: InFlight)
    requires EntersWhatItSends(before, after, sent, from, peers) && s.peer in peers
    ensures EntersWhatItSends(before, after[|sent| := entry], sent + [s], from, peers)
  {
  }

  lemma EntersNothing(inFlight: map<RequestId, InFlight>, sent: seq<Sent>, peers: set<Peer>)
    requires Backed(inFlight, sent)
    ensures EntersWhatItSends(inFlight, inFlight, sent, |sent|, peers)
  {
  }

  lemma EntersMore(before: map<RequestId, InFlight>, middle: map<RequestId, InFlight>, after: map<RequestId, InFlight>,
                   sent: seq<Sent>, more: seq<Sent>, from: nat, peer: Peer, peers: set<Peer>)
    requires EntersWhatItSends(before, middle, sent, from, peers) && sent <= more
    requires EntersWhatItSends(middle, after, more, |sent|, {peer}) && peer in peers
    ensures EntersWhatItSends(before, after, more, from, peers)
  {
  }

  // ----- Window arithmetic. -----

  lemma AtAfterAdding(inFlight: map<RequestId, InFlight>, r: RequestId, request: InFlight)
    requires r !in inFlight
    ensures At(inFlight[r := request], request.peer) == At(inFlight, request.peer) + {r}
    ensures |At(inFlight[r := request], request.peer)| == |At(inFlight, request.peer)| + 1
    ensures forall peer :: peer != request.peer ==> At(inFlight[r := request], peer) == At(inFlight, peer)
  {
    var more := inFlight[r := request];
    assert At(more, request.peer) == At(inFlight, request.peer) + {r};
    forall peer | peer != request.peer
      ensures At(more, peer) == At(inFlight, peer)
    {
    }
  }

  lemma AddRequest(inFlight: map<RequestId, InFlight>, r: RequestId, request: InFlight)
    requires Windowed(inFlight) && r !in inFlight
    requires |At(inFlight, request.peer)| < MAX_INFLIGHT_PER_PEER && !Outstanding(inFlight, request.peer, request.sender)
    ensures Windowed(inFlight[r := request])
  {
    AtAfterAdding(inFlight, r, request);
    hide At;
    var more := inFlight[r := request];
    forall peer
      ensures |At(more, peer)| <= MAX_INFLIGHT_PER_PEER
    {
      if peer != request.peer {
        assert At(more, peer) == At(inFlight, peer);
      }
    }
  }

  /** `after` keeps every request of `before` and adds requests to `peer` only. */
  ghost predicate OnlyAdds(before: map<RequestId, InFlight>, after: map<RequestId, InFlight>, peer: Peer) {
    && (forall r :: r in before ==> r in after && after[r] == before[r])
    && (forall r :: r in after && r !in before ==> after[r].peer == peer)
    && (forall other :: other != peer ==> At(after, other) == At(before, other))
  }

  lemma OnlyAddsOne(before: map<RequestId, InFlight>, after: map<RequestId, InFlight>, r: RequestId, request: InFlight)
    requires OnlyAdds(before, after, request.peer) && r !in after
    ensures OnlyAdds(before, after[r := request], request.peer)
  {
    AtAfterAdding(after, r, request);
  }

  /** The state of one peer's loop after the first `i` pending transactions: `senders` are those that must
      not get another request; everyone else is acknowledged so far, or has no key. */
  ghost predicate Scanned(pending: seq<Transaction>, i: nat, keys: Keys, known: Deadlines, retryAfter: Deadlines,
                          inFlight: map<RequestId, InFlight>, senders: set<Text>, peer: Peer, now: Instant) {
    && i <= |pending|
    && (forall s :: Outstanding(inFlight, peer, s) ==> s in senders)
    && (forall s :: s in senders && s in keys ==>
          Outstanding(inFlight, peer, s) || Waiting(pending, known, retryAfter, peer, s, now))
    && (forall x :: x in pending[..i] ==>
          x.sender in senders || Later(known, peer, x.id, now) || x.sender !in keys)
  }

  lemma ScanPrefix(pending: seq<Transaction>, i: nat)
    requires i < |pending|
    ensures forall x :: x in pending[..i + 1] ==> x in pending[..i] || x == pending[i]
  {
  }

  lemma ScanSkips(pending: seq<Transaction>, i: nat, keys: Keys, known: Deadlines, retryAfter: Deadlines,
                  inFlight: map<RequestId, InFlight>, senders: set<Text>, peer: Peer, now: Instant)
    requires Scanned(pending, i, keys, known, retryAfter, inFlight, senders, peer, now) && i < |pending|
    requires pending[i].sender in senders || Later(known, peer, pending[i].id, now) || pending[i].sender !in keys
    ensures Scanned(pending, i + 1, keys, known, retryAfter, inFlight, senders, peer, now)
  {
    ScanPrefix(pending, i);
  }

  lemma ScanDefers(pending: seq<Transaction>, i: nat, keys: Keys, known: Deadlines, retryAfter: Deadlines,
                   inFlight: map<RequestId, InFlight>, senders: set<Text>, peer: Peer, now: Instant)
    requires Sorted(pending)
    requires Scanned(pending, i, keys, known, retryAfter, inFlight, senders, peer, now) && i < |pending|
    requires pending[i].sender !in senders && Later(retryAfter, peer, pending[i].id, now)
    requires !Has(known, peer, pending[i].id)
    ensures Scanned(pending, i + 1, keys, known, retryAfter, inFlight, senders + {pending[i].sender}, peer, now)
  {
    var t := pending[i];
    ScanPrefix(pending, i);
    if t.sender in keys {
      Unblocked(pending, i, keys, known, senders, peer, now);
      assert WaitsOn(pending, known, retryAfter, peer, t, now);
      assert Waiting(pending, known, retryAfter, peer, t.sender, now);
    }
  }

  lemma ScanSends(pending: seq<Transaction>, i: nat, keys: Keys, known: Deadlines, retryAfter: Deadlines,
                  inFlight: map<RequestId, InFlight>, senders: set<Text>, peer: Peer, now: Instant, r: RequestId)
    requires Scanned(pending, i, keys, known, retryAfter, inFlight, senders, peer, now) && i < |pending|
    requires r !in inFlight
    ensures Scanned(pending, i + 1, keys, known, retryAfter,
                    inFlight[r := InFlight(peer, pending[i].id, pending[i].sender)],
                    senders + {pending[i].sender}, peer, now)
  {
    var more := inFlight[r := InFlight(peer, pending[i].id, pending[i].sender)];
    ScanPrefix(pending, i);
    forall s
      ensures Outstanding(more, peer, s) <==> Outstanding(inFlight, peer, s) || s == pending[i].sender
    {
      if Outstanding(inFlight, peer, s) {
        var q :| q in inFlight && inFlight[q].peer == peer && inFlight[q].sender == s;
        assert q in more;
      }
      assert r in more;
    }
  }

  lemma ScanDone(pending: seq<Transaction>, keys: Keys, known: Deadlines, retryAfter: Deadlines,
                 inFlight: map<RequestId, InFlight>, senders: set<Text>, peer: Peer, now: Instant)
    requires Scanned(pending, |pending|, keys, known, retryAfter, inFlight, senders, peer, now)
    ensures forall s :: s in keys ==> SenderServed(pending, known, retryAfter, inFlight, peer, s, now)
  {
    assert pending[..|pending|] == pending;
  }

  /** A sender met for the first time at position `i` has all its earlier transactions acknowledged. */
  lemma Unblocked(pending: seq<Transaction>, i: nat, keys: Keys, known: Deadlines, senders: set<Text>, peer: Peer,
                  now: Instant)
    requires Sorted(pending) && i < |pending|
    requires pending[i].sender !in senders && pending[i].sender in keys
    requires forall x :: x in pending[..i] ==>
      x.sender in senders || Later(known, peer, x.id, now) || x.sender !in keys
    ensures PrefixReceipted(pending, known, peer, pending[i], now)
  {
    forall x | x in pending && x.sender == pending[i].sender && x.nonce < pending[i].nonce
      ensures Later(known, peer, x.id, now)
    {
      PredecessorsComeFirst(pending, i, x);
    }
  }

  /** What being well sent is worth: each predecessor was sent to this very peer and acknowledged by it less than
      one receipt lifetime ago, so nonces reach a peer in order. */
  lemma PredecessorsWereAcknowledged(s: Sent, pending: seq<Transaction>, keys: Keys, genesis: Digest, known: Deadlines,
                                     retryAfter: Deadlines, now: Instant,
                                     acknowledged: set<(Peer, Digest, Instant)>, sent: seq<Sent>, x: Transaction)
    requires WellSent(s, pending, keys, genesis, known, retryAfter, now)
    requires Earned(known, acknowledged) && Answered(acknowledged, sent)
    requires x in pending && x.sender == s.announcement.transaction.sender
    requires x.nonce < s.announcement.transaction.nonce
    ensures WasSent(sent, s.peer, x.id)
    ensures exists at :: (s.peer, x.id, at) in acknowledged && now < at + RECEIPT_TTL
  {
    assert Later(known, s.peer, x.id, now) && Has(known, s.peer, x.id);
    assert (s.peer, x.id, known[s.peer][x.id] - RECEIPT_TTL) in acknowledged;
  }

  /** Everything sent from position `from` on is as it should be. */
  ghost predicate AllWellSent(sent: seq<Sent>, from: nat, pending: seq<Transaction>, keys: Keys, genesis: Digest,
                              known: Deadlines, retryAfter: Deadlines, now: Instant) {
    from <= |sent| && forall k :: from <= k < |sent| ==> WellSent(sent[k], pending, keys, genesis, known, retryAfter, now)
  }

  lemma WellSentAppend(sent: seq<Sent>, from: nat, s: Sent, pending: seq<Transaction>, keys: Keys, genesis: Digest,
                       known: Deadlines, retryAfter: Deadlines, now: Instant)
    requires AllWellSent(sent, from, pending, keys, genesis, known, retryAfter, now)
    requires WellSent(s, pending, keys, genesis, known, retryAfter, now)
    ensures AllWellSent(sent + [s], from, pending, keys, genesis, known, retryAfter, now)
  {
  }

  lemma WellSentConcat(sent: seq<Sent>, more: seq<Sent>, from: nat, pending: seq<Transaction>, keys: Keys, genesis: Digest,
                       known: Deadlines, retryAfter: Deadlines, now: Instant)
    requires sent <= more
    requires AllWellSent(sent, from, pending, keys, genesis, known, retryAfter, now)
    requires AllWellSent(more, |sent|, pending, keys, genesis, known, retryAfter, now)
    ensures AllWellSent(more, from, pending, keys, genesis, known, retryAfter, now)
  {
    hide WellSent;
  }

  /** Requests to another peer do not unserve a peer. */
  lemma ServedStays(pending: seq<Transaction>, keys: Keys, known: Deadlines, retryAfter: Deadlines,
                    before: map<RequestId, InFlight>, after: map<RequestId, InFlight>, peer: Peer, other: Peer, now: Instant)
    requires PeerServed(pending, keys, known, retryAfter, before, peer, now)
    requires OnlyAdds(before, after, other) && peer != other
    ensures PeerServed(pending, keys, known, retryAfter, after, peer, now)
  {
    hide Waiting, At;
    if |At(before, peer)| != MAX_INFLIGHT_PER_PEER {
      forall s | s in keys
        ensures SenderServed(pending, known, retryAfter, after, peer, s, now)
      {
        assert SenderServed(pending, known, retryAfter, before, peer, s, now);
        if Outstanding(before, peer, s) {
          var r :| r in before && before[r].peer == peer && before[r].sender == s;
          assert r in after && after[r] == before[r];
        }
      }
    } else {
      assert At(after, peer) == At(before, peer);
    }
  }

  lemma FewerRequests(inFlight: map<RequestId, InFlight>, fewer: map<RequestId, InFlight>)
    requires Windowed(inFlight)
    requires fewer.Keys <= inFlight.Keys && forall r :: r in fewer ==> fewer[r] == inFlight[r]
    ensures Windowed(fewer)
  {
    forall peer
      ensures |At(fewer, peer)| <= MAX_INFLIGHT_PER_PEER
    {
      assert At(fewer, peer) <= At(inFlight, peer);
      SubsetSize(At(fewer, peer), At(inFlight, peer));
    }
  }

  lemma {:induction false} SubsetSize<T>(a: set<T>, b: set<T>)
    requires a <= b
    ensures |a| <= |b|
  {
    if a != {} {
      var x :| x in a;
      SubsetSize(a - {x}, b - {x});
    }
  }

  /** In the drain order, the transactions before position `k` include every predecessor of the k-th. */
  lemma PredecessorsComeFirst(pending: seq<Transaction>, k: nat, x: Transaction)
    requires Sorted(pending) && k < |pending| && x in pending
    requires x.sender == pending[k].sender && x.nonce < pending[k].nonce
    ensures x in pending[..k]
  {
    var a :| 0 <= a < |pending| && pending[a] == x;
    if a > k {
      assert InOrder(pending[k], pending[a]);
      TextLessTotal(x.sender, x.sender);
    }
    assert pending[..k][a] == x;
  }

  class TransactionGossip {
    var known: Deadlines
    var inFlight: map<RequestId, InFlight>
    var retryAfter: Deadlines
    var chainSyncAfter: map<Peer, Instant>
    /** Every acknowledgement ever received: who, for what, when. */
    ghost var acknowledged: set<(Peer, Digest, Instant)>

    ghost predicate Valid(swarm: Swarm)
      reads this, swarm
    {
      && Windowed(inFlight)
      && Backed(inFlight, swarm.transactions)
      && Earned(known, acknowledged)
      && Answered(acknowledged, swarm.transactions)
    }

    constructor (swarm: Swarm)
      ensures Valid(swarm)
      ensures known == map[] && inFlight == map[] && retryAfter == map[] && chainSyncAfter == map[]
    {
      known, inFlight, retryAfter, chainSyncAfter, acknowledged := map[], map[], map[], map[], {};
    }

    /** A live receipt is an acknowledgement, less than one receipt lifetime old, by that peer of a request that
        carried the transaction to it. */
    lemma ReceiptsAreEarned(swarm: Swarm, peer: Peer, id: Digest, now: Instant)
      requires Valid(swarm) && Later(known, peer, id, now)
      ensures WasSent(swarm.transactions, peer, id)
      ensures exists at :: (peer, id, at) in acknowledged && now < at + RECEIPT_TTL
    {
      assert Has(known, peer, id);
      assert (peer, id, known[peer][id] - RECEIPT_TTL) in acknowledged;
    }

    /** The four `retain` passes: expired receipts, transactions no longer pending and peers no longer
        connected are forgotten. */
    method Retain(swarm: Swarm, ids: set<Digest>, peers: set<Peer>, now: Instant)
      requires Valid(swarm)
      modifies this`known, this`inFlight, this`retryAfter, this`chainSyncAfter
      ensures Valid(swarm)
      ensures known == KeepReceipts(old(known), ids, peers, now)
      ensures retryAfter == KeepDeferred(old(retryAfter), ids, peers)
      ensures inFlight == KeepRequests(old(inFlight), ids, peers)
      ensures KeepsRequests(old(inFlight), inFlight, swarm.transactions, |swarm.transactions|, ids, peers)
      ensures KeepsDeadlines(old(retryAfter), retryAfter, ids, peers)
      ensures KeepsLiveReceipts(old(known), known, ids, peers, now)
      ensures chainSyncAfter == map peer | peer in old(chainSyncAfter) && peer in peers :: old(chainSyncAfter)[peer]
      ensures forall peer, id :: Has(known, peer, id) ==> Later(known, peer, id, now)
    {
      hide Windowed, Backed, KeepReceipts, KeepRequests, KeepDeferred, Earned, Answered;
      hide KeepsRequests, KeepsDeadlines, KeepsLiveReceipts;
      DeadlinesAreKept(known, retryAfter, ids, peers, now);
      RetainedRequests(inFlight, swarm.transactions, ids, peers);
      KeepEarned(known, acknowledged, ids, peers, now);
      known := KeepReceipts(known, ids, peers, now);
      inFlight := KeepRequests(inFlight, ids, peers);
      retryAfter := KeepDeferred(retryAfter, ids, peers);
      chainSyncAfter := map peer | peer in chainSyncAfter && peer in peers :: chainSyncAfter[peer];
    }

    /** The senders with a request in flight to `peer`. */
    function BusySenders(peer: Peer): (r: set<Text>)
      reads this
      ensures forall s :: s in r <==> Outstanding(inFlight, peer, s)
    {
      set r | r in inFlight && inFlight[r].peer == peer :: inFlight[r].sender
    }

    /** The inner loop of `drive`: fills the window of one peer from the sorted pending transactions. */
    method DrivePeer(swarm: Swarm, pending: seq<Transaction>, publicKeys: Keys, genesis: Digest, peer: Peer, now: Instant)
      requires Valid(swarm) && Sorted(pending)
      requires forall id :: Has(known, peer, id) ==> Later(known, peer, id, now)
      modifies this`inFlight, swarm`transactions
      ensures Valid(swarm)
      ensures OnlyAdds(old(inFlight), inFlight, peer)
      ensures EntersWhatItSends(old(inFlight), inFlight, swarm.transactions, |old(swarm.transactions)|, {peer})
      ensures PeerServed(pending, publicKeys, known, retryAfter, inFlight, peer, now)
      ensures old(swarm.transactions) <= swarm.transactions
      ensures AllWellSent(swarm.transactions, |old(swarm.transactions)|, pending, publicKeys, genesis, known, retryAfter, now)
    {
      hide Windowed, Earned, At, Scanned, PrefixReceipted, OnlyAdds, AllWellSent, SenderServed;
      hide Backed, Answered, EntersWhatItSends;
      EntersNothing(inFlight, swarm.transactions, {peer});
      WellSentNothing(swarm.transactions, pending, publicKeys, genesis, known, retryAfter, now);
      var slots: int := MAX_INFLIGHT_PER_PEER - |At(inFlight, peer)|;
      WindowBound(inFlight, peer);
      var senders := BusySenders(peer);
      ScanStarts(pending, publicKeys, known, retryAfter, inFlight, senders, peer, now);
      OnlyAddsNothing(inFlight, peer);
      var i := 0;
      while i < |pending| && slots > 0
        invariant 0 <= i <= |pending| && Valid(swarm)
        invariant 0 <= slots == MAX_INFLIGHT_PER_PEER - |At(inFlight, peer)|
        invariant OnlyAdds(old(inFlight), inFlight, peer)
        invariant EntersWhatItSends(old(inFlight), inFlight, swarm.transactions, |old(swarm.transactions)|, {peer})
        invariant Scanned(pending, i, publicKeys, known, retryAfter, inFlight, senders, peer, now)
        invariant old(swarm.transactions) <= swarm.transactions
        invariant AllWellSent(swarm.transactions, |old(swarm.transactions)|, pending, publicKeys, genesis, known, retryAfter, now)
        decreases |pending| - i
      {
        var t := pending[i];
        if t.sender in senders || Has(known, peer, t.id) {
          ScanSkips(pending, i, publicKeys, known, retryAfter, inFlight, senders, peer, now);
        } else if Later(retryAfter, peer, t.id, now) {
          ScanDefers(pending, i, publicKeys, known, retryAfter, inFlight, senders, peer, now);
          senders := senders + {t.sender};
        } else if t.sender !in publicKeys {
          ScanSkips(pending, i, publicKeys, known, retryAfter, inFlight, senders, peer, now);
        } else {
          ScanUnblocks(pending, i, publicKeys, known, retryAfter, inFlight, senders, peer, now);
          var a := TransactionAnnouncement(genesis, t, publicKeys[t.sender]);
          WellSentAppend(swarm.transactions, |old(swarm.transactions)|, Sent(peer, a), pending, publicKeys, genesis,
                         known, retryAfter, now);
          var entry := InFlight(peer, t.id, t.sender);
          SentMore(inFlight, acknowledged, swarm.transactions, Sent(peer, a), entry);
          EntersOne(old(inFlight), inFlight, swarm.transactions, |old(swarm.transactions)|, {peer}, Sent(peer, a), entry);
          var request := swarm.SendTransaction(peer, a);
          ScanSends(pending, i, publicKeys, known, retryAfter, inFlight, senders, peer, now, request);
          AtAfterAdding(inFlight, request, entry);
          AddRequest(inFlight, request, entry);
          OnlyAddsOne(old(inFlight), inFlight, request, entry);
          inFlight := inFlight[request := entry];
          senders := senders + {t.sender};
          slots := slots - 1;
        }
        i := i + 1;
      }
      if i == |pending| {
        ScanDone(pending, publicKeys, known, retryAfter, inFlight, senders, peer, now);
      }
    }

    /** `drive`: forgets what no longer matters, then fills the window of every connected peer. Everything it
        sends is a pending transaction whose predecessors the peer has acknowledged, and afterwards every peer
        is either full or has nothing left that could be sent to it now. */
    method Drive(swarm: Swarm, chain: Blockchain, peers: set<Peer>, now: Instant)
      requires chain.Valid() && Valid(swarm)
      modifies this`known, this`inFlight, this`retryAfter, this`chainSyncAfter, swarm`transactions
      ensures Valid(swarm)
      ensures known == KeepReceipts(old(known), Ids(chain.mempool.log), peers, now)
      ensures retryAfter == KeepDeferred(old(retryAfter), Ids(chain.mempool.log), peers)
      ensures forall r :: r in KeepRequests(old(inFlight), Ids(chain.mempool.log), peers) ==>
        r in inFlight && inFlight[r] == old(inFlight)[r]
      ensures EntersWhatItSends(KeepRequests(old(inFlight), Ids(chain.mempool.log), peers), inFlight, swarm.transactions,
                                |old(swarm.transactions)|, peers)
      ensures KeepsRequests(old(inFlight), inFlight, swarm.transactions, |old(swarm.transactions)|,
                            Ids(chain.mempool.log), peers)
      ensures KeepsDeadlines(old(retryAfter), retryAfter, Ids(chain.mempool.log), peers)
      ensures KeepsLiveReceipts(old(known), known, Ids(chain.mempool.log), peers, now)
      ensures forall peer :: peer in peers ==>
        PeerServed(Drained(chain.mempool.log), chain.publicKeys, known, retryAfter, inFlight, peer, now)
      ensures old(swarm.transactions) <= swarm.transactions
      ensures AllWellSent(swarm.transactions, |old(swarm.transactions)|, Drained(chain.mempool.log), chain.publicKeys,
                          chain.blocks[0].hash, known, retryAfter, now)
    {
      hide Inv, Windowed, Earned, PeerServed, AllWellSent, Drained, KeepReceipts, KeepDeferred;
      hide Backed, Answered, EntersWhatItSends, KeepsRequests, KeepsDeadlines, KeepsLiveReceipts;
      hide WellSent, Scanned, At;
      OldRequests(inFlight, swarm.transactions);
      chain.ValidIsWired();
      InvTrustsItsBlocks(chain.View());
      var pending := chain.mempool.SortedPending();
      DrainedMultiset(chain.mempool.log);
      MultisetMembers(pending, chain.mempool.log);
      var ids := set t | t in pending :: t.id;
      assert ids == Ids(chain.mempool.log);
      Retain(swarm, ids, peers, now);
      ghost var kept, receipts, deferred := inFlight, known, retryAfter;
      ghost var keys, genesis := chain.publicKeys, chain.blocks[0].hash;
      WellSentNothing(swarm.transactions, pending, keys, genesis, known, retryAfter, now);
      EntersNothing(inFlight, swarm.transactions, peers);
      var rest := peers;
      while rest != {}
        invariant rest <= peers && Valid(swarm)
        invariant known == receipts && retryAfter == deferred
        invariant forall r :: r in kept ==> r in inFlight && inFlight[r] == kept[r]
        invariant EntersWhatItSends(kept, inFlight, swarm.transactions, |old(swarm.transactions)|, peers)
        invariant forall peer :: peer in peers - rest ==>
          PeerServed(pending, keys, known, retryAfter, inFlight, peer, now)
        invariant old(swarm.transactions) <= swarm.transactions
        invariant AllWellSent(swarm.transactions, |old(swarm.transactions)|, pending, keys, genesis, known, retryAfter, now)
        decreases rest
      {
        var peer :| peer in rest;
        ghost var before, sent := inFlight, swarm.transactions;
        DrivePeer(swarm, pending, chain.publicKeys, chain.blocks[0].hash, peer, now);
        EntersMore(kept, before, inFlight, sent, swarm.transactions, |old(swarm.transactions)|, peer, peers);
        WellSentConcat(sent, swarm.transactions, |old(swarm.transactions)|, pending, keys, genesis, known, retryAfter, now);
        forall other | other in peers - rest
          ensures PeerServed(pending, keys, known, retryAfter, inFlight, other, now)
        {
          ServedStays(pending, keys, known, retryAfter, before, inFlight, other, peer, now);
        }
        rest := rest - {peer};
      }
      RequestsAreKept(old(inFlight), inFlight, swarm.transactions, |old(swarm.transactions)|, ids, peers);
    }

    /** A response arrives. An acknowledgement becomes a receipt; `Confirmed` also asks for the peer's chain,
        at most once per receipt lifetime; a refusal only delays the next attempt. */
    method OnResponse(swarm: Swarm, request: RequestId, peer: Peer, response: Response, now: Instant)
      requires Valid(swarm)
      modifies this, swarm`chainRequests
      ensures Valid(swarm)
      ensures inFlight == old(inFlight) - {request}
      ensures var answered := request in old(inFlight) && old(inFlight)[request].peer == peer;
        var acknowledges := response in {Accepted, AlreadyKnown, Confirmed};
        var asks := answered && response == Confirmed && (peer !in old(chainSyncAfter) || old(chainSyncAfter)[peer] <= now);
        && known == (if answered && acknowledges
                     then Stamp(old(known), peer, old(inFlight)[request].id, now + RECEIPT_TTL) else old(known))
        && retryAfter == (if answered && !acknowledges
                          then Stamp(old(retryAfter), peer, old(inFlight)[request].id, now + RETRY_DELAY) else old(retryAfter))
        && chainSyncAfter == (if asks then old(chainSyncAfter)[peer := now + RECEIPT_TTL] else old(chainSyncAfter))
        && swarm.chainRequests == old(swarm.chainRequests) + (if asks then [peer] else [])
    {
      hide Windowed, Earned, Stamp;
      ghost var before := inFlight;
      if request !in inFlight {
        return;
      }
      var entry := inFlight[request];
      FewerRequests(inFlight, inFlight - {request});
      inFlight := inFlight - {request};
      if entry.peer != peer {
        return;
      }
      if response == Accepted || response == AlreadyKnown || response == Confirmed {
        EarnReceipt(known, acknowledged, peer, entry.id, now);
        assert Carries(swarm.transactions, request, before[request]);
        acknowledged := acknowledged + {(peer, entry.id, now)};
        known := Stamp(known, peer, entry.id, now + RECEIPT_TTL);
        if response == Confirmed && (peer !in chainSyncAfter || chainSyncAfter[peer] <= now) {
          swarm.AskForChain(peer);
          chainSyncAfter := chainSyncAfter[peer := now + RECEIPT_TTL];
        }
      } else {
        retryAfter := Stamp(retryAfter, peer, entry.id, now + RETRY_DELAY);
      }
    }

    /** A request could not be delivered: it may be retried after a delay. */
    method OnOutboundFailure(swarm: Swarm, peer: Peer, request: RequestId, now: Instant)
      requires Valid(swarm)
      modifies this`inFlight, this`retryAfter
      ensures Valid(swarm)
      ensures inFlight == old(inFlight) - {request}
      ensures retryAfter == if request in old(inFlight)
                            then Stamp(old(retryAfter), peer, old(inFlight)[request].id, now + RETRY_DELAY)
                            else old(retryAfter)
    {
      hide Windowed, Earned;
      if request in inFlight {
        var entry := inFlight[request];
        FewerRequests(inFlight, inFlight - {request});
        inFlight := inFlight - {request};
        retryAfter := Stamp(retryAfter, peer, entry.id, now + RETRY_DELAY);
      }
    }
  }

  lemma WellSentNothing(sent: seq<Sent>, pending: seq<Transaction>, keys: Keys, genesis: Digest, known: Deadlines,
                        retryAfter: Deadlines, now: Instant)
    ensures AllWellSent(sent, |sent|, pending, keys, genesis, known, retryAfter, now)
  {
  }

  lemma WindowBound(inFlight: map<RequestId, InFlight>, peer: Peer)
    requires Windowed(inFlight)
    ensures |At(inFlight, peer)| <= MAX_INFLIGHT_PER_PEER
  {
  }

  lemma OnlyAddsNothing(inFlight: map<RequestId, InFlight>, peer: Peer)
    ensures OnlyAdds(inFlight, inFlight, peer)
  {
  }

  lemma ScanStarts(pending: seq<Transaction>, keys: Keys, known: Deadlines, retryAfter: Deadlines,
                   inFlight: map<RequestId, InFlight>, senders: set<Text>, peer: Peer, now: Instant)
    requires forall s :: s in senders <==> Outstanding(inFlight, peer, s)
    ensures Scanned(pending, 0, keys, known, retryAfter, inFlight, senders, peer, now)
  {
  }

  lemma ScanUnblocks(pending: seq<Transaction>, i: nat, keys: Keys, known: Deadlines, retryAfter: Deadlines,
                     inFlight: map<RequestId, InFlight>, senders: set<Text>, peer: Peer, now: Instant)
    requires Sorted(pending)
    requires Scanned(pending, i, keys, known, retryAfter, inFlight, senders, peer, now) && i < |pending|
    requires pending[i].sender !in senders && pending[i].sender in keys
    ensures PrefixReceipted(pending, known, peer, pending[i], now)
    ensures !Outstanding(inFlight, peer, pending[i].sender)
  {
    Unblocked(pending, i, keys, known, senders, peer, now);
  }
}
