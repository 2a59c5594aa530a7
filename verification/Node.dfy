/**
 What a running node does to its chain, step by step: applying peer messages
 (`zion-core/src/network/sync.rs`, `transactions.rs`), answering and relaying them (`service.rs`), and the
 submission path (`zion-core/src/ledger.rs`). Each method implements a function of `Sync`, `Network` or `Runs`.
 */
module Node {
  import opened Prelude
  import opened Crypto
  import opened Transactions
  import opened Blocks
  import opened Sequences
  import opened Ledger
  import opened Validation
  import opened Pool
  import opened ChainModel
  import opened MempoolClass
  import opened BlockchainClass
  import opened Network
  import Sync
  import Runs

  /** Learns the keys a block needs, for names not known yet. */
  method MergeBlockAccounts(chain: Blockchain, b: Block, accounts: Keys)
    requires chain.Valid()
    modifies chain`publicKeys
    ensures chain.Valid()
    ensures chain.View() == old(chain.View()).(keys := Sync.MergeBlockAccounts(old(chain.publicKeys), b, accounts))
  {
    hide Inv, Sync.MergeAccounts, Sync.Restrict, Sync.Senders;
    ghost var before, known := chain.View(), chain.publicKeys;
    Sync.MergeStep(known, accounts, {}, MINT_ACCOUNT);
    Sync.SendersOfNone(b.transactions);
    for i := 0 to |b.transactions|
      invariant chain.publicKeys == Sync.MergeAccounts(known, Sync.Restrict(accounts, Sync.Senders(b.transactions[..i])))
    {
      var sender := b.transactions[i].sender;
      Sync.SendersAppend(b.transactions, i);
      Sync.MergeStep(known, accounts, Sync.Senders(b.transactions[..i]), sender);
      if sender !in chain.publicKeys && sender in accounts {
        chain.publicKeys := chain.publicKeys[sender := accounts[sender]];
      }
    }
    assert b.transactions[..|b.transactions|] == b.transactions;
    LearnedKeysKeepValid(before, chain, Sync.Restrict(accounts, Sync.Senders(b.transactions)));
  }

  lemma LearnedKeysKeepValid(before: Chain, chain: Blockchain, accounts: Keys)
    requires Inv(before) && chain.mempool.Valid()
    requires chain.View() == before.(keys := Sync.MergeAccounts(before.keys, accounts))
    ensures chain.Valid()
  {
    var keys := Sync.MergeAccounts(before.keys, accounts);
    GrowthKeepsInv(before, before.authorities, keys);
    assert before.(authorities := before.authorities, keys := keys) == before.(keys := keys);
  }

  /** Learns keys for names not known yet. */
  method MergeAccounts(chain: Blockchain, accounts: Keys)
    requires chain.Valid()
    modifies chain`publicKeys
    ensures chain.Valid()
    ensures chain.View() == old(chain.View()).(keys := Sync.MergeAccounts(old(chain.publicKeys), accounts))
  {
    hide Inv, Sync.MergeAccounts, Sync.Restrict;
    ghost var before, known := chain.View(), chain.publicKeys;
    var rest := accounts.Keys;
    ghost var done: set<Text> := {};
    Sync.MergeStep(known, accounts, {}, MINT_ACCOUNT);
    while rest != {}
      invariant rest + done == accounts.Keys && rest !! done
      invariant chain.publicKeys == Sync.MergeAccounts(known, Sync.Restrict(accounts, done))
      decreases rest
    {
      var name :| name in rest;
      Sync.MergeStep(known, accounts, done, name);
      if name !in chain.publicKeys {
        chain.publicKeys := chain.publicKeys[name := accounts[name]];
      }
      rest, done := rest - {name}, done + {name};
    }
    Sync.RestrictStep(accounts, {}, MINT_ACCOUNT);
    LearnedKeysKeepValid(before, chain, accounts);
  }

  /** Learns authorities whose key is known. */
  method MergeAuthorities(chain: Blockchain, offered: set<Text>)
    requires chain.Valid()
    modifies chain`authorities
    ensures chain.Valid()
    ensures chain.View() == old(chain.View()).(authorities :=
              Sync.MergeAuthorities(old(chain.authorities), chain.publicKeys, offered))
  {
    hide Inv, Sync.MergeAuthorities;
    ghost var known, before := chain.authorities, chain.View();
    var rest := offered;
    ghost var done: set<Text> := {};
    Sync.AuthorityStep(known, chain.publicKeys, {}, MINT_ACCOUNT);
    while rest != {}
      invariant rest + done == offered && rest !! done
      invariant chain.authorities == Sync.MergeAuthorities(known, chain.publicKeys, done)
      decreases rest
    {
      var name :| name in rest;
      Sync.AuthorityStep(known, chain.publicKeys, done, name);
      if name !in chain.authorities && name in chain.publicKeys {
        chain.authorities := chain.authorities + {name};
      }
      rest, done := rest - {name}, done + {name};
    }
    LearnedAuthoritiesKeepValid(before, chain, offered);
  }

  lemma LearnedAuthoritiesKeepValid(before: Chain, chain: Blockchain, offered: set<Text>)
    requires Inv(before) && chain.mempool.Valid()
    requires chain.View() == before.(authorities := Sync.MergeAuthorities(before.authorities, before.keys, offered))
    ensures chain.Valid()
  {
    var authorities := Sync.MergeAuthorities(before.authorities, before.keys, offered);
    GrowthKeepsInv(before, authorities, before.keys);
    assert before.(authorities := authorities, keys := before.keys) == before.(authorities := authorities);
  }

  /** `apply_announcement`: keys are learned first and forgotten again if the block is refused. */
  method ApplyAnnouncement(chain: Blockchain, a: Sync.BlockAnnouncement) returns (r: Result<Sync.BlockOutcome, ChainError>)
    requires chain.Valid()
    modifies chain, chain.mempool
    ensures chain.Valid() && chain.mempool == old(chain.mempool)
    ensures Sync.Reply(chain.View(), r) == Sync.ApplyAnnouncement(old(chain.View()), a)
  {
    hide Inv, TryAppend, Sync.MergeBlockAccounts;
    var height := AsU32(|chain.blocks|);
    if a.block.index < height {
      var known := a.block.index < |chain.blocks| && chain.blocks[a.block.index].hash == a.block.hash;
      return Ok(if known then Sync.Known else Sync.OutOfOrder);
    }
    if a.block.index > height {
      return Ok(Sync.OutOfOrder);
    }
    ghost var before := chain.View();
    var keysBefore := chain.publicKeys;
    MergeBlockAccounts(chain, a.block, a.accounts);
    var failure := chain.TryAppendBlock(a.block);
    if failure.None? {
      return Ok(Sync.Appended);
    }
    chain.publicKeys := keysBefore;
    assert chain.View() == before;
    return Err(failure.value);
  }

  /** `apply_snapshot`: keys and authorities are learned first and forgotten again unless the chain is adopted. */
  method ApplySnapshot(chain: Blockchain, s: Sync.ChainSnapshot) returns (r: Result<bool, ChainError>)
    requires chain.Valid()
    modifies chain, chain.mempool
    ensures chain.Valid() && chain.mempool == old(chain.mempool)
    ensures Sync.Reply(chain.View(), r) == Sync.ApplySnapshot(old(chain.View()), s)
  {
    hide Inv, TryAdopt, Sync.MergeAccounts, Sync.MergeAuthorities;
    if |s.blocks| <= |chain.blocks| {
      return Ok(false);
    }
    ghost var before := chain.View();
    var keysBefore := chain.publicKeys;
    var authoritiesBefore := chain.authorities;
    MergeAccounts(chain, s.accounts);
    MergeAuthorities(chain, s.authorities);
    r := chain.TryAdoptChain(s.blocks);
    if r != Ok(true) {
      chain.publicKeys := keysBefore;
      chain.authorities := authoritiesBefore;
      assert chain.View() == before;
    }
  }

  /** `apply_transaction`: learning an unknown sender is atomic with admission. */
  method ApplyTransaction(chain: Blockchain, a: Sync.TransactionAnnouncement) returns (r: Result<Sync.Response, ChainError>)
    requires chain.Valid()
    modifies chain`publicKeys, chain.mempool
    ensures chain.Valid() && chain.mempool == old(chain.mempool)
    ensures Sync.Reply(chain.View(), r) == Sync.ApplyTransaction(old(chain.View()), a)
  {
    hide Inv, ChainModel.QueueTransaction;
    ghost var before := chain.View();
    chain.ValidIsWired();
    InvTrustsItsBlocks(before);
    if chain.blocks[0].hash != a.genesisHash {
      return Err(GenesisMismatch);
    }
    var sender := a.transaction.sender;
    var known := sender in chain.publicKeys;
    if !known && sender in chain.authorities {
      return Err(UnknownSender(sender));
    }
    if known && chain.publicKeys[sender] != a.senderKey {
      return Err(InvalidSignature(a.transaction.id));
    }
    if !known {
      chain.AddPublicKey(sender, a.senderKey);
    }
    chain.ValidIsWired();
    var committed := chain.GetTransaction(a.transaction.id);
    ghost var taught := chain.View();
    var queued := chain.QueueTransaction(a.transaction);
    if queued.Ok? {
      return Ok(Sync.Accepted);
    }
    if !known {
      chain.publicKeys := chain.publicKeys - {sender};
      assert chain.publicKeys == before.keys;
      assert chain.View() == before;
    }
    if queued.error.DuplicateTransaction? {
      return Ok(if committed.Some? then Sync.Confirmed else Sync.AlreadyKnown);
    }
    return Err(queued.error);
  }

  /** The request side of the gossip protocol: what goes back on the wire. */
  method AnswerTransaction(chain: Blockchain, a: Sync.TransactionAnnouncement) returns (response: Sync.Response)
    requires chain.Valid()
    modifies chain`publicKeys, chain.mempool
    ensures chain.Valid()
    ensures chain.View() == Sync.ApplyTransaction(old(chain.View()), a).chain
    ensures response == Sync.ResponseTo(Sync.ApplyTransaction(old(chain.View()), a).result)
  {
    hide Inv, Sync.ApplyTransaction;
    var r := ApplyTransaction(chain, a);
    match r
    case Ok(answer) => response := answer;
    case Err(MempoolFull(_, _)) => response := Sync.Busy;
    case Err(_) => response := Sync.Rejected;
  }

  /** `announcement_of` for the newest block: the keys of its senders, looked up one by one. */
  method AnnounceTip(chain: Blockchain) returns (a: Sync.BlockAnnouncement)
    requires chain.blocks != []
    ensures a == TipAnnouncement(chain.View())
  {
    hide Sync.Restrict, Sync.Senders;
    var b := Tip(chain.blocks);
    var accounts: Keys := map[];
    Sync.RestrictStep(chain.publicKeys, {}, MINT_ACCOUNT);
    Sync.SendersOfNone(b.transactions);
    for i := 0 to |b.transactions|
      invariant accounts == Sync.Restrict(chain.publicKeys, Sync.Senders(b.transactions[..i]))
    {
      var sender := b.transactions[i].sender;
      Sync.SendersAppend(b.transactions, i);
      Sync.RestrictStep(chain.publicKeys, Sync.Senders(b.transactions[..i]), sender);
      if sender in chain.publicKeys {
        accounts := accounts[sender := chain.publicKeys[sender]];
      }
    }
    assert b.transactions[..|b.transactions|] == b.transactions;
    a := Sync.BlockAnnouncement(b, accounts);
  }

  lemma RelayOneMore(me: nat, except: nat, peers: seq<nat>, i: nat, a: Sync.BlockAnnouncement, sent: seq<Network.Message>)
    requires i < |peers|
    ensures sent + Relay(me, except, peers[i..], a)
         == (if peers[i] != except then sent + [Network.Message(me, peers[i], NewBlock(a))] else sent)
            + Relay(me, except, peers[i + 1..], a)
  {
    var rest := peers[i..];
    assert rest[0] == peers[i] && rest[1..] == peers[i + 1..];
  }

  /** One announcement to every connected peer but one. */
  method SendToPeers(me: nat, except: nat, peers: seq<nat>, a: Sync.BlockAnnouncement) returns (sent: seq<Network.Message>)
    ensures sent == Relay(me, except, peers, a)
  {
    sent := [];
    assert peers[0..] == peers && peers[|peers|..] == [];
    assert Relay(me, except, [], a) == [];
    hide Relay;
    for i := 0 to |peers|
      invariant sent + Relay(me, except, peers[i..], a) == Relay(me, except, peers, a)
    {
      RelayOneMore(me, except, peers, i, a, sent);
      if peers[i] != except {
        sent := sent + [Network.Message(me, peers[i], NewBlock(a))];
      }
    }
  }

  /** `handle_sync_event`: applies one message and collects what it makes the node send. */
  method HandleSyncEvent(chain: Blockchain, me: nat, peer: nat, peers: seq<nat>, body: Body) returns (sent: seq<Network.Message>)
    requires chain.Valid() && !body.Pending?
    modifies chain, chain.mempool
    ensures chain.Valid()
    ensures Handled(chain.View(), sent) == Handle(old(chain.View()), me, peer, peers, body)
  {
    hide Inv, Sync.ApplyAnnouncement, Sync.ApplySnapshot, Sync.AnnouncementOf;
    sent := [];
    match body
    case GetChain =>
      var snapshot := Sync.ChainSnapshot(chain.blocks, chain.publicKeys, chain.authorities);
      sent := [Network.Message(me, peer, ChainReply(snapshot))];
    case NewBlock(a) =>
      var r := ApplyAnnouncement(chain, a);
      InvTrustsItsBlocks(chain.View());
      if r == Ok(Sync.Appended) {
        var announcement := AnnounceTip(chain);
        var relayed := SendToPeers(me, peer, peers, announcement);
        sent := relayed + [Network.Message(me, peer, Ack)];
      } else {
        sent := [Network.Message(me, peer, Ack)];
        if r == Ok(Sync.OutOfOrder) {
          sent := sent + [Network.Message(me, peer, GetChain)];
        }
      }
    case ChainReply(s) =>
      var r := ApplySnapshot(chain, s);
      InvTrustsItsBlocks(chain.View());
      if r == Ok(true) {
        var announcement := AnnounceTip(chain);
        sent := SendToPeers(me, peer, peers, announcement);
      }
    case Ack =>
  }

  /** `seal_pending`. `saved` is the verdict of the store; the announcement goes to the network task. */
  method SealPending(chain: Blockchain, name: Text, key: SigningKey, now: u64, saved: bool)
    returns (failure: Option<Runs.Submission>, announced: Option<Sync.BlockAnnouncement>)
    requires chain.Valid()
    modifies chain, chain.mempool
    ensures chain.Valid() && (chain.mempool == old(chain.mempool) || fresh(chain.mempool))
    ensures Runs.Sealing(chain.View(), failure, announced) == Runs.SealPending(old(chain.View()), name, key, now, saved)
  {
    hide Inv, ChainModel.SealMempool, Sync.AnnouncementOf;
    failure, announced := None, None;
    var r := chain.SealMempool(name, key, now);
    match r
    case Err(e) => failure := Some(Runs.NotSealed(e));
    case Ok(None) =>
    case Ok(Some(_)) =>
      if saved {
        InvTrustsItsBlocks(chain.View());
        var a := AnnounceTip(chain);
        announced := Some(a);
      } else {
        failure := Some(Runs.NotPersisted);
      }
  }

  /** One operation of another task: a step of `Runs`. */
  method Perform(chain: Blockchain, op: Runs.Operation)
    requires chain.Valid()
    modifies chain, chain.mempool
    ensures chain.Valid() && (chain.mempool == old(chain.mempool) || fresh(chain.mempool))
    ensures chain.View() == Runs.Step(old(chain.View()), op)
  {
    hide Inv, ChainModel.SealMempool, ChainModel.AddBlock, ChainModel.QueueTransaction, TryAppend, TryAdopt;
    hide Sync.ApplyAnnouncement, Sync.ApplySnapshot, Sync.ApplyTransaction;
    match op
    case Queue(t) =>
      chain.ValidIsWired();
      var r := chain.QueueTransaction(t);
    case Seal(name, key, now) => var r := chain.SealMempool(name, key, now);
    case Add(txs, name, key, now) => var r := chain.AddBlock(txs, name, key, now);
    case Append(b) => var failure := chain.TryAppendBlock(b);
    case Adopt(blocks) => var r := chain.TryAdoptChain(blocks);
    case Announce(a) => var r := ApplyAnnouncement(chain, a);
    case Snapshot(s) => var r := ApplySnapshot(chain, s);
    case Gossip(offer) => var r := ApplyTransaction(chain, offer);
    case Register(name, key) =>
      if name != MINT_ACCOUNT && (name !in chain.publicKeys || chain.publicKeys[name] == key) {
        chain.AddPublicKey(name, key);
      }
    case Authorise(name, key) =>
      if name !in chain.publicKeys || chain.publicKeys[name] == key {
        chain.RegisterAuthority(name, key);
      }
  }

  /** Everything other tasks do, one operation after the other: a run of `Runs`. */
  method PerformAll(chain: Blockchain, ops: seq<Runs.Operation>)
    requires chain.Valid()
    modifies chain, chain.mempool
    ensures chain.Valid() && (chain.mempool == old(chain.mempool) || fresh(chain.mempool))
    ensures chain.View() == Runs.Run(old(chain.View()), ops)
  {
    hide Inv, Runs.Step;
    for i := 0 to |ops|
      invariant chain.Valid() && (chain.mempool == old(chain.mempool) || fresh(chain.mempool))
      invariant chain.View() == Runs.Run(old(chain.View()), ops[..i])
    {
      assert ops[..i + 1][..i] == ops[..i];
      Perform(chain, ops[i]);
    }
    assert ops[..|ops|] == ops;
  }

  /** `submit`; the other tasks of the node do `meanwhile` while the lock is released. */
  method Submit(chain: Blockchain, t: Transaction, name: Text, key: SigningKey, meanwhile: seq<Runs.Operation>, now: u64,
                saved: bool)
    returns (outcome: Runs.Submission, announced: Option<Sync.BlockAnnouncement>)
    requires chain.Valid()
    modifies chain, chain.mempool
    ensures chain.Valid()
    ensures Runs.Submitted(chain.View(), outcome, announced)
         == Runs.Submit(old(chain.View()), t, name, key, meanwhile, now, saved)
  {
    hide Inv, ChainModel.QueueTransaction, Runs.SealPending, Runs.Run;
    announced := None;
    if t.sender == MINT_ACCOUNT {
      return Runs.RejectedSubmission(ReservedSender(t.sender)), None;
    }
    chain.ValidIsWired();
    var queued := chain.QueueTransaction(t);
    if queued.Err? {
      return if queued.error.MempoolFull? then Runs.BusyNode else Runs.RejectedSubmission(queued.error), None;
    }
    var pending := chain.mempool.Len();
    outcome := Runs.Queued(t.id, pending);
    var worthSealing := chain.mempool.IsWorthSealing()
      && name in chain.authorities && name in chain.publicKeys && chain.publicKeys[name] == key.Public();
    PerformAll(chain, meanwhile);
    if worthSealing {
      var failure, a := SealPending(chain, name, key, now, saved);
      announced := a;
      if failure.Some? {
        outcome := failure.value;
      }
    }
  }
}
