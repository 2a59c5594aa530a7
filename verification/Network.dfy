/**
 The sync protocol between nodes (`handle_sync_event`, `zion-core/src/network/service.rs`) as a step system
 over any number of nodes, with messages that may be lost, delayed, duplicated and reordered.
 */
module Network {
  import opened Prelude
  import opened Crypto
  import opened Transactions
  import opened Blocks
  import opened Sequences
  import opened Ledger
  import opened Validation
  import opened Pool
  import opened ChainModel
  import opened Sync

  datatype Body =
    | GetChain
    | NewBlock(announcement: BlockAnnouncement)
    | ChainReply(snapshot: ChainSnapshot)
    | Ack
    | Pending(offer: TransactionAnnouncement)

  datatype Message = Message(source: nat, target: nat, body: Body)

  /** The chain after an event, and what the node sends because of it. */
  datatype Handled = Handled(chain: Chain, sent: seq<Message>)

  /** One announcement to every connected peer but `except`. */
  function Relay(me: nat, except: nat, peers: seq<nat>, a: BlockAnnouncement): seq<Message> {
    if peers == [] then []
    else
      (if peers[0] != except then [Message(me, peers[0], NewBlock(a))] else [])
      + Relay(me, except, peers[1..], a)
  }

  function TipAnnouncement(c: Chain): BlockAnnouncement
    requires c.blocks != []
  {
    AnnouncementOf(c, Tip(c.blocks))
  }

  /** Node `me` handles one message from `peer` while connected to `peers`. Only growth is relayed; only a
      block that does not sit at our tip makes us ask for the whole chain. */
  function Handle(c: Chain, me: nat, peer: nat, peers: seq<nat>, body: Body): Handled {
    match body
    case GetChain => Handled(c, [Message(me, peer, ChainReply(SnapshotOf(c)))])
    case NewBlock(a) =>
      var r := ApplyAnnouncement(c, a);
      (match r.result
       case Ok(Appended) =>
         Handled(r.chain,
                 (if r.chain.blocks == [] then [] else Relay(me, peer, peers, TipAnnouncement(r.chain)))
                 + [Message(me, peer, Ack)])
       case Ok(OutOfOrder) => Handled(r.chain, [Message(me, peer, Ack), Message(me, peer, GetChain)])
       case _ => Handled(r.chain, [Message(me, peer, Ack)]))
    case ChainReply(s) =>
      var r := ApplySnapshot(c, s);
      Handled(r.chain,
              if r.result == Ok(true) && r.chain.blocks != []
              then Relay(me, peer, peers, TipAnnouncement(r.chain)) else [])
    case Ack => Handled(c, [])
    case Pending(offer) => Handled(Sync.ApplyTransaction(c, offer).chain, [])
  }

  lemma {:induction false} RelayTargets(me: nat, except: nat, peers: seq<nat>, a: BlockAnnouncement)
    ensures forall m :: m in Relay(me, except, peers, a) ==>
      m.source == me && m.target in peers && m.target != except && m.body == NewBlock(a)
    ensures forall u :: u in peers && u != except ==> Message(me, u, NewBlock(a)) in Relay(me, except, peers, a)
  {
    if peers != [] {
      RelayTargets(me, except, peers[1..], a);
    }
  }

  /** What handling a message sends, message by message: an announcement is acknowledged once, its author alone is
      asked for the chain, and only if its block is not at our height and not ours; a node that grew tells all its
      peers but the one it learned from, and nobody else, about its new tip. */
  lemma HandleSends(c: Chain, me: nat, peer: nat, peers: seq<nat>, body: Body, m: Message)
    requires c.blocks != []
    ensures var h := Handle(c, me, peer, peers, body);
      && h.chain.blocks != []
      && var grew := h.chain.Height() > c.Height();
      && (m in h.sent ==> m.source == me)
      && (m in h.sent && m.body.Ack? <==> body.NewBlock? && m == Message(me, peer, Ack))
      && (m in h.sent && m.body.GetChain? <==>
            body.NewBlock? && ApplyAnnouncement(c, body.announcement).result == Ok(OutOfOrder)
            && m == Message(me, peer, GetChain))
      && (m in h.sent && m.body.ChainReply? <==> body.GetChain? && m == Message(me, peer, ChainReply(SnapshotOf(c))))
      && (m in h.sent && m.body.NewBlock? <==>
            grew && m.target in peers && m.target != peer && m == Message(me, m.target, NewBlock(TipAnnouncement(h.chain))))
  {
    hide ApplyAnnouncement, ApplySnapshot, Relay, AnnouncementOf, Sync.ApplyTransaction;
    match body
    case NewBlock(a) =>
      AnnouncementGrows(c, a);
      RelayTargets(me, peer, peers, TipAnnouncement(ApplyAnnouncement(c, a).chain));
    case ChainReply(s) =>
      SnapshotGrows(c, s);
      RelayTargets(me, peer, peers, TipAnnouncement(ApplySnapshot(c, s).chain));
    case Pending(offer) => GossipTeaches(c, offer, map[]);
    case _ =>
  }

  lemma AnnouncementGrows(c: Chain, a: BlockAnnouncement)
    requires c.blocks != []
    ensures var r := ApplyAnnouncement(c, a);
      && r.chain.blocks != [] && r.chain.Height() == c.Height() + if r.result == Ok(Appended) then 1 else 0
  {
    hide TryAppend;
    AppendOnlyAdds(c.(keys := MergeBlockAccounts(c.keys, a.block, a.accounts)), a.block);
  }

  lemma SnapshotGrows(c: Chain, s: ChainSnapshot)
    requires c.blocks != []
    ensures var r := ApplySnapshot(c, s);
      r.chain.blocks != [] && (r.result == Ok(true) <==> r.chain.Height() > c.Height())
  {
    hide TryAdopt;
    var keys := MergeAccounts(c.keys, s.accounts);
    AdoptOnlyReplaces(c.(keys := keys, authorities := MergeAuthorities(c.authorities, keys, s.authorities)), s.blocks);
  }

  datatype Net = Net(nodes: seq<Chain>, flight: seq<Message>)

  /** What all nodes agree on from the start: who seals, with which key, and which key each name has. */
  datatype World = World(authority: Text, key: SigningKey, bindings: Keys)

  datatype Step =
    | Deliver(i: nat, peers: seq<nat>)
    | Lose(i: nat)
    | Duplicate(i: nat)
    | Seal(now: u64, peers: seq<nat>)
    | Submit(n: nat, t: Transaction)
    | Register(n: nat, name: Text)
    | Greet(n: nat, m: nat)
    | Offer(n: nat, m: nat, k: nat)

  function Without(flight: seq<Message>, i: nat): seq<Message>
    requires i < |flight|
  {
    flight[..i] + flight[i + 1..]
  }

  function Delivered(net: Net, i: nat, peers: seq<nat>): Net
    requires i < |net.flight| && net.flight[i].target < |net.nodes|
  {
    var m := net.flight[i];
    var h := Handle(net.nodes[m.target], m.target, m.source, peers, m.body);
    Net(net.nodes[m.target := h.chain], Without(net.flight, i) + h.sent)
  }

  /** Node 0 seals its pool and announces the block to the peers it is connected to. */
  function Sealed(w: World, net: Net, now: u64, peers: seq<nat>): Net
    requires net.nodes != []
  {
    match SealMempool(net.nodes[0], w.authority, w.key, now)
    case Ok(Some(next)) => if next.blocks == [] then net else Announced(net, next, peers)
    case _ => net
  }

  function Announced(net: Net, next: Chain, peers: seq<nat>): Net
    requires net.nodes != [] && next.blocks != []
  {
    Net(net.nodes[0 := next], net.flight + Relay(0, |net.nodes|, peers, TipAnnouncement(next)))
  }

  /** One step; a step that does not apply changes nothing. Node 0 is the only one that seals. */
  function Next(w: World, net: Net, step: Step): Net {
    match step
    case Deliver(i, peers) =>
      if i < |net.flight| && net.flight[i].target < |net.nodes| && |peers| <= |net.nodes|
      then Delivered(net, i, peers) else net
    case Lose(i) => if i < |net.flight| then net.(flight := Without(net.flight, i)) else net
    case Duplicate(i) => if i < |net.flight| then net.(flight := net.flight + [net.flight[i]]) else net
    case Seal(now, peers) =>
      if net.nodes == [] || net.nodes[0].Height() + 1 >= TWO_TO_THE_32 then net else Sealed(w, net, now, peers)
    case Submit(n, t) =>
      if n >= |net.nodes| then net
      else
        (match QueueTransaction(net.nodes[n], t)
         case Ok(next) => net.(nodes := net.nodes[n := next])
         case Err(_) => net)
    case Register(n, name) =>
      if n < |net.nodes| && name in w.bindings
      then net.(nodes := net.nodes[n := net.nodes[n].(keys := net.nodes[n].keys[name := w.bindings[name]])])
      else net
    case Greet(n, m) => net.(flight := net.flight + [Message(n, m, GetChain)])
    case Offer(n, m, k) =>
      if n < |net.nodes| && k < |net.nodes[n].pool| && net.nodes[n].blocks != []
         && net.nodes[n].pool[k].sender in net.nodes[n].keys
      then
        var c := net.nodes[n];
        net.(flight := net.flight + [Message(n, m, Pending(
               TransactionAnnouncement(c.blocks[0].hash, c.pool[k], c.keys[c.pool[k].sender])))])
      else net
  }

  function Run(w: World, net: Net, steps: seq<Step>): Net
    decreases |steps|
  {
    if steps == [] then net else Next(w, Run(w, net, steps[..|steps| - 1]), steps[|steps| - 1])
  }

  // ----- Safety. -----

  ghost predicate GoodNode(w: World, main: seq<Block>, c: Chain) {
    && Inv(c)
    && c.initial == InitialBalances()
    && [] < c.blocks <= main
    && w.authority in c.authorities && w.authority in c.keys
    && Extends(w.bindings, c.keys)
  }

  ghost predicate GoodBody(w: World, main: seq<Block>, body: Body) {
    match body
    case GetChain => true
    case NewBlock(a) =>
      && a.block in main
      && KnowsSenders(a.accounts, a.block)
      && Extends(w.bindings, a.accounts)
    case ChainReply(s) =>
      && s.blocks <= main
      && TrustsBlocks(Rules(s.authorities, s.accounts), s.blocks)
      && Extends(w.bindings, s.accounts)
    case Ack => true
    case Pending(offer) =>
      && offer.transaction.sender in w.bindings
      && w.bindings[offer.transaction.sender] == offer.senderKey
  }

  /** The sealer's chain: sealed by one authority, and no longer than an index can count. */
  ghost predicate GoodMain(w: World, main: seq<Block>) {
    && 0 < |main| < TWO_TO_THE_32
    && forall k :: 0 < k < |main| ==> main[k].authority == w.authority
  }

  ghost predicate NetInv(w: World, net: Net) {
    && w.authority in w.bindings && w.bindings[w.authority] == w.key.Public()
    && net.nodes != []
    && GoodMain(w, net.nodes[0].blocks)
    && (forall c :: c in net.nodes ==> GoodNode(w, net.nodes[0].blocks, c))
    && (forall m :: m in net.flight ==> GoodBody(w, net.nodes[0].blocks, m.body))
  }

  /** The nodes as they start: a fresh chain from the common genesis, trusting the sealing authority. */
  ghost predicate Initial(w: World, net: Net) {
    && w.authority in w.bindings && w.bindings[w.authority] == w.key.Public()
    && net.nodes != [] && net.flight == []
    && forall c :: c in net.nodes ==>
         exists known: Keys :: c == NewChain(w.authority, known) && w.authority in known && Extends(w.bindings, known)
  }

  lemma InitialIsGood(w: World, net: Net)
    requires Initial(w, net)
    ensures NetInv(w, net)
  {
    var main := net.nodes[0].blocks;
    forall c | c in net.nodes
      ensures GoodNode(w, main, c) && c.blocks == [Genesis(w.authority)]
    {
      var known: Keys :| c == NewChain(w.authority, known) && w.authority in known && Extends(w.bindings, known);
      NewChainIsSound(w.authority, known);
      assert net.nodes[0] in net.nodes;
      var other: Keys :| net.nodes[0] == NewChain(w.authority, other) && w.authority in other && Extends(w.bindings, other);
    }
    assert net.nodes[0] in net.nodes;
  }

  lemma GoodNodesAgree(w: World, a: Keys, b: Keys)
    requires Extends(w.bindings, a) && Extends(w.bindings, b)
    ensures Agree(a, b)
  {
  }

  /** A longer main chain is as good for every node and every message. */
  lemma MainGrows(w: World, main: seq<Block>, more: seq<Block>, c: Chain, body: Body)
    requires main <= more
    ensures GoodNode(w, main, c) ==> GoodNode(w, more, c)
    ensures GoodBody(w, main, body) ==> GoodBody(w, more, body)
  {
    hide Inv;
  }

  lemma GrownNodeIsGood(w: World, main: seq<Block>, c: Chain, next: Chain)
    requires GoodNode(w, main, c) && Inv(next) && next.initial == c.initial && c.blocks <= next.blocks <= main
    requires c.authorities <= next.authorities && Extends(next.keys, c.keys) && Extends(w.bindings, next.keys)
    ensures GoodNode(w, main, next)
  {
    hide Inv;
  }

  lemma HonestBlockIndex(w: World, sealer: Chain, a: BlockAnnouncement)
    requires GoodNode(w, sealer.blocks, sealer) && GoodMain(w, sealer.blocks)
    requires GoodBody(w, sealer.blocks, NewBlock(a))
    ensures a.block.index < sealer.Height() && a.block == sealer.blocks[a.block.index]
    ensures a.block.index > 0 ==> a.block.authority == w.authority
  {
    hide Inv;
    var k :| 0 <= k < |sealer.blocks| && sealer.blocks[k] == a.block;
    InvNumbersItsBlocks(sealer, k);
  }

  /** What an honest announcement does to an honest node: it is never rejected. */
  lemma HonestAnnouncement(w: World, sealer: Chain, c: Chain, a: BlockAnnouncement)
    requires GoodNode(w, sealer.blocks, sealer) && GoodMain(w, sealer.blocks)
    requires GoodNode(w, sealer.blocks, c) && GoodBody(w, sealer.blocks, NewBlock(a))
    ensures ApplyAnnouncement(c, a).result == Ok(if a.block.index < c.Height() then Known
                                                 else if a.block.index == c.Height() then Appended else OutOfOrder)
    ensures c.blocks <= ApplyAnnouncement(c, a).chain.blocks <= sealer.blocks
    ensures ApplyAnnouncement(c, a).chain.Height() == c.Height() + if a.block.index == c.Height() then 1 else 0
  {
    hide Inv, TryAppend, MergeBlockAccounts;
    HonestBlockIndex(w, sealer, a);
    if a.block.index == c.Height() {
      GoodNodesAgree(w, sealer.keys, c.keys);
      GoodNodesAgree(w, sealer.keys, a.accounts);
      NextBlockIsAppended(sealer, c, a);
    }
  }

  lemma AnnouncedNodeIsGood(w: World, sealer: Chain, c: Chain, a: BlockAnnouncement)
    requires GoodNode(w, sealer.blocks, sealer) && GoodMain(w, sealer.blocks)
    requires GoodNode(w, sealer.blocks, c) && GoodBody(w, sealer.blocks, NewBlock(a))
    ensures GoodNode(w, sealer.blocks, ApplyAnnouncement(c, a).chain)
    ensures c.blocks <= ApplyAnnouncement(c, a).chain.blocks
  {
    HonestAnnouncement(w, sealer, c, a);
    AnnouncementKeepsInv(c, a);
    AnnouncementTeaches(c, a, w.bindings);
    hide Inv, ApplyAnnouncement;
    GrownNodeIsGood(w, sealer.blocks, c, ApplyAnnouncement(c, a).chain);
  }

  /** What an honest snapshot does: adopted exactly when it is longer. */
  lemma HonestSnapshot(w: World, sealer: Chain, c: Chain, s: ChainSnapshot)
    requires GoodNode(w, sealer.blocks, sealer)
    requires GoodNode(w, sealer.blocks, c) && GoodBody(w, sealer.blocks, ChainReply(s))
    ensures ApplySnapshot(c, s).result == Ok(|s.blocks| > c.Height())
    ensures ApplySnapshot(c, s).chain.blocks == if |s.blocks| > c.Height() then s.blocks else c.blocks
  {
    hide Inv, TryAdopt, MergeAccounts, MergeAuthorities;
    if |s.blocks| > c.Height() {
      GoodNodesAgree(w, sealer.keys, c.keys);
      GoodNodesAgree(w, sealer.keys, s.accounts);
      LongerPrefixIsAdopted(sealer, c, s);
    }
  }

  lemma SnapshotNodeIsGood(w: World, sealer: Chain, c: Chain, s: ChainSnapshot)
    requires GoodNode(w, sealer.blocks, sealer)
    requires GoodNode(w, sealer.blocks, c) && GoodBody(w, sealer.blocks, ChainReply(s))
    ensures GoodNode(w, sealer.blocks, ApplySnapshot(c, s).chain)
    ensures c.blocks <= ApplySnapshot(c, s).chain.blocks
  {
    HonestSnapshot(w, sealer, c, s);
    SnapshotKeepsInv(c, s);
    SnapshotTeaches(c, s, w.bindings);
    hide Inv, ApplySnapshot;
    GrownNodeIsGood(w, sealer.blocks, c, ApplySnapshot(c, s).chain);
  }

  lemma HonestOffer(w: World, main: seq<Block>, c: Chain, offer: TransactionAnnouncement)
    requires GoodNode(w, main, c) && GoodBody(w, main, Pending(offer))
    ensures GoodNode(w, main, Sync.ApplyTransaction(c, offer).chain)
    ensures Sync.ApplyTransaction(c, offer).chain.blocks == c.blocks
  {
    hide Inv, Sync.ApplyTransaction;
    GossipKeepsInv(c, offer);
    GossipTeaches(c, offer, w.bindings);
  }

  lemma TipIsGood(w: World, main: seq<Block>, c: Chain)
    requires GoodNode(w, main, c)
    ensures GoodBody(w, main, NewBlock(TipAnnouncement(c)))
  {
    hide Inv;
    InvTrustsItsBlocks(c);
    assert TrustsBlock(c.Trust(), Tip(c.blocks));
    AnnouncementCarriesKeys(c, Tip(c.blocks));
    assert main[c.Height() - 1] == Tip(c.blocks);
  }

  lemma SnapshotIsGood(w: World, main: seq<Block>, c: Chain)
    requires GoodNode(w, main, c)
    ensures GoodBody(w, main, ChainReply(SnapshotOf(c)))
  {
    hide Inv;
    InvTrustsItsBlocks(c);
  }

  lemma {:induction false} RelayIsGood(w: World, main: seq<Block>, me: nat, except: nat, peers: seq<nat>, a: BlockAnnouncement)
    requires GoodBody(w, main, NewBlock(a))
    ensures forall m :: m in Relay(me, except, peers, a) ==> GoodBody(w, main, m.body)
  {
    if peers != [] {
      RelayIsGood(w, main, me, except, peers[1..], a);
    }
  }

  /** Announcing its tip is honest for any honest node, whoever it is sent to. */
  lemma RelayedTipIsGood(w: World, main: seq<Block>, c: Chain, me: nat, except: nat, peers: seq<nat>)
    requires GoodNode(w, main, c)
    ensures forall m :: m in Relay(me, except, peers, TipAnnouncement(c)) ==> GoodBody(w, main, m.body)
  {
    hide Inv;
    TipIsGood(w, main, c);
    RelayIsGood(w, main, me, except, peers, TipAnnouncement(c));
  }

  /** Handling any honest message keeps the node honest, never shrinks its chain and sends only honest
      messages. */
  lemma HandleIsGood(w: World, sealer: Chain, c: Chain, me: nat, peer: nat, peers: seq<nat>, body: Body)
    requires GoodNode(w, sealer.blocks, sealer) && GoodMain(w, sealer.blocks)
    requires GoodNode(w, sealer.blocks, c) && GoodBody(w, sealer.blocks, body)
    ensures GoodNode(w, sealer.blocks, Handle(c, me, peer, peers, body).chain)
    ensures c.blocks <= Handle(c, me, peer, peers, body).chain.blocks
    ensures forall m :: m in Handle(c, me, peer, peers, body).sent ==> GoodBody(w, sealer.blocks, m.body)
  {
    hide Inv, ApplyAnnouncement, ApplySnapshot, Sync.ApplyTransaction;
    match body
    case GetChain =>
      SnapshotIsGood(w, sealer.blocks, c);
    case NewBlock(a) =>
      AnnouncedNodeIsGood(w, sealer, c, a);
      RelayedTipIsGood(w, sealer.blocks, ApplyAnnouncement(c, a).chain, me, peer, peers);
    case ChainReply(s) =>
      SnapshotNodeIsGood(w, sealer, c, s);
      RelayedTipIsGood(w, sealer.blocks, ApplySnapshot(c, s).chain, me, peer, peers);
    case Ack =>
    case Pending(offer) =>
      HonestOffer(w, sealer.blocks, c, offer);
  }

  /** Replacing one node by a grown, honest one. */
  lemma ReplaceNode(w: World, net: Net, n: nat, c: Chain, flight: seq<Message>)
    requires NetInv(w, net) && n < |net.nodes|
    requires GoodNode(w, net.nodes[0].blocks, c) && net.nodes[n].blocks <= c.blocks
    requires forall m :: m in flight ==> m in net.flight || GoodBody(w, net.nodes[0].blocks, m.body)
    ensures NetInv(w, Net(net.nodes[n := c], flight))
  {
    hide Inv;
    var nodes, main := net.nodes[n := c], net.nodes[0].blocks;
    assert nodes[0].blocks == main;
    forall x | x in nodes
      ensures GoodNode(w, main, x)
    {
      assert x == c || x in net.nodes;
    }
  }

  /** Growing the sealer's chain by one block of its own and announcing it. */
  lemma AnnouncedIsGood(w: World, net: Net, next: Chain, peers: seq<nat>)
    requires NetInv(w, net) && next.blocks != []
    requires net.nodes[0].blocks <= next.blocks && GoodMain(w, next.blocks) && GoodNode(w, next.blocks, next)
    ensures NetInv(w, Announced(net, next, peers))
  {
    hide Inv;
    var main, more, nodes := net.nodes[0].blocks, next.blocks, net.nodes[0 := next];
    RelayedTipIsGood(w, more, next, 0, |net.nodes|, peers);
    forall x | x in nodes
      ensures GoodNode(w, more, x)
    {
      assert x == next || x in net.nodes;
      MainGrows(w, main, more, x, Ack);
    }
    forall m | m in net.flight
      ensures GoodBody(w, more, m.body)
    {
      MainGrows(w, main, more, next, m.body);
    }
  }

  lemma SealedNodeIsGood(w: World, sealer: Chain, now: u64, next: Chain)
    requires GoodMain(w, sealer.blocks) && GoodNode(w, sealer.blocks, sealer)
    requires sealer.Height() + 1 < TWO_TO_THE_32
    requires SealMempool(sealer, w.authority, w.key, now) == Ok(Some(next))
    ensures sealer.blocks <= next.blocks && GoodMain(w, next.blocks) && GoodNode(w, next.blocks, next)
  {
    SealKeepsInv(sealer, w.authority, w.key, now);
    SealedChain(sealer, w.authority, w.key, now, next);
  }

  lemma SealIsSafe(w: World, net: Net, now: u64, peers: seq<nat>)
    requires NetInv(w, net) && net.nodes[0].Height() + 1 < TWO_TO_THE_32
    ensures NetInv(w, Sealed(w, net, now, peers))
    ensures |Sealed(w, net, now, peers).nodes| == |net.nodes|
    ensures forall n :: 0 <= n < |net.nodes| ==> net.nodes[n].blocks <= Sealed(w, net, now, peers).nodes[n].blocks
  {
    hide Inv, SealMempool;
    var sealer := net.nodes[0];
    assert sealer in net.nodes;
    var r := SealMempool(sealer, w.authority, w.key, now);
    if r.Ok? && r.value.Some? {
      SealedNodeIsGood(w, sealer, now, r.value.value);
      AnnouncedIsGood(w, net, r.value.value, peers);
    }
  }

  lemma DeliverKeepsNetInv(w: World, net: Net, i: nat, peers: seq<nat>)
    requires NetInv(w, net) && i < |net.flight| && net.flight[i].target < |net.nodes|
    ensures NetInv(w, Delivered(net, i, peers))
    ensures forall n :: 0 <= n < |net.nodes| ==> net.nodes[n].blocks <= Delivered(net, i, peers).nodes[n].blocks
  {
    hide Inv, Handle;
    var m, sealer := net.flight[i], net.nodes[0];
    var c := net.nodes[m.target];
    assert m in net.flight && c in net.nodes && sealer in net.nodes;
    HandleIsGood(w, sealer, c, m.target, m.source, peers, m.body);
    var h := Handle(c, m.target, m.source, peers, m.body);
    ReplaceNode(w, net, m.target, h.chain, Without(net.flight, i) + h.sent);
  }

  lemma SubmitIsGood(w: World, main: seq<Block>, c: Chain, t: Transaction)
    requires GoodNode(w, main, c) && QueueTransaction(c, t).Ok?
    ensures GoodNode(w, main, QueueTransaction(c, t).value)
    ensures QueueTransaction(c, t).value.blocks == c.blocks
  {
    QueueKeepsInv(c, t);
    hide Inv, Refused;
  }

  lemma RegisterIsGood(w: World, main: seq<Block>, c: Chain, name: Text)
    requires GoodNode(w, main, c) && name in w.bindings
    ensures GoodNode(w, main, c.(keys := c.keys[name := w.bindings[name]]))
  {
    hide Inv;
    var keys := c.keys[name := w.bindings[name]];
    GrowthKeepsInv(c, c.authorities, keys);
    assert c.(authorities := c.authorities, keys := keys) == c.(keys := keys);
  }

  lemma LocalStepIsSafe(w: World, net: Net, step: Step)
    requires NetInv(w, net) && (step.Submit? || step.Register? || step.Offer?)
    ensures NetInv(w, Next(w, net, step))
    ensures |Next(w, net, step).nodes| == |net.nodes|
    ensures forall n :: 0 <= n < |net.nodes| ==> net.nodes[n].blocks == Next(w, net, step).nodes[n].blocks
  {
    hide Inv, QueueTransaction;
    match step
    case Submit(n, t) =>
      if n < |net.nodes| {
        var c := net.nodes[n];
        assert c in net.nodes;
        var r := QueueTransaction(c, t);
        if r.Ok? {
          SubmitIsGood(w, net.nodes[0].blocks, c, t);
          ReplaceNode(w, net, n, r.value, net.flight);
        }
      }
    case Register(n, name) =>
      if n < |net.nodes| && name in w.bindings {
        var c := net.nodes[n];
        assert c in net.nodes;
        RegisterIsGood(w, net.nodes[0].blocks, c, name);
        ReplaceNode(w, net, n, c.(keys := c.keys[name := w.bindings[name]]), net.flight);
      }
    case Offer(n, m, k) =>
      if n < |net.nodes| {
        assert net.nodes[n] in net.nodes;
      }
  }

  /** Every step keeps the network honest and lets no chain shrink or change a block it has. */
  lemma StepIsSafe(w: World, net: Net, step: Step)
    requires NetInv(w, net)
    ensures NetInv(w, Next(w, net, step))
    ensures |Next(w, net, step).nodes| == |net.nodes|
    ensures forall n :: 0 <= n < |net.nodes| ==> net.nodes[n].blocks <= Next(w, net, step).nodes[n].blocks
  {
    hide Inv, SealMempool, Handle, QueueTransaction;
    match step
    case Deliver(i, peers) =>
      if i < |net.flight| && net.flight[i].target < |net.nodes| && |peers| <= |net.nodes| {
        DeliverKeepsNetInv(w, net, i, peers);
      }
    case Lose(i) =>
    case Duplicate(i) =>
    case Seal(now, peers) =>
      if net.nodes[0].Height() + 1 < TWO_TO_THE_32 {
        SealIsSafe(w, net, now, peers);
      }
    case Greet(n, m) =>
    case _ =>
      LocalStepIsSafe(w, net, step);
  }

  /** Agreement over whole runs. Whatever is lost, delayed, duplicated or reordered, after any number of
      steps every node's chain is a prefix of the sealer's, so any two nodes are prefix-comparable; nodes of
      equal height hold equal blocks, balances and nonces; and no chain ever lost a block. */
  lemma {:induction false} Agreement(w: World, net: Net, steps: seq<Step>, n: nat, m: nat)
    requires Initial(w, net) && n < |net.nodes| && m < |net.nodes|
    ensures NetInv(w, Run(w, net, steps))
    ensures |Run(w, net, steps).nodes| == |net.nodes|
    ensures var a, b := Run(w, net, steps).nodes[n], Run(w, net, steps).nodes[m];
      && net.nodes[n].blocks <= a.blocks
      && (a.blocks <= b.blocks || b.blocks <= a.blocks)
      && (a.Height() == b.Height() ==> a.blocks == b.blocks && a.state == b.state)
    decreases |steps|
  {
    if steps == [] {
      InitialIsGood(w, net);
    } else {
      var front := steps[..|steps| - 1];
      Agreement(w, net, front, n, m);
      StepIsSafe(w, Run(w, net, front), steps[|steps| - 1]);
    }
    NodesAgree(w, Run(w, net, steps), n, m);
  }

  lemma NodesAgree(w: World, net: Net, n: nat, m: nat)
    requires NetInv(w, net) && n < |net.nodes| && m < |net.nodes|
    ensures var a, b := net.nodes[n], net.nodes[m];
      && (a.blocks <= b.blocks || b.blocks <= a.blocks)
      && (a.Height() == b.Height() ==> a.blocks == b.blocks && a.state == b.state)
  {
    var a, b := net.nodes[n], net.nodes[m];
    assert a in net.nodes && b in net.nodes;
    if a.Height() == b.Height() {
      assert a.blocks == b.blocks;
      GoodNodesAgree(w, a.keys, b.keys);
      SameBlocksSameState(a, b);
    }
  }

  /** In every reachable state no message in flight is rejected on delivery: an announcement is known,
      appended or out of order according to its index alone, and a snapshot is adopted exactly when it is
      longer than the receiver's chain. */
  lemma NothingIsRejected(w: World, net: Net, i: nat)
    requires NetInv(w, net) && i < |net.flight| && net.flight[i].target < |net.nodes|
    ensures var m := net.flight[i]; var c := net.nodes[m.target];
      match m.body
      case NewBlock(a) =>
        ApplyAnnouncement(c, a).result == Ok(if a.block.index < c.Height() then Known
                                             else if a.block.index == c.Height() then Appended else OutOfOrder)
      case ChainReply(s) => ApplySnapshot(c, s).result == Ok(|s.blocks| > c.Height())
      case _ => true
  {
    hide Inv, ApplyAnnouncement, ApplySnapshot;
    var m, sealer := net.flight[i], net.nodes[0];
    var c := net.nodes[m.target];
    assert m in net.flight && c in net.nodes && sealer in net.nodes;
    if m.body.NewBlock? {
      HonestAnnouncement(w, sealer, c, m.body.announcement);
    } else if m.body.ChainReply? {
      HonestSnapshot(w, sealer, c, m.body.snapshot);
    }
  }
}
