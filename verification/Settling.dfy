/**
 Relaying reaches everyone (`handle_sync_event`, `zion-core/src/network/service.rs`): with fixed connections and no
 lost message, whatever is sealed along the way, once no synchronisation message is in flight every node that the
 sealer's connections lead to holds the sealer's chain.
 */
module Settling {
  import opened Prelude
  import opened Blocks
  import opened Validation
  import opened ChainModel
  import opened Sync
  import opened Network
  import opened Termination

  /** `links[v]` are the nodes that `v` is connected to. */
  type Links = seq<seq<nat>>

  predicate Wellformed(links: Links, n: nat) {
    && |links| == n
    && forall v :: 0 <= v < n ==> |links[v]| <= n && forall u :: u in links[v] ==> u < n
  }

  /** A step without loss, in which everyone relays to all its connections. */
  predicate Lossless(net: Net, links: Links, step: Step) {
    match step
    case Deliver(i, peers) =>
      i < |net.flight| && net.flight[i].target < |links| ==> peers == links[net.flight[i].target]
    case Lose(_) => false
    case Seal(_, peers) => |links| > 0 && peers == links[0]
    case _ => true
  }

  /** The message is about to bring `u` up to the height of `v`: `v`'s newest block, `u`'s question, or the answer. */
  predicate Lifts(m: Message, height: nat, u: nat, v: nat) {
    match m.body
    case NewBlock(a) => m.source == v && m.target == u && a.block.index + 1 >= height
    case GetChain => m.source == u && m.target == v
    case ChainReply(s) => m.source == v && m.target == u && |s.blocks| >= height
    case _ => false
  }

  ghost predicate Lifting(flight: seq<Message>, height: nat, u: nat, v: nat) {
    exists m :: m in flight && Lifts(m, height, u, v)
  }

  /** Across the connection from `v`, `u` is no lower, or about to be brought up. */
  ghost predicate Level(net: Net, u: nat, v: nat)
    requires u < |net.nodes| && v < |net.nodes|
  {
    net.nodes[u].Height() >= net.nodes[v].Height() || Lifting(net.flight, net.nodes[v].Height(), u, v)
  }

  /** Nobody has sent more than it holds. */
  predicate Grounded(nodes: seq<Chain>, m: Message) {
    match m.body
    case NewBlock(a) => m.source < |nodes| && a.block.index < nodes[m.source].Height()
    case ChainReply(s) => m.source < |nodes| && |s.blocks| <= nodes[m.source].Height()
    case _ => true
  }

  ghost predicate LevelInv(w: World, net: Net, links: Links) {
    && NetInv(w, net) && Wellformed(links, |net.nodes|)
    && (forall m :: m in net.flight ==> Grounded(net.nodes, m))
    && (forall v, u :: 0 <= v < |net.nodes| && u in links[v] ==> Level(net, u, v))
  }

  // ----- What handling one message does to heights. -----

  lemma {:induction false} RelayReaches(me: nat, except: nat, peers: seq<nat>, a: BlockAnnouncement, u: nat)
    requires u in peers && u != except
    ensures Message(me, u, NewBlock(a)) in Relay(me, except, peers, a)
  {
    if peers[0] != u {
      RelayReaches(me, except, peers[1..], a, u);
    }
  }

  lemma {:induction false} RelayedBy(me: nat, except: nat, peers: seq<nat>, a: BlockAnnouncement)
    ensures forall m :: m in Relay(me, except, peers, a) ==> m.source == me && m.body == NewBlock(a)
  {
    if peers != [] {
      RelayedBy(me, except, peers[1..], a);
    }
  }

  /** What a node that grew tells its peers, and that it tells nobody more than it holds. */
  ghost predicate Tells(me: nat, peer: nat, peers: seq<nat>, before: nat, height: nat, sent: seq<Message>) {
    && (height > before ==> forall u :: u in peers && u != peer ==> Lifting(sent, height, u, me))
    && (forall m :: m in sent && m.body.NewBlock? ==> m.source == me && m.body.announcement.block.index < height)
    && (forall m :: m in sent && m.body.ChainReply? ==> m.source == me && |m.body.snapshot.blocks| <= height)
  }

  lemma RelayTells(c: Chain, me: nat, except: nat, peers: seq<nat>, before: nat, rest: seq<Message>)
    requires Inv(c) && c.Height() < TWO_TO_THE_32
    requires forall m :: m in rest ==> !m.body.NewBlock? && !m.body.ChainReply?
    ensures c.blocks != []
    ensures Tells(me, except, peers, before, c.Height(), Relay(me, except, peers, TipAnnouncement(c)) + rest)
  {
    InvNumbersItsBlocks(c, c.Height() - 1);
    var a := TipAnnouncement(c);
    var sent := Relay(me, except, peers, a) + rest;
    RelayedBy(me, except, peers, a);
    hide Inv, Relay;
    forall u | u in peers && u != except
      ensures Lifting(sent, c.Height(), u, me)
    {
      RelayReaches(me, except, peers, a, u);
      assert Message(me, u, NewBlock(a)) in sent && Lifts(Message(me, u, NewBlock(a)), c.Height(), u, me);
    }
  }

  lemma AnsweringTells(me: nat, peer: nat, peers: seq<nat>, height: nat, sent: seq<Message>)
    requires forall m :: m in sent ==> !m.body.NewBlock? && !m.body.ChainReply?
    ensures Tells(me, peer, peers, height, height, sent)
  {
  }

  lemma AnnouncementHeights(w: World, sealer: Chain, c: Chain, me: nat, peer: nat, peers: seq<nat>, a: BlockAnnouncement)
    requires GoodNode(w, sealer.blocks, sealer) && GoodMain(w, sealer.blocks)
    requires GoodNode(w, sealer.blocks, c) && GoodBody(w, sealer.blocks, NewBlock(a))
    ensures var h := Handle(c, me, peer, peers, NewBlock(a));
      && h.chain.Height() == c.Height() + (if a.block.index == c.Height() then 1 else 0)
      && (a.block.index > c.Height() ==> Message(me, peer, GetChain) in h.sent)
      && Tells(me, peer, peers, c.Height(), h.chain.Height(), h.sent)
  {
    HonestAnnouncement(w, sealer, c, a);
    AnnouncedNodeIsGood(w, sealer, c, a);
    var h := Handle(c, me, peer, peers, NewBlock(a));
    hide Inv, ApplyAnnouncement, Relay, AnnouncementOf, Tells, GoodMain, GoodBody;
    if a.block.index == c.Height() {
      RelayTells(ApplyAnnouncement(c, a).chain, me, peer, peers, c.Height(), [Message(me, peer, Ack)]);
    } else {
      AnsweringTells(me, peer, peers, c.Height(), h.sent);
      if a.block.index > c.Height() {
        assert h.sent[1] == Message(me, peer, GetChain);
      }
    }
  }

  lemma SnapshotHeights(w: World, sealer: Chain, c: Chain, me: nat, peer: nat, peers: seq<nat>, s: ChainSnapshot)
    requires GoodNode(w, sealer.blocks, sealer) && GoodMain(w, sealer.blocks)
    requires GoodNode(w, sealer.blocks, c) && GoodBody(w, sealer.blocks, ChainReply(s))
    ensures var h := Handle(c, me, peer, peers, ChainReply(s));
      && h.chain.Height() == (if |s.blocks| > c.Height() then |s.blocks| else c.Height())
      && Tells(me, peer, peers, c.Height(), h.chain.Height(), h.sent)
  {
    HonestSnapshot(w, sealer, c, s);
    SnapshotNodeIsGood(w, sealer, c, s);
    hide Inv, ApplySnapshot, Relay, AnnouncementOf, Tells, GoodMain, GoodBody;
    var next := ApplySnapshot(c, s).chain;
    if |s.blocks| <= c.Height() {
      AnsweringTells(me, peer, peers, c.Height(), []);
    }
    if |s.blocks| > c.Height() {
      RelayTells(next, me, peer, peers, c.Height(), []);
      assert Relay(me, peer, peers, TipAnnouncement(next)) + [] == Relay(me, peer, peers, TipAnnouncement(next));
    }
  }

  // ----- One delivery. -----

  /** What the handled message asked for or brought. */
  ghost predicate Answers(m: Message, before: nat, h: Handled) {
    match m.body
    case NewBlock(a) =>
      && h.chain.Height() == before + (if a.block.index == before then 1 else 0)
      && (a.block.index > before ==> Message(m.target, m.source, GetChain) in h.sent)
    case GetChain => h.chain.Height() == before && Lifting(h.sent, before, m.source, m.target)
    case ChainReply(s) => h.chain.Height() == if |s.blocks| > before then |s.blocks| else before
    case _ => h.chain.Height() == before
  }

  lemma HandledHeights(w: World, net: Net, i: nat, peers: seq<nat>)
    requires NetInv(w, net) && i < |net.flight| && net.flight[i].target < |net.nodes|
    ensures var m := net.flight[i]; var c := net.nodes[m.target];
      var h := Handle(c, m.target, m.source, peers, m.body);
      && Answers(m, c.Height(), h)
      && Tells(m.target, m.source, peers, c.Height(), h.chain.Height(), h.sent)
  {
    var m, sealer := net.flight[i], net.nodes[0];
    var c := net.nodes[m.target];
    assert m in net.flight && c in net.nodes && sealer in net.nodes;
    hide Inv, Relay, ApplyAnnouncement, ApplySnapshot, AnnouncementOf, Sync.ApplyTransaction;
    match m.body
    case NewBlock(a) => AnnouncementHeights(w, sealer, c, m.target, m.source, peers, a);
    case ChainReply(s) => SnapshotHeights(w, sealer, c, m.target, m.source, peers, s);
    case GetChain =>
      var reply := Message(m.target, m.source, ChainReply(SnapshotOf(c)));
      var h := Handle(c, m.target, m.source, peers, m.body);
      assert h.sent == [reply];
      assert reply in h.sent && Lifts(reply, c.Height(), m.source, m.target);
    case Ack =>
    case Pending(offer) => GossipKeepsBlocks(c, offer);
  }

  lemma GossipKeepsBlocks(c: Chain, offer: TransactionAnnouncement)
    ensures Sync.ApplyTransaction(c, offer).chain.blocks == c.blocks
  {
    hide Sync.ApplyTransaction;
    GossipTeaches(c, offer, map[]);
  }

  lemma StillLifting(flight: seq<Message>, more: seq<Message>, height: nat, u: nat, v: nat)
    requires Lifting(flight, height, u, v) && forall m :: m in flight ==> m in more
    ensures Lifting(more, height, u, v)
  {
    var m :| m in flight && Lifts(m, height, u, v);
    assert m in more;
  }

  lemma OthersRemain(flight: seq<Message>, i: nat, sent: seq<Message>)
    requires i < |flight|
    ensures forall m :: m in flight && m != flight[i] ==> m in Without(flight, i) + sent
    ensures forall m :: m in sent ==> m in Without(flight, i) + sent
    ensures forall m :: m in Without(flight, i) + sent ==> m in flight || m in sent
  {
    forall m | m in flight && m != flight[i]
      ensures m in Without(flight, i)
    {
      var k :| 0 <= k < |flight| && flight[k] == m;
      if k < i {
        assert flight[..i][k] == m;
      } else {
        assert flight[i + 1..][k - i - 1] == m;
      }
    }
  }

  /** The heart of the argument: the one message that left the network did its work. */
  lemma DeliveryKeepsLevel(nodes: seq<Chain>, flight: seq<Message>, i: nat, h: Handled, peers: seq<nat>, u: nat, v: nat)
    requires i < |flight| && flight[i].target < |nodes| && u < |nodes| && v < |nodes|
    requires Level(Net(nodes, flight), u, v) && Grounded(nodes, flight[i])
    requires Answers(flight[i], nodes[flight[i].target].Height(), h)
    requires Tells(flight[i].target, flight[i].source, peers, nodes[flight[i].target].Height(), h.chain.Height(), h.sent)
    requires v == flight[i].target ==> u in peers
    ensures Level(Net(nodes[flight[i].target := h.chain], Without(flight, i) + h.sent), u, v)
  {
    var m := flight[i];
    var after := nodes[m.target := h.chain];
    var now := Without(flight, i) + h.sent;
    OthersRemain(flight, i, h.sent);
    if after[u].Height() < after[v].Height() {
      if v == m.target && h.chain.Height() > nodes[v].Height() {
        assert u != m.source;
        assert Lifting(h.sent, h.chain.Height(), u, v);
        StillLifting(h.sent, now, h.chain.Height(), u, v);
      } else {
        var height := nodes[v].Height();
        var lift :| lift in flight && Lifts(lift, height, u, v);
        if lift != m {
          assert lift in now;
        } else if m.body.GetChain? {
          StillLifting(h.sent, now, height, u, v);
        } else {
          assert m.body.NewBlock? && Lifts(Message(u, v, GetChain), height, u, v);
          assert Message(u, v, GetChain) in now;
        }
      }
    }
  }

  lemma DeliveryKeepsGrounded(nodes: seq<Chain>, flight: seq<Message>, i: nat, h: Handled, peers: seq<nat>)
    requires i < |flight| && flight[i].target < |nodes|
    requires forall m :: m in flight ==> Grounded(nodes, m)
    requires nodes[flight[i].target].Height() <= h.chain.Height()
    requires Tells(flight[i].target, flight[i].source, peers, nodes[flight[i].target].Height(), h.chain.Height(), h.sent)
    ensures forall m :: m in Without(flight, i) + h.sent ==> Grounded(nodes[flight[i].target := h.chain], m)
  {
    OthersRemain(flight, i, h.sent);
  }

  lemma DeliverKeepsLevelInv(w: World, net: Net, links: Links, i: nat, peers: seq<nat>)
    requires LevelInv(w, net, links) && i < |net.flight| && net.flight[i].target < |net.nodes|
    requires peers == links[net.flight[i].target]
    ensures LevelInv(w, Delivered(net, i, peers), links)
  {
    hide Inv, Handle, NetInv, Level, Tells, Answers, Grounded;
    var m := net.flight[i];
    var h := Handle(net.nodes[m.target], m.target, m.source, peers, m.body);
    var next := Delivered(net, i, peers);
    HandledHeights(w, net, i, peers);
    DeliverKeepsNetInv(w, net, i, peers);
    assert net.nodes[m.target].blocks <= next.nodes[m.target].blocks;
    DeliveryKeepsGrounded(net.nodes, net.flight, i, h, peers);
    assert net == Net(net.nodes, net.flight);
    forall v, u | 0 <= v < |next.nodes| && u in links[v]
      ensures Level(next, u, v)
    {
      DeliveryKeepsLevel(net.nodes, net.flight, i, h, peers, u, v);
    }
  }

  // ----- Sealing and the other steps. -----

  lemma SealKeepsLevelInv(w: World, net: Net, links: Links, now: u64, peers: seq<nat>)
    requires LevelInv(w, net, links) && peers == links[0] && net.nodes[0].Height() + 1 < TWO_TO_THE_32
    ensures LevelInv(w, Sealed(w, net, now, peers), links)
  {
    hide Inv, NetInv, SealMempool;
    NetHasNodes(w, net);
    SealIsSafe(w, net, now, peers);
    var next := Sealed(w, net, now, peers);
    var r := SealMempool(net.nodes[0], w.authority, w.key, now);
    if r.Ok? && r.value.Some? && r.value.value.blocks != [] {
      var c := r.value.value;
      assert next == Announced(net, c, peers) && next.nodes[0] == c;
      SealerIsBounded(w, next);
      RelayTells(c, 0, |net.nodes|, peers, net.nodes[0].Height(), []);
      var sent := Relay(0, |net.nodes|, peers, TipAnnouncement(c));
      assert sent + [] == sent;
      hide Relay;
      forall v, u | 0 <= v < |next.nodes| && u in links[v]
        ensures Level(next, u, v)
      {
        SealKeepsLevel(net, c, sent, peers, u, v);
      }
    }
  }

  lemma NetHasNodes(w: World, net: Net)
    requires NetInv(w, net)
    ensures net.nodes != []
  {
  }

  lemma SealerIsBounded(w: World, net: Net)
    requires NetInv(w, net)
    ensures Inv(net.nodes[0]) && net.nodes[0].Height() < TWO_TO_THE_32
  {
    assert net.nodes[0] in net.nodes;
  }

  lemma SealKeepsLevel(net: Net, c: Chain, sent: seq<Message>, peers: seq<nat>, u: nat, v: nat)
    requires u < |net.nodes| && v < |net.nodes| && Level(net, u, v) && net.nodes[0].Height() <= c.Height()
    requires Tells(0, |net.nodes|, peers, net.nodes[0].Height(), c.Height(), sent)
    requires v == 0 ==> u in peers
    ensures Level(Net(net.nodes[0 := c], net.flight + sent), u, v)
  {
    var after := net.nodes[0 := c];
    if after[u].Height() < after[v].Height() {
      if v == 0 && c.Height() > net.nodes[0].Height() {
        StillLifting(sent, net.flight + sent, c.Height(), u, v);
      } else {
        StillLifting(net.flight, net.flight + sent, net.nodes[v].Height(), u, v);
      }
    }
  }

  /** Steps that change no height and take no message away. */
  lemma QuietKeepsLevelInv(w: World, net: Net, links: Links, next: Net)
    requires LevelInv(w, net, links) && NetInv(w, next) && |next.nodes| == |net.nodes|
    requires forall n :: 0 <= n < |net.nodes| ==> next.nodes[n].blocks == net.nodes[n].blocks
    requires forall m :: m in net.flight ==> m in next.flight
    requires forall m :: m in next.flight ==> m in net.flight || (!m.body.NewBlock? && !m.body.ChainReply?)
    ensures LevelInv(w, next, links)
  {
    hide NetInv, Lifting;
    forall v, u | 0 <= v < |next.nodes| && u in links[v]
      ensures Level(next, u, v)
    {
      assert Level(net, u, v);
      if net.nodes[u].Height() < net.nodes[v].Height() {
        StillLifting(net.flight, next.flight, net.nodes[v].Height(), u, v);
      }
    }
  }

  lemma StepKeepsLevelInv(w: World, net: Net, links: Links, step: Step)
    requires LevelInv(w, net, links) && Lossless(net, links, step)
    ensures LevelInv(w, Next(w, net, step), links)
  {
    hide Inv, NetInv, LevelInv, Delivered, Sealed;
    InvLinks(w, net, links);
    StepIsSafe(w, net, step);
    match step
    case Deliver(i, peers) =>
      if i < |net.flight| && net.flight[i].target < |net.nodes| && |peers| <= |net.nodes| {
        DeliverKeepsLevelInv(w, net, links, i, peers);
      }
    case Seal(now, peers) =>
      if net.nodes[0].Height() + 1 < TWO_TO_THE_32 {
        SealKeepsLevelInv(w, net, links, now, peers);
      }
    case Duplicate(_) => QuietKeepsLevelInv(w, net, links, Next(w, net, step));
    case Greet(_, _) => QuietKeepsLevelInv(w, net, links, Next(w, net, step));
    case _ =>
      LocalStepIsSafe(w, net, step);
      LocalFlight(w, net, step);
      QuietKeepsLevelInv(w, net, links, Next(w, net, step));
  }

  lemma InvLinks(w: World, net: Net, links: Links)
    requires LevelInv(w, net, links)
    ensures NetInv(w, net) && net.nodes != [] && Wellformed(links, |net.nodes|)
  {
  }

  lemma LocalFlight(w: World, net: Net, step: Step)
    requires step.Submit? || step.Register? || step.Offer?
    ensures forall m :: m in net.flight ==> m in Next(w, net, step).flight
    ensures forall m :: m in Next(w, net, step).flight ==> m in net.flight || m.body.Pending?
  {
    hide QueueTransaction;
  }

  // ----- Whole runs. -----

  predicate LosslessRun(w: World, net: Net, links: Links, steps: seq<Step>)
    decreases |steps|
  {
    steps == [] ||
    (var front := steps[..|steps| - 1];
     LosslessRun(w, net, links, front) && Lossless(Run(w, net, front), links, steps[|steps| - 1]))
  }

  lemma StartsLevel(w: World, net: Net, links: Links)
    requires Initial(w, net) && Wellformed(links, |net.nodes|)
    ensures LevelInv(w, net, links)
  {
    InitialIsGood(w, net);
    hide NetInv;
    forall v, u | 0 <= v < |net.nodes| && u in links[v]
      ensures Level(net, u, v)
    {
      assert net.nodes[u] in net.nodes && net.nodes[v] in net.nodes;
    }
  }

  lemma {:induction false} RunKeepsLevelInv(w: World, net: Net, links: Links, steps: seq<Step>)
    requires LevelInv(w, net, links) && LosslessRun(w, net, links, steps)
    ensures LevelInv(w, Run(w, net, steps), links)
    decreases |steps|
  {
    hide LevelInv, Next, Lossless;
    if steps != [] {
      var front := steps[..|steps| - 1];
      RunKeepsLevelInv(w, net, links, front);
      StepKeepsLevelInv(w, Run(w, net, front), links, steps[|steps| - 1]);
    }
  }

  /** No announcement, question or answer is on its way to a node. */
  predicate Silent(net: Net) {
    forall m :: m in net.flight && m.target < |net.nodes| ==> m.body.Ack? || m.body.Pending?
  }

  /** `path` leads from the sealer to `u` along connections. */
  predicate Leads(links: Links, path: seq<nat>, u: nat) {
    && path != [] && path[0] == 0 && path[|path| - 1] == u
    && forall k :: 0 <= k < |path| - 1 ==> path[k] < |links| && path[k + 1] in links[path[k]]
  }

  lemma {:induction false} HeightsAlongPath(w: World, net: Net, links: Links, path: seq<nat>, u: nat)
    requires LevelInv(w, net, links) && Silent(net) && Leads(links, path, u)
    ensures u < |net.nodes| && net.nodes[u].Height() >= net.nodes[0].Height()
    decreases |path|
  {
    InvLinks(w, net, links);
    if |path| > 1 {
      var front := path[..|path| - 1];
      var v := front[|front| - 1];
      assert path[|path| - 2] == v && path[|path| - 2 + 1] == u;
      HeightsAlongPath(w, net, links, front, v);
      assert Level(net, u, v);
    }
  }

  /** Relaying reaches everyone. Over any lossless run from the start, however messages are delayed, duplicated and
      reordered and whatever is sealed meanwhile, as soon as no synchronisation message is in flight, every node that
      connections lead to from the sealer holds the sealer's blocks, balances and nonces. */
  lemma RelayingReachesEveryone(w: World, net: Net, links: Links, steps: seq<Step>, path: seq<nat>, u: nat)
    requires Initial(w, net) && Wellformed(links, |net.nodes|) && LosslessRun(w, net, links, steps)
    requires Silent(Run(w, net, steps)) && Leads(links, path, u)
    ensures var end := Run(w, net, steps);
      && u < |end.nodes|
      && end.nodes[u].blocks == end.nodes[0].blocks && end.nodes[u].state == end.nodes[0].state
  {
    StartsLevel(w, net, links);
    RunKeepsLevelInv(w, net, links, steps);
    var end := Run(w, net, steps);
    HeightsAlongPath(w, end, links, path, u);
    InvLinks(w, end, links);
    assert end.nodes[u] in end.nodes;
    NodesAgree(w, end, u, 0);
  }

  /** Any lossless run can be brought to that point by deliveries alone, as each of them lowers the potential. */
  lemma Settles(w: World, net: Net, links: Links, steps: seq<Step>, height: nat) returns (all: seq<Step>)
    requires LevelInv(w, net, links) && LosslessRun(w, net, links, steps) && Bounded(Run(w, net, steps), height)
    ensures steps <= all && LosslessRun(w, net, links, all) && Silent(Run(w, net, all))
    ensures forall k :: |steps| <= k < |all| ==> all[k].Deliver?
    ensures |all| - |steps| + Potential(Run(w, net, all), height) <= Potential(Run(w, net, steps), height)
    decreases Potential(Run(w, net, steps), height)
  {
    hide LevelInv, Bounded, Potential, Next, Inv, NetInv;
    var end := Run(w, net, steps);
    if Silent(end) {
      return steps;
    }
    RunKeepsLevelInv(w, net, links, steps);
    InvLinks(w, end, links);
    var m :| m in end.flight && m.target < |end.nodes| && !(m.body.Ack? || m.body.Pending?);
    var i :| 0 <= i < |end.flight| && end.flight[i] == m;
    var step := Deliver(i, links[m.target]);
    var more := steps + [step];
    assert more[..|more| - 1] == steps;
    assert Lossless(end, links, step) && Consumes(end, step);
    ConsumingDecreases(w, end, step, height);
    assert Run(w, net, more) == Next(w, end, step);
    all := Settles(w, net, links, more, height);
  }

  /** Hence connected nodes always come to agree: whatever happened in a lossless run, some further deliveries, no
      more than the potential says, leave every node the connections lead to with the sealer's chain. */
  lemma DeliveriesBringAgreement(w: World, net: Net, links: Links, steps: seq<Step>) returns (all: seq<Step>)
    requires Initial(w, net) && Wellformed(links, |net.nodes|) && LosslessRun(w, net, links, steps)
    ensures steps <= all && forall k :: |steps| <= k < |all| ==> all[k].Deliver?
    ensures var now := Run(w, net, steps);
      now.nodes != [] && |all| - |steps| <= Potential(now, now.nodes[0].Height())
    ensures var end := Run(w, net, all);
      forall path: seq<nat>, u: nat :: Leads(links, path, u) ==>
        u < |end.nodes| && end.nodes[u].blocks == end.nodes[0].blocks && end.nodes[u].state == end.nodes[0].state
  {
    hide LevelInv, Bounded, Potential, Next, Inv, NetInv, Initial;
    StartsLevel(w, net, links);
    RunKeepsLevelInv(w, net, links, steps);
    var now := Run(w, net, steps);
    InvLinks(w, now, links);
    HonestNetsAreBounded(w, now);
    all := Settles(w, net, links, steps, now.nodes[0].Height());
    forall path: seq<nat>, u: nat | Leads(links, path, u)
      ensures var end := Run(w, net, all);
        u < |end.nodes| && end.nodes[u].blocks == end.nodes[0].blocks && end.nodes[u].state == end.nodes[0].state
    {
      RelayingReachesEveryone(w, net, links, all, path, u);
    }
  }
}
