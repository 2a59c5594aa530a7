/**
 Relaying terminates (`zion-core/src/network/service.rs`): once nobody seals, every run that only handles or
 loses messages is finite, on any topology, and a bound on its length is known in advance.
 */
module Termination {
  import opened Prelude
  import opened Blocks
  import opened Sequences
  import opened Validation
  import opened ChainModel
  import opened Sync
  import opened Network

  /** Nobody holds or announces anything beyond `height` blocks. Messages may otherwise be arbitrary. */
  ghost predicate Bounded(net: Net, height: nat) {
    && height < TWO_TO_THE_32
    && (forall c :: c in net.nodes ==> Inv(c) && c.Height() <= height)
    && (forall m :: m in net.flight ==> BoundedBody(m.body, height))
  }

  predicate BoundedBody(body: Body, height: nat) {
    match body
    case NewBlock(a) => a.block.index < height
    case ChainReply(s) => |s.blocks| <= height
    case _ => true
  }

  /** What handling a message can still cause, in messages that themselves cause nothing. */
  function Weight(body: Body): nat {
    match body
    case NewBlock(_) => 4
    case GetChain => 2
    case ChainReply(_) => 1
    case Ack => 1
    case Pending(_) => 1
  }

  function FlightWeight(flight: seq<Message>): nat {
    if flight == [] then 0 else Weight(flight[0].body) + FlightWeight(flight[1..])
  }

  /** Blocks the nodes are still missing. */
  function Missing(nodes: seq<Chain>, height: nat): nat {
    if nodes == [] then 0
    else (if nodes[0].Height() <= height then height - nodes[0].Height() else 0) + Missing(nodes[1..], height)
  }

  /** A bound on the number of messages still to be handled: each missing block can start one relay to
      every node, and every message weighs what it can still cause. */
  function Potential(net: Net, height: nat): nat {
    (4 * |net.nodes| + 1) * Missing(net.nodes, height) + FlightWeight(net.flight)
  }

  lemma {:induction false} FlightWeightConcat(a: seq<Message>, b: seq<Message>)
    ensures FlightWeight(a + b) == FlightWeight(a) + FlightWeight(b)
  {
    if a == [] {
      assert a + b == b;
    } else {
      FlightWeightConcat(a[1..], b);
      assert (a + b)[1..] == a[1..] + b;
    }
  }

  lemma FewMessages(a: Message, b: Message)
    ensures FlightWeight([a]) == Weight(a.body)
    ensures FlightWeight([a, b]) == Weight(a.body) + Weight(b.body)
  {
    assert [a][1..] == [] && [b][1..] == [] && [a, b][1..] == [b];
  }

  lemma {:induction false} FlightWeightWithout(flight: seq<Message>, i: nat)
    requires i < |flight|
    ensures FlightWeight(flight) == FlightWeight(Without(flight, i)) + Weight(flight[i].body)
  {
    var before, after, m := flight[..i], flight[i + 1..], flight[i];
    assert flight == before + ([m] + after);
    FlightWeightConcat(before, [m] + after);
    FlightWeightConcat([m], after);
    FlightWeightConcat(before, after);
    assert [m][1..] == [];
  }

  lemma {:induction false} MissingUpdate(nodes: seq<Chain>, n: nat, c: Chain, height: nat)
    requires n < |nodes| && nodes[n].Height() <= c.Height() <= height
    ensures Missing(nodes[n := c], height) + (c.Height() - nodes[n].Height()) == Missing(nodes, height)
  {
    if n > 0 {
      MissingUpdate(nodes[1..], n - 1, c, height);
      assert nodes[n := c][1..] == nodes[1..][n - 1 := c];
    } else {
      assert nodes[0 := c][1..] == nodes[1..];
    }
  }

  lemma {:induction false} RelayWeight(me: nat, except: nat, peers: seq<nat>, a: BlockAnnouncement)
    ensures FlightWeight(Relay(me, except, peers, a)) <= 4 * |peers|
    ensures forall m :: m in Relay(me, except, peers, a) ==> m.body == NewBlock(a)
  {
    if peers != [] {
      var rest := Relay(me, except, peers[1..], a);
      RelayWeight(me, except, peers[1..], a);
      if peers[0] != except {
        assert ([Message(me, peers[0], NewBlock(a))] + rest)[1..] == rest;
      } else {
        assert [] + rest == rest;
      }
    }
  }

  lemma TipIsBounded(c: Chain, height: nat)
    requires Inv(c) && c.blocks != [] && c.Height() <= height < TWO_TO_THE_32
    ensures Tip(c.blocks).index < height
  {
    hide Inv;
    InvNumbersItsBlocks(c, c.Height() - 1);
  }

  /** An announced block grows the chain by one, and only if it carries the index right after the tip. */
  lemma AnnouncementGrowth(c: Chain, a: BlockAnnouncement)
    requires Inv(c) && c.Height() < TWO_TO_THE_32
    ensures var r := ApplyAnnouncement(c, a);
      && (r.result == Ok(Appended) ==> r.chain.Height() == c.Height() + 1 && a.block.index == c.Height())
      && (r.result != Ok(Appended) ==> r.chain == c)
      && r.chain.blocks != []
  {
    AppendOnlyAdds(c.(keys := MergeBlockAccounts(c.keys, a.block, a.accounts)), a.block);
    hide TryAppend, Replay, Pool.Sound, IndexOf;
  }

  lemma SnapshotGrowth(c: Chain, s: ChainSnapshot)
    requires Inv(c)
    ensures var r := ApplySnapshot(c, s);
      && (r.result == Ok(true) ==> c.Height() < r.chain.Height() == |s.blocks|)
      && (r.result != Ok(true) ==> r.chain == c)
      && r.chain.blocks != []
  {
    var keys := MergeAccounts(c.keys, s.accounts);
    AdoptOnlyReplaces(c.(keys := keys, authorities := MergeAuthorities(c.authorities, keys, s.authorities)), s.blocks);
    hide TryAdopt, Replay, Pool.Sound, IndexOf;
  }

  /** Messages that are all bounded and together weigh less than a limit. */
  ghost predicate Cheap(sent: seq<Message>, limit: nat, height: nat) {
    FlightWeight(sent) < limit && forall m :: m in sent ==> BoundedBody(m.body, height)
  }

  lemma RelayIsCheap(c: Chain, me: nat, except: nat, peers: seq<nat>, height: nat)
    requires Inv(c) && c.blocks != [] && c.Height() <= height < TWO_TO_THE_32
    ensures Cheap(Relay(me, except, peers, TipAnnouncement(c)), 4 * |peers| + 1, height)
  {
    hide Inv;
    TipIsBounded(c, height);
    RelayWeight(me, except, peers, TipAnnouncement(c));
  }

  lemma AnswerIsCheap(sent: seq<Message>, answer: Message, limit: nat, height: nat)
    requires Cheap(sent, limit, height) && answer.body == Ack
    ensures Cheap(sent + [answer], limit + 1, height)
  {
    FlightWeightConcat(sent, [answer]);
    FewMessages(answer, answer);
  }

  lemma AnnouncementCosts(c: Chain, me: nat, peer: nat, peers: seq<nat>, a: BlockAnnouncement, height: nat)
    requires Inv(c) && c.Height() <= height < TWO_TO_THE_32 && BoundedBody(NewBlock(a), height)
    ensures var h := Handle(c, me, peer, peers, NewBlock(a));
      && Inv(h.chain) && c.Height() <= h.chain.Height() <= height
      && Cheap(h.sent, 4 + (if h.chain.Height() > c.Height() then 4 * |peers| + 1 else 0), height)
  {
    hide Inv, ApplyAnnouncement, AnnouncementOf;
    AnnouncementKeepsInv(c, a);
    AnnouncementGrowth(c, a);
    var r := ApplyAnnouncement(c, a);
    if r.result == Ok(Appended) {
      RelayIsCheap(r.chain, me, peer, peers, height);
      AnswerIsCheap(Relay(me, peer, peers, TipAnnouncement(r.chain)), Message(me, peer, Ack), 4 * |peers| + 1, height);
    } else {
      FewMessages(Message(me, peer, Ack), Message(me, peer, GetChain));
    }
  }

  lemma {:induction false} SnapshotCosts(c: Chain, me: nat, peer: nat, peers: seq<nat>, s: ChainSnapshot, height: nat)
    requires Inv(c) && c.Height() <= height < TWO_TO_THE_32 && BoundedBody(ChainReply(s), height)
    ensures var h := Handle(c, me, peer, peers, ChainReply(s));
      && Inv(h.chain) && c.Height() <= h.chain.Height() <= height
      && Cheap(h.sent, 1 + (if h.chain.Height() > c.Height() then 4 * |peers| + 1 else 0), height)
  {
    hide Inv, ApplySnapshot, AnnouncementOf;
    SnapshotKeepsInv(c, s);
    SnapshotGrowth(c, s);
    var r := ApplySnapshot(c, s);
    if r.result == Ok(true) {
      RelayIsCheap(r.chain, me, peer, peers, height);
    }
  }

  /** Handling one message costs more than it causes: what is sent weighs less than the message, except
      that growing the chain pays for one round of relays. */
  lemma HandlingCosts(c: Chain, me: nat, peer: nat, peers: seq<nat>, body: Body, height: nat)
    requires Inv(c) && c.Height() <= height < TWO_TO_THE_32 && BoundedBody(body, height)
    ensures var h := Handle(c, me, peer, peers, body);
      && Inv(h.chain) && c.Height() <= h.chain.Height() <= height
      && Cheap(h.sent, Weight(body) + (if h.chain.Height() > c.Height() then 4 * |peers| + 1 else 0), height)
  {
    hide Inv, ApplyAnnouncement, ApplySnapshot, Sync.ApplyTransaction;
    match body
    case GetChain =>
      FewMessages(Message(me, peer, ChainReply(SnapshotOf(c))), Message(me, peer, Ack));
    case NewBlock(a) =>
      AnnouncementCosts(c, me, peer, peers, a, height);
    case ChainReply(s) =>
      SnapshotCosts(c, me, peer, peers, s, height);
    case Ack =>
    case Pending(offer) =>
      GossipKeepsInv(c, offer);
      GossipTeaches(c, offer, map[]);
  }

  /** A step that takes a message off the wire. */
  predicate Consumes(net: Net, step: Step) {
    match step
    case Deliver(i, peers) => i < |net.flight| && net.flight[i].target < |net.nodes| && |peers| <= |net.nodes|
    case Lose(i) => i < |net.flight|
    case _ => false
  }

  lemma ScaledDecrease(k: nat, missing: nat, less: nat, growth: nat)
    requires less + growth == missing
    ensures k * less + (if growth > 0 then k else 0) <= k * missing
  {
    assert k * less + k * growth == k * missing;
    if growth > 0 {
      assert k * growth >= k;
    }
  }

  /** Delivering a message that costs more than it causes lowers the potential. */
  lemma DeliveryDecreases(net: Net, i: nat, h: Handled, growth: nat, height: nat)
    requires i < |net.flight| && net.flight[i].target < |net.nodes|
    requires net.nodes[net.flight[i].target].Height() + growth == h.chain.Height() <= height
    requires FlightWeight(h.sent) < Weight(net.flight[i].body) + (if growth > 0 then 4 * |net.nodes| + 1 else 0)
    ensures Potential(Net(net.nodes[net.flight[i].target := h.chain], Without(net.flight, i) + h.sent), height)
          < Potential(net, height)
  {
    var n := net.flight[i].target;
    FlightWeightWithout(net.flight, i);
    FlightWeightConcat(Without(net.flight, i), h.sent);
    MissingUpdate(net.nodes, n, h.chain, height);
    ScaledDecrease(4 * |net.nodes| + 1, Missing(net.nodes, height), Missing(net.nodes[n := h.chain], height), growth);
  }

  lemma DeliveryStaysBounded(net: Net, i: nat, h: Handled, height: nat)
    requires Bounded(net, height) && i < |net.flight| && net.flight[i].target < |net.nodes|
    requires Inv(h.chain) && h.chain.Height() <= height
    requires forall m :: m in h.sent ==> BoundedBody(m.body, height)
    ensures Bounded(Net(net.nodes[net.flight[i].target := h.chain], Without(net.flight, i) + h.sent), height)
  {
    hide Inv;
    assert forall x :: x in net.nodes[net.flight[i].target := h.chain] ==> x == h.chain || x in net.nodes;
    assert forall x :: x in Without(net.flight, i) + h.sent ==> x in net.flight || x in h.sent;
  }

  /** Every such step lowers the potential, whatever the topology and whatever the messages contain. */
  lemma ConsumingDecreases(w: World, net: Net, step: Step, height: nat)
    requires Bounded(net, height) && Consumes(net, step)
    ensures Bounded(Next(w, net, step), height)
    ensures Potential(Next(w, net, step), height) < Potential(net, height)
  {
    hide Inv, Handle;
    if step.Deliver? {
      var m := net.flight[step.i];
      var c := net.nodes[m.target];
      assert m in net.flight && c in net.nodes;
      var h := Handle(c, m.target, m.source, step.peers, m.body);
      HandlingCosts(c, m.target, m.source, step.peers, m.body, height);
      hide FlightWeight, Missing, Potential;
      DeliveryDecreases(net, step.i, h, h.chain.Height() - c.Height(), height);
      DeliveryStaysBounded(net, step.i, h, height);
    } else {
      FlightWeightWithout(net.flight, step.i);
      assert forall x :: x in Without(net.flight, step.i) ==> x in net.flight;
    }
  }

  /** Every step of the run takes a message off the wire. */
  predicate Draining(w: World, net: Net, steps: seq<Step>)
    decreases |steps|
  {
    steps == [] ||
    (var front := steps[..|steps| - 1];
     Draining(w, net, front) && Consumes(Run(w, net, front), steps[|steps| - 1]))
  }

  /** No run that only handles or loses messages is longer than the initial potential: the echo of a block
      dies out on every topology, cycles included. */
  lemma {:induction false} RelayingTerminates(w: World, net: Net, steps: seq<Step>, height: nat)
    requires Bounded(net, height) && Draining(w, net, steps)
    ensures Bounded(Run(w, net, steps), height)
    ensures |steps| + Potential(Run(w, net, steps), height) <= Potential(net, height)
    decreases |steps|
  {
    if steps != [] {
      hide Next, Bounded, Potential, Consumes;
      var front := steps[..|steps| - 1];
      RelayingTerminates(w, net, front, height);
      ConsumingDecreases(w, Run(w, net, front), steps[|steps| - 1], height);
    }
  }

  /** The bound is there in every state honest nodes reach. */
  lemma {:induction false} HonestNetsAreBounded(w: World, net: Net)
    requires NetInv(w, net)
    ensures Bounded(net, net.nodes[0].Height())
  {
    hide Inv;
    var sealer := net.nodes[0];
    assert sealer in net.nodes;
    forall c | c in net.nodes
      ensures c.Height() <= sealer.Height()
    {
      assert GoodNode(w, sealer.blocks, c);
    }
    forall m | m in net.flight
      ensures BoundedBody(m.body, sealer.Height())
    {
      if m.body.NewBlock? {
        HonestBlockIndex(w, sealer, m.body.announcement);
      }
    }
  }
}
