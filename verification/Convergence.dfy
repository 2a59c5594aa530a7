/**
 What the sync protocol achieves once nobody seals: one snapshot of the sealer's final chain is enough for a node to
 catch up for good, and asking for it is enough to get it.
 */
module Convergence {
  import opened Prelude
  import opened Blocks
  import opened Validation
  import opened ChainModel
  import opened Sync
  import opened Network

  /** The step delivers a snapshot with exactly these blocks to node `n`. */
  predicate Brings(net: Net, step: Step, n: nat, blocks: seq<Block>) {
    && step.Deliver? && step.i < |net.flight| && |step.peers| <= |net.nodes|
    && var m := net.flight[step.i];
      m.target == n < |net.nodes| && m.body.ChainReply? && m.body.snapshot.blocks == blocks
  }

  /** Without a new seal the sealer's own chain stays what it is, whatever it receives. */
  lemma SealerStays(w: World, net: Net, step: Step)
    requires NetInv(w, net) && !step.Seal?
    ensures Next(w, net, step).nodes[0].blocks == net.nodes[0].blocks
  {
    hide Inv, Handle, QueueTransaction, ApplyAnnouncement, ApplySnapshot;
    var sealer := net.nodes[0];
    assert sealer in net.nodes;
    match step
    case Deliver(i, peers) =>
      if i < |net.flight| && net.flight[i].target == 0 && |peers| <= |net.nodes| {
        var m := net.flight[i];
        assert m in net.flight;
        HandleIsGood(w, sealer, sealer, 0, m.source, peers, m.body);
      }
    case Submit(_, _) => LocalStepIsSafe(w, net, step);
    case Register(_, _) => LocalStepIsSafe(w, net, step);
    case Offer(_, _, _) => LocalStepIsSafe(w, net, step);
    case _ =>
  }

  /** The snapshot of the final chain leaves the node with exactly that chain. */
  lemma SnapshotCatchesUp(w: World, net: Net, step: Step, n: nat)
    requires NetInv(w, net) && Brings(net, step, n, net.nodes[0].blocks)
    ensures n < |Next(w, net, step).nodes| && Next(w, net, step).nodes[n].blocks == net.nodes[0].blocks
  {
    hide Inv, ApplySnapshot;
    var m, sealer, c := net.flight[step.i], net.nodes[0], net.nodes[n];
    assert m in net.flight && sealer in net.nodes && c in net.nodes;
    HonestSnapshot(w, sealer, c, m.body.snapshot);
  }

  predicate Unsealed(steps: seq<Step>) {
    forall i :: 0 <= i < |steps| ==> !steps[i].Seal?
  }

  lemma {:induction false} QuietRun(w: World, net: Net, steps: seq<Step>)
    requires NetInv(w, net) && Unsealed(steps)
    ensures var end := Run(w, net, steps);
      NetInv(w, end) && |end.nodes| == |net.nodes| && end.nodes[0].blocks == net.nodes[0].blocks
    decreases |steps|
  {
    hide NetInv, Next;
    if steps != [] {
      var front, step := steps[..|steps| - 1], steps[|steps| - 1];
      QuietRun(w, net, front);
      StepIsSafe(w, Run(w, net, front), step);
      NetHasSealer(w, Run(w, net, front));
      SealerStays(w, Run(w, net, front), step);
    } else {
      NetHasSealer(w, net);
    }
  }

  lemma NetHasSealer(w: World, net: Net)
    requires NetInv(w, net)
    ensures net.nodes != []
  {
  }

  /** Node `n` is brought the final chain at position `k` of the run. */
  predicate BroughtAt(w: World, net: Net, steps: seq<Step>, n: nat, k: nat) {
    k < |steps| && net.nodes != [] && Brings(Run(w, net, steps[..k]), steps[k], n, net.nodes[0].blocks)
  }

  /** Some time during the run node `n` is brought the final chain. */
  ghost predicate Brought(w: World, net: Net, steps: seq<Step>, n: nat) {
    exists k: nat :: BroughtAt(w, net, steps, n, k)
  }

  lemma {:induction false} CaughtUpForGood(w: World, net: Net, steps: seq<Step>, n: nat, k: nat)
    requires NetInv(w, net) && Unsealed(steps) && BroughtAt(w, net, steps, n, k)
    ensures n < |net.nodes| == |Run(w, net, steps).nodes|
    ensures Run(w, net, steps).nodes[n].blocks == net.nodes[0].blocks
    decreases |steps|
  {
    var front, step := steps[..|steps| - 1], steps[|steps| - 1];
    QuietRun(w, net, front);
    QuietRun(w, net, steps);
    var before, end := Run(w, net, front), Run(w, net, steps);
    if k == |steps| - 1 {
      hide NetInv;
      SnapshotCatchesUp(w, before, step, n);
    } else {
      assert front[..k] == steps[..k];
      CaughtUpForGood(w, net, front, n, k);
      StepIsSafe(w, before, step);
      assert end.nodes[n] in end.nodes;
    }
  }

  /** Convergence. Once nobody seals, a run in which every node is brought one snapshot of the sealer's chain ends
      with all nodes on that chain, with equal balances and nonces, whatever else is lost, delayed, duplicated or
      reordered. */
  lemma AllNodesConverge(w: World, net: Net, steps: seq<Step>)
    requires NetInv(w, net) && Unsealed(steps)
    requires forall n :: 0 < n < |net.nodes| ==> Brought(w, net, steps, n)
    ensures var end := Run(w, net, steps);
      && |end.nodes| == |net.nodes| > 0
      && forall n :: 0 <= n < |end.nodes| ==>
        end.nodes[n].blocks == net.nodes[0].blocks && end.nodes[n].state == end.nodes[0].state
  {
    QuietRun(w, net, steps);
    var end := Run(w, net, steps);
    forall n | 0 <= n < |end.nodes|
      ensures end.nodes[n].blocks == net.nodes[0].blocks && end.nodes[n].state == end.nodes[0].state
    {
      if n > 0 {
        assert Brought(w, net, steps, n);
        var k: nat :| BroughtAt(w, net, steps, n, k);
        CaughtUpForGood(w, net, steps, n, k);
      }
      NodesAgree(w, end, n, 0);
    }
  }

  /** Asking is enough: a node that sends `GetChain` to the sealer, and whose request and answer are delivered, is
      caught up, from any state honest nodes reach. */
  lemma AskingCatchesUp(w: World, net: Net, n: nat)
    requires NetInv(w, net) && n < |net.nodes|
    ensures var f := |net.flight|;
      var s1 := Next(w, net, Greet(n, 0));
      var s2 := Next(w, s1, Deliver(f, []));
      Brings(s2, Deliver(f, []), n, net.nodes[0].blocks)
      && Next(w, s2, Deliver(f, [])).nodes[n].blocks == net.nodes[0].blocks
  {
    var f := |net.flight|;
    var s1 := Next(w, net, Greet(n, 0));
    var s2 := Next(w, s1, Deliver(f, []));
    StepIsSafe(w, net, Greet(n, 0));
    StepIsSafe(w, s1, Deliver(f, []));
    hide NetInv;
    assert s1.flight[f] == Message(n, 0, GetChain);
    assert Without(s1.flight, f) == net.flight;
    assert s2.flight == net.flight + [Message(0, n, ChainReply(SnapshotOf(s1.nodes[0])))];
    assert s2.nodes == net.nodes;
    SnapshotCatchesUp(w, s2, Deliver(f, []), n);
  }
}
