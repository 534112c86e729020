/** From the log to the consumer: what a consumer of a node's channel sees. */
module Delivery {
  import opened RaftTypes
  import opened LogOps
  import opened Cluster
  import opened Quorums
  import opened History
  import opened Commits
  import opened Theorems
  import opened Progress
  import Q = MessageQueue

  /** A run of a node's channel, whose single producer is the node's apply loop: it has offered the
      applied entries in order, up to wherever the loop stands. */
  ghost predicate FeedsChannel(delivered: seq<ApplyResult>, capacity: nat, run: seq<Q.Step<ApplyResult>>) {
    Q.Execute(capacity, run).Some? && Q.OneProducer(run, 0) && Q.Offered(run) <= delivered
  }

  function Consumed(capacity: nat, run: seq<Q.Step<ApplyResult>>): seq<ApplyResult>
    requires Q.Execute(capacity, run).Some?
  {
    Q.Execute(capacity, run).value.consumed
  }

  /** A consumer sees the node's committed log entries from index 1, in order, without gaps or
      repeats, whatever the channel's capacity and the interleaving. */
  lemma ConsumerSeesLog(n: nat, steps: seq<Step>, k: nat, i: Id, capacity: nat, run: seq<Q.Step<ApplyResult>>)
    requires SafeSize(n) && IsRun(n, {Leader}, steps) && k <= |steps| && i < n
    requires At(n, {Leader}, steps, k, i).Some? && FeedsChannel(At(n, {Leader}, steps, k, i).value.delivered, capacity, run)
    ensures var nd := At(n, {Leader}, steps, k, i).value; var c := Consumed(capacity, run);
            && |c| <= nd.commit <= |nd.log|
            && forall m :: 0 <= m < |c| ==> c[m] == ApplyResult(true, nd.log[m].command, m + 1)
  {
    AtFacts(n, steps, k, i);
    Q.ConsumedInOrder(capacity, run, 0);
    var nd := At(n, {Leader}, steps, k, i).value;
    var c := Consumed(capacity, run);
    assert c <= Results(nd.log, 0, nd.commit);
  }

  /** Consumers of any two nodes, at any two points of a run, never see different values at the
      same index. */
  lemma ConsumersAgree(n: nat, steps: seq<Step>, k: nat, i: Id, l: nat, j: Id,
                       cap1: nat, run1: seq<Q.Step<ApplyResult>>, cap2: nat, run2: seq<Q.Step<ApplyResult>>)
    requires SafeSize(n) && IsRun(n, {Leader}, steps) && k <= |steps| && l <= |steps| && i < n && j < n
    requires At(n, {Leader}, steps, k, i).Some? && FeedsChannel(At(n, {Leader}, steps, k, i).value.delivered, cap1, run1)
    requires At(n, {Leader}, steps, l, j).Some? && FeedsChannel(At(n, {Leader}, steps, l, j).value.delivered, cap2, run2)
    ensures Comparable(Consumed(cap1, run1), Consumed(cap2, run2))
  {
    StateMachineSafety(n, steps, k, i, l, j);
    Q.ConsumedInOrder(cap1, run1, 0);
    Q.ConsumedInOrder(cap2, run2, 0);
    PrefixesComparable(Consumed(cap1, run1), Consumed(cap2, run2),
                       At(n, {Leader}, steps, k, i).value.delivered, At(n, {Leader}, steps, l, j).value.delivered);
  }

  lemma PrefixesComparable<T>(a: seq<T>, b: seq<T>, x: seq<T>, y: seq<T>)
    requires a <= x && b <= y && Comparable(x, y)
    ensures Comparable(a, b)
  {
    var z := if x <= y then y else x;
    assert a <= z && b <= z;
    assert forall k :: 0 <= k < |a| ==> a[k] == z[k];
    assert forall k :: 0 <= k < |b| ==> b[k] == z[k];
  }

  /** Nothing stays undelivered: as long as a node's channel is open, whatever was consumed, queued or
      waiting so far, the run can go on until the consumer has seen every entry the node applied. */
  lemma AppliedReachesConsumer(n: nat, steps: seq<Step>, i: Id, capacity: nat, run: seq<Q.Step<ApplyResult>>)
    returns (run': seq<Q.Step<ApplyResult>>)
    requires SafeSize(n) && IsRun(n, {Leader}, steps) && i < n
    requires FeedsChannel(After(n, {Leader}, steps).nodes[i].delivered, capacity, run)
    requires !Q.Execute(capacity, run).value.channel.closed
    ensures run <= run' && FeedsChannel(After(n, {Leader}, steps).nodes[i].delivered, capacity, run')
    ensures var nd, c := After(n, {Leader}, steps).nodes[i], Consumed(capacity, run');
            |c| == nd.commit <= |nd.log| && forall m :: 0 <= m < |c| ==> c[m] == ApplyResult(true, nd.log[m].command, m + 1)
  {
    run' := ConsumerCatchesUp(After(n, {Leader}, steps).nodes[i].delivered, capacity, run);
    AppliedIsCommitted(n, steps, i);
  }

  lemma ConsumerCatchesUp(delivered: seq<ApplyResult>, capacity: nat, run: seq<Q.Step<ApplyResult>>)
    returns (run': seq<Q.Step<ApplyResult>>)
    requires FeedsChannel(delivered, capacity, run) && !Q.Execute(capacity, run).value.channel.closed
    ensures run <= run' && FeedsChannel(delivered, capacity, run') && Consumed(capacity, run') == delivered
  {
    var offered := Q.Offered(run);
    run' := Q.ConsumeAll(capacity, run, 0, delivered[|offered|..]);
    assert offered + delivered[|offered|..] == delivered;
  }
}
