/** Two of the safety properties hold at exactly the sizes SafeSize names: at every even size from
    four on, a run elects two leaders in one term, and they apply different entries. */
module EvenSizes {
  import opened RaftTypes
  import opened LogOps
  import opened NodeSpec
  import opened Cluster
  import opened Quorums
  import opened Scripts
  import opened Theorems

  const A := Entry(1, "a")
  const B := Entry(1, "b")

  /** Nodes 0 and n / 2 both lead term 1, each with its own entry. */
  ghost predicate Rivals(n: nat, nodes: seq<Node>) {
    && n >= 4 && |nodes| == n
    && FreshLeader(n, nodes[0], 0, 1, [A], 1) && FreshLeader(n, nodes[n / 2], n / 2, 1, [B], 1)
    && forall v :: 1 <= v < n / 2 ==> nodes[v] == GrantedTo(READY, 1, 0)
  }

  lemma ReadyIsWilling(c: Id)
    ensures Willing(READY, BecomeCandidate(READY, c))
  {
  }

  lemma TwoLeaders(n: nat, senders: set<Role>) returns (steps: seq<Step>)
    requires !SafeSize(n)
    ensures IsRun(n, senders, steps) && Rivals(n, After(n, senders, steps).nodes)
  {
    var half := n / 2;
    ReadyIsWilling(0);
    ReadyIsWilling(half);
    var steps0 := StartAll(n, senders);
    var steps1 := Lead(n, senders, steps0, 0, 1, "a");
    steps := Lead(n, senders, steps1, half, half + 1, "b");
    RivalNodes(n, After(n, senders, steps0).nodes, After(n, senders, steps1).nodes, After(n, senders, steps).nodes);
  }

  lemma RivalNodes(n: nat, nodes: seq<Node>, nodes1: seq<Node>, nodes2: seq<Node>)
    requires !SafeSize(n) && |nodes| == n && forall j :: 0 <= j < n ==> nodes[j] == READY
    requires Leads(n, nodes, nodes1, 0, 1, "a") && Leads(n, nodes1, nodes2, n / 2, n / 2 + 1, "b")
    ensures Rivals(n, nodes2)
  {
    assert VotesNeeded(n) == n / 2 - 1;
    assert nodes1[n / 2] == READY && nodes2[0] == nodes1[0];
    assert READY.log + [A] == [A] && READY.log + [B] == [B];
  }

  /** No run of a cluster of `n` nodes has two nodes that were leader in the same term. */
  ghost predicate OneLeaderPerTerm(n: nat, senders: set<Role>) {
    forall steps, k, i, l, j, term ::
      IsRun(n, senders, steps) && LeaderAt(n, senders, steps, k, i, term) && LeaderAt(n, senders, steps, l, j, term) ==> i == j
  }

  /** Election Safety holds exactly at odd sizes and at sizes up to two, whatever roles may send. */
  lemma ElectionSafetyIffSafeSize(n: nat, senders: set<Role>)
    ensures OneLeaderPerTerm(n, senders) <==> SafeSize(n)
  {
    if SafeSize(n) {
      forall steps, k: nat, i: Id, l: nat, j: Id, term: nat
        | IsRun(n, senders, steps) && LeaderAt(n, senders, steps, k, i, term) && LeaderAt(n, senders, steps, l, j, term)
        ensures i == j
      {
        ElectionSafety(n, senders, steps, k, i, l, j, term);
      }
    } else {
      var steps := TwoLeaders(n, senders);
      assert steps[..|steps|] == steps;
      assert LeaderAt(n, senders, steps, |steps|, 0, 1) && LeaderAt(n, senders, steps, |steps|, n / 2, 1);
    }
  }

  // ---------------------------------------------------------------- divergence

  /** The rival takes the other leader's entry for its own: both carry term 1. */
  lemma RivalAccepts(n: nat, nd: Node, p: Id, f: Node)
    requires FreshLeader(n, nd, 0, 1, [A], 1) && 0 < p < n && FreshLeader(n, f, p, 1, [B], 1)
    ensures var (f', rep) := Answer(nd, 0, p, f);
            && rep == AppendReply(1, true, None) && f'.active && f'.term == 1 && f'.log == [B]
            && f'.commit == 0 && f'.applied == 0 && f'.delivered == []
  {
    FreshCall(n, nd, 0, 1, [A], 1, p);
    assert Agreement([B], 0, [A], 0) == 1;
  }

  /** Node 0 applied its entry; its rival still holds the other one. */
  ghost predicate HalfApplied(n: nat, nodes: seq<Node>) {
    && n >= 4 && |nodes| == n
    && Finished(n, nodes[0], 0, 1, [A], 1, 1, n / 2)
    && var f := nodes[n / 2];
       f.active && f.term == 1 && f.log == [B] && f.commit == 0 && f.applied == 0 && f.delivered == []
  }

  lemma ReachHalfApplied(n: nat, senders: set<Role>) returns (steps: seq<Step>)
    requires !SafeSize(n) && Leader in senders
    ensures IsRun(n, senders, steps) && HalfApplied(n, After(n, senders, steps).nodes) && SendThread(0) in After(n, senders, steps).pool
  {
    var steps1 := TwoLeaders(n, senders);
    RivalsAnswer(n, After(n, senders, steps1).nodes);
    steps := CommitAll(n, senders, steps1, 0, 1, [A], 1, 1);
    HalfAppliedNodes(n, After(n, senders, steps1).nodes, After(n, senders, steps).nodes);
  }

  lemma RivalsAnswer(n: nat, nodes: seq<Node>)
    requires Rivals(n, nodes)
    ensures forall p :: 1 <= p < 1 + HoldersNeeded(n) ==> Answer(nodes[0], 0, p, nodes[p]).1 == AppendReply(1, true, None)
  {
    forall p | 1 <= p < 1 + HoldersNeeded(n) ensures Answer(nodes[0], 0, p, nodes[p]).1 == AppendReply(1, true, None) {
      if p < n / 2 {
        FollowerCatchesUp(n, nodes[0], 0, 1, [A], 1, p, nodes[p]);
      } else {
        RivalAccepts(n, nodes[0], p, nodes[p]);
      }
    }
  }

  lemma HalfAppliedNodes(n: nat, nodes: seq<Node>, nodes': seq<Node>)
    requires Rivals(n, nodes) && CommittedAt(n, nodes, nodes', 0, 1, [A], 1, 1)
    ensures HalfApplied(n, nodes')
  {
    RivalAccepts(n, nodes[0], n / 2, nodes[n / 2]);
    assert nodes'[n / 2] == Answer(nodes[0], 0, n / 2, nodes[n / 2]).0;
  }

  /** The rival's answer to the next heartbeat: it applies its own entry at that index. */
  lemma RivalApplies(n: nat, nd: Node, p: Id, f: Node)
    requires Finished(n, nd, 0, 1, [A], 1, 1, p) && 0 < p < n
    requires f.active && f.term == 1 && f.log == [B] && f.commit == 0 && f.applied == 0 && f.delivered == []
    ensures HandleAppend(f, MakeAppendCall(nd, 0, p).req).0.delivered == [ApplyResult(true, "b", 1)]
  {
    assert Get(nd.next, p) == 2;
    assert MakeAppendCall(nd, 0, p).req == AppendRequest(1, 0, 1, 1, [], 1);
    assert Merge([B], 1, []) == [B];
    assert Results([B], 0, 1) == [ApplyResult(true, "b", 1)];
  }

  lemma EvenSizeDiverges(n: nat, senders: set<Role>) returns (steps: seq<Step>)
    requires !SafeSize(n) && Leader in senders
    ensures IsRun(n, senders, steps)
    ensures var nodes := After(n, senders, steps).nodes;
            && nodes[0].delivered == [ApplyResult(true, "a", 1)]
            && nodes[n / 2].delivered == [ApplyResult(true, "b", 1)]
  {
    var steps1 := ReachHalfApplied(n, senders);
    var nodes := After(n, senders, steps1).nodes;
    RivalApplies(n, nodes[0], n / 2, nodes[n / 2]);
    steps := Deliver(n, senders, steps1, 0, n / 2);
    assert Results([A], 0, 1) == [ApplyResult(true, "a", 1)];
  }
}
