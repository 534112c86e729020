/** Runs, at every size from three on, that show why two conditions are needed: that append requests
    are built by leaders, and that a synchronous proposal is acknowledged in the term it was made. */
module Witnesses {
  import opened RaftTypes
  import opened LogOps
  import opened NodeSpec
  import opened Cluster
  import opened Quorums
  import opened Scripts
  import opened Theorems
  import EvenSizes

  const A := Entry(1, "a")
  const B := Entry(2, "b")
  const C := Entry(3, "c")

  /** A running node of a term up to `t` that holds `log` and has committed nothing. */
  ghost predicate Holding(nd: Node, t: nat, log: seq<Entry>) {
    nd.active && nd.term <= t && nd.log == log && nd.commit == 0
  }

  /** Node 0 led term 1 and holds "a", node 1 leads term 2 and holds "b", the others hold nothing. */
  ghost predicate Rivals(n: nat, nodes: seq<Node>) {
    && n >= 3 && |nodes| == n
    && FreshLeader(n, nodes[0], 0, 1, [A], 1) && FreshLeader(n, nodes[1], 1, 2, [B], 1)
    && forall v :: 2 <= v < n ==> Holding(nodes[v], 2, [])
  }

  /** What is waiting to happen from then on. */
  ghost predicate Pending(pool: set<Item>) {
    && SendThread(0) in pool && CandidacyThread(0) in pool && VoteThread(1, 2) in pool
    && Proposed(0, ProposalResult(true, 1, 1), "a") in pool
  }

  /** Node 0 leads term 1; the others follow and are ready to elect node 1. */
  ghost predicate FirstReign(n: nat, nodes: seq<Node>) {
    && n >= 3 && |nodes| == n && FreshLeader(n, nodes[0], 0, 1, [A], 1) && nodes[1] == GrantedTo(READY, 1, 0)
    && forall v :: 2 <= v < n ==> Holding(nodes[v], 1, [])
  }

  lemma ReachFirstReign(n: nat, senders: set<Role>) returns (steps: seq<Step>)
    requires n >= 3
    ensures IsRun(n, senders, steps) && FirstReign(n, After(n, senders, steps).nodes)
    ensures var pool := After(n, senders, steps).pool;
            SendThread(0) in pool && CandidacyThread(0) in pool && Proposed(0, ProposalResult(true, 1, 1), "a") in pool
  {
    var steps0 := StartAll(n, senders);
    EvenSizes.ReadyIsWilling(0);
    var steps1 := Lead(n, senders, steps0, 0, 1, "a");
    FirstReignNodes(n, After(n, senders, steps0).nodes, After(n, senders, steps1).nodes);
    var nodes1 := After(n, senders, steps1).nodes;
    Extend(n, senders, steps1, TimerExpires(0));
    steps := steps1 + [TimerExpires(0)];
    assert nodes1[0 := nodes1[0]] == nodes1;
  }

  lemma FirstReignNodes(n: nat, nodes: seq<Node>, nodes1: seq<Node>)
    requires n >= 3 && |nodes| == n && (forall j :: 0 <= j < n ==> nodes[j] == READY) && Leads(n, nodes, nodes1, 0, 1, "a")
    ensures FirstReign(n, nodes1)
  {
    assert READY.log + [A] == [A];
  }

  lemma ReachRivals(n: nat, senders: set<Role>) returns (steps: seq<Step>)
    requires n >= 3
    ensures IsRun(n, senders, steps) && Rivals(n, After(n, senders, steps).nodes) && Pending(After(n, senders, steps).pool)
  {
    var steps1 := ReachFirstReign(n, senders);
    FollowersWilling(n, After(n, senders, steps1).nodes);
    steps := Lead(n, senders, steps1, 1, 2, "b");
    SecondReign(n, After(n, senders, steps1).nodes, After(n, senders, steps).nodes);
  }

  lemma FollowersWilling(n: nat, nodes: seq<Node>)
    requires FirstReign(n, nodes)
    ensures 2 + VotesNeeded(n) <= n
    ensures forall v :: 2 <= v < n ==> Willing(nodes[v], BecomeCandidate(nodes[1], 1))
  {
    forall v | 2 <= v < n ensures Willing(nodes[v], BecomeCandidate(nodes[1], 1)) {
      assert Holding(nodes[v], 1, []);
    }
  }

  lemma SecondReign(n: nat, nodes1: seq<Node>, nodes2: seq<Node>)
    requires FirstReign(n, nodes1) && Leads(n, nodes1, nodes2, 1, 2, "b")
    ensures Rivals(n, nodes2)
  {
    assert nodes1[1].log + [B] == [B];
    assert nodes2[0] == nodes1[0];
    forall v | 2 <= v < n ensures Holding(nodes2[v], 2, []) {
      assert Holding(nodes1[v], 1, []);
    }
  }

  /** As in Rivals, but node 1 has committed and applied "b" with the help of the nodes from 2 on. */
  ghost predicate Applied(n: nat, nodes: seq<Node>) {
    && n >= 3 && |nodes| == n && 2 + HoldersNeeded(n) <= n
    && FreshLeader(n, nodes[0], 0, 1, [A], 1)
    && Finished(n, nodes[1], 1, 2, [B], 1, 2, HoldersNeeded(n))
    && forall v :: 2 <= v < 2 + HoldersNeeded(n) ==> Holding(nodes[v], 2, [B]) && nodes[v].term == 2
  }

  lemma ReachApplied(n: nat, senders: set<Role>) returns (steps: seq<Step>)
    requires n >= 3 && Leader in senders
    ensures IsRun(n, senders, steps) && Applied(n, After(n, senders, steps).nodes) && Pending(After(n, senders, steps).pool)
  {
    var steps1 := ReachRivals(n, senders);
    var nodes := After(n, senders, steps1).nodes;
    AllCatchUp(n, nodes, 1, 2, [B], 1, []);
    steps := CommitAll(n, senders, steps1, 1, 2, [B], 1, 2);
    AppliedNodes(n, nodes, After(n, senders, steps).nodes);
  }

  lemma AllCatchUp(n: nat, nodes: seq<Node>, i: Id, t: nat, log: seq<Entry>, next: nat, held: seq<Entry>)
    requires n >= 3 && |nodes| == n && i < 2 && FreshLeader(n, nodes[i], i, t, log, next) && 1 <= next <= |log|
    requires held == log[..next - 1] && forall v :: 2 <= v < 2 + HoldersNeeded(n) && v < n ==> Holding(nodes[v], t, held)
    ensures 2 + HoldersNeeded(n) <= n
    ensures forall v :: 2 <= v < 2 + HoldersNeeded(n) ==>
              && Answer(nodes[i], i, v, nodes[v]).1 == AppendReply(t, true, None)
              && Holding(Answer(nodes[i], i, v, nodes[v]).0, t, log) && Answer(nodes[i], i, v, nodes[v]).0.term == t
  {
    forall v | 2 <= v < 2 + HoldersNeeded(n)
      ensures && Answer(nodes[i], i, v, nodes[v]).1 == AppendReply(t, true, None)
              && Holding(Answer(nodes[i], i, v, nodes[v]).0, t, log) && Answer(nodes[i], i, v, nodes[v]).0.term == t
    {
      assert Holding(nodes[v], t, held);
      FollowerCatchesUp(n, nodes[i], i, t, log, next, v, nodes[v]);
    }
  }

  lemma AppliedNodes(n: nat, nodes: seq<Node>, nodes': seq<Node>)
    requires Rivals(n, nodes) && CommittedAt(n, nodes, nodes', 1, 2, [B], 1, 2)
    ensures Applied(n, nodes')
  {
    AllCatchUp(n, nodes, 1, 2, [B], 1, []);
    forall v | 2 <= v < 2 + HoldersNeeded(n) ensures Holding(nodes'[v], 2, [B]) && nodes'[v].term == 2 {
      assert nodes'[v] == Answer(nodes[1], 1, v, nodes[v]).0;
    }
  }

  // ---------------------------------------------------------------- synchronous proposals

  /** Node 0's waiting propose_sync("a") finds its commit index high enough although the entry at
      its index is now another leader's "b". */
  lemma SyncAcknowledgementCanLie(n: nat) returns (steps: seq<Step>)
    requires n >= 3
    ensures IsRun(n, {Leader}, steps)
    ensures var s := After(n, {Leader}, steps);
            && Proposed(0, ProposalResult(true, 1, 1), "a") in s.pool
            && s.nodes[0].commit >= 1 && s.nodes[0].delivered == [ApplyResult(true, "b", 1)]
            && s.nodes[0].term != 1 && TermAt(s.nodes[0].log, 0) != 1
  {
    var steps1 := ReachApplied(n, {Leader});
    var s := After(n, {Leader}, steps1);
    OverwrittenAndApplied(n, s.nodes[1], s.nodes[0]);
    steps := Replicate(n, {Leader}, steps1, 1, 0);
  }

  lemma OverwrittenAndApplied(n: nat, leader: Node, nd: Node)
    requires n >= 3 && Finished(n, leader, 1, 2, [B], 1, 2, HoldersNeeded(n)) && FreshLeader(n, nd, 0, 1, [A], 1)
    ensures var nd' := HandleAppend(nd, MakeAppendCall(leader, 1, 0).req).0;
            nd'.commit == 1 && nd'.delivered == [ApplyResult(true, "b", 1)] && nd'.term == 2 && nd'.log == [B]
  {
    assert Get(leader.next, 0) == 1;
    assert [B][0..] == [B];
    assert MakeAppendCall(leader, 1, 0).req == AppendRequest(2, 1, 0, 0, [B], 1);
    assert Merge([A], 0, [B]) == [B];
    assert Results([B], 0, 1) == [ApplyResult(true, "b", 1)];
  }

  // ---------------------------------------------------------------- stale senders

  /** Node 0 has left its leadership for term 2, in the given role, but still has a send thread. */
  ghost predicate Deposed(n: nat, nodes: seq<Node>, role: Role) {
    && n >= 3 && |nodes| == n && 2 + HoldersNeeded(n) <= n
    && nodes[0].role == role && nodes[0].active && nodes[0].term == 2 && nodes[0].log == [A]
    && nodes[0].commit == 0 && nodes[0].applied == 0 && nodes[0].delivered == []
    && (forall p: Id :: 2 <= p < n ==> Get(nodes[0].next, p) == 1)
    && nodes[1].delivered == [ApplyResult(true, "b", 1)]
    && forall v :: 2 <= v < 2 + HoldersNeeded(n) ==> Holding(nodes[v], 2, [B]) && nodes[v].term == 2
  }

  lemma ReachDeposed(n: nat, senders: set<Role>, role: Role) returns (steps: seq<Step>)
    requires n >= 3 && Leader in senders && role != Leader
    ensures IsRun(n, senders, steps) && Deposed(n, After(n, senders, steps).nodes, role) && SendThread(0) in After(n, senders, steps).pool
  {
    var steps1 := ReachApplied(n, senders);
    var nodes := After(n, senders, steps1).nodes;
    assert Results([B], 0, 1) == [ApplyResult(true, "b", 1)];
    if role == Follower {
      steps := AskVote(n, senders, steps1, 1, 0);
      DeposedByVote(n, nodes, After(n, senders, steps).nodes);
    } else {
      Extend(n, senders, steps1, Candidacy(0));
      steps := steps1 + [Candidacy(0)];
      DeposedByCandidacy(n, nodes, After(n, senders, steps).nodes);
    }
  }

  lemma DeposedByVote(n: nat, nodes: seq<Node>, nodes': seq<Node>)
    requires Applied(n, nodes) && VoteAsked(n, nodes, nodes', 1, 0)
    ensures Deposed(n, nodes', Follower)
  {
    VoterGrants(nodes[0], MakeVoteCall(nodes[1], 1, 0, 2));
    assert Results([B], 0, 1) == [ApplyResult(true, "b", 1)];
    assert nodes'[0] == GrantedTo(nodes[0], 2, 1) && nodes'[1] == nodes[1];
    assert forall p: Id :: 2 <= p < n ==> Get(nodes[0].next, p) == 1;
  }

  lemma DeposedByCandidacy(n: nat, nodes: seq<Node>, nodes': seq<Node>)
    requires Applied(n, nodes) && nodes' == nodes[0 := BecomeCandidate(nodes[0], 0)]
    ensures Deposed(n, nodes', Candidate)
  {
    assert Results([B], 0, 1) == [ApplyResult(true, "b", 1)];
    assert forall p: Id :: 2 <= p < n ==> Get(nodes[0].next, p) == 1;
  }

  lemma StaleOverwrite(x: Node, p: Id, z: Node)
    requires x.term == 2 && x.log == [A] && x.commit == 0 && Get(x.next, p) == 1
    requires Holding(z, 2, [B]) && z.term == 2
    ensures Holding(HandleAppend(z, MakeAppendCall(x, 0, p).req).0, 2, [A])
  {
    assert [A][0..] == [A];
    assert Merge([B], 0, [A]) == [A];
  }

  /** The nodes that helped commit "b" were talked out of it by stale requests of node 0. */
  ghost predicate Overwritten(n: nat, nodes: seq<Node>) {
    && n >= 3 && |nodes| == n && 2 + HoldersNeeded(n) <= n
    && nodes[0].role != Leader && nodes[0].active && nodes[0].term == 2 && nodes[0].log == [A]
    && nodes[0].commit == 0 && nodes[0].applied == 0 && nodes[0].delivered == []
    && nodes[1].delivered == [ApplyResult(true, "b", 1)]
    && forall v :: 2 <= v < 2 + HoldersNeeded(n) ==> Holding(nodes[v], 2, [A])
  }

  lemma ReachOverwritten(n: nat, senders: set<Role>, role: Role) returns (steps: seq<Step>)
    requires n >= 3 && Leader in senders && role in senders && role != Leader
    ensures IsRun(n, senders, steps) && Overwritten(n, After(n, senders, steps).nodes)
  {
    var steps1 := ReachDeposed(n, senders, role);
    var nodes := After(n, senders, steps1).nodes;
    var calls, answers := ExchangesExist(nodes, 0, 2, HoldersNeeded(n));
    steps := DeliverAll(n, senders, steps1, calls, answers, 0, 2, HoldersNeeded(n));
    OverwrittenNodes(n, nodes, After(n, senders, steps), calls, answers, role);
  }

  lemma OverwrittenNodes(n: nat, nodes: seq<Node>, s': State, calls: seq<AppendCall>, answers: seq<(Node, AppendReply)>, role: Role)
    requires Deposed(n, nodes, role) && role != Leader && Exchanges(nodes, calls, answers, 0, 2, HoldersNeeded(n))
    requires Delivered(nodes, s', calls, answers, 2, HoldersNeeded(n))
    ensures Overwritten(n, s'.nodes)
  {
    forall v | 2 <= v < 2 + HoldersNeeded(n) ensures Holding(s'.nodes[v], 2, [A]) {
      StaleOverwrite(nodes[0], v, nodes[v]);
      assert s'.nodes[v] == answers[v].0 && ExchangeAt(nodes, calls[v], answers[v], 0, v);
    }
  }

  /** Node 0 leads term 3 with "a" and "c". */
  ghost predicate Restored(n: nat, nodes: seq<Node>) {
    && n >= 3 && |nodes| == n && 2 + HoldersNeeded(n) <= n
    && FreshLeader(n, nodes[0], 0, 3, [A, C], 2)
    && nodes[1].delivered == [ApplyResult(true, "b", 1)]
    && forall v :: 2 <= v < 2 + HoldersNeeded(n) ==> Holding(nodes[v], 3, [A])
  }

  lemma ReachRestored(n: nat, senders: set<Role>, role: Role) returns (steps: seq<Step>)
    requires n >= 3 && Leader in senders && role in senders && role != Leader
    ensures IsRun(n, senders, steps) && Restored(n, After(n, senders, steps).nodes)
  {
    var steps1 := ReachOverwritten(n, senders, role);
    var nodes := After(n, senders, steps1).nodes;
    OverwrittenWilling(n, nodes);
    steps := Lead(n, senders, steps1, 0, 2, "c");
    RestoredNodes(n, nodes, After(n, senders, steps).nodes);
  }

  lemma OverwrittenWilling(n: nat, nodes: seq<Node>)
    requires Overwritten(n, nodes)
    ensures 2 + VotesNeeded(n) <= n
    ensures forall v :: 2 <= v < 2 + VotesNeeded(n) ==> Willing(nodes[v], BecomeCandidate(nodes[0], 0))
  {
    forall v | 2 <= v < 2 + VotesNeeded(n) ensures Willing(nodes[v], BecomeCandidate(nodes[0], 0)) {
      assert Holding(nodes[v], 2, [A]);
    }
  }

  lemma RestoredNodes(n: nat, nodes: seq<Node>, nodes': seq<Node>)
    requires Overwritten(n, nodes) && Leads(n, nodes, nodes', 0, 2, "c")
    ensures Restored(n, nodes')
  {
    assert [A] + [C] == [A, C];
    forall v | 2 <= v < 2 + HoldersNeeded(n) ensures Holding(nodes'[v], 3, [A]) {
      assert Holding(nodes[v], 2, [A]);
    }
  }

  /** Stale requests erase "b" at the nodes that helped commit it; node 0 is then elected with "a"
      and commits it. */
  lemma StaleSenderDiverges(n: nat, senders: set<Role>, role: Role) returns (steps: seq<Step>)
    requires n >= 3 && Leader in senders && role in senders && role != Leader
    ensures IsRun(n, senders, steps)
    ensures var nodes := After(n, senders, steps).nodes;
            && nodes[1].delivered == [ApplyResult(true, "b", 1)]
            && nodes[0].delivered == [ApplyResult(true, "a", 1), ApplyResult(true, "c", 2)]
  {
    var steps1 := ReachRestored(n, senders, role);
    assert [A, C][..1] == [A];
    AllCatchUp(n, After(n, senders, steps1).nodes, 0, 3, [A, C], 2, [A]);
    steps := CommitAll(n, senders, steps1, 0, 3, [A, C], 2, 2);
    assert Results([A, C], 0, 2) == [ApplyResult(true, "a", 1), ApplyResult(true, "c", 2)];
  }

  // ---------------------------------------------------------------- exactly when applied sequences agree

  /** Whatever two nodes applied, at any two points of any run, is comparable. */
  ghost predicate AppliedAgree(n: nat, senders: set<Role>) {
    forall steps, k, i, l, j ::
      IsRun(n, senders, steps) && At(n, senders, steps, k, i).Some? && At(n, senders, steps, l, j).Some? ==>
      Comparable(At(n, senders, steps, k, i).value.delivered, At(n, senders, steps, l, j).value.delivered)
  }

  /** One run whose final states differ at the first applied entry refutes agreement. */
  lemma Disagree(n: nat, senders: set<Role>, steps: seq<Step>, i: Id, j: Id)
    requires IsRun(n, senders, steps) && i < n && j < n
    requires var a, b := After(n, senders, steps).nodes[i].delivered, After(n, senders, steps).nodes[j].delivered;
             a != [] && b != [] && a[0] != b[0]
    ensures !AppliedAgree(n, senders)
  {
    assert steps[..|steps|] == steps;
    var a, b := At(n, senders, steps, |steps|, i).value.delivered, At(n, senders, steps, |steps|, j).value.delivered;
    assert !Comparable(a, b);
  }

  /** State Machine Safety in a cluster of three or more nodes holds exactly when the size is odd and
      the role is checked again where a request is built. */
  lemma StateMachineSafetyIff(n: nat, senders: set<Role>)
    requires n >= 3 && Leader in senders
    ensures AppliedAgree(n, senders) <==> n % 2 == 1 && senders == {Leader}
  {
    if n % 2 == 0 {
      var steps := EvenSizes.EvenSizeDiverges(n, senders);
      Disagree(n, senders, steps, 0, n / 2);
    } else if senders == {Leader} {
      forall steps, k: nat, i: Id, l: nat, j: Id
        | IsRun(n, senders, steps) && At(n, senders, steps, k, i).Some? && At(n, senders, steps, l, j).Some?
        ensures Comparable(At(n, senders, steps, k, i).value.delivered, At(n, senders, steps, l, j).value.delivered)
      {
        StateMachineSafety(n, steps, k, i, l, j);
      }
    } else {
      var role :| role in senders && role != Leader;
      var steps := StaleSenderDiverges(n, senders, role);
      Disagree(n, senders, steps, 0, 1);
    }
  }
}
