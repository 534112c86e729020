/** The complete inductive invariant, and that every step of the cluster keeps it when append
    requests are built by leaders and the cluster size rules out two winners. */
module Preservation {
  import opened RaftTypes
  import opened LogOps
  import opened NodeSpec
  import opened Cluster
  import opened Quorums
  import opened History
  import opened Elections
  import opened Logs
  import opened Acks
  import opened Completeness
  import opened Commits
  import opened Indices

  ghost predicate Inv(n: nat, s: State, h: History) {
    InvE(n, s, h) && InvL(n, s, h) && InvA(n, s, h) && InvC(n, s, h) && InvI(n, s, h)
  }

  /** The leader's log holds the node's committed prefix. */
  ghost predicate CommitPrefixOf(nd: Node, leader: seq<Entry>) {
    nd.commit <= |nd.log| && nd.commit <= |leader| && nd.log[..nd.commit] == leader[..nd.commit]
  }

  /** The instances of the invariant that one step relies on. */
  ghost predicate Local(n: nat, s: State, h: History, step: Step) {
    var i := Actor(step);
    && i < n == |s.nodes| && Enabled({Leader}, s, step)
    && var nd := s.nodes[i];
       && NodeE(n, h, i, nd) && NodeL(h, nd) && Sorted(nd.log) && NodeA(h, i, nd) && NodeC(n, h, nd) && NodeI(n, h, i, nd)
       && (forall x :: Consumes(step, x) ==> ItemE(n, s.nodes, h, x) && ItemL(n, h, x) && ItemC(n, h, x) && ItemI(h, x))
       && Bounded(h) && (forall b :: b in h.acks ==> AckBound(h, b))
       && (nd.role == Leader ==> nd.term in h.reigns && ReignL(s.nodes, h, nd.term, h.reigns[nd.term]))
       && (nd.role == Candidate && NodeAfter(n, nd, step).role == Leader ==> nd.term !in h.reigns)
       && (step.ReceiveAppend? && nd.term <= step.append.req.term ==>
             && step.append.req.term in h.reigns
             && ReignL(s.nodes, h, step.append.req.term, h.reigns[step.append.req.term])
             && CommitPrefixOf(nd, h.reigns[step.append.req.term].log))
  }

  /** The node stays leader while its term lasts. */
  ghost predicate KeepsOffice(nd: Node, nd': Node) {
    nd.role == Leader && nd'.term == nd.term ==> nd'.role == Leader
  }

  /** What the log invariant demands of a step. */
  ghost predicate GoalL(n: nat, s: State, h: History, step: Step)
    requires Actor(step) < |s.nodes|
  {
    var nd := s.nodes[Actor(step)];
    var nd' := NodeAfter(n, nd, step);
    DeltaL(n, s.nodes, h, Actor(step), nd', NewItems(nd, step), Record(h, step, nd, nd'))
  }

  lemma VoteShape(n: nat, h: History, i: Id, nd: Node, vote: VoteCall)
    requires NodeE(n, h, i, nd) && vote.src != i
    ensures var nd' := HandleVote(nd, vote).0;
            && SameLog(nd, nd') && KeepsOffice(nd, nd') && (nd'.role == nd.role || nd'.role == Follower)
            && nd'.next == nd.next && nd'.matched == nd.matched
            && (nd'.role != Follower ==> nd'.term == nd.term)
            && (HandleVote(nd, vote).1.granted ==> nd'.term == vote.term && nd'.role == Follower)
  {
  }

  lemma VoteReplyShape(nd: Node, peers: set<Id>, vote: VoteCall, rep: VoteReply)
    ensures var nd' := HandleVoteReply(nd, peers, vote, rep);
            && SameLog(nd, nd') && KeepsOffice(nd, nd')
            && (nd'.role == Candidate ==> nd.role == Candidate && nd'.term == nd.term)
            && (nd.role == Leader && nd'.role == Leader ==> nd' == nd)
            && (nd.role != Leader && nd'.role == Leader ==>
                  nd.role == Candidate && nd'.term == nd.term && nd' == BecomeLeader(nd', peers))
  {
  }

  lemma AppendReplyShape(nd: Node, peers: set<Id>, call: AppendCall, rep: AppendReply)
    ensures var nd' := HandleAppendReply(nd, peers, call, rep);
            && nd'.log == nd.log && nd.term <= nd'.term && KeepsOffice(nd, nd')
            && (nd'.role != Follower ==> nd'.term == nd.term && nd'.role == nd.role)
  {
  }

  // ---------------------------------------------------------------- logs

  /** A leader's request is a slice of its log and announces no commit index beyond it. */
  lemma SendCall(n: nat, h: History, i: Id, nd: Node, peer: Id)
    requires NodeE(n, h, i, nd) && nd.role == Leader && PeerI(h, nd, peer) && peer in Peers(n, i)
    requires NodeC(n, h, nd) && NodeL(h, nd)
    ensures CallL(n, h, MakeAppendCall(nd, i, peer)) && CallC(n, h, MakeAppendCall(nd, i, peer))
  {
    var next := Get(nd.next, peer);
    assert nd.log[next - 1..] == nd.log[next - 1..next - 1 + |nd.log[next - 1..]|];
  }

  lemma PoolOnlyStepL(n: nat, s: State, h: History, step: Step)
    requires Local(n, s, h, step) && (step.Run? || step.TimerExpires? || step.ReadElectionTerm? || step.SendVote?)
    ensures GoalL(n, s, h, step)
  {
    var i := Actor(step);
    SameLogDelta(n, s.nodes, h, i, NodeAfter(n, s.nodes[i], step), NewItems(s.nodes[i], step));
  }

  lemma SendAppendL(n: nat, s: State, h: History, i: Id, peer: Id)
    requires Local(n, s, h, SendAppend(i, peer))
    ensures GoalL(n, s, h, SendAppend(i, peer))
  {
    SendCall(n, h, i, s.nodes[i], peer);
    SameLogDelta(n, s.nodes, h, i, s.nodes[i], NewItems(s.nodes[i], SendAppend(i, peer)));
  }

  lemma CandidacyL(n: nat, s: State, h: History, i: Id)
    requires Local(n, s, h, Candidacy(i))
    ensures GoalL(n, s, h, Candidacy(i))
  {
    var nd, step := s.nodes[i], Candidacy(i);
    var nd' := NodeAfter(n, nd, step);
    GrantDeltaL(n, s.nodes, h, Record(h, step, nd, nd'), i, nd', NewItems(nd, step));
  }

  lemma ReceiveVoteL(n: nat, s: State, h: History, vote: VoteCall)
    requires Local(n, s, h, ReceiveVote(vote))
    ensures GoalL(n, s, h, ReceiveVote(vote))
  {
    assert Consumes(ReceiveVote(vote), VoteRequest(vote));
    var nd := s.nodes[vote.dst];
    var (nd', rep) := HandleVote(nd, vote);
    VoteShape(n, h, vote.dst, nd, vote);
    if rep.granted {
      GrantDeltaL(n, s.nodes, h, Record(h, ReceiveVote(vote), nd, nd'), vote.dst, nd', {VoteAnswer(vote, rep)});
    } else {
      SameLogDelta(n, s.nodes, h, vote.dst, nd', {VoteAnswer(vote, rep)});
    }
  }

  lemma ReceiveVoteReplyL(n: nat, s: State, h: History, vote: VoteCall, rep: VoteReply)
    requires Local(n, s, h, ReceiveVoteReply(vote, rep))
    ensures GoalL(n, s, h, ReceiveVoteReply(vote, rep))
  {
    var i := vote.src;
    var nd := s.nodes[i];
    var nd' := HandleVoteReply(nd, Peers(n, i), vote, rep);
    VoteReplyShape(nd, Peers(n, i), vote, rep);
    if nd.role != Leader && nd'.role == Leader {
      WinDeltaL(n, s.nodes, h, i, nd', Record(h, ReceiveVoteReply(vote, rep), nd, nd'));
    } else {
      SameLogDelta(n, s.nodes, h, i, nd', {});
    }
  }

  /** A leader receives no request of its own term. */
  lemma NoRivalLeader(n: nat, h: History, i: Id, nd: Node, c: AppendCall)
    requires NodeE(n, h, i, nd) && CallL(n, h, c) && c.dst == i && nd.term == c.req.term
    ensures nd.role != Leader
  {
  }

  lemma AcceptStepL(n: nat, nodes: seq<Node>, h: History, c: AppendCall)
    requires c.dst < n == |nodes| && CallL(n, h, c)
    requires NodeE(n, h, c.dst, nodes[c.dst]) && NodeL(h, nodes[c.dst])
    requires ReignL(nodes, h, c.req.term, h.reigns[c.req.term])
    requires HandleAppend(nodes[c.dst], c.req).1.success
    ensures var nd, step := nodes[c.dst], ReceiveAppend(c); var nd' := NodeAfter(n, nd, step);
            DeltaL(n, nodes, h, c.dst, nd', NewItems(nd, step), Record(h, step, nd, nd'))
  {
    var nd, step := nodes[c.dst], ReceiveAppend(c);
    var nd' := NodeAfter(n, nd, step);
    var h' := Record(h, step, nd, nd');
    AcceptShape(nd, c.req);
    if nd.term == c.req.term { NoRivalLeader(n, h, c.dst, nd, c); }
    MergeDeltaL(n, nodes, h, h', c.dst, nd', NewItems(nd, step), c);
  }

  lemma RejectStepL(n: nat, nodes: seq<Node>, h: History, c: AppendCall)
    requires c.dst < n == |nodes| && CallL(n, h, c)
    requires NodeE(n, h, c.dst, nodes[c.dst]) && NodeL(h, nodes[c.dst])
    requires !HandleAppend(nodes[c.dst], c.req).1.success
    ensures var nd, step := nodes[c.dst], ReceiveAppend(c); var nd' := NodeAfter(n, nd, step);
            DeltaL(n, nodes, h, c.dst, nd', NewItems(nd, step), Record(h, step, nd, nd'))
  {
    var nd := nodes[c.dst];
    var (nd', rep) := HandleAppend(nd, c.req);
    RejectShape(nd, c.req);
    if nd.term == c.req.term { NoRivalLeader(n, h, c.dst, nd, c); }
    SameLogDelta(n, nodes, h, c.dst, nd', {AppendAnswer(c, rep)});
  }

  lemma ReceiveAppendL(n: nat, s: State, h: History, c: AppendCall)
    requires Local(n, s, h, ReceiveAppend(c))
    ensures GoalL(n, s, h, ReceiveAppend(c))
  {
    assert Consumes(ReceiveAppend(c), AppendRequested(c));
    if HandleAppend(s.nodes[c.dst], c.req).1.success {
      assert s.nodes[c.dst].term <= c.req.term;
      AcceptStepL(n, s.nodes, h, c);
    } else {
      RejectStepL(n, s.nodes, h, c);
    }
  }

  lemma ReceiveAppendReplyL(n: nat, s: State, h: History, c: AppendCall, rep: AppendReply)
    requires Local(n, s, h, ReceiveAppendReply(c, rep))
    ensures GoalL(n, s, h, ReceiveAppendReply(c, rep))
  {
    var nd := s.nodes[c.src];
    AppendReplyShape(nd, Peers(n, c.src), c, rep);
    SameLogDelta(n, s.nodes, h, c.src, HandleAppendReply(nd, Peers(n, c.src), c, rep), {});
  }

  lemma ClientProposesL(n: nat, s: State, h: History, i: Id, data: string)
    requires Local(n, s, h, ClientProposes(i, data))
    ensures GoalL(n, s, h, ClientProposes(i, data))
  {
    if s.nodes[i].role == Leader {
      ProposeDeltaL(n, s.nodes, h, i, data);
    } else {
      SameLogDelta(n, s.nodes, h, i, s.nodes[i], {});
    }
  }

  lemma StepL(n: nat, s: State, h: History, step: Step)
    requires Local(n, s, h, step)
    ensures GoalL(n, s, h, step)
  {
    match step
    case Candidacy(i) => CandidacyL(n, s, h, i);
    case ReceiveVote(vote) => ReceiveVoteL(n, s, h, vote);
    case ReceiveVoteReply(vote, rep) => ReceiveVoteReplyL(n, s, h, vote, rep);
    case SendAppend(i, peer) => SendAppendL(n, s, h, i, peer);
    case ReceiveAppend(c) => ReceiveAppendL(n, s, h, c);
    case ReceiveAppendReply(c, rep) => ReceiveAppendReplyL(n, s, h, c, rep);
    case ClientProposes(i, data) => ClientProposesL(n, s, h, i, data);
    case _ => PoolOnlyStepL(n, s, h, step);
  }

  // ---------------------------------------------------------------- acknowledgements

  ghost predicate GoalA(n: nat, s: State, h: History, step: Step)
    requires Actor(step) < |s.nodes|
  {
    var nd := s.nodes[Actor(step)];
    var nd' := NodeAfter(n, nd, step);
    DeltaA(n, s.nodes, h, Actor(step), nd', Record(h, step, nd, nd'))
  }

  lemma PoolOnlyStepA(n: nat, s: State, h: History, step: Step)
    requires Local(n, s, h, step)
    requires step.Run? || step.TimerExpires? || step.ReadElectionTerm? || step.SendVote? || step.SendAppend?
    ensures GoalA(n, s, h, step)
  {
    SameLogA(n, s.nodes, h, Actor(step), NodeAfter(n, s.nodes[Actor(step)], step));
  }

  lemma CandidacyA(n: nat, s: State, h: History, i: Id)
    requires Local(n, s, h, Candidacy(i))
    ensures GoalA(n, s, h, Candidacy(i))
  {
    var nd := s.nodes[i];
    var nd' := BecomeCandidate(nd, i);
    GrantDeltaA(n, s.nodes, h, Record(h, Candidacy(i), nd, nd'), i, nd');
  }

  lemma ReceiveVoteA(n: nat, s: State, h: History, vote: VoteCall)
    requires Local(n, s, h, ReceiveVote(vote))
    ensures GoalA(n, s, h, ReceiveVote(vote))
  {
    assert Consumes(ReceiveVote(vote), VoteRequest(vote));
    var nd := s.nodes[vote.dst];
    var nd' := NodeAfter(n, nd, ReceiveVote(vote));
    VoteShape(n, h, vote.dst, nd, vote);
    GrantDeltaA(n, s.nodes, h, Record(h, ReceiveVote(vote), nd, nd'), vote.dst, nd');
  }

  lemma ReceiveVoteReplyA(n: nat, s: State, h: History, vote: VoteCall, rep: VoteReply)
    requires Local(n, s, h, ReceiveVoteReply(vote, rep))
    ensures GoalA(n, s, h, ReceiveVoteReply(vote, rep))
  {
    var i := vote.src;
    var nd := s.nodes[i];
    var nd' := HandleVoteReply(nd, Peers(n, i), vote, rep);
    VoteReplyShape(nd, Peers(n, i), vote, rep);
    if nd.role != Leader && nd'.role == Leader {
      WinDeltaA(n, s.nodes, h, i, nd', Record(h, ReceiveVoteReply(vote, rep), nd, nd'));
    } else {
      SameLogA(n, s.nodes, h, i, nd');
    }
  }

  lemma ReceiveAppendA(n: nat, s: State, h: History, c: AppendCall)
    requires Local(n, s, h, ReceiveAppend(c))
    ensures GoalA(n, s, h, ReceiveAppend(c))
  {
    assert Consumes(ReceiveAppend(c), AppendRequested(c));
    var nd := s.nodes[c.dst];
    if HandleAppend(nd, c.req).1.success {
      AcceptShape(nd, c.req);
      AcceptedA(n, s.nodes, h, c, HandleAppend(nd, c.req).0);
    } else {
      RejectShape(nd, c.req);
      SameLogA(n, s.nodes, h, c.dst, HandleAppend(nd, c.req).0);
    }
  }

  lemma AcceptedA(n: nat, nodes: seq<Node>, h: History, c: AppendCall, nd': Node)
    requires c.dst < n == |nodes| && HandleAppend(nodes[c.dst], c.req).1.success
    requires nodes[c.dst].term <= c.req.term && nd' == HandleAppend(nodes[c.dst], c.req).0
    requires NodeA(h, c.dst, nodes[c.dst]) && CallL(n, h, c) && forall b :: b in h.acks ==> AckBound(h, b)
    requires OfReigns(h.reigns, nodes[c.dst].log) && OfReigns(h.reigns, h.reigns[c.req.term].log)
    ensures DeltaA(n, nodes, h, c.dst, nd', Record(h, ReceiveAppend(c), nodes[c.dst], nd'))
  {
    AcceptShape(nodes[c.dst], c.req);
    MergeDeltaA(n, nodes, h, c.dst, nd', Record(h, ReceiveAppend(c), nodes[c.dst], nd'), c);
  }

  lemma ReceiveAppendReplyA(n: nat, s: State, h: History, c: AppendCall, rep: AppendReply)
    requires Local(n, s, h, ReceiveAppendReply(c, rep))
    ensures GoalA(n, s, h, ReceiveAppendReply(c, rep))
  {
    var nd := s.nodes[c.src];
    AppendReplyShape(nd, Peers(n, c.src), c, rep);
    SameLogA(n, s.nodes, h, c.src, HandleAppendReply(nd, Peers(n, c.src), c, rep));
  }

  lemma ClientProposesA(n: nat, s: State, h: History, i: Id, data: string)
    requires Local(n, s, h, ClientProposes(i, data))
    ensures GoalA(n, s, h, ClientProposes(i, data))
  {
    var nd := s.nodes[i];
    var nd' := Propose(nd, data).0;
    if nd.role == Leader {
      ProposeDeltaA(n, s.nodes, h, i, nd', Record(h, ClientProposes(i, data), nd, nd'));
    } else {
      SameLogA(n, s.nodes, h, i, nd');
    }
  }

  lemma StepA(n: nat, s: State, h: History, step: Step)
    requires Local(n, s, h, step)
    ensures GoalA(n, s, h, step)
  {
    match step
    case Candidacy(i) => CandidacyA(n, s, h, i);
    case ReceiveVote(vote) => ReceiveVoteA(n, s, h, vote);
    case ReceiveVoteReply(vote, rep) => ReceiveVoteReplyA(n, s, h, vote, rep);
    case ReceiveAppend(c) => ReceiveAppendA(n, s, h, c);
    case ReceiveAppendReply(c, rep) => ReceiveAppendReplyA(n, s, h, c, rep);
    case ClientProposes(i, data) => ClientProposesA(n, s, h, i, data);
    case _ => PoolOnlyStepA(n, s, h, step);
  }

  // ---------------------------------------------------------------- commits

  ghost predicate GoalC(n: nat, s: State, h: History, step: Step)
    requires Actor(step) < |s.nodes|
  {
    var nd := s.nodes[Actor(step)];
    var nd' := NodeAfter(n, nd, step);
    DeltaC(n, s.nodes, h, Actor(step), nd', NewItems(nd, step), Record(h, step, nd, nd'))
  }

  /** A step that leaves log, commit index and applied entries alone. */
  lemma SameLogC(n: nat, s: State, h: History, step: Step)
    requires Local(n, s, h, step) && GoalL(n, s, h, step)
    requires SameLog(s.nodes[Actor(step)], NodeAfter(n, s.nodes[Actor(step)], step)) && !step.SendAppend?
    ensures GoalC(n, s, h, step)
  {
    var nd := s.nodes[Actor(step)];
    var nd' := NodeAfter(n, nd, step);
    NodeStableC(n, h, Record(h, step, nd, nd'), nd, nd');
  }

  lemma SendAppendC(n: nat, s: State, h: History, i: Id, peer: Id)
    requires Local(n, s, h, SendAppend(i, peer))
    ensures GoalC(n, s, h, SendAppend(i, peer))
  {
    assert PeerI(h, s.nodes[i], peer);
    SendDeltaC(n, s.nodes, h, i, peer);
  }

  lemma SendDeltaC(n: nat, nodes: seq<Node>, h: History, i: Id, peer: Id)
    requires i < n == |nodes| && NodeE(n, h, i, nodes[i]) && nodes[i].role == Leader && PeerI(h, nodes[i], peer)
    requires peer in Peers(n, i) && NodeC(n, h, nodes[i]) && NodeL(h, nodes[i])
    ensures DeltaC(n, nodes, h, i, nodes[i], {AppendRequested(MakeAppendCall(nodes[i], i, peer))}, h)
  {
    SendCall(n, h, i, nodes[i], peer);
    assert HistoryEvolves(h, h);
  }

  /** A follower that accepted a request: the committed prefix stayed and grew by verified entries. */
  lemma AcceptC(n: nat, h: History, h': History, nd: Node, c: AppendCall)
    requires HistoryEvolves(h, h') && h'.reigns == h.reigns && NodeC(n, h, nd) && NodeL(h, nd) && CallL(n, h, c) && CallC(n, h, c)
    requires OfReigns(h.reigns, h.reigns[c.req.term].log) && CommitPrefixOf(nd, h.reigns[c.req.term].log)
    requires HandleAppend(nd, c.req).1.success
    ensures NodeC(n, h', HandleAppend(nd, c.req).0)
  {
    AcceptShape(nd, c.req);
    var leader := h.reigns[c.req.term].log;
    assert Matching(nd.log, leader) by { WovenMatching(h.reigns, nd.log, leader); }
    AcceptedC(n, h, h', nd, Merged(nd, c.req), c);
  }

  lemma AcceptedC(n: nat, h: History, h': History, nd: Node, nd2: Node, c: AppendCall)
    requires HistoryEvolves(h, h') && h'.reigns == h.reigns && NodeC(n, h, nd) && CallL(n, h, c) && CallC(n, h, c)
    requires Matching(nd.log, h.reigns[c.req.term].log) && CommitPrefixOf(nd, h.reigns[c.req.term].log)
    requires nd.term <= c.req.term && PrevMatches(nd.log, c.req.prevIndex, c.req.prevTerm)
    requires nd2.commit == nd.commit && nd2.applied == nd.applied && nd2.delivered == nd.delivered
    requires nd2.term == c.req.term && nd2.log == Merge(nd.log, c.req.prevIndex, c.req.entries)
    ensures NodeC(n, h', FollowerCommit(nd2, c.req.leaderCommit))
  {
    assert SharedUpTo(nd2.log, h'.reigns[c.req.term].log, c.req.prevIndex + |c.req.entries|) by {
      MergeSlice(nd.log, h.reigns[c.req.term].log, c.req.prevIndex, c.req.prevTerm, c.req.entries);
    }
    MergeC(n, h, h', nd, nd2, c);
    assert ItemC(n, h', AppendRequested(c)) by { ItemStableC(n, h, h', AppendRequested(c)); }
    FollowerCommitC(n, h', nd2, c);
  }

  lemma ReceiveAppendC(n: nat, s: State, h: History, c: AppendCall)
    requires Local(n, s, h, ReceiveAppend(c)) && GoalL(n, s, h, ReceiveAppend(c))
    ensures GoalC(n, s, h, ReceiveAppend(c))
  {
    assert Consumes(ReceiveAppend(c), AppendRequested(c));
    var nd, step := s.nodes[c.dst], ReceiveAppend(c);
    if HandleAppend(nd, c.req).1.success {
      assert nd.term <= c.req.term;
      AcceptC(n, h, Record(h, step, nd, NodeAfter(n, nd, step)), nd, c);
    } else {
      RejectShape(nd, c.req);
      SameLogC(n, s, h, step);
    }
  }

  /** A leader that counts a success reply commits only what a majority acknowledged. */
  lemma LeaderCommitC(n: nat, h: History, i: Id, nd: Node, call: AppendCall)
    requires i < n && NodeE(n, h, i, nd) && NodeC(n, h, nd) && NodeI(n, h, i, HandleAccept(nd, Peers(n, i), call))
    requires nd.role == Leader && LastSent(call) <= |nd.log|
    requires forall b :: b in h.acks ==> AckBound(h, b)
    ensures NodeC(n, h, HandleAccept(nd, Peers(n, i), call))
  {
    var last := LastSent(call);
    var nd1 := nd.(matched := nd.matched[call.dst := last], next := nd.next[call.dst := last + 1]);
    var N := CommitScan(nd1.log, nd1.term, nd1.matched, Peers(n, i), last, nd1.commit);
    var nd' := HandleAccept(nd, Peers(n, i), call);
    if N > nd1.commit {
      forall p | p in Peers(n, i) && Get(nd1.matched, p) >= N ensures Acked(h, nd.term, p, N) {
        assert PeerI(h, nd', p) && AckBound(h, Ballot(nd.term, p));
      }
      CommitScanC(n, h, nd1, i, N);
      ApplyC(n, h, nd1, N);
    }
  }

  lemma ReceiveAppendReplyC(n: nat, s: State, h: History, c: AppendCall, rep: AppendReply)
    requires Local(n, s, h, ReceiveAppendReply(c, rep)) && GoalL(n, s, h, ReceiveAppendReply(c, rep))
    requires GoalI(n, s, h, ReceiveAppendReply(c, rep))
    ensures GoalC(n, s, h, ReceiveAppendReply(c, rep))
  {
    assert Consumes(ReceiveAppendReply(c, rep), AppendAnswer(c, rep));
    var i, step := c.src, ReceiveAppendReply(c, rep);
    var nd := s.nodes[i];
    if Accepts(nd, c, rep) {
      LeaderCommitC(n, h, i, nd.(counter := nd.counter[c.dst := c.counter]), c);
    } else {
      NotAcceptedShape(nd, Peers(n, i), c, rep);
      SameLogC(n, s, h, step);
    }
  }

  lemma ClientProposesC(n: nat, s: State, h: History, i: Id, data: string)
    requires Local(n, s, h, ClientProposes(i, data)) && GoalL(n, s, h, ClientProposes(i, data))
    ensures GoalC(n, s, h, ClientProposes(i, data))
  {
    var nd, step := s.nodes[i], ClientProposes(i, data);
    var nd' := NodeAfter(n, nd, step);
    assert nd'.log[..nd.commit] == nd.log[..nd.commit];
    NodeStableC(n, h, Record(h, step, nd, nd'), nd, nd');
  }

  lemma StepC(n: nat, s: State, h: History, step: Step)
    requires Local(n, s, h, step) && GoalL(n, s, h, step) && GoalI(n, s, h, step)
    ensures GoalC(n, s, h, step)
  {
    match step
    case ReceiveVote(vote) =>
      assert Consumes(step, VoteRequest(vote));
      VoteShape(n, h, vote.dst, s.nodes[vote.dst], vote);
      SameLogC(n, s, h, step);
    case ReceiveVoteReply(vote, rep) =>
      VoteReplyShape(s.nodes[vote.src], Peers(n, vote.src), vote, rep);
      SameLogC(n, s, h, step);
    case SendAppend(i, peer) => SendAppendC(n, s, h, i, peer);
    case ReceiveAppend(c) => ReceiveAppendC(n, s, h, c);
    case ReceiveAppendReply(c, rep) => ReceiveAppendReplyC(n, s, h, c, rep);
    case ClientProposes(i, data) => ClientProposesC(n, s, h, i, data);
    case _ => SameLogC(n, s, h, step);
  }

  // ---------------------------------------------------------------- indices

  ghost predicate GoalI(n: nat, s: State, h: History, step: Step)
    requires Actor(step) < |s.nodes|
  {
    var nd := s.nodes[Actor(step)];
    var nd' := NodeAfter(n, nd, step);
    DeltaI(n, s.nodes, h, Actor(step), nd', NewItems(nd, step), Record(h, step, nd, nd'))
  }

  lemma NotAcceptedShape(nd: Node, peers: set<Id>, c: AppendCall, rep: AppendReply)
    requires !Accepts(nd, c, rep)
    ensures SameLog(nd, HandleAppendReply(nd, peers, c, rep))
  {
  }

  /** A leader whose bookkeeping did not change, or a node that is not a leader. */
  lemma SameNodeI(n: nat, h: History, h': History, i: Id, nd: Node, nd': Node)
    requires NodeI(n, h, i, nd) && HistoryEvolves(h, h')
    requires nd'.role == Leader ==>
      && nd.role == Leader && nd'.term == nd.term && nd'.log == nd.log && nd'.commit == nd.commit
      && nd'.next == nd.next && nd'.matched == nd.matched
    ensures NodeI(n, h', i, nd')
  {
    if nd'.role == Leader {
      forall p | p in Peers(n, i) ensures PeerI(h', nd', p) { assert PeerI(h, nd, p); }
      forall N | nd'.commit < N <= |nd'.log|
        ensures !Committable(nd'.log, nd'.term, nd'.matched, Peers(n, i), N)
      {
        assert !Committable(nd.log, nd.term, nd.matched, Peers(n, i), N);
      }
    }
  }

  lemma PoolOnlyStepI(n: nat, s: State, h: History, step: Step)
    requires Local(n, s, h, step) && GoalL(n, s, h, step)
    requires step.Run? || step.TimerExpires? || step.ReadElectionTerm? || step.SendVote? || step.Candidacy?
    ensures GoalI(n, s, h, step)
  {
    var nd := s.nodes[Actor(step)];
    var nd' := NodeAfter(n, nd, step);
    SameNodeI(n, h, Record(h, step, nd, nd'), Actor(step), nd, nd');
  }

  lemma SendAppendI(n: nat, s: State, h: History, i: Id, peer: Id)
    requires Local(n, s, h, SendAppend(i, peer))
    ensures GoalI(n, s, h, SendAppend(i, peer))
  {
    assert PeerI(h, s.nodes[i], peer);
    SendDeltaI(n, s.nodes, h, i, peer);
  }

  lemma SendDeltaI(n: nat, nodes: seq<Node>, h: History, i: Id, peer: Id)
    requires i < n == |nodes| && NodeI(n, h, i, nodes[i]) && PeerI(h, nodes[i], peer)
    ensures DeltaI(n, nodes, h, i, nodes[i], {AppendRequested(MakeAppendCall(nodes[i], i, peer))}, h)
  {
    SendI(h, i, nodes[i], peer);
    assert HistoryEvolves(h, h);
  }

  lemma ReceiveVoteI(n: nat, s: State, h: History, vote: VoteCall)
    requires Local(n, s, h, ReceiveVote(vote)) && GoalL(n, s, h, ReceiveVote(vote))
    ensures GoalI(n, s, h, ReceiveVote(vote))
  {
    assert Consumes(ReceiveVote(vote), VoteRequest(vote));
    var nd, step := s.nodes[vote.dst], ReceiveVote(vote);
    var nd' := NodeAfter(n, nd, step);
    VoteShape(n, h, vote.dst, nd, vote);
    SameNodeI(n, h, Record(h, step, nd, nd'), vote.dst, nd, nd');
  }

  lemma ReceiveVoteReplyI(n: nat, s: State, h: History, vote: VoteCall, rep: VoteReply)
    requires Local(n, s, h, ReceiveVoteReply(vote, rep)) && GoalL(n, s, h, ReceiveVoteReply(vote, rep))
    ensures GoalI(n, s, h, ReceiveVoteReply(vote, rep))
  {
    assert Consumes(ReceiveVoteReply(vote, rep), VoteAnswer(vote, rep));
    var i, step := vote.src, ReceiveVoteReply(vote, rep);
    var nd := s.nodes[i];
    var nd' := NodeAfter(n, nd, step);
    VoteReplyShape(nd, Peers(n, i), vote, rep);
    if nd.role != Leader && nd'.role == Leader {
      WinI(n, Record(h, step, nd, nd'), i, nd');
    } else {
      SameNodeI(n, h, Record(h, step, nd, nd'), i, nd, nd');
    }
  }

  lemma AppendNodeI(n: nat, h: History, h': History, i: Id, nd: Node, req: AppendRequest)
    requires NodeI(n, h, i, nd) && HistoryEvolves(h, h')
    ensures NodeI(n, h', i, HandleAppend(nd, req).0)
  {
    if HandleAppend(nd, req).1.success { AcceptShape(nd, req); } else { RejectShape(nd, req); }
    SameNodeI(n, h, h', i, nd, HandleAppend(nd, req).0);
  }

  lemma AppendDeltaI(n: nat, nodes: seq<Node>, h: History, h': History, c: AppendCall)
    requires c.dst < n == |nodes| && NodeI(n, h, c.dst, nodes[c.dst]) && NodeA(h, c.dst, nodes[c.dst])
    requires CallL(n, h, c) && CallI(h, c) && HistoryEvolves(h, h') && forall b :: b in h.acks ==> AckBound(h, b)
    requires h' == Record(h, ReceiveAppend(c), nodes[c.dst], HandleAppend(nodes[c.dst], c.req).0)
    ensures var nd, step := nodes[c.dst], ReceiveAppend(c);
            DeltaI(n, nodes, h, c.dst, NodeAfter(n, nd, step), NewItems(nd, step), h')
  {
    ReceiveI(h, h', nodes[c.dst], c);
    AppendNodeI(n, h, h', c.dst, nodes[c.dst], c.req);
  }

  lemma ReceiveAppendI(n: nat, s: State, h: History, c: AppendCall)
    requires Local(n, s, h, ReceiveAppend(c)) && GoalL(n, s, h, ReceiveAppend(c))
    ensures GoalI(n, s, h, ReceiveAppend(c))
  {
    assert Consumes(ReceiveAppend(c), AppendRequested(c));
    var nd := s.nodes[c.dst];
    AppendDeltaI(n, s.nodes, h, Record(h, ReceiveAppend(c), nd, HandleAppend(nd, c.req).0), c);
  }

  /** Handling a reply keeps the leader's bookkeeping sound. */
  lemma AppendReplyNodeI(n: nat, h: History, i: Id, nd: Node, c: AppendCall, rep: AppendReply)
    requires NodeE(n, h, i, nd) && NodeI(n, h, i, nd) && Sorted(nd.log) && c.src == i
    requires CallL(n, h, c) && CallI(h, c) && AnswerI(h, c, rep)
    ensures NodeI(n, h, i, HandleAppendReply(nd, Peers(n, i), c, rep))
  {
    var nd1 := nd.(counter := nd.counter[c.dst := c.counter]);
    assert HistoryEvolves(h, h);
    SameNodeI(n, h, h, i, nd, nd1);
    if Accepts(nd, c, rep) {
      AcceptI(n, h, i, nd1, c);
    } else if Rejects(nd, c, rep) {
      RejectI(n, h, i, nd1, c, rep);
    }
  }

  lemma ReceiveAppendReplyI(n: nat, s: State, h: History, c: AppendCall, rep: AppendReply)
    requires Local(n, s, h, ReceiveAppendReply(c, rep))
    ensures GoalI(n, s, h, ReceiveAppendReply(c, rep))
  {
    assert Consumes(ReceiveAppendReply(c, rep), AppendAnswer(c, rep));
    AppendReplyNodeI(n, h, c.src, s.nodes[c.src], c, rep);
    assert HistoryEvolves(h, h);
  }

  lemma ClientProposesI(n: nat, s: State, h: History, i: Id, data: string)
    requires Local(n, s, h, ClientProposes(i, data)) && GoalL(n, s, h, ClientProposes(i, data))
    ensures GoalI(n, s, h, ClientProposes(i, data))
  {
    var nd, step := s.nodes[i], ClientProposes(i, data);
    var nd' := NodeAfter(n, nd, step);
    if nd.role == Leader { ProposeI(n, h, i, nd, data); }
    SameNodeI(n, h, Record(h, step, nd, nd'), i, if nd.role == Leader then nd' else nd, nd');
  }

  lemma StepI(n: nat, s: State, h: History, step: Step)
    requires Local(n, s, h, step) && GoalL(n, s, h, step)
    ensures GoalI(n, s, h, step)
  {
    match step
    case ReceiveVote(vote) => ReceiveVoteI(n, s, h, vote);
    case ReceiveVoteReply(vote, rep) => ReceiveVoteReplyI(n, s, h, vote, rep);
    case SendAppend(i, peer) => SendAppendI(n, s, h, i, peer);
    case ReceiveAppend(c) => ReceiveAppendI(n, s, h, c);
    case ReceiveAppendReply(c, rep) => ReceiveAppendReplyI(n, s, h, c, rep);
    case ClientProposes(i, data) => ClientProposesI(n, s, h, i, data);
    case _ => PoolOnlyStepI(n, s, h, step);
  }

  // ---------------------------------------------------------------- putting it together

  /** The invariant gives one step everything it relies on. */
  lemma LocalFacts(n: nat, s: State, h: History, step: Step)
    requires SafeSize(n) && Inv(n, s, h) && Enabled({Leader}, s, step)
    ensures Local(n, s, h, step)
  {
    var i := Actor(step);
    var nd := s.nodes[i];
    LogFacts(n, s, h, i);
    WinFacts(n, s, h, step);
    if step.ReceiveAppend? && nd.term <= step.append.req.term {
      AppendFacts(n, s, h, step.append);
    }
    ItemFacts(n, s, h, step);
  }

  lemma ItemFacts(n: nat, s: State, h: History, step: Step)
    requires Inv(n, s, h) && Enabled({Leader}, s, step)
    ensures forall x :: Consumes(step, x) ==> ItemE(n, s.nodes, h, x) && ItemL(n, h, x) && ItemC(n, h, x) && ItemI(h, x)
  {
  }

  lemma LogFacts(n: nat, s: State, h: History, i: Id)
    requires InvL(n, s, h) && i < n
    ensures Sorted(s.nodes[i].log) && Bounded(h)
  {
    assert forall t :: t in h.reigns ==> ReignL(s.nodes, h, t, h.reigns[t]) && ReignShape(t, h.reigns[t]);
    WovenSorted(h.reigns, s.nodes[i].log);
    forall t | t in h.reigns
      ensures forall k :: 0 <= k < |h.reigns[t].log| ==> h.reigns[t].log[k].term <= t
    {
      assert ReignShape(t, h.reigns[t]);
    }
  }

  lemma WinFacts(n: nat, s: State, h: History, step: Step)
    requires SafeSize(n) && InvE(n, s, h) && Enabled({Leader}, s, step)
    ensures var nd := s.nodes[Actor(step)];
            nd.role == Candidate && NodeAfter(n, nd, step).role == Leader ==> nd.term !in h.reigns
  {
    var nd := s.nodes[Actor(step)];
    if nd.role == Candidate && NodeAfter(n, nd, step).role == Leader {
      OnlyVoteRepliesWin(n, nd, step);
      LocalFactsE(n, {Leader}, s, h, step);
      assert Consumes(step, VoteAnswer(step.vote, step.voteReply));
      VoteReplyDelta(n, s.nodes, h, step.vote, step.voteReply);
    }
  }

  /** A candidate turns leader only by counting a granted vote of the election it is in. */
  lemma OnlyVoteRepliesWin(n: nat, nd: Node, step: Step)
    requires nd.role == Candidate && NodeAfter(n, nd, step).role == Leader
    ensures step.ReceiveVoteReply? && step.voteReply.granted && nd.term == step.vote.electionTerm
  {
    match step
    case ReceiveAppend(c) =>
      if HandleAppend(nd, c.req).1.success { AcceptShape(nd, c.req); } else { RejectShape(nd, c.req); }
    case ReceiveAppendReply(c, rep) => AppendReplyShape(nd, Peers(n, c.src), c, rep);
    case _ =>
  }

  lemma AppendFacts(n: nat, s: State, h: History, c: AppendCall)
    requires Inv(n, s, h) && AppendRequested(c) in s.pool && c.dst < n && s.nodes[c.dst].term <= c.req.term
    ensures c.req.term in h.reigns && ReignL(s.nodes, h, c.req.term, h.reigns[c.req.term])
    ensures CommitPrefixOf(s.nodes[c.dst], h.reigns[c.req.term].log)
  {
    assert ItemL(n, h, AppendRequested(c));
    FactsHold(n, s, h);
    CommittedInLeader(n, h, s.nodes[c.dst], c.req.term);
  }
}
