/** Votes are counted only for the right term and the right log. */
module Votes {
  import opened RaftTypes
  import opened LogOps
  import opened NodeSpec
  import opened Cluster
  import opened Quorums
  import opened History
  import opened Elections
  import opened Reachability

  /** `v` granted a request of `i` that carried exactly term `term` and this last entry. */
  ghost predicate Granted(pool: set<Item>, i: Id, v: Id, term: nat, lastTerm: nat, lastIndex: nat) {
    exists c, rep :: VoteAnswer(c, rep) in pool && rep.granted
      && c.src == i && c.dst == v && c.term == term && c.lastTerm == lastTerm && c.lastIndex == lastIndex
  }

  ghost predicate Vouched(s: State, i: Id)
    requires i < |s.nodes|
  {
    var nd := s.nodes[i];
    nd.role == Candidate ==>
      forall v :: v in nd.votes && v != i ==> Granted(s.pool, i, v, nd.term, LastTerm(nd.log), |nd.log|)
  }

  lemma NextVouched(n: nat, senders: set<Role>, s: State, h: History, step: Step, i: Id)
    requires SafeSize(n) && InvE(n, s, h) && Enabled(senders, s, step) && i < n && Vouched(s, i)
    ensures Vouched(Perform(s, step), i)
  {
    if Actor(step) != i {
      BystanderVouched(s, Perform(s, step), i);
    } else if !step.Candidacy? && NodeAfter(n, s.nodes[i], step).role == Candidate {
      CandidateKeeps(n, s.nodes[i], step);
      if step.ReceiveVoteReply? { assert ItemE(n, s.nodes, h, VoteAnswer(step.vote, step.voteReply)); }
      CandidateVouched(n, s, Perform(s, step), step);
    }
  }

  lemma BystanderVouched(s: State, s': State, i: Id)
    requires i < |s.nodes| == |s'.nodes| && s'.nodes[i] == s.nodes[i] && s.pool <= s'.pool && Vouched(s, i)
    ensures Vouched(s', i)
  {
    if s.nodes[i].role == Candidate {
      var nd := s.nodes[i];
      forall v | v in nd.votes && v != i ensures Granted(s'.pool, i, v, nd.term, LastTerm(nd.log), |nd.log|) {
        assert Granted(s.pool, i, v, nd.term, LastTerm(nd.log), |nd.log|);
      }
    }
  }

  /** `nd` became `nd'` by counting at most the vote this step brought. */
  ghost predicate CountsOnly(nd: Node, nd': Node, step: Step) {
    && nd.role == Candidate && nd'.term == nd.term && nd'.log == nd.log
    && (nd'.votes == nd.votes ||
        (step.ReceiveVoteReply? && step.voteReply.granted && step.vote.electionTerm == nd.term
         && nd'.votes == nd.votes + {step.vote.dst}))
  }

  lemma CandidateVouched(n: nat, s: State, s': State, step: Step)
    requires var i := Actor(step); i < n == |s.nodes| == |s'.nodes| && CountsOnly(s.nodes[i], s'.nodes[i], step)
    requires s.pool <= s'.pool && Vouched(s, Actor(step))
    requires step.ReceiveVoteReply? ==>
               && VoteAnswer(step.vote, step.voteReply) in s.pool && CallE(n, s.nodes, step.vote)
               && (step.voteReply.granted ==> step.voteReply.term == step.vote.term)
    ensures Vouched(s', Actor(step))
  {
    var i := Actor(step);
    var nd := s.nodes[i];
    forall v | v in s'.nodes[i].votes && v != i
      ensures Granted(s'.pool, i, v, nd.term, LastTerm(nd.log), |nd.log|)
    {
      if v in nd.votes {
        assert Granted(s.pool, i, v, nd.term, LastTerm(nd.log), |nd.log|);
      } else {
        assert VoteAnswer(step.vote, step.voteReply) in s'.pool;
      }
    }
  }

  /** A node that is a candidate after a step other than a new candidacy was one before, in the
      same term and with the same log; only counting a granted vote of this election adds a vote. */
  lemma CandidateKeeps(n: nat, nd: Node, step: Step)
    requires NodeAfter(n, nd, step).role == Candidate && !step.Candidacy?
    ensures CountsOnly(nd, NodeAfter(n, nd, step), step)
  {
    match step
    case ReceiveVote(vote) => VoteLeavesCandidate(nd, vote);
    case ReceiveVoteReply(vote, rep) => ReplyCountsOnly(nd, Peers(n, vote.src), vote, rep);
    case ReceiveAppend(c) => AppendIsQuiet(nd, c.req);
    case ReceiveAppendReply(c, rep) => AppendReplyIsQuiet(nd, Peers(n, c.src), c, rep);
    case _ =>
  }

  lemma VoteLeavesCandidate(nd: Node, vote: VoteCall)
    requires HandleVote(nd, vote).0.role == Candidate
    ensures HandleVote(nd, vote).0 == nd
  {
  }

  lemma ReplyCountsOnly(nd: Node, peers: set<Id>, vote: VoteCall, rep: VoteReply)
    requires HandleVoteReply(nd, peers, vote, rep).role == Candidate
    ensures CountsOnly(nd, HandleVoteReply(nd, peers, vote, rep), ReceiveVoteReply(vote, rep))
  {
  }

  lemma {:induction false} ReachableVouched(n: nat, senders: set<Role>, steps: seq<Step>, i: Id)
    requires SafeSize(n) && IsRun(n, senders, steps) && i < n
    ensures Vouched(After(n, senders, steps), i)
  {
    if steps != [] {
      var before := steps[..|steps| - 1];
      ReachableVouched(n, senders, before, i);
      ReachableE(n, senders, before);
      NextVouched(n, senders, After(n, senders, before), HistoryOf(n, senders, before), steps[|steps| - 1], i);
    }
  }

  /** Every peer in a candidate's vote set granted a request that carried the candidate's current
      term and its still-current last entry, reached that term, and voted for nobody else in it. */
  lemma VotesCountedRight(n: nat, senders: set<Role>, steps: seq<Step>, i: Id, v: Id)
    requires SafeSize(n) && IsRun(n, senders, steps) && i < n
    requires var nd := After(n, senders, steps).nodes[i]; nd.role == Candidate && v in nd.votes && v != i
    ensures v < n
    ensures var s := After(n, senders, steps); var nd := s.nodes[i];
            && Granted(s.pool, i, v, nd.term, LastTerm(nd.log), |nd.log|)
            && nd.term <= s.nodes[v].term
            && (s.nodes[v].term == nd.term ==> s.nodes[v].votedFor == i)
  {
    ReachableVouched(n, senders, steps, i);
    ReachableE(n, senders, steps);
    var s := After(n, senders, steps);
    var h := HistoryOf(n, senders, steps);
    var nd := s.nodes[i];
    assert NodeE(n, h, i, nd) && VotedFor(h, nd.term, v, i);
    assert GrantE(n, s.nodes, h, Ballot(nd.term, v), h.grants[Ballot(nd.term, v)]) && NodeE(n, h, v, s.nodes[v]);
  }
}
