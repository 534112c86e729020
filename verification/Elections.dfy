/** The invariant behind Election Safety, and that every step keeps it. */
module Elections {
  import opened RaftTypes
  import opened LogOps
  import opened NodeSpec
  import opened Cluster
  import opened Quorums
  import opened History

  /** `c` voted for `cand` in term `t`. */
  ghost predicate VotedFor(h: History, t: nat, voter: Id, cand: Id) {
    Ballot(t, voter) in h.grants && h.grants[Ballot(t, voter)].candidate == cand
  }

  ghost predicate NodeE(n: nat, h: History, i: Id, nd: Node) {
    && (nd.votedFor == -1 ==> Ballot(nd.term, i) !in h.grants)
    && (nd.votedFor != -1 ==> 0 <= nd.votedFor && VotedFor(h, nd.term, i, nd.votedFor))
    && (nd.role != Follower ==> nd.active && nd.votedFor == i && nd.term >= 1)
    && (nd.role == Candidate ==> i in nd.votes && forall v :: v in nd.votes ==> v < n && VotedFor(h, nd.term, v, i))
    && (nd.role == Leader ==>
          nd.term in h.reigns && h.reigns[nd.term].leader == i && h.reigns[nd.term].log == nd.log)
  }

  ghost predicate GrantE(n: nat, nodes: seq<Node>, h: History, b: Ballot, g: Grant) {
    && b.voter < n == |nodes| && g.candidate < n
    && b.term <= nodes[b.voter].term && b.term <= nodes[g.candidate].term
    && UpToDate(g.lastTerm, g.lastIndex, LastTerm(g.log), |g.log|)
    && (b.term !in h.reigns ==> g.early)
    && (nodes[g.candidate].term == b.term && nodes[g.candidate].role == Candidate ==>
          g.lastTerm == LastTerm(nodes[g.candidate].log) && g.lastIndex == |nodes[g.candidate].log|)
  }

  /** A voter of an elected leader: its vote went to that leader before the term had one, and
      the leader's log was at least as up-to-date as the voter's. */
  ghost predicate VoterE(h: History, t: nat, leader: Id, base: seq<Entry>, v: Id) {
    && VotedFor(h, t, v, leader)
    && var g := h.grants[Ballot(t, v)];
       g.early && UpToDate(LastTerm(base), |base|, LastTerm(g.log), |g.log|)
  }

  ghost predicate ReignE(n: nat, nodes: seq<Node>, h: History, t: nat, r: Reign) {
    && r.leader < n == |nodes| && 1 <= t <= nodes[r.leader].term
    && (t == nodes[r.leader].term ==> nodes[r.leader].role != Candidate)
    && Winning(n, r.voters)
    && forall v :: v in r.voters ==> VoterE(h, t, r.leader, r.base, v)
  }

  ghost predicate ItemE(n: nat, nodes: seq<Node>, h: History, x: Item) {
    && |nodes| == n
    && match x
       case CandidacyThread(i) => i < n && nodes[i].active
       case VoteThread(i, e) => i < n && e <= nodes[i].term
       case VoteRequest(c) => CallE(n, nodes, c)
       case VoteAnswer(c, rep) =>
         CallE(n, nodes, c) && (rep.granted ==> rep.term == c.term && VotedFor(h, c.term, c.dst, c.src))
       case _ => true
  }

  ghost predicate CallE(n: nat, nodes: seq<Node>, c: VoteCall) {
    && c.src < n == |nodes| && c.dst < n && c.src != c.dst
    && c.electionTerm <= c.term <= nodes[c.src].term
    && (nodes[c.src].term == c.term && nodes[c.src].role == Candidate ==>
          c.lastTerm == LastTerm(nodes[c.src].log) && c.lastIndex == |nodes[c.src].log|)
  }

  ghost predicate InvE(n: nat, s: State, h: History) {
    && |s.nodes| == n
    && (forall i :: 0 <= i < n ==> NodeE(n, h, i, s.nodes[i]))
    && (forall b :: b in h.grants ==> GrantE(n, s.nodes, h, b, h.grants[b]))
    && (forall t :: t in h.reigns ==> ReignE(n, s.nodes, h, t, h.reigns[t]))
    && (forall x :: x in s.pool ==> ItemE(n, s.nodes, h, x))
  }

  /** What every step guarantees about nodes and history: terms only grow, a node that is a
      candidate was one since it entered its term and kept its log, and the history only grows. */
  ghost predicate NodeEvolves(nd: Node, nd': Node) {
    && nd.term <= nd'.term && (nd.active ==> nd'.active)
    && (nd.term == nd'.term && nd'.role == Candidate ==> nd.role == Candidate && nd'.log == nd.log)
  }

  ghost predicate ReignEvolves(t: nat, r: Reign, r': Reign) {
    && r'.leader == r.leader && r'.voters == r.voters && r'.base == r.base
    && r.log <= r'.log
    && forall k :: |r.log| <= k < |r'.log| ==> r'.log[k].term == t
  }

  ghost predicate HistoryEvolves(h: History, h': History) {
    && (forall t :: t in h.reigns ==> t in h'.reigns && ReignEvolves(t, h.reigns[t], h'.reigns[t]))
    && (forall b :: b in h.grants ==> b in h'.grants && h'.grants[b] == h.grants[b])
    && (forall b :: b in h.acks ==> b in h'.acks && h'.acks[b] >= h.acks[b])
  }

  ghost predicate Evolves(s: State, h: History, s': State, h': History) {
    && |s'.nodes| == |s.nodes|
    && (forall i :: 0 <= i < |s.nodes| ==> NodeEvolves(s.nodes[i], s'.nodes[i]))
    && HistoryEvolves(h, h')
  }

  /** What one step must show: the actor's new state and everything new obey the invariant. */
  ghost predicate DeltaE(n: nat, nodes: seq<Node>, h: History, i: Id, nd': Node, items: set<Item>, h': History) {
    && i < n == |nodes|
    && NodeEvolves(nodes[i], nd') && HistoryEvolves(h, h')
    && NodeE(n, h', i, nd')
    && (forall b :: b in h'.grants && b !in h.grants ==>
          b == Ballot(nd'.term, i) && GrantE(n, nodes[i := nd'], h', b, h'.grants[b]))
    && (forall t :: t in h'.reigns && t !in h.reigns ==> ReignE(n, nodes[i := nd'], h', t, h'.reigns[t]))
    && (forall x :: x in items ==> ItemE(n, nodes[i := nd'], h', x))
    && OnlyOwnReignGrows(h, h', i)
  }

  /** A node extends no reign but its own. */
  ghost predicate OnlyOwnReignGrows(h: History, h': History, i: Id) {
    forall t :: t in h.reigns && t in h'.reigns && h.reigns[t].leader != i ==> h'.reigns[t].log == h.reigns[t].log
  }

  // ---------------------------------------------------------------- framing

  lemma StableE(n: nat, s: State, h: History, s': State, h': History)
    requires InvE(n, s, h) && Evolves(s, h, s', h')
    ensures forall x :: x in s.pool ==> ItemE(n, s'.nodes, h', x)
    ensures forall b :: b in h.grants ==> GrantE(n, s'.nodes, h', b, h'.grants[b])
    ensures forall t :: t in h.reigns ==> ReignE(n, s'.nodes, h', t, h'.reigns[t])
  {
    forall t | t in h.reigns ensures ReignE(n, s'.nodes, h', t, h'.reigns[t]) {
      assert ReignE(n, s.nodes, h, t, h.reigns[t]) && ReignEvolves(t, h.reigns[t], h'.reigns[t]);
      forall v | v in h.reigns[t].voters ensures VoterE(h', t, h.reigns[t].leader, h.reigns[t].base, v) {
        assert VoterE(h, t, h.reigns[t].leader, h.reigns[t].base, v);
      }
    }
    forall x | x in s.pool ensures ItemE(n, s'.nodes, h', x) {
      assert ItemE(n, s.nodes, h, x);
    }
  }

  /** A node other than the actor, whose state did not change. */
  lemma BystanderE(n: nat, h: History, h': History, i: Id, t: nat, j: Id, nd: Node)
    requires j != i && NodeE(n, h, j, nd) && HistoryEvolves(h, h') && OnlyOwnReignGrows(h, h', i)
    requires forall b :: b in h'.grants && b !in h.grants ==> b == Ballot(t, i)
    ensures NodeE(n, h', j, nd)
  {
  }

  lemma KeepE(n: nat, s: State, h: History, i: Id, nd': Node, items: set<Item>, h': History)
    requires InvE(n, s, h) && DeltaE(n, s.nodes, h, i, nd', items, h')
    ensures InvE(n, Update(s, i, nd', items), h')
    ensures Evolves(s, h, Update(s, i, nd', items), h')
  {
    var s' := Update(s, i, nd', items);
    StableE(n, s, h, s', h');
    forall j | 0 <= j < n ensures NodeE(n, h', j, s'.nodes[j]) {
      if j != i { BystanderE(n, h, h', i, nd'.term, j, s.nodes[j]); }
    }
  }

  /** No ballot names a term its voter has not reached. */
  lemma NoFutureBallot(n: nat, s: State, h: History, t: nat, i: Id)
    requires InvE(n, s, h) && i < n && t > s.nodes[i].term
    ensures Ballot(t, i) !in h.grants
  {
    assert forall b :: b in h.grants ==> GrantE(n, s.nodes, h, b, h.grants[b]) && b.term <= s.nodes[b.voter].term;
  }

  // ---------------------------------------------------------------- steps

  /** A node that keeps its term, vote and counted votes and whose role stays or falls back to
      follower, or that adopts a higher term as a follower without a vote. */
  ghost predicate QuietNode(nd: Node, nd': Node) {
    && (nd.active ==> nd'.active)
    && (
    || (&& nd'.term == nd.term && nd'.votedFor == nd.votedFor && nd'.votes == nd.votes
        && (nd'.role == nd.role || nd'.role == Follower)
        && (nd'.role == Candidate ==> nd'.log == nd.log))
    || (nd'.term > nd.term && nd'.votedFor == -1 && nd'.role == Follower))
  }

  lemma QuietDelta(n: nat, nodes: seq<Node>, h: History, h': History, i: Id, nd': Node, items: set<Item>)
    requires i < n == |nodes| && NodeE(n, h, i, nodes[i]) && QuietNode(nodes[i], nd')
    requires nd'.term > nodes[i].term ==> Ballot(nd'.term, i) !in h.grants
    requires HistoryEvolves(h, h') && h'.grants == h.grants && h'.reigns == h.reigns
    requires nd'.role == Leader ==> nd'.log == nodes[i].log
    requires forall x :: x in items ==> ItemE(n, nodes[i := nd'], h', x)
    ensures DeltaE(n, nodes, h, i, nd', items, h')
  {
  }

  lemma CandidacyDelta(n: nat, nodes: seq<Node>, h: History, i: Id)
    requires i < n == |nodes| && nodes[i].active && Ballot(nodes[i].term + 1, i) !in h.grants
    ensures var nd' := BecomeCandidate(nodes[i], i);
            DeltaE(n, nodes, h, i, nd', {CampaignThread(i)}, Record(h, Candidacy(i), nodes[i], nd'))
  {
  }

  /** Granting a vote, after any higher term was adopted. */
  lemma GrantDelta(n: nat, nodes: seq<Node>, h: History, vote: VoteCall)
    requires CallE(n, nodes, vote) && NodeE(n, h, vote.dst, nodes[vote.dst])
    requires vote.term > nodes[vote.dst].term ==> Ballot(vote.term, vote.dst) !in h.grants
    requires var nd := nodes[vote.dst]; nd.term <= vote.term && Grants(Adopt(nd, vote.term), vote)
    ensures var nd := nodes[vote.dst];
            var nd' := Adopt(nd, vote.term).(votedFor := vote.src, role := Follower);
            DeltaE(n, nodes, h, vote.dst, nd', {VoteAnswer(vote, VoteReply(vote.term, true))},
                   RecordGrant(h, vote.term, vote.dst, vote.src, vote.lastTerm, vote.lastIndex, nd.log))
  {
    var nd := nodes[vote.dst];
    var nd' := Adopt(nd, vote.term).(votedFor := vote.src, role := Follower);
    if Ballot(vote.term, vote.dst) in h.grants {
      RegrantDelta(n, nodes, h, vote, nd');
    } else {
      NewGrantDelta(n, nodes, h, vote, nd');
    }
  }

  /** What a voter looks like after granting. */
  ghost predicate HasGranted(nd: Node, nd': Node, vote: VoteCall) {
    && nd'.active == nd.active && nd.term <= nd'.term == vote.term && nd'.votedFor == vote.src && nd'.role == Follower
    && nd'.log == nd.log
  }

  lemma RegrantDelta(n: nat, nodes: seq<Node>, h: History, vote: VoteCall, nd': Node)
    requires CallE(n, nodes, vote) && HasGranted(nodes[vote.dst], nd', vote)
    requires VotedFor(h, vote.term, vote.dst, vote.src)
    ensures DeltaE(n, nodes, h, vote.dst, nd', {VoteAnswer(vote, VoteReply(vote.term, true))}, h)
  {
    assert CallE(n, nodes[vote.dst := nd'], vote);
  }

  lemma NewGrantDelta(n: nat, nodes: seq<Node>, h: History, vote: VoteCall, nd': Node)
    requires CallE(n, nodes, vote) && HasGranted(nodes[vote.dst], nd', vote)
    requires Ballot(vote.term, vote.dst) !in h.grants
    requires UpToDate(vote.lastTerm, vote.lastIndex, LastTerm(nd'.log), |nd'.log|)
    ensures DeltaE(n, nodes, h, vote.dst, nd', {VoteAnswer(vote, VoteReply(vote.term, true))},
                   RecordGrant(h, vote.term, vote.dst, vote.src, vote.lastTerm, vote.lastIndex, nd'.log))
  {
    assert CallE(n, nodes[vote.dst := nd'], vote);
  }

  /** A candidate about to win is the first winner of its term. */
  lemma FirstWinner(n: nat, s: State, h: History, i: Id, votes: set<Id>)
    requires SafeSize(n) && InvE(n, s, h) && i < n && s.nodes[i].role == Candidate
    requires Winning(n, votes) && forall v :: v in votes ==> VotedFor(h, s.nodes[i].term, v, i)
    ensures s.nodes[i].term !in h.reigns
  {
    var t := s.nodes[i].term;
    if t in h.reigns {
      assert ReignE(n, s.nodes, h, t, h.reigns[t]);
      var v := WinnersMeet(n, votes, h.reigns[t].voters);
      assert false;
    }
  }

  /** The votes of a candidate: each went to it, in its term, before that term had a leader, by
      a node whose log was no more up-to-date than the candidate's present log. */
  lemma CountedVotes(n: nat, s: State, h: History, i: Id, v: Id)
    requires InvE(n, s, h) && i < n && s.nodes[i].role == Candidate && VotedFor(h, s.nodes[i].term, v, i)
    requires s.nodes[i].term !in h.reigns
    ensures VoterE(h, s.nodes[i].term, i, s.nodes[i].log, v)
  {
    var b := Ballot(s.nodes[i].term, v);
    assert GrantE(n, s.nodes, h, b, h.grants[b]);
  }

  lemma CountDelta(n: nat, nodes: seq<Node>, h: History, i: Id, v: Id)
    requires i < n == |nodes| && NodeE(n, h, i, nodes[i]) && nodes[i].role == Candidate
    requires v < n && VotedFor(h, nodes[i].term, v, i)
    ensures DeltaE(n, nodes, h, i, nodes[i].(votes := nodes[i].votes + {v}), {}, h)
  {
  }

  lemma WinDelta(n: nat, nodes: seq<Node>, h: History, i: Id, votes: set<Id>, nd': Node)
    requires i < n == |nodes| && NodeE(n, h, i, nodes[i]) && nodes[i].role == Candidate
    requires nodes[i].term !in h.reigns && Winning(n, votes)
    requires forall v :: v in votes ==> VoterE(h, nodes[i].term, i, nodes[i].log, v)
    requires nd'.role == Leader && nd'.active == nodes[i].active && nd'.term == nodes[i].term
    requires nd'.votedFor == nodes[i].votedFor && nd'.log == nodes[i].log
    ensures DeltaE(n, nodes, h, i, nd', {}, h.(reigns := h.reigns[nd'.term := Reign(i, votes, nd'.log, nd'.log)]))
  {
    var nd := nodes[i];
    var r := Reign(i, votes, nd.log, nd.log);
    var h' := h.(reigns := h.reigns[nd.term := r]);
    forall v | v in votes ensures VoterE(h', nd.term, i, nd.log, v) {
      assert VoterE(h, nd.term, i, nd.log, v);
    }
    assert ReignE(n, nodes[i := nd'], h', nd.term, r);
  }

  /** What the invariant says about a candidate counting the votes it has. */
  ghost predicate CountE(n: nat, h: History, i: Id, nd: Node) {
    forall votes :: Winning(n, votes) && (forall v :: v in votes ==> VotedFor(h, nd.term, v, i)) ==>
      nd.term !in h.reigns && forall v :: v in votes ==> VoterE(h, nd.term, i, nd.log, v)
  }

  lemma CountFacts(n: nat, s: State, h: History, i: Id)
    requires SafeSize(n) && InvE(n, s, h) && i < n && s.nodes[i].role == Candidate
    ensures CountE(n, h, i, s.nodes[i])
  {
    var t := s.nodes[i].term;
    forall votes | Winning(n, votes) && forall v :: v in votes ==> VotedFor(h, t, v, i)
      ensures t !in h.reigns && forall v :: v in votes ==> VoterE(h, t, i, s.nodes[i].log, v)
    {
      FirstWinner(n, s, h, i, votes);
      forall v | v in votes ensures VoterE(h, t, i, s.nodes[i].log, v) { CountedVotes(n, s, h, i, v); }
    }
  }

  lemma VoteReplyDelta(n: nat, nodes: seq<Node>, h: History, vote: VoteCall, rep: VoteReply)
    requires vote.src < n == |nodes| && NodeE(n, h, vote.src, nodes[vote.src])
    requires ItemE(n, nodes, h, VoteAnswer(vote, rep))
    requires var nd := nodes[vote.src];
             rep.granted && nd.term == vote.electionTerm && nd.role == Candidate && CountE(n, h, vote.src, nd)
    ensures var nd := nodes[vote.src];
            var nd' := HandleVoteReply(nd, Peers(n, vote.src), vote, rep);
            && DeltaE(n, nodes, h, vote.src, nd', {}, Record(h, ReceiveVoteReply(vote, rep), nd, nd'))
            && (nd'.role == Leader ==> nd.term !in h.reigns)
  {
    var i := vote.src;
    var nd := nodes[i];
    var votes := nd.votes + {vote.dst};
    assert VotedFor(h, nd.term, vote.dst, i);
    var nd' := HandleVoteReply(nd, Peers(n, i), vote, rep);
    var h' := Record(h, ReceiveVoteReply(vote, rep), nd, nd');
    if VoteTest(votes, Peers(n, i)) {
      VotesWin(n, h, i, nd, vote.dst);
      assert nd'.votes == votes && h' == h.(reigns := h.reigns[nd'.term := Reign(i, votes, nd'.log, nd'.log)]);
      WinDelta(n, nodes, h, i, votes, nd');
    } else {
      CountDelta(n, nodes, h, i, vote.dst);
    }
  }

  /** A candidate that passes the vote test with a vote from a peer has a winning set. */
  lemma VotesWin(n: nat, h: History, i: Id, nd: Node, v: Id)
    requires i < n && NodeE(n, h, i, nd) && nd.role == Candidate && CountE(n, h, i, nd)
    requires v < n && v != i && VotedFor(h, nd.term, v, i) && VoteTest(nd.votes + {v}, Peers(n, i))
    ensures Winning(n, nd.votes + {v}) && nd.term !in h.reigns
    ensures forall u :: u in nd.votes + {v} ==> VoterE(h, nd.term, i, nd.log, u)
  {
    var votes := nd.votes + {v};
    SubsetSize({i, v}, votes);
    assert |votes| >= 2;
    assert Winning(n, votes);
    assert forall u :: u in votes ==> VotedFor(h, nd.term, u, i);
  }

  /** The item a step takes from the pool, if any. */
  ghost predicate Consumes(step: Step, x: Item) {
    match step
    case Candidacy(i) => x == CandidacyThread(i)
    case SendVote(i, _, e) => x == VoteThread(i, e)
    case ReceiveVote(vote) => x == VoteRequest(vote)
    case ReceiveVoteReply(vote, rep) => x == VoteAnswer(vote, rep)
    case ReceiveAppend(append) => x == AppendRequested(append)
    case ReceiveAppendReply(append, rep) => x == AppendAnswer(append, rep)
    case _ => false
  }

  /** The instances of the invariant that one step relies on. */
  ghost predicate LocalE(n: nat, senders: set<Role>, s: State, h: History, step: Step) {
    var i := Actor(step);
    && i < n == |s.nodes| && Enabled(senders, s, step)
    && NodeE(n, h, i, s.nodes[i])
    && (forall t :: t > s.nodes[i].term ==> Ballot(t, i) !in h.grants)
    && (forall x :: Consumes(step, x) ==> ItemE(n, s.nodes, h, x))
    && (s.nodes[i].role == Candidate ==> CountE(n, h, i, s.nodes[i]))
  }

  lemma LocalFactsE(n: nat, senders: set<Role>, s: State, h: History, step: Step)
    requires SafeSize(n) && InvE(n, s, h) && Enabled(senders, s, step)
    ensures LocalE(n, senders, s, h, step)
  {
    var i := Actor(step);
    forall t | t > s.nodes[i].term ensures Ballot(t, i) !in h.grants { NoFutureBallot(n, s, h, t, i); }
    if s.nodes[i].role == Candidate { CountFacts(n, s, h, i); }
  }

  lemma ProposeDelta(n: nat, nodes: seq<Node>, h: History, i: Id, data: string)
    requires i < n == |nodes| && NodeE(n, h, i, nodes[i])
    ensures var nd := nodes[i]; var nd' := Propose(nd, data).0; var step := ClientProposes(i, data);
            DeltaE(n, nodes, h, i, nd', NewItems(nd, step), Record(h, step, nd, nd'))
  {
  }

  lemma ReceiveVoteDelta(n: nat, senders: set<Role>, s: State, h: History, vote: VoteCall)
    requires LocalE(n, senders, s, h, ReceiveVote(vote))
    ensures var nd := s.nodes[vote.dst]; var (nd', rep) := HandleVote(nd, vote);
            DeltaE(n, s.nodes, h, vote.dst, nd', {VoteAnswer(vote, rep)}, Record(h, ReceiveVote(vote), nd, nd'))
  {
    assert ItemE(n, s.nodes, h, VoteRequest(vote)) by { assert Consumes(ReceiveVote(vote), VoteRequest(vote)); }
    var nd := s.nodes[vote.dst];
    var (nd', rep) := HandleVote(nd, vote);
    if rep.granted {
      GrantDelta(n, s.nodes, h, vote);
    } else {
      QuietDelta(n, s.nodes, h, h, vote.dst, nd', {VoteAnswer(vote, rep)});
    }
  }

  lemma AppendIsQuiet(nd: Node, req: AppendRequest)
    ensures QuietNode(nd, HandleAppend(nd, req).0)
    ensures HandleAppend(nd, req).0.role == Leader ==> HandleAppend(nd, req).0.log == nd.log
  {
    if HandleAppend(nd, req).1.success { AcceptShape(nd, req); } else { RejectShape(nd, req); }
  }

  lemma AppendReplyIsQuiet(nd: Node, peers: set<Id>, call: AppendCall, rep: AppendReply)
    ensures var nd' := HandleAppendReply(nd, peers, call, rep); QuietNode(nd, nd') && nd'.log == nd.log
  {
  }

  lemma AppendDelta(n: nat, senders: set<Role>, s: State, h: History, append: AppendCall)
    requires LocalE(n, senders, s, h, ReceiveAppend(append))
    ensures var nd := s.nodes[append.dst]; var answer := HandleAppend(nd, append.req);
            DeltaE(n, s.nodes, h, append.dst, answer.0, {AppendAnswer(append, answer.1)},
                   Record(h, ReceiveAppend(append), nd, answer.0))
  {
    var nd := s.nodes[append.dst];
    var answer := HandleAppend(nd, append.req);
    AppendIsQuiet(nd, append.req);
    var h' := Record(h, ReceiveAppend(append), nd, answer.0);
    assert h'.grants == h.grants && h'.reigns == h.reigns && HistoryEvolves(h, h');
    QuietDelta(n, s.nodes, h, h', append.dst, answer.0, {AppendAnswer(append, answer.1)});
  }

  lemma QuietStep(n: nat, senders: set<Role>, s: State, h: History, step: Step)
    requires LocalE(n, senders, s, h, step)
    requires step.Run? || step.TimerExpires? || step.ReadElectionTerm? || step.SendVote? || step.SendAppend?
    ensures var nd := s.nodes[Actor(step)]; var nd' := NodeAfter(n, nd, step);
            DeltaE(n, s.nodes, h, Actor(step), nd', NewItems(nd, step), Record(h, step, nd, nd'))
  {
    var i := Actor(step);
    var nd := s.nodes[i];
    var nd' := NodeAfter(n, nd, step);
    if step.SendVote? { assert Consumes(step, VoteThread(i, step.electionTerm)); }
    QuietDelta(n, s.nodes, h, Record(h, step, nd, nd'), i, nd', NewItems(nd, step));
  }

  lemma AppendReplyDelta(n: nat, nodes: seq<Node>, h: History, append: AppendCall, rep: AppendReply)
    requires append.src < n == |nodes| && NodeE(n, h, append.src, nodes[append.src])
    requires forall t :: t > nodes[append.src].term ==> Ballot(t, append.src) !in h.grants
    ensures DeltaE(n, nodes, h, append.src, HandleAppendReply(nodes[append.src], Peers(n, append.src), append, rep), {}, h)
  {
    var nd, peers := nodes[append.src], Peers(n, append.src);
    AppendReplyIsQuiet(nd, peers, append, rep);
    QuietDelta(n, nodes, h, h, append.src, HandleAppendReply(nd, peers, append, rep), {});
  }

  /** Every step keeps the election invariant. */
  lemma StepE(n: nat, senders: set<Role>, s: State, h: History, step: Step)
    requires LocalE(n, senders, s, h, step)
    ensures var nd := s.nodes[Actor(step)]; var nd' := NodeAfter(n, nd, step);
            DeltaE(n, s.nodes, h, Actor(step), nd', NewItems(nd, step), Record(h, step, nd, nd'))
  {
    var i := Actor(step);
    var nd := s.nodes[i];
    match step
    case Candidacy(_) =>
      assert Consumes(step, CandidacyThread(i));
      CandidacyDelta(n, s.nodes, h, i);
    case ReceiveVote(vote) => ReceiveVoteDelta(n, senders, s, h, vote);
    case ReceiveVoteReply(vote, rep) =>
      assert Consumes(step, VoteAnswer(vote, rep));
      if rep.granted && nd.term == vote.electionTerm && nd.role == Candidate {
        VoteReplyDelta(n, s.nodes, h, vote, rep);
      } else {
        QuietDelta(n, s.nodes, h, h, i, NodeAfter(n, nd, step), {});
      }
    case ReceiveAppend(append) => AppendDelta(n, senders, s, h, append);
    case ReceiveAppendReply(append, rep) => AppendReplyDelta(n, s.nodes, h, append, rep);
    case ClientProposes(_, data) => ProposeDelta(n, s.nodes, h, i, data);
    case _ => QuietStep(n, senders, s, h, step);
  }
}
