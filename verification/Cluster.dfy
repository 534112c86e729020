/** The cluster as a transition system: one step per critical section of src/raft.cpp.
    Threads and messages in flight form a pool that only grows, so any of them may be
    delayed, reordered, lost (never used) or used again. */
module Cluster {
  import opened RaftTypes
  import opened NodeSpec
  import opened Quorums

  datatype Item =
    | CandidacyThread(id: Id)                 // spawned by an expired timer, about to run become_candidate
    | CampaignThread(id: Id)                  // has left the locked part of become_candidate
    | VoteThread(id: Id, electionTerm: nat)   // request_votes(electionTerm) for one peer
    | SendThread(id: Id)                      // send_entries for one peer
    | VoteRequest(vote: VoteCall)
    | VoteAnswer(vote: VoteCall, voteReply: VoteReply)
    | AppendRequested(append: AppendCall)
    | AppendAnswer(append: AppendCall, appendReply: AppendReply)
    | Proposed(id: Id, result: ProposalResult, data: string)

  datatype State = State(nodes: seq<Node>, pool: set<Item>)

  datatype Step =
    | Run(i: Id)
    | TimerExpires(i: Id)
    | Candidacy(i: Id)
    | ReadElectionTerm(i: Id)
    | SendVote(i: Id, peer: Id, electionTerm: nat)
    | ReceiveVote(vote: VoteCall)
    | ReceiveVoteReply(vote: VoteCall, voteReply: VoteReply)
    | SendAppend(i: Id, peer: Id)
    | ReceiveAppend(append: AppendCall)
    | ReceiveAppendReply(append: AppendCall, appendReply: AppendReply)
    | ClientProposes(i: Id, data: string)

  function Initial(n: nat): State {
    State(seq(n, _ => INITIAL), {})
  }

  /** The node whose lock the step holds. */
  function Actor(step: Step): Id {
    match step
    case Run(i) => i
    case TimerExpires(i) => i
    case Candidacy(i) => i
    case ReadElectionTerm(i) => i
    case SendVote(i, _, _) => i
    case ReceiveVote(vote) => vote.dst
    case ReceiveVoteReply(vote, _) => vote.src
    case SendAppend(i, _) => i
    case ReceiveAppend(append) => append.dst
    case ReceiveAppendReply(append, _) => append.src
    case ClientProposes(i, _) => i
  }

  /** Which steps may happen. `senders` lists the roles a node may have when it builds an
      append request: the source checks the role when the thread is spawned and not again. */
  predicate Enabled(senders: set<Role>, s: State, step: Step) {
    && Actor(step) < |s.nodes|
    && match step
       case Run(i) => !s.nodes[i].active
       case TimerExpires(i) => s.nodes[i].active
       case Candidacy(i) => CandidacyThread(i) in s.pool
       case ReadElectionTerm(i) => CampaignThread(i) in s.pool
       case SendVote(i, peer, e) => peer in Peers(|s.nodes|, i) && VoteThread(i, e) in s.pool
       case ReceiveVote(vote) => VoteRequest(vote) in s.pool
       case ReceiveVoteReply(vote, rep) => VoteAnswer(vote, rep) in s.pool
       case SendAppend(i, peer) =>
         peer in Peers(|s.nodes|, i) && SendThread(i) in s.pool && s.nodes[i].role in senders
       case ReceiveAppend(append) => AppendRequested(append) in s.pool
       case ReceiveAppendReply(append, rep) => AppendAnswer(append, rep) in s.pool
       case ClientProposes(_, _) => true
  }

  /** What the step makes of its actor's state, in a cluster of `n` nodes. */
  function NodeAfter(n: nat, nd: Node, step: Step): Node {
    match step
    case Run(i) => Start(nd)
    case Candidacy(i) => BecomeCandidate(nd, i)
    case ReceiveVote(vote) => HandleVote(nd, vote).0
    case ReceiveVoteReply(vote, rep) => HandleVoteReply(nd, Peers(n, vote.src), vote, rep)
    case ReceiveAppend(append) => HandleAppend(nd, append.req).0
    case ReceiveAppendReply(append, rep) => HandleAppendReply(nd, Peers(n, append.src), append, rep)
    case ClientProposes(i, data) => Propose(nd, data).0
    case _ => nd
  }

  /** The threads and messages the step adds to the pool. */
  function NewItems(nd: Node, step: Step): set<Item> {
    match step
    case Run(i) => {}
    case TimerExpires(i) => {if nd.role == Leader then SendThread(i) else CandidacyThread(i)}
    case Candidacy(i) => {CampaignThread(i)}
    case ReadElectionTerm(i) => {VoteThread(i, nd.term)}
    case SendVote(i, peer, e) => {VoteRequest(MakeVoteCall(nd, i, peer, e))}
    case ReceiveVote(vote) => {VoteAnswer(vote, HandleVote(nd, vote).1)}
    case ReceiveVoteReply(vote, rep) => {}
    case SendAppend(i, peer) => {AppendRequested(MakeAppendCall(nd, i, peer))}
    case ReceiveAppend(append) => {AppendAnswer(append, HandleAppend(nd, append.req).1)}
    case ReceiveAppendReply(append, rep) => {}
    case ClientProposes(i, data) =>
      if nd.role == Leader then {Proposed(i, Propose(nd, data).1, data)} else {}
  }

  function Update(s: State, i: Id, nd: Node, items: set<Item>): State
    requires i < |s.nodes|
  {
    State(s.nodes[i := nd], s.pool + items)
  }

  function Perform(s: State, step: Step): State
    requires Actor(step) < |s.nodes|
  {
    var nd := s.nodes[Actor(step)];
    Update(s, Actor(step), NodeAfter(|s.nodes|, nd, step), NewItems(nd, step))
  }

  /** The state after a sequence of steps, None when some step was not enabled. */
  function Execute(n: nat, senders: set<Role>, steps: seq<Step>): (r: Option<State>)
    ensures r.Some? ==> |r.value.nodes| == n
  {
    if steps == [] then Some(Initial(n)) else
      var before := Execute(n, senders, steps[..|steps| - 1]);
      var step := steps[|steps| - 1];
      if before.Some? && Enabled(senders, before.value, step)
      then Some(Perform(before.value, step))
      else None
  }

  /** `steps` is a run of a cluster of `n` nodes. */
  predicate IsRun(n: nat, senders: set<Role>, steps: seq<Step>) {
    Execute(n, senders, steps).Some?
  }

  function After(n: nat, senders: set<Role>, steps: seq<Step>): State
    requires IsRun(n, senders, steps)
  {
    Execute(n, senders, steps).value
  }

  lemma {:induction false} PrefixIsRun(n: nat, senders: set<Role>, steps: seq<Step>, k: nat)
    requires IsRun(n, senders, steps) && k <= |steps|
    ensures IsRun(n, senders, steps[..k])
  {
    if k == |steps| {
      assert steps[..k] == steps;
    } else {
      PrefixIsRun(n, senders, steps[..|steps| - 1], k);
      assert steps[..|steps| - 1][..k] == steps[..k];
    }
  }
}
