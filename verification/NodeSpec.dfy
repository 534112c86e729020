/** The critical sections of class Raft as functions from one node state to the next.
    Log reads outside the log yield term 0 here; Indices.dfy proves that no reachable
    state performs one. */
module NodeSpec {
  import opened RaftTypes
  import opened LogOps

  /** State after the constructor. */
  const INITIAL := Node(false, 0, -1, [], 0, 0, Follower, {}, map[], map[], map[], [])

  /** run(): the node starts answering. */
  function Start(nd: Node): Node {
    nd.(active := true, role := Follower)
  }

  /** Adopting a higher term: the vote is cleared and the node becomes a follower. */
  function StepDown(nd: Node, term: nat): Node {
    nd.(term := term, votedFor := -1, role := Follower)
  }

  // ---------------------------------------------------------------- elections

  function BecomeCandidate(nd: Node, id: Id): Node {
    nd.(role := Candidate, term := nd.term + 1, votedFor := id, votes := {id})
  }

  function MakeVoteCall(nd: Node, id: Id, peer: Id, electionTerm: nat): VoteCall {
    VoteCall(id, peer, electionTerm, nd.term, LastTerm(nd.log), |nd.log|)
  }

  /** Whether a node, already in the request's term, grants its vote. */
  predicate Grants(nd: Node, call: VoteCall) {
    && (nd.votedFor == -1 || nd.votedFor == call.src)
    && UpToDate(call.lastTerm, call.lastIndex, LastTerm(nd.log), |nd.log|)
  }

  function Adopt(nd: Node, term: nat): Node {
    if term > nd.term then StepDown(nd, term) else nd
  }

  function HandleVote(nd: Node, call: VoteCall): (Node, VoteReply) {
    if !nd.active then (nd, VoteReply(0, false))
    else if call.term < nd.term then (nd, VoteReply(nd.term, false))
    else
      var nd1 := Adopt(nd, call.term);
      if Grants(nd1, call)
      then (nd1.(votedFor := call.src, role := Follower), VoteReply(nd1.term, true))
      else (nd1, VoteReply(nd1.term, false))
  }

  function BecomeLeader(nd: Node, peers: set<Id>): Node {
    nd.(role := Leader,
        next := Uniform(peers, |nd.log| + 1),
        matched := Uniform(peers, 0),
        counter := Uniform(peers, 0))
  }

  predicate VoteTest(votes: set<Id>, peers: set<Id>) {
    |votes| > |peers| / 2
  }

  function HandleVoteReply(nd: Node, peers: set<Id>, call: VoteCall, rep: VoteReply): Node {
    if !rep.granted then Adopt(nd, rep.term)
    else if nd.term == call.electionTerm && nd.role == Candidate then
      var nd1 := nd.(votes := nd.votes + {call.dst});
      if VoteTest(nd1.votes, peers) then BecomeLeader(nd1, peers) else nd1
    else nd
  }

  // ---------------------------------------------------------------- replication

  /** The request for `peer` and the locals its thread keeps for the reply. */
  function MakeAppendCall(nd: Node, id: Id, peer: Id): AppendCall {
    var next := Get(nd.next, peer);
    var req := AppendRequest(
      nd.term, id,
      if next > 1 then next - 1 else 0,
      if next > 1 then TermAt(nd.log, next - 2) else 0,
      if 1 <= next <= |nd.log| then nd.log[next - 1..] else [],
      nd.commit);
    AppendCall(id, peer, req, Get(nd.counter, peer) + 1, next, Get(nd.matched, peer), |nd.log|)
  }

  /** apply_entries(): hands every committed but unapplied entry to `apply`, in order. */
  function ApplyEntries(nd: Node): Node {
    if nd.applied < nd.commit <= |nd.log|
    then nd.(delivered := nd.delivered + Results(nd.log, nd.applied, nd.commit), applied := nd.commit)
    else nd
  }

  function Min(a: nat, b: nat): nat {
    if a <= b then a else b
  }

  function FollowerCommit(nd: Node, leaderCommit: nat): Node {
    if leaderCommit > nd.commit
    then ApplyEntries(nd.(commit := Min(leaderCommit, |nd.log|)))
    else nd
  }

  /** The follower after its log took over the request's entries. */
  function Merged(nd: Node, req: AppendRequest): Node
    requires PrevMatches(nd.log, req.prevIndex, req.prevTerm)
  {
    Adopt(nd, req.term).(role := Follower, log := Merge(nd.log, req.prevIndex, req.entries))
  }

  function HandleAppend(nd: Node, req: AppendRequest): (Node, AppendReply) {
    if !nd.active then (nd, AppendReply(0, false, None))
    else if req.term < nd.term then (nd, AppendReply(nd.term, false, None))
    else if !PrevMatches(nd.log, req.prevIndex, req.prevTerm)
    then (Adopt(nd, req.term).(role := Follower),
          AppendReply(req.term, false, Some(ConflictOf(nd.log, req.prevIndex))))
    else (FollowerCommit(Merged(nd, req), req.leaderCommit), AppendReply(req.term, true, None))
  }

  /** Where replication to the peer resumes after a rejection. */
  function Backup(nd: Node, call: AppendCall, rep: AppendReply): int {
    var next := Get(nd.next, call.dst);
    var matched := Get(nd.matched, call.dst);
    match rep.conflict
    case Some(c) =>
      var left := if matched < 0 then 0 else matched;
      var right := if call.logSize - 1 < next - 2 then call.logSize - 1 else next - 2;
      Resume(nd.log, left, right, c)
    case None =>
      if next > matched + 1 then next - 1 else next
  }

  function HandleReject(nd: Node, call: AppendCall, rep: AppendReply): Node {
    if call.next != Get(nd.next, call.dst) || call.matched != Get(nd.matched, call.dst) then nd
    else nd.(next := nd.next[call.dst := Backup(nd, call, rep)])
  }

  function LastSent(call: AppendCall): int {
    call.next + |call.req.entries| - 1
  }

  function HandleAccept(nd: Node, peers: set<Id>, call: AppendCall): Node {
    var last := LastSent(call);
    var nd1 := nd.(matched := nd.matched[call.dst := last], next := nd.next[call.dst := last + 1]);
    var commit := CommitScan(nd1.log, nd1.term, nd1.matched, peers, last, nd1.commit);
    if commit > nd1.commit then ApplyEntries(nd1.(commit := commit)) else nd1
  }

  function HandleAppendReply(nd: Node, peers: set<Id>, call: AppendCall, rep: AppendReply): Node {
    if call.counter < Get(nd.counter, call.dst) then nd
    else
      var nd1 := nd.(counter := nd.counter[call.dst := call.counter]);
      if rep.term > nd1.term then StepDown(nd1, rep.term)
      else if nd1.role != Leader || call.req.term != nd1.term then nd1
      else if !rep.success then HandleReject(nd1, call, rep)
      else HandleAccept(nd1, peers, call)
  }

  /** The reply reaches the part of the handler that counts a success. */
  predicate Accepts(nd: Node, c: AppendCall, rep: AppendReply) {
    c.counter >= Get(nd.counter, c.dst) && rep.term <= nd.term && nd.role == Leader && c.req.term == nd.term && rep.success
  }

  predicate Rejects(nd: Node, c: AppendCall, rep: AppendReply) {
    c.counter >= Get(nd.counter, c.dst) && rep.term <= nd.term && nd.role == Leader && c.req.term == nd.term && !rep.success
  }

  /** Every log access of the reply handler is inside the log. */
  predicate ReplyInRange(nd: Node, c: AppendCall, rep: AppendReply) {
    && (Rejects(nd, c, rep) && rep.conflict.Some? && c.next == Get(nd.next, c.dst) && c.matched == Get(nd.matched, c.dst) ==>
          c.logSize <= |nd.log| || c.next <= |nd.log| + 1)
    && (Accepts(nd, c, rep) ==> LastSent(c) <= |nd.log|)
  }

  // ---------------------------------------------------------------- proposals

  function Propose(nd: Node, data: string): (Node, ProposalResult) {
    if nd.role == Leader
    then (nd.(log := nd.log + [Entry(nd.term, data)]), ProposalResult(true, nd.term, |nd.log| + 1))
    else (nd, ProposalResult(false, 0, 0))
  }

  // ---------------------------------------------------------------- what the handlers leave alone

  /** A node whose log, commit index and applied entries did not change. */
  ghost predicate SameLog(nd: Node, nd': Node) {
    && nd'.log == nd.log && nd'.commit == nd.commit && nd'.applied == nd.applied && nd'.delivered == nd.delivered
    && nd.term <= nd'.term
  }

  /** What accepting a request does to a node, before its commit index moves. */
  lemma AcceptShape(nd: Node, req: AppendRequest)
    requires HandleAppend(nd, req).1.success
    ensures nd.term <= req.term && PrevMatches(nd.log, req.prevIndex, req.prevTerm)
    ensures var nd' := HandleAppend(nd, req).0;
            && nd' == FollowerCommit(Merged(nd, req), req.leaderCommit)
            && nd'.term == req.term && nd'.role == Follower
            && nd'.log == Merge(nd.log, req.prevIndex, req.entries)
  {
  }

  lemma RejectShape(nd: Node, req: AppendRequest)
    requires !HandleAppend(nd, req).1.success
    ensures var nd' := HandleAppend(nd, req).0;
            && SameLog(nd, nd') && (nd' == nd || (nd'.role == Follower && nd'.term == req.term))
  {
  }
}
