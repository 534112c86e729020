/** Building concrete runs: single steps, elections and replication rounds as macros. */
module Scripts {
  import opened RaftTypes
  import opened LogOps
  import opened NodeSpec
  import opened Cluster
  import opened Quorums

  const READY := Start(INITIAL)

  lemma Extend(n: nat, senders: set<Role>, steps: seq<Step>, step: Step)
    requires IsRun(n, senders, steps) && Enabled(senders, After(n, senders, steps), step)
    ensures IsRun(n, senders, steps + [step])
    ensures After(n, senders, steps + [step]) == Perform(After(n, senders, steps), step)
  {
    assert (steps + [step])[..|steps + [step]| - 1] == steps;
  }

  /** Every node has started. */
  lemma {:induction false} StartNodes(n: nat, senders: set<Role>, k: nat) returns (steps: seq<Step>)
    requires k <= n
    ensures IsRun(n, senders, steps)
    ensures After(n, senders, steps) == State(seq(n, (j: nat) => if j < k then READY else INITIAL), {})
  {
    if k == 0 {
      steps := [];
      assert After(n, senders, steps).nodes == seq(n, (j: nat) => if j < k then READY else INITIAL);
    } else {
      steps := StartNodes(n, senders, k - 1);
      var s := After(n, senders, steps);
      Extend(n, senders, steps, Run(k - 1));
      steps := steps + [Run(k - 1)];
      assert s.nodes[k - 1 := READY] == seq(n, (j: nat) => if j < k then READY else INITIAL);
      assert After(n, senders, steps).nodes == s.nodes[k - 1 := READY];
    }
  }

  lemma StartAll(n: nat, senders: set<Role>) returns (steps: seq<Step>)
    ensures IsRun(n, senders, steps)
    ensures forall j :: 0 <= j < n ==> After(n, senders, steps).nodes[j] == READY
  {
    steps := StartNodes(n, senders, n);
  }

  /** A node that is not leading starts a campaign; its timer expires again while it is a
      candidate, which leaves a second candidacy thread waiting. */
  lemma Campaign(n: nat, senders: set<Role>, steps: seq<Step>, c: Id) returns (steps': seq<Step>)
    requires IsRun(n, senders, steps) && c < n
    requires var nd := After(n, senders, steps).nodes[c]; nd.active && nd.role != Leader
    ensures IsRun(n, senders, steps')
    ensures var s, s' := After(n, senders, steps), After(n, senders, steps');
            && s'.nodes == s.nodes[c := BecomeCandidate(s.nodes[c], c)]
            && s.pool <= s'.pool && VoteThread(c, s.nodes[c].term + 1) in s'.pool && CandidacyThread(c) in s'.pool
  {
    var s := After(n, senders, steps);
    Extend(n, senders, steps, TimerExpires(c));
    var steps1 := steps + [TimerExpires(c)];
    assert s.nodes[c := s.nodes[c]] == s.nodes;
    Extend(n, senders, steps1, Candidacy(c));
    var steps2 := steps1 + [Candidacy(c)];
    var s2 := After(n, senders, steps2);
    assert s2.nodes[c := s2.nodes[c]] == s2.nodes;
    Extend(n, senders, steps2, TimerExpires(c));
    var steps3 := steps2 + [TimerExpires(c)];
    Extend(n, senders, steps3, ReadElectionTerm(c));
    steps' := steps3 + [ReadElectionTerm(c)];
  }

  /** The nodes after `c` asked `v` for its vote and handled the answer. */
  ghost predicate VoteAsked(n: nat, nodes: seq<Node>, nodes': seq<Node>, c: Id, v: Id) {
    && c < |nodes| && v < |nodes|
    && var call := MakeVoteCall(nodes[c], c, v, nodes[c].term);
       var answer := HandleVote(nodes[v], call);
       nodes' == nodes[v := answer.0][c := HandleVoteReply(nodes[c], Peers(n, c), call, answer.1)]
  }

  /** A candidate asks `v` for its vote, and the answer is handled. */
  lemma AskVote(n: nat, senders: set<Role>, steps: seq<Step>, c: Id, v: Id) returns (steps': seq<Step>)
    requires IsRun(n, senders, steps) && v in Peers(n, c) && c < n
    requires VoteThread(c, After(n, senders, steps).nodes[c].term) in After(n, senders, steps).pool
    ensures steps <= steps'
    ensures IsRun(n, senders, steps')
    ensures var s, s' := After(n, senders, steps), After(n, senders, steps');
            VoteAsked(n, s.nodes, s'.nodes, c, v) && s.pool <= s'.pool
  {
    var s := After(n, senders, steps);
    var t := s.nodes[c].term;
    var call := MakeVoteCall(s.nodes[c], c, v, t);
    var (nd, rep) := HandleVote(s.nodes[v], call);
    Extend(n, senders, steps, SendVote(c, v, t));
    var steps1 := steps + [SendVote(c, v, t)];
    assert s.nodes[c := s.nodes[c]] == s.nodes;
    Extend(n, senders, steps1, ReceiveVote(call));
    var steps2 := steps1 + [ReceiveVote(call)];
    Extend(n, senders, steps2, ReceiveVoteReply(call, rep));
    steps' := steps2 + [ReceiveVoteReply(call, rep)];
  }

  /** A node with a send thread builds a request for `p`, which handles it. */
  lemma Deliver(n: nat, senders: set<Role>, steps: seq<Step>, i: Id, p: Id) returns (steps': seq<Step>)
    requires IsRun(n, senders, steps) && i < n && p in Peers(n, i)
    requires var s := After(n, senders, steps); SendThread(i) in s.pool && s.nodes[i].role in senders
    ensures IsRun(n, senders, steps')
    ensures var s, s' := After(n, senders, steps), After(n, senders, steps');
            var call := MakeAppendCall(s.nodes[i], i, p);
            var answer := HandleAppend(s.nodes[p], call.req);
            && s'.nodes == s.nodes[p := answer.0] && s.pool <= s'.pool && AppendAnswer(call, answer.1) in s'.pool
  {
    var s := After(n, senders, steps);
    var call := MakeAppendCall(s.nodes[i], i, p);
    Extend(n, senders, steps, SendAppend(i, p));
    var steps1 := steps + [SendAppend(i, p)];
    assert s.nodes[i := s.nodes[i]] == s.nodes;
    Extend(n, senders, steps1, ReceiveAppend(call));
    steps' := steps1 + [ReceiveAppend(call)];
  }

  /** The nodes after `i` sent `p` an append request and handled the answer. */
  ghost predicate RequestAnswered(n: nat, nodes: seq<Node>, nodes': seq<Node>, i: Id, p: Id) {
    && i < |nodes| && p < |nodes|
    && var call := MakeAppendCall(nodes[i], i, p);
       var answer := HandleAppend(nodes[p], call.req);
       nodes' == nodes[p := answer.0][i := HandleAppendReply(nodes[i], Peers(n, i), call, answer.1)]
  }

  /** A leader replicates to `p` and handles the answer. */
  lemma Replicate(n: nat, senders: set<Role>, steps: seq<Step>, i: Id, p: Id) returns (steps': seq<Step>)
    requires IsRun(n, senders, steps) && i < n && p in Peers(n, i) && Leader in senders
    requires var nd := After(n, senders, steps).nodes[i]; nd.role == Leader && nd.active
    ensures IsRun(n, senders, steps')
    ensures var s, s' := After(n, senders, steps), After(n, senders, steps');
            RequestAnswered(n, s.nodes, s'.nodes, i, p) && s.pool <= s'.pool
  {
    var s := After(n, senders, steps);
    Extend(n, senders, steps, TimerExpires(i));
    var steps1 := steps + [TimerExpires(i)];
    assert s.nodes[i := s.nodes[i]] == s.nodes;
    var steps2 := Deliver(n, senders, steps1, i, p);
    var call := MakeAppendCall(s.nodes[i], i, p);
    var rep := HandleAppend(s.nodes[p], call.req).1;
    Extend(n, senders, steps2, ReceiveAppendReply(call, rep));
    steps' := steps2 + [ReceiveAppendReply(call, rep)];
  }

  // ---------------------------------------------------------------- elections in a cluster of any size

  function Range(lo: nat, k: nat): (s: set<Id>)
    ensures |s| == k
    ensures forall v: Id :: v in s <==> lo <= v < lo + k
  {
    if k == 0 then {} else
      var rest := Range(lo, k - 1);
      assert rest * {lo + k - 1} == {};
      rest + {lo + k - 1}
  }

  /** How many peers must vote for a candidate before it wins: one at least, because the vote test is
      only made when a vote arrives. */
  function VotesNeeded(n: nat): nat {
    if n <= 2 then 1 else (n - 1) / 2
  }

  /** How many peers must hold an entry before its leader commits it. */
  function HoldersNeeded(n: nat): nat {
    n / 2
  }

  /** Voter `nv` would grant candidate `nc` its vote. */
  ghost predicate Willing(nv: Node, nc: Node) {
    nv.active && nv.term < nc.term && UpToDate(LastTerm(nc.log), |nc.log|, LastTerm(nv.log), |nv.log|)
  }

  function GrantedTo(nv: Node, term: nat, c: Id): Node {
    nv.(term := term, votedFor := c, role := Follower)
  }

  /** A new leader, compared with the candidate it was. */
  ghost predicate Elected(n: nat, nd: Node, c: Id, candidate: Node) {
    && nd.active == candidate.active && nd.role == Leader && nd.term == candidate.term && nd.log == candidate.log
    && nd.commit == candidate.commit && nd.applied == candidate.applied && nd.delivered == candidate.delivered
    && forall p: Id :: p < n && p != c ==> Get(nd.next, p) == |nd.log| + 1 && Get(nd.matched, p) == 0 && Get(nd.counter, p) == 0
  }

  /** Candidate `c` has the votes of the first `k` of the nodes from `lo` on that it needs. */
  ghost predicate Asking(n: nat, nodes: seq<Node>, c: Id, lo: nat, k: nat) {
    && c < n == |nodes| && k < VotesNeeded(n) && lo + VotesNeeded(n) <= n && !(lo <= c < lo + VotesNeeded(n))
    && nodes[c].role == Candidate && nodes[c].votes == {c} + Range(lo, k)
    && forall v :: lo + k <= v < lo + VotesNeeded(n) ==> Willing(nodes[v], nodes[c])
  }

  /** The other voters granted their votes and made `c` leader. */
  ghost predicate Won(n: nat, nodes: seq<Node>, nodes': seq<Node>, c: Id, lo: nat, k: nat) {
    && c < n == |nodes| == |nodes'| && lo + VotesNeeded(n) <= n
    && Elected(n, nodes'[c], c, nodes[c])
    && (forall v :: lo + k <= v < lo + VotesNeeded(n) ==> nodes'[v] == GrantedTo(nodes[v], nodes[c].term, c))
    && (forall v :: 0 <= v < n && v != c && !(lo + k <= v < lo + VotesNeeded(n)) ==> nodes'[v] == nodes[v])
  }

  lemma VoterGrants(nv: Node, call: VoteCall)
    requires nv.active && nv.term < call.term && UpToDate(call.lastTerm, call.lastIndex, LastTerm(nv.log), |nv.log|)
    ensures HandleVote(nv, call) == (GrantedTo(nv, call.term, call.src), VoteReply(call.term, true))
  {
  }

  lemma OneMoreVote(c: Id, lo: nat, k: nat)
    requires !(lo <= c <= lo + k)
    ensures ({c} + Range(lo, k)) + {lo + k} == {c} + Range(lo, k + 1)
    ensures |{c} + Range(lo, k + 1)| == k + 2
  {
    assert {c} * Range(lo, k + 1) == {};
  }

  lemma CountVote(nd: Node, peers: set<Id>, lo: nat, k: nat, call: VoteCall, rep: VoteReply)
    requires nd.role == Candidate && nd.votes == {call.src} + Range(lo, k) && !(lo <= call.src <= lo + k)
    requires call.dst == lo + k && rep.granted && call.electionTerm == nd.term
    ensures var nd1 := nd.(votes := {call.src} + Range(lo, k + 1));
            HandleVoteReply(nd, peers, call, rep) == if k + 2 > |peers| / 2 then BecomeLeader(nd1, peers) else nd1
  {
    OneMoreVote(call.src, lo, k);
  }

  lemma ElectedHere(n: nat, nd: Node, c: Id, peers: set<Id>)
    requires forall p: Id :: p < n && p != c ==> p in peers
    ensures Elected(n, BecomeLeader(nd, peers), c, nd)
  {
  }

  /** One more vote was counted: the last one needed makes the candidate leader. */
  ghost predicate VoteCounted(n: nat, nodes: seq<Node>, nodes': seq<Node>, c: Id, lo: nat, k: nat) {
    && c < n == |nodes| == |nodes'| && lo + k < n
    && nodes'[lo + k] == GrantedTo(nodes[lo + k], nodes[c].term, c)
    && (forall v :: 0 <= v < n && v != c && v != lo + k ==> nodes'[v] == nodes[v])
    && if k + 1 == VotesNeeded(n) then Elected(n, nodes'[c], c, nodes[c])
       else nodes'[c] == nodes[c].(votes := {c} + Range(lo, k + 1))
  }

  /** The candidate's side of one granted vote. */
  lemma CandidateCounts(n: nat, nd: Node, c: Id, lo: nat, k: nat, call: VoteCall)
    requires c < n && k < VotesNeeded(n) && nd.role == Candidate && nd.votes == {c} + Range(lo, k) && !(lo <= c <= lo + k)
    requires call.src == c && call.dst == lo + k && call.electionTerm == nd.term
    ensures var nd' := HandleVoteReply(nd, Peers(n, c), call, VoteReply(nd.term, true));
            if k + 1 == VotesNeeded(n) then Elected(n, nd', c, nd) else nd' == nd.(votes := {c} + Range(lo, k + 1))
  {
    CountVote(nd, Peers(n, c), lo, k, call, VoteReply(nd.term, true));
    assert |Peers(n, c)| == n - 1;
    ElectedHere(n, nd.(votes := {c} + Range(lo, k + 1)), c, Peers(n, c));
  }

  lemma AskOne(n: nat, nodes: seq<Node>, nodes': seq<Node>, c: Id, lo: nat, k: nat)
    requires Asking(n, nodes, c, lo, k) && VoteAsked(n, nodes, nodes', c, lo + k)
    ensures VoteCounted(n, nodes, nodes', c, lo, k)
  {
    var call := MakeVoteCall(nodes[c], c, lo + k, nodes[c].term);
    assert Willing(nodes[lo + k], nodes[c]);
    VoterGrants(nodes[lo + k], call);
    CandidateCounts(n, nodes[c], c, lo, k, call);
  }

  lemma {:induction false} AskAll(n: nat, senders: set<Role>, steps: seq<Step>, c: Id, lo: nat, k: nat)
    returns (steps': seq<Step>)
    requires IsRun(n, senders, steps) && Asking(n, After(n, senders, steps).nodes, c, lo, k)
    requires VoteThread(c, After(n, senders, steps).nodes[c].term) in After(n, senders, steps).pool
    ensures steps <= steps'
    ensures IsRun(n, senders, steps') && After(n, senders, steps).pool <= After(n, senders, steps').pool
    ensures Won(n, After(n, senders, steps).nodes, After(n, senders, steps').nodes, c, lo, k)
    decreases VotesNeeded(n) - k
  {
    AskingCounts(n, After(n, senders, steps).nodes, c, lo, k);
    var steps1 := AskNext(n, senders, steps, c, lo, k);
    var nodes, nodes1 := After(n, senders, steps).nodes, After(n, senders, steps1).nodes;
    steps' := steps1;
    if k + 1 < VotesNeeded(n) {
      AskedOn(n, nodes, nodes1, c, lo, k);
      steps' := AskAll(n, senders, steps1, c, lo, k + 1);
      WonEarlier(n, nodes, nodes1, After(n, senders, steps').nodes, c, lo, k);
    } else {
      WonNow(n, nodes, nodes1, c, lo, k);
    }
  }

  lemma AskNext(n: nat, senders: set<Role>, steps: seq<Step>, c: Id, lo: nat, k: nat) returns (steps': seq<Step>)
    requires IsRun(n, senders, steps) && c < n && lo + k in Peers(n, c)
    requires forall nodes' :: VoteAsked(n, After(n, senders, steps).nodes, nodes', c, lo + k) ==>
               VoteCounted(n, After(n, senders, steps).nodes, nodes', c, lo, k)
    requires VoteThread(c, After(n, senders, steps).nodes[c].term) in After(n, senders, steps).pool
    ensures steps <= steps'
    ensures IsRun(n, senders, steps') && After(n, senders, steps).pool <= After(n, senders, steps').pool
    ensures VoteCounted(n, After(n, senders, steps).nodes, After(n, senders, steps').nodes, c, lo, k)
  {
    steps' := AskVote(n, senders, steps, c, lo + k);
  }

  lemma AskingCounts(n: nat, nodes: seq<Node>, c: Id, lo: nat, k: nat)
    requires Asking(n, nodes, c, lo, k)
    ensures lo + k in Peers(n, c)
    ensures forall nodes' :: VoteAsked(n, nodes, nodes', c, lo + k) ==> VoteCounted(n, nodes, nodes', c, lo, k)
  {
    forall nodes' | VoteAsked(n, nodes, nodes', c, lo + k) ensures VoteCounted(n, nodes, nodes', c, lo, k) {
      AskOne(n, nodes, nodes', c, lo, k);
    }
  }

  lemma WonNow(n: nat, nodes: seq<Node>, nodes': seq<Node>, c: Id, lo: nat, k: nat)
    requires Asking(n, nodes, c, lo, k) && k + 1 == VotesNeeded(n) && VoteCounted(n, nodes, nodes', c, lo, k)
    ensures Won(n, nodes, nodes', c, lo, k)
  {
  }

  lemma AskedOn(n: nat, nodes: seq<Node>, nodes1: seq<Node>, c: Id, lo: nat, k: nat)
    requires Asking(n, nodes, c, lo, k) && k + 1 < VotesNeeded(n) && VoteCounted(n, nodes, nodes1, c, lo, k)
    ensures Asking(n, nodes1, c, lo, k + 1)
  {
    forall v | lo + (k + 1) <= v < lo + VotesNeeded(n) ensures Willing(nodes1[v], nodes1[c]) {
      assert Willing(nodes[v], nodes[c]);
    }
  }

  lemma WonEarlier(n: nat, nodes: seq<Node>, nodes1: seq<Node>, nodes': seq<Node>, c: Id, lo: nat, k: nat)
    requires Asking(n, nodes, c, lo, k) && k + 1 < VotesNeeded(n)
    requires VoteCounted(n, nodes, nodes1, c, lo, k) && Won(n, nodes1, nodes', c, lo, k + 1)
    ensures Won(n, nodes, nodes', c, lo, k)
  {
  }

  /** A node campaigns and wins with the votes of the nodes from `lo` on. */
  lemma Elect(n: nat, senders: set<Role>, steps: seq<Step>, c: Id, lo: nat) returns (steps': seq<Step>)
    requires n >= 3 && IsRun(n, senders, steps) && c < n && lo + VotesNeeded(n) <= n && !(lo <= c < lo + VotesNeeded(n))
    requires var nd := After(n, senders, steps).nodes[c];
             && nd.active && nd.role != Leader
             && forall v :: lo <= v < lo + VotesNeeded(n) ==> Willing(After(n, senders, steps).nodes[v], BecomeCandidate(nd, c))
    ensures IsRun(n, senders, steps')
    ensures var s, s' := After(n, senders, steps), After(n, senders, steps');
            s.pool <= s'.pool && VoteThread(c, s.nodes[c].term + 1) in s'.pool && CandidacyThread(c) in s'.pool
    ensures var s, s' := After(n, senders, steps), After(n, senders, steps');
            Won(n, s.nodes[c := BecomeCandidate(s.nodes[c], c)], s'.nodes, c, lo, 0)
  {
    var steps1 := Campaign(n, senders, steps, c);
    var nodes, nodes1 := After(n, senders, steps).nodes, After(n, senders, steps1).nodes;
    StartsAsking(n, nodes, nodes1, c, lo);
    steps' := AskAll(n, senders, steps1, c, lo, 0);
    assert CandidacyThread(c) in After(n, senders, steps').pool;
  }

  lemma StartsAsking(n: nat, nodes: seq<Node>, nodes1: seq<Node>, c: Id, lo: nat)
    requires n >= 3 && c < n == |nodes| && lo + VotesNeeded(n) <= n && !(lo <= c < lo + VotesNeeded(n))
    requires nodes1 == nodes[c := BecomeCandidate(nodes[c], c)]
    requires forall v :: lo <= v < lo + VotesNeeded(n) ==> Willing(nodes[v], BecomeCandidate(nodes[c], c))
    ensures Asking(n, nodes1, c, lo, 0) && nodes1[c].term == nodes[c].term + 1
  {
    assert {c} == {c} + Range(lo, 0);
    forall v | lo <= v < lo + VotesNeeded(n) ensures Willing(nodes1[v], nodes1[c]) {
      assert Willing(nodes[v], BecomeCandidate(nodes[c], c));
    }
  }

  // ---------------------------------------------------------------- replication in a cluster of any size

  /** What `f`, the node `p`, makes of the request `i` would send it. */
  function Answer(nd: Node, i: Id, p: Id, f: Node): (Node, AppendReply) {
    HandleAppend(f, MakeAppendCall(nd, i, p).req)
  }

  /** `calls` and `answers` list what `i` would send each node of the range and what it would answer. */
  ghost predicate Exchanges(nodes: seq<Node>, calls: seq<AppendCall>, answers: seq<(Node, AppendReply)>, i: Id, lo: nat, k: nat) {
    && i < |nodes| == |calls| == |answers| && lo + k <= |nodes| && !(lo <= i < lo + k)
    && forall p :: lo <= p < lo + k ==> ExchangeAt(nodes, calls[p], answers[p], i, p)
  }

  ghost predicate ExchangeAt(nodes: seq<Node>, call: AppendCall, answer: (Node, AppendReply), i: Id, p: Id) {
    && i < |nodes| && p < |nodes|
    && call == MakeAppendCall(nodes[i], i, p) && answer == HandleAppend(nodes[p], call.req)
  }

  /** The nodes `lo` to `lo + k - 1` have handled the calls; nothing else happened. */
  ghost predicate Delivered(nodes: seq<Node>, s': State, calls: seq<AppendCall>, answers: seq<(Node, AppendReply)>, lo: nat, k: nat) {
    && |nodes| == |calls| == |answers| == |s'.nodes| && lo + k <= |nodes|
    && (forall p :: lo <= p < lo + k ==> s'.nodes[p] == answers[p].0 && AppendAnswer(calls[p], answers[p].1) in s'.pool)
    && (forall p :: 0 <= p < |nodes| && !(lo <= p < lo + k) ==> s'.nodes[p] == nodes[p])
  }

  lemma {:induction false} DeliverAll(n: nat, senders: set<Role>, steps: seq<Step>, calls: seq<AppendCall>,
                                      answers: seq<(Node, AppendReply)>, i: Id, lo: nat, k: nat)
    returns (steps': seq<Step>)
    requires IsRun(n, senders, steps) && Exchanges(After(n, senders, steps).nodes, calls, answers, i, lo, k)
    requires var s := After(n, senders, steps); SendThread(i) in s.pool && s.nodes[i].role in senders
    ensures IsRun(n, senders, steps') && After(n, senders, steps).pool <= After(n, senders, steps').pool
    ensures Delivered(After(n, senders, steps).nodes, After(n, senders, steps'), calls, answers, lo, k)
  {
    steps' := steps;
    if k > 0 {
      var p := lo + k - 1;
      var steps1 := DeliverAll(n, senders, steps, calls, answers, i, lo, k - 1);
      var s, s1 := After(n, senders, steps), After(n, senders, steps1);
      assert s1.nodes[i] == s.nodes[i] && s1.nodes[p] == s.nodes[p];
      ExchangeSame(s.nodes, s1.nodes, calls[p], answers[p], i, p);
      steps' := DeliverCall(n, senders, steps1, calls[p], answers[p], i, p);
      DeliveredOn(s.nodes, s1, After(n, senders, steps'), calls, answers, lo, k);
    }
  }

  lemma ExchangeSame(nodes: seq<Node>, nodes': seq<Node>, call: AppendCall, answer: (Node, AppendReply), i: Id, p: Id)
    requires ExchangeAt(nodes, call, answer, i, p) && |nodes'| == |nodes| && nodes'[i] == nodes[i] && nodes'[p] == nodes[p]
    ensures ExchangeAt(nodes', call, answer, i, p)
  {
  }

  lemma DeliverCall(n: nat, senders: set<Role>, steps: seq<Step>, call: AppendCall, answer: (Node, AppendReply), i: Id, p: Id)
    returns (steps': seq<Step>)
    requires IsRun(n, senders, steps) && ExchangeAt(After(n, senders, steps).nodes, call, answer, i, p) && i != p
    requires SendThread(i) in After(n, senders, steps).pool && After(n, senders, steps).nodes[i].role in senders
    ensures IsRun(n, senders, steps') && After(n, senders, steps).pool <= After(n, senders, steps').pool
    ensures After(n, senders, steps').nodes == After(n, senders, steps).nodes[p := answer.0]
    ensures AppendAnswer(call, answer.1) in After(n, senders, steps').pool
  {
    steps' := Deliver(n, senders, steps, i, p);
  }

  lemma DeliveredOn(nodes: seq<Node>, s1: State, s': State, calls: seq<AppendCall>, answers: seq<(Node, AppendReply)>,
                    lo: nat, k: nat)
    requires k > 0 && lo + k <= |nodes| && Delivered(nodes, s1, calls, answers, lo, k - 1) && s1.pool <= s'.pool
    requires var p := lo + k - 1; s'.nodes == s1.nodes[p := answers[p].0] && AppendAnswer(calls[p], answers[p].1) in s'.pool
    ensures Delivered(nodes, s', calls, answers, lo, k)
  {
  }

  /** A leader that has applied nothing and has counted the acknowledgements of `k` nodes. */
  ghost predicate Collecting(n: nat, nd: Node, i: Id, t: nat, log: seq<Entry>, next: nat, lo: nat, k: nat) {
    && nd.active && nd.role == Leader && nd.term == t && nd.log == log
    && nd.commit == 0 && nd.applied == 0 && nd.delivered == []
    && Counted(n, nd, i, next, lo, k)
  }

  ghost predicate Counted(n: nat, nd: Node, i: Id, next: nat, lo: nat, k: nat) {
    forall p: Id :: p < n && p != i ==>
      if lo <= p < lo + k then Get(nd.next, p) == |nd.log| + 1 && Get(nd.matched, p) == |nd.log|
      else Get(nd.next, p) == next && Get(nd.matched, p) == 0 && Get(nd.counter, p) == 0
  }

  /** The same leader once it has committed and applied its whole log. */
  ghost predicate Finished(n: nat, nd: Node, i: Id, t: nat, log: seq<Entry>, next: nat, lo: nat, k: nat) {
    && nd.active && nd.role == Leader && nd.term == t && nd.log == log
    && nd.commit == |log| && nd.applied == |log| && nd.delivered == Results(log, 0, |log|)
    && Counted(n, nd, i, next, lo, k)
  }

  /** The peers whose match index reaches `N` are those counted. */
  lemma CountedHolders(n: nat, nd: Node, i: Id, next: nat, lo: nat, k: nat, N: int)
    requires Counted(n, nd, i, next, lo, k) && 1 <= N <= |nd.log| && lo + k <= n && !(lo <= i < lo + k)
    ensures |Holders(nd.matched, Peers(n, i), N)| == k
  {
    assert Holders(nd.matched, Peers(n, i), N) == Range(lo, k);
  }

  lemma ScanCounted(n: nat, nd: Node, i: Id, next: nat, lo: nat, k: nat)
    requires Counted(n, nd, i, next, lo, k) && lo + k <= n && !(lo <= i < lo + k) && i < n
    requires nd.log != [] && LastTerm(nd.log) == nd.term
    ensures CommitScan(nd.log, nd.term, nd.matched, Peers(n, i), |nd.log|, 0) ==
            if k < HoldersNeeded(n) then 0 else |nd.log|
  {
    var r := CommitScan(nd.log, nd.term, nd.matched, Peers(n, i), |nd.log|, 0);
    assert |Peers(n, i)| == n - 1;
    CountedHolders(n, nd, i, next, lo, k, |nd.log|);
    if k < HoldersNeeded(n) {
      if r != 0 { CountedHolders(n, nd, i, next, lo, k, r); }
    } else {
      assert Committable(nd.log, nd.term, nd.matched, Peers(n, i), |nd.log|);
    }
  }

  /** The call every send thread of a leader in this state makes. */
  ghost predicate CallOf(call: AppendCall, i: Id, p: Id, t: nat, log: seq<Entry>, next: nat) {
    && call.src == i && call.dst == p && call.req.term == t && call.counter == 1 && call.next == next && call.matched == 0
    && 1 <= next <= |log| && |call.req.entries| == |log| - next + 1
  }

  lemma AckOne(n: nat, nd: Node, i: Id, t: nat, log: seq<Entry>, next: nat, lo: nat, k: nat, call: AppendCall)
    requires Collecting(n, nd, i, t, log, next, lo, k) && CallOf(call, i, lo + k, t, log, next)
    requires i < n && lo + k < n && !(lo <= i <= lo + k) && LastTerm(log) == t
    ensures var nd' := HandleAppendReply(nd, Peers(n, i), call, AppendReply(t, true, None));
            if k + 1 < HoldersNeeded(n) then Collecting(n, nd', i, t, log, next, lo, k + 1)
            else Finished(n, nd', i, t, log, next, lo, k + 1)
  {
    var p := lo + k;
    assert Get(nd.counter, p) == 0;
    var nd1 := nd.(counter := nd.counter[p := 1]);
    assert HandleAppendReply(nd, Peers(n, i), call, AppendReply(t, true, None)) == HandleAccept(nd1, Peers(n, i), call);
    AcceptAck(n, nd, nd1, i, next, lo, k, call);
  }

  lemma AcceptAck(n: nat, nd: Node, nd1: Node, i: Id, next: nat, lo: nat, k: nat, call: AppendCall)
    requires Collecting(n, nd, i, nd.term, nd.log, next, lo, k) && nd1 == nd.(counter := nd.counter[lo + k := 1])
    requires i < n && lo + k < n && !(lo <= i <= lo + k) && nd.log != [] && LastTerm(nd.log) == nd.term
    requires call.dst == lo + k && LastSent(call) == |nd.log|
    ensures var nd' := HandleAccept(nd1, Peers(n, i), call);
            if k + 1 < HoldersNeeded(n) then Collecting(n, nd', i, nd.term, nd.log, next, lo, k + 1)
            else Finished(n, nd', i, nd.term, nd.log, next, lo, k + 1)
  {
    var p := lo + k;
    var nd2 := nd1.(matched := nd1.matched[p := |nd.log|], next := nd1.next[p := |nd.log| + 1]);
    assert Counted(n, nd2, i, next, lo, k + 1) by { CountedOn(n, nd, nd2, i, next, lo, k); }
    ScanCounted(n, nd2, i, next, lo, k + 1);
    AcceptUnfolds(nd1, nd2, Peers(n, i), call);
    if k + 1 >= HoldersNeeded(n) { ApplyAll(n, nd2, i, next, lo, k + 1); }
  }

  lemma AcceptUnfolds(nd1: Node, nd2: Node, peers: set<Id>, call: AppendCall)
    requires nd1.commit == 0
    requires nd2 == nd1.(matched := nd1.matched[call.dst := LastSent(call)], next := nd1.next[call.dst := LastSent(call) + 1])
    ensures var commit := CommitScan(nd2.log, nd2.term, nd2.matched, peers, LastSent(call), 0);
            HandleAccept(nd1, peers, call) == if commit > 0 then ApplyEntries(nd2.(commit := commit)) else nd2
  {
  }

  lemma ApplyAll(n: nat, nd: Node, i: Id, next: nat, lo: nat, k: nat)
    requires Collecting(n, nd, i, nd.term, nd.log, next, lo, k) && nd.log != []
    ensures Finished(n, ApplyEntries(nd.(commit := |nd.log|)), i, nd.term, nd.log, next, lo, k)
  {
    var nd' := ApplyEntries(nd.(commit := |nd.log|));
    assert nd'.delivered == Results(nd.log, 0, |nd.log|);
    CountedSame(n, nd, nd', i, next, lo, k);
  }

  lemma CountedSame(n: nat, nd: Node, nd': Node, i: Id, next: nat, lo: nat, k: nat)
    requires Counted(n, nd, i, next, lo, k) && nd'.log == nd.log
    requires nd'.next == nd.next && nd'.matched == nd.matched && nd'.counter == nd.counter
    ensures Counted(n, nd', i, next, lo, k)
  {
  }

  lemma CountedOn(n: nat, nd: Node, nd': Node, i: Id, next: nat, lo: nat, k: nat)
    requires Counted(n, nd, i, next, lo, k) && nd'.log == nd.log && nd'.matched == nd.matched[lo + k := |nd.log|]
    requires nd'.next == nd.next[lo + k := |nd.log| + 1] && nd'.counter == nd.counter[lo + k := 1]
    ensures Counted(n, nd', i, next, lo, k + 1)
  {
    forall p: Id | p < n && p != i
      ensures if lo <= p < lo + k + 1 then Get(nd'.next, p) == |nd'.log| + 1 && Get(nd'.matched, p) == |nd'.log|
              else Get(nd'.next, p) == next && Get(nd'.matched, p) == 0 && Get(nd'.counter, p) == 0
    {
      if p != lo + k { assert Get(nd'.next, p) == Get(nd.next, p); }
    }
  }

  /** The acknowledgements of the nodes from `lo + k` to `lo + HoldersNeeded(n) - 1` wait for `i`. */
  ghost predicate AcksWaiting(n: nat, pool: set<Item>, calls: seq<AppendCall>, i: Id, t: nat, log: seq<Entry>, next: nat, lo: nat) {
    && |calls| == n && lo + HoldersNeeded(n) <= n
    && forall p :: lo <= p < lo + HoldersNeeded(n) ==>
         CallOf(calls[p], i, p, t, log, next) && AppendAnswer(calls[p], AppendReply(t, true, None)) in pool
  }

  lemma {:induction false} CountAcks(n: nat, senders: set<Role>, steps: seq<Step>, calls: seq<AppendCall>, i: Id, t: nat,
                                     log: seq<Entry>, next: nat, lo: nat, k: nat)
    returns (steps': seq<Step>)
    requires IsRun(n, senders, steps) && i < n && !(lo <= i < lo + HoldersNeeded(n)) && k < HoldersNeeded(n) && LastTerm(log) == t
    requires AcksWaiting(n, After(n, senders, steps).pool, calls, i, t, log, next, lo)
    requires Collecting(n, After(n, senders, steps).nodes[i], i, t, log, next, lo, k)
    ensures IsRun(n, senders, steps') && After(n, senders, steps).pool <= After(n, senders, steps').pool
    ensures Finished(n, After(n, senders, steps').nodes[i], i, t, log, next, lo, HoldersNeeded(n))
    ensures forall j :: 0 <= j < n && j != i ==> After(n, senders, steps').nodes[j] == After(n, senders, steps).nodes[j]
    decreases HoldersNeeded(n) - k
  {
    var s := After(n, senders, steps);
    var call := calls[lo + k];
    assert CallOf(call, i, lo + k, t, log, next);
    var step := ReceiveAppendReply(call, AppendReply(t, true, None));
    AckOne(n, s.nodes[i], i, t, log, next, lo, k, call);
    Extend(n, senders, steps, step);
    steps' := steps + [step];
    if k + 1 < HoldersNeeded(n) {
      steps' := CountAcks(n, senders, steps', calls, i, t, log, next, lo, k + 1);
    }
  }

  /** A leader that has just been elected with all but the last entries of `log` and proposed those. */
  ghost predicate FreshLeader(n: nat, nd: Node, i: Id, t: nat, log: seq<Entry>, next: nat) {
    Collecting(n, nd, i, t, log, next, 0, 0)
  }

  lemma FreshCall(n: nat, nd: Node, i: Id, t: nat, log: seq<Entry>, next: nat, p: Id)
    requires FreshLeader(n, nd, i, t, log, next) && 1 <= next <= |log| && p < n && p != i
    ensures var call := MakeAppendCall(nd, i, p);
            && CallOf(call, i, p, t, log, next)
            && call.req == AppendRequest(t, i, next - 1, TermAt(log, next - 2), log[next - 1..], 0)
  {
    assert Get(nd.next, p) == next && Get(nd.matched, p) == 0 && Get(nd.counter, p) == 0;
    CallShape(nd, i, p);
  }

  lemma CallShape(nd: Node, i: Id, p: Id)
    requires 1 <= Get(nd.next, p) <= |nd.log|
    ensures var call := MakeAppendCall(nd, i, p); var next := Get(nd.next, p);
            && call.src == i && call.dst == p && call.counter == Get(nd.counter, p) + 1
            && call.next == next && call.matched == Get(nd.matched, p)
            && call.req == AppendRequest(nd.term, i, next - 1, TermAt(nd.log, next - 2), nd.log[next - 1..], nd.commit)
            && |call.req.entries| == |nd.log| - next + 1
  {
    var next := Get(nd.next, p);
    var tail := nd.log[next - 1..];
    assert |tail| == |nd.log| - next + 1;
    assert MakeAppendCall(nd, i, p).req.entries == tail;
  }

  /** A follower whose log is the part of the leader's log before `next` takes over the rest. */
  lemma FollowerCatchesUp(n: nat, nd: Node, i: Id, t: nat, log: seq<Entry>, next: nat, p: Id, f: Node)
    requires FreshLeader(n, nd, i, t, log, next) && 1 <= next <= |log| && p < n && p != i
    requires f.active && f.term <= t && f.log == log[..next - 1] && f.commit == 0
    ensures var (f', rep) := Answer(nd, i, p, f);
            && rep == AppendReply(t, true, None) && f'.active && f'.term == t && f'.role == Follower && f'.log == log
            && f'.commit == 0 && f'.applied == f.applied && f'.delivered == f.delivered
  {
    FreshCall(n, nd, i, t, log, next, p);
    assert Merge(f.log, next - 1, log[next - 1..]) == log;
  }

  /** A fresh leader replicates its log to the nodes from `lo` on, just enough of them to commit. */
  lemma CommitAll(n: nat, senders: set<Role>, steps: seq<Step>, i: Id, t: nat, log: seq<Entry>, next: nat, lo: nat)
    returns (steps': seq<Step>)
    requires n >= 3 && Leader in senders && IsRun(n, senders, steps) && i < n && lo + HoldersNeeded(n) <= n
    requires !(lo <= i < lo + HoldersNeeded(n)) && 1 <= next <= |log| && LastTerm(log) == t
    requires var nodes := After(n, senders, steps).nodes;
             && FreshLeader(n, nodes[i], i, t, log, next)
             && forall p :: lo <= p < lo + HoldersNeeded(n) ==> Answer(nodes[i], i, p, nodes[p]).1 == AppendReply(t, true, None)
    ensures IsRun(n, senders, steps') && After(n, senders, steps).pool <= After(n, senders, steps').pool
    ensures SendThread(i) in After(n, senders, steps').pool
    ensures CommittedAt(n, After(n, senders, steps).nodes, After(n, senders, steps').nodes, i, t, log, next, lo)
  {
    var s := After(n, senders, steps);
    Extend(n, senders, steps, TimerExpires(i));
    var steps1 := steps + [TimerExpires(i)];
    assert s.nodes[i := s.nodes[i]] == s.nodes;
    var calls, answers := ExchangesExist(s.nodes, i, lo, HoldersNeeded(n));
    var steps2 := DeliverAll(n, senders, steps1, calls, answers, i, lo, HoldersNeeded(n));
    var s2 := After(n, senders, steps2);
    WaitingAfter(n, s.nodes, s2, calls, answers, i, t, log, next, lo);
    assert s2.nodes[i] == s.nodes[i];
    RangeStart(n, s.nodes[i], i, t, log, next, lo);
    steps' := CountAcks(n, senders, steps2, calls, i, t, log, next, lo, 0);
    CommittedHere(n, s.nodes, s2, After(n, senders, steps').nodes, calls, answers, i, t, log, next, lo);
  }

  lemma ExchangesExist(nodes: seq<Node>, i: Id, lo: nat, k: nat)
    returns (calls: seq<AppendCall>, answers: seq<(Node, AppendReply)>)
    requires i < |nodes| && lo + k <= |nodes| && !(lo <= i < lo + k)
    ensures Exchanges(nodes, calls, answers, i, lo, k)
  {
    calls := seq(|nodes|, p requires 0 <= p => MakeAppendCall(nodes[i], i, p));
    answers := seq(|nodes|, p requires 0 <= p < |nodes| => Answer(nodes[i], i, p, nodes[p]));
  }

  lemma CommittedHere(n: nat, nodes: seq<Node>, s2: State, nodes': seq<Node>, calls: seq<AppendCall>,
                      answers: seq<(Node, AppendReply)>, i: Id, t: nat, log: seq<Entry>, next: nat, lo: nat)
    requires |nodes| == n == |nodes'| && Exchanges(nodes, calls, answers, i, lo, HoldersNeeded(n))
    requires Delivered(nodes, s2, calls, answers, lo, HoldersNeeded(n))
    requires Finished(n, nodes'[i], i, t, log, next, lo, HoldersNeeded(n))
    requires forall j :: 0 <= j < n && j != i ==> nodes'[j] == s2.nodes[j]
    ensures CommittedAt(n, nodes, nodes', i, t, log, next, lo)
  {
    forall p | lo <= p < lo + HoldersNeeded(n) ensures nodes'[p] == Answer(nodes[i], i, p, nodes[p]).0 {
      assert ExchangeAt(nodes, calls[p], answers[p], i, p);
    }
  }

  /** The outcome of CommitAll on the nodes. */
  ghost predicate CommittedAt(n: nat, nodes: seq<Node>, nodes': seq<Node>, i: Id, t: nat, log: seq<Entry>, next: nat, lo: nat) {
    && i < n == |nodes| == |nodes'| && lo + HoldersNeeded(n) <= n
    && Finished(n, nodes'[i], i, t, log, next, lo, HoldersNeeded(n))
    && (forall p :: lo <= p < lo + HoldersNeeded(n) ==> nodes'[p] == Answer(nodes[i], i, p, nodes[p]).0)
    && (forall p :: 0 <= p < n && p != i && !(lo <= p < lo + HoldersNeeded(n)) ==> nodes'[p] == nodes[p])
  }

  lemma RangeStart(n: nat, nd: Node, i: Id, t: nat, log: seq<Entry>, next: nat, lo: nat)
    requires FreshLeader(n, nd, i, t, log, next)
    ensures Collecting(n, nd, i, t, log, next, lo, 0)
  {
  }

  lemma WaitingAfter(n: nat, nodes: seq<Node>, s2: State, calls: seq<AppendCall>, answers: seq<(Node, AppendReply)>,
                     i: Id, t: nat, log: seq<Entry>, next: nat, lo: nat)
    requires |nodes| == n && Exchanges(nodes, calls, answers, i, lo, HoldersNeeded(n))
    requires FreshLeader(n, nodes[i], i, t, log, next) && 1 <= next <= |log|
    requires Delivered(nodes, s2, calls, answers, lo, HoldersNeeded(n))
    requires forall p :: lo <= p < lo + HoldersNeeded(n) ==> Answer(nodes[i], i, p, nodes[p]).1 == AppendReply(t, true, None)
    ensures AcksWaiting(n, s2.pool, calls, i, t, log, next, lo)
  {
    forall p | lo <= p < lo + HoldersNeeded(n)
      ensures CallOf(calls[p], i, p, t, log, next) && AppendAnswer(calls[p], AppendReply(t, true, None)) in s2.pool
    {
      FreshCall(n, nodes[i], i, t, log, next, p);
      assert Answer(nodes[i], i, p, nodes[p]).1 == AppendReply(t, true, None);
      assert ExchangeAt(nodes, calls[p], answers[p], i, p);
    }
  }

  /** Electing a node that has committed nothing, and proposing to it. */
  lemma Lead(n: nat, senders: set<Role>, steps: seq<Step>, c: Id, lo: nat, data: string) returns (steps': seq<Step>)
    requires n >= 3 && IsRun(n, senders, steps) && c < n && lo + VotesNeeded(n) <= n && !(lo <= c < lo + VotesNeeded(n))
    requires var nd := After(n, senders, steps).nodes[c];
             && nd.active && nd.role != Leader && nd.commit == 0 && nd.applied == 0 && nd.delivered == []
             && forall v :: lo <= v < lo + VotesNeeded(n) ==> Willing(After(n, senders, steps).nodes[v], BecomeCandidate(nd, c))
    ensures IsRun(n, senders, steps')
    ensures Leads(n, After(n, senders, steps).nodes, After(n, senders, steps').nodes, c, lo, data)
    ensures var s, s' := After(n, senders, steps), After(n, senders, steps'); var nd := s.nodes[c];
            && s.pool <= s'.pool && VoteThread(c, nd.term + 1) in s'.pool && CandidacyThread(c) in s'.pool
            && Proposed(c, ProposalResult(true, nd.term + 1, |nd.log| + 1), data) in s'.pool
  {
    var s := After(n, senders, steps);
    var steps1 := Elect(n, senders, steps, c, lo);
    var s1 := After(n, senders, steps1);
    Extend(n, senders, steps1, ClientProposes(c, data));
    steps' := steps1 + [ClientProposes(c, data)];
    LeadNodes(n, s.nodes, s1.nodes, After(n, senders, steps').nodes, c, lo, data);
  }

  /** Node `c` now leads the next term with one more entry, thanks to the nodes from `lo` on. */
  ghost predicate Leads(n: nat, nodes: seq<Node>, nodes': seq<Node>, c: Id, lo: nat, data: string) {
    && c < n == |nodes| == |nodes'| && lo + VotesNeeded(n) <= n
    && var nd := nodes[c];
       && FreshLeader(n, nodes'[c], c, nd.term + 1, nd.log + [Entry(nd.term + 1, data)], |nd.log| + 1)
       && (forall v :: lo <= v < lo + VotesNeeded(n) ==> nodes'[v] == GrantedTo(nodes[v], nd.term + 1, c))
       && (forall v :: 0 <= v < n && v != c && !(lo <= v < lo + VotesNeeded(n)) ==> nodes'[v] == nodes[v])
  }

  lemma LeadNodes(n: nat, nodes: seq<Node>, nodes1: seq<Node>, nodes': seq<Node>, c: Id, lo: nat, data: string)
    requires c < n == |nodes| && !(lo <= c < lo + VotesNeeded(n)) && nodes[c].active
    requires nodes[c].commit == 0 && nodes[c].applied == 0 && nodes[c].delivered == []
    requires Won(n, nodes[c := BecomeCandidate(nodes[c], c)], nodes1, c, lo, 0)
    requires nodes' == nodes1[c := Propose(nodes1[c], data).0]
    ensures Leads(n, nodes, nodes', c, lo, data)
  {
    var nd := nodes'[c];
    forall p: Id | p < n && p != c
      ensures Get(nd.next, p) == |nodes[c].log| + 1 && Get(nd.matched, p) == 0 && Get(nd.counter, p) == 0
    {
      assert Get(nodes1[c].next, p) == |nodes[c].log| + 1;
    }
  }
}
