/** What handling a message in flight achieves, and that no reachable state is stuck: every run can
    be continued until a new command was applied by every node. */
module Progress {
  import opened RaftTypes
  import opened LogOps
  import opened NodeSpec
  import opened Cluster
  import opened Quorums
  import opened History
  import opened Elections
  import opened Logs
  import opened Commits
  import opened Indices
  import opened Preservation
  import opened Reachability
  import opened Theorems
  import opened Consequences
  import opened Outcomes
  import opened Scripts

  // ---------------------------------------------------------------- messages in flight

  /** In every reachable state a node has applied exactly the committed entries of its log. */
  lemma AppliedIsCommitted(n: nat, steps: seq<Step>, i: Id)
    requires SafeSize(n) && IsRun(n, {Leader}, steps) && i < n
    ensures var nd := After(n, {Leader}, steps).nodes[i];
            && nd.applied == nd.commit <= |nd.log| && |nd.delivered| == nd.commit
            && forall k :: 0 <= k < nd.commit ==> nd.delivered[k] == ApplyResult(true, nd.log[k].command, k + 1)
  {
    ReachableInv(n, steps);
    assert NodeC(n, HistoryOf(n, {Leader}, steps), After(n, {Leader}, steps).nodes[i]);
  }

  lemma Handle(n: nat, senders: set<Role>, steps: seq<Step>, step: Step) returns (steps': seq<Step>)
    requires IsRun(n, senders, steps) && Enabled(senders, After(n, senders, steps), step)
    ensures steps' == steps + [step] && IsRun(n, senders, steps')
    ensures After(n, senders, steps') == Perform(After(n, senders, steps), step)
  {
    Extend(n, senders, steps, step);
    steps' := steps + [step];
  }

  /** A follower that accepts a request in flight commits and applies everything the leader announced:
      its commit index becomes the larger of the leader's and its own. */
  lemma AnnouncedIsCommitted(n: nat, steps: seq<Step>, c: AppendCall)
    requires SafeSize(n) && IsRun(n, {Leader}, steps) && AppendRequested(c) in After(n, {Leader}, steps).pool && c.dst < n
    requires HandleAppend(After(n, {Leader}, steps).nodes[c.dst], c.req).1.success
    ensures var nd := After(n, {Leader}, steps).nodes[c.dst]; var nd' := HandleAppend(nd, c.req).0;
            && nd'.commit == (if c.req.leaderCommit > nd.commit then c.req.leaderCommit else nd.commit)
            && nd'.applied == nd'.commit <= |nd'.log| && |nd'.delivered| == nd'.commit
            && forall k :: 0 <= k < nd'.commit ==> nd'.delivered[k] == ApplyResult(true, nd'.log[k].command, k + 1)
  {
    var nd := After(n, {Leader}, steps).nodes[c.dst];
    var steps' := Handle(n, {Leader}, steps, ReceiveAppend(c));
    assert After(n, {Leader}, steps').nodes[c.dst] == HandleAppend(nd, c.req).0;
    assert steps'[..|steps|] == steps;
    CommitMonotone(n, steps', |steps|, c.dst);
    AppliedIsCommitted(n, steps', c.dst);
    AnnouncedBound(n, steps, c, nd);
    AcceptedCommit(nd, c.req);
  }

  lemma AnnouncedBound(n: nat, steps: seq<Step>, c: AppendCall, nd: Node)
    requires SafeSize(n) && IsRun(n, {Leader}, steps) && AppendRequested(c) in After(n, {Leader}, steps).pool
    requires HandleAppend(nd, c.req).1.success
    ensures c.req.leaderCommit <= |HandleAppend(nd, c.req).0.log|
  {
    AcceptShape(nd, c.req);
    FollowerBoundSafe(n, steps, c, nd);
  }

  /** Handling the answer to a vote request, granted or denied, leaves no node behind the term it
      carries. */
  lemma VoteReplyCatchesUp(n: nat, senders: set<Role>, steps: seq<Step>, c: VoteCall, rep: VoteReply)
    requires SafeSize(n) && IsRun(n, senders, steps) && VoteAnswer(c, rep) in After(n, senders, steps).pool
    ensures c.src < n
    ensures HandleVoteReply(After(n, senders, steps).nodes[c.src], Peers(n, c.src), c, rep).term >= rep.term
  {
    ReachableE(n, senders, steps);
    var s := After(n, senders, steps);
    assert ItemE(n, s.nodes, HistoryOf(n, senders, steps), VoteAnswer(c, rep));
    VoteReplyOutcome(s.nodes[c.src], Peers(n, c.src), c, rep);
  }

  /** Nor does the answer to an append request, unless it is older than one already counted. */
  lemma AppendReplyCatchesUp(nd: Node, peers: set<Id>, c: AppendCall, rep: AppendReply)
    requires c.counter >= Get(nd.counter, c.dst)
    ensures var nd' := HandleAppendReply(nd, peers, c, rep);
            nd'.term == (if rep.term > nd.term then rep.term else nd.term) && (rep.term > nd.term ==> nd'.role == Follower)
  {
  }

  /** Every acknowledgement in flight that is counted raises or lowers the match index to exactly the
      last index its request covered. */
  lemma AcknowledgementRecorded(n: nat, steps: seq<Step>, c: AppendCall, rep: AppendReply)
    requires SafeSize(n) && IsRun(n, {Leader}, steps) && AppendAnswer(c, rep) in After(n, {Leader}, steps).pool && c.src < n
    requires Accepts(After(n, {Leader}, steps).nodes[c.src], c, rep)
    ensures var nd := After(n, {Leader}, steps).nodes[c.src];
            var nd' := HandleAppendReply(nd, Peers(n, c.src), c, rep); var m := c.req.prevIndex + |c.req.entries|;
            && Get(nd'.matched, c.dst) == m && Get(nd'.next, c.dst) == m + 1 && m <= |nd.log|
            && forall p: Id :: p != c.dst ==> Get(nd'.matched, p) == Get(nd.matched, p) && Get(nd'.next, p) == Get(nd.next, p)
  {
    ReplyFacts(n, steps, c, rep);
    AcknowledgementOutcome(After(n, {Leader}, steps).nodes[c.src], Peers(n, c.src), c, rep);
  }

  /** Every rejection in flight that is counted with conflict information moves the next index back,
      to a point still above the match index. */
  lemma RejectionMovesBack(n: nat, steps: seq<Step>, c: AppendCall, rep: AppendReply)
    requires SafeSize(n) && IsRun(n, {Leader}, steps) && AppendAnswer(c, rep) in After(n, {Leader}, steps).pool && c.src < n
    requires var nd := After(n, {Leader}, steps).nodes[c.src];
             && Rejects(nd, c, rep) && rep.conflict.Some? && c.next == Get(nd.next, c.dst) && c.matched == Get(nd.matched, c.dst)
    ensures var nd := After(n, {Leader}, steps).nodes[c.src];
            var nd' := HandleAppendReply(nd, Peers(n, c.src), c, rep); var next' := Get(nd'.next, c.dst);
            && 0 <= c.matched < next' < c.next <= |nd.log| + 1
            && BackedUp(nd.log, c.matched, c.next, rep.conflict.value, next')
            && nd' == nd.(counter := nd.counter[c.dst := c.counter], next := nd.next[c.dst := next'])
  {
    var nd := After(n, {Leader}, steps).nodes[c.src];
    ReplyFacts(n, steps, c, rep);
    RejectionSound(n, steps, c, rep);
    RejectionOutcome(nd, Peers(n, c.src), c, rep);
    RejectedBounds(n, HistoryOf(n, {Leader}, steps), c.src, nd, c);
    ConflictBackup(nd, Peers(n, c.src), c, rep);
    BackupIsNext(nd, Peers(n, c.src), c, rep);
  }

  lemma RejectedBounds(n: nat, h: History, i: Id, nd: Node, c: AppendCall)
    requires NodeI(n, h, i, nd) && nd.role == Leader && CallI(h, c) && CallL(n, h, c) && c.src == i
    requires c.next == Get(nd.next, c.dst)
    ensures 0 <= c.matched && 1 <= c.next <= |nd.log| + 1 && c.next <= c.logSize + 1
  {
    assert c.dst in Peers(n, i);
    assert PeerI(h, nd, c.dst);
  }

  // ---------------------------------------------------------------- continuing a run

  ghost predicate Continues(n: nat, steps: seq<Step>, steps': seq<Step>) {
    && IsRun(n, {Leader}, steps) && IsRun(n, {Leader}, steps') && steps <= steps'
    && After(n, {Leader}, steps).pool <= After(n, {Leader}, steps').pool
  }

  lemma Do(n: nat, steps: seq<Step>, step: Step) returns (steps': seq<Step>)
    requires IsRun(n, {Leader}, steps) && Enabled({Leader}, After(n, {Leader}, steps), step)
    ensures Continues(n, steps, steps') && After(n, {Leader}, steps') == Perform(After(n, {Leader}, steps), step)
  {
    steps' := Handle(n, {Leader}, steps, step);
  }

  /** Every node is running. */
  lemma {:induction false} Awaken(n: nat, steps: seq<Step>, k: nat) returns (steps': seq<Step>)
    requires IsRun(n, {Leader}, steps) && k <= n
    ensures Continues(n, steps, steps') && forall j :: 0 <= j < k ==> After(n, {Leader}, steps').nodes[j].active
  {
    steps' := steps;
    if k > 0 {
      steps' := Awaken(n, steps, k - 1);
      if !After(n, {Leader}, steps').nodes[k - 1].active {
        steps' := Do(n, steps', Run(k - 1));
      }
    }
  }

  // ---------------------------------------------------------------- electing a leader

  ghost predicate Beats(a: Node, b: Node) {
    UpToDate(LastTerm(a.log), |a.log|, LastTerm(b.log), |b.log|)
  }

  /** Some node's log is at least as up-to-date as every other's. */
  lemma {:induction false} BestLog(nodes: seq<Node>, k: nat) returns (c: Id)
    requires 1 <= k <= |nodes|
    ensures c < k && forall j :: 0 <= j < k ==> Beats(nodes[c], nodes[j])
  {
    c := 0;
    if k > 1 {
      c := BestLog(nodes, k - 1);
      if !Beats(nodes[c], nodes[k - 1]) { c := k - 1; }
    }
  }

  function MaxTerm(nodes: seq<Node>): (t: nat)
    ensures forall j :: 0 <= j < |nodes| ==> nodes[j].term <= t
  {
    if nodes == [] then 0 else
      var rest := MaxTerm(nodes[..|nodes| - 1]);
      var last := nodes[|nodes| - 1].term;
      if last > rest then last else rest
  }

  lemma OfficeKept(n: nat, nd: Node, step: Step)
    requires NodeAfter(n, nd, step).role != Follower && !step.Candidacy?
    ensures nd.role != Follower
  {
    match step
    case ReceiveVoteReply(vote, rep) => VoteReplyOutcome(nd, Peers(n, vote.src), vote, rep);
    case ReceiveAppend(c) => RequestOutcome(nd, c.req);
    case ReceiveAppendReply(c, rep) => AppendReplyIsQuiet(nd, Peers(n, c.src), c, rep);
    case _ =>
  }

  /** Whoever is a candidate or leader was started as a candidate by a thread. */
  lemma {:induction false} OfficeFromCandidacy(n: nat, steps: seq<Step>, i: Id)
    requires IsRun(n, {Leader}, steps) && i < n && After(n, {Leader}, steps).nodes[i].role != Follower
    ensures CandidacyThread(i) in After(n, {Leader}, steps).pool
  {
    if steps != [] {
      var before, step := steps[..|steps| - 1], steps[|steps| - 1];
      var s := After(n, {Leader}, before);
      if Actor(step) == i && !step.Candidacy? { OfficeKept(n, s.nodes[i], step); }
      if s.nodes[i].role != Follower { OfficeFromCandidacy(n, before, i); }
    }
  }

  /** A running node, whatever its role, becomes a candidate of the next term. */
  lemma Stand(n: nat, steps: seq<Step>, c: Id) returns (steps': seq<Step>)
    requires IsRun(n, {Leader}, steps) && c < n && After(n, {Leader}, steps).nodes[c].active
    ensures Continues(n, steps, steps') && CampaignThread(c) in After(n, {Leader}, steps').pool
    ensures var nodes := After(n, {Leader}, steps).nodes;
            After(n, {Leader}, steps').nodes == nodes[c := BecomeCandidate(nodes[c], c)]
  {
    var steps1 := steps;
    if After(n, {Leader}, steps).nodes[c].role != Follower {
      OfficeFromCandidacy(n, steps, c);
    } else {
      steps1 := Do(n, steps, TimerExpires(c));
    }
    assert After(n, {Leader}, steps1).nodes == After(n, {Leader}, steps).nodes;
    steps' := Do(n, steps1, Candidacy(c));
  }

  /** A candidate of a term from `t` on, compared with the node it was. */
  ghost predicate Standing(nd: Node, nd': Node, c: Id, t: nat) {
    nd'.active && nd'.role == Candidate && nd'.votes == {c} && nd'.term >= t && nd'.log == nd.log
  }

  lemma {:induction false} Raise(n: nat, steps: seq<Step>, c: Id, t: nat) returns (steps': seq<Step>)
    requires IsRun(n, {Leader}, steps) && c < n && After(n, {Leader}, steps).nodes[c].active
    ensures Continues(n, steps, steps') && CampaignThread(c) in After(n, {Leader}, steps').pool
    ensures var nodes, nodes' := After(n, {Leader}, steps).nodes, After(n, {Leader}, steps').nodes;
            nodes' == nodes[c := nodes'[c]] && Standing(nodes[c], nodes'[c], c, t)
    decreases t - After(n, {Leader}, steps).nodes[c].term
  {
    steps' := Stand(n, steps, c);
    if After(n, {Leader}, steps').nodes[c].term < t {
      steps' := Raise(n, steps', c, t);
    }
  }

  /** Leader `i` of term `t` holds `log`; every node runs and none is ahead of it. */
  ghost predicate Office(n: nat, nodes: seq<Node>, i: Id, t: nat, log: seq<Entry>) {
    && i < n == |nodes| && nodes[i].role == Leader && nodes[i].term == t && nodes[i].log == log
    && forall j :: 0 <= j < n ==> nodes[j].active && nodes[j].term <= t
  }

  /** A place for the voters a candidate needs, itself left out. */
  function VotersFrom(n: nat, c: Id): nat {
    if c + 1 + VotesNeeded(n) <= n then c + 1 else 0
  }

  lemma CandidateAsks(n: nat, nodes: seq<Node>, nodes': seq<Node>, c: Id)
    requires n >= 2 && |nodes| == n && c < n && (forall j :: 0 <= j < n ==> nodes[j].active && Beats(nodes[c], nodes[j]))
    requires |nodes'| == n && nodes' == nodes[c := nodes'[c]] && Standing(nodes[c], nodes'[c], c, MaxTerm(nodes) + 1)
    ensures Asking(n, nodes', c, VotersFrom(n, c), 0)
  {
    assert {c} == {c} + Range(VotersFrom(n, c), 0);
    forall v | 0 <= v < n && v != c ensures Willing(nodes'[v], nodes'[c]) {
      assert nodes'[v] == nodes[v] && Beats(nodes[c], nodes[v]);
    }
  }

  lemma WinnerInOffice(n: nat, nodes: seq<Node>, nodes': seq<Node>, c: Id)
    requires Asking(n, nodes, c, VotersFrom(n, c), 0) && Won(n, nodes, nodes', c, VotersFrom(n, c), 0)
    requires forall j :: 0 <= j < n ==> nodes[j].active && nodes[j].term <= nodes[c].term
    ensures Office(n, nodes', c, nodes[c].term, nodes[c].log)
  {
  }

  /** From every state in which all nodes run a leader can be elected that no node is ahead of. */
  lemma ElectBest(n: nat, steps: seq<Step>) returns (steps': seq<Step>, c: Id)
    requires n >= 2 && IsRun(n, {Leader}, steps) && forall j :: 0 <= j < n ==> After(n, {Leader}, steps).nodes[j].active
    ensures Continues(n, steps, steps') && c < n
    ensures var nodes' := After(n, {Leader}, steps').nodes; Office(n, nodes', c, nodes'[c].term, nodes'[c].log)
  {
    var nodes := After(n, {Leader}, steps).nodes;
    c := BestLog(nodes, n);
    var steps1 := Raise(n, steps, c, MaxTerm(nodes) + 1);
    var nodes1 := After(n, {Leader}, steps1).nodes;
    CandidateAsks(n, nodes, nodes1, c);
    var steps2 := Do(n, steps1, ReadElectionTerm(c));
    assert nodes1[c := nodes1[c]] == nodes1;
    steps' := AskAll(n, {Leader}, steps2, c, VotersFrom(n, c), 0);
    WinnerInOffice(n, nodes1, After(n, {Leader}, steps').nodes, c);
  }

  // ---------------------------------------------------------------- bringing followers up to date

  /** What stays when the leader `i` deals with `p`: everybody else, and what it knows of everybody else. */
  ghost predicate Dealt(n: nat, nodes: seq<Node>, nodes': seq<Node>, i: Id, p: Id) {
    && i < n == |nodes| == |nodes'| && p < n
    && (forall j :: 0 <= j < n && j != i && j != p ==> nodes'[j] == nodes[j])
    && (forall q: Id :: q != p ==> Get(nodes'[i].matched, q) == Get(nodes[i].matched, q))
    && nodes[i].commit <= nodes'[i].commit
  }

  /** `p` holds and has committed what leader `i` held and had committed. */
  ghost predicate Brought(nodes: seq<Node>, nodes': seq<Node>, i: Id, p: Id)
    requires i < |nodes| == |nodes'| && p < |nodes|
  {
    Get(nodes'[i].matched, p) == |nodes[i].log| && nodes'[p].commit >= nodes[i].commit
  }

  /** A timer, a request to `p`, and its answer: the runs with the request and with the answer in
      flight, in which the nodes are still what they were but for `p`, and the run with both handled. */
  lemma AskAndAnswer(n: nat, steps: seq<Step>, i: Id, p: Id) returns (asked: seq<Step>, answered: seq<Step>, steps': seq<Step>)
    requires IsRun(n, {Leader}, steps) && i < n && p < n && p != i
    requires var nd := After(n, {Leader}, steps).nodes[i]; nd.role == Leader && nd.active
    ensures Continues(n, steps, steps') && IsRun(n, {Leader}, asked) && IsRun(n, {Leader}, answered)
    ensures var nodes := After(n, {Leader}, steps).nodes; var s1, s2 := After(n, {Leader}, asked), After(n, {Leader}, answered);
            var call := MakeAppendCall(nodes[i], i, p); var answer := HandleAppend(nodes[p], call.req);
            && s1.nodes == nodes && AppendRequested(call) in s1.pool
            && |s2.nodes| == n && s2.nodes[i] == nodes[i] && AppendAnswer(call, answer.1) in s2.pool
    ensures RequestAnswered(n, After(n, {Leader}, steps).nodes, After(n, {Leader}, steps').nodes, i, p)
  {
    var nodes := After(n, {Leader}, steps).nodes;
    var call := MakeAppendCall(nodes[i], i, p);
    var rep := HandleAppend(nodes[p], call.req).1;
    var timed := Do(n, steps, TimerExpires(i));
    assert nodes[i := nodes[i]] == nodes;
    asked := Do(n, timed, SendAppend(i, p));
    answered := Do(n, asked, ReceiveAppend(call));
    steps' := Do(n, answered, ReceiveAppendReply(call, rep));
  }

  /** A request to `p` and its answer: either `p` is up to date or the next index fell. */
  lemma Round(n: nat, steps: seq<Step>, i: Id, p: Id, t: nat, log: seq<Entry>) returns (steps': seq<Step>)
    requires SafeSize(n) && IsRun(n, {Leader}, steps) && Office(n, After(n, {Leader}, steps).nodes, i, t, log) && p < n && p != i
    ensures Continues(n, steps, steps')
    ensures RoundDone(n, After(n, {Leader}, steps).nodes, After(n, {Leader}, steps').nodes, i, p, t, log)
  {
    var nodes := After(n, {Leader}, steps).nodes;
    NextIndexInRange(n, steps, i, p);
    var asked, answered;
    asked, answered, steps' := AskAndAnswer(n, steps, i, p);
    var call := MakeAppendCall(nodes[i], i, p);
    var answer := HandleAppend(nodes[p], call.req);
    Answered(nodes[i], i, p, nodes[p]);
    if answer.1.success {
      AnnouncedIsCommitted(n, asked, call);
      RoundAccepted(n, nodes, After(n, {Leader}, steps').nodes, i, p, t, log);
    } else {
      RejectionMovesBack(n, answered, call, answer.1);
      RoundRejected(n, nodes, After(n, {Leader}, steps').nodes, i, p, t, log);
    }
  }

  ghost predicate RoundDone(n: nat, nodes: seq<Node>, nodes': seq<Node>, i: Id, p: Id, t: nat, log: seq<Entry>) {
    && Office(n, nodes', i, t, log) && Dealt(n, nodes, nodes', i, p)
    && (Brought(nodes, nodes', i, p) || 0 <= Get(nodes'[i].next, p) < Get(nodes[i].next, p))
  }

  /** The answer to a leader no node is ahead of is counted. */
  lemma Answered(nd: Node, i: Id, p: Id, f: Node)
    requires nd.role == Leader && f.active && f.term <= nd.term
    ensures var call := MakeAppendCall(nd, i, p); var (f', rep) := HandleAppend(f, call.req);
            && f'.active && f'.term == nd.term && call.next == Get(nd.next, p) && call.matched == Get(nd.matched, p)
            && call.src == i && call.dst == p && call.counter == Get(nd.counter, p) + 1 && call.req.leaderCommit == nd.commit
            && (rep.success ==> Accepts(nd, call, rep)) && (!rep.success ==> Rejects(nd, call, rep) && rep.conflict.Some?)
  {
    RequestOutcome(f, MakeAppendCall(nd, i, p).req);
  }

  lemma RoundAccepted(n: nat, nodes: seq<Node>, nodes': seq<Node>, i: Id, p: Id, t: nat, log: seq<Entry>)
    requires Office(n, nodes, i, t, log) && p < n && p != i && 1 <= Get(nodes[i].next, p) <= |log| + 1
    requires RequestAnswered(n, nodes, nodes', i, p)
    requires var answer := HandleAppend(nodes[p], MakeAppendCall(nodes[i], i, p).req);
             answer.1.success && answer.0.commit >= nodes[i].commit
    ensures RoundDone(n, nodes, nodes', i, p, t, log)
  {
    var call := MakeAppendCall(nodes[i], i, p);
    var answer := HandleAppend(nodes[p], call.req);
    Answered(nodes[i], i, p, nodes[p]);
    AcknowledgementOutcome(nodes[i], Peers(n, i), call, answer.1);
    assert call.next + |call.req.entries| - 1 == |log|;
    Replaced(n, nodes, nodes', i, p, t, log, answer.0, HandleAppendReply(nodes[i], Peers(n, i), call, answer.1));
  }

  lemma RoundRejected(n: nat, nodes: seq<Node>, nodes': seq<Node>, i: Id, p: Id, t: nat, log: seq<Entry>)
    requires Office(n, nodes, i, t, log) && p < n && p != i && RequestAnswered(n, nodes, nodes', i, p)
    requires var call := MakeAppendCall(nodes[i], i, p); var rep := HandleAppend(nodes[p], call.req).1;
             !rep.success && 0 <= Get(HandleAppendReply(nodes[i], Peers(n, i), call, rep).next, p) < Get(nodes[i].next, p)
    ensures RoundDone(n, nodes, nodes', i, p, t, log)
  {
    var call := MakeAppendCall(nodes[i], i, p);
    var answer := HandleAppend(nodes[p], call.req);
    Answered(nodes[i], i, p, nodes[p]);
    RejectionOutcome(nodes[i], Peers(n, i), call, answer.1);
    Replaced(n, nodes, nodes', i, p, t, log, answer.0, HandleAppendReply(nodes[i], Peers(n, i), call, answer.1));
  }

  lemma Replaced(n: nat, nodes: seq<Node>, nodes': seq<Node>, i: Id, p: Id, t: nat, log: seq<Entry>, f: Node, nd: Node)
    requires Office(n, nodes, i, t, log) && p < n && p != i && nodes' == nodes[p := f][i := nd]
    requires f.active && f.term <= t && nd.active && nd.role == Leader && nd.term == t && nd.log == log
    requires nd.commit >= nodes[i].commit && forall q: Id :: q != p ==> Get(nd.matched, q) == Get(nodes[i].matched, q)
    ensures Office(n, nodes', i, t, log) && Dealt(n, nodes, nodes', i, p) && nodes'[p] == f && nodes'[i] == nd
  {
  }

  lemma {:induction false} Bring(n: nat, steps: seq<Step>, i: Id, p: Id, t: nat, log: seq<Entry>) returns (steps': seq<Step>)
    requires SafeSize(n) && IsRun(n, {Leader}, steps) && Office(n, After(n, {Leader}, steps).nodes, i, t, log) && p < n && p != i
    ensures Continues(n, steps, steps')
    ensures var nodes, nodes' := After(n, {Leader}, steps).nodes, After(n, {Leader}, steps').nodes;
            Office(n, nodes', i, t, log) && Dealt(n, nodes, nodes', i, p) && Brought(nodes, nodes', i, p)
    decreases Get(After(n, {Leader}, steps).nodes[i].next, p)
  {
    steps' := Round(n, steps, i, p, t, log);
    NextIndexInRange(n, steps, i, p);
    var nodes, nodes1 := After(n, {Leader}, steps).nodes, After(n, {Leader}, steps').nodes;
    if !Brought(nodes, nodes1, i, p) {
      steps' := Bring(n, steps', i, p, t, log);
      DealtTwice(n, nodes, nodes1, After(n, {Leader}, steps').nodes, i, p);
    }
  }

  lemma DealtTwice(n: nat, nodes: seq<Node>, nodes1: seq<Node>, nodes': seq<Node>, i: Id, p: Id)
    requires Dealt(n, nodes, nodes1, i, p) && Dealt(n, nodes1, nodes', i, p)
    ensures Dealt(n, nodes, nodes', i, p)
  {
  }

  /** The peers below `k` are up to date with what leader `i` had committed in `nodes`. */
  ghost predicate AllBrought(n: nat, nodes: seq<Node>, nodes': seq<Node>, i: Id, k: nat) {
    && i < n == |nodes| == |nodes'| && k <= n && nodes[i].commit <= nodes'[i].commit
    && forall p :: 0 <= p < k && p != i ==> Brought(nodes, nodes', i, p)
  }

  lemma {:induction false} BringAll(n: nat, steps: seq<Step>, i: Id, t: nat, log: seq<Entry>, k: nat) returns (steps': seq<Step>)
    requires SafeSize(n) && IsRun(n, {Leader}, steps) && Office(n, After(n, {Leader}, steps).nodes, i, t, log) && k <= n
    ensures Continues(n, steps, steps') && Office(n, After(n, {Leader}, steps').nodes, i, t, log)
    ensures AllBrought(n, After(n, {Leader}, steps).nodes, After(n, {Leader}, steps').nodes, i, k)
  {
    if k == 0 {
      steps' := steps;
    } else {
      var steps1 := BringAll(n, steps, i, t, log, k - 1);
      steps' := BringNext(n, steps1, i, t, log, k);
      BroughtOneMore(n, After(n, {Leader}, steps).nodes, After(n, {Leader}, steps1).nodes, After(n, {Leader}, steps').nodes, i, k);
    }
  }

  ghost predicate DealtNext(n: nat, nodes: seq<Node>, nodes': seq<Node>, i: Id, k: nat) {
    && i < n == |nodes| == |nodes'| && 1 <= k <= n
    && if k - 1 == i then nodes' == nodes else Dealt(n, nodes, nodes', i, k - 1) && Brought(nodes, nodes', i, k - 1)
  }

  lemma BringNext(n: nat, steps: seq<Step>, i: Id, t: nat, log: seq<Entry>, k: nat) returns (steps': seq<Step>)
    requires SafeSize(n) && IsRun(n, {Leader}, steps) && Office(n, After(n, {Leader}, steps).nodes, i, t, log) && 1 <= k <= n
    ensures Continues(n, steps, steps') && Office(n, After(n, {Leader}, steps').nodes, i, t, log)
    ensures DealtNext(n, After(n, {Leader}, steps).nodes, After(n, {Leader}, steps').nodes, i, k)
  {
    steps' := steps;
    if k - 1 != i { steps' := Bring(n, steps, i, k - 1, t, log); }
  }

  lemma BroughtOneMore(n: nat, nodes: seq<Node>, nodes1: seq<Node>, nodes': seq<Node>, i: Id, k: nat)
    requires 1 <= k <= n && AllBrought(n, nodes, nodes1, i, k - 1) && nodes1[i].log == nodes[i].log
    requires DealtNext(n, nodes1, nodes', i, k)
    ensures AllBrought(n, nodes, nodes', i, k)
  {
    forall p | 0 <= p < k && p != i ensures Brought(nodes, nodes', i, p) {
      if p < k - 1 { assert Brought(nodes, nodes1, i, p); }
    }
  }

  // ---------------------------------------------------------------- committing

  /** A leader whose whole log, ending in its own term, is matched everywhere has committed it. */
  lemma AllMatchedCommits(n: nat, steps: seq<Step>, i: Id, t: nat, log: seq<Entry>)
    requires SafeSize(n) && IsRun(n, {Leader}, steps) && Office(n, After(n, {Leader}, steps).nodes, i, t, log)
    requires log != [] && LastTerm(log) == t
    requires forall p: Id :: p < n && p != i ==> Get(After(n, {Leader}, steps).nodes[i].matched, p) == |log|
    ensures After(n, {Leader}, steps).nodes[i].commit == |log|
  {
    ReachableInv(n, steps);
    AppliedIsCommitted(n, steps, i);
    MatchedIsCommitted(n, HistoryOf(n, {Leader}, steps), i, After(n, {Leader}, steps).nodes[i]);
  }

  lemma MatchedIsCommitted(n: nat, h: History, i: Id, nd: Node)
    requires NodeI(n, h, i, nd) && nd.role == Leader && i < n && nd.log != [] && LastTerm(nd.log) == nd.term && nd.commit <= |nd.log|
    requires forall p: Id :: p < n && p != i ==> Get(nd.matched, p) == |nd.log|
    ensures nd.commit == |nd.log|
  {
    assert Holders(nd.matched, Peers(n, i), |nd.log|) == Peers(n, i);
    assert |Peers(n, i)| == n - 1;
    assert Committable(nd.log, nd.term, nd.matched, Peers(n, i), |nd.log|);
  }

  /** No reachable state is stuck: every run of two or more nodes can be continued until some leader
      appended the given command and every node has applied that leader's whole log. */
  lemma CommandCanBeApplied(n: nat, steps: seq<Step>, data: string) returns (steps': seq<Step>, i: Id)
    requires SafeSize(n) && n >= 2 && IsRun(n, {Leader}, steps)
    ensures IsRun(n, {Leader}, steps') && steps <= steps' && i < n
    ensures var nodes' := After(n, {Leader}, steps').nodes; var log := nodes'[i].log;
            && nodes'[i].role == Leader && log != [] && log[|log| - 1] == Entry(nodes'[i].term, data)
            && forall j, k :: 0 <= j < n && 0 <= k < |log| ==>
                 k < |nodes'[j].delivered| && nodes'[j].delivered[k] == ApplyResult(true, log[k].command, k + 1)
  {
    var steps1 := Awaken(n, steps, n);
    var steps2;
    steps2, i := ElectBest(n, steps1);
    var nd := After(n, {Leader}, steps2).nodes[i];
    var log, t := nd.log + [Entry(nd.term, data)], nd.term;
    var steps3 := Do(n, steps2, ClientProposes(i, data));
    ProposedInOffice(n, After(n, {Leader}, steps2).nodes, After(n, {Leader}, steps3).nodes, i, data);
    steps' := Publish(n, steps3, i, t, log);
    forall j | 0 <= j < n ensures Shares(After(n, {Leader}, steps').nodes[j].delivered, log) {
      SharedLog(n, steps', i, j, log);
    }
  }

  lemma ProposedInOffice(n: nat, nodes: seq<Node>, nodes': seq<Node>, i: Id, data: string)
    requires i < n == |nodes| && Office(n, nodes, i, nodes[i].term, nodes[i].log) && nodes' == nodes[i := Propose(nodes[i], data).0]
    ensures Office(n, nodes', i, nodes[i].term, nodes[i].log + [Entry(nodes[i].term, data)])
  {
  }

  /** A leader no node is ahead of, with an entry of its own term at the end of its log, can have its
      whole log committed by every node. */
  lemma Publish(n: nat, steps: seq<Step>, i: Id, t: nat, log: seq<Entry>) returns (steps': seq<Step>)
    requires SafeSize(n) && IsRun(n, {Leader}, steps) && Office(n, After(n, {Leader}, steps).nodes, i, t, log)
    requires log != [] && LastTerm(log) == t
    ensures Continues(n, steps, steps') && Office(n, After(n, {Leader}, steps').nodes, i, t, log)
    ensures forall j :: 0 <= j < n ==> After(n, {Leader}, steps').nodes[j].commit >= |log|
  {
    var steps1 := BringAll(n, steps, i, t, log, n);
    AllMatched(n, After(n, {Leader}, steps).nodes, After(n, {Leader}, steps1).nodes, i);
    AllMatchedCommits(n, steps1, i, t, log);
    steps' := BringAll(n, steps1, i, t, log, n);
    AllMatched(n, After(n, {Leader}, steps1).nodes, After(n, {Leader}, steps').nodes, i);
  }

  lemma AllMatched(n: nat, nodes: seq<Node>, nodes': seq<Node>, i: Id)
    requires AllBrought(n, nodes, nodes', i, n)
    ensures forall p: Id :: p < n && p != i ==> Get(nodes'[i].matched, p) == |nodes[i].log|
    ensures forall j :: 0 <= j < n ==> nodes'[j].commit >= nodes[i].commit
  {
    forall p: Id | p < n && p != i
      ensures Get(nodes'[i].matched, p) == |nodes[i].log| && nodes'[p].commit >= nodes[i].commit
    {
      assert Brought(nodes, nodes', i, p);
    }
  }

  /** A node without peers, in contrast, never leads: nobody sends it the vote it waits for. */
  lemma LoneNodeNeverLeads(n: nat, steps: seq<Step>, i: Id)
    requires n <= 1 && IsRun(n, {Leader}, steps) && i < n
    ensures After(n, {Leader}, steps).nodes[i].role != Leader
  {
    ReachableInv(n, steps);
    assert NodeI(n, HistoryOf(n, {Leader}, steps), i, After(n, {Leader}, steps).nodes[i]);
  }

  /** What was applied starts with the entries of `log`. */
  ghost predicate Shares(delivered: seq<ApplyResult>, log: seq<Entry>) {
    forall k :: 0 <= k < |log| ==> k < |delivered| && delivered[k] == ApplyResult(true, log[k].command, k + 1)
  }

  lemma SharedLog(n: nat, steps: seq<Step>, i: Id, j: Id, log: seq<Entry>)
    requires SafeSize(n) && IsRun(n, {Leader}, steps) && i < n && j < n
    requires var nodes := After(n, {Leader}, steps).nodes;
             nodes[i].log == log && nodes[i].commit >= |log| && nodes[j].commit >= |log|
    ensures Shares(After(n, {Leader}, steps).nodes[j].delivered, log)
  {
    AppliedIsCommitted(n, steps, i);
    AppliedIsCommitted(n, steps, j);
    assert steps[..|steps|] == steps;
    StateMachineSafety(n, steps, |steps|, i, |steps|, j);
  }
}
