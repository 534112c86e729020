/** Further properties of every run: what commits, indices, votes and acknowledgements mean. */
module Consequences {
  import opened RaftTypes
  import opened LogOps
  import opened NodeSpec
  import opened Cluster
  import opened Quorums
  import opened History
  import opened Elections
  import opened Logs
  import opened Acks
  import opened Completeness
  import opened Commits
  import opened Indices
  import opened Preservation
  import opened Reachability
  import opened Theorems
  import opened Repair

  // ---------------------------------------------------------------- committed prefix

  lemma AcceptCommitMonotone(n: nat, h: History, nd: Node, c: AppendCall)
    requires CallL(n, h, c) && OfReigns(h.reigns, nd.log) && OfReigns(h.reigns, h.reigns[c.req.term].log)
    requires CommitPrefixOf(nd, h.reigns[c.req.term].log) && HandleAppend(nd, c.req).1.success
    ensures nd.commit <= HandleAppend(nd, c.req).0.commit
  {
    AcceptShape(nd, c.req);
    WovenMatching(h.reigns, nd.log, h.reigns[c.req.term].log);
    MergeKeepsShared(nd.log, h.reigns[c.req.term].log, c.req.prevIndex, c.req.prevTerm, c.req.entries, nd.commit);
  }

  lemma OtherStepsKeepCommit(n: nat, nd: Node, step: Step)
    requires !step.ReceiveAppend?
    ensures nd.commit <= NodeAfter(n, nd, step).commit
  {
    match step
    case ReceiveAppendReply(c, rep) => AppendReplyKeepsCommit(nd, Peers(n, c.src), c, rep);
    case _ =>
  }

  lemma AppendReplyKeepsCommit(nd: Node, peers: set<Id>, c: AppendCall, rep: AppendReply)
    ensures nd.commit <= HandleAppendReply(nd, peers, c, rep).commit
  {
  }

  lemma CommitMonotoneStep(n: nat, s: State, h: History, step: Step)
    requires Local(n, s, h, step)
    ensures s.nodes[Actor(step)].commit <= NodeAfter(n, s.nodes[Actor(step)], step).commit
  {
    var nd := s.nodes[Actor(step)];
    if !step.ReceiveAppend? {
      OtherStepsKeepCommit(n, nd, step);
    } else if HandleAppend(nd, step.append.req).1.success {
      assert Consumes(step, AppendRequested(step.append));
      assert nd.term <= step.append.req.term;
      AcceptCommitMonotone(n, h, nd, step.append);
    } else {
      RejectShape(nd, step.append.req);
    }
  }

  lemma CommitMonotoneLast(n: nat, steps: seq<Step>, i: Id)
    requires SafeSize(n) && IsRun(n, {Leader}, steps) && steps != [] && i < n
    ensures var before := steps[..|steps| - 1];
            IsRun(n, {Leader}, before) && After(n, {Leader}, before).nodes[i].commit <= After(n, {Leader}, steps).nodes[i].commit
  {
    var before, step := steps[..|steps| - 1], steps[|steps| - 1];
    ReachableInv(n, before);
    var s := After(n, {Leader}, before);
    LocalFacts(n, s, HistoryOf(n, {Leader}, before), step);
    CommitMonotoneStep(n, s, HistoryOf(n, {Leader}, before), step);
  }

  /** On every run a node's commit index never decreases. */
  lemma {:induction false} CommitMonotone(n: nat, steps: seq<Step>, k: nat, i: Id)
    requires SafeSize(n) && IsRun(n, {Leader}, steps) && k <= |steps| && i < n
    ensures IsRun(n, {Leader}, steps[..k])
    ensures After(n, {Leader}, steps[..k]).nodes[i].commit <= After(n, {Leader}, steps).nodes[i].commit
  {
    if k == |steps| {
      assert steps[..k] == steps;
    } else {
      CommitMonotoneLast(n, steps, i);
      CommitMonotone(n, steps[..|steps| - 1], k, i);
      assert steps[..|steps| - 1][..k] == steps[..k];
    }
  }

  /** Nothing at or below a node's commit index is ever erased or changed, and what it applied
      is never taken back. */
  lemma CommittedPrefixImmutable(n: nat, steps: seq<Step>, k: nat, l: nat, i: Id)
    requires SafeSize(n) && IsRun(n, {Leader}, steps) && k <= l <= |steps| && i < n
    ensures At(n, {Leader}, steps, k, i).Some? && At(n, {Leader}, steps, l, i).Some?
    ensures var a, b := At(n, {Leader}, steps, k, i).value, At(n, {Leader}, steps, l, i).value;
            && a.commit <= b.commit && a.applied <= b.applied && a.commit <= |a.log| && a.commit <= |b.log|
            && b.log[..a.commit] == a.log[..a.commit] && a.delivered <= b.delivered
  {
    PrefixIsRun(n, {Leader}, steps, l);
    CommitMonotone(n, steps[..l], k, i);
    assert steps[..l][..k] == steps[..k];
    CommittedAtEnd(n, steps, k, i);
    CommittedAtEnd(n, steps, l, i);
    FactsAtEnd(n, steps);
    var h := HistoryOf(n, {Leader}, steps);
    var a, b := At(n, {Leader}, steps, k, i).value, At(n, {Leader}, steps, l, i).value;
    CommittedComparable(n, h, a, b);
    DeliveredPrefix(a, b);
  }

  // ---------------------------------------------------------------- replication indices

  /** Every access a leader makes to its log is in range: building a request for `p`. */
  lemma NextIndexInRange(n: nat, steps: seq<Step>, i: Id, p: Id)
    requires SafeSize(n) && IsRun(n, {Leader}, steps) && i < n && p in Peers(n, i)
    ensures var nd := After(n, {Leader}, steps).nodes[i];
            nd.role == Leader ==> 1 <= Get(nd.next, p) <= |nd.log| + 1 && 0 <= Get(nd.matched, p) < Get(nd.next, p)
  {
    ReachableInv(n, steps);
    var nd := After(n, {Leader}, steps).nodes[i];
    assert NodeI(n, HistoryOf(n, {Leader}, steps), i, nd);
    if nd.role == Leader { assert PeerI(HistoryOf(n, {Leader}, steps), nd, p); }
  }

  /** The bounds of the search the leader makes when a rejection carries conflict information. */
  function SearchLeft(nd: Node, c: AppendCall): int {
    if Get(nd.matched, c.dst) < 0 then 0 else Get(nd.matched, c.dst)
  }

  function SearchRight(nd: Node, c: AppendCall): int {
    if c.logSize - 1 < Get(nd.next, c.dst) - 2 then c.logSize - 1 else Get(nd.next, c.dst) - 2
  }

  /** The invariant at the node that handles a reply. */
  lemma ReplyFacts(n: nat, steps: seq<Step>, c: AppendCall, rep: AppendReply)
    requires SafeSize(n) && IsRun(n, {Leader}, steps) && AppendAnswer(c, rep) in After(n, {Leader}, steps).pool && c.src < n
    ensures var s := After(n, {Leader}, steps); var h := HistoryOf(n, {Leader}, steps); var nd := s.nodes[c.src];
            && NodeE(n, h, c.src, nd) && NodeI(n, h, c.src, nd) && Sorted(nd.log)
            && CallL(n, h, c) && CallI(h, c) && AnswerI(h, c, rep)
  {
    ReachableInv(n, steps);
    var s := After(n, {Leader}, steps);
    var h := HistoryOf(n, {Leader}, steps);
    LogFacts(n, s, h, c.src);
    assert ItemL(n, h, AppendAnswer(c, rep)) && ItemI(h, AppendAnswer(c, rep));
  }

  /** No reply in flight makes its handler reach outside the log. */
  lemma RepliesInRange(n: nat, steps: seq<Step>, c: AppendCall, rep: AppendReply)
    requires SafeSize(n) && IsRun(n, {Leader}, steps) && AppendAnswer(c, rep) in After(n, {Leader}, steps).pool && c.src < n
    ensures ReplyInRange(After(n, {Leader}, steps).nodes[c.src], c, rep)
  {
    ReplyFacts(n, steps, c, rep);
    var nd := After(n, {Leader}, steps).nodes[c.src];
    if nd.role == Leader { assert PeerI(HistoryOf(n, {Leader}, steps), nd, c.dst); }
  }

  /** When a rejection is handled, the search stays inside the log and finds what a linear scan
      finds; the new next index is positive, below the old one, and still above the match index. */
  lemma RejectionSound(n: nat, steps: seq<Step>, c: AppendCall, rep: AppendReply)
    requires SafeSize(n) && IsRun(n, {Leader}, steps) && AppendAnswer(c, rep) in After(n, {Leader}, steps).pool && c.src < n
    requires var nd := After(n, {Leader}, steps).nodes[c.src];
             && Rejects(nd, c, rep) && rep.conflict.Some?
             && c.next == Get(nd.next, c.dst) && c.matched == Get(nd.matched, c.dst)
    ensures var nd := After(n, {Leader}, steps).nodes[c.src];
            && 0 <= SearchLeft(nd, c) && SearchRight(nd, c) < |nd.log|
            && BinarySearch(nd.log, SearchLeft(nd, c), SearchRight(nd, c), rep.conflict.value.term, -1)
               == LinearScan(nd.log, SearchLeft(nd, c), SearchRight(nd, c), rep.conflict.value.term)
            && Get(nd.matched, c.dst) < Backup(nd, c, rep) < Get(nd.next, c.dst)
  {
    ReplyFacts(n, steps, c, rep);
    var nd := After(n, {Leader}, steps).nodes[c.src];
    var h := HistoryOf(n, {Leader}, steps);
    assert PeerI(h, nd, c.dst);
    BackupInRange(nd, c, rep);
    BinarySearchIsLinearScan(nd.log, SearchLeft(nd, c), SearchRight(nd, c), rep.conflict.value.term);
  }

  /** After an accepted reply the commit index is the larger of its old value and the largest
      index of the current term held by a majority, over the whole log. */
  lemma CommitScanIsGlobal(n: nat, steps: seq<Step>, c: AppendCall, rep: AppendReply)
    requires SafeSize(n) && IsRun(n, {Leader}, steps) && AppendAnswer(c, rep) in After(n, {Leader}, steps).pool && c.src < n
    requires Accepts(After(n, {Leader}, steps).nodes[c.src], c, rep)
    ensures var nd := After(n, {Leader}, steps).nodes[c.src];
            var nd' := HandleAppendReply(nd, Peers(n, c.src), c, rep);
            && 0 <= LastSent(c) <= |nd.log|
            && nd.commit <= nd'.commit
            && (nd'.commit == nd.commit || Committable(nd.log, nd.term, nd'.matched, Peers(n, c.src), nd'.commit))
            && (forall N :: nd.commit < N <= |nd.log| && Committable(nd.log, nd.term, nd'.matched, Peers(n, c.src), N) ==> N <= nd'.commit)
  {
    ReplyFacts(n, steps, c, rep);
    var nd := After(n, {Leader}, steps).nodes[c.src];
    var h := HistoryOf(n, {Leader}, steps);
    var nd' := HandleAppendReply(nd, Peers(n, c.src), c, rep);
    AppendReplyNodeI(n, h, c.src, nd, c, rep);
    assert CommitMaximal(nd', Peers(n, c.src));
  }

  /** A match index is truthful: as long as the peer is in the leader's term, its log starts with
      that many entries of the leader's log. */
  lemma MatchIndexTruthful(n: nat, steps: seq<Step>, i: Id, p: Id)
    requires SafeSize(n) && IsRun(n, {Leader}, steps) && i < n && p in Peers(n, i)
    requires After(n, {Leader}, steps).nodes[i].role == Leader
    ensures var nd, peer := After(n, {Leader}, steps).nodes[i], After(n, {Leader}, steps).nodes[p];
            var m := Get(nd.matched, p);
            && 0 <= m <= |nd.log| && (m > 0 ==> nd.term <= peer.term)
            && (peer.term == nd.term ==> m <= |peer.log| && peer.log[..m] == nd.log[..m])
  {
    ReachableInv(n, steps);
    var s := After(n, {Leader}, steps);
    MatchedHeld(n, HistoryOf(n, {Leader}, steps), s.nodes[i], i, s.nodes[p], p);
  }

  lemma MatchedHeld(n: nat, h: History, nd: Node, i: Id, peer: Node, p: Id)
    requires NodeE(n, h, i, nd) && NodeI(n, h, i, nd) && nd.role == Leader && p in Peers(n, i) && NodeA(h, p, peer)
    requires forall b :: b in h.acks ==> AckBound(h, b)
    ensures var m := Get(nd.matched, p);
            && 0 <= m <= |nd.log| && (m > 0 ==> nd.term <= peer.term)
            && (peer.term == nd.term ==> m <= |peer.log| && peer.log[..m] == nd.log[..m])
  {
    assert PeerI(h, nd, p);
    var m := Get(nd.matched, p);
    if m > 0 {
      assert AckBound(h, Ballot(nd.term, p));
      assert Acked(h, nd.term, p, m);
    }
  }

  // ---------------------------------------------------------------- follower commit bound

  /** The follower's bound, the size of its log, never commits more than the bound of Figure 2,
      the index of the last entry the request carries. */
  lemma FollowerBoundSafe(n: nat, steps: seq<Step>, c: AppendCall, nd: Node)
    requires SafeSize(n) && IsRun(n, {Leader}, steps) && AppendRequested(c) in After(n, {Leader}, steps).pool
    requires PrevMatches(nd.log, c.req.prevIndex, c.req.prevTerm)
    ensures var last := c.req.prevIndex + |c.req.entries|;
            && c.req.leaderCommit <= last
            && Min(c.req.leaderCommit, |Merged(nd, c.req).log|) == Min(c.req.leaderCommit, last)
  {
    ReachableInv(n, steps);
    assert ItemC(n, HistoryOf(n, {Leader}, steps), AppendRequested(c));
  }

  // ---------------------------------------------------------------- proposals

  /** A proposal's entry is in place as long as its index carries the proposal's term; while the
      proposer is still in that term it always does. */
  lemma ProposalInPlace(n: nat, steps: seq<Step>, i: Id, res: ProposalResult, data: string, j: Id)
    requires SafeSize(n) && IsRun(n, {Leader}, steps) && Proposed(i, res, data) in After(n, {Leader}, steps).pool
    requires i < n && j < n && 1 <= res.index <= |After(n, {Leader}, steps).nodes[j].log|
    ensures var nd := After(n, {Leader}, steps).nodes[j];
            && (nd.log[res.index - 1] == Entry(res.term, data) <==> nd.log[res.index - 1].term == res.term)
            && (j == i && nd.term == res.term ==> nd.log[res.index - 1] == Entry(res.term, data))
  {
    ReachableInv(n, steps);
    var s := After(n, {Leader}, steps);
    var h := HistoryOf(n, {Leader}, steps);
    assert ItemL(n, h, Proposed(i, res, data));
    assert NodeL(h, s.nodes[j]);
    EntryFromReign(h, s.nodes[j].log, res, data);
    if j == i && s.nodes[j].term == res.term { OwnLog(n, s, h, i); }
  }

  lemma EntryFromReign(h: History, log: seq<Entry>, res: ProposalResult, data: string)
    requires OfReigns(h.reigns, log) && res.term in h.reigns && 1 <= res.index <= |h.reigns[res.term].log|
    requires h.reigns[res.term].log[res.index - 1] == Entry(res.term, data) && res.index <= |log|
    ensures log[res.index - 1] == Entry(res.term, data) <==> log[res.index - 1].term == res.term
  {
    var k := res.index - 1;
    assert FromReign(h.reigns, log, k);
    if log[k].term == res.term {
      assert log[k] == log[..k + 1][k] == h.reigns[res.term].log[..k + 1][k];
    }
  }

  /** A node still in the term it leads has that reign's log. */
  lemma OwnLog(n: nat, s: State, h: History, i: Id)
    requires InvE(n, s, h) && InvL(n, s, h) && i < n
    requires s.nodes[i].term in h.reigns && h.reigns[s.nodes[i].term].leader == i
    ensures h.reigns[s.nodes[i].term].log == s.nodes[i].log
  {
    var t := s.nodes[i].term;
    assert NodeE(n, h, i, s.nodes[i]) && ReignL(s.nodes, h, t, h.reigns[t]);
  }

  /** propose_sync: if the proposer's commit index reached its proposal and its log still carries
      the proposal's term there (as it does until the proposer's term changes), then whatever any
      node applies at that index, at any point of the run, is the proposed value. */
  lemma SyncAcknowledgementDurable(n: nat, steps: seq<Step>, k: nat, i: Id, res: ProposalResult, data: string, l: nat, j: Id)
    requires SafeSize(n) && IsRun(n, {Leader}, steps) && k <= |steps| && l <= |steps| && i < n && j < n
    requires IsRun(n, {Leader}, steps[..k]) && Proposed(i, res, data) in After(n, {Leader}, steps[..k]).pool
    requires var nd := After(n, {Leader}, steps[..k]).nodes[i];
             1 <= res.index <= nd.commit && (nd.term == res.term || TermAt(nd.log, res.index - 1) == res.term)
    ensures At(n, {Leader}, steps, l, j).Some?
    ensures var d := At(n, {Leader}, steps, l, j).value.delivered;
            res.index <= |d| ==> d[res.index - 1] == ApplyResult(true, data, res.index)
  {
    AtFacts(n, steps, k, i);
    var nd := After(n, {Leader}, steps[..k]).nodes[i];
    ProposalInPlace(n, steps[..k], i, res, data, i);
    assert nd.delivered[res.index - 1] == ApplyResult(true, data, res.index);
    StateMachineSafety(n, steps, k, i, l, j);
  }

  /** The same for the log of every later leader. */
  lemma SyncAcknowledgementInLeaders(n: nat, steps: seq<Step>, k: nat, i: Id, res: ProposalResult, data: string,
                                     l: nat, j: Id, term: nat)
    requires SafeSize(n) && IsRun(n, {Leader}, steps) && k <= |steps| && i < n
    requires IsRun(n, {Leader}, steps[..k]) && Proposed(i, res, data) in After(n, {Leader}, steps[..k]).pool
    requires var nd := After(n, {Leader}, steps[..k]).nodes[i]; 1 <= res.index <= nd.commit && nd.term == res.term
    requires LeaderAt(n, {Leader}, steps, l, j, term) && term > res.term
    ensures var b := At(n, {Leader}, steps, l, j).value;
            res.index <= |b.log| && b.log[res.index - 1] == Entry(res.term, data)
  {
    AtFacts(n, steps, k, i);
    var nd := After(n, {Leader}, steps[..k]).nodes[i];
    ProposalInPlace(n, steps[..k], i, res, data, i);
    var h := HistoryOf(n, {Leader}, steps);
    CommittedAtEnd(n, steps, k, i);
    BaseAt(n, steps, l, j, term);
    FactsAtEnd(n, steps);
    BaseHolds(n, h, nd, term);
    var base := h.reigns[term].base;
    assert base[res.index - 1] == base[..nd.commit][res.index - 1] == nd.log[res.index - 1];
  }

  // ---------------------------------------------------------------- logs of one run

  /** Any two logs of a reachable state have positive, nondecreasing terms bounded by their node's
      term and match wherever their terms match: what log repair relies on. */
  lemma ReachableRelated(n: nat, steps: seq<Step>, i: Id, j: Id)
    requires SafeSize(n) && IsRun(n, {Leader}, steps) && i < n && j < n
    ensures var s := After(n, {Leader}, steps);
            && Related(s.nodes[i].log, s.nodes[j].log)
            && forall k :: 0 <= k < |s.nodes[i].log| ==> s.nodes[i].log[k].term <= s.nodes[i].term
  {
    ReachableInv(n, steps);
    var s := After(n, {Leader}, steps);
    var h := HistoryOf(n, {Leader}, steps);
    LogFacts(n, s, h, i);
    LogFacts(n, s, h, j);
    assert NodeL(h, s.nodes[i]) && NodeL(h, s.nodes[j]);
    WovenMatching(h.reigns, s.nodes[i].log, s.nodes[j].log);
  }

  /** Log repair in any reachable state: a leader with nothing acknowledged by a running follower
      that is not ahead of it, and that has not backed up past their common prefix, is accepted
      exactly at that prefix, after at most one rejection more than the follower's log has terms. */
  lemma RepairInRuns(n: nat, steps: seq<Step>, i: Id, p: Id)
    requires SafeSize(n) && IsRun(n, {Leader}, steps) && i < n && p in Peers(n, i)
    requires var nd, f := After(n, {Leader}, steps).nodes[i], After(n, {Leader}, steps).nodes[p];
             && nd.role == Leader && f.active && f.term <= nd.term && Get(nd.matched, p) == 0
             && Agreeing(nd.log, f.log) < Get(nd.next, p)
    ensures var nd, f := After(n, {Leader}, steps).nodes[i], After(n, {Leader}, steps).nodes[p];
            && Repairing(nd, f, p)
            && var (rejections, accepted) := Exchange(nd, i, f, p, Peers(n, i));
               accepted == Agreeing(nd.log, f.log) && rejections <= 1 + |TermsOf(f.log)|
  {
    var nd, f := After(n, {Leader}, steps).nodes[i], After(n, {Leader}, steps).nodes[p];
    ReachableRelated(n, steps, i, p);
    NextIndexInRange(n, steps, i, p);
    RepairFrom(nd, i, f, p, Peers(n, i));
  }

  // ---------------------------------------------------------------- repeated and delayed requests

  /** Handling any request twice in a row equals handling it once, reply included. */
  lemma HandlingTwiceIsOnce(nd: Node, req: AppendRequest)
    ensures var (nd', rep) := HandleAppend(nd, req); HandleAppend(nd', req) == (nd', rep)
  {
    var (nd', rep) := HandleAppend(nd, req);
    if rep.success {
      MergeIdempotent(nd.log, req.prevIndex, req.entries);
      AcceptShape(nd, req);
      MergedTwice(nd, req);
      CommitTwice(Merged(nd, req), req.leaderCommit);
    }
  }

  lemma CommitTwice(nd: Node, leaderCommit: nat)
    ensures FollowerCommit(FollowerCommit(nd, leaderCommit), leaderCommit) == FollowerCommit(nd, leaderCommit)
  {
  }

  /** After accepting, the request's previous index still matches and merging changes nothing. */
  lemma MergedTwice(nd: Node, req: AppendRequest)
    requires nd.active && nd.term <= req.term && PrevMatches(nd.log, req.prevIndex, req.prevTerm)
    ensures var nd' := FollowerCommit(Merged(nd, req), req.leaderCommit);
            && nd'.active && nd'.term == req.term && PrevMatches(nd'.log, req.prevIndex, req.prevTerm) && Merged(nd', req) == nd'
  {
    MergeIdempotent(nd.log, req.prevIndex, req.entries);
    var r := Merge(nd.log, req.prevIndex, req.entries);
    if req.prevIndex > 0 {
      assert r[req.prevIndex - 1] == r[..req.prevIndex][req.prevIndex - 1] == nd.log[..req.prevIndex][req.prevIndex - 1];
    }
  }

  /** A request of the same leader that was overtaken by one reaching further is accepted and
      leaves the log as it is. */
  lemma OvertakenRequestHarmless(n: nat, steps: seq<Step>, older: AppendCall, newer: AppendCall)
    requires SafeSize(n) && IsRun(n, {Leader}, steps)
    requires AppendRequested(older) in After(n, {Leader}, steps).pool && AppendRequested(newer) in After(n, {Leader}, steps).pool
    requires older.dst == newer.dst < n && older.req.term == newer.req.term
    requires older.req.prevIndex + |older.req.entries| <= newer.req.prevIndex + |newer.req.entries|
    requires HandleAppend(After(n, {Leader}, steps).nodes[newer.dst], newer.req).1.success
    ensures var nd := HandleAppend(After(n, {Leader}, steps).nodes[newer.dst], newer.req).0;
            HandleAppend(nd, older.req).1.success && HandleAppend(nd, older.req).0.log == nd.log
  {
    var h := HistoryOf(n, {Leader}, steps);
    RequestFacts(n, steps, older);
    RequestFacts(n, steps, newer);
    OvertakenMerge(h, After(n, {Leader}, steps).nodes[newer.dst], h.reigns[newer.req.term].log, older.req, newer.req);
  }

  /** A request in flight is a slice of a log woven from the reigns, as the receiver's log is. */
  lemma RequestFacts(n: nat, steps: seq<Step>, c: AppendCall)
    requires SafeSize(n) && IsRun(n, {Leader}, steps) && AppendRequested(c) in After(n, {Leader}, steps).pool && c.dst < n
    ensures var h := HistoryOf(n, {Leader}, steps);
            && OfReigns(h.reigns, After(n, {Leader}, steps).nodes[c.dst].log)
            && c.req.term in h.reigns && OfReigns(h.reigns, h.reigns[c.req.term].log)
            && SliceOf(h.reigns[c.req.term].log, c.req.prevIndex, c.req.prevTerm, c.req.entries)
  {
    ReachableInv(n, steps);
    var s := After(n, {Leader}, steps);
    var h := HistoryOf(n, {Leader}, steps);
    assert ItemL(n, h, AppendRequested(c)) && NodeL(h, s.nodes[c.dst]);
    assert ReignL(s.nodes, h, c.req.term, h.reigns[c.req.term]);
  }

  lemma OvertakenMerge(h: History, nd: Node, leader: seq<Entry>, older: AppendRequest, newer: AppendRequest)
    requires OfReigns(h.reigns, nd.log) && OfReigns(h.reigns, leader) && older.term == newer.term
    requires SliceOf(leader, older.prevIndex, older.prevTerm, older.entries)
    requires SliceOf(leader, newer.prevIndex, newer.prevTerm, newer.entries)
    requires older.prevIndex + |older.entries| <= newer.prevIndex + |newer.entries|
    requires HandleAppend(nd, newer).1.success
    ensures var nd' := HandleAppend(nd, newer).0;
            HandleAppend(nd', older).1.success && HandleAppend(nd', older).0.log == nd'.log
  {
    AcceptShape(nd, newer);
    WovenMatching(h.reigns, nd.log, leader);
    MergeOlderAfterNewer(nd.log, leader, newer.prevIndex, newer.prevTerm, newer.entries,
                         older.prevIndex, older.prevTerm, older.entries);
  }
}
