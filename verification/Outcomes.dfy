/** What each handler does with any node and any message, in plain comparisons on their fields:
    who is granted a vote, what a follower holds and commits afterwards, what a leader records, and
    who steps down. Every branch is covered, refusals as well as successes. */
module Outcomes {
  import opened RaftTypes
  import opened LogOps
  import opened NodeSpec

  // ---------------------------------------------------------------- starting and standing

  /** run() makes any node an active follower; a candidacy, from any role, enters exactly the next
      term with the node's own vote and no other. Neither touches log, commit index or indices. */
  lemma StandingOutcome(nd: Node, id: Id)
    ensures var a, b := Start(nd), BecomeCandidate(nd, id);
            && a.active && a.role == Follower && a == nd.(active := true, role := a.role)
            && b.role == Candidate && b.term == nd.term + 1 && b.votedFor == id && (forall v :: v in b.votes <==> v == id)
            && b == nd.(role := b.role, term := b.term, votedFor := b.votedFor, votes := b.votes)
  {
  }

  // ---------------------------------------------------------------- votes

  /** A vote request: the vote goes to the candidate exactly when it is free in the request's term
      and the candidate's last entry is at least the voter's in the order (term, index). */
  lemma VoteOutcome(nd: Node, call: VoteCall)
    ensures var (nd', rep) := HandleVote(nd, call);
            var ourTerm := if nd.log == [] then 0 else nd.log[|nd.log| - 1].term;
            var free := call.term > nd.term || nd.votedFor == -1 || nd.votedFor == call.src;
            && nd' == nd.(term := nd'.term, votedFor := nd'.votedFor, role := nd'.role)
            && (!nd.active ==> nd' == nd && rep == VoteReply(0, false))
            && (nd.active && call.term < nd.term ==> nd' == nd && rep == VoteReply(nd.term, false))
            && (nd.active && call.term >= nd.term ==>
                  && nd'.term == call.term && rep.term == call.term
                  && (rep.granted <==>
                        free && (call.lastTerm > ourTerm || (call.lastTerm == ourTerm && call.lastIndex >= |nd.log|)))
                  && (rep.granted ==> nd'.votedFor == call.src && nd'.role == Follower)
                  && (!rep.granted && call.term > nd.term ==> nd'.votedFor == -1 && nd'.role == Follower)
                  && (!rep.granted && call.term == nd.term ==> nd' == nd))
  {
  }

  /** Node `nd`, not yet in term `t`, votes in `t` for a candidate that holds `log`. */
  predicate WouldElect(nd: Node, log: seq<Entry>, t: nat, src: Id, dst: Id) {
    HandleVote(nd, VoteCall(src, dst, t, t, LastTerm(log), |log|)).1.granted
  }

  /** Voting orders logs totally: of any two running nodes at least one would elect the other, both
      would exactly when their logs end alike, and whom a voter's candidate would elect, it would. */
  lemma VotingIsTotal(x: Node, i: Id, y: Node, j: Id, t: nat)
    requires x.active && y.active && x.term < t && y.term < t
    ensures WouldElect(x, y.log, t, j, i) || WouldElect(y, x.log, t, i, j)
    ensures WouldElect(x, y.log, t, j, i) && WouldElect(y, x.log, t, i, j) <==>
            |x.log| == |y.log| && (x.log != [] ==> x.log[|x.log| - 1].term == y.log[|y.log| - 1].term)
  {
  }

  lemma VotingIsTransitive(x: Node, i: Id, y: Node, j: Id, log: seq<Entry>, k: Id, t: nat)
    requires x.active && y.active && x.term < t && y.term < t
    requires WouldElect(x, y.log, t, j, i) && WouldElect(y, log, t, k, j)
    ensures WouldElect(x, log, t, k, i)
  {
  }

  /** The answer to a vote request. A denial only ever raises the term, and then ends the candidacy;
      a vote granted in the running election is counted, and wins exactly above half the peers. */
  lemma VoteReplyOutcome(nd: Node, peers: set<Id>, call: VoteCall, rep: VoteReply)
    ensures var nd' := HandleVoteReply(nd, peers, call, rep);
            var current := nd.role == Candidate && nd.term == call.electionTerm;
            && (!rep.granted ==> nd'.term == if rep.term > nd.term then rep.term else nd.term)
            && (!rep.granted && rep.term > nd.term ==>
                  nd' == nd.(term := rep.term, votedFor := nd'.votedFor, role := nd'.role) && nd'.role == Follower && nd'.votedFor == -1)
            && (!rep.granted && rep.term <= nd.term ==> nd' == nd)
            && (rep.granted && !current ==> nd' == nd)
            && (rep.granted && current ==>
                  && nd'.votes == nd.votes + {call.dst} && nd'.term == nd.term && nd'.votedFor == nd.votedFor
                  && nd'.log == nd.log && nd'.commit == nd.commit && nd'.applied == nd.applied
                  && nd'.delivered == nd.delivered && nd'.active == nd.active
                  && (nd'.role == Leader <==> 2 * |nd'.votes| > |peers|)
                  && (nd'.role != Leader ==> nd' == nd.(votes := nd'.votes))
                  && (nd'.role == Leader ==> forall p :: p in peers ==>
                        Get(nd'.next, p) == |nd.log| + 1 && Get(nd'.matched, p) == 0 && Get(nd'.counter, p) == 0))
  {
  }

  // ---------------------------------------------------------------- append requests

  /** An append request, all branches but what acceptance does to the log and the commit index. */
  lemma RequestOutcome(nd: Node, req: AppendRequest)
    ensures var (nd', rep) := HandleAppend(nd, req);
            && (!nd.active ==> nd' == nd && rep == AppendReply(0, false, None))
            && (nd.active && req.term < nd.term ==> nd' == nd && rep == AppendReply(nd.term, false, None))
            && (nd.active && req.term >= nd.term ==>
                  && (rep.success <==>
                        req.prevIndex == 0 || (req.prevIndex <= |nd.log| && nd.log[req.prevIndex - 1].term == req.prevTerm))
                  && rep.term == req.term && nd'.term == req.term && nd'.role == Follower && nd'.active
                  && nd'.votedFor == (if req.term > nd.term then -1 else nd.votedFor)
                  && nd'.votes == nd.votes && nd'.next == nd.next && nd'.matched == nd.matched && nd'.counter == nd.counter
                  && (rep.success <==> rep.conflict.None?)
                  && (!rep.success ==>
                        && nd'.log == nd.log && nd'.commit == nd.commit && nd'.applied == nd.applied
                        && nd'.delivered == nd.delivered))
  {
  }

  /** What a rejection reports: the end of a log that is too short, or the first index of the run of
      entries that share the term found at the previous index. */
  lemma ConflictOutcome(nd: Node, req: AppendRequest)
    requires nd.active && req.term >= nd.term && !HandleAppend(nd, req).1.success
    ensures req.prevIndex >= 1 && HandleAppend(nd, req).1.conflict.Some?
    ensures var c := HandleAppend(nd, req).1.conflict.value;
            if req.prevIndex > |nd.log| then c == Conflict(0, |nd.log| + 1)
            else
              && c.term == nd.log[req.prevIndex - 1].term && 1 <= c.index <= req.prevIndex
              && (forall k :: c.index - 1 <= k < req.prevIndex ==> nd.log[k].term == c.term)
              && (c.index > 1 ==> nd.log[c.index - 2].term != c.term)
  {
  }

  /** Every entry sent is already there, as far as terms tell. */
  ghost predicate HeldAt(log: seq<Entry>, prev: nat, entries: seq<Entry>) {
    forall k :: 0 <= k < |entries| ==> prev + k < |log| && log[prev + k].term == entries[k].term
  }

  /** Everything up to `prev` stays, every entry sent is matched, the log changes exactly if some
      entry sent was missing or differed, and then it ends with the last entry sent. */
  ghost predicate TakenOver(log: seq<Entry>, log': seq<Entry>, prev: nat, entries: seq<Entry>) {
    && prev <= |log| && prev + |entries| <= |log'| && log'[..prev] == log[..prev]
    && HeldAt(log', prev, entries)
    && (HeldAt(log, prev, entries) ==> log' == log)
    && (!HeldAt(log, prev, entries) ==>
          |log'| == prev + |entries| && log'[|log'| - 1] == entries[|entries| - 1] && log' != log)
  }

  /** What acceptance does to the log. */
  lemma AcceptedLog(nd: Node, req: AppendRequest)
    requires HandleAppend(nd, req).1.success
    ensures TakenOver(nd.log, HandleAppend(nd, req).0.log, req.prevIndex, req.entries)
  {
    AcceptShape(nd, req);
    MergedLog(nd.log, req.prevIndex, req.entries);
  }

  lemma MergedLog(log: seq<Entry>, prev: nat, entries: seq<Entry>)
    requires prev <= |log|
    ensures TakenOver(log, Merge(log, prev, entries), prev, entries)
  {
    var a := Agreement(log, prev, entries, 0);
    var log' := Merge(log, prev, entries);
    if a < |entries| {
      assert !HeldAt(log, prev, entries) by { assert prev + a >= |log| || log[prev + a].term != entries[a].term; }
      forall k | 0 <= k < |entries| ensures prev + k < |log'| && log'[prev + k].term == entries[k].term {
        if k < a { assert log[prev + k].term == entries[k].term; } else { assert log'[prev + k] == entries[k]; }
      }
    }
  }

  /** What acceptance does to the commit index: it becomes the larger of what it was and the smaller
      of what the leader announced and the new log's length. */
  lemma AcceptedCommit(nd: Node, req: AppendRequest)
    requires HandleAppend(nd, req).1.success
    ensures var nd' := HandleAppend(nd, req).0;
            var bound := if req.leaderCommit <= |nd'.log| then req.leaderCommit else |nd'.log|;
            && (req.leaderCommit <= nd.commit ==>
                  nd'.commit == nd.commit && nd'.applied == nd.applied && nd'.delivered == nd.delivered)
            && (req.leaderCommit > nd.commit ==> nd'.commit == bound)
            && (nd.commit <= |nd'.log| ==> nd'.commit == if bound > nd.commit then bound else nd.commit)
  {
    AcceptShape(nd, req);
  }

  /** A node with nothing left to apply, after accepting: again nothing is left, and the entries it
      newly committed were handed over in order. */
  lemma AcceptedApply(nd: Node, req: AppendRequest)
    requires HandleAppend(nd, req).1.success
    requires nd.applied == nd.commit <= |HandleAppend(nd, req).0.log|
    ensures var nd' := HandleAppend(nd, req).0;
            nd.commit <= nd'.commit == nd'.applied <= |nd'.log| && Extends(nd.delivered, nd'.delivered, nd'.log, nd.commit, nd'.commit)
  {
    AcceptShape(nd, req);
    CommitApplies(Merged(nd, req), req.leaderCommit);
  }

  /** `after` continues `before` with the entries of `log` after index `lo` and up to `hi`. */
  ghost predicate Extends(before: seq<ApplyResult>, after: seq<ApplyResult>, log: seq<Entry>, lo: nat, hi: nat)
    requires lo <= hi <= |log|
  {
    && before <= after && |after| == |before| + hi - lo
    && forall k :: lo <= k < hi ==> after[|before| + k - lo] == ApplyResult(true, log[k].command, k + 1)
  }

  lemma CommitApplies(nd: Node, leaderCommit: nat)
    requires nd.applied == nd.commit <= |nd.log|
    ensures var nd' := FollowerCommit(nd, leaderCommit);
            && nd.commit <= nd'.commit == nd'.applied <= |nd.log| && nd'.log == nd.log
            && Extends(nd.delivered, nd'.delivered, nd.log, nd.commit, nd'.commit)
  {
  }

  // ---------------------------------------------------------------- answers to append requests

  /** A leader that hears of a higher term gives up, unless the answer is older than one it counted. */
  lemma HigherTermOutcome(nd: Node, peers: set<Id>, c: AppendCall, rep: AppendReply)
    requires c.counter >= Get(nd.counter, c.dst) && rep.term > nd.term
    ensures HandleAppendReply(nd, peers, c, rep) ==
            nd.(counter := nd.counter[c.dst := c.counter], term := rep.term, votedFor := -1, role := Follower)
  {
  }

  /** An answer older than one already counted, or to a request of another term, or to a node that no
      longer leads, or a rejection of a request built from other indices changes at most the counter. */
  lemma SupersededOutcome(nd: Node, peers: set<Id>, c: AppendCall, rep: AppendReply)
    requires || c.counter < Get(nd.counter, c.dst)
             || (rep.term <= nd.term && (nd.role != Leader || c.req.term != nd.term))
             || (rep.term <= nd.term && !rep.success && (c.next != Get(nd.next, c.dst) || c.matched != Get(nd.matched, c.dst)))
    ensures HandleAppendReply(nd, peers, c, rep) ==
            if c.counter < Get(nd.counter, c.dst) then nd else nd.(counter := nd.counter[c.dst := c.counter])
  {
  }

  /** An acknowledgement, of entries or of a heartbeat, is recorded: the match index becomes the last
      index the request covered, the next index one more, and no other peer's indices change. */
  lemma AcknowledgementOutcome(nd: Node, peers: set<Id>, c: AppendCall, rep: AppendReply)
    requires Accepts(nd, c, rep)
    ensures var nd' := HandleAppendReply(nd, peers, c, rep); var last := c.next + |c.req.entries| - 1;
            && Get(nd'.matched, c.dst) == last && Get(nd'.next, c.dst) == last + 1 && Get(nd'.counter, c.dst) == c.counter
            && (forall p: Id :: p != c.dst ==>
                  && Get(nd'.matched, p) == Get(nd.matched, p) && Get(nd'.next, p) == Get(nd.next, p)
                  && Get(nd'.counter, p) == Get(nd.counter, p))
            && nd'.term == nd.term && nd'.role == Leader && nd'.log == nd.log && nd'.votedFor == nd.votedFor
            && nd'.active == nd.active && nd'.votes == nd.votes && nd'.commit >= nd.commit
  {
  }

  /** A counted rejection of a request built from the present indices moves only the next index: one
      down, but not to the match index, without conflict information; otherwise to just after the last
      entry of the conflicting term in the searched range, or to the conflict index if there is none. */
  lemma RejectionOutcome(nd: Node, peers: set<Id>, c: AppendCall, rep: AppendReply)
    requires Rejects(nd, c, rep) && c.next == Get(nd.next, c.dst) && c.matched == Get(nd.matched, c.dst)
    ensures var nd' := HandleAppendReply(nd, peers, c, rep); var next' := Get(nd'.next, c.dst);
            && nd' == nd.(counter := nd.counter[c.dst := c.counter], next := nd.next[c.dst := next'])
            && (rep.conflict.None? ==> next' == if c.next - 1 > c.matched then c.next - 1 else c.next)
  {
  }

  /** `next` follows the last entry of the conflicting term in `log` from index `matched + 1` up to
      the one before `tried`, or is the conflict index if there is none. */
  ghost predicate BackedUp(log: seq<Entry>, matched: nat, tried: int, c: Conflict, next: int)
    requires tried <= |log| + 1
  {
    || (next == c.index && forall k :: matched <= k < tried - 1 ==> log[k].term != c.term)
    || (&& matched + 2 <= next <= tried && log[next - 2].term == c.term
        && forall k :: next - 1 <= k < tried - 1 ==> log[k].term != c.term)
  }

  /** Where a counted rejection with conflict information leads, on a log with nondecreasing terms. */
  lemma ConflictBackup(nd: Node, peers: set<Id>, c: AppendCall, rep: AppendReply)
    requires Rejects(nd, c, rep) && c.next == Get(nd.next, c.dst) && c.matched == Get(nd.matched, c.dst)
    requires rep.conflict.Some? && Sorted(nd.log) && 0 <= c.matched && 1 <= c.next <= |nd.log| + 1 && c.next <= c.logSize + 1
    ensures BackedUp(nd.log, c.matched, c.next, rep.conflict.value, Get(HandleAppendReply(nd, peers, c, rep).next, c.dst))
  {
    ResumeBacksUp(nd.log, c.matched, c.next, rep.conflict.value);
    BackupIsNext(nd, peers, c, rep);
  }

  lemma BackupIsNext(nd: Node, peers: set<Id>, c: AppendCall, rep: AppendReply)
    requires Rejects(nd, c, rep) && c.next == Get(nd.next, c.dst) && c.matched == Get(nd.matched, c.dst)
    ensures Get(HandleAppendReply(nd, peers, c, rep).next, c.dst) == Backup(nd, c, rep)
  {
  }

  lemma ResumeBacksUp(log: seq<Entry>, matched: nat, tried: int, c: Conflict)
    requires Sorted(log) && 1 <= tried <= |log| + 1
    ensures BackedUp(log, matched, tried, c, Resume(log, matched, tried - 2, c))
  {
    BinarySearchIsLinearScan(log, matched, tried - 2, c.term);
    assert IsLast(log, matched, tried - 2, c.term, LinearScan(log, matched, tried - 2, c.term));
  }

  // ---------------------------------------------------------------- proposals

  /** A proposal is appended by a leader, whoever else by nobody. */
  lemma ProposalOutcome(nd: Node, data: string)
    ensures var (nd', res) := Propose(nd, data);
            && (nd.role == Leader <==> res.isLeader)
            && nd' == nd.(log := nd'.log)
            && (nd.role != Leader ==> nd'.log == nd.log)
            && (nd.role == Leader ==>
                  && nd.log <= nd'.log && |nd'.log| == |nd.log| + 1 && res.index == |nd'.log| && res.term == nd.term
                  && nd'.log[res.index - 1] == Entry(nd.term, data))
  {
  }
}
