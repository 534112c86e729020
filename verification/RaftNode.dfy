/** Class Raft: the node as the source writes it, with fields updated in place and loops. Every
    method is proved to do what NodeSpec says, so the cluster theorems are about this code. */
module RaftNode {
  import opened RaftTypes
  import opened LogOps
  import opened NodeSpec

  class Raft {
    const id: Id
    const peers: set<Id>
    var active: bool
    var currentTerm: nat
    var votedFor: int
    var log: seq<Entry>
    var commitIndex: nat
    var lastApplied: nat
    var currentRole: Role
    var votes: set<Id>
    var nextIndex: map<Id, int>
    var matchIndex: map<Id, int>
    var replyCounter: map<Id, int>
    var delivered: seq<ApplyResult>

    ghost function View(): Node
      reads this
    {
      Node(active, currentTerm, votedFor, log, commitIndex, lastApplied, currentRole, votes,
           nextIndex, matchIndex, replyCounter, delivered)
    }

    constructor (id: Id, peers: set<Id>)
      ensures this.id == id && this.peers == peers && View() == INITIAL
    {
      this.id, this.peers := id, peers;
      active, currentTerm, votedFor, log := false, 0, -1, [];
      commitIndex, lastApplied, currentRole, votes := 0, 0, Follower, {};
      nextIndex, matchIndex, replyCounter, delivered := map[], map[], map[], [];
    }

    method Run()
      modifies this
      ensures View() == Start(old(View()))
    {
      active := true;
      currentRole := Follower;
    }

    // -------------------------------------------------------------- elections

    method BecomeCandidate()
      modifies this
      ensures View() == NodeSpec.BecomeCandidate(old(View()), id)
    {
      currentRole := Candidate;
      currentTerm := currentTerm + 1;
      votedFor := id;
      votes := {id};
    }

    method BuildVoteRequest(peer: Id, electionTerm: nat) returns (call: VoteCall)
      ensures call == MakeVoteCall(View(), id, peer, electionTerm)
    {
      call := VoteCall(id, peer, electionTerm, currentTerm,
                       if |log| > 0 then log[|log| - 1].term else 0,
                       if |log| > 0 then |log| else 0);
    }

    method ReplyVote(call: VoteCall) returns (reply: VoteReply)
      modifies this
      ensures (View(), reply) == HandleVote(old(View()), call)
    {
      if !active {
        return VoteReply(0, false);
      }
      if call.term < currentTerm {
        return VoteReply(currentTerm, false);
      }
      if call.term > currentTerm {
        currentTerm := call.term;
        votedFor := -1;
        currentRole := Follower;
      }
      if votedFor != -1 && votedFor != call.src {
        return VoteReply(currentTerm, false);
      }
      var lastLogTerm, lastLogIndex := 0, 0;
      if |log| > 0 {
        lastLogTerm, lastLogIndex := log[|log| - 1].term, |log|;
      }
      var upToDate := call.lastTerm > lastLogTerm || (call.lastTerm == lastLogTerm && call.lastIndex >= lastLogIndex);
      if upToDate {
        votedFor := call.src;
        currentRole := Follower;
      }
      return VoteReply(currentTerm, upToDate);
    }

    method BecomeLeader()
      modifies this
      ensures View() == NodeSpec.BecomeLeader(old(View()), peers)
    {
      currentRole := Leader;
      var next: map<Id, int>, zero: map<Id, int> := map[], map[];
      var rest := peers;
      while rest != {}
        invariant rest <= peers
        invariant next.Keys == peers - rest && forall p :: p in next ==> next[p] == |log| + 1
        invariant zero.Keys == peers - rest && forall p :: p in zero ==> zero[p] == 0
        decreases rest
      {
        var p :| p in rest;
        next, zero := next[p := |log| + 1], zero[p := 0];
        rest := rest - {p};
      }
      assert next == Uniform(peers, |log| + 1) && zero == Uniform(peers, 0);
      nextIndex, matchIndex, replyCounter := next, zero, zero;
    }

    method ReceiveVoteReply(call: VoteCall, reply: VoteReply)
      modifies this
      ensures View() == HandleVoteReply(old(View()), peers, call, reply)
    {
      if !reply.granted {
        if reply.term > currentTerm {
          currentTerm := reply.term;
          votedFor := -1;
          currentRole := Follower;
        }
      }
      if currentTerm == call.electionTerm && currentRole == Candidate {
        if reply.granted {
          votes := votes + {call.dst};
          if |votes| > |peers| / 2 {
            BecomeLeader();
          }
        }
      }
    }

    // -------------------------------------------------------------- replication

    method BuildAppendRequest(peer: Id) returns (call: AppendCall)
      requires 1 <= Get(nextIndex, peer) <= |log| + 1
      ensures call == MakeAppendCall(View(), id, peer)
    {
      var next := Get(nextIndex, peer);
      var prevTerm := if next > 1 then log[next - 2].term else 0;
      var prevIndex := if next > 1 then next - 1 else 0;
      var entries: seq<Entry> := [];
      var i := next - 1;
      while i < |log|
        invariant next - 1 <= i <= |log|
        invariant entries == log[next - 1..i]
      {
        entries := entries + [Entry(log[i].term, log[i].command)];
        i := i + 1;
      }
      call := AppendCall(id, peer, AppendRequest(currentTerm, id, prevIndex, prevTerm, entries, commitIndex),
                         Get(replyCounter, peer) + 1, next, Get(matchIndex, peer), |log|);
    }

    /** apply_entries(): the loop, with `delivered` standing for the calls of apply. */
    method ApplyEntries()
      modifies this
      ensures View() == NodeSpec.ApplyEntries(old(View()))
    {
      if commitIndex > |log| {
        return;
      }
      if lastApplied < commitIndex {
        var start := lastApplied;
        var i := lastApplied + 1;
        while i <= commitIndex
          invariant start < i <= commitIndex + 1
          invariant commitIndex <= |log|
          invariant View() == old(View()).(delivered := old(delivered) + Results(log, start, i - 1), applied := i - 1)
        {
          delivered := delivered + [ApplyResult(true, log[i - 1].command, i)];
          lastApplied := lastApplied + 1;
          i := i + 1;
        }
      }
    }

    /** The scan for the first index of the conflicting term. */
    method FindConflict(prevIndex: nat) returns (c: Conflict)
      requires prevIndex >= 1
      ensures c == ConflictOf(log, prevIndex)
    {
      if prevIndex - 1 >= |log| {
        return Conflict(0, |log| + 1);
      }
      var conflictTerm := log[prevIndex - 1].term;
      var conflictIndex := prevIndex;
      var i := prevIndex - 1;
      while i >= 0
        invariant 0 <= i < prevIndex
        invariant forall k :: i < k < prevIndex ==> log[k].term == conflictTerm
        decreases i
      {
        if log[i].term != conflictTerm {
          conflictIndex := i + 2;
          break;
        }
        if i == 0 {
          conflictIndex := 1;
          break;
        }
        i := i - 1;
      }
      var s := RunStart(log, prevIndex);
      assert s == conflictIndex;
      c := Conflict(conflictTerm, conflictIndex);
    }

    /** The overwrite loop and the append loop. */
    method MergeEntries(startIndex: nat, entries: seq<Entry>)
      requires startIndex <= |log|
      modifies this`log
      ensures log == Merge(old(log), startIndex, entries)
    {
      var i := EraseConflicting(startIndex, entries);
      ghost var a, kept := i, log;
      while i < |entries|
        invariant a <= i <= |entries| && log == kept + entries[a..i]
      {
        log := log + [Entry(entries[i].term, entries[i].command)];
        i := i + 1;
      }
      assert entries[a..i] == entries[a..];
    }

    /** The first of the two merge loops: skips the entries already held and erases the log from
        the first one that differs. */
    method EraseConflicting(startIndex: nat, entries: seq<Entry>) returns (i: nat)
      requires startIndex <= |log|
      modifies this`log
      ensures i == Agreement(old(log), startIndex, entries, 0)
      ensures log == if i == |entries| then old(log) else old(log)[..startIndex + i]
    {
      i := 0;
      while startIndex + i < |log| && i < |entries|
        invariant i <= |entries| && startIndex + i <= |log| && log == old(log)
        invariant Agreement(log, startIndex, entries, 0) == Agreement(log, startIndex, entries, i)
      {
        if log[startIndex + i].term != entries[i].term {
          log := log[..startIndex + i];
          break;
        }
        i := i + 1;
      }
    }

    method FollowCommit(leaderCommit: nat)
      modifies this
      ensures View() == FollowerCommit(old(View()), leaderCommit)
    {
      if leaderCommit > commitIndex {
        commitIndex := if leaderCommit <= |log| then leaderCommit else |log|;
        ApplyEntries();
      }
    }

    /** Recognising the sender as leader: adopt its term, become a follower. */
    method MeetLeader(term: nat)
      modifies this
      ensures View() == Adopt(old(View()), term).(role := Follower)
    {
      if term > currentTerm {
        currentTerm := term;
        votedFor := -1;
      }
      currentRole := Follower;
    }

    method TakeEntries(req: AppendRequest)
      requires PrevMatches(log, req.prevIndex, req.prevTerm)
      modifies this
      ensures View() == FollowerCommit(old(View()).(log := Merge(old(log), req.prevIndex, req.entries)), req.leaderCommit)
    {
      if |req.entries| > 0 {
        MergeEntries(req.prevIndex, req.entries);
      }
      FollowCommit(req.leaderCommit);
    }

    method AppendEntries(req: AppendRequest) returns (reply: AppendReply)
      modifies this
      ensures (View(), reply) == HandleAppend(old(View()), req)
    {
      if !active {
        return AppendReply(0, false, None);
      }
      if req.term < currentTerm {
        return AppendReply(currentTerm, false, None);
      }
      MeetLeader(req.term);
      if req.prevIndex > 0 &&
         ((req.prevIndex - 1 < |log| && log[req.prevIndex - 1].term != req.prevTerm) || req.prevIndex - 1 >= |log|) {
        var c := FindConflict(req.prevIndex);
        return AppendReply(currentTerm, false, Some(c));
      }
      TakeEntries(req);
      return AppendReply(req.term, true, None);
    }

    /** The binary search for the last entry of the conflicting term. */
    method SearchConflictTerm(lo: int, hi: int, term: nat) returns (last: int)
      requires 0 <= lo && hi < |log|
      ensures last == BinarySearch(log, lo, hi, term, -1)
    {
      var left, right := lo, hi;
      last := -1;
      while left <= right
        invariant 0 <= left && right < |log|
        invariant BinarySearch(log, lo, hi, term, -1) == BinarySearch(log, left, right, term, last)
        decreases right - left + 1
      {
        var mid := left + (right - left) / 2;
        if log[mid].term == term {
          last := mid;
          left := mid + 1;
        } else if log[mid].term < term {
          left := mid + 1;
        } else {
          right := mid - 1;
        }
      }
    }

    method CountHolders(N: int) returns (count: nat)
      ensures count == 1 + |Holders(matchIndex, peers, N)|
    {
      count := 1;
      var rest := peers;
      while rest != {}
        invariant rest <= peers
        invariant count == 1 + |Holders(matchIndex, peers - rest, N)|
        decreases rest
      {
        var p :| p in rest;
        ghost var seen := Holders(matchIndex, peers - rest, N);
        if Get(matchIndex, p) >= N {
          count := count + 1;
        }
        rest := rest - {p};
        assert Holders(matchIndex, peers - rest, N) == if Get(matchIndex, p) >= N then seen + {p} else seen;
      }
      assert peers - rest == peers;
    }

    /** The downward commit scan. */
    method ScanCommit(maxIndex: int) returns (newCommitIndex: nat)
      requires maxIndex <= |log|
      ensures newCommitIndex == CommitScan(log, currentTerm, matchIndex, peers, maxIndex, commitIndex)
    {
      newCommitIndex := commitIndex;
      var N := maxIndex;
      while N > commitIndex
        invariant N <= |log| && newCommitIndex == commitIndex
        invariant CommitScan(log, currentTerm, matchIndex, peers, maxIndex, commitIndex)
                  == CommitScan(log, currentTerm, matchIndex, peers, N, commitIndex)
      {
        if log[N - 1].term == currentTerm {
          var count := CountHolders(N);
          if count > (|peers| + 1) / 2 {
            newCommitIndex := N;
            break;
          }
        }
        N := N - 1;
      }
    }

    method HandleRejection(call: AppendCall, reply: AppendReply)
      requires call.next == Get(nextIndex, call.dst) && call.matched == Get(matchIndex, call.dst) && reply.conflict.Some? ==>
                 call.logSize <= |log| || call.next <= |log| + 1
      modifies this
      ensures View() == HandleReject(old(View()), call, reply)
    {
      if call.next != Get(nextIndex, call.dst) || call.matched != Get(matchIndex, call.dst) {
        return;
      }
      match reply.conflict {
        case Some(conflict) =>
          var left := Get(matchIndex, call.dst);
          var right := Get(nextIndex, call.dst) - 2;
          left := if left < 0 then 0 else left;
          right := if call.logSize - 1 < right then call.logSize - 1 else right;
          var last := SearchConflictTerm(left, right, conflict.term);
          if last != -1 {
            nextIndex := nextIndex[call.dst := last + 2];
          } else {
            nextIndex := nextIndex[call.dst := conflict.index];
          }
        case None =>
          var next := Get(nextIndex, call.dst);
          nextIndex := nextIndex[call.dst := if next > Get(matchIndex, call.dst) + 1 then next - 1 else next];
      }
    }

    method HandleSuccess(call: AppendCall)
      requires LastSent(call) <= |log|
      modifies this
      ensures View() == HandleAccept(old(View()), peers, call)
    {
      var lastLogIndexSent := call.next + |call.req.entries| - 1;
      matchIndex := matchIndex[call.dst := lastLogIndexSent];
      nextIndex := nextIndex[call.dst := lastLogIndexSent + 1];
      var newCommitIndex := ScanCommit(lastLogIndexSent);
      if newCommitIndex > commitIndex {
        commitIndex := newCommitIndex;
        ApplyEntries();
      }
    }

    method ReceiveAppendReply(call: AppendCall, reply: AppendReply)
      requires ReplyInRange(View(), call, reply)
      modifies this
      ensures View() == HandleAppendReply(old(View()), peers, call, reply)
    {
      if call.counter < Get(replyCounter, call.dst) {
        return;
      }
      replyCounter := replyCounter[call.dst := call.counter];
      if reply.term > currentTerm {
        currentTerm := reply.term;
        votedFor := -1;
        currentRole := Follower;
      } else if !reply.success {
        if currentRole != Leader || call.req.term != currentTerm {
          return;
        }
        HandleRejection(call, reply);
      } else {
        if currentRole != Leader || call.req.term != currentTerm {
          return;
        }
        HandleSuccess(call);
      }
    }

    // -------------------------------------------------------------- proposals

    method Propose(data: string) returns (res: ProposalResult)
      modifies this
      ensures (View(), res) == NodeSpec.Propose(old(View()), data)
    {
      if currentRole == Leader {
        log := log + [Entry(currentTerm, data)];
        res := ProposalResult(true, currentTerm, |log|);
      } else {
        res := ProposalResult(false, 0, 0);
      }
    }

    /** What propose_sync returns when its wait ends. */
    method SyncResult(res: ProposalResult) returns (r: ProposalResult)
      ensures r.index == res.index && r.term == res.term
      ensures r.isLeader <==> res.isLeader && commitIndex >= res.index
    {
      r := if commitIndex >= res.index then res else res.(isLeader := false);
    }
  }
}
