/** nextIndex, matchIndex and the commit scan: the invariant that keeps every log access of a
    leader in range and its match indices truthful. */
module Indices {
  import opened RaftTypes
  import opened LogOps
  import opened NodeSpec
  import opened Cluster
  import opened Quorums
  import opened History
  import opened Elections
  import opened Logs
  import opened Acks

  /** The follower acknowledged index `m` of term `t`. */
  ghost predicate AckedAt(h: History, t: nat, p: Id, m: int) {
    m <= 0 || (Ballot(t, p) in h.acks && m <= h.acks[Ballot(t, p)])
  }

  ghost predicate PeerI(h: History, nd: Node, p: Id) {
    var next, matched := Get(nd.next, p), Get(nd.matched, p);
    && 1 <= next <= |nd.log| + 1 && 0 <= matched <= |nd.log|
    && (matched == 0 || next == matched + 1)
    && AckedAt(h, nd.term, p, matched)
  }

  /** No index above the commit index is ready to be committed. */
  ghost predicate CommitMaximal(nd: Node, peers: set<Id>) {
    forall N :: nd.commit < N <= |nd.log| ==> !Committable(nd.log, nd.term, nd.matched, peers, N)
  }

  ghost predicate NodeI(n: nat, h: History, i: Id, nd: Node) {
    nd.role == Leader ==>
      n >= 2 && (forall p :: p in Peers(n, i) ==> PeerI(h, nd, p)) && CommitMaximal(nd, Peers(n, i))
  }

  /** The locals an append thread captured when it built its request. */
  ghost predicate CallI(h: History, c: AppendCall) {
    && c.next == c.req.prevIndex + 1 && c.logSize == c.req.prevIndex + |c.req.entries|
    && 0 <= c.matched && (c.matched == 0 || c.next == c.matched + 1)
    && AckedAt(h, c.req.term, c.dst, c.matched)
  }

  ghost predicate AnswerI(h: History, c: AppendCall, rep: AppendReply) {
    && (rep.success ==> AckedAt(h, c.req.term, c.dst, c.req.prevIndex + |c.req.entries|))
    && (rep.conflict.Some? ==>
          c.matched == 0 && 1 <= rep.conflict.value.index <= c.req.prevIndex && rep.conflict.value.term != c.req.prevTerm)
  }

  ghost predicate ItemI(h: History, x: Item) {
    match x
    case AppendRequested(c) => CallI(h, c)
    case AppendAnswer(c, rep) => CallI(h, c) && AnswerI(h, c, rep)
    case _ => true
  }

  ghost predicate InvI(n: nat, s: State, h: History) {
    && |s.nodes| == n
    && (forall i :: 0 <= i < n ==> NodeI(n, h, i, s.nodes[i]))
    && (forall x :: x in s.pool ==> ItemI(h, x))
  }

  ghost predicate DeltaI(n: nat, nodes: seq<Node>, h: History, i: Id, nd': Node, items: set<Item>, h': History) {
    && i < n == |nodes| && HistoryEvolves(h, h')
    && NodeI(n, h', i, nd')
    && (forall x :: x in items ==> ItemI(h', x))
  }

  lemma KeepI(n: nat, s: State, h: History, i: Id, nd': Node, items: set<Item>, h': History)
    requires InvI(n, s, h) && DeltaI(n, s.nodes, h, i, nd', items, h')
    ensures InvI(n, Update(s, i, nd', items), h')
  {
    var s' := Update(s, i, nd', items);
    forall j | 0 <= j < n ensures NodeI(n, h', j, s'.nodes[j]) {
      if j != i {
        var nd := s.nodes[j];
        assert NodeI(n, h, j, nd);
        if nd.role == Leader {
          forall p | p in Peers(n, j) ensures PeerI(h', nd, p) { assert PeerI(h, nd, p); }
        }
      }
    }
    forall x | x in s'.pool ensures ItemI(h', x) {
      if x in s.pool { assert ItemI(h, x); }
    }
  }

  // ---------------------------------------------------------------- steps

  lemma NobodyHolds(matched: map<Id, int>, peers: set<Id>, N: int)
    requires forall p :: p in peers ==> Get(matched, p) < N
    ensures Holders(matched, peers, N) == {}
  {
  }

  /** A freshly elected leader: nothing is known to be replicated, nothing is ready to commit. */
  lemma WinI(n: nat, h: History, i: Id, nd: Node)
    requires i < n && n >= 2
    ensures NodeI(n, h, i, BecomeLeader(nd, Peers(n, i)))
  {
    var nd' := BecomeLeader(nd, Peers(n, i));
    assert |Peers(n, i)| == n - 1;
    forall N | nd'.commit < N <= |nd'.log|
      ensures !Committable(nd'.log, nd'.term, nd'.matched, Peers(n, i), N)
    {
      NobodyHolds(nd'.matched, Peers(n, i), N);
    }
  }

  lemma ProposeI(n: nat, h: History, i: Id, nd: Node, data: string)
    requires i < n && NodeI(n, h, i, nd) && nd.role == Leader
    ensures NodeI(n, h, i, Propose(nd, data).0)
  {
    var nd' := Propose(nd, data).0;
    assert |Peers(n, i)| == n - 1;
    forall p | p in Peers(n, i) ensures PeerI(h, nd', p) { assert PeerI(h, nd, p); }
    forall N | nd'.commit < N <= |nd'.log|
      ensures !Committable(nd'.log, nd'.term, nd'.matched, Peers(n, i), N)
    {
      if N == |nd'.log| {
        assert forall p :: p in Peers(n, i) ==> PeerI(h, nd, p);
        NobodyHolds(nd'.matched, Peers(n, i), N);
      } else {
        assert !Committable(nd.log, nd.term, nd.matched, Peers(n, i), N);
      }
    }
  }

  /** After a rejection replication resumes at or before the point that was rejected. */
  lemma BackupInRange(nd: Node, call: AppendCall, rep: AppendReply)
    requires Sorted(nd.log) && call.next == Get(nd.next, call.dst) && call.matched == Get(nd.matched, call.dst)
    requires 1 <= call.next <= |nd.log| + 1 && call.next <= call.logSize + 1
    requires 0 <= call.matched && (call.matched == 0 || call.next == call.matched + 1)
    requires rep.conflict.Some? ==>
      && call.matched == 0 && 1 <= rep.conflict.value.index <= call.next - 1
      && rep.conflict.value.term != TermAt(nd.log, call.next - 2)
    ensures var next := Backup(nd, call, rep);
            && 1 <= next <= call.next && (call.matched == 0 || next == call.matched + 1)
            && (rep.conflict.Some? ==> next < call.next)
  {
    if rep.conflict.Some? {
      BinarySearchIsLinearScan(nd.log, 0, call.next - 2, rep.conflict.value.term);
    }
  }

  lemma RejectI(n: nat, h: History, i: Id, nd: Node, call: AppendCall, rep: AppendReply)
    requires NodeI(n, h, i, nd) && nd.role == Leader && call.dst in Peers(n, i)
    requires CallI(h, call) && AnswerI(h, call, rep) && Sorted(nd.log)
    requires call.req.prevTerm == TermAt(nd.log, call.req.prevIndex - 1)
    ensures NodeI(n, h, i, HandleReject(nd, call, rep))
  {
    var nd' := HandleReject(nd, call, rep);
    assert PeerI(h, nd, call.dst);
    if call.next == Get(nd.next, call.dst) && call.matched == Get(nd.matched, call.dst) {
      BackupInRange(nd, call, rep);
    }
    forall p | p in Peers(n, i) ensures PeerI(h, nd', p) { assert PeerI(h, nd, p); }
    forall N | nd'.commit < N <= |nd'.log|
      ensures !Committable(nd'.log, nd'.term, nd'.matched, Peers(n, i), N)
    {
      assert !Committable(nd.log, nd.term, nd.matched, Peers(n, i), N);
    }
  }

  /** Scanning only up to the last index sent finds every index that is ready to be committed. */
  lemma ScanSuffices(nd: Node, peers: set<Id>, p: Id, last: int)
    requires p in peers && CommitMaximal(nd, peers)
    ensures var matched := nd.matched[p := last];
            var commit := CommitScan(nd.log, nd.term, matched, peers, last, nd.commit);
            forall N :: commit < N <= |nd.log| ==> !Committable(nd.log, nd.term, matched, peers, N)
  {
    var matched := nd.matched[p := last];
    var commit := CommitScan(nd.log, nd.term, matched, peers, last, nd.commit);
    forall N | commit < N <= |nd.log| ensures !Committable(nd.log, nd.term, matched, peers, N) {
      if N > last {
        assert Holders(matched, peers, N) <= Holders(nd.matched, peers, N);
        SubsetSize(Holders(matched, peers, N), Holders(nd.matched, peers, N));
        assert !Committable(nd.log, nd.term, nd.matched, peers, N);
      }
    }
  }

  lemma AcceptI(n: nat, h: History, i: Id, nd: Node, call: AppendCall)
    requires NodeI(n, h, i, nd) && nd.role == Leader && call.dst in Peers(n, i) && nd.term == call.req.term
    requires CallI(h, call) && AckedAt(h, nd.term, call.dst, LastSent(call)) && LastSent(call) <= |nd.log|
    ensures NodeI(n, h, i, HandleAccept(nd, Peers(n, i), call))
  {
    var nd' := HandleAccept(nd, Peers(n, i), call);
    AcceptFields(nd, Peers(n, i), call);
    ScanSuffices(nd, Peers(n, i), call.dst, LastSent(call));
    forall p | p in Peers(n, i) ensures PeerI(h, nd', p) { AcceptPeerI(h, nd, nd', call, p); }
  }

  lemma AcceptFields(nd: Node, peers: set<Id>, call: AppendCall)
    ensures var nd' := HandleAccept(nd, peers, call); var last := LastSent(call);
            && nd'.role == nd.role && nd'.term == nd.term && nd'.log == nd.log
            && nd'.next == nd.next[call.dst := last + 1] && nd'.matched == nd.matched[call.dst := last]
            && nd'.commit == CommitScan(nd.log, nd.term, nd.matched[call.dst := last], peers, last, nd.commit)
  {
  }

  lemma AcceptPeerI(h: History, nd: Node, nd': Node, call: AppendCall, p: Id)
    requires PeerI(h, nd, p) && CallI(h, call) && AckedAt(h, nd.term, call.dst, LastSent(call)) && LastSent(call) <= |nd.log|
    requires nd'.term == nd.term && nd'.log == nd.log
    requires nd'.next == nd.next[call.dst := LastSent(call) + 1] && nd'.matched == nd.matched[call.dst := LastSent(call)]
    ensures PeerI(h, nd', p)
  {
  }

  /** A follower that acknowledged the previous index in the request's term accepts it. */
  lemma AckedAccepts(h: History, i: Id, nd: Node, c: AppendCall)
    requires NodeA(h, i, nd) && nd.term <= c.req.term && CallI(h, c) && c.dst == i && c.matched != 0
    requires forall b :: b in h.acks ==> AckBound(h, b)
    requires c.req.term in h.reigns && SliceOf(h.reigns[c.req.term].log, c.req.prevIndex, c.req.prevTerm, c.req.entries)
    ensures PrevMatches(nd.log, c.req.prevIndex, c.req.prevTerm)
  {
    var m := c.req.prevIndex;
    assert AckBound(h, Ballot(c.req.term, i));
    assert Acked(h, c.req.term, i, m);
    assert Holds(h.reigns, nd.log, c.req.term, m);
    assert nd.log[m - 1] == nd.log[..m][m - 1] == h.reigns[c.req.term].log[..m][m - 1];
  }

  lemma ReceiveI(h: History, h': History, nd: Node, c: AppendCall)
    requires NodeA(h, c.dst, nd) && CallI(h, c) && HistoryEvolves(h, h')
    requires forall b :: b in h.acks ==> AckBound(h, b)
    requires c.req.term in h.reigns && SliceOf(h.reigns[c.req.term].log, c.req.prevIndex, c.req.prevTerm, c.req.entries)
    requires c.req.prevIndex > 0 ==> c.req.prevTerm >= 1
    requires HandleAppend(nd, c.req).1.success ==> h' == RecordAck(h, c.req.term, c.dst, c.req.prevIndex + |c.req.entries|)
    ensures ItemI(h', AppendAnswer(c, HandleAppend(nd, c.req).1))
  {
    var rep := HandleAppend(nd, c.req).1;
    if nd.term <= c.req.term && c.matched != 0 { AckedAccepts(h, c.dst, nd, c); }
  }

  lemma SendI(h: History, i: Id, nd: Node, peer: Id)
    requires PeerI(h, nd, peer)
    ensures CallI(h, MakeAppendCall(nd, i, peer))
  {
  }
}
