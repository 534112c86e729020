/** Commit indices and applied entries: the invariant behind State Machine Safety. */
module Commits {
  import opened RaftTypes
  import opened LogOps
  import opened NodeSpec
  import opened Cluster
  import opened Quorums
  import opened History
  import opened Elections
  import opened Logs
  import opened Acks
  import opened Completeness

  /** The first `k` entries of `log` are part of what a leader of a term up to `term` committed. */
  ghost predicate CommittedBy(n: nat, h: History, term: nat, log: seq<Entry>, k: nat) {
    k == 0 || exists T: nat, N: nat :: T <= term && Committed(n, h, T, N) && k <= N && Holds(h.reigns, log, T, k)
  }

  /** Everything committed is applied, from index 1 on, in order and once. */
  ghost predicate NodeC(n: nat, h: History, nd: Node) {
    && nd.applied == nd.commit <= |nd.log|
    && nd.delivered == Results(nd.log, 0, nd.commit)
    && CommittedBy(n, h, nd.term, nd.log, nd.commit)
  }

  /** A request never announces a commit index beyond the entries it carries. */
  ghost predicate CallC(n: nat, h: History, c: AppendCall) {
    && c.req.term in h.reigns
    && c.req.leaderCommit <= c.req.prevIndex + |c.req.entries|
    && CommittedBy(n, h, c.req.term, h.reigns[c.req.term].log, c.req.leaderCommit)
  }

  ghost predicate ItemC(n: nat, h: History, x: Item) {
    x.AppendRequested? ==> CallC(n, h, x.append)
  }

  ghost predicate InvC(n: nat, s: State, h: History) {
    && |s.nodes| == n
    && (forall i :: 0 <= i < n ==> NodeC(n, h, s.nodes[i]))
    && (forall x :: x in s.pool ==> ItemC(n, h, x))
  }

  ghost predicate DeltaC(n: nat, nodes: seq<Node>, h: History, i: Id, nd': Node, items: set<Item>, h': History) {
    && i < n == |nodes| && HistoryEvolves(h, h')
    && NodeC(n, h', nd')
    && (forall x :: x in items ==> ItemC(n, h', x))
  }

  // ---------------------------------------------------------------- applied results

  lemma {:induction false} ResultsSplit(log: seq<Entry>, mid: nat, hi: nat)
    requires mid <= hi <= |log|
    ensures Results(log, 0, mid) + Results(log, mid, hi) == Results(log, 0, hi)
  {
    if mid < hi { ResultsSplit(log, mid, hi - 1); }
  }

  lemma ResultsShared(a: seq<Entry>, b: seq<Entry>, k: nat)
    requires k <= |a| && k <= |b| && a[..k] == b[..k]
    ensures Results(a, 0, k) == Results(b, 0, k)
  {
    forall j | 0 <= j < k ensures Results(a, 0, k)[j] == Results(b, 0, k)[j] {
      assert a[j] == a[..k][j] == b[j];
    }
  }

  // ---------------------------------------------------------------- framing

  lemma AckedStable(h: History, h': History, T: nat, v: Id, N: nat)
    requires HistoryEvolves(h, h') && Acked(h, T, v, N)
    ensures Acked(h', T, v, N)
  {
    assert ReignEvolves(T, h.reigns[T], h'.reigns[T]);
  }

  lemma CommittedStable(n: nat, h: History, h': History, T: nat, N: nat)
    requires HistoryEvolves(h, h') && Committed(n, h, T, N)
    ensures Committed(n, h', T, N)
  {
    assert ReignEvolves(T, h.reigns[T], h'.reigns[T]);
    forall v | v in Ackers(n, h, T, N) ensures v in Ackers(n, h', T, N) { AckedStable(h, h', T, v, N); }
    SubsetSize(Ackers(n, h, T, N), Ackers(n, h', T, N));
  }

  /** A committed prefix stays committed as terms, history and log grow. */
  lemma CommittedByStable(n: nat, h: History, h': History, term: nat, term': nat, log: seq<Entry>, log': seq<Entry>, k: nat)
    requires HistoryEvolves(h, h') && term <= term' && CommittedBy(n, h, term, log, k)
    requires k <= |log| && k <= |log'| && log[..k] == log'[..k]
    ensures CommittedBy(n, h', term', log', k)
  {
    if k > 0 {
      var T: nat, N: nat :| T <= term && Committed(n, h, T, N) && k <= N && Holds(h.reigns, log, T, k);
      CommittedStable(n, h, h', T, N);
      HoldsStable(h, h', log', T, k);
    }
  }

  lemma NodeStableC(n: nat, h: History, h': History, nd: Node, nd': Node)
    requires HistoryEvolves(h, h') && NodeC(n, h, nd) && nd.term <= nd'.term
    requires nd'.commit == nd.commit && nd'.applied == nd.applied && nd'.delivered == nd.delivered
    requires nd.commit <= |nd'.log| && nd'.log[..nd.commit] == nd.log[..nd.commit]
    ensures NodeC(n, h', nd')
  {
    ResultsShared(nd.log, nd'.log, nd.commit);
    CommittedByStable(n, h, h', nd.term, nd'.term, nd.log, nd'.log, nd.commit);
  }

  lemma ItemStableC(n: nat, h: History, h': History, x: Item)
    requires HistoryEvolves(h, h') && ItemC(n, h, x)
    ensures ItemC(n, h', x)
  {
    if x.AppendRequested? {
      var c := x.append;
      var t := c.req.term;
      var k := c.req.leaderCommit;
      assert ReignEvolves(t, h.reigns[t], h'.reigns[t]);
      if k > 0 {
        assert k <= |h.reigns[t].log|;
        assert h'.reigns[t].log[..k] == h.reigns[t].log[..k];
        CommittedByStable(n, h, h', t, t, h.reigns[t].log, h'.reigns[t].log, k);
      }
    }
  }

  lemma KeepC(n: nat, s: State, h: History, i: Id, nd': Node, items: set<Item>, h': History)
    requires InvC(n, s, h) && DeltaC(n, s.nodes, h, i, nd', items, h')
    ensures InvC(n, Update(s, i, nd', items), h')
  {
    var s' := Update(s, i, nd', items);
    forall j | 0 <= j < n ensures NodeC(n, h', s'.nodes[j]) {
      if j != i { NodeStableC(n, h, h', s.nodes[j], s.nodes[j]); }
    }
    forall x | x in s'.pool ensures ItemC(n, h', x) {
      if x in s.pool { ItemStableC(n, h, h', x); }
    }
  }

  // ---------------------------------------------------------------- steps

  /** Moving the commit index and applying keeps the delivered results exact. */
  lemma ApplyC(n: nat, h: History, nd: Node, commit: nat)
    requires NodeC(n, h, nd) && nd.commit < commit <= |nd.log| && CommittedBy(n, h, nd.term, nd.log, commit)
    ensures NodeC(n, h, ApplyEntries(nd.(commit := commit)))
  {
    ResultsSplit(nd.log, nd.commit, commit);
  }

  /** A node's committed prefix is in the log of every leader of its term or a later one. */
  lemma CommittedInLeader(n: nat, h: History, nd: Node, t: nat)
    requires Facts(n, h) && NodeC(n, h, nd) && nd.term <= t && t in h.reigns
    ensures var leader := h.reigns[t].log;
            nd.commit <= |leader| && nd.log[..nd.commit] == leader[..nd.commit]
  {
    var k := nd.commit;
    if k > 0 {
      var T: nat, N: nat :| T <= nd.term && Committed(n, h, T, N) && k <= N && Holds(h.reigns, nd.log, T, k);
      CommittedHeld(n, h, T, N, t);
      var leader := h.reigns[t].log;
      assert leader[..k] == leader[..N][..k] == h.reigns[T].log[..N][..k] == h.reigns[T].log[..k];
    }
  }

  /** Handling a request of the leader of term `t` never touches the committed prefix. */
  lemma MergeC(n: nat, h: History, h': History, nd: Node, nd2: Node, c: AppendCall)
    requires HistoryEvolves(h, h') && NodeC(n, h, nd) && CallL(n, h, c) && nd.term <= c.req.term == nd2.term
    requires Matching(nd.log, h.reigns[c.req.term].log) && PrevMatches(nd.log, c.req.prevIndex, c.req.prevTerm)
    requires var leader := h.reigns[c.req.term].log;
             nd.commit <= |leader| && nd.log[..nd.commit] == leader[..nd.commit]
    requires nd2.commit == nd.commit && nd2.applied == nd.applied && nd2.delivered == nd.delivered
    requires nd2.log == Merge(nd.log, c.req.prevIndex, c.req.entries)
    ensures NodeC(n, h', nd2) && nd2.log[..nd.commit] == nd.log[..nd.commit]
  {
    MergeKeepsShared(nd.log, h.reigns[c.req.term].log, c.req.prevIndex, c.req.prevTerm, c.req.entries, nd.commit);
    NodeStableC(n, h, h', nd, nd2);
  }

  ghost predicate SharedUpTo(a: seq<Entry>, b: seq<Entry>, m: nat) {
    m <= |a| && m <= |b| && a[..m] == b[..m]
  }

  lemma FollowerCommitC(n: nat, h: History, nd2: Node, c: AppendCall)
    requires NodeC(n, h, nd2) && nd2.term == c.req.term && CallC(n, h, c)
    requires SharedUpTo(nd2.log, h.reigns[c.req.term].log, c.req.prevIndex + |c.req.entries|)
    ensures NodeC(n, h, FollowerCommit(nd2, c.req.leaderCommit))
  {
    var k, m := c.req.leaderCommit, c.req.prevIndex + |c.req.entries|;
    if k > nd2.commit {
      var leader := h.reigns[c.req.term].log;
      assert nd2.log[..k] == nd2.log[..m][..k] == leader[..m][..k] == leader[..k];
      assert HistoryEvolves(h, h);
      CommittedByStable(n, h, h, c.req.term, nd2.term, leader, nd2.log, k);
      ApplyC(n, h, nd2, k);
    }
  }

  /** The leader counts itself and the peers whose match index reaches `N`: all acknowledged it. */
  lemma CommitScanC(n: nat, h: History, nd: Node, i: Id, N: nat)
    requires i < n && nd.term in h.reigns && h.reigns[nd.term].leader == i && h.reigns[nd.term].log == nd.log
    requires 1 <= N <= |nd.log| && Committable(nd.log, nd.term, nd.matched, Peers(n, i), N)
    requires forall p :: p in Peers(n, i) && Get(nd.matched, p) >= N ==> Acked(h, nd.term, p, N)
    ensures Committed(n, h, nd.term, N) && CommittedBy(n, h, nd.term, nd.log, N)
  {
    var holders := Holders(nd.matched, Peers(n, i), N);
    assert holders + {i} <= Ackers(n, h, nd.term, N);
    SubsetSize(holders + {i}, Ackers(n, h, nd.term, N));
    assert |Peers(n, i)| == n - 1;
    assert Committed(n, h, nd.term, N);
    assert Holds(h.reigns, nd.log, nd.term, N);
  }
}
