/** What holds in every run of the cluster, stated on states and steps alone. */
module Theorems {
  import opened RaftTypes
  import opened LogOps
  import opened NodeSpec
  import opened Cluster
  import opened Quorums
  import opened History
  import opened Elections
  import opened Logs
  import opened Acks
  import opened Completeness
  import opened Commits
  import opened Indices
  import opened Preservation
  import opened Reachability

  /** Node `i` after the first `k` steps of a run. */
  function At(n: nat, senders: set<Role>, steps: seq<Step>, k: nat, i: Id): Option<Node> {
    if k <= |steps| && i < n && IsRun(n, senders, steps[..k])
    then Some(After(n, senders, steps[..k]).nodes[i])
    else None
  }

  predicate LeaderAt(n: nat, senders: set<Role>, steps: seq<Step>, k: nat, i: Id, term: nat) {
    match At(n, senders, steps, k, i)
    case Some(nd) => nd.role == Leader && nd.term == term
    case None => false
  }

  /** The state after `k` steps, with the invariant and the history up to there and to the end. */
  lemma AtFacts(n: nat, steps: seq<Step>, k: nat, i: Id)
    requires SafeSize(n) && IsRun(n, {Leader}, steps) && k <= |steps| && i < n
    ensures IsRun(n, {Leader}, steps[..k])
    ensures var s := After(n, {Leader}, steps[..k]); var h := HistoryOf(n, {Leader}, steps[..k]);
            && |s.nodes| == n && At(n, {Leader}, steps, k, i) == Some(s.nodes[i])
            && NodeE(n, h, i, s.nodes[i]) && NodeL(h, s.nodes[i]) && NodeC(n, h, s.nodes[i])
            && HistoryEvolves(h, HistoryOf(n, {Leader}, steps))
  {
    RunPrefix(n, {Leader}, steps, k);
    ReachableInv(n, steps[..k]);
  }

  /** What a node had committed after `k` steps, seen from the end of the run. */
  lemma CommittedAtEnd(n: nat, steps: seq<Step>, k: nat, i: Id)
    requires SafeSize(n) && IsRun(n, {Leader}, steps) && k <= |steps| && i < n
    ensures At(n, {Leader}, steps, k, i).Some?
    ensures NodeC(n, HistoryOf(n, {Leader}, steps), At(n, {Leader}, steps, k, i).value)
  {
    AtFacts(n, steps, k, i);
    var a := At(n, {Leader}, steps, k, i).value;
    NodeStableC(n, HistoryOf(n, {Leader}, steps[..k]), HistoryOf(n, {Leader}, steps), a, a);
  }

  lemma FactsAtEnd(n: nat, steps: seq<Step>)
    requires SafeSize(n) && IsRun(n, {Leader}, steps)
    ensures Facts(n, HistoryOf(n, {Leader}, steps))
  {
    ReachableInv(n, steps);
    FactsHold(n, After(n, {Leader}, steps), HistoryOf(n, {Leader}, steps));
  }

  // ---------------------------------------------------------------- Election Safety

  /** No run, under any interleaving, has two nodes that were leader in the same term. */
  lemma ElectionSafety(n: nat, senders: set<Role>, steps: seq<Step>, k: nat, i: Id, l: nat, j: Id, term: nat)
    requires SafeSize(n) && IsRun(n, senders, steps)
    requires LeaderAt(n, senders, steps, k, i, term) && LeaderAt(n, senders, steps, l, j, term)
    ensures i == j
  {
    var h := HistoryOf(n, senders, steps);
    ReignAt(n, senders, steps, k, i, term);
    ReignAt(n, senders, steps, l, j, term);
  }

  lemma ReignAt(n: nat, senders: set<Role>, steps: seq<Step>, k: nat, i: Id, term: nat)
    requires SafeSize(n) && IsRun(n, senders, steps) && LeaderAt(n, senders, steps, k, i, term)
    ensures var h := HistoryOf(n, senders, steps); term in h.reigns && h.reigns[term].leader == i
  {
    RunPrefix(n, senders, steps, k);
    ReachableE(n, senders, steps[..k]);
    var h := HistoryOf(n, senders, steps[..k]);
    assert NodeE(n, h, i, After(n, senders, steps[..k]).nodes[i]);
    assert ReignEvolves(term, h.reigns[term], HistoryOf(n, senders, steps).reigns[term]);
  }

  // ---------------------------------------------------------------- Leader Completeness

  /** Once a leader's commit index is `N`, whoever is leader of a later term, at any point of the
      run, holds the same first `N` entries. */
  lemma CommittedInLaterLeaders(n: nat, steps: seq<Step>, k: nat, i: Id, T: nat, l: nat, j: Id, T': nat)
    requires SafeSize(n) && IsRun(n, {Leader}, steps)
    requires LeaderAt(n, {Leader}, steps, k, i, T) && LeaderAt(n, {Leader}, steps, l, j, T') && T < T'
    ensures var a, b := At(n, {Leader}, steps, k, i).value, At(n, {Leader}, steps, l, j).value;
            a.commit <= |a.log| && a.commit <= |b.log| && b.log[..a.commit] == a.log[..a.commit]
  {
    CommittedAtEnd(n, steps, k, i);
    BaseAt(n, steps, l, j, T');
    FactsAtEnd(n, steps);
    BaseHolds(n, HistoryOf(n, {Leader}, steps), At(n, {Leader}, steps, k, i).value, T');
  }

  /** A leader's log extends the log it was elected with. */
  lemma BaseAt(n: nat, steps: seq<Step>, k: nat, i: Id, term: nat)
    requires SafeSize(n) && IsRun(n, {Leader}, steps) && LeaderAt(n, {Leader}, steps, k, i, term)
    ensures var h := HistoryOf(n, {Leader}, steps);
            term in h.reigns && h.reigns[term].base <= At(n, {Leader}, steps, k, i).value.log
  {
    AtFacts(n, steps, k, i);
    ReachableInv(n, steps[..k]);
    var hk := HistoryOf(n, {Leader}, steps[..k]);
    assert ReignL(After(n, {Leader}, steps[..k]).nodes, hk, term, hk.reigns[term]);
    assert ReignEvolves(term, hk.reigns[term], HistoryOf(n, {Leader}, steps).reigns[term]);
  }

  lemma BaseHolds(n: nat, h: History, a: Node, t: nat)
    requires Facts(n, h) && NodeC(n, h, a) && a.term < t && t in h.reigns
    ensures var base := h.reigns[t].base; a.commit <= |base| && base[..a.commit] == a.log[..a.commit]
  {
    var k := a.commit;
    if k > 0 {
      var T: nat, N: nat :| T <= a.term && Committed(n, h, T, N) && k <= N && Holds(h.reigns, a.log, T, k);
      LeaderCompleteness(n, h, T, N, t);
      var base := h.reigns[t].base;
      assert base[..k] == base[..N][..k] == h.reigns[T].log[..N][..k] == h.reigns[T].log[..k];
    }
  }

  // ---------------------------------------------------------------- State Machine Safety

  predicate Comparable<T(==)>(a: seq<T>, b: seq<T>) {
    a <= b || b <= a
  }

  /** The logs of two leaders agree on what the earlier one committed. */
  lemma CommittedAgree(n: nat, h: History, T: nat, N: nat, U: nat, k: nat)
    requires Facts(n, h) && Committed(n, h, T, N) && T <= U && U in h.reigns && k <= N
    ensures k <= |h.reigns[U].log| && h.reigns[T].log[..k] == h.reigns[U].log[..k]
  {
    CommittedHeld(n, h, T, N, U);
    var x, y := h.reigns[T].log, h.reigns[U].log;
    assert x[..k] == x[..N][..k] == y[..N][..k] == y[..k];
  }

  /** Two committed prefixes are comparable. */
  lemma CommittedComparable(n: nat, h: History, a: Node, b: Node)
    requires Facts(n, h) && NodeC(n, h, a) && NodeC(n, h, b) && a.commit <= b.commit
    ensures a.log[..a.commit] == b.log[..a.commit]
  {
    if a.commit > 0 {
      var T: nat, N: nat :| T <= a.term && Committed(n, h, T, N) && a.commit <= N && Holds(h.reigns, a.log, T, a.commit);
      var U: nat, M: nat :| U <= b.term && Committed(n, h, U, M) && b.commit <= M && Holds(h.reigns, b.log, U, b.commit);
      var y := h.reigns[U].log;
      assert b.log[..a.commit] == b.log[..b.commit][..a.commit] == y[..b.commit][..a.commit] == y[..a.commit];
      if T <= U {
        CommittedAgree(n, h, T, N, U, a.commit);
      } else {
        CommittedAgree(n, h, U, M, T, a.commit);
      }
    }
  }

  /** The sequences any two nodes handed to their state machines, at any two points of a run,
      are prefixes one of the other. */
  lemma StateMachineSafety(n: nat, steps: seq<Step>, k: nat, i: Id, l: nat, j: Id)
    requires SafeSize(n) && IsRun(n, {Leader}, steps) && k <= |steps| && l <= |steps| && i < n && j < n
    ensures At(n, {Leader}, steps, k, i).Some? && At(n, {Leader}, steps, l, j).Some?
    ensures Comparable(At(n, {Leader}, steps, k, i).value.delivered, At(n, {Leader}, steps, l, j).value.delivered)
  {
    CommittedAtEnd(n, steps, k, i);
    CommittedAtEnd(n, steps, l, j);
    FactsAtEnd(n, steps);
    var h := HistoryOf(n, {Leader}, steps);
    var a, b := At(n, {Leader}, steps, k, i).value, At(n, {Leader}, steps, l, j).value;
    if a.commit <= b.commit {
      CommittedComparable(n, h, a, b);
      DeliveredPrefix(a, b);
    } else {
      CommittedComparable(n, h, b, a);
      DeliveredPrefix(b, a);
    }
  }

  lemma DeliveredPrefix(a: Node, b: Node)
    requires a.commit <= b.commit && a.commit <= |a.log| && b.commit <= |b.log|
    requires a.delivered == Results(a.log, 0, a.commit) && b.delivered == Results(b.log, 0, b.commit)
    requires a.log[..a.commit] == b.log[..a.commit]
    ensures a.delivered <= b.delivered
  {
    ResultsShared(a.log, b.log, a.commit);
    ResultsSplit(b.log, a.commit, b.commit);
  }
}
