/** Leader Completeness: what a majority acknowledged is in every later leader's log. */
module Completeness {
  import opened RaftTypes
  import opened LogOps
  import opened Cluster
  import opened Quorums
  import opened History
  import opened Elections
  import opened Logs
  import opened Acks

  ghost function Ackers(n: nat, h: History, T: nat, N: nat): set<Id> {
    set v | v in Ids(n) && Acked(h, T, v, N)
  }

  /** Index `N` of the leader of term `T` carries that term and a majority acknowledged it. */
  ghost predicate Committed(n: nat, h: History, T: nat, N: nat) {
    && T in h.reigns && 1 <= N <= |h.reigns[T].log| && h.reigns[T].log[N - 1].term == T
    && CommitQuorum(n, Ackers(n, h, T, N))
  }

  /** What the invariant says about one voter of a leader. */
  ghost predicate VoterFacts(h: History, t: nat, v: Id) {
    && t in h.reigns && VoterE(h, t, h.reigns[t].leader, h.reigns[t].base, v)
    && var g := h.grants[Ballot(t, v)];
       OfReigns(h.reigns, g.log) && GrantA(h, Ballot(t, v), g)
  }

  ghost predicate ReignFacts(n: nat, h: History, t: nat) {
    && t in h.reigns && t >= 1
    && var r := h.reigns[t];
       && OfReigns(h.reigns, r.log) && ReignShape(t, r)
       && VoteQuorum(n, r.voters) && forall v :: v in r.voters ==> VoterFacts(h, t, v)
  }

  /** The parts of the invariant that completeness rests on. */
  ghost predicate Facts(n: nat, h: History) {
    forall t :: t in h.reigns ==> ReignFacts(n, h, t)
  }

  lemma FactsHold(n: nat, s: State, h: History)
    requires InvE(n, s, h) && InvL(n, s, h) && InvA(n, s, h)
    ensures Facts(n, h)
  {
    forall t | t in h.reigns ensures ReignFacts(n, h, t) {
      assert ReignE(n, s.nodes, h, t, h.reigns[t]) && ReignL(s.nodes, h, t, h.reigns[t]);
      forall v | v in h.reigns[t].voters ensures VoterFacts(h, t, v) {
        assert VoterE(h, t, h.reigns[t].leader, h.reigns[t].base, v);
      }
    }
  }

  /** A log at least as up-to-date as one that holds the first `N` entries of term `T`'s leader
      holds them too, provided the leader of its last entry's term does. */
  lemma UpToDateHolds(h: History, base: seq<Entry>, log: seq<Entry>, T: nat, N: nat)
    requires OfReigns(h.reigns, base) && OfReigns(h.reigns, log)
    requires forall t :: t in h.reigns ==> Sorted(h.reigns[t].log)
    requires UpToDate(LastTerm(base), |base|, LastTerm(log), |log|)
    requires Holds(h.reigns, log, T, N) && 1 <= N && h.reigns[T].log[N - 1].term == T && 1 <= T
    requires base != [] && LastTerm(base) > T && LastTerm(base) in h.reigns ==>
               Holds(h.reigns, h.reigns[LastTerm(base)].log, T, N)
    ensures Holds(h.reigns, base, T, N)
  {
    WovenSorted(h.reigns, log);
    WovenSorted(h.reigns, base);
    assert log[N - 1] == log[..N][N - 1];
    assert LastTerm(log) >= T;
    var k := |base| - 1;
    assert FromReign(h.reigns, base, k) && FromReign(h.reigns, log, |log| - 1);
    assert base[..k + 1] == base && log[..|log|] == log;
    var leader := h.reigns[base[k].term].log;
    if LastTerm(base) == LastTerm(log) {
      assert base[..N] == leader[..N] == log[..N];
    } else {
      assert leader[N - 1] == leader[..N][N - 1];
      assert leader[k] == leader[..k + 1][k];
      assert k >= N;
      assert base[..N] == leader[..N];
    }
  }

  /** Once a majority acknowledged index `N` of term `T`, every leader of a later term holds it,
      and held it when it was elected. */
  lemma {:induction false} LeaderCompleteness(n: nat, h: History, T: nat, N: nat, t: nat)
    requires Facts(n, h) && Committed(n, h, T, N) && T < t && t in h.reigns
    ensures Holds(h.reigns, h.reigns[t].base, T, N) && Holds(h.reigns, h.reigns[t].log, T, N)
    decreases t
  {
    var r := h.reigns[t];
    assert ReignFacts(n, h, t) && ReignFacts(n, h, T);
    var v := VotesMeetCommits(n, r.voters, Ackers(n, h, T, N));
    assert VoterFacts(h, t, v) && Acked(h, T, v, N);
    var g := h.grants[Ballot(t, v)];
    if Skipped(h.reigns, T, N, t - 1) {
      var u :| T < u <= t - 1 && u in h.reigns && !Holds(h.reigns, h.reigns[u].log, T, N);
      LeaderCompleteness(n, h, T, N, u);
      assert false;
    }
    BaseWoven(h, t);
    if r.base != [] && LastTerm(r.base) > T {
      LeaderCompleteness(n, h, T, N, LastTerm(r.base));
    }
    AllSorted(n, h);
    UpToDateHolds(h, r.base, g.log, T, N);
    assert r.log[..N] == r.base[..N];
  }

  lemma AllSorted(n: nat, h: History)
    requires Facts(n, h)
    ensures forall t :: t in h.reigns ==> Sorted(h.reigns[t].log)
  {
    assert forall t :: t in h.reigns ==> ReignFacts(n, h, t) && ReignShape(t, h.reigns[t]);
  }

  /** The log a leader was elected with is woven from earlier reigns. */
  lemma BaseWoven(h: History, t: nat)
    requires t in h.reigns && OfReigns(h.reigns, h.reigns[t].log) && ReignShape(t, h.reigns[t])
    ensures OfReigns(h.reigns, h.reigns[t].base)
    ensures var b := h.reigns[t].base; b != [] ==> LastTerm(b) in h.reigns && LastTerm(b) < t
  {
    var r := h.reigns[t];
    WovenPrefix(h.reigns, r.log, |r.base|);
    assert r.log[..|r.base|] == r.base;
    if r.base != [] { assert FromReign(h.reigns, r.base, |r.base| - 1); }
  }

  /** Two committed prefixes: the one of the earlier term is part of the later leader's log. */
  lemma CommittedHeld(n: nat, h: History, T: nat, N: nat, t: nat)
    requires Facts(n, h) && Committed(n, h, T, N) && T <= t && t in h.reigns
    ensures Holds(h.reigns, h.reigns[t].log, T, N)
  {
    if T < t { LeaderCompleteness(n, h, T, N, t); }
  }
}
