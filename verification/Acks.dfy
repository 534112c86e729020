/** What an acknowledgement is worth: the invariant behind Leader Completeness. */
module Acks {
  import opened RaftTypes
  import opened LogOps
  import opened NodeSpec
  import opened Cluster
  import opened Quorums
  import opened History
  import opened Elections
  import opened Logs

  /** `log` starts with the first `N` entries of the leader of term `T`. */
  ghost predicate Holds(reigns: map<nat, Reign>, log: seq<Entry>, T: nat, N: nat) {
    T in reigns && N <= |reigns[T].log| && N <= |log| && log[..N] == reigns[T].log[..N]
  }

  /** Node `v` told the leader of term `T`, in that term, that it holds its first `N` entries. */
  ghost predicate Acked(h: History, T: nat, v: Id, N: nat) {
    && T in h.reigns && N <= |h.reigns[T].log|
    && (v == h.reigns[T].leader || (Ballot(T, v) in h.acks && N <= h.acks[Ballot(T, v)]))
  }

  /** Some leader after term `T` and up to term `hi` does not hold the first `N` entries of term `T`'s leader. */
  ghost predicate Skipped(reigns: map<nat, Reign>, T: nat, N: nat, hi: int) {
    exists t :: T < t <= hi && t in reigns && !Holds(reigns, reigns[t].log, T, N)
  }

  /** What a node acknowledged it still holds, unless a later leader skipped it. */
  ghost predicate NodeA(h: History, v: Id, nd: Node) {
    forall T: nat, N: nat :: Acked(h, T, v, N) ==>
      T <= nd.term && (Holds(h.reigns, nd.log, T, N) || Skipped(h.reigns, T, N, nd.term))
  }

  /** The same for the log a node held when it voted. */
  ghost predicate GrantA(h: History, b: Ballot, g: Grant) {
    g.early ==> forall T: nat, N: nat :: T < b.term && Acked(h, T, b.voter, N) ==>
      Holds(h.reigns, g.log, T, N) || Skipped(h.reigns, T, N, b.term - 1)
  }

  ghost predicate AckBound(h: History, b: Ballot) {
    b in h.acks ==> b.term in h.reigns && h.acks[b] <= |h.reigns[b.term].log|
  }

  ghost predicate InvA(n: nat, s: State, h: History) {
    && |s.nodes| == n
    && (forall i :: 0 <= i < n ==> NodeA(h, i, s.nodes[i]))
    && (forall b :: b in h.grants ==> GrantA(h, b, h.grants[b]))
    && (forall b :: b in h.acks ==> AckBound(h, b))
  }

  /** No leader's log has an entry of a later term. */
  ghost predicate Bounded(h: History) {
    forall t :: t in h.reigns ==> forall k :: 0 <= k < |h.reigns[t].log| ==> h.reigns[t].log[k].term <= t
  }

  /** Only the actor gains acknowledgements, and only for the term it is in afterwards. */
  ghost predicate OnlyActorAcks(h: History, h': History, i: Id, term: nat) {
    && (forall t :: t in h'.reigns && t !in h.reigns ==> h'.reigns[t].leader == i)
    && (forall b :: b in h'.acks && (b !in h.acks || h'.acks[b] != h.acks[b]) ==> b.voter == i)
    && (forall T: nat, N: nat :: Acked(h', T, i, N) && !Acked(h, T, i, N) ==> T == term)
  }

  ghost predicate DeltaA(n: nat, nodes: seq<Node>, h: History, i: Id, nd': Node, h': History) {
    && i < n == |nodes|
    && HistoryEvolves(h, h') && OnlyOwnReignGrows(h, h', i) && OnlyActorAcks(h, h', i, nd'.term)
    && NodeA(h', i, nd')
    && (forall b :: b in h'.grants && b !in h.grants ==> b.voter == i && GrantA(h', b, h'.grants[b]))
    && (forall b :: b in h'.acks ==> AckBound(h', b))
  }

  // ---------------------------------------------------------------- framing

  lemma HoldsStable(h: History, h': History, log: seq<Entry>, T: nat, N: nat)
    requires HistoryEvolves(h, h') && T in h.reigns && N <= |h.reigns[T].log|
    ensures Holds(h'.reigns, log, T, N) <==> Holds(h.reigns, log, T, N)
  {
    assert ReignEvolves(T, h.reigns[T], h'.reigns[T]);
    assert h'.reigns[T].log[..N] == h.reigns[T].log[..N];
  }

  /** A leader that skipped a prefix cannot acquire it by appending entries of its own term. */
  lemma SkippedStable(h: History, h': History, T: nat, N: nat, hi: int, hi': int)
    requires HistoryEvolves(h, h') && Bounded(h) && T in h.reigns && N <= |h.reigns[T].log|
    requires hi <= hi' && Skipped(h.reigns, T, N, hi)
    ensures Skipped(h'.reigns, T, N, hi')
  {
    var t :| T < t <= hi && t in h.reigns && !Holds(h.reigns, h.reigns[t].log, T, N);
    var r, r', p := h.reigns[t], h'.reigns[t], h.reigns[T].log;
    assert ReignEvolves(t, r, r');
    assert !Holds(h.reigns, r'.log, T, N) by {
      if |r.log| < N <= |r'.log| {
        assert r'.log[..N][|r.log|].term == t && p[..N][|r.log|].term <= T;
      } else if N <= |r.log| {
        assert r'.log[..N] == r.log[..N];
      }
    }
    HoldsStable(h, h', r'.log, T, N);
  }

  lemma HeldOrSkippedStable(h: History, h': History, log: seq<Entry>, T: nat, N: nat, hi: int, hi': int)
    requires HistoryEvolves(h, h') && Bounded(h) && T in h.reigns && N <= |h.reigns[T].log| && hi <= hi'
    requires Holds(h.reigns, log, T, N) || Skipped(h.reigns, T, N, hi)
    ensures Holds(h'.reigns, log, T, N) || Skipped(h'.reigns, T, N, hi')
  {
    if Holds(h.reigns, log, T, N) {
      HoldsStable(h, h', log, T, N);
    } else {
      SkippedStable(h, h', T, N, hi, hi');
    }
  }

  /** Other nodes gain no acknowledgement from a step of node `i`. */
  lemma NoNewAck(h: History, h': History, i: Id, term: nat, v: Id, T: nat, N: nat)
    requires HistoryEvolves(h, h') && OnlyOwnReignGrows(h, h', i) && OnlyActorAcks(h, h', i, term)
    requires forall b :: b in h.acks ==> AckBound(h, b)
    requires forall b :: b in h'.acks ==> AckBound(h', b)
    requires v != i && Acked(h', T, v, N)
    ensures Acked(h, T, v, N)
  {
    assert T in h.reigns by {
      assert forall b :: b in h.acks ==> AckBound(h, b) && b.term in h.reigns;
    }
    assert ReignEvolves(T, h.reigns[T], h'.reigns[T]);
    if v != h.reigns[T].leader {
      assert Ballot(T, v) in h'.acks && Ballot(T, v) in h.acks && AckBound(h, Ballot(T, v));
    }
  }

  lemma BystanderA(h: History, h': History, i: Id, term: nat, v: Id, nd: Node)
    requires v != i && NodeA(h, v, nd) && Bounded(h)
    requires HistoryEvolves(h, h') && OnlyOwnReignGrows(h, h', i) && OnlyActorAcks(h, h', i, term)
    requires forall b :: b in h.acks ==> AckBound(h, b)
    requires forall b :: b in h'.acks ==> AckBound(h', b)
    ensures NodeA(h', v, nd)
  {
    forall T: nat, N: nat | Acked(h', T, v, N)
      ensures T <= nd.term && (Holds(h'.reigns, nd.log, T, N) || Skipped(h'.reigns, T, N, nd.term))
    {
      NoNewAck(h, h', i, term, v, T, N);
      HeldOrSkippedStable(h, h', nd.log, T, N, nd.term, nd.term);
    }
  }

  lemma OldGrantA(h: History, h': History, i: Id, term: nat, b: Ballot, g: Grant)
    requires GrantA(h, b, g) && Bounded(h) && (b.voter == i ==> b.term <= term)
    requires HistoryEvolves(h, h') && OnlyOwnReignGrows(h, h', i) && OnlyActorAcks(h, h', i, term)
    requires forall b :: b in h.acks ==> AckBound(h, b)
    requires forall b :: b in h'.acks ==> AckBound(h', b)
    ensures GrantA(h', b, g)
  {
    if g.early {
      forall T: nat, N: nat | T < b.term && Acked(h', T, b.voter, N)
        ensures Holds(h'.reigns, g.log, T, N) || Skipped(h'.reigns, T, N, b.term - 1)
      {
        if b.voter != i { NoNewAck(h, h', i, term, b.voter, T, N); }
        assert Acked(h, T, b.voter, N);
        HeldOrSkippedStable(h, h', g.log, T, N, b.term - 1, b.term - 1);
      }
    }
  }

  lemma KeepA(n: nat, s: State, h: History, i: Id, nd': Node, items: set<Item>, h': History)
    requires InvA(n, s, h) && DeltaA(n, s.nodes, h, i, nd', h') && Bounded(h)
    requires forall b :: b in h.grants && b.voter == i ==> b.term <= nd'.term
    ensures InvA(n, Update(s, i, nd', items), h')
  {
    var s' := Update(s, i, nd', items);
    forall j | 0 <= j < n ensures NodeA(h', j, s'.nodes[j]) {
      if j != i { BystanderA(h, h', i, nd'.term, j, s.nodes[j]); }
    }
    forall b | b in h'.grants ensures GrantA(h', b, h'.grants[b]) {
      if b in h.grants { OldGrantA(h, h', i, nd'.term, b, h.grants[b]); }
    }
  }

  // ---------------------------------------------------------------- steps

  lemma SameLogA(n: nat, nodes: seq<Node>, h: History, i: Id, nd': Node)
    requires i < n == |nodes| && NodeA(h, i, nodes[i]) && nd'.log == nodes[i].log && nodes[i].term <= nd'.term
    requires forall b :: b in h.acks ==> AckBound(h, b)
    ensures DeltaA(n, nodes, h, i, nd', h)
  {
    forall T: nat, N: nat | Acked(h, T, i, N)
      ensures T <= nd'.term && (Holds(h.reigns, nd'.log, T, N) || Skipped(h.reigns, T, N, nd'.term))
    {
    }
  }

  /** A new vote in term `t`: the voter's log as it is now. */
  lemma GrantDeltaA(n: nat, nodes: seq<Node>, h: History, h': History, i: Id, nd': Node)
    requires i < n == |nodes| && NodeA(h, i, nodes[i]) && nd'.log == nodes[i].log && nodes[i].term <= nd'.term
    requires forall b :: b in h.acks ==> AckBound(h, b)
    requires HistoryEvolves(h, h') && h'.reigns == h.reigns && h'.acks == h.acks
    requires forall b :: b in h'.grants && b !in h.grants ==>
               b == Ballot(nd'.term, i) && h'.grants[b].log == nodes[i].log && h'.grants[b].early == (nd'.term !in h.reigns)
    ensures DeltaA(n, nodes, h, i, nd', h')
  {
    SameLogA(n, nodes, h, i, nd');
    assert forall T: nat, v: Id, N: nat :: Acked(h', T, v, N) == Acked(h, T, v, N);
    forall b | b in h'.grants && b !in h.grants ensures GrantA(h', b, h'.grants[b]) {
      if h'.grants[b].early {
        forall T: nat, N: nat | T < b.term && Acked(h', T, i, N)
          ensures Holds(h'.reigns, nd'.log, T, N) || Skipped(h'.reigns, T, N, b.term - 1)
        {
          assert Acked(h, T, i, N);
          assert Skipped(h.reigns, T, N, nodes[i].term) ==> Skipped(h.reigns, T, N, b.term - 1);
        }
      }
    }
  }

  lemma WinDeltaA(n: nat, nodes: seq<Node>, h: History, i: Id, nd': Node, h': History)
    requires i < n == |nodes| && NodeA(h, i, nodes[i]) && nodes[i].term !in h.reigns && Bounded(h)
    requires forall b :: b in h.acks ==> AckBound(h, b)
    requires nd'.term == nodes[i].term && nd'.log == nodes[i].log
    requires h' == h.(reigns := h.reigns[nd'.term := Reign(i, nd'.votes, nd'.log, nd'.log)])
    ensures DeltaA(n, nodes, h, i, nd', h')
  {
    assert HistoryEvolves(h, h');
    forall T: nat, N: nat | Acked(h', T, i, N)
      ensures T <= nd'.term && (Holds(h'.reigns, nd'.log, T, N) || Skipped(h'.reigns, T, N, nd'.term))
      ensures T == nd'.term || Acked(h, T, i, N)
    {
      if T != nd'.term {
        assert Acked(h, T, i, N);
        HeldOrSkippedStable(h, h', nd'.log, T, N, nd'.term, nd'.term);
      }
    }
  }

  lemma ProposeDeltaA(n: nat, nodes: seq<Node>, h: History, i: Id, nd': Node, h': History)
    requires i < n == |nodes| && NodeA(h, i, nodes[i]) && Bounded(h)
    requires forall b :: b in h.acks ==> AckBound(h, b)
    requires var nd := nodes[i];
             && nd.term in h.reigns && h.reigns[nd.term].leader == i && h.reigns[nd.term].log == nd.log
             && nd'.term == nd.term && nd.log <= nd'.log
             && (forall k :: |nd.log| <= k < |nd'.log| ==> nd'.log[k].term == nd.term)
             && h' == h.(reigns := h.reigns[nd.term := h.reigns[nd.term].(log := nd'.log)])
    ensures DeltaA(n, nodes, h, i, nd', h')
  {
    var nd := nodes[i];
    assert HistoryEvolves(h, h');
    forall T: nat, N: nat | Acked(h', T, i, N)
      ensures T <= nd'.term && (Holds(h'.reigns, nd'.log, T, N) || Skipped(h'.reigns, T, N, nd'.term))
      ensures T == nd'.term || Acked(h, T, i, N)
    {
      if T != nd'.term {
        assert Acked(h, T, i, N);
        if Holds(h.reigns, nd.log, T, N) {
          assert nd'.log[..N] == nd.log[..N];
        }
        HeldOrSkippedStable(h, h', nd'.log, T, N, nd'.term, nd'.term);
      }
    }
  }

  /** Merging keeps what was acknowledged, unless the request's own leader skipped it. */
  lemma MergeStillHolds(h: History, log: seq<Entry>, term: nat, c: AppendCall, T: nat, N: nat)
    requires T in h.reigns && N <= |h.reigns[T].log| && T <= term <= c.req.term && c.req.term in h.reigns
    requires Holds(h.reigns, log, T, N) || Skipped(h.reigns, T, N, term)
    requires var leader := h.reigns[c.req.term].log;
             && Matching(log, leader) && SliceOf(leader, c.req.prevIndex, c.req.prevTerm, c.req.entries)
             && PrevMatches(log, c.req.prevIndex, c.req.prevTerm)
    ensures c.req.prevIndex <= |log|
    ensures Holds(h.reigns, Merge(log, c.req.prevIndex, c.req.entries), T, N) || Skipped(h.reigns, T, N, c.req.term)
  {
    var leader := h.reigns[c.req.term].log;
    if Holds(h.reigns, log, T, N) && Holds(h.reigns, leader, T, N) {
      MergeKeepsShared(log, leader, c.req.prevIndex, c.req.prevTerm, c.req.entries, N);
    }
  }

  /** After the merge, the node holds both what it acknowledged before and the new request. */
  lemma MergeAcked(n: nat, h: History, h': History, i: Id, nd: Node, c: AppendCall, T: nat, N: nat)
    requires NodeA(h, i, nd) && CallL(n, h, c) && nd.term <= c.req.term
    requires OfReigns(h.reigns, nd.log) && OfReigns(h.reigns, h.reigns[c.req.term].log)
    requires PrevMatches(nd.log, c.req.prevIndex, c.req.prevTerm)
    requires h' == RecordAck(h, c.req.term, i, c.req.prevIndex + |c.req.entries|)
    requires Acked(h', T, i, N)
    ensures c.req.prevIndex <= |nd.log| && T <= c.req.term
    ensures Holds(h.reigns, Merge(nd.log, c.req.prevIndex, c.req.entries), T, N) || Skipped(h.reigns, T, N, c.req.term)
    ensures T == c.req.term || Acked(h, T, i, N)
  {
    var leader := h.reigns[c.req.term].log;
    WovenMatching(h.reigns, nd.log, leader);
    if Acked(h, T, i, N) {
      MergeStillHolds(h, nd.log, nd.term, c, T, N);
    } else {
      var m := c.req.prevIndex + |c.req.entries|;
      MergeSlice(nd.log, leader, c.req.prevIndex, c.req.prevTerm, c.req.entries);
      var r := Merge(nd.log, c.req.prevIndex, c.req.entries);
      assert r[..N] == r[..m][..N] == leader[..m][..N] == leader[..N];
    }
  }

  /** A follower that merges a request of term `t` and acknowledges it. */
  lemma MergeDeltaA(n: nat, nodes: seq<Node>, h: History, i: Id, nd': Node, h': History, c: AppendCall)
    requires i < n == |nodes| && NodeA(h, i, nodes[i]) && CallL(n, h, c)
    requires forall b :: b in h.acks ==> AckBound(h, b)
    requires OfReigns(h.reigns, nodes[i].log) && OfReigns(h.reigns, h.reigns[c.req.term].log)
    requires nodes[i].term <= nd'.term == c.req.term
    requires PrevMatches(nodes[i].log, c.req.prevIndex, c.req.prevTerm)
    requires nd'.log == Merge(nodes[i].log, c.req.prevIndex, c.req.entries)
    requires h' == RecordAck(h, c.req.term, i, c.req.prevIndex + |c.req.entries|)
    ensures DeltaA(n, nodes, h, i, nd', h')
  {
    forall T: nat, N: nat | Acked(h', T, i, N)
      ensures T <= nd'.term && (Holds(h'.reigns, nd'.log, T, N) || Skipped(h'.reigns, T, N, nd'.term))
      ensures T == nd'.term || Acked(h, T, i, N)
    {
      MergeAcked(n, h, h', i, nodes[i], c, T, N);
    }
  }
}
