/** The invariant behind Log Matching: every log is woven from the logs of the leaders of its
    entries' terms. Every step keeps it when append requests are built by leaders. */
module Logs {
  import opened RaftTypes
  import opened LogOps
  import opened NodeSpec
  import opened Cluster
  import opened Quorums
  import opened History
  import opened Elections

  /** Up to position `k`, `log` is the log of the leader of its entry's term at `k`. */
  ghost predicate FromReign(reigns: map<nat, Reign>, log: seq<Entry>, k: nat)
    requires k < |log|
  {
    var t := log[k].term;
    t in reigns && k < |reigns[t].log| && log[..k + 1] == reigns[t].log[..k + 1]
  }

  ghost predicate OfReigns(reigns: map<nat, Reign>, log: seq<Entry>) {
    forall k :: 0 <= k < |log| ==> FromReign(reigns, log, k)
  }

  ghost predicate NodeL(h: History, nd: Node) {
    && OfReigns(h.reigns, nd.log)
    && (forall k :: 0 <= k < |nd.log| ==> 1 <= nd.log[k].term <= nd.term)
    && (nd.role == Candidate ==> forall k :: 0 <= k < |nd.log| ==> nd.log[k].term < nd.term)
  }

  /** A reign's log: the log its leader was elected with, then entries of its own term. */
  ghost predicate ReignShape(t: nat, r: Reign) {
    && 1 <= t && r.base <= r.log && Sorted(r.log)
    && (forall k :: 0 <= k < |r.base| ==> 1 <= r.log[k].term < t)
    && (forall k :: |r.base| <= k < |r.log| ==> r.log[k].term == t)
  }

  ghost predicate ReignL(nodes: seq<Node>, h: History, t: nat, r: Reign) {
    && OfReigns(h.reigns, r.log) && ReignShape(t, r)
    && (r.leader < |nodes| && nodes[r.leader].term == t ==> nodes[r.leader].role == Leader)
  }

  /** The request is a slice of the log of its term's leader, sent to another node. */
  ghost predicate CallL(n: nat, h: History, c: AppendCall) {
    && c.src != c.dst && c.dst < n
    && c.req.term in h.reigns && h.reigns[c.req.term].leader == c.src
    && SliceOf(h.reigns[c.req.term].log, c.req.prevIndex, c.req.prevTerm, c.req.entries)
    && (c.req.prevIndex > 0 ==> c.req.prevTerm >= 1)
  }

  ghost predicate ItemL(n: nat, h: History, x: Item) {
    match x
    case AppendRequested(c) => CallL(n, h, c)
    case AppendAnswer(c, _) => CallL(n, h, c)
    case Proposed(i, res, data) =>
      && res.term in h.reigns && h.reigns[res.term].leader == i
      && 1 <= res.index <= |h.reigns[res.term].log|
      && h.reigns[res.term].log[res.index - 1] == Entry(res.term, data)
    case _ => true
  }

  ghost predicate InvL(n: nat, s: State, h: History) {
    && |s.nodes| == n
    && (forall i :: 0 <= i < n ==> NodeL(h, s.nodes[i]))
    && (forall b :: b in h.grants ==> OfReigns(h.reigns, h.grants[b].log))
    && (forall t :: t in h.reigns ==> ReignL(s.nodes, h, t, h.reigns[t]))
    && (forall x :: x in s.pool ==> ItemL(n, h, x))
  }

  ghost predicate DeltaL(n: nat, nodes: seq<Node>, h: History, i: Id, nd': Node, items: set<Item>, h': History) {
    && i < n == |nodes|
    && HistoryEvolves(h, h')
    && (nodes[i].role == Leader && nd'.term == nodes[i].term ==> nd'.role == Leader)
    && nodes[i].term <= nd'.term
    && NodeL(h', nd')
    && (forall b :: b in h'.grants && b !in h.grants ==> OfReigns(h'.reigns, h'.grants[b].log))
    && (forall t :: t in h'.reigns ==>
          (t in h.reigns && h'.reigns[t] == h.reigns[t]) || ReignL(nodes[i := nd'], h', t, h'.reigns[t]))
    && (forall x :: x in items ==> ItemL(n, h', x))
  }

  // ---------------------------------------------------------------- consequences

  /** Two logs woven from the same reigns agree up to any index where their terms agree. */
  lemma WovenMatching(reigns: map<nat, Reign>, a: seq<Entry>, b: seq<Entry>)
    requires OfReigns(reigns, a) && OfReigns(reigns, b)
    ensures Matching(a, b)
  {
    forall k | 0 <= k < |a| && k < |b| && a[k].term == b[k].term ensures a[..k + 1] == b[..k + 1] {
      assert FromReign(reigns, a, k) && FromReign(reigns, b, k);
    }
  }

  lemma WovenPrefix(reigns: map<nat, Reign>, a: seq<Entry>, m: nat)
    requires OfReigns(reigns, a) && m <= |a|
    ensures OfReigns(reigns, a[..m])
  {
    forall k | 0 <= k < m ensures FromReign(reigns, a[..m], k) {
      assert FromReign(reigns, a, k);
      assert a[..m][..k + 1] == a[..k + 1];
    }
  }

  /** Terms never decrease along a log. */
  lemma WovenSorted(reigns: map<nat, Reign>, a: seq<Entry>)
    requires OfReigns(reigns, a)
    requires forall t :: t in reigns ==> Sorted(reigns[t].log)
    ensures Sorted(a)
  {
    if a != [] {
      var k := |a| - 1;
      assert FromReign(reigns, a, k);
      assert a == a[..k + 1];
    }
  }

  lemma WovenStable(h: History, h': History, a: seq<Entry>)
    requires OfReigns(h.reigns, a) && HistoryEvolves(h, h')
    ensures OfReigns(h'.reigns, a)
  {
    forall k | 0 <= k < |a| ensures FromReign(h'.reigns, a, k) {
      assert FromReign(h.reigns, a, k);
      var t := a[k].term;
      assert ReignEvolves(t, h.reigns[t], h'.reigns[t]);
      assert h'.reigns[t].log[..k + 1] == h.reigns[t].log[..k + 1];
    }
  }

  // ---------------------------------------------------------------- framing

  lemma SliceStable(a: seq<Entry>, b: seq<Entry>, prev: nat, prevTerm: nat, entries: seq<Entry>)
    requires a <= b && SliceOf(a, prev, prevTerm, entries)
    ensures SliceOf(b, prev, prevTerm, entries)
  {
    assert b[prev..prev + |entries|] == a[prev..prev + |entries|];
  }

  lemma CallStable(n: nat, h: History, h': History, c: AppendCall)
    requires CallL(n, h, c) && HistoryEvolves(h, h')
    ensures CallL(n, h', c)
  {
    var t := c.req.term;
    assert ReignEvolves(t, h.reigns[t], h'.reigns[t]);
    SliceStable(h.reigns[t].log, h'.reigns[t].log, c.req.prevIndex, c.req.prevTerm, c.req.entries);
  }

  lemma ItemStable(n: nat, h: History, h': History, x: Item)
    requires ItemL(n, h, x) && HistoryEvolves(h, h')
    ensures ItemL(n, h', x)
  {
    match x
    case AppendRequested(c) => CallStable(n, h, h', c);
    case AppendAnswer(c, _) => CallStable(n, h, h', c);
    case Proposed(_, res, _) => assert ReignEvolves(res.term, h.reigns[res.term], h'.reigns[res.term]);
    case _ =>
  }

  lemma ReignStable(n: nat, nodes: seq<Node>, h: History, i: Id, nd': Node, h': History, t: nat)
    requires i < n == |nodes| && HistoryEvolves(h, h')
    requires nodes[i].role == Leader && nd'.term == nodes[i].term ==> nd'.role == Leader
    requires nodes[i].term <= nd'.term
    requires t in h.reigns && ReignL(nodes, h, t, h.reigns[t])
    requires h.reigns[t].leader == i ==> t <= nodes[i].term
    ensures ReignL(nodes[i := nd'], h', t, h.reigns[t])
  {
    WovenStable(h, h', h.reigns[t].log);
  }

  lemma KeepL(n: nat, s: State, h: History, i: Id, nd': Node, items: set<Item>, h': History)
    requires InvL(n, s, h) && DeltaL(n, s.nodes, h, i, nd', items, h')
    requires forall t :: t in h.reigns && h.reigns[t].leader == i ==> t <= s.nodes[i].term
    ensures InvL(n, Update(s, i, nd', items), h')
  {
    var s' := Update(s, i, nd', items);
    forall j | 0 <= j < n ensures NodeL(h', s'.nodes[j]) {
      if j != i { WovenStable(h, h', s.nodes[j].log); }
    }
    forall b | b in h'.grants ensures OfReigns(h'.reigns, h'.grants[b].log) {
      if b in h.grants { WovenStable(h, h', h.grants[b].log); }
    }
    forall t | t in h'.reigns ensures ReignL(s'.nodes, h', t, h'.reigns[t]) {
      if t in h.reigns && h'.reigns[t] == h.reigns[t] { ReignStable(n, s.nodes, h, i, nd', h', t); }
    }
    forall x | x in s'.pool ensures ItemL(n, h', x) {
      if x in s.pool { ItemStable(n, h, h', x); }
    }
  }

  // ---------------------------------------------------------------- steps

  /** A step that touches neither the log nor the history. */
  lemma SameLogDelta(n: nat, nodes: seq<Node>, h: History, i: Id, nd': Node, items: set<Item>)
    requires i < n == |nodes| && NodeL(h, nodes[i]) && nd'.log == nodes[i].log && nodes[i].term <= nd'.term
    requires nodes[i].role == Leader && nd'.term == nodes[i].term ==> nd'.role == Leader
    requires nd'.role == Candidate ==> nodes[i].role == Candidate || nodes[i].term < nd'.term
    requires forall x :: x in items ==> ItemL(n, h, x)
    ensures DeltaL(n, nodes, h, i, nd', items, h)
  {
  }

  lemma GrantDeltaL(n: nat, nodes: seq<Node>, h: History, h': History, i: Id, nd': Node, items: set<Item>)
    requires i < n == |nodes| && NodeL(h, nodes[i]) && nd'.log == nodes[i].log && nodes[i].term <= nd'.term
    requires nodes[i].role == Leader && nd'.term == nodes[i].term ==> nd'.role == Leader
    requires nd'.role == Candidate ==> nodes[i].term < nd'.term
    requires forall x :: x in items ==> ItemL(n, h, x)
    requires HistoryEvolves(h, h') && h'.reigns == h.reigns
    requires forall b :: b in h'.grants && b !in h.grants ==> h'.grants[b].log == nodes[i].log
    ensures DeltaL(n, nodes, h, i, nd', items, h')
  {
    forall x | x in items ensures ItemL(n, h', x) { ItemStable(n, h, h', x); }
  }

  lemma WinDeltaL(n: nat, nodes: seq<Node>, h: History, i: Id, nd': Node, h': History)
    requires i < n == |nodes| && NodeL(h, nodes[i]) && Sorted(nodes[i].log)
    requires nodes[i].role == Candidate && nodes[i].term !in h.reigns && nodes[i].term >= 1
    requires nd'.term == nodes[i].term && nd'.log == nodes[i].log && nd'.role == Leader
    requires h' == h.(reigns := h.reigns[nd'.term := Reign(i, nd'.votes, nd'.log, nd'.log)])
    ensures DeltaL(n, nodes, h, i, nd', {}, h')
  {
    WovenStable(h, h', nd'.log);
  }

  lemma ProposeDeltaL(n: nat, nodes: seq<Node>, h: History, i: Id, data: string)
    requires i < n == |nodes| && NodeE(n, h, i, nodes[i]) && NodeL(h, nodes[i]) && nodes[i].role == Leader
    requires ReignL(nodes, h, nodes[i].term, h.reigns[nodes[i].term])
    ensures var nd := nodes[i]; var nd' := Propose(nd, data).0; var step := ClientProposes(i, data);
            DeltaL(n, nodes, h, i, nd', NewItems(nd, step), Record(h, step, nd, nd'))
  {
    var nd := nodes[i];
    var t := nd.term;
    var step := ClientProposes(i, data);
    var nd' := Propose(nd, data).0;
    var h' := Record(h, step, nd, nd');
    assert HistoryEvolves(h, h');
    ProposeWoven(h, h', nd, data);
    ReignGrows(t, h.reigns[t], Entry(t, data));
    assert ReignL(nodes[i := nd'], h', t, h'.reigns[t]);
  }

  lemma ReignGrows(t: nat, r: Reign, e: Entry)
    requires ReignShape(t, r) && e.term == t
    ensures ReignShape(t, r.(log := r.log + [e]))
  {
  }

  lemma ProposeWoven(h: History, h': History, nd: Node, data: string)
    requires OfReigns(h.reigns, nd.log) && HistoryEvolves(h, h')
    requires nd.term in h'.reigns && h'.reigns[nd.term].log == nd.log + [Entry(nd.term, data)]
    ensures OfReigns(h'.reigns, nd.log + [Entry(nd.term, data)])
  {
    var log := nd.log + [Entry(nd.term, data)];
    WovenStable(h, h', nd.log);
    forall k | 0 <= k < |log| ensures FromReign(h'.reigns, log, k) {
      if k < |nd.log| {
        assert FromReign(h'.reigns, nd.log, k);
        assert log[..k + 1] == nd.log[..k + 1];
      }
    }
  }

  /** A follower that merges a request of the leader of term `t`. */
  lemma MergeDeltaL(n: nat, nodes: seq<Node>, h: History, h': History, i: Id, nd': Node, items: set<Item>, c: AppendCall)
    requires i < n == |nodes| && NodeL(h, nodes[i]) && CallL(n, h, c)
    requires ReignL(nodes, h, c.req.term, h.reigns[c.req.term])
    requires nodes[i].term <= nd'.term == c.req.term && nd'.role == Follower
    requires nodes[i].role == Leader ==> nodes[i].term < nd'.term
    requires PrevMatches(nodes[i].log, c.req.prevIndex, c.req.prevTerm)
    requires nd'.log == Merge(nodes[i].log, c.req.prevIndex, c.req.entries)
    requires HistoryEvolves(h, h') && h'.reigns == h.reigns && h'.grants == h.grants
    requires forall x :: x in items ==> ItemL(n, h, x)
    ensures DeltaL(n, nodes, h, i, nd', items, h')
  {
    MergedL(h.reigns, nodes[i], c.req);
    forall x | x in items ensures ItemL(n, h', x) { ItemStable(n, h, h', x); }
  }

  /** The merged log is woven from the reigns, and its terms do not exceed the request's. */
  lemma MergedL(reigns: map<nat, Reign>, nd: Node, req: AppendRequest)
    requires OfReigns(reigns, nd.log) && forall k :: 0 <= k < |nd.log| ==> 1 <= nd.log[k].term <= nd.term
    requires nd.term <= req.term && req.term in reigns
    requires OfReigns(reigns, reigns[req.term].log) && ReignShape(req.term, reigns[req.term])
    requires SliceOf(reigns[req.term].log, req.prevIndex, req.prevTerm, req.entries)
    requires PrevMatches(nd.log, req.prevIndex, req.prevTerm)
    ensures var log := Merge(nd.log, req.prevIndex, req.entries);
            OfReigns(reigns, log) && forall k :: 0 <= k < |log| ==> 1 <= log[k].term <= req.term
  {
    var leader := reigns[req.term].log;
    MergedWoven(reigns, nd.log, leader, req);
    var log := Merge(nd.log, req.prevIndex, req.entries);
    forall k | 0 <= k < |log| ensures 1 <= log[k].term <= req.term {
      if log != nd.log { assert log[k] == leader[k]; }
    }
  }

  lemma MergedWoven(reigns: map<nat, Reign>, log: seq<Entry>, leader: seq<Entry>, req: AppendRequest)
    requires OfReigns(reigns, log) && OfReigns(reigns, leader)
    requires SliceOf(leader, req.prevIndex, req.prevTerm, req.entries) && PrevMatches(log, req.prevIndex, req.prevTerm)
    ensures var r := Merge(log, req.prevIndex, req.entries);
            OfReigns(reigns, r) && (r == log || r == leader[..req.prevIndex + |req.entries|])
  {
    WovenMatching(reigns, log, leader);
    MergeSlice(log, leader, req.prevIndex, req.prevTerm, req.entries);
    if Merge(log, req.prevIndex, req.entries) != log {
      WovenPrefix(reigns, leader, req.prevIndex + |req.entries|);
    }
  }
}
