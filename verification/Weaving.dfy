/** Log Matching needs no assumption on who builds append requests: whatever a node sends is a
    slice of a log woven from the reigns, or is rejected. */
module Weaving {
  import opened RaftTypes
  import opened LogOps
  import opened NodeSpec
  import opened Cluster
  import opened Quorums
  import opened History
  import opened Elections
  import opened Logs
  import Preservation
  import opened Reachability
  import opened Theorems

  ghost predicate CallW(h: History, req: AppendRequest) {
    || (req.prevIndex > 0 && req.prevTerm == 0)
    || exists log :: OfReigns(h.reigns, log) && SliceOf(log, req.prevIndex, req.prevTerm, req.entries)
  }

  ghost predicate ItemW(h: History, x: Item) {
    x.AppendRequested? ==> CallW(h, x.append.req)
  }

  ghost predicate InvW(n: nat, s: State, h: History) {
    && |s.nodes| == n
    && (forall i :: 0 <= i < n ==> OfReigns(h.reigns, s.nodes[i].log))
    && (forall t :: t in h.reigns ==> t >= 1 && OfReigns(h.reigns, h.reigns[t].log))
    && (forall x :: x in s.pool ==> ItemW(h, x))
  }

  /** The request a node builds, whatever its role and indices. */
  lemma SentWoven(h: History, nd: Node, i: Id, peer: Id)
    requires OfReigns(h.reigns, nd.log)
    ensures CallW(h, MakeAppendCall(nd, i, peer).req)
  {
    if Get(nd.next, peer) <= |nd.log| + 1 {
      SentSlice(nd, i, peer);
      SliceWoven(h, nd.log, MakeAppendCall(nd, i, peer).req);
    }
  }

  lemma SentSlice(nd: Node, i: Id, peer: Id)
    requires Get(nd.next, peer) <= |nd.log| + 1
    ensures var req := MakeAppendCall(nd, i, peer).req; SliceOf(nd.log, req.prevIndex, req.prevTerm, req.entries)
  {
  }

  lemma SliceWoven(h: History, log: seq<Entry>, req: AppendRequest)
    requires OfReigns(h.reigns, log) && SliceOf(log, req.prevIndex, req.prevTerm, req.entries)
    ensures CallW(h, req)
  {
  }

  lemma CallStableW(h: History, h': History, req: AppendRequest)
    requires CallW(h, req) && HistoryEvolves(h, h')
    ensures CallW(h', req)
  {
    if !(req.prevIndex > 0 && req.prevTerm == 0) {
      var log :| OfReigns(h.reigns, log) && SliceOf(log, req.prevIndex, req.prevTerm, req.entries);
      WovenStable(h, h', log);
    }
  }

  lemma MergeWoven(h: History, nd: Node, req: AppendRequest)
    requires OfReigns(h.reigns, nd.log) && CallW(h, req) && forall t :: t in h.reigns ==> t >= 1
    ensures OfReigns(h.reigns, HandleAppend(nd, req).0.log)
  {
    if HandleAppend(nd, req).1.success {
      AcceptShape(nd, req);
      if req.prevIndex > 0 { assert FromReign(h.reigns, nd.log, req.prevIndex - 1); }
      var log :| OfReigns(h.reigns, log) && SliceOf(log, req.prevIndex, req.prevTerm, req.entries);
      MergedWoven(h.reigns, nd.log, log, req);
    } else {
      RejectShape(nd, req);
    }
  }

  lemma AppendWoven(h: History, h': History, nd: Node, req: AppendRequest)
    requires OfReigns(h.reigns, nd.log) && CallW(h, req) && HistoryEvolves(h, h') && forall t :: t in h.reigns ==> t >= 1
    ensures OfReigns(h'.reigns, HandleAppend(nd, req).0.log)
  {
    MergeWoven(h, nd, req);
    WovenStable(h, h', HandleAppend(nd, req).0.log);
  }

  /** The actor's log after a step. */
  lemma ActorWoven(n: nat, h: History, h': History, i: Id, nd: Node, step: Step)
    requires NodeE(n, h, i, nd) && OfReigns(h.reigns, nd.log) && HistoryEvolves(h, h') && Actor(step) == i
    requires forall t :: t in h.reigns ==> t >= 1
    requires step.ReceiveAppend? ==> CallW(h, step.append.req)
    requires h' == Record(h, step, nd, NodeAfter(n, nd, step))
    ensures OfReigns(h'.reigns, NodeAfter(n, nd, step).log)
  {
    if step.ReceiveAppend? {
      AppendWoven(h, h', nd, step.append.req);
    } else if step.ClientProposes? && nd.role == Leader {
      ProposeWoven(h, h', nd, step.data);
    } else {
      LogKept(n, nd, step);
      WovenStable(h, h', nd.log);
    }
  }

  lemma LogKept(n: nat, nd: Node, step: Step)
    requires !step.ReceiveAppend? && !(step.ClientProposes? && nd.role == Leader)
    ensures NodeAfter(n, nd, step).log == nd.log
  {
    match step
    case ReceiveVoteReply(vote, rep) => Preservation.VoteReplyShape(nd, Peers(n, vote.src), vote, rep);
    case ReceiveAppendReply(c, rep) => AppendReplyIsQuiet(nd, Peers(n, c.src), c, rep);
    case _ =>
  }

  /** The only reigns that change belong to a leader and carry that leader's log. */
  lemma NewReignsWoven(n: nat, h: History, h': History, i: Id, nd: Node, step: Step, t: nat)
    requires NodeE(n, h, i, nd) && Actor(step) == i && t in h'.reigns
    requires h' == Record(h, step, nd, NodeAfter(n, nd, step))
    ensures (t in h.reigns && h'.reigns[t] == h.reigns[t]) || (t >= 1 && h'.reigns[t].log == NodeAfter(n, nd, step).log)
  {
  }

  lemma NextW(n: nat, senders: set<Role>, s: State, h: History, step: Step)
    requires SafeSize(n) && InvE(n, s, h) && InvW(n, s, h) && Enabled(senders, s, step)
    ensures InvW(n, Perform(s, step), NextHistory(n, s, h, step))
  {
    NextE(n, senders, s, h, step);
    var i := Actor(step);
    var nd := s.nodes[i];
    var s', h' := Perform(s, step), NextHistory(n, s, h, step);
    assert NodeE(n, h, i, nd);
    if step.ReceiveAppend? { assert ItemW(h, AppendRequested(step.append)); }
    ActorWoven(n, h, h', i, nd, step);
    forall j | 0 <= j < n ensures OfReigns(h'.reigns, s'.nodes[j].log) {
      if j != i { WovenStable(h, h', s.nodes[j].log); }
    }
    forall t | t in h'.reigns ensures t >= 1 && OfReigns(h'.reigns, h'.reigns[t].log) {
      NewReignsWoven(n, h, h', i, nd, step, t);
      if t in h.reigns { WovenStable(h, h', h.reigns[t].log); }
    }
    forall x | x in s'.pool ensures ItemW(h', x) {
      if x in s.pool {
        if x.AppendRequested? { CallStableW(h, h', x.append.req); }
      } else if step.SendAppend? {
        SentWoven(h, nd, i, step.peer);
        CallStableW(h, h', MakeAppendCall(nd, i, step.peer).req);
      }
    }
  }

  lemma {:induction false} ReachableW(n: nat, senders: set<Role>, steps: seq<Step>)
    requires SafeSize(n) && IsRun(n, senders, steps)
    ensures InvW(n, After(n, senders, steps), HistoryOf(n, senders, steps))
  {
    if steps != [] {
      var before := steps[..|steps| - 1];
      ReachableW(n, senders, before);
      ReachableE(n, senders, before);
      NextW(n, senders, After(n, senders, before), HistoryOf(n, senders, before), steps[|steps| - 1]);
    }
  }

  /** Two logs, at any two points of a run, with the same term at the same index are identical up
      to that index. */
  lemma LogMatching(n: nat, senders: set<Role>, steps: seq<Step>, k: nat, i: Id, l: nat, j: Id)
    requires SafeSize(n) && IsRun(n, senders, steps)
    requires At(n, senders, steps, k, i).Some? && At(n, senders, steps, l, j).Some?
    ensures Matching(At(n, senders, steps, k, i).value.log, At(n, senders, steps, l, j).value.log)
  {
    var h := HistoryOf(n, senders, steps);
    WovenAt(n, senders, steps, k, i);
    WovenAt(n, senders, steps, l, j);
    WovenMatching(h.reigns, At(n, senders, steps, k, i).value.log, At(n, senders, steps, l, j).value.log);
  }

  lemma WovenAt(n: nat, senders: set<Role>, steps: seq<Step>, k: nat, i: Id)
    requires SafeSize(n) && IsRun(n, senders, steps) && At(n, senders, steps, k, i).Some?
    ensures OfReigns(HistoryOf(n, senders, steps).reigns, At(n, senders, steps, k, i).value.log)
  {
    RunPrefix(n, senders, steps, k);
    ReachableW(n, senders, steps[..k]);
    WovenStable(HistoryOf(n, senders, steps[..k]), HistoryOf(n, senders, steps), At(n, senders, steps, k, i).value.log);
  }
}
