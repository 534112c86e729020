/** The invariant holds in every reachable state. */
module Reachability {
  import opened RaftTypes
  import opened NodeSpec
  import opened Cluster
  import opened Quorums
  import opened History
  import opened Elections
  import opened Logs
  import opened Acks
  import opened Completeness
  import opened Commits
  import opened Indices
  import opened Preservation

  ghost function NextHistory(n: nat, s: State, h: History, step: Step): History
    requires Actor(step) < |s.nodes|
  {
    var nd := s.nodes[Actor(step)];
    Record(h, step, nd, NodeAfter(n, nd, step))
  }

  lemma NextE(n: nat, senders: set<Role>, s: State, h: History, step: Step)
    requires SafeSize(n) && InvE(n, s, h) && Enabled(senders, s, step)
    ensures InvE(n, Perform(s, step), NextHistory(n, s, h, step))
    ensures Evolves(s, h, Perform(s, step), NextHistory(n, s, h, step))
  {
    var i := Actor(step);
    var nd := s.nodes[i];
    LocalFactsE(n, senders, s, h, step);
    StepE(n, senders, s, h, step);
    KeepE(n, s, h, i, NodeAfter(n, nd, step), NewItems(nd, step), NextHistory(n, s, h, step));
  }

  lemma NextL(n: nat, s: State, h: History, step: Step)
    requires InvE(n, s, h) && InvL(n, s, h) && Local(n, s, h, step) && GoalL(n, s, h, step)
    ensures InvL(n, Perform(s, step), NextHistory(n, s, h, step))
  {
    var i := Actor(step);
    var nd := s.nodes[i];
    forall t | t in h.reigns && h.reigns[t].leader == i ensures t <= s.nodes[i].term {
      assert ReignE(n, s.nodes, h, t, h.reigns[t]);
    }
    KeepL(n, s, h, i, NodeAfter(n, nd, step), NewItems(nd, step), NextHistory(n, s, h, step));
  }

  lemma NextA(n: nat, s: State, h: History, step: Step)
    requires InvE(n, s, h) && InvA(n, s, h) && Local(n, s, h, step) && GoalL(n, s, h, step)
    ensures InvA(n, Perform(s, step), NextHistory(n, s, h, step))
  {
    var i := Actor(step);
    var nd := s.nodes[i];
    StepA(n, s, h, step);
    forall b | b in h.grants && b.voter == i ensures b.term <= NodeAfter(n, nd, step).term {
      assert GrantE(n, s.nodes, h, b, h.grants[b]);
    }
    KeepA(n, s, h, i, NodeAfter(n, nd, step), NewItems(nd, step), NextHistory(n, s, h, step));
  }

  lemma NextCI(n: nat, s: State, h: History, step: Step)
    requires InvC(n, s, h) && InvI(n, s, h) && Local(n, s, h, step) && GoalL(n, s, h, step)
    ensures InvC(n, Perform(s, step), NextHistory(n, s, h, step))
    ensures InvI(n, Perform(s, step), NextHistory(n, s, h, step))
  {
    var i := Actor(step);
    var nd := s.nodes[i];
    StepI(n, s, h, step);
    StepC(n, s, h, step);
    KeepI(n, s, h, i, NodeAfter(n, nd, step), NewItems(nd, step), NextHistory(n, s, h, step));
    KeepC(n, s, h, i, NodeAfter(n, nd, step), NewItems(nd, step), NextHistory(n, s, h, step));
  }

  /** One step keeps the whole invariant. */
  lemma NextInv(n: nat, s: State, h: History, step: Step)
    requires SafeSize(n) && Inv(n, s, h) && Enabled({Leader}, s, step)
    ensures Inv(n, Perform(s, step), NextHistory(n, s, h, step))
    ensures Evolves(s, h, Perform(s, step), NextHistory(n, s, h, step))
  {
    LocalFacts(n, s, h, step);
    StepL(n, s, h, step);
    NextE(n, {Leader}, s, h, step);
    NextL(n, s, h, step);
    NextA(n, s, h, step);
    NextCI(n, s, h, step);
  }

  lemma InitialInv(n: nat)
    ensures Inv(n, Initial(n), EMPTY)
  {
  }

  lemma {:induction false} ReachableInv(n: nat, steps: seq<Step>)
    requires SafeSize(n) && IsRun(n, {Leader}, steps)
    ensures Inv(n, After(n, {Leader}, steps), HistoryOf(n, {Leader}, steps))
  {
    if steps == [] {
      InitialInv(n);
    } else {
      var before := steps[..|steps| - 1];
      ReachableInv(n, before);
      NextInv(n, After(n, {Leader}, before), HistoryOf(n, {Leader}, before), steps[|steps| - 1]);
    }
  }

  /** Election invariants need no assumption on who builds append requests. */
  lemma {:induction false} ReachableE(n: nat, senders: set<Role>, steps: seq<Step>)
    requires SafeSize(n) && IsRun(n, senders, steps)
    ensures InvE(n, After(n, senders, steps), HistoryOf(n, senders, steps))
  {
    if steps != [] {
      var before := steps[..|steps| - 1];
      ReachableE(n, senders, before);
      NextE(n, senders, After(n, senders, before), HistoryOf(n, senders, before), steps[|steps| - 1]);
    }
  }

  // ---------------------------------------------------------------- along a run

  lemma EvolvesTransitive(h0: History, h1: History, h2: History)
    requires HistoryEvolves(h0, h1) && HistoryEvolves(h1, h2)
    ensures HistoryEvolves(h0, h2)
  {
    forall t | t in h0.reigns ensures t in h2.reigns && ReignEvolves(t, h0.reigns[t], h2.reigns[t]) {
      assert ReignEvolves(t, h0.reigns[t], h1.reigns[t]) && ReignEvolves(t, h1.reigns[t], h2.reigns[t]);
    }
  }

  /** A prefix of a run is a run, and the history of the whole run extends its history. */
  lemma {:induction false} RunPrefix(n: nat, senders: set<Role>, steps: seq<Step>, k: nat)
    requires SafeSize(n) && IsRun(n, senders, steps) && k <= |steps|
    ensures IsRun(n, senders, steps[..k])
    ensures HistoryEvolves(HistoryOf(n, senders, steps[..k]), HistoryOf(n, senders, steps))
  {
    if k == |steps| {
      assert steps[..k] == steps;
    } else {
      var before := steps[..|steps| - 1];
      RunPrefix(n, senders, before, k);
      assert before[..k] == steps[..k];
      ReachableE(n, senders, before);
      NextE(n, senders, After(n, senders, before), HistoryOf(n, senders, before), steps[|steps| - 1]);
      EvolvesTransitive(HistoryOf(n, senders, steps[..k]), HistoryOf(n, senders, before), HistoryOf(n, senders, steps));
    }
  }
}
