/** Log repair between a leader and a follower whose log is otherwise unchanged: how many
    rejections it takes and where it ends. */
module Repair {
  import opened RaftTypes
  import opened LogOps
  import opened NodeSpec

  /** Two logs of one run: nondecreasing positive terms, and matching terms mean matching prefixes. */
  ghost predicate Related(leader: seq<Entry>, follower: seq<Entry>) {
    && Sorted(leader) && Sorted(follower) && Matching(leader, follower)
    && (forall k :: 0 <= k < |leader| ==> leader[k].term >= 1)
    && (forall k :: 0 <= k < |follower| ==> follower[k].term >= 1)
  }

  /** The follower accepts a request that starts after index `prev` of the leader's log. */
  predicate Accepted(leader: seq<Entry>, follower: seq<Entry>, prev: nat)
    requires prev <= |leader|
  {
    PrevMatches(follower, prev, TermAt(leader, prev - 1))
  }

  /** The next index the leader tries after index `next` was rejected. */
  function NextTry(leader: seq<Entry>, follower: seq<Entry>, next: nat): int
    requires 2 <= next
  {
    Resume(leader, 0, next - 2, ConflictOf(follower, next - 1))
  }

  lemma NextTryFalls(leader: seq<Entry>, follower: seq<Entry>, next: nat)
    requires Related(leader, follower) && 2 <= next <= |leader| + 1 && !Accepted(leader, follower, next - 1)
    ensures 1 <= NextTry(leader, follower, next) < next
  {
    BinarySearchIsLinearScan(leader, 0, next - 2, ConflictOf(follower, next - 1).term);
  }

  /** The conflict terms reported on the way from `next` to the first accepted request. */
  ghost function Rejections(leader: seq<Entry>, follower: seq<Entry>, next: nat): seq<nat>
    requires Related(leader, follower) && 1 <= next <= |leader| + 1
    decreases next
  {
    if Accepted(leader, follower, next - 1) then [] else
      NextTryFalls(leader, follower, next);
      [ConflictOf(follower, next - 1).term] + Rejections(leader, follower, NextTry(leader, follower, next))
  }

  /** The previous index of the first accepted request. */
  ghost function AcceptedAt(leader: seq<Entry>, follower: seq<Entry>, next: nat): nat
    requires Related(leader, follower) && 1 <= next <= |leader| + 1
    decreases next
  {
    if Accepted(leader, follower, next - 1) then next - 1 else
      NextTryFalls(leader, follower, next);
      AcceptedAt(leader, follower, NextTry(leader, follower, next))
  }

  /** The length of the longest common prefix. */
  function Agreeing(a: seq<Entry>, b: seq<Entry>): (k: nat)
    ensures k <= |a| && k <= |b| && a[..k] == b[..k]
    ensures k < |a| && k < |b| ==> a[k] != b[k]
  {
    if a == [] || b == [] || a[0] != b[0] then 0
    else
      var k := 1 + Agreeing(a[1..], b[1..]);
      assert a[..k] == [a[0]] + a[1..][..k - 1] && b[..k] == [b[0]] + b[1..][..k - 1];
      k
  }

  /** On related logs a request is accepted exactly when it starts within the common prefix. */
  lemma AcceptedIffAgreeing(leader: seq<Entry>, follower: seq<Entry>, prev: nat)
    requires Related(leader, follower) && prev <= |leader|
    ensures Accepted(leader, follower, prev) <==> prev <= Agreeing(leader, follower)
  {
    var a := Agreeing(leader, follower);
    if 0 < prev <= a {
      assert leader[prev - 1] == leader[..a][prev - 1] == follower[prev - 1];
    }
    if Accepted(leader, follower, prev) && prev > 0 {
      assert leader[..prev] == follower[..prev];
      assert forall k :: 0 <= k < prev ==> leader[k] == leader[..prev][k] == follower[k];
    }
  }

  /** A rejection never backs up past the common prefix. */
  lemma NextTryKeepsAgreeing(leader: seq<Entry>, follower: seq<Entry>, next: nat)
    requires Related(leader, follower) && 2 <= next <= |leader| + 1 && !Accepted(leader, follower, next - 1)
    requires Agreeing(leader, follower) <= next - 1
    ensures Agreeing(leader, follower) <= NextTry(leader, follower, next) - 1
  {
    var a, prev := Agreeing(leader, follower), next - 1;
    var c := ConflictOf(follower, prev);
    BinarySearchIsLinearScan(leader, 0, next - 2, c.term);
    var last := LinearScan(leader, 0, next - 2, c.term);
    if a > 0 {
      assert leader[a - 1] == leader[..a][a - 1] == follower[a - 1];
    }
  }

  /** Repair is exact: the first accepted request starts right after the common prefix. */
  lemma {:induction false} RepairExact(leader: seq<Entry>, follower: seq<Entry>, next: nat)
    requires Related(leader, follower) && 1 <= next <= |leader| + 1 && Agreeing(leader, follower) <= next - 1
    ensures AcceptedAt(leader, follower, next) == Agreeing(leader, follower)
    decreases next
  {
    AcceptedIffAgreeing(leader, follower, next - 1);
    if !Accepted(leader, follower, next - 1) {
      NextTryFalls(leader, follower, next);
      NextTryKeepsAgreeing(leader, follower, next);
      RepairExact(leader, follower, NextTry(leader, follower, next));
    }
  }

  ghost predicate Falling(terms: seq<nat>) {
    forall i, j :: 0 <= i < j < |terms| ==> terms[i] > terms[j]
  }

  ghost function TermsOf(log: seq<Entry>): set<nat> {
    set k | 0 <= k < |log| :: log[k].term
  }

  /** After a mismatch at index `next - 1`, the next conflict, if any, is an older term. */
  lemma ConflictFalls(leader: seq<Entry>, follower: seq<Entry>, next: nat)
    requires Related(leader, follower) && 2 <= next <= |leader| + 1 && next - 1 <= |follower|
    requires !Accepted(leader, follower, next - 1)
    ensures var next' := NextTry(leader, follower, next);
            && 1 <= next' < next
            && (!Accepted(leader, follower, next' - 1) ==>
                  ConflictOf(follower, next' - 1).term < ConflictOf(follower, next - 1).term)
  {
    NextTryFalls(leader, follower, next);
    BinarySearchIsLinearScan(leader, 0, next - 2, ConflictOf(follower, next - 1).term);
  }

  /** Once the follower has an entry at the rejected index, conflict terms are terms of its log
      and fall strictly. */
  lemma {:induction false} MismatchesFall(leader: seq<Entry>, follower: seq<Entry>, next: nat)
    requires Related(leader, follower) && 1 <= next <= |leader| + 1 && next - 1 <= |follower|
    ensures var r := Rejections(leader, follower, next);
            && Falling(r) && (forall k :: 0 <= k < |r| ==> r[k] in TermsOf(follower))
            && (r != [] ==> next >= 2 && r[0] == ConflictOf(follower, next - 1).term)
    decreases next
  {
    if !Accepted(leader, follower, next - 1) {
      ConflictFalls(leader, follower, next);
      var next' := NextTry(leader, follower, next);
      var rest := Rejections(leader, follower, next');
      MismatchesFall(leader, follower, next');
      assert rest != [] ==> !Accepted(leader, follower, next' - 1);
      FallingCons(follower[next - 2].term, rest, TermsOf(follower));
    }
  }

  lemma FallingCons(t: nat, terms: seq<nat>, bound: set<nat>)
    requires Falling(terms) && t in bound && forall k :: 0 <= k < |terms| ==> terms[k] in bound
    requires terms != [] ==> t > terms[0]
    ensures Falling([t] + terms) && forall k :: 0 <= k < |[t] + terms| ==> ([t] + terms)[k] in bound
  {
    var all := [t] + terms;
    forall i, j | 0 <= i < j < |all| ensures all[i] > all[j] {
      assert all[j] == terms[j - 1];
    }
  }

  lemma {:induction false} FallingIsShort(terms: seq<nat>, bound: set<nat>)
    requires Falling(terms) && forall k :: 0 <= k < |terms| ==> terms[k] in bound
    ensures |terms| <= |bound|
  {
    if terms != [] {
      assert forall k :: 0 <= k < |terms[1..]| ==> terms[1..][k] == terms[k + 1];
      FallingIsShort(terms[1..], bound - {terms[0]});
    }
  }

  /** Repair is bounded: at most one rejection because the follower's log is too short, then at
      most one per distinct term in the follower's log. */
  lemma RepairBounded(leader: seq<Entry>, follower: seq<Entry>, next: nat)
    requires Related(leader, follower) && 1 <= next <= |leader| + 1
    ensures |Rejections(leader, follower, next)| <= 1 + |TermsOf(follower)|
    ensures next - 1 <= |follower| ==> |Rejections(leader, follower, next)| <= |TermsOf(follower)|
  {
    if next - 1 <= |follower| {
      MismatchesFall(leader, follower, next);
      FallingIsShort(Rejections(leader, follower, next), TermsOf(follower));
    } else {
      NextTryFalls(leader, follower, next);
      BinarySearchIsLinearScan(leader, 0, next - 2, 0);
      var next' := NextTry(leader, follower, next);
      assert next' == |follower| + 1;
      MismatchesFall(leader, follower, next');
      FallingIsShort(Rejections(leader, follower, next'), TermsOf(follower));
    }
  }

  // ---------------------------------------------------------------- the real handlers

  /** A leader that knows nothing yet about a running follower that is not ahead of it. */
  ghost predicate Repairing(leader: Node, follower: Node, p: Id) {
    && leader.role == Leader && follower.active && follower.term <= leader.term && Related(leader.log, follower.log)
    && 1 <= Get(leader.next, p) <= |leader.log| + 1 && Get(leader.matched, p) == 0
  }

  lemma AnswerIsAccepted(leader: Node, i: Id, follower: Node, p: Id)
    requires Repairing(leader, follower, p)
    ensures var call := MakeAppendCall(leader, i, p); var next := Get(leader.next, p);
            var (f, rep) := HandleAppend(follower, call.req);
            && call.req.prevIndex == next - 1 && rep.term == leader.term
            && (rep.success <==> Accepted(leader.log, follower.log, next - 1))
            && (!rep.success ==>
                  && next >= 2 && rep.conflict == Some(ConflictOf(follower.log, next - 1))
                  && f.log == follower.log && f.active && f.term == leader.term)
  {
  }

  lemma ReactionIsNextTry(leader: Node, i: Id, follower: Node, p: Id, peers: set<Id>)
    requires Repairing(leader, follower, p) && Get(leader.next, p) >= 2
    ensures var next := Get(leader.next, p);
            var rep := AppendReply(leader.term, false, Some(ConflictOf(follower.log, next - 1)));
            var leader' := HandleAppendReply(leader, peers, MakeAppendCall(leader, i, p), rep);
            && Get(leader'.next, p) == NextTry(leader.log, follower.log, next) && Get(leader'.matched, p) == 0
            && leader'.log == leader.log && leader'.role == Leader && leader'.term == leader.term
  {
  }

  /** One rejected exchange of the real handlers leaves them repairing at the next try. */
  lemma ExchangeIsNextTry(leader: Node, i: Id, follower: Node, p: Id, peers: set<Id>)
    requires Repairing(leader, follower, p)
    requires !HandleAppend(follower, MakeAppendCall(leader, i, p).req).1.success
    ensures var call := MakeAppendCall(leader, i, p); var next := Get(leader.next, p);
            var (f, rep) := HandleAppend(follower, call.req);
            var leader' := HandleAppendReply(leader, peers, call, rep);
            && next >= 2 && !Accepted(leader.log, follower.log, next - 1)
            && Repairing(leader', f, p) && Get(leader'.next, p) == NextTry(leader.log, follower.log, next) < next
            && leader'.log == leader.log && f.log == follower.log
  {
    AnswerIsAccepted(leader, i, follower, p);
    ReactionIsNextTry(leader, i, follower, p, peers);
    NextTryFalls(leader.log, follower.log, Get(leader.next, p));
  }

  /** Exchanges requests and answers until one is accepted: the number of rejections and the
      previous index of the accepted request. */
  ghost function Exchange(leader: Node, i: Id, follower: Node, p: Id, peers: set<Id>): (nat, nat)
    requires Repairing(leader, follower, p)
    decreases Get(leader.next, p)
  {
    var call := MakeAppendCall(leader, i, p);
    var answer := HandleAppend(follower, call.req);
    if answer.1.success then (0, call.req.prevIndex) else
      ExchangeIsNextTry(leader, i, follower, p, peers);
      var leader' := HandleAppendReply(leader, peers, call, answer.1);
      var rest := Exchange(leader', i, answer.0, p, peers);
      (rest.0 + 1, rest.1)
  }

  lemma {:induction false} ExchangeIsRepair(leader: Node, i: Id, follower: Node, p: Id, peers: set<Id>)
    requires Repairing(leader, follower, p)
    ensures Exchange(leader, i, follower, p, peers) ==
            (|Rejections(leader.log, follower.log, Get(leader.next, p))|,
             AcceptedAt(leader.log, follower.log, Get(leader.next, p)))
    decreases Get(leader.next, p)
  {
    AnswerIsAccepted(leader, i, follower, p);
    var call := MakeAppendCall(leader, i, p);
    var (f, rep) := HandleAppend(follower, call.req);
    if !rep.success {
      ExchangeIsNextTry(leader, i, follower, p, peers);
      ExchangeIsRepair(HandleAppendReply(leader, peers, call, rep), i, f, p, peers);
    }
  }

  /** A leader that has not backed up past the longest prefix it shares with a follower finds that
      prefix, after at most one rejection more than there are distinct terms in the follower's log. */
  lemma RepairFrom(leader: Node, i: Id, follower: Node, p: Id, peers: set<Id>)
    requires Repairing(leader, follower, p) && Agreeing(leader.log, follower.log) < Get(leader.next, p)
    ensures var (rejections, accepted) := Exchange(leader, i, follower, p, peers);
            accepted == Agreeing(leader.log, follower.log) && rejections <= 1 + |TermsOf(follower.log)|
  {
    ExchangeIsRepair(leader, i, follower, p, peers);
    RepairExact(leader.log, follower.log, Get(leader.next, p));
    RepairBounded(leader.log, follower.log, Get(leader.next, p));
  }

  /** In particular a newly elected leader does. */
  lemma RepairExactAndBounded(nd: Node, i: Id, follower: Node, p: Id, peers: set<Id>)
    requires p in peers && Repairing(BecomeLeader(nd, peers), follower, p)
    ensures var (rejections, accepted) := Exchange(BecomeLeader(nd, peers), i, follower, p, peers);
            accepted == Agreeing(nd.log, follower.log) && rejections <= 1 + |TermsOf(follower.log)|
  {
    RepairFrom(BecomeLeader(nd, peers), i, follower, p, peers);
  }
}
