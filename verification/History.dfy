/** What a proof needs to remember about a run: who led each term and with which log,
    who voted for whom holding which log, and which prefixes were acknowledged.
    The history is computed from the steps and never consulted by them. */
module History {
  import opened RaftTypes
  import opened LogOps
  import opened NodeSpec
  import opened Cluster
  import opened Quorums

  /** A term with a leader: `base` is the leader's log when elected, `log` its log since. */
  datatype Reign = Reign(leader: Id, voters: set<Id>, base: seq<Entry>, log: seq<Entry>)

  /** The first vote of a node in a term: for whom, on which claimed last entry, holding which
      log, and whether the term had no leader yet. */
  datatype Grant = Grant(candidate: Id, lastTerm: nat, lastIndex: nat, log: seq<Entry>, early: bool)

  datatype Ballot = Ballot(term: nat, voter: Id)

  datatype History = History(reigns: map<nat, Reign>, grants: map<Ballot, Grant>, acks: map<Ballot, nat>)

  const EMPTY := History(map[], map[], map[])

  function RecordGrant(h: History, term: nat, voter: Id, candidate: Id, lastTerm: nat, lastIndex: nat,
                       log: seq<Entry>): History {
    var b := Ballot(term, voter);
    if b in h.grants then h
    else h.(grants := h.grants[b := Grant(candidate, lastTerm, lastIndex, log, term !in h.reigns)])
  }

  function RecordAck(h: History, term: nat, follower: Id, index: nat): History {
    var b := Ballot(term, follower);
    if b in h.acks && h.acks[b] >= index then h else h.(acks := h.acks[b := index])
  }

  /** The history after a step that took its actor from `nd` to `nd'`. */
  function Record(h: History, step: Step, nd: Node, nd': Node): History {
    match step
    case Candidacy(i) =>
      RecordGrant(h, nd'.term, i, i, LastTerm(nd.log), |nd.log|, nd.log)
    case ReceiveVote(vote) =>
      if HandleVote(nd, vote).1.granted
      then RecordGrant(h, vote.term, vote.dst, vote.src, vote.lastTerm, vote.lastIndex, nd.log)
      else h
    case ReceiveVoteReply(vote, _) =>
      if nd.role != Leader && nd'.role == Leader
      then h.(reigns := h.reigns[nd'.term := Reign(vote.src, nd'.votes, nd'.log, nd'.log)])
      else h
    case ReceiveAppend(append) =>
      if HandleAppend(nd, append.req).1.success
      then RecordAck(h, append.req.term, append.dst, append.req.prevIndex + |append.req.entries|)
      else h
    case ClientProposes(i, _) =>
      if nd.role == Leader && nd.term in h.reigns
      then h.(reigns := h.reigns[nd.term := h.reigns[nd.term].(log := nd'.log)])
      else h
    case _ => h
  }

  /** The history of a run. */
  function HistoryOf(n: nat, senders: set<Role>, steps: seq<Step>): History
    requires IsRun(n, senders, steps)
  {
    if steps == [] then EMPTY else
      var before := steps[..|steps| - 1];
      var step := steps[|steps| - 1];
      var i := Actor(step);
      Record(HistoryOf(n, senders, before), step,
             After(n, senders, before).nodes[i], After(n, senders, steps).nodes[i])
  }
}
