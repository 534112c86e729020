/** Data the Raft node keeps and the messages it exchanges.
    Integers are mathematical; ids run from 0 to one less than the cluster size. */
module RaftTypes {

  type Id = nat

  datatype Entry = Entry(term: nat, command: string)

  datatype Role = Leader | Follower | Candidate

  /** One value handed to the state machine through `apply`. */
  datatype ApplyResult = ApplyResult(valid: bool, data: string, index: nat)

  datatype Option<+T> = None | Some(value: T)

  /** The fields of class Raft. `votedFor` is -1 when no vote was cast in `term`;
      `delivered` is the sequence of values passed to `apply` so far. */
  datatype Node = Node(
    active: bool,
    term: nat,
    votedFor: int,
    log: seq<Entry>,
    commit: nat,
    applied: nat,
    role: Role,
    votes: set<Id>,
    next: map<Id, int>,
    matched: map<Id, int>,
    counter: map<Id, int>,
    delivered: seq<ApplyResult>)

  /** A RequestVote call in flight: the request plus the election term captured by its thread. */
  datatype VoteCall = VoteCall(
    src: Id, dst: Id, electionTerm: nat,
    term: nat, lastTerm: nat, lastIndex: nat)

  datatype VoteReply = VoteReply(term: nat, granted: bool)

  datatype AppendRequest = AppendRequest(
    term: nat, leader: Id, prevIndex: nat, prevTerm: nat,
    entries: seq<Entry>, leaderCommit: nat)

  /** An AppendEntries call in flight: the request plus the locals captured by its thread. */
  datatype AppendCall = AppendCall(
    src: Id, dst: Id, req: AppendRequest,
    counter: int, next: int, matched: int, logSize: nat)

  datatype Conflict = Conflict(term: nat, index: nat)

  datatype AppendReply = AppendReply(term: nat, success: bool, conflict: Option<Conflict>)

  datatype ProposalResult = ProposalResult(isLeader: bool, term: nat, index: nat)

  /** `operator[]` of an unordered_map: a missing key reads as 0. */
  function Get(m: map<Id, int>, k: Id): int {
    if k in m then m[k] else 0
  }

  predicate Smallest(s: set<Id>, p: Id) {
    p in s && forall q :: q in s ==> p <= q
  }

  lemma {:induction false} SmallestExists(s: set<Id>)
    requires s != {}
    ensures exists p :: Smallest(s, p)
  {
    var x :| x in s;
    if s == {x} {
      assert Smallest(s, x);
    } else {
      SmallestExists(s - {x});
      var p :| Smallest(s - {x}, p);
      SmallerOf(s, x, p);
    }
  }

  lemma SmallerOf(s: set<Id>, x: Id, p: Id)
    requires x in s && Smallest(s - {x}, p)
    ensures Smallest(s, if x < p then x else p)
  {
    forall q | q in s ensures (if x < p then x else p) <= q {
      if q != x { assert q in s - {x}; }
    }
  }

  /** The map that sends every key in `keys` to `v`. */
  function Uniform(keys: set<Id>, v: int): (m: map<Id, int>)
    ensures m.Keys == keys
    ensures forall p :: p in keys ==> m[p] == v
  {
    if keys == {} then map[] else
      SmallestExists(keys);
      var p :| Smallest(keys, p);
      Uniform(keys - {p}, v)[p := v]
  }
}
