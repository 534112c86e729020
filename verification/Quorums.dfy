/** Arithmetic of the two majority tests of src/raft.cpp, for every cluster size. */
module Quorums {
  import opened RaftTypes

  function Ids(n: nat): (s: set<Id>)
    ensures |s| == n
    ensures forall p: Id :: p in s <==> p < n
  {
    if n == 0 then {} else Ids(n - 1) + {n - 1}
  }

  function Peers(n: nat, i: Id): set<Id> {
    Ids(n) - {i}
  }

  /** The vote test, on a cluster of n nodes of which n - 1 are peers. */
  predicate VoteQuorum(n: nat, votes: set<Id>) {
    n >= 1 && votes <= Ids(n) && |votes| > (n - 1) / 2
  }

  /** The commit test. */
  predicate CommitQuorum(n: nat, holders: set<Id>) {
    holders <= Ids(n) && |holders| > n / 2
  }

  /** A majority of votes is counted only after some peer granted one, so a winner has two votes. */
  predicate Winning(n: nat, votes: set<Id>) {
    VoteQuorum(n, votes) && |votes| >= 2
  }

  /** The sizes at which a term cannot have two winners. */
  predicate SafeSize(n: nat) {
    n % 2 == 1 || n <= 2
  }

  lemma {:induction false} SubsetSize<T>(a: set<T>, b: set<T>)
    requires a <= b
    ensures |a| <= |b|
  {
    if a != {} {
      var x :| x in a;
      SubsetSize(a - {x}, b - {x});
    }
  }

  lemma Overlap(n: nat, a: set<Id>, b: set<Id>) returns (v: Id)
    requires a <= Ids(n) && b <= Ids(n) && |a| + |b| > n
    ensures v in a && v in b
  {
    if a * b == {} {
      assert |a + b| == |a| + |b|;
      SubsetSize(a + b, Ids(n));
      assert false;
    }
    v :| v in a * b;
  }

  /** Every set passing the vote test meets every set passing the commit test. */
  lemma VotesMeetCommits(n: nat, votes: set<Id>, holders: set<Id>) returns (v: Id)
    requires VoteQuorum(n, votes) && CommitQuorum(n, holders)
    ensures v in votes && v in holders
  {
    v := Overlap(n, votes, holders);
  }

  lemma WinnersMeet(n: nat, a: set<Id>, b: set<Id>) returns (v: Id)
    requires SafeSize(n) && Winning(n, a) && Winning(n, b)
    ensures v in a && v in b
  {
    SubsetSize(a, Ids(n));
    v := Overlap(n, a, b);
  }

  ghost predicate TwoVoteSetsMeet(n: nat) {
    forall a, b :: VoteQuorum(n, a) && VoteQuorum(n, b) ==> a * b != {}
  }

  ghost predicate TwoWinnersMeet(n: nat) {
    forall a, b :: Winning(n, a) && Winning(n, b) ==> a * b != {}
  }

  /** The vote test alone guarantees overlap exactly at odd sizes (and vacuously at size 0). */
  lemma VoteTestIsMajorityIffOdd(n: nat)
    ensures TwoVoteSetsMeet(n) <==> n % 2 == 1 || n == 0
  {
    if n % 2 == 1 || n == 0 {
      forall a, b | VoteQuorum(n, a) && VoteQuorum(n, b) ensures a * b != {} {
        var v := Overlap(n, a, b);
        assert v in a * b;
      }
    } else {
      HalvesDisjoint(n / 2);
      var a, b := Ids(n / 2), Ids(n) - Ids(n / 2);
      assert VoteQuorum(n, a) && VoteQuorum(n, b) && a * b == {};
    }
  }

  lemma HalvesDisjoint(half: nat)
    requires half >= 1
    ensures |Ids(2 * half) - Ids(half)| == half
    ensures VoteQuorum(2 * half, Ids(half)) && VoteQuorum(2 * half, Ids(2 * half) - Ids(half))
  {
    var a, b := Ids(half), Ids(2 * half) - Ids(half);
    assert a + b == Ids(2 * half);
    assert |a + b| == |a| + |b|;
  }

  /** Counting the peer's vote that triggers the test adds size 2 to the safe sizes. */
  lemma WinnersMeetIffSafeSize(n: nat)
    ensures TwoWinnersMeet(n) <==> SafeSize(n)
  {
    if SafeSize(n) {
      forall a, b | Winning(n, a) && Winning(n, b) ensures a * b != {} {
        var v := WinnersMeet(n, a, b);
        assert v in a * b;
      }
    } else {
      HalvesDisjoint(n / 2);
      var a, b := Ids(n / 2), Ids(n) - Ids(n / 2);
      assert Winning(n, a) && Winning(n, b) && a * b == {};
    }
  }
}
