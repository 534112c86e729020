/** The computations on logs that the critical sections of src/raft.cpp share:
    merging, conflict search, backing up, and the commit scan. Indices into the
    log are 1-based in messages and 0-based in sequences, as in the source. */
module LogOps {
  import opened RaftTypes

  function TermAt(log: seq<Entry>, k: int): nat {
    if 0 <= k < |log| then log[k].term else 0
  }

  function LastTerm(log: seq<Entry>): nat {
    TermAt(log, |log| - 1)
  }

  /** The candidate's last entry (first pair) is at least as up-to-date as ours (second pair). */
  predicate UpToDate(lastTerm: nat, lastIndex: nat, ourTerm: nat, ourIndex: nat) {
    lastTerm > ourTerm || (lastTerm == ourTerm && lastIndex >= ourIndex)
  }

  ghost predicate Sorted(log: seq<Entry>) {
    forall i, j :: 0 <= i <= j < |log| ==> log[i].term <= log[j].term
  }

  // ---------------------------------------------------------------- merging

  /** How many leading entries agree in term with `log` from position `start`, counting from `i`. */
  function Agreement(log: seq<Entry>, start: nat, entries: seq<Entry>, i: nat): (a: nat)
    requires start + i <= |log| && i <= |entries|
    ensures i <= a <= |entries| && start + a <= |log|
    ensures forall k :: i <= k < a ==> log[start + k].term == entries[k].term
    ensures a < |entries| && start + a < |log| ==> log[start + a].term != entries[a].term
    decreases |entries| - i
  {
    if start + i < |log| && i < |entries| && log[start + i].term == entries[i].term
    then Agreement(log, start, entries, i + 1)
    else i
  }

  /** The follower's log after the overwrite and append loops. */
  function Merge(log: seq<Entry>, start: nat, entries: seq<Entry>): (r: seq<Entry>)
    requires start <= |log|
    ensures |r| >= start + |entries| && r[..start] == log[..start]
  {
    var a := Agreement(log, start, entries, 0);
    if a == |entries| then log else log[..start + a] + entries[a..]
  }

  /** Same term at the same index implies the same entries up to that index. */
  ghost predicate Matching(a: seq<Entry>, b: seq<Entry>) {
    forall k :: 0 <= k < |a| && k < |b| && a[k].term == b[k].term ==> a[..k + 1] == b[..k + 1]
  }

  /** The check made before merging: index `prev` holds an entry of term `prevTerm`. */
  predicate PrevMatches(log: seq<Entry>, prev: nat, prevTerm: nat) {
    prev == 0 || (prev <= |log| && log[prev - 1].term == prevTerm)
  }

  /** `entries` is the slice of `leader` after index `prev`. */
  ghost predicate SliceOf(leader: seq<Entry>, prev: nat, prevTerm: nat, entries: seq<Entry>) {
    && prev + |entries| <= |leader|
    && entries == leader[prev..prev + |entries|]
    && prevTerm == TermAt(leader, prev - 1)
  }

  /** Where the compared terms agree, so does everything before them. */
  lemma AgreementMeansEqual(log: seq<Entry>, leader: seq<Entry>, prev: nat, prevTerm: nat, entries: seq<Entry>)
    requires Matching(log, leader) && SliceOf(leader, prev, prevTerm, entries)
    requires PrevMatches(log, prev, prevTerm)
    ensures prev <= |log|
    ensures var a := Agreement(log, prev, entries, 0); log[..prev + a] == leader[..prev + a]
  {
    var a := Agreement(log, prev, entries, 0);
    if prev + a > 0 {
      assert log[prev + a - 1].term == leader[prev + a - 1].term by {
        if a > 0 { assert log[prev + (a - 1)].term == entries[a - 1].term; }
      }
    }
  }

  /** Merging a slice of the leader's log either changes nothing, because the log already
      holds everything sent, or leaves exactly the leader's log up to the last entry sent. */
  lemma MergeSlice(log: seq<Entry>, leader: seq<Entry>, prev: nat, prevTerm: nat, entries: seq<Entry>)
    requires Matching(log, leader) && SliceOf(leader, prev, prevTerm, entries)
    requires PrevMatches(log, prev, prevTerm)
    ensures prev <= |log|
    ensures var m := prev + |entries|; var r := Merge(log, prev, entries);
            && m <= |r| && r[..m] == leader[..m]
            && (r == log || r == leader[..m])
  {
    AgreementMeansEqual(log, leader, prev, prevTerm, entries);
    var a := Agreement(log, prev, entries, 0);
    if a < |entries| {
      assert entries[a..] == leader[prev + a..prev + |entries|];
    }
  }

  /** Whatever prefix the follower already shared with the leader survives the merge. */
  lemma MergeKeepsShared(log: seq<Entry>, leader: seq<Entry>, prev: nat, prevTerm: nat, entries: seq<Entry>, k: nat)
    requires Matching(log, leader) && SliceOf(leader, prev, prevTerm, entries)
    requires PrevMatches(log, prev, prevTerm)
    requires k <= |log| && k <= |leader| && log[..k] == leader[..k]
    ensures prev <= |log|
    ensures var r := Merge(log, prev, entries); k <= |r| && r[..k] == leader[..k]
  {
    MergeSlice(log, leader, prev, prevTerm, entries);
    var m := prev + |entries|;
    var r := Merge(log, prev, entries);
    if r != log {
      var a := Agreement(log, prev, entries, 0);
      assert entries[a] == leader[prev + a];
      assert forall j :: 0 <= j < k ==> log[j] == log[..k][j] == leader[j];
      assert k <= m;
      assert leader[..m][..k] == leader[..k];
    }
  }

  /** Handling the same request a second time changes nothing. No assumption on the logs. */
  lemma MergeIdempotent(log: seq<Entry>, start: nat, entries: seq<Entry>)
    requires start <= |log|
    ensures Merge(Merge(log, start, entries), start, entries) == Merge(log, start, entries)
  {
    var r := Merge(log, start, entries);
    var a := Agreement(log, start, entries, 0);
    assert forall k :: 0 <= k < |entries| ==> r[start + k].term == entries[k].term by {
      forall k | 0 <= k < |entries| ensures r[start + k].term == entries[k].term {
        if k < a { assert log[start + k].term == entries[k].term; }
      }
    }
    var b := Agreement(r, start, entries, 0);
    assert b == |entries|;
  }

  /** A request whose slice the log already holds is accepted and changes nothing. */
  lemma MergeHeld(r: seq<Entry>, leader: seq<Entry>, m: nat, prev: nat, prevTerm: nat, entries: seq<Entry>)
    requires m <= |r| && m <= |leader| && r[..m] == leader[..m]
    requires SliceOf(leader, prev, prevTerm, entries) && prev + |entries| <= m
    ensures PrevMatches(r, prev, prevTerm) && Merge(r, prev, entries) == r
  {
    assert forall k :: 0 <= k < m ==> r[k] == r[..m][k] == leader[k];
    assert forall k :: 0 <= k < |entries| ==> entries[k] == r[prev + k];
    assert Agreement(r, prev, entries, 0) == |entries|;
  }

  /** A delayed older request of the same leader changes nothing once a newer one was merged. */
  lemma MergeOlderAfterNewer(log: seq<Entry>, leader: seq<Entry>, prev: nat, prevTerm: nat, entries: seq<Entry>,
                             oldPrev: nat, oldPrevTerm: nat, oldEntries: seq<Entry>)
    requires Matching(log, leader)
    requires SliceOf(leader, prev, prevTerm, entries) && PrevMatches(log, prev, prevTerm)
    requires SliceOf(leader, oldPrev, oldPrevTerm, oldEntries)
    requires oldPrev + |oldEntries| <= prev + |entries|
    ensures prev <= |log|
    ensures var r := Merge(log, prev, entries);
            PrevMatches(r, oldPrev, oldPrevTerm) && oldPrev <= |r| && Merge(r, oldPrev, oldEntries) == r
  {
    MergeSlice(log, leader, prev, prevTerm, entries);
    MergeHeld(Merge(log, prev, entries), leader, prev + |entries|, oldPrev, oldPrevTerm, oldEntries);
  }

  // ---------------------------------------------------------------- conflict information

  /** First 1-based index of the run of equal terms that ends at 1-based index `k`. */
  function RunStart(log: seq<Entry>, k: nat): (s: nat)
    requires 1 <= k <= |log|
    ensures 1 <= s <= k
    ensures forall i :: s - 1 <= i < k ==> log[i].term == log[k - 1].term
    ensures s == 1 || log[s - 2].term != log[k - 1].term
  {
    if k == 1 || log[k - 2].term != log[k - 1].term then k else RunStart(log, k - 1)
  }

  /** What a rejecting follower reports. */
  function ConflictOf(log: seq<Entry>, prev: nat): Conflict
    requires prev >= 1
  {
    if prev > |log| then Conflict(0, |log| + 1) else Conflict(log[prev - 1].term, RunStart(log, prev))
  }

  /** The leader's search loop, on 0-based positions `left..right`; -1 when nothing is found. */
  function BinarySearch(log: seq<Entry>, left: int, right: int, term: nat, best: int): int
    decreases right - left + 1
  {
    if left > right then best else
      var mid := left + (right - left) / 2;
      if TermAt(log, mid) == term then BinarySearch(log, mid + 1, right, term, mid)
      else if TermAt(log, mid) < term then BinarySearch(log, mid + 1, right, term, best)
      else BinarySearch(log, left, mid - 1, term, best)
  }

  /** Where replication resumes: after the last entry of the conflicting term in the searched
      range, or at the conflict index when the range has none. */
  function Resume(log: seq<Entry>, left: int, right: int, c: Conflict): int {
    var last := BinarySearch(log, left, right, c.term, -1);
    if last != -1 then last + 2 else c.index
  }

  /** The scan the search stands for: the last position in `left..right` holding `term`. */
  function LinearScan(log: seq<Entry>, left: nat, right: int, term: nat): (r: int)
    requires right < |log|
    ensures IsLast(log, left, right, term, r)
    decreases right - left + 1
  {
    if left > right then -1 else if log[right].term == term then right else LinearScan(log, left, right - 1, term)
  }

  /** What the search has established: `best` is the last position with the term left of `left`,
      and there is none right of `right`. */
  ghost predicate Narrowed(log: seq<Entry>, left: nat, right: int, term: nat, best: int, lo: nat, hi: int) {
    && lo <= left <= right + 1 <= hi + 1 && hi < |log|
    && (best == -1 || (lo <= best < left && log[best].term == term))
    && (forall k :: lo <= k < left && log[k].term == term ==> k <= best)
    && (forall k :: right < k <= hi ==> log[k].term != term)
  }

  lemma Probe(log: seq<Entry>, left: nat, mid: int, right: int, term: nat, best: int, lo: nat, hi: int)
    requires Sorted(log) && Narrowed(log, left, right, term, best, lo, hi) && left <= mid <= right
    ensures log[mid].term == term ==> Narrowed(log, mid + 1, right, term, mid, lo, hi)
    ensures log[mid].term < term ==> Narrowed(log, mid + 1, right, term, best, lo, hi)
    ensures log[mid].term > term ==> Narrowed(log, left, mid - 1, term, best, lo, hi)
  {
  }

  lemma {:induction false} BinarySearchFinds(log: seq<Entry>, left: nat, right: int, term: nat, best: int, lo: nat, hi: int)
    requires Sorted(log) && Narrowed(log, left, right, term, best, lo, hi)
    ensures IsLast(log, lo, hi, term, BinarySearch(log, left, right, term, best))
    decreases right - left + 1
  {
    if left <= right {
      var mid := left + (right - left) / 2;
      Probe(log, left, mid, right, term, best, lo, hi);
      if log[mid].term == term {
        BinarySearchFinds(log, mid + 1, right, term, mid, lo, hi);
      } else if log[mid].term < term {
        BinarySearchFinds(log, mid + 1, right, term, best, lo, hi);
      } else {
        BinarySearchFinds(log, left, mid - 1, term, best, lo, hi);
      }
    }
  }

  /** `r` is the last position in `lo..hi` holding `term`, or -1 when there is none. */
  ghost predicate IsLast(log: seq<Entry>, lo: nat, hi: int, term: nat, r: int)
    requires hi < |log|
  {
    && (r == -1 || (lo <= r <= hi && log[r].term == term))
    && forall k :: lo <= k <= hi && log[k].term == term ==> k <= r
  }

  /** On a log with nondecreasing terms the binary search returns what the linear scan returns. */
  lemma BinarySearchIsLinearScan(log: seq<Entry>, left: nat, right: int, term: nat)
    requires Sorted(log) && right < |log|
    ensures BinarySearch(log, left, right, term, -1) == LinearScan(log, left, right, term)
  {
    if left <= right + 1 { BinarySearchFinds(log, left, right, term, -1, left, right); }
  }

  // ---------------------------------------------------------------- commit scan

  /** The peers known to hold the leader's log up to index `N`. */
  function Holders(matched: map<Id, int>, peers: set<Id>, N: int): set<Id> {
    set p | p in peers && Get(matched, p) >= N
  }

  /** Index `N` carries the current term and is held by a majority, the leader included. */
  predicate Committable(log: seq<Entry>, term: nat, matched: map<Id, int>, peers: set<Id>, N: int) {
    TermAt(log, N - 1) == term && 1 + |Holders(matched, peers, N)| > (|peers| + 1) / 2
  }

  /** The downward scan from `hi`, stopping above `commit`. */
  function CommitScan(log: seq<Entry>, term: nat, matched: map<Id, int>, peers: set<Id>, hi: int, commit: nat): (r: nat)
    ensures r == commit || (commit < r <= hi && Committable(log, term, matched, peers, r))
    ensures forall N :: commit < N <= hi && Committable(log, term, matched, peers, N) ==> N <= r
    decreases hi - commit
  {
    if hi <= commit then commit
    else if Committable(log, term, matched, peers, hi) then hi
    else CommitScan(log, term, matched, peers, hi - 1, commit)
  }

  // ---------------------------------------------------------------- applying

  /** What `apply` receives for the entries with 1-based indices `lo + 1` to `hi`. */
  function Results(log: seq<Entry>, lo: nat, hi: nat): (r: seq<ApplyResult>)
    requires hi <= |log|
    ensures |r| == if lo <= hi then hi - lo else 0
    ensures forall k :: 0 <= k < |r| ==> r[k] == ApplyResult(true, log[lo + k].command, lo + k + 1)
  {
    if hi <= lo then [] else Results(log, lo, hi - 1) + [ApplyResult(true, log[hi - 1].command, hi)]
  }
}
