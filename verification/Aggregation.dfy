/**
  How the annotations of a run's Kubernetes jobs become its status: the run
  state, the eight counters, the sorted list and the completion test.
 */
module Aggregation {
  import opened JobStates
  import opened Gating

  /** One entry of a run's reported job list. */
  datatype RunJobState = RunJobState(name: string, runJobName: string, state: JobState, reason: string)

  datatype Counters = Counters(
    init: nat, wait: nat, stop: nat, run: nat, deleting: nat, completed: nat, deleted: nat, failed: nat)

  function States(entries: seq<RunJobState>): seq<JobState> {
    seq(|entries|, i requires 0 <= i < |entries| => entries[i].state)
  }

  /** The running maximum over a listing, starting from the lowest state. */
  function Highest(states: seq<JobState>): JobState {
    if states == [] then Unknown else HigherOf(Highest(states[..|states| - 1]), states[|states| - 1])
  }

  function CountersOf(states: seq<JobState>): Counters {
    var m := multiset(states);
    Counters(m[Init], m[Wait], m[Stop], m[Run], m[Deleting], m[Completed], m[Deleted], m[Failed])
  }

  function Total(c: Counters): nat {
    c.init + c.wait + c.stop + c.run + c.deleting + c.completed + c.deleted + c.failed
  }

  /** The test that ends a run: as many completed, deleted and failed jobs as the run lists. */
  predicate RunEnded(c: Counters, jobs: seq<Job>) {
    c.completed + c.deleted + c.failed == |jobs|
  }

  predicate Counted(state: JobState) {
    Category(state) != Uncategorized
  }

  // ---------- the run state ----------

  ghost predicate SomeRanked(states: seq<JobState>) {
    exists s :: s in states && StateOrder(s) > 0
  }

  lemma {:induction false} HighestFacts(states: seq<JobState>)
    ensures forall s <- states :: StateOrder(s) <= StateOrder(Highest(states))
    ensures SomeRanked(states) ==> Highest(states) in states && StateOrder(Highest(states)) > 0
    ensures !SomeRanked(states) ==> Highest(states) == if states == [] then Unknown else states[|states| - 1]
  {
    if states != [] {
      var front, last := states[..|states| - 1], states[|states| - 1];
      HighestFacts(front);
      assert states == front + [last];
      assert SomeRanked(states) <==> SomeRanked(front) || StateOrder(last) > 0;
    }
  }

  /** The run state is the one state of highest rank among the jobs, as soon as one of them has a rank. */
  lemma {:induction false} RunStateIsMaximum(states: seq<JobState>, s: JobState)
    requires SomeRanked(states)
    ensures s == Highest(states) <==> s in states && forall t <- states :: StateOrder(t) <= StateOrder(s)
  {
    HighestFacts(states);
  }

  /** Each run state, in terms of which states are listed and which are not. */
  lemma {:induction false} RunStateByListing(states: seq<JobState>)
    ensures Highest(states) == Failed <==> Failed in states
    ensures Highest(states) == Run <==> Run in states && Failed !in states
    ensures Highest(states) == Init <==> Init in states && Failed !in states && Run !in states
    ensures Highest(states) == Wait <==>
            Wait in states && Failed !in states && Run !in states && Init !in states
    ensures Highest(states) == Completed <==>
            Completed in states && Failed !in states && Run !in states && Init !in states && Wait !in states
    ensures Highest(states) == Deleting <==>
            && Deleting in states && Failed !in states && Run !in states && Init !in states && Wait !in states
            && Completed !in states
    ensures Highest(states) == Stop <==>
            && Stop in states && Failed !in states && Run !in states && Init !in states && Wait !in states
            && Completed !in states && Deleting !in states
    ensures Highest(states) == Deleted <==>
            && Deleted in states && Failed !in states && Run !in states && Init !in states && Wait !in states
            && Completed !in states && Deleting !in states && Stop !in states
  {
    HighestFacts(states);
    forall s | s in states && s != Unknown && !s.Other? ensures SomeRanked(states) {
      assert StateOrder(s) > 0;
    }
  }

  /**
    The run state is the same for every listing order exactly when some job has
    a ranked state or all jobs carry the same text. Recognised annotations other
    than "unknown" all have a rank.
   */
  lemma {:induction false} RunStateOrderFreeIff(states: seq<JobState>)
    ensures OrderFree(states) <==> SomeRanked(states) || AllSame(states)
  {
    if SomeRanked(states) || AllSame(states) {
      forall other: seq<JobState> | multiset(other) == multiset(states) ensures Highest(other) == Highest(states) {
        PermutedHighest(states, other);
      }
    } else {
      var other := LastReplaced(states);
    }
  }

  /** The order the comment gives: in-run before pre-run before post-run. */
  ghost function CategoryByComment(states: seq<JobState>): JobCategory {
    if exists s <- states :: Category(s) == InRun then InRun
    else if exists s <- states :: Category(s) == PreRun then PreRun
    else PostRun
  }

  /** No failed job is listed with one that has not ended. */
  ghost predicate FailureLast(states: seq<JobState>) {
    Failed in states ==> forall s <- states :: Category(s) == PostRun
  }

  /** No deleting job is outranked by a waiting or a completed one. */
  ghost predicate DeletingOnTop(states: seq<JobState>) {
    Deleting in states ==> Run in states || (Init !in states && Wait !in states && Completed !in states)
  }

  /** No stopping job is outranked by a completed one. */
  ghost predicate StoppingOnTop(states: seq<JobState>) {
    Stop in states && Completed in states ==> Run in states || Init in states || Wait in states
  }

  /**
    The run state follows the order of the comment exactly when a failed job is
    listed only with ended ones, a deleting job is not outranked, and neither is
    a stopping one.
   */
  lemma {:induction false} RankFollowsCommentIff(states: seq<JobState>)
    requires states != [] && forall s <- states :: Counted(s)
    ensures Category(Highest(states)) == CategoryByComment(states) <==>
            FailureLast(states) && DeletingOnTop(states) && StoppingOnTop(states)
  {
    assert states[0] in states && StateOrder(states[0]) > 0;
    HighestFacts(states);
  }

  ghost predicate AllSame(states: seq<JobState>) {
    forall s, t :: s in states && t in states ==> s == t
  }

  ghost predicate OrderFree(states: seq<JobState>) {
    forall other: seq<JobState> :: multiset(other) == multiset(states) ==> Highest(other) == Highest(states)
  }

  lemma {:induction false} PermutedHighest(states: seq<JobState>, other: seq<JobState>)
    requires multiset(other) == multiset(states) && (SomeRanked(states) || AllSame(states))
    ensures Highest(other) == Highest(states)
  {
    SameElements(states, other);
    HighestFacts(states);
    HighestFacts(other);
    if SomeRanked(states) {
      var s :| s in states && StateOrder(s) > 0;
      assert s in other;
      RunStateIsMaximum(states, Highest(other));
    } else if states != [] {
      assert other[|other| - 1] in other;
      assert states[|states| - 1] in states;
    }
  }

  lemma {:induction false} LastReplaced(states: seq<JobState>) returns (other: seq<JobState>)
    requires !SomeRanked(states) && !AllSame(states)
    ensures multiset(other) == multiset(states) && Highest(other) != Highest(states)
  {
    var last := states[|states| - 1];
    var i :| 0 <= i < |states| && states[i] != last;
    other := MovedLast(states, i);
    SameElements(states, other);
    HighestFacts(states);
    HighestFacts(other);
    assert !SomeRanked(other);
  }

  lemma {:induction false} MovedLast(states: seq<JobState>, i: nat) returns (other: seq<JobState>)
    requires i < |states|
    ensures multiset(other) == multiset(states) && other != [] && other[|other| - 1] == states[i]
  {
    other := states[..i] + states[i + 1..] + [states[i]];
    assert states == states[..i] + [states[i]] + states[i + 1..];
  }

  lemma {:induction false} SameElements(a: seq<JobState>, b: seq<JobState>)
    requires multiset(a) == multiset(b)
    ensures |a| == |b| && forall s :: s in a <==> s in b
  {
    assert |multiset(a)| == |a| && |multiset(b)| == |b|;
    forall s ensures s in a <==> s in b {
      assert s in a <==> s in multiset(a);
      assert s in b <==> s in multiset(b);
    }
  }

  // ---------- the counters ----------

  /** The places at which a state is listed. */
  function Places(states: seq<JobState>, t: JobState): set<nat> {
    set i | 0 <= i < |states| && states[i] == t
  }

  lemma {:induction false} PlacesCount(states: seq<JobState>, t: JobState)
    ensures multiset(states)[t] == |Places(states, t)|
  {
    if states != [] {
      var front, last := states[..|states| - 1], states[|states| - 1];
      assert states == front + [last];
      PlacesCount(front, t);
      assert Places(states, t) == Places(front, t) + if last == t then {|front|} else {};
      assert multiset(states) == multiset(front) + multiset{last};
    }
  }

  /** Each of the eight counters is the number of places at which its state is listed. */
  lemma {:induction false} CountersByPlace(states: seq<JobState>)
    ensures var c := CountersOf(states);
            && c.init == |Places(states, Init)| && c.wait == |Places(states, Wait)|
            && c.stop == |Places(states, Stop)| && c.run == |Places(states, Run)|
            && c.deleting == |Places(states, Deleting)| && c.completed == |Places(states, Completed)|
            && c.deleted == |Places(states, Deleted)| && c.failed == |Places(states, Failed)|
  {
    PlacesCount(states, Init);
    PlacesCount(states, Wait);
    PlacesCount(states, Stop);
    PlacesCount(states, Run);
    PlacesCount(states, Deleting);
    PlacesCount(states, Completed);
    PlacesCount(states, Deleted);
    PlacesCount(states, Failed);
  }

  lemma {:induction false} CountOneMore(front: seq<JobState>, last: JobState, t: JobState)
    ensures multiset(front + [last])[t] == multiset(front)[t] + if t == last then 1 else 0
  {
  }

  lemma {:induction false} CountersAdd(front: seq<JobState>, last: JobState)
    ensures Total(CountersOf(front + [last])) == Total(CountersOf(front)) + if Counted(last) then 1 else 0
  {
    CountOneMore(front, last, Init);
    CountOneMore(front, last, Wait);
    CountOneMore(front, last, Stop);
    CountOneMore(front, last, Run);
    CountOneMore(front, last, Deleting);
    CountOneMore(front, last, Completed);
    CountOneMore(front, last, Deleted);
    CountOneMore(front, last, Failed);
  }

  lemma {:induction false} CountersSum(states: seq<JobState>)
    ensures Total(CountersOf(states)) <= |states|
    ensures Total(CountersOf(states)) == |states| <==> forall s <- states :: Counted(s)
  {
    if states != [] {
      var front, last := states[..|states| - 1], states[|states| - 1];
      assert states == front + [last];
      CountersSum(front);
      CountersAdd(front, last);
      assert (forall s <- states :: Counted(s)) <==> (forall s <- front :: Counted(s)) && Counted(last);
    }
  }

  lemma {:induction false} EndedCount(states: seq<JobState>)
    ensures var c := CountersOf(states);
            && c.completed + c.deleted + c.failed <= |states|
            && (c.completed + c.deleted + c.failed == |states| <==> forall s <- states :: Category(s) == PostRun)
  {
    if states != [] {
      var front, last := states[..|states| - 1], states[|states| - 1];
      assert states == front + [last];
      EndedCount(front);
      assert (forall s <- states :: Category(s) == PostRun) <==>
             (forall s <- front :: Category(s) == PostRun) && Category(last) == PostRun;
      assert multiset(states) == multiset(front) + multiset{last};
    }
  }

  /**
    With one Kubernetes job per listed job, the completion test holds exactly when
    every one of them is in a post-run state.
   */
  lemma {:induction false} RunEndedIff(states: seq<JobState>, jobs: seq<Job>)
    requires |states| == |jobs|
    ensures RunEnded(CountersOf(states), jobs) <==> forall s <- states :: Category(s) == PostRun
  {
    EndedCount(states);
  }

  // ---------- the sorted list ----------

  /** Name to position; the last job of a name wins, as in the source's map. */
  function JobIndex(jobs: seq<Job>): map<string, nat> {
    if jobs == [] then map[]
    else JobIndex(jobs[..|jobs| - 1])[jobs[|jobs| - 1].name := |jobs| - 1]
  }

  /** The sort key; a missing name reads as 0, as a Go map does. */
  function KeyOf(index: map<string, nat>, e: RunJobState): nat {
    if e.runJobName in index then index[e.runJobName] else 0
  }

  ghost predicate SortedBy(index: map<string, nat>, entries: seq<RunJobState>) {
    forall i, k :: 0 <= i < k < |entries| ==> KeyOf(index, entries[i]) <= KeyOf(index, entries[k])
  }

  /** The index gives every listed name its last position. */
  ghost predicate Indexes(index: map<string, nat>, jobs: seq<Job>) {
    && index.Keys == Names(jobs)
    && (forall n <- index :: index[n] < |jobs| && jobs[index[n]].name == n)
    && (forall k :: 0 <= k < |jobs| ==> jobs[k].name in index && k <= index[jobs[k].name])
  }

  lemma {:induction false} IndexNext(index: map<string, nat>, front: seq<Job>, last: Job)
    requires Indexes(index, front)
    ensures Indexes(index[last.name := |front|], front + [last])
  {
    var jobs := front + [last];
    assert jobs[|front|] == last && forall i :: 0 <= i < |front| ==> jobs[i] == front[i];
    assert Names(jobs) == Names(front) + {last.name};
  }

  lemma {:induction false} JobIndexFacts(jobs: seq<Job>)
    ensures Indexes(JobIndex(jobs), jobs)
  {
    if jobs != [] {
      var front, last := jobs[..|jobs| - 1], jobs[|jobs| - 1];
      JobIndexFacts(front);
      IndexNext(JobIndex(front), front, last);
      assert jobs == front + [last];
    }
  }

  /** An entry for a job the run does not list is sorted to the jobs at the head of the list. */
  lemma {:induction false} UnlistedFirst(jobs: seq<Job>, entries: seq<RunJobState>, i: nat, k: nat)
    requires SortedBy(JobIndex(jobs), entries) && i < |entries| && k < |entries|
    requires jobs != [] && entries[k].runJobName !in Names(jobs) && entries[i].runJobName in Names(jobs[1..])
    ensures k < i
  {
    JobIndexFacts(jobs);
    var q :| 0 <= q < |jobs[1..]| && jobs[1..][q].name == entries[i].runJobName;
    assert jobs[q + 1].name == entries[i].runJobName;
  }

  /** Each entry once, and no two entries for the same job. */
  ghost predicate OnePerJob(entries: multiset<RunJobState>) {
    && (forall e <- entries :: entries[e] == 1)
    && (forall e, f :: e in entries && f in entries && e.runJobName == f.runJobName ==> e == f)
  }

  lemma {:induction false} OnceMeansDistinct(entries: seq<RunJobState>, i: nat, k: nat)
    requires OnePerJob(multiset(entries)) && i < k < |entries|
    ensures entries[i].runJobName != entries[k].runJobName
  {
    var m := multiset(entries);
    assert entries == entries[..k] + [entries[k]] + entries[k + 1..];
    assert m == multiset(entries[..k]) + multiset{entries[k]} + multiset(entries[k + 1..]);
    assert entries[..k][i] == entries[i];
    assert entries[i] in multiset(entries[..k]);
    assert entries[i] == entries[k] ==> m[entries[i]] >= 2;
    assert entries[i] in m && entries[k] in m;
  }

  /**
    Sorting any listing with exactly one Kubernetes job per listed job puts it in
    the order of the run's job list.
   */
  lemma {:induction false} SortedListFollowsJobs(jobs: seq<Job>, listing: seq<RunJobState>, sorted: seq<RunJobState>)
    requires |listing| == |jobs| && OnePerJob(multiset(listing)) && forall e <- listing :: e.runJobName in Names(jobs)
    requires multiset(sorted) == multiset(listing) && SortedBy(JobIndex(jobs), sorted)
    ensures |sorted| == |jobs| && forall i :: 0 <= i < |jobs| ==> sorted[i].runJobName == jobs[i].name
  {
    var index := JobIndex(jobs);
    JobIndexFacts(jobs);
    assert |multiset(sorted)| == |sorted| && |multiset(listing)| == |listing|;
    forall e | e in sorted ensures e.runJobName in index {
      assert e in multiset(listing);
    }
    var keys := seq(|sorted|, i requires 0 <= i < |sorted| => KeyOf(index, sorted[i]));
    forall i, k | 0 <= i < k < |keys| ensures keys[i] < keys[k] {
      OnceMeansDistinct(sorted, i, k);
    }
    forall i | 0 <= i < |jobs| ensures sorted[i].runJobName == jobs[i].name {
      RisingKeys(keys, i);
      assert sorted[i] in sorted;
    }
  }

  lemma {:induction false} RisingFrom(keys: seq<nat>, i: nat, k: nat)
    requires i <= k < |keys| && forall a, b :: 0 <= a < b < |keys| ==> keys[a] < keys[b]
    ensures keys[i] + (k - i) <= keys[k]
    decreases k - i
  {
    if i < k {
      RisingFrom(keys, i, k - 1);
    }
  }

  /** A rising list of n numbers below n counts up from 0. */
  lemma {:induction false} RisingKeys(keys: seq<nat>, i: nat)
    requires i < |keys| && forall a, b :: 0 <= a < b < |keys| ==> keys[a] < keys[b]
    requires forall a :: 0 <= a < |keys| ==> keys[a] < |keys|
    ensures keys[i] == i
  {
    RisingFrom(keys, 0, i);
    RisingFrom(keys, i, |keys| - 1);
  }
}
