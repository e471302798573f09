/**
  What the status update makes of the stored jobs of a run, whatever order the
  API lists them in.
 */
module Listings {
  import opened JobStates
  import opened Gating
  import opened Acyclicity
  import opened Aggregation
  import opened RunReconciler

  /** A listing of the stored jobs, in any order, each once. */
  ghost predicate ListingOf(s: Store, items: seq<Item>) {
    && |items| == |s|
    && (forall i :: 0 <= i < |items| ==> items[i].runJobName in s && items[i].kjob == s[items[i].runJobName])
    && (forall i, k :: 0 <= i < k < |items| ==> items[i].runJobName != items[k].runJobName)
  }

  function Labels(items: seq<Item>): seq<string> {
    seq(|items|, i requires 0 <= i < |items| => items[i].runJobName)
  }

  /** A listing leaves no job out. */
  lemma {:induction false} ListingComplete(s: Store, items: seq<Item>, name: string) returns (i: nat)
    requires ListingOf(s, items) && name in s
    ensures i < |items| && items[i].runJobName == name
  {
    var labels := Labels(items);
    ElementsCount(labels);
    assert |s.Keys| == |s|;
    SubsetCount(Elements(labels), s.Keys);
    assert name in Elements(labels);
    i :| 0 <= i < |items| && items[i].runJobName == name;
  }

  /** All listed states are of one category exactly when all stored annotations are. */
  lemma {:induction false} ListedCategory(s: Store, items: seq<Item>, category: JobCategory)
    requires ListingOf(s, items)
    ensures (forall t <- States(EntriesOf(items)) :: Category(t) == category) <==>
            forall n <- s :: Category(s[n].status) == category
  {
    var states := States(EntriesOf(items));
    assert |states| == |items| && forall i :: 0 <= i < |items| ==> states[i] == s[items[i].runJobName].status;
    if forall t <- states :: Category(t) == category {
      forall n | n in s ensures Category(s[n].status) == category {
        var i := ListingComplete(s, items, n);
        assert states[i] in states;
      }
    }
  }

  /** The completion test holds exactly when every job of the run exists and is in a post-run state. */
  lemma {:induction false} RunEndedIffAllPostRun(jobs: seq<Job>, s: Store, items: seq<Item>)
    requires Distinct(jobs) && s.Keys <= Names(jobs) && ListingOf(s, items)
    ensures RunEnded(CountersOf(States(EntriesOf(items))), jobs) <==>
            s.Keys == Names(jobs) && forall n <- s :: Category(s[n].status) == PostRun
  {
    EndedCount(States(EntriesOf(items)));
    NamesAtMost(jobs);
    assert |s.Keys| == |s|;
    SubsetCount(s.Keys, Names(jobs));
    ListedCategory(s, items, PostRun);
  }

  /** The stored jobs annotated with a state. */
  ghost function Annotated(s: Store, t: JobState): set<string> {
    set n | n in s && s[n].status == t
  }

  ghost function LabelsWith(items: seq<Item>, t: JobState): set<string> {
    set i | 0 <= i < |items| && items[i].kjob.status == t :: items[i].runJobName
  }

  lemma {:induction false} LabelsWithNext(front: seq<Item>, last: Item, t: JobState)
    ensures LabelsWith(front + [last], t) ==
            LabelsWith(front, t) + if last.kjob.status == t then {last.runJobName} else {}
  {
    var items := front + [last];
    assert forall i :: 0 <= i < |front| ==> front[i] == items[i];
    assert items[|front|] == last;
  }

  lemma {:induction false} StatesNext(front: seq<Item>, last: Item)
    ensures multiset(States(EntriesOf(front + [last]))) ==
            multiset(States(EntriesOf(front))) + multiset{last.kjob.status}
  {
    assert States(EntriesOf(front + [last])) == States(EntriesOf(front)) + [last.kjob.status];
  }

  lemma {:induction false} LabelsWithCount(items: seq<Item>, t: JobState)
    requires forall i, k :: 0 <= i < k < |items| ==> items[i].runJobName != items[k].runJobName
    ensures |LabelsWith(items, t)| == multiset(States(EntriesOf(items)))[t]
  {
    if items != [] {
      var front, last := items[..|items| - 1], items[|items| - 1];
      assert items == front + [last];
      LabelsWithCount(front, t);
      LabelsWithNext(front, last, t);
      StatesNext(front, last);
      assert last.runJobName !in LabelsWith(front, t);
    }
  }

  lemma {:induction false} AnnotatedCount(s: Store, items: seq<Item>, t: JobState)
    requires ListingOf(s, items)
    ensures |Annotated(s, t)| == multiset(States(EntriesOf(items)))[t]
  {
    LabelsWithCount(items, t);
    forall n | n in Annotated(s, t) ensures n in LabelsWith(items, t) {
      var i := ListingComplete(s, items, n);
    }
    assert Annotated(s, t) == LabelsWith(items, t);
  }

  /** For any listing order, each counter is the number of stored jobs annotated with its state. */
  lemma {:induction false} CountersOfStore(s: Store, items: seq<Item>)
    requires ListingOf(s, items)
    ensures var c := CountersOf(States(EntriesOf(items)));
            && c.init == |Annotated(s, Init)| && c.wait == |Annotated(s, Wait)|
            && c.stop == |Annotated(s, Stop)| && c.run == |Annotated(s, Run)|
            && c.deleting == |Annotated(s, Deleting)| && c.completed == |Annotated(s, Completed)|
            && c.deleted == |Annotated(s, Deleted)| && c.failed == |Annotated(s, Failed)|
  {
    AnnotatedCount(s, items, Init);
    AnnotatedCount(s, items, Wait);
    AnnotatedCount(s, items, Stop);
    AnnotatedCount(s, items, Run);
    AnnotatedCount(s, items, Deleting);
    AnnotatedCount(s, items, Completed);
    AnnotatedCount(s, items, Deleted);
    AnnotatedCount(s, items, Failed);
  }

  /** A reported entry is that of a listed object: its name, its label, and the stored state and reason. */
  ghost predicate Reports(e: RunJobState, s: Store, items: seq<Item>) {
    && e.runJobName in s && e.state == s[e.runJobName].status && e.reason == s[e.runJobName].reason
    && exists i :: 0 <= i < |items| && items[i].name == e.name && items[i].runJobName == e.runJobName
  }

  lemma {:induction false} ReportedState(s: Store, items: seq<Item>, reported: seq<RunJobState>, e: RunJobState)
    requires ListingOf(s, items) && multiset(reported) == multiset(EntriesOf(items)) && e in reported
    ensures Reports(e, s, items)
  {
    assert e in multiset(reported);
    assert e in EntriesOf(items);
    var i :| 0 <= i < |items| && EntriesOf(items)[i] == e;
    assert items[i].name == e.name;
  }

  lemma {:induction false} ListedNames(s: Store, items: seq<Item>)
    requires ListingOf(s, items)
    ensures |EntriesOf(items)| == |s| && forall e <- EntriesOf(items) :: e.runJobName in s
  {
  }

  /**
    The sorted list a run reports is in the order of its job list, with each job's own
    object name, state and reason, once all its jobs exist.
   */
  lemma {:induction false} ReportFollowsJobs(jobs: seq<Job>, s: Store, items: seq<Item>, reported: seq<RunJobState>)
    requires Distinct(jobs) && s.Keys == Names(jobs) && ListingOf(s, items)
    requires multiset(reported) == multiset(EntriesOf(items)) && SortedBy(JobIndex(jobs), reported)
    ensures |reported| == |jobs|
    ensures forall i :: 0 <= i < |jobs| ==>
              reported[i].runJobName == jobs[i].name && Reports(reported[i], s, items)
  {
    NamesAtMost(jobs);
    assert |s.Keys| == |s|;
    EntriesOnce(s, items);
    ListedNames(s, items);
    SortedListFollowsJobs(jobs, EntriesOf(items), reported);
    forall i | 0 <= i < |jobs| ensures Reports(reported[i], s, items) {
      ReportedState(s, items, reported, reported[i]);
    }
  }

  lemma {:induction false} EntriesOnce(s: Store, items: seq<Item>)
    requires ListingOf(s, items)
    ensures OnePerJob(multiset(EntriesOf(items)))
    decreases |items|
  {
    var entries := EntriesOf(items);
    forall e: RunJobState, f: RunJobState
      | e in multiset(entries) && f in multiset(entries) && e.runJobName == f.runJobName
      ensures e == f
    {
      var i :| 0 <= i < |entries| && entries[i] == e;
      var k :| 0 <= k < |entries| && entries[k] == f;
    }
    forall e | e in multiset(entries) ensures multiset(entries)[e] == 1 {
      DistinctCount(entries, e);
    }
  }

  lemma {:induction false} DistinctCount(entries: seq<RunJobState>, e: RunJobState)
    requires forall i, k :: 0 <= i < k < |entries| ==> entries[i] != entries[k]
    ensures multiset(entries)[e] <= 1
  {
    if entries != [] {
      var last := |entries| - 1;
      var front := entries[..last];
      assert entries == front + [entries[last]];
      DistinctCount(front, e);
      if e == entries[last] {
        assert e !in front;
      }
    }
  }
}
