/**
  The run reconciler's two loops as they are written: one pass over the job
  list that rewrites the stored Kubernetes jobs, and the status update that
  counts, ranks and sorts what a listing returns. Each is proved against the
  functions of `Gating` and `Aggregation`.
 */
module RunReconciler {
  import opened JobStates
  import opened Gating
  import opened Aggregation
  import opened Options

  /** A listed Kubernetes job: object name, run-job-name label, and the job itself. */
  datatype Item = Item(name: string, runJobName: string, kjob: KJob)

  function EntryOf(item: Item): RunJobState {
    RunJobState(item.name, item.runJobName, item.kjob.status, item.kjob.reason)
  }

  function EntriesOf(items: seq<Item>): seq<RunJobState> {
    seq(|items|, i requires 0 <= i < |items| => EntryOf(items[i]))
  }

  class RunObject {
    var jobs: seq<Job>
    var jobStates: seq<RunJobState>
    var runState: JobState
    var counters: Counters
    var lastUpdated: Option<int>

    constructor (jobs: seq<Job>)
      ensures this.jobs == jobs
    {
      this.jobs := jobs;
      jobStates, runState, counters, lastUpdated := [], UNSET, Counters(0, 0, 0, 0, 0, 0, 0, 0), None;
    }
  }

  class PipelineObject {
    var lastExecutionEnd: Option<int>

    constructor ()
      ensures lastExecutionEnd == None
    {
      lastExecutionEnd := None;
    }
  }

  /** The Kubernetes jobs of one run, as stored in the cluster. */
  class JobStore {
    var kjobs: Store

    constructor ()
      ensures kjobs == map[]
    {
      kjobs := map[];
    }

    /** The RunBefore list of the first job of that name. */
    method FindBefore(jobs: seq<Job>, name: string) returns (before: seq<string>)
      ensures before == Before(jobs, name)
    {
      before := [];
      for i := 0 to |jobs|
        invariant before == []
        invariant Before(jobs, name) == Before(jobs[i..], name)
      {
        if jobs[i].name == name {
          return jobs[i].runBefore;
        }
      }
    }

    /** Scans the predecessors, stopping at the first that is absent or holds the job. */
    method IsSuspending(before: seq<string>, triggered: bool) returns (isSuspending: bool, missing: bool)
      ensures missing <==> GateOf(before, triggered, kjobs) == Missing
      ensures isSuspending <==> GateOf(before, triggered, kjobs) == Held
    {
      isSuspending, missing := false, false;
      for i := 0 to |before|
        invariant !isSuspending && !missing
        invariant GateOf(before, triggered, kjobs) == GateOf(before[i..], triggered, kjobs)
      {
        if before[i] !in kjobs {
          missing := true;
          return;
        }
        var beforeState := kjobs[before[i]].status;
        if triggered || beforeState == Failed || Category(beforeState) != PostRun {
          isSuspending := true;
          break;
        }
      }
    }

    /**
      One pass of ensureKJobList. The API answers for the first `stop` jobs and
      then fails; a missing predecessor ends the pass. What was written before stays.
     */
    method EnsureKJobList(run: RunObject, stop: nat) returns (error: Error)
      modifies this
      ensures PassResult(kjobs, error) == Pass(run.jobs, 0, stop, old(kjobs))
    {
      var jobs := run.jobs;
      for i := 0 to |jobs|
        invariant i <= stop
        invariant Pass(jobs, 0, stop, old(kjobs)) == Pass(jobs, i, stop, kjobs)
      {
        if i == stop {
          return ApiFailure;
        }
        var desired := jobs[i];
        if desired.name !in kjobs {
          kjobs := kjobs[desired.name := NewKJob(desired)];
        } else {
          var current := kjobs[desired.name];
          var currentTrigger := current.trigger;
          var jobState := DetermineJobState(current);
          current := current.(status := jobState, reason := current.obs.reason);
          if currentTrigger == TRIGGERED && desired.trigger == NOT_TRIGGERED {
            current := current.(trigger := NOT_TRIGGERED);
          }
          var before := FindBefore(jobs, desired.name);
          var isSuspending, missing := IsSuspending(before, currentTrigger == TRIGGERED);
          if missing {
            return MissingPredecessor;
          }
          current := current.(suspend := isSuspending);
          kjobs := kjobs[desired.name := current];
        }
      }
      error := NoError;
    }
  }

  method Swap(a: array<RunJobState>, k: nat)
    requires 0 < k < a.Length
    modifies a
    ensures a[k - 1] == old(a[k]) && a[k] == old(a[k - 1])
    ensures forall i :: 0 <= i < a.Length && i != k && i != k - 1 ==> a[i] == old(a[i])
    ensures multiset(a[..]) == multiset(old(a[..]))
  {
    a[k - 1], a[k] := a[k], a[k - 1];
  }

  /** Moves entry `n` back to its place among the sorted entries before it. */
  method Insert(a: array<RunJobState>, n: nat, index: map<string, nat>)
    requires n < a.Length
    requires forall i, j :: 0 <= i < j < n ==> KeyOf(index, a[i]) <= KeyOf(index, a[j])
    modifies a
    ensures forall i, j :: 0 <= i < j <= n ==> KeyOf(index, a[i]) <= KeyOf(index, a[j])
    ensures multiset(a[..]) == multiset(old(a[..]))
  {
    var k := n;
    while k > 0 && KeyOf(index, a[k - 1]) > KeyOf(index, a[k])
      invariant 0 <= k <= n
      invariant forall i, j :: 0 <= i < j <= n && j != k ==> KeyOf(index, a[i]) <= KeyOf(index, a[j])
      invariant multiset(a[..]) == multiset(old(a[..]))
    {
      Swap(a, k);
      k := k - 1;
    }
  }

  /** Sorts the entries in place by job position. */
  method SortJobStates(a: array<RunJobState>, index: map<string, nat>)
    modifies a
    ensures SortedBy(index, a[..])
    ensures multiset(a[..]) == multiset(old(a[..]))
  {
    for n := 0 to a.Length
      invariant forall i, j :: 0 <= i < j < n ==> KeyOf(index, a[i]) <= KeyOf(index, a[j])
      invariant multiset(a[..]) == multiset(old(a[..]))
    {
      Insert(a, n, index);
    }
  }

  /** Name to position of the run's jobs. */
  method BuildIndex(jobs: seq<Job>) returns (index: map<string, nat>)
    ensures index == JobIndex(jobs)
  {
    index := map[];
    for i := 0 to |jobs|
      invariant index == JobIndex(jobs[..i])
    {
      index := index[jobs[i].name := i];
      assert jobs[..i + 1][..i] == jobs[..i];
    }
    assert jobs[..|jobs|] == jobs;
  }

  lemma {:induction false} HighestNext(states: seq<JobState>, i: nat)
    requires i < |states|
    ensures Highest(states[..i + 1]) == HigherOf(Highest(states[..i]), states[i])
  {
    assert states[..i + 1][..i] == states[..i];
  }

  lemma {:induction false} OneMore(states: seq<JobState>, i: nat)
    requires i < |states|
    ensures forall s :: multiset(states[..i + 1])[s] == multiset(states[..i])[s] + if s == states[i] then 1 else 0
  {
    assert states[..i + 1] == states[..i] + [states[i]];
  }

  /** The counting loop: the running maximum and the eight counters of the entries' states. */
  method Tally(states: seq<JobState>) returns (jobState: JobState, counters: Counters)
    ensures jobState == Highest(states)
    ensures counters == CountersOf(states)
  {
    jobState := Unknown;
    var init, wait, stop, run, deleting, completed, deleted, failed := 0, 0, 0, 0, 0, 0, 0, 0;
    for i := 0 to |states|
      invariant jobState == Highest(states[..i])
      invariant Counters(init, wait, stop, run, deleting, completed, deleted, failed) == CountersOf(states[..i])
    {
      var state := states[i];
      HighestNext(states, i);
      OneMore(states, i);
      jobState := HigherOf(jobState, state);
      if state == Init { init := init + 1; continue; }
      if state == Wait { wait := wait + 1; continue; }
      if state == Stop { stop := stop + 1; continue; }
      if state == Run { run := run + 1; continue; }
      if state == Deleting { deleting := deleting + 1; continue; }
      if state == Completed { completed := completed + 1; continue; }
      if state == Deleted { deleted := deleted + 1; continue; }
      if state == Failed { failed := failed + 1; continue; }
    }
    assert states[..|states|] == states;
    counters := Counters(init, wait, stop, run, deleting, completed, deleted, failed);
  }

  /** The sorted entries of a listing, the run state and the counters. */
  method Summarize(jobs: seq<Job>, items: seq<Item>)
    returns (jobState: JobState, counters: Counters, sorted: seq<RunJobState>)
    ensures jobState == Highest(States(EntriesOf(items))) && counters == CountersOf(States(EntriesOf(items)))
    ensures multiset(sorted) == multiset(EntriesOf(items)) && SortedBy(JobIndex(jobs), sorted)
  {
    var entries := EntriesOf(items);
    jobState, counters := Tally(States(entries));
    var index := BuildIndex(jobs);
    var list := new RunJobState[|entries|](i requires 0 <= i < |entries| => entries[i]);
    assert list[..] == entries;
    SortJobStates(list, index);
    sorted := list[..];
  }

  /**
    One attempt of updateRunStatus on a listing. When the run has ended the
    pipeline's end date is written first; if that write is refused, nothing is
    written. The run's own status is written last; if that is refused, the end
    date stays written.
   */
  method UpdateRunStatus(
    run: RunObject, pipeline: PipelineObject, items: seq<Item>, now: int, pipelineWritable: bool, runWritable: bool)
    returns (ok: bool)
    modifies run, pipeline
    ensures var ended := RunEnded(CountersOf(States(EntriesOf(items))), old(run.jobs));
            && (ok <==> (pipelineWritable || !ended) && runWritable)
            && pipeline.lastExecutionEnd == if ended && pipelineWritable then Some(now)
              else old(pipeline.lastExecutionEnd)
    ensures ok ==>
              var states := States(EntriesOf(items));
              && run.counters == CountersOf(states)
              && run.runState == Highest(states)
              && multiset(run.jobStates) == multiset(EntriesOf(items))
              && SortedBy(JobIndex(run.jobs), run.jobStates)
              && run.lastUpdated == Some(now)
    ensures !ok ==> unchanged(run)
    ensures run.jobs == old(run.jobs)
  {
    var jobState, counters, sorted := Summarize(run.jobs, items);
    if counters.completed + counters.deleted + counters.failed == |run.jobs| {
      if !pipelineWritable {
        return false;
      }
      pipeline.lastExecutionEnd := Some(now);
    }
    if !runWritable {
      return false;
    }
    run.jobStates, run.counters, run.runState, run.lastUpdated := sorted, counters, jobState, Some(now);
    ok := true;
  }
}
