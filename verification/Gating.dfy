/**
  The job-gating pass of the run reconciler as a function on the store of
  Kubernetes jobs: what one iteration of the loop does to one job, and what a
  whole pass does, including where it stops.

  A store is keyed by the run-job-name label. Two names give the same object
  name only when they are equal (`Naming.ShortNameInjective`), so looking a job
  up by object name and listing by label address the same entry.
 */
module Gating {
  import opened JobStates

  datatype Job = Job(name: string, trigger: string, runBefore: seq<string>)

  type Store = map<string, KJob>

  /** Go's strconv.ParseBool, with an unreadable text counting as false. */
  function ParseBool(text: string): bool {
    text in ["1", "t", "T", "TRUE", "true", "True"]
  }

  function NewKJob(job: Job): KJob {
    KJob(ParseBool(job.trigger), job.trigger, UNSET, "", NOTHING_YET)
  }

  /** A job is created suspended, annotated with its trigger, exactly for the texts Go reads as true. */
  lemma {:induction false} CreatedSuspendedIff(job: Job)
    ensures NewKJob(job).suspend <==>
            || job.trigger == "true" || job.trigger == "True" || job.trigger == "TRUE"
            || job.trigger == "t" || job.trigger == "T" || job.trigger == "1"
    ensures NewKJob(job).trigger == job.trigger
  {
  }

  function Names(jobs: seq<Job>): set<string> {
    set i | 0 <= i < |jobs| :: jobs[i].name
  }

  ghost predicate Distinct(jobs: seq<Job>) {
    forall i, k :: 0 <= i < k < |jobs| ==> jobs[i].name != jobs[k].name
  }

  /** The RunBefore list of the first job with this name; empty when there is none. */
  function Before(jobs: seq<Job>, name: string): seq<string> {
    if jobs == [] then []
    else if jobs[0].name == name then jobs[0].runBefore
    else Before(jobs[1..], name)
  }

  /** What scanning a RunBefore list finds first: nothing in the way, a job to wait for, or no job at all. */
  datatype Gate = Open | Held | Missing

  function GateOf(before: seq<string>, triggered: bool, s: Store): Gate {
    if before == [] then Open
    else if before[0] !in s then Missing
    else if triggered || !Passed(s[before[0]].status) then Held
    else GateOf(before[1..], triggered, s)
  }

  function Refresh(k: KJob, desiredTrigger: string, held: bool): KJob {
    KJob(
      held,
      if k.trigger == TRIGGERED && desiredTrigger == NOT_TRIGGERED then NOT_TRIGGERED else k.trigger,
      DetermineJobState(k),
      k.obs.reason,
      k.obs)
  }

  datatype Error = NoError | MissingPredecessor | ApiFailure

  datatype PassResult = PassResult(store: Store, error: Error)

  /** One iteration of the loop: create the job, or re-annotate it and set whether it is suspended. */
  function StepJob(jobs: seq<Job>, job: Job, s: Store): PassResult {
    if job.name !in s then PassResult(s[job.name := NewKJob(job)], NoError)
    else
      var k := s[job.name];
      var gate := GateOf(Before(jobs, job.name), k.trigger == TRIGGERED, s);
      if gate == Missing then PassResult(s, MissingPredecessor)
      else PassResult(s[job.name := Refresh(k, job.trigger, gate == Held)], NoError)
  }

  /** The loop from position `i` on; the API answers for the jobs before position `stop` and fails at the next one. */
  function Pass(jobs: seq<Job>, i: nat, stop: nat, s: Store): PassResult
    requires i <= |jobs|
    decreases |jobs| - i
  {
    if i == |jobs| then PassResult(s, NoError)
    else if i >= stop then PassResult(s, ApiFailure)
    else
      var r := StepJob(jobs, jobs[i], s);
      if r.error != NoError then r else Pass(jobs, i + 1, stop, r.store)
  }

  /** A pass that handles job `i` goes on behind it. */
  lemma {:induction false} PassOn(jobs: seq<Job>, i: nat, s: Store, t: Store)
    requires i < |jobs| && StepJob(jobs, jobs[i], s) == PassResult(t, NoError)
    ensures Pass(jobs, i, |jobs|, s) == Pass(jobs, i + 1, |jobs|, t)
  {
  }

  /** The gate opens exactly when every listed job exists and has passed, and a triggered job has none to wait for. */
  lemma {:induction false} GateOpenIff(before: seq<string>, triggered: bool, s: Store)
    ensures GateOf(before, triggered, s) == Open <==>
            && (forall b <- before :: b in s && Passed(s[b].status))
            && (triggered ==> before == [])
  {
    if before != [] {
      GateOpenIff(before[1..], triggered, s);
      assert before == [before[0]] + before[1..];
    }
  }

  /** Entry `i` is the first one that stops the scan, and no job of that name exists. */
  ghost predicate AbsentFirst(before: seq<string>, triggered: bool, s: Store, i: int) {
    && 0 <= i < |before|
    && before[i] !in s
    && (forall k :: 0 <= k < i ==> before[k] in s && Passed(s[before[k]].status))
    && (i > 0 ==> !triggered)
  }

  /** The pass fails for want of a job exactly when the first list entry that stops the scan is absent. */
  lemma {:induction false} GateMissingIff(before: seq<string>, triggered: bool, s: Store)
    ensures GateOf(before, triggered, s) == Missing <==> exists i :: AbsentFirst(before, triggered, s, i)
  {
    if before == [] {
    } else if before[0] !in s {
      assert AbsentFirst(before, triggered, s, 0);
    } else {
      var rest := before[1..];
      GateMissingIff(rest, triggered, s);
      forall i ensures AbsentFirst(before, triggered, s, i) <==>
                       AbsentFirst(rest, triggered, s, i - 1) && !triggered && Passed(s[before[0]].status)
      {
        AbsentFirstTail(before, triggered, s, i);
      }
      if i :| AbsentFirst(rest, triggered, s, i) {
        assert !triggered && Passed(s[before[0]].status) ==> AbsentFirst(before, triggered, s, i + 1);
      }
    }
  }

  lemma {:induction false} AbsentFirstTail(before: seq<string>, triggered: bool, s: Store, i: int)
    requires before != [] && before[0] in s
    ensures AbsentFirst(before, triggered, s, i) <==>
            AbsentFirst(before[1..], triggered, s, i - 1) && !triggered && Passed(s[before[0]].status)
  {
    var rest := before[1..];
    if AbsentFirst(rest, triggered, s, i - 1) && !triggered && Passed(s[before[0]].status) {
      forall k | 0 <= k < i ensures before[k] in s && Passed(s[before[k]].status) {
        assert k > 0 ==> before[k] == rest[k - 1];
      }
    }
    if AbsentFirst(before, triggered, s, i) {
      assert rest[i - 1] == before[i];
      assert forall k :: 0 <= k < i - 1 ==> rest[k] == before[k + 1];
    }
  }

  lemma {:induction false} BeforeOfIndex(jobs: seq<Job>, i: nat)
    requires i < |jobs|
    ensures exists f :: 0 <= f <= i && jobs[f].name == jobs[i].name && Before(jobs, jobs[i].name) == jobs[f].runBefore
  {
    if jobs[0].name != jobs[i].name {
      BeforeOfIndex(jobs[1..], i - 1);
      var f :| 0 <= f <= i - 1 && jobs[1..][f].name == jobs[1..][i - 1].name
        && Before(jobs[1..], jobs[1..][i - 1].name) == jobs[1..][f].runBefore;
      assert jobs[f + 1].name == jobs[i].name;
    }
  }

  lemma {:induction false} BeforeOfDistinct(jobs: seq<Job>, i: nat)
    requires i < |jobs| && Distinct(jobs)
    ensures Before(jobs, jobs[i].name) == jobs[i].runBefore
  {
    BeforeOfIndex(jobs, i);
  }

  lemma {:induction false} BeforeOfAbsent(jobs: seq<Job>, name: string)
    requires name !in Names(jobs)
    ensures Before(jobs, name) == []
  {
    if jobs != [] {
      assert jobs[0].name in Names(jobs);
      forall n | n in Names(jobs[1..]) ensures n in Names(jobs) {
        var i :| 0 <= i < |jobs[1..]| && jobs[1..][i].name == n;
        assert jobs[i + 1].name == n;
      }
      BeforeOfAbsent(jobs[1..], name);
    }
  }

  /** User edits of a run may change triggers; names and dependencies are fixed when the run is built. */
  ghost predicate SameShape(a: seq<Job>, b: seq<Job>) {
    |a| == |b| && forall i :: 0 <= i < |a| ==> a[i].name == b[i].name && a[i].runBefore == b[i].runBefore
  }

  lemma {:induction false} SameShapeBefore(a: seq<Job>, b: seq<Job>, name: string)
    requires SameShape(a, b)
    ensures Before(a, name) == Before(b, name)
  {
    if a != [] {
      SameShapeBefore(a[1..], b[1..], name);
    }
  }

  lemma {:induction false} SameShapeNames(a: seq<Job>, b: seq<Job>)
    requires SameShape(a, b)
    ensures Names(a) == Names(b)
  {
  }
}
