/**
  Triggered jobs. While the trigger annotation is "true" a job is annotated
  waiting whatever happens to it, so as long as nobody edits the trigger, its
  run does not end: with predecessors the job never starts, without any it is
  unsuspended and may even finish, but is still annotated waiting.
 */
module Triggers {
  import opened JobStates
  import opened Gating
  import opened GatingRuns
  import opened Creation
  import opened Aggregation
  import opened RunReconciler
  import opened Listings

  ghost predicate TriggeredStays(st: State, i: nat) {
    && i < |st.jobs| && Distinct(st.jobs) && st.jobs[i].trigger == TRIGGERED
    && (st.pass.At? ==> st.pass.snapshot == st.jobs)
    && (st.jobs[i].name in st.store ==>
         var k := st.store[st.jobs[i].name];
         && k.trigger == TRIGGERED && (k.status == UNSET || k.status == Wait)
         && (k.status == UNSET || st.jobs[i].runBefore != [] ==> k.suspend)
         && (k.suspend ==> !Started(k)))
  }

  lemma {:induction false} StepKeepsTriggered(st: State, a: Action, mode: Mode, i: nat)
    requires TriggeredStays(st, i) && Enabled(st, a, mode) && !a.Edit?
    ensures TriggeredStays(Next(st, a), i)
  {
    if a.Advance? && st.pass.At? && st.pass.pos < |st.pass.snapshot| {
      var p := st.pass.pos;
      StepJobFacts(st.jobs, st.jobs[p], st.store);
      if p == i && st.jobs[i].name in st.store {
        BeforeOfDistinct(st.jobs, i);
        GateOpenIff(st.jobs[i].runBefore, true, st.store);
        DeterminedStates(st.store[st.jobs[i].name]);
      }
    }
  }

  lemma {:induction false} RunKeepsTriggered(st: State, acts: seq<Action>, mode: Mode, i: nat)
    requires TriggeredStays(st, i) && Legal(st, acts, mode) && EditFree(acts)
    ensures TriggeredStays(After(st, acts), i) && After(st, acts).jobs == st.jobs
    decreases |acts|
  {
    if acts != [] {
      assert acts[0] in acts && forall a <- acts[1..] :: a in acts;
      StepKeepsTriggered(st, acts[0], mode, i);
      RunKeepsTriggered(Next(st, acts[0]), acts[1..], mode, i);
    }
  }

  /**
    In every run without edits a triggered job is annotated waiting or not at all, and
    with predecessors it never starts.
   */
  lemma {:induction false} TriggeredWaits(jobs: seq<Job>, acts: seq<Action>, mode: Mode, i: nat)
    requires Distinct(jobs) && i < |jobs| && jobs[i].trigger == TRIGGERED
    requires Legal(Initial(jobs), acts, mode) && EditFree(acts)
    ensures var s := After(Initial(jobs), acts).store;
            jobs[i].name in s ==>
              && (s[jobs[i].name].status == UNSET || s[jobs[i].name].status == Wait)
              && (jobs[i].runBefore != [] ==> !Started(s[jobs[i].name]))
  {
    RunKeepsTriggered(Initial(jobs), acts, mode, i);
  }

  /** So the completion test fails on every listing of the stored jobs. */
  lemma {:induction false} TriggeredRunNeverEnds(
    jobs: seq<Job>, acts: seq<Action>, mode: Mode, i: nat, items: seq<Item>)
    requires Distinct(jobs) && i < |jobs| && jobs[i].trigger == TRIGGERED
    requires Legal(Initial(jobs), acts, mode) && EditFree(acts)
    requires ListingOf(After(Initial(jobs), acts).store, items)
    ensures !RunEnded(CountersOf(States(EntriesOf(items))), jobs)
  {
    RunKeepsTriggered(Initial(jobs), acts, mode, i);
    StoredAreListed(jobs, acts, mode);
    assert jobs[i].name in Names(jobs);
    RunEndedIffAllPostRun(jobs, After(Initial(jobs), acts).store, items);
  }

  // ---------- releasing a triggered job ----------

  /** What an update pass makes of a trigger annotation: only an edit to "false" of a triggered job changes it. */
  ghost predicate TriggerUpdated(before: string, desired: string, after: string) {
    && (before == "true" && desired == "false" ==> after == "false")
    && (before != "true" || desired != "false" ==> after == before)
  }

  lemma {:induction false} TriggerAfterStep(jobs: seq<Job>, job: Job, s: Store)
    requires job.name in s && StepJob(jobs, job, s).error == NoError
    ensures TriggerUpdated(s[job.name].trigger, job.trigger, StepJob(jobs, job, s).store[job.name].trigger)
  {
  }

  /** From store `s` to store `t` the triggers of the jobs from position `i` on are updated, the others left alone. */
  ghost predicate TriggersUpdatedFrom(jobs: seq<Job>, i: nat, s: Store, t: Store) {
    && (forall q :: 0 <= q < |jobs| && jobs[q].name in s ==> jobs[q].name in t)
    && (forall q :: 0 <= q < i <= |jobs| && jobs[q].name in s ==> t[jobs[q].name].trigger == s[jobs[q].name].trigger)
    && (forall q :: i <= q < |jobs| && jobs[q].name in s ==>
         TriggerUpdated(s[jobs[q].name].trigger, jobs[q].trigger, t[jobs[q].name].trigger))
    && (forall q :: i <= q < |jobs| && jobs[q].name !in s ==>
         jobs[q].name in t && t[jobs[q].name].trigger == jobs[q].trigger)
  }

  /** A pass over distinct jobs that ends without error updates every trigger annotation once. */
  lemma {:induction false} PassUpdatesTriggers(jobs: seq<Job>, i: nat, s: Store)
    requires Distinct(jobs) && i <= |jobs| && Pass(jobs, i, |jobs|, s).error == NoError
    ensures TriggersUpdatedFrom(jobs, i, s, Pass(jobs, i, |jobs|, s).store)
    decreases |jobs| - i
  {
    if i < |jobs| {
      var mid := StepJob(jobs, jobs[i], s).store;
      StepJobFacts(jobs, jobs[i], s);
      PassUpdatesTriggers(jobs, i + 1, mid);
      if jobs[i].name in s {
        TriggerAfterStep(jobs, jobs[i], s);
      }
      UpdatedOneMore(jobs, i, s, mid, Pass(jobs, i + 1, |jobs|, mid).store);
    }
  }

  lemma {:induction false} UpdatedOneMore(jobs: seq<Job>, i: nat, s: Store, mid: Store, t: Store)
    requires Distinct(jobs) && i < |jobs| && TriggersUpdatedFrom(jobs, i + 1, mid, t)
    requires mid.Keys == s.Keys + {jobs[i].name} && forall n <- s :: n != jobs[i].name ==> mid[n] == s[n]
    requires jobs[i].name in s ==> TriggerUpdated(s[jobs[i].name].trigger, jobs[i].trigger, mid[jobs[i].name].trigger)
    requires jobs[i].name !in s ==> mid[jobs[i].name].trigger == jobs[i].trigger
    ensures TriggersUpdatedFrom(jobs, i, s, t)
  {
  }

  /** After all triggers of a run have been edited away, one whole pass without error leaves no job triggered. */
  lemma {:induction false} EditReleases(jobs: seq<Job>, s: Store)
    requires Distinct(jobs) && s.Keys <= Names(jobs)
    requires Pass(Untriggered(jobs), 0, |jobs|, s).error == NoError
    ensures var t := Pass(Untriggered(jobs), 0, |jobs|, s).store;
            forall q :: 0 <= q < |jobs| ==> jobs[q].name in t && t[jobs[q].name].trigger != "true"
  {
    var plain := Untriggered(jobs);
    PassUpdatesTriggers(plain, 0, s);
    assert forall q :: 0 <= q < |jobs| ==> plain[q].name == jobs[q].name && plain[q].trigger == "false";
  }
}
