/**
  Creating the jobs of a run when passes may be cut off anywhere: what exists
  is always a prefix of the job list, and a list in which no job waits for a
  later one never meets a missing predecessor. Also: when creating a job
  unsuspended lets it start ahead of its predecessors.
 */
module Creation {
  import opened JobStates
  import opened Gating
  import opened GatingRuns

  /** Every RunBefore entry names an earlier job of the list. */
  ghost predicate Ordered(jobs: seq<Job>) {
    forall i :: 0 <= i < |jobs| ==> forall b <- jobs[i].runBefore :: b in Names(jobs[..i])
  }

  /** No RunBefore entry names a later job of the list, or none at all; a job may name itself. */
  ghost predicate Backward(jobs: seq<Job>) {
    forall i :: 0 <= i < |jobs| ==> forall b <- jobs[i].runBefore :: b in Names(jobs[..i + 1])
  }

  lemma {:induction false} OrderedIsBackward(jobs: seq<Job>)
    requires Ordered(jobs)
    ensures Backward(jobs)
  {
    forall i, b | 0 <= i < |jobs| && b in jobs[i].runBefore ensures b in Names(jobs[..i + 1]) {
      NamesExtend(jobs, i);
    }
  }

  /** The jobs that exist are exactly the first `n` of the list. */
  ghost predicate FirstJobsExist(st: State, n: nat) {
    n <= |st.jobs| && st.store.Keys == Names(st.jobs[..n])
  }

  ghost predicate PrefixExists(st: State, n: nat) {
    && FirstJobsExist(st, n)
    && (st.pass.At? ==> SameShape(st.pass.snapshot, st.jobs) && st.pass.pos <= |st.jobs|)
    && (st.pass.At? ==> st.pass.pos <= n)
  }

  ghost predicate PrefixInvariant(st: State) {
    exists n: nat :: PrefixExists(st, n)
  }

  lemma {:induction false} NamesExtend(jobs: seq<Job>, n: nat)
    requires n < |jobs|
    ensures Names(jobs[..n + 1]) == Names(jobs[..n]) + {jobs[n].name}
  {
    var a, b := jobs[..n], jobs[..n + 1];
    assert forall i :: 0 <= i < n ==> b[i] == a[i];
    assert b[n].name == jobs[n].name;
  }

  lemma {:induction false} NamesMonotone(jobs: seq<Job>, m: nat, n: nat)
    requires m <= n <= |jobs|
    ensures Names(jobs[..m]) <= Names(jobs[..n])
  {
    assert forall i :: 0 <= i < m ==> jobs[..n][i] == jobs[..m][i];
  }

  lemma {:induction false} SameShapePrefix(a: seq<Job>, b: seq<Job>, n: nat)
    requires SameShape(a, b) && n <= |a|
    ensures Names(a[..n]) == Names(b[..n])
  {
    SameShapeNames(a[..n], b[..n]);
  }

  /** One job of a pass, found with the first `n` jobs existing and none of the pass beyond them. */
  lemma {:induction false} JobKeepsPrefix(jobs: seq<Job>, snap: seq<Job>, pos: nat, n: nat, s: Store)
    requires SameShape(snap, jobs) && pos <= n <= |jobs| && pos < |jobs| && s.Keys == Names(jobs[..n])
    ensures var r := StepJob(snap, snap[pos], s);
            r.store.Keys == Names(jobs[..if r.error == NoError && pos == n then n + 1 else n])
  {
    StepJobFacts(snap, snap[pos], s);
    NamesExtend(jobs, pos);
    if pos < n {
      NamesMonotone(jobs, pos + 1, n);
    }
  }

  lemma {:induction false} AdvanceKeepsPrefix(st: State, n: nat)
    requires PrefixExists(st, n)
    ensures PrefixExists(Next(st, Advance), n) || PrefixExists(Next(st, Advance), n + 1)
  {
    if st.pass.At? && st.pass.pos < |st.pass.snapshot| {
      JobKeepsPrefix(st.jobs, st.pass.snapshot, st.pass.pos, n, st.store);
    }
  }

  lemma {:induction false} EditKeepsPrefix(st: State, jobs: seq<Job>, n: nat)
    requires PrefixExists(st, n) && SameShape(st.jobs, jobs)
    ensures PrefixExists(Next(st, Edit(jobs)), n)
  {
    SameShapePrefix(st.jobs, jobs, n);
  }

  lemma {:induction false} StepKeepsPrefix(st: State, a: Action, mode: Mode)
    requires PrefixInvariant(st) && Enabled(st, a, mode)
    ensures PrefixInvariant(Next(st, a))
  {
    var n: nat :| PrefixExists(st, n);
    match a
    case Advance => AdvanceKeepsPrefix(st, n);
    case Abort => assert PrefixExists(Next(st, a), n);
    case Cluster(obs) => assert PrefixExists(Next(st, a), n);
    case Edit(jobs) => EditKeepsPrefix(st, jobs, n);
  }

  lemma {:induction false} RunKeepsPrefix(st: State, acts: seq<Action>, mode: Mode)
    requires PrefixInvariant(st) && Legal(st, acts, mode)
    ensures PrefixInvariant(After(st, acts))
    decreases |acts|
  {
    if acts != [] {
      StepKeepsPrefix(st, acts[0], mode);
      RunKeepsPrefix(Next(st, acts[0]), acts[1..], mode);
    }
  }

  /** Crash-safe creation: wherever passes are cut off, the jobs that exist are those of a prefix of the list. */
  lemma {:induction false} ExistingJobsFormPrefix(jobs: seq<Job>, acts: seq<Action>, mode: Mode)
    requires Legal(Initial(jobs), acts, mode)
    ensures exists n: nat :: FirstJobsExist(After(Initial(jobs), acts), n)
  {
    assert PrefixExists(Initial(jobs), 0);
    RunKeepsPrefix(Initial(jobs), acts, mode);
    var n: nat :| PrefixExists(After(Initial(jobs), acts), n);
  }

  lemma {:induction false} OrderedBefore(jobs: seq<Job>, i: nat)
    requires Ordered(jobs) && i < |jobs|
    ensures forall b <- Before(jobs, jobs[i].name) :: b in Names(jobs[..i])
  {
    BeforeOfIndex(jobs, i);
    var f :| 0 <= f <= i && jobs[f].name == jobs[i].name && Before(jobs, jobs[i].name) == jobs[f].runBefore;
    NamesMonotone(jobs, f, i);
  }

  lemma {:induction false} BackwardBefore(jobs: seq<Job>, i: nat)
    requires Backward(jobs) && i < |jobs|
    ensures forall b <- Before(jobs, jobs[i].name) :: b in Names(jobs[..i + 1])
  {
    BeforeOfIndex(jobs, i);
    var f :| 0 <= f <= i && jobs[f].name == jobs[i].name && Before(jobs, jobs[i].name) == jobs[f].runBefore;
    NamesMonotone(jobs, f + 1, i + 1);
  }

  lemma {:induction false} BackwardStepSucceeds(jobs: seq<Job>, i: nat, s: Store)
    requires Backward(jobs) && i < |jobs| && Names(jobs[..i]) <= s.Keys
    ensures StepJob(jobs, jobs[i], s).error == NoError
  {
    BackwardBefore(jobs, i);
    NamesExtend(jobs, i);
    if jobs[i].name in s {
      assert forall b <- Before(jobs, jobs[i].name) :: b in s;
      GateMissingIff(Before(jobs, jobs[i].name), s[jobs[i].name].trigger == TRIGGERED, s);
    }
  }

  lemma {:induction false} BackwardSameShape(a: seq<Job>, b: seq<Job>)
    requires SameShape(a, b) && Backward(a)
    ensures Backward(b)
  {
    forall i, c | 0 <= i < |b| && c in b[i].runBefore ensures c in Names(b[..i + 1]) {
      SameShapePrefix(a, b, i + 1);
    }
  }

  lemma {:induction false} RunKeepsShape(st: State, acts: seq<Action>, mode: Mode)
    requires Legal(st, acts, mode)
    ensures SameShape(st.jobs, After(st, acts).jobs)
    decreases |acts|
  {
    if acts != [] {
      RunKeepsShape(Next(st, acts[0]), acts[1..], mode);
    }
  }

  /** The job a pass handles next, if there is one, finds all the predecessors it looks for. */
  ghost predicate NextJobSucceeds(st: State) {
    st.pass.At? && st.pass.pos < |st.pass.snapshot| ==>
      StepJob(st.pass.snapshot, st.pass.snapshot[st.pass.pos], st.store).error == NoError
  }

  /** A whole pass from here ends without error and every job exists. */
  ghost predicate NextPassCreatesAll(st: State) {
    var r := Pass(st.jobs, 0, |st.jobs|, st.store);
    r.error == NoError && r.store.Keys == Names(st.jobs)
  }

  /**
    If no job waits for a later one, the missing-predecessor error is unreachable:
    whatever was cut off before, the next job of a pass is handled.
   */
  lemma {:induction false} MissingUnreachable(jobs: seq<Job>, acts: seq<Action>, mode: Mode)
    requires Backward(jobs) && Legal(Initial(jobs), acts, mode)
    ensures NextJobSucceeds(After(Initial(jobs), acts))
  {
    assert PrefixExists(Initial(jobs), 0);
    RunKeepsPrefix(Initial(jobs), acts, mode);
    RunKeepsShape(Initial(jobs), acts, mode);
    var st := After(Initial(jobs), acts);
    var n: nat :| PrefixExists(st, n);
    if st.pass.At? && st.pass.pos < |st.pass.snapshot| {
      BackwardSameShape(jobs, st.jobs);
      BackwardSameShape(st.jobs, st.pass.snapshot);
      SameShapePrefix(st.pass.snapshot, st.jobs, st.pass.pos);
      NamesMonotone(st.jobs, st.pass.pos, n);
      BackwardStepSucceeds(st.pass.snapshot, st.pass.pos, st.store);
    }
  }

  lemma {:induction false} BackwardPass(jobs: seq<Job>, i: nat, s: Store)
    requires Backward(jobs) && i <= |jobs| && Names(jobs[..i]) <= s.Keys
    ensures var r := Pass(jobs, i, |jobs|, s);
            r.error == NoError && r.store.Keys == s.Keys + Names(jobs)
    decreases |jobs| - i
  {
    if i == |jobs| {
      assert jobs[..i] == jobs;
    } else {
      BackwardStepSucceeds(jobs, i, s);
      StepJobFacts(jobs, jobs[i], s);
      NamesExtend(jobs, i);
      assert jobs[i].name in Names(jobs);
      BackwardPass(jobs, i + 1, StepJob(jobs, jobs[i], s).store);
    }
  }

  /** After any run of such a list, the next uninterrupted pass ends without error and every job exists. */
  lemma {:induction false} UninterruptedPassCreatesAll(jobs: seq<Job>, acts: seq<Action>, mode: Mode)
    requires Backward(jobs) && Legal(Initial(jobs), acts, mode)
    ensures NextPassCreatesAll(After(Initial(jobs), acts))
  {
    assert PrefixExists(Initial(jobs), 0);
    RunKeepsPrefix(Initial(jobs), acts, mode);
    RunKeepsShape(Initial(jobs), acts, mode);
    var st := After(Initial(jobs), acts);
    var n: nat :| PrefixExists(st, n);
    BackwardSameShape(jobs, st.jobs);
    SameShapeNames(jobs, st.jobs);
    assert st.jobs[0..] == st.jobs && st.jobs[..|st.jobs|] == st.jobs;
    NamesMonotone(st.jobs, n, |st.jobs|);
    BackwardPass(st.jobs, 0, st.store);
  }

  // ---------- jobs created unsuspended ----------

  ghost predicate EditFree(acts: seq<Action>) {
    forall a <- acts :: !a.Edit?
  }

  lemma {:induction false} EditFreeJobs(st: State, acts: seq<Action>)
    requires EditFree(acts)
    ensures After(st, acts).jobs == st.jobs
    decreases |acts|
  {
    if acts != [] {
      assert acts[0] in acts && forall a <- acts[1..] :: a in acts;
      EditFreeJobs(Next(st, acts[0]), acts[1..]);
    }
  }

  lemma {:induction false} StoredAreListed(jobs: seq<Job>, acts: seq<Action>, mode: Mode)
    requires Legal(Initial(jobs), acts, mode) && EditFree(acts)
    ensures After(Initial(jobs), acts).jobs == jobs && After(Initial(jobs), acts).store.Keys <= Names(jobs)
  {
    EditFreeJobs(Initial(jobs), acts);
    ExistingJobsFormPrefix(jobs, acts, mode);
    var n: nat :| FirstJobsExist(After(Initial(jobs), acts), n);
    NamesMonotone(jobs, n, |jobs|);
    assert jobs[..|jobs|] == jobs;
  }

  /** Some run without edits leads from one state to the other. */
  ghost predicate Leads(st: State, t: State, mode: Mode) {
    exists acts :: Legal(st, acts, mode) && EditFree(acts) && After(st, acts) == t
  }

  lemma {:induction false} LeadsNowhere(st: State, mode: Mode)
    ensures Leads(st, st, mode)
  {
    assert Legal(st, [], mode) && EditFree([]) && After(st, []) == st;
  }

  lemma {:induction false} LeadsOneStep(st: State, a: Action, mode: Mode)
    requires Enabled(st, a, mode) && !a.Edit?
    ensures Leads(st, Next(st, a), mode)
  {
    SingleAction(st, a, mode);
    assert Legal(st, [a], mode) && EditFree([a]);
  }

  lemma {:induction false} LeadsOn(st: State, mid: State, t: State, mode: Mode)
    requires Leads(st, mid, mode) && Leads(mid, t, mode)
    ensures Leads(st, t, mode)
  {
    var first :| Legal(st, first, mode) && EditFree(first) && After(st, first) == mid;
    var rest :| Legal(mid, rest, mode) && EditFree(rest) && After(mid, rest) == t;
    RunsCompose(st, first, rest, mode);
    assert Legal(st, first + rest, mode) && EditFree(first + rest);
  }

  lemma {:induction false} LeadsStepThen(st: State, a: Action, t: State, mode: Mode)
    requires Enabled(st, a, mode) && !a.Edit? && Leads(Next(st, a), t, mode)
    ensures Leads(st, t, mode)
  {
    LeadsOneStep(st, a, mode);
    LeadsOn(st, Next(st, a), t, mode);
  }

  lemma {:induction false} LeadsJobThen(jobs: seq<Job>, i: nat, s: Store, t: State, mode: Mode)
    requires i < |jobs| && StepJob(jobs, jobs[i], s).error == NoError
    requires Leads(State(jobs, StepJob(jobs, jobs[i], s).store, At(jobs, i + 1)), t, mode)
    ensures Leads(State(jobs, s, At(jobs, i)), t, mode)
  {
    LeadsStepThen(State(jobs, s, At(jobs, i)), Advance, t, mode);
  }

  lemma {:induction false} LeadsThenStep(st: State, mid: State, a: Action, mode: Mode)
    requires Leads(st, mid, mode) && Enabled(mid, a, mode) && !a.Edit?
    ensures Leads(st, Next(mid, a), mode)
  {
    LeadsOneStep(mid, a, mode);
    LeadsOn(st, mid, Next(mid, a), mode);
  }

  /** Every job with predecessors is created suspended. */
  ghost predicate HeldAtCreation(jobs: seq<Job>) {
    forall i :: 0 <= i < |jobs| && jobs[i].runBefore != [] ==> ParseBool(jobs[i].trigger)
  }

  /**
    In every run without edits, every started job has its direct predecessors
    succeeded, however soon jobs may start.
   */
  ghost predicate SafeInEveryRun(jobs: seq<Job>) {
    forall acts, dead :: Legal(Initial(jobs), acts, Mode(true, dead)) && EditFree(acts) ==>
      StartedInvariant(After(Initial(jobs), acts))
  }

  ghost predicate NewJobsHeld(st: State) {
    && (forall n <- st.store :: st.store[n].status == UNSET && Before(st.jobs, n) != [] ==> st.store[n].suspend)
    && (st.pass.At? ==> st.pass.snapshot == st.jobs)
  }

  lemma {:induction false} StepKeepsHeld(st: State, a: Action, mode: Mode)
    requires Distinct(st.jobs) && HeldAtCreation(st.jobs) && !a.Edit?
    requires GateInvariant(st, mode) && Enabled(st, a, mode) && NewJobsHeld(st) && StartedInvariant(st)
    ensures NewJobsHeld(Next(st, a)) && StartedInvariant(Next(st, a))
  {
    var t := Next(st, a);
    if a.Advance? && st.pass.At? && st.pass.pos < |st.pass.snapshot| {
      var job := st.jobs[st.pass.pos];
      StepJobFacts(st.jobs, job, st.store);
      BeforeOfDistinct(st.jobs, st.pass.pos);
      if job.name in st.store {
        DeterminedStates(st.store[job.name]);
      }
    }
    forall n | n in t.store && Started(t.store[n]) ensures PredecessorsSucceeded(t.jobs, n, t.store) {
      PredecessorsKept(st.jobs, t.jobs, n, st.store, t.store);
    }
  }

  lemma {:induction false} RunKeepsHeld(st: State, acts: seq<Action>, mode: Mode)
    requires Distinct(st.jobs) && HeldAtCreation(st.jobs) && EditFree(acts)
    requires GateInvariant(st, mode) && Legal(st, acts, mode) && NewJobsHeld(st) && StartedInvariant(st)
    ensures StartedInvariant(After(st, acts))
    decreases |acts|
  {
    if acts != [] {
      assert acts[0] in acts && forall a <- acts[1..] :: a in acts;
      StepKeepsGate(st, acts[0], mode);
      StepKeepsHeld(st, acts[0], mode);
      RunKeepsHeld(Next(st, acts[0]), acts[1..], mode);
    }
  }

  /** The list with all its triggers edited away. */
  function Untriggered(jobs: seq<Job>): seq<Job> {
    seq(|jobs|, i requires 0 <= i < |jobs| => jobs[i].(trigger := NOT_TRIGGERED))
  }

  /** No trigger reads as true, so every job is created unsuspended. */
  ghost predicate CreatedFree(jobs: seq<Job>) {
    forall i :: 0 <= i < |jobs| ==> !ParseBool(jobs[i].trigger)
  }

  /** The store after the first `n` jobs of a distinct list have just been created. */
  ghost function Created(jobs: seq<Job>, n: nat): Store
    requires n <= |jobs|
    ensures Created(jobs, n).Keys == Names(jobs[..n])
  {
    if n == 0 then map[]
    else
      NamesExtend(jobs, n - 1);
      Created(jobs, n - 1)[jobs[n - 1].name := NewKJob(jobs[n - 1])]
  }

  lemma {:induction false} CreatedFresh(jobs: seq<Job>, n: nat, name: string)
    requires n <= |jobs|
    ensures name in Created(jobs, n) ==> !Started(Created(jobs, n)[name]) && Created(jobs, n)[name].status == UNSET
    ensures Distinct(jobs) && n > 0 && name == jobs[n - 1].name ==> Created(jobs, n)[name] == NewKJob(jobs[n - 1])
  {
    if n > 0 {
      CreatedFresh(jobs, n - 1, name);
    }
  }

  lemma {:induction false} CreatedPlain(jobs: seq<Job>, m: nat, n: string)
    requires m <= |jobs| && CreatedFree(jobs) && n in Created(jobs, m)
    ensures !Created(jobs, m)[n].suspend && Created(jobs, m)[n].trigger != TRIGGERED
    ensures Created(jobs, m)[n].status == UNSET && Created(jobs, m)[n].obs == NOTHING_YET
  {
    if n != jobs[m - 1].name {
      CreatedPlain(jobs, m - 1, n);
    }
  }

  ghost function Repeat(a: Action, n: nat): seq<Action> {
    seq(n, _ => a)
  }

  lemma {:induction false} AfterAppend(st: State, acts: seq<Action>, a: Action, mode: Mode)
    ensures After(st, acts + [a]) == Next(After(st, acts), a)
    ensures Legal(st, acts + [a], mode) <==> Legal(st, acts, mode) && Enabled(After(st, acts), a, mode)
  {
    RunsCompose(st, acts, [a], mode);
    SingleAction(After(st, acts), a, mode);
  }

  lemma {:induction false} CreationRun(jobs: seq<Job>, n: nat, mode: Mode)
    requires n <= |jobs| && Distinct(jobs)
    ensures Legal(Initial(jobs), Repeat(Advance, n + 1), mode)
    ensures After(Initial(jobs), Repeat(Advance, n + 1)) == State(jobs, Created(jobs, n), At(jobs, n))
  {
    if n == 0 {
      assert Repeat(Advance, 1) == [] + [Advance];
      AfterAppend(Initial(jobs), [], Advance, mode);
    } else {
      CreationRun(jobs, n - 1, mode);
      assert Repeat(Advance, n + 1) == Repeat(Advance, n) + [Advance];
      AfterAppend(Initial(jobs), Repeat(Advance, n), Advance, mode);
      assert jobs[n - 1].name !in Names(jobs[..n - 1]);
    }
  }

  const RUNNING := Observed(1, 0, 0, false, PhaseRunning, "")

  /** The cluster starts one job and nothing else. */
  function OneStarts(s: Store, name: string): map<string, Observed> {
    map n | n in s :: if n == name then RUNNING else NOTHING_YET
  }

  lemma {:induction false} OneMayStart(jobs: seq<Job>, n: nat, dead: set<string>)
    requires 0 < n <= |jobs| && Distinct(jobs) && !ParseBool(jobs[n - 1].trigger) && dead == {}
    ensures var st := State(jobs, Created(jobs, n), At(jobs, n));
            Enabled(st, Cluster(OneStarts(st.store, jobs[n - 1].name)), Mode(true, dead))
  {
    var store, name := Created(jobs, n), jobs[n - 1].name;
    forall m | m in store ensures MayObserve(m, store[m], OneStarts(store, name)[m], Mode(true, dead)) {
      CreatedFresh(jobs, n, m);
    }
  }

  lemma {:induction false} StartedUnsafely(st: State, name: string)
    requires name in st.store && Started(st.store[name]) && Before(st.jobs, name) != []
    requires forall n <- st.store :: st.store[n].obs.succeeded == 0
    ensures !StartedInvariant(st)
  {
    assert Before(st.jobs, name)[0] in Before(st.jobs, name);
  }

  lemma {:induction false} StartedTooEarly(jobs: seq<Job>, n: nat, obs: map<string, Observed>)
    requires 0 < n <= |jobs| && Distinct(jobs) && jobs[n - 1].runBefore != []
    requires obs == OneStarts(Created(jobs, n), jobs[n - 1].name)
    ensures !StartedInvariant(Next(State(jobs, Created(jobs, n), At(jobs, n)), Cluster(obs)))
  {
    NamesExtend(jobs, n - 1);
    BeforeOfDistinct(jobs, n - 1);
    StartedUnsafely(Next(State(jobs, Created(jobs, n), At(jobs, n)), Cluster(obs)), jobs[n - 1].name);
  }

  /** A job with predecessors that is created unsuspended can start at once. */
  lemma {:induction false} UnheldJobStartsEarly(jobs: seq<Job>, i: nat) returns (acts: seq<Action>)
    requires Distinct(jobs) && i < |jobs| && jobs[i].runBefore != [] && !ParseBool(jobs[i].trigger)
    ensures Legal(Initial(jobs), acts, Mode(true, {})) && EditFree(acts)
    ensures !StartedInvariant(After(Initial(jobs), acts))
  {
    CreationRun(jobs, i + 1, Mode(true, {}));
    var obs := OneStarts(Created(jobs, i + 1), jobs[i].name);
    OneMayStart(jobs, i + 1, {});
    StartedTooEarly(jobs, i + 1, obs);
    acts := Repeat(Advance, i + 2) + [Cluster(obs)];
    AfterAppend(Initial(jobs), Repeat(Advance, i + 2), Cluster(obs), Mode(true, {}));
  }

  /**
    A job created with a trigger that reads as false is not suspended, so it can
    start before its first update pass. Runs are safe from creation on exactly
    when no job with predecessors is created that way.
   */
  lemma {:induction false} SafeFromCreationIff(jobs: seq<Job>)
    requires Distinct(jobs)
    ensures SafeInEveryRun(jobs) <==> HeldAtCreation(jobs)
  {
    if HeldAtCreation(jobs) {
      forall acts, dead | Legal(Initial(jobs), acts, Mode(true, dead)) && EditFree(acts)
        ensures StartedInvariant(After(Initial(jobs), acts))
      {
        RunKeepsHeld(Initial(jobs), acts, Mode(true, dead));
      }
    } else {
      var i :| 0 <= i < |jobs| && jobs[i].runBefore != [] && !ParseBool(jobs[i].trigger);
      var acts := UnheldJobStartsEarly(jobs, i);
    }
  }
}
