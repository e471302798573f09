/**
  Which runs can end. If no job starts before its first update pass, a run
  whose job list nobody edits can pass the completion test exactly when its
  names are distinct, its dependencies are jobs of the run, they form no
  cycle, and no job is triggered. If jobs may start earlier, cycles do not
  matter, and of the dependencies only the first one of each job does.
 */
module Endings {
  import opened JobStates
  import opened Gating
  import opened GatingRuns
  import opened Creation
  import opened Acyclicity
  import opened Aggregation
  import opened RunReconciler
  import opened Listings
  import opened Triggers
  import opened Progress

  // ---------- a run that ended is plain and acyclic ----------

  /** A job annotated with a post-run state had all its direct predecessors succeed. */
  ghost predicate EndedInvariant(st: State) {
    forall n <- st.store :: Category(st.store[n].status) == PostRun ==> PredecessorsSucceeded(st.jobs, n, st.store)
  }

  lemma {:induction false} StepKeepsEnded(st: State, a: Action, mode: Mode)
    requires GateInvariant(st, mode) && StartedInvariant(st) && Enabled(st, a, mode) && EndedInvariant(st)
    ensures EndedInvariant(Next(st, a))
  {
    var t := Next(st, a);
    if a.Advance? && st.pass.At? && st.pass.pos < |st.pass.snapshot| {
      var job := st.pass.snapshot[st.pass.pos];
      StepJobFacts(st.pass.snapshot, job, st.store);
      if job.name in st.store {
        DeterminedStates(st.store[job.name]);
      }
    }
    forall n | n in t.store && Category(t.store[n].status) == PostRun
      ensures PredecessorsSucceeded(t.jobs, n, t.store) {
      PredecessorsKept(st.jobs, t.jobs, n, st.store, t.store);
    }
  }

  lemma {:induction false} RunKeepsEnded(st: State, acts: seq<Action>, mode: Mode)
    requires GateInvariant(st, mode) && StartedInvariant(st) && EndedInvariant(st)
    requires Legal(st, acts, mode) && !mode.early
    ensures EndedInvariant(After(st, acts))
    decreases |acts|
  {
    if acts != [] {
      StepKeepsGate(st, acts[0], mode);
      StepKeepsStarted(st, acts[0], mode);
      StepKeepsEnded(st, acts[0], mode);
      RunKeepsEnded(Next(st, acts[0]), acts[1..], mode);
    }
  }

  /** The completion test holds on some listing of the stored jobs. */
  ghost predicate Ended(jobs: seq<Job>, s: Store) {
    exists items :: ListingOf(s, items) && RunEnded(CountersOf(States(EntriesOf(items))), jobs)
  }

  /** The completion test leaves no room for a repeated name: as many stored jobs as listed ones are post-run. */
  lemma {:induction false} EndedListsAll(jobs: seq<Job>, s: Store, items: seq<Item>)
    requires s.Keys <= Names(jobs) && ListingOf(s, items) && RunEnded(CountersOf(States(EntriesOf(items))), jobs)
    ensures Distinct(jobs) && s.Keys == Names(jobs)
  {
    EndedCount(States(EntriesOf(items)));
    assert |s.Keys| == |s|;
    NamesAtMost(jobs);
    SubsetCount(s.Keys, Names(jobs));
  }

  lemma {:induction false} EndedCountsAll(jobs: seq<Job>, s: Store)
    requires s.Keys <= Names(jobs) && Ended(jobs, s)
    ensures Distinct(jobs) && s.Keys == Names(jobs) && forall n <- s :: Category(s[n].status) == PostRun
  {
    var items :| ListingOf(s, items) && RunEnded(CountersOf(States(EntriesOf(items))), jobs);
    EndedListsAll(jobs, s, items);
    RunEndedIffAllPostRun(jobs, s, items);
  }

  lemma {:induction false} StartedOnCycle(jobs: seq<Job>, c: seq<string>, s: Store)
    requires Cycle(jobs, c) && s.Keys == Names(jobs) && forall n <- s :: PredecessorsSucceeded(jobs, n, s)
    ensures c[0] in s && Started(s[c[0]])
  {
    assert c[0] in Before(jobs, c[1]);
    if c[1] !in Names(jobs) {
      BeforeOfAbsent(jobs, c[1]);
    }
  }

  lemma {:induction false} EndedRunHasNoCycle(jobs: seq<Job>, acts: seq<Action>, mode: Mode, s: Store)
    requires Legal(Initial(jobs), acts, mode) && !mode.early && s == After(Initial(jobs), acts).store
    requires s.Keys == Names(jobs) && forall n <- s :: PredecessorsSucceeded(jobs, n, s)
    ensures Acyclic(jobs)
  {
    AcyclicIff(jobs);
    forall c | Chain(jobs, c) ensures !Cycle(jobs, c) {
      if Cycle(jobs, c) {
        CycleNeverStarts(jobs, acts, mode, c);
        StartedOnCycle(jobs, c, s);
        assert false;
      }
    }
  }

  lemma {:induction false} EndedRunIsUntriggered(jobs: seq<Job>, acts: seq<Action>, mode: Mode, i: nat)
    requires Legal(Initial(jobs), acts, mode) && EditFree(acts) && Distinct(jobs) && i < |jobs|
    requires Ended(jobs, After(Initial(jobs), acts).store)
    ensures jobs[i].trigger != TRIGGERED
  {
    var items :| ListingOf(After(Initial(jobs), acts).store, items) &&
      RunEnded(CountersOf(States(EntriesOf(items))), jobs);
    if jobs[i].trigger == TRIGGERED {
      TriggeredRunNeverEnds(jobs, acts, mode, i, items);
    }
  }

  lemma {:induction false} EndedRunIsClosed(jobs: seq<Job>, s: Store, i: nat)
    requires Distinct(jobs) && i < |jobs| && s.Keys == Names(jobs)
    requires forall n <- s :: PredecessorsSucceeded(jobs, n, s)
    ensures forall b <- jobs[i].runBefore :: b in Names(jobs)
  {
    BeforeOfDistinct(jobs, i);
    assert jobs[i].name in Names(jobs);
  }

  lemma {:induction false} EndedReachable(jobs: seq<Job>, acts: seq<Action>, mode: Mode)
    requires Legal(Initial(jobs), acts, mode) && !mode.early
    ensures EndedInvariant(After(Initial(jobs), acts))
  {
    RunKeepsEnded(Initial(jobs), acts, mode);
  }

  /** In a run that ended every listed job exists, once, with its predecessors succeeded. */
  lemma {:induction false} EndedRunFacts(jobs: seq<Job>, acts: seq<Action>, mode: Mode, s: Store)
    requires Legal(Initial(jobs), acts, mode) && EditFree(acts) && !mode.early
    requires s == After(Initial(jobs), acts).store && Ended(jobs, s)
    ensures After(Initial(jobs), acts).jobs == jobs && Distinct(jobs) && s.Keys == Names(jobs)
    ensures forall n <- s :: PredecessorsSucceeded(jobs, n, s)
  {
    StoredAreListed(jobs, acts, mode);
    EndedCountsAll(jobs, s);
    EndedReachable(jobs, acts, mode);
  }

  lemma {:induction false} EndedJobIsPlain(jobs: seq<Job>, acts: seq<Action>, mode: Mode, s: Store, i: nat)
    requires Legal(Initial(jobs), acts, mode) && EditFree(acts) && Distinct(jobs) && i < |jobs|
    requires s == After(Initial(jobs), acts).store && Ended(jobs, s) && s.Keys == Names(jobs)
    requires forall n <- s :: PredecessorsSucceeded(jobs, n, s)
    ensures jobs[i].trigger != TRIGGERED && forall b <- jobs[i].runBefore :: b in Names(jobs)
  {
    EndedRunIsUntriggered(jobs, acts, mode, i);
    EndedRunIsClosed(jobs, s, i);
  }

  lemma {:induction false} EndedRunIsPlain(jobs: seq<Job>, acts: seq<Action>, mode: Mode, s: Store)
    requires Legal(Initial(jobs), acts, mode) && EditFree(acts) && !mode.early
    requires s == After(Initial(jobs), acts).store && Ended(jobs, s)
    ensures PlainRun(jobs)
  {
    EndedRunFacts(jobs, acts, mode, s);
    forall i | 0 <= i < |jobs|
      ensures jobs[i].trigger != TRIGGERED && forall b <- jobs[i].runBefore :: b in Names(jobs)
    {
      EndedJobIsPlain(jobs, acts, mode, s, i);
    }
  }

  lemma {:induction false} EndedRunIsAcyclic(jobs: seq<Job>, acts: seq<Action>, mode: Mode, s: Store)
    requires Legal(Initial(jobs), acts, mode) && EditFree(acts) && !mode.early
    requires s == After(Initial(jobs), acts).store && Ended(jobs, s)
    ensures Acyclic(jobs)
  {
    EndedRunFacts(jobs, acts, mode, s);
    EndedRunHasNoCycle(jobs, acts, mode, s);
  }

  // ---------- a plain acyclic run can end ----------

  lemma {:induction false} ListingExists(s: Store) returns (items: seq<Item>)
    ensures ListingOf(s, items)
    decreases |s|
  {
    items := [];
    if n :| n in s {
      var rest := s - {n};
      assert s == rest[n := s[n]] && n !in rest;
      var front := ListingExists(rest);
      items := front + [Item(n, n, s[n])];
    }
  }

  lemma {:induction false} CompletedIsEnded(jobs: seq<Job>, s: Store)
    requires Distinct(jobs) && AllCompleted(jobs, s)
    ensures Ended(jobs, s)
  {
    var items := ListingExists(s);
    RunEndedIffAllPostRun(jobs, s, items);
  }

  // ---------- exactly those ----------

  ghost predicate EndsIn(jobs: seq<Job>, acts: seq<Action>, mode: Mode) {
    Legal(Initial(jobs), acts, mode) && EditFree(acts) && !mode.early && Ended(jobs, After(Initial(jobs), acts).store)
  }

  /** Some run without edits and without early starts passes the completion test. */
  ghost predicate CanEnd(jobs: seq<Job>) {
    exists acts, mode :: EndsIn(jobs, acts, mode)
  }

  lemma {:induction false} SomeRunEnds(jobs: seq<Job>) returns (acts: seq<Action>)
    requires PlainRun(jobs) && Acyclic(jobs)
    ensures EndsIn(jobs, acts, Mode(false, {}))
  {
    acts := SomeRunCompletes(jobs);
    CompletedIsEnded(jobs, After(Initial(jobs), acts).store);
  }

  lemma {:induction false} OnlyPlainRunsEnd(jobs: seq<Job>, acts: seq<Action>, mode: Mode)
    requires EndsIn(jobs, acts, mode)
    ensures PlainRun(jobs) && Acyclic(jobs)
  {
    EndedRunIsPlain(jobs, acts, mode, After(Initial(jobs), acts).store);
    EndedRunIsAcyclic(jobs, acts, mode, After(Initial(jobs), acts).store);
  }

  /**
    If no job starts before its first update pass, a run can end exactly when it is
    plain and acyclic: nothing else keeps it from ending, and a repeated name, a
    trigger, a dangling dependency or a cycle each do so for ever.
   */
  lemma {:induction false} CanEndIff(jobs: seq<Job>)
    ensures CanEnd(jobs) <==> PlainRun(jobs) && Acyclic(jobs)
  {
    if acts, mode :| EndsIn(jobs, acts, mode) {
      OnlyPlainRunsEnd(jobs, acts, mode);
    }
    if PlainRun(jobs) && Acyclic(jobs) {
      var acts := SomeRunEnds(jobs);
    }
  }

  // ---------- with early starts ----------

  /** The first job each job waits for is a job of the run. */
  ghost predicate FirstListed(jobs: seq<Job>) {
    forall i :: 0 <= i < |jobs| && jobs[i].runBefore != [] ==> jobs[i].runBefore[0] in Names(jobs)
  }

  /** Some run without edits passes the completion test. */
  ghost predicate CanEndAnyhow(jobs: seq<Job>) {
    exists acts, mode :: EndsAnyhow(jobs, acts, mode)
  }

  ghost predicate EndsAnyhow(jobs: seq<Job>, acts: seq<Action>, mode: Mode) {
    Legal(Initial(jobs), acts, mode) && EditFree(acts) && Ended(jobs, After(Initial(jobs), acts).store)
  }

  /** Job `i`, whose first predecessor is no job of the run, is never annotated: every pass stops at it. */
  ghost predicate NeverAnnotated(st: State, i: nat) {
    && i < |st.jobs| && Distinct(st.jobs) && st.store.Keys <= Names(st.jobs)
    && st.jobs[i].runBefore != [] && st.jobs[i].runBefore[0] !in Names(st.jobs)
    && (st.pass.At? ==> st.pass.snapshot == st.jobs)
    && (st.jobs[i].name in st.store ==> st.store[st.jobs[i].name].status == UNSET)
  }

  lemma {:induction false} StepNeverAnnotates(st: State, a: Action, mode: Mode, i: nat)
    requires NeverAnnotated(st, i) && Enabled(st, a, mode) && !a.Edit?
    ensures NeverAnnotated(Next(st, a), i)
  {
    if a.Advance? && st.pass.At? && st.pass.pos < |st.jobs| {
      var job := st.jobs[st.pass.pos];
      StepJobFacts(st.jobs, job, st.store);
      BeforeOfDistinct(st.jobs, i);
      assert job.name in Names(st.jobs);
    }
  }

  lemma {:induction false} RunNeverAnnotates(st: State, acts: seq<Action>, mode: Mode, i: nat)
    requires NeverAnnotated(st, i) && Legal(st, acts, mode) && EditFree(acts)
    ensures NeverAnnotated(After(st, acts), i)
    decreases |acts|
  {
    if acts != [] {
      assert acts[0] in acts && forall a <- acts[1..] :: a in acts;
      StepNeverAnnotates(st, acts[0], mode, i);
      RunNeverAnnotates(Next(st, acts[0]), acts[1..], mode, i);
    }
  }

  lemma {:induction false} EndedRunIsFirstListed(jobs: seq<Job>, acts: seq<Action>, mode: Mode, i: nat)
    requires Legal(Initial(jobs), acts, mode) && EditFree(acts) && Distinct(jobs) && i < |jobs|
    requires jobs[i].name in After(Initial(jobs), acts).store
    requires After(Initial(jobs), acts).jobs == jobs
    requires Category(After(Initial(jobs), acts).store[jobs[i].name].status) == PostRun
    ensures jobs[i].runBefore != [] ==> jobs[i].runBefore[0] in Names(jobs)
  {
    if jobs[i].runBefore != [] && jobs[i].runBefore[0] !in Names(jobs) {
      RunNeverAnnotates(Initial(jobs), acts, mode, i);
      assert false;
    }
  }

  const BROKEN := Observed(0, 0, 1, false, PhaseOther(""), "")

  /** A failed job that has not been annotated otherwise. */
  ghost predicate Broken(k: KJob) {
    k.obs == BROKEN && k.trigger != TRIGGERED && (k.status == UNSET || k.status == Failed)
  }

  /** All jobs exist and have failed, those before position `i` are annotated failed, the others not suspended. */
  ghost predicate FailedBelow(jobs: seq<Job>, i: nat, s: Store) {
    && i <= |jobs| && s.Keys == Names(jobs)
    && (forall n <- s :: Broken(s[n]))
    && (forall q :: 0 <= q < i ==> jobs[q].name in s && s[jobs[q].name].status == Failed)
    && (forall q :: i <= q < |jobs| ==> jobs[q].name in s && !s[jobs[q].name].suspend)
  }

  lemma {:induction false} FailingJob(jobs: seq<Job>, job: Job, s: Store)
    requires Before(jobs, job.name) == job.runBefore && (job.runBefore != [] ==> job.runBefore[0] in s)
    requires job.name in s && !s[job.name].suspend && forall n <- s :: Broken(s[n])
    ensures var r := StepJob(jobs, job, s);
            r.error == NoError && r.store[job.name].status == Failed && Broken(r.store[job.name])
  {
    DeterminedStates(s[job.name]);
  }

  lemma {:induction false} OthersBroken(jobs: seq<Job>, i: nat, s: Store, t: Store)
    requires Distinct(jobs) && FailedBelow(jobs, i, s) && i < |jobs| && t.Keys == s.Keys
    requires forall n <- s :: n != jobs[i].name ==> t[n] == s[n]
    requires Broken(t[jobs[i].name]) && t[jobs[i].name].status == Failed
    ensures FailedBelow(jobs, i + 1, t)
  {
  }

  lemma {:induction false} FailingStep(jobs: seq<Job>, i: nat, s: Store) returns (t: Store)
    requires Distinct(jobs) && FirstListed(jobs) && FailedBelow(jobs, i, s) && i < |jobs|
    ensures StepJob(jobs, jobs[i], s) == PassResult(t, NoError) && FailedBelow(jobs, i + 1, t)
  {
    t := StepJob(jobs, jobs[i], s).store;
    BeforeOfDistinct(jobs, i);
    FailingJob(jobs, jobs[i], s);
    StepJobFacts(jobs, jobs[i], s);
    OthersBroken(jobs, i, s, t);
  }

  lemma {:induction false} FailingPass(jobs: seq<Job>, i: nat, s: Store) returns (t: Store)
    requires Distinct(jobs) && FirstListed(jobs) && FailedBelow(jobs, i, s)
    ensures Pass(jobs, i, |jobs|, s) == PassResult(t, NoError) && FailedBelow(jobs, |jobs|, t)
    decreases |jobs| - i
  {
    if i < |jobs| {
      var mid := FailingStep(jobs, i, s);
      PassOn(jobs, i, s, mid);
      t := FailingPass(jobs, i + 1, mid);
    } else {
      t := s;
    }
  }

  /** All jobs of a list created unsuspended can fail before the first update pass. */
  lemma {:induction false} AllBreak(jobs: seq<Job>, mode: Mode) returns (s: Store)
    requires Distinct(jobs) && CreatedFree(jobs) && mode == Mode(true, {})
    ensures FailedBelow(jobs, 0, s) && Leads(Initial(jobs), State(jobs, s, Idle), mode)
  {
    var created := Created(jobs, |jobs|);
    assert jobs[..|jobs|] == jobs && created.Keys == Names(jobs);
    s := map n | n in created :: created[n].(obs := BROKEN);
    forall n | n in created
      ensures !created[n].suspend && created[n].trigger != TRIGGERED && created[n].status == UNSET
      ensures created[n].obs == NOTHING_YET
    {
      CreatedPlain(jobs, |jobs|, n);
    }
    CreatingPass(jobs, 0);
    RoundIsRun(jobs, map[], s, mode);
  }

  lemma {:induction false} FailedIsEnded(jobs: seq<Job>, s: Store)
    requires Distinct(jobs) && FailedBelow(jobs, |jobs|, s)
    ensures Ended(jobs, s)
  {
    var items := ListingExists(s);
    forall n | n in s ensures Category(s[n].status) == PostRun {
      var q :| 0 <= q < |jobs| && jobs[q].name == n;
    }
    RunEndedIffAllPostRun(jobs, s, items);
  }

  lemma {:induction false} SomeRunFails(jobs: seq<Job>) returns (acts: seq<Action>)
    requires Distinct(jobs) && CreatedFree(jobs) && FirstListed(jobs)
    ensures EndsAnyhow(jobs, acts, Mode(true, {}))
  {
    var mode := Mode(true, {});
    var s := AllBreak(jobs, mode);
    var t := FailingPass(jobs, 0, s);
    FailedIsEnded(jobs, t);
    PassIsRun(jobs, s, 0, mode);
    LeadsStepThen(State(jobs, s, Idle), Advance, State(jobs, t, Idle), mode);
    LeadsOn(Initial(jobs), State(jobs, s, Idle), State(jobs, t, Idle), mode);
    acts :| Legal(Initial(jobs), acts, mode) && EditFree(acts) && After(Initial(jobs), acts) == State(jobs, t, Idle);
  }

  lemma {:induction false} OnlySuchRunsEndAnyhow(jobs: seq<Job>, acts: seq<Action>, mode: Mode)
    requires EndsAnyhow(jobs, acts, mode)
    ensures Distinct(jobs) && FirstListed(jobs) && forall i :: 0 <= i < |jobs| ==> jobs[i].trigger != TRIGGERED
  {
    var s := After(Initial(jobs), acts).store;
    StoredAreListed(jobs, acts, mode);
    EndedCountsAll(jobs, s);
    forall i | 0 <= i < |jobs|
      ensures jobs[i].trigger != TRIGGERED
      ensures jobs[i].runBefore != [] ==> jobs[i].runBefore[0] in Names(jobs)
    {
      assert jobs[i].name in Names(jobs);
      EndedRunIsUntriggered(jobs, acts, mode, i);
      EndedRunIsFirstListed(jobs, acts, mode, i);
    }
  }

  /**
    If jobs may start before their first update pass, and every trigger is "true"
    or reads as false, as in all translated runs, a run can end exactly when its
    names are distinct, no job is triggered, and the first predecessor of each job
    is a job of the run. Cycles and later dangling entries do not keep it from
    ending then.
   */
  lemma {:induction false} CanEndAnyhowIff(jobs: seq<Job>)
    requires forall i :: 0 <= i < |jobs| ==> jobs[i].trigger == TRIGGERED || !ParseBool(jobs[i].trigger)
    ensures CanEndAnyhow(jobs) <==> Distinct(jobs) && CreatedFree(jobs) && FirstListed(jobs)
  {
    if acts, mode :| EndsAnyhow(jobs, acts, mode) {
      OnlySuchRunsEndAnyhow(jobs, acts, mode);
    }
    if Distinct(jobs) && CreatedFree(jobs) && FirstListed(jobs) {
      var acts := SomeRunFails(jobs);
    }
  }

  // ---------- with edits ----------

  /** From here on some run without early starts, with whatever edits, passes the completion test. */
  ghost predicate CanStillEnd(st: State) {
    exists later :: EndsLater(st, later)
  }

  ghost predicate EndsLater(st: State, later: seq<Action>) {
    Legal(st, later, Mode(false, {})) && Ended(After(st, later).jobs, After(st, later).store)
  }

  lemma {:induction false} StepKeepsOrderly(st: State, a: Action, mode: Mode)
    requires Orderly(st.store) && Enabled(st, a, mode) && !mode.early
    ensures Orderly(Next(st, a).store)
  {
    if a.Advance? && st.pass.At? && st.pass.pos < |st.pass.snapshot| {
      StepOrderly(st.pass.snapshot, st.pass.snapshot[st.pass.pos], st.store);
    }
  }

  lemma {:induction false} RunKeepsOrderly(st: State, acts: seq<Action>, mode: Mode)
    requires Orderly(st.store) && Legal(st, acts, mode) && !mode.early
    ensures Orderly(After(st, acts).store)
    decreases |acts|
  {
    if acts != [] {
      StepKeepsOrderly(st, acts[0], mode);
      RunKeepsOrderly(Next(st, acts[0]), acts[1..], mode);
    }
  }

  lemma {:induction false} UntriggeredShape(jobs: seq<Job>, edited: seq<Job>)
    requires SameShape(jobs, edited)
    ensures Untriggered(edited) == Untriggered(jobs) && SameShape(jobs, Untriggered(jobs))
    ensures Acyclic(jobs) <==> Acyclic(Untriggered(jobs))
  {
    var plain := Untriggered(jobs);
    forall n ensures Before(jobs, n) == Before(plain, n) {
      SameShapeBefore(jobs, plain, n);
    }
    if rank: string -> nat :| Ranked(jobs, rank) {
      assert Ranked(plain, rank);
    }
    if rank: string -> nat :| Ranked(plain, rank) {
      assert Ranked(jobs, rank);
    }
  }

  /** All jobs and all their dependencies exist. */
  ghost predicate AllThere(jobs: seq<Job>, keys: set<string>) {
    && (forall q :: 0 <= q < |jobs| ==> jobs[q].name in keys)
    && (forall n, b :: b in Before(jobs, n) ==> b in keys)
  }

  lemma {:induction false} PlainIsThere(jobs: seq<Job>)
    requires PlainRun(jobs)
    ensures AllThere(jobs, Names(jobs))
  {
    forall n, b | b in Before(jobs, n) ensures b in Names(jobs) {
      PlainBefore(jobs, n);
    }
  }

  lemma {:induction false} CompleteStep(jobs: seq<Job>, job: Job, s: Store) returns (t: Store)
    requires AllThere(jobs, s.Keys) && job.name in s
    ensures StepJob(jobs, job, s) == PassResult(t, NoError) && t.Keys == s.Keys
  {
    t := StepJob(jobs, job, s).store;
    GateMissingIff(Before(jobs, job.name), s[job.name].trigger == TRIGGERED, s);
  }

  /** With all jobs and their dependencies there, no pass fails. */
  lemma {:induction false} CompletePass(jobs: seq<Job>, i: nat, s: Store) returns (t: Store)
    requires i <= |jobs| && AllThere(jobs, s.Keys)
    ensures Pass(jobs, i, |jobs|, s) == PassResult(t, NoError) && t.Keys == s.Keys
    decreases |jobs| - i
  {
    if i < |jobs| {
      var mid := CompleteStep(jobs, jobs[i], s);
      PassOn(jobs, i, s, mid);
      t := CompletePass(jobs, i + 1, mid);
    } else {
      t := s;
    }
  }

  /** The first pass after the edit lets go of whatever was triggered. */
  lemma {:induction false} FirstPassReleases(jobs: seq<Job>, s: Store, t: Store)
    requires PlainRun(Untriggered(jobs)) && s.Keys == Names(Untriggered(jobs))
    requires Finishes(false, Pass(Untriggered(jobs), 0, |jobs|, s).store, t)
    ensures t.Keys == Names(Untriggered(jobs)) && forall n <- t :: t[n].trigger != TRIGGERED
  {
    var plain := Untriggered(jobs);
    PlainIsThere(plain);
    var released := CompletePass(plain, 0, s);
    assert Untriggered(plain) == plain;
    EditReleases(plain, s);
    forall n | n in t ensures t[n].trigger != TRIGGERED {
      var q :| 0 <= q < |plain| && plain[q].name == n;
    }
  }

  /** From any orderly store with all jobs there, passes over the untriggered list complete it. */
  lemma {:induction false} UntriggeredCompletes(jobs: seq<Job>, s: Store) returns (t: Store)
    requires PlainRun(Untriggered(jobs)) && Acyclic(Untriggered(jobs))
    requires Orderly(s) && s.Keys == Names(Untriggered(jobs))
    ensures Leads(State(Untriggered(jobs), s, Idle), State(Untriggered(jobs), t, Idle), Mode(false, {}))
    ensures AllCompleted(Untriggered(jobs), t)
  {
    var plain := Untriggered(jobs);
    AcyclicIff(plain);
    var n := 1 + 2 * (|plain| + 1);
    var found := OrderlyRounds(plain, s, n);
    assert Round(plain, false, found, 1);
    FirstPassReleases(jobs, found[0], found[1]);
    CompletesFromAnyStore(plain, false, |plain|, found, 1, n);
    RoundsAreRuns(plain, false, found, n, Mode(false, {}));
    t := found[n];
  }

  lemma {:induction false} EditFirst(st: State, plain: seq<Job>, t: State, mode: Mode) returns (later: seq<Action>)
    requires SameShape(st.jobs, plain) && Leads(State(plain, st.store, Idle), t, mode)
    ensures Legal(st, later, mode) && After(st, later) == t
  {
    var mid := State(plain, st.store, Idle);
    var rest :| Legal(mid, rest, mode) && EditFree(rest) && After(mid, rest) == t;
    SingleAction(st, Abort, mode);
    AfterAppend(st, [Abort], Edit(plain), mode);
    RunsCompose(st, [Abort] + [Edit(plain)], rest, mode);
    later := [Abort] + [Edit(plain)] + rest;
  }

  /** Give the pass up, edit all triggers away, and carry on. */
  lemma {:induction false} EditedRunEnds(st: State) returns (later: seq<Action>)
    requires Orderly(st.store) && st.store.Keys == Names(st.jobs)
    requires PlainRun(Untriggered(st.jobs)) && Acyclic(Untriggered(st.jobs))
    ensures EndsLater(st, later)
  {
    var plain := Untriggered(st.jobs);
    UntriggeredShape(st.jobs, st.jobs);
    SameShapeNames(st.jobs, plain);
    var t := UntriggeredCompletes(st.jobs, st.store);
    CompletedIsEnded(plain, t);
    later := EditFirst(st, plain, State(plain, t, Idle), Mode(false, {}));
  }

  lemma {:induction false} StoredAreListedAnywhere(jobs: seq<Job>, acts: seq<Action>, mode: Mode)
    requires Legal(Initial(jobs), acts, mode)
    ensures SameShape(jobs, After(Initial(jobs), acts).jobs)
    ensures After(Initial(jobs), acts).store.Keys <= Names(After(Initial(jobs), acts).jobs)
  {
    var st := After(Initial(jobs), acts);
    RunKeepsShape(Initial(jobs), acts, mode);
    ExistingJobsFormPrefix(jobs, acts, mode);
    var n: nat :| FirstJobsExist(st, n);
    NamesMonotone(st.jobs, n, |st.jobs|);
    assert st.jobs[..|st.jobs|] == st.jobs;
  }

  lemma {:induction false} EndedAnywhereFacts(jobs: seq<Job>, acts: seq<Action>, mode: Mode, st: State)
    requires Legal(Initial(jobs), acts, mode) && !mode.early && st == After(Initial(jobs), acts)
    requires Ended(st.jobs, st.store)
    ensures SameShape(jobs, st.jobs) && Distinct(st.jobs) && st.store.Keys == Names(st.jobs)
    ensures forall n <- st.store :: PredecessorsSucceeded(st.jobs, n, st.store)
  {
    StoredAreListedAnywhere(jobs, acts, mode);
    EndedCountsAll(st.jobs, st.store);
    EndedReachable(jobs, acts, mode);
  }

  lemma {:induction false} ShapeFacts(jobs: seq<Job>, edited: seq<Job>, s: Store)
    requires SameShape(jobs, edited) && Distinct(edited) && s.Keys == Names(edited)
    requires forall n <- s :: PredecessorsSucceeded(edited, n, s)
    ensures Distinct(jobs) && s.Keys == Names(jobs) && forall n <- s :: PredecessorsSucceeded(jobs, n, s)
  {
    SameShapeNames(jobs, edited);
    forall n | n in s ensures PredecessorsSucceeded(jobs, n, s) {
      SameShapeBefore(jobs, edited, n);
    }
  }

  lemma {:induction false} ClosedIsPlain(jobs: seq<Job>, s: Store)
    requires Distinct(jobs) && s.Keys == Names(jobs) && forall n <- s :: PredecessorsSucceeded(jobs, n, s)
    ensures PlainRun(Untriggered(jobs))
  {
    var plain := Untriggered(jobs);
    UntriggeredShape(jobs, jobs);
    SameShapeNames(jobs, plain);
    forall i | 0 <= i < |jobs| ensures forall b <- plain[i].runBefore :: b in Names(plain) {
      EndedRunIsClosed(jobs, s, i);
    }
  }

  lemma {:induction false} EndedAnywhereIsPlain(jobs: seq<Job>, acts: seq<Action>, mode: Mode, st: State)
    requires Legal(Initial(jobs), acts, mode) && !mode.early && st == After(Initial(jobs), acts)
    requires Ended(st.jobs, st.store)
    ensures PlainRun(Untriggered(jobs)) && Acyclic(jobs)
  {
    EndedAnywhereFacts(jobs, acts, mode, st);
    ShapeFacts(jobs, st.jobs, st.store);
    ClosedIsPlain(jobs, st.store);
    EndedRunHasNoCycle(jobs, acts, mode, st.store);
  }

  /**
    A run without early starts whose jobs all exist, wherever it stands and
    whatever is triggered, can still end by editing its triggers away, exactly when
    the untriggered list is plain and acyclic.
   */
  lemma {:induction false} CanStillEndIff(jobs: seq<Job>, acts: seq<Action>)
    requires Legal(Initial(jobs), acts, Mode(false, {}))
    requires After(Initial(jobs), acts).store.Keys == Names(jobs)
    ensures CanStillEnd(After(Initial(jobs), acts)) <==> PlainRun(Untriggered(jobs)) && Acyclic(jobs)
  {
    var mode, st := Mode(false, {}), After(Initial(jobs), acts);
    if later :| EndsLater(st, later) {
      RunsCompose(Initial(jobs), acts, later, mode);
      EndedAnywhereIsPlain(jobs, acts + later, mode, After(st, later));
    }
    if PlainRun(Untriggered(jobs)) && Acyclic(jobs) {
      RunKeepsOrderly(Initial(jobs), acts, mode);
      RunKeepsShape(Initial(jobs), acts, mode);
      UntriggeredShape(jobs, st.jobs);
      SameShapeNames(jobs, st.jobs);
      var later := EditedRunEnds(st);
    }
  }
}
