/**
  Progress: in an acyclic graph without triggers, on a cluster that finishes
  between two passes every job the operator has let go, every job completes
  within a number of passes bounded by the longest chain, and the status update
  then ends the run. Such a sequence of passes is a run of `GatingRuns`, so its
  safety results hold on the way.
 */
module Progress {
  import opened JobStates
  import opened Gating
  import opened GatingRuns
  import opened Creation
  import opened Acyclicity
  import opened Aggregation
  import opened RunReconciler
  import opened Listings

  ghost predicate Finished(o: Observed) {
    o.active == 0 && o.succeeded > 0
  }

  /**
    An unsuspended job that has been through an update pass finishes before the
    next pass; on a `prompt` cluster so does one that has only been created. A
    finished job stays finished. The rest is up to the cluster.
   */
  ghost predicate Finishes(prompt: bool, s: Store, t: Store) {
    && s.Keys == t.Keys
    && forall n <- s ::
         && t[n] == s[n].(obs := t[n].obs)
         && ((!s[n].suspend && (prompt || s[n].status != UNSET)) || Finished(s[n].obs) ==> Finished(t[n].obs))
  }

  /** Store `i` is what the cluster made of the pass over the store before it. */
  ghost predicate Round(jobs: seq<Job>, prompt: bool, found: seq<Store>, i: nat)
    requires 0 < i < |found|
  {
    Finishes(prompt, Pass(jobs, 0, |jobs|, found[i - 1]).store, found[i])
  }

  /** The stores found by the passes: each but the first what the cluster made of the previous pass. */
  ghost predicate RoundsOn(jobs: seq<Job>, prompt: bool, found: seq<Store>) {
    |found| > 0 && forall i :: 0 < i < |found| ==> Round(jobs, prompt, found, i)
  }

  /** The first pass finds no job. */
  ghost predicate Rounds(jobs: seq<Job>, prompt: bool, found: seq<Store>) {
    RoundsOn(jobs, prompt, found) && found[0] == map[]
  }

  /** Distinct names, every dependency a job of the run, and no job held by its trigger. */
  ghost predicate PlainRun(jobs: seq<Job>) {
    && Distinct(jobs)
    && (forall i :: 0 <= i < |jobs| ==>
         jobs[i].trigger != TRIGGERED && forall b <- jobs[i].runBefore :: b in Names(jobs))
  }

  ghost predicate AllCompleted(jobs: seq<Job>, s: Store) {
    s.Keys == Names(jobs) && forall n <- s :: !s[n].suspend && s[n].status == Completed && Finished(s[n].obs)
  }

  // ---------- one job ----------

  /** By level 2r+1 a job of rank r is let go; by level 2r+2 it is annotated completed as well. */
  ghost predicate Opened(prompt: bool, rank: string -> nat, n: string, k: KJob, level: nat) {
    && k.trigger != TRIGGERED
    && (2 * rank(n) + 1 <= level ==> !k.suspend && (prompt || k.status != UNSET))
    && (2 * rank(n) + 2 <= level ==> k.status == Completed && Finished(k.obs))
  }

  ghost predicate Ready(jobs: seq<Job>, prompt: bool, rank: string -> nat, s: Store, level: nat) {
    && s.Keys == Names(jobs)
    && forall n <- s :: Opened(prompt, rank, n, s[n], level) && (2 * rank(n) + 1 <= level ==> Finished(s[n].obs))
  }

  /** In the middle of a pass: jobs handled already are one level up, cluster reports are those the pass found. */
  ghost predicate Midway(
    jobs: seq<Job>, prompt: bool, rank: string -> nat, found: Store, s: Store, handled: set<string>, level: nat)
  {
    && s.Keys == found.Keys == Names(jobs)
    && (forall n <- s :: s[n].obs == found[n].obs && Opened(prompt, rank, n, s[n], level))
    && (forall n <- s :: n in handled ==> Opened(prompt, rank, n, s[n], level + 1))
  }

  lemma {:induction false} PlainBefore(jobs: seq<Job>, name: string)
    requires PlainRun(jobs)
    ensures forall b <- Before(jobs, name) :: b in Names(jobs)
  {
    if name in Names(jobs) {
      var i :| 0 <= i < |jobs| && jobs[i].name == name;
      BeforeOfDistinct(jobs, i);
    } else {
      BeforeOfAbsent(jobs, name);
    }
  }

  /** The gate of a job whose predecessors are far enough is open; no gate misses a job. */
  lemma {:induction false} GateOpens(jobs: seq<Job>, prompt: bool, rank: string -> nat, s: Store, n: string, level: nat)
    requires PlainRun(jobs) && Ranked(jobs, rank) && s.Keys == Names(jobs)
    requires forall m <- s :: Opened(prompt, rank, m, s[m], level)
    ensures GateOf(Before(jobs, n), false, s) != Missing
    ensures 2 * rank(n) <= level ==> GateOf(Before(jobs, n), false, s) == Open
  {
    var before := Before(jobs, n);
    PlainBefore(jobs, n);
    GateMissingIff(before, false, s);
    GateOpenIff(before, false, s);
    if 2 * rank(n) <= level {
      forall b | b in before ensures b in s && Passed(s[b].status) {
        assert rank(b) < rank(n);
        assert Opened(prompt, rank, b, s[b], level);
      }
    }
  }

  lemma {:induction false} JobOpens(
    jobs: seq<Job>, prompt: bool, rank: string -> nat, found: Store, s: Store, job: Job, level: nat)
    requires PlainRun(jobs) && Ranked(jobs, rank) && Ready(jobs, prompt, rank, found, level)
    requires Midway(jobs, prompt, rank, found, s, {}, level) && job.name in s
    ensures var r := StepJob(jobs, job, s);
            r.error == NoError && Opened(prompt, rank, job.name, r.store[job.name], level + 1)
  {
    var n := job.name;
    GateOpens(jobs, prompt, rank, s, n, level);
    assert Opened(prompt, rank, n, s[n], level);
    assert Opened(prompt, rank, n, found[n], level);
    DeterminedStates(s[n]);
  }

  lemma {:induction false} StepOpens(
    jobs: seq<Job>, prompt: bool, rank: string -> nat, found: Store, s: Store, job: Job,
    handled: set<string>, level: nat)
    requires PlainRun(jobs) && Ranked(jobs, rank) && Ready(jobs, prompt, rank, found, level)
    requires Midway(jobs, prompt, rank, found, s, handled, level) && job.name in s
    ensures var r := StepJob(jobs, job, s);
            r.error == NoError && Midway(jobs, prompt, rank, found, r.store, handled + {job.name}, level)
  {
    JobOpens(jobs, prompt, rank, found, s, job, level);
    StepJobFacts(jobs, job, s);
    OthersUntouched(jobs, prompt, rank, found, s, StepJob(jobs, job, s).store, job.name, handled, level);
  }

  lemma {:induction false} OthersUntouched(
    jobs: seq<Job>, prompt: bool, rank: string -> nat, found: Store, s: Store, t: Store, name: string,
    handled: set<string>, level: nat)
    requires Midway(jobs, prompt, rank, found, s, handled, level) && name in s
    requires t.Keys == s.Keys && (forall n <- s :: n != name ==> t[n] == s[n]) && t[name].obs == s[name].obs
    requires Opened(prompt, rank, name, t[name], level + 1)
    ensures Midway(jobs, prompt, rank, found, t, handled + {name}, level)
  {
  }

  // ---------- a pass ----------

  lemma {:induction false} PassOpens(
    jobs: seq<Job>, prompt: bool, rank: string -> nat, found: Store, s: Store, i: nat, level: nat)
    requires PlainRun(jobs) && Ranked(jobs, rank) && Ready(jobs, prompt, rank, found, level) && i <= |jobs|
    requires Midway(jobs, prompt, rank, found, s, Names(jobs[..i]), level)
    ensures var r := Pass(jobs, i, |jobs|, s);
            r.error == NoError && Midway(jobs, prompt, rank, found, r.store, Names(jobs), level)
    decreases |jobs| - i
  {
    if i == |jobs| {
      assert jobs[..i] == jobs;
    } else {
      assert jobs[i].name in Names(jobs);
      NamesExtend(jobs, i);
      StepOpens(jobs, prompt, rank, found, s, jobs[i], Names(jobs[..i]), level);
      PassOpens(jobs, prompt, rank, found, StepJob(jobs, jobs[i], s).store, i + 1, level);
    }
  }

  lemma {:induction false} WholePassOpens(jobs: seq<Job>, prompt: bool, rank: string -> nat, found: Store, level: nat)
    requires PlainRun(jobs) && Ranked(jobs, rank) && Ready(jobs, prompt, rank, found, level)
    ensures var r := Pass(jobs, 0, |jobs|, found);
            r.error == NoError && Midway(jobs, prompt, rank, found, r.store, Names(jobs), level)
  {
    assert Names(jobs[..0]) == {};
    PassOpens(jobs, prompt, rank, found, found, 0, level);
  }

  lemma {:induction false} CreatingStep(jobs: seq<Job>, i: nat)
    requires Distinct(jobs) && i < |jobs|
    ensures StepJob(jobs, jobs[i], Created(jobs, i)) == PassResult(Created(jobs, i + 1), NoError)
  {
    assert jobs[i].name !in Names(jobs[..i]);
  }

  /** The creating pass only creates. */
  lemma {:induction false} CreatingPass(jobs: seq<Job>, i: nat)
    requires Distinct(jobs) && i <= |jobs|
    ensures Pass(jobs, i, |jobs|, Created(jobs, i)) == PassResult(Created(jobs, |jobs|), NoError)
    decreases |jobs| - i
  {
    if i < |jobs| {
      CreatingStep(jobs, i);
      CreatingPass(jobs, i + 1);
    }
  }

  lemma {:induction false} CreatedTriggers(jobs: seq<Job>, i: nat)
    requires PlainRun(jobs) && i <= |jobs|
    ensures forall n <- Created(jobs, i) ::
              Created(jobs, i)[n].trigger != TRIGGERED && (CreatedFree(jobs) ==> !Created(jobs, i)[n].suspend)
  {
    if i > 0 {
      CreatedTriggers(jobs, i - 1);
    }
  }

  /** The level reached by `n` passes, counting the creating one: a cluster that is not prompt lags one behind. */
  function LevelAfter(prompt: bool, n: nat): nat
    requires n > 0
  {
    if prompt then n else n - 1
  }

  lemma {:induction false} ReplyReady(
    jobs: seq<Job>, prompt: bool, rank: string -> nat, found: Store, s: Store, t: Store, level: nat)
    requires Midway(jobs, prompt, rank, found, s, Names(jobs), level) && Finishes(prompt, s, t)
    ensures Ready(jobs, prompt, rank, t, level + 1)
  {
  }

  lemma {:induction false} RoundReady(
    jobs: seq<Job>, prompt: bool, rank: string -> nat, found: Store, t: Store, level: nat)
    requires PlainRun(jobs) && Ranked(jobs, rank) && Ready(jobs, prompt, rank, found, level)
    requires Finishes(prompt, Pass(jobs, 0, |jobs|, found).store, t)
    ensures Ready(jobs, prompt, rank, t, level + 1)
  {
    WholePassOpens(jobs, prompt, rank, found, level);
    ReplyReady(jobs, prompt, rank, found, Pass(jobs, 0, |jobs|, found).store, t, level);
  }

  /** From a ready store on, every pass gains a level. */
  lemma {:induction false} ReadyOn(
    jobs: seq<Job>, prompt: bool, rank: string -> nat, found: seq<Store>, first: nat, level: nat, n: nat)
    requires PlainRun(jobs) && Ranked(jobs, rank) && RoundsOn(jobs, prompt, found) && first <= n < |found|
    requires Ready(jobs, prompt, rank, found[first], level)
    ensures Ready(jobs, prompt, rank, found[n], level + (n - first))
    decreases n
  {
    if first < n {
      ReadyOn(jobs, prompt, rank, found, first, level, n - 1);
      assert Round(jobs, prompt, found, n);
      RoundReady(jobs, prompt, rank, found[n - 1], found[n], level + (n - 1 - first));
    }
  }

  lemma {:induction false} CreatedReady(jobs: seq<Job>, prompt: bool, rank: string -> nat, t: Store)
    requires PlainRun(jobs) && (prompt ==> CreatedFree(jobs)) && Finishes(prompt, Created(jobs, |jobs|), t)
    ensures Ready(jobs, prompt, rank, t, LevelAfter(prompt, 1))
  {
    assert jobs[..|jobs|] == jobs;
    CreatedTriggers(jobs, |jobs|);
  }

  lemma {:induction false} FirstRoundReady(jobs: seq<Job>, prompt: bool, rank: string -> nat, t: Store)
    requires PlainRun(jobs) && (prompt ==> CreatedFree(jobs))
    requires Finishes(prompt, Pass(jobs, 0, |jobs|, map[]).store, t)
    ensures Ready(jobs, prompt, rank, t, LevelAfter(prompt, 1))
  {
    CreatingPass(jobs, 0);
    CreatedReady(jobs, prompt, rank, t);
  }

  lemma {:induction false} ReadyAfter(jobs: seq<Job>, prompt: bool, rank: string -> nat, found: seq<Store>, n: nat)
    requires PlainRun(jobs) && (prompt ==> CreatedFree(jobs)) && Ranked(jobs, rank)
    requires Rounds(jobs, prompt, found) && 0 < n < |found|
    ensures Ready(jobs, prompt, rank, found[n], LevelAfter(prompt, n))
  {
    assert Round(jobs, prompt, found, 1);
    FirstRoundReady(jobs, prompt, rank, found[1]);
    ReadyOn(jobs, prompt, rank, found, 1, LevelAfter(prompt, 1), n);
  }

  // ---------- the theorem ----------

  /**
    Progress, for any order of the job list. On a cluster that finishes the jobs
    the operator has let go, every job is completed, and stays completed, after
    the pass of number 2(depth+1)+1, counting the creating pass. It takes one
    pass less if jobs are created unsuspended and may finish before their first
    update pass.
   */
  lemma {:induction false} EveryJobCompletes(jobs: seq<Job>, prompt: bool, depth: nat, found: seq<Store>, n: nat)
    requires PlainRun(jobs) && ChainsWithin(jobs, depth)
    requires Rounds(jobs, prompt, found) && (prompt ==> CreatedFree(jobs))
    requires 2 * (depth + 1) + (if prompt then 0 else 1) <= n <= |found|
    ensures AllCompleted(jobs, Pass(jobs, 0, |jobs|, found[n - 1]).store)
    ensures n < |found| ==> AllCompleted(jobs, found[n])
  {
    var heights := Heights(jobs, depth);
    HeightsRank(jobs, depth);
    ReadyAfter(jobs, prompt, heights, found, n - 1);
    CompletedAtLevel(jobs, prompt, heights, depth, found, n, LevelAfter(prompt, n - 1));
  }

  lemma {:induction false} CompletedStays(jobs: seq<Job>, prompt: bool, s: Store, t: Store)
    requires AllCompleted(jobs, s) && Finishes(prompt, s, t)
    ensures AllCompleted(jobs, t)
  {
  }

  lemma {:induction false} CompletedAtLevel(
    jobs: seq<Job>, prompt: bool, rank: string -> nat, depth: nat, found: seq<Store>, n: nat, level: nat)
    requires PlainRun(jobs) && Ranked(jobs, rank) && RoundsOn(jobs, prompt, found) && 0 < n <= |found|
    requires Ready(jobs, prompt, rank, found[n - 1], level)
    requires (forall m :: rank(m) <= depth) && 2 * depth + 2 <= level + 1
    ensures AllCompleted(jobs, Pass(jobs, 0, |jobs|, found[n - 1]).store)
    ensures n < |found| ==> AllCompleted(jobs, found[n])
  {
    var s := Pass(jobs, 0, |jobs|, found[n - 1]).store;
    WholePassOpens(jobs, prompt, rank, found[n - 1], level);
    AllOpened(jobs, prompt, rank, depth, found[n - 1], s, level);
    if n < |found| {
      assert Round(jobs, prompt, found, n);
      CompletedStays(jobs, prompt, s, found[n]);
    }
  }

  /**
    Progress from wherever a run stands: if all jobs exist, none is annotated as
    triggered, and the cluster finishes the jobs let go, 2(depth+1) passes complete
    them all.
   */
  lemma {:induction false} CompletesFromAnyStore(
    jobs: seq<Job>, prompt: bool, depth: nat, found: seq<Store>, first: nat, n: nat)
    requires PlainRun(jobs) && ChainsWithin(jobs, depth) && RoundsOn(jobs, prompt, found)
    requires first < |found| && found[first].Keys == Names(jobs)
    requires forall m <- found[first] :: found[first][m].trigger != TRIGGERED
    requires first + 2 * (depth + 1) <= n <= |found|
    ensures AllCompleted(jobs, Pass(jobs, 0, |jobs|, found[n - 1]).store)
    ensures n < |found| ==> AllCompleted(jobs, found[n])
  {
    var heights := Heights(jobs, depth);
    HeightsRank(jobs, depth);
    ReadyOn(jobs, prompt, heights, found, first, 0, n - 1);
    CompletedAtLevel(jobs, prompt, heights, depth, found, n, n - 1 - first);
  }

  lemma {:induction false} AllOpened(
    jobs: seq<Job>, prompt: bool, rank: string -> nat, depth: nat, found: Store, s: Store, level: nat)
    requires Midway(jobs, prompt, rank, found, s, Names(jobs), level)
    requires (forall n :: rank(n) <= depth) && 2 * depth + 2 <= level + 1
    ensures AllCompleted(jobs, s)
  {
    forall m | m in s ensures !s[m].suspend && s[m].status == Completed && Finished(s[m].obs) {
      assert Opened(prompt, rank, m, s[m], level + 1);
    }
  }

  // ---------- rounds are runs ----------

  /** A whole pass, step by step. */
  lemma {:induction false} PassIsRun(jobs: seq<Job>, s: Store, i: nat, mode: Mode)
    requires i <= |jobs|
    ensures Leads(State(jobs, s, At(jobs, i)), State(jobs, Pass(jobs, i, |jobs|, s).store, Idle), mode)
    decreases |jobs| - i
  {
    var st, end := State(jobs, s, At(jobs, i)), State(jobs, Pass(jobs, i, |jobs|, s).store, Idle);
    LeadsOneStep(st, Advance, mode);
    if i < |jobs| {
      var r := StepJob(jobs, jobs[i], s);
      StepJobFacts(jobs, jobs[i], s);
      if r.error == NoError {
        PassIsRun(jobs, r.store, i + 1, mode);
        LeadsJobThen(jobs, i, s, end, mode);
      }
    }
  }

  /** What the cluster made of the store after pass `i` is something it may report. */
  ghost predicate Permitted(jobs: seq<Job>, found: seq<Store>, i: nat, mode: Mode)
    requires 0 < i < |found|
  {
    var s := Pass(jobs, 0, |jobs|, found[i - 1]).store;
    s.Keys == found[i].Keys && forall n <- s :: MayObserve(n, s[n], found[i][n].obs, mode)
  }

  lemma {:induction false} ReplyIsRun(jobs: seq<Job>, s: Store, t: Store, mode: Mode)
    returns (obs: map<string, Observed>)
    requires s.Keys == t.Keys && forall n <- s :: t[n] == s[n].(obs := t[n].obs) && MayObserve(n, s[n], t[n].obs, mode)
    ensures Enabled(State(jobs, s, Idle), Cluster(obs), mode)
    ensures Next(State(jobs, s, Idle), Cluster(obs)) == State(jobs, t, Idle)
  {
    obs := map n | n in s :: t[n].obs;
    assert Next(State(jobs, s, Idle), Cluster(obs)).store == t;
  }

  lemma {:induction false} RoundIsRun(jobs: seq<Job>, s: Store, t: Store, mode: Mode)
    requires var after := Pass(jobs, 0, |jobs|, s).store;
             && after.Keys == t.Keys
             && forall n <- after :: t[n] == after[n].(obs := t[n].obs) && MayObserve(n, after[n], t[n].obs, mode)
    ensures Leads(State(jobs, s, Idle), State(jobs, t, Idle), mode)
  {
    var st, after := State(jobs, s, Idle), Pass(jobs, 0, |jobs|, s).store;
    PassIsRun(jobs, s, 0, mode);
    LeadsStepThen(st, Advance, State(jobs, after, Idle), mode);
    var obs := ReplyIsRun(jobs, after, t, mode);
    LeadsThenStep(st, State(jobs, after, Idle), Cluster(obs), mode);
  }

  /** Passes with a permitted reply of the cluster after each are a run, so whatever holds of all runs holds of them. */
  lemma {:induction false} RoundsAreRuns(jobs: seq<Job>, prompt: bool, found: seq<Store>, n: nat, mode: Mode)
    requires RoundsOn(jobs, prompt, found) && n < |found|
    requires forall i :: 0 < i <= n ==> Permitted(jobs, found, i, mode)
    ensures Leads(State(jobs, found[0], Idle), State(jobs, found[n], Idle), mode)
    decreases n
  {
    var st := State(jobs, found[0], Idle);
    if n == 0 {
      LeadsNowhere(st, mode);
    } else {
      RoundsAreRuns(jobs, prompt, found, n - 1, mode);
      assert Permitted(jobs, found, n, mode);
      assert Round(jobs, prompt, found, n);
      RoundIsRun(jobs, found[n - 1], found[n], mode);
      LeadsOn(st, State(jobs, found[n - 1], Idle), State(jobs, found[n], Idle), mode);
    }
  }

  // ---------- such clusters exist ----------

  /** A reply that finishes exactly the jobs it has to. */
  function JustFinish(s: Store): Store {
    map n | n in s ::
      if !s[n].suspend && s[n].status != UNSET && !(s[n].obs.active == 0 && s[n].obs.succeeded > 0)
      then s[n].(obs := Observed(0, s[n].obs.succeeded + 1, s[n].obs.failed, false, PhaseOther(""), ""))
      else s[n]
  }

  /** Nothing has started before its first update pass, and pods agree with their jobs. */
  ghost predicate Orderly(s: Store) {
    forall n <- s :: PodAgrees(s[n].obs) && (s[n].status == UNSET ==> !Started(s[n]))
  }

  lemma {:induction false} StepOrderly(jobs: seq<Job>, job: Job, s: Store)
    requires Orderly(s)
    ensures Orderly(StepJob(jobs, job, s).store)
  {
    if job.name in s {
      DeterminedStates(s[job.name]);
    }
  }

  lemma {:induction false} PassOrderly(jobs: seq<Job>, i: nat, s: Store)
    requires i <= |jobs| && Orderly(s)
    ensures Orderly(Pass(jobs, i, |jobs|, s).store)
    decreases |jobs| - i
  {
    if i < |jobs| {
      StepOrderly(jobs, jobs[i], s);
      PassOrderly(jobs, i + 1, StepJob(jobs, jobs[i], s).store);
    }
  }

  lemma {:induction false} JustFinishPermitted(s: Store, n: string)
    requires Orderly(s) && n in s
    ensures MayObserve(n, s[n], JustFinish(s)[n].obs, Mode(false, {}))
  {
  }

  lemma {:induction false} JustFinishOrderly(s: Store)
    requires Orderly(s)
    ensures Orderly(JustFinish(s)) && Finishes(false, s, JustFinish(s))
  {
  }

  lemma {:induction false} RoundsExtend(jobs: seq<Job>, front: seq<Store>, next: Store, mode: Mode)
    requires RoundsOn(jobs, false, front)
    requires forall i :: 0 < i < |front| ==> Permitted(jobs, front, i, mode)
    requires var s := Pass(jobs, 0, |jobs|, front[|front| - 1]).store;
             && Finishes(false, s, next)
             && forall n <- s :: MayObserve(n, s[n], next[n].obs, mode)
    ensures RoundsOn(jobs, false, front + [next])
    ensures forall i :: 0 < i <= |front| ==> Permitted(jobs, front + [next], i, mode)
  {
    var found := front + [next];
    forall i | 0 < i <= |front|
      ensures Permitted(jobs, found, i, mode)
      ensures Round(jobs, false, found, i)
    {
      assert found[i - 1] == front[i - 1];
      if i < |front| {
        assert found[i] == front[i] && Permitted(jobs, front, i, mode) && Round(jobs, false, front, i);
      }
    }
  }

  /** From any orderly store there are rounds of any number in which no job starts before its first update pass. */
  lemma {:induction false} OrderlyRounds(jobs: seq<Job>, s: Store, n: nat) returns (found: seq<Store>)
    requires Orderly(s)
    ensures |found| == n + 1 && found[0] == s && RoundsOn(jobs, false, found) && Orderly(found[n])
    ensures forall i :: 0 < i <= n ==> Permitted(jobs, found, i, Mode(false, {}))
  {
    if n == 0 {
      found := [s];
    } else {
      var front := OrderlyRounds(jobs, s, n - 1);
      var t := Pass(jobs, 0, |jobs|, front[n - 1]).store;
      PassOrderly(jobs, 0, front[n - 1]);
      forall m | m in t ensures MayObserve(m, t[m], JustFinish(t)[m].obs, Mode(false, {})) {
        JustFinishPermitted(t, m);
      }
      JustFinishOrderly(t);
      RoundsExtend(jobs, front, JustFinish(t), Mode(false, {}));
      found := front + [JustFinish(t)];
    }
  }

  /** So there is a run, without edits and without early starts, that completes every job. */
  lemma {:induction false} SomeRunCompletes(jobs: seq<Job>) returns (acts: seq<Action>)
    requires PlainRun(jobs) && Acyclic(jobs)
    ensures Legal(Initial(jobs), acts, Mode(false, {})) && EditFree(acts)
    ensures AllCompleted(jobs, After(Initial(jobs), acts).store)
  {
    AcyclicIff(jobs);
    var n := 2 * (|jobs| + 1) + 1;
    var found := OrderlyRounds(jobs, map[], n);
    EveryJobCompletes(jobs, false, |jobs|, found, n);
    var mode := Mode(false, {});
    RoundsAreRuns(jobs, false, found, n, mode);
    acts :| Legal(Initial(jobs), acts, mode) && EditFree(acts)
      && After(Initial(jobs), acts) == State(jobs, found[n], Idle);
  }

  // ---------- the status update ----------

  lemma {:induction false} AllCompletedTally(states: seq<JobState>)
    requires forall s <- states :: s == Completed
    ensures CountersOf(states) == Counters(0, 0, 0, 0, 0, |states|, 0, 0)
    ensures states != [] ==> Highest(states) == Completed
  {
    if states != [] {
      var front, last := states[..|states| - 1], states[|states| - 1];
      assert states == front + [last];
      assert last in states && forall s <- front :: s in states;
      AllCompletedTally(front);
      assert multiset(states) == multiset(front) + multiset{last};
    }
  }

  /** On a completed store any listing tallies to a completed run with all its jobs, and the completion test holds. */
  lemma {:induction false} CompletedRunIsReported(jobs: seq<Job>, s: Store, items: seq<Item>)
    requires Distinct(jobs) && jobs != [] && AllCompleted(jobs, s) && ListingOf(s, items)
    ensures var states := States(EntriesOf(items));
            && Highest(states) == Completed
            && CountersOf(states) == Counters(0, 0, 0, 0, 0, |jobs|, 0, 0)
            && RunEnded(CountersOf(states), jobs)
  {
    AllCompletedTally(States(EntriesOf(items)));
    NamesAtMost(jobs);
    assert |s.Keys| == |s|;
  }
}
