/**
  Job lists in which some job waits for a later one. A crash during creation
  can then leave a job whose predecessor does not exist. Exactly for such lists
  a pass can end with the missing-predecessor error, and when the missing job
  is the first its job waits for, no later job is ever created.
 */
module WrongOrder {
  import opened JobStates
  import opened Gating
  import opened GatingRuns
  import opened Creation

  // ---------- no later job is ever created ----------

  /**
    Job `i` exists and no later one does, the job it waits for first is among the
    latter, and no pass is beyond `i`.
   */
  ghost predicate StuckAt(st: State, i: nat) {
    && i < |st.jobs|
    && st.jobs[i].name in st.store
    && st.store.Keys <= Names(st.jobs[..i + 1])
    && Before(st.jobs, st.jobs[i].name) != [] && Before(st.jobs, st.jobs[i].name)[0] !in Names(st.jobs[..i + 1])
    && (st.pass.At? ==> SameShape(st.pass.snapshot, st.jobs) && st.pass.pos <= i)
  }

  /** A pass does not get beyond job `i`. */
  lemma {:induction false} StopsAtStuck(st: State, i: nat)
    requires StuckAt(st, i) && st.pass.At? && st.pass.pos == i
    ensures StepJob(st.pass.snapshot, st.pass.snapshot[i], st.store).error == MissingPredecessor
  {
    SameShapeBefore(st.pass.snapshot, st.jobs, st.jobs[i].name);
  }

  lemma {:induction false} AdvanceKeepsStuck(st: State, i: nat)
    requires StuckAt(st, i)
    ensures StuckAt(Next(st, Advance), i)
  {
    if st.pass.At? {
      var snap, pos := st.pass.snapshot, st.pass.pos;
      StepJobFacts(snap, snap[pos], st.store);
      if pos == i {
        StopsAtStuck(st, i);
      } else {
        NamesExtend(st.jobs, pos);
        NamesMonotone(st.jobs, pos + 1, i + 1);
      }
    }
  }

  lemma {:induction false} StepKeepsStuck(st: State, a: Action, mode: Mode, i: nat)
    requires StuckAt(st, i) && Enabled(st, a, mode)
    ensures StuckAt(Next(st, a), i) && Names(Next(st, a).jobs[..i + 1]) == Names(st.jobs[..i + 1])
  {
    if a.Edit? {
      SameShapeBefore(st.jobs, a.jobs, st.jobs[i].name);
      SameShapePrefix(st.jobs, a.jobs, i + 1);
    }
    if a.Advance? {
      AdvanceKeepsStuck(st, i);
    }
  }

  /** From such a state no job after job `i` is created in any later state of any run: every pass stops at job `i`. */
  lemma {:induction false} StuckForever(st: State, acts: seq<Action>, mode: Mode, i: nat)
    requires StuckAt(st, i) && Legal(st, acts, mode)
    ensures After(st, acts).store.Keys <= Names(st.jobs[..i + 1])
    decreases |acts|
  {
    if acts != [] {
      StepKeepsStuck(st, acts[0], mode, i);
      StuckForever(Next(st, acts[0]), acts[1..], mode, i);
    }
  }

  /** Creating up to job `i`, then a crash: enough whenever that job waits first for one not created by then. */
  lemma {:induction false} WrongOrderGetsStuck(jobs: seq<Job>, i: nat, mode: Mode)
    requires Distinct(jobs) && i < |jobs| && jobs[i].runBefore != []
    requires jobs[i].runBefore[0] !in Names(jobs[..i + 1])
    ensures var acts := Repeat(Advance, i + 2) + [Abort];
            Legal(Initial(jobs), acts, mode) && StuckAt(After(Initial(jobs), acts), i)
  {
    CreationRun(jobs, i + 1, mode);
    AfterAppend(Initial(jobs), Repeat(Advance, i + 2), Abort, mode);
    BeforeOfDistinct(jobs, i);
    NamesExtend(jobs, i);
  }

  // ---------- the error is reachable exactly for such lists ----------

  const DONE := Observed(0, 1, 0, false, PhaseOther(""), "")

  /** The first `m` jobs exist, all finished and none triggered. */
  ghost predicate AllDone(jobs: seq<Job>, m: nat, s: Store) {
    && m <= |jobs| && s.Keys == Names(jobs[..m])
    && forall n <- s :: s[n].obs == DONE && s[n].trigger != TRIGGERED
  }

  /** Job `q` is unsuspended, or its next update pass unsuspends it. */
  ghost predicate Loose(jobs: seq<Job>, q: nat, s: Store)
    requires q < |jobs| && jobs[q].name in s
  {
    !s[jobs[q].name].suspend || s[jobs[q].name].status == Completed
  }

  ghost predicate LooseBelow(jobs: seq<Job>, j: nat, s: Store) {
    j <= |jobs| && forall q :: 0 <= q < j ==> jobs[q].name in s && Loose(jobs, q, s)
  }

  ghost predicate FreeBelow(jobs: seq<Job>, j: nat, s: Store) {
    j <= |jobs| && forall q :: 0 <= q < j ==> jobs[q].name in s && !s[jobs[q].name].suspend
  }

  ghost predicate CompletedBelow(jobs: seq<Job>, j: nat, s: Store) {
    j <= |jobs| && forall q :: 0 <= q < j ==> jobs[q].name in s && s[jobs[q].name].status == Completed
  }

  /** From job `j` on nothing differs. */
  ghost predicate SameFrom(jobs: seq<Job>, j: nat, s: Store, t: Store) {
    s.Keys == t.Keys && forall q :: j <= q < |jobs| && jobs[q].name in s ==> t[jobs[q].name] == s[jobs[q].name]
  }

  /** The jobs below `j` name no later job. */
  ghost predicate BackwardBelow(jobs: seq<Job>, j: nat) {
    j <= |jobs| && forall p :: 0 <= p < j ==> forall b <- jobs[p].runBefore :: b in Names(jobs[..p + 1])
  }

  /** The entries of job `i` before entry `k` name jobs up to `i`, entry `k` does not. */
  ghost predicate FirstForward(jobs: seq<Job>, i: nat, k: nat) {
    && i < |jobs| && k < |jobs[i].runBefore|
    && jobs[i].runBefore[k] !in Names(jobs[..i + 1])
    && (forall h :: 0 <= h < k ==> jobs[i].runBefore[h] in Names(jobs[..i + 1]))
    && BackwardBelow(jobs, i)
  }

  /** A name up to `q` is that of `q` or of a completed job. */
  lemma {:induction false} EarlierPassed(jobs: seq<Job>, q: nat, s: Store, b: string)
    requires q < |jobs| && CompletedBelow(jobs, q, s) && b in Names(jobs[..q + 1])
    ensures b == jobs[q].name || (b in s && Passed(s[b].status))
  {
    NamesExtend(jobs, q);
    if b in Names(jobs[..q]) {
      var p :| 0 <= p < q && jobs[..q][p].name == b;
      assert jobs[p].name == b;
    }
  }

  /**
    An update pass annotates an unsuspended finished job completed. It suspends it
    only if the job waits for itself, and then unsuspends it the next time.
   */
  lemma {:induction false} LooseStep(jobs: seq<Job>, m: nat, q: nat, s: Store)
    requires Distinct(jobs) && AllDone(jobs, m, s) && q < m && CompletedBelow(jobs, q, s)
    requires jobs[q].name in s && Loose(jobs, q, s) && forall b <- jobs[q].runBefore :: b in Names(jobs[..q + 1])
    ensures var r := StepJob(jobs, jobs[q], s);
            && r.error == NoError && AllDone(jobs, m, r.store)
            && Loose(jobs, q, r.store)
            && (!s[jobs[q].name].suspend ==> r.store[jobs[q].name].status == Completed)
            && (s[jobs[q].name].suspend ==> !r.store[jobs[q].name].suspend)
            && (forall n <- s :: n != jobs[q].name ==> r.store[n] == s[n])
  {
    var before := jobs[q].runBefore;
    BeforeOfDistinct(jobs, q);
    forall b | b in before ensures b in s && (b == jobs[q].name || Passed(s[b].status)) {
      EarlierPassed(jobs, q, s, b);
    }
    GateMissingIff(before, false, s);
    GateOpenIff(before, false, s);
    DeterminedStates(s[jobs[q].name]);
  }

  lemma {:induction false} OthersStay(jobs: seq<Job>, q: nat, j: nat, s: Store, t: Store)
    requires Distinct(jobs) && q < j <= |jobs| && s.Keys == t.Keys
    requires forall n <- s :: n != jobs[q].name ==> t[n] == s[n]
    ensures SameFrom(jobs, j, s, t)
    ensures CompletedBelow(jobs, q, s) ==> CompletedBelow(jobs, q, t)
    ensures FreeBelow(jobs, q, s) ==> FreeBelow(jobs, q, t)
  {
  }

  ghost predicate FreeBetween(jobs: seq<Job>, q: nat, j: nat, s: Store) {
    j <= |jobs| && forall p :: q <= p < j ==> jobs[p].name in s && !s[jobs[p].name].suspend
  }

  lemma {:induction false} ThroughStep(jobs: seq<Job>, m: nat, q: nat, j: nat, s: Store)
    requires Distinct(jobs) && AllDone(jobs, m, s) && q < j <= m
    requires CompletedBelow(jobs, q, s) && FreeBetween(jobs, q, j, s) && BackwardBelow(jobs, j)
    ensures var r := StepJob(jobs, jobs[q], s);
            && r.error == NoError && AllDone(jobs, m, r.store) && CompletedBelow(jobs, q + 1, r.store)
            && FreeBetween(jobs, q + 1, j, r.store) && SameFrom(jobs, q + 1, s, r.store)
  {
    LooseStep(jobs, m, q, s);
    OthersStay(jobs, q, q + 1, s, StepJob(jobs, jobs[q], s).store);
  }

  lemma {:induction false} SameFromOn(jobs: seq<Job>, q: nat, j: nat, s: Store, mid: Store, t: Store)
    requires q <= j && SameFrom(jobs, q, s, mid) && SameFrom(jobs, j, mid, t)
    ensures SameFrom(jobs, j, s, t)
  {
  }

  /** A pass over the jobs from `q` to `j`, all unsuspended, annotates them completed. */
  lemma {:induction false} PassThrough(jobs: seq<Job>, m: nat, q: nat, j: nat, s: Store, mode: Mode)
    returns (t: Store)
    requires Distinct(jobs) && AllDone(jobs, m, s) && q <= j <= m
    requires CompletedBelow(jobs, q, s) && FreeBetween(jobs, q, j, s) && BackwardBelow(jobs, j)
    ensures Leads(State(jobs, s, At(jobs, q)), State(jobs, t, At(jobs, j)), mode)
    ensures Pass(jobs, q, |jobs|, s) == Pass(jobs, j, |jobs|, t)
    ensures AllDone(jobs, m, t) && CompletedBelow(jobs, j, t) && SameFrom(jobs, j, s, t)
    decreases j - q
  {
    if q == j {
      t := s;
      LeadsNowhere(State(jobs, s, At(jobs, q)), mode);
    } else {
      ThroughStep(jobs, m, q, j, s);
      var next := StepJob(jobs, jobs[q], s).store;
      t := PassThrough(jobs, m, q + 1, j, next, mode);
      SameFromOn(jobs, q + 1, j, s, next, t);
      LeadsJobThen(jobs, q, s, State(jobs, t, At(jobs, j)), mode);
    }
  }

  /** A pass cut off after job `j`, with all jobs below it unsuspended. */
  lemma {:induction false} PassUpTo(jobs: seq<Job>, m: nat, j: nat, s: Store, mode: Mode) returns (t: Store)
    requires Distinct(jobs) && AllDone(jobs, m, s) && j < m && FreeBelow(jobs, j, s) && BackwardBelow(jobs, j)
    ensures AllDone(jobs, m, t) && CompletedBelow(jobs, j, t) && SameFrom(jobs, j, s, t)
    ensures Pass(jobs, 0, |jobs|, s) == Pass(jobs, j, |jobs|, t)
    ensures Leads(State(jobs, s, Idle), State(jobs, StepJob(jobs, jobs[j], t).store, Idle), mode)
  {
    t := PassThrough(jobs, m, 0, j, s, mode);
    LeadsStepThen(State(jobs, s, Idle), Advance, State(jobs, t, At(jobs, j)), mode);
    CutOffAfter(State(jobs, s, Idle), jobs, j, t, mode);
  }

  lemma {:induction false} CutOffAfter(st: State, jobs: seq<Job>, j: nat, t: Store, mode: Mode)
    requires j < |jobs| && Leads(st, State(jobs, t, At(jobs, j)), mode)
    ensures Leads(st, State(jobs, StepJob(jobs, jobs[j], t).store, Idle), mode)
  {
    var mid := State(jobs, t, At(jobs, j));
    LeadsThenStep(st, mid, Advance, mode);
    LeadsThenStep(st, Next(mid, Advance), Abort, mode);
  }

  lemma {:induction false} JobExists(jobs: seq<Job>, m: nat, s: Store, q: nat)
    requires AllDone(jobs, m, s) && q < m
    ensures jobs[q].name in s
  {
    assert jobs[..m][q].name == jobs[q].name;
  }

  /** A suspended loose job is unsuspended by one cut-off pass, at the price of what was below it. */
  lemma {:induction false} LetOneGo(jobs: seq<Job>, m: nat, q: nat, s: Store, mode: Mode) returns (t: Store)
    requires Distinct(jobs) && AllDone(jobs, m, s) && q < m && FreeBelow(jobs, q, s) && BackwardBelow(jobs, q + 1)
    requires jobs[q].name in s && s[jobs[q].name].suspend && Loose(jobs, q, s)
    ensures Leads(State(jobs, s, Idle), State(jobs, t, Idle), mode)
    ensures AllDone(jobs, m, t) && LooseBelow(jobs, q, t) && SameFrom(jobs, q + 1, s, t)
    ensures jobs[q].name in t && !t[jobs[q].name].suspend
  {
    var mid := PassUpTo(jobs, m, q, s, mode);
    LooseStep(jobs, m, q, mid);
    t := StepJob(jobs, jobs[q], mid).store;
    OthersStay(jobs, q, q + 1, mid, t);
  }

  /** All loose jobs below `j` can be unsuspended together, by passes cut off at the right places. */
  lemma {:induction false} LetGo(jobs: seq<Job>, m: nat, j: nat, s: Store, mode: Mode) returns (t: Store)
    requires Distinct(jobs) && AllDone(jobs, m, s) && j <= m && LooseBelow(jobs, j, s) && BackwardBelow(jobs, j)
    ensures Leads(State(jobs, s, Idle), State(jobs, t, Idle), mode)
    ensures AllDone(jobs, m, t) && FreeBelow(jobs, j, t) && SameFrom(jobs, j, s, t)
    decreases j, 1
  {
    if j == 0 {
      t := s;
      LeadsNowhere(State(jobs, s, Idle), mode);
    } else {
      t := LetGo(jobs, m, j - 1, s, mode);
      assert t[jobs[j - 1].name] == s[jobs[j - 1].name];
      if t[jobs[j - 1].name].suspend {
        var mid := t;
        t := LetLastGo(jobs, m, j, mid, mode);
        LeadsOn(State(jobs, s, Idle), State(jobs, mid, Idle), State(jobs, t, Idle), mode);
      }
    }
  }

  lemma {:induction false} LastAndRest(jobs: seq<Job>, j: nat, s: Store, mid: Store, t: Store)
    requires 0 < j <= |jobs| && SameFrom(jobs, j, s, mid) && SameFrom(jobs, j - 1, mid, t)
    requires jobs[j - 1].name in mid && !mid[jobs[j - 1].name].suspend && FreeBelow(jobs, j - 1, t)
    ensures FreeBelow(jobs, j, t) && SameFrom(jobs, j, s, t)
  {
    assert t[jobs[j - 1].name] == mid[jobs[j - 1].name];
  }

  /** The last of them first, then those below it once more. */
  lemma {:induction false} LetLastGo(jobs: seq<Job>, m: nat, j: nat, s: Store, mode: Mode) returns (t: Store)
    requires Distinct(jobs) && AllDone(jobs, m, s) && 0 < j <= m && FreeBelow(jobs, j - 1, s) && BackwardBelow(jobs, j)
    requires jobs[j - 1].name in s && s[jobs[j - 1].name].suspend && Loose(jobs, j - 1, s)
    ensures Leads(State(jobs, s, Idle), State(jobs, t, Idle), mode)
    ensures AllDone(jobs, m, t) && FreeBelow(jobs, j, t) && SameFrom(jobs, j, s, t)
    decreases j, 0
  {
    var mid := LetOneGo(jobs, m, j - 1, s, mode);
    t := LetGo(jobs, m, j - 1, mid, mode);
    LastAndRest(jobs, j, s, mid, t);
    LeadsOn(State(jobs, s, Idle), State(jobs, mid, Idle), State(jobs, t, Idle), mode);
  }

  // ---------- reaching the error ----------

  /** With everything before it completed, the scan of job `i` gets as far as the missing job. */
  lemma {:induction false} ScanReachesMissing(jobs: seq<Job>, i: nat, k: nat, s: Store)
    requires Distinct(jobs) && FirstForward(jobs, i, k) && AllDone(jobs, i + 1, s) && CompletedBelow(jobs, i, s)
    requires jobs[i].name in s
    requires s[jobs[i].name].status == Completed || jobs[i].name !in jobs[i].runBefore[..k]
    ensures StepJob(jobs, jobs[i], s).error == MissingPredecessor
  {
    var before := jobs[i].runBefore;
    BeforeOfDistinct(jobs, i);
    forall h | 0 <= h < k ensures before[h] in s && Passed(s[before[h]].status) {
      EarlierPassed(jobs, i, s, before[h]);
      assert before[..k][h] == before[h];
    }
    assert AbsentFirst(before, false, s, k);
    GateMissingIff(before, false, s);
  }

  /** A job whose scan meets itself first is annotated completed and suspended. */
  lemma {:induction false} ScanMeetsItself(jobs: seq<Job>, i: nat, k: nat, s: Store)
    requires Distinct(jobs) && FirstForward(jobs, i, k) && AllDone(jobs, i + 1, s) && CompletedBelow(jobs, i, s)
    requires jobs[i].name in s && s[jobs[i].name].status == UNSET && !s[jobs[i].name].suspend
    requires jobs[i].name in jobs[i].runBefore[..k]
    ensures var r := StepJob(jobs, jobs[i], s);
            && r.error == NoError && AllDone(jobs, i + 1, r.store) && r.store[jobs[i].name].status == Completed
            && (forall n <- s :: n != jobs[i].name ==> r.store[n] == s[n])
  {
    var before := jobs[i].runBefore;
    BeforeOfDistinct(jobs, i);
    GateMissingIff(before, false, s);
    var h :| 0 <= h < k && before[..k][h] == jobs[i].name;
    forall x ensures !AbsentFirst(before, false, s, x) {
      if 0 <= x < k {
        EarlierPassed(jobs, i, s, before[x]);
      } else {
        assert !Passed(s[before[h]].status);
      }
    }
  }

  /** The state after jobs 0 to i were created, a crash, and the end of all of them. */
  ghost function DoneStore(jobs: seq<Job>, m: nat): Store
    requires m <= |jobs|
  {
    map n | n in Created(jobs, m) :: Created(jobs, m)[n].(obs := DONE)
  }

  lemma {:induction false} AllFinish(jobs: seq<Job>, m: nat, mode: Mode) returns (obs: map<string, Observed>)
    requires m <= |jobs| && CreatedFree(jobs) && mode == Mode(true, {})
    ensures Enabled(State(jobs, Created(jobs, m), Idle), Cluster(obs), mode)
    ensures Next(State(jobs, Created(jobs, m), Idle), Cluster(obs)) == State(jobs, DoneStore(jobs, m), Idle)
  {
    var created := Created(jobs, m);
    obs := map n | n in created :: DONE;
    forall n | n in created ensures MayObserve(n, created[n], DONE, mode) {
      CreatedPlain(jobs, m, n);
    }
    assert Next(State(jobs, created, Idle), Cluster(obs)).store == DoneStore(jobs, m);
  }

  lemma {:induction false} DoneStoreFacts(jobs: seq<Job>, m: nat)
    requires m <= |jobs| && CreatedFree(jobs)
    ensures AllDone(jobs, m, DoneStore(jobs, m)) && FreeBelow(jobs, m, DoneStore(jobs, m))
    ensures forall n <- DoneStore(jobs, m) :: DoneStore(jobs, m)[n].status == UNSET
  {
    var s := DoneStore(jobs, m);
    forall n | n in s ensures s[n].obs == DONE && s[n].trigger != TRIGGERED && !s[n].suspend && s[n].status == UNSET {
      CreatedPlain(jobs, m, n);
    }
    forall q | 0 <= q < m ensures jobs[q].name in s {
      assert jobs[..m][q].name == jobs[q].name;
    }
  }

  lemma {:induction false} CreateAndFinish(jobs: seq<Job>, m: nat, mode: Mode)
    requires m <= |jobs| && Distinct(jobs) && CreatedFree(jobs) && mode == Mode(true, {})
    ensures Leads(Initial(jobs), State(jobs, DoneStore(jobs, m), Idle), mode)
  {
    CreationRun(jobs, m, mode);
    assert EditFree(Repeat(Advance, m + 1));
    LeadsThenStep(Initial(jobs), State(jobs, Created(jobs, m), At(jobs, m)), Abort, mode);
    var obs := AllFinish(jobs, m, mode);
    LeadsThenStep(Initial(jobs), State(jobs, Created(jobs, m), Idle), Cluster(obs), mode);
  }

  /** A store, reached while the pass is idle, on which a whole pass misses a predecessor. */
  lemma {:induction false} FailingStore(jobs: seq<Job>, i: nat, k: nat, mode: Mode) returns (s: Store)
    requires Distinct(jobs) && CreatedFree(jobs) && FirstForward(jobs, i, k) && mode == Mode(true, {})
    ensures Leads(Initial(jobs), State(jobs, s, Idle), mode)
    ensures Pass(jobs, 0, |jobs|, s).error == MissingPredecessor
  {
    s := DoneStore(jobs, i + 1);
    CreateAndFinish(jobs, i + 1, mode);
    DoneStoreFacts(jobs, i + 1);
    JobExists(jobs, i + 1, s, i);
    var t := PassUpTo(jobs, i + 1, i, s, mode);
    if jobs[i].name !in jobs[i].runBefore[..k] {
      ScanReachesMissing(jobs, i, k, t);
    } else {
      ScanMeetsItself(jobs, i, k, t);
      var s1 := StepJob(jobs, jobs[i], t).store;
      OthersStay(jobs, i, i + 1, t, s1);
      LeadsOn(Initial(jobs), State(jobs, s, Idle), State(jobs, s1, Idle), mode);
      s := FailingAfterItself(jobs, i, k, s1, mode);
      LeadsOn(Initial(jobs), State(jobs, s1, Idle), State(jobs, s, Idle), mode);
    }
  }

  /** Once job `i` is annotated completed, unsuspending all before it is enough. */
  lemma {:induction false} FailingAfterItself(jobs: seq<Job>, i: nat, k: nat, s: Store, mode: Mode) returns (t: Store)
    requires Distinct(jobs) && FirstForward(jobs, i, k) && AllDone(jobs, i + 1, s) && LooseBelow(jobs, i, s)
    requires jobs[i].name in s && s[jobs[i].name].status == Completed
    ensures Leads(State(jobs, s, Idle), State(jobs, t, Idle), mode)
    ensures Pass(jobs, 0, |jobs|, t).error == MissingPredecessor
  {
    t := LetGo(jobs, i + 1, i, s, mode);
    var u := PassUpTo(jobs, i + 1, i, t, mode);
    ScanReachesMissing(jobs, i, k, u);
  }

  /** A pass that misses a predecessor does so at some job, reached step by step. */
  lemma {:induction false} FailingJob(jobs: seq<Job>, s: Store, i: nat, mode: Mode) returns (t: State)
    requires i <= |jobs| && Pass(jobs, i, |jobs|, s).error == MissingPredecessor
    ensures Leads(State(jobs, s, At(jobs, i)), t, mode) && !NextJobSucceeds(t)
    decreases |jobs| - i
  {
    var st := State(jobs, s, At(jobs, i));
    var r := StepJob(jobs, jobs[i], s);
    if r.error != NoError {
      t := st;
      LeadsNowhere(st, mode);
    } else {
      t := FailingJob(jobs, r.store, i + 1, mode);
      LeadsJobThen(jobs, i, s, t, mode);
    }
  }

  lemma {:induction false} FailureReached(jobs: seq<Job>, i: nat, k: nat, mode: Mode) returns (t: State, u: State)
    requires Distinct(jobs) && CreatedFree(jobs) && FirstForward(jobs, i, k) && mode == Mode(true, {})
    ensures Leads(Initial(jobs), t, mode) && !NextPassCreatesAll(t)
    ensures Leads(Initial(jobs), u, mode) && !NextJobSucceeds(u)
  {
    var s := FailingStore(jobs, i, k, mode);
    t := State(jobs, s, Idle);
    u := FailingJob(jobs, s, 0, mode);
    LeadsStepThen(t, Advance, u, mode);
    LeadsOn(Initial(jobs), t, u, mode);
  }

  lemma {:induction false} FirstForwardExists(jobs: seq<Job>) returns (i: nat, k: nat)
    requires !Backward(jobs)
    ensures FirstForward(jobs, i, k)
  {
    i := 0;
    while forall b <- jobs[i].runBefore :: b in Names(jobs[..i + 1])
      invariant i < |jobs| && BackwardBelow(jobs, i)
      invariant exists q :: i <= q < |jobs| && !(forall b <- jobs[q].runBefore :: b in Names(jobs[..q + 1]))
      decreases |jobs| - i
    {
      i := i + 1;
    }
    k := 0;
    while jobs[i].runBefore[k] in Names(jobs[..i + 1])
      invariant k < |jobs[i].runBefore|
      invariant forall h :: 0 <= h < k ==> jobs[i].runBefore[h] in Names(jobs[..i + 1])
      invariant exists h :: k <= h < |jobs[i].runBefore| && jobs[i].runBefore[h] !in Names(jobs[..i + 1])
      decreases |jobs[i].runBefore| - k
    {
      k := k + 1;
    }
  }

  /** In every run, no pass misses a predecessor. */
  ghost predicate NeverMissing(jobs: seq<Job>) {
    forall acts, mode :: Legal(Initial(jobs), acts, mode) ==> NextJobSucceeds(After(Initial(jobs), acts))
  }

  ghost predicate NeverMissingWithoutEdits(jobs: seq<Job>) {
    forall acts, mode :: Legal(Initial(jobs), acts, mode) && EditFree(acts) ==>
      NextJobSucceeds(After(Initial(jobs), acts))
  }

  /** Whatever happened before, one whole pass creates all jobs. */
  ghost predicate AlwaysRecovers(jobs: seq<Job>) {
    forall acts, mode :: Legal(Initial(jobs), acts, mode) ==> NextPassCreatesAll(After(Initial(jobs), acts))
  }

  /** An edit that clears all triggers before anything is created leads to whatever the untriggered list leads to. */
  lemma {:induction false} ClearedFirst(jobs: seq<Job>, t: State, mode: Mode) returns (acts: seq<Action>)
    requires Leads(Initial(Untriggered(jobs)), t, mode)
    ensures Legal(Initial(jobs), acts, mode) && After(Initial(jobs), acts) == t
  {
    var clear := Edit(Untriggered(jobs));
    var rest :| Legal(Initial(Untriggered(jobs)), rest, mode) && EditFree(rest)
      && After(Initial(Untriggered(jobs)), rest) == t;
    SingleAction(Initial(jobs), clear, mode);
    RunsCompose(Initial(jobs), [clear], rest, mode);
    acts := [clear] + rest;
  }

  /**
    For any distinct job names: no run misses a predecessor exactly when no job
    names a later job or none at all, and exactly then one whole pass always
    creates what is missing.
   */
  lemma {:induction false} NeverMissingIff(jobs: seq<Job>)
    requires Distinct(jobs)
    ensures NeverMissing(jobs) <==> Backward(jobs)
    ensures AlwaysRecovers(jobs) <==> Backward(jobs)
  {
    if Backward(jobs) {
      forall acts, mode | Legal(Initial(jobs), acts, mode)
        ensures NextJobSucceeds(After(Initial(jobs), acts)) && NextPassCreatesAll(After(Initial(jobs), acts))
      {
        MissingUnreachable(jobs, acts, mode);
        UninterruptedPassCreatesAll(jobs, acts, mode);
      }
    } else {
      var plain, mode := Untriggered(jobs), Mode(true, {});
      if Backward(plain) {
        BackwardSameShape(plain, jobs);
      }
      var i, k := FirstForwardExists(plain);
      var t, u := FailureReached(plain, i, k, mode);
      var toPass := ClearedFirst(jobs, t, mode);
      var toJob := ClearedFirst(jobs, u, mode);
    }
  }

  /** Without self-dependencies that is: the list is ordered. No edit is needed if no trigger reads as true. */
  lemma {:induction false} UntriggeredNeverMissingIff(jobs: seq<Job>)
    requires Distinct(jobs) && CreatedFree(jobs) && forall i :: 0 <= i < |jobs| ==> jobs[i].name !in jobs[i].runBefore
    ensures NeverMissingWithoutEdits(jobs) <==> Ordered(jobs)
  {
    OrderedIff(jobs);
    if Backward(jobs) {
      NeverMissingIff(jobs);
    } else {
      var i, k := FirstForwardExists(jobs);
      var mode := Mode(true, {});
      var t, u := FailureReached(jobs, i, k, mode);
      var acts :| Legal(Initial(jobs), acts, mode) && EditFree(acts) && After(Initial(jobs), acts) == u;
    }
  }

  lemma {:induction false} OrderedIff(jobs: seq<Job>)
    requires forall i :: 0 <= i < |jobs| ==> jobs[i].name !in jobs[i].runBefore
    ensures Ordered(jobs) <==> Backward(jobs)
  {
    if Backward(jobs) {
      forall i, b | 0 <= i < |jobs| && b in jobs[i].runBefore ensures b in Names(jobs[..i]) {
        NamesExtend(jobs, i);
      }
    } else if Ordered(jobs) {
      OrderedIsBackward(jobs);
    }
  }
}
