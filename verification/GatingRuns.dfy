/**
  Every run of the job gate: passes advance one job at a time and may be cut
  off between any two jobs, the cluster changes counters and pods, and users
  edit triggers. Safety over all such runs.
 */
module GatingRuns {
  import opened JobStates
  import opened Gating

  /** A pass in progress: the job list it was started with and the next position in it. */
  datatype Progress = Idle | At(snapshot: seq<Job>, pos: nat)

  datatype State = State(jobs: seq<Job>, store: Store, pass: Progress)

  datatype Action =
    | Advance                               // start a pass, handle its next job, or finish it
    | Abort                                 // crash or API failure: the pass is given up where it stands
    | Cluster(obs: map<string, Observed>)   // pods make progress
    | Edit(jobs: seq<Job>)                  // a user edits the run's triggers

  /** `early`: jobs may start before their first update pass. `dead`: jobs that never succeed. */
  datatype Mode = Mode(early: bool, dead: set<string>)

  /**
    What the cluster may report next for one job. Job objects are not deleted,
    successes are not taken back, a suspended job does not start.
   */
  ghost predicate MayObserve(name: string, k: KJob, o: Observed, mode: Mode) {
    && k.obs.succeeded <= o.succeeded
    && PodAgrees(o)
    && (name in mode.dead ==> o.succeeded == 0)
    && (!Started(k) && (k.suspend || (!mode.early && k.status == UNSET)) ==> !Started(k.(obs := o)))
  }

  ghost predicate Enabled(st: State, a: Action, mode: Mode) {
    match a
    case Advance => true
    case Abort => true
    case Cluster(obs) => obs.Keys == st.store.Keys && forall n <- st.store :: MayObserve(n, st.store[n], obs[n], mode)
    case Edit(jobs) => SameShape(st.jobs, jobs)
  }

  ghost function Next(st: State, a: Action): State {
    match a
    case Advance =>
      if st.pass.Idle? then st.(pass := At(st.jobs, 0))
      else if st.pass.pos >= |st.pass.snapshot| then st.(pass := Idle)
      else
        var r := StepJob(st.pass.snapshot, st.pass.snapshot[st.pass.pos], st.store);
        State(st.jobs, r.store, if r.error == NoError then At(st.pass.snapshot, st.pass.pos + 1) else Idle)
    case Abort => st.(pass := Idle)
    case Cluster(obs) =>
      st.(store := map n | n in st.store :: if n in obs then st.store[n].(obs := obs[n]) else st.store[n])
    case Edit(jobs) => st.(jobs := jobs)
  }

  ghost predicate Legal(st: State, acts: seq<Action>, mode: Mode)
    decreases |acts|
  {
    acts == [] || (Enabled(st, acts[0], mode) && Legal(Next(st, acts[0]), acts[1..], mode))
  }

  ghost function After(st: State, acts: seq<Action>): State
    decreases |acts|
  {
    if acts == [] then st else After(Next(st, acts[0]), acts[1..])
  }

  ghost function Initial(jobs: seq<Job>): State {
    State(jobs, map[], Idle)
  }

  lemma {:induction false} RunsCompose(st: State, first: seq<Action>, rest: seq<Action>, mode: Mode)
    ensures After(st, first + rest) == After(After(st, first), rest)
    ensures Legal(st, first + rest, mode) <==> Legal(st, first, mode) && Legal(After(st, first), rest, mode)
    decreases |first|
  {
    if first == [] {
      assert first + rest == rest;
    } else {
      assert (first + rest)[0] == first[0] && (first + rest)[1..] == first[1..] + rest;
      RunsCompose(Next(st, first[0]), first[1..], rest, mode);
    }
  }

  lemma {:induction false} SingleAction(st: State, a: Action, mode: Mode)
    ensures After(st, [a]) == Next(st, a)
    ensures Legal(st, [a], mode) <==> Enabled(st, a, mode)
  {
    assert [a][1..] == [];
    assert After(Next(st, a), []) == Next(st, a) && Legal(Next(st, a), [], mode);
  }

  // ---------- invariants ----------

  /** Every job `name` waits for exists and has succeeded. */
  ghost predicate PredecessorsSucceeded(jobs: seq<Job>, name: string, s: Store) {
    forall b <- Before(jobs, name) :: b in s && s[b].obs.succeeded > 0
  }

  ghost predicate GateInvariant(st: State, mode: Mode) {
    && (st.pass.At? ==> SameShape(st.pass.snapshot, st.jobs))
    && (forall n <- st.store :: PodAgrees(st.store[n].obs))
    && (forall n <- st.store :: Passed(st.store[n].status) ==> st.store[n].obs.succeeded > 0)
    && (forall n <- st.store :: n in mode.dead ==> st.store[n].obs.succeeded == 0)
    && (forall n <- st.store :: st.store[n].status != UNSET && !st.store[n].suspend ==>
         PredecessorsSucceeded(st.jobs, n, st.store))
  }

  ghost predicate StartedInvariant(st: State) {
    forall n <- st.store :: Started(st.store[n]) ==> PredecessorsSucceeded(st.jobs, n, st.store)
  }

  /** Successes are kept from one store to the next. */
  ghost predicate KeepsSuccess(s: Store, t: Store) {
    forall n <- s :: n in t && s[n].obs.succeeded <= t[n].obs.succeeded
  }

  lemma {:induction false} PredecessorsKept(a: seq<Job>, b: seq<Job>, name: string, s: Store, t: Store)
    requires SameShape(a, b) && KeepsSuccess(s, t) && PredecessorsSucceeded(a, name, s)
    ensures PredecessorsSucceeded(b, name, t)
  {
    SameShapeBefore(a, b, name);
  }

  lemma {:induction false} StepJobFacts(jobs: seq<Job>, job: Job, s: Store)
    ensures var r := StepJob(jobs, job, s);
            && KeepsSuccess(s, r.store)
            && (r.error == NoError ==> r.store.Keys == s.Keys + {job.name})
            && (r.error != NoError ==> r.store == s)
            && (forall n <- s :: n != job.name ==> r.store[n] == s[n])
            && (job.name in s ==> r.store[job.name].obs == s[job.name].obs)
            && (job.name in s && r.error == NoError && !r.store[job.name].suspend ==>
                 GateOf(Before(jobs, job.name), s[job.name].trigger == TRIGGERED, s) == Open)
  {
  }

  lemma {:induction false} SteppedGate(st: State, mode: Mode, snap: seq<Job>, job: Job, n: string)
    requires GateInvariant(st, mode) && SameShape(snap, st.jobs)
    requires var t := StepJob(snap, job, st.store).store;
             n in t && t[n].status != UNSET && !t[n].suspend
    ensures PredecessorsSucceeded(st.jobs, n, StepJob(snap, job, st.store).store)
  {
    var t := StepJob(snap, job, st.store).store;
    StepJobFacts(snap, job, st.store);
    if n in st.store && t[n] == st.store[n] {
      PredecessorsKept(st.jobs, st.jobs, n, st.store, t);
    } else {
      GateOpenIff(Before(snap, n), st.store[n].trigger == TRIGGERED, st.store);
      SameShapeBefore(snap, st.jobs, n);
    }
  }

  lemma {:induction false} AdvanceKeepsGate(st: State, mode: Mode)
    requires GateInvariant(st, mode)
    ensures GateInvariant(Next(st, Advance), mode)
  {
    if st.pass.At? && st.pass.pos < |st.pass.snapshot| {
      var snap := st.pass.snapshot;
      var job := snap[st.pass.pos];
      StepJobFacts(snap, job, st.store);
      var t := Next(st, Advance);
      forall n | n in t.store && t.store[n].status != UNSET && !t.store[n].suspend
        ensures PredecessorsSucceeded(t.jobs, n, t.store)
      {
        SteppedGate(st, mode, snap, job, n);
      }
      if job.name in st.store {
        DeterminedStates(st.store[job.name]);
      }
    }
  }

  lemma {:induction false} StepKeepsGate(st: State, a: Action, mode: Mode)
    requires GateInvariant(st, mode) && Enabled(st, a, mode)
    ensures GateInvariant(Next(st, a), mode)
  {
    match a
    case Advance => AdvanceKeepsGate(st, mode);
    case Abort =>
    case Cluster(obs) =>
      var t := Next(st, a);
      forall n | n in t.store && t.store[n].status != UNSET && !t.store[n].suspend
        ensures PredecessorsSucceeded(t.jobs, n, t.store)
      {
        PredecessorsKept(st.jobs, t.jobs, n, st.store, t.store);
      }
    case Edit(jobs) =>
      forall n | n in st.store && st.store[n].status != UNSET && !st.store[n].suspend
        ensures PredecessorsSucceeded(jobs, n, st.store)
      {
        PredecessorsKept(st.jobs, jobs, n, st.store, st.store);
      }
  }

  lemma {:induction false} StepKeepsStarted(st: State, a: Action, mode: Mode)
    requires GateInvariant(st, mode) && Enabled(st, a, mode) && StartedInvariant(st) && !mode.early
    ensures StartedInvariant(Next(st, a))
  {
    var t := Next(st, a);
    if a.Advance? && st.pass.At? && st.pass.pos < |st.pass.snapshot| {
      StepJobFacts(st.pass.snapshot, st.pass.snapshot[st.pass.pos], st.store);
    }
    forall n | n in t.store && Started(t.store[n]) ensures PredecessorsSucceeded(t.jobs, n, t.store) {
      PredecessorsKept(st.jobs, t.jobs, n, st.store, t.store);
    }
  }

  lemma {:induction false} RunKeepsGate(st: State, acts: seq<Action>, mode: Mode)
    requires GateInvariant(st, mode) && Legal(st, acts, mode)
    ensures GateInvariant(After(st, acts), mode)
    ensures !mode.early && StartedInvariant(st) ==> StartedInvariant(After(st, acts))
    decreases |acts|
  {
    if acts != [] {
      StepKeepsGate(st, acts[0], mode);
      if !mode.early && StartedInvariant(st) {
        StepKeepsStarted(st, acts[0], mode);
      }
      RunKeepsGate(Next(st, acts[0]), acts[1..], mode);
    }
  }

  // ---------- gate safety ----------

  /**
    Gate safety. In every state of every run, a job that has been through an
    update pass and is not suspended has all its direct predecessors succeeded.
   */
  lemma {:induction false} GateSafety(jobs: seq<Job>, acts: seq<Action>, mode: Mode)
    requires Legal(Initial(jobs), acts, mode)
    ensures var st := After(Initial(jobs), acts);
            forall n <- st.store :: st.store[n].status != UNSET && !st.store[n].suspend ==>
              PredecessorsSucceeded(st.jobs, n, st.store)
  {
    RunKeepsGate(Initial(jobs), acts, mode);
  }

  /** A path in the dependency graph, predecessors first. */
  ghost predicate Chain(jobs: seq<Job>, c: seq<string>) {
    |c| > 0 && forall i :: 0 < i < |c| ==> c[i - 1] in Before(jobs, c[i])
  }

  lemma {:induction false} ChainSucceeded(st: State, c: seq<string>, i: nat)
    requires StartedInvariant(st) && Chain(st.jobs, c) && i < |c| - 1
    requires c[|c| - 1] in st.store && Started(st.store[c[|c| - 1]])
    ensures c[i] in st.store && st.store[c[i]].obs.succeeded > 0
    decreases |c| - i
  {
    if i < |c| - 2 {
      ChainSucceeded(st, c, i + 1);
    }
    assert c[i] in Before(st.jobs, c[i + 1]);
  }

  /** If no job starts before its first update pass, all transitive ancestors of a started job have succeeded. */
  lemma {:induction false} AncestorsSucceeded(jobs: seq<Job>, acts: seq<Action>, mode: Mode, c: seq<string>)
    requires Legal(Initial(jobs), acts, mode) && !mode.early
    ensures var st := After(Initial(jobs), acts);
            Chain(st.jobs, c) && c[|c| - 1] in st.store && Started(st.store[c[|c| - 1]]) ==>
              forall i :: 0 <= i < |c| - 1 ==> c[i] in st.store && st.store[c[i]].obs.succeeded > 0
  {
    RunKeepsGate(Initial(jobs), acts, mode);
    var st := After(Initial(jobs), acts);
    if Chain(st.jobs, c) && c[|c| - 1] in st.store && Started(st.store[c[|c| - 1]]) {
      forall i | 0 <= i < |c| - 1 ensures c[i] in st.store && st.store[c[i]].obs.succeeded > 0 {
        ChainSucceeded(st, c, i);
      }
    }
  }

  /** Descendants of a job that never succeeds never start. */
  lemma {:induction false} DescendantsOfDeadNeverStart(jobs: seq<Job>, acts: seq<Action>, mode: Mode, c: seq<string>)
    requires Legal(Initial(jobs), acts, mode) && !mode.early
    requires |c| > 1 && c[0] in mode.dead
    ensures var st := After(Initial(jobs), acts);
            Chain(st.jobs, c) && c[|c| - 1] in st.store ==> !Started(st.store[c[|c| - 1]])
  {
    RunKeepsGate(Initial(jobs), acts, mode);
    AncestorsSucceeded(jobs, acts, mode, c);
  }

  // ---------- cycles ----------

  ghost predicate NoneStarted(st: State, c: seq<string>) {
    forall i :: 0 <= i < |c| && c[i] in st.store ==> !Started(st.store[c[i]])
  }

  lemma {:induction false} ChainSameShape(a: seq<Job>, b: seq<Job>, c: seq<string>)
    requires SameShape(a, b) && Chain(a, c)
    ensures Chain(b, c)
  {
    forall i | 0 < i < |c| ensures c[i - 1] in Before(b, c[i]) {
      SameShapeBefore(a, b, c[i]);
    }
  }

  lemma {:induction false} StepKeepsCycleOut(st: State, a: Action, mode: Mode, c: seq<string>)
    requires GateInvariant(st, mode) && Enabled(st, a, mode) && !mode.early
    requires Chain(st.jobs, c) && |c| > 1 && c[0] == c[|c| - 1] && NoneStarted(st, c)
    ensures Chain(Next(st, a).jobs, c) && NoneStarted(Next(st, a), c)
  {
    var t := Next(st, a);
    if a.Edit? {
      ChainSameShape(st.jobs, a.jobs, c);
    }
    if a.Advance? && st.pass.At? && st.pass.pos < |st.pass.snapshot| {
      StepJobFacts(st.pass.snapshot, st.pass.snapshot[st.pass.pos], st.store);
    }
    if a.Cluster? {
      forall i | 0 <= i < |c| && c[i] in t.store ensures !Started(t.store[c[i]]) {
        var j := if i == 0 then |c| - 1 else i;
        assert c[i] == c[j] && c[j - 1] in Before(st.jobs, c[j]);
        assert MayObserve(c[j], st.store[c[j]], a.obs[c[j]], mode);
      }
    }
  }

  lemma {:induction false} CycleStaysOut(st: State, acts: seq<Action>, mode: Mode, c: seq<string>)
    requires GateInvariant(st, mode) && Legal(st, acts, mode) && !mode.early
    requires Chain(st.jobs, c) && |c| > 1 && c[0] == c[|c| - 1] && NoneStarted(st, c)
    ensures NoneStarted(After(st, acts), c)
    decreases |acts|
  {
    if acts != [] {
      StepKeepsGate(st, acts[0], mode);
      StepKeepsCycleOut(st, acts[0], mode, c);
      CycleStaysOut(Next(st, acts[0]), acts[1..], mode, c);
    }
  }

  /** No job on a dependency cycle ever starts. */
  lemma {:induction false} CycleNeverStarts(jobs: seq<Job>, acts: seq<Action>, mode: Mode, c: seq<string>)
    requires Legal(Initial(jobs), acts, mode) && !mode.early
    requires Chain(jobs, c) && |c| > 1 && c[0] == c[|c| - 1]
    ensures NoneStarted(After(Initial(jobs), acts), c)
  {
    CycleStaysOut(Initial(jobs), acts, mode, c);
  }

  // ---------- trapped sets ----------

  /**
    Nothing in `trap` has started, all of it is suspended and annotated waiting,
    and each member waits for another member or for a job that never succeeds.
   */
  ghost predicate Trapped(st: State, trap: set<string>, mode: Mode) {
    forall n <- trap ::
      && n in st.store
      && st.store[n].suspend && st.store[n].status == Wait && !Started(st.store[n])
      && exists b :: b in Before(st.jobs, n) && (b in trap || b in mode.dead)
  }

  lemma {:induction false} StepKeepsTrapped(st: State, a: Action, mode: Mode, trap: set<string>)
    requires GateInvariant(st, mode) && Enabled(st, a, mode) && Trapped(st, trap, mode)
    ensures Trapped(Next(st, a), trap, mode)
  {
    var t := Next(st, a);
    if a.Advance? && st.pass.At? && st.pass.pos < |st.pass.snapshot| {
      var snap := st.pass.snapshot;
      var job := snap[st.pass.pos];
      StepJobFacts(snap, job, st.store);
      if job.name in trap {
        var b :| b in Before(st.jobs, job.name) && (b in trap || b in mode.dead);
        SameShapeBefore(snap, st.jobs, job.name);
        GateOpenIff(Before(snap, job.name), st.store[job.name].trigger == TRIGGERED, st.store);
        assert !(b in st.store && Passed(st.store[b].status));
      }
    }
    forall n | n in trap
      ensures exists b :: b in Before(t.jobs, n) && (b in trap || b in mode.dead)
    {
      if a.Edit? {
        SameShapeBefore(st.jobs, a.jobs, n);
      }
    }
  }

  lemma {:induction false} TrapHolds(st: State, acts: seq<Action>, mode: Mode, trap: set<string>)
    requires GateInvariant(st, mode) && Legal(st, acts, mode) && Trapped(st, trap, mode)
    ensures Trapped(After(st, acts), trap, mode)
    decreases |acts|
  {
    if acts != [] {
      StepKeepsGate(st, acts[0], mode);
      StepKeepsTrapped(st, acts[0], mode, trap);
      TrapHolds(Next(st, acts[0]), acts[1..], mode, trap);
    }
  }

  /**
    Trapped sets stay trapped: once a run reaches such a state, all of them are
    suspended and waiting in every later state.
   */
  lemma {:induction false} TrappedForever(
    jobs: seq<Job>, acts: seq<Action>, later: seq<Action>, mode: Mode, trap: set<string>)
    requires Legal(Initial(jobs), acts, mode)
    requires Trapped(After(Initial(jobs), acts), trap, mode) && Legal(After(Initial(jobs), acts), later, mode)
    ensures Trapped(After(After(Initial(jobs), acts), later), trap, mode)
  {
    RunKeepsGate(Initial(jobs), acts, mode);
    TrapHolds(After(Initial(jobs), acts), later, mode, trap);
  }
}
