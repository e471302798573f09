/**
  Every interleaving of the schedule protocol: reconciles, any number of
  goroutines between their read, their create and their final write, user
  edits, other writers, end-date writes and crashes, over one stored pipeline
  whose updates succeed only at the version they were read at.
 */
module ScheduleRuns {
  import opened Options
  import opened Schedules

  /**
    A goroutine: asleep with its copy; past its check, holding what it read; past its
    create, before its last write.
   */
  datatype Handler =
    | Sleeping(snap: Status)
    | Checked(snap: Status, base: Status, version: nat, executed: int)
    | Created(snap: Status, base: Status, version: nat, executed: int, epoch: nat)

  /** A run created by a goroutine, with the decision it came from. */
  datatype RunRecord = RunRecord(decision: nat, pending: int, executed: int, endDate: Option<int>)

  /**
    The stored pipeline and its goroutines, the names of existing runs, and a
    log: the start instant of every persisted decision, the runs created by
    goroutines, and counts of creates and lost final writes, in all and since
    the count of executions was last reset.
   */
  datatype World = World(
    spec: Option<Schedule>,
    status: Status,
    version: nat,
    clock: int,
    handlers: map<nat, Handler>,
    names: set<string>,
    decisions: seq<int>,
    runs: seq<RunRecord>,
    epoch: nat,
    created: nat,
    lost: nat,
    closed: nat,
    lostEver: nat)

  datatype Action =
    | Tick(to: int)
    | EditSpec(spec: Option<Schedule>)              // a user edits the schedule
    | Touch                                         // any other write of the pipeline object
    | EndExecution                                  // a run of the pipeline ended
    | Reconcile(reading: Reading, accepted: bool)   // accepted: the status write, if any, is not refused
    | Recheck(h: nat, now: int)                     // a goroutine wakes, reads the pipeline and checks
    | CreateRun(h: nat, name: string)
    | Close(h: nat)                                 // its final status write
    | Crash(h: nat)

  function Initial(spec: Option<Schedule>, clock: int): World {
    World(spec, CLEARED, 0, clock, map[], {}, [], [], 0, 0, 0, 0, 0)
  }

  predicate Enabled(w: World, a: Action) {
    match a
    case Tick(_) => true
    case EditSpec(_) => true
    case Touch => true
    case EndExecution => true
    case Reconcile(_, _) => true
    case Recheck(h, now) =>
      && h in w.handlers && w.handlers[h].Sleeping?
      && (w.handlers[h].snap.pending.Some? ==> w.handlers[h].snap.pending.value <= now)
    case CreateRun(h, _) => h in w.handlers && w.handlers[h].Checked?
    case Close(h) => h in w.handlers && w.handlers[h].Created?
    case Crash(h) => h in w.handlers
  }

  /** A write of the status; one that changes nothing does not change the version either. */
  function Commit(w: World, st: Status): World {
    if st == w.status then w else w.(status := st, version := w.version + 1)
  }

  function Without(w: World, h: nat): World {
    w.(handlers := w.handlers - {h})
  }

  /** A created run whose final status write will not happen. */
  function LoseWrite(w: World, epoch: nat): World {
    w.(lostEver := w.lostEver + 1, lost := if epoch == w.epoch then w.lost + 1 else w.lost)
  }

  function ApplyReconcile(w: World, r: Reading): World {
    var d := Decide(w.spec, w.status, r);
    if d.Write? || d.Launch? then
      var written := Commit(w, StoredStatus(d.status));
      var counted := if Resets(w.spec, w.status, d) then written.(epoch := w.epoch + 1, created := 0, lost := 0)
        else written;
      if d.Launch? then
        counted.(
          handlers := counted.handlers[|w.decisions| := Sleeping(StoredStatus(d.status))],
          decisions := w.decisions + [Stored(r.second)])
      else counted
    else w
  }

  function ApplyRecheck(w: World, h: nat, now: int): World
    requires h in w.handlers
  {
    var snap := w.handlers[h].snap;
    if Check(snap, w.status, now) == Passes
    then w.(handlers := w.handlers[h := Checked(snap, w.status, w.version, now)])
    else Without(w, h)
  }

  function ApplyCreate(w: World, h: nat, name: string): World
    requires h in w.handlers && w.handlers[h].Checked?
  {
    if name in w.names then Without(w, h)
    else
      var g := w.handlers[h];
      var pending := if g.snap.pending.Some? then g.snap.pending.value else 0;
      var endDate := if g.snap.schedule.Some? then g.snap.schedule.value.endDate else None;
      w.(
        handlers := w.handlers[h := Created(g.snap, g.base, g.version, g.executed, w.epoch)],
        names := w.names + {name},
        runs := w.runs + [RunRecord(h, pending, g.executed, endDate)],
        created := w.created + 1)
  }

  function ApplyClose(w: World, h: nat): World
    requires h in w.handlers && w.handlers[h].Created?
  {
    var g := w.handlers[h];
    if g.version == w.version
    then Without(w, h).(
      status := StoredStatus(Closing(g.base, g.executed)), version := w.version + 1, closed := w.closed + 1)
    else LoseWrite(Without(w, h), g.epoch)
  }

  function Next(w: World, a: Action): World
    requires Enabled(w, a)
  {
    match a
    case Tick(to) => w.(clock := to)
    case EditSpec(spec) => w.(spec := spec, version := w.version + 1)
    case Touch => w.(version := w.version + 1)
    case EndExecution => Commit(w, StoredStatus(w.status.(lastEnd := Some(w.clock))))
    case Reconcile(r, accepted) => (if accepted then ApplyReconcile(w, r) else w).(clock := r.second)
    case Recheck(h, now) => ApplyRecheck(w, h, now).(clock := now)
    case CreateRun(h, name) => ApplyCreate(w, h, name)
    case Close(h) => ApplyClose(w, h)
    case Crash(h) => if w.handlers[h].Created? then LoseWrite(Without(w, h), w.handlers[h].epoch) else Without(w, h)
  }

  predicate Legal(w: World, acts: seq<Action>)
    decreases |acts|
  {
    acts == [] || (Enabled(w, acts[0]) && Legal(Next(w, acts[0]), acts[1..]))
  }

  function After(w: World, acts: seq<Action>): World
    requires Legal(w, acts)
    decreases |acts|
  {
    if acts == [] then w else After(Next(w, acts[0]), acts[1..])
  }

  /** The clock is read in the order of the actions. Only the results that need it assume this. */
  predicate OnTime(w: World, acts: seq<Action>)
    requires Legal(w, acts)
    decreases |acts|
  {
    acts == [] || (InOrder(w, acts[0]) && OnTime(Next(w, acts[0]), acts[1..]))
  }

  predicate InOrder(w: World, a: Action) {
    match a
    case Tick(to) => w.clock <= to
    case Reconcile(r, _) => w.clock <= r.first <= r.second
    case Recheck(_, now) => w.clock <= now
    case EditSpec(_) => true
    case Touch => true
    case EndExecution => true
    case CreateRun(_, _) => true
    case Close(_) => true
    case Crash(_) => true
  }

  // ---------- the inductive invariant ----------

  /** Stored times have no fraction of a second. */
  ghost predicate Rounded(st: Status) {
    StoredStatus(st) == st
  }

  /** The stored start date is that of the last persisted decision. */
  ghost predicate StartIsLatest(w: World) {
    w.status.start.Some? ==> |w.decisions| > 0 && w.status.start.value == w.decisions[|w.decisions| - 1]
  }

  ghost predicate GoodSnapshot(w: World, h: nat, snap: Status) {
    && h < |w.decisions|
    && snap.schedule.Some? && snap.pending.Some? && snap.start == Some(w.decisions[h])
    && InWindow(snap)
  }

  /**
    What a goroutine past its check knows: it read its own decision, inside its
    window, and its version pins the status.
   */
  ghost predicate GoodRead(w: World, snap: Status, base: Status, version: nat, executed: int) {
    && base.schedule.Some? && snap.start == base.start && snap.pending == base.pending
    && snap.pending.Some? && snap.pending.value <= executed
    && (snap.schedule.Some? && snap.schedule.value.endDate.Some? ==> executed <= snap.schedule.value.endDate.value)
    && version <= w.version
    && (version == w.version ==> base == w.status)
    && Rounded(base) && GoodStatus(base)
  }

  ghost predicate GoodHandler(w: World, h: nat, g: Handler) {
    && GoodSnapshot(w, h, g.snap)
    && (g.Checked? || g.Created? ==> GoodRead(w, g.snap, g.base, g.version, g.executed))
    && (g.Created? && g.version == w.version ==> g.epoch == w.epoch)
  }

  ghost predicate GoodRun(w: World, r: RunRecord) {
    && r.decision < |w.decisions|
    && r.pending <= r.executed
    && (r.endDate.Some? ==> r.executed <= r.endDate.value)
  }

  ghost predicate Invariant(w: World) {
    && GoodStatus(w.status) && Rounded(w.status)
    && StartIsLatest(w)
    && (forall h <- w.handlers :: GoodHandler(w, h, w.handlers[h]))
    && (forall i :: 0 <= i < |w.runs| ==> GoodRun(w, w.runs[i]))
  }

  /** Handlers stay good when only the status, its version and the log move on. */
  lemma {:induction false} HandlersKept(w: World, t: World)
    requires forall h <- t.handlers ::
               h in w.handlers && t.handlers[h] == w.handlers[h] && GoodHandler(w, h, w.handlers[h])
    requires w.decisions <= t.decisions && w.version <= t.version
    requires t.version == w.version ==> t.status == w.status && t.epoch == w.epoch
    ensures forall h <- t.handlers :: GoodHandler(t, h, t.handlers[h])
  {
  }

  lemma {:induction false} RunsKept(w: World, t: World)
    requires w.decisions <= t.decisions && t.runs == w.runs && forall i :: 0 <= i < |w.runs| ==> GoodRun(w, w.runs[i])
    ensures forall i :: 0 <= i < |t.runs| ==> GoodRun(t, t.runs[i])
  {
  }

  lemma {:induction false} ResetsChangeStatus(w: World, r: Reading)
    requires Invariant(w)
    ensures var d := Decide(w.spec, w.status, r);
            Resets(w.spec, w.status, d) ==> (d.Write? || d.Launch?) && StoredStatus(d.status) != w.status
  {
  }

  lemma {:induction false} ReconciledStatus(w: World, r: Reading)
    requires GoodStatus(w.status) && Rounded(w.status) && StartIsLatest(w)
    ensures var t := ApplyReconcile(w, r);
            GoodStatus(t.status) && Rounded(t.status) && StartIsLatest(t)
  {
    var d := Decide(w.spec, w.status, r);
    DecideKeepsGood(w.spec, w.status, r);
    if d.Write? || d.Launch? {
      StoringKeepsGood(d.status);
      StoringTwice(d.status);
    }
  }

  /** The goroutine a reconcile starts carries the decision that was just persisted. */
  lemma {:induction false} NewHandlerGood(w: World, r: Reading)
    requires GoodStatus(w.status) && Decide(w.spec, w.status, r).Launch?
    ensures var t, h := ApplyReconcile(w, r), |w.decisions|;
            h in t.handlers && GoodHandler(t, h, t.handlers[h])
  {
    var d := Decide(w.spec, w.status, r);
    DecideKeepsGood(w.spec, w.status, r);
    StoringKeepsGood(d.status);
  }

  lemma {:induction false} ReconciledHandlers(w: World, r: Reading)
    requires Invariant(w)
    ensures var t := ApplyReconcile(w, r);
            forall h <- t.handlers :: GoodHandler(t, h, t.handlers[h])
  {
    var d := Decide(w.spec, w.status, r);
    var t := ApplyReconcile(w, r);
    ResetsChangeStatus(w, r);
    HandlersKept(w, t.(handlers := w.handlers));
    forall h | h in t.handlers ensures GoodHandler(t, h, t.handlers[h]) {
      if d.Launch? && h == |w.decisions| {
        NewHandlerGood(w, r);
      } else {
        assert GoodHandler(t.(handlers := w.handlers), h, w.handlers[h]);
      }
    }
  }

  lemma {:induction false} ReconcileKeeps(w: World, r: Reading)
    requires Invariant(w)
    ensures Invariant(ApplyReconcile(w, r))
  {
    ReconciledStatus(w, r);
    ReconciledHandlers(w, r);
    RunsKept(w, ApplyReconcile(w, r));
  }

  lemma {:induction false} RecheckKeeps(w: World, h: nat, now: int)
    requires Invariant(w) && Enabled(w, Recheck(h, now))
    ensures Invariant(ApplyRecheck(w, h, now))
  {
    var t := ApplyRecheck(w, h, now);
    assert GoodHandler(w, h, w.handlers[h]);
    CheckMeaning(w.handlers[h].snap, w.status, now);
    forall g | g in t.handlers ensures GoodHandler(t, g, t.handlers[g]) {
      assert GoodHandler(w, g, w.handlers[g]);
    }
    RunsKept(w, t);
  }

  lemma {:induction false} CreatedHandlersKept(w: World, t: World, h: nat)
    requires h in w.handlers && w.handlers[h].Checked? && forall g <- w.handlers :: GoodHandler(w, g, w.handlers[g])
    requires t.status == w.status && t.version == w.version && t.decisions == w.decisions && t.epoch == w.epoch
    requires var g := w.handlers[h];
             t.handlers == w.handlers[h := Created(g.snap, g.base, g.version, g.executed, w.epoch)]
    ensures forall g <- t.handlers :: GoodHandler(t, g, t.handlers[g])
  {
    forall g | g in t.handlers ensures GoodHandler(t, g, t.handlers[g]) {
      assert GoodHandler(w, g, w.handlers[g]);
    }
  }

  lemma {:induction false} CreateKeeps(w: World, h: nat, name: string)
    requires Invariant(w) && Enabled(w, CreateRun(h, name))
    ensures Invariant(ApplyCreate(w, h, name))
  {
    var t := ApplyCreate(w, h, name);
    assert GoodHandler(w, h, w.handlers[h]);
    if name in w.names {
      HandlersKept(w, t);
      RunsKept(w, t);
    } else {
      CreatedHandlersKept(w, t, h);
      assert GoodRun(t, t.runs[|w.runs|]);
      forall i | 0 <= i < |t.runs| ensures GoodRun(t, t.runs[i]) {
        if i < |w.runs| {
          assert GoodRun(w, w.runs[i]);
        }
      }
    }
  }

  lemma {:induction false} CloseKeeps(w: World, h: nat)
    requires Invariant(w) && Enabled(w, Close(h))
    ensures Invariant(ApplyClose(w, h))
  {
    var t := ApplyClose(w, h);
    var g := w.handlers[h];
    assert GoodHandler(w, h, g);
    HandlersKept(w, t);
    RunsKept(w, t);
    if g.version == w.version {
      var closing := Closing(g.base, g.executed);
      StoringKeepsGood(closing);
      StoringTwice(closing);
    }
  }

  lemma {:induction false} EndKeeps(w: World)
    requires Invariant(w)
    ensures Invariant(Next(w, EndExecution))
  {
    var ended := w.status.(lastEnd := Some(w.clock));
    StoringKeepsGood(ended);
    StoringTwice(ended);
    var t := Next(w, EndExecution);
    HandlersKept(w, t);
    RunsKept(w, t);
  }

  lemma {:induction false} StepKeeps(w: World, a: Action)
    requires Invariant(w) && Enabled(w, a)
    ensures Invariant(Next(w, a))
  {
    match a
    case Tick(to) => ClockKeeps(w, to);
    case EditSpec(spec) => HandlersKept(w, Next(w, a)); RunsKept(w, Next(w, a));
    case Touch => HandlersKept(w, Next(w, a)); RunsKept(w, Next(w, a));
    case EndExecution => EndKeeps(w);
    case Reconcile(r, accepted) =>
      ReconcileKeeps(w, r);
      ClockKeeps(if accepted then ApplyReconcile(w, r) else w, r.second);
    case Recheck(h, now) =>
      RecheckKeeps(w, h, now);
      ClockKeeps(ApplyRecheck(w, h, now), now);
    case CreateRun(h, name) => CreateKeeps(w, h, name);
    case Close(h) => CloseKeeps(w, h);
    case Crash(h) => HandlersKept(w, Next(w, a)); RunsKept(w, Next(w, a));
  }

  lemma {:induction false} ClockKeeps(w: World, clock: int)
    requires Invariant(w)
    ensures Invariant(w.(clock := clock))
  {
    HandlersKept(w, w.(clock := clock));
    RunsKept(w, w.(clock := clock));
  }

  lemma {:induction false} RunKeeps(w: World, acts: seq<Action>)
    requires Invariant(w) && Legal(w, acts)
    ensures Invariant(After(w, acts))
    decreases |acts|
  {
    if acts != [] {
      StepKeeps(w, acts[0]);
      RunKeeps(Next(w, acts[0]), acts[1..]);
    }
  }

  /** Every state of every run satisfies the invariant. */
  lemma {:induction false} Reachable(spec: Option<Schedule>, clock: int, acts: seq<Action>)
    requires Legal(Initial(spec, clock), acts)
    ensures Invariant(After(Initial(spec, clock), acts))
  {
    RunKeeps(Initial(spec, clock), acts);
  }

  // ---------- safety ----------

  /**
    In every reachable state no reconcile and no waking goroutine dereferences nil,
    and every goroutine's copy is complete.
   */
  lemma {:induction false} NoNilDereference(spec: Option<Schedule>, clock: int, acts: seq<Action>, r: Reading, now: int)
    requires Legal(Initial(spec, clock), acts)
    ensures var w := After(Initial(spec, clock), acts);
            && Decide(w.spec, w.status, r) != Panic
            && forall h <- w.handlers ::
                 && w.handlers[h].snap.schedule.Some?
                 && w.handlers[h].snap.start.Some? && w.handlers[h].snap.pending.Some?
                 && Check(w.handlers[h].snap, w.status, now) != Panics
  {
    Reachable(spec, clock, acts);
    var w := After(Initial(spec, clock), acts);
    DecideKeepsGood(w.spec, w.status, r);
    forall h | h in w.handlers ensures Check(w.handlers[h].snap, w.status, now) != Panics {
      assert GoodHandler(w, h, w.handlers[h]);
      CheckMeaning(w.handlers[h].snap, w.status, now);
    }
  }

  /**
    While an execution is marked running nothing is pending in the stored status, and
    no goroutine passes its check.
   */
  lemma {:induction false} RunningExcludesPending(spec: Option<Schedule>, clock: int, acts: seq<Action>, now: int)
    requires Legal(Initial(spec, clock), acts)
    ensures var w := After(Initial(spec, clock), acts);
            MarkedRunning(w.status) ==>
              && w.status.pending.None?
              && forall h <- w.handlers :: Check(w.handlers[h].snap, w.status, now) == Abort
  {
    Reachable(spec, clock, acts);
    var w := After(Initial(spec, clock), acts);
    forall h | h in w.handlers ensures MarkedRunning(w.status) ==> Check(w.handlers[h].snap, w.status, now) == Abort {
      assert GoodHandler(w, h, w.handlers[h]);
      CheckMeaning(w.handlers[h].snap, w.status, now);
    }
  }

  ghost predicate DistinctInstants(s: seq<int>) {
    forall i, k :: 0 <= i < k < |s| ==> s[i] != s[k]
  }

  /**
    With distinct stored start instants, a goroutine passes its check only if it
    belongs to the latest persisted decision, and so does one whose final write
    is accepted.
   */
  lemma {:induction false} OnlyLatestFires(spec: Option<Schedule>, clock: int, acts: seq<Action>, h: nat, now: int)
    requires Legal(Initial(spec, clock), acts)
    requires var w := After(Initial(spec, clock), acts);
             DistinctInstants(w.decisions) && h in w.handlers
    ensures var w := After(Initial(spec, clock), acts);
            var g := w.handlers[h];
            (Check(g.snap, w.status, now) == Passes || (!g.Sleeping? && g.version == w.version)) ==>
              h == |w.decisions| - 1
  {
    Reachable(spec, clock, acts);
    var w := After(Initial(spec, clock), acts);
    assert GoodHandler(w, h, w.handlers[h]);
    CheckMeaning(w.handlers[h].snap, w.status, now);
  }

  /** A schedule is in place: the pipeline has one, with a date. */
  predicate Scheduled(spec: Option<Schedule>) {
    spec.Some? && spec.value.date != ""
  }

  ghost predicate StaysScheduled(acts: seq<Action>) {
    forall a <- acts :: a.EditSpec? ==> Scheduled(a.spec)
  }

  ghost predicate StartStands(w: World) {
    Scheduled(w.spec) && (w.decisions != [] ==> w.status.start.Some?)
  }

  lemma {:induction false} ReconcileKeepsStart(w: World, r: Reading)
    requires Invariant(w) && StartStands(w)
    ensures StartStands(ApplyReconcile(w, r))
  {
    LaunchIff(w.spec.value, w.status, r);
    WriteIff(w.spec.value, w.status, r);
  }

  lemma {:induction false} StepKeepsStart(w: World, a: Action)
    requires Invariant(w) && Enabled(w, a) && StartStands(w) && (a.EditSpec? ==> Scheduled(a.spec))
    ensures StartStands(Next(w, a))
  {
    match a
    case Reconcile(r, _) => ReconcileKeepsStart(w, r);
    case Close(h) => assert GoodHandler(w, h, w.handlers[h]);
    case Tick(_) =>
    case EditSpec(_) =>
    case Touch =>
    case EndExecution =>
    case Recheck(_, _) =>
    case CreateRun(_, _) =>
    case Crash(_) =>
  }

  lemma {:induction false} RunKeepsStart(w: World, acts: seq<Action>)
    requires Invariant(w) && Legal(w, acts) && StartStands(w) && StaysScheduled(acts)
    ensures StartStands(After(w, acts))
    decreases |acts|
  {
    if acts != [] {
      assert acts[0] in acts && forall a <- acts[1..] :: a in acts;
      StepKeeps(w, acts[0]);
      StepKeepsStart(w, acts[0]);
      RunKeepsStart(Next(w, acts[0]), acts[1..]);
    }
  }

  /**
    With distinct stored start instants, the stored start date is a goroutine's
    own exactly when its decision is the latest persisted one and has not been
    withdrawn. While the pipeline keeps a schedule, decisions are not withdrawn,
    so the comparison alone tells whether the decision is the latest.
   */
  lemma {:induction false} LatestIff(spec: Option<Schedule>, clock: int, acts: seq<Action>, h: nat)
    requires Legal(Initial(spec, clock), acts)
    requires var w := After(Initial(spec, clock), acts);
             DistinctInstants(w.decisions) && h in w.handlers
    ensures var w := After(Initial(spec, clock), acts);
            && (w.status.start == w.handlers[h].snap.start <==> w.status.start.Some? && h == |w.decisions| - 1)
            && (Scheduled(spec) && StaysScheduled(acts) ==>
                 (w.status.start == w.handlers[h].snap.start <==> h == |w.decisions| - 1))
  {
    Reachable(spec, clock, acts);
    assert GoodHandler(After(Initial(spec, clock), acts), h, After(Initial(spec, clock), acts).handlers[h]);
    if Scheduled(spec) && StaysScheduled(acts) {
      RunKeepsStart(Initial(spec, clock), acts);
    }
  }

  /**
    At the create, where the check may be out of date: while the pipeline keeps a
    schedule, the run that is created belongs to the latest persisted decision
    exactly when the stored start date, if it were read once more, would still be
    that of the goroutine.
   */
  lemma {:induction false} CreatesFromLatestIff(
    spec: Option<Schedule>, clock: int, acts: seq<Action>, h: nat, name: string)
    requires Scheduled(spec) && Legal(Initial(spec, clock), acts) && StaysScheduled(acts)
    requires var w := After(Initial(spec, clock), acts);
             DistinctInstants(w.decisions) && Enabled(w, CreateRun(h, name)) && name !in w.names
    ensures var w := After(Initial(spec, clock), acts);
            var t := Next(w, CreateRun(h, name));
            && |t.runs| == |w.runs| + 1
            && (t.runs[|w.runs|].decision == |t.decisions| - 1 <==> w.status.start == w.handlers[h].snap.start)
  {
    LatestIff(spec, clock, acts, h);
  }

  // ---------- a schedule that is removed, emptied or changed ----------

  /** Without a stored schedule nothing else is stored about one, and a stored schedule has a date. */
  ghost predicate Tidy(w: World) {
    && (w.status.schedule.None? ==>
         w.status.start == None && w.status.pending == None && w.status.lastStart == None && w.status.repeated == 0)
    && (w.status.schedule.Some? ==> w.status.schedule.value.date != "")
  }

  lemma {:induction false} ReconcileTidies(w: World, r: Reading)
    requires Invariant(w) && Tidy(w)
    ensures Tidy(ApplyReconcile(w, r))
  {
  }

  lemma {:induction false} StepTidies(w: World, a: Action)
    requires Invariant(w) && Tidy(w) && Enabled(w, a)
    ensures Tidy(Next(w, a))
  {
    match a
    case Reconcile(r, _) => ReconcileTidies(w, r);
    case Close(h) => assert GoodHandler(w, h, w.handlers[h]);
    case Tick(_) =>
    case EditSpec(_) =>
    case Touch =>
    case EndExecution =>
    case Recheck(_, _) =>
    case CreateRun(_, _) =>
    case Crash(_) =>
  }

  lemma {:induction false} RunTidies(w: World, acts: seq<Action>)
    requires Invariant(w) && Tidy(w) && Legal(w, acts)
    ensures Tidy(After(w, acts))
    decreases |acts|
  {
    if acts != [] {
      StepKeeps(w, acts[0]);
      StepTidies(w, acts[0]);
      RunTidies(Next(w, acts[0]), acts[1..]);
    }
  }

  /** In every reachable state: no stored schedule, no trace of one. */
  lemma {:induction false} NothingWithoutSchedule(spec: Option<Schedule>, clock: int, acts: seq<Action>)
    requires Legal(Initial(spec, clock), acts)
    ensures Tidy(After(Initial(spec, clock), acts))
  {
    RunTidies(Initial(spec, clock), acts);
  }

  ghost predicate NoneMayFire(w: World) {
    forall h <- w.handlers, now: int :: Check(w.handlers[h].snap, w.status, now) == Abort
  }

  lemma {:induction false} NoStartNoneFires(w: World)
    requires Invariant(w) && w.status.start == None
    ensures NoneMayFire(w)
  {
    forall h, now: int | h in w.handlers ensures Check(w.handlers[h].snap, w.status, now) == Abort {
      assert GoodHandler(w, h, w.handlers[h]);
      CheckMeaning(w.handlers[h].snap, w.status, now);
    }
  }

  /**
    After the schedule has been removed, the next accepted reconcile leaves nothing
    of it in the status, not even an execution marked as running, and no goroutine
    passes its check. The end date a run has left since the last removal stays.
   */
  lemma {:induction false} RemovalClears(spec: Option<Schedule>, clock: int, acts: seq<Action>, r: Reading)
    requires Legal(Initial(spec, clock), acts) && After(Initial(spec, clock), acts).spec == None
    ensures var w := After(Initial(spec, clock), acts);
            var t := Next(w, Reconcile(r, true));
            && t.status == Status(None, None, None, None, if w.status.schedule.Some? then None else w.status.lastEnd, 0)
            && NoneMayFire(t)
  {
    var w := After(Initial(spec, clock), acts);
    Reachable(spec, clock, acts);
    NothingWithoutSchedule(spec, clock, acts);
    RemovalDecision(w.status, r);
    StepKeeps(w, Reconcile(r, true));
    NoStartNoneFires(Next(w, Reconcile(r, true)));
  }

  /** After the date has been emptied, no goroutine passes its check once a reconcile has been accepted. */
  lemma {:induction false} EmptiedDateWithdraws(spec: Option<Schedule>, clock: int, acts: seq<Action>, r: Reading)
    requires Legal(Initial(spec, clock), acts)
    requires var w := After(Initial(spec, clock), acts); w.spec.Some? && w.spec.value.date == ""
    ensures var w := After(Initial(spec, clock), acts);
            var t := Next(w, Reconcile(r, true));
            && NoneMayFire(t) && t.decisions == w.decisions
            && (!Executing(w.status) ==> t.status == w.status.(start := None))
  {
    var w := After(Initial(spec, clock), acts);
    Reachable(spec, clock, acts);
    NothingWithoutSchedule(spec, clock, acts);
    WriteIff(w.spec.value, w.status, r);
    LaunchIff(w.spec.value, w.status, r);
    StepKeeps(w, Reconcile(r, true));
    var t := Next(w, Reconcile(r, true));
    if Executing(w.status) {
      forall h, now: int | h in t.handlers ensures Check(t.handlers[h].snap, t.status, now) == Abort {
        RunningExcludesPending(spec, clock, acts, now);
      }
    } else {
      NoStartNoneFires(t);
    }
  }

  /** A date that cannot be read leaves everything as it was: no goroutine is started, and none is stopped. */
  lemma {:induction false} UnreadableDateKeeps(w: World, r: Reading)
    requires Invariant(w) && Scheduled(w.spec) && r.duration.None?
    ensures Next(w, Reconcile(r, true)) == w.(clock := r.second)
  {
    LaunchIff(w.spec.value, w.status, r);
    WriteIff(w.spec.value, w.status, r);
  }

  /**
    A launch under a changed date forgets the executions of the old one: its last
    start and end and its count. With another start instant, no goroutine of the old
    date passes its check.
   */
  lemma {:induction false} ChangedDateForgets(w: World, r: Reading)
    requires Invariant(w) && w.spec.Some? && !SameDate(w.spec.value, w.status)
    requires Decide(w.spec, w.status, r).Launch?
    ensures var t := Next(w, Reconcile(r, true));
            && t.status.lastStart == None && t.status.lastEnd == None && t.status.repeated == 0
            && t.status.schedule == Some(StoredSchedule(w.spec.value))
            && forall h <- w.handlers, now: int ::
                 w.handlers[h].snap.start != t.status.start ==> Check(w.handlers[h].snap, t.status, now) == Abort
  {
    LaunchIff(w.spec.value, w.status, r);
    StepKeeps(w, Reconcile(r, true));
    var t := Next(w, Reconcile(r, true));
    forall h, now: int | h in w.handlers && w.handlers[h].snap.start != t.status.start
      ensures Check(w.handlers[h].snap, t.status, now) == Abort
    {
      assert GoodHandler(w, h, w.handlers[h]);
      CheckMeaning(w.handlers[h].snap, t.status, now);
    }
  }

  // ---------- an undisturbed goroutine ----------

  /** What a launch leaves: the new goroutine sleeps with a copy of exactly what is stored. */
  lemma {:induction false} LaunchedSleeps(w: World, r: Reading)
    requires Invariant(w) && w.spec.Some? && Decide(w.spec, w.status, r).Launch?
    ensures var t, h := Next(w, Reconcile(r, true)), |w.decisions|;
            && h in t.handlers && t.handlers[h] == Sleeping(t.status)
            && t.status.schedule.Some? && t.status.start.Some? && t.status.pending.Some?
            && t.decisions == w.decisions + [Stored(r.second)] && t.runs == w.runs && t.names == w.names
  {
    LaunchIff(w.spec.value, w.status, r);
  }

  /** A status passes the check against itself until its end date. */
  lemma {:induction false} SelfPasses(st: Status, now: int)
    requires st.schedule.Some? && st.start.Some? && st.pending.Some?
    requires st.schedule.value.endDate.Some? ==> now <= st.schedule.value.endDate.value
    ensures Check(st, st, now) == Passes
  {
  }

  lemma {:induction false} UndisturbedCloses(w: World, h: nat, now: int, name: string)
    requires h in w.handlers && w.handlers[h] == Sleeping(w.status)
    requires w.status.schedule.Some? && w.status.start.Some? && w.status.pending.Some?
    requires w.status.pending.value <= now && name !in w.names
    requires w.status.schedule.value.endDate.Some? ==> now <= w.status.schedule.value.endDate.value
    ensures Enabled(w, Recheck(h, now)) && Enabled(Next(w, Recheck(h, now)), CreateRun(h, name))
    ensures Enabled(Next(Next(w, Recheck(h, now)), CreateRun(h, name)), Close(h))
    ensures var t := Next(Next(Next(w, Recheck(h, now)), CreateRun(h, name)), Close(h));
            && h !in t.handlers && name in t.names && |t.runs| == |w.runs| + 1 && t.runs[|w.runs|].decision == h
            && t.status == StoredStatus(Closing(w.status, now)) && t.lostEver == w.lostEver
  {
    SelfPasses(w.status, now);
  }

  /**
    A decision that nobody disturbs is carried out: its goroutine wakes no earlier
    than the pending date and no later than the end date, passes its check, creates
    one run, and marks it as executing with one execution more.
   */
  lemma {:induction false} UndisturbedFires(w: World, r: Reading, now: int, name: string)
    requires Invariant(w) && w.spec.Some? && Decide(w.spec, w.status, r).Launch?
    requires var t := Next(w, Reconcile(r, true));
             && t.status.pending.Some? && t.status.pending.value <= now && name !in t.names
             && (t.status.schedule.Some? && t.status.schedule.value.endDate.Some? ==>
                  now <= t.status.schedule.value.endDate.value)
    ensures var t, h := Next(w, Reconcile(r, true)), |w.decisions|;
            && Enabled(t, Recheck(h, now)) && Enabled(Next(t, Recheck(h, now)), CreateRun(h, name))
            && Enabled(Next(Next(t, Recheck(h, now)), CreateRun(h, name)), Close(h))
            && var u := Next(Next(Next(t, Recheck(h, now)), CreateRun(h, name)), Close(h));
               && |u.runs| == |w.runs| + 1 && u.runs[|w.runs|].decision == h && name in u.names
               && u.status.lastStart == Some(Stored(now)) && u.status.lastEnd == None && u.status.pending == None
               && u.status.repeated == t.status.repeated + 1
  {
    LaunchedSleeps(w, r);
    UndisturbedCloses(Next(w, Reconcile(r, true)), |w.decisions|, now, name);
  }

  // ---------- while an execution is marked running ----------

  /** Nothing ends an execution and nobody removes the schedule. */
  ghost predicate NothingEnds(acts: seq<Action>) {
    forall a <- acts :: !a.EndExecution? && (a.EditSpec? ==> a.spec.Some?)
  }

  lemma {:induction false} StepKeepsRunning(w: World, a: Action)
    requires Invariant(w) && Enabled(w, a) && w.spec.Some? && Executing(w.status)
    requires !a.EndExecution? && (a.EditSpec? ==> a.spec.Some?)
    ensures var t := Next(w, a);
            t.spec.Some? && Executing(t.status) && t.decisions == w.decisions
  {
    if a.Reconcile? {
      LaunchIff(w.spec.value, w.status, a.reading);
      WriteIff(w.spec.value, w.status, a.reading);
    }
  }

  lemma {:induction false} RunKeepsRunning(w: World, acts: seq<Action>)
    requires Invariant(w) && Legal(w, acts) && w.spec.Some? && Executing(w.status) && NothingEnds(acts)
    ensures var t := After(w, acts);
            Executing(t.status) && t.decisions == w.decisions
    decreases |acts|
  {
    if acts != [] {
      assert acts[0] in acts && forall a <- acts[1..] :: a in acts;
      StepKeeps(w, acts[0]);
      StepKeepsRunning(w, acts[0]);
      RunKeepsRunning(Next(w, acts[0]), acts[1..]);
    }
  }

  /** An accepted final write marks the execution as running from the moment its goroutine checked. */
  lemma {:induction false} CloseMarksRunning(w: World, h: nat)
    requires Invariant(w) && Enabled(w, Close(h)) && w.handlers[h].version == w.version
    ensures var t := Next(w, Close(h));
            && t.status.lastStart == Some(Stored(w.handlers[h].executed)) && t.status.lastEnd == None
            && t.status.pending == None && t.status.repeated == w.status.repeated + 1
            && t.status.schedule == w.status.schedule && t.status.start == w.status.start
  {
    assert GoodHandler(w, h, w.handlers[h]);
  }

  /**
    From an accepted final write on, nothing is decided and the execution stays
    marked as running, in every run in which no run of the pipeline ends and the
    schedule is not removed.
   */
  lemma {:induction false} NothingLaunchesWhileRunning(
    spec: Option<Schedule>, clock: int, acts: seq<Action>, h: nat, later: seq<Action>)
    requires Legal(Initial(spec, clock), acts)
    requires var w := After(Initial(spec, clock), acts);
             && Enabled(w, Close(h)) && w.handlers[h].version == w.version && w.spec.Some?
             && Legal(Next(w, Close(h)), later)
    requires NothingEnds(later)
    ensures var t := Next(After(Initial(spec, clock), acts), Close(h));
            After(t, later).decisions == t.decisions && Executing(After(t, later).status)
  {
    var w := After(Initial(spec, clock), acts);
    Reachable(spec, clock, acts);
    StepKeeps(w, Close(h));
    CloseMarksRunning(w, h);
    RunKeepsRunning(Next(w, Close(h)), later);
  }

  /** The end of a run of the pipeline frees the schedule: its end is stored, nothing else changes. */
  lemma {:induction false} EndFrees(w: World)
    requires Invariant(w)
    ensures var t := Next(w, EndExecution);
            t.status == w.status.(lastEnd := Some(Stored(w.clock))) && !Executing(t.status)
  {
    StoringTwice(w.status);
  }

  // ---------- instants of an unchanged schedule ----------

  ghost predicate SpecUnchanged(spec: Option<Schedule>, acts: seq<Action>) {
    forall a <- acts :: a.EditSpec? ==> a.spec == spec
  }

  /** Whatever pending date a reconcile stores lies in the future (`Schedules.FuturePendingIff`). */
  predicate FutureDate(a: Action) {
    a.Reconcile? && a.reading.duration.Some? ==> Stored(a.reading.second + a.reading.duration.value) > a.reading.second
  }

  ghost predicate FutureDates(acts: seq<Action>) {
    forall a <- acts :: FutureDate(a)
  }

  ghost predicate Rising(decisions: seq<int>) {
    && (forall i :: 0 <= i < |decisions| ==> Stored(decisions[i]) == decisions[i])
    && (forall i, k :: 0 <= i < k < |decisions| ==> decisions[i] < decisions[k])
  }

  /** The time before which no new decision is made: the pending date, or else now. */
  function NextDecision(st: Status, clock: int): int {
    if st.pending.Some? then st.pending.value else clock
  }

  ghost predicate RisingInvariant(w: World, s: Schedule) {
    && w.spec == Some(s)
    && (w.status.schedule.Some? ==> w.status.schedule.value.date == s.date)
    && Rising(w.decisions)
    && (w.decisions != [] ==> w.decisions[|w.decisions| - 1] + SECOND <= NextDecision(w.status, w.clock))
    && (forall h <- w.handlers :: !w.handlers[h].Sleeping? ==> w.handlers[h].executed <= w.clock)
  }

  lemma {:induction false} WholeGap(a: int, b: int)
    requires Stored(a) == a && Stored(b) == b && a < b
    ensures a + SECOND <= b
  {
    StoredWhole(a);
    StoredWhole(b);
  }

  lemma {:induction false} LaterSecond(last: int, t: int)
    requires Stored(last) == last && last + SECOND <= t
    ensures last + SECOND <= Stored(t)
  {
    StoredMonotone(last + SECOND, t);
    StoredWhole(last);
    WholeIsStored(last / SECOND + 1);
  }

  /** A reconcile that changes the status waits for the pending date. */
  lemma {:induction false} ReconcileWaits(w: World, r: Reading, s: Schedule)
    requires Invariant(w) && RisingInvariant(w, s) && w.clock <= r.first <= r.second
    requires var d := Decide(w.spec, w.status, r); d.Write? || d.Launch?
    ensures NextDecision(w.status, w.clock) <= r.second
  {
  }

  /** What a write leaves pending was pending. */
  lemma {:induction false} WriteKeepsPending(s: Schedule, st: Status, r: Reading)
    requires Decide(Some(s), st, r).Write?
    ensures var t := Decide(Some(s), st, r).status;
            t.schedule == st.schedule && (t.pending == st.pending || t.pending.None?)
  {
  }

  /** A launch stores a pending date a second or more after its start. */
  lemma {:induction false} LaunchAhead(s: Schedule, st: Status, r: Reading)
    requires Decide(Some(s), st, r).Launch? && FutureDate(Reconcile(r, true))
    ensures var t := StoredStatus(Decide(Some(s), st, r).status);
            && t.schedule.Some? && t.schedule.value.date == s.date
            && t.pending.Some? && Stored(r.second) + SECOND <= t.pending.value
  {
    StoredIdempotent(r.second);
    StoredIdempotent(r.second + r.duration.value);
    StoredMonotone(r.second, r.second + r.duration.value);
    WholeGap(Stored(r.second), Stored(r.second + r.duration.value));
  }

  lemma {:induction false} RisingOn(decisions: seq<int>, t: int)
    requires Rising(decisions) && (decisions != [] ==> decisions[|decisions| - 1] + SECOND <= t)
    ensures Rising(decisions + [Stored(t)])
  {
    StoredIdempotent(t);
    if decisions != [] {
      LaterSecond(decisions[|decisions| - 1], t);
    }
  }

  lemma {:induction false} ReconcileRises(w: World, r: Reading, s: Schedule)
    requires Invariant(w) && RisingInvariant(w, s)
    requires w.clock <= r.first <= r.second && FutureDate(Reconcile(r, true))
    ensures RisingInvariant(ApplyReconcile(w, r).(clock := r.second), s)
  {
    var d := Decide(w.spec, w.status, r);
    if d.Launch? {
      ReconcileWaits(w, r, s);
      LaunchAhead(s, w.status, r);
      RisingOn(w.decisions, r.second);
    } else if d.Write? {
      ReconcileWaits(w, r, s);
      WriteKeepsPending(s, w.status, r);
    }
  }

  lemma {:induction false} CloseRises(w: World, h: nat, s: Schedule)
    requires Invariant(w) && RisingInvariant(w, s) && Enabled(w, Close(h))
    ensures RisingInvariant(ApplyClose(w, h), s)
  {
    assert GoodHandler(w, h, w.handlers[h]);
  }

  lemma {:induction false} RecheckRises(w: World, h: nat, now: int, s: Schedule)
    requires RisingInvariant(w, s) && Enabled(w, Recheck(h, now)) && w.clock <= now
    ensures RisingInvariant(ApplyRecheck(w, h, now).(clock := now), s)
  {
  }

  lemma {:induction false} CreateRises(w: World, h: nat, name: string, s: Schedule)
    requires RisingInvariant(w, s) && Enabled(w, CreateRun(h, name))
    ensures RisingInvariant(ApplyCreate(w, h, name), s)
  {
  }

  lemma {:induction false} EndRises(w: World, s: Schedule)
    requires Invariant(w) && RisingInvariant(w, s)
    ensures RisingInvariant(Next(w, EndExecution), s)
  {
    StoringTwice(w.status);
  }

  lemma {:induction false} StepRises(w: World, a: Action, s: Schedule)
    requires Invariant(w) && Enabled(w, a) && RisingInvariant(w, s) && InOrder(w, a)
    requires (a.EditSpec? ==> a.spec == Some(s)) && FutureDate(a)
    ensures RisingInvariant(Next(w, a), s)
  {
    match a
    case Reconcile(r, accepted) =>
      if accepted {
        ReconcileRises(w, r, s);
      }
    case Close(h) => CloseRises(w, h, s);
    case Recheck(h, now) => RecheckRises(w, h, now, s);
    case CreateRun(h, name) => CreateRises(w, h, name, s);
    case EndExecution => EndRises(w, s);
    case Tick(_) =>
    case EditSpec(_) =>
    case Touch =>
    case Crash(_) =>
  }

  lemma {:induction false} RunRises(w: World, acts: seq<Action>, s: Schedule)
    requires Invariant(w) && Legal(w, acts) && RisingInvariant(w, s) && OnTime(w, acts)
    requires SpecUnchanged(Some(s), acts) && FutureDates(acts)
    ensures RisingInvariant(After(w, acts), s)
    decreases |acts|
  {
    if acts != [] {
      assert acts[0] in acts && forall a <- acts[1..] :: a in acts;
      StepKeeps(w, acts[0]);
      StepRises(w, acts[0], s);
      RunRises(Next(w, acts[0]), acts[1..], s);
    }
  }

  /**
    While a schedule stays unchanged and its pending dates are stored in the
    future, no two decisions share a stored start instant, so everything said of
    distinct instants holds.
   */
  lemma {:induction false} DistinctWhileUnchanged(s: Schedule, clock: int, acts: seq<Action>)
    requires Legal(Initial(Some(s), clock), acts) && OnTime(Initial(Some(s), clock), acts)
    requires SpecUnchanged(Some(s), acts) && FutureDates(acts)
    ensures DistinctInstants(After(Initial(Some(s), clock), acts).decisions)
  {
    RunRises(Initial(Some(s), clock), acts, s);
  }

  /**
    So for such a schedule only the latest decision passes its check or has its
    final write accepted, and a goroutine's decision is the latest exactly when
    the stored start date is its own, at the create as at any other time.
   */
  lemma {:induction false} UnchangedLatestIff(s: Schedule, clock: int, acts: seq<Action>, h: nat, now: int)
    requires Legal(Initial(Some(s), clock), acts) && OnTime(Initial(Some(s), clock), acts)
    requires SpecUnchanged(Some(s), acts) && FutureDates(acts)
    requires h in After(Initial(Some(s), clock), acts).handlers
    ensures var w := After(Initial(Some(s), clock), acts);
            var g := w.handlers[h];
            && (h == |w.decisions| - 1 <==> w.status.start == g.snap.start)
            && (Check(g.snap, w.status, now) == Passes || (!g.Sleeping? && g.version == w.version) ==>
                 h == |w.decisions| - 1)
  {
    DistinctWhileUnchanged(s, clock, acts);
    OnlyLatestFires(Some(s), clock, acts, h, now);
    LatestIff(Some(s), clock, acts, h);
    if s.date == "" {
      RunKeepsIdle(Initial(Some(s), clock), acts, s);
    }
  }

  /** A schedule without a date is never acted on. */
  lemma {:induction false} RunKeepsIdle(w: World, acts: seq<Action>, s: Schedule)
    requires s.date == "" && w.spec == Some(s) && w.handlers == map[] && Legal(w, acts) && SpecUnchanged(Some(s), acts)
    ensures After(w, acts).handlers == map[]
    decreases |acts|
  {
    if acts != [] {
      assert acts[0] in acts && forall a <- acts[1..] :: a in acts;
      RunKeepsIdle(Next(w, acts[0]), acts[1..], s);
    }
  }

  /**
    Every run created by a goroutine was executed no earlier than its pending date and
    no later than its schedule's end date.
   */
  lemma {:induction false} RunsInWindow(spec: Option<Schedule>, clock: int, acts: seq<Action>, i: nat)
    requires Legal(Initial(spec, clock), acts) && i < |After(Initial(spec, clock), acts).runs|
    ensures var w := After(Initial(spec, clock), acts);
            var r := w.runs[i];
            && r.pending <= r.executed && (r.endDate.Some? ==> r.executed <= r.endDate.value)
            && InWindow(w.status)
  {
    Reachable(spec, clock, acts);
  }

  // ---------- counting ----------

  /** Goroutines between their create and their final write; `epoch` restricts to creates since the last reset. */
  function InFlight(w: World): set<nat> {
    set h | h in w.handlers && w.handlers[h].Created?
  }

  function InFlightNow(w: World): set<nat> {
    set h | h in w.handlers && w.handlers[h].Created? && w.handlers[h].epoch == w.epoch
  }

  /** Nothing is unaccounted for: every create is counted in the status, in flight, or lost. */
  ghost predicate Balanced(w: World) {
    && w.created == w.status.repeated + |InFlightNow(w)| + w.lost
    && |w.runs| == w.closed + |InFlight(w)| + w.lostEver
    && (forall h <- w.handlers :: w.handlers[h].Created? ==> w.handlers[h].epoch <= w.epoch)
  }

  lemma {:induction false} ReconcileCount(spec: Option<Schedule>, st: Status, r: Reading)
    requires GoodStatus(st)
    ensures var d := Decide(spec, st, r);
            d.Write? || d.Launch? ==>
              StoredStatus(d.status).repeated == if Resets(spec, st, d) then 0 else st.repeated
  {
  }

  /** A new sleeping goroutine is not in flight, and after a reset nothing created before it is. */
  lemma {:induction false} ReconcileFlight(w: World, r: Reading)
    requires forall h <- w.handlers :: h < |w.decisions|
    requires forall h <- w.handlers :: w.handlers[h].Created? ==> w.handlers[h].epoch <= w.epoch
    ensures var t := ApplyReconcile(w, r);
            && InFlight(t) == InFlight(w)
            && InFlightNow(t) == if t.epoch == w.epoch then InFlightNow(w) else {}
  {
    var t := ApplyReconcile(w, r);
    assert t.handlers == w.handlers || exists g :: t.handlers == w.handlers[|w.decisions| := Sleeping(g)];
    assert InFlight(t) == InFlight(w);
    if t.epoch == w.epoch {
      assert InFlightNow(t) == InFlightNow(w);
    } else {
      assert InFlightNow(t) == {};
    }
  }

  lemma {:induction false} HandlersNumbered(w: World)
    requires Invariant(w)
    ensures forall h <- w.handlers :: h < |w.decisions|
  {
    forall h | h in w.handlers ensures h < |w.decisions| {
      assert GoodHandler(w, h, w.handlers[h]);
    }
  }

  lemma {:induction false} ReconcileBalanced(w: World, r: Reading)
    requires Invariant(w) && Balanced(w)
    ensures Balanced(ApplyReconcile(w, r))
  {
    HandlersNumbered(w);
    ReconcileCount(w.spec, w.status, r);
    ReconcileFlight(w, r);
  }

  /** Removing goroutine `h` takes it out of flight. */
  lemma {:induction false} RemovedFromFlight(w: World, h: nat)
    requires h in w.handlers
    ensures InFlight(Without(w, h)) == InFlight(w) - {h}
    ensures InFlightNow(Without(w, h)) == InFlightNow(w) - {h}
    ensures h in InFlight(w) <==> w.handlers[h].Created?
    ensures h in InFlightNow(w) <==> w.handlers[h].Created? && w.handlers[h].epoch == w.epoch
  {
  }

  lemma {:induction false} SameFlight(w: World, t: World)
    requires t.handlers == w.handlers && t.epoch == w.epoch
    ensures InFlight(t) == InFlight(w) && InFlightNow(t) == InFlightNow(w)
  {
  }

  lemma {:induction false} RecheckBalanced(w: World, h: nat, now: int)
    requires Balanced(w) && Enabled(w, Recheck(h, now))
    ensures Balanced(ApplyRecheck(w, h, now))
  {
    var t := ApplyRecheck(w, h, now);
    assert InFlight(t) == InFlight(w) && InFlightNow(t) == InFlightNow(w);
  }

  lemma {:induction false} CreateBalanced(w: World, h: nat, name: string)
    requires Balanced(w) && Enabled(w, CreateRun(h, name))
    ensures Balanced(ApplyCreate(w, h, name))
  {
    var t := ApplyCreate(w, h, name);
    RemovedFromFlight(w, h);
    if name !in w.names {
      assert InFlight(t) == InFlight(w) + {h};
      assert InFlightNow(t) == InFlightNow(w) + {h};
    }
  }

  lemma {:induction false} CloseBalanced(w: World, h: nat)
    requires Invariant(w) && Balanced(w) && Enabled(w, Close(h))
    ensures Balanced(ApplyClose(w, h))
  {
    assert GoodHandler(w, h, w.handlers[h]);
    RemovedFromFlight(w, h);
    SameFlight(Without(w, h), ApplyClose(w, h));
  }

  lemma {:induction false} CrashBalanced(w: World, h: nat)
    requires Balanced(w) && Enabled(w, Crash(h))
    ensures Balanced(Next(w, Crash(h)))
  {
    RemovedFromFlight(w, h);
    SameFlight(Without(w, h), Next(w, Crash(h)));
  }

  lemma {:induction false} BalancedWithClock(w: World, clock: int)
    requires Balanced(w)
    ensures Balanced(w.(clock := clock))
  {
    SameFlight(w, w.(clock := clock));
  }

  lemma {:induction false} StepBalanced(w: World, a: Action)
    requires Invariant(w) && Balanced(w) && Enabled(w, a)
    ensures Balanced(Next(w, a))
  {
    match a
    case Tick(_) => SameFlight(w, Next(w, a));
    case EditSpec(_) => SameFlight(w, Next(w, a));
    case Touch => SameFlight(w, Next(w, a));
    case EndExecution => SameFlight(w, Next(w, a));
    case Reconcile(r, accepted) =>
      ReconcileBalanced(w, r);
      BalancedWithClock(if accepted then ApplyReconcile(w, r) else w, r.second);
    case Recheck(h, now) =>
      RecheckBalanced(w, h, now);
      BalancedWithClock(ApplyRecheck(w, h, now), now);
    case CreateRun(h, name) => CreateBalanced(w, h, name);
    case Close(h) => CloseBalanced(w, h);
    case Crash(h) => CrashBalanced(w, h);
  }

  lemma {:induction false} RunBalanced(w: World, acts: seq<Action>)
    requires Invariant(w) && Balanced(w) && Legal(w, acts)
    ensures Balanced(After(w, acts))
    decreases |acts|
  {
    if acts != [] {
      StepKeeps(w, acts[0]);
      StepBalanced(w, acts[0]);
      RunBalanced(Next(w, acts[0]), acts[1..]);
    }
  }

  /**
    Conservation. Since the last reset, the creates are exactly the executions
    counted in the status, plus those still in flight, plus those whose final
    write was lost. So the count never exceeds the creates, and equals them
    exactly when none is lost and none is in flight.
   */
  lemma {:induction false} RepeatedCountsRuns(spec: Option<Schedule>, clock: int, acts: seq<Action>)
    requires Legal(Initial(spec, clock), acts)
    ensures var w := After(Initial(spec, clock), acts);
            && w.created == w.status.repeated + |InFlightNow(w)| + w.lost
            && w.status.repeated <= w.created
            && (w.status.repeated == w.created <==> w.lost == 0 && InFlightNow(w) == {})
  {
    var w0 := Initial(spec, clock);
    assert InFlight(w0) == {} && InFlightNow(w0) == {};
    RunBalanced(w0, acts);
  }

  // ---------- a schedule that does not repeat ----------

  /** Either nothing has been closed yet, or exactly one execution has, and then nothing is pending again. */
  ghost predicate OnceInvariant(w: World, s: Schedule) {
    && w.spec == Some(s) && !s.repeat
    && (w.status.schedule.Some? ==> w.status.schedule.value.date == s.date)
    && w.closed == w.status.repeated <= 1
    && (w.closed == 1 ==> w.status.pending.None? && w.status.schedule.Some?)
  }

  lemma {:induction false} ReconcileKeepsOnce(w: World, r: Reading, s: Schedule)
    requires Invariant(w) && OnceInvariant(w, s)
    ensures OnceInvariant(ApplyReconcile(w, r), s)
  {
  }

  lemma {:induction false} CloseKeepsOnce(w: World, h: nat, s: Schedule)
    requires Invariant(w) && OnceInvariant(w, s) && Enabled(w, Close(h))
    ensures OnceInvariant(ApplyClose(w, h), s)
  {
    assert GoodHandler(w, h, w.handlers[h]);
  }

  lemma {:induction false} StepKeepsOnce(w: World, a: Action, s: Schedule)
    requires Invariant(w) && Enabled(w, a) && OnceInvariant(w, s) && (a.EditSpec? ==> a.spec == Some(s))
    ensures OnceInvariant(Next(w, a), s)
  {
    match a
    case Reconcile(r, _) => ReconcileKeepsOnce(w, r, s);
    case Close(h) => CloseKeepsOnce(w, h, s);
    case Tick(_) =>
    case EditSpec(_) =>
    case Touch =>
    case EndExecution =>
    case Recheck(_, _) =>
    case CreateRun(_, _) =>
    case Crash(_) =>
  }

  lemma {:induction false} RunKeepsOnce(w: World, acts: seq<Action>, s: Schedule)
    requires Invariant(w) && Legal(w, acts) && OnceInvariant(w, s) && SpecUnchanged(Some(s), acts)
    ensures OnceInvariant(After(w, acts), s)
    decreases |acts|
  {
    if acts != [] {
      assert acts[0] in acts && forall a <- acts[1..] :: a in acts;
      StepKeeps(w, acts[0]);
      StepKeepsOnce(w, acts[0], s);
      RunKeepsOnce(Next(w, acts[0]), acts[1..], s);
    }
  }

  /**
    At most once, exactly. While a schedule without repetition stays unchanged,
    the runs created are the execution counted in the status, which is at most
    one, those whose final write was lost and those whose final write is still to
    come. So there is at most one run exactly when these are at most one.
   */
  lemma {:induction false} AtMostOnceIff(s: Schedule, clock: int, acts: seq<Action>)
    requires !s.repeat && Legal(Initial(Some(s), clock), acts) && SpecUnchanged(Some(s), acts)
    ensures var w := After(Initial(Some(s), clock), acts);
            && |w.runs| == w.status.repeated + w.lostEver + |InFlight(w)| && w.status.repeated <= 1
            && (|w.runs| <= 1 <==> w.status.repeated + w.lostEver + |InFlight(w)| <= 1)
  {
    var w0 := Initial(Some(s), clock);
    assert InFlight(w0) == {} && InFlightNow(w0) == {};
    RunBalanced(w0, acts);
    RunKeepsOnce(w0, acts, s);
  }

  /**
    A create makes the first and only run of such a schedule exactly when no
    execution is counted, no final write has been lost and none is in flight.
   */
  lemma {:induction false} CreateIsOnlyIff(s: Schedule, clock: int, acts: seq<Action>, h: nat, name: string)
    requires !s.repeat && Legal(Initial(Some(s), clock), acts) && SpecUnchanged(Some(s), acts)
    requires var w := After(Initial(Some(s), clock), acts);
             Enabled(w, CreateRun(h, name)) && name !in w.names
    ensures var w := After(Initial(Some(s), clock), acts);
            |Next(w, CreateRun(h, name)).runs| <= 1 <==>
            w.status.repeated == 0 && w.lostEver == 0 && InFlight(w) == {}
  {
    AtMostOnceIff(s, clock, acts);
  }

  /** Nothing is lost, and nothing in flight is bound to be: the status is still what its goroutine read. */
  ghost predicate Clean(w: World) {
    w.lostEver == 0 && forall h <- InFlight(w) :: w.handlers[h].version == w.version
  }

  lemma {:induction false} AtMostOnceAtDistinctInstants(s: Schedule, clock: int, acts: seq<Action>)
    requires !s.repeat && Legal(Initial(Some(s), clock), acts) && SpecUnchanged(Some(s), acts)
    requires Clean(After(Initial(Some(s), clock), acts))
    requires DistinctInstants(After(Initial(Some(s), clock), acts).decisions)
    ensures |After(Initial(Some(s), clock), acts).runs| <= 1
  {
    var w0 := Initial(Some(s), clock);
    var w := After(w0, acts);
    AtMostOnceIff(s, clock, acts);
    RunKeepsOnce(w0, acts, s);
    Reachable(Some(s), clock, acts);
    if InFlight(w) != {} {
      forall h | h in InFlight(w) ensures h == |w.decisions| - 1 && w.closed == 0 {
        assert GoodHandler(w, h, w.handlers[h]);
      }
      var last := |w.decisions| - 1;
      assert InFlight(w) == {last};
    }
  }

  /**
    While a schedule without repetition stays unchanged and its pending dates are
    stored in the future, there is never more than one run, in flight or not, as
    long as no final write has been lost and none in flight is bound to be.
   */
  lemma {:induction false} AtMostOnceWhileClean(s: Schedule, clock: int, acts: seq<Action>)
    requires !s.repeat && Legal(Initial(Some(s), clock), acts) && OnTime(Initial(Some(s), clock), acts)
    requires SpecUnchanged(Some(s), acts) && FutureDates(acts)
    requires Clean(After(Initial(Some(s), clock), acts))
    ensures |After(Initial(Some(s), clock), acts).runs| <= 1
  {
    DistinctWhileUnchanged(s, clock, acts);
    AtMostOnceAtDistinctInstants(s, clock, acts);
  }

  // ---------- the race the results above leave open ----------

  lemma {:induction false} Prepend(w: World, a: Action, rest: seq<Action>)
    requires Enabled(w, a) && Legal(Next(w, a), rest)
    ensures Legal(w, [a] + rest) && After(w, [a] + rest) == After(Next(w, a), rest)
    ensures OnTime(w, [a] + rest) <==> InOrder(w, a) && OnTime(Next(w, a), rest)
  {
    assert ([a] + rest)[1..] == rest;
  }

  const ONCE := Schedule(None, "1s", None, false)

  function Due(start: int): Status {
    Status(Some(ONCE), Some(start), Some(start + SECOND), None, None, 0)
  }

  lemma {:induction false} DueDecisions()
    ensures Decide(Some(ONCE), CLEARED, Reading(0, Some(SECOND), 0)) == Launch(Due(0))
    ensures Decide(Some(ONCE), Due(0), Reading(SECOND, Some(SECOND), SECOND)) == Launch(Due(SECOND))
    ensures StoredStatus(Due(0)) == Due(0) && StoredStatus(Due(SECOND)) == Due(SECOND)
    ensures Check(Due(0), Due(0), SECOND) == Passes && Check(Due(SECOND), Due(SECOND), 2 * SECOND) == Passes
  {
    assert ONCE.date != "";
  }

  lemma {:induction false} Concatenate(w: World, first: seq<Action>, rest: seq<Action>)
    requires Legal(w, first) && Legal(After(w, first), rest)
    ensures Legal(w, first + rest) && After(w, first + rest) == After(After(w, first), rest)
    ensures OnTime(w, first + rest) <==> OnTime(w, first) && OnTime(After(w, first), rest)
    decreases |first|
  {
    if first == [] {
      assert first + rest == rest;
    } else {
      Concatenate(Next(w, first[0]), first[1..], rest);
      assert first + rest == [first[0]] + (first[1..] + rest);
      Prepend(w, first[0], first[1..] + rest);
    }
  }

  /** The state the race passes through: the first goroutine has checked, a second decision has been made meanwhile. */
  function Overtaken(): World {
    World(Some(ONCE), Due(SECOND), 2, SECOND,
      map[0 := Checked(Due(0), Due(0), 1, SECOND), 1 := Sleeping(Due(SECOND))],
      {}, [0, SECOND], [], 1, 0, 0, 0, 0)
  }

  const DECIDE_TWICE := [
    Reconcile(Reading(0, Some(SECOND), 0), true),
    Tick(SECOND),
    Recheck(0, SECOND),
    Reconcile(Reading(SECOND, Some(SECOND), SECOND), true)]

  const CREATE_TWICE := [CreateRun(0, "a"), Tick(2 * SECOND), Recheck(1, 2 * SECOND), CreateRun(1, "b")]

  lemma {:induction false} FourSteps(w: World, a: Action, b: Action, c: Action, d: Action)
    requires Enabled(w, a) && Enabled(Next(w, a), b) && Enabled(Next(Next(w, a), b), c)
    requires Enabled(Next(Next(Next(w, a), b), c), d)
    ensures Legal(w, [a, b, c, d]) && After(w, [a, b, c, d]) == Next(Next(Next(Next(w, a), b), c), d)
    ensures OnTime(w, [a, b, c, d]) <==>
            InOrder(w, a) && InOrder(Next(w, a), b) && InOrder(Next(Next(w, a), b), c)
            && InOrder(Next(Next(Next(w, a), b), c), d)
  {
    var w1 := Next(w, a);
    var w2 := Next(w1, b);
    var w3 := Next(w2, c);
    Prepend(w3, d, []);
    Prepend(w2, c, [d]);
    assert [c] + [d] == [c, d];
    Prepend(w1, b, [c, d]);
    assert [b] + [c, d] == [b, c, d];
    Prepend(w, a, [b, c, d]);
    assert [a] + [b, c, d] == [a, b, c, d];
  }

  lemma {:induction false} OvertakenReached()
    ensures Legal(Initial(Some(ONCE), 0), DECIDE_TWICE) && OnTime(Initial(Some(ONCE), 0), DECIDE_TWICE)
    ensures After(Initial(Some(ONCE), 0), DECIDE_TWICE) == Overtaken()
  {
    DueDecisions();
    var w0 := Initial(Some(ONCE), 0);
    var w1 := World(Some(ONCE), Due(0), 1, 0, map[0 := Sleeping(Due(0))], {}, [0], [], 1, 0, 0, 0, 0);
    assert Next(w0, DECIDE_TWICE[0]) == w1;
    var w2 := w1.(clock := SECOND);
    assert Next(w1, DECIDE_TWICE[1]) == w2;
    var w3 := w2.(handlers := map[0 := Checked(Due(0), Due(0), 1, SECOND)]);
    assert Next(w2, DECIDE_TWICE[2]) == w3;
    assert Next(w3, DECIDE_TWICE[3]) == Overtaken();
    FourSteps(w0, DECIDE_TWICE[0], DECIDE_TWICE[1], DECIDE_TWICE[2], DECIDE_TWICE[3]);
  }

  lemma {:induction false} OvertakenCreatesTwice()
    ensures Legal(Overtaken(), CREATE_TWICE) && OnTime(Overtaken(), CREATE_TWICE)
    ensures var w := After(Overtaken(), CREATE_TWICE);
            |w.runs| == 2 && w.lostEver == 0 && w.decisions == [0, SECOND] && w.runs[0].decision == 0
  {
    DueDecisions();
    var w4 := Overtaken();
    var w5 := Next(w4, CREATE_TWICE[0]);
    assert w5.handlers[1] == Sleeping(Due(SECOND));
    var w6 := Next(w5, CREATE_TWICE[1]);
    var w7 := Next(w6, CREATE_TWICE[2]);
    assert w7.handlers[1] == Checked(Due(SECOND), Due(SECOND), 2, 2 * SECOND);
    FourSteps(w4, CREATE_TWICE[0], CREATE_TWICE[1], CREATE_TWICE[2], CREATE_TWICE[3]);
  }

  /**
    Without a single crash, on a clock that runs forward and with all pending dates
    stored in the future, a schedule that does not repeat can create two runs,
    the first from a decision that is no longer the latest: a reconcile between a
    goroutine's check and its create takes the goroutine for lost and decides
    anew. At the end both final writes are still to come.
   */
  lemma {:induction false} RaceCreatesTwoRuns() returns (acts: seq<Action>)
    ensures Legal(Initial(Some(ONCE), 0), acts) && SpecUnchanged(Some(ONCE), acts)
    ensures OnTime(Initial(Some(ONCE), 0), acts) && FutureDates(acts)
    ensures forall a <- acts :: !a.Crash? && (a.Reconcile? ==> a.accepted)
    ensures var w := After(Initial(Some(ONCE), 0), acts);
            && |w.runs| == 2 && w.lostEver == 0
            && DistinctInstants(w.decisions) && |w.decisions| == 2 && w.runs[0].decision == 0
  {
    acts := DECIDE_TWICE + CREATE_TWICE;
    OvertakenReached();
    OvertakenCreatesTwice();
    Concatenate(Initial(Some(ONCE), 0), DECIDE_TWICE, CREATE_TWICE);
  }
}
