/**
  The schedule protocol of the pipeline reconciler as functions on the stored
  status: what one reconcile decides, and whether a woken goroutine may fire.
  Times are nanoseconds; a time is stored with whole seconds.
 */
module Schedules {
  import opened Options

  const SECOND := 1_000_000_000

  /** A time as the API server keeps it: fractions of a second are dropped. */
  function Stored(t: int): (s: int)
    ensures s <= t < s + SECOND
  {
    t - t % SECOND
  }

  function StoredOption(t: Option<int>): Option<int> {
    if t.None? then None else Some(Stored(t.value))
  }

  datatype Schedule = Schedule(startDate: Option<int>, date: string, endDate: Option<int>, repeat: bool)

  /** The schedule fields of a pipeline's status. */
  datatype Status = Status(
    schedule: Option<Schedule>,
    start: Option<int>,
    pending: Option<int>,
    lastStart: Option<int>,
    lastEnd: Option<int>,
    repeated: nat)

  const CLEARED := Status(None, None, None, None, None, 0)

  function StoredSchedule(s: Schedule): Schedule {
    s.(startDate := StoredOption(s.startDate), endDate := StoredOption(s.endDate))
  }

  function StoredStatus(st: Status): Status {
    Status(
      if st.schedule.None? then None else Some(StoredSchedule(st.schedule.value)),
      StoredOption(st.start), StoredOption(st.pending), StoredOption(st.lastStart), StoredOption(st.lastEnd),
      st.repeated)
  }

  // ---------- the reconcile decision ----------

  /** The clock at the two places it is read, and what parsing the schedule date gave; None is a parse error. */
  datatype Reading = Reading(first: int, duration: Option<int>, second: int)

  datatype Decision =
    | Panic                   // a nil pointer is dereferenced
    | Keep                    // nothing is written
    | Fail                    // an error is returned, nothing is written
    | Write(status: Status)   // the status is written, a refused write is ignored
    | Launch(status: Status)  // the status is written and a goroutine started with a copy of it

  /** A pending execution whose date still matches the spec. */
  predicate PendingApplies(s: Schedule, st: Status) {
    st.pending.Some? && st.schedule.Some? && s.date == st.schedule.value.date
  }

  predicate MarkedRunning(st: Status) {
    st.lastStart.Some? && st.lastEnd.None?
  }

  /** A pending date that has passed without any execution means its goroutine is gone. */
  function DropStale(s: Schedule, st: Status): Status {
    if PendingApplies(s, st) && st.lastStart.None? then st.(pending := None) else st
  }

  predicate NewSchedule(s: Schedule, st: Status) {
    st.schedule.None? || st.schedule.value.date != s.date
  }

  function ResetIfNew(s: Schedule, st: Status): Status {
    if NewSchedule(s, st) then st.(lastStart := None, lastEnd := None, repeated := 0) else st
  }

  function Decide(spec: Option<Schedule>, st: Status, r: Reading): Decision {
    if spec.None? then Write(if st.schedule.None? then st else CLEARED)
    else if st.pending.Some? && st.schedule.None? then Panic
    else if PendingApplies(spec.value, st) && st.pending.value > r.first then Keep
    else DecideDue(spec.value, DropStale(spec.value, st), r)
  }

  function DecideDue(s: Schedule, st: Status, r: Reading): Decision {
    if MarkedRunning(st) then Keep
    else if s.date == "" then Write(st.(start := None))
    else if r.duration.None? then Fail
    else if s.endDate.Some? && st.pending.Some? && st.pending.value < s.endDate.value then Write(st.(pending := None))
    else if !s.repeat && st.repeated > 0 then Keep
    else if s.endDate.Some? && r.second + r.duration.value > s.endDate.value then Keep
    else Launch(ResetIfNew(s, st).(
           schedule := Some(s), start := Some(r.second), pending := Some(r.second + r.duration.value)))
  }

  /** Whether carrying out the decision starts a new count of executions. */
  predicate Resets(spec: Option<Schedule>, st: Status, d: Decision) {
    (spec.None? && st.schedule.Some?) || (spec.Some? && d.Launch? && NewSchedule(spec.value, st))
  }

  // ---------- the goroutine's check ----------

  datatype CheckResult = Abort | Panics | Passes

  /** The goroutine compares the status it was started with to the stored one, field by field, in the source's order. */
  function Check(snap: Status, current: Status, now: int): CheckResult {
    if snap.schedule.None? || snap.pending.None? then Abort
    else if snap.start.Some? != current.start.Some? then Abort
    else if snap.pending.Some? != current.pending.Some? then Abort
    else if current.schedule.None? then Panics
    else
      var mine, theirs := snap.schedule.value, current.schedule.value;
      if mine.endDate.Some? != theirs.endDate.Some? then Abort
      else if snap.start.Some? && snap.start != current.start then Abort
      else if snap.pending != current.pending then Abort
      else if mine.endDate.Some? && mine.endDate != theirs.endDate then Abort
      else if mine.repeat != theirs.repeat then Abort
      else if snap.repeated != current.repeated then Abort
      else if mine.endDate.Some? && now > mine.endDate.value then Abort
      else Passes
  }

  /** The status the goroutine writes after creating its run. */
  function Closing(base: Status, executed: int): Status {
    base.(repeated := base.repeated + 1, lastStart := Some(executed), lastEnd := None, pending := None)
  }

  // ---------- what every stored status satisfies ----------

  predicate NilSafe(st: Status) {
    (st.pending.Some? ==> st.schedule.Some?) && (st.start.Some? ==> st.schedule.Some?)
  }

  /** While an execution is marked running, none is pending. */
  predicate Exclusive(st: Status) {
    MarkedRunning(st) ==> st.pending.None?
  }

  predicate InWindow(st: Status) {
    st.pending.Some? && st.schedule.Some? && st.schedule.value.endDate.Some? ==>
      st.pending.value <= st.schedule.value.endDate.value
  }

  ghost predicate GoodStatus(st: Status) {
    NilSafe(st) && Exclusive(st) && InWindow(st)
  }

  lemma {:induction false} StoredMonotone(a: int, b: int)
    requires a <= b
    ensures Stored(a) <= Stored(b)
  {
    assert Stored(a) == SECOND * (a / SECOND) && Stored(b) == SECOND * (b / SECOND);
  }

  lemma {:induction false} StoredIdempotent(t: int)
    ensures Stored(Stored(t)) == Stored(t)
  {
    var q := t / SECOND;
    assert t - t % SECOND == SECOND * q;
    assert (SECOND * q) % SECOND == 0;
  }

  lemma {:induction false} StoredOptionIdempotent(t: Option<int>)
    ensures StoredOption(StoredOption(t)) == StoredOption(t)
  {
    if t.Some? {
      StoredIdempotent(t.value);
    }
  }

  /** A time and what is stored of it: the whole second it falls in. */
  ghost predicate SecondOf(stored: Option<int>, t: Option<int>) {
    && (stored.Some? <==> t.Some?)
    && (t.Some? ==> stored.value % SECOND == 0 && stored.value <= t.value < stored.value + SECOND)
  }

  lemma {:induction false} StoredSecond(t: int)
    ensures SecondOf(Some(Stored(t)), Some(t))
  {
    StoredWhole(t);
    assert (SECOND * (t / SECOND)) % SECOND == 0;
  }

  lemma {:induction false} StoredSecondOption(t: Option<int>)
    ensures SecondOf(StoredOption(t), t)
  {
    if t.Some? {
      StoredSecond(t.value);
    }
  }

  /** What the API server makes of a written status: every time becomes its second, all else is kept. */
  lemma {:induction false} StoredFields(st: Status)
    ensures var t := StoredStatus(st);
            && SecondOf(t.start, st.start) && SecondOf(t.pending, st.pending)
            && SecondOf(t.lastStart, st.lastStart) && SecondOf(t.lastEnd, st.lastEnd) && t.repeated == st.repeated
            && (t.schedule.Some? <==> st.schedule.Some?)
            && (st.schedule.Some? ==>
                 var a, b := t.schedule.value, st.schedule.value;
                 && SecondOf(a.startDate, b.startDate) && SecondOf(a.endDate, b.endDate)
                 && a.date == b.date && a.repeat == b.repeat)
  {
    StoredSecondOption(st.start);
    StoredSecondOption(st.pending);
    StoredSecondOption(st.lastStart);
    StoredSecondOption(st.lastEnd);
    if st.schedule.Some? {
      StoredSecondOption(st.schedule.value.startDate);
      StoredSecondOption(st.schedule.value.endDate);
    }
  }

  /** Storing a stored status changes nothing. */
  lemma {:induction false} StoringTwice(st: Status)
    ensures StoredStatus(StoredStatus(st)) == StoredStatus(st)
  {
    StoredOptionIdempotent(st.start);
    StoredOptionIdempotent(st.pending);
    StoredOptionIdempotent(st.lastStart);
    StoredOptionIdempotent(st.lastEnd);
    if st.schedule.Some? {
      StoredOptionIdempotent(st.schedule.value.startDate);
      StoredOptionIdempotent(st.schedule.value.endDate);
    }
  }

  lemma {:induction false} StoringKeepsGood(st: Status)
    requires GoodStatus(st)
    ensures GoodStatus(StoredStatus(st))
  {
    if st.pending.Some? && st.schedule.Some? && st.schedule.value.endDate.Some? {
      StoredMonotone(st.pending.value, st.schedule.value.endDate.value);
    }
  }

  /** Every status a reconcile writes is good when the one it read is, and it then never dereferences nil. */
  lemma {:induction false} DecideKeepsGood(spec: Option<Schedule>, st: Status, r: Reading)
    requires GoodStatus(st)
    ensures var d := Decide(spec, st, r);
            !d.Panic? && (d.Write? || d.Launch? ==> GoodStatus(d.status))
  {
  }

  /** A goroutine passes its check only on a status that still holds its own start, pending date, window and count. */
  lemma {:induction false} CheckMeaning(snap: Status, current: Status, now: int)
    requires snap.start.Some? && NilSafe(current)
    ensures Check(snap, current, now) != Panics
    ensures Check(snap, current, now) == Passes <==>
            && snap.schedule.Some? && snap.pending.Some? && current.schedule.Some?
            && snap.start == current.start && snap.pending == current.pending
            && snap.schedule.value.endDate == current.schedule.value.endDate
            && snap.schedule.value.repeat == current.schedule.value.repeat
            && snap.repeated == current.repeated
            && (snap.schedule.value.endDate.Some? ==> now <= snap.schedule.value.endDate.value)
  {
  }

  // ---------- which status leads to which decision ----------

  /** The stored schedule has the date of the spec. */
  ghost predicate SameDate(s: Schedule, st: Status) {
    st.schedule.Some? && st.schedule.value.date == s.date
  }

  /** The goroutine of the stored pending date is still to wake. */
  ghost predicate Waiting(s: Schedule, st: Status, now: int) {
    SameDate(s, st) && st.pending.Some? && now < st.pending.value
  }

  /** An execution has started and none has ended since. */
  ghost predicate Executing(st: Status) {
    st.lastStart.Some? && st.lastEnd.None?
  }

  /** A pending date before the end date that is not taken for lost: an execution or an edit has overtaken it. */
  ghost predicate Superseded(s: Schedule, st: Status) {
    && st.pending.Some? && s.endDate.Some? && st.pending.value < s.endDate.value
    && (SameDate(s, st) ==> st.lastStart.Some?)
  }

  /**
    Exactly when a reconcile starts a goroutine: none is waiting, no execution is
    under way, there is a readable date, no superseded date has to be withdrawn
    first, a schedule without repetition has not run, and the new date respects the
    end date. What is stored then, field by field.
   */
  lemma {:induction false} LaunchIff(s: Schedule, st: Status, r: Reading)
    requires NilSafe(st)
    ensures Decide(Some(s), st, r).Launch? <==>
            && !Waiting(s, st, r.first) && !Executing(st) && s.date != "" && r.duration.Some? && !Superseded(s, st)
            && (s.repeat || st.repeated == 0)
            && (s.endDate.None? || r.second + r.duration.value <= s.endDate.value)
    ensures Decide(Some(s), st, r).Launch? ==>
              var t := Decide(Some(s), st, r).status;
              && t.schedule == Some(s) && t.start == Some(r.second)
              && t.pending == Some(r.second + r.duration.value)
              && (SameDate(s, st) ==>
                   t.lastStart == st.lastStart && t.lastEnd == st.lastEnd && t.repeated == st.repeated)
              && (!SameDate(s, st) ==> t.lastStart == None && t.lastEnd == None && t.repeated == 0)
  {
  }

  /** Exactly when a reconcile writes without starting a goroutine, and what it takes back. */
  lemma {:induction false} WriteIff(s: Schedule, st: Status, r: Reading)
    requires NilSafe(st)
    ensures Decide(Some(s), st, r).Write? <==>
            && !Waiting(s, st, r.first) && !Executing(st)
            && (s.date == "" || (r.duration.Some? && Superseded(s, st)))
    ensures Decide(Some(s), st, r).Write? ==>
              var t := Decide(Some(s), st, r).status;
              && t.schedule == st.schedule && t.lastStart == st.lastStart && t.lastEnd == st.lastEnd
              && t.repeated == st.repeated
              && (s.date == "" ==>
                   t.start == None && t.pending == if SameDate(s, st) && st.lastStart == None then None else st.pending)
              && (s.date != "" ==> t.start == st.start && t.pending == None)
  {
  }

  /** A date that can be read neither as cron nor as a duration is reported exactly when it would have been used. */
  lemma {:induction false} FailIff(s: Schedule, st: Status, r: Reading)
    requires NilSafe(st)
    ensures Decide(Some(s), st, r) == Fail <==>
            !Waiting(s, st, r.first) && !Executing(st) && s.date != "" && r.duration.None?
  {
  }

  /** Removing the schedule clears all that is stored about it; without one nothing changes. */
  lemma {:induction false} RemovalDecision(st: Status, r: Reading)
    ensures Decide(None, st, r) == Write(if st.schedule.Some? then Status(None, None, None, None, None, 0) else st)
  {
  }

  /** A pending date without a stored schedule would be followed through a nil pointer, and nothing else would. */
  lemma {:induction false} PanicIff(s: Schedule, st: Status, r: Reading)
    ensures Decide(Some(s), st, r) == Panic <==> st.pending.Some? && st.schedule.None?
  {
  }

  // ---------- recovery from a lost goroutine ----------

  /** Nothing is marked running, and the pending date of the unchanged schedule is over. */
  ghost predicate Orphaned(s: Schedule, st: Status, now: int) {
    && s.date != "" && st.schedule.Some? && st.schedule.value.date == s.date
    && st.pending.Some? && st.pending.value <= now
    && !MarkedRunning(st)
    && (s.repeat || st.repeated == 0)
  }

  /** The status after a successful reconcile. */
  function Reconciled(spec: Option<Schedule>, st: Status, r: Reading): Status {
    var d := Decide(spec, st, r);
    if d.Write? || d.Launch? then StoredStatus(d.status) else st
  }

  /**
    If the goroutine of a pending execution is lost, one reconcile, or two when
    there is an end date and an execution has been before, persist a fresh
    pending date, unless that date would pass the end date. It lies in the future
    exactly when the schedule's duration reaches the next whole second.
   */
  lemma {:induction false} LostHandlerRecovery(s: Schedule, st: Status, r: Reading, r2: Reading)
    requires Orphaned(s, st, r.first) && r.first <= r.second <= r2.first <= r2.second
    requires r.duration.Some? && r2.duration.Some? && r.duration.value > 0 && r2.duration.value > 0
    ensures var d := Decide(Some(s), st, r);
            var after := Reconciled(Some(s), st, r);
            var d2 := Decide(Some(s), after, r2);
            || (d.Launch? && FreshPending(after, r))
            || (d.Write? && d2.Launch? && FreshPending(Reconciled(Some(s), after, r2), r2))
            || (d == Keep && s.endDate.Some? && r.second + r.duration.value > s.endDate.value)
            || (d.Write? && d2 == Keep && s.endDate.Some? && r2.second + r2.duration.value > s.endDate.value)
  {
    var d := Decide(Some(s), st, r);
    FuturePendingIff(r.second, r.duration.value);
    FuturePendingIff(r2.second, r2.duration.value);
    if d.Write? {
      assert s.endDate.Some? && d.status == st.(pending := None);
    }
  }

  ghost predicate FreshPending(st: Status, r: Reading) {
    && r.duration.Some?
    && st.pending == Some(Stored(r.second + r.duration.value))
    && (st.pending.value > r.second <==> r.duration.value >= SECOND - r.second % SECOND)
  }

  /** A pending date is stored in the future exactly when the duration reaches the next whole second. */
  lemma {:induction false} FuturePendingIff(t: int, d: int)
    ensures Stored(t + d) > t <==> d >= SECOND - t % SECOND
  {
    var next := Stored(t) + SECOND;
    StoredWhole(t);
    StoredWhole(t + d);
    if t + d >= next {
      StoredMonotone(next, t + d);
      WholeIsStored(t / SECOND + 1);
    }
  }

  lemma {:induction false} StoredWhole(t: int)
    ensures Stored(t) == SECOND * (t / SECOND)
  {
  }

  lemma {:induction false} WholeIsStored(k: int)
    ensures Stored(SECOND * k) == SECOND * k
  {
    assert (SECOND * k) % SECOND == 0;
  }

  const BRIEF := Schedule(None, "x", None, true)
  const PASSED := Status(Some(BRIEF), Some(0), Some(0), None, None, 0)
  const SHORTLY := Reading(1000, Some(1000), 1000)

  /** A lost goroutine, a positive duration, and a reconcile that persists a date which is already over. */
  lemma {:induction false} RecoveryIntoThePast()
    ensures Orphaned(BRIEF, PASSED, SHORTLY.first) && SHORTLY.duration.value > 0
    ensures Decide(Some(BRIEF), PASSED, SHORTLY).Launch?
    ensures Reconciled(Some(BRIEF), PASSED, SHORTLY).pending == Some(0) && 0 < SHORTLY.second
  {
    assert BRIEF.date != "";
    assert Decide(Some(BRIEF), PASSED, SHORTLY) == Launch(PASSED.(start := Some(1000), pending := Some(2000)));
    assert Stored(2000) == 0;
  }
}
