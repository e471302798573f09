/**
  The pipeline reconciler's schedule code as it is written: a copy of the
  pipeline is changed field by field and then written back under optimistic
  concurrency, and the goroutine it starts works in three separate steps. Each
  method is proved against the functions of `Schedules`.
 */
module PipelineReconciler {
  import opened Options
  import opened Schedules

  /** A copy of the pipeline in memory, with the version it was read at. */
  class PipelineCopy {
    var spec: Option<Schedule>
    var schedule: Option<Schedule>
    var start: Option<int>
    var pending: Option<int>
    var lastStart: Option<int>
    var lastEnd: Option<int>
    var repeated: nat
    var version: nat

    function View(): Status
      reads this
    {
      Status(schedule, start, pending, lastStart, lastEnd, repeated)
    }

    constructor (spec: Option<Schedule>, status: Status, version: nat)
      ensures this.spec == spec && View() == status && this.version == version
    {
      this.spec, this.version := spec, version;
      schedule, start, pending := status.schedule, status.start, status.pending;
      lastStart, lastEnd, repeated := status.lastStart, status.lastEnd, status.repeated;
    }

    method Refresh(status: Status, version: nat)
      modifies this
      ensures View() == status && this.version == version && spec == old(spec)
    {
      this.version := version;
      schedule, start, pending := status.schedule, status.start, status.pending;
      lastStart, lastEnd, repeated := status.lastStart, status.lastEnd, status.repeated;
    }
  }

  /** The API server: the stored pipeline, and the names of the runs that exist. */
  class ApiServer {
    var spec: Option<Schedule>
    var status: Status
    var version: nat
    var runs: set<string>

    constructor (spec: Option<Schedule>)
      ensures this.spec == spec && status == CLEARED && version == 0 && runs == {}
    {
      this.spec, status, version, runs := spec, CLEARED, 0, {};
    }

    method Get() returns (p: PipelineCopy)
      ensures fresh(p) && p.spec == spec && p.View() == status && p.version == version
    {
      p := new PipelineCopy(spec, status, version);
    }

    /** Writes the status if the copy is current, and brings the copy up to date with what was stored. */
    method UpdateStatus(p: PipelineCopy) returns (ok: bool)
      modifies this`status, this`version, p
      ensures ok <==> old(p.version) == old(version)
      ensures ok ==>
                && status == StoredStatus(old(p.View()))
                && version == (if status == old(status) then old(version) else old(version) + 1)
                && p.View() == status && p.version == version && p.spec == old(p.spec)
      ensures !ok ==> unchanged(this) && unchanged(p)
    {
      if p.version != version {
        return false;
      }
      var stored := StoredStatus(p.View());
      if stored != status {
        status, version := stored, version + 1;
      }
      p.Refresh(status, version);
      ok := true;
    }

    /** Creates a run unless one of that name exists. */
    method CreateRun(name: string) returns (ok: bool)
      modifies this`runs
      ensures ok <==> name !in old(runs)
      ensures runs == old(runs) + {name}
    {
      ok := name !in runs;
      runs := runs + {name};
    }
  }

  /** What the stored pipeline must look like after a reconcile of copy `p`, whose version was `read`. */
  ghost predicate Committed(d: Decision, read: nat, before: Status, version: nat, after: Status, newVersion: nat) {
    if (d.Write? || d.Launch?) && read == version
    then after == StoredStatus(d.status) && newVersion == (if after == before then version else version + 1)
    else after == before && newVersion == version
  }

  /** Writes the copy back, ignoring a refusal. */
  method WriteBack(api: ApiServer, p: PipelineCopy)
    modifies api`status, api`version, p
    ensures Committed(Write(old(p.View())), old(p.version), old(api.status), old(api.version), api.status, api.version)
  {
    var _ := api.UpdateStatus(p);
  }

  /** Persists the next pending date and hands out the copy a goroutine is started with. */
  method LaunchNext(api: ApiServer, p: PipelineCopy, s: Schedule, r: Reading, pendingDate: int)
    returns (launched: Option<PipelineCopy>)
    requires p.spec == Some(s)
    modifies api`status, api`version, p
    ensures var next := ResetIfNew(s, old(p.View())).(
              schedule := Some(s), start := Some(r.second), pending := Some(pendingDate));
            Committed(Launch(next), old(p.version), old(api.status), old(api.version), api.status, api.version)
    ensures launched.Some? <==> old(p.version) == old(api.version)
    ensures launched.Some? ==> fresh(launched.value) && launched.value.View() == api.status
  {
    launched := None;
    if p.schedule.None? || p.schedule.value.date != s.date {
      p.lastStart, p.lastEnd, p.repeated := None, None, 0;
    }
    p.schedule, p.start, p.pending := Some(s), Some(r.second), Some(pendingDate);
    var ok := api.UpdateStatus(p);
    if ok {
      var snapshot := new PipelineCopy(p.spec, p.View(), p.version);
      launched := Some(snapshot);
    }
  }

  /** The part of a reconcile that follows the check of the pending date. */
  method ScheduleDue(api: ApiServer, p: PipelineCopy, s: Schedule, r: Reading)
    returns (launched: Option<PipelineCopy>, failed: bool)
    requires p.spec == Some(s)
    modifies api`status, api`version, p
    ensures var d := DecideDue(s, old(p.View()), r);
            && Committed(d, old(p.version), old(api.status), old(api.version), api.status, api.version)
            && (failed <==> d.Fail? || (d.Launch? && old(p.version) != old(api.version)))
            && (launched.Some? <==> d.Launch? && old(p.version) == old(api.version))
    ensures launched.Some? ==> fresh(launched.value) && launched.value.View() == api.status
  {
    launched, failed := None, false;
    if p.lastStart.Some? && p.lastEnd.None? {
      return;
    }
    if s.date == "" {
      p.start := None;
      WriteBack(api, p);
      return;
    }
    if r.duration.None? {
      failed := true;
      return;
    }
    if s.endDate.Some? && p.pending.Some? && p.pending.value < s.endDate.value {
      p.pending := None;
      WriteBack(api, p);
      return;
    }
    if !s.repeat && p.repeated > 0 {
      return;
    }
    var pendingDate := r.second + r.duration.value;
    if s.endDate.Some? && pendingDate > s.endDate.value {
      return;
    }
    launched := LaunchNext(api, p, s, r, pendingDate);
    failed := launched.None?;
  }

  /**
    One reconcile of the schedule on a copy. A nil schedule under a pending date
    would be dereferenced, so callers must not pass one; no reachable status is
    like that (`ScheduleRuns.NoNilDereference`).
   */
  method EnsureScheduleExecution(api: ApiServer, p: PipelineCopy, r: Reading)
    returns (launched: Option<PipelineCopy>, failed: bool)
    requires NilSafe(p.View())
    modifies api`status, api`version, p
    ensures var d := Decide(old(p.spec), old(p.View()), r);
            && Committed(d, old(p.version), old(api.status), old(api.version), api.status, api.version)
            && (failed <==> d.Fail? || (d.Launch? && old(p.version) != old(api.version)))
            && (launched.Some? <==> d.Launch? && old(p.version) == old(api.version))
    ensures launched.Some? ==> fresh(launched.value) && launched.value.View() == api.status
  {
    launched, failed := None, false;
    if p.spec.None? {
      if p.schedule.Some? {
        p.schedule, p.start, p.lastStart, p.lastEnd, p.repeated, p.pending := None, None, None, None, 0, None;
      }
      WriteBack(api, p);
      return;
    }
    if p.pending.Some? && p.spec.value.date == p.schedule.value.date {
      if p.pending.value > r.first {
        return;
      } else if p.lastStart.None? {
        p.pending := None;
      }
    }
    launched, failed := ScheduleDue(api, p, p.spec.value, r);
  }

  /** The woken goroutine's reads and comparisons: the current pipeline if it may fire, otherwise None. */
  method Recheck(api: ApiServer, snap: PipelineCopy, now: int) returns (current: Option<PipelineCopy>)
    requires snap.start.Some? && NilSafe(api.status)
    ensures current.Some? <==> Check(snap.View(), api.status, now) == Passes
    ensures current.Some? ==>
              fresh(current.value) && current.value.View() == api.status && current.value.version == api.version
  {
    current := None;
    if snap.schedule.None? || snap.pending.None? {
      return;
    }
    var cur := api.Get();
    if snap.start.Some? != cur.start.Some? || snap.pending.Some? != cur.pending.Some? {
      return;
    }
    var mine, theirs := snap.schedule.value, cur.schedule.value;
    if mine.endDate.Some? != theirs.endDate.Some? {
      return;
    }
    if snap.start.value != cur.start.value || snap.pending.value != cur.pending.value {
      return;
    }
    if mine.endDate.Some? && theirs.endDate.Some? && mine.endDate.value != theirs.endDate.value {
      return;
    }
    if mine.repeat != theirs.repeat || snap.repeated != cur.repeated {
      return;
    }
    if mine.endDate.Some? && now > mine.endDate.value {
      return;
    }
    current := Some(cur);
  }

  /** The goroutine's final write, on the copy it read before creating its run. */
  method CloseExecution(api: ApiServer, current: PipelineCopy, executed: int) returns (ok: bool)
    modifies api`status, api`version, current
    ensures ok <==> old(current.version) == old(api.version)
    ensures ok ==>
              && api.status == StoredStatus(Closing(old(current.View()), executed))
              && api.version == (if api.status == old(api.status) then old(api.version) else old(api.version) + 1)
    ensures !ok ==> api.status == old(api.status) && api.version == old(api.version)
  {
    current.repeated := current.repeated + 1;
    current.lastStart := Some(executed);
    current.lastEnd := None;
    current.pending := None;
    ok := api.UpdateStatus(current);
  }

  /**
    The goroutine from its wake-up on, with nobody else writing meanwhile: it
    creates a run and closes the execution exactly when its check passes and the
    run's name is free. `ScheduleRuns` has the three steps interleaved with all
    other writers.
   */
  method ExecuteSchedule(api: ApiServer, snap: PipelineCopy, now: int, runName: string) returns (fired: bool)
    requires snap.start.Some? && NilSafe(api.status)
    modifies api`status, api`version, api`runs
    ensures fired <==> Check(snap.View(), old(api.status), now) == Passes && runName !in old(api.runs)
    ensures api.runs == if fired then old(api.runs) + {runName} else old(api.runs)
    ensures api.status == if fired then StoredStatus(Closing(old(api.status), now)) else old(api.status)
    ensures !fired ==> api.version == old(api.version)
  {
    fired := false;
    var current := Recheck(api, snap, now);
    if current.None? {
      return;
    }
    var created := api.CreateRun(runName);
    if !created {
      return;
    }
    fired := CloseExecution(api, current.value, now);
  }
}
