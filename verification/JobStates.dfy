/**
  Job states as the operator annotates them on Kubernetes jobs, and the pure
  functions over them: the category and rank tables, the state read off a
  Kubernetes job and its first pod, and the two-state maximum.
 */
module JobStates {

  /** The nine recognised annotation values; `Other` is any other text, `Other("")` no annotation at all. */
  datatype JobState =
    | Init | Wait | Stop
    | Run | Deleting
    | Completed | Deleted | Failed
    | Unknown
    | Other(text: string)

  const UNSET := Other("")

  datatype JobCategory = PreRun | InRun | PostRun | Uncategorized

  function Category(state: JobState): JobCategory {
    match state
    case Init | Wait | Stop => PreRun
    case Run | Deleting => InRun
    case Completed | Failed | Deleted => PostRun
    case Unknown | Other(_) => Uncategorized
  }

  function StateOrder(state: JobState): nat {
    match state
    case Failed => 8
    case Run => 7
    case Init => 6
    case Wait => 5
    case Completed => 4
    case Deleting => 3
    case Stop => 2
    case Deleted => 1
    case Unknown | Other(_) => 0
  }

  /** The later state wins a tie, as it does in the source. */
  function HigherOf(prev: JobState, next: JobState): JobState {
    if StateOrder(prev) > StateOrder(next) then prev else next
  }

  datatype PodPhase = PhasePending | PhaseRunning | PhaseOther(text: string)

  /** What the cluster, not the operator, writes: the job counters, the deletion mark and the first pod. */
  datatype Observed = Observed(
    active: nat, succeeded: nat, failed: nat, deleting: bool, phase: PodPhase, reason: string)

  const NOTHING_YET := Observed(0, 0, 0, false, PhaseOther(""), "")

  /** A Kubernetes job: the fields the operator writes, then what the cluster reports. */
  datatype KJob = KJob(suspend: bool, trigger: string, status: JobState, reason: string, obs: Observed)

  const TRIGGERED := "true"
  const NOT_TRIGGERED := "false"

  function DetermineJobState(k: KJob): JobState {
    if k.suspend || k.trigger == TRIGGERED then Wait
    else if k.obs.active > 0 then
      if k.obs.phase == PhasePending then Init
      else if k.obs.phase == PhaseRunning then Run
      else Deleted
    else if k.obs.succeeded > 0 then Completed
    else if k.obs.failed > 0 then Failed
    else if k.obs.deleting then
      if k.obs.active > 0 then Stop else Deleting
    else Init
  }

  /** A predecessor in one of these states lets the jobs after it run. */
  predicate Passed(state: JobState) {
    state != Failed && Category(state) == PostRun
  }

  ghost predicate Started(k: KJob) {
    k.obs.active > 0 || k.obs.succeeded > 0 || k.obs.failed > 0
  }

  /** The cluster shows an active job only with a pending or a running first pod. */
  ghost predicate PodAgrees(o: Observed) {
    o.active > 0 ==> o.phase == PhasePending || o.phase == PhaseRunning
  }

  ghost predicate OnHold(k: KJob) {
    k.suspend || k.trigger == TRIGGERED
  }

  /**
    Exactly when each state is read off a job. Stopping, unknown and free text are
    never produced; an active job with any other pod phase reads as deleted.
   */
  lemma {:induction false} DeterminedStates(k: KJob)
    ensures var s, o := DetermineJobState(k), k.obs;
            && (s == Wait <==> OnHold(k))
            && (s == Run <==> !OnHold(k) && o.active > 0 && o.phase == PhaseRunning)
            && (s == Deleted <==> !OnHold(k) && !PodAgrees(o))
            && (s == Completed <==> !OnHold(k) && o.active == 0 && o.succeeded > 0)
            && (s == Failed <==> !OnHold(k) && o.active == 0 && o.succeeded == 0 && o.failed > 0)
            && (s == Deleting <==> !OnHold(k) && !Started(k) && o.deleting)
            && (s == Init <==>
                 && !OnHold(k)
                 && if o.active > 0 then o.phase == PhasePending else !Started(k) && !o.deleting)
            && s !in {Stop, Unknown} && !s.Other?
  {
  }

  /**
    A job reads as passed exactly when it is free, and either finished with a success
    or active in a phase the source does not expect.
   */
  lemma {:induction false} PassedIff(k: KJob)
    ensures Passed(DetermineJobState(k)) <==> !OnHold(k) && if k.obs.active > 0 then !PodAgrees(k.obs)
        else k.obs.succeeded > 0
  {
    DeterminedStates(k);
  }
}
