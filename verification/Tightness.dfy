/**
  The convergence bounds are attained. For every depth there is a run, a chain
  of finished jobs that starts out suspended, which one pass fewer does not
  settle: listed backwards it needs all of 2(depth+1) passes, listed in order
  all of depth+2.
 */
module Tightness {
  import opened JobStates
  import opened Gating
  import opened GatingRuns
  import opened Creation
  import opened Acyclicity
  import opened Convergence

  function Unary(i: nat): (s: string)
    ensures |s| == i
  {
    seq(i, _ => 'x')
  }

  function Link(i: nat): Job {
    Job(Unary(i), NOT_TRIGGERED, if i == 0 then [] else [Unary(i - 1)])
  }

  /** The place in the list of the k-th link. */
  function Place(depth: nat, backwards: bool, k: nat): nat
    requires k <= depth
  {
    if backwards then depth - k else k
  }

  function ChainRun(depth: nat, backwards: bool): seq<Job> {
    seq(depth + 1, k requires 0 <= k < depth + 1 => Link(Place(depth, backwards, k)))
  }

  const FINISHED := Observed(0, 1, 0, false, PhaseOther(""), "")

  function Start(depth: nat, backwards: bool): Store {
    map n | n in Names(ChainRun(depth, backwards)) :: KJob(true, NOT_TRIGGERED, Wait, "", FINISHED)
  }

  lemma {:induction false} ChainRunFacts(depth: nat, backwards: bool, n: string)
    ensures n in Names(ChainRun(depth, backwards)) <==> |n| <= depth && n == Unary(|n|)
    ensures Distinct(ChainRun(depth, backwards))
    ensures n in Names(ChainRun(depth, backwards)) ==> Before(ChainRun(depth, backwards), n) == Link(|n|).runBefore
    ensures n !in Names(ChainRun(depth, backwards)) ==> Before(ChainRun(depth, backwards), n) == []
  {
    var jobs := ChainRun(depth, backwards);
    assert forall k :: 0 <= k <= depth ==> |jobs[k].name| == Place(depth, backwards, k);
    if |n| <= depth && n == Unary(|n|) {
      assert jobs[Place(depth, backwards, |n|)].name == n;
    }
    if n in Names(jobs) {
      var k :| 0 <= k < |jobs| && jobs[k].name == n;
      BeforeOfDistinct(jobs, k);
    } else {
      BeforeOfAbsent(jobs, n);
    }
  }

  /** Link `i` cannot be unsuspended before this many passes, nor be seen as passed before one more. */
  function Delay(backwards: bool, i: nat): nat {
    if backwards then 2 * i + 1 else i + 1
  }

  ghost predicate LinkLags(backwards: bool, i: nat, k: KJob, t: nat) {
    && (t < Delay(backwards, i) ==> k.suspend)
    && (t < Delay(backwards, i) + 1 ==> !Passed(k.status))
  }

  /** `handled` links have been through pass t+1, the others through pass t only. */
  ghost predicate Lags(base: Store, backwards: bool, s: Store, t: nat, handled: set<string>) {
    && SameCluster(base, s)
    && forall n <- s :: LinkLags(backwards, |n|, s[n], if n in handled then t + 1 else t)
  }

  /** The predecessor of link `i`, as the scan finds it, has not passed while link `i` still has to lag. */
  lemma {:induction false} PredecessorLags(depth: nat, backwards: bool, s: Store, t: nat, p: nat)
    requires p <= depth && Lags(Start(depth, backwards), backwards, s, t, Names(ChainRun(depth, backwards)[..p]))
    requires Place(depth, backwards, p) > 0
    ensures var i := Place(depth, backwards, p);
            Unary(i - 1) in s && (t + 1 < Delay(backwards, i) ==> !Passed(s[Unary(i - 1)].status))
  {
    var jobs := ChainRun(depth, backwards);
    var i := Place(depth, backwards, p);
    var b := Unary(i - 1);
    ChainRunFacts(depth, backwards, b);
    if backwards {
      forall k | 0 <= k < p ensures jobs[..p][k].name != b {
        assert |jobs[..p][k].name| > i;
      }
      assert b !in Names(jobs[..p]);
    } else {
      assert jobs[..p][p - 1].name == b;
      assert b in Names(jobs[..p]);
    }
    assert LinkLags(backwards, i - 1, s[b], if b in Names(jobs[..p]) then t + 1 else t);
  }

  lemma {:induction false} SteppedLinkLags(jobs: seq<Job>, job: Job, backwards: bool, i: nat, s: Store, t: nat)
    requires job == Link(i) && Before(jobs, job.name) == job.runBefore
    requires job.name in s && s[job.name].trigger == NOT_TRIGGERED && s[job.name].obs == FINISHED
    requires LinkLags(backwards, i, s[job.name], t)
    requires i > 0 ==> Unary(i - 1) in s && (t + 1 < Delay(backwards, i) ==> !Passed(s[Unary(i - 1)].status))
    ensures var r := StepJob(jobs, job, s);
            r.error == NoError && LinkLags(backwards, i, r.store[job.name], t + 1)
  {
    GateMissingIff(job.runBefore, false, s);
    GateOpenIff(job.runBefore, false, s);
    DeterminedStates(s[job.name]);
  }

  lemma {:induction false} LinkAt(depth: nat, backwards: bool, p: nat)
    requires p <= depth
    ensures var jobs, link := ChainRun(depth, backwards), Link(Place(depth, backwards, p));
            && jobs[p] == link && Before(jobs, link.name) == link.runBefore
            && link.name in Names(jobs) && link.name !in Names(jobs[..p])
  {
    var jobs, n := ChainRun(depth, backwards), Unary(Place(depth, backwards, p));
    ChainRunFacts(depth, backwards, n);
    assert jobs[p].name == n;
    forall k | 0 <= k < p ensures jobs[..p][k].name != n {
      assert jobs[..p][k] == jobs[k];
    }
  }

  lemma {:induction false} LinkStep(depth: nat, backwards: bool, s: Store, t: nat, p: nat)
    requires p <= depth && Lags(Start(depth, backwards), backwards, s, t, Names(ChainRun(depth, backwards)[..p]))
    ensures var jobs := ChainRun(depth, backwards);
            var r := StepJob(jobs, jobs[p], s);
            && jobs[p].name in s && r.error == NoError
            && LinkLags(backwards, |jobs[p].name|, r.store[jobs[p].name], t + 1)
  {
    var i := Place(depth, backwards, p);
    LinkAt(depth, backwards, p);
    if i > 0 {
      PredecessorLags(depth, backwards, s, t, p);
    }
    SteppedLinkLags(ChainRun(depth, backwards), Link(i), backwards, i, s, t);
  }

  lemma {:induction false} OthersLag(
    base: Store, backwards: bool, s: Store, r: Store, name: string, t: nat, handled: set<string>)
    requires Lags(base, backwards, s, t, handled) && name in s
    requires r.Keys == s.Keys && (forall n <- s :: n != name ==> r[n] == s[n])
    requires r[name].obs == s[name].obs && r[name].trigger == s[name].trigger
    requires LinkLags(backwards, |name|, r[name], t + 1)
    ensures Lags(base, backwards, r, t, handled + {name})
  {
  }

  lemma {:induction false} StepLags(depth: nat, backwards: bool, s: Store, t: nat, p: nat)
    requires p <= depth && Lags(Start(depth, backwards), backwards, s, t, Names(ChainRun(depth, backwards)[..p]))
    ensures var jobs := ChainRun(depth, backwards);
            var r := StepJob(jobs, jobs[p], s);
            r.error == NoError && Lags(Start(depth, backwards), backwards, r.store, t, Names(jobs[..p + 1]))
  {
    var jobs := ChainRun(depth, backwards);
    LinkStep(depth, backwards, s, t, p);
    StepJobFacts(jobs, jobs[p], s);
    NamesExtend(jobs, p);
    var r := StepJob(jobs, jobs[p], s).store;
    OthersLag(Start(depth, backwards), backwards, s, r, jobs[p].name, t, Names(jobs[..p]));
  }

  ghost predicate StepsLag(jobs: seq<Job>, base: Store, backwards: bool) {
    forall s: Store, t: nat, p: nat
      {:trigger StepJob(jobs, jobs[p], s), Lags(base, backwards, s, t, Names(jobs[..p]))} ::
      p < |jobs| && Lags(base, backwards, s, t, Names(jobs[..p])) ==>
        StepJob(jobs, jobs[p], s).error == NoError &&
          Lags(base, backwards, StepJob(jobs, jobs[p], s).store, t, Names(jobs[..p + 1]))
  }

  ghost predicate EveryPassLags(jobs: seq<Job>, base: Store, backwards: bool) {
    forall s: Store, t: nat {:trigger Pass(jobs, 0, |jobs|, s), Lags(base, backwards, s, t, {})} ::
      Lags(base, backwards, s, t, {}) ==> Lags(base, backwards, Pass(jobs, 0, |jobs|, s).store, t + 1, {})
  }

  lemma {:induction false} ChainStepsLag(depth: nat, backwards: bool)
    ensures StepsLag(ChainRun(depth, backwards), Start(depth, backwards), backwards)
  {
    var jobs, base := ChainRun(depth, backwards), Start(depth, backwards);
    forall s: Store, t: nat, p: nat | p < |jobs| && Lags(base, backwards, s, t, Names(jobs[..p]))
      ensures StepJob(jobs, jobs[p], s).error == NoError &&
          Lags(base, backwards, StepJob(jobs, jobs[p], s).store, t, Names(jobs[..p + 1]))
    {
      StepLags(depth, backwards, s, t, p);
    }
  }

  lemma {:induction false} PassLags(jobs: seq<Job>, base: Store, backwards: bool, s: Store, t: nat, p: nat)
    requires StepsLag(jobs, base, backwards) && p <= |jobs| && Lags(base, backwards, s, t, Names(jobs[..p]))
    ensures Lags(base, backwards, Pass(jobs, p, |jobs|, s).store, t, Names(jobs))
    decreases |jobs| - p
  {
    if p == |jobs| {
      assert jobs[..p] == jobs;
    } else {
      var r := StepJob(jobs, jobs[p], s);
      PassLags(jobs, base, backwards, r.store, t, p + 1);
    }
  }

  lemma {:induction false} AllHandled(jobs: seq<Job>, base: Store, backwards: bool, s: Store, t: nat)
    requires base.Keys == Names(jobs) && Lags(base, backwards, s, t, Names(jobs))
    ensures Lags(base, backwards, s, t + 1, {})
  {
    assert s.Keys == Names(jobs);
  }

  lemma {:induction false} OnePassLags(jobs: seq<Job>, base: Store, backwards: bool)
    requires base.Keys == Names(jobs) && StepsLag(jobs, base, backwards)
    ensures EveryPassLags(jobs, base, backwards)
  {
    assert Names(jobs[..0]) == {};
    forall s: Store, t: nat | Lags(base, backwards, s, t, {})
      ensures Lags(base, backwards, Pass(jobs, 0, |jobs|, s).store, t + 1, {})
    {
      PassLags(jobs, base, backwards, s, t, 0);
      AllHandled(jobs, base, backwards, Pass(jobs, 0, |jobs|, s).store, t);
    }
  }

  lemma {:induction false} PassesLag(jobs: seq<Job>, base: Store, backwards: bool, s: Store, t: nat, n: nat)
    requires EveryPassLags(jobs, base, backwards) && Lags(base, backwards, s, t, {})
    ensures Lags(base, backwards, Passes(jobs, s, n), t + n, {})
    decreases n
  {
    if n > 0 {
      PassesLag(jobs, base, backwards, Pass(jobs, 0, |jobs|, s).store, t + 1, n - 1);
    }
  }

  ghost function ByLength(): string -> nat {
    (n: string) => |n|
  }

  lemma {:induction false} ChainRunRanked(depth: nat, backwards: bool)
    ensures Ranked(ChainRun(depth, backwards), ByLength())
  {
    forall n, b | b in Before(ChainRun(depth, backwards), n) ensures |b| < |n| {
      ChainRunFacts(depth, backwards, n);
    }
  }

  lemma {:induction false} NothingHeld(depth: nat, backwards: bool, i: nat)
    requires i <= depth && Ranked(ChainRun(depth, backwards), ByLength())
    ensures !GoalHeld(ChainRun(depth, backwards), ByLength(), Start(depth, backwards), Unary(i))
  {
    ChainRunFacts(depth, backwards, Unary(i));
    if i > 0 {
      NothingHeld(depth, backwards, i - 1);
      ChainRunFacts(depth, backwards, Unary(i - 1));
    }
  }

  lemma {:induction false} ChainsAreShort(depth: nat, backwards: bool, c: seq<string>)
    requires Chain(ChainRun(depth, backwards), c)
    ensures |c| <= |c[|c| - 1]| + 1 && |c| <= depth + 1
    decreases |c|
  {
    if |c| > 1 {
      var jobs := ChainRun(depth, backwards);
      ChainRunFacts(depth, backwards, c[|c| - 1]);
      assert c[|c| - 2] in Before(jobs, c[|c| - 1]);
      ChainsAreShort(depth, backwards, c[..|c| - 1]);
    }
  }

  lemma {:induction false} ChainRunClosed(depth: nat, backwards: bool)
    ensures Closed(ChainRun(depth, backwards), Start(depth, backwards))
  {
    var jobs, s := ChainRun(depth, backwards), Start(depth, backwards);
    forall n | n in s ensures forall b <- Before(jobs, n) :: b in s {
      ChainRunFacts(depth, backwards, n);
      if |n| > 0 {
        ChainRunFacts(depth, backwards, Unary(|n| - 1));
      }
    }
  }

  lemma {:induction false} ChainRunOrdered(depth: nat)
    ensures Ordered(ChainRun(depth, false))
  {
    var jobs := ChainRun(depth, false);
    forall i, b | 0 <= i < |jobs| && b in jobs[i].runBefore ensures b in Names(jobs[..i]) {
      assert jobs[..i][i - 1].name == b;
    }
  }

  /** One pass fewer than the bound of `Convergence.Convergence`. */
  function TooFew(depth: nat, backwards: bool): nat {
    if backwards then 2 * (depth + 1) - 1 else depth + 1
  }

  lemma {:induction false} LastLinkSettles(depth: nat, backwards: bool)
    requires Ranked(ChainRun(depth, backwards), ByLength())
    ensures Unary(depth) in Start(depth, backwards)
    ensures Goal(ChainRun(depth, backwards), ByLength(), Start(depth, backwards), Unary(depth)).status == Completed
  {
    ChainRunFacts(depth, backwards, Unary(depth));
    NothingHeld(depth, backwards, depth);
    assert DetermineJobState(KJob(false, NOT_TRIGGERED, Wait, "", FINISHED)) == Completed;
  }

  lemma {:induction false} StartLags(depth: nat, backwards: bool)
    ensures Lags(Start(depth, backwards), backwards, Start(depth, backwards), 0, {})
  {
  }

  lemma {:induction false} LateLink(base: Store, depth: nat, backwards: bool, late: Store)
    requires Lags(base, backwards, late, TooFew(depth, backwards), {}) && Unary(depth) in late
    ensures late[Unary(depth)].status != Completed
  {
    assert LinkLags(backwards, depth, late[Unary(depth)], TooFew(depth, backwards));
  }

  /** `jobs` and `s` stand for the chain and its start. */
  lemma {:induction false} LastLinkLags(depth: nat, backwards: bool, jobs: seq<Job>, s: Store)
    requires Ranked(jobs, ByLength())
    requires Unary(depth) in s && Goal(jobs, ByLength(), s, Unary(depth)).status == Completed
    requires EveryPassLags(jobs, s, backwards) && Lags(s, backwards, s, 0, {})
    ensures Passes(jobs, s, TooFew(depth, backwards)) != Settle(jobs, ByLength(), s)
  {
    var late := Passes(jobs, s, TooFew(depth, backwards));
    PassesLag(jobs, s, backwards, s, 0, TooFew(depth, backwards));
    LateLink(s, depth, backwards, late);
  }

  /** All the hypotheses of `Convergence.Convergence`, but one pass fewer than its bound: the store is not settled. */
  lemma {:induction false} BoundsAreAttained(depth: nat, backwards: bool)
    ensures var jobs, s := ChainRun(depth, backwards), Start(depth, backwards);
            && Ranked(jobs, ByLength()) && Closed(jobs, s)
            && ChainsWithin(jobs, depth)
            && (!backwards ==> Ordered(jobs))
            && Passes(jobs, s, TooFew(depth, backwards)) != Settle(jobs, ByLength(), s)
  {
    ChainRunRanked(depth, backwards);
    ChainRunClosed(depth, backwards);
    ChainRunOrdered(depth);
    forall c | Chain(ChainRun(depth, backwards), c) ensures |c| <= depth + 1 {
      ChainsAreShort(depth, backwards, c);
    }
    StartLags(depth, backwards);
    LastLinkSettles(depth, backwards);
    ChainStepsLag(depth, backwards);
    OnePassLags(ChainRun(depth, backwards), Start(depth, backwards), backwards);
    LastLinkLags(depth, backwards, ChainRun(depth, backwards), Start(depth, backwards));
  }
}
