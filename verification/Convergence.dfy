/**
  With the cluster standing still, repeated passes settle. The settled store is
  unique, and the number of passes is bounded by the longest dependency chain:
  twice its number of jobs for any list order, one more than that number when
  the list is ordered.
 */
module Convergence {
  import opened JobStates
  import opened Gating
  import opened GatingRuns
  import opened Creation
  import opened Acyclicity

  /** All jobs exist, all dependencies are jobs of the run, no trigger is set. */
  ghost predicate Closed(jobs: seq<Job>, s: Store) {
    && s.Keys == Names(jobs)
    && (forall n <- s :: forall b <- Before(jobs, n) :: b in s)
    && (forall n <- s :: s[n].trigger != TRIGGERED)
  }

  /** The same jobs with the same cluster report, whatever the operator has written on them. */
  ghost predicate SameCluster(s: Store, t: Store) {
    s.Keys == t.Keys && forall n <- s :: s[n].obs == t[n].obs && s[n].trigger == t[n].trigger
  }

  ghost function Passes(jobs: seq<Job>, s: Store, n: nat): Store
    decreases n
  {
    if n == 0 then s else Passes(jobs, Pass(jobs, 0, |jobs|, s).store, n - 1)
  }

  // ---------- the settled store ----------

  ghost predicate GoalHeld(jobs: seq<Job>, rank: string -> nat, s: Store, n: string)
    requires Ranked(jobs, rank)
    decreases rank(n)
  {
    exists b :: b in Before(jobs, n) &&
      !(b in s && !GoalHeld(jobs, rank, s, b) && Passed(DetermineJobState(s[b].(suspend := false))))
  }

  ghost function Goal(jobs: seq<Job>, rank: string -> nat, s: Store, n: string): KJob
    requires Ranked(jobs, rank) && n in s
  {
    var held := GoalHeld(jobs, rank, s, n);
    KJob(held, s[n].trigger, DetermineJobState(s[n].(suspend := held)), s[n].obs.reason, s[n].obs)
  }

  ghost function Settle(jobs: seq<Job>, rank: string -> nat, s: Store): Store
    requires Ranked(jobs, rank)
  {
    map n | n in s :: Goal(jobs, rank, s, n)
  }

  lemma {:induction false} GoalSameCluster(jobs: seq<Job>, rank: string -> nat, s: Store, t: Store, n: string)
    requires Ranked(jobs, rank) && SameCluster(s, t)
    ensures GoalHeld(jobs, rank, s, n) == GoalHeld(jobs, rank, t, n)
    ensures n in s ==> Goal(jobs, rank, s, n) == Goal(jobs, rank, t, n)
    decreases rank(n)
  {
    forall b | b in Before(jobs, n) ensures GoalHeld(jobs, rank, s, b) == GoalHeld(jobs, rank, t, b) {
      GoalSameCluster(jobs, rank, s, t, b);
    }
  }

  /** The settled store depends only on what the cluster reports. */
  lemma {:induction false} SettleSameCluster(jobs: seq<Job>, rank: string -> nat, s: Store, t: Store)
    requires Ranked(jobs, rank) && SameCluster(s, t)
    ensures Settle(jobs, rank, s) == Settle(jobs, rank, t)
  {
    forall n | n in s ensures Goal(jobs, rank, s, n) == Goal(jobs, rank, t, n) {
      GoalSameCluster(jobs, rank, s, t, n);
    }
  }

  // ---------- how far a job has settled ----------

  /** By level 2r+1 a job of rank r is suspended as it should be; by level 2r+2 it is entirely settled. */
  ghost predicate AtLevel(jobs: seq<Job>, rank: string -> nat, base: Store, s: Store, n: string, level: nat)
    requires Ranked(jobs, rank) && SameCluster(base, s) && n in s
  {
    && (2 * rank(n) + 1 <= level ==> s[n].suspend == GoalHeld(jobs, rank, base, n))
    && (2 * rank(n) + 2 <= level ==> s[n] == Goal(jobs, rank, base, n))
  }

  /** One step on a job takes it up, provided its predecessors are settled as far as its new level needs. */
  lemma {:induction false} StepSettles(jobs: seq<Job>, rank: string -> nat, base: Store, s: Store, job: Job, level: nat)
    requires Ranked(jobs, rank) && Closed(jobs, base) && SameCluster(base, s) && job.name in s
    requires 2 * rank(job.name) + 1 <= level ==>
               forall b <- Before(jobs, job.name) :: b in s && s[b] == Goal(jobs, rank, base, b)
    requires 2 * rank(job.name) + 2 <= level ==> s[job.name].suspend == GoalHeld(jobs, rank, base, job.name)
    ensures var r := StepJob(jobs, job, s);
            && r.error == NoError && SameCluster(base, r.store)
            && AtLevel(jobs, rank, base, r.store, job.name, level)
  {
    var n := job.name;
    var before := Before(jobs, n);
    GateOpenIff(before, false, s);
    GateMissingIff(before, false, s);
    if 2 * rank(n) + 1 <= level {
      forall b | b in before
        ensures Passed(s[b].status) <==>
                !GoalHeld(jobs, rank, base, b) && Passed(DetermineJobState(base[b].(suspend := false)))
      {
      }
    }
  }

  ghost predicate AllAtLevel(jobs: seq<Job>, rank: string -> nat, base: Store, s: Store, names: set<string>, level: nat)
    requires Ranked(jobs, rank)
  {
    SameCluster(base, s) && forall n <- s :: n in names ==> AtLevel(jobs, rank, base, s, n, level)
  }

  lemma {:induction false} JobReady(
    jobs: seq<Job>, rank: string -> nat, base: Store, s: Store, i: nat, level: nat, goal: nat)
    requires Ranked(jobs, rank) && Closed(jobs, base) && i < |jobs|
    requires AllAtLevel(jobs, rank, base, s, s.Keys, level)
    requires AllAtLevel(jobs, rank, base, s, Names(jobs[..i]), goal)
    requires goal == level + 1 || (goal == level + 2 && level % 2 == 1 && Ordered(jobs))
    requires 2 * rank(jobs[i].name) + 1 <= goal
    ensures forall b <- Before(jobs, jobs[i].name) :: b in s && s[b] == Goal(jobs, rank, base, b)
  {
    var name := jobs[i].name;
    assert name in Names(jobs);
    forall b | b in Before(jobs, name) ensures b in s && s[b] == Goal(jobs, rank, base, b) {
      assert rank(b) < rank(name);
      if goal == level + 2 {
        OrderedBefore(jobs, i);
        assert AtLevel(jobs, rank, base, s, b, goal);
      } else {
        assert AtLevel(jobs, rank, base, s, b, level);
      }
    }
  }

  lemma {:induction false} HandledJobSettles(
    jobs: seq<Job>, rank: string -> nat, base: Store, s: Store, i: nat, level: nat, goal: nat)
    requires Ranked(jobs, rank) && Closed(jobs, base) && i < |jobs|
    requires AllAtLevel(jobs, rank, base, s, s.Keys, level)
    requires AllAtLevel(jobs, rank, base, s, Names(jobs[..i]), goal)
    requires goal == level + 1 || (goal == level + 2 && level % 2 == 1 && Ordered(jobs))
    ensures var r := StepJob(jobs, jobs[i], s);
            && r.error == NoError && SameCluster(base, r.store)
            && AtLevel(jobs, rank, base, r.store, jobs[i].name, goal)
  {
    var job := jobs[i];
    assert job.name in Names(jobs);
    assert AtLevel(jobs, rank, base, s, job.name, level);
    if 2 * rank(job.name) + 1 <= goal {
      JobReady(jobs, rank, base, s, i, level, goal);
      if 2 * rank(job.name) + 2 <= goal {
        assert 2 * rank(job.name) + 1 <= level;
      }
      StepSettles(jobs, rank, base, s, job, goal);
    } else {
      StepSettles(jobs, rank, base, s, job, 0);
    }
  }

  lemma {:induction false} StepKeepsLevels(
    jobs: seq<Job>, rank: string -> nat, base: Store, s: Store, i: nat, level: nat, goal: nat)
    requires Ranked(jobs, rank) && Closed(jobs, base) && i < |jobs|
    requires AllAtLevel(jobs, rank, base, s, s.Keys, level)
    requires AllAtLevel(jobs, rank, base, s, Names(jobs[..i]), goal)
    requires goal == level + 1 || (goal == level + 2 && level % 2 == 1 && Ordered(jobs))
    ensures var r := StepJob(jobs, jobs[i], s);
            && r.error == NoError
            && AllAtLevel(jobs, rank, base, r.store, r.store.Keys, level)
            && AllAtLevel(jobs, rank, base, r.store, Names(jobs[..i + 1]), goal)
  {
    var job := jobs[i];
    HandledJobSettles(jobs, rank, base, s, i, level, goal);
    NamesExtend(jobs, i);
    assert job.name in Names(jobs);
    StepJobFacts(jobs, job, s);
    OthersKeepLevel(jobs, rank, base, s, StepJob(jobs, job, s).store, job.name, s.Keys, level, goal);
    OthersKeepLevel(jobs, rank, base, s, StepJob(jobs, job, s).store, job.name, Names(jobs[..i]), goal, goal);
  }

  lemma {:induction false} OthersKeepLevel(
    jobs: seq<Job>, rank: string -> nat, base: Store, s: Store, t: Store, name: string, names: set<string>,
    level: nat, goal: nat)
    requires Ranked(jobs, rank) && name in s && level <= goal
    requires AllAtLevel(jobs, rank, base, s, names, level)
    requires SameCluster(base, t) && forall n <- s :: n != name ==> t[n] == s[n]
    requires AtLevel(jobs, rank, base, t, name, goal)
    ensures AllAtLevel(jobs, rank, base, t, names + {name}, level)
  {
  }

  /** A pass over the rest of the list, started at `level`, where handled jobs reach `goal`. */
  lemma {:induction false} PassSettles(
    jobs: seq<Job>, rank: string -> nat, base: Store, s: Store, i: nat, level: nat, goal: nat)
    requires Ranked(jobs, rank) && Closed(jobs, base) && i <= |jobs|
    requires AllAtLevel(jobs, rank, base, s, s.Keys, level)
    requires AllAtLevel(jobs, rank, base, s, Names(jobs[..i]), goal)
    requires goal == level + 1 || (goal == level + 2 && level % 2 == 1 && Ordered(jobs))
    ensures var r := Pass(jobs, i, |jobs|, s);
            r.error == NoError && AllAtLevel(jobs, rank, base, r.store, Names(jobs), goal)
    decreases |jobs| - i
  {
    if i == |jobs| {
      assert jobs[..i] == jobs;
    } else {
      StepKeepsLevels(jobs, rank, base, s, i, level, goal);
      PassSettles(jobs, rank, base, StepJob(jobs, jobs[i], s).store, i + 1, level, goal);
    }
  }

  lemma {:induction false} OnePass(jobs: seq<Job>, rank: string -> nat, base: Store, s: Store, level: nat, goal: nat)
    requires Ranked(jobs, rank) && Closed(jobs, base)
    requires AllAtLevel(jobs, rank, base, s, Names(jobs), level)
    requires goal == level + 1 || (goal == level + 2 && level % 2 == 1 && Ordered(jobs))
    ensures var r := Pass(jobs, 0, |jobs|, s);
            r.error == NoError && AllAtLevel(jobs, rank, base, r.store, Names(jobs), goal)
  {
    assert Names(jobs[..0]) == {};
    PassSettles(jobs, rank, base, s, 0, level, goal);
  }

  /** Every pass gains `gain` levels: one in any list order, two in an ordered list from an odd level. */
  lemma {:induction false} PassesClimb(
    jobs: seq<Job>, rank: string -> nat, base: Store, s: Store, level: nat, gain: nat, n: nat)
    requires Ranked(jobs, rank) && Closed(jobs, base)
    requires AllAtLevel(jobs, rank, base, s, Names(jobs), level)
    requires gain == 1 || (gain == 2 && level % 2 == 1 && Ordered(jobs))
    ensures AllAtLevel(jobs, rank, base, Passes(jobs, s, n), Names(jobs), if gain == 1 then level + n
        else level + 2 * n)
    decreases n
  {
    if n > 0 {
      OnePass(jobs, rank, base, s, level, level + gain);
      PassesClimb(jobs, rank, base, Pass(jobs, 0, |jobs|, s).store, level + gain, gain, n - 1);
    }
  }

  lemma {:induction false} TopLevelIsSettled(jobs: seq<Job>, rank: string -> nat, base: Store, s: Store, level: nat)
    requires Ranked(jobs, rank) && Closed(jobs, base)
    requires AllAtLevel(jobs, rank, base, s, Names(jobs), level)
    requires forall n <- Names(jobs) :: 2 * rank(n) + 2 <= level
    ensures s == Settle(jobs, rank, base)
  {
    forall n | n in s ensures s[n] == Goal(jobs, rank, base, n) {
      assert AtLevel(jobs, rank, base, s, n, level);
    }
  }

  lemma {:induction false} SettledAfter(jobs: seq<Job>, rank: string -> nat, depth: nat, s: Store, n: nat)
    requires Ranked(jobs, rank) && Closed(jobs, s) && forall m <- Names(jobs) :: rank(m) <= depth
    requires n >= 2 * (depth + 1)
    ensures Passes(jobs, s, n) == Settle(jobs, rank, s)
  {
    PassesClimb(jobs, rank, s, s, 0, 1, n);
    TopLevelIsSettled(jobs, rank, s, Passes(jobs, s, n), n);
  }

  lemma {:induction false} OrderedSettledFrom(
    jobs: seq<Job>, rank: string -> nat, depth: nat, base: Store, first: Store, n: nat)
    requires Ranked(jobs, rank) && Closed(jobs, base) && forall m <- Names(jobs) :: rank(m) <= depth
    requires Ordered(jobs) && n >= depth + 1 && AllAtLevel(jobs, rank, base, first, Names(jobs), 1)
    ensures Passes(jobs, first, n) == Settle(jobs, rank, base)
  {
    PassesClimb(jobs, rank, base, first, 1, 2, n);
    TopLevelIsSettled(jobs, rank, base, Passes(jobs, first, n), 2 * n + 1);
  }

  lemma {:induction false} OrderedSettledAfter(jobs: seq<Job>, rank: string -> nat, depth: nat, s: Store, n: nat)
    requires Ranked(jobs, rank) && Closed(jobs, s) && forall m <- Names(jobs) :: rank(m) <= depth
    requires Ordered(jobs) && n >= depth + 2
    ensures Passes(jobs, s, n) == Settle(jobs, rank, s)
  {
    OnePass(jobs, rank, s, s, 0, 1);
    OrderedSettledFrom(jobs, rank, depth, s, Pass(jobs, 0, |jobs|, s).store, n - 1);
  }

  // ---------- the theorems ----------

  /**
    Convergence with a bound. In an acyclic graph whose longest chain has
    `depth` edges, 2(depth+1) passes settle the store whatever the list order,
    and depth+2 passes when the list is ordered. Further passes change nothing.
   */
  lemma {:induction false} Convergence(jobs: seq<Job>, depth: nat, s: Store, n: nat)
    requires ChainsWithin(jobs, depth) && Closed(jobs, s)
    requires n >= 2 * (depth + 1) || (Ordered(jobs) && n >= depth + 2)
    ensures Acyclic(jobs)
    ensures forall rank :: Ranked(jobs, rank) ==> Passes(jobs, s, n) == Settle(jobs, rank, s)
  {
    var heights := Heights(jobs, depth);
    HeightsRank(jobs, depth);
    if n >= 2 * (depth + 1) {
      SettledAfter(jobs, heights, depth, s, n);
    } else {
      OrderedSettledAfter(jobs, heights, depth, s, n);
    }
    forall rank | Ranked(jobs, rank) ensures Passes(jobs, s, n) == Settle(jobs, rank, s) {
      SettleAnyRank(jobs, heights, rank, s);
    }
  }

  lemma {:induction false} GoalAnyRank(jobs: seq<Job>, rank: string -> nat, other: string -> nat, s: Store, n: string)
    requires Ranked(jobs, rank) && Ranked(jobs, other)
    ensures GoalHeld(jobs, rank, s, n) == GoalHeld(jobs, other, s, n)
    decreases rank(n)
  {
    forall b | b in Before(jobs, n) ensures GoalHeld(jobs, rank, s, b) == GoalHeld(jobs, other, s, b) {
      GoalAnyRank(jobs, rank, other, s, b);
    }
  }

  lemma {:induction false} SettleAnyRank(jobs: seq<Job>, rank: string -> nat, other: string -> nat, s: Store)
    requires Ranked(jobs, rank) && Ranked(jobs, other)
    ensures Settle(jobs, rank, s) == Settle(jobs, other, s)
  {
    forall n | n in s ensures Goal(jobs, rank, s, n) == Goal(jobs, other, s, n) {
      GoalAnyRank(jobs, rank, other, s, n);
    }
  }

  lemma {:induction false} FixedPointStays(jobs: seq<Job>, s: Store, n: nat)
    requires Pass(jobs, 0, |jobs|, s) == PassResult(s, NoError)
    ensures Passes(jobs, s, n) == s
    decreases n
  {
    if n > 0 {
      FixedPointStays(jobs, s, n - 1);
    }
  }

  /**
    A store is left unchanged by a pass exactly when it is settled, and two
    stores with the same cluster report settle to the same store: the end of the
    passes does not depend on the suspensions and annotations they start from.
   */
  lemma {:induction false} UniqueFixedPoint(jobs: seq<Job>, rank: string -> nat, s: Store, t: Store)
    requires Ranked(jobs, rank) && Closed(jobs, s) && SameCluster(s, t)
    ensures Pass(jobs, 0, |jobs|, t) == PassResult(t, NoError) <==> t == Settle(jobs, rank, s)
  {
    SettleSameCluster(jobs, rank, s, t);
    if Pass(jobs, 0, |jobs|, t) == PassResult(t, NoError) {
      FixedIsSettled(jobs, rank, t);
    }
    if t == Settle(jobs, rank, s) {
      SettledIsFixed(jobs, rank, s, t);
    }
  }

  lemma {:induction false} FixedIsSettled(jobs: seq<Job>, rank: string -> nat, t: Store)
    requires Ranked(jobs, rank) && Closed(jobs, t) && Pass(jobs, 0, |jobs|, t) == PassResult(t, NoError)
    ensures t == Settle(jobs, rank, t)
  {
    var top := MaxRank(jobs, rank);
    FixedPointStays(jobs, t, 2 * (top + 1));
    SettledAfter(jobs, rank, top, t, 2 * (top + 1));
  }

  lemma {:induction false} SettledIsFixed(jobs: seq<Job>, rank: string -> nat, s: Store, t: Store)
    requires Ranked(jobs, rank) && Closed(jobs, s) && SameCluster(s, t) && t == Settle(jobs, rank, s)
    ensures Pass(jobs, 0, |jobs|, t) == PassResult(t, NoError)
  {
    var top := MaxRank(jobs, rank);
    var level := 2 * (top + 1);
    assert AllAtLevel(jobs, rank, s, t, Names(jobs), level);
    OnePass(jobs, rank, s, t, level, level + 1);
    TopLevelIsSettled(jobs, rank, s, Pass(jobs, 0, |jobs|, t).store, level + 1);
  }

  lemma {:induction false} MaxRank(jobs: seq<Job>, rank: string -> nat) returns (top: nat)
    ensures forall n <- Names(jobs) :: rank(n) <= top
  {
    if jobs == [] {
      top := 0;
    } else {
      var last := |jobs| - 1;
      top := MaxRank(jobs[..last], rank);
      NamesExtend(jobs, last);
      assert jobs[..last + 1] == jobs;
      if top < rank(jobs[last].name) {
        top := rank(jobs[last].name);
      }
    }
  }
}
