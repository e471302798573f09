/**
  From the tasks of a pipeline to the jobs of a run: every task name is renamed
  with one and the same suffix. The dependency graph of the jobs is that of the
  tasks, edge for edge, so whatever holds of one holds of the other.
 */
module Translation {
  import opened JobStates
  import opened Gating
  import opened GatingRuns
  import opened Creation
  import opened Acyclicity
  import opened Naming
  import opened Progress

  datatype Task = Task(name: string, trigger: bool, runBefore: seq<string>)

  function TriggerText(trigger: bool): string {
    if trigger then TRIGGERED else NOT_TRIGGERED
  }

  function RenameAll(names: seq<string>, hash: nat): seq<string> {
    seq(|names|, i requires 0 <= i < |names| => ShortName(names[i], hash))
  }

  function JobOf(task: Task, hash: nat): Job {
    Job(ShortName(task.name, hash), TriggerText(task.trigger), RenameAll(task.runBefore, hash))
  }

  function JobsOf(tasks: seq<Task>, hash: nat): seq<Job> {
    seq(|tasks|, i requires 0 <= i < |tasks| => JobOf(tasks[i], hash))
  }

  /** The tasks themselves as a job list, under their own names. */
  function Unrenamed(tasks: seq<Task>): seq<Job> {
    seq(|tasks|, i requires 0 <= i < |tasks| => Job(tasks[i].name, TriggerText(tasks[i].trigger), tasks[i].runBefore))
  }

  /** The loop over tasks; the hash is taken of the run's name and namespace. */
  method NewRunJobs(runName: string, namespace: string, tasks: seq<Task>, hashString: string -> nat)
    returns (jobs: seq<Job>)
    ensures jobs == JobsOf(tasks, hashString(runName + namespace))
  {
    jobs := [];
    ghost var hash := hashString(runName + namespace);
    for i := 0 to |tasks|
      invariant jobs == JobsOf(tasks, hash)[..i]
    {
      var task := tasks[i];
      var hashBy := runName + namespace;
      var jobName := ShortName(task.name, hashString(hashBy));
      var runBefore: seq<string> := [];
      for k := 0 to |task.runBefore|
        invariant runBefore == RenameAll(task.runBefore, hash)[..k]
      {
        runBefore := runBefore + [ShortName(task.runBefore[k], hashString(hashBy))];
      }
      assert runBefore == RenameAll(task.runBefore, hash);
      jobs := jobs + [Job(jobName, TriggerText(task.trigger), runBefore)];
    }
  }

  // ---------- the graph is the same ----------

  /**
    The entry at one place of a RunBefore list names a job exactly when the task's
    entry names that job's task; order and length are kept.
   */
  lemma {:induction false} EdgesPreserved(tasks: seq<Task>, hash: nat, i: nat, k: nat, m: nat)
    requires i < |tasks| && m < |tasks|
    ensures var jobs := JobsOf(tasks, hash);
            && |jobs| == |tasks| && |jobs[i].runBefore| == |tasks[i].runBefore|
            && (k < |tasks[i].runBefore| ==>
                 (jobs[i].runBefore[k] == jobs[m].name <==> tasks[i].runBefore[k] == tasks[m].name))
            && (jobs[i].name == jobs[m].name <==> tasks[i].name == tasks[m].name)
            && (ParseBool(jobs[i].trigger) <==> tasks[i].trigger)
  {
    ShortNameInjective(tasks[i].name, hash, tasks[m].name, hash);
    if k < |tasks[i].runBefore| {
      ShortNameInjective(tasks[i].runBefore[k], hash, tasks[m].name, hash);
    }
  }

  /**
    A renamed name is among the first jobs exactly when the name is among the first
    tasks; so dangling references stay dangling and others do not appear.
   */
  lemma {:induction false} NamesPreserved(tasks: seq<Task>, hash: nat, n: nat, name: string)
    requires n <= |tasks|
    ensures ShortName(name, hash) in Names(JobsOf(tasks, hash)[..n]) <==> name in Names(Unrenamed(tasks)[..n])
  {
    var jobs, plain := JobsOf(tasks, hash)[..n], Unrenamed(tasks)[..n];
    forall i | 0 <= i < n ensures jobs[i].name == ShortName(name, hash) <==> plain[i].name == name {
      ShortNameInjective(tasks[i].name, hash, name, hash);
    }
  }

  /** Distinctness and a dependency-respecting order hold of the jobs exactly when they hold of the tasks. */
  lemma {:induction false} ListShapePreserved(tasks: seq<Task>, hash: nat)
    ensures Distinct(JobsOf(tasks, hash)) <==> Distinct(Unrenamed(tasks))
    ensures Ordered(JobsOf(tasks, hash)) <==> Ordered(Unrenamed(tasks))
  {
    var jobs, plain := JobsOf(tasks, hash), Unrenamed(tasks);
    forall i, k | 0 <= i < k < |tasks| ensures jobs[i].name == jobs[k].name <==> plain[i].name == plain[k].name {
      EdgesPreserved(tasks, hash, i, 0, k);
    }
    forall i, k | 0 <= i < |tasks| && 0 <= k < |tasks[i].runBefore|
      ensures jobs[i].runBefore[k] in Names(jobs[..i]) <==> plain[i].runBefore[k] in Names(plain[..i])
    {
      NamesPreserved(tasks, hash, i, tasks[i].runBefore[k]);
    }
    if Ordered(jobs) {
      forall i, b | 0 <= i < |plain| && b in plain[i].runBefore ensures b in Names(plain[..i]) {
        var k :| 0 <= k < |plain[i].runBefore| && plain[i].runBefore[k] == b;
        assert jobs[i].runBefore[k] in jobs[i].runBefore;
      }
    }
    if Ordered(plain) {
      forall i, b | 0 <= i < |jobs| && b in jobs[i].runBefore ensures b in Names(jobs[..i]) {
        var k :| 0 <= k < |jobs[i].runBefore| && jobs[i].runBefore[k] == b;
        assert plain[i].runBefore[k] in plain[i].runBefore;
      }
    }
  }

  lemma {:induction false} BeforeRenamed(tasks: seq<Task>, hash: nat, name: string)
    ensures Before(JobsOf(tasks, hash), ShortName(name, hash)) == RenameAll(Before(Unrenamed(tasks), name), hash)
    decreases |tasks|
  {
    if tasks != [] {
      ShortNameInjective(tasks[0].name, hash, name, hash);
      assert JobsOf(tasks, hash)[1..] == JobsOf(tasks[1..], hash);
      assert Unrenamed(tasks)[1..] == Unrenamed(tasks[1..]);
      BeforeRenamed(tasks[1..], hash, name);
    }
  }

  lemma {:induction false} RenamedIn(names: seq<string>, name: string, hash: nat)
    ensures ShortName(name, hash) in RenameAll(names, hash) <==> name in names
  {
    forall i | 0 <= i < |names| ensures RenameAll(names, hash)[i] == ShortName(name, hash) <==> names[i] == name {
      ShortNameInjective(names[i], hash, name, hash);
    }
    if name in names {
      var i :| 0 <= i < |names| && names[i] == name;
      assert RenameAll(names, hash)[i] == ShortName(name, hash);
    }
  }

  /** A path of task names is a path in the task graph exactly when the renamed path is one in the job graph. */
  lemma {:induction false} ChainsPreserved(tasks: seq<Task>, hash: nat, c: seq<string>)
    ensures Chain(JobsOf(tasks, hash), RenameAll(c, hash)) <==> Chain(Unrenamed(tasks), c)
  {
    var d := RenameAll(c, hash);
    forall i | 0 < i < |c|
      ensures d[i - 1] in Before(JobsOf(tasks, hash), d[i]) <==> c[i - 1] in Before(Unrenamed(tasks), c[i])
    {
      BeforeRenamed(tasks, hash, c[i]);
      RenamedIn(Before(Unrenamed(tasks), c[i]), c[i - 1], hash);
    }
  }

  /**
    Only renamed names have predecessors, and these are renamed too: every edge of the
    job graph comes from a task edge.
   */
  lemma {:induction false} EdgeComesFromTask(tasks: seq<Task>, hash: nat, n: string, b: string)
    requires b in Before(JobsOf(tasks, hash), n)
    ensures n == ShortName(BeforeLastDash(n), hash) && b == ShortName(BeforeLastDash(b), hash)
    ensures BeforeLastDash(b) in Before(Unrenamed(tasks), BeforeLastDash(n))
  {
    var jobs := JobsOf(tasks, hash);
    if n !in Names(jobs) {
      BeforeOfAbsent(jobs, n);
    }
    var i :| 0 <= i < |jobs| && jobs[i].name == n;
    BaseNameRecovered(tasks[i].name, hash);
    BeforeRenamed(tasks, hash, tasks[i].name);
    var before := Before(Unrenamed(tasks), tasks[i].name);
    var k :| 0 <= k < |RenameAll(before, hash)| && RenameAll(before, hash)[k] == b;
    BaseNameRecovered(before[k], hash);
  }

  /** The job graph is acyclic exactly when the task graph is. */
  lemma {:induction false} AcyclicityPreserved(tasks: seq<Task>, hash: nat)
    ensures Acyclic(JobsOf(tasks, hash)) <==> Acyclic(Unrenamed(tasks))
  {
    if Acyclic(Unrenamed(tasks)) {
      var rank: string -> nat :| Ranked(Unrenamed(tasks), rank);
      JobsRanked(tasks, hash, rank);
    }
    if Acyclic(JobsOf(tasks, hash)) {
      var rank: string -> nat :| Ranked(JobsOf(tasks, hash), rank);
      TasksRanked(tasks, hash, rank);
    }
  }

  ghost function RankOfBase(rank: string -> nat): string -> nat {
    n => rank(BeforeLastDash(n))
  }

  ghost function RankOfRenamed(rank: string -> nat, hash: nat): string -> nat {
    n => rank(ShortName(n, hash))
  }

  lemma {:induction false} JobsRanked(tasks: seq<Task>, hash: nat, rank: string -> nat)
    requires Ranked(Unrenamed(tasks), rank)
    ensures Acyclic(JobsOf(tasks, hash))
  {
    var jobRank := RankOfBase(rank);
    forall n, b | b in Before(JobsOf(tasks, hash), n) ensures jobRank(b) < jobRank(n) {
      EdgeComesFromTask(tasks, hash, n, b);
    }
    assert Ranked(JobsOf(tasks, hash), jobRank);
  }

  lemma {:induction false} TasksRanked(tasks: seq<Task>, hash: nat, rank: string -> nat)
    requires Ranked(JobsOf(tasks, hash), rank)
    ensures Acyclic(Unrenamed(tasks))
  {
    var taskRank := RankOfRenamed(rank, hash);
    forall n, b | b in Before(Unrenamed(tasks), n) ensures taskRank(b) < taskRank(n) {
      BeforeRenamed(tasks, hash, n);
      RenamedIn(Before(Unrenamed(tasks), n), b, hash);
    }
    assert Ranked(Unrenamed(tasks), taskRank);
  }

  lemma {:induction false} DistinctTasks(tasks: seq<Task>)
    ensures Distinct(Unrenamed(tasks)) <==> forall i, k :: 0 <= i < k < |tasks| ==> tasks[i].name != tasks[k].name
  {
    assert forall i :: 0 <= i < |tasks| ==> Unrenamed(tasks)[i].name == tasks[i].name;
  }

  lemma {:induction false} UntriggeredTasks(tasks: seq<Task>, hash: nat, i: nat)
    requires i < |tasks|
    ensures ParseBool(JobsOf(tasks, hash)[i].trigger) <==> tasks[i].trigger
  {
  }

  lemma {:induction false} ListedDependencies(tasks: seq<Task>, hash: nat, i: nat)
    requires i < |tasks|
    ensures (forall b <- JobsOf(tasks, hash)[i].runBefore :: b in Names(JobsOf(tasks, hash))) <==>
            forall k :: 0 <= k < |tasks[i].runBefore| ==> tasks[i].runBefore[k] in Names(Unrenamed(tasks))
  {
    var jobs, plain := JobsOf(tasks, hash), Unrenamed(tasks);
    assert jobs[..|tasks|] == jobs && plain[..|tasks|] == plain;
    forall k | 0 <= k < |tasks[i].runBefore|
      ensures jobs[i].runBefore[k] in Names(jobs) <==> tasks[i].runBefore[k] in Names(plain)
    {
      NamesPreserved(tasks, hash, |tasks|, tasks[i].runBefore[k]);
    }
    assert forall k :: 0 <= k < |jobs[i].runBefore| ==> jobs[i].runBefore[k] in jobs[i].runBefore;
  }

  /**
    A translated run meets the conditions of `Progress.EveryJobCompletes` exactly when
    its tasks are distinct, untriggered and depend on tasks of the pipeline.
   */
  lemma {:induction false} PlainRunIff(tasks: seq<Task>, hash: nat)
    ensures PlainRun(JobsOf(tasks, hash)) <==>
            && (forall i, k :: 0 <= i < k < |tasks| ==> tasks[i].name != tasks[k].name)
            && (forall i :: 0 <= i < |tasks| ==> !tasks[i].trigger)
            && (forall i, k :: 0 <= i < |tasks| && 0 <= k < |tasks[i].runBefore| ==>
                 tasks[i].runBefore[k] in Names(Unrenamed(tasks)))
  {
    ListShapePreserved(tasks, hash);
    DistinctTasks(tasks);
    forall i | 0 <= i < |tasks|
      ensures ParseBool(JobsOf(tasks, hash)[i].trigger) <==> tasks[i].trigger
      ensures (forall b <- JobsOf(tasks, hash)[i].runBefore :: b in Names(JobsOf(tasks, hash))) <==>
              forall k :: 0 <= k < |tasks[i].runBefore| ==> tasks[i].runBefore[k] in Names(Unrenamed(tasks))
    {
      UntriggeredTasks(tasks, hash, i);
      ListedDependencies(tasks, hash, i);
    }
  }

  // ---------- Kubernetes job names ----------

  function KJobName(job: Job, runName: string, namespace: string, hashString: string -> nat): string {
    ShortName(job.name, hashString(job.name + runName + namespace))
  }

  /** Two jobs of a run get the same Kubernetes name exactly when they have the same name, for any hash function. */
  lemma {:induction false} KJobNameInjective(
    a: Job, b: Job, runName: string, namespace: string, hashString: string -> nat)
    ensures KJobName(a, runName, namespace, hashString) == KJobName(b, runName, namespace, hashString) <==>
        a.name == b.name
  {
    var hashA, hashB := hashString(a.name + runName + namespace), hashString(b.name + runName + namespace);
    ShortNameInjective(a.name, hashA, b.name, hashB);
  }

  /**
    Across runs, jobs share a Kubernetes name exactly when they share their name and
    the hash of job name, run name and namespace.
   */
  lemma {:induction false} KJobNamesAcrossRuns(
    a: Job, run1: string, namespace1: string, b: Job, run2: string, namespace2: string, hashString: string -> nat)
    ensures KJobName(a, run1, namespace1, hashString) == KJobName(b, run2, namespace2, hashString) <==>
            a.name == b.name && hashString(a.name + run1 + namespace1) == hashString(b.name + run2 + namespace2)
  {
    var hashA, hashB := hashString(a.name + run1 + namespace1), hashString(b.name + run2 + namespace2);
    ShortNameInjective(a.name, hashA, b.name, hashB);
  }
}
