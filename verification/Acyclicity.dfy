/**
  When the dependency graph of a job list has no cycle: no path comes back to
  where it started, paths are bounded, and ranks fall along every edge are one
  and the same condition.
 */
module Acyclicity {
  import opened Gating
  import opened GatingRuns

  /** Ranks fall along every edge. */
  ghost predicate Ranked(jobs: seq<Job>, rank: string -> nat) {
    forall n, b :: b in Before(jobs, n) ==> rank(b) < rank(n)
  }

  ghost predicate Acyclic(jobs: seq<Job>) {
    exists rank: string -> nat :: Ranked(jobs, rank)
  }

  /** A dependency path that ends where it starts. */
  ghost predicate Cycle(jobs: seq<Job>, c: seq<string>) {
    Chain(jobs, c) && |c| > 1 && c[0] == c[|c| - 1]
  }

  ghost predicate Cyclic(jobs: seq<Job>) {
    exists c :: Cycle(jobs, c)
  }

  /** No dependency path has more than `depth` edges. */
  ghost predicate ChainsWithin(jobs: seq<Job>, depth: nat) {
    forall c :: Chain(jobs, c) ==> |c| <= depth + 1
  }

  // ---------- the longest path to a job ----------

  /** The length in edges of a longest path that ends at `n`, looking back no further than `fuel` edges. */
  ghost function Height(jobs: seq<Job>, fuel: nat, n: string): nat
    decreases fuel, 1, 0
  {
    if fuel == 0 then 0 else HeightOver(jobs, fuel - 1, Before(jobs, n))
  }

  ghost function HeightOver(jobs: seq<Job>, fuel: nat, before: seq<string>): nat
    decreases fuel, 2, |before|
  {
    if before == [] then 0
    else
      var first, rest := 1 + Height(jobs, fuel, before[0]), HeightOver(jobs, fuel, before[1..]);
      if first > rest then first else rest
  }

  lemma {:induction false} HeightOverFacts(jobs: seq<Job>, fuel: nat, before: seq<string>)
    ensures forall b <- before :: Height(jobs, fuel, b) < HeightOver(jobs, fuel, before)
    ensures HeightOver(jobs, fuel, before) > 0 ==>
              exists b :: b in before && HeightOver(jobs, fuel, before) == 1 + Height(jobs, fuel, b)
    decreases |before|
  {
    if before != [] {
      HeightOverFacts(jobs, fuel, before[1..]);
      assert before == [before[0]] + before[1..];
    }
  }

  lemma {:induction false} ChainExtend(jobs: seq<Job>, c: seq<string>, n: string)
    requires Chain(jobs, c) && c[|c| - 1] in Before(jobs, n)
    ensures Chain(jobs, c + [n])
  {
    var d := c + [n];
    forall i | 0 < i < |d| ensures d[i - 1] in Before(jobs, d[i]) {
      assert d[i - 1] == c[i - 1];
      assert i < |c| ==> d[i] == c[i];
    }
  }

  lemma {:induction false} HighChain(jobs: seq<Job>, fuel: nat, n: string) returns (c: seq<string>)
    ensures Chain(jobs, c) && c[|c| - 1] == n && |c| == Height(jobs, fuel, n) + 1
    decreases fuel
  {
    if Height(jobs, fuel, n) == 0 {
      c := [n];
    } else {
      HeightOverFacts(jobs, fuel - 1, Before(jobs, n));
      var b :| b in Before(jobs, n) && Height(jobs, fuel, n) == 1 + Height(jobs, fuel - 1, b);
      var shorter := HighChain(jobs, fuel - 1, b);
      ChainExtend(jobs, shorter, n);
      c := shorter + [n];
    }
  }

  lemma {:induction false} ChainBound(jobs: seq<Job>, fuel: nat, d: seq<string>)
    requires Chain(jobs, d) && |d| <= fuel + 1
    ensures |d| <= Height(jobs, fuel, d[|d| - 1]) + 1
    decreases fuel
  {
    if |d| > 1 {
      var n := d[|d| - 1];
      assert d[|d| - 2] in Before(jobs, n);
      HeightOverFacts(jobs, fuel - 1, Before(jobs, n));
      ChainBound(jobs, fuel - 1, d[..|d| - 1]);
    }
  }

  /** The rank of a job is the number of edges of a longest path that ends at it. */
  ghost function Heights(jobs: seq<Job>, depth: nat): string -> nat {
    n => Height(jobs, depth + 1, n)
  }

  lemma {:induction false} ChainBelowHeight(jobs: seq<Job>, depth: nat, d: seq<string>)
    requires ChainsWithin(jobs, depth) && Chain(jobs, d)
    ensures |d| <= Heights(jobs, depth)(d[|d| - 1]) + 1
  {
    ChainBound(jobs, depth + 1, d);
  }

  lemma {:induction false} LongestChain(jobs: seq<Job>, depth: nat, n: string) returns (c: seq<string>)
    requires ChainsWithin(jobs, depth)
    ensures Chain(jobs, c) && c[|c| - 1] == n && |c| == Heights(jobs, depth)(n) + 1
    ensures forall d :: Chain(jobs, d) && d[|d| - 1] == n ==> |d| <= |c|
  {
    c := HighChain(jobs, depth + 1, n);
    forall d | Chain(jobs, d) && d[|d| - 1] == n ensures |d| <= |c| {
      ChainBelowHeight(jobs, depth, d);
    }
  }

  /** A bound on the paths is all it takes: the longest paths rank the jobs, within that bound. */
  lemma {:induction false} HeightsRank(jobs: seq<Job>, depth: nat)
    requires ChainsWithin(jobs, depth)
    ensures Ranked(jobs, Heights(jobs, depth)) && forall n :: Heights(jobs, depth)(n) <= depth
  {
    forall n, b | b in Before(jobs, n) ensures Heights(jobs, depth)(b) < Heights(jobs, depth)(n) {
      var c := HighChain(jobs, depth + 1, b);
      ChainBound(jobs, depth, c);
      HeightOverFacts(jobs, depth, Before(jobs, n));
    }
    forall n ensures Heights(jobs, depth)(n) <= depth {
      var c := HighChain(jobs, depth + 1, n);
    }
  }

  // ---------- no cycle, bounded paths, ranks ----------

  lemma {:induction false} RanksRise(jobs: seq<Job>, rank: string -> nat, c: seq<string>)
    requires Ranked(jobs, rank) && Chain(jobs, c)
    ensures |c| > 1 ==> rank(c[0]) < rank(c[|c| - 1])
    decreases |c|
  {
    if |c| > 1 {
      assert c[|c| - 2] in Before(jobs, c[|c| - 1]);
      RanksRise(jobs, rank, c[..|c| - 1]);
    }
  }

  ghost predicate NoRepeats(s: seq<string>) {
    forall i, k :: 0 <= i < k < |s| ==> s[i] != s[k]
  }

  function Elements(s: seq<string>): set<string> {
    set i | 0 <= i < |s| :: s[i]
  }

  lemma {:induction false} ElementsExtend(front: seq<string>, last: string)
    ensures Elements(front + [last]) == Elements(front) + {last}
    ensures NoRepeats(front + [last]) <==> NoRepeats(front) && last !in Elements(front)
  {
    var s := front + [last];
    assert forall i :: 0 <= i < |front| ==> s[i] == front[i];
    assert s[|front|] == last;
  }

  lemma {:induction false} ElementsCount(s: seq<string>)
    ensures |Elements(s)| <= |s|
    ensures |Elements(s)| == |s| <==> NoRepeats(s)
  {
    if s != [] {
      var front, last := s[..|s| - 1], s[|s| - 1];
      assert s == front + [last];
      ElementsCount(front);
      ElementsExtend(front, last);
    }
  }

  lemma {:induction false} NamesAtMost(jobs: seq<Job>)
    ensures |Names(jobs)| <= |jobs|
    ensures |Names(jobs)| == |jobs| <==> Distinct(jobs)
  {
    var names := seq(|jobs|, i requires 0 <= i < |jobs| => jobs[i].name);
    assert forall i :: 0 <= i < |jobs| ==> names[i] == jobs[i].name;
    assert Names(jobs) == Elements(names);
    ElementsCount(names);
  }

  lemma {:induction false} SubsetCount(a: set<string>, b: set<string>)
    requires a <= b
    ensures |a| <= |b| && (|a| == |b| <==> a == b)
  {
    assert |b| == |a| + |b - a|;
    assert b == a + (b - a);
  }

  /** Where there is no cycle, a path passes through every job at most once. */
  lemma {:induction false} AcyclicChainBound(jobs: seq<Job>, c: seq<string>)
    requires Chain(jobs, c) && !Cyclic(jobs)
    ensures |c| <= |jobs| + 1
  {
    var tail := c[1..];
    forall i, k | 0 <= i < k < |tail| ensures tail[i] != tail[k] {
      var loop := c[i + 1..k + 2];
      assert Chain(jobs, loop) by {
        forall j | 0 < j < |loop| ensures loop[j - 1] in Before(jobs, loop[j]) {
          assert c[i + j] in Before(jobs, c[i + 1 + j]);
        }
      }
      assert !Cycle(jobs, loop);
    }
    forall i | 0 <= i < |tail| ensures tail[i] in Names(jobs) {
      assert c[i] in Before(jobs, c[i + 1]);
      if tail[i] !in Names(jobs) {
        BeforeOfAbsent(jobs, tail[i]);
        assert false;
      }
    }
    ElementsCount(tail);
    SubsetCount(Elements(tail), Names(jobs));
    NamesAtMost(jobs);
  }

  /** Ranks exist exactly when no path comes back to where it started, and exactly when paths are bounded. */
  lemma {:induction false} AcyclicIff(jobs: seq<Job>)
    ensures Acyclic(jobs) <==> !Cyclic(jobs)
    ensures Acyclic(jobs) <==> exists depth: nat :: ChainsWithin(jobs, depth)
    ensures Acyclic(jobs) ==> ChainsWithin(jobs, |jobs|)
  {
    if Acyclic(jobs) {
      var rank: string -> nat :| Ranked(jobs, rank);
      forall c | Chain(jobs, c) ensures !Cycle(jobs, c) {
        RanksRise(jobs, rank, c);
      }
    }
    if !Cyclic(jobs) {
      forall c | Chain(jobs, c) ensures |c| <= |jobs| + 1 {
        AcyclicChainBound(jobs, c);
      }
      assert ChainsWithin(jobs, |jobs|);
    }
    if depth: nat :| ChainsWithin(jobs, depth) {
      HeightsRank(jobs, depth);
    }
  }
}
