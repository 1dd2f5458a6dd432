/** The host side of a pass: the trees before, between and after its cycles. */
module HostPasses {
  import opened Results
  import opened Hosts
  import opened State
  import opened Protocol
  import opened Fates
  import opened Delivery
  import opened Neighbours
  import opened Passes
  import opened HostCycles

  /** The step of a pass from `t` to `now`, for the repository `repo` with these entries in memory. */
  ghost predicate Stepped(setup: Setup, dryRun: bool, repo: C.RepoRef, entries: Entries, o: Outside,
                          missed: Option<Stage>, t: Tree, now: Tree, faulted: bool) {
    if Tries(dryRun, entries, repo.fullRef, o) then
      var job := JobFrom(repo.fullRef, o);
      now in Trails(setup, repo, job.spec, job.content, o.failsAt == Some(Pulled), t, faulted, missed)
    else
      now == t
  }

  /** The trees that such a step can lead to, as a closed set. */
  ghost function StepTrees(setup: Setup, dryRun: bool, repo: C.RepoRef, entries: Entries, o: Outside,
                           missed: Option<Stage>, t: Tree, faulted: bool): iset<Tree> {
    iset now: Tree | forall k: nat {:trigger Asked(k)} :: Asked(k) ==>
      Stepped(setup, dryRun, repo, entries, o, missed, t, now, faulted)
  }

  lemma NoStep(setup: Setup, dryRun: bool, repo: C.RepoRef, entries: Entries, o: Outside, missed: Option<Stage>,
               t: Tree, faulted: bool)
    requires !Tries(dryRun, entries, repo.fullRef, o)
    ensures t in StepTrees(setup, dryRun, repo, entries, o, missed, t, faulted)
  {
  }

  ghost predicate SteppedAt(setup: Setup, dryRun: bool, before: World, outside: seq<Outside>, fates: seq<Fate>,
                            trees: seq<Tree>, flags: seq<bool>, k: nat)
    requires k < |fates| <= |setup.repos| && |fates| <= |outside| && k + 1 < |trees| && k < |flags|
  {
    Stepped(setup, dryRun, setup.repos[k], WorldAfter(dryRun, before, FullRefs(setup.repos), fates, k).memory,
            outside[k], fates[k].failsAt, trees[k], trees[k + 1], flags[k])
  }

  /**
    The trees before, between and after the cycles of a pass with these fates, from `first` to
    `last`; `flags` says in which of the cycles there was a fault.
   */
  ghost predicate Trodden(setup: Setup, dryRun: bool, before: World, outside: seq<Outside>, fates: seq<Fate>,
                          trees: seq<Tree>, flags: seq<bool>, first: Tree, last: Tree) {
    && |fates| <= |setup.repos| && |fates| <= |outside| && |trees| == |fates| + 1 && |flags| == |fates|
    && trees[0] == first && trees[|fates|] == last
    && forall k :: 0 <= k < |fates| ==> SteppedAt(setup, dryRun, before, outside, fates, trees, flags, k)
  }

  /** The same as a closed set. */
  ghost function PassTrees(setup: Setup, dryRun: bool, before: World, outside: seq<Outside>, fates: seq<Fate>,
                           flags: seq<bool>, first: Tree, last: Tree): iset<seq<Tree>> {
    iset trees: seq<Tree> | forall k: nat {:trigger Asked(k)} ::
      Asked(k) ==> Trodden(setup, dryRun, before, outside, fates, trees, flags, first, last)
  }

  lemma WhatWasTrodden(setup: Setup, dryRun: bool, before: World, outside: seq<Outside>, fates: seq<Fate>,
                       trees: seq<Tree>, flags: seq<bool>, first: Tree, last: Tree)
    requires trees in PassTrees(setup, dryRun, before, outside, fates, flags, first, last)
    ensures Trodden(setup, dryRun, before, outside, fates, trees, flags, first, last)
  {
    assert Asked(0);
  }

  lemma NoSteps(setup: Setup, dryRun: bool, before: World, outside: seq<Outside>, t: Tree)
    ensures [t] in PassTrees(setup, dryRun, before, outside, [], [], t, t)
  {
    assert Trodden(setup, dryRun, before, outside, [], [t], [], t, t);
  }

  lemma {:induction false} StepStays(setup: Setup, dryRun: bool, before: World, outside: seq<Outside>,
                                     fates: seq<Fate>, trees: seq<Tree>, flags: seq<bool>, fate: Fate, now: Tree,
                                     flag: bool, k: nat)
    requires k < |fates| < |setup.repos| && |fates| < |outside| && |trees| == |fates| + 1 && |flags| == |fates|
    requires SteppedAt(setup, dryRun, before, outside, fates, trees, flags, k)
    ensures SteppedAt(setup, dryRun, before, outside, fates + [fate], trees + [now], flags + [flag], k)
  {
    PrefixCounts(dryRun, before, FullRefs(setup.repos), fates, fates + [fate], k);
  }

  lemma {:induction false} StepIsNew(setup: Setup, dryRun: bool, before: World, outside: seq<Outside>,
                                     fates: seq<Fate>, trees: seq<Tree>, flags: seq<bool>, here: World, fate: Fate,
                                     now: Tree, flag: bool)
    requires |fates| < |setup.repos| && |fates| < |outside| && |trees| == |fates| + 1 && |flags| == |fates|
    requires here == WorldAfter(dryRun, before, FullRefs(setup.repos), fates, |fates|)
    requires Stepped(setup, dryRun, setup.repos[|fates|], here.memory, outside[|fates|], fate.failsAt, trees[|fates|],
                     now, flag)
    ensures SteppedAt(setup, dryRun, before, outside, fates + [fate], trees + [now], flags + [flag], |fates|)
  {
    PrefixCounts(dryRun, before, FullRefs(setup.repos), fates, fates + [fate], |fates|);
  }

  lemma CycleTakesStep(setup: Setup, dryRun: bool, before: World, outside: seq<Outside>, i: nat, p: Progress,
                       fate: Fate, trees: seq<Tree>, flags: seq<bool>, first: Tree, t: Tree, now: Tree, flag: bool,
                       more: seq<Fate>, all: seq<Tree>, every: seq<bool>)
    requires p in ProgressAt(dryRun, before, FullRefs(setup.repos), outside, i) && i < |setup.repos| && i < |outside|
    requires trees in PassTrees(setup, dryRun, before, outside, p.fates, flags, first, t)
    requires Stepped(setup, dryRun, setup.repos[i], p.world.memory, outside[i], fate.failsAt, t, now, flag)
    requires more == p.fates + [fate] && all == trees + [now] && every == flags + [flag]
    ensures all in PassTrees(setup, dryRun, before, outside, more, every, first, now)
  {
    WhatProgressed(dryRun, before, FullRefs(setup.repos), outside, i, p);
    WhatWasTrodden(setup, dryRun, before, outside, p.fates, trees, flags, first, t);
    forall k | 0 <= k < i + 1
      ensures SteppedAt(setup, dryRun, before, outside, more, all, every, k)
    {
      if k < i {
        StepStays(setup, dryRun, before, outside, p.fates, trees, flags, fate, now, flag, k);
      } else {
        StepIsNew(setup, dryRun, before, outside, p.fates, trees, flags, p.world, fate, now, flag);
      }
    }
    assert Trodden(setup, dryRun, before, outside, more, all, every, first, now);
  }

  /** How far a pass has come, in the world of the protocol and on the host. */
  datatype Stand = Stand(progress: Progress, trees: seq<Tree>, flags: seq<bool>, tree: Tree)

  /** The stands that a pass can have after `n` cycles, as a closed set. */
  ghost function Stands(setup: Setup, dryRun: bool, before: World, outside: seq<Outside>, n: nat,
                        first: Tree): iset<Stand> {
    iset s: Stand | forall k: nat {:trigger Asked(k)} :: Asked(k) ==>
      && s.progress in ProgressAt(dryRun, before, FullRefs(setup.repos), outside, n)
      && s.trees in PassTrees(setup, dryRun, before, outside, s.progress.fates, s.flags, first, s.tree)
  }

  lemma FirstStand(setup: Setup, dryRun: bool, before: World, outside: seq<Outside>, t: Tree)
    ensures Stand(Progress(before, 0, []), [t], [], t) in Stands(setup, dryRun, before, outside, 0, t)
  {
    NoProgress(dryRun, before, FullRefs(setup.repos), outside);
    NoSteps(setup, dryRun, before, outside, t);
  }

  lemma NextIsPlausible(setup: Setup, dryRun: bool, before: World, outside: seq<Outside>, i: nat, first: Tree, s: Stand)
    requires Flow(before.tags, FullRefs(setup.repos), outside) && i < |setup.repos|
    requires s in Stands(setup, dryRun, before, outside, i, first)
    ensures i < |outside| && outside[i] in PlausibleOnes(s.progress.world.tags, setup.repos[i].fullRef)
  {
    assert Asked(0);
    FlowGoesOn(dryRun, before, FullRefs(setup.repos), outside, i, s.progress);
  }

  lemma StandGoesOn(setup: Setup, dryRun: bool, before: World, outside: seq<Outside>, i: nat, first: Tree, s: Stand,
                    fate: Fate, flag: bool, r: Result<bool, Stage>, next: Stand)
    requires i < |setup.repos| && i < |outside| && s in Stands(setup, dryRun, before, outside, i, first)
    requires fate in FatesOf(dryRun, s.progress.world, setup.repos[i].fullRef, outside[i])
    requires CycleEnd(r, next.progress.world) == EndOf(dryRun, s.progress.world, setup.repos[i].fullRef, fate)
    requires next.progress.deployed == Counted(s.progress.deployed, r)
    requires next.progress.fates == s.progress.fates + [fate] && next.trees == s.trees + [next.tree]
    requires next.flags == s.flags + [flag]
    requires next.tree in StepTrees(setup, dryRun, setup.repos[i], s.progress.world.memory, outside[i], fate.failsAt,
                                    s.tree, flag)
    ensures next in Stands(setup, dryRun, before, outside, i + 1, first)
  {
    assert Asked(0);
    CycleTakesStep(setup, dryRun, before, outside, i, s.progress, fate, s.trees, s.flags, first, s.tree, next.tree,
                   flag, next.progress.fates, next.trees, next.flags);
    ProgressGoesOn(dryRun, before, FullRefs(setup.repos), outside, i, s.progress, fate, r, next.progress);
  }

  /** All that a pass leaves: its report, the trees that it went through, and the cycles with faults. */
  datatype Pass = Pass(report: Report, trees: seq<Tree>, flags: seq<bool>, tree: Tree)

  ghost predicate PassOver(setup: Setup, dryRun: bool, before: World, outside: seq<Outside>, cancelledAfter: nat,
                           first: Tree, pass: Pass) {
    && pass.report in Reports(dryRun, before, FullRefs(setup.repos), outside, cancelledAfter)
    && pass.trees in
         PassTrees(setup, dryRun, before, outside, pass.report.progress.fates, pass.flags, first, pass.tree)
    && (pass.report.outcome in {Skipped, LockUnavailable} ==> pass.tree == first)
  }

  ghost function PassesOver(setup: Setup, dryRun: bool, before: World, outside: seq<Outside>, cancelledAfter: nat,
                        first: Tree): iset<Pass> {
    iset pass: Pass |
      forall k: nat {:trigger Asked(k)} :: Asked(k) ==>
        PassOver(setup, dryRun, before, outside, cancelledAfter, first, pass)
  }

  lemma NoPass(setup: Setup, dryRun: bool, before: World, outside: seq<Outside>, cancelledAfter: nat, t: Tree,
               outcome: RunOutcome)
    requires outcome in {Skipped, LockUnavailable}
    ensures Pass(Report(outcome, Progress(before, 0, [])), [t], [], t) in
              PassesOver(setup, dryRun, before, outside, cancelledAfter, t)
  {
    NoReport(dryRun, before, FullRefs(setup.repos), outside, cancelledAfter);
    NoSteps(setup, dryRun, before, outside, t);
  }

  lemma PassDone(setup: Setup, dryRun: bool, before: World, outside: seq<Outside>, cancelledAfter: nat, first: Tree,
                 n: nat, s: Stand, outcome: RunOutcome)
    requires n <= |setup.repos| && s in Stands(setup, dryRun, before, outside, n, first)
    requires if n < |setup.repos| then n == cancelledAfter && outcome == Cancelled(n)
             else n <= cancelledAfter && outcome == Completed
    ensures Pass(Report(outcome, s.progress), s.trees, s.flags, s.tree) in
              PassesOver(setup, dryRun, before, outside, cancelledAfter, first)
  {
    assert Asked(0);
    if n < |setup.repos| {
      CancelledReport(dryRun, before, FullRefs(setup.repos), outside, n, s.progress);
    } else {
      CompletedReport(dryRun, before, FullRefs(setup.repos), outside, cancelledAfter, s.progress);
    }
  }

  /** The cycle with this number gets to the pull. */
  predicate TriesAt(setup: Setup, dryRun: bool, before: World, outside: seq<Outside>, fates: seq<Fate>, k: nat)
    requires k <= |fates| && k < |setup.repos| && k < |outside|
  {
    Tries(dryRun, WorldAfter(dryRun, before, FullRefs(setup.repos), fates, k).memory, setup.repos[k].fullRef,
          outside[k])
  }

  /** In a pass with these fates no cycle gets to the pull. */
  ghost predicate Quiet(setup: Setup, dryRun: bool, before: World, outside: seq<Outside>, fates: seq<Fate>) {
    && |fates| <= |setup.repos| && |fates| <= |outside|
    && forall k :: 0 <= k < |fates| ==> !TriesAt(setup, dryRun, before, outside, fates, k)
  }

  ghost function QuietOnes(setup: Setup, dryRun: bool, before: World, outside: seq<Outside>): iset<seq<Fate>> {
    iset fates: seq<Fate> | forall k: nat {:trigger Asked(k)} :: Asked(k) ==>
      Quiet(setup, dryRun, before, outside, fates)
  }

  lemma {:induction false} QuietSoFar(setup: Setup, dryRun: bool, before: World, outside: seq<Outside>, i: nat,
                                      p: Progress, fate: Fate)
    requires p in ProgressAt(dryRun, before, FullRefs(setup.repos), outside, i) && i < |setup.repos| && i < |outside|
    requires p.fates + [fate] in QuietOnes(setup, dryRun, before, outside)
    ensures p.fates in QuietOnes(setup, dryRun, before, outside)
    ensures !Tries(dryRun, p.world.memory, setup.repos[i].fullRef, outside[i])
  {
    var refs, more := FullRefs(setup.repos), p.fates + [fate];
    WhatProgressed(dryRun, before, refs, outside, i, p);
    assert Quiet(setup, dryRun, before, outside, more) by { assert Asked(0); }
    forall k | 0 <= k < i ensures !TriesAt(setup, dryRun, before, outside, p.fates, k) {
      PrefixCounts(dryRun, before, refs, p.fates, more, k);
      assert !TriesAt(setup, dryRun, before, outside, more, k);
    }
    PrefixCounts(dryRun, before, refs, p.fates, more, i);
    assert !TriesAt(setup, dryRun, before, outside, more, i);
    assert Quiet(setup, dryRun, before, outside, p.fates);
  }

  lemma QuietStand(setup: Setup, dryRun: bool, before: World, outside: seq<Outside>, i: nat, first: Tree, s: Stand,
                   fate: Fate)
    requires s in Stands(setup, dryRun, before, outside, i, first) && i < |setup.repos| && i < |outside|
    requires s.progress.fates + [fate] in QuietOnes(setup, dryRun, before, outside)
    ensures s.progress.fates in QuietOnes(setup, dryRun, before, outside)
    ensures !Tries(dryRun, s.progress.world.memory, setup.repos[i].fullRef, outside[i])
  {
    assert Asked(0);
    QuietSoFar(setup, dryRun, before, outside, i, s.progress, fate);
  }

  /** A quiet pass goes over one tree only. */
  lemma {:induction false} QuietTrees(setup: Setup, dryRun: bool, before: World, outside: seq<Outside>,
                                      fates: seq<Fate>, trees: seq<Tree>, flags: seq<bool>, first: Tree, last: Tree,
                                      n: nat)
    requires Trodden(setup, dryRun, before, outside, fates, trees, flags, first, last) && n <= |fates|
    requires fates in QuietOnes(setup, dryRun, before, outside)
    ensures trees[n] == first
  {
    if n > 0 {
      QuietTrees(setup, dryRun, before, outside, fates, trees, flags, first, last, n - 1);
      assert Quiet(setup, dryRun, before, outside, fates) by { assert Asked(0); }
      assert !TriesAt(setup, dryRun, before, outside, fates, n - 1);
      assert SteppedAt(setup, dryRun, before, outside, fates, trees, flags, n - 1);
    }
  }

  lemma HostEndSteps(setup: Setup, dryRun: bool, repo: C.RepoRef, entries: Entries, o: Outside,
                     missed: Option<Stage>, known: Targets, before: Snapshot, end: HostEnd)
    requires Tries(dryRun, entries, repo.fullRef, o)
    requires end in HostEnds(setup, repo, JobFrom(repo.fullRef, o), o.failsAt == Some(Pulled), missed, known, before)
    ensures end.now.tree in StepTrees(setup, dryRun, repo, entries, o, missed, before.tree, end.now.faulted)
  {
    assert Asked(0);
  }
}
