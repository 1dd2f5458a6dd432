/**
  The daemon in service: from its start over any number of passes, what it records is at the
  targets; in a pass each repository fares as alone; and a pass over settled ones changes nothing.
 */
module Service {
  import opened Results
  import opened Hosts
  import opened State
  import opened Protocol
  import opened Requests
  import opened Fates
  import opened Delivery
  import opened Neighbours
  import opened Passes
  import opened HostCycles
  import opened HostPasses
  import opened Cycles
  import opened Watcher

  // ---- a pass and a cycle on its own ----

  /** The visits of the first `n` cycles of a pass. */
  function VisitsOf(setup: Setup, outside: seq<Outside>, n: nat): (visits: seq<Visit>)
    requires n <= |setup.repos| && n <= |outside|
    ensures |visits| == n
    ensures forall k :: 0 <= k < n ==> visits[k] == VisitOf(setup.repos[k], outside[k])
  {
    if n == 0 then [] else VisitsOf(setup, outside, n - 1) + [VisitOf(setup.repos[n - 1], outside[n - 1])]
  }

  function VisitOf(repo: C.RepoRef, o: Outside): Visit {
    Visit(repo, if repo.fullRef in o.atFetch then Current(o.atFetch, repo.fullRef) else "")
  }

  lemma StepVisits(setup: Setup, dryRun: bool, repo: C.RepoRef, entries: Entries, o: Outside, missed: Option<Stage>,
                   t: Tree, now: Tree, faulted: bool)
    requires Stepped(setup, dryRun, repo, entries, o, missed, t, now, faulted)
    ensures Visited(setup, VisitOf(repo, o), t, now)
  {
    if Tries(dryRun, entries, repo.fullRef, o) {
      var job := JobFrom(repo.fullRef, o);
      assert Trailed(setup, repo, job.spec, job.content, o.failsAt == Some(Pulled), t, now, faulted, missed);
    }
  }

  lemma {:induction false} PassVisits(setup: Setup, dryRun: bool, before: World, outside: seq<Outside>,
                                      fates: seq<Fate>, trees: seq<Tree>, flags: seq<bool>, first: Tree, last: Tree,
                                      n: nat)
    requires Trodden(setup, dryRun, before, outside, fates, trees, flags, first, last) && n <= |fates|
    ensures AllVisited(setup, VisitsOf(setup, outside, n), trees[..n + 1])
  {
    var visits, part := VisitsOf(setup, outside, n), trees[..n + 1];
    forall k | 0 <= k < n ensures VisitedAt(setup, visits, part, k) {
      assert SteppedAt(setup, dryRun, before, outside, fates, trees, flags, k);
      StepVisits(setup, dryRun, setup.repos[k], WorldAfter(dryRun, before, FullRefs(setup.repos), fates, k).memory,
                 outside[k], fates[k].failsAt, trees[k], trees[k + 1], flags[k]);
    }
  }

  /** When its turn comes in a pass, a repository has the record that it had before the pass. */
  lemma {:induction false} SameRecord(setup: Setup, dryRun: bool, before: World, fates: seq<Fate>, i: nat)
    requires i < |setup.repos| && i <= |fates|
    requires forall k :: 0 <= k < i ==> setup.repos[k].fullRef != setup.repos[i].fullRef
    ensures Recorded(WorldAfter(dryRun, before, FullRefs(setup.repos), fates, i).memory, setup.repos[i].fullRef)
         == Recorded(before.memory, setup.repos[i].fullRef)
  {
    BeforeItsTurn(dryRun, before, FullRefs(setup.repos), fates, i);
  }

  /**
    Fares as alone: take a cycle of a pass, and the cycle of the same repository on its own, from
    the tree at the beginning of the pass and under the same circumstances, both without a fault.
    If no neighbour can get in its way, the cycle misses in the pass the stage that it misses
    alone, and it is carried out in both or in neither, however the cycles before and after it
    ended and whatever failed in them.
   */
  lemma PassFaresAsAlone(setup: Setup, dryRun: bool, before: World, outside: seq<Outside>, fates: seq<Fate>,
                         trees: seq<Tree>, flags: seq<bool>, first: Tree, last: Tree, i: nat, alone: Option<Stage>,
                         end: Tree)
    requires WellSetUp(setup) && Neighbourly(setup)
    requires Trodden(setup, dryRun, before, outside, fates, trees, flags, first, last) && i < |fates| && !flags[i]
    requires forall k :: 0 <= k < i ==> setup.repos[k].fullRef != setup.repos[i].fullRef
    requires Tries(dryRun, before.memory, setup.repos[i].fullRef, outside[i])
    requires Stepped(setup, dryRun, setup.repos[i], before.memory, outside[i], alone, first, end, false)
    ensures fates[i].failsAt == alone
  {
    var repo, o := setup.repos[i], outside[i];
    var job, lost := JobFrom(repo.fullRef, o), o.failsAt == Some(Pulled);
    var visits := VisitsOf(setup, outside, i);
    SameRecord(setup, dryRun, before, fates, i);
    PassVisits(setup, dryRun, before, outside, fates, trees, flags, first, last, i);
    assert SteppedAt(setup, dryRun, before, outside, fates, trees, flags, i);
    assert Trailed(setup, repo, job.spec, job.content, lost, trees[i], trees[i + 1], false, fates[i].failsAt);
    assert Trailed(setup, repo, job.spec, job.content, lost, first, end, false, alone);
    FaresAsAlone(setup, visits, trees[..i + 1], repo, job.spec, ContentOf(setup, repo, job.content), lost, alone,
                 fates[i].failsAt);
  }

  // ---- a pass over settled repositories ----

  predicate AllSettled(setup: Setup, w: World) {
    forall k :: 0 <= k < |setup.repos| ==> SettledFor(w, setup.repos[k].fullRef)
  }

  /** The tags stand still during the first `n` cycles. */
  predicate Frozen(tags: Tags, outside: seq<Outside>, n: nat) {
    n <= |outside| && forall k :: 0 <= k < n ==>
      outside[k].atResolve == tags && outside[k].atFetch == tags && outside[k].atPull == tags
  }

  lemma {:induction false} SettledIsQuiet(setup: Setup, dryRun: bool, before: World, outside: seq<Outside>, n: nat,
                                          p: Progress)
    requires AllSettled(setup, before) && Frozen(before.tags, outside, |setup.repos|)
    requires p in ProgressAt(dryRun, before, FullRefs(setup.repos), outside, n)
    ensures p.world == before && p.deployed == 0 && p.fates in QuietOnes(setup, dryRun, before, outside)
  {
    var refs := FullRefs(setup.repos);
    WhatProgressed(dryRun, before, refs, outside, n, p);
    assert AllStill(before.tags, p.fates);
    SettledPassDoesNothing(dryRun, before, refs, p.fates, n);
    forall k | 0 <= k < n ensures !TriesAt(setup, dryRun, before, outside, p.fates, k) {
      SettledPassDoesNothing(dryRun, before, refs, p.fates, k);
      assert SettledFor(before, setup.repos[k].fullRef);
    }
    assert Quiet(setup, dryRun, before, outside, p.fates);
  }

  /**
    A pass over settled repositories, against a registry that stands still, changes nothing at all:
    neither the world of the protocol nor the host. How it ends and what fails in it is left open.
   */
  lemma {:induction false} SettledPassLeavesHost(setup: Setup, dryRun: bool, before: World, outside: seq<Outside>,
                                                 cancelledAfter: nat, first: Tree, pass: Pass)
    requires AllSettled(setup, before) && Frozen(before.tags, outside, |setup.repos|)
    requires pass in PassesOver(setup, dryRun, before, outside, cancelledAfter, first)
    ensures pass.report.progress.world == before && pass.report.progress.deployed == 0
    ensures pass.report.progress.fates in QuietOnes(setup, dryRun, before, outside)
    ensures pass.tree == first && forall t :: t in pass.trees ==> t == first
  {
    var p, refs := pass.report.progress, FullRefs(setup.repos);
    assert PassOver(setup, dryRun, before, outside, cancelledAfter, first, pass) by { assert Asked(0); }
    assert PassEnds(dryRun, before, refs, outside, cancelledAfter, pass.report);
    if pass.report.outcome.Cancelled? || pass.report.outcome.Completed? {
      SettledIsQuiet(setup, dryRun, before, outside,
                     if pass.report.outcome.Cancelled? then pass.report.outcome.after else |refs|, p);
    } else {
      assert Quiet(setup, dryRun, before, outside, p.fates);
    }
    WhatWasTrodden(setup, dryRun, before, outside, p.fates, pass.trees, pass.flags, first, pass.tree);
    forall k | 0 <= k < |pass.trees| ensures pass.trees[k] == first {
      QuietTrees(setup, dryRun, before, outside, p.fates, pass.trees, pass.flags, first, pass.tree, k);
    }
  }

  // ---- the daemon over time ----

  /**
    A daemon that has run the protocol since `first`, when every record it found was a true one,
    and whose targets tell the truth about the host.
   */
  ghost predicate InService(w: Watcher, first: World)
    reads w, w.host, w.store, w.store.disk
  {
    && w.host.Valid() && WellSetUp(w.setup) && Separate(w.setup) && w.Honestly()
    && Reaches(w.dryRun, first, w.Now()) && AllGrounded(w.setup, first)
  }

  ghost predicate AllGrounded(setup: Setup, first: World) {
    forall repo :: repo in setup.repos ==> Grounded(first, repo.fullRef)
  }

  /** What is current and on record is at the target, unless its tag came back to it. */
  lemma ServiceTells(setup: Setup, dryRun: bool, first: World, e: World, t: Tree, repo: C.RepoRef)
    requires repo in setup.repos && AllGrounded(setup, first) && Reaches(dryRun, first, e)
    requires Tells(setup, t, e.targets)
    ensures ContentIsThere(setup, t, e, repo)
  {
    var steps :| Legal(dryRun, first, steps) && Exec(first, steps) == e;
    var h := History(e.tags, repo.fullRef);
    if h != [] && NeverReturns(h) { RecordMatchesTarget(dryRun, first, steps, repo.fullRef); }
    HonestRecordTellsTree(setup, t, e, repo);
  }

  /**
    A daemon is in service from its start, be it the first one or a restart after a crash, if its
    targets tell the truth about the host by then.
   */
  method Start(cfg: C.Config, dryRun: bool, registry: Registry, host: Host, disk: Disk, readable: bool, tags: Tags,
               ghost first: World, ghost down: World)
    returns (r: Result<Watcher, OpenError>)
    requires host.Valid() && down.phase.Down? && down.tags == tags && down.files == disk.files
    requires var setup := Setup(cfg.artifactsDir, cfg.allowedTargetRoots,
                                C.ParseRepos(cfg.registryPrefix, cfg.repos), registry);
             && WellSetUp(setup) && Separate(setup) && Tells(setup, host.tree, down.targets)
             && AllGrounded(setup, first) && Reaches(dryRun, first, down)
    ensures r.Ok? ==> fresh(r.value) && r.value.host == host && InService(r.value, first)
  {
    r := New(cfg, dryRun, registry, host, disk, readable, tags, down);
    if r.Ok? {
      StepReaches(dryRun, down, Protocol.Start);
      ReachesTransitive(dryRun, first, down, Do(down, Protocol.Start));
    }
  }

  /**
    A cycle that changes the records has deployed: the host's log has grown by a whole deploy, from
    the pre-hook to the health check and in that order, and the tree is what its plan promises.
   */
  lemma RecordComesWithDeploy(setup: Setup, dryRun: bool, w: World, repo: C.RepoRef, o: Outside, fate: Fate,
                              before: Snapshot, end: HostEnd)
    requires o in PlausibleOnes(w.tags, repo.fullRef) && fate in FatesOf(dryRun, w, repo.fullRef, o)
    requires EndOf(dryRun, w, repo.fullRef, fate).world.memory != w.memory
    requires Tries(dryRun, w.memory, repo.fullRef, o) ==>
               end in HostEnds(setup, repo, JobFrom(repo.fullRef, o), o.failsAt == Some(Pulled), fate.failsAt,
                               w.targets, before)
    ensures Tries(dryRun, w.memory, repo.fullRef, o)
    ensures Fulfilled(RequestFor(setup, repo, Current(o.atFetch, repo.fullRef)), before.events, end.now)
  {
    NewRecord(dryRun, w, repo.fullRef, o, fate);
    assert Asked(0);
  }

  lemma NewRecord(dryRun: bool, w: World, ref: Ref, o: Outside, fate: Fate)
    requires o in PlausibleOnes(w.tags, ref) && fate in FatesOf(dryRun, w, ref, o)
    requires EndOf(dryRun, w, ref, fate).world.memory != w.memory
    ensures Tries(dryRun, w.memory, ref, o) && fate.failsAt == None
  {
    assert Plausible(w.tags, ref, o);
  }

  /** The world in which a crash during the deploy of a cycle leaves everything. */
  function CrashedIn(w: World, ref: Ref, o: Outside, kind: Kind): World {
    CycleWorld(false, w, ref, FateOf(o, Some(Applied), kind)).(phase := Down)
  }

  /**
    A crash at any moment between the beginning of the pull and the end of the pipeline leaves a
    world that the protocol reaches, the state file as it was, and a tree of which the targets tell
    the truth: whoever starts the daemon again has it in service.
   */
  lemma CrashIsSurvivable(setup: Setup, first: World, w: World, repo: C.RepoRef, o: Outside, missed: Option<Stage>,
                          before: Snapshot, end: HostEnd, t: Tree)
    requires repo in setup.repos && Separate(setup) && Tells(setup, before.tree, w.targets)
    requires Reaches(false, first, w) && w.phase == Idle
    requires o in PlausibleOnes(w.tags, repo.fullRef) && Tries(false, w.memory, repo.fullRef, o)
    requires end in
               HostEnds(setup, repo, JobFrom(repo.fullRef, o), o.failsAt == Some(Pulled), missed, w.targets, before)
    requires t in end.past
    ensures var down := CrashedIn(w, repo.fullRef, o, SpecOf(setup, repo, Current(o.atFetch, repo.fullRef)).kind);
            && Reaches(false, first, down) && down.phase.Down? && down.files == w.files && Tells(setup, t, down.targets)
  {
    var ref, job := repo.fullRef, JobFrom(repo.fullRef, o);
    var kind := SpecOf(setup, repo, job.spec).kind;
    var fate := FateOf(o, Some(Applied), kind);
    BrokenWorld(w, ref, o, kind);
    CrashReaches(first, w, ref, fate);
    WhatCycleLeaves(setup, repo, job, o.failsAt == Some(Pulled), missed, w.targets, before, end, t);
  }

  /**
    The world in which a crash leaves everything after the pipeline is through: the entry may be in
    memory, which is lost, and the disk is as it was at that moment.
   */
  function CrashedSaving(w: World, ref: Ref, o: Outside, kind: Kind, files: Files): World {
    CycleWorld(false, w, ref, FateOf(o, None, kind)).(phase := Down, files := files)
  }

  /**
    The same for a crash while the record is saved: from the end of the pipeline to the end of the
    cycle the disk is in one of the states of the save, the protocol reaches the world that the crash
    leaves, its disk has the old or the new map, and the targets tell the truth about the tree.
   */
  lemma CrashInSaveIsSurvivable(setup: Setup, first: World, w: World, repo: C.RepoRef, o: Outside, kind: Kind,
                                before: Snapshot, end: HostEnd, files: Files)
    requires repo in setup.repos && Separate(setup) && Tells(setup, before.tree, w.targets)
    requires Reaches(false, first, w) && w.phase == Idle
    requires o in PlausibleOnes(w.tags, repo.fullRef) && Tries(false, w.memory, repo.fullRef, o)
    requires end in
               HostEnds(setup, repo, JobFrom(repo.fullRef, o), o.failsAt == Some(Pulled), None, w.targets, before)
    requires var saved := CycleWorld(false, w, repo.fullRef, FateOf(o, None, kind));
             files == w.files || files in SaveStates(w.files, saved.memory, o.save)
    ensures var saved := CycleWorld(false, w, repo.fullRef, FateOf(o, None, kind));
            var down := CrashedSaving(w, repo.fullRef, o, kind, files);
            && Reaches(false, first, down) && down.phase.Down? && down.files == files
            && Load(files.file) in {Load(w.files.file), Ok(saved.memory)}
            && Tells(setup, end.now.tree, down.targets)
  {
    var ref, job := repo.fullRef, JobFrom(repo.fullRef, o);
    SavedWorld(w, ref, o, kind, o.save);
    var save := StoppedAt(w.files, CycleWorld(false, w, ref, FateOf(o, None, kind)).memory, o.save, files);
    SavedWorld(w, ref, o, kind, save);
    CrashReaches(first, w, ref, FateOf(o.(save := save), None, kind));
    TrueAtEnd(setup, repo, job, o.failsAt == Some(Pulled), None, w.targets, before, end);
  }

  lemma CrashReaches(first: World, w: World, ref: Ref, fate: Fate)
    requires Reaches(false, first, w) && w.phase == Idle && Possible(w.tags, ref, fate)
    requires CycleWorld(false, w, ref, fate).phase == Idle
    ensures Reaches(false, first, CycleWorld(false, w, ref, fate).(phase := Down))
  {
    var cycled := CycleWorld(false, w, ref, fate);
    CycleIsARun(false, w, ref, fate);
    StepReaches(false, cycled, Crash);
    ReachesTransitive(false, w, cycled, Do(cycled, Crash));
    ReachesTransitive(false, first, w, Do(cycled, Crash));
  }

  /** How a save goes makes a difference for the disk only. */
  lemma SavedWorld(w: World, ref: Ref, o: Outside, kind: Kind, save: SaveFate)
    requires o in PlausibleOnes(w.tags, ref) && Tries(false, w.memory, ref, o) && save.Valid()
    ensures var fate := FateOf(o.(save := save), None, kind);
            var memory := w.memory[ref := Entry(Current(o.atResolve, ref), o.at, kind)];
            && Possible(w.tags, ref, fate)
            && CycleWorld(false, w, ref, fate) ==
               World(o.atPull, memory, FilesAfter(w.files, memory, save),
                     TargetsAfter(Finished, w.targets, JobFrom(ref, o)), w.phase, w.log + DeployLog(JobFrom(ref, o)))
  {
    assert Plausible(w.tags, ref, o);
  }

  lemma TrueAtEnd(setup: Setup, repo: C.RepoRef, job: Job, lost: bool, missed: Option<Stage>, known: Targets,
                  before: Snapshot, end: HostEnd)
    requires Separate(setup) && Tells(setup, before.tree, known)
    requires end in HostEnds(setup, repo, job, lost, missed, known, before)
    ensures Tells(setup, end.now.tree, TargetsAfter(VerdictFor(missed), known, job))
  {
    assert Asked(0);
    assert known in TrueTargets(setup, before.tree);
    assert TargetsAfter(VerdictFor(missed), known, job) in TrueTargets(setup, end.now.tree);
  }

  /** The save that would have ended where this one was stopped. */
  lemma StoppedAt(files: Files, entries: Entries, fate: SaveFate, now: Files) returns (save: SaveFate)
    requires fate.Valid() && (now == files || now in SaveStates(files, entries, fate))
    ensures save.Valid() && FilesAfter(files, entries, save) == now
    ensures Load(now.file) in {Load(files.file), Ok(entries)}
  {
    if now == files {
      save := NotStarted;
    } else if now == files.(tmp := Empty) {
      save := NotWritten(Empty);
    } else if now == files.(tmp := Truncated) {
      save := NotWritten(Truncated);
    } else {
      save := if now == files.(tmp := Document(entries)) then NotRenamed else Saved;
    }
  }

  lemma BrokenWorld(w: World, ref: Ref, o: Outside, kind: Kind)
    requires o in PlausibleOnes(w.tags, ref) && Tries(false, w.memory, ref, o)
    ensures var fate := FateOf(o, Some(Applied), kind);
            && Possible(w.tags, ref, fate)
            && CycleWorld(false, w, ref, fate).files == w.files
            && CycleWorld(false, w, ref, fate).phase == w.phase
            && CycleWorld(false, w, ref, fate).targets == w.targets[ref := Broken(Current(o.atResolve, ref))]
  {
    assert Plausible(w.tags, ref, o);
  }

  lemma WhatCycleLeaves(setup: Setup, repo: C.RepoRef, job: Job, lost: bool, missed: Option<Stage>, known: Targets,
                        before: Snapshot, end: HostEnd, t: Tree)
    requires Separate(setup) && Tells(setup, before.tree, known) && t in end.past
    requires end in HostEnds(setup, repo, job, lost, missed, known, before)
    ensures Tells(setup, t, known[job.ref := Broken(job.resolved)])
  {
    assert Asked(0);
    assert known in TrueTargets(setup, before.tree);
    assert known[job.ref := Broken(job.resolved)] in TrueTargets(setup, t);
  }

  lemma PassReaches(dryRun: bool, first: World, before: World, refs: seq<Ref>, outside: seq<Outside>,
                    cancelledAfter: nat, report: Report)
    requires Reaches(dryRun, first, before) && before.phase == Idle
    requires report in Reports(dryRun, before, refs, outside, cancelledAfter)
    ensures Reaches(dryRun, first, report.progress.world)
  {
    assert PassEnds(dryRun, before, refs, outside, cancelledAfter, report);
    if report.outcome.Cancelled? || report.outcome.Completed? {
      var n := if report.outcome.Cancelled? then report.outcome.after else |refs|;
      var p := report.progress;
      WhatProgressed(dryRun, before, refs, outside, n, p);
      PassIsARun(dryRun, before, refs, p.fates, n);
      ReachesTransitive(dryRun, first, before, p.world);
    }
  }

  /**
    One pass in service, whatever its outcome: the daemon stays in service, and every digest that
    is current and on record is at its target byte for byte, unless its tag came back to it. If all
    repositories are settled and the registry stands still, neither the world nor the host changes.
   */
  method Serve(w: Watcher, path: L.LockPath, self: nat, probed: set<int>, outside: seq<Outside>, cancelledAfter: nat,
               ghost first: World)
    returns (outcome: RunOutcome, deployed: nat)
    requires InService(w, first) && Flow(w.tags, FullRefs(w.setup.repos), outside)
    modifies w, w.host, w.store, w.store.disk, path
    ensures InService(w, first)
    ensures forall repo :: repo in w.setup.repos ==> ContentIsThere(w.setup, w.host.tree, w.Now(), repo)
    ensures LockTells(outcome, old(path.content), path.content, path.faulted, self, probed)
    ensures AllSettled(w.setup, old(w.Now())) && Frozen(old(w.tags), outside, |w.setup.repos|) ==>
              deployed == 0 && w.Now() == old(w.Now()) && w.Scene() == old(w.Scene())
  {
    ghost var before, t := w.Now(), w.host.tree;
    ghost var fates, trees, flags;
    outcome, deployed, fates, trees, flags := w.RunOnce(path, self, probed, outside, cancelledAfter);
    ghost var report := Report(outcome, Progress(w.Now(), deployed, fates));
    ghost var pass := Pass(report, trees, flags, w.host.tree);
    PassReports(w.setup, w.dryRun, before, outside, cancelledAfter, t, pass);
    if AllSettled(w.setup, before) && Frozen(before.tags, outside, |w.setup.repos|) {
      SettledPassLeavesHost(w.setup, w.dryRun, before, outside, cancelledAfter, t, pass);
    }
    PassReaches(w.dryRun, first, before, FullRefs(w.setup.repos), outside, cancelledAfter, report);
    forall repo | repo in w.setup.repos ensures ContentIsThere(w.setup, w.host.tree, w.Now(), repo) {
      ServiceTells(w.setup, w.dryRun, first, w.Now(), w.host.tree, repo);
    }
  }

  lemma PassReports(setup: Setup, dryRun: bool, before: World, outside: seq<Outside>, cancelledAfter: nat, first: Tree,
                    pass: Pass)
    requires pass in PassesOver(setup, dryRun, before, outside, cancelledAfter, first)
    ensures pass.report in Reports(dryRun, before, FullRefs(setup.repos), outside, cancelledAfter)
  {
    assert Asked(0);
  }
}
