/**
  The daemon: one cycle and one pass over the registry, the host, the store and the lock. The
  deploy of a cycle is the pipeline run on the host; the contracts say how the world of the
  protocol changes, and that its targets go on telling the truth about the tree.
 */
module Watcher {
  import opened Results
  import opened Paths
  import opened Requests
  import opened Hosts
  import opened State
  import opened Protocol
  import opened Fates
  import Health
  import opened Delivery
  import opened Neighbours
  import opened Passes
  import opened HostCycles
  import opened HostPasses
  import L = Lockfile

  /**
    What the lock file has to do with the outcome of a pass: one that names another process, found
    by the probe, stays and makes the pass be skipped, and a pass goes over the repositories only
    when there was none, or a stale one; afterwards it is gone.
   */
  predicate LockTells(outcome: RunOutcome, before: Option<string>, after: Option<string>, faulted: bool, self: nat,
                      probed: set<int>) {
    match outcome
    case Skipped => after == before && before.Some? && !L.Stale(before.value, self, probed)
    case LockUnavailable => faulted
    case _ => (before.None? || L.Stale(before.value, self, probed)) && (faulted || after.None?)
  }

  class Watcher {
    const setup: Setup
    const dryRun: bool
    const host: Host
    const store: Store
    /** The registry's tags, which move on their own. */
    var tags: Tags
    /** What the protocol knows of the targets, and its log. */
    ghost var targets: Targets
    ghost var log: seq<Protocol.Event>

    constructor (setup: Setup, dryRun: bool, host: Host, store: Store, tags: Tags, ghost down: World)
      ensures this.setup == setup && this.dryRun == dryRun && this.host == host && this.store == store
      ensures Now() == World(tags, store.entries, store.disk.files, down.targets, Idle, down.log)
    {
      this.setup, this.dryRun, this.host, this.store := setup, dryRun, host, store;
      this.tags, targets, log := tags, down.targets, down.log;
    }

    ghost function Now(): World
      reads this, store, store.disk
    {
      World(tags, store.entries, store.disk.files, targets, Idle, log)
    }

    /** Everything on the host, its trees and its log since the last mark included, except for the fault flag. */
    ghost function Scene(): HostEnd
      reads host
    {
      HostEnd(host.Now().(faulted := false), host.past)
    }

    /** The protocol's targets tell the truth about the tree, in a setup in which deploys are apart. */
    ghost predicate Honestly()
      reads this, host
    {
      targets in TrueTargets(setup, host.tree)
    }

    /** `deploy.Run` on the host. */
    method RunDeploy(job: Job, req: Request, health: Health.Attempts) returns (r: Result<(), D.Failure>)
      requires host.Valid() && Rooted(req.artifactDir) && S.NormalRoots(req.allowedRoots)
      modifies host, this`targets, this`log
      ensures host.Valid() && host.Now() in RunsFor(req, r, old(host.Now()))
      ensures Now() == WorldRun(old(Now()), MissedStage(r), job)
      ensures MissedStage(r) in LATE_FAILURES && (MissedStage(r).Some? ==> DeployStage(MissedStage(r).value))
      ensures exists effort :: D.CheckTells(req.spec, health, r, effort)
    {
      var effort;
      r, effort := D.Run(host, req, health);
      targets := TargetsAfter(VerdictFor(MissedStage(r)), targets, job);
      log := LogAfter(VerdictFor(MissedStage(r)), log, job);
    }

    /** The artifact directory is emptied and filled again; a failure leaves it in any state. */
    method FetchArtifact(name: string, content: Tree, o: Outside) returns (ok: bool)
      requires host.Valid() && Rooted(setup.artifactsDir) && PathOf(Join(setup.artifactsDir, name)) != []
      requires WellFormed(content) && WellFormed(o.broken)
      modifies host
      ensures host.Valid() && host.OnlyTree()
      ensures host.Confined(ArtifactPaths(old(host.tree), PathOf(Join(setup.artifactsDir, name))))
      ensures host.tree in PullEndings(o.failsAt == Some(Pulled), ok, host.faulted,
                                       PathOf(Join(setup.artifactsDir, name)), content, old(host.tree))
    {
      ghost var before := host.tree;
      var dir := PathOf(Join(setup.artifactsDir, name));
      ArtifactDirIsRooted(setup, name);
      ok := host.RemoveAll(dir);
      ghost var removed := host.tree;
      OnlyRemovedIsMissing(before, removed, dir);
      if ok { ok := Pull(host, dir, content, if o.failsAt == Some(Pulled) then Some(o.broken) else None); }
      Refilled(o.failsAt == Some(Pulled), ok, host.faulted, dir, content, before, removed, host.tree);
    }

    /** The part of a cycle that starts with a complete pull. */
    method DeployAndRecord(job: Job, req: Request, o: Outside)
      returns (r: Result<bool, Stage>, ghost run: Result<(), D.Failure>)
      requires host.Valid() && Rooted(req.artifactDir) && S.NormalRoots(req.allowedRoots) && o.save.Valid()
      requires tags == o.atPull
      modifies this`targets, this`log, host, store, store.disk
      ensures host.Valid() && host.Now() in RunsFor(req, run, old(host.Now()))
      ensures CycleEnd(r, Now()) == LateEnd(old(Now()), job, FateOf(o, MissedStage(run), req.spec.kind))
      ensures MissedStage(run) in LATE_FAILURES
    {
      ghost var before := Now();
      var result := RunDeploy(job, req, o.health);
      run := result;
      r := Persist(job, req.spec.kind, o, MissedStage(result), before);
    }

    /** The record is written when no stage was missed. */
    method Persist(job: Job, kind: Kind, o: Outside, missed: Option<Stage>, ghost before: World)
      returns (r: Result<bool, Stage>)
      requires o.save.Valid() && before.tags == tags == o.atPull && (missed.Some? ==> DeployStage(missed.value))
      requires Now() == WorldRun(before, missed, job)
      modifies store, store.disk
      ensures CycleEnd(r, Now()) == LateEnd(before, job, FateOf(o, missed, kind))
    {
      if missed.Some? {
        NotRecorded(o, missed.value, kind, job, before);
        return Err(missed.value);
      }
      RecordedSomehow(o, kind, job, before);
      var saved := store.Set(job.ref, Entry(job.resolved, o.at, kind), o.save);
      r := if saved then Ok(true) else Err(Written);
    }

    /** The pull of a cycle; at no moment of it does what the targets tell become wrong. */
    method PullArtifact(repo: C.RepoRef, d: Digest, o: Outside) returns (ok: bool)
      requires host.Valid() && WellSetUp(setup) && repo in setup.repos && WellFormed(o.broken)
      modifies host
      ensures host.Valid() && host.OnlyTree() && host.origin == old(host.tree)
      ensures host.touched <= ArtifactPaths(old(host.tree), PathOf(Join(setup.artifactsDir, repo.name)))
      ensures host.tree in PullEndings(o.failsAt == Some(Pulled), ok, host.faulted,
                                       PathOf(Join(setup.artifactsDir, repo.name)), ContentOf(setup, repo, d),
                                       old(host.tree))
      ensures old(Honestly()) ==> forall t :: t in host.past ==> targets in TrueTargets(setup, t)
    {
      ghost var before := host.tree;
      host.Mark();
      ok := FetchArtifact(repo.name, ContentOf(setup, repo, d), o);
      if targets in TrueTargets(setup, before) {
        PullMoments(setup, repo, before, host.touched, host.past, targets);
      }
    }

    /** The deploy of a cycle. */
    method DeployArtifact(repo: C.RepoRef, job: Job, o: Outside)
      returns (r: Result<bool, Stage>, ghost run: Result<(), D.Failure>)
      requires host.Valid() && WellSetUp(setup) && repo in setup.repos && job.ref == repo.fullRef
      requires o.save.Valid() && tags == o.atPull
      requires Unpacked(host.tree, PathOf(Join(setup.artifactsDir, repo.name)), ContentOf(setup, repo, job.content))
      modifies this`targets, this`log, host, store, store.disk
      ensures host.Valid() && host.Now() in RunsFor(RequestFor(setup, repo, job.spec), run, old(host.Now()))
      ensures CycleEnd(r, Now()) ==
                LateEnd(old(Now()), job, FateOf(o, MissedStage(run), SpecOf(setup, repo, job.spec).kind))
      ensures MissedStage(run) in LATE_FAILURES
      ensures old(Honestly()) ==> Honestly()
    {
      ghost var before, known, world := host.Now(), targets, Now();
      ArtifactDirIsRooted(setup, repo.name);
      var req := Request(Join(setup.artifactsDir, repo.name), SpecOf(setup, repo, job.spec), setup.roots);
      assert req == RequestFor(setup, repo, job.spec);
      r, run := DeployAndRecord(job, req, o);
      RunEnds(req, run, before, host.Now());
      if Separate(setup) && Tells(setup, before.tree, known) {
        DeployTells(setup, repo, job, before.tree, host.tree, known, MissedStage(run));
        LateTargets(world, job, o, MissedStage(run), req.spec.kind);
      }
    }

    /** The part of a cycle that starts with the pull. */
    method PullAndDeploy(repo: C.RepoRef, job: Job, o: Outside)
      returns (r: Result<bool, Stage>, ghost missed: Option<Stage>)
      requires host.Valid() && WellSetUp(setup) && repo in setup.repos && job.ref == repo.fullRef
      requires o.save.Valid() && WellFormed(o.broken) && tags == o.atPull
      modifies this`targets, this`log, host, store, store.disk
      ensures host.Valid() && missed in LATE_FAILURES && (o.failsAt == Some(Pulled) ==> missed == Some(Pulled))
      ensures CycleEnd(r, Now()) == LateEnd(old(Now()), job, FateOf(o, missed, SpecOf(setup, repo, job.spec).kind))
      ensures HostEnd(host.Now(), host.past) in
                HostEnds(setup, repo, job, o.failsAt == Some(Pulled), missed, old(targets), old(host.Now()))
      ensures old(Honestly()) ==> Honestly()
    {
      ghost var before, known := host.Now(), targets;
      var pulled := PullArtifact(repo, job.content, o);
      if !pulled {
        PullFailed(o, SpecOf(setup, repo, job.spec).kind, job, Now());
        PullBrokeOff(setup, repo, job, o.failsAt == Some(Pulled), known, before, HostEnd(host.Now(), host.past));
        return Err(Pulled), Some(Pulled);
      }
      PullIsDone(setup, repo, job, o.failsAt == Some(Pulled), before, host.Now());
      r, missed := DeployPulled(repo, job, o, before);
    }

    method DeployPulled(repo: C.RepoRef, job: Job, o: Outside, ghost before: Snapshot)
      returns (r: Result<bool, Stage>, ghost missed: Option<Stage>)
      requires host.Valid() && WellSetUp(setup) && repo in setup.repos && job.ref == repo.fullRef
      requires o.save.Valid() && tags == o.atPull
      requires host.Now() in AfterPull(setup, repo, job, before)
      modifies this`targets, this`log, host, store, store.disk
      ensures host.Valid() && missed in LATE_FAILURES
      ensures CycleEnd(r, Now()) == LateEnd(old(Now()), job, FateOf(o, missed, SpecOf(setup, repo, job.spec).kind))
      ensures HostEnd(host.Now(), host.past) in
                HostEnds(setup, repo, job, false, missed, old(targets), before)
      ensures old(Honestly()) ==> Honestly()
    {
      ghost var mid, known := host.Now(), targets;
      ghost var run;
      PulledIsUnpacked(setup, repo, job, before, mid);
      r, run := DeployArtifact(repo, job, o);
      missed := MissedStage(run);
      DeployIsDone(setup, repo, job, run, known, before, mid, HostEnd(host.Now(), host.past));
    }

    /** The part of a cycle that starts with a changed digest. */
    method HandleChange(repo: C.RepoRef, currentDigest: Digest, o: Outside)
      returns (r: Result<bool, Stage>, ghost missed: Option<Stage>, ghost kind: Kind)
      requires host.Valid() && WellSetUp(setup) && repo in setup.repos
      requires tags == o.atResolve && o.failsAt != Some(Resolved) && o in PlausibleOnes(tags, repo.fullRef)
      requires currentDigest == Current(tags, repo.fullRef)
      modifies this, host, store, store.disk
      ensures host.Valid() && MissesLate(dryRun, o, missed)
      ensures var fate := FateOf(o, missed, kind);
              CycleEnd(r, Now()) == ChangedEnd(dryRun, old(Now()), JobOf(repo.fullRef, fate), fate)
      ensures old(Honestly()) ==> Honestly()
      ensures dryRun || o.failsAt == Some(Fetched) ==> unchanged(host)
      ensures !dryRun && o.failsAt != Some(Fetched) ==>
                HostEnd(host.Now(), host.past) in
                  HostEnds(setup, repo, JobFrom(repo.fullRef, o), o.failsAt == Some(Pulled), missed, old(targets),
                           old(host.Now()))
    {
      ghost var before := Now();
      var spec := FetchAnnotations(repo.fullRef, o);
      kind := SpecOf(setup, repo, Current(o.atFetch, repo.fullRef)).kind;
      if spec.Err? || dryRun {
        missed := if spec.Err? then Some(Fetched) else None;
        EarlyWorld(dryRun, before, JobOf(repo.fullRef, FateOf(o, missed, kind)), o, missed, kind);
        return if spec.Err? then Err(Fetched) else Ok(false), missed, kind;
      }
      r, missed := DeployChange(repo, Job(repo.fullRef, currentDigest, spec.value, ""), o);
    }

    /** The second request of a cycle: the digest whose annotations it gets. */
    method FetchAnnotations(ref: Ref, o: Outside) returns (spec: Result<Digest, Stage>)
      requires ref in o.atFetch
      modifies this`tags
      ensures tags == o.atFetch
      ensures spec == if o.failsAt == Some(Fetched) then Err(Fetched) else Ok(Current(o.atFetch, ref))
    {
      tags := o.atFetch;
      spec := if o.failsAt == Some(Fetched) then Err(Fetched) else Ok(Current(tags, ref));
    }

    /** The same from the pull on, which gets whatever the tag points to by then. */
    method DeployChange(repo: C.RepoRef, seen: Job, o: Outside)
      returns (r: Result<bool, Stage>, ghost missed: Option<Stage>)
      requires host.Valid() && WellSetUp(setup) && repo in setup.repos && o.save.Valid() && WellFormed(o.broken)
      requires repo.fullRef in o.atResolve && repo.fullRef in o.atFetch && repo.fullRef in o.atPull
      requires seen == JobFrom(repo.fullRef, o).(content := "")
      modifies this, host, store, store.disk
      ensures host.Valid() && missed in LATE_FAILURES && (o.failsAt == Some(Pulled) ==> missed == Some(Pulled))
      ensures var fate := FateOf(o, missed, SpecOf(setup, repo, seen.spec).kind);
              CycleEnd(r, Now()) == ChangedEnd(false, old(Now()), JobOf(repo.fullRef, fate), fate)
      ensures HostEnd(host.Now(), host.past) in
                HostEnds(setup, repo, JobFrom(repo.fullRef, o), o.failsAt == Some(Pulled), missed, old(targets),
                         old(host.Now()))
      ensures old(Honestly()) ==> Honestly()
    {
      ghost var before := Now();
      tags := o.atPull;
      var job := seen.(content := Current(tags, repo.fullRef));
      r, missed := PullAndDeploy(repo, job, o);
      LateWorld(before, job, o, missed, SpecOf(setup, repo, seen.spec).kind);
      assert JobOf(repo.fullRef, FateOf(o, missed, SpecOf(setup, repo, seen.spec).kind)) == job;
    }

    /** The first request of a cycle, and the comparison with the record: a digest to deploy, none, or an error. */
    method Poll(ref: Ref, o: Outside) returns (d: Result<Option<Digest>, Stage>)
      requires o in PlausibleOnes(tags, ref)
      modifies this`tags
      ensures tags == o.atResolve
      ensures match d
              case Err(stage) => stage == Resolved && o.failsAt == Some(Resolved)
              case Ok(None) => o.failsAt != Some(Resolved) && Current(o.atResolve, ref) == Recorded(store.entries, ref)
              case Ok(Some(digest)) =>
                o.failsAt != Some(Resolved) && digest == Current(o.atResolve, ref) != Recorded(store.entries, ref)
    {
      tags := o.atResolve;
      if o.failsAt == Some(Resolved) { return Err(Resolved); }
      var currentDigest := Current(tags, ref);
      var prev := store.Get(ref);
      if currentDigest == (if prev.Some? then prev.value.digest else "") { return Ok(None); }
      d := Ok(Some(currentDigest));
    }

    method CycleOne(repo: C.RepoRef, o: Outside) returns (r: Result<bool, Stage>, ghost fate: Fate)
      requires host.Valid() && WellSetUp(setup) && repo in setup.repos && o in PlausibleOnes(tags, repo.fullRef)
      modifies this, host, store, store.disk
      ensures host.Valid() && fate in FatesOf(dryRun, old(Now()), repo.fullRef, o)
      ensures CycleEnd(r, Now()) == EndOf(dryRun, old(Now()), repo.fullRef, fate)
      ensures old(Honestly()) ==> Honestly()
      ensures !Tries(dryRun, old(store.entries), repo.fullRef, o) || r == Ok(false) ==> unchanged(host)
      ensures host.tree in
                StepTrees(setup, dryRun, repo, old(store.entries), o, fate.failsAt, old(host.tree), host.faulted)
      ensures Tries(dryRun, old(store.entries), repo.fullRef, o) ==>
                HostEnd(host.Now(), host.past) in
                  HostEnds(setup, repo, JobFrom(repo.fullRef, o), o.failsAt == Some(Pulled), fate.failsAt,
                           old(targets), old(host.Now()))
    {
      ghost var before, start := Now(), host.Now();
      var changed := Poll(repo.fullRef, o);
      match changed {
        case Ok(Some(currentDigest)) =>
          ghost var missed, kind;
          r, missed, kind := HandleChange(repo, currentDigest, o);
          fate := FateOf(o, missed, kind);
          ChangedCycle(dryRun, before, repo.fullRef, o, missed, kind);
          if Tries(dryRun, before.memory, repo.fullRef, o) {
            NothingToReport(dryRun, before, repo.fullRef, o, fate);
            HostEndSteps(setup, dryRun, repo, before.memory, o, missed, before.targets, start,
                         HostEnd(host.Now(), host.past));
          } else {
            NoStep(setup, dryRun, repo, before.memory, o, missed, start.tree, start.faulted);
          }
        case _ =>
          ghost var missed := if changed.Err? then Some(Resolved) else None;
          r := if changed.Err? then Err(Resolved) else Ok(false);
          fate := FateOf(o, missed, HookOnly);
          UnchangedCycle(dryRun, before, repo.fullRef, o, missed);
          NoStep(setup, dryRun, repo, before.memory, o, missed, start.tree, start.faulted);
      }
    }

    /** A cycle at the end of which the fault flag tells of this cycle only. */
    method CycleAfresh(repo: C.RepoRef, o: Outside) returns (r: Result<bool, Stage>, ghost fate: Fate)
      requires host.Valid() && WellSetUp(setup) && repo in setup.repos && o in PlausibleOnes(tags, repo.fullRef)
      modifies this, host, store, store.disk
      ensures host.Valid() && fate in FatesOf(dryRun, old(Now()), repo.fullRef, o)
      ensures CycleEnd(r, Now()) == EndOf(dryRun, old(Now()), repo.fullRef, fate)
      ensures old(Honestly()) ==> Honestly()
      ensures !Tries(dryRun, old(Now()).memory, repo.fullRef, o) ==> Scene() == old(Scene())
      ensures host.tree in
                StepTrees(setup, dryRun, repo, old(Now()).memory, o, fate.failsAt, old(host.tree), host.faulted)
    {
      host.faulted := false;
      r, fate := CycleOne(repo, o);
    }

    /** One repository of a pass; its error is logged and forgotten. */
    method CycleAt(outside: seq<Outside>, i: nat, deployed: nat, ghost before: World, ghost fates: seq<Fate>,
                   ghost trees: seq<Tree>, ghost flags: seq<bool>, ghost first: Tree)
      returns (counted: nat, ghost more: seq<Fate>, ghost all: seq<Tree>, ghost every: seq<bool>)
      requires host.Valid() && WellSetUp(setup) && Flow(before.tags, FullRefs(setup.repos), outside)
                && i < |setup.repos|
      requires Stand(Progress(Now(), deployed, fates), trees, flags, host.tree) in
                 Stands(setup, dryRun, before, outside, i, first)
      modifies this, host, store, store.disk
      ensures host.Valid()
      ensures Stand(Progress(Now(), counted, more), all, every, host.tree) in
                Stands(setup, dryRun, before, outside, i + 1, first)
      ensures more in QuietOnes(setup, dryRun, before, outside) ==>
                fates in QuietOnes(setup, dryRun, before, outside) && Scene() == old(Scene())
      ensures old(Honestly()) ==> Honestly()
    {
      ghost var s := Stand(Progress(Now(), deployed, fates), trees, flags, host.tree);
      NextIsPlausible(setup, dryRun, before, outside, i, first, s);
      ghost var fate;
      var r;
      r, fate := CycleAfresh(setup.repos[i], outside[i]);
      counted := Counted(deployed, r);
      more, all, every := fates + [fate], trees + [host.tree], flags + [host.faulted];
      StandGoesOn(setup, dryRun, before, outside, i, first, s, fate, host.faulted, r,
                  Stand(Progress(Now(), counted, more), all, every, host.tree));
      if more in QuietOnes(setup, dryRun, before, outside) {
        QuietStand(setup, dryRun, before, outside, i, first, s, fate);
      }
    }

    /** A repository that fails does not stop the pass; only a cancelled context does, before the next one. */
    method CycleAll(outside: seq<Outside>, cancelledAfter: nat)
      returns (outcome: RunOutcome, deployed: nat, ghost fates: seq<Fate>, ghost trees: seq<Tree>,
               ghost flags: seq<bool>)
      requires host.Valid() && WellSetUp(setup) && Flow(tags, FullRefs(setup.repos), outside)
      modifies this, host, store, store.disk
      ensures host.Valid() && (outcome.Cancelled? || outcome.Completed?)
      ensures Pass(Report(outcome, Progress(Now(), deployed, fates)), trees, flags, host.tree) in
                PassesOver(setup, dryRun, old(Now()), outside, cancelledAfter, old(host.tree))
      ensures fates in QuietOnes(setup, dryRun, old(Now()), outside) ==> Scene() == old(Scene())
      ensures old(Honestly()) ==> Honestly()
    {
      ghost var before, first := Now(), host.tree;
      deployed, fates, trees, flags := 0, [], [host.tree], [];
      FirstStand(setup, dryRun, before, outside, host.tree);
      var i := 0;
      while i < |setup.repos|
        invariant 0 <= i <= |setup.repos| && i <= cancelledAfter
        invariant host.Valid()
        invariant Stand(Progress(Now(), deployed, fates), trees, flags, host.tree) in
                    Stands(setup, dryRun, before, outside, i, first)
        invariant fates in QuietOnes(setup, dryRun, before, outside) ==> Scene() == old(Scene())
        invariant old(Honestly()) ==> Honestly()
      {
        if i == cancelledAfter {
          PassDone(setup, dryRun, before, outside, cancelledAfter, first, i,
                   Stand(Progress(Now(), deployed, fates), trees, flags, host.tree), Cancelled(i));
          return Cancelled(i), deployed, fates, trees, flags;
        }
        deployed, fates, trees, flags := CycleAt(outside, i, deployed, before, fates, trees, flags, first);
        i := i + 1;
      }
      PassDone(setup, dryRun, before, outside, cancelledAfter, first, i,
               Stand(Progress(Now(), deployed, fates), trees, flags, host.tree), Completed);
      outcome := Completed;
    }

    /** One pass over the configured repositories under the lock. */
    method RunOnce(path: L.LockPath, self: nat, probed: set<int>, outside: seq<Outside>, cancelledAfter: nat)
      returns (outcome: RunOutcome, deployed: nat, ghost fates: seq<Fate>, ghost trees: seq<Tree>,
               ghost flags: seq<bool>)
      requires host.Valid() && WellSetUp(setup) && Flow(tags, FullRefs(setup.repos), outside)
      modifies this, host, store, store.disk, path
      ensures host.Valid()
      ensures Pass(Report(outcome, Progress(Now(), deployed, fates)), trees, flags, host.tree) in
                PassesOver(setup, dryRun, old(Now()), outside, cancelledAfter, old(host.tree))
      ensures fates in QuietOnes(setup, dryRun, old(Now()), outside) ==> Scene() == old(Scene())
      ensures old(Honestly()) ==> Honestly()
      ensures LockTells(outcome, old(path.content), path.content, path.faulted, self, probed)
      ensures outcome.Skipped? || outcome.LockUnavailable? ==> unchanged(host) && unchanged(this)
    {
      fates, trees, flags := [], [host.tree], [];
      var lock := L.Acquire(path, self, probed);
      if lock.Err? {
        outcome, deployed := if lock.error.Held? then Skipped else LockUnavailable, 0;
        NoPass(setup, dryRun, Now(), outside, cancelledAfter, host.tree, outcome);
        return;
      }
      outcome, deployed, fates, trees, flags := CycleAll(outside, cancelledAfter);
      var _ := lock.value.Release();
    }
  }

  /**
    A daemon starts with what the state file says; one that does not parse stops it. `down` is the
    world of the protocol before the start.
   */
  method New(cfg: C.Config, dryRun: bool, registry: Registry, host: Host, disk: Disk, readable: bool, tags: Tags,
             ghost down: World)
    returns (r: Result<Watcher, OpenError>)
    requires down.phase.Down? && down.tags == tags && down.files == disk.files
    ensures r.Ok? ==>
              && fresh(r.value) && r.value.dryRun == dryRun && r.value.host == host && r.value.store.disk == disk
              && r.value.setup == Setup(cfg.artifactsDir, cfg.allowedTargetRoots,
                                        C.ParseRepos(cfg.registryPrefix, cfg.repos), registry)
              && Enabled(dryRun, down, Start) && r.value.Now() == Do(down, Start)
    ensures r.Err? <==> disk.files.file != Absent && (!readable || !Enabled(dryRun, down, Start))
  {
    var store := Open(disk, readable);
    if store.Err? { return Err(store.error); }
    var repos := cfg.ParsedRepos();
    var setup := Setup(cfg.artifactsDir, cfg.allowedTargetRoots, repos, registry);
    var watcher := new Watcher(setup, dryRun, host, store.value, tags, down);
    r := Ok(watcher);
  }
}
