/**
  The host side of a cycle: what the pull and the pipeline leave, that the targets of the protocol
  tell the truth about the tree afterwards and at every moment in between, and how far a cycle gets.
 */
module HostCycles {
  import opened Results
  import opened Paths
  import opened Requests
  import S = Safety
  import opened Hosts
  import opened State
  import opened Protocol
  import opened Fates
  import opened Delivery
  import opened Neighbours
  import opened Passes

  /** What the pipeline did to the tree, by the first stage that it missed. */
  ghost predicate PipelineEnds(req: Request, missed: Option<Stage>, before: Tree, after: Tree) {
    && missed in {None, Some(Validated), Some(PreHooked), Some(Applied), Some(Healthy)}
    && (missed == Some(Validated) <==> S.ValidateRequest(req).Rejected?)
    && (missed in {Some(Validated), Some(PreHooked)} ==> after == before)
    && (missed in {Some(Healthy), None} ==> D.Deployed(D.PlanOf(req), before, after))
    && (forall q :: q !in D.Footprint(D.PlanOf(req), before) ==> At(after, q) == At(before, q))
  }

  /** The trees that a pipeline can leave. */
  ghost function Endings(req: Request, missed: Option<Stage>, before: Tree): iset<Tree> {
    iset after: Tree | PipelineEnds(req, missed, before, after)
  }

  lemma RunEnds(req: Request, r: Result<(), D.Failure>, before: Snapshot, after: Snapshot)
    requires after in RunsFor(req, r, before)
    ensures after.tree in Endings(req, MissedStage(r), before.tree)
  {
    RunStaysInFootprint(req, r, before, after);
    WhatRan(req, r, before, after);
    if S.ValidateRequest(req).Accepted? { assert D.RunsTo(req, D.PlanOf(req), r, before, after); }
    assert PipelineEnds(req, MissedStage(r), before.tree, after.tree);
  }

  /** The request was carried out to the end, and the host's log says so without a gap. */
  ghost predicate Fulfilled(req: Request, past: seq<Hosts.Event>, now: Snapshot) {
    && S.ValidateRequest(req).Accepted?
    && exists before: Tree ::
         && D.Deployed(D.PlanOf(req), before, now.tree)
         && now.events in D.Logs(req.spec, D.PlanOf(req), Ok(()), past, before, now.tree)
  }

  /** The same as a closed set. */
  ghost function Fulfilments(req: Request, past: seq<Hosts.Event>): iset<Snapshot> {
    iset now: Snapshot | forall k: nat {:trigger Asked(k)} :: Asked(k) ==> Fulfilled(req, past, now)
  }

  lemma RunFulfils(req: Request, r: Result<(), D.Failure>, before: Snapshot, after: Snapshot)
    requires after in RunsFor(req, r, before) && MissedStage(r) == None
    ensures after in Fulfilments(req, before.events)
  {
    WhatRan(req, r, before, after);
    assert D.RunsTo(req, D.PlanOf(req), r, before, after);
  }

  /** A deploy keeps what the targets tell: its own is updated, and the others are apart from it. */
  lemma DeployTells(setup: Setup, repo: C.RepoRef, job: Job, before: Tree, after: Tree, targets: Targets,
                    missed: Option<Stage>)
    requires WellSetUp(setup) && Separate(setup) && repo in setup.repos && job.ref == repo.fullRef
    requires Tells(setup, before, targets)
    requires Unpacked(before, PathOf(ArtifactDir(setup, repo.name)), ContentOf(setup, repo, job.content))
    requires after in Endings(RequestFor(setup, repo, job.spec), missed, before)
    ensures Tells(setup, after, TargetsAfter(VerdictFor(missed), targets, job))
  {
    var req := RequestFor(setup, repo, job.spec);
    var now := TargetsAfter(VerdictFor(missed), targets, job);
    assert PipelineEnds(req, missed, before, after);
    ArtifactDirIsRooted(setup, repo.name);
    forall other | other in setup.repos ensures TellsOf(setup, after, now, other) {
      assert TellsOf(setup, before, targets, other);
      if other == repo {
        if missed in {Some(Healthy), None} {
          CompletedDeployShows(req, before, after, ContentOf(setup, repo, job.content));
        }
      } else {
        assert TargetOf(now, other.fullRef) == TargetOf(targets, other.fullRef);
        if missed != Some(Validated) { DeployKeepsOthers(setup, before, after, targets, repo, job.spec, other); }
        assert TellsOf(setup, after, targets, other);
      }
    }
  }

  ghost function TrueTargets(setup: Setup, t: Tree): iset<Targets> {
    iset targets: Targets | Separate(setup) ==> Tells(setup, t, targets)
  }

  // ---- the pull ----

  /** What emptying and filling an artifact directory may touch. */
  ghost function ArtifactPaths(t: Tree, dir: Path): iset<Path> {
    MissingAbove(t, dir) + Below(dir)
  }

  lemma OnlyRemovedIsMissing(before: Tree, removed: Tree, dir: Path)
    requires forall q :: q !in Below(dir) ==> At(removed, q) == At(before, q)
    ensures ArtifactPaths(removed, dir) <= ArtifactPaths(before, dir)
  {
    forall q | q in MissingAbove(removed, dir) ensures q in ArtifactPaths(before, dir) {
      if q !in Below(dir) { assert At(removed, q) == At(before, q); }
    }
  }

  /** What a pull leaves: the new content in its place, or a failure with a reason. */
  ghost predicate PullEnds(lost: bool, ok: bool, faulted: bool, dir: Path, content: Tree, t: Tree, now: Tree)
    requires dir != []
  {
    && now in Moments(t, ArtifactPaths(t, dir)) && OnlyMade(t, now, Below(dir))
    && if ok then !lost && Neighbours.Pulled(t, now, dir, content) && !PullBlocked(t, dir)
       else lost || faulted || PullBlocked(t, dir)
  }

  ghost function PullEndings(lost: bool, ok: bool, faulted: bool, dir: Path, content: Tree, t: Tree): iset<Tree>
    requires dir != []
  {
    iset now: Tree | PullEnds(lost, ok, faulted, dir, content, t, now)
  }

  lemma Refilled(lost: bool, ok: bool, faulted: bool, dir: Path, content: Tree, t: Tree, removed: Tree, now: Tree)
    requires dir != [] && WellFormed(t) && WellFormed(now) && WellFormed(content)
    requires forall q :: q !in Below(dir) ==> At(removed, q) == At(t, q)
    requires forall q :: q in removed ==> q in t
    requires SameOutside(t, now, ArtifactPaths(t, dir)) && OnlyMade(removed, now, Below(dir))
    requires ok ==> !lost && dir !in removed && Unpacked(now, dir, content) && !Blocked(removed, dir)
    requires !ok ==> lost || faulted || (dir !in removed && Blocked(removed, dir))
    ensures now in PullEndings(lost, ok, faulted, dir, content, t)
  {
    RemovedBlocks(t, removed, dir);
    MadeAfterRemoval(t, removed, now, dir);
    if ok { PullIsExact(t, now, dir, content); }
    assert PullEnds(lost, ok, faulted, dir, content, t, now);
  }

  lemma MadeAfterRemoval(t: Tree, removed: Tree, now: Tree, dir: Path)
    requires forall q :: q !in Below(dir) ==> At(removed, q) == At(t, q)
    requires OnlyMade(removed, now, Below(dir))
    ensures OnlyMade(t, now, Below(dir))
  {
    forall q | q in now && q !in t && q !in Below(dir) ensures now[q] == Directory {
      assert At(removed, q) == At(t, q);
    }
  }

  lemma RemovedBlocks(t: Tree, removed: Tree, dir: Path)
    requires dir != [] && forall q :: q !in Below(dir) ==> At(removed, q) == At(t, q)
    ensures dir !in removed ==> (Blocked(removed, dir) <==> PullBlocked(t, dir))
  {
    forall k | 0 <= k < |dir| ensures At(removed, dir[..k]) == At(t, dir[..k]) && dir[..k] == Parent(dir)[..k] {
      assert !(dir <= dir[..k]);
    }
    assert dir[..|dir|] == dir;
  }

  lemma PullIsExact(t: Tree, now: Tree, dir: Path, content: Tree)
    requires WellFormed(now) && WellFormed(content) && Unpacked(now, dir, content)
    requires SameOutside(t, now, ArtifactPaths(t, dir))
    ensures Neighbours.Pulled(t, now, dir, content)
  {
    assert dir + [] == dir && At(now, dir + []) == At(content, []);
    forall q ensures BesidePull(t, now, dir, q) {
      if !(dir <= q) && q <= dir { assert q == dir[..|q|]; }
    }
  }

  /** At every moment of a pull the targets go on telling the truth. */
  lemma PullMoments(setup: Setup, repo: C.RepoRef, t: Tree, touched: iset<Path>, past: iset<Tree>, targets: Targets)
    requires repo in setup.repos && WellSetUp(setup) && targets in TrueTargets(setup, t)
    requires touched <= ArtifactPaths(t, PathOf(ArtifactDir(setup, repo.name))) && past <= Moments(t, touched)
    ensures forall u :: u in past ==> targets in TrueTargets(setup, u)
  {
    var dir := PathOf(ArtifactDir(setup, repo.name));
    forall u | u in past ensures targets in TrueTargets(setup, u) {
      assert SameOutside(t, u, touched);
      if Separate(setup) { StorageKeepsTells(setup, t, u, targets, repo.name); }
    }
  }

  /** What is true of the targets stays true when one of them is called broken. */
  lemma StillTrueBroken(setup: Setup, repo: C.RepoRef, job: Job, past: iset<Tree>, targets: Targets)
    requires repo in setup.repos && job.ref == repo.fullRef
    requires forall u :: u in past ==> targets in TrueTargets(setup, u)
    ensures forall u :: u in past ==> targets[job.ref := Broken(job.resolved)] in TrueTargets(setup, u)
  {
    var broken := targets[job.ref := Broken(job.resolved)];
    forall u | u in past ensures broken in TrueTargets(setup, u) {
      assert targets in TrueTargets(setup, u);
      if Separate(setup) {
        forall other | other in setup.repos ensures TellsOf(setup, u, broken, other) {
          assert TellsOf(setup, u, targets, other);
        }
      }
    }
  }

  /** At every moment of the pull and the deploy the targets of the others go on telling the truth. */
  lemma DeployMoments(setup: Setup, repo: C.RepoRef, job: Job, t: Tree, mid: Snapshot, after: Snapshot,
                      run: Result<(), D.Failure>, past: iset<Tree>, targets: Targets)
    requires repo in setup.repos && job.ref == repo.fullRef && WellSetUp(setup) && targets in TrueTargets(setup, t)
    requires var dir := PathOf(ArtifactDir(setup, repo.name));
             && mid.tree in Moments(t, ArtifactPaths(t, dir)) && mid.touched <= ArtifactPaths(t, dir) && mid.origin == t
    requires after in RunsFor(RequestFor(setup, repo, job.spec), run, mid)
    requires past <= Moments(after.origin, after.touched)
    ensures forall u :: u in past ==> targets[job.ref := Broken(job.resolved)] in TrueTargets(setup, u)
  {
    var req := RequestFor(setup, repo, job.spec);
    RunStaysInFootprint(req, run, mid, after);
    forall u | u in past ensures targets[job.ref := Broken(job.resolved)] in TrueTargets(setup, u) {
      assert SameOutside(t, u, after.touched);
      if Separate(setup) { MomentTells(setup, repo, job, t, mid.tree, u, targets); }
    }
  }

  lemma MomentTells(setup: Setup, repo: C.RepoRef, job: Job, t: Tree, mid: Tree, u: Tree, targets: Targets)
    requires repo in setup.repos && job.ref == repo.fullRef && WellSetUp(setup) && Separate(setup)
    requires Tells(setup, t, targets)
    requires var dir := PathOf(ArtifactDir(setup, repo.name));
             && SameOutside(t, mid, ArtifactPaths(t, dir))
             && SameOutside(t, u, ArtifactPaths(t, dir)
                                    + D.Footprint(PlanFor(RequestFor(setup, repo, job.spec)), mid))
    ensures Tells(setup, u, targets[job.ref := Broken(job.resolved)])
  {
    var now := targets[job.ref := Broken(job.resolved)];
    forall other | other in setup.repos ensures TellsOf(setup, u, now, other) {
      assert TellsOf(setup, t, targets, other);
      if other != repo { OthersAtMoment(setup, repo, job.spec, other, t, mid, u, targets); }
    }
  }

  lemma OthersAtMoment(setup: Setup, repo: C.RepoRef, d: Digest, other: C.RepoRef, t: Tree, mid: Tree, u: Tree,
                       targets: Targets)
    requires repo in setup.repos && other in setup.repos && other != repo && WellSetUp(setup) && Separate(setup)
    requires TellsOf(setup, t, targets, other)
    requires var dir := PathOf(ArtifactDir(setup, repo.name));
             && SameOutside(t, mid, ArtifactPaths(t, dir))
             && SameOutside(t, u, ArtifactPaths(t, dir) + D.Footprint(PlanFor(RequestFor(setup, repo, d)), mid))
    ensures TellsOf(setup, u, targets, other)
  {
    var target := TargetOf(targets, other.fullRef);
    if target.Exact? {
      var mine, req := RequestFor(setup, other, target.spec), RequestFor(setup, repo, d);
      var dir := PathOf(ArtifactDir(setup, repo.name));
      assert RequestsApart(mine, req);
      forall q | InRegion(D.PlanOf(mine), q) && (D.PlanOf(mine).Replace? ==> q in t) ensures At(u, q) == At(t, q) {
        RegionIsOutsideStorage(mine, dir, q);
        assert At(mid, q) == At(t, q);
        if S.ValidateRequest(req).Accepted? {
          PlanIsWellPlaced(req);
          MadeDirectoryIsElsewhere(D.PlanOf(mine), D.PlanOf(req), mid, q);
        }
      }
      RegionKeepsShows(t, u, mine, ContentOf(setup, other, target.content));
    }
  }

  // ---- the whole cycle ----

  /** A cycle under these circumstances gets to the pull. */
  predicate Tries(dryRun: bool, entries: Entries, ref: Ref, o: Outside) {
    && !dryRun && o.failsAt !in {Some(Resolved), Some(Fetched)}
    && ref in o.atResolve && ref in o.atFetch && ref in o.atPull
    && Current(o.atResolve, ref) != Recorded(entries, ref)
  }

  /** Such a cycle never ends by reporting that there was nothing to deploy. */
  lemma NothingToReport(dryRun: bool, w: World, ref: Ref, o: Outside, fate: Fate)
    requires Tries(dryRun, w.memory, ref, o) && fate == FateOf(o, fate.failsAt, fate.kind)
    requires fate in FatesOf(dryRun, w, ref, o)
    ensures EndOf(dryRun, w, ref, fate).result != Ok(false)
  {
  }

  /** The digests that a cycle gets at its three requests. */
  function JobFrom(ref: Ref, o: Outside): Job
    requires ref in o.atResolve && ref in o.atFetch && ref in o.atPull
  {
    Job(ref, Current(o.atResolve, ref), Current(o.atFetch, ref), Current(o.atPull, ref))
  }

  /** The host at the end of a cycle, and the trees that it may have had since the pull began. */
  datatype HostEnd = HostEnd(now: Snapshot, past: iset<Tree>)

  /**
    The host side of a cycle that gets to the pull: what it changes and how far it gets, that it
    misses nothing only with a complete deploy, that the targets tell the truth at its end, and that
    at every moment of it a crash would leave them true, with the cycle's own one called broken.
   */
  ghost predicate CycleLeaves(setup: Setup, repo: C.RepoRef, job: Job, lost: bool, missed: Option<Stage>,
                              known: Targets, before: Snapshot, end: HostEnd) {
    && end.now.tree in Trails(setup, repo, job.spec, job.content, lost, before.tree, end.now.faulted, missed)
    && (before.faulted ==> end.now.faulted)
    && (missed == None ==> end.now in Fulfilments(RequestFor(setup, repo, job.spec), before.events))
    && (known in TrueTargets(setup, before.tree) ==>
          && TargetsAfter(VerdictFor(missed), known, job) in TrueTargets(setup, end.now.tree)
          && forall t :: t in end.past ==> known[job.ref := Broken(job.resolved)] in TrueTargets(setup, t))
  }

  ghost function HostEnds(setup: Setup, repo: C.RepoRef, job: Job, lost: bool, missed: Option<Stage>,
                          known: Targets, before: Snapshot): iset<HostEnd> {
    iset end: HostEnd |
      forall k: nat {:trigger Asked(k)} :: Asked(k) ==> CycleLeaves(setup, repo, job, lost, missed, known, before, end)
  }

  /** The host after a complete pull. */
  ghost function AfterPull(setup: Setup, repo: C.RepoRef, job: Job, before: Snapshot): iset<Snapshot> {
    iset mid: Snapshot |
      var dir := PathOf(ArtifactDir(setup, repo.name));
      && dir != [] && mid.tree in Moments(before.tree, ArtifactPaths(before.tree, dir))
      && mid.touched <= ArtifactPaths(before.tree, dir) && mid.origin == before.tree
      && OnlyMade(before.tree, mid.tree, Below(dir)) && !PullBlocked(before.tree, dir)
      && Neighbours.Pulled(before.tree, mid.tree, dir, ContentOf(setup, repo, job.content))
      && mid.events == before.events && (before.faulted ==> mid.faulted)
  }

  lemma PulledIsUnpacked(setup: Setup, repo: C.RepoRef, job: Job, before: Snapshot, mid: Snapshot)
    requires mid in AfterPull(setup, repo, job, before)
    ensures Unpacked(mid.tree, PathOf(ArtifactDir(setup, repo.name)), ContentOf(setup, repo, job.content))
  {
  }

  lemma PullIsDone(setup: Setup, repo: C.RepoRef, job: Job, lost: bool, before: Snapshot, mid: Snapshot)
    requires WellSetUp(setup) && repo in setup.repos
    requires mid.tree in PullEndings(lost, true, mid.faulted, PathOf(ArtifactDir(setup, repo.name)),
                                     ContentOf(setup, repo, job.content), before.tree)
    requires mid.touched <= ArtifactPaths(before.tree, PathOf(ArtifactDir(setup, repo.name)))
    requires mid.origin == before.tree && mid.events == before.events && (before.faulted ==> mid.faulted)
    ensures !lost && mid in AfterPull(setup, repo, job, before)
  {
    assert PullEnds(lost, true, mid.faulted, PathOf(ArtifactDir(setup, repo.name)),
                    ContentOf(setup, repo, job.content), before.tree, mid.tree);
  }

  lemma PullBrokeOff(setup: Setup, repo: C.RepoRef, job: Job, lost: bool, known: Targets, before: Snapshot,
                     end: HostEnd)
    requires WellSetUp(setup) && repo in setup.repos && job.ref == repo.fullRef
    requires end.now.tree in PullEndings(lost, false, end.now.faulted, PathOf(ArtifactDir(setup, repo.name)),
                                         ContentOf(setup, repo, job.content), before.tree)
    requires before.faulted ==> end.now.faulted
    requires end.now.tree in end.past
    requires known in TrueTargets(setup, before.tree) ==>
               forall t :: t in end.past ==> known in TrueTargets(setup, t)
    ensures end in HostEnds(setup, repo, job, lost, Some(Pulled), known, before)
  {
    assert PullEnds(lost, false, end.now.faulted, PathOf(ArtifactDir(setup, repo.name)),
                    ContentOf(setup, repo, job.content), before.tree, end.now.tree);
    LostTrail(setup, repo, job.spec, job.content, lost, before.tree, end.now.tree, end.now.faulted);
    if known in TrueTargets(setup, before.tree) { StillTrueBroken(setup, repo, job, end.past, known); }
    assert CycleLeaves(setup, repo, job, lost, Some(Pulled), known, before, end);
  }

  lemma PulledAndDeployedTells(setup: Setup, repo: C.RepoRef, job: Job, run: Result<(), D.Failure>, known: Targets,
                               before: Snapshot, mid: Snapshot, after: Snapshot)
    requires WellSetUp(setup) && repo in setup.repos && job.ref == repo.fullRef
    requires mid in AfterPull(setup, repo, job, before) && known in TrueTargets(setup, before.tree)
    requires after in RunsFor(RequestFor(setup, repo, job.spec), run, mid)
    ensures TargetsAfter(VerdictFor(MissedStage(run)), known, job) in TrueTargets(setup, after.tree)
  {
    if Separate(setup) {
      StorageKeepsTells(setup, before.tree, mid.tree, known, repo.name);
      PulledIsUnpacked(setup, repo, job, before, mid);
      RunEnds(RequestFor(setup, repo, job.spec), run, mid, after);
      DeployTells(setup, repo, job, mid.tree, after.tree, known, MissedStage(run));
    }
  }

  lemma DeployIsDone(setup: Setup, repo: C.RepoRef, job: Job, run: Result<(), D.Failure>, known: Targets,
                     before: Snapshot, mid: Snapshot, end: HostEnd)
    requires WellSetUp(setup) && repo in setup.repos && job.ref == repo.fullRef
    requires mid in AfterPull(setup, repo, job, before)
    requires end.now in RunsFor(RequestFor(setup, repo, job.spec), run, mid)
    requires end.past <= Moments(end.now.origin, end.now.touched)
    ensures end in HostEnds(setup, repo, job, false, MissedStage(run), known, before)
  {
    var req := RequestFor(setup, repo, job.spec);
    DeployTrail(setup, repo, job.spec, job.content, false, before.tree, mid, end.now, run);
    RunStaysInFootprint(req, run, mid, end.now);
    if MissedStage(run) == None { RunFulfils(req, run, mid, end.now); }
    if known in TrueTargets(setup, before.tree) {
      DeployMoments(setup, repo, job, before.tree, mid, end.now, run, end.past, known);
      PulledAndDeployedTells(setup, repo, job, run, known, before, mid, end.now);
    }
    assert CycleLeaves(setup, repo, job, false, MissedStage(run), known, before, end);
  }
}
