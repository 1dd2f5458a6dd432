/**
  How deploys on one host can get in each other's way. A strategy is hindered or not by what is at
  the paths that its plan looks at; a deploy that leaves those alone, or makes a directory only
  where the other one needs a directory too, cannot change that, however it ends.
 */
module Neighbours {
  import opened Results
  import opened Paths
  import opened Requests
  import opened Safety
  import opened Hosts
  import opened FileCopy
  import opened TreeCopy
  import opened DirCopy
  import opened Deploy
  import opened Delivery

  /** The directory that a plan makes with its parents. */
  function DirOf(plan: Plan): Path
    requires plan.Replace? || plan.Sync?
  {
    if plan.Replace? then plan.at.dir else plan.dst
  }

  predicate Clears(plan: Plan)
    requires plan.Replace? || plan.Sync?
  {
    if plan.Replace? then plan.clearParent else plan.clear
  }

  /** `q` is that directory or one of its parents. */
  predicate Makes(plan: Plan, q: Path) {
    (plan.Replace? || plan.Sync?) && q <= DirOf(plan)
  }

  /** The paths that decide whether the plan is hindered. */
  predicate Looks(plan: Plan, q: Path) {
    match plan
    case Replace(src, at, _, _) => q <= at.dir || q == at.temp || q == at.target || q == src
    case Sync(src, dst, _) => q <= dst || dst <= q || src <= q
    case _ => false
  }

  /** A directory that somebody else makes at `q` is no obstacle, unless the plan clears that very one. */
  predicate Passage(plan: Plan, q: Path) {
    Makes(plan, q) && (Clears(plan) ==> q != DirOf(plan))
  }

  predicate SameOrMade(plan: Plan, t: Tree, now: Tree, q: Path) {
    At(now, q) == At(t, q) || (Passage(plan, q) && NewDir(t, now, q))
  }

  predicate NewDir(t: Tree, now: Tree, q: Path) {
    q !in t && IsDir(now, q)
  }

  predicate SameOrNewDir(t: Tree, now: Tree, q: Path) {
    At(now, q) == At(t, q) || NewDir(t, now, q)
  }

  /** The trees agree on everything that the plan looks at, up to directories on its way. */
  ghost predicate Agree(plan: Plan, t: Tree, now: Tree) {
    forall q :: Looks(plan, q) ==> SameOrMade(plan, t, now, q)
  }

  lemma BlockedAgrees(t: Tree, now: Tree, d: Path)
    requires forall q :: q <= d ==> SameOrNewDir(t, now, q)
    ensures Blocked(t, d) <==> Blocked(now, d)
  {
    forall k | 0 <= k <= |d|
      ensures (d[..k] in t && !t[d[..k]].Directory?) <==> (d[..k] in now && !now[d[..k]].Directory?)
    {
      assert d[..k] <= d && SameOrNewDir(t, now, d[..k]);
    }
  }

  lemma UnreadyAgrees(t: Tree, now: Tree, d: Path, clear: bool)
    requires forall q :: q <= d ==> SameOrNewDir(t, now, q)
    requires clear ==> At(now, d) == At(t, d)
    ensures Unready(t, d, clear) <==> Unready(now, d, clear)
  {
    BlockedAgrees(t, now, d);
    if clear { assert ResolveOnHost(t, d) == ResolveOnHost(now, d); }
  }

  lemma WayAgrees(plan: Plan, t: Tree, now: Tree)
    requires (plan.Replace? || plan.Sync?) && Agree(plan, t, now)
    ensures forall q :: q <= DirOf(plan) ==> SameOrNewDir(t, now, q)
    ensures Clears(plan) ==> At(now, DirOf(plan)) == At(t, DirOf(plan))
  {
    forall q | q <= DirOf(plan) ensures SameOrNewDir(t, now, q) {
      assert SameOrMade(plan, t, now, q);
    }
    assert SameOrMade(plan, t, now, DirOf(plan));
  }

  /** Whether a plan is hindered depends only on what it looks at, and not on directories on its way. */
  lemma HinderedAgrees(plan: Plan, t: Tree, now: Tree)
    requires Agree(plan, t, now) && (plan.Replace? ==> plan.at.Valid())
    ensures Hindered(plan, t) <==> Hindered(plan, now)
  {
    match plan {
      case Replace(src, at, clearParent, _) => ReplaceAgrees(plan, t, now);
      case Sync(src, dst, clear) =>
        WayAgrees(plan, t, now);
        UnreadyAgrees(t, now, dst, clear);
        if Disjoint(src, dst) { SyncAgrees(plan, t, now); }
      case _ =>
    }
  }

  lemma ReplaceAgrees(plan: Plan, t: Tree, now: Tree)
    requires plan.Replace? && plan.at.Valid() && Agree(plan, t, now)
    ensures Hindered(plan, t) <==> Hindered(plan, now)
  {
    var at := plan.at;
    WayAgrees(plan, t, now);
    UnreadyAgrees(t, now, at.dir, plan.clearParent);
    BlockedAgrees(t, now, at.dir);
    assert SameOrMade(plan, t, now, plan.src) && SameOrMade(plan, t, now, at.temp);
    assert !(at.temp <= at.dir) && (at.Proper() ==> !(at.target <= at.dir));
    if at.Proper() { assert SameOrMade(plan, t, now, at.target); }
  }

  lemma SyncAgrees(plan: Plan, t: Tree, now: Tree)
    requires plan.Sync? && Agree(plan, t, now) && Disjoint(plan.src, plan.dst)
    ensures Unshippable(t, plan.src, plan.dst, plan.clear) <==> Unshippable(now, plan.src, plan.dst, plan.clear)
  {
    var src, dst := plan.src, plan.dst;
    forall q | src <= q ensures At(now, q) == At(t, q) {
      assert SameOrMade(plan, t, now, q);
    }
    forall q | dst <= q && q != dst ensures At(now, q) == At(t, q) {
      assert SameOrMade(plan, t, now, q);
    }
    assert At(now, src) == At(t, src);
    SameSpecials(t, now, src);
    SameObstructions(t, now, src, dst);
  }

  lemma SameSpecials(t: Tree, now: Tree, src: Path)
    requires forall q :: src <= q ==> At(now, q) == At(t, q)
    ensures NoSpecial(t, src, src) <==> NoSpecial(now, src, src)
  {
    forall q | src <= q ensures q in t <==> q in now {
      assert At(now, q) == At(t, q);
    }
    forall q | src <= q && q in t ensures t[q] == now[q] {
      assert At(now, q) == At(t, q);
    }
  }

  lemma SameObstructions(t: Tree, now: Tree, src: Path, dst: Path)
    requires forall q :: src <= q ==> At(now, q) == At(t, q)
    requires forall q :: dst <= q && q != dst ==> At(now, q) == At(t, q)
    ensures Obstructed(t, src, dst) <==> Obstructed(now, src, dst)
  {
    forall q | dst <= q ensures Shipped(t, src, dst, q) <==> Shipped(now, src, dst, q) {
      assert src <= Image(src, dst, q) && At(now, Image(src, dst, q)) == At(t, Image(src, dst, q));
    }
    forall q | Shipped(t, src, dst, q) ensures ObstructedAt(t, src, dst, q) <==> ObstructedAt(now, src, dst, q) {
      SameObstacle(t, now, src, dst, q);
    }
  }

  // ---- what a cycle changes ----

  /** What a request gets to do: nothing when it is rejected. */
  function PlanFor(req: Request): Plan {
    if ValidateRequest(req).Accepted? then PlanOf(req) else Nothing
  }

  /** `a` never gets in the way of `b`. */
  ghost predicate Undisturbing(a: Plan, b: Plan) {
    forall q :: Looks(b, q) ==> !InReach(a, q) && (Makes(a, q) ==> Passage(b, q))
  }

  /** What may have become of `q` when a cycle with this artifact directory and plan ends, however it ends. */
  predicate Drifts(dir: Path, plan: Plan, t: Tree, now: Tree, q: Path) {
    || At(now, q) == At(t, q) || dir <= q || InReach(plan, q)
    || (NewDir(t, now, q) && (q <= dir || Makes(plan, q)))
  }

  ghost predicate Drift(dir: Path, plan: Plan, t: Tree, now: Tree) {
    forall q :: Drifts(dir, plan, t, now, q)
  }

  lemma PullDrifts(dir: Path, plan: Plan, t: Tree, now: Tree)
    requires SameOutside(t, now, MissingAbove(t, dir) + Below(dir)) && OnlyMade(t, now, Below(dir))
    ensures Drift(dir, plan, t, now)
  {
    forall q ensures Drifts(dir, plan, t, now, q) {
      if At(now, q) != At(t, q) && !(dir <= q) { assert q in MissingAbove(t, dir) && q in now; }
    }
  }

  lemma DeployDrifts(dir: Path, plan: Plan, t: Tree, mid: Tree, now: Tree)
    requires Drift(dir, plan, t, mid)
    requires SameOutside(mid, now, Footprint(plan, mid)) && OnlyMade(mid, now, Reach(plan))
    ensures Drift(dir, plan, t, now)
  {
    forall q ensures Drifts(dir, plan, t, now, q) {
      assert Drifts(dir, plan, t, mid, q);
      if At(now, q) != At(mid, q) && !InReach(plan, q) {
        assert q in Footprint(plan, mid) && q !in Reach(plan);
        assert q !in mid && q in now && Makes(plan, q);
      }
    }
  }

  /** What the plan looks at outside its own artifact is kept. */
  ghost predicate Kept(plan: Plan, dir: Path, t: Tree, now: Tree) {
    forall q :: Looks(plan, q) && !(dir <= q) && !(q <= dir) ==> SameOrMade(plan, t, now, q)
  }

  lemma KeptTwice(plan: Plan, dir: Path, t: Tree, mid: Tree, now: Tree)
    requires Kept(plan, dir, t, mid) && Kept(plan, dir, mid, now)
    ensures Kept(plan, dir, t, now)
  {
    forall q | Looks(plan, q) && !(dir <= q) && !(q <= dir) ensures SameOrMade(plan, t, now, q) {
      assert SameOrMade(plan, t, mid, q) && SameOrMade(plan, mid, now, q);
    }
  }

  /** Nothing that a plan writes is at, above or below the daemon's storage. */
  lemma ReachIsOffStorage(req: Request, q: Path)
    requires NormalRoots(req.allowedRoots) && ValidateRequest(req).Accepted? && InReach(PlanOf(req), q)
    ensures !(q <= STORAGE) && !(STORAGE <= q)
  {
    F.AdmittedPlanFits(req);
    FittingReachIsOffStorage(PlanOf(req), F.Target(req), F.Swept(req), req.allowedRoots, q);
  }

  lemma FittingReachIsOffStorage(plan: Plan, target: Path, swept: Option<Path>, roots: seq<string>, q: Path)
    requires F.Fits(plan, target, swept, roots) && InReach(plan, q)
    ensures !(q <= STORAGE) && !(STORAGE <= q)
  {
    StorageIsApart(target);
    if swept.Some? { StorageIsApart(swept.value); }
    match plan {
      case Replace(_, at, clearParent, _) =>
        if q == at.temp {
          TempIsOffStorage(at, target);
        } else if q != at.target {
          DownFromSwept(at.dir, q);
        }
      case Sync(_, dst, _) => DownFromSwept(dst, q);
      case _ =>
    }
  }

  lemma DownFromSwept(dir: Path, q: Path)
    requires dir <= q && !(dir <= STORAGE) && !(STORAGE <= dir)
    ensures !(q <= STORAGE) && !(STORAGE <= q)
  {
    if STORAGE <= q { Comparable(dir, STORAGE, q); }
  }

  lemma TempIsOffStorage(at: Location, target: Path)
    requires at.Valid() && |Last(at.temp)| > LONGEST_DENIED_NAME && at.target == target
    requires !(target <= STORAGE) && !(STORAGE <= target)
    ensures !(at.temp <= STORAGE) && !(STORAGE <= at.temp)
  {
    assert at.dir == at.temp[..|at.temp| - 1];
    assert forall i :: 0 <= i < |STORAGE| ==> |STORAGE[i]| <= LONGEST_DENIED_NAME;
  }

  /** Outside its artifact a plan does not look into the storage. */
  lemma LooksOffStorage(req: Request, q: Path)
    requires NormalRoots(req.allowedRoots) && ValidateRequest(req).Accepted? && Rooted(req.artifactDir)
    requires Looks(PlanOf(req), q) && !(PathOf(req.artifactDir) <= q)
    ensures !(STORAGE <= q)
  {
    F.AdmittedPlanFits(req);
    PlanSourceInArtifact(req);
    FittingLooksOffStorage(PlanOf(req), F.Target(req), F.Swept(req), req.allowedRoots, PathOf(req.artifactDir), q);
  }

  lemma FittingLooksOffStorage(plan: Plan, target: Path, swept: Option<Path>, roots: seq<string>, dir: Path, q: Path)
    requires F.Fits(plan, target, swept, roots) && Looks(plan, q) && dir <= plan.src && !(dir <= q)
    ensures !(STORAGE <= q)
  {
    StorageIsApart(target);
    match plan {
      case Replace(_, at, _, _) => TempIsOffStorage(at, target);
      case Sync(_, dst, _) => if dst <= q { DownFromSwept(dst, q); }
    }
  }

  /** One cycle elsewhere keeps what a plan looks at, if the deploy itself does not get in its way. */
  lemma DriftKeeps(other: Request, req: Request, t: Tree, now: Tree)
    requires NormalRoots(req.allowedRoots) && ValidateRequest(req).Accepted? && Rooted(req.artifactDir)
    requires STORAGE <= PathOf(req.artifactDir) && STORAGE <= PathOf(other.artifactDir)
    requires Undisturbing(PlanFor(other), PlanOf(req))
    requires Drift(PathOf(other.artifactDir), PlanFor(other), t, now)
    ensures Kept(PlanOf(req), PathOf(req.artifactDir), t, now)
  {
    var plan, dir := PlanOf(req), PathOf(req.artifactDir);
    forall q | Looks(plan, q) && !(dir <= q) && !(q <= dir) ensures SameOrMade(plan, t, now, q) {
      LooksOffStorage(req, q);
      assert Drifts(PathOf(other.artifactDir), PlanFor(other), t, now, q);
      if q <= PathOf(other.artifactDir) { Comparable(q, STORAGE, PathOf(other.artifactDir)); }
    }
  }

  // ---- pulling ----

  /** Something that is not a directory is on the way to the artifact directory. */
  predicate PullBlocked(t: Tree, dir: Path)
    requires dir != []
  {
    Blocked(t, Parent(dir))
  }

  /** The tree after a complete pull. */
  ghost predicate Pulled(t: Tree, mid: Tree, dir: Path, content: Tree) {
    Unpacked(mid, dir, content) && forall q :: BesidePull(t, mid, dir, q)
  }

  /** Above the artifact there are directories after a pull, and elsewhere what was there before. */
  predicate BesidePull(t: Tree, mid: Tree, dir: Path, q: Path) {
    dir <= q || (if q <= dir then IsDir(mid, q) else At(mid, q) == At(t, q))
  }

  lemma PullAgrees(plan: Plan, dir: Path, content: Tree, t: Tree, mid: Tree, now: Tree, later: Tree)
    requires Kept(plan, dir, t, now) && Pulled(t, mid, dir, content) && Pulled(now, later, dir, content)
    ensures Agree(plan, mid, later)
    ensures forall q :: dir <= q ==> At(later, q) == At(mid, q)
  {
    forall q | dir <= q ensures At(later, q) == At(mid, q) {
      assert q == dir + q[|dir|..];
      assert At(mid, dir + q[|dir|..]) == At(content, q[|dir|..]) == At(later, dir + q[|dir|..]);
    }
    forall q | Looks(plan, q) ensures SameOrMade(plan, mid, later, q) {
      assert BesidePull(t, mid, dir, q) && BesidePull(now, later, dir, q);
      if !(dir <= q) && !(q <= dir) { assert SameOrMade(plan, t, now, q); }
    }
  }

  /** A pull is blocked or not whatever cycles elsewhere do, unless their artifacts are stored above. */
  lemma PullStaysBlocked(other: Request, dir: Path, t: Tree, now: Tree)
    requires NormalRoots(other.allowedRoots) && STORAGE <= dir && dir != []
    requires Drift(PathOf(other.artifactDir), PlanFor(other), t, now)
    requires PathOf(other.artifactDir) <= dir ==> PathOf(other.artifactDir) == dir
    ensures PullBlocked(t, dir) <==> PullBlocked(now, dir)
  {
    forall q | q <= Parent(dir) ensures SameOrNewDir(t, now, q) {
      assert q <= dir && q != dir;
      assert Drifts(PathOf(other.artifactDir), PlanFor(other), t, now, q);
      Comparable(q, STORAGE, dir);
      if InReach(PlanFor(other), q) { ReachIsOffStorage(other, q); }
    }
    BlockedAgrees(t, now, Parent(dir));
  }

  // ---- a cycle, and the same cycle after others ----

  /** The first stage that a run of the pipeline did not reach. */
  function MissedStage(r: Result<(), Failure>): Option<P.Stage> {
    match r
    case Ok(_) => None
    case Err(UnsafeRequest(_)) => Some(P.Validated)
    case Err(PreHookFailed) => Some(P.PreHooked)
    case Err(StrategyFailed) => Some(P.Applied)
    case Err(Unhealthy) => Some(P.Healthy)
  }

  /** The first stage that a deploy misses when nothing outside the tree fails. */
  ghost function FirstMissed(req: Request, t: Tree): Option<P.Stage> {
    if ValidateRequest(req).Rejected? then Some(P.Validated)
    else if HookFails(req, t) then Some(P.PreHooked)
    else if Hindered(PlanOf(req), t) then Some(P.Applied)
    else None
  }

  /** How `deploy.Run` leaves the host, for any request. */
  ghost predicate RanFor(req: Request, r: Result<(), Failure>, before: Snapshot, after: Snapshot) {
    if ValidateRequest(req).Rejected? then r.Err? && r.error.UnsafeRequest? && after == before
    else after in Runs(req, PlanOf(req), r, before)
  }

  /** The same as a closed set. */
  ghost function RunsFor(req: Request, r: Result<(), Failure>, before: Snapshot): iset<Snapshot> {
    iset after: Snapshot | forall k: nat {:trigger Asked(k)} :: Asked(k) ==> RanFor(req, r, before, after)
  }

  lemma WhatRan(req: Request, r: Result<(), Failure>, before: Snapshot, after: Snapshot)
    requires after in RunsFor(req, r, before)
    ensures RanFor(req, r, before, after)
  {
    assert Asked(0);
  }

  lemma RunStaysInFootprint(req: Request, r: Result<(), Failure>, before: Snapshot, after: Snapshot)
    requires after in RunsFor(req, r, before)
    ensures SameOutside(before.tree, after.tree, Footprint(PlanFor(req), before.tree))
    ensures OnlyMade(before.tree, after.tree, Reach(PlanFor(req)))
    ensures after.touched <= before.touched + Footprint(PlanFor(req), before.tree) && after.origin == before.origin
    ensures before.faulted ==> after.faulted
  {
    WhatRan(req, r, before, after);
    if ValidateRequest(req).Accepted? { assert RunsTo(req, PlanOf(req), r, before, after); }
  }

  lemma RunMisses(req: Request, r: Result<(), Failure>, before: Snapshot, after: Snapshot)
    requires NormalRoots(req.allowedRoots) && Rooted(req.artifactDir) && STORAGE <= PathOf(req.artifactDir)
    requires after in RunsFor(req, r, before) && !after.faulted
    ensures MissedStage(r) == FirstMissed(req, before.tree)
  {
    WhatRan(req, r, before, after);
    if ValidateRequest(req).Accepted? {
      F.StorageSettles(req);
      RunsAsForecast(req, PlanOf(req), r, before, after);
    }
  }

  /** The same for the part of a cycle that starts with the pull; `lost` says that the registry fails. */
  ghost predicate Misses(req: Request, content: Tree, lost: bool, t: Tree, missed: Option<P.Stage>)
    requires PathOf(req.artifactDir) != []
  {
    if lost || PullBlocked(t, PathOf(req.artifactDir)) then missed == Some(P.Pulled)
    else exists mid :: Pulled(t, mid, PathOf(req.artifactDir), content) && missed == FirstMissed(req, mid)
  }

  lemma SameFirstMissed(req: Request, mid: Tree, later: Tree)
    requires NormalRoots(req.allowedRoots) && Rooted(req.artifactDir)
    requires ValidateRequest(req).Accepted? ==> Agree(PlanOf(req), mid, later)
    requires forall q :: PathOf(req.artifactDir) <= q ==> At(later, q) == At(mid, q)
    ensures FirstMissed(req, mid) == FirstMissed(req, later)
  {
    if ValidateRequest(req).Accepted? {
      SameHook(req, mid, later);
      PlanIsWellPlaced(req);
      HinderedAgrees(PlanOf(req), mid, later);
    }
  }

  /** Hook scripts are inside the artifact. */
  lemma SameHook(req: Request, mid: Tree, later: Tree)
    requires Rooted(req.artifactDir)
    requires forall q :: PathOf(req.artifactDir) <= q ==> At(later, q) == At(mid, q)
    ensures HookFails(req, mid) <==> HookFails(req, later)
  {
    var joined := SecurePathJoin(req.artifactDir, req.spec.hookPre);
    if joined.Ok? {
      SecurePathJoinIff(req.artifactDir, req.spec.hookPre);
      PathOfRender(Resolve(true, PathOf(req.artifactDir), Split(req.spec.hookPre)));
      assert At(later, PathOf(joined.value)) == At(mid, PathOf(joined.value));
    }
  }

  /** What one cycle elsewhere leaves of the circumstances of a cycle. */
  ghost predicate SameChances(req: Request, t: Tree, now: Tree)
    requires PathOf(req.artifactDir) != []
  {
    && (ValidateRequest(req).Accepted? ==> Kept(PlanOf(req), PathOf(req.artifactDir), t, now))
    && (PullBlocked(t, PathOf(req.artifactDir)) <==> PullBlocked(now, PathOf(req.artifactDir)))
  }

  /** The trees that leave a request the chances that it has on `t`. */
  ghost function Alike(req: Request, t: Tree): iset<Tree>
    requires PathOf(req.artifactDir) != []
  {
    iset now: Tree | SameChances(req, t, now)
  }

  lemma AlikeTwice(req: Request, t: Tree, mid: Tree, now: Tree)
    requires PathOf(req.artifactDir) != [] && mid in Alike(req, t) && now in Alike(req, mid)
    ensures now in Alike(req, t)
  {
    if ValidateRequest(req).Accepted? { KeptTwice(PlanOf(req), PathOf(req.artifactDir), t, mid, now); }
  }

  lemma AlikeAtOnce(req: Request, t: Tree)
    requires PathOf(req.artifactDir) != []
    ensures t in Alike(req, t)
  {
  }

  lemma AlikeMissTheSame(req: Request, content: Tree, lost: bool, t: Tree, now: Tree, alone: Option<P.Stage>,
                            among: Option<P.Stage>)
    requires NormalRoots(req.allowedRoots) && Rooted(req.artifactDir) && PathOf(req.artifactDir) != []
    requires now in Alike(req, t)
    requires Misses(req, content, lost, t, alone) && Misses(req, content, lost, now, among)
    ensures alone == among
  {
    var dir := PathOf(req.artifactDir);
    if !lost && !PullBlocked(t, dir) {
      var mid :| Pulled(t, mid, dir, content) && alone == FirstMissed(req, mid);
      var later :| Pulled(now, later, dir, content) && among == FirstMissed(req, later);
      if ValidateRequest(req).Accepted? {
        PullAgrees(PlanOf(req), dir, content, t, mid, now, later);
      } else {
        PullAgrees(Nothing, dir, content, t, mid, now, later);
      }
      SameFirstMissed(req, mid, later);
    }
  }

  // ---- a pass ----

  /** A cycle of some repository that got the annotations of `spec`. */
  datatype Visit = Visit(repo: C.RepoRef, spec: P.Digest)

  ghost predicate Visited(setup: Setup, v: Visit, t: Tree, now: Tree) {
    var req := RequestFor(setup, v.repo, v.spec);
    Drift(PathOf(req.artifactDir), PlanFor(req), t, now)
  }

  /** The trees before, between and after these cycles. */
  ghost predicate AllVisited(setup: Setup, visits: seq<Visit>, trees: seq<Tree>) {
    |trees| == |visits| + 1 && forall k :: 0 <= k < |visits| ==> VisitedAt(setup, visits, trees, k)
  }

  ghost predicate VisitedAt(setup: Setup, visits: seq<Visit>, trees: seq<Tree>, k: nat)
    requires k < |visits| && k + 1 < |trees|
  {
    Visited(setup, visits[k], trees[k], trees[k + 1])
  }

  /** No deploy of a repository can get in the way of another one's, and no artifact is stored above another. */
  ghost predicate Neighbourly(setup: Setup) {
    && (forall repo :: repo in setup.repos ==> STORAGE <= PathOf(ArtifactDir(setup, repo.name)))
    && (forall a, b :: a in setup.repos && b in setup.repos && a.fullRef != b.fullRef ==> Neighbours(setup, a, b))
  }

  ghost predicate Neighbours(setup: Setup, a: C.RepoRef, b: C.RepoRef) {
    && (PathOf(ArtifactDir(setup, a.name)) <= PathOf(ArtifactDir(setup, b.name)) ==>
          PathOf(ArtifactDir(setup, a.name)) == PathOf(ArtifactDir(setup, b.name)))
    && forall d, e ::
         Undisturbing(PlanFor(RequestFor(setup, a, d)), PlanFor(RequestFor(setup, b, e)))
  }

  lemma VisitKeepsChances(setup: Setup, v: Visit, repo: C.RepoRef, d: P.Digest, t: Tree, now: Tree)
    requires WellSetUp(setup) && Neighbourly(setup) && v.repo in setup.repos && repo in setup.repos
    requires v.repo.fullRef != repo.fullRef && Visited(setup, v, t, now)
    ensures now in Alike(RequestFor(setup, repo, d), t)
  {
    var other, req := RequestFor(setup, v.repo, v.spec), RequestFor(setup, repo, d);
    assert Neighbours(setup, v.repo, repo);
    assert Undisturbing(PlanFor(other), PlanFor(req));
    ArtifactDirIsRooted(setup, repo.name);
    if ValidateRequest(req).Accepted? { DriftKeeps(other, req, t, now); }
    PullStaysBlocked(other, PathOf(req.artifactDir), t, now);
  }

  ghost predicate AlikeAt(req: Request, trees: seq<Tree>, k: nat)
    requires PathOf(req.artifactDir) != [] && k + 1 < |trees|
  {
    trees[k + 1] in Alike(req, trees[k])
  }

  lemma {:induction false} AlikeAlong(req: Request, trees: seq<Tree>, n: nat)
    requires PathOf(req.artifactDir) != [] && n < |trees|
    requires forall k :: 0 <= k < n ==> AlikeAt(req, trees, k)
    ensures trees[n] in Alike(req, trees[0])
  {
    if n > 0 {
      AlikeAlong(req, trees, n - 1);
      assert AlikeAt(req, trees, n - 1);
      AlikeTwice(req, trees[0], trees[n - 1], trees[n]);
    } else {
      AlikeAtOnce(req, trees[0]);
    }
  }

  lemma VisitsKeepChances(setup: Setup, visits: seq<Visit>, trees: seq<Tree>, repo: C.RepoRef, d: P.Digest)
    requires WellSetUp(setup) && Neighbourly(setup) && repo in setup.repos && AllVisited(setup, visits, trees)
    requires forall v :: v in visits ==> v.repo in setup.repos && v.repo.fullRef != repo.fullRef
    ensures trees[|visits|] in Alike(RequestFor(setup, repo, d), trees[0])
  {
    var req := RequestFor(setup, repo, d);
    forall k | 0 <= k < |visits| ensures AlikeAt(req, trees, k) {
      assert VisitedAt(setup, visits, trees, k) && visits[k] in visits;
      VisitKeepsChances(setup, visits[k], repo, d, trees[k], trees[k + 1]);
    }
    AlikeAlong(req, trees, |visits|);
  }

  /**
    Among neighbours that cannot get in its way, a cycle gets as far after any cycles of theirs,
    however those ended, as it gets without them.
   */
  lemma {:induction false} FaresAsAlone(setup: Setup, visits: seq<Visit>, trees: seq<Tree>, repo: C.RepoRef,
                                        d: P.Digest, content: Tree, lost: bool, alone: Option<P.Stage>,
                                        among: Option<P.Stage>)
    requires WellSetUp(setup) && Neighbourly(setup) && repo in setup.repos
    requires AllVisited(setup, visits, trees)
    requires forall v :: v in visits ==> v.repo in setup.repos && v.repo.fullRef != repo.fullRef
    requires Misses(RequestFor(setup, repo, d), content, lost, trees[0], alone)
    requires Misses(RequestFor(setup, repo, d), content, lost, trees[|visits|], among)
    ensures alone == among
  {
    ArtifactDirIsRooted(setup, repo.name);
    VisitsKeepChances(setup, visits, trees, repo, d);
    AlikeMissTheSame(RequestFor(setup, repo, d), content, lost, trees[0], trees[|visits|], alone, among);
  }

  // ---- one cycle ----

  /**
    What a cycle that gets to the pull does to the tree, and how far it gets if nothing outside
    the tree fails: `d` are its annotations, `c` its content, `lost` says that the registry fails.
   */
  ghost predicate Trailed(setup: Setup, repo: C.RepoRef, d: P.Digest, c: P.Digest, lost: bool, t: Tree, now: Tree,
                          faulted: bool, missed: Option<P.Stage>) {
    && Visited(setup, Visit(repo, d), t, now)
    && (!faulted && STORAGE <= PathOf(ArtifactDir(setup, repo.name)) ==>
          Misses(RequestFor(setup, repo, d), ContentOf(setup, repo, c), lost, t, missed))
  }

  ghost function Trails(setup: Setup, repo: C.RepoRef, d: P.Digest, c: P.Digest, lost: bool, t: Tree, faulted: bool,
                        missed: Option<P.Stage>): iset<Tree> {
    iset now: Tree | Trailed(setup, repo, d, c, lost, t, now, faulted, missed)
  }

  /** The pull failed. */
  lemma LostTrail(setup: Setup, repo: C.RepoRef, d: P.Digest, c: P.Digest, lost: bool, t: Tree, now: Tree,
                  faulted: bool)
    requires WellSetUp(setup) && repo in setup.repos
    requires var dir := PathOf(ArtifactDir(setup, repo.name));
             && now in Moments(t, MissingAbove(t, dir) + Below(dir)) && OnlyMade(t, now, Below(dir))
             && (lost || faulted || PullBlocked(t, dir))
    ensures now in Trails(setup, repo, d, c, lost, t, faulted, Some(P.Pulled))
  {
    var req := RequestFor(setup, repo, d);
    PullDrifts(PathOf(req.artifactDir), PlanFor(req), t, now);
    assert Trailed(setup, repo, d, c, lost, t, now, faulted, Some(P.Pulled));
  }

  /** The pull succeeded, and the pipeline ran. */
  lemma DeployTrail(setup: Setup, repo: C.RepoRef, d: P.Digest, c: P.Digest, lost: bool, t: Tree, mid: Snapshot,
                    after: Snapshot, r: Result<(), Failure>)
    requires WellSetUp(setup) && repo in setup.repos && !lost
    requires var dir := PathOf(ArtifactDir(setup, repo.name));
             && mid.tree in Moments(t, MissingAbove(t, dir) + Below(dir)) && OnlyMade(t, mid.tree, Below(dir))
             && Pulled(t, mid.tree, dir, ContentOf(setup, repo, c)) && !PullBlocked(t, dir)
    requires after in RunsFor(RequestFor(setup, repo, d), r, mid)
    ensures after.tree in Trails(setup, repo, d, c, lost, t, after.faulted, MissedStage(r))
  {
    var req := RequestFor(setup, repo, d);
    var dir := PathOf(req.artifactDir);
    ArtifactDirIsRooted(setup, repo.name);
    PullDrifts(dir, PlanFor(req), t, mid.tree);
    RunStaysInFootprint(req, r, mid, after);
    DeployDrifts(dir, PlanFor(req), t, mid.tree, after.tree);
    if !after.faulted && STORAGE <= dir { RunMisses(req, r, mid, after); }
    assert Trailed(setup, repo, d, c, lost, t, after.tree, after.faulted, MissedStage(r));
  }

  // ---- neighbours that get along ----

  /** The place of a jar called `name` in `dir`. */
  predicate JarIn(spec: Spec, dir: Path, name: string) {
    spec.kind.Jar? && spec.targetPath == Render(dir + [name])
  }

  /**
    Jars under different names in one directory get along, whether that exists or not, unless one
    is called like the temporary file of another: their deploys are apart, and none can get in the
    way of another.
   */
  lemma JarsSideBySide(setup: Setup, dir: Path, file: string -> string)
    requires WellSetUp(setup) && ValidPath(dir)
    requires forall repo :: repo in setup.repos ==>
               && ValidName(file(repo.fullRef)) && STORAGE <= PathOf(ArtifactDir(setup, repo.name))
               && forall d :: JarIn(SpecOf(setup, repo, d), dir, file(repo.fullRef))
    requires forall a, b :: a in setup.repos && b in setup.repos && a.fullRef != b.fullRef ==>
               && file(a.fullRef) != file(b.fullRef) && file(a.fullRef) != file(b.fullRef) + TEMP_SUFFIX
               && file(b.fullRef) != file(a.fullRef) + TEMP_SUFFIX
               && (PathOf(ArtifactDir(setup, a.name)) <= PathOf(ArtifactDir(setup, b.name)) ==>
                     PathOf(ArtifactDir(setup, a.name)) == PathOf(ArtifactDir(setup, b.name)))
    requires forall a, b :: a in setup.repos && b in setup.repos && a.fullRef == b.fullRef ==> a == b
    ensures Separate(setup) && Neighbourly(setup)
  {
    forall a, b, d, e | a in setup.repos && b in setup.repos && a.fullRef != b.fullRef
      ensures RequestsApart(RequestFor(setup, a, d), RequestFor(setup, b, e))
      ensures Undisturbing(PlanFor(RequestFor(setup, a, d)), PlanFor(RequestFor(setup, b, e)))
    {
      assert JarIn(SpecOf(setup, a, d), dir, file(a.fullRef)) && JarIn(SpecOf(setup, b, e), dir, file(b.fullRef));
      ArtifactDirIsRooted(setup, b.name);
      JarsGetAlong(RequestFor(setup, a, d), RequestFor(setup, b, e), dir, file(a.fullRef), file(b.fullRef));
    }
    forall a, b | a in setup.repos && b in setup.repos && a.fullRef != b.fullRef ensures Neighbours(setup, a, b) {
    }
  }

  lemma JarsGetAlong(one: Request, other: Request, dir: Path, a: string, b: string)
    requires JarIn(one.spec, dir, a) && JarIn(other.spec, dir, b) && ValidPath(dir) && ValidName(a) && ValidName(b)
    requires a != b && a != b + TEMP_SUFFIX && b != a + TEMP_SUFFIX
    requires NormalRoots(one.allowedRoots) && Rooted(other.artifactDir) && STORAGE <= PathOf(other.artifactDir)
    ensures RequestsApart(one, other) && Undisturbing(PlanFor(one), PlanFor(other))
  {
    if ValidateRequest(one).Accepted? && ValidateRequest(other).Accepted? {
      JarPlan(one, dir, a);
      JarPlan(other, dir, b);
      SourcesAreNotReached(one, other);
      JarPlansGetAlong(PlanOf(one), PlanOf(other), dir, a, b);
    } else {
      NothingDisturbs(PlanFor(one), PlanFor(other));
    }
  }

  lemma NothingDisturbs(a: Plan, b: Plan)
    requires a.Nothing? || b.Nothing?
    ensures Undisturbing(a, b)
  {
  }

  /** A deploy does not write to the source of another one, which is in the storage. */
  lemma SourcesAreNotReached(one: Request, other: Request)
    requires NormalRoots(one.allowedRoots) && ValidateRequest(one).Accepted?
    requires Rooted(other.artifactDir) && STORAGE <= PathOf(other.artifactDir)
    ensures PlanOf(other).Replace? ==> forall q :: InReach(PlanOf(one), q) ==> q != PlanOf(other).src
  {
    if PlanOf(other).Replace? {
      PlanSource(other);
      SourceIsInArtifact(other);
      forall q | InReach(PlanOf(one), q) ensures q != PlanOf(other).src { ReachIsOffStorage(one, q); }
    }
  }

  predicate JarAt(plan: Plan, at: Location) {
    plan.Refused? || (plan.Replace? && !plan.clearParent && plan.at == at)
  }

  lemma JarPlan(req: Request, dir: Path, name: string)
    requires JarIn(req.spec, dir, name) && ValidPath(dir) && ValidName(name)
    ensures JarAt(PlanOf(req), NormalLocation(dir + [name]))
  {
    LocationOfRender(dir + [name]);
  }

  lemma JarPlansGetAlong(one: Plan, other: Plan, dir: Path, a: string, b: string)
    requires JarAt(one, NormalLocation(dir + [a])) && JarAt(other, NormalLocation(dir + [b]))
    requires a != b && a != b + TEMP_SUFFIX && b != a + TEMP_SUFFIX
    requires other.Replace? ==> forall q :: InReach(one, q) ==> q != other.src
    ensures Apart(one, other) && Undisturbing(one, other)
  {
    TempsInDirectory(dir, a, b);
  }

  lemma TempsInDirectory(dir: Path, a: string, b: string)
    requires a != b && a != b + TEMP_SUFFIX && b != a + TEMP_SUFFIX
    ensures Parent(dir + [a]) == dir && Parent(dir + [b]) == dir
    ensures dir + [a] != dir + [b] && dir + [a] != TempOf(dir + [b]) && TempOf(dir + [a]) != dir + [b]
    ensures TempOf(dir + [a]) != TempOf(dir + [b])
    ensures !(dir + [a] <= dir) && !(TempOf(dir + [a]) <= dir)
  {
    assert TempOf(dir + [a]) == dir + [a + TEMP_SUFFIX] && TempOf(dir + [b]) == dir + [b + TEMP_SUFFIX];
    assert (dir + [a])[|dir|] == a && (dir + [b])[|dir|] == b;
    assert (dir + [a + TEMP_SUFFIX])[|dir|] == a + TEMP_SUFFIX && (dir + [b + TEMP_SUFFIX])[|dir|] == b + TEMP_SUFFIX;
    assert (a + TEMP_SUFFIX)[..|a|] == a && (b + TEMP_SUFFIX)[..|b|] == b;
  }

  // ---- neighbours that collide ----

  /**
    Being apart is not enough: a directory copied to the very path of a file leaves nothing that
    the other deploy would write over, and yet that deploy can only be hindered from then on.
   */
  lemma ApartButColliding(src: Path, clear: bool, file: Path, dst: Path, t: Tree, now: Tree)
    requires dst != [] && IsDir(t, Parent(dst)) && WellFormed(t) && dst !in t && TempOf(dst) !in t
    requires file in t && t[file].File? && Disjoint(src, dst) && DirCopied(t, now, src, dst, clear)
    ensures var a, b := Sync(src, dst, clear), Replace(file, NormalLocation(dst), false, None);
            && Apart(a, b) && Apart(b, a) && !Undisturbing(a, b)
            && !Hindered(b, t) && Hindered(b, now)
  {
    var a, b := Sync(src, dst, clear), Replace(file, NormalLocation(dst), false, None);
    assert Looks(b, dst) && Makes(a, dst) && !Passage(b, dst);
    DirectoryIsNotBlocked(t, Parent(dst));
  }
}
