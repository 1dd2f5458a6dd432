/**
  From digests to files: what the registry holds for a digest, how it gets into the artifact
  directory, and what it means for the tree that a target is the exact result of a deploy.
 */
module Delivery {
  import opened Results
  import opened Paths
  import opened Requests
  import opened Safety
  import opened Hosts
  import opened FileCopy
  import opened TreeCopy
  import C = Config
  import D = Deploy
  import F = Frame
  import P = Protocol

  /** The annotations and the files behind every digest that a reference may lead to. */
  datatype Registry = Registry(specs: (string, P.Digest) -> Spec, contents: (string, P.Digest) -> Tree)

  /** What a daemon is set up with. */
  datatype Setup = Setup(artifactsDir: string, roots: seq<string>, repos: seq<C.RepoRef>, registry: Registry)

  function ArtifactDir(setup: Setup, name: string): string {
    Join(setup.artifactsDir, name)
  }

  /** The request that a cycle makes for a repository when it has got the annotations of `d`. */
  function RequestFor(setup: Setup, repo: C.RepoRef, d: P.Digest): Request {
    Request(ArtifactDir(setup, repo.name), SpecOf(setup, repo, d), setup.roots)
  }

  function SpecOf(setup: Setup, repo: C.RepoRef, d: P.Digest): Spec {
    setup.registry.specs(repo.fullRef, d)
  }

  function ContentOf(setup: Setup, repo: C.RepoRef, d: P.Digest): Tree {
    setup.registry.contents(repo.fullRef, d)
  }

  /** Absolute directories, roots as validation leaves them, and proper trees in the registry. */
  ghost predicate WellSetUp(setup: Setup) {
    && Rooted(setup.artifactsDir) && NormalRoots(setup.roots)
    && (forall repo, d :: repo in setup.repos ==> WellFormed(ContentOf(setup, repo, d)))
    && (forall repo :: repo in setup.repos ==> PathOf(ArtifactDir(setup, repo.name)) != [])
  }

  lemma ArtifactDirIsRooted(setup: Setup, name: string)
    requires Rooted(setup.artifactsDir)
    ensures Rooted(ArtifactDir(setup, name)) && ValidPath(PathOf(ArtifactDir(setup, name)))
  {
    JoinResolves(setup.artifactsDir, name);
    PathOfValid(ArtifactDir(setup, name));
  }

  // ---- pulling ----

  /** The tree below `dir` is `content`. */
  ghost predicate Unpacked(t: Tree, dir: Path, content: Tree) {
    forall rel: Path :: At(t, dir + rel) == At(content, rel)
  }

  /** `registry.Pull` into a directory that does not exist; `broken` is what a failing pull leaves there. */
  method Pull(host: Host, dir: Path, content: Tree, broken: Option<Tree>) returns (ok: bool)
    requires host.Valid() && ValidPath(dir) && WellFormed(content) && (broken.Some? ==> WellFormed(broken.value))
    requires forall q :: q in host.tree ==> !(dir <= q)
    modifies host
    ensures host.Valid() && host.OnlyTree() && host.Confined(MissingAbove(old(host.tree), dir) + Below(dir))
    ensures OnlyMade(old(host.tree), host.tree, Below(dir))
    ensures ok ==> broken.None? && Unpacked(host.tree, dir, content) && !Blocked(old(host.tree), dir)
    ensures !ok ==> broken.Some? || host.faulted || Blocked(old(host.tree), dir)
  {
    ghost var before := host.tree;
    var made := host.MkdirAll(dir);
    if !made { return false; }
    OnlyDirBelow(before, host.tree, dir);
    MadeWasNotBlocked(before, host.tree, dir);
    var delivered := if broken.Some? then broken.value else content;
    ok := Unpack(host, dir, delivered);
    ok := ok && broken.None?;
  }

  lemma OnlyDirBelow(before: Tree, made: Tree, dir: Path)
    requires forall q :: q in before ==> !(dir <= q)
    requires forall q :: q !in MissingAbove(before, dir) ==> At(made, q) == At(before, q)
    ensures forall q :: dir <= q && q != dir ==> q !in made
  {
    forall q | dir <= q && q != dir ensures q !in made {
      assert q !in MissingAbove(before, dir);
      assert At(made, q) == At(before, q) == None;
    }
  }

  /** The paths of `content`, below `dir`. */
  function PathsBelow(dir: Path, content: Tree): (paths: set<Path>)
    ensures forall q :: q in paths <==> dir <= q && q[|dir|..] in content
  {
    var paths := set rel | rel in content :: dir + rel;
    assert forall q :: q in paths <==> dir <= q && q[|dir|..] in content by {
      forall q ensures q in paths <==> dir <= q && q[|dir|..] in content {
        if dir <= q && q[|dir|..] in content { assert q == dir + q[|dir|..]; }
        if q in paths {
          var rel :| rel in content && q == dir + rel;
          assert q[|dir|..] == rel;
        }
      }
    }
    paths
  }

  /** `t` with `content` put below `dir`. */
  function With(t: Tree, dir: Path, content: Tree): Tree {
    t + map q | q in PathsBelow(dir, content) :: content[q[|dir|..]]
  }

  method Unpack(host: Host, dir: Path, content: Tree) returns (ok: bool)
    requires host.Valid() && WellFormed(content) && IsDir(host.tree, dir)
    requires forall q :: dir <= q && q != dir ==> q !in host.tree
    modifies host
    ensures host.Valid() && host.OnlyTree() && host.Confined(Below(dir))
    ensures ok ==> Unpacked(host.tree, dir, content)
    ensures !ok ==> host.faulted
  {
    var tooDeep := exists q :: q in PathsBelow(dir, content) && |q| > host.maxDepth;
    if tooDeep {
      host.faulted := true;
      return false;
    }
    UnpackedIsSound(host.tree, dir, content, host.maxDepth);
    assert SameOutside(host.tree, With(host.tree, dir, content), Below(dir));
    host.Become(With(host.tree, dir, content), Below(dir));
    ok := true;
  }

  lemma UnpackedIsSound(before: Tree, dir: Path, content: Tree, maxDepth: nat)
    requires before in Trees(maxDepth) && WellFormed(content) && IsDir(before, dir)
    requires forall q :: dir <= q && q != dir ==> q !in before
    requires forall q :: q in PathsBelow(dir, content) ==> |q| <= maxDepth
    ensures With(before, dir, content) in Trees(maxDepth)
    ensures Unpacked(With(before, dir, content), dir, content)
    ensures forall q :: q !in Below(dir) ==> At(With(before, dir, content), q) == At(before, q)
  {
    var after := With(before, dir, content);
    assert Sound(before, maxDepth);
    UnpackedBelow(before, dir, content);
    forall q | q in after ensures ValidPath(q) && |q| <= maxDepth {
      if q in PathsBelow(dir, content) { assert q == dir + q[|dir|..]; }
    }
    assert IsDir(after, []) by {
      if dir == [] { assert At(after, dir + []) == At(content, []) && dir + [] == []; }
    }
    forall q, k {:trigger q[..k]} | q in after && 0 <= k < |q| ensures IsDir(after, q[..k]) {
      AncestorUnpacked(before, dir, content, after, q, k);
    }
    assert Sound(after, maxDepth);
  }

  lemma UnpackedBelow(before: Tree, dir: Path, content: Tree)
    requires WellFormed(content)
    requires forall q :: dir <= q && q != dir ==> q !in before
    ensures Unpacked(With(before, dir, content), dir, content)
    ensures forall q :: q !in Below(dir) ==> At(With(before, dir, content), q) == At(before, q)
  {
    forall rel: Path ensures At(With(before, dir, content), dir + rel) == At(content, rel) {
      assert (dir + rel)[|dir|..] == rel;
      if rel !in content { assert dir + rel != dir; }
    }
  }

  lemma AncestorUnpacked(before: Tree, dir: Path, content: Tree, after: Tree, q: Path, k: nat)
    requires WellFormed(before) && WellFormed(content) && IsDir(before, dir)
    requires Unpacked(after, dir, content) && forall p :: p !in Below(dir) ==> At(after, p) == At(before, p)
    requires q in after && k < |q|
    ensures IsDir(after, q[..k])
  {
    if dir <= q[..k] {
      var rel := q[|dir|..];
      assert q == dir + rel && dir <= q;
      assert At(after, dir + rel) == At(content, rel);
      assert q[..k] == dir + rel[..k - |dir|];
      assert IsDir(content, rel[..k - |dir|]);
    } else {
      assert At(after, q[..k]) == At(before, q[..k]);
      if dir <= q {
        assert q[..k] == dir[..k];
      } else {
        assert At(after, q) == At(before, q);
      }
    }
  }

  // ---- what an exact target means for the tree ----

  /** The place of the request's source inside the artifact. */
  function SourceIn(req: Request, src: Path): Path {
    if |PathOf(req.artifactDir)| <= |src| then src[|PathOf(req.artifactDir)|..] else []
  }

  /**
    The tree holds what deploying `content` by this request is for: the file's bytes at the
    target, or every entry of the source directory below it, and nothing else there if the
    deploy clears.
   */
  ghost predicate Shows(t: Tree, req: Request, content: Tree) {
    && ValidateRequest(req).Accepted?
    && match D.PlanOf(req)
       case Replace(src, at, _, _) =>
         At(content, SourceIn(req, src)).Some? && At(t, at.target) == At(content, SourceIn(req, src))
       case Sync(src, dst, clear) =>
         forall q: Path :: q != [] ==> ShowsAt(t, dst + q, content, SourceIn(req, src) + q, clear)
       case Refused => false
       case _ => true
  }

  predicate ShowsAt(t: Tree, q: Path, content: Tree, from: Path, clear: bool) {
    At(content, from).Some? || clear ==> At(t, q) == At(content, from)
  }

  /** A completed deploy of an artifact just unpacked into the storage shows its content. */
  lemma CompletedDeployShows(req: Request, before: Tree, after: Tree, content: Tree)
    requires NormalRoots(req.allowedRoots) && ValidateRequest(req).Accepted?
    requires Rooted(req.artifactDir) && STORAGE <= PathOf(req.artifactDir)
    requires Unpacked(before, PathOf(req.artifactDir), content) && D.Deployed(D.PlanOf(req), before, after)
    ensures Shows(after, req, content)
  {
    F.StorageDelivers(req, before, after);
    var plan := D.PlanOf(req);
    if plan.Replace? || plan.Sync? {
      PlanSourceInArtifact(req);
      DeliveredShows(plan, PathOf(req.artifactDir), SourceIn(req, plan.src), before, after, content);
    }
  }

  lemma PlanSourceInArtifact(req: Request)
    requires Rooted(req.artifactDir) && (D.PlanOf(req).Replace? || D.PlanOf(req).Sync?)
    ensures D.PlanOf(req).src == PathOf(req.artifactDir) + SourceIn(req, D.PlanOf(req).src)
  {
    D.PlanSource(req);
    D.SourceIsInArtifact(req);
    PrefixAndRest(PathOf(req.artifactDir), D.PlanOf(req).src);
  }

  lemma PrefixAndRest(p: Path, q: Path)
    requires p <= q
    ensures q == p + q[|p|..]
  {
  }

  lemma DeliveredShows(plan: D.Plan, dir: Path, rel: Path, before: Tree, after: Tree, content: Tree)
    requires (plan.Replace? || plan.Sync?) && plan.src == dir + rel
    requires Unpacked(before, dir, content) && F.Delivered(plan, before, after)
    ensures plan.Replace? ==> At(content, rel).Some? && At(after, plan.at.target) == At(content, rel)
    ensures plan.Sync? ==> forall q: Path :: q != [] ==> ShowsAt(after, plan.dst + q, content, rel + q, plan.clear)
  {
    if plan.Sync? {
      forall q: Path | q != [] ensures ShowsAt(after, plan.dst + q, content, rel + q, plan.clear) {
        assert Image(plan.src, plan.dst, plan.dst + q) == dir + (rel + q);
        assert At(before, dir + (rel + q)) == At(content, rel + q);
      }
    }
  }

  // ---- what deploys elsewhere leave alone ----

  /** The paths that `Shows` looks at. */
  predicate InRegion(plan: D.Plan, q: Path) {
    match plan
    case Replace(_, at, _, _) => q == at.target
    case Sync(_, dst, _) => dst <= q && dst != q
    case _ => false
  }

  /** What `b` writes is nothing that `a` is about; two files in one directory can be apart. */
  ghost predicate Apart(a: D.Plan, b: D.Plan) {
    forall q :: InRegion(a, q) ==> !D.InReach(b, q)
  }

  ghost predicate WellPlaced(plan: D.Plan) {
    plan.Replace? ==> plan.at.Valid()
  }

  lemma PlanIsWellPlaced(req: Request)
    requires NormalRoots(req.allowedRoots) && ValidateRequest(req).Accepted?
    ensures WellPlaced(D.PlanOf(req))
  {
    if D.PlanOf(req).Replace? {
      D.PlanPlace(req);
      D.AcceptedTargetIsWellWritten(req);
      LocationIsValid(req.spec.targetPath);
    }
  }

  /** A directory that `b` has to make is none of the paths that `a` is about. */
  lemma MadeDirectoryIsElsewhere(a: D.Plan, b: D.Plan, t: Tree, q: Path)
    requires Apart(a, b) && WellPlaced(b) && InRegion(a, q) && (a.Replace? ==> q in t)
    ensures q !in D.Footprint(b, t)
  {
    if a.Sync? && b.Replace? && q <= b.at.dir {
      assert q <= b.at.temp;
      assert a.dst <= b.at.temp && a.dst != b.at.temp;
      assert InRegion(a, b.at.temp) && D.InReach(b, b.at.temp);
    } else if a.Sync? && b.Sync? && q <= b.dst {
      var below := b.dst + ["x"];
      assert a.dst <= below && a.dst != below;
      assert InRegion(a, below) && D.InReach(b, below);
    }
  }

  lemma RegionKeepsShows(t: Tree, now: Tree, req: Request, content: Tree)
    requires Shows(t, req, content)
    requires forall q :: InRegion(D.PlanOf(req), q) && (D.PlanOf(req).Replace? ==> q in t) ==> At(now, q) == At(t, q)
    ensures Shows(now, req, content)
  {
    var plan := D.PlanOf(req);
    if plan.Sync? {
      var rel := SourceIn(req, plan.src);
      forall q: Path | q != [] ensures ShowsAt(now, plan.dst + q, content, rel + q, plan.clear) {
        assert ShowsAt(t, plan.dst + q, content, rel + q, plan.clear);
        assert InRegion(plan, plan.dst + q);
      }
    }
  }

  /** A deploy apart from it leaves what an exact target shows. */
  lemma DeployKeepsShows(t: Tree, now: Tree, req: Request, content: Tree, other: D.Plan)
    requires Shows(t, req, content) && Apart(D.PlanOf(req), other) && WellPlaced(other)
    requires forall q :: q !in D.Footprint(other, t) ==> At(now, q) == At(t, q)
    ensures Shows(now, req, content)
  {
    forall q | InRegion(D.PlanOf(req), q) && (D.PlanOf(req).Replace? ==> q in t) ensures At(now, q) == At(t, q) {
      MadeDirectoryIsElsewhere(D.PlanOf(req), other, t, q);
    }
    RegionKeepsShows(t, now, req, content);
  }

  /** So does everything that happens in an artifact directory in the storage. */
  lemma StorageKeepsShows(t: Tree, now: Tree, req: Request, content: Tree, dir: Path)
    requires Shows(t, req, content) && NormalRoots(req.allowedRoots) && STORAGE <= dir
    requires forall q :: q !in MissingAbove(t, dir) + Below(dir) ==> At(now, q) == At(t, q)
    ensures Shows(now, req, content)
  {
    forall q | InRegion(D.PlanOf(req), q) ensures At(now, q) == At(t, q) {
      RegionIsOutsideStorage(req, dir, q);
    }
    RegionKeepsShows(t, now, req, content);
  }

  lemma RegionIsOutsideStorage(req: Request, dir: Path, q: Path)
    requires NormalRoots(req.allowedRoots) && ValidateRequest(req).Accepted? && STORAGE <= dir
    requires InRegion(D.PlanOf(req), q)
    ensures !(q <= dir) && !(dir <= q)
  {
    var target := F.Target(req);
    F.AdmittedTarget(req);
    StorageIsApart(target);
    F.AdmittedPlanFits(req);
    RegionIsBelowTarget(D.PlanOf(req), target, F.Swept(req), req.allowedRoots, q);
    if q <= dir { Comparable(target, STORAGE, dir); }
    if dir <= q { Comparable(target, STORAGE, q); }
  }

  lemma RegionIsBelowTarget(plan: D.Plan, target: Path, swept: Option<Path>, roots: seq<string>, q: Path)
    requires F.Fits(plan, target, swept, roots) && InRegion(plan, q)
    ensures target <= q
  {
  }

  // ---- all targets of a daemon ----

  /** Every target that the protocol calls exact shows the deploy of the digests that it names. */
  ghost predicate Tells(setup: Setup, t: Tree, targets: P.Targets) {
    forall repo :: repo in setup.repos ==> TellsOf(setup, t, targets, repo)
  }

  ghost predicate TellsOf(setup: Setup, t: Tree, targets: P.Targets, repo: C.RepoRef) {
    match P.TargetOf(targets, repo.fullRef)
    case Exact(_, spec, content) => Shows(t, RequestFor(setup, repo, spec), ContentOf(setup, repo, content))
    case _ => true
  }

  /**
    The deploys of different repositories are apart whatever digests they have got to, and all
    artifacts are kept in the daemon's storage.
   */
  ghost predicate Separate(setup: Setup) {
    && (forall repo :: repo in setup.repos ==> STORAGE <= PathOf(ArtifactDir(setup, repo.name)))
    && (forall a, b, d, e :: a in setup.repos && b in setup.repos && a.fullRef != b.fullRef ==>
          RequestsApart(RequestFor(setup, a, d), RequestFor(setup, b, e)))
    && (forall a, b :: a in setup.repos && b in setup.repos && a.fullRef == b.fullRef ==> a == b)
  }

  ghost predicate RequestsApart(a: Request, b: Request) {
    ValidateRequest(a).Accepted? && ValidateRequest(b).Accepted? ==> Apart(D.PlanOf(a), D.PlanOf(b))
  }

  /** Changes in an artifact directory leave all that the targets tell. */
  lemma StorageKeepsTells(setup: Setup, t: Tree, now: Tree, targets: P.Targets, name: string)
    requires NormalRoots(setup.roots) && Tells(setup, t, targets)
    requires STORAGE <= PathOf(ArtifactDir(setup, name))
    requires var dir := PathOf(ArtifactDir(setup, name));
             forall q :: q !in MissingAbove(t, dir) + Below(dir) ==> At(now, q) == At(t, q)
    ensures Tells(setup, now, targets)
  {
    forall repo | repo in setup.repos ensures TellsOf(setup, now, targets, repo) {
      assert TellsOf(setup, t, targets, repo);
      var target := P.TargetOf(targets, repo.fullRef);
      if target.Exact? {
        StorageKeepsShows(t, now, RequestFor(setup, repo, target.spec), ContentOf(setup, repo, target.content),
                          PathOf(ArtifactDir(setup, name)));
      }
    }
  }

  /** A deploy of one repository leaves what the targets of the others tell. */
  lemma DeployKeepsOthers(setup: Setup, t: Tree, now: Tree, targets: P.Targets, repo: C.RepoRef, d: P.Digest,
                          other: C.RepoRef)
    requires WellSetUp(setup) && Separate(setup) && repo in setup.repos && other in setup.repos && other != repo
    requires TellsOf(setup, t, targets, other)
    requires var req := RequestFor(setup, repo, d);
             ValidateRequest(req).Accepted? &&
             forall q :: q !in D.Footprint(D.PlanOf(req), t) ==> At(now, q) == At(t, q)
    ensures TellsOf(setup, now, targets, other)
  {
    var target := P.TargetOf(targets, other.fullRef);
    if target.Exact? {
      var req, mine := RequestFor(setup, repo, d), RequestFor(setup, other, target.spec);
      assert RequestsApart(mine, req);
      PlanIsWellPlaced(req);
      DeployKeepsShows(t, now, mine, ContentOf(setup, other, target.content), D.PlanOf(req));
    }
  }

  /** A record that is current then tells what is at the target. */
  lemma RecordTellsTree(setup: Setup, w: P.World, t: Tree, repo: C.RepoRef)
    requires repo in setup.repos && Tells(setup, t, w.targets) && P.RecordTells(w, repo.fullRef)
    ensures var d := P.Current(w.tags, repo.fullRef);
            P.OnRecord(w, repo.fullRef, d) ==> Shows(t, RequestFor(setup, repo, d), ContentOf(setup, repo, d))
  {
    assert TellsOf(setup, t, w.targets, repo);
  }
}
