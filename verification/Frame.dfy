/** Where an accepted deploy can reach: its footprint against the deny tables, the roots and the daemon's storage. */
module Frame {
  import opened Results
  import opened Text
  import opened Paths
  import opened Requests
  import opened Safety
  import opened Hosts
  import opened FileCopy
  import opened TreeCopy
  import opened DirCopy
  import opened Deploy
  import Health

  predicate WritesTarget(req: Request) {
    req.spec.kind.Jar? || req.spec.kind.War? || req.spec.kind.Static?
  }

  function Target(req: Request): Path {
    PathOf(req.spec.targetPath)
  }

  /** The directory the deploy may empty or fill as a whole. */
  function Swept(req: Request): Option<Path> {
    match req.spec.kind
    case Static => Some(Target(req))
    case War => if OrDefault(req.spec.targetClearParent) then Some(PathOf(Dir(req.spec.targetPath))) else None
    case _ => None
  }

  /** A directory above the target that did not exist. */
  predicate MissingAncestor(t: Tree, target: Path, q: Path) {
    q <= target && q != target && q !in t
  }

  ghost predicate Admitted(req: Request) {
    NormalRoots(req.allowedRoots) && ValidateRequest(req).Accepted? && WritesTarget(req)
  }

  /** A path at which a deploy may write, by the rules of the tables and of the roots. */
  predicate Allowed(p: Path, roots: seq<string>) {
    !Denied(p) && UnderRoots(p, roots)
  }

  lemma AdmittedTarget(req: Request)
    requires Admitted(req)
    ensures Rooted(req.spec.targetPath) && !Contains(req.spec.targetPath, "..") && BasePart(req.spec.targetPath) != ".."
    ensures Allowed(Target(req), req.allowedRoots)
  {
    TargetAcceptedIff(req.spec.targetPath, req.allowedRoots);
    CleanKeepsDotFree(req.spec.targetPath);
  }

  lemma AdmittedSwept(req: Request)
    requires Admitted(req) && Swept(req).Some?
    ensures Allowed(Swept(req).value, req.allowedRoots)
  {
    AdmittedTarget(req);
    if req.spec.kind.War? {
      ClearedDirIsValidated(req.spec.targetPath, req.allowedRoots);
      TargetAcceptedIff(Dir(req.spec.targetPath), req.allowedRoots);
    }
  }

  lemma {:induction false} ProperLocation(raw: string)
    requires Rooted(raw) && BasePart(raw) != ".."
    ensures var at := LocationOf(raw);
            && at.Valid() && |Last(at.temp)| > LONGEST_DENIED_NAME
            && (at.Proper() ==> at.target != [] && at.temp == TempOf(at.target))
  {
    LocationIsValid(raw);
    var at := LocationOf(raw);
    assert Last(at.temp) == BasePart(raw) + TEMP_SUFFIX;
    if at.Proper() { assert Last(at.target) == BasePart(raw); }
  }

  /** A name longer than every name in the tables is only denied together with its directory. */
  lemma LongNameIsNotDenied(q: Path)
    requires q != [] && |Last(q)| > LONGEST_DENIED_NAME && Denied(q)
    ensures exists s :: s in SUBTREE_PATHS && s <= Parent(q)
  {
    if q in EXACT_PATHS { ExactEntries(q); }
    var s :| s in SUBTREE_PATHS && s <= q;
    SubtreeEntries(s);
    assert s != q;
    assert s <= Parent(q);
  }

  lemma DeniedSpreads(s: Path, p: Path)
    requires s in SUBTREE_PATHS && s <= p
    ensures Denied(p)
  {
  }

  /** The verdict on one touched path. */
  ghost predicate Permitted(target: Path, swept: Option<Path>, roots: seq<string>, t: Tree, q: Path) {
    || MissingAncestor(t, target, q)
    || (&& (target <= q || (target != [] && q == TempOf(target)) || (swept.Some? && swept.value <= q))
        && (Denied(q) ==> swept == Some(VAR_SPOOL) && VAR_SPOOL + ["cron"] <= q)
        && (UnderRoots(q, roots) || (target != [] && q == TempOf(target) && swept.None? && IsRoot(target, roots))))
  }

  predicate IsRoot(p: Path, roots: seq<string>) {
    exists r :: r in roots && PathOf(r) == p
  }

  lemma RootsSpread(p: Path, q: Path, roots: seq<string>)
    requires UnderRoots(p, roots)
    ensures p <= q ==> UnderRoots(q, roots)
    ensures p != [] && Parent(p) <= q ==> UnderRoots(q, roots) || IsRoot(p, roots)
  {
    if roots != [] {
      var r :| r in roots && PathOf(r) <= p;
      assert p != [] && PathOf(r) != p ==> PathOf(r) <= Parent(p);
    }
  }

  lemma BelowAllowed(p: Path, q: Path, roots: seq<string>)
    requires Allowed(p, roots) && p <= q
    ensures UnderRoots(q, roots)
    ensures Denied(q) ==> p == VAR_SPOOL && VAR_SPOOL + ["cron"] <= q
  {
    RootsSpread(p, q, roots);
    if Denied(q) { OnlyVarSpoolIsAboveDenied(p, q); }
  }

  lemma TempIsNotDenied(at: Location)
    requires at.Valid() && |Last(at.temp)| > LONGEST_DENIED_NAME && !Denied(at.target)
    ensures !Denied(at.temp)
  {
    NoSubtreeAbove(at.dir, at.target);
    if Denied(at.temp) { LongNameIsNotDenied(at.temp); }
  }

  lemma NoSubtreeAbove(dir: Path, target: Path)
    requires dir <= target && !Denied(target)
    ensures !exists s :: s in SUBTREE_PATHS && s <= dir
  {
    forall s | s in SUBTREE_PATHS && s <= dir ensures s <= target {}
  }

  lemma ReplacePermitted(at: Location, clear: bool, roots: seq<string>, t: Tree, q: Path)
    requires at.Valid() && |Last(at.temp)| > LONGEST_DENIED_NAME
    requires at.Proper() ==> at.target != [] && at.temp == TempOf(at.target)
    requires Allowed(at.target, roots) && (clear ==> Allowed(at.dir, roots))
    requires q in at.Footprint(t) + (if clear then StrictlyBelow(at.dir) else iset{})
    ensures Permitted(at.target, if clear then Some(at.dir) else None, roots, t, q)
  {
    assert at.dir <= at.target && at.dir <= at.temp;
    if q == at.temp {
      TempIsNotDenied(at);
      RootsSpread(at.target, q, roots);
      if clear { RootsSpread(at.dir, q, roots); }
    } else if q == at.target {
    } else if clear && q in StrictlyBelow(at.dir) {
      BelowAllowed(at.dir, q, roots);
    }
  }

  /** A plan whose paths passed the checks. */
  ghost predicate Fits(plan: Plan, target: Path, swept: Option<Path>, roots: seq<string>) {
    && Allowed(target, roots) && (swept.Some? ==> Allowed(swept.value, roots))
    && match plan
       case Replace(_, at, clearParent, _) =>
         && at.Valid() && |Last(at.temp)| > LONGEST_DENIED_NAME && at.target == target
         && (at.Proper() ==> at.target != [] && at.temp == TempOf(at.target))
         && swept == if clearParent then Some(at.dir) else None
       case Sync(_, dst, _) => dst == target && swept == Some(dst)
       case _ => true
  }

  lemma AdmittedPlanFits(req: Request)
    requires Admitted(req)
    ensures Fits(PlanOf(req), Target(req), Swept(req), req.allowedRoots)
  {
    AdmittedTarget(req);
    if Swept(req).Some? { AdmittedSwept(req); }
    ProperLocation(req.spec.targetPath);
  }

  lemma FittingPlanIsPermitted(plan: Plan, target: Path, swept: Option<Path>, roots: seq<string>, t: Tree, q: Path)
    requires Fits(plan, target, swept, roots) && q in Footprint(plan, t)
    ensures Permitted(target, swept, roots, t, q)
  {
    match plan {
      case Replace(_, at, clearParent, _) => ReplacePermitted(at, clearParent, roots, t, q);
      case Sync(_, dst, _) => if dst <= q { BelowAllowed(dst, q, roots); }
      case _ =>
    }
  }

  /**
    Every path that an admitted deploy touches is a missing directory above its target, or it
    is the target, its temporary sibling, or in the swept directory. All of those but the
    first kind respect the deny tables, except below `/var/spool` when that is swept, and lie
    under an allowed root, except the temporary sibling of a target that is itself a root.
   */
  lemma FootprintIsPermitted(req: Request, t: Tree, q: Path)
    requires Admitted(req) && q in Footprint(PlanOf(req), t)
    ensures Permitted(Target(req), Swept(req), req.allowedRoots, t, q)
  {
    AdmittedPlanFits(req);
    FittingPlanIsPermitted(PlanOf(req), Target(req), Swept(req), req.allowedRoots, t, q);
  }

  ghost predicate RespectsTables(plan: Plan, target: Path, t: Tree) {
    forall q :: q in Footprint(plan, t) && !MissingAncestor(t, target, q) ==> !Denied(q)
  }

  /** Unless it sweeps `/var/spool`, an admitted deploy touches nothing denied but missing ancestors. */
  lemma TablesHold(req: Request, t: Tree)
    requires Admitted(req) && Swept(req) != Some(VAR_SPOOL)
    ensures RespectsTables(PlanOf(req), Target(req), t)
  {
    AdmittedPlanFits(req);
    forall q | q in Footprint(PlanOf(req), t) && !MissingAncestor(t, Target(req), q) ensures !Denied(q) {
      FittingPlanIsPermitted(PlanOf(req), Target(req), Swept(req), req.allowedRoots, t, q);
    }
  }

  // ---- the hole at /var/spool ----

  const CRON: Path := VAR_SPOOL + ["cron"]

  lemma CronIsDenied(target: Path)
    requires !Denied(target)
    ensures forall q :: CRON <= q ==> Denied(q)
    ensures !(CRON <= target)
  {
    assert CRON == ["var", "spool", "cron"];
    assert CRON in SUBTREES_VAR && CRON in SUBTREE_PATHS;
    forall q | CRON <= q ensures Denied(q) { DeniedSpreads(CRON, q); }
  }

  /** Some denied entry differs, other than a directory that had to be made above the target. */
  ghost predicate ChangesDenied(before: Tree, after: Tree, target: Path) {
    exists q :: Denied(q) && !MissingAncestor(before, target, q) && At(after, q) != At(before, q)
  }

  /** What a plan that sweeps `/var/spool` does to the cron tables below it. */
  ghost predicate CronChanges(plan: Plan, before: Tree) {
    match plan
    case Replace(_, _, _, _) => CRON in before
    case Sync(src, dst, true) => exists rel: Path :: At(before, CRON + rel) != At(before, src + ["cron"] + rel)
    case Sync(src, dst, false) => exists q :: CRON <= q && OverlaidAt(before, src, dst, q)
    case _ => false
  }

  /** An overlay brings something else to `q`, or takes it away as a temporary name. */
  ghost predicate OverlaidAt(before: Tree, src: Path, dst: Path, q: Path) {
    if Shipped(before, src, dst, q) then At(before, q) != Some(before[Image(src, dst, q)])
    else q in before && TempOfCopied(before, src, dst, StrictlyBelow(dst), q)
  }

  /** A finished deploy: what its plan promises, and nothing changed outside its footprint. */
  ghost predicate Finished(plan: Plan, before: Tree, after: Tree) {
    && Deployed(plan, before, after)
    && (plan.Sync? ==> Disjoint(plan.src, plan.dst))
    && (forall q :: q !in Footprint(plan, before) ==> At(after, q) == At(before, q))
  }

  lemma CronImage(src: Path, rel: Path)
    ensures Image(src, VAR_SPOOL, CRON + rel) == src + ["cron"] + rel
    ensures VAR_SPOOL <= CRON + rel && VAR_SPOOL != CRON + rel
  {
    assert (CRON + rel)[|VAR_SPOOL|..] == ["cron"] + rel;
    assert src + (["cron"] + rel) == src + ["cron"] + rel;
  }

  lemma AtCron(plan: Plan, target: Path, roots: seq<string>, before: Tree, after: Tree, rel: Path)
    requires Fits(plan, target, Some(VAR_SPOOL), roots) && (plan.Replace? || plan.Sync?)
    requires Finished(plan, before, after)
    ensures At(after, CRON + rel) ==
            match plan
            case Replace(_, _, _, _) => None
            case Sync(src, dst, true) => At(before, src + ["cron"] + rel)
            case Sync(src, dst, false) =>
              if Shipped(before, src, dst, CRON + rel) then At(before, src + ["cron"] + rel)
              else if TempOfCopied(before, src, dst, StrictlyBelow(dst), CRON + rel) then None
              else At(before, CRON + rel)
  {
    CronIsDenied(target);
    CronImage(if plan.Sync? then plan.src else [], rel);
  }

  lemma CronChangesAt(plan: Plan, target: Path, roots: seq<string>, before: Tree, after: Tree, rel: Path)
    requires Fits(plan, target, Some(VAR_SPOOL), roots) && (plan.Replace? || plan.Sync?)
    requires Finished(plan, before, after)
    requires WellFormed(before) && At(after, CRON + rel) != At(before, CRON + rel)
    ensures CronChanges(plan, before)
  {
    var q := CRON + rel;
    AtCron(plan, target, roots, before, after, rel);
    CronImage(if plan.Sync? then plan.src else [], rel);
    if plan.Replace? {
      AncestorIn(before, CRON, q);
    } else if !plan.clear {
      assert CRON <= q && OverlaidAt(before, plan.src, plan.dst, q);
    }
  }

  lemma CronChangeIsSeen(plan: Plan, target: Path, roots: seq<string>, before: Tree, after: Tree) returns (rel: Path)
    requires Fits(plan, target, Some(VAR_SPOOL), roots) && (plan.Replace? || plan.Sync?)
    requires Finished(plan, before, after)
    requires CronChanges(plan, before)
    ensures At(after, CRON + rel) != At(before, CRON + rel)
  {
    match plan {
      case Replace(_, _, _, _) =>
        rel := [];
        assert CRON + rel == CRON;
      case Sync(src, dst, true) =>
        rel :| At(before, CRON + rel) != At(before, src + ["cron"] + rel);
      case Sync(src, dst, false) =>
        var q :| CRON <= q && OverlaidAt(before, src, dst, q);
        rel := q[|CRON|..];
        assert CRON + rel == q;
        CronImage(src, rel);
    }
    AtCron(plan, target, roots, before, after, rel);
  }

  /**
    A finished deploy changes a denied entry if and only if it sweeps `/var/spool` and something
    differs there at or below `cron`: for a war, when the directory exists at all; for a clearing
    copy, when it is not what the artifact ships there; for an overlay, when the artifact ships
    something else for one of its entries, or ships a file whose temporary name is one of them.
   */
  lemma DeniedChangesIff(req: Request, before: Tree, after: Tree)
    requires Admitted(req) && WellFormed(before) && Finished(PlanOf(req), before, after)
    ensures ChangesDenied(before, after, Target(req)) <==>
              Swept(req) == Some(VAR_SPOOL) && CronChanges(PlanOf(req), before)
  {
    AdmittedPlanFits(req);
    AdmittedPlanWrites(req);
    PlanChangesDeniedIff(PlanOf(req), Target(req), Swept(req), req.allowedRoots, before, after);
  }

  lemma PlanChangesDeniedIff(plan: Plan, target: Path, swept: Option<Path>, roots: seq<string>, before: Tree,
                             after: Tree)
    requires Fits(plan, target, swept, roots) && (plan.Replace? || plan.Sync?)
    requires WellFormed(before) && Finished(plan, before, after)
    ensures ChangesDenied(before, after, target) <==> swept == Some(VAR_SPOOL) && CronChanges(plan, before)
  {
    if ChangesDenied(before, after, target) {
      var q :| Denied(q) && !MissingAncestor(before, target, q) && At(after, q) != At(before, q);
      FittingPlanIsPermitted(plan, target, swept, roots, before, q);
      assert CRON + q[|CRON|..] == q;
      CronChangesAt(plan, target, roots, before, after, q[|CRON|..]);
    }
    if swept == Some(VAR_SPOOL) && CronChanges(plan, before) {
      var rel := CronChangeIsSeen(plan, target, roots, before, after);
      CronIsDenied(target);
      NotAboveTarget(target, rel);
      assert CRON <= CRON + rel;
      assert Denied(CRON + rel) && !MissingAncestor(before, target, CRON + rel);
    }
  }

  lemma AdmittedPlanWrites(req: Request)
    requires WritesTarget(req) && PlanOf(req) != Refused
    ensures PlanOf(req).Replace? || PlanOf(req).Sync?
  {
  }

  lemma NotAboveTarget(target: Path, rel: Path)
    requires !Denied(target)
    ensures !(CRON + rel <= target)
  {
    CronIsDenied(target);
    assert CRON <= CRON + rel;
  }

  /** A finished clearing deploy there leaves nothing of the cron tables but what it ships itself. */
  lemma CronIsLost(req: Request, before: Tree, after: Tree, q: Path)
    requires Admitted(req) && Swept(req) == Some(VAR_SPOOL) && Finished(PlanOf(req), before, after)
    requires CRON <= q && !KeepsAt(PlanOf(req), before, q)
    ensures q !in after
  {
    AdmittedPlanFits(req);
    AdmittedPlanWrites(req);
    PlanLosesCron(PlanOf(req), Target(req), req.allowedRoots, before, after, q);
  }

  /** An overlay, or a copy that ships an entry for `q`. */
  predicate KeepsAt(plan: Plan, before: Tree, q: Path) {
    plan.Sync? && (!plan.clear || Shipped(before, plan.src, plan.dst, q))
  }

  lemma PlanLosesCron(plan: Plan, target: Path, roots: seq<string>, before: Tree, after: Tree, q: Path)
    requires Fits(plan, target, Some(VAR_SPOOL), roots) && (plan.Replace? || plan.Sync?)
    requires Finished(plan, before, after)
    requires CRON <= q && !KeepsAt(plan, before, q)
    ensures q !in after
  {
    var rel := q[|CRON|..];
    assert CRON + rel == q;
    AtCron(plan, target, roots, before, after, rel);
    CronImage(if plan.Sync? then plan.src else [], rel);
  }

  lemma SweepingStatic(req: Request)
    requires NormalRoots(req.allowedRoots) && req.spec.kind.Static?
    requires ValidateTargetPath(req.spec.targetPath, req.allowedRoots).Accepted?
    requires ValidateClearPath(Clean(req.spec.targetPath), req.allowedRoots).Accepted?
    ensures Admitted(req) && Swept(req) == Some(PathOf(req.spec.targetPath))
  {
    assert ValidateRequest(req).Accepted? by { assert req.spec.kind == Static; }
    assert WritesTarget(req) && Swept(req) == Some(Target(req));
  }

  lemma SweepingWar(req: Request)
    requires NormalRoots(req.allowedRoots) && req.spec.kind.War? && OrDefault(req.spec.targetClearParent)
    requires ValidateTargetPath(req.spec.targetPath, req.allowedRoots).Accepted?
    requires ValidateClearPath(Dir(Clean(req.spec.targetPath)), req.allowedRoots).Accepted?
    ensures Admitted(req) && Swept(req) == Some(PathOf(Dir(req.spec.targetPath)))
  {
  }

  lemma NoRootsAreNormal()
    ensures NormalRoots([])
  {
  }

  /** A static request for `/var/spool` passes every check, clearing or not. */
  lemma StaticOverSpoolIsAdmitted(req: Request)
    requires req.allowedRoots == [] && req.spec.kind.Static? && req.spec.targetPath == Render(VAR_SPOOL)
    ensures Admitted(req) && Swept(req) == Some(VAR_SPOOL)
  {
    StaticOverSpool();
    NoRootsAreNormal();
    SweepingStatic(req);
  }

  /** So does a war put into it that clears its parent, unless it is itself called `cron`. */
  lemma {:induction false} WarIntoSpoolIsAdmitted(req: Request, name: string)
    requires req.allowedRoots == [] && req.spec.kind.War? && OrDefault(req.spec.targetClearParent)
    requires ValidName(name) && !HasDots(name) && name != "cron" && req.spec.targetPath == Render(VAR_SPOOL + [name])
    ensures Admitted(req) && Swept(req) == Some(VAR_SPOOL)
  {
    WarIntoSpool(name);
    NoRootsAreNormal();
    SweepingWar(req);
  }

  lemma StaticOverSpool()
    ensures var raw := Render(VAR_SPOOL);
            && ValidateTargetPath(raw, []).Accepted?
            && ValidateClearPath(Clean(raw), []).Accepted?
            && PathOf(raw) == VAR_SPOOL
  {
    VarSpoolIsAdmitted();
    VarSpoolIsPlain();
    PathOfRender(VAR_SPOOL);
    CleanIsNormalForm(Render(VAR_SPOOL));
    ClearAcceptedIff(Render(VAR_SPOOL), []);
  }

  lemma {:induction false} WarIntoSpool(name: string)
    requires ValidName(name) && !HasDots(name) && name != "cron"
    ensures var raw := Render(VAR_SPOOL + [name]);
            && ValidateTargetPath(raw, []).Accepted? && ValidateClearPath(Dir(Clean(raw)), []).Accepted?
            && PathOf(Dir(raw)) == VAR_SPOOL
  {
    var p := VAR_SPOOL + [name];
    VarSpoolIsAdmitted();
    VarSpoolIsPlain();
    EntryOfSpoolIsAccepted(name);
    PathOfRender(p);
    CleanIsNormalForm(Render(p));
    DirOfRender(p);
    assert Parent(p) == VAR_SPOOL;
  }

  lemma {:induction false} EntryOfSpoolIsAccepted(name: string)
    requires ValidName(name) && !HasDots(name) && name != "cron"
    ensures ValidPath(VAR_SPOOL + [name]) && ValidateTargetPath(Render(VAR_SPOOL + [name]), []).Accepted?
  {
    VarSpoolIsPlain();
    PlainChild(VAR_SPOOL, name);
    EntryOfSpoolIsNotDenied(name);
    PlainTargetIsAccepted(VAR_SPOOL + [name]);
  }

  lemma {:induction false} PlainChild(dir: Path, name: string)
    requires ValidPath(dir) && AllDotFree(dir) && ValidName(name) && !HasDots(name)
    ensures ValidPath(dir + [name]) && AllDotFree(dir + [name])
  {
  }

  lemma PlainTargetIsAccepted(p: Path)
    requires ValidPath(p) && AllDotFree(p) && !Denied(p)
    ensures ValidateTargetPath(Render(p), []).Accepted?
  {
    PathOfRender(p);
    RenderDotFree(p);
    HasDotsIsContains(Render(p));
    TargetAcceptedIff(Render(p), []);
  }

  lemma EntryOfSpoolIsNotDenied(name: string)
    requires name != "cron"
    ensures !Denied(VAR_SPOOL + [name])
  {
    var p := VAR_SPOOL + [name];
    VarSpoolIsNotDenied();
    SpoolEntryIsNoSubtree(name);
    if p in EXACT_PATHS { ExactEntries(p); }
    forall s | s in SUBTREE_PATHS ensures !(s <= p) {
      SubtreeEntries(s);
      assert |s| == 3 && s <= p ==> s == p;
      assert |s| <= 2 && s <= p ==> s <= VAR_SPOOL;
    }
  }

  lemma SpoolEntryIsNoSubtree(name: string)
    requires name != "cron"
    ensures VAR_SPOOL + [name] !in SUBTREE_PATHS
  {
    var p := VAR_SPOOL + [name];
    assert |p| == 3 && p[1] == "spool" && |p[1]| == 5 && p[2] == name && CRON[2] == "cron";
    if p in SUBTREES_SYSTEM { SubtreesSystemEntries(p); }
    if p in SUBTREES_USR { SubtreesUsrEntries(p); }
    if p in SUBTREES_VAR { SubtreesVarEntries(p); }
  }

  /** `/var/spool` itself passes every check for a swept directory. */
  lemma VarSpoolIsAdmitted()
    ensures Render(VAR_SPOOL) == "/var/spool"
    ensures ValidateClearPath(Render(VAR_SPOOL), []).Accepted?
  {
    var raw := Render(VAR_SPOOL);
    VarSpoolAsText();
    VarSpoolIsPlain();
    PathOfRender(VAR_SPOOL);
    RenderDotFree(VAR_SPOOL);
    HasDotsIsContains(raw);
    VarSpoolIsNotDenied();
    TargetAcceptedIff(raw, []);
    ClearAcceptedIff(raw, []);
  }

  lemma VarSpoolAsText()
    ensures Render(VAR_SPOOL) == "/var/spool"
  {
    assert VAR_SPOOL[1..] == ["spool"] && JoinSlash(["spool"]) == "spool";
  }

  lemma VarSpoolIsPlain()
    ensures ValidPath(VAR_SPOOL) && AllDotFree(VAR_SPOOL)
  {
    NoDots("var");
    NoDots("spool");
  }

  lemma {:induction false} NoDots(s: string)
    requires '.' !in s
    ensures !HasDots(s)
  {
    if s != "" { NoDots(s[1..]); }
  }

  lemma VarSpoolIsNotDenied()
    ensures !Denied(VAR_SPOOL)
  {
    assert VAR_SPOOL !in EXACT_SYSTEM && VAR_SPOOL !in EXACT_DATA;
    forall s | s in SUBTREE_PATHS ensures !(s <= VAR_SPOOL) {
      if s in SUBTREES_SYSTEM {
        assert |s| == 1 && s[0] != "var" by { SubtreesSystemEntries(s); SystemIsNotVar(s); }
      } else if s in SUBTREES_USR {
        SubtreesUsrEntries(s);
        assert |s[0]| == 3 && s[0][0] == 'u' && VAR_SPOOL[0][0] == 'v';
      } else {
        VarIsNotSpool(s);
      }
    }
  }

  lemma SystemIsNotVar(s: Path)
    requires s in SUBTREES_SYSTEM
    ensures |s| == 1 && s[0] != "var"
  {
  }

  lemma VarIsNotSpool(s: Path)
    requires s in SUBTREES_VAR
    ensures |s| >= 2 && (|s| == 2 ==> s[1] != "spool")
  {
  }

  // ---- the daemon's storage ----

  /** No accepted deploy touches anything at or below the daemon's storage. */
  lemma StorageIsUntouched(req: Request, t: Tree, q: Path)
    requires NormalRoots(req.allowedRoots) && ValidateRequest(req).Accepted?
    requires STORAGE <= q
    ensures q !in Footprint(PlanOf(req), t)
  {
    if WritesTarget(req) && q in Footprint(PlanOf(req), t) {
      FootprintIsPermitted(req, t, q);
      assert STORAGE in SUBTREES_VAR && STORAGE in SUBTREE_PATHS;
      DeniedSpreads(STORAGE, q);
      AdmittedTarget(req);
      StorageIsApart(Target(req));
      StorageIsNotSpool(q);
    }
  }

  lemma StorageIsNotSpool(q: Path)
    requires STORAGE <= q
    ensures !(VAR_SPOOL + ["cron"] <= q)
  {
    assert |q[1]| == |STORAGE[1]| == 3 && |(VAR_SPOOL + ["cron"])[1]| == 5;
  }

  /** With artifacts kept in the default place a static deploy never reads what it writes. */
  lemma DefaultArtifactsAreApart(req: Request)
    requires NormalRoots(req.allowedRoots) && ValidateRequest(req).Accepted?
    requires STORAGE <= PathOf(req.artifactDir)
    ensures SourceApart(req)
  {
    if req.spec.kind.Static? {
      AdmittedTarget(req);
      StorageIsApart(Target(req));
      if Target(req) <= PathOf(req.artifactDir) { Comparable(Target(req), STORAGE, PathOf(req.artifactDir)); }
    }
  }

  // ---- the source that is its own temporary file ----

  /** Nor is a source kept there ever the temporary name of its own copy. */
  lemma DefaultSourceIsNotTemp(req: Request)
    requires NormalRoots(req.allowedRoots) && ValidateRequest(req).Accepted?
    requires Rooted(req.artifactDir) && STORAGE <= PathOf(req.artifactDir) && PlanOf(req).Replace?
    ensures PlanOf(req).src != PlanOf(req).at.temp
  {
    SourceIsInArtifact(req);
    assert STORAGE <= PlanOf(req).src;
    if PlanOf(req).src == PlanOf(req).at.temp {
      assert PlanOf(req).at.temp in Footprint(PlanOf(req), map[]);
      StorageIsUntouched(req, map[], PlanOf(req).src);
    }
  }

  /** Kept beside the target and named like its temporary file, a source is. */
  lemma SelfSourced(req: Request, dir: Path, name: string)
    requires req.spec.kind.Jar? || req.spec.kind.War?
    requires ValidPath(dir) && dir != [] && ValidName(name)
    requires req.artifactDir == Render(dir) && req.spec.sourceFile == name + TEMP_SUFFIX
    requires req.spec.targetPath == Render(dir + [name])
    ensures PlanOf(req).Replace? && PlanOf(req).src == PlanOf(req).at.temp == dir + [name + TEMP_SUFFIX]
  {
    SourceInDirectory(dir, name);
    PlanReplaces(req);
    PlanSource(req);
    PlanPlace(req);
    LocationOfRender(dir + [name]);
    assert Parent(dir + [name]) == dir;
  }

  lemma PlanReplaces(req: Request)
    requires (req.spec.kind.Jar? || req.spec.kind.War?) && Source(req).Ok?
    ensures PlanOf(req).Replace?
  {
  }

  lemma SourceInDirectory(dir: Path, name: string)
    requires ValidPath(dir) && dir != [] && ValidName(name)
    ensures var joined := SecurePathJoin(Render(dir), name + TEMP_SUFFIX);
            joined.Ok? && PathOf(joined.value) == dir + [name + TEMP_SUFFIX]
  {
    var rel := name + TEMP_SUFFIX;
    TempNameIsPlain(name);
    SplitSingle(rel);
    PathOfRender(dir);
    ResolveNames(dir, [rel]);
    SecurePathJoinIff(Render(dir), rel);
    PathOfRender(dir + [rel]);
  }

  lemma TempNameIsPlain(name: string)
    requires ValidName(name)
    ensures var rel := name + TEMP_SUFFIX; ValidName(rel) && !Blank(rel) && !Rooted(rel)
  {
    var rel := name + TEMP_SUFFIX;
    assert rel[|rel| - 1] == 'p' && rel[0] == name[0] && name[0] in name;
    assert '/' !in TEMP_SUFFIX && |rel| > |TEMP_SUFFIX|;
  }

  /** Such a request can be accepted; when its deploy finishes, the target is an empty file. */
  lemma SelfSourcedTargetIsEmpty(req: Request, before: Tree, after: Tree)
    requires PlanOf(req).Replace? && PlanOf(req).src == PlanOf(req).at.temp && Deployed(PlanOf(req), before, after)
    requires !PlanOf(req).clearParent
    ensures At(after, PlanOf(req).at.target) == Some(File([]))
  {
    BytesArriveIff(before, after, PlanOf(req).src, PlanOf(req).at);
  }

  lemma SelfSourcedIsAdmitted(req: Request)
    requires req.spec.kind.Jar? && req.allowedRoots == [] && req.artifactDir == Render(["srv", "app"])
    requires req.spec.sourceFile == "x" + TEMP_SUFFIX && req.spec.targetPath == Render(["srv", "app"] + ["x"])
    ensures Admitted(req) && PlanOf(req).Replace? && PlanOf(req).src == PlanOf(req).at.temp
  {
    SrvAppIsPlain();
    SelfSourced(req, ["srv", "app"], "x");
    SrvIsNotDenied(["srv", "app"] + ["x"]);
    PlainTargetIsAccepted(["srv", "app"] + ["x"]);
  }

  lemma SrvAppIsPlain()
    ensures ValidPath(["srv", "app"]) && ValidName("x")
    ensures ValidPath(["srv", "app"] + ["x"]) && AllDotFree(["srv", "app"] + ["x"])
  {
    NoDots("srv");
    NoDots("app");
    NoDots("x");
  }

  lemma SrvIsNotDenied(p: Path)
    requires |p| > 2 && p[0] == "srv"
    ensures !Denied(p)
  {
    if p in EXACT_PATHS { ExactEntries(p); }
    if s :| s in SUBTREE_PATHS && s <= p {
      assert s[0] == "srv" by { SubtreeEntries(s); }
      NoSubtreeInSrv(s);
    }
  }

  lemma NoSubtreeInSrv(s: Path)
    requires s in SUBTREE_PATHS && |s| > 0
    ensures s[0] != "srv"
  {
    if s in SUBTREES_SYSTEM {
      SystemIsNotSrv(s);
    } else if s in SUBTREES_USR {
      SubtreesUsrEntries(s);
      assert s[0][0] == 'u' && "srv"[0] == 's';
    } else {
      SubtreesVarEntries(s);
      assert s[0][0] == 'v' && "srv"[0] == 's';
    }
  }

  lemma SystemIsNotSrv(s: Path)
    requires s in SUBTREES_SYSTEM
    ensures |s| == 1 && s[0] != "srv"
  {
  }

  // ---- a deploy from the storage ----

  /** The bytes of the artifact have arrived: the file's own, or for every path below the target the source's. */
  ghost predicate Delivered(plan: Plan, before: Tree, after: Tree) {
    match plan
    case Replace(src, at, _, _) => At(before, src).Some? && At(after, at.target) == At(before, src)
    case Sync(src, dst, clear) => DirCopied(before, after, src, dst, clear)
    case _ => true
  }

  lemma StorageSettles(req: Request)
    requires NormalRoots(req.allowedRoots) && ValidateRequest(req).Accepted?
    requires Rooted(req.artifactDir) && STORAGE <= PathOf(req.artifactDir)
    ensures Settled(PlanOf(req))
  {
    if PlanOf(req).Sync? {
      PlanPlace(req);
      PlanSource(req);
      DefaultArtifactsAreApart(req);
      SourceIsApart(req);
    }
  }

  lemma StorageDelivers(req: Request, before: Tree, after: Tree)
    requires NormalRoots(req.allowedRoots) && ValidateRequest(req).Accepted?
    requires Rooted(req.artifactDir) && STORAGE <= PathOf(req.artifactDir)
    requires Deployed(PlanOf(req), before, after)
    ensures Delivered(PlanOf(req), before, after)
  {
    if PlanOf(req).Replace? {
      DefaultSourceIsNotTemp(req);
      PlanPlace(req);
      AdmittedTarget(req);
      LocationIsValid(req.spec.targetPath);
    }
    StorageSettles(req);
    PlanDelivers(PlanOf(req), before, after);
  }

  lemma PlanDelivers(plan: Plan, before: Tree, after: Tree)
    requires Deployed(plan, before, after)
    requires plan.Replace? ==> plan.at.Valid() && plan.src != plan.at.temp
    requires Settled(plan)
    ensures Delivered(plan, before, after)
  {
    if plan.Replace? && !plan.clearParent { BytesArriveIff(before, after, plan.src, plan.at); }
  }

  /**
    A deploy from the default artifact directory leaves the storage, state file included, as it
    was, and once its strategy has completed the artifact's bytes are at the target.
   */
  method RunFromStorage(host: Host, req: Request, runs: Health.Attempts)
    returns (r: Result<(), Failure>, effort: Health.Effort)
    requires host.Valid() && Rooted(req.artifactDir) && NormalRoots(req.allowedRoots)
    requires STORAGE <= PathOf(req.artifactDir)
    modifies host
    ensures host.Valid() && host.Confined(Footprint(PlanOf(req), old(host.tree)))
    ensures forall q :: STORAGE <= q ==> At(host.tree, q) == At(old(host.tree), q)
    ensures forall q :: q in host.touched && q !in old(host.touched) ==> !(STORAGE <= q)
    ensures ValidateRequest(req).Rejected? ==> unchanged(host) && r == Err(UnsafeRequest(ValidateRequest(req).reason))
    ensures ValidateRequest(req).Accepted? ==> Ran(host, req, PlanOf(req), r)
    ensures StrategyCompleted(r) ==> Delivered(PlanOf(req), old(host.tree), host.tree)
    ensures CheckTells(req.spec, runs, r, effort)
  {
    if ValidateRequest(req).Accepted? {
      forall q | STORAGE <= q ensures q !in Footprint(PlanOf(req), host.tree) { StorageIsUntouched(req, host.tree, q); }
    }
    r, effort := Run(host, req, runs);
    if StrategyCompleted(r) { StorageDelivers(req, old(host.tree), host.tree); }
  }
}
