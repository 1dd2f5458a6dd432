/**
  The strategies and the pipeline around them. A request is first read as a plan, which says in
  components what the strategy is going to do; contracts speak about plans.
 */
module Deploy {
  import opened Results
  import opened Paths
  import opened Requests
  import opened Safety
  import opened Hosts
  import opened FileCopy
  import opened TreeCopy
  import opened DirCopy
  import opened Shell
  import opened Health

  datatype Failure = UnsafeRequest(reason: Reason) | PreHookFailed | StrategyFailed | Unhealthy

  datatype Plan =
    | Replace(src: Path, at: Location, clearParent: bool, unit: Option<string>)
    | Sync(src: Path, dst: Path, clear: bool)
    | Execute(argv: seq<string>)
    | Nothing
    | Refused

  function Source(req: Request): Result<Path, Reason> {
    match SecurePathJoin(req.artifactDir, if req.spec.kind.Static? then req.spec.sourceDir else req.spec.sourceFile)
    case Ok(s) => Ok(PathOf(s))
    case Err(e) => Err(e)
  }

  /** The service that the strategy stops and starts, if it manages one. */
  function UnitOf(spec: Spec): Option<string> {
    if spec.manager.NoManager? then None else Some(spec.serviceName)
  }

  /** The argument vector of a run-once command, when it has one. */
  function Argv(artifactDir: string, spec: Spec): seq<string> {
    match (SecurePathJoin(artifactDir, spec.sourceFile), Tokens(spec.runonceCommand))
    case (Ok(file), Ok(tokens)) => SubstituteAll(tokens, file)
    case _ => []
  }

  /** The plan of the strategies that replace one file. */
  function ReplacePlan(src: Result<Path, Reason>, dst: string, clearParent: bool, unit: Option<string>): Plan {
    match src
    case Err(_) => Refused
    case Ok(file) => Replace(file, LocationOf(dst), clearParent, unit)
  }

  /** The plan of the strategy that copies a directory. */
  function SyncPlan(src: Result<Path, Reason>, dst: string, clear: bool): Plan {
    match src
    case Err(_) => Refused
    case Ok(dir) => Sync(dir, PathOf(dst), clear)
  }

  function CommandPlan(argv: seq<string>): Plan {
    if argv == [] then Refused else Execute(argv)
  }

  function PlanOf(req: Request): Plan {
    var spec := req.spec;
    match spec.kind
    case Jar => ReplacePlan(Source(req), spec.targetPath, false, UnitOf(spec))
    case War => ReplacePlan(Source(req), spec.targetPath, OrDefault(spec.targetClearParent), UnitOf(spec))
    case Static => SyncPlan(Source(req), spec.targetPath, OrDefault(spec.targetClear))
    case RunOnce => CommandPlan(Argv(req.artifactDir, spec))
    case HookOnly => Nothing
  }

  lemma PlanSource(req: Request)
    requires PlanOf(req).Replace? || PlanOf(req).Sync?
    ensures Source(req).Ok? && PlanOf(req).src == Source(req).value
  {
    var spec := req.spec;
    match spec.kind {
      case Jar => SourceOfPlan(Source(req), spec.targetPath, false, UnitOf(spec));
      case War => SourceOfPlan(Source(req), spec.targetPath, OrDefault(spec.targetClearParent), UnitOf(spec));
      case Static => SourceOfPlan(Source(req), spec.targetPath, OrDefault(spec.targetClear), None);
      case RunOnce =>
      case HookOnly =>
    }
  }

  lemma SourceOfPlan(src: Result<Path, Reason>, dst: string, clear: bool, unit: Option<string>)
    ensures var plan := ReplacePlan(src, dst, clear, unit); plan.Replace? ==> src.Ok? && plan.src == src.value
    ensures var plan := SyncPlan(src, dst, clear); plan.Sync? ==> src.Ok? && plan.src == src.value
    ensures !SyncPlan(src, dst, clear).Replace? && !ReplacePlan(src, dst, clear, unit).Sync?
  {
  }

  lemma PlanPlace(req: Request)
    requires PlanOf(req).Replace? || PlanOf(req).Sync?
    ensures req.spec.kind.Jar? || req.spec.kind.War? || req.spec.kind.Static?
    ensures PlanOf(req).Replace? ==> PlanOf(req).at == LocationOf(req.spec.targetPath)
    ensures PlanOf(req).Sync? ==> PlanOf(req).dst == PathOf(req.spec.targetPath)
  {
    var spec := req.spec;
    match spec.kind {
      case Jar => PlaceOfPlan(Source(req), spec.targetPath, false, UnitOf(spec));
      case War => PlaceOfPlan(Source(req), spec.targetPath, OrDefault(spec.targetClearParent), UnitOf(spec));
      case Static => PlaceOfPlan(Source(req), spec.targetPath, OrDefault(spec.targetClear), None);
      case RunOnce =>
      case HookOnly =>
    }
  }

  lemma PlaceOfPlan(src: Result<Path, Reason>, dst: string, clear: bool, unit: Option<string>)
    ensures var plan := ReplacePlan(src, dst, clear, unit);
            !plan.Sync? && (plan.Replace? ==> plan.at == LocationOf(dst))
    ensures var plan := SyncPlan(src, dst, clear); !plan.Replace? && (plan.Sync? ==> plan.dst == PathOf(dst))
  {
  }

  // ---- what a plan may touch, what it leaves, and why it may fail ----

  ghost function Footprint(plan: Plan, t: Tree): iset<Path> {
    match plan
    case Replace(_, at, clearParent, _) => at.Footprint(t) + (if clearParent then StrictlyBelow(at.dir) else iset{})
    case Sync(_, dst, _) => MissingAbove(t, dst) + StrictlyBelow(dst)
    case _ => iset{}
  }

  /** After clearing the parent, the new file is the only thing left in it. */
  ghost predicate AloneInParent(before: Tree, after: Tree, src: Path, at: Location) {
    && at.Proper() && src in before && before[src].File?
    && IsDir(after, at.dir)
    && (forall q :: at.dir <= q && at.dir != q ==> At(after, q) == if q == at.target then Some(before[src]) else None)
    && (forall q :: !(at.dir <= q) && q !in MissingAbove(before, at.dir) ==> At(after, q) == At(before, q))
  }

  /** The tree that each kind of deploy promises. */
  ghost predicate Deployed(plan: Plan, before: Tree, after: Tree) {
    match plan
    case Replace(src, at, clearParent, _) =>
      if clearParent then AloneInParent(before, after, src, at) else FileCopied(before, after, src, at)
    case Sync(src, dst, clear) => SyncDone(before, after, src, dst, clear)
    case Execute(_) => after == before
    case Nothing => after == before
    case Refused => false
  }

  /** The log of a success: the service goes down before any change and up after all of them. */
  function StrategyLog(plan: Plan, before: Tree, after: Tree): seq<Event> {
    match plan
    case Replace(_, _, _, Some(unit)) => [Stopped(unit, before), Started(unit, after)]
    case Execute(argv) => [Executed(argv, before)]
    case _ => []
  }

  function ServicesAfter(plan: Plan, running: map<string, bool>): map<string, bool> {
    match plan
    case Replace(_, _, _, Some(unit)) => running[unit := true]
    case _ => running
  }

  /** The log entries and the services after a successful stop. */
  function StopLog(unit: Option<string>, seen: Tree): seq<Event> {
    match unit
    case None => []
    case Some(u) => [Stopped(u, seen)]
  }

  function WithUnit(running: map<string, bool>, unit: Option<string>, up: bool): map<string, bool> {
    match unit
    case None => running
    case Some(u) => running[u := up]
  }

  /** What a failing strategy may have logged. */
  function FailLog(plan: Plan, before: Tree): seq<Event> {
    match plan
    case Replace(_, _, _, unit) => StopLog(unit, before)
    case _ => []
  }

  /** A failure leaves at worst the plan's own service stopped. */
  ghost predicate LeftStopped(plan: Plan, before: map<string, bool>, after: map<string, bool>) {
    after == before || (plan.Replace? && after == WithUnit(before, plan.unit, false))
  }

  /** Why a strategy fails although no system call faulted. */
  ghost predicate Hindered(plan: Plan, t: Tree) {
    match plan
    case Replace(src, at, clearParent, _) => if clearParent then Unplaceable(t, src, at) else FileObstructed(t, src, at)
    case Sync(src, dst, clear) => Uncopiable(t, src, dst, clear)
    case Refused => true
    case _ => false
  }

  /** The same for a file that is to be alone in its directory: what is cleared first is not in the way. */
  ghost predicate Unplaceable(t: Tree, src: Path, at: Location) {
    BlockedPlace(t, src, at) || !GuardPasses(t, at.dir)
  }

  ghost predicate BlockedPlace(t: Tree, src: Path, at: Location) {
    src !in t || !t[src].File? || src in StrictlyBelow(at.dir) || Blocked(t, at.dir) || !at.Proper()
  }

  /** The plan does not read what it writes; a copy between overlapping directories may end either way. */
  predicate Settled(plan: Plan) {
    plan.Sync? ==> Disjoint(plan.src, plan.dst)
  }

  /** The paths at which a plan may put or remove something; above them it only makes directories. */
  ghost function Reach(plan: Plan): iset<Path> {
    iset q: Path | InReach(plan, q)
  }

  predicate InReach(plan: Plan, q: Path) {
    match plan
    case Replace(_, at, clearParent, _) => q == at.target || q == at.temp || (clearParent && at.dir <= q && at.dir != q)
    case Sync(_, dst, _) => dst <= q && dst != q
    case _ => false
  }

  /** Only paths in the footprint differ or were touched, and those above the target are new directories. */
  ghost predicate Within(plan: Plan, before: Snapshot, after: Snapshot) {
    && after.touched <= before.touched + Footprint(plan, before.tree) && after.origin == before.origin
    && (forall q :: q !in Footprint(plan, before.tree) ==> At(after.tree, q) == At(before.tree, q))
    && OnlyMade(before.tree, after.tree, Reach(plan))
  }

  /** How a strategy with this plan may leave the host. */
  ghost predicate CarriesOut(plan: Plan, ok: bool, before: Snapshot, after: Snapshot) {
    && Within(plan, before, after)
    && (before.faulted ==> after.faulted)
    && (if ok then
          && Deployed(plan, before.tree, after.tree)
          && (Settled(plan) ==> !Hindered(plan, before.tree))
          && after.events == before.events + StrategyLog(plan, before.tree, after.tree)
          && after.running == ServicesAfter(plan, before.running)
        else
          && after.events in {before.events, before.events + FailLog(plan, before.tree)}
          && LeftStopped(plan, before.running, after.running)
          && (after.faulted || Hindered(plan, before.tree)))
  }

  ghost function Endings(plan: Plan, ok: bool, before: Snapshot): iset<Snapshot> {
    iset after: Snapshot | CarriesOut(plan, ok, before, after)
  }

  /** The contract shared by the strategies. */
  twostate predicate Applied(host: Host, plan: Plan, ok: bool)
    reads host
  {
    host.Valid() && host.Now() in Endings(plan, ok, old(host.Now()))
  }

  // ---- services and hooks ----

  method StopService(host: Host, unit: Option<string>) returns (ok: bool)
    modifies host
    ensures host.TreeKept()
    ensures !ok ==> host.faulted
    ensures !ok || unit.None? ==> host.running == old(host.running) && host.events == old(host.events)
    ensures ok && unit.Some? ==> host.running == old(host.running)[unit.value := false]
    ensures ok && unit.Some? ==> host.events == old(host.events) + [Stopped(unit.value, old(host.tree))]
  {
    if unit.None? { return true; }
    ok := host.Attempt();
    if ok {
      host.running := host.running[unit.value := false];
      host.events := host.events + [Stopped(unit.value, host.tree)];
    }
  }

  method StartService(host: Host, unit: Option<string>) returns (ok: bool)
    modifies host
    ensures host.TreeKept()
    ensures !ok ==> host.faulted
    ensures !ok || unit.None? ==> host.running == old(host.running) && host.events == old(host.events)
    ensures ok && unit.Some? ==> host.running == old(host.running)[unit.value := true]
    ensures ok && unit.Some? ==> host.events == old(host.events) + [Started(unit.value, old(host.tree))]
  {
    if unit.None? { return true; }
    ok := host.Attempt();
    if ok {
      host.running := host.running[unit.value := true];
      host.events := host.events + [Started(unit.value, host.tree)];
    }
  }

  /** The script that a hook annotation names stays inside the artifact and exists. */
  predicate HookRunnable(artifactDir: string, hook: string, t: Tree) {
    match SecurePathJoin(artifactDir, hook)
    case Ok(script) => PathOf(script) in t
    case Err(_) => false
  }

  function HookLog(phase: string, hook: string, seen: Tree): seq<Event> {
    if hook == "" then [] else [HookRan(phase, seen)]
  }

  method RunHook(host: Host, artifactDir: string, phase: string, hook: string) returns (ok: bool)
    modifies host
    ensures host.TreeKept() && host.running == old(host.running)
    ensures hook == "" ==> ok
    ensures !ok ==> host.events == old(host.events)
    ensures !ok ==> host.faulted || !HookRunnable(artifactDir, hook, old(host.tree))
    ensures ok ==> hook == "" || HookRunnable(artifactDir, hook, old(host.tree))
    ensures ok ==> host.events == old(host.events) + HookLog(phase, hook, old(host.tree))
  {
    if hook == "" { return true; }
    var runnable := HookRunnable(artifactDir, hook, host.tree);
    if !runnable { return false; }
    ok := RunScript(host, phase);
  }

  method RunScript(host: Host, phase: string) returns (ok: bool)
    modifies host
    ensures host.TreeKept() && host.running == old(host.running)
    ensures host.events == old(host.events) + if ok then [HookRan(phase, old(host.tree))] else []
    ensures !ok ==> host.faulted
  {
    ok := host.Attempt();
    if ok { host.events := host.events + [HookRan(phase, host.tree)]; }
  }

  // ---- the strategies ----

  /** The tree side of the jar and war strategies. */
  method PlaceFile(host: Host, src: Path, dst: string, clearParent: bool, perms: bool, ghost plan: Plan)
    returns (ok: bool)
    requires host.Valid() && Rooted(dst) && BasePart(dst) != ".."
    requires plan.Replace? && plan.src == src && plan.at == LocationOf(dst) && plan.clearParent == clearParent
    modifies host
    ensures host.Valid() && host.OnlyTree() && host.Confined(Footprint(plan, old(host.tree)))
    ensures OnlyMade(old(host.tree), host.tree, Reach(plan))
    ensures ok ==> Deployed(plan, old(host.tree), host.tree) && !Hindered(plan, old(host.tree))
    ensures !ok ==> host.faulted || Hindered(plan, old(host.tree))
  {
    ghost var before := host.tree;
    if clearParent {
      LocationIsValid(dst);
      PathOfDirBase(dst);
      assert Rooted(Dir(dst)) by { CleanIsNormalForm(DirPart(dst)); }
      ok := ClearDirContents(host, Dir(dst));
      if !ok { return; }
    }
    ghost var cleared := host.tree;
    ok := CopyFile(host, src, dst, perms);
    PlaceMakes(plan, before, cleared, host.tree);
    if clearParent {
      PlacedAfterClearing(before, cleared, host.tree, src, plan.at);
      ObstructedAfterClearing(before, cleared, src, plan.at);
    }
  }

  lemma PlaceMakes(plan: Plan, before: Tree, cleared: Tree, after: Tree)
    requires plan.Replace? && OnlyMade(cleared, after, iset{plan.at.temp, plan.at.target})
    requires forall q :: q in cleared ==> q in before
    ensures OnlyMade(before, after, Reach(plan))
  {
  }

  lemma PlacedAfterClearing(before: Tree, cleared: Tree, after: Tree, src: Path, at: Location)
    requires at.Valid()
    requires forall q :: !(at.dir <= q && at.dir != q) ==> At(cleared, q) == At(before, q)
    requires forall q :: at.dir <= q && at.dir != q ==> q !in cleared
    ensures at.Footprint(cleared) <= at.Footprint(before)
    ensures FileCopied(cleared, after, src, at) ==> AloneInParent(before, after, src, at)
  {
    AncestorsSurvive(before, cleared, at.dir);
    assert at.dir <= at.temp && at.temp != at.dir && at.temp !in cleared;
    assert At(cleared, src) == At(before, src) || src in StrictlyBelow(at.dir);
    if at.Proper() { assert at.dir <= at.target && at.target !in cleared; }
  }

  /** Once the directory is cleared, nothing in it is in the way; the rest is as it was. */
  lemma ObstructedAfterClearing(before: Tree, cleared: Tree, src: Path, at: Location)
    requires at.Valid()
    requires forall q :: !(at.dir <= q && at.dir != q) ==> At(cleared, q) == At(before, q)
    requires forall q :: at.dir <= q && at.dir != q ==> q !in cleared
    ensures FileObstructed(cleared, src, at) <==> BlockedPlace(before, src, at)
  {
    AncestorsSurvive(before, cleared, at.dir);
    assert at.dir <= at.temp && at.temp != at.dir && at.temp !in cleared;
    assert src in StrictlyBelow(at.dir) || At(cleared, src) == At(before, src);
    if at.Proper() { assert at.dir <= at.target && at.target !in cleared; }
  }

  /** A strategy that did nothing, because of a fault or because its plan is refused. */
  lemma NothingDone(plan: Plan, before: Snapshot, after: Snapshot)
    requires after == before.(faulted := after.faulted) && (before.faulted ==> after.faulted)
    requires after.faulted || Hindered(plan, before.tree)
    ensures after in Endings(plan, false, before)
  {
    assert CarriesOut(plan, false, before, after);
  }

  lemma NothingToDo(plan: Plan, now: Snapshot)
    requires plan.Nothing?
    ensures now in Endings(plan, true, now)
  {
    assert now.events + [] == now.events;
    assert CarriesOut(plan, true, now, now);
  }

  /** The service was stopped, and the tree is at most partly changed. */
  lemma LeftDown(plan: Plan, before: Snapshot, after: Snapshot)
    requires plan.Replace? && Within(plan, before, after) && (before.faulted ==> after.faulted)
    requires after.events == before.events + StopLog(plan.unit, before.tree)
    requires after.running == WithUnit(before.running, plan.unit, false)
    requires after.faulted || Hindered(plan, before.tree)
    ensures after in Endings(plan, false, before)
  {
    assert CarriesOut(plan, false, before, after);
  }

  lemma BackUp(plan: Plan, before: Snapshot, after: Snapshot)
    requires plan.Replace? && Within(plan, before, after) && (before.faulted ==> after.faulted)
    requires Deployed(plan, before.tree, after.tree) && !Hindered(plan, before.tree)
    requires after.running == WithUnit(WithUnit(before.running, plan.unit, false), plan.unit, true)
    requires match plan.unit
             case None => after.events == before.events
             case Some(u) => after.events == before.events + [Stopped(u, before.tree)] + [Started(u, after.tree)]
    ensures after in Endings(plan, true, before)
  {
    if plan.unit.Some? {
      var u := plan.unit.value;
      assert before.running[u := false][u := true] == before.running[u := true];
      assert before.events + [Stopped(u, before.tree)] + [Started(u, after.tree)]
          == before.events + [Stopped(u, before.tree), Started(u, after.tree)];
    } else {
      assert before.events + [] == before.events;
    }
    assert CarriesOut(plan, true, before, after);
  }

  /** Stop, change the tree, start: `jarStrategy` and `warStrategy` after the source is resolved. */
  method ReplaceArtifact(host: Host, src: Path, dst: string, clearParent: bool, perms: bool, unit: Option<string>,
                         ghost plan: Plan)
    returns (ok: bool)
    requires host.Valid() && Rooted(dst) && BasePart(dst) != ".."
    requires plan.Replace? && plan == Replace(src, plan.at, clearParent, unit) && plan.at == LocationOf(dst)
    modifies host
    ensures Applied(host, plan, ok)
  {
    ghost var before := host.Now();
    ok := StopService(host, unit);
    if !ok {
      NothingDone(plan, before, host.Now());
      return;
    }
    ok := PlaceFile(host, src, dst, clearParent, perms, plan);
    if !ok {
      LeftDown(plan, before, host.Now());
      return;
    }
    ok := StartService(host, unit);
    if ok { BackUp(plan, before, host.Now()); } else { LeftDown(plan, before, host.Now()); }
  }

  predicate TargetWellWritten(spec: Spec) {
    Rooted(spec.targetPath) && BasePart(spec.targetPath) != ".."
  }

  /** A source outside the artifact is refused before the service is stopped. */
  method ReplaceChecked(host: Host, src: Result<Path, Reason>, dst: string, clearParent: bool, perms: bool,
                        unit: Option<string>, ghost plan: Plan)
    returns (ok: bool)
    requires host.Valid() && Rooted(dst) && BasePart(dst) != ".."
    requires plan == ReplacePlan(src, dst, clearParent, unit)
    modifies host
    ensures Applied(host, plan, ok)
  {
    if src.Err? {
      NothingDone(plan, host.Now(), host.Now());
      return false;
    }
    ok := ReplaceArtifact(host, src.value, dst, clearParent, perms, unit, plan);
  }

  method ApplyJar(host: Host, req: Request, ghost plan: Plan) returns (ok: bool)
    requires host.Valid() && req.spec.kind.Jar? && TargetWellWritten(req.spec) && plan == PlanOf(req)
    modifies host
    ensures Applied(host, plan, ok)
  {
    ok := ReplaceChecked(host, Source(req), req.spec.targetPath, false, req.spec.setsPermissions, UnitOf(req.spec),
      plan);
  }

  method ApplyWar(host: Host, req: Request, ghost plan: Plan) returns (ok: bool)
    requires host.Valid() && req.spec.kind.War? && TargetWellWritten(req.spec) && plan == PlanOf(req)
    modifies host
    ensures Applied(host, plan, ok)
  {
    var clearParent := OrDefault(req.spec.targetClearParent);
    ok := ReplaceChecked(host, Source(req), req.spec.targetPath, clearParent, req.spec.setsPermissions,
      UnitOf(req.spec), plan);
  }

  lemma Synced(plan: Plan, ok: bool, before: Snapshot, after: Snapshot)
    requires plan.Sync? && Within(plan, before, after) && (before.faulted ==> after.faulted)
    requires after.running == before.running && after.events == before.events
    requires if ok then Deployed(plan, before.tree, after.tree) else after.faulted || Hindered(plan, before.tree)
    requires ok && Settled(plan) ==> !Hindered(plan, before.tree)
    ensures after in Endings(plan, ok, before)
  {
    assert before.events + [] == before.events;
    assert CarriesOut(plan, ok, before, after);
  }

  method SyncChecked(host: Host, src: Result<Path, Reason>, dst: string, clear: bool, perms: bool, ghost plan: Plan)
    returns (ok: bool)
    requires host.Valid() && Rooted(dst) && plan == SyncPlan(src, dst, clear)
    modifies host
    ensures Applied(host, plan, ok)
  {
    ghost var before := host.Now();
    if src.Err? {
      NothingDone(plan, before, before);
      return false;
    }
    ok := CopyDir(host, src.value, dst, clear, perms);
    Synced(plan, ok, before, host.Now());
  }

  lemma StaticPlan(req: Request)
    requires req.spec.kind.Static?
    ensures PlanOf(req) == SyncPlan(Source(req), req.spec.targetPath, OrDefault(req.spec.targetClear))
  {
  }

  method ApplyStatic(host: Host, req: Request, ghost plan: Plan) returns (ok: bool)
    requires host.Valid() && req.spec.kind.Static? && TargetWellWritten(req.spec) && plan == PlanOf(req)
    modifies host
    ensures Applied(host, plan, ok)
  {
    StaticPlan(req);
    ok := SyncChecked(host, Source(req), req.spec.targetPath, OrDefault(req.spec.targetClear),
                      req.spec.setsPermissions, plan);
  }

  method ApplyRunOnce(host: Host, req: Request, ghost plan: Plan) returns (ok: bool)
    requires host.Valid() && req.spec.kind.RunOnce? && plan == CommandPlan(Argv(req.artifactDir, req.spec))
    modifies host
    ensures Applied(host, plan, ok)
  {
    var argv := BuildArgv(req.artifactDir, req.spec);
    ok := RunCommand(host, argv, plan);
  }

  method RunCommand(host: Host, argv: seq<string>, ghost plan: Plan) returns (ok: bool)
    requires host.Valid() && plan == CommandPlan(argv)
    modifies host
    ensures Applied(host, plan, ok)
  {
    ghost var before := host.Now();
    ok := argv != [];
    if ok { ok := RunProcess(host, argv); }
    CommandEnds(plan, argv, ok, before, host.Now());
  }

  lemma CommandEnds(plan: Plan, argv: seq<string>, ok: bool, before: Snapshot, after: Snapshot)
    requires plan == CommandPlan(argv) && (before.faulted ==> after.faulted)
    requires ok ==> argv != [] && after == before.(events := before.events + [Executed(argv, before.tree)],
                                                   faulted := after.faulted)
    requires !ok ==> after == before.(faulted := after.faulted) && (argv == [] || after.faulted)
    ensures after in Endings(plan, ok, before)
  {
    if !ok { NothingDone(plan, before, after); }
    assert CarriesOut(plan, ok, before, after);
  }

  method RunProcess(host: Host, argv: seq<string>) returns (ok: bool)
    modifies host
    ensures host.TreeKept() && host.running == old(host.running)
    ensures host.events == old(host.events) + if ok then [Executed(argv, old(host.tree))] else []
    ensures !ok ==> host.faulted
  {
    ok := host.Attempt();
    if ok { host.events := host.events + [Executed(argv, host.tree)]; }
  }

  /** The command is split first and the file name is filled in afterwards. */
  method BuildArgv(artifactDir: string, spec: Spec) returns (argv: seq<string>)
    ensures argv == Argv(artifactDir, spec)
  {
    var file := SecurePathJoin(artifactDir, spec.sourceFile);
    if file.Err? { return []; }
    var tokens := ParseShellCommand(spec.runonceCommand);
    if tokens.Err? || tokens.value == [] { return []; }
    var filled := ApplyTemplate(tokens.value, file.value);
    argv := filled[..];
  }

  /** What validation gives the strategies. */
  predicate Runnable(req: Request) {
    req.spec.kind.Jar? || req.spec.kind.War? || req.spec.kind.Static? ==> TargetWellWritten(req.spec)
  }

  /** `Dispatch` and the call of the strategy it returns. */
  method ApplyStrategy(host: Host, req: Request, ghost plan: Plan) returns (ok: bool)
    requires host.Valid() && plan == PlanOf(req) && Runnable(req)
    modifies host
    ensures Applied(host, plan, ok)
  {
    match req.spec.kind {
      case Jar => ok := ApplyJar(host, req, plan);
      case War => ok := ApplyWar(host, req, plan);
      case Static => ok := ApplyStatic(host, req, plan);
      case RunOnce => ok := ApplyRunOnce(host, req, plan);
      case HookOnly =>
        NothingToDo(plan, host.Now());
        ok := true;
    }
  }

  // ---- the pipeline ----

  /** A static deploy does not read what it writes. */
  predicate SourceApart(req: Request) {
    req.spec.kind.Static? ==> Disjoint(PathOf(req.artifactDir), PathOf(req.spec.targetPath))
  }

  function HealthLog(spec: Spec, seen: Tree): seq<Event> {
    if spec.healthCmd == "" then [] else [HealthPassed(seen)]
  }

  /** Everything a successful deploy logs before its post-hook. */
  function RunLog(spec: Spec, plan: Plan, before: Tree, after: Tree): seq<Event> {
    HookLog("pre", spec.hookPre, before) + StrategyLog(plan, before, after) + HealthLog(spec, after)
  }

  /** The strategy ran to its end, whatever the health check said afterwards. */
  predicate StrategyCompleted(r: Result<(), Failure>) {
    r.Ok? || r.error.Unhealthy?
  }

  /** There is a pre-hook, and its script cannot be run. */
  predicate HookFails(req: Request, t: Tree) {
    req.spec.hookPre != "" && !HookRunnable(req.artifactDir, req.spec.hookPre, t)
  }

  /** A validated deploy fails where something outside the tree failed, or where the tree hinders it, and only there. */
  ghost predicate Explained(req: Request, plan: Plan, t: Tree, r: Result<(), Failure>, faulted: bool) {
    && (r == Err(PreHookFailed) ==> faulted || HookFails(req, t))
    && (r == Err(StrategyFailed) ==> faulted || Hindered(plan, t))
    && (r == Err(Unhealthy) ==> faulted)
    && (r != Err(PreHookFailed) ==> !HookFails(req, t))
    && (StrategyCompleted(r) && Settled(plan) ==> !Hindered(plan, t))
  }

  /** What a deploy whose request passed validation does to the host. */
  ghost predicate RunsTo(req: Request, plan: Plan, r: Result<(), Failure>, before: Snapshot, after: Snapshot) {
    && Within(plan, before, after)
    && (before.faulted ==> after.faulted)
    && (r.Err? ==> !r.error.UnsafeRequest?)
    && (if StrategyCompleted(r)
        then Deployed(plan, before.tree, after.tree) && after.running == ServicesAfter(plan, before.running)
        else LeftStopped(plan, before.running, after.running))
    && (r == Err(PreHookFailed) ==> after == before.(faulted := after.faulted))
    && Explained(req, plan, before.tree, r, after.faulted)
    && after.events in Logs(req.spec, plan, r, before.events, before.tree, after.tree)
  }

  ghost function Runs(req: Request, plan: Plan, r: Result<(), Failure>, before: Snapshot): iset<Snapshot> {
    iset after: Snapshot | RunsTo(req, plan, r, before, after)
  }

  /** The contract of such a deploy. */
  twostate predicate Ran(host: Host, req: Request, plan: Plan, new r: Result<(), Failure>)
    reads host
  {
    host.Now() in Runs(req, plan, r, old(host.Now()))
  }

  /** The logs with which a deploy can end: every event in its place, and none besides. */
  function Logs(spec: Spec, plan: Plan, r: Result<(), Failure>, past: seq<Event>, before: Tree,
                after: Tree): set<seq<Event>> {
    var hooked := past + HookLog("pre", spec.hookPre, before);
    match r
    case Ok(_) =>
      var done := past + RunLog(spec, plan, before, after);
      {done, done + HookLog("post", spec.hookPost, after)}
    case Err(Unhealthy) => {hooked + StrategyLog(plan, before, after)}
    case Err(StrategyFailed) => {hooked, hooked + FailLog(plan, before)}
    case Err(_) => {past}
  }

  /** How a validated deploy ends when nothing outside the tree fails. */
  ghost function Forecast(req: Request, plan: Plan, t: Tree): Result<(), Failure> {
    if HookFails(req, t) then Err(PreHookFailed) else if Hindered(plan, t) then Err(StrategyFailed) else Ok(())
  }

  /** Without faults the outcome of a deploy is decided by the tree that it finds. */
  lemma RunsAsForecast(req: Request, plan: Plan, r: Result<(), Failure>, before: Snapshot, after: Snapshot)
    requires after in Runs(req, plan, r, before) && !after.faulted && Settled(plan)
    ensures var forecast := Forecast(req, plan, before.tree);
            r.Ok? == forecast.Ok? && (r.Err? ==> r.error == forecast.error)
  {
    assert RunsTo(req, plan, r, before, after);
  }

  /**
    What the health check has to do with the outcome: a deploy whose strategy has completed succeeds
    if and only if there is no check or the check passes, and a check has an end.
   */
  ghost predicate CheckTells(spec: Spec, runs: Attempts, r: Result<(), Failure>, effort: Effort) {
    if StrategyCompleted(r) && spec.healthCmd != "" then
      && (r.Ok? <==> Passes(spec.healthInterval, spec.healthTimeout, runs))
      && Bounded(spec.healthInterval, spec.healthTimeout, runs, effort)
    else
      effort == NO_EFFORT && (StrategyCompleted(r) ==> r.Ok?)
  }

  /**
    Validate, pre-hook, strategy, health check, post-hook; a rejected request has no effect at all.
    `runs` is what becomes of the health command.
   */
  method Run(host: Host, req: Request, runs: Attempts) returns (r: Result<(), Failure>, effort: Effort)
    requires host.Valid() && Rooted(req.artifactDir) && NormalRoots(req.allowedRoots)
    modifies host
    ensures host.Valid() && host.Confined(Footprint(PlanOf(req), old(host.tree)))
    ensures OnlyMade(old(host.tree), host.tree, Reach(PlanOf(req)))
    ensures ValidateRequest(req).Rejected? ==> unchanged(host) && r == Err(UnsafeRequest(ValidateRequest(req).reason))
    ensures ValidateRequest(req).Accepted? ==> Ran(host, req, PlanOf(req), r)
    ensures CheckTells(req.spec, runs, r, effort)
  {
    var verdict := ValidateRequest(req);
    if verdict.Rejected? { return Err(UnsafeRequest(verdict.reason)), NO_EFFORT; }
    AcceptedTargetIsWellWritten(req);
    r, effort := RunValidated(host, req, PlanOf(req), runs);
    assert RunsTo(req, PlanOf(req), r, old(host.Now()), host.Now());
  }

  method RunValidated(host: Host, req: Request, ghost plan: Plan, runs: Attempts)
    returns (r: Result<(), Failure>, effort: Effort)
    requires host.Valid() && plan == PlanOf(req) && Runnable(req)
    modifies host
    ensures host.Valid() && Ran(host, req, plan, r)
    ensures CheckTells(req.spec, runs, r, effort)
  {
    ghost var before := host.Now();
    var ok := RunHook(host, req.artifactDir, "pre", req.spec.hookPre);
    if !ok {
      HookFailed(req, plan, before, host.Now());
      return Err(PreHookFailed), NO_EFFORT;
    }
    r, effort := RunHooked(host, req, plan, before, runs);
  }

  /** The part after the pre-hook. */
  method RunHooked(host: Host, req: Request, ghost plan: Plan, ghost before: Snapshot, runs: Attempts)
    returns (r: Result<(), Failure>, effort: Effort)
    requires host.Valid() && plan == PlanOf(req) && Runnable(req) && Hooked(req, before, host.Now())
    modifies host
    ensures host.Valid() && host.Now() in Runs(req, plan, r, before)
    ensures CheckTells(req.spec, runs, r, effort)
  {
    ghost var hooked := host.Now();
    r, effort := ApplyAndCheck(host, req, plan, runs);
    if r.Err? {
      CheckFailed(req, plan, r, before, hooked, host.Now());
      return;
    }
    FinishRun(host, req, plan, r, before, hooked);
  }

  /** A failing post-hook does not count. */
  method FinishRun(host: Host, req: Request, ghost plan: Plan, ghost r: Result<(), Failure>, ghost before: Snapshot,
                   ghost hooked: Snapshot)
    requires host.Valid() && Hooked(req, before, hooked)
    requires r.Ok? && host.Now() in CheckedEndings(req.spec, plan, r, hooked)
    modifies host
    ensures host.Valid() && host.Now() in Runs(req, plan, r, before)
  {
    ghost var checked := host.Now();
    var _ := RunHook(host, req.artifactDir, "post", req.spec.hookPost);
    AllDone(req, plan, r, before, hooked, checked, host.Now());
  }

  lemma HookFailed(req: Request, plan: Plan, before: Snapshot, after: Snapshot)
    requires after == before.(faulted := after.faulted) && (before.faulted ==> after.faulted)
    requires after.faulted || HookFails(req, before.tree)
    ensures after in Runs(req, plan, Err(PreHookFailed), before)
  {
    assert RunsTo(req, plan, Err(PreHookFailed), before, after);
  }

  /** The host after the pre-hook. */
  ghost predicate Hooked(req: Request, before: Snapshot, hooked: Snapshot) {
    && hooked == before.(events := before.events + HookLog("pre", req.spec.hookPre, before.tree),
                         faulted := hooked.faulted)
    && (before.faulted ==> hooked.faulted)
    && !HookFails(req, before.tree)
  }

  lemma CheckFailed(req: Request, plan: Plan, r: Result<(), Failure>, before: Snapshot, hooked: Snapshot,
                    after: Snapshot)
    requires Hooked(req, before, hooked) && r.Err? && after in CheckedEndings(req.spec, plan, r, hooked)
    ensures after in Runs(req, plan, r, before)
  {
    assert ChecksOut(req.spec, plan, r, hooked, after);
    assert RunsTo(req, plan, r, before, after);
  }

  lemma AllDone(req: Request, plan: Plan, r: Result<(), Failure>, before: Snapshot, hooked: Snapshot,
                checked: Snapshot, after: Snapshot)
    requires Hooked(req, before, hooked) && r.Ok? && checked in CheckedEndings(req.spec, plan, r, hooked)
    requires after == checked.(events := after.events, faulted := after.faulted) && (checked.faulted ==> after.faulted)
    requires after.events in {checked.events, checked.events + HookLog("post", req.spec.hookPost, checked.tree)}
    ensures after in Runs(req, plan, r, before)
  {
    assert ChecksOut(req.spec, plan, r, hooked, checked);
    LogsAppend(before.events, HookLog("pre", req.spec.hookPre, before.tree),
               StrategyLog(plan, before.tree, checked.tree), HealthLog(req.spec, checked.tree));
    assert RunsTo(req, plan, r, before, after);
  }

  lemma LogsAppend(past: seq<Event>, a: seq<Event>, b: seq<Event>, c: seq<Event>)
    ensures past + a + b + c == past + (a + b + c)
  {
  }

  /** What the strategy and the health check after it do to the host. */
  ghost predicate ChecksOut(spec: Spec, plan: Plan, r: Result<(), Failure>, before: Snapshot, after: Snapshot) {
    && Within(plan, before, after)
    && (before.faulted ==> after.faulted)
    && (r.Err? ==> r.error.StrategyFailed? || r.error.Unhealthy?)
    && (if StrategyCompleted(r)
        then Deployed(plan, before.tree, after.tree) && after.running == ServicesAfter(plan, before.running)
        else LeftStopped(plan, before.running, after.running))
    && (r == Err(StrategyFailed) ==> after.faulted || Hindered(plan, before.tree))
    && (r == Err(Unhealthy) ==> after.faulted)
    && (StrategyCompleted(r) && Settled(plan) ==> !Hindered(plan, before.tree))
    && match r
       case Ok(_) =>
         after.events == before.events + StrategyLog(plan, before.tree, after.tree) + HealthLog(spec, after.tree)
       case Err(Unhealthy) => after.events == before.events + StrategyLog(plan, before.tree, after.tree)
       case Err(_) => after.events in {before.events, before.events + FailLog(plan, before.tree)}
  }

  ghost function CheckedEndings(spec: Spec, plan: Plan, r: Result<(), Failure>, before: Snapshot): iset<Snapshot> {
    iset after: Snapshot | ChecksOut(spec, plan, r, before, after)
  }

  method ApplyAndCheck(host: Host, req: Request, ghost plan: Plan, runs: Attempts)
    returns (r: Result<(), Failure>, effort: Effort)
    requires host.Valid() && plan == PlanOf(req) && Runnable(req)
    modifies host
    ensures host.Valid() && host.Now() in CheckedEndings(req.spec, plan, r, old(host.Now()))
    ensures CheckTells(req.spec, runs, r, effort)
  {
    ghost var before := host.Now();
    var ok := ApplyStrategy(host, req, plan);
    ghost var applied := host.Now();
    if !ok {
      StrategyBrokeOff(req.spec, plan, before, applied);
      return Err(StrategyFailed), NO_EFFORT;
    }
    ok, effort := CheckHealth(host, req.spec, runs);
    r := if ok then Ok(()) else Err(Unhealthy);
    HealthChecked(req.spec, plan, ok, before, applied, host.Now());
  }

  lemma StrategyBrokeOff(spec: Spec, plan: Plan, before: Snapshot, after: Snapshot)
    requires after in Endings(plan, false, before)
    ensures after in CheckedEndings(spec, plan, Err(StrategyFailed), before)
  {
    assert CarriesOut(plan, false, before, after);
    assert ChecksOut(spec, plan, Err(StrategyFailed), before, after);
  }

  lemma HealthChecked(spec: Spec, plan: Plan, ok: bool, before: Snapshot, applied: Snapshot, after: Snapshot)
    requires applied in Endings(plan, true, before) && (applied.faulted || !ok ==> after.faulted)
    requires after == applied.(events := applied.events + if ok then HealthLog(spec, applied.tree) else [],
                               faulted := after.faulted)
    ensures after in CheckedEndings(spec, plan, if ok then Ok(()) else Err(Unhealthy), before)
  {
    assert CarriesOut(plan, true, before, applied);
    assert applied.events + [] == applied.events;
    assert ChecksOut(spec, plan, if ok then Ok(()) else Err(Unhealthy), before, after);
  }

  /** The retry loop on the host; giving up counts as a fault. */
  method CheckHealth(host: Host, spec: Spec, runs: Attempts) returns (ok: bool, effort: Effort)
    modifies host
    ensures host.TreeKept() && host.running == old(host.running)
    ensures host.events == old(host.events) + if ok then HealthLog(spec, old(host.tree)) else []
    ensures !ok ==> host.faulted
    ensures CheckTells(spec, runs, if ok then Ok(()) else Err(Unhealthy), effort)
  {
    if spec.healthCmd == "" { return true, NO_EFFORT; }
    ScriptIsFeasible(spec.healthInterval, runs);
    var outcome, attempts, elapsed :=
      Healthcheck(spec.healthInterval, spec.healthTimeout, Script(spec.healthInterval, runs), |runs|);
    ok, effort := outcome.Passed?, Effort(attempts, elapsed);
    if ok { host.events := host.events + [HealthPassed(host.tree)]; } else { host.faulted := true; }
  }

  lemma AcceptedTargetIsWellWritten(req: Request)
    requires NormalRoots(req.allowedRoots) && ValidateRequest(req).Accepted?
    ensures req.spec.kind.Jar? || req.spec.kind.War? || req.spec.kind.Static? ==> TargetWellWritten(req.spec)
  {
    if req.spec.kind.Jar? || req.spec.kind.War? || req.spec.kind.Static? {
      TargetAcceptedIff(req.spec.targetPath, req.allowedRoots);
      CleanKeepsDotFree(req.spec.targetPath);
    }
  }

  lemma SourceIsApart(req: Request)
    requires Rooted(req.artifactDir) && SourceApart(req)
    ensures req.spec.kind.Static? && Source(req).Ok? ==> Disjoint(Source(req).value, PathOf(req.spec.targetPath))
  {
    if req.spec.kind.Static? && Source(req).Ok? {
      SourceIsInArtifact(req);
      if PathOf(req.spec.targetPath) <= Source(req).value {
        Comparable(PathOf(req.spec.targetPath), PathOf(req.artifactDir), Source(req).value);
      }
    }
  }

  lemma SourceIsInArtifact(req: Request)
    requires Rooted(req.artifactDir) && Source(req).Ok?
    ensures PathOf(req.artifactDir) <= Source(req).value
  {
    var rel := if req.spec.kind.Static? then req.spec.sourceDir else req.spec.sourceFile;
    SecurePathJoinIff(req.artifactDir, rel);
    PathOfRender(Resolve(true, PathOf(req.artifactDir), Split(rel)));
  }
}
