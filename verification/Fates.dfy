/**
  One cycle and one pass of the daemon as functions on worlds. The watcher's methods are proved
  against them, and the lemmas about them are in the module `Cycles`.
 */
module Fates {
  import opened Results
  import opened Requests
  import opened State
  import opened Protocol

  /**
    What becomes of one cycle: where the tags point at each of the three requests, the first
    stage that is not reached, and how the save goes.
   */
  datatype Fate = Fate(failsAt: Option<Stage>, atResolve: Tags, atFetch: Tags, atPull: Tags,
                       save: SaveFate, at: int, kind: Kind)

  datatype Verdict = Unchanged | Reported | FailedAt(stage: Stage) | Finished

  /** The stages that `deploy.Run` reaches or fails to reach. */
  predicate DeployStage(stage: Stage) {
    stage.Validated? || stage.PreHooked? || stage.Applied? || stage.Healthy?
  }

  predicate Possible(tags: Tags, ref: Ref, fate: Fate) {
    && Extends(tags, fate.atResolve) && Extends(fate.atResolve, fate.atFetch) && Extends(fate.atFetch, fate.atPull)
    && fate.save.Valid()
    && (match fate.failsAt
        case None => true
        case Some(stage) => stage.Resolved? || stage.Fetched? || stage.Pulled? || DeployStage(stage))
    && (fate.failsAt != Some(Resolved) ==> ref in fate.atResolve && fate.atResolve[ref] != [])
  }

  /** What comes of a cycle, by the digest on record. */
  function VerdictOf(dryRun: bool, prev: Digest, ref: Ref, fate: Fate): Verdict {
    if fate.failsAt == Some(Resolved) || ref !in fate.atResolve then FailedAt(Resolved)
    else if Current(fate.atResolve, ref) == prev then Unchanged
    else ChangedVerdict(dryRun, fate)
  }

  /** What comes of a cycle that found a change. */
  function ChangedVerdict(dryRun: bool, fate: Fate): Verdict {
    if fate.failsAt == Some(Fetched) then FailedAt(Fetched)
    else if dryRun then Reported
    else LateVerdict(fate)
  }

  function LateVerdict(fate: Fate): Verdict {
    if fate.failsAt.Some? then FailedAt(fate.failsAt.value)
    else if fate.save.Saved? then Finished
    else FailedAt(Written)
  }

  function JobOf(ref: Ref, fate: Fate): Job {
    if ref in fate.atResolve && ref in fate.atFetch && ref in fate.atPull
    then Job(ref, Current(fate.atResolve, ref), Current(fate.atFetch, ref), Current(fate.atPull, ref))
    else Job(ref, "", "", "")
  }

  function TagsAfter(v: Verdict, fate: Fate): Tags {
    if v in {FailedAt(Resolved), Unchanged} then fate.atResolve
    else if v in {FailedAt(Fetched), Reported} then fate.atFetch
    else fate.atPull
  }

  /** The strategy broke off, or it completed; otherwise the target is not touched. */
  function TargetsAfter(v: Verdict, targets: Targets, job: Job): Targets {
    if v == FailedAt(Applied) then targets[job.ref := Broken(job.resolved)]
    else if v in {FailedAt(Healthy), FailedAt(Written), Finished}
    then targets[job.ref := Exact(job.resolved, job.spec, job.content)]
    else targets
  }

  function EntriesAfter(v: Verdict, entries: Entries, job: Job, fate: Fate): Entries {
    if v in {FailedAt(Written), Finished} then entries[job.ref := Entry(job.resolved, fate.at, fate.kind)] else entries
  }

  function LogAfter(v: Verdict, log: seq<Event>, job: Job): seq<Event> {
    if v == FailedAt(PreHooked) then log + DeployLog(job)[..1]
    else if v == FailedAt(Applied) then log + DeployLog(job)[..2]
    else if v == FailedAt(Healthy) then log + DeployLog(job)[..3]
    else if v in {FailedAt(Written), Finished} then log + DeployLog(job)
    else log
  }

  /** The world after a cycle with this verdict. */
  function WorldFor(v: Verdict, w: World, job: Job, fate: Fate): World {
    var memory := EntriesAfter(v, w.memory, job, fate);
    World(TagsAfter(v, fate), memory,
          if v in {FailedAt(Written), Finished} then FilesAfter(w.files, memory, fate.save) else w.files,
          TargetsAfter(v, w.targets, job), w.phase, LogAfter(v, w.log, job))
  }

  /** The world after a cycle. */
  function CycleWorld(dryRun: bool, w: World, ref: Ref, fate: Fate): World {
    WorldFor(VerdictOf(dryRun, Recorded(w.memory, ref), ref, fate), w, JobOf(ref, fate), fate)
  }

  /** The cycle's return value: whether something was deployed, or where it failed. */
  function ResultOf(v: Verdict): Result<bool, Stage> {
    match v
    case Unchanged => Ok(false)
    case Reported => Ok(false)
    case FailedAt(stage) => Err(stage)
    case Finished => Ok(true)
  }

  /** What a cycle returns, and the world it leaves. */
  datatype CycleEnd = CycleEnd(result: Result<bool, Stage>, world: World)

  function EndOf(dryRun: bool, w: World, ref: Ref, fate: Fate): CycleEnd {
    CycleEnd(ResultOf(VerdictOf(dryRun, Recorded(w.memory, ref), ref, fate)), CycleWorld(dryRun, w, ref, fate))
  }

  /** The worlds that a list of cycles passes through, one after the other. */
  function WorldAfter(dryRun: bool, w: World, refs: seq<Ref>, fates: seq<Fate>, n: nat): World
    requires n <= |refs| && n <= |fates|
  {
    if n == 0 then w else CycleWorld(dryRun, WorldAfter(dryRun, w, refs, fates, n - 1), refs[n - 1], fates[n - 1])
  }

  function VerdictAt(dryRun: bool, w: World, refs: seq<Ref>, fates: seq<Fate>, i: nat): Verdict
    requires i < |refs| && i < |fates|
  {
    VerdictOf(dryRun, Recorded(WorldAfter(dryRun, w, refs, fates, i).memory, refs[i]), refs[i], fates[i])
  }

  function Deployed(dryRun: bool, w: World, refs: seq<Ref>, fates: seq<Fate>, n: nat): nat
    requires n <= |refs| && n <= |fates|
  {
    if n == 0 then 0
    else Deployed(dryRun, w, refs, fates, n - 1) + if VerdictAt(dryRun, w, refs, fates, n - 1).Finished? then 1 else 0
  }

  ghost function PossibleOnes(tags: Tags, ref: Ref): iset<Fate> {
    iset fate: Fate | Possible(tags, ref, fate)
  }

  /** Fate number `i` can happen where the cycles before it have led. */
  ghost predicate PossibleAt(dryRun: bool, w: World, refs: seq<Ref>, fates: seq<Fate>, i: nat)
    requires i < |refs| && i < |fates|
  {
    fates[i] in PossibleOnes(WorldAfter(dryRun, w, refs, fates, i).tags, refs[i])
  }

  /** The first `n` fates can happen one after the other. */
  ghost predicate AllPossible(dryRun: bool, w: World, refs: seq<Ref>, fates: seq<Fate>, n: nat) {
    n <= |refs| && n <= |fates| &&
    forall i :: 0 <= i < n ==> PossibleAt(dryRun, w, refs, fates, i)
  }
}
