/**
  What comes from outside during a cycle, what becomes of the world of the protocol in a cycle or
  a pass under it, and what a pass reports.
 */
module Passes {
  import opened Results
  import opened Requests
  import opened Hosts
  import opened State
  import opened Protocol
  import opened Fates
  import Health
  import C = Config

  /**
    What comes from outside during one cycle: where the tags point at each of the three
    requests, whether one of them fails and what a failing pull leaves behind, how the runs of the
    health command go, how the save goes, and the time. What becomes of the deploy is not among it.
   */
  datatype Outside = Outside(failsAt: Option<Stage>, broken: Tree, atResolve: Tags, atFetch: Tags, atPull: Tags,
                             health: Health.Attempts, save: SaveFate, at: int)

  ghost predicate Plausible(tags: Tags, ref: Ref, o: Outside) {
    && Extends(tags, o.atResolve) && Extends(o.atResolve, o.atFetch) && Extends(o.atFetch, o.atPull)
    && o.save.Valid() && WellFormed(o.broken)
    && o.failsAt in {None, Some(Resolved), Some(Fetched), Some(Pulled)}
    && (o.failsAt != Some(Resolved) ==> ref in o.atResolve && o.atResolve[ref] != [])
  }

  ghost function PlausibleOnes(tags: Tags, ref: Ref): iset<Outside> {
    iset o: Outside | Plausible(tags, ref, o)
  }

  /** Where the tags may have moved to before cycle number `i`. */
  function TagsBefore(tags: Tags, outside: seq<Outside>, i: nat): Tags
    requires i <= |outside|
  {
    if i == 0 then tags else outside[i - 1].atPull
  }

  /** Tags only grow from one cycle to the next. */
  ghost predicate Flow(tags: Tags, refs: seq<Ref>, outside: seq<Outside>) {
    |refs| <= |outside| &&
    forall i :: 0 <= i < |refs| ==> outside[i] in PlausibleOnes(TagsBefore(tags, outside, i), refs[i])
  }

  /** The fate of a cycle whose first missed stage is `missed`. */
  function FateOf(o: Outside, missed: Option<Stage>, kind: Kind): Fate {
    Fate(missed, o.atResolve, o.atFetch, o.atPull, o.save, o.at, kind)
  }

  function VerdictFor(missed: Option<Stage>): Verdict {
    match missed
    case None => Finished
    case Some(stage) => FailedAt(stage)
  }

  /** How a deploy can fail, if it does, from the pull on. */
  const LATE_FAILURES: set<Option<Stage>> :=
    {None, Some(Pulled), Some(Validated), Some(PreHooked), Some(Applied), Some(Healthy)}

  /** What the protocol sees of a run of the pipeline. */
  function WorldRun(w: World, missed: Option<Stage>, job: Job): World {
    w.(targets := TargetsAfter(VerdictFor(missed), w.targets, job), log := LogAfter(VerdictFor(missed), w.log, job))
  }

  lemma LateTargets(w: World, job: Job, o: Outside, missed: Option<Stage>, kind: Kind)
    requires missed.Some? ==> DeployStage(missed.value)
    ensures LateEnd(w, job, FateOf(o, missed, kind)).world.targets == TargetsAfter(VerdictFor(missed), w.targets, job)
  {
  }

  /** The end of a cycle that got to the pull. */
  function LateEnd(w: World, job: Job, fate: Fate): CycleEnd {
    CycleEnd(ResultOf(LateVerdict(fate)), WorldFor(LateVerdict(fate), w, job, fate))
  }

  lemma NotRecorded(o: Outside, stage: Stage, kind: Kind, job: Job, w: World)
    requires DeployStage(stage) && w.tags == o.atPull
    ensures var fate := FateOf(o, Some(stage), kind);
            && LateVerdict(fate) == FailedAt(stage) == VerdictFor(Some(stage))
            && WorldFor(LateVerdict(fate), w, job, fate) ==
               w.(targets := TargetsAfter(FailedAt(stage), w.targets, job),
                 log := LogAfter(FailedAt(stage), w.log, job))
  {
  }

  lemma PullFailed(o: Outside, kind: Kind, job: Job, w: World)
    requires w.tags == o.atPull
    ensures var fate := FateOf(o, Some(Pulled), kind);
            LateVerdict(fate) == FailedAt(Pulled) && WorldFor(FailedAt(Pulled), w, job, fate) == w
  {
  }

  lemma RecordedSomehow(o: Outside, kind: Kind, job: Job, w: World)
    requires w.tags == o.atPull
    ensures var fate := FateOf(o, None, kind);
            var memory := w.memory[job.ref := Entry(job.resolved, o.at, kind)];
            && LateVerdict(fate) == (if o.save.Saved? then Finished else FailedAt(Written))
            && WorldFor(LateVerdict(fate), w, job, fate) ==
               World(w.tags, memory, FilesAfter(w.files, memory, o.save), TargetsAfter(Finished, w.targets, job),
                     w.phase, LogAfter(Finished, w.log, job))
  {
  }

  /** The end of a cycle that found a change. */
  function ChangedEnd(dryRun: bool, w: World, job: Job, fate: Fate): CycleEnd {
    var v := ChangedVerdict(dryRun, fate);
    CycleEnd(ResultOf(v), WorldFor(v, w, job, fate))
  }

  /** Up to the pull a cycle only sees the tags move. */
  lemma LateWorld(w: World, job: Job, o: Outside, missed: Option<Stage>, kind: Kind)
    requires missed in LATE_FAILURES
    ensures var fate := FateOf(o, missed, kind);
            ChangedEnd(false, w, job, fate) == LateEnd(w.(tags := o.atPull), job, fate)
  {
  }

  lemma EarlyWorld(dryRun: bool, w: World, job: Job, o: Outside, missed: Option<Stage>, kind: Kind)
    requires missed == Some(Fetched) || (dryRun && missed == None)
    ensures ChangedEnd(dryRun, w, job, FateOf(o, missed, kind)) ==
              CycleEnd(if missed.Some? then Err(Fetched) else Ok(false), w.(tags := o.atFetch))
  {
  }

  /** The stage that a cycle can miss first, given what fails outside and the digest on record. */
  predicate CanMiss(dryRun: bool, prev: Digest, ref: Ref, o: Outside, missed: Option<Stage>) {
    if o.failsAt == Some(Resolved) || ref !in o.atResolve then missed == Some(Resolved)
    else if Current(o.atResolve, ref) == prev then missed == None
    else MissesLate(dryRun, o, missed)
  }

  /** The same for a cycle that has found a change. */
  predicate MissesLate(dryRun: bool, o: Outside, missed: Option<Stage>) {
    if o.failsAt == Some(Fetched) then missed == Some(Fetched)
    else if dryRun then missed == None
    else missed in LATE_FAILURES && (o.failsAt == Some(Pulled) ==> missed == Some(Pulled))
  }

  /** The fates that a cycle can have under these circumstances. */
  ghost function FatesOf(dryRun: bool, w: World, ref: Ref, o: Outside): iset<Fate> {
    iset fate: Fate |
      && Possible(w.tags, ref, fate) && fate == FateOf(o, fate.failsAt, fate.kind)
      && CanMiss(dryRun, Recorded(w.memory, ref), ref, o, fate.failsAt)
  }

  lemma UnchangedCycle(dryRun: bool, w: World, ref: Ref, o: Outside, missed: Option<Stage>)
    requires o in PlausibleOnes(w.tags, ref)
    requires || (missed == Some(Resolved) && o.failsAt == Some(Resolved))
             || (missed == None && o.failsAt != Some(Resolved) && Current(o.atResolve, ref) == Recorded(w.memory, ref))
    ensures var fate := FateOf(o, missed, HookOnly);
            && fate in FatesOf(dryRun, w, ref, o)
            && EndOf(dryRun, w, ref, fate) ==
               CycleEnd(if missed.Some? then Err(Resolved) else Ok(false), w.(tags := o.atResolve))
  {
  }

  lemma ChangedCycle(dryRun: bool, w: World, ref: Ref, o: Outside, missed: Option<Stage>, kind: Kind)
    requires o in PlausibleOnes(w.tags, ref) && o.failsAt != Some(Resolved)
    requires Current(o.atResolve, ref) != Recorded(w.memory, ref)
    requires CanMiss(dryRun, Recorded(w.memory, ref), ref, o, missed)
    ensures var fate := FateOf(o, missed, kind);
            && fate in FatesOf(dryRun, w, ref, o)
            && EndOf(dryRun, w, ref, fate) == ChangedEnd(dryRun, w.(tags := o.atResolve), JobOf(ref, fate), fate)
  {
  }

  // ---- passes ----

  function FullRefs(repos: seq<C.RepoRef>): (refs: seq<Ref>)
    ensures |refs| == |repos|
    ensures forall i :: 0 <= i < |repos| ==> refs[i] == repos[i].fullRef
  {
    if repos == [] then [] else [repos[0].fullRef] + FullRefs(repos[1..])
  }

  datatype RunOutcome = LockUnavailable | Skipped | Cancelled(after: nat) | Completed

  /** How far a pass has come: the world, the number of deploys, and what became of each cycle so far. */
  datatype Progress = Progress(world: World, deployed: nat, fates: seq<Fate>)

  /** The number of deploys after one more cycle. */
  function Counted(deployed: nat, r: Result<bool, Stage>): nat {
    if r == Ok(true) then deployed + 1 else deployed
  }

  /** Every fate is one of those that the circumstances leave open. */
  predicate Follow(outside: seq<Outside>, fates: seq<Fate>) {
    |fates| <= |outside| && forall i :: 0 <= i < |fates| ==>
      fates[i] == FateOf(outside[i], fates[i].failsAt, fates[i].kind)
  }

  ghost predicate Progressed(dryRun: bool, before: World, refs: seq<Ref>, outside: seq<Outside>, n: nat, p: Progress) {
    && n <= |refs| && n <= |outside| && |p.fates| == n
    && AllPossible(dryRun, before, refs, p.fates, n)
    && p.world == WorldAfter(dryRun, before, refs, p.fates, n)
    && p.deployed == Deployed(dryRun, before, refs, p.fates, n)
    && Follow(outside, p.fates)
    && Extends(p.world.tags, TagsBefore(before.tags, outside, n))
  }

  ghost function ProgressAt(dryRun: bool, before: World, refs: seq<Ref>, outside: seq<Outside>,
                            n: nat): iset<Progress> {
    iset p: Progress | forall k: nat {:trigger Asked(k)} :: Asked(k) ==>
      Progressed(dryRun, before, refs, outside, n, p)
  }

  lemma WhatProgressed(dryRun: bool, before: World, refs: seq<Ref>, outside: seq<Outside>, n: nat, p: Progress)
    requires p in ProgressAt(dryRun, before, refs, outside, n)
    ensures Progressed(dryRun, before, refs, outside, n, p)
  {
    assert Asked(0);
  }

  /** What a pass reports, and how far it has come. */
  datatype Report = Report(outcome: RunOutcome, progress: Progress)

  ghost predicate PassEnds(dryRun: bool, before: World, refs: seq<Ref>, outside: seq<Outside>, cancelledAfter: nat,
                           r: Report) {
    match r.outcome
    case Cancelled(n) => n == cancelledAfter < |refs| && r.progress in ProgressAt(dryRun, before, refs, outside, n)
    case Completed => cancelledAfter >= |refs| && r.progress in ProgressAt(dryRun, before, refs, outside, |refs|)
    case _ => r.progress == Progress(before, 0, [])
  }

  /** The reports that a pass over `refs` can end with. */
  ghost function Reports(dryRun: bool, before: World, refs: seq<Ref>, outside: seq<Outside>,
                         cancelledAfter: nat): iset<Report> {
    iset r: Report | PassEnds(dryRun, before, refs, outside, cancelledAfter, r)
  }

  lemma NoProgress(dryRun: bool, before: World, refs: seq<Ref>, outside: seq<Outside>)
    ensures Progress(before, 0, []) in ProgressAt(dryRun, before, refs, outside, 0)
  {
    assert Progressed(dryRun, before, refs, outside, 0, Progress(before, 0, []));
  }

  lemma {:induction false} FlowGoesOn(dryRun: bool, before: World, refs: seq<Ref>, outside: seq<Outside>, i: nat,
                                      p: Progress)
    requires Flow(before.tags, refs, outside) && i < |refs| && p in ProgressAt(dryRun, before, refs, outside, i)
    ensures outside[i] in PlausibleOnes(p.world.tags, refs[i])
  {
    WhatProgressed(dryRun, before, refs, outside, i, p);
    PlausibleLater(p.world.tags, TagsBefore(before.tags, outside, i), refs[i], outside[i]);
  }

  lemma PlausibleLater(tags: Tags, later: Tags, ref: Ref, o: Outside)
    requires Extends(tags, later) && o in PlausibleOnes(later, ref)
    ensures o in PlausibleOnes(tags, ref)
  {
    assert Plausible(later, ref, o);
    ExtendsTransitive(tags, later, o.atResolve);
    assert Plausible(tags, ref, o);
  }

  /** What happens later does not change what has happened. */
  lemma {:induction false} PrefixCounts(dryRun: bool, w: World, refs: seq<Ref>, fates: seq<Fate>, more: seq<Fate>,
                                        n: nat)
    requires n <= |refs| && n <= |fates| && fates <= more
    ensures WorldAfter(dryRun, w, refs, more, n) == WorldAfter(dryRun, w, refs, fates, n)
    ensures Deployed(dryRun, w, refs, more, n) == Deployed(dryRun, w, refs, fates, n)
  {
    if n > 0 { PrefixCounts(dryRun, w, refs, fates, more, n - 1); }
  }

  lemma {:induction false} ProgressGoesOn(dryRun: bool, before: World, refs: seq<Ref>, outside: seq<Outside>, i: nat,
                                          p: Progress, fate: Fate, r: Result<bool, Stage>, next: Progress)
    requires i < |refs| && i < |outside| && p in ProgressAt(dryRun, before, refs, outside, i)
    requires fate in FatesOf(dryRun, p.world, refs[i], outside[i])
    requires CycleEnd(r, next.world) == EndOf(dryRun, p.world, refs[i], fate)
    requires next.deployed == Counted(p.deployed, r) && next.fates == p.fates + [fate]
    ensures next in ProgressAt(dryRun, before, refs, outside, i + 1)
  {
    var more := next.fates;
    WhatProgressed(dryRun, before, refs, outside, i, p);
    assert |p.fates| == i && p.fates <= more && more[i] == fate;
    PrefixCounts(dryRun, before, refs, p.fates, more, i);
    CountsOn(dryRun, before, refs, more, i, p.world, fate, r, next.world);
    TagsFlow(dryRun, p.world, refs[i], outside[i], fate);
    FatesFollow(dryRun, outside, p.fates, p.world, refs[i], fate);
    StillPossible(dryRun, before, refs, p.fates, fate, i);
    ProgressMade(dryRun, before, refs, outside, i + 1, next);
  }

  lemma FatesFollow(dryRun: bool, outside: seq<Outside>, fates: seq<Fate>, w: World, ref: Ref, fate: Fate)
    requires Follow(outside, fates) && |fates| < |outside| && fate in FatesOf(dryRun, w, ref, outside[|fates|])
    ensures Follow(outside, fates + [fate]) && fate in PossibleOnes(w.tags, ref)
  {
  }

  lemma ProgressMade(dryRun: bool, before: World, refs: seq<Ref>, outside: seq<Outside>, n: nat, p: Progress)
    requires Progressed(dryRun, before, refs, outside, n, p)
    ensures p in ProgressAt(dryRun, before, refs, outside, n)
  {
  }

  lemma {:induction false} StillPossible(dryRun: bool, before: World, refs: seq<Ref>, fates: seq<Fate>, fate: Fate,
                                         i: nat)
    requires AllPossible(dryRun, before, refs, fates, i) && |fates| == i < |refs|
    requires fate in PossibleOnes(WorldAfter(dryRun, before, refs, fates, i).tags, refs[i])
    ensures AllPossible(dryRun, before, refs, fates + [fate], i + 1)
  {
    forall k | 0 <= k < i + 1 ensures PossibleAt(dryRun, before, refs, fates + [fate], k) {
      assert k < i ==> PossibleAt(dryRun, before, refs, fates, k);
      PossibleInBoth(dryRun, before, refs, fates, fates + [fate], k, if k < i then fates[k] else fate);
    }
  }

  lemma {:induction false} PossibleInBoth(dryRun: bool, before: World, refs: seq<Ref>, fates: seq<Fate>,
                                          more: seq<Fate>, k: nat, fate: Fate)
    requires fates <= more && k <= |fates| && k < |more| && k < |refs| && more[k] == fate
    requires fate in PossibleOnes(WorldAfter(dryRun, before, refs, fates, k).tags, refs[k])
    ensures PossibleAt(dryRun, before, refs, more, k)
  {
    PrefixCounts(dryRun, before, refs, fates, more, k);
    SamePossible(more[k], fate, WorldAfter(dryRun, before, refs, more, k),
                 WorldAfter(dryRun, before, refs, fates, k), refs[k]);
  }

  lemma SamePossible(a: Fate, b: Fate, v: World, w: World, ref: Ref)
    requires a == b && v == w && b in PossibleOnes(w.tags, ref)
    ensures a in PossibleOnes(v.tags, ref)
  {
  }

  lemma CountsOn(dryRun: bool, before: World, refs: seq<Ref>, more: seq<Fate>, i: nat, here: World, fate: Fate,
                 r: Result<bool, Stage>, now: World)
    requires i < |refs| && i < |more| && more[i] == fate && here == WorldAfter(dryRun, before, refs, more, i)
    requires CycleEnd(r, now) == EndOf(dryRun, here, refs[i], fate)
    ensures now == WorldAfter(dryRun, before, refs, more, i + 1)
    ensures Deployed(dryRun, before, refs, more, i + 1) ==
            Counted(Deployed(dryRun, before, refs, more, i), r)
  {
  }

  lemma TagsFlow(dryRun: bool, w: World, ref: Ref, o: Outside, fate: Fate)
    requires fate in FatesOf(dryRun, w, ref, o)
    ensures Extends(EndOf(dryRun, w, ref, fate).world.tags, o.atPull)
  {
    assert Possible(w.tags, ref, fate) && fate == FateOf(o, fate.failsAt, fate.kind);
    ExtendsTransitive(o.atResolve, o.atFetch, o.atPull);
  }

  lemma CancelledReport(dryRun: bool, before: World, refs: seq<Ref>, outside: seq<Outside>, n: nat, p: Progress)
    requires n < |refs| && p in ProgressAt(dryRun, before, refs, outside, n)
    ensures Report(Cancelled(n), p) in Reports(dryRun, before, refs, outside, n)
  {
    assert PassEnds(dryRun, before, refs, outside, n, Report(Cancelled(n), p));
  }

  lemma CompletedReport(dryRun: bool, before: World, refs: seq<Ref>, outside: seq<Outside>, cancelledAfter: nat,
                        p: Progress)
    requires |refs| <= cancelledAfter && p in ProgressAt(dryRun, before, refs, outside, |refs|)
    ensures Report(Completed, p) in Reports(dryRun, before, refs, outside, cancelledAfter)
  {
    assert PassEnds(dryRun, before, refs, outside, cancelledAfter, Report(Completed, p));
  }

  lemma NoReport(dryRun: bool, before: World, refs: seq<Ref>, outside: seq<Outside>, cancelledAfter: nat)
    ensures Report(Skipped, Progress(before, 0, [])) in Reports(dryRun, before, refs, outside, cancelledAfter)
    ensures Report(LockUnavailable, Progress(before, 0, [])) in Reports(dryRun, before, refs, outside, cancelledAfter)
  {
    assert PassEnds(dryRun, before, refs, outside, cancelledAfter, Report(Skipped, Progress(before, 0, [])));
    assert PassEnds(dryRun, before, refs, outside, cancelledAfter, Report(LockUnavailable, Progress(before, 0, [])));
  }
}
