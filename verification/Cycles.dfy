/**
  What the functions behind the watcher's methods mean: every pass is a run of the protocol,
  repositories are independent of each other, and a complete pass settles.
 */
module Cycles {
  import opened Results
  import opened Requests
  import opened State
  import opened Protocol
  import opened Fates
  import C = Config
  import H = Hosts
  import V = Delivery

  // ---- a pass is a run of the protocol ----

  ghost predicate Reaches(dryRun: bool, a: World, b: World) {
    exists steps :: Legal(dryRun, a, steps) && Exec(a, steps) == b
  }

  lemma ReachesItself(dryRun: bool, w: World)
    ensures Reaches(dryRun, w, w)
  {
    assert Legal(dryRun, w, []) && Exec(w, []) == w;
  }

  lemma StepReaches(dryRun: bool, w: World, s: Step)
    requires Enabled(dryRun, w, s)
    ensures Reaches(dryRun, w, Do(w, s))
  {
    FirstStep(dryRun, w, s, []);
    assert Legal(dryRun, w, [s] + []) && Exec(w, [s] + []) == Do(w, s);
  }

  lemma ReachesTransitive(dryRun: bool, a: World, b: World, c: World)
    requires Reaches(dryRun, a, b) && Reaches(dryRun, b, c)
    ensures Reaches(dryRun, a, c)
  {
    var first :| Legal(dryRun, a, first) && Exec(a, first) == b;
    var second :| Legal(dryRun, b, second) && Exec(b, second) == c;
    ExecConcat(dryRun, a, first, second);
    assert Legal(dryRun, a, first + second) && Exec(a, first + second) == c;
  }

  /** One more step in front of a run. */
  lemma StepThen(dryRun: bool, w: World, s: Step, end: World)
    requires Enabled(dryRun, w, s) && Reaches(dryRun, Do(w, s), end)
    ensures Reaches(dryRun, w, end)
  {
    StepReaches(dryRun, w, s);
    ReachesTransitive(dryRun, w, Do(w, s), end);
  }

  lemma FailEnds(dryRun: bool, w: World)
    requires w.phase.Busy?
    ensures Reaches(dryRun, w, w.(phase := Idle))
  {
    StepReaches(dryRun, w, Fail);
  }

  /** A save, however it goes, is a run from the healthy deploy to the end of the cycle. */
  lemma SaveIsARun(dryRun: bool, w: World, job: Job, fate: Fate)
    requires w.phase == Busy(Healthy, job) && job.ref in w.tags && fate.save.Valid()
    ensures var memory := w.memory[job.ref := Entry(job.resolved, fate.at, fate.kind)];
            Reaches(dryRun, w, w.(phase := Idle, memory := memory, files := FilesAfter(w.files, memory, fate.save)))
  {
    var remembered := Do(w, Remember(fate.at, fate.kind));
    match fate.save {
      case NotStarted => FailEnds(dryRun, remembered);
      case NotWritten(left) =>
        FailEnds(dryRun, Do(remembered, Scribble(left)));
        StepThen(dryRun, remembered, Scribble(left), Do(remembered, Scribble(left)).(phase := Idle));
      case NotRenamed =>
        FailEnds(dryRun, Do(remembered, Advance));
        StepThen(dryRun, remembered, Advance, Do(remembered, Advance).(phase := Idle));
      case Saved =>
        StepReaches(dryRun, Do(remembered, Advance), Advance);
        StepThen(dryRun, remembered, Advance, Do(Do(remembered, Advance), Advance));
    }
    var memory := w.memory[job.ref := Entry(job.resolved, fate.at, fate.kind)];
    StepThen(dryRun, w, Remember(fate.at, fate.kind),
             w.(phase := Idle, memory := memory, files := FilesAfter(w.files, memory, fate.save)));
  }

  /** The world of a deploy that broke off with the verdict `v`. */
  function BrokenOff(w: World, job: Job, v: Verdict): World {
    w.(phase := Idle, targets := TargetsAfter(v, w.targets, job), log := LogAfter(v, w.log, job))
  }

  function Deploys(w: World, job: Job): World {
    w.(phase := Busy(Healthy, job), targets := TargetsAfter(Finished, w.targets, job),
      log := LogAfter(Finished, w.log, job))
  }

  lemma ChecksAreARun(dryRun: bool, w: World, job: Job, failsAt: Option<Stage>)
    requires w.phase == Busy(Pulled, job) && job.ref in w.tags
    ensures failsAt in {Some(Validated), Some(PreHooked)} ==>
              Reaches(dryRun, w, BrokenOff(w, job, FailedAt(failsAt.value)))
    ensures Reaches(dryRun, w, w.(phase := Busy(PreHooked, job), log := w.log + DeployLog(job)[..2]))
  {
    var w1 := Do(w, Advance);
    assert w1.log == w.log + DeployLog(job)[..1];
    var w2 := Do(w1, Advance);
    assert w2.log == w.log + DeployLog(job)[..2];
    StepReaches(dryRun, w1, Advance);
    StepThen(dryRun, w, Advance, w2);
    if failsAt == Some(Validated) {
      FailEnds(dryRun, w);
    } else if failsAt == Some(PreHooked) {
      FailEnds(dryRun, w1);
      StepThen(dryRun, w, Advance, w1.(phase := Idle));
    }
  }

  lemma StrategyIsARun(dryRun: bool, w: World, before: World, job: Job, failsAt: Option<Stage>)
    requires job.ref in w.tags
    requires w == before.(phase := Busy(PreHooked, job), log := before.log + DeployLog(job)[..2])
    ensures failsAt in {Some(Applied), Some(Healthy)} ==>
              Reaches(dryRun, w, BrokenOff(before, job, FailedAt(failsAt.value)))
    ensures failsAt.None? ==> Reaches(dryRun, w, Deploys(before, job))
  {
    var w3 := Do(w, Advance);
    var w4 := Do(w3, Advance);
    var w5 := Do(w4, Advance);
    var exact := Exact(job.resolved, job.spec, job.content);
    assert before.targets[job.ref := Broken(job.resolved)][job.ref := exact] == before.targets[job.ref := exact];
    assert w4.log == before.log + DeployLog(job)[..3];
    assert w5.log == before.log + DeployLog(job);
    if failsAt == Some(Applied) {
      FailEnds(dryRun, w3);
      StepThen(dryRun, w, Advance, w3.(phase := Idle));
    } else if failsAt == Some(Healthy) {
      FailEnds(dryRun, w4);
      StepThen(dryRun, w3, Advance, w4.(phase := Idle));
      StepThen(dryRun, w, Advance, w4.(phase := Idle));
    } else if failsAt == None {
      StepReaches(dryRun, w4, Advance);
      StepThen(dryRun, w3, Advance, w5);
      StepThen(dryRun, w, Advance, w5);
    }
  }

  /** From a complete pull to the end of the cycle. */
  lemma DeployIsARun(dryRun: bool, w: World, job: Job, fate: Fate)
    requires w.phase == Busy(Pulled, job) && job.ref in w.tags && fate.save.Valid()
    requires match fate.failsAt case None => true case Some(stage) => DeployStage(stage)
    ensures var v := LateVerdict(fate);
            var memory := EntriesAfter(v, w.memory, job, fate);
            Reaches(dryRun, w, BrokenOff(w, job, v).(memory := memory,
                    files := if v in {FailedAt(Written), Finished} then FilesAfter(w.files, memory, fate.save)
                      else w.files))
  {
    ChecksAreARun(dryRun, w, job, fate.failsAt);
    var hooked := w.(phase := Busy(PreHooked, job), log := w.log + DeployLog(job)[..2]);
    StrategyIsARun(dryRun, hooked, w, job, fate.failsAt);
    var v := LateVerdict(fate);
    if fate.failsAt in {Some(Applied), Some(Healthy)} {
      ReachesTransitive(dryRun, w, hooked, BrokenOff(w, job, v));
    } else if fate.failsAt == None {
      SaveIsARun(dryRun, Deploys(w, job), job, fate);
      ReachesTransitive(dryRun, w, hooked, Deploys(w, job));
      var memory := EntriesAfter(v, w.memory, job, fate);
      ReachesTransitive(dryRun, w, Deploys(w, job),
                        BrokenOff(w, job, v).(memory := memory, files := FilesAfter(w.files, memory, fate.save)));
    }
  }

  /** The requests of a cycle that goes on to deploy, with the tags moving between them. */
  lemma RequestsAreARun(w: World, ref: Ref, fate: Fate)
    requires w.phase == Idle && Possible(w.tags, ref, fate) && ref in fate.atResolve && fate.atResolve[ref] != []
    requires Current(fate.atResolve, ref) != Recorded(w.memory, ref)
    ensures Reaches(false, w, w.(tags := fate.atPull, phase := Busy(Pulled, JobOf(ref, fate))))
    ensures Reaches(false, w, w.(tags := fate.atPull, phase := Idle))
  {
    var w1 := Do(w, Move(fate.atResolve));
    var w2 := Do(w1, Resolve(ref));
    var w3 := Do(w2, Move(fate.atFetch));
    var w4 := Do(w3, Advance);
    var w5 := Do(w4, Move(fate.atPull));
    var w6 := Do(w5, Advance);
    StepReaches(false, w5, Advance);
    FailEnds(false, w5);
    var failed := w5.(phase := Idle);
    StepThen(false, w4, Move(fate.atPull), w6);
    StepThen(false, w4, Move(fate.atPull), failed);
    StepThen(false, w3, Advance, w6);
    StepThen(false, w3, Advance, failed);
    StepThen(false, w2, Move(fate.atFetch), w6);
    StepThen(false, w2, Move(fate.atFetch), failed);
    StepThen(false, w1, Resolve(ref), w6);
    StepThen(false, w1, Resolve(ref), failed);
    StepThen(false, w, Move(fate.atResolve), w6);
    StepThen(false, w, Move(fate.atResolve), failed);
  }

  /** A cycle that ends before the pull: at the resolve, at the comparison, at the annotations, or as a dry run. */
  lemma EarlyEndIsARun(dryRun: bool, w: World, ref: Ref, fate: Fate)
    requires w.phase == Idle && Possible(w.tags, ref, fate)
    requires VerdictOf(dryRun, Recorded(w.memory, ref), ref, fate) in
               {FailedAt(Resolved), Unchanged, FailedAt(Fetched), Reported}
    ensures Reaches(dryRun, w, CycleWorld(dryRun, w, ref, fate))
  {
    var v := VerdictOf(dryRun, Recorded(w.memory, ref), ref, fate);
    var w1 := Do(w, Move(fate.atResolve));
    StepReaches(dryRun, w, Move(fate.atResolve));
    assert CycleWorld(dryRun, w, ref, fate) == w.(tags := TagsAfter(v, fate));
    if v in {FailedAt(Fetched), Reported} {
      var w2 := Do(w1, Resolve(ref));
      var w3 := Do(w2, Move(fate.atFetch));
      FailEnds(dryRun, w3);
      StepThen(dryRun, w2, Move(fate.atFetch), w3.(phase := Idle));
      StepThen(dryRun, w1, Resolve(ref), w3.(phase := Idle));
      StepThen(dryRun, w, Move(fate.atResolve), w3.(phase := Idle));
    }
  }

  /** Whatever happens during a cycle, what the daemon does is a run of the protocol. */
  lemma CycleIsARun(dryRun: bool, w: World, ref: Ref, fate: Fate)
    requires w.phase == Idle && Possible(w.tags, ref, fate)
    ensures Reaches(dryRun, w, CycleWorld(dryRun, w, ref, fate))
  {
    var v := VerdictOf(dryRun, Recorded(w.memory, ref), ref, fate);
    if v in {FailedAt(Resolved), Unchanged, FailedAt(Fetched), Reported} {
      EarlyEndIsARun(dryRun, w, ref, fate);
    } else {
      RequestsAreARun(w, ref, fate);
      if v != FailedAt(Pulled) {
        var pulled := w.(tags := fate.atPull, phase := Busy(Pulled, JobOf(ref, fate)));
        DeployIsARun(false, pulled, JobOf(ref, fate), fate);
        LateCycle(w, ref, fate);
        ReachesTransitive(false, w, pulled, CycleWorld(false, w, ref, fate));
      }
    }
  }

  lemma LateCycle(w: World, ref: Ref, fate: Fate)
    requires w.phase == Idle && Possible(w.tags, ref, fate)
    requires VerdictOf(false, Recorded(w.memory, ref), ref, fate) == LateVerdict(fate) != FailedAt(Pulled)
    requires LateVerdict(fate) !in {FailedAt(Resolved), FailedAt(Fetched)}
    ensures var v, job := LateVerdict(fate), JobOf(ref, fate);
            var memory := EntriesAfter(v, w.memory, job, fate);
            var pulled := w.(tags := fate.atPull, phase := Busy(Pulled, job));
            CycleWorld(false, w, ref, fate) ==
              BrokenOff(pulled, job, v).(memory := memory,
                files := if v in {FailedAt(Written), Finished} then FilesAfter(w.files, memory, fate.save) else w.files)
  {
  }

  lemma CycleAtIsARun(dryRun: bool, w: World, refs: seq<Ref>, fates: seq<Fate>, i: nat, n: nat)
    requires AllPossible(dryRun, w, refs, fates, n) && i < n && WorldAfter(dryRun, w, refs, fates, i).phase == Idle
    ensures Reaches(dryRun, WorldAfter(dryRun, w, refs, fates, i), WorldAfter(dryRun, w, refs, fates, i + 1))
    ensures WorldAfter(dryRun, w, refs, fates, i + 1).phase == Idle
  {
    var before := WorldAfter(dryRun, w, refs, fates, i);
    assert PossibleAt(dryRun, w, refs, fates, i);
    CycleIsARun(dryRun, before, refs[i], fates[i]);
  }

  lemma PassGrows(dryRun: bool, w: World, refs: seq<Ref>, fates: seq<Fate>, i: nat, n: nat)
    requires AllPossible(dryRun, w, refs, fates, n) && i < n && WorldAfter(dryRun, w, refs, fates, i).phase == Idle
    requires Reaches(dryRun, w, WorldAfter(dryRun, w, refs, fates, i))
    ensures Reaches(dryRun, w, WorldAfter(dryRun, w, refs, fates, i + 1))
    ensures WorldAfter(dryRun, w, refs, fates, i + 1).phase == Idle
  {
    CycleAtIsARun(dryRun, w, refs, fates, i, n);
    ReachesTransitive(dryRun, w, WorldAfter(dryRun, w, refs, fates, i), WorldAfter(dryRun, w, refs, fates, i + 1));
  }

  lemma {:induction false} PassIsARun(dryRun: bool, w: World, refs: seq<Ref>, fates: seq<Fate>, n: nat)
    requires w.phase == Idle && AllPossible(dryRun, w, refs, fates, n)
    ensures Reaches(dryRun, w, WorldAfter(dryRun, w, refs, fates, n))
    ensures WorldAfter(dryRun, w, refs, fates, n).phase == Idle
  {
    ReachesItself(dryRun, w);
    for i := 0 to n
      invariant Reaches(dryRun, w, WorldAfter(dryRun, w, refs, fates, i))
      invariant WorldAfter(dryRun, w, refs, fates, i).phase == Idle
    {
      PassGrows(dryRun, w, refs, fates, i, n);
    }
  }

  /**
    The two theorems on records, for whole passes: after any part of any pass of a daemon whose
    first records were true ones, every digest on record was one of those or was earned by a
    complete deploy, and one that is current describes its target exactly, unless the tag has
    come back to it.
   */
  lemma {:induction false} PassKeepsRecordsHonest(dryRun: bool, first: World, w: World, refs: seq<Ref>,
                                                  fates: seq<Fate>, n: nat, ref: Ref, d: Digest)
    requires Grounded(first, ref) && Reaches(dryRun, first, w) && w.phase == Idle
    requires AllPossible(dryRun, w, refs, fates, n)
    ensures var e := WorldAfter(dryRun, w, refs, fates, n);
            && (OnRecord(e, ref, d) ==> Holds(OnDisk(first), ref, d) || Earned(e.log, ref, d))
            && (History(e.tags, ref) != [] && NeverReturns(History(e.tags, ref)) ==> RecordTells(e, ref))
  {
    var e := WorldAfter(dryRun, w, refs, fates, n);
    PassIsARun(dryRun, w, refs, fates, n);
    ReachesTransitive(dryRun, first, w, e);
    var steps :| Legal(dryRun, first, steps) && Exec(first, steps) == e;
    OnlySuccessesAreRecorded(dryRun, first, steps, ref, d);
    var h := History(e.tags, ref);
    if h != [] && NeverReturns(h) { RecordMatchesTarget(dryRun, first, steps, ref); }
  }

  // ---- repositories are independent ----

  /** Nothing about `other` differs in memory and at its target. */
  predicate SameFor(a: World, b: World, other: Ref) {
    && (other in a.memory <==> other in b.memory)
    && (other in a.memory ==> a.memory[other] == b.memory[other])
    && TargetOf(a.targets, other) == TargetOf(b.targets, other)
  }

  lemma CycleLeavesOthers(dryRun: bool, w: World, ref: Ref, fate: Fate, other: Ref)
    requires other != ref
    ensures SameFor(w, CycleWorld(dryRun, w, ref, fate), other)
  {
  }

  lemma {:induction false} CyclesLeaveOthers(dryRun: bool, w: World, refs: seq<Ref>, fates: seq<Fate>, m: nat, n: nat,
                                             other: Ref)
    requires m <= n <= |refs| && n <= |fates| && other !in refs[m..n]
    ensures SameFor(WorldAfter(dryRun, w, refs, fates, m), WorldAfter(dryRun, w, refs, fates, n), other)
    decreases n - m
  {
    if m < n {
      assert refs[m..n][n - m - 1] == refs[n - 1];
      assert refs[m..n] == refs[m..n - 1] + [refs[n - 1]];
      CyclesLeaveOthers(dryRun, w, refs, fates, m, n - 1, other);
      CycleLeavesOthers(dryRun, WorldAfter(dryRun, w, refs, fates, n - 1), refs[n - 1], fates[n - 1], other);
    }
  }

  lemma SameStartSameEnd(dryRun: bool, a: World, b: World, ref: Ref, fate: Fate)
    requires SameFor(a, b, ref)
    ensures SameFor(CycleWorld(dryRun, a, ref, fate), CycleWorld(dryRun, b, ref, fate), ref)
    ensures VerdictOf(dryRun, Recorded(a.memory, ref), ref, fate)
              == VerdictOf(dryRun, Recorded(b.memory, ref), ref, fate)
  {
  }

  lemma {:induction false} BeforeItsTurn(dryRun: bool, w: World, refs: seq<Ref>, fates: seq<Fate>, i: nat)
    requires i < |refs| && i <= |fates| && refs[i] !in refs[..i]
    ensures SameFor(w, WorldAfter(dryRun, w, refs, fates, i), refs[i])
  {
    assert refs[0..i] == refs[..i];
    CyclesLeaveOthers(dryRun, w, refs, fates, 0, i, refs[i]);
    assert WorldAfter(dryRun, w, refs, fates, 0) == w;
  }

  lemma VerdictAsAlone(dryRun: bool, w: World, refs: seq<Ref>, fates: seq<Fate>, i: nat)
    requires i < |refs| <= |fates| && refs[i] !in refs[..i]
    ensures VerdictAt(dryRun, w, refs, fates, i) == VerdictOf(dryRun, Recorded(w.memory, refs[i]), refs[i], fates[i])
  {
    BeforeItsTurn(dryRun, w, refs, fates, i);
    SameStartSameEnd(dryRun, w, WorldAfter(dryRun, w, refs, fates, i), refs[i], fates[i]);
  }

  /**
    In a pass each repository gets the verdict, the record in memory and the target that it would
    get alone with the same fate, whatever the fates of the others. Whether its fate is the same is
    a question about the host, not about the protocol.
   */
  lemma {:induction false} EachAsAlone(dryRun: bool, w: World, refs: seq<Ref>, fates: seq<Fate>, i: nat)
    requires i < |refs| <= |fates| && refs[i] !in refs[..i] && refs[i] !in refs[i + 1..]
    ensures VerdictAt(dryRun, w, refs, fates, i) == VerdictOf(dryRun, Recorded(w.memory, refs[i]), refs[i], fates[i])
    ensures SameFor(WorldAfter(dryRun, w, refs, fates, |refs|), CycleWorld(dryRun, w, refs[i], fates[i]), refs[i])
  {
    VerdictAsAlone(dryRun, w, refs, fates, i);
    RecordAsAlone(dryRun, w, refs, fates, i);
  }

  lemma {:induction false} RecordAsAlone(dryRun: bool, w: World, refs: seq<Ref>, fates: seq<Fate>, i: nat)
    requires i < |refs| <= |fates| && refs[i] !in refs[..i] && refs[i] !in refs[i + 1..]
    ensures SameFor(WorldAfter(dryRun, w, refs, fates, |refs|), CycleWorld(dryRun, w, refs[i], fates[i]), refs[i])
  {
    var here := WorldAfter(dryRun, w, refs, fates, i);
    BeforeItsTurn(dryRun, w, refs, fates, i);
    SameStartSameEnd(dryRun, w, here, refs[i], fates[i]);
    assert refs[i + 1..|refs|] == refs[i + 1..];
    CyclesLeaveOthers(dryRun, w, refs, fates, i + 1, |refs|, refs[i]);
    SameForTransitive(WorldAfter(dryRun, w, refs, fates, |refs|), CycleWorld(dryRun, here, refs[i], fates[i]),
                      CycleWorld(dryRun, w, refs[i], fates[i]), refs[i]);
  }

  lemma SameForTransitive(a: World, b: World, c: World, ref: Ref)
    requires SameFor(b, a, ref) && SameFor(c, b, ref)
    ensures SameFor(a, c, ref)
  {
  }

  /**
    The state file is where repositories meet: a record that could not be saved reaches the disk
    with the next repository that saves, because a save always writes the whole map.
   */
  lemma LostSaveIsCarried(w: World, a: Ref, fa: Fate, b: Ref, fb: Fate)
    requires Possible(w.tags, a, fa) && VerdictOf(false, Recorded(w.memory, a), a, fa) == FailedAt(Written)
    requires a != b && fb.failsAt.None? && VerdictOf(false, Recorded(w.memory, b), b, fb) == Finished
    ensures OnDisk(CycleWorld(false, w, a, fa)) == OnDisk(w)
    ensures var e := CycleWorld(false, CycleWorld(false, w, a, fa), b, fb);
            OnDisk(e) == e.memory && a in OnDisk(e) && OnDisk(e)[a].digest == Current(fa.atResolve, a)
  {
    var lost := CycleWorld(false, w, a, fa);
    JobIsCurrent(w.tags, a, fa);
    assert lost.files.file == w.files.file;
    assert a in lost.memory && lost.memory[a].digest == Current(fa.atResolve, a);
    CycleLeavesOthers(false, w, a, fa, b);
    CycleLeavesOthers(false, lost, b, fb, a);
    FinishedIsOnDisk(lost, b, fb);
  }

  lemma JobIsCurrent(tags: Tags, ref: Ref, fate: Fate)
    requires Possible(tags, ref, fate) && ref in fate.atResolve
    ensures JobOf(ref, fate).resolved == Current(fate.atResolve, ref)
  {
  }

  lemma FinishedIsOnDisk(w: World, ref: Ref, fate: Fate)
    requires VerdictOf(false, Recorded(w.memory, ref), ref, fate) == Finished
    ensures OnDisk(CycleWorld(false, w, ref, fate)) == CycleWorld(false, w, ref, fate).memory
  {
  }

  // ---- convergence ----

  /** The tags stand still during the cycle. */
  predicate Still(tags: Tags, fate: Fate) {
    fate.atResolve == tags && fate.atFetch == tags && fate.atPull == tags
  }

  predicate AllStill(tags: Tags, fates: seq<Fate>) {
    forall i :: 0 <= i < |fates| ==> Still(tags, fates[i])
  }

  predicate SettledFor(w: World, ref: Ref) {
    ref in w.tags && Recorded(w.memory, ref) == Current(w.tags, ref)
  }

  lemma CycleSettles(w: World, ref: Ref, fate: Fate)
    requires Still(w.tags, fate)
              && VerdictOf(false, Recorded(w.memory, ref), ref, fate) in {Unchanged, Finished, FailedAt(Written)}
    ensures SettledFor(CycleWorld(false, w, ref, fate), ref)
    ensures CycleWorld(false, w, ref, fate).tags == w.tags
  {
  }

  lemma CycleKeepsSettled(dryRun: bool, w: World, ref: Ref, fate: Fate, other: Ref)
    requires Still(w.tags, fate) && SettledFor(w, other)
    ensures SettledFor(CycleWorld(dryRun, w, ref, fate), other) && CycleWorld(dryRun, w, ref, fate).tags == w.tags
  {
  }

  lemma {:induction false} CompletePassSettles(w: World, refs: seq<Ref>, fates: seq<Fate>, n: nat)
    requires n <= |refs| <= |fates| && AllStill(w.tags, fates)
    requires forall i :: 0 <= i < n ==> VerdictAt(false, w, refs, fates, i) in {Unchanged, Finished, FailedAt(Written)}
    ensures var e := WorldAfter(false, w, refs, fates, n);
            e.tags == w.tags && forall i :: 0 <= i < n ==> SettledFor(e, refs[i])
  {
    if n > 0 {
      CompletePassSettles(w, refs, fates, n - 1);
      var before := WorldAfter(false, w, refs, fates, n - 1);
      assert VerdictAt(false, w, refs, fates, n - 1) in {Unchanged, Finished, FailedAt(Written)};
      CycleSettles(before, refs[n - 1], fates[n - 1]);
      forall i | 0 <= i < n - 1 ensures SettledFor(WorldAfter(false, w, refs, fates, n), refs[i]) {
        CycleKeepsSettled(false, before, refs[n - 1], fates[n - 1], refs[i]);
      }
    }
  }

  lemma {:induction false} SettledPassDoesNothing(dryRun: bool, w: World, refs: seq<Ref>, fates: seq<Fate>, n: nat)
    requires n <= |refs| && n <= |fates| && AllStill(w.tags, fates)
    requires forall i :: 0 <= i < |refs| ==> SettledFor(w, refs[i])
    ensures WorldAfter(dryRun, w, refs, fates, n) == w && Deployed(dryRun, w, refs, fates, n) == 0
    ensures forall i :: 0 <= i < n ==> VerdictAt(dryRun, w, refs, fates, i) in {Unchanged, FailedAt(Resolved)}
  {
    if n > 0 {
      SettledPassDoesNothing(dryRun, w, refs, fates, n - 1);
      assert SettledFor(w, refs[n - 1]);
    }
  }

  /**
    Against a registry that stands still, once every repository has got through a pass, any
    later pass over them leaves the world exactly as it is: nothing is pulled, deployed or saved.
   */
  lemma {:induction false} PassesConverge(w: World, refs: seq<Ref>, fates: seq<Fate>, later: seq<Fate>)
    requires |refs| <= |fates| && |refs| <= |later| && AllStill(w.tags, fates) && AllStill(w.tags, later)
    requires forall i :: 0 <= i < |refs| ==>
              VerdictAt(false, w, refs, fates, i) in {Unchanged, Finished, FailedAt(Written)}
    ensures var settled := WorldAfter(false, w, refs, fates, |refs|);
            && WorldAfter(false, settled, refs, later, |refs|) == settled
            && Deployed(false, settled, refs, later, |refs|) == 0
  {
    CompletePassSettles(w, refs, fates, |refs|);
    SettledPassDoesNothing(false, WorldAfter(false, w, refs, fates, |refs|), refs, later, |refs|);
  }

  // ---- convergence across a restart ----

  /** The process ends between two passes and starts again from the disk. */
  function Restarted(w: World): World {
    Do(Do(w, Crash), Start)
  }

  /** A cycle against tags that stand still, which succeeds or fails at a given stage. */
  function StillFate(tags: Tags, failsAt: Option<Stage>): Fate {
    Fate(failsAt, tags, tags, tags, Saved, 0, Jar)
  }

  lemma {:induction false} OnlyOneCycleMatters(w: World, refs: seq<Ref>, fates: seq<Fate>, i: nat, n: nat)
    requires i < |refs| && n <= |refs| == |fates|
    requires forall k :: 0 <= k < |fates| && k != i ==> fates[k] == StillFate(w.tags, Some(Resolved))
    requires fates[i] == StillFate(w.tags, None)
    ensures WorldAfter(false, w, refs, fates, n) == if n <= i then w else CycleWorld(false, w, refs[i], fates[i])
  {
    if n > 0 {
      OnlyOneCycleMatters(w, refs, fates, i, n - 1);
      var before := WorldAfter(false, w, refs, fates, n - 1);
      if n - 1 != i { FailedResolveDoesNothing(before, refs[n - 1], fates[n - 1]); }
    }
  }

  lemma FailedResolveDoesNothing(w: World, ref: Ref, fate: Fate)
    requires fate.failsAt == Some(Resolved) && fate.atResolve == w.tags
    ensures CycleWorld(false, w, ref, fate) == w
  {
  }

  lemma UnsettledCycleDeploys(w: World, ref: Ref, fate: Fate)
    requires ref in w.tags && !SettledFor(w, ref) && fate == StillFate(w.tags, None)
    ensures CycleWorld(false, w, ref, fate).tags == w.tags && |CycleWorld(false, w, ref, fate).log| > |w.log|
  {
  }

  /**
    A settled daemon stays settled across a restart if and only if, for each of its references,
    the disk has the record that the memory had: exactly then no later pass against the same
    registry changes anything. A record whose save failed is the way to lose that.
   */
  lemma {:induction false} ConvergenceSurvivesRestartIff(w: World, refs: seq<Ref>)
    requires Load(w.files.file).Ok? && forall i :: 0 <= i < |refs| ==> SettledFor(w, refs[i])
    ensures (forall later: seq<Fate> :: |refs| <= |later| && AllStill(w.tags, later) ==>
               WorldAfter(false, Restarted(w), refs, later, |refs|) == Restarted(w))
            <==> (forall i :: 0 <= i < |refs| ==> Recorded(OnDisk(w), refs[i]) == Recorded(w.memory, refs[i]))
  {
    var r := Restarted(w);
    assert r.tags == w.tags && r.memory == OnDisk(w);
    if forall i :: 0 <= i < |refs| ==> Recorded(OnDisk(w), refs[i]) == Recorded(w.memory, refs[i]) {
      forall later: seq<Fate> | |refs| <= |later| && AllStill(w.tags, later)
        ensures WorldAfter(false, r, refs, later, |refs|) == r
      {
        SettledPassDoesNothing(false, r, refs, later, |refs|);
      }
    } else {
      var i :| 0 <= i < |refs| && Recorded(OnDisk(w), refs[i]) != Recorded(w.memory, refs[i]);
      var later := seq(|refs|, k => StillFate(w.tags, if k == i then None else Some(Resolved)));
      OnlyOneCycleMatters(r, refs, later, i, |refs|);
      UnsettledCycleDeploys(r, refs[i], later[i]);
      assert AllStill(w.tags, later) && WorldAfter(false, r, refs, later, |refs|) != r;
    }
  }

  // ---- records and files ----

  /** A digest that is on record and current, for a tag that has not come back to it, has its own content there. */
  ghost predicate ContentIsThere(setup: V.Setup, t: H.Tree, e: World, repo: C.RepoRef) {
    var h := History(e.tags, repo.fullRef);
    h != [] && NeverReturns(h) && OnRecord(e, repo.fullRef, h[|h| - 1]) ==>
      V.Shows(t, V.RequestFor(setup, repo, h[|h| - 1]), V.ContentOf(setup, repo, h[|h| - 1]))
  }

  lemma HonestRecordTellsTree(setup: V.Setup, t: H.Tree, e: World, repo: C.RepoRef)
    requires repo in setup.repos && V.Tells(setup, t, e.targets)
    requires var h := History(e.tags, repo.fullRef); h != [] && NeverReturns(h) ==> RecordTells(e, repo.fullRef)
    ensures ContentIsThere(setup, t, e, repo)
  {
    if RecordTells(e, repo.fullRef) { V.RecordTellsTree(setup, e, t, repo); }
  }
}
