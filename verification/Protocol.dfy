/**
  The poll protocol as a transition system: tags move at any moment, the daemon resolves,
  fetches, pulls, deploys and persists in separate steps, each of which can fail, and the
  process can crash and restart anywhere. Theorems are about every legal run.
 */
module Protocol {
  import opened Results
  import opened Requests
  import opened State

  type Digest = string

  /** For each reference every digest its tag has pointed to so far; the last one is current. */
  type Tags = map<Ref, seq<Digest>>

  /** What the target of a reference holds: parts of a deploy, or one deploy's whole result. */
  datatype Target =
    | Untouched
    | Broken(of: Digest)
    | Exact(of: Digest, spec: Digest, content: Digest)

  type Targets = map<Ref, Target>

  /** One cycle: the digest it resolved, and those whose annotations and content it then got. */
  datatype Job = Job(ref: Ref, resolved: Digest, spec: Digest, content: Digest)

  /** How far a cycle has come. */
  datatype Stage =
    | Resolved | Fetched | Pulled | Validated | PreHooked | Applying | Applied | Healthy | Remembered | Written

  datatype Phase = Down | Idle | Busy(stage: Stage, job: Job)

  datatype Event = Event(stage: Stage, job: Job)

  datatype World = World(tags: Tags, memory: Entries, files: Files, targets: Targets, phase: Phase, log: seq<Event>)

  datatype Step =
    | Move(tags: Tags)
    | Crash
    | Start
    | Resolve(ref: Ref)
    | Advance
    | Remember(at: int, kind: Kind)
    | Scribble(left: Content)
    | Fail

  predicate Extends(before: Tags, after: Tags) {
    forall ref :: ref in before ==> ref in after && before[ref] <= after[ref]
  }

  /** The digest a tag points to now. */
  function Current(tags: Tags, ref: Ref): Digest
    requires ref in tags
  {
    if tags[ref] == [] then "" else tags[ref][|tags[ref]| - 1]
  }

  function TargetOf(targets: Targets, ref: Ref): Target {
    if ref in targets then targets[ref] else Untouched
  }

  // ---- steps ----

  predicate Enabled(dryRun: bool, w: World, s: Step) {
    match s
    case Move(tags) => Extends(w.tags, tags)
    case Crash => !w.phase.Down?
    case Start => w.phase.Down? && Load(w.files.file).Ok?
    case Resolve(ref) =>
      w.phase.Idle? && ref in w.tags && w.tags[ref] != [] && Current(w.tags, ref) != Recorded(w.memory, ref)
    case Advance =>
      w.phase.Busy? && w.phase.job.ref in w.tags && !w.phase.stage.Healthy? && !(w.phase.stage.Fetched? && dryRun)
    case Remember(_, _) => w.phase.Busy? && w.phase.stage.Healthy?
    case Scribble(left) => w.phase.Busy? && w.phase.stage.Remembered? && left in {Empty, Truncated}
    case Fail => w.phase.Busy?
  }

  function Do(w: World, s: Step): World {
    match s
    case Move(tags) => w.(tags := tags)
    case Crash => w.(phase := Down)
    case Start => w.(phase := Idle, memory := if Load(w.files.file).Ok? then Load(w.files.file).value else map[])
    case Resolve(ref) =>
      if ref in w.tags then w.(phase := Busy(Resolved, Job(ref, Current(w.tags, ref), "", ""))) else w
    case Advance => if w.phase.Busy? && w.phase.job.ref in w.tags then Advanced(w, w.phase.stage, w.phase.job) else w
    case Remember(at, kind) =>
      if w.phase.Busy? then
        w.(phase := Busy(Remembered, w.phase.job),
          memory := w.memory[w.phase.job.ref := Entry(w.phase.job.resolved, at, kind)])
      else w
    case Scribble(left) => w.(files := w.files.(tmp := left))
    case Fail => w.(phase := Idle)
  }

  /** The success of the operation that follows `stage`. */
  function Advanced(w: World, stage: Stage, job: Job): World
    requires job.ref in w.tags
  {
    match stage
    case Resolved => w.(phase := Busy(Fetched, job.(spec := Current(w.tags, job.ref))))
    case Fetched => w.(phase := Busy(Pulled, job.(content := Current(w.tags, job.ref))))
    case Pulled => Logged(w, Validated, job)
    case Validated => Logged(w, PreHooked, job)
    case PreHooked => w.(phase := Busy(Applying, job), targets := w.targets[job.ref := Broken(job.resolved)])
    case Applying =>
      Logged(w, Applied, job).(targets := w.targets[job.ref := Exact(job.resolved, job.spec, job.content)])
    case Applied => Logged(w, Healthy, job)
    case Healthy => w
    case Remembered => w.(phase := Busy(Written, job), files := w.files.(tmp := Document(w.memory)))
    case Written => w.(phase := Idle, files := Files(w.files.tmp, Absent))
  }

  function Logged(w: World, stage: Stage, job: Job): World {
    w.(phase := Busy(stage, job), log := w.log + [Event(stage, job)])
  }

  function Exec(w: World, steps: seq<Step>): World
    decreases |steps|
  {
    if steps == [] then w else Exec(Do(w, steps[0]), steps[1..])
  }

  predicate Legal(dryRun: bool, w: World, steps: seq<Step>)
    decreases |steps|
  {
    steps == [] || (Enabled(dryRun, w, steps[0]) && Legal(dryRun, Do(w, steps[0]), steps[1..]))
  }

  lemma {:induction false} ExecConcat(dryRun: bool, w: World, a: seq<Step>, b: seq<Step>)
    ensures Exec(w, a + b) == Exec(Exec(w, a), b)
    ensures Legal(dryRun, w, a + b) <==> Legal(dryRun, w, a) && Legal(dryRun, Exec(w, a), b)
    decreases |a|
  {
    if a == [] {
      assert a + b == b;
    } else {
      assert (a + b)[1..] == a[1..] + b;
      ExecConcat(dryRun, Do(w, a[0]), a[1..], b);
    }
  }

  // ---- recorded digest and deployed content ----

  function OnDisk(w: World): Entries {
    if Load(w.files.file).Ok? then Load(w.files.file).value else map[]
  }

  function History(tags: Tags, ref: Ref): seq<Digest> {
    if ref in tags then tags[ref] else []
  }

  /** The digest `d` is on record for `ref`. */
  predicate Holds(entries: Entries, ref: Ref, d: Digest) {
    ref in entries && entries[ref].digest == d
  }

  /** On disk, or in the memory of a running process. */
  predicate OnRecord(w: World, ref: Ref, d: Digest) {
    Holds(OnDisk(w), ref, d) || (!w.phase.Down? && Holds(w.memory, ref, d))
  }

  predicate Deploying(stage: Stage) {
    stage.Resolved? || stage.Fetched? || stage.Pulled? || stage.Validated? || stage.PreHooked? || stage.Applying? ||
    stage.Applied? || stage.Healthy?
  }

  /** What holds of a running job for `ref` if its tag, once at `d`, stays there. */
  predicate JobHonest(w: World, stage: Stage, job: Job, d: Digest) {
    && (job.resolved == d && !stage.Resolved? ==> job.spec == d)
    && (job.resolved == d && !stage.Resolved? && !stage.Fetched? ==> job.content == d)
    && (if Deploying(stage) then !Holds(w.memory, job.ref, d) else Holds(w.memory, job.ref, job.resolved))
    && (stage in {Applied, Healthy, Remembered, Written} ==>
          TargetOf(w.targets, job.ref) == Exact(job.resolved, job.spec, job.content))
  }

  /** The tag of `ref` stays at `d` once there, and until then `d` is nowhere. */
  predicate Settles(w: World, ref: Ref, d: Digest) {
    var h := History(w.tags, ref);
    if d in h then h[|h| - 1] == d
    else !OnRecord(w, ref, d) && (w.phase.Busy? && w.phase.job.ref == ref ==> w.phase.job.resolved != d)
  }

  /** The inductive invariant: a record of `d` describes the target, and no job is about to change it. */
  predicate Honest(w: World, ref: Ref, d: Digest) {
    && Settles(w, ref, d)
    && (OnRecord(w, ref, d) ==> TargetOf(w.targets, ref) == Exact(d, d, d))
    && (!w.phase.Down? && Holds(OnDisk(w), ref, d) ==> Holds(w.memory, ref, d))
    && (w.phase.Busy? && w.phase.job.ref == ref ==> JobHonest(w, w.phase.stage, w.phase.job, d))
    && (w.phase.Busy? && w.phase.stage.Written? ==> w.files.tmp == Document(w.memory))
  }

  /** The tag did not come back to the digest that it points to now. */
  predicate NeverReturns(h: seq<Digest>) {
    forall i, j :: 0 <= i < j < |h| && h[i] == h[|h| - 1] ==> h[j] == h[i]
  }

  lemma PrefixStaysAt(h: seq<Digest>, final: seq<Digest>, d: Digest)
    requires h <= final && NeverReturns(final) && d in h && final[|final| - 1] == d
    ensures h[|h| - 1] == d
  {
    var i :| 0 <= i < |h| && h[i] == d;
    assert final[i] == d && final[|h| - 1] == h[|h| - 1];
  }

  lemma MoveKeepsHonest(w: World, tags: Tags, final: seq<Digest>, ref: Ref, d: Digest)
    requires Honest(w, ref, d) && Extends(w.tags, tags)
    requires final != [] && NeverReturns(final) && final[|final| - 1] == d && History(tags, ref) <= final
    ensures Honest(w.(tags := tags), ref, d)
  {
    assert History(w.tags, ref) <= History(tags, ref);
    if d in History(tags, ref) { PrefixStaysAt(History(tags, ref), final, d); }
  }

  lemma AdvanceKeepsHonest(w: World, stage: Stage, job: Job, ref: Ref, d: Digest)
    requires Honest(w, ref, d) && w.phase == Busy(stage, job) && job.ref in w.tags
    ensures Honest(Advanced(w, stage, job), ref, d)
  {
  }

  lemma StepKeepsHonest(dryRun: bool, w: World, s: Step, final: seq<Digest>, ref: Ref, d: Digest)
    requires Honest(w, ref, d) && Enabled(dryRun, w, s)
    requires final != [] && NeverReturns(final) && final[|final| - 1] == d && History(Do(w, s).tags, ref) <= final
    ensures Honest(Do(w, s), ref, d)
  {
    match s {
      case Move(tags) => MoveKeepsHonest(w, tags, final, ref, d);
      case Advance => AdvanceKeepsHonest(w, w.phase.stage, w.phase.job, ref, d);
      case _ =>
    }
  }

  lemma {:induction false} TagsOnlyGrow(dryRun: bool, w: World, steps: seq<Step>)
    requires Legal(dryRun, w, steps)
    ensures Extends(w.tags, Exec(w, steps).tags)
    decreases |steps|
  {
    if steps != [] {
      var next := Do(w, steps[0]);
      TagsOnlyGrow(dryRun, next, steps[1..]);
      ExtendsTransitive(w.tags, next.tags, Exec(w, steps).tags);
    }
  }

  lemma ExtendsTransitive(a: Tags, b: Tags, c: Tags)
    requires Extends(a, b) && Extends(b, c)
    ensures Extends(a, c)
  {
  }

  lemma {:induction false} RunKeepsHonest(dryRun: bool, w: World, steps: seq<Step>, ref: Ref, d: Digest)
    requires Honest(w, ref, d) && Legal(dryRun, w, steps)
    requires var final := History(Exec(w, steps).tags, ref);
             final != [] && NeverReturns(final) && final[|final| - 1] == d
    ensures Honest(Exec(w, steps), ref, d)
    decreases |steps|
  {
    if steps != [] {
      var next := Do(w, steps[0]);
      TagsOnlyGrow(dryRun, next, steps[1..]);
      StepKeepsHonest(dryRun, w, steps[0], History(Exec(w, steps).tags, ref), ref, d);
      RunKeepsHonest(dryRun, next, steps[1..], ref, d);
    }
  }

  /** If the digest on record for `ref` is the current one, the target holds exactly its deploy. */
  predicate RecordTells(w: World, ref: Ref) {
    ref in w.tags &&
    var d := Current(w.tags, ref);
    OnRecord(w, ref, d) ==> TargetOf(w.targets, ref) == Exact(d, d, d)
  }

  /** A daemon not yet started, with nothing on record. */
  predicate Pristine(w: World) {
    w.phase.Down? && OnDisk(w) == map[]
  }

  /** A daemon not yet started, whose record for `ref`, if any, is a true one. */
  predicate Grounded(w: World, ref: Ref) {
    w.phase.Down? && (ref in OnDisk(w) ==> OnDisk(w)[ref].digest in History(w.tags, ref) && RecordTells(w, ref))
  }

  /**
    At every moment of every run, crashes, failures and tag moves included: if the tag of a
    reference has not come back to the digest it points to now, and that digest is on record, on
    disk or in the memory of the running process, then the target holds exactly what deploying
    it, with its own annotations and content, produced. That holds although the three requests
    of a cycle may each see a different digest.
   */
  lemma {:induction false} RecordMatchesTarget(dryRun: bool, w: World, steps: seq<Step>, ref: Ref)
    requires Grounded(w, ref) && Legal(dryRun, w, steps)
    requires var final := History(Exec(w, steps).tags, ref);
             final != [] && NeverReturns(final)
    ensures RecordTells(Exec(w, steps), ref)
  {
    var final := History(Exec(w, steps).tags, ref);
    var d := final[|final| - 1];
    TagsOnlyGrow(dryRun, w, steps);
    var h := History(w.tags, ref);
    assert h <= final;
    if d in h { PrefixStaysAt(h, final, d); }
    RunKeepsHonest(dryRun, w, steps, ref, d);
  }

  lemma {:induction false} FirstStep(dryRun: bool, w: World, s: Step, rest: seq<Step>)
    ensures Exec(w, [s] + rest) == Exec(Do(w, s), rest)
    ensures Legal(dryRun, w, [s] + rest) <==> Enabled(dryRun, w, s) && Legal(dryRun, Do(w, s), rest)
  {
    assert ([s] + rest)[1..] == rest;
  }

  const THREE: seq<Step> := [Advance, Advance, Advance]

  lemma {:induction false} ThreeAdvances(dryRun: bool, w: World)
    ensures Exec(w, THREE) == Do(Do(Do(w, Advance), Advance), Advance)
    ensures Legal(dryRun, w, THREE) <==>
              Enabled(dryRun, w, Advance) && Enabled(dryRun, Do(w, Advance), Advance) &&
              Enabled(dryRun, Do(Do(w, Advance), Advance), Advance)
  {
    var two: seq<Step>, one: seq<Step> := [Advance, Advance], [Advance];
    assert THREE == [Advance] + two && two == [Advance] + one && one == [Advance] + [];
    FirstStep(dryRun, w, Advance, two);
    FirstStep(dryRun, Do(w, Advance), Advance, one);
    FirstStep(dryRun, Do(Do(w, Advance), Advance), Advance, []);
  }

  /** The four log entries of a deploy, in the order in which the pipeline makes them. */
  function DeployLog(job: Job): seq<Event> {
    [Event(Validated, job), Event(PreHooked, job), Event(Applied, job), Event(Healthy, job)]
  }

  /** An undisturbed cycle for a changed digest, up to the moment before the strategy starts. */
  lemma {:induction false} UpToPreHook(w: World, ref: Ref)
    requires Enabled(false, w, Resolve(ref))
    ensures var d := Current(w.tags, ref);
            var job := Job(ref, d, d, d);
            && Legal(false, w, [Resolve(ref)] + (THREE + [Advance]))
            && Exec(w, [Resolve(ref)] + (THREE + [Advance])) ==
               w.(phase := Busy(PreHooked, job), log := w.log + [Event(Validated, job), Event(PreHooked, job)])
  {
    var w1 := Do(w, Resolve(ref));
    FirstStep(false, w, Resolve(ref), THREE + [Advance]);
    ThreeAdvances(false, w1);
    var w2 := Exec(w1, THREE);
    ExecConcat(false, w1, THREE, [Advance]);
    FirstStep(false, w2, Advance, []);
    assert [Advance] + [] == [Advance];
    var d := Current(w.tags, ref);
    var job := Job(ref, d, d, d);
    assert w2 == w.(phase := Busy(Validated, job), log := w.log + [Event(Validated, job)]);
    assert w.log + [Event(Validated, job)] + [Event(PreHooked, job)]
      == w.log + [Event(Validated, job), Event(PreHooked, job)];
  }

  function SaveSteps(at: int, kind: Kind): seq<Step> {
    [Remember(at, kind)] + ([Advance] + [Advance])
  }

  lemma {:induction false} SavesRecord(w: World, job: Job, at: int, kind: Kind)
    requires w.phase == Busy(Healthy, job) && job.ref in w.tags
    ensures var memory := w.memory[job.ref := Entry(job.resolved, at, kind)];
            && Legal(false, w, SaveSteps(at, kind))
            && Exec(w, SaveSteps(at, kind))
               == w.(memory := memory, files := Files(Document(memory), Absent), phase := Idle)
  {
    var w2 := Do(w, Remember(at, kind));
    FirstStep(false, w, Remember(at, kind), [Advance] + [Advance]);
    FirstStep(false, w2, Advance, [Advance]);
    FirstStep(false, Do(w2, Advance), Advance, []);
    assert [Advance] + [] == [Advance];
  }

  lemma {:induction false} DeploysHealthily(w: World, job: Job)
    requires w.phase == Busy(PreHooked, job) && job.ref in w.tags
    ensures Legal(false, w, THREE)
    ensures Exec(w, THREE) == w.(phase := Busy(Healthy, job), log := w.log + [Event(Applied, job), Event(Healthy, job)],
                                 targets := w.targets[job.ref := Exact(job.resolved, job.spec, job.content)])
  {
    ThreeAdvances(false, w);
    assert w.targets[job.ref := Broken(job.resolved)][job.ref := Exact(job.resolved, job.spec, job.content)]
        == w.targets[job.ref := Exact(job.resolved, job.spec, job.content)];
    assert w.log + [Event(Applied, job)] + [Event(Healthy, job)] == w.log + [Event(Applied, job), Event(Healthy, job)];
  }

  function CycleSteps(ref: Ref, at: int, kind: Kind): seq<Step> {
    ([Resolve(ref)] + (THREE + [Advance])) + (THREE + SaveSteps(at, kind))
  }

  /** A cycle that nothing disturbs deploys the current digest and puts it on record. */
  lemma {:induction false} UndisturbedCycle(w: World, ref: Ref, at: int, kind: Kind)
    requires Enabled(false, w, Resolve(ref))
    ensures var d := Current(w.tags, ref);
            var memory := w.memory[ref := Entry(d, at, kind)];
            && Legal(false, w, CycleSteps(ref, at, kind))
            && Exec(w, CycleSteps(ref, at, kind)) ==
               World(w.tags, memory, Files(Document(memory), Absent), w.targets[ref := Exact(d, d, d)], Idle,
                     w.log + DeployLog(Job(ref, d, d, d)))
  {
    var d := Current(w.tags, ref);
    var job := Job(ref, d, d, d);
    var begin, end := [Resolve(ref)] + (THREE + [Advance]), THREE + SaveSteps(at, kind);
    UpToPreHook(w, ref);
    var w1 := Exec(w, begin);
    ExecConcat(false, w, begin, end);
    DeploysHealthily(w1, job);
    ExecConcat(false, w1, THREE, SaveSteps(at, kind));
    SavesRecord(Exec(w1, THREE), job, at, kind);
    assert w.log + [Event(Validated, job), Event(PreHooked, job)] + [Event(Applied, job), Event(Healthy, job)]
        == w.log + DeployLog(job);
  }

  /** A second digest is resolved and its deploy breaks off; then the tag moves on to `back`. */
  function BrokenSteps(ref: Ref, away: Tags, back: Tags): seq<Step> {
    [Move(away)] + ([Resolve(ref)] + (THREE + [Advance]) + ([Advance] + ([Fail] + [Move(back)])))
  }

  lemma {:induction false} BrokenCycle(w: World, ref: Ref, away: Tags, back: Tags)
    requires w.phase == Idle && Extends(w.tags, away) && Extends(away, back)
    requires ref in away && away[ref] != [] && Current(away, ref) != Recorded(w.memory, ref)
    ensures var steps := BrokenSteps(ref, away, back);
            && Legal(false, w, steps)
            && var e := Exec(w, steps);
            && e.phase == Idle && e.tags == back
            && e.memory == w.memory && TargetOf(e.targets, ref) == Broken(Current(away, ref))
  {
    var begin := [Resolve(ref)] + (THREE + [Advance]);
    var end := [Advance] + ([Fail] + [Move(back)]);
    var moved := Do(w, Move(away));
    FirstStep(false, w, Move(away), begin + end);
    UpToPreHook(moved, ref);
    ExecConcat(false, moved, begin, end);
    var hooked := Exec(moved, begin);
    FirstStep(false, hooked, Advance, [Fail] + [Move(back)]);
    FirstStep(false, Do(hooked, Advance), Fail, [Move(back)]);
    FirstStep(false, Do(Do(hooked, Advance), Fail), Move(back), []);
    assert [Move(back)] + [] == [Move(back)];
  }

  /**
    Without that hypothesis it fails: a deploy of another digest breaks off, and the tag moves
    back to a digest that is on record. The daemon sees no change over a broken target.
   */
  lemma TagMovedBack(ref: Ref, h: seq<Digest>, i: nat, j: nat)
    requires i < j < |h| && h[i] == h[|h| - 1] != h[j] && h[i] != ""
    ensures exists w, steps ::
              Pristine(w) && Legal(false, w, steps) && Exec(w, steps).tags == map[ref := h]
                && !RecordTells(Exec(w, steps), ref)
  {
    var first, away, back := map[ref := h[..i + 1]], map[ref := h[..j + 1]], map[ref := h];
    var w := World(first, map[], Files(Absent, Absent), map[], Down, []);
    var up := Do(w, Start);
    assert up == w.(phase := Idle);
    var deploy := CycleSteps(ref, 0, Jar);
    UndisturbedCycle(up, ref, 0, Jar);
    FirstStep(false, w, Start, deploy);
    var settled := Exec(up, deploy);
    assert Current(away, ref) == h[j] && Current(first, ref) == h[i];
    BrokenCycle(settled, ref, away, back);
    var steps := [Start] + deploy + BrokenSteps(ref, away, back);
    ExecConcat(false, w, [Start] + deploy, BrokenSteps(ref, away, back));
    var e := Exec(w, steps);
    assert Holds(e.memory, ref, h[i]) && Current(e.tags, ref) == h[i];
    assert Pristine(w) && Legal(false, w, steps) && e.tags == map[ref := h] && !RecordTells(e, ref);
  }

  /**
    So for a tag with a given history, the record can be relied on in all runs if and only if
    the tag has not come back to the digest it points to now.
   */
  lemma RecordsTellIff(ref: Ref, h: seq<Digest>)
    requires h != [] && h[|h| - 1] != ""
    ensures NeverReturns(h) <==>
              forall dryRun, w, steps ::
                Grounded(w, ref) && Legal(dryRun, w, steps) && History(Exec(w, steps).tags, ref) == h ==>
                  RecordTells(Exec(w, steps), ref)
  {
    if NeverReturns(h) {
      forall dryRun, w, steps | Grounded(w, ref) && Legal(dryRun, w, steps) && History(Exec(w, steps).tags, ref) == h
        ensures RecordTells(Exec(w, steps), ref)
      {
        RecordMatchesTarget(dryRun, w, steps, ref);
      }
    } else {
      var i, j :| 0 <= i < j < |h| && h[i] == h[|h| - 1] && h[j] != h[i];
      TagMovedBack(ref, h, i, j);
    }
  }

  // ---- only successes are recorded ----

  /** How many of a job's log entries exist at a stage. */
  function LoggedAt(stage: Stage): nat {
    match stage
    case Resolved => 0
    case Fetched => 0
    case Pulled => 0
    case Validated => 1
    case PreHooked => 2
    case Applying => 2
    case Applied => 3
    case _ => 4
  }

  /** The log ends with the first `n` entries of the job's deploy. */
  predicate EndsWith(log: seq<Event>, job: Job, n: nat)
    requires n <= 4
  {
    |log| >= n && log[|log| - n..] == DeployLog(job)[..n]
  }

  /** A whole deploy of the digest is in the log, its four entries in order and without a gap. */
  ghost predicate Earned(log: seq<Event>, ref: Ref, d: Digest) {
    exists k: nat, job: Job :: EarnedAt(log, ref, d, k, job)
  }

  predicate EarnedAt(log: seq<Event>, ref: Ref, d: Digest, k: nat, job: Job) {
    k + 4 <= |log| && job.ref == ref && job.resolved == d && log[k..k + 4] == DeployLog(job)
  }

  /** Every entry was earned, or was there already in `first`. */
  ghost predicate AllEarned(first: Entries, log: seq<Event>, entries: Entries) {
    forall ref :: ref in entries ==>
      Holds(first, ref, entries[ref].digest) || Earned(log, ref, entries[ref].digest)
  }

  ghost predicate Justified(first: Entries, w: World) {
    && AllEarned(first, w.log, OnDisk(w))
    && (!w.phase.Down? ==> AllEarned(first, w.log, w.memory))
    && (w.phase.Busy? ==> EndsWith(w.log, w.phase.job, LoggedAt(w.phase.stage)))
    && (w.phase.Busy? && w.phase.stage.Written? ==> w.files.tmp == Document(w.memory))
  }

  lemma EarnedStays(first: Entries, log: seq<Event>, more: seq<Event>, entries: Entries)
    requires log <= more
    ensures AllEarned(first, log, entries) ==> AllEarned(first, more, entries)
  {
    if AllEarned(first, log, entries) {
      forall ref | ref in entries && !Holds(first, ref, entries[ref].digest)
        ensures Earned(more, ref, entries[ref].digest)
      {
        var d := entries[ref].digest;
        var k: nat, job: Job :| EarnedAt(log, ref, d, k, job);
        assert more[k..k + 4] == log[k..k + 4];
        assert EarnedAt(more, ref, d, k, job);
      }
    }
  }

  lemma LogGrows(log: seq<Event>, job: Job, n: nat)
    requires n < 4 && EndsWith(log, job, n)
    ensures EndsWith(log + [DeployLog(job)[n]], job, n + 1) && log <= log + [DeployLog(job)[n]]
  {
    var grown := log + [DeployLog(job)[n]];
    assert grown[|grown| - (n + 1)..] == log[|log| - n..] + [DeployLog(job)[n]];
    assert DeployLog(job)[..n + 1] == DeployLog(job)[..n] + [DeployLog(job)[n]];
  }

  lemma LoggedEndsWith(w: World, stage: Stage, job: Job, n: nat)
    requires n < 4 && EndsWith(w.log, job, n) && DeployLog(job)[n] == Event(stage, job)
    ensures EndsWith(Logged(w, stage, job).log, job, n + 1) && w.log <= Logged(w, stage, job).log
  {
    LogGrows(w.log, job, n);
  }

  lemma EndsWithNothing(log: seq<Event>, job: Job)
    ensures EndsWith(log, job, 0)
  {
  }

  predicate Logs(stage: Stage) {
    stage.Pulled? || stage.Validated? || stage.Applying? || stage.Applied?
  }

  /** The log is extended, and it still ends with what the job has logged so far. */
  ghost predicate LogExtended(w: World, next: World) {
    w.log <= next.log && (next.phase.Busy? ==> EndsWith(next.log, next.phase.job, LoggedAt(next.phase.stage)))
  }

  function NextLogged(stage: Stage): Stage
    requires Logs(stage)
  {
    if stage.Pulled? then Validated
    else if stage.Validated? then PreHooked
    else if stage.Applying? then Applied
    else Healthy
  }

  lemma AdvanceLogs(w: World, stage: Stage, job: Job)
    requires job.ref in w.tags && Logs(stage)
    ensures var next, reached := Advanced(w, stage, job), NextLogged(stage);
            && next.phase == Busy(reached, job) && next.log == Logged(w, reached, job).log
            && LoggedAt(reached) == LoggedAt(stage) + 1 && DeployLog(job)[LoggedAt(stage)] == Event(reached, job)
  {
  }

  lemma LoggingStep(w: World, next: World, reached: Stage, job: Job, n: nat)
    requires n < 4 && EndsWith(w.log, job, n) && LoggedAt(reached) == n + 1 && DeployLog(job)[n] == Event(reached, job)
    requires next.phase == Busy(reached, job) && next.log == Logged(w, reached, job).log
    ensures LogExtended(w, next)
  {
    LoggedEndsWith(w, reached, job, n);
  }

  lemma SilentStep(w: World, stage: Stage, job: Job)
    requires EndsWith(w.log, job, LoggedAt(stage)) && job.ref in w.tags && !Logs(stage) && w.phase == Busy(stage, job)
    ensures LogExtended(w, Advanced(w, stage, job))
  {
    var next := Advanced(w, stage, job);
    assert next.log == w.log;
    if stage in {Resolved, Fetched} { EndsWithNothing(w.log, next.phase.job); }
  }

  lemma AdvanceExtendsLog(w: World, stage: Stage, job: Job)
    requires EndsWith(w.log, job, LoggedAt(stage)) && job.ref in w.tags && w.phase == Busy(stage, job)
    ensures LogExtended(w, Advanced(w, stage, job))
  {
    if Logs(stage) {
      AdvanceLogs(w, stage, job);
      LoggingStep(w, Advanced(w, stage, job), NextLogged(stage), job, LoggedAt(stage));
    } else {
      SilentStep(w, stage, job);
    }
  }

  /** The memory stays, the disk takes it over at most, and what was written aside is the memory. */
  predicate FilesFollow(w: World, next: World) {
    && !next.phase.Down? && next.memory == w.memory && (OnDisk(next) == OnDisk(w) || OnDisk(next) == w.memory)
    && (next.phase.Busy? && next.phase.stage.Written? ==> next.files.tmp == Document(next.memory))
  }

  lemma AdvanceKeepsFiles(w: World, stage: Stage, job: Job)
    requires w.phase == Busy(stage, job) && job.ref in w.tags
    requires stage.Written? ==> w.files.tmp == Document(w.memory)
    ensures FilesFollow(w, Advanced(w, stage, job))
  {
  }

  lemma ExtensionKeepsJustified(first: Entries, w: World, next: World)
    requires Justified(first, w) && !w.phase.Down? && LogExtended(w, next) && FilesFollow(w, next)
    ensures Justified(first, next)
  {
    EarnedStays(first, w.log, next.log, OnDisk(w));
    EarnedStays(first, w.log, next.log, w.memory);
  }

  lemma AdvanceKeepsJustified(first: Entries, w: World, stage: Stage, job: Job)
    requires Justified(first, w) && w.phase == Busy(stage, job) && job.ref in w.tags
    ensures Justified(first, Advanced(w, stage, job))
  {
    AdvanceExtendsLog(w, stage, job);
    AdvanceKeepsFiles(w, stage, job);
    ExtensionKeepsJustified(first, w, Advanced(w, stage, job));
  }

  lemma RememberKeepsJustified(first: Entries, w: World, job: Job, at: int, kind: Kind)
    requires Justified(first, w) && w.phase == Busy(Healthy, job)
    ensures Justified(first, Do(w, Remember(at, kind)))
  {
    var k := |w.log| - 4;
    assert w.log[k..k + 4] == w.log[k..] && DeployLog(job)[..4] == DeployLog(job);
    assert EarnedAt(w.log, job.ref, job.resolved, k, job);
  }

  lemma StepKeepsJustified(first: Entries, dryRun: bool, w: World, s: Step)
    requires Justified(first, w) && Enabled(dryRun, w, s)
    ensures Justified(first, Do(w, s))
  {
    match s {
      case Advance => AdvanceKeepsJustified(first, w, w.phase.stage, w.phase.job);
      case Remember(at, kind) => RememberKeepsJustified(first, w, w.phase.job, at, kind);
      case Resolve(ref) => EndsWithNothing(w.log, Do(w, s).phase.job);
      case _ =>
    }
  }

  lemma {:induction false} RunKeepsJustified(first: Entries, dryRun: bool, w: World, steps: seq<Step>)
    requires Justified(first, w) && Legal(dryRun, w, steps)
    ensures Justified(first, Exec(w, steps))
    decreases |steps|
  {
    if steps != [] {
      StepKeepsJustified(first, dryRun, w, steps[0]);
      RunKeepsJustified(first, dryRun, Do(w, steps[0]), steps[1..]);
    }
  }

  /**
    In every run, whatever is on record, in memory or on disk, was on disk when the run began, or
    is there because one cycle validated the request, ran the pre-hook, completed the strategy
    and passed the health check for that digest, in that order and without a break.
   */
  lemma {:induction false} OnlySuccessesAreRecorded(dryRun: bool, w: World, steps: seq<Step>, ref: Ref, d: Digest)
    requires w.phase.Down? && Legal(dryRun, w, steps)
    ensures OnRecord(Exec(w, steps), ref, d) ==> Holds(OnDisk(w), ref, d) || Earned(Exec(w, steps).log, ref, d)
  {
    RunKeepsJustified(OnDisk(w), dryRun, w, steps);
  }

  /**
    A step changes at most the target of the running job, and only once its request has been
    validated and its pre-hook has run; the file changes only after the whole deploy.
   */
  lemma {:induction false} EffectsComeAfterChecks(dryRun: bool, w: World, steps: seq<Step>, s: Step, ref: Ref)
    requires w.phase.Down? && Legal(dryRun, w, steps) && Enabled(dryRun, Exec(w, steps), s)
    ensures var e := Exec(w, steps);
            var next := Do(e, s);
            && (TargetOf(next.targets, ref) != TargetOf(e.targets, ref) ==>
                  e.phase.Busy? && e.phase.job.ref == ref && EndsWith(e.log, e.phase.job, 2))
            && (next.files.file != e.files.file ==>
                  e.phase.Busy? && EndsWith(e.log, e.phase.job, 4) && next.files.file == Document(e.memory))
  {
    RunKeepsJustified(OnDisk(w), dryRun, w, steps);
  }

  /** A dry run changes neither targets nor files, and knows only what the disk knew. */
  lemma {:induction false} DryRunChangesNothing(w: World, steps: seq<Step>)
    requires w.phase.Down? && Legal(true, w, steps)
    ensures var e := Exec(w, steps);
            && e.targets == w.targets && e.files == w.files && e.log == w.log
            && (!e.phase.Down? ==> Load(w.files.file) == Ok(e.memory))
  {
    DryRunFrom(w, steps);
  }

  /** A dry run's process only looks. */
  predicate Looking(w: World) {
    && (!w.phase.Down? ==> Load(w.files.file) == Ok(w.memory))
    && (w.phase.Busy? ==> w.phase.stage in {Resolved, Fetched})
  }

  lemma {:induction false} DryRunFrom(w: World, steps: seq<Step>)
    requires Looking(w) && Legal(true, w, steps)
    ensures var e := Exec(w, steps);
            Looking(e) && e.targets == w.targets && e.files == w.files && e.log == w.log
    decreases |steps|
  {
    if steps != [] { DryRunFrom(Do(w, steps[0]), steps[1..]); }
  }

  // ---- the disk follows the memory ----

  /** The state file is as it was at the start, or holds a map that was in memory during the run. */
  lemma {:induction false} DiskIsAnEarlierMemory(dryRun: bool, w: World, steps: seq<Step>)
    requires w.phase.Down? && Legal(dryRun, w, steps)
    ensures var e := Exec(w, steps);
            || e.files.file == w.files.file
            || exists n: nat ::
                 && n <= |steps|
                 && !Exec(w, steps[..n]).phase.Down?
                 && e.files.file == Document(Exec(w, steps[..n]).memory)
    decreases |steps|
  {
    if steps != [] {
      var m := |steps| - 1;
      var front, last := steps[..m], steps[m];
      assert steps == front + [last];
      ExecConcat(dryRun, w, front, [last]);
      FirstStep(dryRun, Exec(w, front), last, []);
      assert [last] + [] == [last];
      DiskIsAnEarlierMemory(dryRun, w, front);
      EffectsComeAfterChecks(dryRun, w, front, last, "");
      forall n: nat | n <= m ensures front[..n] == steps[..n] {}
      assert steps[..m] == front;
    }
  }
}
