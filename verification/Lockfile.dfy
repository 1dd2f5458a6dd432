/**
  The PID lock file. `Acquire` and `Release` change the file at the lock path; the second half
  is the machine in which whole calls are atomic while processes start, die and reuse PIDs.
 */
module Lockfile {
  import opened Results
  import opened Text

  // ---- process ids as text ----

  const MAX_INT64: int := 0x7FFF_FFFF_FFFF_FFFF

  predicate IsDigit(c: char) {
    '0' <= c <= '9'
  }

  function DigitChar(d: nat): (c: char)
    requires d < 10
    ensures IsDigit(c)
  {
    ('0' as int + d) as char
  }

  /** `%d` of a process id. */
  function Decimal(n: nat): (s: string)
    ensures s != "" && forall i :: 0 <= i < |s| ==> IsDigit(s[i])
  {
    if n < 10 then [DigitChar(n)] else Decimal(n / 10) + [DigitChar(n % 10)]
  }

  /** The number that a row of digits stands for. */
  function Digits(s: string): Option<nat> {
    if s == "" then Some(0)
    else if !IsDigit(s[|s| - 1]) then None
    else match Digits(s[..|s| - 1])
         case None => None
         case Some(n) => Some(10 * n + (s[|s| - 1] as int - '0' as int))
  }

  /** `strconv.Atoi`: an optional sign, then digits, within 64 bits. */
  function Atoi(s: string): Option<int> {
    if s != "" && s[0] == '-' then
      (match UpTo(s[1..], MAX_INT64 + 1)
       case None => None
       case Some(n) => Some(0 - n))
    else if s != "" && s[0] == '+' then UpTo(s[1..], MAX_INT64)
    else UpTo(s, MAX_INT64)
  }

  function UpTo(digits: string, max: int): Option<int> {
    if digits == "" then None
    else match Digits(digits)
         case None => None
         case Some(n) => if n <= max then Some(n) else None
  }

  lemma {:induction false} DigitsOfDecimal(n: nat)
    ensures Digits(Decimal(n)) == Some(n)
  {
    if n < 10 {
      assert Decimal(n)[..0] == "";
    } else {
      DigitsOfDecimal(n / 10);
      assert Decimal(n)[..|Decimal(n)| - 1] == Decimal(n / 10);
    }
  }

  /** A process id that was written is read back. */
  lemma {:induction false} PidRoundTrip(n: nat)
    requires n <= MAX_INT64
    ensures Named(Decimal(n)) == Some(n)
  {
    DigitsOfDecimal(n);
    DigitsAreNumber(Decimal(n), n);
  }

  lemma {:induction false} DigitsAreNumber(s: string, n: nat)
    requires s != "" && (forall i :: 0 <= i < |s| ==> IsDigit(s[i])) && Digits(s) == Some(n) && n <= MAX_INT64
    ensures Named(s) == Some(n)
  {
    TrimDigits(s);
    AtoiOfDigits(s, n);
  }

  lemma {:induction false} AtoiOfDigits(s: string, n: nat)
    requires s != "" && s[0] != '-' && s[0] != '+' && Digits(s) == Some(n) && n <= MAX_INT64
    ensures Atoi(s) == Some(n)
  {
    assert UpTo(s, MAX_INT64) == Some(n);
  }

  lemma TrimDigits(s: string)
    requires s != "" && forall i :: 0 <= i < |s| ==> IsDigit(s[i])
    ensures TrimSpace(s) == s && s[0] != '-' && s[0] != '+'
  {
    assert IsDigit(s[0]) && IsDigit(s[|s| - 1]);
    TrimSpaceFixed(s);
  }

  // ---- the two operations ----

  /** The process that the content of a lock file names, if it names one. */
  function Named(content: string): Option<int> {
    Atoi(TrimSpace(content))
  }

  /** `isStale`, `probed` being the ids for which the caller's liveness probe succeeds. */
  predicate Stale(content: string, self: int, probed: set<int>) {
    match Named(content)
    case None => true
    case Some(pid) => pid == self || pid !in probed
  }

  datatype LockError = Held | Failed

  /** The lock path on disk. */
  class LockPath {
    var content: Option<string>
    /** Whether some file operation failed for a reason outside the file. */
    var faulted: bool

    constructor (content: Option<string>)
      ensures this.content == content && !faulted
    {
      this.content, faulted := content, false;
    }

    method Attempt() returns (ok: bool)
      modifies this`faulted
      ensures old(faulted) ==> faulted
      ensures !ok ==> faulted
    {
      ok := true;
      if * { ok, faulted := false, true; }
    }
  }

  /** What one call of `Acquire` may do to the file, as long as nothing else happens meanwhile. */
  ghost predicate AcquireEffect(before: Option<string>, after: Option<string>, self: nat, probed: set<int>,
                                r: Result<(), LockError>) {
    var free := before.None? || Stale(before.value, self, probed);
    match r
    case Ok(_) => free && after == Some(Decimal(self))
    case Err(Held) => !free && after == before
    case Err(Failed) => after == before || (free && (after.Some? ==> after.value <= Decimal(self)))
  }

  class Lock {
    const path: LockPath
    /** Whether the file is still open (`l.file != nil`). */
    var open: bool

    constructor (path: LockPath)
      ensures this.path == path && open
    {
      this.path, open := path, true;
    }

    /** Removes the file once; later calls do nothing. */
    method Release() returns (ok: bool)
      modifies this`open, path
      ensures !open && (old(path.faulted) ==> path.faulted)
      ensures !old(open) ==> ok && unchanged(path)
      ensures old(open) && ok ==> path.content == None
      ensures !ok ==> path.faulted && path.content == old(path.content)
    {
      if !open { return true; }
      open := false;
      ok := path.Attempt();
      if ok { path.content := None; }
    }
  }

  method Acquire(path: LockPath, self: nat, probed: set<int>) returns (r: Result<Lock, LockError>)
    modifies path
    ensures r.Ok? ==> fresh(r.value) && r.value.path == path && r.value.open
    ensures AcquireEffect(old(path.content), path.content, self, probed, if r.Ok? then Ok(()) else Err(r.error))
    ensures old(path.faulted) ==> path.faulted
    ensures r.Err? && r.error.Failed? ==> path.faulted
  {
    var ok := path.Attempt();
    if !ok { return Err(Failed); }
    if path.content.Some? {
      var readable := path.Attempt();
      if !readable { return Err(Failed); }
      if !Stale(path.content.value, self, probed) { return Err(Held); }
      var removed := path.Attempt();
      if !removed { return Err(Failed); }
      path.content := None;
    }
    var created := path.Attempt();
    if !created { return Err(Failed); }
    r := WritePid(path, self);
  }

  /** The file is created empty, then the id is written; a failed write removes the file again if it can. */
  method WritePid(path: LockPath, self: nat) returns (r: Result<Lock, LockError>)
    modifies path
    ensures r.Ok? ==> fresh(r.value) && r.value.path == path && r.value.open && path.content == Some(Decimal(self))
    ensures r.Err? ==> r.error.Failed? && path.faulted
    ensures r.Err? ==> path.content.None? || path.content.value <= Decimal(self)
    ensures old(path.faulted) ==> path.faulted
  {
    path.content := Some("");
    var written := path.Attempt();
    if written {
      path.content := Some(Decimal(self));
      var lock := new Lock(path);
      return Ok(lock);
    }
    var n: int := *;
    if 0 <= n <= |Decimal(self)| { path.content := Some(Decimal(self)[..n]); }
    var removed := path.Attempt();
    if removed { path.content := None; }
    r := Err(Failed);
  }

  // ---- runs with atomic calls ----

  type LockId = nat

  /** The file, the running processes, and for every lock in use the process that holds it. */
  datatype Machine = Machine(file: Option<string>, live: set<int>, locks: map<LockId, nat>)

  datatype Step =
    | Acquires(pid: nat, lock: LockId, probed: set<int>, r: Result<(), LockError>, after: Option<string>)
    | Releases(lock: LockId, removed: bool)
    | Dies(pid: nat)
    | Starts(pid: nat)

  /**
    `onePerProcess`: no process acquires while it holds a lock already. A probe never finds a
    process that is not running, but it may miss one that the caller may not signal.
   */
  ghost predicate Enabled(m: Machine, s: Step, onePerProcess: bool) {
    match s
    case Acquires(pid, lock, probed, r, after) =>
      && pid in m.live && pid <= MAX_INT64 && lock !in m.locks && probed <= m.live
      && (onePerProcess ==> pid !in m.locks.Values)
      && AcquireEffect(m.file, after, pid, probed, r)
    case Releases(lock, _) => lock in m.locks
    case Dies(pid) => pid in m.live
    case Starts(pid) => pid !in m.live
  }

  function After(m: Machine, s: Step): Machine {
    match s
    case Acquires(pid, lock, _, r, after) => Machine(after, m.live, if r.Ok? then m.locks[lock := pid] else m.locks)
    case Releases(lock, removed) => Machine(if removed then None else m.file, m.live, m.locks - {lock})
    case Dies(pid) => Machine(m.file, m.live - {pid}, map l | l in m.locks && m.locks[l] != pid :: m.locks[l])
    case Starts(pid) => m.(live := m.live + {pid})
  }

  function Exec(m: Machine, steps: seq<Step>): Machine
    decreases |steps|
  {
    if steps == [] then m else Exec(After(m, steps[0]), steps[1..])
  }

  ghost predicate Legal(m: Machine, steps: seq<Step>, onePerProcess: bool)
    decreases |steps|
  {
    steps == [] || (Enabled(m, steps[0], onePerProcess) && Legal(After(m, steps[0]), steps[1..], onePerProcess))
  }

  /** Whoever holds a lock is alive, the file names it, and nobody else holds one. */
  ghost predicate Exclusive(m: Machine) {
    && (forall l :: l in m.locks ==>
       m.locks[l] in m.live && m.locks[l] <= MAX_INT64 && m.file == Some(Decimal(m.locks[l])))
    && (forall l, l' :: l in m.locks && l' in m.locks ==> l == l')
  }

  /** The probe of these ids finds every holder of a lock. */
  predicate Sees(m: Machine, probed: set<int>) {
    forall l :: l in m.locks ==> m.locks[l] in probed
  }

  /** Whoever acquires in the run may signal the holders at that moment. */
  ghost predicate HoldersSeen(m: Machine, steps: seq<Step>)
    decreases |steps|
  {
    steps == []
    || ((steps[0].Acquires? ==> Sees(m, steps[0].probed)) && HoldersSeen(After(m, steps[0]), steps[1..]))
  }

  lemma StepKeepsExclusive(m: Machine, s: Step)
    requires Exclusive(m) && Enabled(m, s, true) && (s.Acquires? ==> Sees(m, s.probed))
    ensures Exclusive(After(m, s))
  {
    if s.Acquires? {
      forall l | l in m.locks ensures !(m.file.None? || Stale(m.file.value, s.pid, s.probed)) {
        PidRoundTrip(m.locks[l]);
        assert m.locks[l] in m.locks.Values;
      }
    }
  }

  /**
    Mutual exclusion over all runs, for processes that hold one lock at a time and may signal each
    other: at any moment at most one lock is held, by a live process, and the file names that process.
   */
  lemma {:induction false} AlwaysExclusive(m: Machine, steps: seq<Step>)
    requires Exclusive(m) && Legal(m, steps, true) && HoldersSeen(m, steps)
    ensures Exclusive(Exec(m, steps))
    decreases |steps|
  {
    if steps != [] {
      StepKeepsExclusive(m, steps[0]);
      AlwaysExclusive(After(m, steps[0]), steps[1..]);
    }
  }

  /**
    A process can take the lock from another one that holds it if and only if it may not signal
    the holder; then two processes hold it.
   */
  lemma {:induction false} OverrunIff(m: Machine, l: LockId, pid: nat, lock: LockId, probed: set<int>)
    requires Exclusive(m) && l in m.locks && m.locks[l] != pid && lock !in m.locks
    requires pid in m.live && pid <= MAX_INT64 && probed <= m.live
    ensures (exists after :: Enabled(m, Acquires(pid, lock, probed, Ok(()), after), true)) <==> m.locks[l] !in probed
    ensures forall after :: Enabled(m, Acquires(pid, lock, probed, Ok(()), after), true) ==>
              After(m, Acquires(pid, lock, probed, Ok(()), after)).locks == map[l := m.locks[l], lock := pid]
  {
    PidRoundTrip(m.locks[l]);
    assert m.locks.Keys == {l};
    if m.locks[l] !in probed { assert Enabled(m, Acquires(pid, lock, probed, Ok(()), Some(Decimal(pid))), true); }
  }

  // ---- when a call is refused ----

  /** A call by `pid` would be refused at this moment. */
  ghost predicate Refused(m: Machine, pid: nat, probed: set<int>) {
    AcquireEffect(m.file, m.file, pid, probed, Err(Held))
  }

  /**
    A run without the accidents that leave a misleading file behind: no process id is used
    twice (`born` holds those used so far), releases remove the file, and a call that fails
    leaves the file as it was or none.
   */
  ghost predicate Orderly(m: Machine, steps: seq<Step>, born: set<int>)
    decreases |steps|
  {
    steps == [] ||
    (&& (match steps[0]
         case Acquires(_, _, _, Err(Failed), after) => after == m.file || after == None
         case Releases(_, removed) => removed
         case Starts(pid) => pid !in born
         case _ => true)
     && Orderly(After(m, steps[0]), steps[1..], if steps[0].Starts? then born + {steps[0].pid} else born))
  }

  /** The file names nobody who is alive, or somebody who holds a lock; and nobody who is still to come. */
  ghost predicate Telling(m: Machine, born: set<int>) {
    && m.live <= born
    && (m.file.Some? && Named(m.file.value).Some? ==>
          var pid := Named(m.file.value).value;
          pid in born && (pid in m.live ==> exists l :: l in m.locks && m.locks[l] == pid))
  }

  lemma StepKeepsTelling(m: Machine, s: Step, born: set<int>)
    requires Exclusive(m) && Enabled(m, s, true) && Telling(m, born) && Orderly(m, [s], born)
    requires s.Acquires? ==> Sees(m, s.probed)
    ensures Telling(After(m, s), if s.Starts? then born + {s.pid} else born)
  {
    var next := After(m, s);
    if s.Acquires? && s.r.Ok? {
      PidRoundTrip(s.pid);
      assert next.locks[s.lock] == s.pid;
    } else if s.Dies? {
      if m.file.Some? && Named(m.file.value).Some? && Named(m.file.value).value in next.live {
        var l :| l in m.locks && m.locks[l] == Named(m.file.value).value;
        assert l in next.locks;
      }
    }
  }

  lemma {:induction false} OrderlyKeepsTelling(m: Machine, steps: seq<Step>, born: set<int>) returns (later: set<int>)
    requires Exclusive(m) && Telling(m, born) && Legal(m, steps, true) && Orderly(m, steps, born)
    requires HoldersSeen(m, steps)
    ensures Telling(Exec(m, steps), later)
    decreases |steps|
  {
    if steps == [] {
      later := born;
    } else {
      var s := steps[0];
      StepKeepsExclusive(m, s);
      assert [s][1..] == [];
      StepKeepsTelling(m, s, born);
      later := OrderlyKeepsTelling(After(m, s), steps[1..], if s.Starts? then born + {s.pid} else born);
    }
  }

  /**
    In an orderly run a call is refused if and only if another process, alive, holds the lock at
    that moment: the lock file neither blocks anybody without a holder nor lets anybody past one.
   */
  lemma {:induction false} RefusedIffHeld(m: Machine, steps: seq<Step>, born: set<int>, pid: nat, probed: set<int>)
    requires Exclusive(m) && Telling(m, born) && Legal(m, steps, true) && Orderly(m, steps, born)
    requires HoldersSeen(m, steps) && Sees(Exec(m, steps), probed) && probed <= Exec(m, steps).live
    ensures var e := Exec(m, steps);
            Refused(e, pid, probed) <==> exists l :: l in e.locks && e.locks[l] != pid && e.locks[l] in e.live
  {
    var e := Exec(m, steps);
    AlwaysExclusive(m, steps);
    var _ := OrderlyKeepsTelling(m, steps, born);
    if l :| l in e.locks && e.locks[l] != pid && e.locks[l] in e.live {
      PidRoundTrip(e.locks[l]);
    }
  }

  lemma {:induction false} DeadFileNeverBlocks(m: Machine, dead: nat, pid: nat, probed: set<int>)
    requires dead <= MAX_INT64 && dead !in m.live && m.file == Some(Decimal(dead)) && probed <= m.live
    ensures forall after :: !AcquireEffect(m.file, after, pid, probed, Err(Held))
    ensures AcquireEffect(m.file, Some(Decimal(pid)), pid, probed, Ok(()))
  {
    PidRoundTrip(dead);
  }

  /** With two locks in one process the guarantee is lost: the first release takes the file of the second lock. */
  lemma TwoLocksInOneProcess(p: nat, q: nat)
    requires p != q && p <= MAX_INT64 && q <= MAX_INT64
    ensures var m := Machine(None, {p, q}, map[]);
            exists steps :: Legal(m, steps, false) && Exec(m, steps).locks == map[1 := p, 2 := q]
  {
    var live := {p, q};
    var m := Machine(None, live, map[]);
    PidRoundTrip(p);
    var s0, s1 := Acquires(p, 0, live, Ok(()), Some(Decimal(p))), Acquires(p, 1, live, Ok(()), Some(Decimal(p)));
    var s2, s3 := Releases(0, true), Acquires(q, 2, live, Ok(()), Some(Decimal(q)));
    var steps := [s0, s1, s2, s3];
    var m1 := After(m, s0);
    var m2 := After(m1, s1);
    var m3 := After(m2, s2);
    assert steps[1..] == [s1, s2, s3] && [s1, s2, s3][1..] == [s2, s3] && [s2, s3][1..] == [s3] && [s3][1..] == [];
    assert Legal(m3, [s3], false) && Legal(m2, [s2, s3], false) && Legal(m1, [s1, s2, s3], false);
    assert Exec(m3, [s3]) == After(m3, s3);
    assert Exec(m, steps) == Exec(m1, [s1, s2, s3]) == Exec(m2, [s2, s3]) == Exec(m3, [s3]);
    assert Exec(m, steps).locks == map[1 := p, 2 := q];
    assert Legal(m, steps, false);
  }

  /** So it is when the second process may not signal the first, as that of another user. */
  lemma UnseenHolderIsOverrun(p: nat, q: nat)
    requires p != q && p <= MAX_INT64 && q <= MAX_INT64
    ensures var m := Machine(None, {p, q}, map[]);
            exists steps :: Legal(m, steps, true) && Exec(m, steps).locks == map[0 := p, 1 := q]
  {
    var live := {p, q};
    var m := Machine(None, live, map[]);
    PidRoundTrip(p);
    var s0, s1 := Acquires(p, 0, live, Ok(()), Some(Decimal(p))), Acquires(q, 1, {}, Ok(()), Some(Decimal(q)));
    var steps := [s0, s1];
    var m1 := After(m, s0);
    assert steps[1..] == [s1] && [s1][1..] == [];
    assert Enabled(m1, s1, true) && Legal(m1, [s1], true);
    assert Exec(m, steps) == Exec(m1, [s1]) == After(m1, s1);
    assert Exec(m, steps).locks == map[0 := p, 1 := q];
  }

  /** Nobody holds the lock, and yet a call by `pid` would be refused. */
  ghost predicate BlocksForNothing(m: Machine, pid: nat) {
    m.locks == map[] && Refused(m, pid, m.live)
  }

  /** A reused process id makes a leftover file block again although nobody holds the lock. */
  lemma ReusedPidBlocks(p: nat, q: nat)
    requires p != q && p <= MAX_INT64 && q <= MAX_INT64
    ensures var m := Machine(None, {p, q}, map[]);
            exists steps :: Legal(m, steps, true) && BlocksForNothing(Exec(m, steps), q)
  {
    var live := {p, q};
    var m := Machine(None, live, map[]);
    PidRoundTrip(p);
    var s0, s1, s2 := Acquires(p, 0, live, Ok(()), Some(Decimal(p))), Dies(p), Starts(p);
    var steps := [s0, s1, s2];
    var m1 := After(m, s0);
    var m2 := After(m1, s1);
    assert steps[1..] == [s1, s2] && [s1, s2][1..] == [s2] && [s2][1..] == [];
    assert Legal(m2, [s2], true) && Legal(m1, [s1, s2], true);
    assert Exec(m2, [s2]) == After(m2, s2);
    assert Exec(m, steps) == Exec(m1, [s1, s2]) == Exec(m2, [s2]);
    assert Exec(m, steps).locks == map[];
  }

  /** A release that could not remove the file makes it block while its process lives on. */
  lemma FailedReleaseBlocks(p: nat, q: nat)
    requires p != q && p <= MAX_INT64 && q <= MAX_INT64
    ensures var m := Machine(None, {p, q}, map[]);
            exists steps :: Legal(m, steps, true) && BlocksForNothing(Exec(m, steps), q)
  {
    var live := {p, q};
    var m := Machine(None, live, map[]);
    PidRoundTrip(p);
    var s0, s1 := Acquires(p, 0, live, Ok(()), Some(Decimal(p))), Releases(0, false);
    var steps := [s0, s1];
    var m1 := After(m, s0);
    assert steps[1..] == [s1] && [s1][1..] == [];
    assert Legal(m1, [s1], true);
    assert Exec(m, steps) == Exec(m1, [s1]) == After(m1, s1);
    assert Exec(m, steps).locks == map[];
  }

  lemma {:induction false} OneStep(m: Machine, s: Step)
    ensures Exec(m, [s]) == After(m, s)
    ensures Legal(m, [s], true) <==> Enabled(m, s, true)
  {
    assert [s][1..] == [];
  }

  /** So does an id that was cut off while it was written, when what is left names another process. */
  lemma {:induction false} TornIdBlocks(p: nat, torn: nat, q: nat)
    requires p <= MAX_INT64 && torn <= MAX_INT64 && q <= MAX_INT64 && q != p && q != torn && Decimal(torn) <= Decimal(p)
    ensures var m := Machine(None, {p, torn, q}, map[]);
            exists steps :: Legal(m, steps, true) && BlocksForNothing(Exec(m, steps), q)
  {
    var live := {p, torn, q};
    var m := Machine(None, live, map[]);
    PidRoundTrip(torn);
    var s0 := Acquires(p, 0, live, Err(Failed), Some(Decimal(torn)));
    assert AcquireEffect(None, Some(Decimal(torn)), p, m.live, Err(Failed));
    OneStep(m, s0);
  }

  /** Every id of two digits or more can be cut off to another one. */
  lemma {:induction false} IdsCanBeTorn(p: nat)
    requires p >= 10
    ensures Decimal(p / 10) <= Decimal(p) && p / 10 != p
  {
  }
}
