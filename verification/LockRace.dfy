/**
  `Acquire` once more, with every file operation a step of its own, so that the calls of
  several live processes interleave. The theorems say for which lock files two processes can
  end up holding the lock at once: as long as nobody dies and nothing fails, and in general.
 */
module LockRace {
  import opened Results
  import opened Lockfile

  type Pid = nat

  /** Where a process is in its call; each place has one next operation. */
  datatype Place =
    | Idle
    | Found
    | ReadIt(content: string)
    | Removing
    | Reopening
    | Writing
    | Holding

  /** A lock file and the process that created it, if it was one of those modelled. */
  datatype File = File(creator: Option<Pid>, content: string)

  /** `split`: the id is written in a step after the create, as the code does. */
  datatype Setting = Setting(split: bool, live: set<int>)

  datatype State = State(file: Option<File>, places: map<Pid, Place>)

  /** A successful exclusive create by `p`. */
  function Create(cfg: Setting, st: State, p: Pid): State {
    if cfg.split then State(Some(File(Some(p), "")), st.places[p := Writing])
    else State(Some(File(Some(p), Decimal(p))), st.places[p := Holding])
  }

  /**
    The next operation of `p`; a failed one ends the call. The id goes to the file that `p`
    created, even if it was removed.
   */
  function Next(cfg: Setting, st: State, p: Pid): State
    requires p in st.places
  {
    match st.places[p]
    case Idle => if st.file.None? then Create(cfg, st, p) else st.(places := st.places[p := Found])
    case Found =>
      (match st.file
       case None => st.(places := st.places[p := Idle])
       case Some(f) => st.(places := st.places[p := ReadIt(f.content)]))
    case ReadIt(c) => st.(places := st.places[p := if Stale(c, p, cfg.live) then Removing else Idle])
    case Removing => State(None, st.places[p := if st.file.Some? then Reopening else Idle])
    case Reopening => if st.file.None? then Create(cfg, st, p) else st.(places := st.places[p := Idle])
    case Writing =>
      State(if st.file.Some? && st.file.value.creator == Some(p) then Some(File(Some(p), Decimal(p))) else st.file,
            st.places[p := Holding])
    case Holding => State(None, st.places[p := Idle])
  }

  /** The state after the processes have taken turns as `schedule` says. */
  function Exec(cfg: Setting, st: State, schedule: seq<Pid>): State
    requires forall p :: p in schedule ==> p in st.places
    decreases |schedule|
  {
    if schedule == [] then st
    else
      assert schedule[0] in schedule;
      Exec(cfg, Next(cfg, st, schedule[0]), schedule[1..])
  }

  function AllIdle(procs: set<Pid>): map<Pid, Place> {
    map p | p in procs :: Idle
  }

  function Initial(procs: set<Pid>, content: Option<string>): State {
    State(if content.None? then None else Some(File(None, content.value)), AllIdle(procs))
  }

  /** At least two processes, all alive throughout. */
  ghost predicate Configured(cfg: Setting, procs: set<Pid>) {
    && (forall p :: p in procs ==> p <= MAX_INT64 && p in cfg.live)
    && exists p, q :: p in procs && q in procs && p != q
  }

  predicate TwoHolders(st: State) {
    exists p, q :: p in st.places && q in st.places && p != q && st.places[p] == Holding && st.places[q] == Holding
  }

  /** Some schedule leads to two holders. */
  ghost predicate Collides(cfg: Setting, st: State) {
    exists schedule: seq<Pid> ::
      (forall p :: p in schedule ==> p in st.places) && TwoHolders(Exec(cfg, st, schedule))
  }

  /** The file names no live process. */
  predicate Leftover(cfg: Setting, content: string) {
    Named(content).None? || Named(content).value !in cfg.live
  }

  predicate NamesOneOf(procs: set<Pid>, content: string) {
    exists p :: p in procs && Named(content) == Some(p)
  }

  // ---- safe beginnings ----

  /** A live outsider's file stays where it is. */
  predicate Outsider(cfg: Setting, content: string, st: State) {
    && st.file == Some(File(None, content))
    && forall p :: p in st.places ==> st.places[p] in {Idle, Found, ReadIt(content)}
  }

  lemma OutsiderStep(cfg: Setting, procs: set<Pid>, content: string, st: State, p: Pid)
    requires Outsider(cfg, content, st) && p in st.places && st.places.Keys == procs
    requires !Leftover(cfg, content) && !NamesOneOf(procs, content)
    ensures Outsider(cfg, content, Next(cfg, st, p))
  {
  }

  lemma {:induction false} OutsiderAlways(cfg: Setting, procs: set<Pid>, content: string, st: State, schedule: seq<Pid>)
    requires Outsider(cfg, content, st) && st.places.Keys == procs && forall p :: p in schedule ==> p in procs
    requires !Leftover(cfg, content) && !NamesOneOf(procs, content)
    ensures !TwoHolders(Exec(cfg, st, schedule))
    decreases |schedule|
  {
    if schedule != [] {
      OutsiderStep(cfg, procs, content, st, schedule[0]);
      OutsiderAlways(cfg, procs, content, Next(cfg, st, schedule[0]), schedule[1..]);
    }
  }

  /**
    With create and write as one step: a holder's file is at the path; a file made by a process
    belongs to a holder; and only the process that the first file names may be removing it.
   */
  predicate Guarded(cfg: Setting, first: Option<string>, st: State) {
    FileGuarded(first, st) && (forall p :: p in st.places ==> PlaceGuarded(cfg, first, st, p, st.places[p]))
  }

  predicate FileGuarded(first: Option<string>, st: State) {
    && (forall p :: p in st.places && st.places[p] == Holding ==> st.file == Some(File(Some(p), Decimal(p))))
    && (st.file.Some? ==>
          match st.file.value.creator
          case None => first == Some(st.file.value.content)
          case Some(p) => p in st.places && st.places[p] == Holding && st.file.value.content == Decimal(p))
  }

  /** `p` is the process that the first file names, and that file is still there. */
  predicate OwnsFirst(first: Option<string>, st: State, p: Pid) {
    first.Some? && Named(first.value) == Some(p) && st.file == Some(File(None, first.value))
  }

  predicate PlaceGuarded(cfg: Setting, first: Option<string>, st: State, p: Pid, place: Place) {
    match place
    case Writing => false
    case Removing => OwnsFirst(first, st, p)
    case ReadIt(c) => Stale(c, p, cfg.live) ==> OwnsFirst(first, st, p)
    case _ => true
  }

  lemma GuardedStep(cfg: Setting, procs: set<Pid>, first: Option<string>, st: State, p: Pid)
    requires !cfg.split && Configured(cfg, procs) && st.places.Keys == procs && p in procs
    requires first.Some? ==> !Leftover(cfg, first.value)
    requires Guarded(cfg, first, st)
    ensures Guarded(cfg, first, Next(cfg, st, p))
  {
    var next := Next(cfg, st, p);
    FileStaysGuarded(cfg, first, st, p);
    OnlyOneMoves(cfg, st, p);
    forall q | q in next.places ensures PlaceGuarded(cfg, first, next, q, next.places[q]) {
      if q == p { OwnPlaceGuarded(cfg, procs, first, st, p); } else { OtherPlaceGuarded(cfg, procs, first, st, p, q); }
    }
  }

  lemma OnlyOneMoves(cfg: Setting, st: State, p: Pid)
    requires p in st.places
    ensures Next(cfg, st, p).places.Keys == st.places.Keys
    ensures forall q :: q in st.places && q != p ==> Next(cfg, st, p).places[q] == st.places[q]
  {
  }

  lemma FileStaysGuarded(cfg: Setting, first: Option<string>, st: State, p: Pid)
    requires !cfg.split && p in st.places && Guarded(cfg, first, st)
    ensures FileGuarded(first, Next(cfg, st, p))
  {
    assert PlaceGuarded(cfg, first, st, p, st.places[p]);
    var next := Next(cfg, st, p);
    assert forall q :: q in st.places && q != p ==> next.places[q] == st.places[q];
  }

  lemma OwnPlaceGuarded(cfg: Setting, procs: set<Pid>, first: Option<string>, st: State, p: Pid)
    requires !cfg.split && Configured(cfg, procs) && st.places.Keys == procs && p in procs
    requires first.Some? ==> !Leftover(cfg, first.value)
    requires Guarded(cfg, first, st)
    ensures PlaceGuarded(cfg, first, Next(cfg, st, p), p, Next(cfg, st, p).places[p])
  {
    if st.places[p].Found? && st.file.Some? && st.file.value.creator.Some? {
      PidRoundTrip(st.file.value.creator.value);
    }
  }

  /** A step of `p` leaves the first file alone while another process may be removing it. */
  lemma OtherPlaceGuarded(cfg: Setting, procs: set<Pid>, first: Option<string>, st: State, p: Pid, q: Pid)
    requires !cfg.split && st.places.Keys == procs && p in procs && q in procs && p != q
    requires Guarded(cfg, first, st)
    ensures PlaceGuarded(cfg, first, Next(cfg, st, p), q, st.places[q])
  {
    assert PlaceGuarded(cfg, first, st, q, st.places[q]) && PlaceGuarded(cfg, first, st, p, st.places[p]);
    if OwnsFirst(first, st, q) { assert Next(cfg, st, p).file == st.file; }
  }

  lemma {:induction false} GuardedAlways(cfg: Setting, procs: set<Pid>, first: Option<string>, st: State,
                                         schedule: seq<Pid>)
    requires !cfg.split && Configured(cfg, procs) && st.places.Keys == procs && forall p :: p in schedule ==> p in procs
    requires first.Some? ==> !Leftover(cfg, first.value)
    requires Guarded(cfg, first, st)
    ensures !TwoHolders(Exec(cfg, st, schedule))
    decreases |schedule|
  {
    if schedule != [] {
      GuardedStep(cfg, procs, first, st, schedule[0]);
      GuardedAlways(cfg, procs, first, Next(cfg, st, schedule[0]), schedule[1..]);
    }
  }

  // ---- collisions ----

  lemma CollisionAhead(cfg: Setting, st: State, p: Pid)
    requires p in st.places && Collides(cfg, Next(cfg, st, p))
    ensures Collides(cfg, st)
  {
    var next := Next(cfg, st, p);
    OnlyOneMoves(cfg, st, p);
    var rest: seq<Pid> :| (forall q :: q in rest ==> q in next.places) && TwoHolders(Exec(cfg, next, rest));
    var schedule := [p] + rest;
    assert schedule[1..] == rest && forall q :: q in schedule ==> q in st.places;
    assert Exec(cfg, st, schedule) == Exec(cfg, next, rest);
  }

  lemma CollisionNow(cfg: Setting, st: State)
    requires TwoHolders(st)
    ensures Collides(cfg, st)
  {
    assert Exec(cfg, st, []) == st;
  }

  function Moved(st: State, p: Pid, file: Option<File>, place: Place): State {
    State(file, st.places[p := place])
  }

  lemma MovedTwice(st: State, p: Pid, file: Option<File>, place: Place, file': Option<File>, place': Place)
    ensures Moved(Moved(st, p, file, place), p, file', place') == Moved(st, p, file', place')
    ensures Moved(st, p, file, place).places.Keys == st.places.Keys + {p}
  {
  }

  /** `p` finds the file, reads it, and takes it for stale. */
  lemma Approaches(cfg: Setting, st: State, p: Pid)
    requires p in st.places && st.places[p] == Idle && st.file.Some? && Stale(st.file.value.content, p, cfg.live)
    requires Collides(cfg, Moved(st, p, st.file, Removing))
    ensures Collides(cfg, st)
  {
    var s1 := Moved(st, p, st.file, Found);
    var s2 := Moved(st, p, st.file, ReadIt(st.file.value.content));
    var s3 := Moved(st, p, st.file, Removing);
    MovedTwice(st, p, st.file, Found, st.file, s2.places[p]);
    MovedTwice(st, p, st.file, s2.places[p], st.file, Removing);
    assert Next(cfg, st, p) == s1;
    assert Next(cfg, s1, p) == s2;
    assert Next(cfg, s2, p) == s3;
    CollisionAhead(cfg, s2, p);
    CollisionAhead(cfg, s1, p);
    CollisionAhead(cfg, st, p);
  }

  /** `p` removes whatever file is there and finishes its call undisturbed. */
  lemma {:induction false} Reclaims(cfg: Setting, st: State, p: Pid)
    requires p in st.places && st.places[p] == Removing && st.file.Some?
    requires Collides(cfg, Moved(st, p, Some(File(Some(p), Decimal(p))), Holding))
    ensures Collides(cfg, st)
  {
    var s1 := Moved(st, p, None, Reopening);
    var s2 := Moved(st, p, Some(File(Some(p), "")), Writing);
    var s3 := Moved(st, p, Some(File(Some(p), Decimal(p))), Holding);
    assert Next(cfg, st, p) == s1;
    if cfg.split {
      assert Next(cfg, s1, p) == s2 && Next(cfg, s2, p) == s3;
      CollisionAhead(cfg, s2, p);
    } else {
      assert Next(cfg, s1, p) == s3;
    }
    CollisionAhead(cfg, s1, p);
    CollisionAhead(cfg, st, p);
  }

  /** Two processes that both took the file for stale: the second removes the first one's file. */
  lemma LeftoverCollides(cfg: Setting, st: State, p: Pid, q: Pid)
    requires p in st.places && q in st.places && p != q && st.places[p] == Idle && st.places[q] == Idle
    requires st.file.Some? && Leftover(cfg, st.file.value.content)
    ensures Collides(cfg, st)
  {
    var s1 := Moved(st, p, st.file, Removing);
    var s2 := Moved(s1, q, st.file, Removing);
    var s3 := Moved(s2, p, Some(File(Some(p), Decimal(p))), Holding);
    var s4 := Moved(s3, q, Some(File(Some(q), Decimal(q))), Holding);
    assert s4.places[p] == Holding && s4.places[q] == Holding;
    CollisionNow(cfg, s4);
    Reclaims(cfg, s3, q);
    Reclaims(cfg, s2, p);
    Approaches(cfg, s1, q);
    Approaches(cfg, st, p);
  }

  /** `q` sees the file of `p` before the id is in it. */
  lemma UnwrittenCollides(cfg: Setting, st: State, p: Pid, q: Pid)
    requires p in st.places && q in st.places && p != q && st.places[p] == Writing && st.places[q] == Idle
    requires st.file == Some(File(Some(p), ""))
    ensures Collides(cfg, st)
  {
    var written := Some(File(Some(p), Decimal(p)));
    var s1 := Moved(st, q, st.file, Removing);
    var s2 := Moved(s1, p, written, Holding);
    var s3 := Moved(s2, q, Some(File(Some(q), Decimal(q))), Holding);
    EmptyNamesNobody();
    assert s3.places[p] == Holding && s3.places[q] == Holding;
    CollisionNow(cfg, s3);
    Reclaims(cfg, s2, q);
    assert Next(cfg, s1, p) == s2;
    CollisionAhead(cfg, s1, p);
    Approaches(cfg, st, q);
  }

  lemma EmptyNamesNobody()
    ensures Named("").None?
  {
  }

  /** A process that sees no file, or its own id, gets as far as an unwritten file. */
  lemma SplitCollides(cfg: Setting, st: State, p: Pid, q: Pid)
    requires cfg.split
    requires p in st.places && q in st.places && p != q && st.places[p] == Idle && st.places[q] == Idle
    requires st.file.None? || Stale(st.file.value.content, p, cfg.live)
    ensures Collides(cfg, st)
  {
    var unwritten := Moved(st, p, Some(File(Some(p), "")), Writing);
    UnwrittenCollides(cfg, unwritten, p, q);
    if st.file.None? {
      assert Next(cfg, st, p) == unwritten;
      CollisionAhead(cfg, st, p);
    } else {
      MovedTwice(st, p, st.file, Removing, unwritten.file, Writing);
      StartsWriting(cfg, Moved(st, p, st.file, Removing), p);
      Approaches(cfg, st, p);
    }
  }

  lemma StartsWriting(cfg: Setting, st: State, p: Pid)
    requires cfg.split && p in st.places && st.places[p] == Removing && st.file.Some?
    requires Collides(cfg, Moved(st, p, Some(File(Some(p), "")), Writing))
    ensures Collides(cfg, st)
  {
    var s1 := Moved(st, p, None, Reopening);
    MovedTwice(st, p, None, Reopening, Some(File(Some(p), "")), Writing);
    assert Next(cfg, s1, p) == Moved(st, p, Some(File(Some(p), "")), Writing);
    assert Next(cfg, st, p) == s1;
    CollisionAhead(cfg, s1, p);
    CollisionAhead(cfg, st, p);
  }

  /**
    Two of the processes can hold the lock at once if and only if the file that they start
    with is a leftover, or, with the id written in a step of its own, unless the file names a
    live process that is not one of them. With create and write as one step and no leftover,
    and in particular with no file at all, the lock excludes.
   */
  lemma CollidesIff(cfg: Setting, procs: set<Pid>, content: Option<string>)
    requires Configured(cfg, procs)
    ensures Collides(cfg, Initial(procs, content)) <==>
              || (content.Some? && Leftover(cfg, content.value))
              || (cfg.split && (content.None? || NamesOneOf(procs, content.value)))
  {
    var st := Initial(procs, content);
    var p, q :| p in procs && q in procs && p != q;
    if content.Some? && Leftover(cfg, content.value) {
      LeftoverCollides(cfg, st, p, q);
    } else if content.Some? && !NamesOneOf(procs, content.value) {
      forall schedule: seq<Pid> | forall r :: r in schedule ==> r in st.places
        ensures !TwoHolders(Exec(cfg, st, schedule))
      {
        OutsiderAlways(cfg, procs, content.value, st, schedule);
      }
    } else if cfg.split {
      var owner := if content.Some? then OwnerOf(procs, content.value) else p;
      SplitCollides(cfg, st, owner, if owner == p then q else p);
    } else {
      forall schedule: seq<Pid> | forall r :: r in schedule ==> r in st.places
        ensures !TwoHolders(Exec(cfg, st, schedule))
      {
        GuardedAlways(cfg, procs, content, st, schedule);
      }
    }
  }

  ghost function OwnerOf(procs: set<Pid>, content: string): (p: Pid)
    requires NamesOneOf(procs, content)
    ensures p in procs && Named(content) == Some(p)
  {
    var p :| p in procs && Named(content) == Some(p);
    p
  }

  // ---- with processes that die and operations that fail ----

  /**
    A process takes its turn; or its operation fails, where a failed write is followed by the
    removal of whatever is at the path, unless that fails as well; or a process dies, which may be
    one that does not take part.
   */
  datatype Act = Turn(p: Pid) | Failure(p: Pid, cleaned: bool) | Death(pid: int)

  datatype Race = Race(cfg: Setting, st: State)

  function Failed(st: State, p: Pid, cleaned: bool): State
    requires p in st.places
  {
    if st.places[p].ReadIt? then st
    else State(if st.places[p] == Writing && cleaned then None else st.file, st.places[p := Idle])
  }

  function Survivors(places: map<Pid, Place>, dead: int): map<Pid, Place> {
    map p | p in places && p != dead :: places[p]
  }

  function Do(race: Race, act: Act): Race {
    match act
    case Turn(p) => if p in race.st.places then race.(st := Next(race.cfg, race.st, p)) else race
    case Failure(p, cleaned) => if p in race.st.places then race.(st := Failed(race.st, p, cleaned)) else race
    case Death(p) =>
      Race(race.cfg.(live := race.cfg.live - {p}), race.st.(places := Survivors(race.st.places, p)))
  }

  function Happens(race: Race, acts: seq<Act>): Race
    decreases |acts|
  {
    if acts == [] then race else Happens(Do(race, acts[0]), acts[1..])
  }

  /** Whatever it takes, there are two holders in the end, both alive. */
  ghost predicate CollidesSomehow(race: Race) {
    exists acts: seq<Act> :: TwoHolders(Happens(race, acts).st)
  }

  lemma SomehowAhead(race: Race, act: Act)
    requires CollidesSomehow(Do(race, act))
    ensures CollidesSomehow(race)
  {
    var rest: seq<Act> :| TwoHolders(Happens(Do(race, act), rest).st);
    var acts := [act] + rest;
    assert acts[0] == act && acts[1..] == rest;
    assert Happens(race, acts) == Happens(Do(race, act), rest);
  }

  lemma {:induction false} TurnsAreActs(cfg: Setting, st: State, schedule: seq<Pid>)
    requires (forall p :: p in schedule ==> p in st.places) && TwoHolders(Exec(cfg, st, schedule))
    ensures CollidesSomehow(Race(cfg, st))
    decreases |schedule|
  {
    if schedule == [] {
      assert Happens(Race(cfg, st), []).st == st;
    } else {
      var p := schedule[0];
      assert p in schedule;
      OnlyOneMoves(cfg, st, p);
      TurnsAreActs(cfg, Next(cfg, st, p), schedule[1..]);
      assert Do(Race(cfg, st), Turn(p)) == Race(cfg, Next(cfg, st, p));
      SomehowAhead(Race(cfg, st), Turn(p));
    }
  }

  lemma AnyCollisionCounts(cfg: Setting, st: State)
    requires Collides(cfg, st)
    ensures CollidesSomehow(Race(cfg, st))
  {
    var schedule: seq<Pid> :| (forall p :: p in schedule ==> p in st.places) && TwoHolders(Exec(cfg, st, schedule));
    TurnsAreActs(cfg, st, schedule);
  }

  /** The file at the path names `p`. */
  predicate Owns(st: State, p: Pid) {
    st.file.Some? && Named(st.file.value.content) == Some(p)
  }

  /** As long as nobody dies, the file names one of the processes, and only that one holds or removes it. */
  predicate Owned(procs: set<Pid>, st: State) {
    && (st.file.Some? ==> NamesOneOf(procs, st.file.value.content))
    && forall p :: p in st.places ==> PlaceOwned(procs, st, p, st.places[p])
  }

  predicate PlaceOwned(procs: set<Pid>, st: State, p: Pid, place: Place) {
    match place
    case Writing => false
    case Holding => Owns(st, p)
    case Removing => Owns(st, p)
    case ReadIt(c) => NamesOneOf(procs, c) && (Named(c) == Some(p) ==> Owns(st, p))
    case _ => true
  }

  lemma OwnedStep(cfg: Setting, procs: set<Pid>, st: State, p: Pid)
    requires !cfg.split && Configured(cfg, procs) && p in procs && st.places.Keys == procs && Owned(procs, st)
    ensures Owned(procs, Next(cfg, st, p))
  {
    var next := Next(cfg, st, p);
    OnlyOneMoves(cfg, st, p);
    FileStaysOwned(cfg, procs, st, p);
    forall q | q in next.places ensures PlaceOwned(procs, next, q, next.places[q]) {
      assert PlaceOwned(procs, st, q, st.places[q]);
      if q == p { OwnPlaceOwned(cfg, procs, st, p); } else { OtherPlaceOwned(cfg, procs, st, p, q, st.places[q]); }
    }
  }

  lemma {:induction false} FileStaysOwned(cfg: Setting, procs: set<Pid>, st: State, p: Pid)
    requires !cfg.split && Configured(cfg, procs) && p in procs && p in st.places
    requires PlaceOwned(procs, st, p, st.places[p])
    ensures var file := Next(cfg, st, p).file;
            file == st.file || file == None || (st.file.None? && file == Some(File(Some(p), Decimal(p))))
    ensures st.file.Some? && NamesOneOf(procs, st.file.value.content) && Next(cfg, st, p).file.Some? ==>
              NamesOneOf(procs, Next(cfg, st, p).file.value.content)
    ensures st.file.None? && Next(cfg, st, p).file.Some? ==> NamesOneOf(procs, Next(cfg, st, p).file.value.content)
    ensures st.file.Some? && Next(cfg, st, p).file.None? ==> Owns(st, p)
  {
    PidRoundTrip(p);
  }

  lemma OwnPlaceOwned(cfg: Setting, procs: set<Pid>, st: State, p: Pid)
    requires !cfg.split && Configured(cfg, procs) && p in procs && p in st.places
    requires st.file.Some? ==> NamesOneOf(procs, st.file.value.content)
    requires PlaceOwned(procs, st, p, st.places[p])
    ensures PlaceOwned(procs, Next(cfg, st, p), p, Next(cfg, st, p).places[p])
  {
    PidRoundTrip(p);
  }

  /** A step of `p` leaves alone what another process owns. */
  lemma OtherPlaceOwned(cfg: Setting, procs: set<Pid>, st: State, p: Pid, q: Pid, place: Place)
    requires !cfg.split && p in st.places && p != q
    requires PlaceOwned(procs, st, p, st.places[p]) && PlaceOwned(procs, st, q, place)
    ensures PlaceOwned(procs, Next(cfg, st, p), q, place)
  {
    assert Owns(st, q) ==> Next(cfg, st, p).file == st.file;
  }

  lemma OwnedFailure(procs: set<Pid>, st: State, p: Pid, cleaned: bool)
    requires p in st.places && Owned(procs, st)
    ensures Owned(procs, Failed(st, p, cleaned))
  {
    var next := Failed(st, p, cleaned);
    assert PlaceOwned(procs, st, p, st.places[p]);
    forall q | q in next.places ensures PlaceOwned(procs, next, q, next.places[q]) {
      assert PlaceOwned(procs, st, q, st.places[q]);
    }
  }

  /** Both of the processes are alive and the file has its owner, or one of them is dead. */
  ghost predicate PairIsSafe(p: Pid, q: Pid, race: Race) {
    && !race.cfg.split && race.st.places.Keys <= {p, q}
    && (race.st.places.Keys == {p, q} ==> Configured(race.cfg, {p, q}) && Owned({p, q}, race.st))
  }

  lemma PairStaysSafe(p: Pid, q: Pid, race: Race, act: Act)
    requires PairIsSafe(p, q, race)
    ensures PairIsSafe(p, q, Do(race, act))
  {
    match act {
      case Turn(r) =>
        if r in race.st.places {
          OnlyOneMoves(race.cfg, race.st, r);
          if race.st.places.Keys == {p, q} { OwnedStep(race.cfg, {p, q}, race.st, r); }
        }
      case Failure(r, cleaned) =>
        if r in race.st.places && race.st.places.Keys == {p, q} { OwnedFailure({p, q}, race.st, r, cleaned); }
      case Death(r) =>
        if r !in {p, q} { assert Survivors(race.st.places, r) == race.st.places; }
    }
  }

  lemma {:induction false} PairAlwaysSafe(p: Pid, q: Pid, race: Race, acts: seq<Act>)
    requires PairIsSafe(p, q, race)
    ensures !TwoHolders(Happens(race, acts).st)
    decreases |acts|
  {
    if acts != [] {
      PairStaysSafe(p, q, race, acts[0]);
      PairAlwaysSafe(p, q, Do(race, acts[0]), acts[1..]);
    } else {
      forall r, s | r in race.st.places && s in race.st.places && r != s
        ensures !(race.st.places[r] == Holding && race.st.places[s] == Holding)
      {
        assert race.st.places.Keys == {p, q};
        assert PlaceOwned({p, q}, race.st, r, race.st.places[r]) && PlaceOwned({p, q}, race.st, s, race.st.places[s]);
      }
    }
  }

  /** The death of the process that the file names leaves the file to the others. */
  lemma DeathLeavesLeftover(cfg: Setting, st: State, dead: int, p: Pid, q: Pid)
    requires st.file.Some? && Named(st.file.value.content) == Some(dead) && p != dead && q != dead && p != q
    requires p in st.places && q in st.places && st.places[p] == Idle && st.places[q] == Idle
    ensures CollidesSomehow(Race(cfg, st))
  {
    var race := Do(Race(cfg, st), Death(dead));
    LeftoverCollides(race.cfg, race.st, p, q);
    AnyCollisionCounts(race.cfg, race.st);
    SomehowAhead(Race(cfg, st), Death(dead));
  }

  /** Of three processes one gets the lock and dies, and the other two take it both. */
  lemma ThreeCollide(cfg: Setting, procs: set<Pid>, content: Option<string>)
    requires !cfg.split && Configured(cfg, procs) && |procs| > 2
    requires content.Some? ==> NamesOneOf(procs, content.value)
    ensures CollidesSomehow(Race(cfg, Initial(procs, content)))
  {
    var st := Initial(procs, content);
    if content.Some? {
      var dying := OwnerOf(procs, content.value);
      var p, q := TwoBesides(procs, dying);
      DeathLeavesLeftover(cfg, st, dying, p, q);
    } else {
      var dying :| dying in procs;
      var p, q := TwoBesides(procs, dying);
      HolderDies(cfg, st, dying, p, q);
    }
  }

  lemma HolderDies(cfg: Setting, st: State, dying: Pid, p: Pid, q: Pid)
    requires !cfg.split && dying in st.places && p in st.places && q in st.places && dying <= MAX_INT64
    requires dying != p && dying != q && p != q
    requires st.places[dying] == Idle && st.places[p] == Idle && st.places[q] == Idle && st.file == None
    ensures CollidesSomehow(Race(cfg, st))
  {
    var held := Next(cfg, st, dying);
    PidRoundTrip(dying);
    assert held == Moved(st, dying, Some(File(Some(dying), Decimal(dying))), Holding);
    DeathLeavesLeftover(cfg, held, dying, p, q);
    assert Do(Race(cfg, st), Turn(dying)) == Race(cfg, held);
    SomehowAhead(Race(cfg, st), Turn(dying));
  }

  lemma TwoBesides(procs: set<Pid>, p: Pid) returns (q: Pid, r: Pid)
    requires p in procs && |procs| > 2
    ensures q in procs && r in procs && q != p && r != p && q != r
  {
    var others := procs - {p};
    assert |others| == |procs| - 1;
    q :| q in others;
    assert |others - {q}| == |others| - 1;
    r :| r in others - {q};
  }

  lemma OnlyTwo(procs: set<Pid>, p: Pid, q: Pid)
    requires p in procs && q in procs && p != q && |procs| <= 2
    ensures procs == {p, q}
  {
    assert |procs - {p, q}| == |procs| - |{p, q}|;
  }

  /**
    With deaths and failures the lock excludes in one case only: create and write are one step, there
    are just two processes, and no file at first or one that names one of them.
   */
  lemma CollidesSomehowIff(cfg: Setting, procs: set<Pid>, content: Option<string>)
    requires Configured(cfg, procs)
    ensures CollidesSomehow(Race(cfg, Initial(procs, content))) <==>
              cfg.split || |procs| > 2 || (content.Some? && !NamesOneOf(procs, content.value))
  {
    var st := Initial(procs, content);
    var p, q :| p in procs && q in procs && p != q;
    CollidesIff(cfg, procs, content);
    if Collides(cfg, st) {
      AnyCollisionCounts(cfg, st);
    } else if content.Some? && !NamesOneOf(procs, content.value) {
      DeathLeavesLeftover(cfg, st, Named(content.value).value, p, q);
    } else if |procs| > 2 {
      ThreeCollide(cfg, procs, content);
    } else {
      OnlyTwo(procs, p, q);
      forall acts: seq<Act> ensures !TwoHolders(Happens(Race(cfg, st), acts).st) {
        PairAlwaysSafe(p, q, Race(cfg, st), acts);
      }
    }
  }
}
