/** Clearing a directory behind the guard, and the whole of `copyDir`. */
module DirCopy {
  import opened Results
  import opened Paths
  import opened Safety
  import opened Hosts
  import opened FileCopy
  import opened TreeCopy

  /** `filepath.EvalSymlinks` on a host without symbolic links on the way. */
  ghost function ResolveOnHost(t: Tree, p: Path): Resolution {
    if p in t then ResolvesTo(Render(p)) else if Blocked(t, p) then Failed else NotExist
  }

  ghost predicate GuardPasses(t: Tree, p: Path) {
    GuardClearDir(ResolveOnHost(t, p)).Accepted?
  }

  method GuardOnHost(host: Host, p: Path) returns (verdict: Verdict)
    modifies host`faulted
    ensures host.OnlyTree()
    ensures verdict.Accepted? ==> GuardPasses(host.tree, p)
    ensures verdict.Rejected? ==> host.faulted || !GuardPasses(host.tree, p)
  {
    var resolved := host.Attempt();
    if !resolved { return Rejected(Unresolvable); }
    if p in host.tree {
      verdict := GuardClearDir(ResolvesTo(Render(p)));
    } else if Blocked(host.tree, p) {
      verdict := GuardClearDir(Failed);
    } else {
      verdict := GuardClearDir(NotExist);
    }
  }

  method ClearDirContents(host: Host, dir: string) returns (ok: bool)
    requires host.Valid() && Rooted(dir)
    modifies host
    ensures host.Valid() && host.OnlyTree() && host.Confined(StrictlyBelow(PathOf(dir)))
    ensures forall q :: q in host.tree ==> q in old(host.tree)
    ensures !GuardPasses(old(host.tree), PathOf(dir)) ==>
              !ok && host.tree == old(host.tree) && host.touched == old(host.touched)
    ensures ok ==> forall q :: PathOf(dir) <= q && PathOf(dir) != q ==> q !in host.tree
    ensures !ok ==> host.faulted || !GuardPasses(old(host.tree), PathOf(dir)) || Blocked(old(host.tree), PathOf(dir))
  {
    var verdict := GuardOnHost(host, PathOf(dir));
    if verdict.Rejected? { return false; }
    ok := ListAndRemove(host, dir);
  }

  /** A directory that does not exist needs no clearing. */
  method ListAndRemove(host: Host, dir: string) returns (ok: bool)
    requires host.Valid() && Rooted(dir)
    modifies host
    ensures host.Valid() && host.OnlyTree() && host.Confined(StrictlyBelow(PathOf(dir)))
    ensures forall q :: q in host.tree ==> q in old(host.tree)
    ensures ok ==> forall q :: PathOf(dir) <= q && PathOf(dir) != q ==> q !in host.tree
    ensures !ok ==> host.faulted || Blocked(old(host.tree), PathOf(dir))
  {
    var names := host.ReadDirNames(PathOf(dir));
    if names.None? {
      ok := PathOf(dir) !in host.tree && !Blocked(host.tree, PathOf(dir));
      Unlistable(host.tree, PathOf(dir));
      return;
    }
    ok := RemoveChildren(host, dir, names.value);
  }

  method RemoveChildren(host: Host, dir: string, names: seq<string>) returns (ok: bool)
    requires host.Valid() && Rooted(dir)
    requires forall n :: n in names <==> PathOf(dir) + [n] in host.tree
    modifies host
    ensures host.Valid() && host.OnlyTree() && host.Confined(StrictlyBelow(PathOf(dir)))
    ensures forall q :: q in host.tree ==> q in old(host.tree)
    ensures ok ==> forall q :: PathOf(dir) <= q && PathOf(dir) != q ==> q !in host.tree
    ensures !ok ==> host.faulted
  {
    ghost var d := PathOf(dir);
    var i := 0;
    while i < |names|
      invariant 0 <= i <= |names|
      invariant host.Valid() && host.OnlyTree() && host.Confined(StrictlyBelow(d))
      invariant forall q :: q in host.tree ==> q in old(host.tree)
      invariant forall q :: q in host.tree && d <= q && d != q ==> q[|d|] !in names[..i]
    {
      ChildPath(old(host.tree), dir, names[i]);
      ok := host.RemoveAll(PathOf(Join(dir, names[i])));
      if !ok { return; }
      forall q | q in host.tree && d <= q && d != q ensures q[|d|] !in names[..i + 1] {
        FirstStep(d, q);
      }
      i := i + 1;
    }
    forall q | d <= q && d != q ensures q !in host.tree {
      if q in host.tree { ChildOf(old(host.tree), d, q); }
    }
    ok := true;
  }

  lemma ChildPath(t: Tree, dir: string, name: string)
    requires WellFormed(t) && Rooted(dir) && PathOf(dir) + [name] in t
    ensures PathOf(Join(dir, name)) == PathOf(dir) + [name]
    ensures Below(PathOf(dir) + [name]) <= StrictlyBelow(PathOf(dir))
  {
    RelIsValid(t, PathOf(dir), [name]);
    JoinNames(dir, [name]);
    PathOfRender(PathOf(dir) + [name]);
    assert JoinSlash([name]) == name;
  }

  /** A directory that cannot be listed is missing altogether, or something is in its way. */
  lemma Unlistable(t: Tree, d: Path)
    requires WellFormed(t)
    ensures d !in t ==> forall q :: q in t ==> !(d <= q)
    ensures !IsDir(t, d) && (d in t || Blocked(t, d)) ==> Blocked(t, d)
  {
    if d !in t {
      forall q | q in t ensures !(d <= q) {
        if d <= q { AncestorIn(t, d, q); }
      }
    }
    assert d[..|d|] == d;
  }

  lemma ChildOf(t: Tree, d: Path, q: Path)
    requires WellFormed(t) && q in t && d <= q && d != q
    ensures d + [q[|d|]] in t
  {
    FirstStep(d, q);
    assert |q| == |d| + 1 ==> q == q[..|d| + 1];
  }

  lemma FirstStep(d: Path, q: Path)
    requires d <= q && d != q
    ensures d + [q[|d|]] == q[..|d| + 1] && d + [q[|d|]] <= q
  {
  }

  // ---- the whole copy ----

  /** The state after a successful copy of the directory `src` to `dst`. */
  ghost predicate DirCopied(before: Tree, after: Tree, src: Path, dst: Path, clear: bool) {
    && src in before
    && IsDir(after, dst)
    && NoSpecial(before, src, src)
    && (forall q :: dst <= q && dst != q ==>
          At(after, q) ==
          if Shipped(before, src, dst, q) then Some(before[Image(src, dst, q)])
          else if clear || TempOfCopied(before, src, dst, StrictlyBelow(dst), q) then None
          else At(before, q))
  }

  /** Something is in the way of the target directory, or it must not be cleared. */
  ghost predicate Unready(t: Tree, d: Path, clear: bool) {
    Blocked(t, d) || (clear && !GuardPasses(t, d))
  }

  method Prepare(host: Host, dst: string, clear: bool) returns (ok: bool)
    requires host.Valid() && Rooted(dst)
    modifies host
    ensures host.Valid() && host.OnlyTree()
    ensures host.Confined(MissingAbove(old(host.tree), PathOf(dst)) + StrictlyBelow(PathOf(dst)))
    ensures clear && !GuardPasses(old(host.tree), PathOf(dst)) ==>
              !ok && host.tree == old(host.tree) && host.touched == old(host.touched)
    ensures OnlyMade(old(host.tree), host.tree, StrictlyBelow(PathOf(dst)))
    ensures ok ==> Prepared(old(host.tree), host.tree, PathOf(dst), clear)
    ensures ok ==> !Unready(old(host.tree), PathOf(dst), clear)
    ensures !ok ==> host.faulted || Unready(old(host.tree), PathOf(dst), clear)
  {
    PathOfValid(dst);
    if clear {
      ok := ClearDirContents(host, dst);
      if !ok { return; }
    }
    ghost var cleared := host.tree;
    AncestorsSurvive(old(host.tree), cleared, PathOf(dst));
    ok := host.MkdirAll(PathOf(dst));
    if ok { ReadyOnceMade(old(host.tree), cleared, host.tree, PathOf(dst), clear); }
  }

  lemma ReadyOnceMade(before: Tree, cleared: Tree, made: Tree, d: Path, clear: bool)
    requires WellFormed(before) && WellFormed(made) && IsDir(made, d)
    requires forall q :: q !in StrictlyBelow(d) ==> At(cleared, q) == At(before, q)
    requires if clear then forall q :: d <= q && d != q ==> q !in cleared else cleared == before
    requires forall q :: q !in MissingAbove(cleared, d) ==> At(made, q) == At(cleared, q)
    ensures Prepared(before, made, d, clear) && !Blocked(before, d)
  {
    forall q | q in before && q <= d ensures At(made, q) == At(before, q) {
      assert q !in StrictlyBelow(d) && At(cleared, q) == At(before, q);
    }
    MadeWasNotBlocked(before, made, d);
  }

  /** Why the walk fails when no system call faults; for overlapping trees nothing is promised. */
  ghost predicate Unshippable(before: Tree, src: Path, dst: Path, clear: bool) {
    || !Disjoint(src, dst) || src !in before || !NoSpecial(before, src, src)
    || (!clear && Obstructed(before, src, dst))
  }

  /** Why the whole copy fails when no system call faults. */
  ghost predicate Uncopiable(before: Tree, src: Path, dst: Path, clear: bool) {
    Unready(before, dst, clear) || Unshippable(before, src, dst, clear)
  }

  /** The walk, once the target directory is ready. */
  method Walk(host: Host, src: Path, dst: string, ghost before: Tree, ghost clear: bool) returns (ok: bool)
    requires host.Valid() && Rooted(dst) && |src| <= host.maxDepth + 1
    requires Prepared(before, host.tree, PathOf(dst), clear)
    modifies host
    ensures host.Valid() && host.OnlyTree() && host.Confined(StrictlyBelow(PathOf(dst)))
    ensures ok ==> src in old(host.tree)
    ensures (forall n :: src + [n] !in old(host.tree)) ==> host.tree == old(host.tree)
    ensures ok && Disjoint(src, PathOf(dst)) ==>
              DirCopied(before, host.tree, src, PathOf(dst), clear) && !Unshippable(before, src, PathOf(dst), clear)
    ensures !ok ==> host.faulted || Unshippable(before, src, PathOf(dst), clear)
  {
    ghost var start, d := host.tree, PathOf(dst);
    var known := host.Attempt();
    if !known { return false; }
    if Disjoint(src, d) { SourceUnchanged(before, start, src, d, clear); }
    if src !in host.tree {
      assert Disjoint(src, d) ==> At(start, src) == At(before, src);
      return false;
    }
    if Disjoint(src, d) { StartIsReady(before, start, src, d, clear); }
    assert src + [] == src;
    ok := CopyEntry(host, src, dst, [], start, iset{});
    if Disjoint(src, d) {
      if ok {
        CopyIsComplete(before, start, host.tree, src, d, clear);
      } else if !host.faulted {
        ObstructionWasThere(before, start, src, d, clear);
      }
    }
  }

  /**
    The whole copy. Source and target need not be apart, but only for those that are is the
    result specified. Clearing a directory that holds the source makes the copy fail; clearing
    the source itself leaves it empty.
   */
  method CopyDir(host: Host, src: Path, dst: string, clear: bool, perms: bool) returns (ok: bool)
    requires host.Valid() && Rooted(dst)
    modifies host
    ensures host.Valid() && host.OnlyTree()
    ensures host.Confined(MissingAbove(old(host.tree), PathOf(dst)) + StrictlyBelow(PathOf(dst)))
    ensures clear && !GuardPasses(old(host.tree), PathOf(dst)) ==>
              !ok && host.tree == old(host.tree) && host.touched == old(host.touched)
    ensures OnlyMade(old(host.tree), host.tree, StrictlyBelow(PathOf(dst)))
    ensures ok ==> SyncDone(old(host.tree), host.tree, src, PathOf(dst), clear)
    ensures ok && Disjoint(src, PathOf(dst)) ==> !Uncopiable(old(host.tree), src, PathOf(dst), clear)
    ensures !ok ==> host.faulted || Uncopiable(old(host.tree), src, PathOf(dst), clear)
  {
    ok := CopyTree(host, src, dst, clear);
    if ok && perms { ok := host.Attempt(); }
  }

  method CopyTree(host: Host, src: Path, dst: string, clear: bool) returns (ok: bool)
    requires host.Valid() && Rooted(dst)
    modifies host
    ensures host.Valid() && host.OnlyTree()
    ensures host.Confined(MissingAbove(old(host.tree), PathOf(dst)) + StrictlyBelow(PathOf(dst)))
    ensures clear && !GuardPasses(old(host.tree), PathOf(dst)) ==>
              !ok && host.tree == old(host.tree) && host.touched == old(host.touched)
    ensures OnlyMade(old(host.tree), host.tree, StrictlyBelow(PathOf(dst)))
    ensures ok ==> SyncDone(old(host.tree), host.tree, src, PathOf(dst), clear)
    ensures ok && Disjoint(src, PathOf(dst)) ==> !Uncopiable(old(host.tree), src, PathOf(dst), clear)
    ensures !ok ==> host.faulted || Uncopiable(old(host.tree), src, PathOf(dst), clear)
  {
    ghost var before := host.tree;
    ok := Prepare(host, dst, clear);
    if !ok { return; }
    ok := WalkFrom(host, src, dst, before, clear);
  }

  /** The walk, if the host can have such a path at all. */
  method WalkFrom(host: Host, src: Path, dst: string, ghost before: Tree, ghost clear: bool) returns (ok: bool)
    requires host.Valid() && Rooted(dst) && before in Trees(host.maxDepth)
    requires Prepared(before, host.tree, PathOf(dst), clear)
    modifies host
    ensures host.Valid() && host.OnlyTree() && host.Confined(StrictlyBelow(PathOf(dst)))
    ensures ok ==> SyncDone(before, host.tree, src, PathOf(dst), clear)
    ensures ok && Disjoint(src, PathOf(dst)) ==> !Unshippable(before, src, PathOf(dst), clear)
    ensures !ok ==> host.faulted || Unshippable(before, src, PathOf(dst), clear)
  {
    ghost var start := host.tree;
    var reachable := |src| <= host.maxDepth;
    if !reachable {
      TooDeep(before, host.maxDepth, src);
      return false;
    }
    ok := Walk(host, src, dst, before, clear);
    if ok { SyncIsDone(before, start, host.tree, src, PathOf(dst), clear); }
  }

  lemma TooDeep(t: Tree, maxDepth: nat, p: Path)
    requires t in Trees(maxDepth) && |p| > maxDepth
    ensures p !in t
  {
    assert Sound(t, maxDepth);
  }

  /** What a successful copy promises, for trees that are apart and for those that are not. */
  ghost predicate SyncDone(before: Tree, after: Tree, src: Path, dst: Path, clear: bool) {
    && (Disjoint(src, dst) ==> DirCopied(before, after, src, dst, clear))
    && (clear && dst <= src ==> src == dst && forall q :: dst <= q && dst != q ==> q !in after)
  }

  lemma SyncIsDone(before: Tree, start: Tree, after: Tree, src: Path, dst: Path, clear: bool)
    requires Prepared(before, start, dst, clear) && src in start
    requires (forall n :: src + [n] !in start) ==> after == start
    requires Disjoint(src, dst) ==> DirCopied(before, after, src, dst, clear)
    ensures SyncDone(before, after, src, dst, clear)
  {
    if clear && dst <= src {
      assert At(start, src) == if src == dst then At(start, dst) else None;
      forall n ensures src + [n] !in start {
        assert dst <= src + [n] && dst != src + [n];
        assert At(start, src + [n]) == None;
      }
      forall q | dst <= q && dst != q ensures q !in after {
        assert At(start, q) == None;
      }
    }
  }

  /** What clearing and then making `d` leave for the walk to start from. */
  ghost predicate Prepared(before: Tree, start: Tree, d: Path, clear: bool) {
    && WellFormed(before) && WellFormed(start) && IsDir(start, d)
    && (forall q :: !(d <= q) && !(q <= d) ==> At(start, q) == At(before, q))
    && (forall q :: d <= q && d != q ==> At(start, q) == if clear then None else At(before, q))
  }

  lemma AncestorsSurvive(before: Tree, cleared: Tree, d: Path)
    requires forall q :: q !in StrictlyBelow(d) ==> At(cleared, q) == At(before, q)
    ensures MissingAbove(cleared, d) == MissingAbove(before, d)
    ensures Blocked(cleared, d) <==> Blocked(before, d)
  {
    forall q | q <= d ensures At(cleared, q) == At(before, q) {}
    forall q ensures q in MissingAbove(cleared, d) <==> q in MissingAbove(before, d) {
      if q <= d { assert At(cleared, q) == At(before, q); }
    }
    forall k | 0 <= k <= |d| ensures At(cleared, d[..k]) == At(before, d[..k]) {
      assert d[..k] <= d;
    }
  }

  lemma StartIsReady(before: Tree, start: Tree, src: Path, d: Path, clear: bool)
    requires Prepared(before, start, d, clear) && Disjoint(src, d) && src in start
    ensures ReadyFor(start, start, src, d, [], iset{})
  {
    assert src + [] == src && d + [] == d;
  }

  lemma SourceUnchanged(before: Tree, start: Tree, src: Path, d: Path, clear: bool)
    requires Prepared(before, start, d, clear) && Disjoint(src, d)
    ensures forall q :: src <= q ==> At(start, q) == At(before, q)
    ensures forall q :: Shipped(start, src, d, q) <==> Shipped(before, src, d, q)
  {
    forall q | src <= q ensures At(start, q) == At(before, q) {
      if d <= q { Comparable(src, d, q); }
    }
    forall q | d <= q ensures At(start, Image(src, d, q)) == At(before, Image(src, d, q)) {
      assert src <= Image(src, d, q);
    }
  }

  lemma CopyIsComplete(before: Tree, start: Tree, after: Tree, src: Path, d: Path, clear: bool)
    requires Prepared(before, start, d, clear) && Disjoint(src, d) && src in start
    requires Copied(start, after, src, d, iset{} + ShippedBelow(start, src, d, d + []))
    requires NoSpecial(start, src, src + [])
    requires forall q :: q !in StrictlyBelow(d) ==> At(after, q) == At(start, q)
    ensures DirCopied(before, after, src, d, clear) && !Unshippable(before, src, d, clear)
  {
    assert src + [] == src && d + [] == d;
    SourceUnchanged(before, start, src, d, clear);
    if !clear { ObstructionIsStillThere(before, start, src, d); }
    var done := iset{} + ShippedBelow(start, src, d, d + []);
    forall q | q in before && src <= q ensures q in start && start[q] == before[q] {
      assert At(start, q) == At(before, q);
    }
    assert At(start, src) == At(before, src);
    forall q | d <= q && d != q
      ensures Shipped(start, src, d, q) ==> start[Image(src, d, q)] == before[Image(src, d, q)]
    {
      assert src <= Image(src, d, q);
    }
    assert At(after, d) == At(start, d);
    forall q | d <= q && d != q
      ensures At(after, q) ==
          if Shipped(before, src, d, q) then Some(before[Image(src, d, q)])
          else if clear || TempOfCopied(before, src, d, StrictlyBelow(d), q) then None
          else At(before, q)
    {
      assert At(after, q) == Expected(start, src, d, done, q);
    }
  }

  lemma ObstructionIsStillThere(before: Tree, start: Tree, src: Path, d: Path)
    requires Prepared(before, start, d, false) && Disjoint(src, d) && src in start
    requires Unobstructed(start, src, d, iset{} + ShippedBelow(start, src, d, d + []))
    ensures !Obstructed(before, src, d)
  {
    SourceUnchanged(before, start, src, d, false);
    forall q | Shipped(before, src, d, q) ensures !ObstructedAt(before, src, d, q) {
      assert d + [] == d && Shipped(start, src, d, q) && !ObstructedAt(start, src, d, q);
      SameObstacle(before, start, src, d, q);
    }
  }

  /** Only what is at or below the source and strictly below the target matters. */
  lemma SameObstacle(before: Tree, start: Tree, src: Path, d: Path, q: Path)
    requires forall p :: src <= p ==> At(start, p) == At(before, p)
    requires forall p :: d <= p && d != p ==> At(start, p) == At(before, p)
    requires Shipped(before, src, d, q) && Shipped(start, src, d, q)
    ensures ObstructedAt(before, src, d, q) <==> ObstructedAt(start, src, d, q)
  {
    assert src <= Image(src, d, q) && At(start, Image(src, d, q)) == At(before, Image(src, d, q));
    assert d <= TempOf(q) && TempOf(q) != d && At(start, TempOf(q)) == At(before, TempOf(q));
    assert At(start, q) == At(before, q);
    if IsTemp(q) && Untemp(q) in StrictlyBelow(d) {
      assert src <= Image(src, d, Untemp(q));
      assert At(start, Image(src, d, Untemp(q))) == At(before, Image(src, d, Untemp(q)));
    }
  }

  lemma ObstructionWasThere(before: Tree, start: Tree, src: Path, d: Path, clear: bool)
    requires Prepared(before, start, d, clear) && Disjoint(src, d) && src in start
    requires Obstructed(start, src, d)
    ensures !NoSpecial(before, src, src) || (!clear && Obstructed(before, src, d))
  {
    SourceUnchanged(before, start, src, d, clear);
    var q :| Shipped(start, src, d, q) && ObstructedAt(start, src, d, q);
    var image := Image(src, d, q);
    assert src <= image && image != src && At(start, image) == At(before, image);
    assert d <= TempOf(q) && TempOf(q) != d;
    assert clear ==> At(start, q) == None && At(start, TempOf(q)) == None;
    if !clear { SameObstacle(before, start, src, d, q); }
  }

  // ---- what a successful copy means ----

  /**
    A clearing copy of a directory is exact: below the target there is, name for name and byte
    for byte, what there is below the source, temporary-looking names included.
   */
  lemma ClearedCopyIsExact(before: Tree, after: Tree, src: Path, dst: Path, rel: Path)
    requires DirCopied(before, after, src, dst, true) && IsDir(before, src)
    ensures At(after, dst + rel) == At(before, src + rel)
  {
    if rel == [] {
      assert dst + rel == dst && src + rel == src;
    } else {
      assert Image(src, dst, dst + rel) == src + rel;
    }
  }

  /**
    A copy without clearing is an overlay: source entries arrive, an old temporary sibling of a
    copied file goes unless the source ships that name too, and everything else stays.
   */
  lemma OverlayKeepsTheRest(before: Tree, after: Tree, src: Path, dst: Path, q: Path)
    requires DirCopied(before, after, src, dst, false) && WellFormed(before)
    requires dst <= q && dst != q
    ensures Shipped(before, src, dst, q) ==> At(after, q) == Some(before[Image(src, dst, q)])
    ensures !Shipped(before, src, dst, q) && ShippedFileWithTemp(before, src, dst, q) ==> At(after, q) == None
    ensures !Shipped(before, src, dst, q) && !ShippedFileWithTemp(before, src, dst, q) ==> At(after, q) == At(before, q)
  {
    if TempOfCopied(before, src, dst, StrictlyBelow(dst), q) {
      var f := Untemp(q);
      LastIsName(before, src, dst, f);
      TempRoundTrip(f, q);
    } else if f :| Shipped(before, src, dst, f) && before[Image(src, dst, f)].File? && TempOf(f) == q {
      LastIsName(before, src, dst, f);
      TempRoundTrip(f, q);
    }
  }

  /** `q` is the temporary name of some regular file that the source ships. */
  ghost predicate ShippedFileWithTemp(before: Tree, src: Path, dst: Path, q: Path) {
    exists f :: Shipped(before, src, dst, f) && before[Image(src, dst, f)].File? && TempOf(f) == q
  }

  lemma LastIsName(t: Tree, src: Path, dst: Path, f: Path)
    requires WellFormed(t) && Shipped(t, src, dst, f)
    ensures f != [] && Last(f) != ""
  {
    var image := Image(src, dst, f);
    assert ValidPath(image) && image != [] && Last(image) == Last(f);
  }

  /**
    Why the order of the walk matters: copy a file called like the temporary name of `x` first
    and `x` second, and the first file, copied faithfully, is lost again.
   */
  lemma WrongOrderLosesTheFile(before: Tree, mid: Tree, after: Tree, src: Path, dst: Path, x: string)
    requires x != "" && Disjoint(src, dst)
    requires FileCopied(before, mid, src + [x + TEMP_SUFFIX], NormalLocation(dst + [x + TEMP_SUFFIX]))
    requires FileCopied(mid, after, src + [x], NormalLocation(dst + [x]))
    ensures At(mid, dst + [x + TEMP_SUFFIX]) == At(before, src + [x + TEMP_SUFFIX]) != None
    ensures At(after, dst + [x + TEMP_SUFFIX]) != At(before, src + [x + TEMP_SUFFIX])
  {
    NotItsOwnTemp(src, dst, x + TEMP_SUFFIX);
    TempInDirectory(dst, x);
  }

  /** In lexical order both files arrive. */
  lemma {:induction false} LexicalOrderKeepsBoth(before: Tree, mid: Tree, after: Tree, src: Path, dst: Path, x: string)
    requires x != "" && Disjoint(src, dst) && IsDir(before, dst)
    requires FileCopied(before, mid, src + [x], NormalLocation(dst + [x]))
    requires FileCopied(mid, after, src + [x + TEMP_SUFFIX], NormalLocation(dst + [x + TEMP_SUFFIX]))
    ensures Less(x, x + TEMP_SUFFIX)
    ensures At(after, dst + [x]) == At(before, src + [x])
    ensures At(after, dst + [x + TEMP_SUFFIX]) == At(before, src + [x + TEMP_SUFFIX])
  {
    LessTotal(x, x + TEMP_SUFFIX);
    ExtensionIsNotLess(x, TEMP_SUFFIX);
    assert |x| < |x + TEMP_SUFFIX|;
    NotItsOwnTemp(src, dst, x);
    NotItsOwnTemp(src, dst, x + TEMP_SUFFIX);
    TempInDirectory(dst, x);
    TempInDirectory(dst, x + TEMP_SUFFIX);
    SourceOutside(src, dst, x + TEMP_SUFFIX);
  }

  lemma TempInDirectory(dst: Path, x: string)
    ensures Parent(dst + [x]) == dst && TempOf(dst + [x]) == dst + [x + TEMP_SUFFIX]
    ensures dst + [x] != dst + [x + TEMP_SUFFIX] && dst + [x] != dst + [x + TEMP_SUFFIX + TEMP_SUFFIX]
  {
    assert |x| < |x + TEMP_SUFFIX| < |x + TEMP_SUFFIX + TEMP_SUFFIX|;
    assert (dst + [x])[|dst|] == x && (dst + [x + TEMP_SUFFIX])[|dst|] == x + TEMP_SUFFIX;
    assert (dst + [x + TEMP_SUFFIX + TEMP_SUFFIX])[|dst|] == x + TEMP_SUFFIX + TEMP_SUFFIX;
  }

  lemma NotItsOwnTemp(src: Path, dst: Path, x: string)
    requires Disjoint(src, dst)
    ensures src + [x] != TempOf(dst + [x]) && Parent(dst + [x]) == dst
  {
    assert (src + [x])[..|src|] == src && TempOf(dst + [x])[..|dst|] == dst;
    assert |src| != |dst| || src != dst;
  }

  /** What a copy into an existing directory writes is not below a source apart from it. */
  lemma SourceOutside(src: Path, dst: Path, x: string)
    requires Disjoint(src, dst)
    ensures src + [x] !in iset{dst + [x], dst + [x + TEMP_SUFFIX]}
    ensures forall y :: src + [x] != dst + [y]
    ensures !(src + [x] <= dst)
  {
    var f := src + [x];
    assert src <= f;
    forall y ensures f != dst + [y] {
      assert dst <= dst + [y];
      if f == dst + [y] { Comparable(src, dst, f); }
    }
  }
}
