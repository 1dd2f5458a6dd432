/**
  The tree walk of `copyDir`, in the order of `filepath.Walk`: siblings in byte-lexical order,
  which keeps a temporary name from destroying an entry already copied. The walk is specified
  against the tree as it was when the walk began (`start`) and the set of target paths already
  visited (`done`).
 */
module TreeCopy {
  import opened Results
  import opened Paths
  import opened Hosts
  import opened FileCopy

  predicate Disjoint(p: Path, q: Path) {
    !(p <= q) && !(q <= p)
  }

  /** The source path that is copied to `q`, for a copy from `src` to `dst`. */
  function Image(src: Path, dst: Path, q: Path): Path
    requires dst <= q
  {
    src + q[|dst|..]
  }

  /** `q` lies strictly below `dst` and the source has an entry for it. */
  predicate Shipped(start: Tree, src: Path, dst: Path, q: Path) {
    dst <= q && dst != q && Image(src, dst, q) in start
  }

  /** `q` is the temporary name of a regular file among the visited paths. */
  ghost predicate TempOfCopied(start: Tree, src: Path, dst: Path, done: iset<Path>, q: Path) {
    IsTemp(q) && Untemp(q) in done && Shipped(start, src, dst, Untemp(q)) &&
    start[Image(src, dst, Untemp(q))].File?
  }

  /** What must be at `q` once `done` has been visited. */
  ghost function Expected(start: Tree, src: Path, dst: Path, done: iset<Path>, q: Path): Option<Node> {
    if q in done && Shipped(start, src, dst, q) then Some(start[Image(src, dst, q)])
    else if TempOfCopied(start, src, dst, done, q) then None
    else At(start, q)
  }

  /**
    Something at or near `q` that the copy of its source entry cannot replace. An old temporary
    file in the place of a directory is none: the copy of its file removes it first.
   */
  ghost predicate ObstructedAt(start: Tree, src: Path, dst: Path, q: Path)
    requires Shipped(start, src, dst, q)
  {
    match start[Image(src, dst, q)]
    case Special => true
    case Directory =>
      q in start && !start[q].Directory? && !TempOfCopied(start, src, dst, StrictlyBelow(dst), q)
    case File(_) => InTheWay(start, TempOf(q), q)
  }

  ghost predicate Obstructed(start: Tree, src: Path, dst: Path) {
    exists q :: Shipped(start, src, dst, q) && ObstructedAt(start, src, dst, q)
  }

  ghost predicate Unobstructed(start: Tree, src: Path, dst: Path, done: iset<Path>) {
    forall q :: q in done && Shipped(start, src, dst, q) ==> !ObstructedAt(start, src, dst, q)
  }

  ghost predicate Copied(start: Tree, now: Tree, src: Path, dst: Path, done: iset<Path>) {
    && (forall q :: dst <= q && dst != q ==> At(now, q) == Expected(start, src, dst, done, q))
    && Unobstructed(start, src, dst, done)
  }

  ghost function ShippedBelow(start: Tree, src: Path, dst: Path, p: Path): iset<Path> {
    iset q: Path | AtOrAbove(p, q) && Shipped(start, src, dst, q)
  }

  ghost predicate NoSpecial(start: Tree, src: Path, p: Path) {
    forall q :: q in start && src <= q && p <= q && q != src ==> !start[q].Special?
  }

  // ---- one entry ----

  lemma StepDirectory(start: Tree, before: Tree, after: Tree, src: Path, dst: Path, done: iset<Path>, d: Path)
    requires Copied(start, before, src, dst, done)
    requires Shipped(start, src, dst, d) && start[Image(src, dst, d)] == Directory
    requires At(after, d) == Some(Directory) && (d in before ==> before[d] == Directory)
    requires forall q :: q != d ==> At(after, q) == At(before, q)
    ensures Copied(start, after, src, dst, done + iset{d})
  {
    forall q | dst <= q && dst != q
      ensures At(after, q) == Expected(start, src, dst, done + iset{d}, q)
    {
      assert At(before, q) == Expected(start, src, dst, done, q);
    }
    assert At(before, d) == Expected(start, src, dst, done, d);
    if d !in done && TempOfCopied(start, src, dst, done, d) {
      assert Untemp(d) in StrictlyBelow(dst);
      assert TempOfCopied(start, src, dst, StrictlyBelow(dst), d);
    }
    assert !ObstructedAt(start, src, dst, d);
    assert Unobstructed(start, src, dst, done + iset{d});
  }

  lemma StepFile(start: Tree, before: Tree, after: Tree, src: Path, dst: Path, done: iset<Path>, f: Path)
    requires Copied(start, before, src, dst, done)
    requires Shipped(start, src, dst, f) && start[Image(src, dst, f)].File? && Last(f) != ""
    requires f !in done && TempOf(f) !in done && dst <= TempOf(f) && dst != TempOf(f)
    requires !InTheWay(before, TempOf(f), f)
    requires At(after, f) == Some(start[Image(src, dst, f)]) && At(after, TempOf(f)) == None
    requires forall q :: q != f && q != TempOf(f) ==> At(after, q) == At(before, q)
    ensures Copied(start, after, src, dst, done + iset{f})
  {
    forall q | dst <= q && dst != q
      ensures At(after, q) == Expected(start, src, dst, done + iset{f}, q)
    {
      TempRoundTrip(f, q);
      assert At(before, q) == Expected(start, src, dst, done, q);
    }
    FileWasFree(start, before, src, dst, done, f);
    assert Unobstructed(start, src, dst, done + iset{f});
  }

  /** What is not in the way of a file when its turn comes was not there at the start either. */
  lemma FileWasFree(start: Tree, before: Tree, src: Path, dst: Path, done: iset<Path>, f: Path)
    requires Copied(start, before, src, dst, done)
    requires Shipped(start, src, dst, f) && start[Image(src, dst, f)].File? && Last(f) != ""
    requires f !in done && TempOf(f) !in done && dst <= TempOf(f) && dst != TempOf(f)
    requires !InTheWay(before, TempOf(f), f)
    ensures !ObstructedAt(start, src, dst, f)
  {
    var t := TempOf(f);
    TempRoundTrip(f, t);
    assert At(before, t) == Expected(start, src, dst, done, t) == At(start, t);
    assert At(before, f) == Expected(start, src, dst, done, f);
    if TempOfCopied(start, src, dst, done, f) {
      var r := Untemp(f);
      assert !ObstructedAt(start, src, dst, r);
      assert r != [] && Last(r) != "" && IsTemp(f);
      TempRoundTrip(r, f);
    }
  }

  /** The place of the entry `rel` in the target tree, computed on strings. */
  lemma {:induction false} JoinNames(dst: string, rel: Path)
    requires Rooted(dst) && ValidPath(rel) && rel != []
    ensures Join(dst, JoinSlash(rel)) == Render(PathOf(dst) + rel)
    ensures ValidPath(PathOf(dst) + rel)
  {
    PathOfValid(dst);
    JoinResolves(dst, JoinSlash(rel));
    SplitJoin(rel);
    ResolveNames(PathOf(dst), rel);
  }

  function NormalLocation(d: Path): Location
    requires d != []
  {
    Location(Parent(d), TempOf(d), d)
  }

  lemma LocationOfRender(d: Path)
    requires ValidPath(d) && d != []
    ensures Rooted(Render(d)) && BasePart(Render(d)) == Last(d) && ValidName(Last(d))
    ensures LocationOf(Render(d)) == NormalLocation(d)
  {
    DirOfRender(d);
    PathOfRender(d);
    PathOfSuffixed(Render(d), TEMP_SUFFIX);
  }

  /** The walk has reached the entry `rel` and nothing at or below it has been visited. */
  ghost predicate ReadyFor(start: Tree, now: Tree, src: Path, dst: Path, rel: Path, done: iset<Path>) {
    && WellFormed(start) && WellFormed(now) && Disjoint(src, dst)
    && src + rel in start
    && (forall q :: src <= q ==> At(now, q) == At(start, q))
    && Copied(start, now, src, dst, done)
    && (forall q :: q in done ==> !(dst + rel <= q))
    && (rel == [] ==> IsDir(now, dst))
    && (rel != [] ==> IsDir(now, dst + Parent(rel)) && TempOf(dst + rel) !in done)
    && (TempOfCopied(start, src, dst, StrictlyBelow(dst), dst + rel) ==> Untemp(dst + rel) in done)
  }

  lemma FileEntryDone(start: Tree, before: Tree, after: Tree, src: Path, dst: Path, rel: Path, done: iset<Path>)
    requires ReadyFor(start, before, src, dst, rel, done) && rel != [] && start[src + rel].File?
    requires FileCopied(before, after, src + rel, NormalLocation(dst + rel))
    requires !FileObstructed(before, src + rel, NormalLocation(dst + rel))
    ensures Copied(start, after, src, dst, done + iset{dst + rel})
  {
    var d := dst + rel;
    assert Image(src, dst, d) == src + rel && Parent(d) == dst + Parent(rel);
    FootprintIsBelow(before, dst, rel);
    assert At(before, src + rel) == At(start, src + rel);
    assert dst <= TempOf(d);
    assert ValidPath(src + rel) && Last(d) == Last(src + rel);
    StepFile(start, before, after, src, dst, done, d);
  }

  lemma DirectoryIsNotBlocked(t: Tree, p: Path)
    requires WellFormed(t) && IsDir(t, p)
    ensures !Blocked(t, p)
  {
    assert p[..|p|] == p;
    assert forall k :: 0 <= k < |p| ==> IsDir(t, p[..k]);
  }

  lemma FileEntryObstructed(start: Tree, before: Tree, src: Path, dst: Path, rel: Path, done: iset<Path>)
    requires ReadyFor(start, before, src, dst, rel, done) && rel != [] && start[src + rel].File?
    requires FileObstructed(before, src + rel, NormalLocation(dst + rel))
    ensures Obstructed(start, src, dst)
  {
    var d := dst + rel;
    assert Image(src, dst, d) == src + rel && Parent(d) == dst + Parent(rel);
    assert At(before, src + rel) == At(start, src + rel);
    DirectoryIsNotBlocked(before, Parent(d));
    assert At(before, d) == Expected(start, src, dst, done, d);
    assert At(before, TempOf(d)) == Expected(start, src, dst, done, TempOf(d));
    assert ObstructedAt(start, src, dst, d);
  }

  method CopyEntryFile(host: Host, src: Path, dst: string, rel: Path, ghost start: Tree, ghost done: iset<Path>)
    returns (ok: bool)
    requires host.Valid() && Rooted(dst) && rel != [] && ValidPath(rel) && IsDir(host.tree, PathOf(dst))
    requires Disjoint(src, PathOf(dst)) ==>
               ReadyFor(start, host.tree, src, PathOf(dst), rel, done) && start[src + rel].File?
    modifies host
    ensures host.Valid() && host.OnlyTree() && host.Confined(StrictlyBelow(PathOf(dst)))
    ensures ok && Disjoint(src, PathOf(dst)) ==>
              Copied(start, host.tree, src, PathOf(dst), done + iset{PathOf(dst) + rel})
    ensures !ok ==> host.faulted || Unfit(start, src, PathOf(dst))
  {
    ghost var before, d := host.tree, PathOf(dst) + rel;
    JoinNames(dst, rel);
    LocationOfRender(d);
    ok := CopyFile(host, src + rel, Join(dst, JoinSlash(rel)), false);
    WritesStayBelow(before, PathOf(dst), rel);
    if Disjoint(src, PathOf(dst)) {
      if ok {
        FileEntryDone(start, before, host.tree, src, PathOf(dst), rel, done);
      } else if !host.faulted {
        FileEntryObstructed(start, before, src, PathOf(dst), rel, done);
      }
    }
  }

  /** Why a walk fails when no system call faults; for overlapping trees nothing is promised. */
  ghost predicate Unfit(start: Tree, src: Path, dst: Path) {
    !Disjoint(src, dst) || Obstructed(start, src, dst)
  }

  /** As long as the target directory exists, entries are written strictly below it. */
  lemma WritesStayBelow(t: Tree, dst: Path, rel: Path)
    requires WellFormed(t) && rel != [] && IsDir(t, dst)
    ensures MissingAbove(t, dst + rel) <= StrictlyBelow(dst)
    ensures NormalLocation(dst + rel).Footprint(t) <= StrictlyBelow(dst)
  {
    var d := dst + rel;
    assert Parent(d) == dst + Parent(rel) && dst <= TempOf(d);
    forall q | q <= d && q !in t ensures dst <= q && dst != q {
      Comparable(q, dst, d);
      if q <= dst { AncestorIn(t, q, dst); }
    }
    forall q: Path | AtOrAbove(q, Parent(d)) ensures AtOrAbove(q, d) {}
  }

  lemma AncestorIn(t: Tree, d: Path, q: Path)
    requires WellFormed(t) && q in t && d <= q
    ensures d in t
  {
    assert q[..|d|] == d;
    if |q| == |d| { assert q == d; }
  }

  lemma Comparable(p: Path, q: Path, r: Path)
    requires p <= r && q <= r
    ensures p <= q || q <= p
  {
    assert p == r[..|p|] && q == r[..|q|];
  }

  lemma RelIsValid(t: Tree, src: Path, rel: Path)
    requires WellFormed(t) && src + rel in t
    ensures ValidPath(rel)
  {
    assert forall i :: 0 <= i < |rel| ==> rel[i] == (src + rel)[|src| + i];
  }

  lemma FootprintIsBelow(t: Tree, dst: Path, rel: Path)
    requires WellFormed(t) && rel != [] && IsDir(t, dst + Parent(rel))
    ensures MissingAbove(t, Parent(dst + rel)) == iset{}
    ensures NormalLocation(dst + rel).Footprint(t) <= StrictlyBelow(dst)
  {
    var d := dst + rel;
    assert Parent(d) == dst + Parent(rel);
    forall q | q <= Parent(d) ensures q in t {
      assert q == Parent(d) || q == Parent(d)[..|q|];
    }
    assert d[..|dst|] == dst && TempOf(d)[..|dst|] == dst;
  }

  // ---- a directory and its children ----

  /** The shipped paths below `d` whose first step from `d` is among `names`. */
  ghost function ShippedVia(start: Tree, src: Path, dst: Path, d: Path, names: seq<string>): iset<Path> {
    iset q: Path | AtOrAbove(d, q) && d != q && Shipped(start, src, dst, q) && q[|d|] in names
  }

  ghost predicate NoSpecialVia(start: Tree, src: Path, p: Path, names: seq<string>) {
    forall q :: q in start && p <= q && p != q && q[|p|] in names ==> !start[q].Special?
  }

  /** The names of a directory of the source, none of whose shipped entries is in `done`. */
  ghost predicate Listed(start: Tree, src: Path, dst: Path, rel: Path, done: iset<Path>, names: seq<string>) {
    && WellFormed(start) && Disjoint(src, dst) && IsDir(start, src + rel)
    && (rel != [] ==> dst + rel in done)
    && (forall q :: q in done ==> !(dst + rel <= q && dst + rel != q))
    && Sorted(names)
    && (forall n :: n in names <==> src + rel + [n] in start)
  }

  /** The walk is inside the directory `rel` and has visited the given names. */
  ghost predicate Walking(start: Tree, now: Tree, src: Path, dst: Path, rel: Path, done: iset<Path>,
                          visited: seq<string>) {
    && WellFormed(now) && IsDir(now, dst + rel)
    && (forall q :: src <= q ==> At(now, q) == At(start, q))
    && Copied(start, now, src, dst, done + ShippedVia(start, src, dst, dst + rel, visited))
  }

  /** When a sibling's turn comes, neither it nor anything below it nor its temporary name has been visited. */
  lemma NotYetVisited(start: Tree, src: Path, dst: Path, rel: Path, done: iset<Path>, names: seq<string>, i: nat)
    requires i < |names| && Listed(start, src, dst, rel, done, names)
    ensures var child := dst + (rel + [names[i]]);
            forall q :: q in done + ShippedVia(start, src, dst, dst + rel, names[..i]) ==>
              !(child <= q) && q != TempOf(child)
  {
    var d, n := dst + rel, names[i];
    var child := dst + (rel + [n]);
    assert child == d + [n];
    forall j | 0 <= j < i ensures names[j] != n && names[j] != n + TEMP_SUFFIX {
      assert Less(names[j], n);
      LessIrreflexive(n);
      ExtensionIsNotLess(n, TEMP_SUFFIX);
    }
    forall q | q in done + ShippedVia(start, src, dst, d, names[..i]) ensures !(child <= q) && q != TempOf(child) {
      assert child[|d|] == n && TempOf(child)[|d|] == n + TEMP_SUFFIX;
      assert d <= child && d <= TempOf(child);
    }
  }

  lemma ChildReady(start: Tree, now: Tree, src: Path, dst: Path, rel: Path, done: iset<Path>, names: seq<string>,
                   i: nat)
    requires i < |names| && Listed(start, src, dst, rel, done, names)
    requires Walking(start, now, src, dst, rel, done, names[..i])
    ensures ReadyFor(start, now, src, dst, rel + [names[i]], done + ShippedVia(start, src, dst, dst + rel, names[..i]))
  {
    var child := rel + [names[i]];
    assert src + child == src + rel + [names[i]] && dst + child == dst + rel + [names[i]];
    assert names[i] in names;
    assert dst + Parent(child) == dst + rel && child[..|rel|] == rel;
    NotYetVisited(start, src, dst, rel, done, names, i);
    if TempOfCopied(start, src, dst, StrictlyBelow(dst), dst + child) {
      FileBeforeTemp(start, src, dst, rel, done, names, i);
    }
  }

  /** When the turn of a temporary name comes, its file has been visited. */
  lemma FileBeforeTemp(start: Tree, src: Path, dst: Path, rel: Path, done: iset<Path>, names: seq<string>, i: nat)
    requires i < |names| && Listed(start, src, dst, rel, done, names)
    requires TempOfCopied(start, src, dst, StrictlyBelow(dst), dst + (rel + [names[i]]))
    ensures Untemp(dst + (rel + [names[i]])) in ShippedVia(start, src, dst, dst + rel, names[..i])
  {
    var d, t := dst + rel, dst + (rel + [names[i]]);
    var f := Untemp(t);
    var m := Last(f);
    assert t == d + [names[i]] && Parent(t) == d && f == d + [m] && names[i] == m + TEMP_SUFFIX;
    assert Image(src, dst, f) == src + rel + [m];
    assert m in names;
    var j :| 0 <= j < |names| && names[j] == m;
    if j > i { ExtensionIsNotLess(m, TEMP_SUFFIX); }
    assert m == names[..i][j];
    assert d <= f && f[|d|] == m;
  }

  lemma ChildDone(start: Tree, before: Tree, after: Tree, src: Path, dst: Path, rel: Path, done: iset<Path>,
                  names: seq<string>, i: nat)
    requires i < |names| && Listed(start, src, dst, rel, done, names)
    requires Walking(start, before, src, dst, rel, done, names[..i])
    requires WellFormed(after) && forall q :: q !in StrictlyBelow(dst) ==> At(after, q) == At(before, q)
    requires Copied(start, after, src, dst, done + ShippedVia(start, src, dst, dst + rel, names[..i])
                                                 + ShippedBelow(start, src, dst, dst + rel + [names[i]]))
    ensures Walking(start, after, src, dst, rel, done, names[..i + 1])
  {
    ChildVisited(start, src, dst, dst + rel, names, i);
    var visited := done + ShippedVia(start, src, dst, dst + rel, names[..i + 1]);
    assert visited == done + ShippedVia(start, src, dst, dst + rel, names[..i])
                           + ShippedBelow(start, src, dst, dst + rel + [names[i]]);
    if rel != [] {
      assert Image(src, dst, dst + rel) == src + rel;
      assert At(after, dst + rel) == Expected(start, src, dst, visited, dst + rel);
    } else {
      assert dst + rel == dst && At(after, dst) == At(before, dst);
    }
  }

  /** Visiting one more child extends the visited names by one. */
  lemma ChildVisited(start: Tree, src: Path, dst: Path, d: Path, names: seq<string>, i: nat)
    requires i < |names|
    ensures ShippedVia(start, src, dst, d, names[..i]) + ShippedBelow(start, src, dst, d + [names[i]])
         == ShippedVia(start, src, dst, d, names[..i + 1])
  {
    var n := names[i];
    assert names[..i + 1] == names[..i] + [n];
    forall q ensures d + [n] <= q <==> d <= q && d != q && q[|d|] == n {
      if d <= q && d != q && q[|d|] == n { assert d + [n] == q[..|d| + 1]; }
      if d + [n] <= q { assert q[|d|] == (d + [n])[|d|] && d == (d + [n])[..|d|]; }
    }
  }

  /** Every shipped path below the directory goes through one of its entries. */
  lemma AllVisited(start: Tree, src: Path, dst: Path, rel: Path, names: seq<string>)
    requires WellFormed(start) && forall n :: n in names <==> src + rel + [n] in start
    ensures ShippedVia(start, src, dst, dst + rel, names)
         == iset q: Path | AtOrAbove(dst + rel, q) && dst + rel != q && Shipped(start, src, dst, q)
    ensures NoSpecialVia(start, src, src + rel, names) ==>
              forall q :: q in start && src + rel <= q && src + rel != q ==> !start[q].Special?
  {
    var d, p := dst + rel, src + rel;
    forall q | q in start && p <= q && p != q ensures q[|p|] in names {
      assert q[..|p| + 1] == p + [q[|p|]];
      assert q[..|p| + 1] == if |q| == |p| + 1 then q else q[..|p| + 1];
    }
    forall q | d <= q && d != q && Shipped(start, src, dst, q) ensures q[|d|] in names {
      var image := Image(src, dst, q);
      assert q[|dst|..] == rel + q[|d|..];
      assert p <= image && image[|p|] == q[|d|];
    }
  }

  method CopyChildren(host: Host, src: Path, dst: string, rel: Path, names: seq<string>,
                      ghost start: Tree, ghost done: iset<Path>)
    returns (ok: bool)
    requires host.Valid() && Rooted(dst) && ValidPath(rel) && ValidPath(names) && IsDir(host.tree, PathOf(dst))
    requires |src + rel| <= host.maxDepth
    requires Disjoint(src, PathOf(dst)) ==>
               Listed(start, src, PathOf(dst), rel, done, names)
                 && Walking(start, host.tree, src, PathOf(dst), rel, done, [])
    modifies host
    ensures host.Valid() && host.OnlyTree() && host.Confined(StrictlyBelow(PathOf(dst)))
    ensures names == [] ==> ok && host.tree == old(host.tree)
    ensures ok && Disjoint(src, PathOf(dst)) ==>
              Walking(start, host.tree, src, PathOf(dst), rel, done, names)
                && NoSpecialVia(start, src, src + rel, names)
    ensures !ok ==> host.faulted || Unfit(start, src, PathOf(dst))
    decreases host.maxDepth + 1 - |src + rel|, 0
  {
    var i := 0;
    assert names[..0] == [];
    while i < |names|
      invariant 0 <= i <= |names|
      invariant host.Valid() && host.OnlyTree() && host.Confined(StrictlyBelow(PathOf(dst)))
      invariant i == 0 ==> host.tree == old(host.tree)
      invariant Disjoint(src, PathOf(dst)) ==>
                  Walking(start, host.tree, src, PathOf(dst), rel, done, names[..i])
                  && NoSpecialVia(start, src, src + rel, names[..i])
    {
      assert At(host.tree, PathOf(dst)) == At(old(host.tree), PathOf(dst));
      NamesOnPath(src, PathOf(dst), rel, names[i]);
      ok := CopyChild(host, src, dst, rel, names, i, start, done);
      if !ok { return; }
      i := i + 1;
    }
    assert names[..i] == names;
    ok := true;
  }

  /** One child, and what it adds to the part of the walk that is done. */
  method CopyChild(host: Host, src: Path, dst: string, rel: Path, names: seq<string>, i: nat,
                   ghost start: Tree, ghost done: iset<Path>)
    returns (ok: bool)
    requires host.Valid() && Rooted(dst) && ValidPath(rel) && ValidPath(names) && IsDir(host.tree, PathOf(dst))
    requires |src + rel| <= host.maxDepth && i < |names|
    requires Disjoint(src, PathOf(dst)) ==>
               Listed(start, src, PathOf(dst), rel, done, names)
               && Walking(start, host.tree, src, PathOf(dst), rel, done, names[..i])
               && NoSpecialVia(start, src, src + rel, names[..i])
    modifies host
    ensures host.Valid() && host.OnlyTree() && host.Confined(StrictlyBelow(PathOf(dst)))
    ensures ok && Disjoint(src, PathOf(dst)) ==>
              Walking(start, host.tree, src, PathOf(dst), rel, done, names[..i + 1])
              && NoSpecialVia(start, src, src + rel, names[..i + 1])
    ensures !ok ==> host.faulted || Unfit(start, src, PathOf(dst))
    decreases host.maxDepth - |src + rel|, 2
  {
    ghost var before, d := host.tree, PathOf(dst);
    ghost var visited := done + ShippedVia(start, src, d, d + rel, names[..i]);
    if Disjoint(src, d) { ChildReady(start, host.tree, src, d, rel, done, names, i); }
    NamesOnPath(src, d, rel, names[i]);
    ok := CopyEntry(host, src, dst, rel + [names[i]], start, visited);
    if ok && Disjoint(src, d) {
      ChildDone(start, before, host.tree, src, d, rel, done, names, i);
      NoSpecialStep(start, src, rel, names, i);
    }
  }

  lemma NamesOnPath(src: Path, dst: Path, rel: Path, n: string)
    ensures src + (rel + [n]) == src + rel + [n] && dst + (rel + [n]) == dst + rel + [n]
    ensures |src + (rel + [n])| == |src + rel| + 1
  {
  }

  lemma NoSpecialStep(start: Tree, src: Path, rel: Path, names: seq<string>, i: nat)
    requires i < |names| && NoSpecialVia(start, src, src + rel, names[..i])
    requires NoSpecial(start, src, src + (rel + [names[i]]))
    ensures NoSpecialVia(start, src, src + rel, names[..i + 1])
  {
    var p := src + rel;
    forall q | q in start && p <= q && p != q && q[|p|] in names[..i + 1] ensures !start[q].Special? {
      if q[|p|] !in names[..i] {
        assert q[|p|] == names[i];
        assert src + (rel + [names[i]]) == q[..|p| + 1];
        assert src == p[..|src|] == q[..|src|];
      }
    }
  }

  /** The directory entry itself: its names are read, then it is made in the target. */
  method EnterDirectory(host: Host, src: Path, dst: string, rel: Path, ghost start: Tree, ghost done: iset<Path>)
    returns (names: Option<seq<string>>, ghost visited: iset<Path>)
    requires host.Valid() && Rooted(dst) && ValidPath(rel) && IsDir(host.tree, PathOf(dst))
              && IsDir(host.tree, src + rel)
    requires Disjoint(src, PathOf(dst)) ==>
               ReadyFor(start, host.tree, src, PathOf(dst), rel, done) && IsDir(start, src + rel)
    modifies host
    ensures host.Valid() && host.OnlyTree() && host.Confined(StrictlyBelow(PathOf(dst)))
    ensures rel == [] ==> host.tree == old(host.tree)
    ensures visited == if rel == [] then done else done + iset{PathOf(dst) + rel}
    ensures names.Some? ==> ValidPath(names.value)
    ensures names.Some? ==> forall n :: n in names.value <==> src + rel + [n] in old(host.tree)
    ensures names.Some? && Disjoint(src, PathOf(dst)) ==>
              && Listed(start, src, PathOf(dst), rel, visited, names.value)
              && Walking(start, host.tree, src, PathOf(dst), rel, visited, [])
    ensures names.None? ==> host.faulted || Unfit(start, src, PathOf(dst))
  {
    ghost var before, d := host.tree, PathOf(dst) + rel;
    visited := if rel == [] then done else done + iset{d};
    names := host.ReadDirNames(src + rel);
    if names.None? { return; }
    ListedNamesAreValid(before, src + rel, names.value);
    if rel != [] {
      var made := MakeEntry(host, src, dst, rel, start, done);
      if !made { return None, visited; }
    } else {
      assert d == PathOf(dst);
    }
    if Disjoint(src, PathOf(dst)) {
      assert ShippedVia(start, src, PathOf(dst), d, []) == iset{};
      assert visited + iset{} == visited;
      NamesWereThere(start, before, src, rel, names.value);
    }
  }

  lemma ListedNamesAreValid(t: Tree, p: Path, names: seq<string>)
    requires WellFormed(t) && forall n :: n in names <==> p + [n] in t
    ensures ValidPath(names)
  {
    forall i | 0 <= i < |names| ensures ValidName(names[i]) {
      assert names[i] in names && (p + [names[i]])[|p|] == names[i];
    }
  }

  lemma NamesWereThere(start: Tree, before: Tree, src: Path, rel: Path, names: seq<string>)
    requires forall q :: src <= q ==> At(before, q) == At(start, q)
    requires forall n :: n in names <==> src + rel + [n] in before
    ensures forall n :: n in names <==> src + rel + [n] in start
  {
    forall n ensures src + rel + [n] in before <==> src + rel + [n] in start {
      assert src <= src + rel + [n];
      assert At(before, src + rel + [n]) == At(start, src + rel + [n]);
    }
  }

  method MakeEntry(host: Host, src: Path, dst: string, rel: Path, ghost start: Tree, ghost done: iset<Path>)
    returns (made: bool)
    requires host.Valid() && Rooted(dst) && ValidPath(rel) && rel != [] && IsDir(host.tree, PathOf(dst))
    requires Disjoint(src, PathOf(dst)) ==>
               ReadyFor(start, host.tree, src, PathOf(dst), rel, done) && IsDir(start, src + rel)
    modifies host
    ensures host.Valid() && host.OnlyTree() && host.Confined(StrictlyBelow(PathOf(dst)))
    ensures made ==> IsDir(host.tree, PathOf(dst) + rel)
    ensures made && Disjoint(src, PathOf(dst)) ==>
              Copied(start, host.tree, src, PathOf(dst), done + iset{PathOf(dst) + rel})
    ensures !made ==> host.faulted || Unfit(start, src, PathOf(dst))
  {
    ghost var before, d := host.tree, PathOf(dst) + rel;
    JoinNames(dst, rel);
    PathOfRender(d);
    made := host.MkdirAll(PathOf(Join(dst, JoinSlash(rel))));
    WritesStayBelow(before, PathOf(dst), rel);
    if Disjoint(src, PathOf(dst)) {
      if made {
        DirEntryDone(start, before, host.tree, src, PathOf(dst), rel, done);
      } else {
        DirEntryObstructed(start, before, src, PathOf(dst), rel, done);
      }
    }
  }

  lemma DirEntryFootprint(start: Tree, before: Tree, src: Path, dst: Path, rel: Path, done: iset<Path>)
    requires ReadyFor(start, before, src, dst, rel, done) && rel != []
    ensures MissingAbove(before, dst + rel) <= iset{dst + rel} && iset{dst + rel} <= StrictlyBelow(dst)
  {
    assert Parent(dst + rel) == dst + Parent(rel);
    OnlyLastIsMissing(before, dst + rel);
  }

  lemma DirEntryDone(start: Tree, before: Tree, after: Tree, src: Path, dst: Path, rel: Path, done: iset<Path>)
    requires ReadyFor(start, before, src, dst, rel, done) && rel != [] && IsDir(start, src + rel)
    requires WellFormed(after) && IsDir(after, dst + rel)
    requires forall q :: q !in MissingAbove(before, dst + rel) ==> At(after, q) == At(before, q)
    ensures Copied(start, after, src, dst, done + iset{dst + rel})
  {
    DirEntryFootprint(start, before, src, dst, rel, done);
    if dst + rel in before { assert At(after, dst + rel) == At(before, dst + rel); }
    assert Image(src, dst, dst + rel) == src + rel;
    StepDirectory(start, before, after, src, dst, done, dst + rel);
  }

  lemma OnlyLastIsMissing(t: Tree, d: Path)
    requires WellFormed(t) && d != [] && IsDir(t, Parent(d))
    ensures MissingAbove(t, d) == if d in t then iset{} else iset{d}
    ensures Blocked(t, d) <==> d in t && !t[d].Directory?
  {
    forall q | q <= d && q != d ensures IsDir(t, q) {
      assert q == Parent(d) || q == Parent(d)[..|q|];
    }
    assert d[..|d|] == d;
    forall k | 0 <= k < |d| ensures IsDir(t, d[..k]) {
      assert d[..k] <= d && |d[..k]| == k;
    }
    var last := if d in t then iset{} else iset{d};
    forall q ensures q in MissingAbove(t, d) <==> q in last {
      if q <= d && q != d { assert IsDir(t, q); }
    }
  }

  lemma DirEntryObstructed(start: Tree, before: Tree, src: Path, dst: Path, rel: Path, done: iset<Path>)
    requires ReadyFor(start, before, src, dst, rel, done) && rel != [] && IsDir(start, src + rel)
    ensures Blocked(before, dst + rel) ==> Obstructed(start, src, dst)
  {
    var d := dst + rel;
    assert Parent(d) == dst + Parent(rel);
    OnlyLastIsMissing(before, d);
    assert Image(src, dst, d) == src + rel;
    assert At(before, d) == Expected(start, src, dst, done, d);
    assert TempOfCopied(start, src, dst, StrictlyBelow(dst), d) ==> TempOfCopied(start, src, dst, done, d);
    if Blocked(before, d) { assert ObstructedAt(start, src, dst, d); }
  }

  method CopyEntry(host: Host, src: Path, dst: string, rel: Path, ghost start: Tree, ghost done: iset<Path>)
    returns (ok: bool)
    requires host.Valid() && Rooted(dst) && ValidPath(rel) && IsDir(host.tree, PathOf(dst))
    requires |src + rel| <= host.maxDepth + 1
    requires Disjoint(src, PathOf(dst)) ==> ReadyFor(start, host.tree, src, PathOf(dst), rel, done)
    modifies host
    ensures host.Valid() && host.OnlyTree() && host.Confined(StrictlyBelow(PathOf(dst)))
    ensures rel == [] && (forall n :: src + rel + [n] !in old(host.tree)) ==> host.tree == old(host.tree)
    ensures ok ==> src + rel in old(host.tree)
    ensures ok && Disjoint(src, PathOf(dst)) ==>
              && Copied(start, host.tree, src, PathOf(dst),
                 done + ShippedBelow(start, src, PathOf(dst), PathOf(dst) + rel))
              && NoSpecial(start, src, src + rel)
    ensures !ok ==> host.faulted || Unfit(start, src, PathOf(dst))
    decreases host.maxDepth + 1 - |src + rel|, 1
  {
    ghost var d := PathOf(dst);
    var known := host.Attempt();
    if !known { return false; }
    assert Disjoint(src, d) ==> At(host.tree, src + rel) == At(start, src + rel);
    if src + rel !in host.tree { return false; }
    if IsDir(host.tree, src + rel) {
      ghost var visited;
      var names;
      names, visited := EnterDirectory(host, src, dst, rel, start, done);
      if names.None? { return false; }
      assert names.value != [] ==> src + rel + [names.value[0]] in old(host.tree);
      assert At(host.tree, d) == At(old(host.tree), d);
      ok := CopyChildren(host, src, dst, rel, names.value, start, visited);
      if Disjoint(src, d) { DirectoryVisited(start, src, d, rel, done, names.value); }
    } else {
      if Disjoint(src, d) { LeafVisited(start, src, d, rel, done); }
      if rel == [] { return true; }
      if host.tree[src + rel].Special? {
        if Disjoint(src, d) {
          assert Image(src, d, d + rel) == src + rel;
          assert ObstructedAt(start, src, d, d + rel);
        }
        return false;
      }
      ok := CopyEntryFile(host, src, dst, rel, start, done);
    }
  }

  lemma DirectoryVisited(start: Tree, src: Path, dst: Path, rel: Path, done: iset<Path>, names: seq<string>)
    requires WellFormed(start) && IsDir(start, src + rel)
    requires forall n :: n in names <==> src + rel + [n] in start
    ensures (if rel == [] then done else done + iset{dst + rel}) + ShippedVia(start, src, dst, dst + rel, names)
         == done + ShippedBelow(start, src, dst, dst + rel)
    ensures NoSpecialVia(start, src, src + rel, names) ==> NoSpecial(start, src, src + rel)
  {
    AllVisited(start, src, dst, rel, names);
    if rel != [] { assert Image(src, dst, dst + rel) == src + rel; } else { assert dst + rel == dst; }
  }

  lemma LeafVisited(start: Tree, src: Path, dst: Path, rel: Path, done: iset<Path>)
    requires WellFormed(start) && src + rel in start && !start[src + rel].Directory?
    ensures ShippedBelow(start, src, dst, dst + rel) == if rel == [] then iset{} else iset{dst + rel}
    ensures !start[src + rel].Special? || rel == [] ==> NoSpecial(start, src, src + rel)
  {
    forall q | q in start && src + rel <= q ensures q == src + rel {
      assert q[..|src + rel|] == src + rel;
    }
    forall q | dst + rel <= q && Shipped(start, src, dst, q) ensures q == dst + rel {
      assert q[|dst|..] == rel + q[|dst + rel|..];
      assert src + rel <= Image(src, dst, q);
    }
    if rel != [] { assert Image(src, dst, dst + rel) == src + rel; } else { assert src + rel == src; }
  }
}
