/** Copying one file: its content is written under a temporary sibling name, which is then renamed. */
module FileCopy {
  import opened Results
  import opened Paths
  import opened Hosts

  const TEMP_SUFFIX: string := ".orascout.tmp"

  function TempOf(p: Path): Path
    requires p != []
  {
    Parent(p) + [Last(p) + TEMP_SUFFIX]
  }

  predicate IsTemp(q: Path) {
    q != [] && |Last(q)| > |TEMP_SUFFIX| && Last(q)[|Last(q)| - |TEMP_SUFFIX|..] == TEMP_SUFFIX
  }

  /** The file whose temporary name is `q`. */
  function Untemp(q: Path): Path
    requires IsTemp(q)
  {
    Parent(q) + [Last(q)[..|Last(q)| - |TEMP_SUFFIX|]]
  }

  lemma TempRoundTrip(f: Path, q: Path)
    requires f != [] && Last(f) != ""
    ensures TempOf(f) == q <==> IsTemp(q) && Untemp(q) == f
    ensures TempOf(f) != f && |TempOf(f)| == |f|
  {
    var t := TempOf(f);
    assert Last(t) == Last(f) + TEMP_SUFFIX && Parent(t) == Parent(f);
    assert Last(t)[..|Last(f)|] == Last(f);
    assert f == Parent(f) + [Last(f)];
    if IsTemp(q) && Untemp(q) == f {
      assert Parent(f) == Parent(q);
      assert Last(q) == Last(f) + TEMP_SUFFIX;
      assert q == Parent(q) + [Last(q)];
    }
  }

  // ---- one file ----

  /** Where a copy writes: the directory it makes, its temporary name and its final name. */
  datatype Location = Location(dir: Path, temp: Path, target: Path) {
    /** The final name is a new name in the directory, not the directory itself. */
    predicate Proper() {
      target != dir
    }

    ghost predicate Valid() {
      && ValidPath(dir) && ValidPath(temp) && ValidPath(target)
      && temp != [] && Parent(temp) == dir && temp != target
      && (target == dir || (target != [] && Parent(target) == dir))
    }

    ghost function Footprint(before: Tree): iset<Path> {
      MissingAbove(before, dir) + iset{target, temp}
    }
  }

  function LocationOf(dst: string): Location {
    Location(PathOf(Dir(dst)), PathOf(dst + TEMP_SUFFIX), PathOf(dst))
  }

  lemma {:induction false} LocationIsValid(dst: string)
    requires Rooted(dst) && BasePart(dst) != ".."
    ensures var at := LocationOf(dst);
            && at.Valid()
            && at.temp == at.dir + [BasePart(dst) + TEMP_SUFFIX]
            && at.target == (if BasePart(dst) in {"", "."} then at.dir else at.dir + [BasePart(dst)])
  {
    PathOfValid(Dir(dst));
    PathOfValid(dst);
    PathOfValid(dst + TEMP_SUFFIX);
    PathOfSuffixed(dst, TEMP_SUFFIX);
    PathOfDirBase(dst);
    NamesInOneDirectory(PathOf(Dir(dst)), BasePart(dst));
  }

  lemma NamesInOneDirectory(dir: Path, base: string)
    ensures dir + [base] != dir + [base + TEMP_SUFFIX] && dir != dir + [base + TEMP_SUFFIX]
    ensures Parent(dir + [base]) == dir == Parent(dir + [base + TEMP_SUFFIX])
  {
    assert |base| < |base + TEMP_SUFFIX|;
    assert (dir + [base])[|dir|] == base && (dir + [base + TEMP_SUFFIX])[|dir|] == base + TEMP_SUFFIX;
  }

  /** What a successful copy of the file at `src` leaves behind. */
  ghost predicate FileCopied(before: Tree, after: Tree, src: Path, at: Location)
  {
    && at.Proper()
    && src in before && before[src].File?
    && At(after, at.target) == Some(if src == at.temp then File([]) else before[src])
    && At(after, at.temp) == None
    && IsDir(after, at.dir)
    && (forall q :: q !in at.Footprint(before) ==> At(after, q) == At(before, q))
  }

  /**
    A copy delivers the source's bytes unless the source is the copy's own temporary name: that
    file is truncated before it is read, so the target ends up empty.
   */
  lemma BytesArriveIff(before: Tree, after: Tree, src: Path, at: Location)
    requires FileCopied(before, after, src, at)
    ensures At(after, at.target) == At(before, src) <==> src != at.temp || before[src] == File([])
    ensures src == at.temp ==> At(after, at.target) == Some(File([]))
  {
  }

  /** Why a copy fails when no system call faults. */
  ghost predicate FileObstructed(before: Tree, src: Path, at: Location) {
    || src !in before || !before[src].File?
    || Blocked(before, at.dir)
    || InTheWay(before, at.temp, at.target)
    || !at.Proper()
  }

  /** The temporary name is taken by something that is not a file, or the final name by a directory. */
  predicate InTheWay(t: Tree, temp: Path, target: Path) {
    (temp in t && !t[temp].File?) || IsDir(t, target)
  }

  /** The second half of a copy, once the directory exists. */
  method WriteAndRename(host: Host, src: Path, temp: Path, target: Path) returns (ok: bool)
    requires host.Valid() && ValidPath(temp) && ValidPath(target) && temp != [] && temp != target
    requires target == Parent(temp) || (target != [] && Parent(target) == Parent(temp))
    requires IsDir(host.tree, Parent(temp)) && src in host.tree && host.tree[src].File?
    modifies host
    ensures host.Valid() && host.OnlyTree() && host.Confined(iset{temp, target})
    ensures ok ==> target != Parent(temp)
    ensures ok ==>
              host.tree == (old(host.tree) - {temp})[target := if src == temp then File([]) else old(host.tree)[src]]
    ensures ok ==> !InTheWay(old(host.tree), temp, target)
    ensures !ok ==> host.faulted || InTheWay(old(host.tree), temp, target)
  {
    var created := host.CreateTruncated(temp);
    if !created { return false; }
    var filled := host.Fill(temp, host.tree[src].content);
    if !filled {
      host.RemoveFile(temp);
      return false;
    }
    var closed := host.Attempt();
    if !closed { return false; }
    ok := host.Rename(temp, target);
  }

  method CopyFile(host: Host, src: Path, dst: string, perms: bool) returns (ok: bool)
    requires host.Valid() && Rooted(dst) && BasePart(dst) != ".."
    modifies host
    ensures host.Valid() && host.OnlyTree()
    ensures host.Confined(LocationOf(dst).Footprint(old(host.tree)))
    ensures OnlyMade(old(host.tree), host.tree, iset{LocationOf(dst).temp, LocationOf(dst).target})
    ensures ok ==> FileCopied(old(host.tree), host.tree, src, LocationOf(dst))
    ensures ok ==> !FileObstructed(old(host.tree), src, LocationOf(dst))
    ensures !ok ==> host.faulted || FileObstructed(old(host.tree), src, LocationOf(dst))
  {
    LocationIsValid(dst);
    ok := CopyTo(host, src, LocationOf(dst));
    if ok && perms { ok := host.Attempt(); }
  }

  /** The copy itself, with the three places worked out. */
  method CopyTo(host: Host, src: Path, at: Location) returns (ok: bool)
    requires host.Valid() && at.Valid()
    modifies host
    ensures host.Valid() && host.OnlyTree() && host.Confined(at.Footprint(old(host.tree)))
    ensures OnlyMade(old(host.tree), host.tree, iset{at.temp, at.target})
    ensures ok ==> FileCopied(old(host.tree), host.tree, src, at) && !FileObstructed(old(host.tree), src, at)
    ensures !ok ==> host.faulted || FileObstructed(old(host.tree), src, at)
  {
    var readable := host.Attempt();
    if !readable || !(src in host.tree && host.tree[src].File?) { return false; }
    var made := host.MkdirAll(at.dir);
    if !made { return false; }
    ghost var missing := MissingAbove(old(host.tree), at.dir);
    assert At(host.tree, src) == At(old(host.tree), src);
    assert at.temp !in missing && At(host.tree, at.temp) == At(old(host.tree), at.temp);
    assert at.Proper() ==> at.target !in missing && At(host.tree, at.target) == At(old(host.tree), at.target);
    MadeWasNotBlocked(old(host.tree), host.tree, at.dir);
    ok := WriteAndRename(host, src, at.temp, at.target);
  }
}
