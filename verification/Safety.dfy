/**
  The path checks that run before any side effect: the deny tables, the allowlist, the
  depth rule for clearing, the guard behind it, and the join that keeps manifest paths
  inside the artifact directory. The theorems restate each string check on components.
 */
module Safety {
  import opened Results
  import opened Text
  import opened Paths
  import opened Requests

  datatype Reason =
    | EmptyPath | Traversal | NotAbsolute | Protected | InSubtree | OutsideRoots
    | TooShallow | Unresolvable | EscapesArtifact

  datatype Verdict = Accepted | Rejected(reason: Reason)

  /** Directories that may never be a target themselves; the root directory is `[]`. */
  const EXACT_SYSTEM: seq<Path> := [
    [], ["bin"], ["boot"], ["dev"], ["etc"], ["lib"], ["lib64"], ["proc"], ["root"], ["run"], ["sbin"], ["sys"]]
  const EXACT_DATA: seq<Path> := [
    ["home"], ["media"], ["mnt"], ["opt"], ["srv"], ["tmp"], ["usr"], ["usr", "local"], ["var"],
    ["var", "lib"], ["var", "log"], ["var", "tmp"], ["var", "www"]]
  const EXACT_PATHS: seq<Path> := EXACT_SYSTEM + EXACT_DATA

  /** Trees in which nothing may be deployed at any depth. */
  const SUBTREES_SYSTEM: seq<Path> := [
    ["bin"], ["boot"], ["dev"], ["etc"], ["lib"], ["lib32"], ["lib64"], ["libx32"], ["proc"], ["root"],
    ["run"], ["sbin"], ["sys"]]
  const SUBTREES_USR: seq<Path> := [
    ["usr", "bin"], ["usr", "lib"], ["usr", "lib32"], ["usr", "lib64"], ["usr", "libexec"], ["usr", "sbin"],
    ["usr", "share"]]
  const SUBTREES_VAR: seq<Path> := [
    ["var", "lib", "orascout"], ["var", "log", "orascout"], ["var", "run"], ["var", "spool", "cron"]]
  const SUBTREE_PATHS: seq<Path> := SUBTREES_SYSTEM + SUBTREES_USR + SUBTREES_VAR

  const VAR_SPOOL: Path := ["var", "spool"]
  const STORAGE: Path := ["var", "lib", "orascout"]

  /** The daemon's test for "p is r or below r". */
  predicate Covers(r: string, p: string) {
    p == r || r + "/" <= p
  }

  /** The lookup in the first table, with the table entries written as strings. */
  predicate IsProtected(p: string) {
    exists s :: s in EXACT_PATHS && p == Render(s)
  }

  /** The loop over the second table. */
  predicate InProtectedSubtree(p: string) {
    exists s :: s in SUBTREE_PATHS && Covers(Render(s), p)
  }

  /** The loop over the allowlist. */
  predicate InSomeRoot(p: string, roots: seq<string>) {
    exists r :: r in roots && Covers(r, p)
  }

  function ValidateTargetPath(raw: string, allowedRoots: seq<string>): Verdict {
    if TrimSpace(raw) == "" then Rejected(EmptyPath)
    else if Contains(raw, "..") then Rejected(Traversal)
    else if !Rooted(raw) then Rejected(NotAbsolute)
    else ValidateCleaned(Clean(raw), allowedRoots)
  }

  function ValidateCleaned(p: string, allowedRoots: seq<string>): Verdict {
    if IsProtected(p) then Rejected(Protected)
    else if InProtectedSubtree(p) then Rejected(InSubtree)
    else if allowedRoots == [] || InSomeRoot(p, allowedRoots) then Accepted
    else Rejected(OutsideRoots)
  }

  /** `strings.Trim(p, "/")`. */
  function TrimSlashes(p: string): string {
    if p != "" && p[0] == '/' then TrimSlashes(p[1..])
    else if p != "" && p[|p| - 1] == '/' then TrimSlashes(p[..|p| - 1])
    else p
  }

  function ValidateClearPath(raw: string, allowedRoots: seq<string>): Verdict {
    match ValidateTargetPath(raw, allowedRoots)
    case Rejected(r) => Rejected(r)
    case Accepted =>
      if |Split(TrimSlashes(Clean(raw)))| < 2 then Rejected(TooShallow) else Accepted
  }

  datatype Resolution = ResolvesTo(resolved: string) | NotExist | Failed

  /**
    The check before deletion, given what symlink resolution said. The branch that drops a
    drive prefix also fires on POSIX when the first component starts with a colon.
   */
  function GuardClearDir(resolution: Resolution): Verdict {
    match resolution
    case NotExist => Accepted
    case Failed => Rejected(Unresolvable)
    case ResolvesTo(resolved) =>
      var p := if |resolved| >= 2 && resolved[1] == ':'
               then (if resolved[2..] == "" then "/" else resolved[2..])
               else resolved;
      ValidateClearPath(p, [])
  }

  function SecurePathJoin(baseDir: string, rel: string): Result<string, Reason> {
    if TrimSpace(rel) == "" then Err(EmptyPath)
    else if Rooted(rel) then Err(NotAbsolute)
    else
      var base := Clean(baseDir);
      var joined := Join(base, rel);
      if joined != base && !(base + "/" <= joined) then Err(EscapesArtifact) else Ok(joined)
  }

  function ValidateRequest(req: Request): Verdict {
    var spec := req.spec;
    match spec.kind
    case Jar => ValidateTargetPath(spec.targetPath, req.allowedRoots)
    case War =>
      (match ValidateTargetPath(spec.targetPath, req.allowedRoots)
       case Rejected(r) => Rejected(r)
       case Accepted =>
         if OrDefault(spec.targetClearParent)
         then ValidateClearPath(Dir(Clean(spec.targetPath)), req.allowedRoots)
         else Accepted)
    case Static =>
      (match ValidateTargetPath(spec.targetPath, req.allowedRoots)
       case Rejected(r) => Rejected(r)
       case Accepted =>
         if OrDefault(spec.targetClear)
         then ValidateClearPath(Clean(spec.targetPath), req.allowedRoots)
         else Accepted)
    case RunOnce => Accepted
    case HookOnly => Accepted
  }

  // ---- the checks on components ----

  /** A protected directory itself, or anything in a protected subtree. */
  predicate Denied(p: Path) {
    p in EXACT_PATHS || exists s :: s in SUBTREE_PATHS && s <= p
  }

  /** No roots, or one of them at or above `p`. */
  predicate UnderRoots(p: Path, roots: seq<string>) {
    roots == [] || exists r :: r in roots && PathOf(r) <= p
  }

  /** What `Config.Validate` leaves in the allowlist. */
  predicate NormalRoots(roots: seq<string>) {
    forall r :: r in roots ==> Rooted(r) && Clean(r) == r && r != "/"
  }


  /** A temporary name is longer than every name in the tables. */
  const LONGEST_DENIED_NAME: nat := 8

  predicate PlainEntry(p: Path) {
    && ValidPath(p)
    && (forall i :: 0 <= i < |p| ==> |p[i]| <= LONGEST_DENIED_NAME)
    && (p != [] ==> p[0][0] != ':')
  }

  lemma ExactAncestors()
    ensures {[], ["usr"], ["var"], ["var", "lib"], ["var", "log"]} <= set p | p in EXACT_PATHS
  {
    assert [] in EXACT_SYSTEM;
    assert ["usr"] in EXACT_DATA && ["var"] in EXACT_DATA && ["var", "lib"] in EXACT_DATA
      && ["var", "log"] in EXACT_DATA;
  }

  lemma ExactEntries(p: Path)
    requires p in EXACT_PATHS
    ensures PlainEntry(p) && |p| <= 2
    ensures p != [] ==> Parent(p) in EXACT_PATHS
  {
    ExactAncestors();
    if p in EXACT_SYSTEM {
      ExactSystemEntries(p);
    } else {
      ExactDataEntries(p);
    }
    if |p| == 2 { assert Parent(p) == [p[0]]; }
  }

  lemma ExactSystemEntries(p: Path)
    requires p in EXACT_SYSTEM
    ensures PlainEntry(p) && |p| <= 1
  {
  }

  lemma ExactDataEntries(p: Path)
    requires p in EXACT_DATA
    ensures PlainEntry(p) && 1 <= |p| <= 2
    ensures |p| == 2 ==> p[0] in {"usr", "var"}
  {
  }

  lemma SubtreeEntries(p: Path)
    requires p in SUBTREE_PATHS
    ensures PlainEntry(p) && 1 <= |p| <= 3
    ensures Parent(p) in EXACT_PATHS || p == VAR_SPOOL + ["cron"]
  {
    ExactAncestors();
    if p in SUBTREES_SYSTEM {
      SubtreesSystemEntries(p);
    } else if p in SUBTREES_USR {
      SubtreesUsrEntries(p);
    } else {
      SubtreesVarEntries(p);
    }
    assert Parent(p) == if |p| == 1 then [] else if |p| == 2 then [p[0]] else [p[0], p[1]];
  }

  lemma SubtreesSystemEntries(p: Path)
    requires p in SUBTREES_SYSTEM
    ensures PlainEntry(p) && |p| == 1
  {
  }

  lemma SubtreesUsrEntries(p: Path)
    requires p in SUBTREES_USR
    ensures PlainEntry(p) && |p| == 2 && p[0] == "usr"
  {
  }

  lemma SubtreesVarEntries(p: Path)
    requires p in SUBTREES_VAR
    ensures PlainEntry(p) && 2 <= |p| <= 3 && p[0] == "var"
    ensures |p| == 3 ==> p[1] in {"lib", "log"} || p == VAR_SPOOL + ["cron"]
  {
  }

  lemma {:induction false} ExactIsClosedUpwards(p: Path, q: Path)
    requires p <= q && q in EXACT_PATHS
    ensures p in EXACT_PATHS
    decreases |q|
  {
    if p != q {
      ExactEntries(q);
      assert p <= Parent(q);
      ExactIsClosedUpwards(p, Parent(q));
    }
  }

  /**
    Deploying below an accepted path stays clear of the denylist, with one exception: the
    tables protect `/var/spool/cron` but not `/var/spool`.
   */
  lemma OnlyVarSpoolIsAboveDenied(p: Path, q: Path)
    requires p <= q && !Denied(p) && Denied(q)
    ensures p == VAR_SPOOL && VAR_SPOOL + ["cron"] <= q
  {
    if q in EXACT_PATHS {
      ExactIsClosedUpwards(p, q);
      assert false;
    } else {
      var s :| s in SUBTREE_PATHS && s <= q;
      SubtreeEntries(s);
      assert !(s <= p);
      assert p == q[..|p|] && s == q[..|s|];
      assert p <= Parent(s);
      if Parent(s) in EXACT_PATHS {
        ExactIsClosedUpwards(p, Parent(s));
        assert false;
      } else {
        assert Parent(s) == VAR_SPOOL;
        if p != VAR_SPOOL {
          assert p <= Parent(VAR_SPOOL) == ["var"];
          assert ["var"] in EXACT_DATA;
          ExactIsClosedUpwards(p, ["var"]);
          assert false;
        }
      }
    }
  }

  lemma ProtectedIsExact(p: Path)
    requires ValidPath(p)
    ensures IsProtected(Render(p)) <==> p in EXACT_PATHS
  {
    forall s | s in EXACT_PATHS ensures Render(s) == Render(p) <==> s == p {
      ExactEntries(s);
      RenderInjective(s, p);
    }
  }

  lemma SubtreeTestIsContainment(p: Path)
    requires ValidPath(p)
    ensures InProtectedSubtree(Render(p)) <==> exists s :: s in SUBTREE_PATHS && s <= p
  {
    forall s | s in SUBTREE_PATHS ensures Covers(Render(s), Render(p)) <==> s <= p {
      SubtreeEntries(s);
      PrefixTestIsContainment(p, s);
    }
  }

  lemma RootTestIsContainment(roots: seq<string>, p: Path)
    requires NormalRoots(roots) && ValidPath(p)
    ensures InSomeRoot(Render(p), roots) <==> exists r :: r in roots && PathOf(r) <= p
  {
    forall r | r in roots ensures Covers(r, Render(p)) <==> PathOf(r) <= p {
      CleanIsNormalForm(r);
      PathOfValid(r);
      assert PathOf(r) != [];
      PrefixTestIsContainment(p, PathOf(r));
    }
  }

  lemma CleanedAcceptedIff(p: Path, roots: seq<string>)
    requires ValidPath(p) && NormalRoots(roots)
    ensures ValidateCleaned(Render(p), roots).Accepted? <==> !Denied(p) && UnderRoots(p, roots)
  {
    ProtectedIsExact(p);
    SubtreeTestIsContainment(p);
    RootTestIsContainment(roots, p);
  }

  lemma OnlyCleanedPathMatters(raw: string, roots: seq<string>)
    requires Rooted(raw) && !Contains(raw, "..")
    ensures ValidateTargetPath(raw, roots) == ValidateCleaned(Clean(raw), roots)
  {
    TrimSpaceEmptyIffBlank(raw);
    assert !IsSpace(raw[0]);
  }

  /** The string checks accept exactly the paths that the component rules allow. */
  lemma TargetAcceptedIff(raw: string, roots: seq<string>)
    requires NormalRoots(roots)
    ensures ValidateTargetPath(raw, roots).Accepted? <==>
              && Rooted(raw) && !Contains(raw, "..")
              && !Denied(PathOf(raw)) && UnderRoots(PathOf(raw), roots)
  {
    if Rooted(raw) {
      TrimSpaceEmptyIffBlank(raw);
      assert !IsSpace(raw[0]);
      PathOfValid(raw);
      CleanIsNormalForm(raw);
      CleanedAcceptedIff(PathOf(raw), roots);
    }
  }

  // ---- clearing ----

  lemma {:induction false} TrimNothing(s: string)
    requires s != "" && s[0] != '/' && s[|s| - 1] != '/'
    ensures TrimSlashes(s) == s
  {
  }

  lemma {:induction false} JoinEnds(p: Path)
    requires ValidPath(p) && p != []
    ensures var j := JoinSlash(p); j != "" && j[0] != '/' && j[|j| - 1] != '/'
  {
    assert p[0][0] in p[0] && p[0][|p[0]| - 1] in p[0];
    if |p| > 1 { JoinEnds(p[1..]); }
  }

  lemma DepthOfRender(p: Path)
    requires ValidPath(p)
    ensures |Split(TrimSlashes(Render(p)))| == if p == [] then 1 else |p|
  {
    assert Render(p)[1..] == JoinSlash(p);
    if p != [] {
      JoinEnds(p);
      TrimNothing(JoinSlash(p));
      SplitJoin(p);
    }
  }

  /** Clearing needs everything a target needs, and two levels of directories. */
  lemma ClearAcceptedIff(raw: string, roots: seq<string>)
    requires NormalRoots(roots)
    ensures ValidateClearPath(raw, roots).Accepted? <==>
              ValidateTargetPath(raw, roots).Accepted? && |PathOf(raw)| >= 2
  {
    if ValidateTargetPath(raw, roots).Accepted? {
      TargetAcceptedIff(raw, roots);
      CleanIsNormalForm(raw);
      PathOfValid(raw);
      DepthOfRender(PathOf(raw));
    }
  }

  /** `..` as two neighbouring dots, found from the left. */
  predicate HasDots(s: string) {
    |s| >= 2 && ((s[0] == '.' && s[1] == '.') || HasDots(s[1..]))
  }

  lemma {:induction false} HasDotsIsContains(s: string)
    ensures HasDots(s) <==> Contains(s, "..")
  {
    if HasDots(s) {
      if s[0] == '.' && s[1] == '.' {
        assert ".." <= s[0..];
      } else {
        HasDotsIsContains(s[1..]);
        var i :| 0 <= i <= |s[1..]| && ".." <= s[1..][i..];
        assert s[1..][i..] == s[i + 1..];
      }
    } else if Contains(s, "..") {
      var i :| 0 <= i <= |s| && ".." <= s[i..];
      HasDotsAt(s, i);
    }
  }

  lemma {:induction false} HasDotsAt(s: string, i: nat)
    requires i + 1 < |s| && s[i] == '.' && s[i + 1] == '.'
    ensures HasDots(s)
  {
    if i > 0 { HasDotsAt(s[1..], i - 1); }
  }

  lemma {:induction false} HasDotsJoined(a: string, b: string)
    ensures HasDots(a + "/" + b) <==> HasDots(a) || HasDots(b)
  {
    if a == "" {
      assert (a + "/" + b)[1..] == b;
    } else {
      assert (a + "/" + b)[1..] == a[1..] + "/" + b;
      HasDotsJoined(a[1..], b);
    }
  }

  lemma {:induction false} DotFreeParts(parts: seq<string>)
    requires parts != []
    ensures HasDots(JoinSlash(parts)) <==> exists i :: 0 <= i < |parts| && HasDots(parts[i])
  {
    if |parts| > 1 {
      DotFreeParts(parts[1..]);
      HasDotsJoined(parts[0], JoinSlash(parts[1..]));
      forall i | 0 <= i < |parts| - 1 ensures parts[1..][i] == parts[i + 1] {}
      if HasDots(JoinSlash(parts[1..])) {
        var i :| 0 <= i < |parts[1..]| && HasDots(parts[1..][i]);
        assert HasDots(parts[i + 1]);
      }
      if i :| 1 <= i < |parts| && HasDots(parts[i]) {
        assert HasDots(parts[1..][i - 1]);
      }
    }
  }

  lemma {:induction false} JoinSplit(s: string)
    ensures JoinSlash(Split(s)) == s
  {
    if s != "" {
      JoinSplit(s[1..]);
      var rest := Split(s[1..]);
      if s[0] == '/' {
        JoinConcat([""], rest);
        assert "" + "/" + s[1..] == s;
      } else if |rest| > 1 {
        assert Split(s) == [[s[0]] + rest[0]] + rest[1..];
        JoinConcat([[s[0]] + rest[0]], rest[1..]);
        assert [s[0]] + rest[0] + "/" + JoinSlash(rest[1..]) == [s[0]] + (rest[0] + "/" + JoinSlash(rest[1..]));
      }
    }
  }

  predicate AllDotFree(parts: seq<string>) {
    forall part :: part in parts ==> !HasDots(part)
  }

  lemma {:induction false} ResolveKeepsDotFree(stack: seq<string>, parts: seq<string>)
    requires AllDotFree(stack) && AllDotFree(parts)
    ensures AllDotFree(Resolve(true, stack, parts))
    decreases |parts|
  {
    if parts != [] {
      var next := Step(true, stack, parts[0]);
      ResolveKeepsDotFree(next, parts[1..]);
    }
  }

  /** A path written without `..` still has none after cleaning, and neither has its base. */
  lemma {:induction false} CleanKeepsDotFree(s: string)
    requires Rooted(s) && !Contains(s, "..")
    ensures !Contains(Clean(s), "..") && BasePart(s) != ".."
  {
    HasDotsIsContains(s);
    var parts := Split(s);
    JoinSplit(s);
    DotFreeParts(parts);
    SplitDirBase(s);
    assert !HasDots(parts[|parts| - 1]) && parts[|parts| - 1] == BasePart(s);
    ResolveKeepsDotFree([], parts);
    CleanIsNormalForm(s);
    RenderDotFree(PathOf(s));
    HasDotsIsContains(Clean(s));
  }

  lemma RenderDotFree(p: Path)
    requires AllDotFree(p)
    ensures !HasDots(Render(p))
  {
    assert Render(p) == "" + "/" + JoinSlash(p);
    HasDotsJoined("", JoinSlash(p));
    if p != [] { DotFreeParts(p); }
  }

  /**
    The validator looks at the parent of the cleaned target; the strategy clears the directory
    of the target as written. These are the same directory unless the target ends in a slash
    or in `/.`, and then the cleared directory is the target itself. Either way the directory
    that is cleared satisfies the clear rule under the same roots.
   */
  lemma {:induction false} ClearedDirIsValidated(raw: string, roots: seq<string>)
    requires NormalRoots(roots)
    requires ValidateTargetPath(raw, roots).Accepted?
    requires ValidateClearPath(Dir(Clean(raw)), roots).Accepted?
    ensures ValidateClearPath(Dir(raw), roots).Accepted?
    ensures BasePart(raw) in {"", "."} ==> Dir(raw) == Clean(raw)
    ensures BasePart(raw) !in {"", "."} ==> Dir(raw) == Dir(Clean(raw))
  {
    CleanKeepsDotFree(raw);
    DirOfCleaned(raw);
    if BasePart(raw) in {"", "."} {
      CleanedTargetIsClearable(raw, roots);
    }
  }

  lemma CleanedTargetIsClearable(raw: string, roots: seq<string>)
    requires NormalRoots(roots) && Rooted(raw) && !Contains(raw, "..")
    requires ValidateTargetPath(raw, roots).Accepted?
    requires ValidateClearPath(Dir(Clean(raw)), roots).Accepted?
    ensures ValidateClearPath(Clean(raw), roots).Accepted?
  {
    CleanKeepsDotFree(raw);
    CleanIsNormalForm(raw);
    OnlyCleanedPathMatters(raw, roots);
    OnlyCleanedPathMatters(Clean(raw), roots);
    PathOfValid(raw);
    ParentAcceptedIsDeep(PathOf(raw), roots);
    ClearAcceptedIff(Clean(raw), roots);
  }

  lemma ParentAcceptedIsDeep(p: Path, roots: seq<string>)
    requires ValidPath(p) && NormalRoots(roots)
    requires ValidateClearPath(Dir(Render(p)), roots).Accepted?
    ensures |p| >= 3
  {
    ClearAcceptedIff(Dir(Render(p)), roots);
    PathOfRender(p);
    if p == [] {
      PathOfDirBase(Render(p));
    } else {
      DirOfRender(p);
    }
  }

  /** The daemon's own storage is neither at, above nor below anything that is accepted. */
  lemma StorageIsApart(p: Path)
    requires !Denied(p)
    ensures !(p <= STORAGE) && !(STORAGE <= p)
  {
    assert STORAGE in SUBTREES_VAR && STORAGE in SUBTREE_PATHS;
    assert Denied(STORAGE);
    assert !(VAR_SPOOL + ["cron"] <= STORAGE) by {
      assert |STORAGE[1]| == 3 && |(VAR_SPOOL + ["cron"])[1]| == 5;
    }
    if p <= STORAGE {
      OnlyVarSpoolIsAboveDenied(p, STORAGE);
    }
  }

  // ---- the guard behind the validator ----

  /**
    For a resolved directory the guard demands the clear rule, and, when the first component
    starts with a colon, the same rule again without the first two characters. So it never
    lets a protected directory through, and it agrees with the rule exactly on paths without
    such a colon and on those whose remainder passes too.
   */
  lemma GuardAcceptedIff(resolved: string)
    requires Rooted(resolved) && Clean(resolved) == resolved
    ensures GuardClearDir(ResolvesTo(resolved)).Accepted? <==>
              && ValidateClearPath(resolved, []).Accepted?
              && (|resolved| >= 2 && resolved[1] == ':' ==> ValidateClearPath(resolved[2..], []).Accepted?)
  {
    if |resolved| >= 2 && resolved[1] == ':' {
      var rest := resolved[2..];
      if rest == "" {
        assert "/"[0..] == "/";
        ClearAcceptedIff("/", []);
        CleanIsNormalForm("/");
        PathOfRender([]);
        ClearAcceptedIff("", []);
      } else if ValidateClearPath(rest, []).Accepted? {
        ColonPathIsClearable(resolved);
      }
    }
  }

  lemma ColonPathIsClearable(resolved: string)
    requires |resolved| >= 2 && resolved[0] == '/' && resolved[1] == ':'
    requires ValidateClearPath(resolved[2..], []).Accepted?
    ensures ValidateClearPath(resolved, []).Accepted?
  {
    var rest := resolved[2..];
    TargetAcceptedIff(rest, []);
    ClearAcceptedIff(rest, []);
    ColonPath(resolved);
    var p := PathOf(resolved);
    PathOfValid(resolved);
    if p in EXACT_PATHS { ExactEntries(p); }
    if s :| s in SUBTREE_PATHS && s <= p { SubtreeEntries(s); }
    TargetAcceptedIff(resolved, []);
    ClearAcceptedIff(resolved, []);
  }

  lemma ColonPath(resolved: string)
    requires |resolved| >= 2 && resolved[0] == '/' && resolved[1] == ':'
    requires Rooted(resolved[2..]) && !Contains(resolved[2..], "..")
    ensures PathOf(resolved) == [":"] + PathOf(resolved[2..]) && !Contains(resolved, "..")
  {
    var tail := resolved[3..];
    var parts := Split(tail);
    assert resolved == "/:" + "/" + tail && resolved[2..] == "" + "/" + tail;
    SplitAtSlash("/:", tail);
    SplitAtSlash("", tail);
    assert Split("/:") == ["", ":"] by {
      SplitAtSlash("", ":");
      SplitSingle(":");
      assert "/:" == "" + "/" + ":";
    }
    ResolveConcat(true, [], ["", ":"], parts);
    ResolveConcat(true, [], [""], parts);
    assert Resolve(true, [], ["", ":"]) == [":"] by {
      assert ["", ":"][1..] == [":"];
      assert Step(true, [], ":") == [":"];
    }
    HasDotsIsContains(resolved);
    HasDotsIsContains(resolved[2..]);
    assert resolved[1..][1..] == resolved[2..] && !HasDots(resolved[1..]);
    HasDotsJoined("", tail);
    JoinSplit(tail);
    DotFreeParts(parts);
    ResolveUnder([":"], [], parts);
  }

  /** Without `..`, resolving below a longer stack only adds its front. */
  lemma {:induction false} ResolveUnder(front: seq<string>, stack: seq<string>, parts: seq<string>)
    requires AllDotFree(parts)
    ensures Resolve(true, front + stack, parts) == front + Resolve(true, stack, parts)
    decreases |parts|
  {
    if parts != [] {
      assert parts[0] in parts && parts[0] != "..";
      assert front + (stack + [parts[0]]) == front + stack + [parts[0]];
      ResolveUnder(front, Step(true, stack, parts[0]), parts[1..]);
    }
  }

  // ---- joining manifest paths onto the artifact directory ----

  /**
    The join succeeds exactly for non-blank relative paths that, followed from the base,
    end at the base or below it, whatever they do on the way; the result is that place in
    normal form. With the root directory as base only paths that lead back to it pass.
   */
  lemma {:induction false} SecurePathJoinIff(baseDir: string, rel: string)
    requires Rooted(baseDir)
    ensures var base := PathOf(baseDir);
            var reached := Resolve(true, base, Split(rel));
            && (SecurePathJoin(baseDir, rel).Ok? <==>
                 !Blank(rel) && !Rooted(rel) && base <= reached && (base == [] ==> reached == []))
            && (SecurePathJoin(baseDir, rel).Ok? ==>
                 SecurePathJoin(baseDir, rel).value == Render(reached) && ValidPath(reached))
  {
    TrimSpaceEmptyIffBlank(rel);
    CleanIsNormalForm(baseDir);
    var base := PathOf(baseDir);
    var reached := Resolve(true, base, Split(rel));
    PathOfValid(baseDir);
    JoinResolves(Clean(baseDir), rel);
    SplitIsSlashFree(rel);
    ResolveValid(base, Split(rel));
    if base == [] {
      RenderInjective(reached, []);
      assert Render([]) == "/";
      if reached != [] {
        JoinEnds(reached);
        assert Render(reached)[1] != '/';
      }
    } else {
      PrefixTestIsContainment(reached, base);
    }
  }
}
