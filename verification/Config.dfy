/** The daemon's configuration: defaults, validation of the allowlist, and the list of references. */
module Config {
  import opened Results
  import opened Text
  import opened Paths
  import opened Safety

  datatype ConfigError =
    | NoPrefix | SchemeInPrefix | NoRepos | PollTooShort | RootNotAbsolute(index: nat) | RootIsEverything(index: nat)

  datatype RepoRef = RepoRef(fullRef: string, name: string, tag: string)

  const SECOND: int := 1_000_000_000
  const DEFAULT_POLL_INTERVAL: int := 5 * 60 * SECOND
  const STORAGE_PREFIX: string := "/var/lib/orascout/"
  const DEFAULT_ARTIFACTS_DIR: string := STORAGE_PREFIX + "artifacts"
  const DEFAULT_STATE_FILE: string := STORAGE_PREFIX + "state.json"
  const DEFAULT_LOCK_FILE: string := "/var/run/orascout.lock"

  function CleanRoot(r: string): string {
    Clean(TrimSpace(r))
  }

  predicate UsableRoot(r: string) {
    Rooted(TrimSpace(r)) && CleanRoot(r) != "/"
  }

  /** The first `n` roots are cleaned, the others are as they were. */
  predicate RewrittenUpTo(given: seq<string>, roots: seq<string>, n: nat) {
    && |roots| == |given|
    && (forall j :: 0 <= j < |given| ==> roots[j] == if j < n then CleanRoot(given[j]) else given[j])
  }

  /** The allowlist after validation: cleaned up to the first unusable root, if roots were reached at all. */
  predicate RootsRewritten(given: seq<string>, roots: seq<string>, error: Option<ConfigError>) {
    match error
    case None => RewrittenUpTo(given, roots, |given|)
    case Some(RootNotAbsolute(i)) => i < |given| && !UsableRoot(given[i]) && RewrittenUpTo(given, roots, i)
    case Some(RootIsEverything(i)) => i < |given| && !UsableRoot(given[i]) && RewrittenUpTo(given, roots, i)
    case Some(_) => roots == given
  }

  lemma RootRewritten(given: seq<string>, roots: seq<string>, i: nat)
    requires i < |given| && RewrittenUpTo(given, roots, i)
    ensures roots[i] == given[i]
    ensures RewrittenUpTo(given, roots[i := CleanRoot(given[i])], i + 1)
  {
  }

  lemma RewrittenIsNormal(given: seq<string>, roots: seq<string>)
    requires RewrittenUpTo(given, roots, |given|)
    requires forall j :: 0 <= j < |given| ==> UsableRoot(given[j])
    ensures NormalRoots(roots)
  {
    forall r | r in roots ensures Rooted(r) && Clean(r) == r && r != "/" {
      var j :| 0 <= j < |roots| && roots[j] == r;
      CleanIsNormalForm(TrimSpace(given[j]));
    }
  }

  /** `strings.TrimSuffix(prefix, "/")` */
  function TrimSlash(prefix: string): string {
    if prefix != "" && prefix[|prefix| - 1] == '/' then prefix[..|prefix| - 1] else prefix
  }

  /** One entry of `repos`, already trimmed: cut at the first colon, `latest` without one. */
  function ParseRepo(prefix: string, r: string): RepoRef {
    var (name, tag) := match IndexOf(r, ':')
                       case None => (r, "latest")
                       case Some(i) => (r[..i], r[i + 1..]);
    RepoRef(FullRef(prefix, name, tag), name, tag)
  }

  function FullRef(prefix: string, name: string, tag: string): string {
    TrimSlash(prefix) + "/" + name + ":" + tag
  }

  /** The entries that are not blank, in order. */
  function ParseRepos(prefix: string, repos: seq<string>): seq<RepoRef> {
    if repos == [] then []
    else
      var r := TrimSpace(repos[|repos| - 1]);
      ParseRepos(prefix, repos[..|repos| - 1]) + (if r == "" then [] else [ParseRepo(prefix, r)])
  }

  class Config {
    var registryPrefix: string
    var repos: seq<string>
    var pollInterval: int
    var artifactsDir: string
    var stateFile: string
    var lockFile: string
    var allowedTargetRoots: seq<string>

    constructor (registryPrefix: string, repos: seq<string>, pollInterval: int, artifactsDir: string,
                 stateFile: string, lockFile: string, allowedTargetRoots: seq<string>)
      ensures this.registryPrefix == registryPrefix && this.repos == repos && this.pollInterval == pollInterval
      ensures this.artifactsDir == artifactsDir && this.stateFile == stateFile && this.lockFile == lockFile
      ensures this.allowedTargetRoots == allowedTargetRoots
    {
      this.registryPrefix, this.repos, this.pollInterval := registryPrefix, repos, pollInterval;
      this.artifactsDir, this.stateFile, this.lockFile := artifactsDir, stateFile, lockFile;
      this.allowedTargetRoots := allowedTargetRoots;
    }

    method ApplyDefaults()
      modifies `pollInterval, `artifactsDir, `stateFile, `lockFile
      ensures pollInterval == if old(pollInterval) == 0 then DEFAULT_POLL_INTERVAL else old(pollInterval)
      ensures artifactsDir == if old(artifactsDir) == "" then DEFAULT_ARTIFACTS_DIR else old(artifactsDir)
      ensures stateFile == if old(stateFile) == "" then DEFAULT_STATE_FILE else old(stateFile)
      ensures lockFile == if old(lockFile) == "" then DEFAULT_LOCK_FILE else old(lockFile)
    {
      if pollInterval == 0 { pollInterval := DEFAULT_POLL_INTERVAL; }
      if artifactsDir == "" { artifactsDir := DEFAULT_ARTIFACTS_DIR; }
      if stateFile == "" { stateFile := DEFAULT_STATE_FILE; }
      if lockFile == "" { lockFile := DEFAULT_LOCK_FILE; }
    }

    /** Success leaves an allowlist in normal form; a bad entry leaves the ones before it rewritten. */
    method Validate() returns (error: Option<ConfigError>)
      modifies `allowedTargetRoots
      ensures error.None? <==>
                && registryPrefix != "" && !Contains(registryPrefix, "://") && repos != [] && pollInterval >= SECOND
                && forall r :: r in old(allowedTargetRoots) ==> UsableRoot(r)
      ensures error.None? ==> NormalRoots(allowedTargetRoots)
      ensures RootsRewritten(old(allowedTargetRoots), allowedTargetRoots, error)
    {
      if registryPrefix == "" { return Some(NoPrefix); }
      if Contains(registryPrefix, "://") { return Some(SchemeInPrefix); }
      if repos == [] { return Some(NoRepos); }
      if pollInterval < SECOND { return Some(PollTooShort); }
      error := NormaliseRoots();
    }

    method NormaliseRoots() returns (error: Option<ConfigError>)
      modifies `allowedTargetRoots
      ensures error.None? <==> forall r :: r in old(allowedTargetRoots) ==> UsableRoot(r)
      ensures error.Some? ==> error.value.RootNotAbsolute? || error.value.RootIsEverything?
      ensures error.None? ==> NormalRoots(allowedTargetRoots)
      ensures RootsRewritten(old(allowedTargetRoots), allowedTargetRoots, error)
    {
      ghost var given := allowedTargetRoots;
      var i := 0;
      while i < |allowedTargetRoots|
        invariant 0 <= i <= |allowedTargetRoots|
        invariant RewrittenUpTo(given, allowedTargetRoots, i)
        invariant forall j :: 0 <= j < i ==> UsableRoot(given[j])
      {
        var r := TrimSpace(allowedTargetRoots[i]);
        if !Rooted(r) { return Some(RootNotAbsolute(i)); }
        var cleaned := Clean(r);
        if cleaned == "/" { return Some(RootIsEverything(i)); }
        RootRewritten(given, allowedTargetRoots, i);
        allowedTargetRoots := allowedTargetRoots[i := cleaned];
        i := i + 1;
      }
      RewrittenIsNormal(given, allowedTargetRoots);
      error := None;
    }

    method ParsedRepos() returns (out: seq<RepoRef>)
      ensures out == ParseRepos(registryPrefix, repos)
    {
      out := [];
      var i := 0;
      while i < |repos|
        invariant 0 <= i <= |repos|
        invariant out == ParseRepos(registryPrefix, repos[..i])
      {
        assert repos[..i + 1][..i] == repos[..i];
        var r := TrimSpace(repos[i]);
        if r != "" { out := out + [ParseRepo(registryPrefix, r)]; }
        i := i + 1;
      }
      assert repos[..i] == repos;
    }
  }

  /** A full reference determines the name and the tag it was built from. */
  lemma FullRefInjective(prefix: string, name: string, tag: string, name': string, tag': string)
    requires ':' !in name && ':' !in name'
    requires FullRef(prefix, name, tag) == FullRef(prefix, name', tag')
    ensures name == name' && tag == tag'
  {
    var head := TrimSlash(prefix) + "/";
    var a, b := name + ":" + tag, name' + ":" + tag';
    assert FullRef(prefix, name, tag)[|head|..] == a && FullRef(prefix, name', tag')[|head|..] == b;
    assert a[..|name|] == name && b[..|name'|] == name';
    FirstIndex(a, ':', |name|);
    FirstIndex(b, ':', |name'|);
    assert a[|name| + 1..] == tag && b[|name'| + 1..] == tag';
  }

  /**
    The name and the tag rebuild the entry, or the entry has no colon and stands for `latest`;
    and two entries watch the same reference only if they agree in both.
   */
  lemma ParsedRefsDiffer(prefix: string, r: string, r': string)
    ensures var a := ParseRepo(prefix, r);
            && ':' !in a.name
            && (a.name + ":" + a.tag == r || (':' !in r && a.name == r && a.tag == "latest"))
    ensures var a, b := ParseRepo(prefix, r), ParseRepo(prefix, r');
            a.fullRef == b.fullRef <==> a.name == b.name && a.tag == b.tag
  {
    var a, b := ParseRepo(prefix, r), ParseRepo(prefix, r');
    var i := IndexOf(r, ':');
    if i.Some? { assert r[..i.value] + ":" + r[i.value + 1..] == r; }
    if a.fullRef == b.fullRef { FullRefInjective(prefix, a.name, a.tag, b.name, b.tag); }
  }

  /** What is joined onto a directory without `..` stays below it. */
  lemma {:induction false} JoinedStaysBelow(dir: string, name: string)
    requires Rooted(dir) && AllDotFree(Split(name))
    ensures PathOf(dir) <= PathOf(Join(dir, name))
  {
    JoinResolves(dir, name);
    assert PathOf(dir) + [] == PathOf(dir);
    ResolveUnder(PathOf(dir), [], Split(name));
    PathOfValid(dir);
    SplitIsSlashFree(name);
    ResolveValid(PathOf(dir), Split(name));
    PathOfRender(Resolve(true, PathOf(dir), Split(name)));
  }

  /** Artifacts of a plainly named repository are kept below the daemon's storage by default. */
  lemma {:induction false} DefaultArtifactDir(name: string)
    requires AllDotFree(Split(name))
    ensures STORAGE <= PathOf(Join(DEFAULT_ARTIFACTS_DIR, name))
  {
    DefaultPaths();
    JoinedStaysBelow(DEFAULT_ARTIFACTS_DIR, name);
  }

  lemma DefaultPaths()
    ensures Rooted(DEFAULT_ARTIFACTS_DIR) && PathOf(DEFAULT_ARTIFACTS_DIR) == STORAGE + ["artifacts"]
    ensures PathOf(DEFAULT_STATE_FILE) == STORAGE + ["state.json"]
  {
    DefaultPathText("artifacts");
    DefaultPathText("state.json");
  }

  lemma DefaultPathText(last: string)
    requires ValidName(last)
    ensures Rooted(STORAGE_PREFIX + last) && PathOf(STORAGE_PREFIX + last) == STORAGE + [last]
  {
    RenderFour("var", "lib", "orascout", last);
    assert STORAGE + [last] == ["var", "lib", "orascout", last];
    PathOfRender(STORAGE + [last]);
    StoragePrefixText();
  }

  lemma RenderFour(a: string, b: string, c: string, d: string)
    ensures Render([a, b, c, d]) == "/" + a + "/" + b + "/" + c + "/" + d
  {
    var p := [a, b, c, d];
    assert p[1..] == [b, c, d] && [b, c, d][1..] == [c, d] && [c, d][1..] == [d];
    assert JoinSlash([c, d]) == c + "/" + d;
    assert JoinSlash([b, c, d]) == b + "/" + (c + "/" + d);
    assert "/" + (a + "/" + (b + "/" + (c + "/" + d))) == "/" + a + "/" + b + "/" + c + "/" + d;
  }

  lemma StoragePrefixText()
    ensures "/" + "var" + "/" + "lib" + "/" + "orascout" + "/" == STORAGE_PREFIX
  {
  }
}
