/**
  Go's `path.Clean`, `path.Dir` and `filepath.Join`/`Dir` on POSIX hosts, by their documented
  rules: split at slashes, run the elements over a stack, join again. The lemmas say that on
  rooted paths the string tests used by the daemon are tests on component sequences.
 */
module Paths {

  /** A rooted path as its components; `[]` is the root directory. */
  type Path = seq<string>

  predicate ValidName(n: string) {
    n != "" && n != "." && n != ".." && '/' !in n
  }

  predicate ValidPath(p: Path) {
    forall i :: 0 <= i < |p| ==> ValidName(p[i])
  }

  predicate SlashFree(parts: seq<string>) {
    forall i :: 0 <= i < |parts| ==> '/' !in parts[i]
  }

  function Split(s: string): (parts: seq<string>)
    ensures parts != []
  {
    if s == "" then [""]
    else
      var rest := Split(s[1..]);
      if s[0] == '/' then [""] + rest else Extend(s[0], rest)
  }

  /** One more character in front of the first element. */
  function Extend(c: char, parts: seq<string>): seq<string>
    requires parts != []
  {
    [[c] + parts[0]] + parts[1..]
  }

  function JoinSlash(parts: seq<string>): string {
    if parts == [] then ""
    else if |parts| == 1 then parts[0]
    else parts[0] + "/" + JoinSlash(parts[1..])
  }

  /** One element of an uncleaned path, applied to the directory reached so far. */
  function Step(rooted: bool, stack: seq<string>, part: string): seq<string> {
    if part == "" || part == "." then stack
    else if part != ".." then stack + [part]
    else if stack != [] && stack[|stack| - 1] != ".." then stack[..|stack| - 1]
    else if rooted then stack
    else stack + [part]
  }

  function Resolve(rooted: bool, stack: seq<string>, parts: seq<string>): seq<string>
    decreases |parts|
  {
    if parts == [] then stack else Resolve(rooted, Step(rooted, stack, parts[0]), parts[1..])
  }

  predicate Rooted(s: string) {
    s != "" && s[0] == '/'
  }

  /** `path.Clean` (and `filepath.Clean` on POSIX). */
  function Clean(s: string): string {
    var stack := Resolve(Rooted(s), [], Split(s));
    if Rooted(s) then Render(stack)
    else if stack == [] then "."
    else JoinSlash(stack)
  }

  /** The components that a rooted string denotes. */
  function PathOf(s: string): Path {
    Resolve(true, [], Split(s))
  }

  /** The normal form of a rooted path. */
  function Render(p: Path): string {
    "/" + JoinSlash(p)
  }

  /** What precedes the last slash, that slash included (empty when there is none). */
  function DirPart(s: string): (d: string)
    ensures d <= s
  {
    if s == "" || s[|s| - 1] == '/' then s else DirPart(s[..|s| - 1])
  }

  /** The element after the last slash; empty when the string ends in a slash. */
  function BasePart(s: string): (b: string)
    ensures '/' !in b && DirPart(s) + b == s
  {
    if s == "" || s[|s| - 1] == '/' then ""
    else
      var b := BasePart(s[..|s| - 1]) + [s[|s| - 1]];
      assert DirPart(s) + b == s[..|s| - 1] + [s[|s| - 1]] == s;
      b
  }

  /** `path.Dir` and, on POSIX, `filepath.Dir`. */
  function Dir(s: string): string {
    Clean(DirPart(s))
  }

  /** `filepath.Join` of two elements. */
  function Join(a: string, b: string): string {
    if a != "" then Clean(a + "/" + b)
    else if b != "" then Clean(b)
    else ""
  }

  function Parent(p: Path): Path
    requires p != []
  {
    p[..|p| - 1]
  }

  function Last(p: Path): string
    requires p != []
  {
    p[|p| - 1]
  }

  // ---- splitting and joining ----

  lemma {:induction false} SplitIsSlashFree(s: string)
    ensures SlashFree(Split(s))
  {
    if s != "" { SplitIsSlashFree(s[1..]); }
  }

  lemma {:induction false} SplitSingle(s: string)
    requires '/' !in s
    ensures Split(s) == [s]
  {
    if s != "" {
      SplitSingle(s[1..]);
      assert s == [s[0]] + s[1..];
    }
  }

  /** A slash between two strings separates their elements. */
  lemma {:induction false} SplitAtSlash(a: string, b: string)
    ensures Split(a + "/" + b) == Split(a) + Split(b)
  {
    var s := a + "/" + b;
    if a == "" {
      assert s[1..] == b;
    } else {
      assert s[1..] == a[1..] + "/" + b;
      SplitAtSlash(a[1..], b);
      ExtendConcat(a[0], Split(a[1..]), Split(b));
      assert [""] + (Split(a[1..]) + Split(b)) == [""] + Split(a[1..]) + Split(b);
    }
  }

  lemma ExtendConcat(c: char, a: seq<string>, b: seq<string>)
    requires a != []
    ensures Extend(c, a + b) == Extend(c, a) + b
  {
    assert (a + b)[1..] == a[1..] + b;
  }

  /** The elements with `t` appended to the last one. */
  function ExtendLast(parts: seq<string>, t: string): seq<string>
    requires parts != []
  {
    parts[..|parts| - 1] + [parts[|parts| - 1] + t]
  }

  lemma ExtendBothEnds(c: char, parts: seq<string>, t: string)
    requires parts != []
    ensures ExtendLast(Extend(c, parts), t) == Extend(c, ExtendLast(parts, t))
  {
    var n := |parts| - 1;
    if n == 0 {
      assert [c] + parts[0] + t == [c] + (parts[0] + t);
    } else {
      assert Extend(c, parts)[..n] == [[c] + parts[0]] + parts[1..n];
      assert ExtendLast(parts, t)[1..] == parts[1..n] + [parts[n] + t];
    }
  }

  /** Appending slash-free text extends the last element. */
  lemma {:induction false} SplitAppend(s: string, t: string)
    requires '/' !in t
    ensures Split(s + t) == ExtendLast(Split(s), t)
  {
    if s == "" {
      assert s + t == t;
      SplitSingle(t);
      assert "" + t == t;
    } else {
      assert (s + t)[1..] == s[1..] + t && (s + t)[0] == s[0];
      SplitAppend(s[1..], t);
      var rest := Split(s[1..]);
      if s[0] == '/' {
        assert ExtendLast([""] + rest, t) == [""] + ExtendLast(rest, t);
      } else {
        ExtendBothEnds(s[0], rest, t);
      }
    }
  }

  lemma {:induction false} SplitJoin(parts: seq<string>)
    requires parts != [] && SlashFree(parts)
    ensures Split(JoinSlash(parts)) == parts
  {
    SplitSingle(parts[0]);
    if |parts| > 1 {
      SplitJoin(parts[1..]);
      SplitAtSlash(parts[0], JoinSlash(parts[1..]));
    }
  }

  lemma {:induction false} JoinConcat(a: seq<string>, b: seq<string>)
    requires a != [] && b != []
    ensures JoinSlash(a + b) == JoinSlash(a) + "/" + JoinSlash(b)
  {
    if |a| == 1 {
      assert (a + b)[1..] == b;
    } else {
      JoinConcat(a[1..], b);
      assert (a + b)[1..] == a[1..] + b;
    }
  }

  // ---- resolution ----

  lemma {:induction false} ResolveConcat(rooted: bool, stack: seq<string>, a: seq<string>, b: seq<string>)
    ensures Resolve(rooted, stack, a + b) == Resolve(rooted, Resolve(rooted, stack, a), b)
    decreases |a|
  {
    if a == [] {
      assert a + b == b;
    } else {
      assert (a + b)[1..] == a[1..] + b;
      ResolveConcat(rooted, Step(rooted, stack, a[0]), a[1..], b);
    }
  }

  lemma {:induction false} ResolveValid(stack: seq<string>, parts: seq<string>)
    requires ValidPath(stack) && SlashFree(parts)
    ensures ValidPath(Resolve(true, stack, parts))
    decreases |parts|
  {
    if parts != [] { ResolveValid(Step(true, stack, parts[0]), parts[1..]); }
  }

  /** Proper names are pushed one after the other. */
  lemma {:induction false} ResolveNames(stack: seq<string>, names: seq<string>)
    requires ValidPath(names)
    ensures Resolve(true, stack, names) == stack + names
    decreases |names|
  {
    if names != [] {
      ResolveNames(stack + [names[0]], names[1..]);
    }
  }

  lemma PathOfValid(s: string)
    ensures ValidPath(PathOf(s))
  {
    SplitIsSlashFree(s);
    ResolveValid([], Split(s));
  }

  lemma PathOfRender(p: Path)
    requires ValidPath(p)
    ensures PathOf(Render(p)) == p && Rooted(Render(p))
    ensures p != [] ==> Split(Render(p)) == [""] + p
  {
    SplitAtSlash("", JoinSlash(p));
    assert "" + "/" + JoinSlash(p) == Render(p);
    if p == [] {
      assert Split(JoinSlash(p)) == [""] && Split(Render(p)) == ["", ""];
      assert Resolve(true, [], ["", ""]) == Resolve(true, [], ["", ""][1..]) == Resolve(true, [], [""]);
    } else {
      SplitJoin(p);
      assert Split(Render(p)) == [""] + p;
      assert ([""] + p)[1..] == p;
      ResolveNames([], p);
    }
  }

  /** Cleaning a rooted path renders its components, and cleaning twice changes nothing. */
  lemma CleanIsNormalForm(s: string)
    requires Rooted(s)
    ensures Clean(s) == Render(PathOf(s)) && Rooted(Clean(s))
    ensures PathOf(Clean(s)) == PathOf(s) && Clean(Clean(s)) == Clean(s)
  {
    PathOfValid(s);
    PathOfRender(PathOf(s));
  }

  lemma RenderInjective(p: Path, q: Path)
    requires ValidPath(p) && ValidPath(q)
    ensures Render(p) == Render(q) <==> p == q
  {
    PathOfRender(p);
    PathOfRender(q);
  }

  /** The string test `p == r || HasPrefix(p, r + "/")` is component containment. */
  lemma PrefixTestIsContainment(p: Path, r: Path)
    requires ValidPath(p) && ValidPath(r) && r != []
    ensures Render(p) == Render(r) || Render(r) + "/" <= Render(p) <==> r <= p
  {
    RenderInjective(p, r);
    if r <= p && r != p {
      assert p == r + p[|r|..];
      JoinConcat(r, p[|r|..]);
      assert Render(p) == Render(r) + "/" + JoinSlash(p[|r|..]);
    }
    if Render(r) + "/" <= Render(p) {
      var rest := Render(p)[|Render(r)| + 1..];
      assert Render(p) == Render(r) + "/" + rest;
      SplitAtSlash(Render(r), rest);
      PathOfRender(p);
      PathOfRender(r);
      if p != [] {
        assert [""] + p == [""] + r + Split(rest);
        assert p == ([""] + p)[1..] == ([""] + r + Split(rest))[1..] == r + Split(rest);
      }
    }
  }

  /** Joining onto a rooted base resolves the second element from that base. */
  lemma {:induction false} JoinResolves(a: string, b: string)
    requires Rooted(a)
    ensures Join(a, b) == Render(Resolve(true, PathOf(a), Split(b)))
    ensures PathOf(a + "/" + b) == Resolve(true, PathOf(a), Split(b))
  {
    SplitAtSlash(a, b);
    ResolveConcat(true, [], Split(a), Split(b));
  }

  lemma {:induction false} SplitDirBase(s: string)
    requires Rooted(s)
    ensures Rooted(DirPart(s))
    ensures Split(s) == Split(DirPart(s))[..|Split(DirPart(s))| - 1] + [BasePart(s)]
    ensures Split(DirPart(s))[|Split(DirPart(s))| - 1] == ""
  {
    DirPartEndsInSlash(s);
    var d := DirPart(s);
    SplitAtSlash(d[..|d| - 1], "");
    assert d == d[..|d| - 1] + "/" + "";
    SplitAppend(d, BasePart(s));
    assert "" + BasePart(s) == BasePart(s);
  }

  lemma {:induction false} DirPartEndsInSlash(s: string)
    requires Rooted(s)
    ensures DirPart(s) != "" && DirPart(s)[|DirPart(s)| - 1] == '/' && Rooted(DirPart(s))
  {
    if s[|s| - 1] != '/' { DirPartEndsInSlash(s[..|s| - 1]); }
  }

  /** A rooted path is its directory followed by its base, whatever the base is. */
  lemma {:induction false} PathOfDirBase(s: string)
    requires Rooted(s)
    ensures Rooted(DirPart(s)) && Dir(s) == Render(PathOf(DirPart(s))) && PathOf(Dir(s)) == PathOf(DirPart(s))
    ensures PathOf(s) == Step(true, PathOf(Dir(s)), BasePart(s))
  {
    SplitDirBase(s);
    CleanIsNormalForm(DirPart(s));
    var front := Split(DirPart(s))[..|Split(DirPart(s))| - 1];
    assert Split(DirPart(s)) == front + [""];
    ResolveConcat(true, [], front, [""]);
    ResolveConcat(true, [], front, [BasePart(s)]);
  }

  /** A slash-free, non-special suffix turns the base into one new name in the same directory. */
  lemma {:induction false} PathOfSuffixed(s: string, suffix: string)
    requires Rooted(s) && '/' !in suffix && |suffix| > 2
    ensures Rooted(s + suffix)
    ensures PathOf(s + suffix) == PathOf(Dir(s)) + [BasePart(s) + suffix]
    ensures ValidName(BasePart(s) + suffix)
  {
    SplitDirBase(s);
    PathOfDirBase(s);
    SplitAppend(s, suffix);
    var front := Split(DirPart(s))[..|Split(DirPart(s))| - 1];
    assert Split(DirPart(s)) == front + [""];
    assert Split(s + suffix) == front + [BasePart(s) + suffix];
    ResolveConcat(true, [], front, [""]);
    ResolveConcat(true, [], front, [BasePart(s) + suffix]);
  }

  /** The directory and base of a normal form are its parent and last component. */
  lemma DirOfRender(p: Path)
    requires ValidPath(p) && p != []
    ensures PathOf(Dir(Render(p))) == Parent(p) && Dir(Render(p)) == Render(Parent(p))
    ensures BasePart(Render(p)) == Last(p)
  {
    var s := Render(p);
    PathOfRender(p);
    SplitDirBase(s);
    PathOfDirBase(s);
    assert Split(s)[|Split(s)| - 1] == BasePart(s) == Last(p);
    assert Step(true, PathOf(Dir(s)), BasePart(s)) == PathOf(Dir(s)) + [BasePart(s)];
    assert p[..|p| - 1] == PathOf(Dir(s));
  }

  /**
    The directory of a path as written is the directory of its cleaned form, unless the path
    ends in a slash or in `/.`; then it is the cleaned path itself.
   */
  lemma {:induction false} DirOfCleaned(s: string)
    requires Rooted(s) && BasePart(s) != ".."
    ensures BasePart(s) in {"", "."} ==> Dir(s) == Clean(s)
    ensures BasePart(s) !in {"", "."} ==> PathOf(s) != [] && Parent(PathOf(s)) == PathOf(Dir(s))
    ensures BasePart(s) !in {"", "."} ==> Dir(s) == Dir(Clean(s)) && Last(PathOf(s)) == BasePart(s)
  {
    PathOfDirBase(s);
    CleanIsNormalForm(s);
    if BasePart(s) !in {"", "."} {
      assert PathOf(s) == PathOf(Dir(s)) + [BasePart(s)];
      PathOfValid(s);
      DirOfRender(PathOf(s));
      assert Parent(PathOf(s)) == PathOf(Dir(s));
    }
  }
}
