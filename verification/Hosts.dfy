/**
  The host as the deploy code sees it: a tree of directories and files, the services, and
  the system calls that change them. Every call may also fail with an I/O fault.
 */
module Hosts {
  import opened Results
  import opened Paths

  newtype Byte = b: int | 0 <= b < 256
  type Bytes = seq<Byte>

  /** `Special` stands for everything that is neither a directory nor a regular file. */
  datatype Node = Directory | File(content: Bytes) | Special

  type Tree = map<Path, Node>

  function At(t: Tree, p: Path): Option<Node> {
    if p in t then Some(t[p]) else None
  }

  predicate IsDir(t: Tree, p: Path) {
    p in t && t[p].Directory?
  }

  /** Names are proper and every entry sits in a directory. */
  ghost predicate WellFormed(t: Tree) {
    && IsDir(t, [])
    && (forall p :: p in t ==> ValidPath(p))
    && (forall p, k {:trigger p[..k]} :: p in t && 0 <= k < |p| ==> IsDir(t, p[..k]))
  }

  predicate AtOrAbove(p: Path, q: Path) {
    p <= q
  }

  ghost function Below(p: Path): iset<Path> {
    iset q: Path | AtOrAbove(p, q)
  }

  ghost function StrictlyBelow(p: Path): iset<Path> {
    iset q: Path | AtOrAbove(p, q) && p != q
  }

  /** The directories that creating `p` with its parents would add. */
  ghost function MissingAbove(t: Tree, p: Path): iset<Path> {
    iset q: Path | AtOrAbove(q, p) && q !in t
  }

  /** Something other than a directory is in the way of the directory `p`. */
  predicate Blocked(t: Tree, p: Path) {
    exists k :: 0 <= k <= |p| && p[..k] in t && !t[p[..k]].Directory?
  }

  /** A directory that exists after only missing ones were added was not blocked before. */
  lemma MadeWasNotBlocked(before: Tree, after: Tree, d: Path)
    requires WellFormed(after) && IsDir(after, d)
    requires forall q :: q in before && q <= d ==> At(after, q) == At(before, q)
    ensures !Blocked(before, d)
  {
    forall k | 0 <= k <= |d| && d[..k] in before ensures before[d[..k]] == Directory {
      assert d[..k] <= d && At(after, d[..k]) == At(before, d[..k]);
      assert d[..|d|] == d;
    }
  }

  // ---- byte-lexical order of names ----

  predicate Less(a: string, b: string) {
    b != "" && (a == "" || a[0] < b[0] || (a[0] == b[0] && Less(a[1..], b[1..])))
  }

  predicate Sorted(names: seq<string>) {
    forall i, j :: 0 <= i < j < |names| ==> Less(names[i], names[j])
  }

  lemma {:induction false} LessTransitive(a: string, b: string, c: string)
    requires Less(a, b) && Less(b, c)
    ensures Less(a, c)
  {
    if a != "" && a[0] == b[0] == c[0] { LessTransitive(a[1..], b[1..], c[1..]); }
  }

  lemma {:induction false} LessTotal(a: string, b: string)
    ensures Less(a, b) || Less(b, a) || a == b
  {
    if a != "" && b != "" && a[0] == b[0] {
      LessTotal(a[1..], b[1..]);
      if a[1..] == b[1..] { assert a == [a[0]] + a[1..] == b; }
    }
  }

  /** A name comes before every proper extension of it, and never after one. */
  lemma {:induction false} ExtensionIsNotLess(a: string, suffix: string)
    ensures !Less(a + suffix, a)
  {
    if a != "" {
      assert (a + suffix)[1..] == a[1..] + suffix;
      ExtensionIsNotLess(a[1..], suffix);
    }
  }

  lemma {:induction false} LessIrreflexive(a: string)
    ensures !Less(a, a)
  {
    ExtensionIsNotLess(a, "");
    assert a + "" == a;
  }

  method Insert(names: seq<string>, n: string) returns (out: seq<string>)
    requires Sorted(names) && n !in names
    ensures Sorted(out) && multiset(out) == multiset(names) + multiset{n}
  {
    var i := 0;
    while i < |names| && Less(names[i], n)
      invariant 0 <= i <= |names|
      invariant forall j :: 0 <= j < i ==> Less(names[j], n)
    {
      i := i + 1;
    }
    out := names[..i] + [n] + names[i..];
    if i < |names| {
      LessTotal(names[i], n);
      forall j | i < j < |names| ensures Less(n, names[j]) { LessTransitive(n, names[i], names[j]); }
    }
    assert names == names[..i] + names[i..];
  }

  /** What a deploy does besides changing the tree, with the tree as it was at that moment. */
  datatype Event =
    | Stopped(unit: string, seen: Tree)
    | Started(unit: string, seen: Tree)
    | HookRan(phase: string, seen: Tree)
    | Executed(argv: seq<string>, seen: Tree)
    | HealthPassed(seen: Tree)

  /** No path is longer than the host allows. */
  predicate Shallow(t: Tree, maxDepth: nat) {
    forall q :: q in t ==> |q| <= maxDepth
  }

  ghost predicate Sound(t: Tree, maxDepth: nat) {
    WellFormed(t) && Shallow(t, maxDepth)
  }

  /** A host at one moment. */
  datatype Snapshot = Snapshot(tree: Tree, running: map<string, bool>, events: seq<Event>, faulted: bool,
                               touched: iset<Path>, origin: Tree)

  /** The trees that a host can have. */
  ghost function Trees(maxDepth: nat): iset<Tree> {
    iset t: Tree | Sound(t, maxDepth)
  }

  /** The trees that differ from `t` in `foot` only. */
  ghost function Moments(t: Tree, foot: iset<Path>): iset<Tree> {
    iset u: Tree | SameOutside(t, u, foot)
  }

  ghost predicate SameOutside(t: Tree, u: Tree, foot: iset<Path>) {
    forall q :: q !in foot ==> At(u, q) == At(t, q)
  }

  /** What was added outside `reach` are directories. */
  ghost predicate OnlyMade(before: Tree, after: Tree, reach: iset<Path>) {
    forall q :: q in after && q !in before && q !in reach ==> after[q] == Directory
  }

  /** What happens from one moment to the next stays among the moments. */
  lemma MomentsGrow(origin: Tree, touched: iset<Path>, t: Tree, foot: iset<Path>)
    requires t in Moments(origin, touched)
    ensures Moments(origin, touched) <= Moments(origin, touched + foot)
    ensures Moments(t, foot) <= Moments(origin, touched + foot)
  {
    forall u | u in Moments(t, foot) ensures u in Moments(origin, touched + foot) {
      assert SameOutside(t, u, foot) && SameOutside(origin, t, touched);
    }
    forall u | u in Moments(origin, touched) ensures u in Moments(origin, touched + foot) {
      assert SameOutside(origin, u, touched);
    }
  }

  class Host {
    /** Longer paths are refused by every system call. */
    const maxDepth: nat
    var tree: Tree
    var running: map<string, bool>
    /** What happened besides changes of the tree, in order. */
    var events: seq<Event>
    /**
      Whether some system call failed for a reason outside the tree since the flag was last cleared,
      as it is before every cycle. A health check that gives up counts as one.
     */
    var faulted: bool
    /** Every path written, renamed, created or deleted since the last mark. */
    ghost var touched: iset<Path>
    /** The tree at the last mark, and every tree that there may have been since, also within a call. */
    ghost var origin: Tree
    ghost var past: iset<Tree>

    ghost predicate Valid()
      reads this
    {
      tree in Trees(maxDepth) && tree in past && past <= Moments(origin, touched)
    }

    ghost function Now(): Snapshot
      reads this
    {
      Snapshot(tree, running, events, faulted, touched, origin)
    }

    /** Only paths in `foot` were touched, and nothing else in the tree changed. */
    twostate predicate Confined(foot: iset<Path>)
      reads this
    {
      && touched <= old(touched) + foot && origin == old(origin)
      && (forall q :: q !in foot ==> At(tree, q) == At(old(tree), q))
    }

    /** A file operation leaves the services and the log alone and never clears the fault flag. */
    twostate predicate OnlyTree()
      reads this
    {
      running == old(running) && events == old(events) && (old(faulted) ==> faulted)
    }

    /** Everything but the log, the services and the fault flag is as before. */
    twostate predicate TreeKept()
      reads this
    {
      && tree == old(tree) && touched == old(touched) && origin == old(origin) && past == old(past)
      && (old(faulted) ==> faulted)
    }

    constructor (tree: Tree, running: map<string, bool>, maxDepth: nat)
      requires WellFormed(tree) && Shallow(tree, maxDepth)
      ensures Valid() && this.tree == tree && this.running == running && this.maxDepth == maxDepth
      ensures events == [] && !faulted && touched == iset{} && origin == tree && past == iset{tree}
    {
      this.maxDepth := maxDepth;
      this.tree, this.running, events, faulted, touched := tree, running, [], false, iset{};
      origin, past := tree, iset{tree};
    }

    /** Starts the record of trees and touched paths anew. */
    ghost method Mark()
      requires Valid()
      modifies this`touched, this`origin, this`past
      ensures Valid() && touched == iset{} && origin == tree && past == iset{tree}
    {
      touched, origin, past := iset{}, tree, iset{tree};
    }

    /** The tree becomes `now`, in one or more steps that change it in `foot` only. */
    method Become(now: Tree, ghost foot: iset<Path>)
      requires Valid() && now in Trees(maxDepth) && now in Moments(tree, foot)
      modifies this`tree, this`touched, this`past
      ensures Valid() && tree == now && touched == old(touched) + foot
      ensures past == old(past) + Moments(old(tree), foot)
    {
      MomentsGrow(origin, touched, tree, foot);
      past := past + Moments(tree, foot);
      touched := touched + foot;
      tree := now;
    }

    /** `os.MkdirAll` */
    method MkdirAll(p: Path) returns (ok: bool)
      requires Valid() && ValidPath(p)
      modifies this
      ensures Valid() && OnlyTree() && Confined(MissingAbove(old(tree), p))
      ensures forall q :: q in old(tree) ==> q in tree
      ensures forall q :: q in tree && q !in old(tree) ==> tree[q] == Directory
      ensures ok ==> IsDir(tree, p)
      ensures !ok ==> faulted || Blocked(old(tree), p)
    {
      var i := 0;
      while i <= |p|
        invariant 0 <= i <= |p| + 1
        invariant Valid() && OnlyTree() && Confined(MissingAbove(old(tree), p))
        invariant forall q :: q in old(tree) ==> q in tree
        invariant forall q :: q in tree && q !in old(tree) ==> tree[q] == Directory && |q| < i
        invariant forall k :: 0 <= k < i ==> IsDir(tree, p[..k])
      {
        var here := p[..i];
        if here in tree {
          if !tree[here].Directory? {
            assert At(tree, here) == At(old(tree), here);
            return false;
          }
        } else {
          if * { faulted := true; return false; }
          if |here| > maxDepth { faulted := true; return false; }
          assert i > 0 && Parent(here) == p[..i - 1];
          SetLeafWellFormed(tree, here, Directory);
          Become(tree[here := Directory], iset{here});
        }
        i := i + 1;
      }
      assert p[..|p|] == p;
      ok := true;
    }

    /** `os.OpenFile` with create and truncate. */
    method CreateTruncated(p: Path) returns (ok: bool)
      requires Valid() && ValidPath(p) && p != []
      modifies this
      ensures Valid() && OnlyTree() && Confined(iset{p})
      ensures ok ==> tree == old(tree)[p := File([])]
      ensures !ok ==> tree == old(tree)
      ensures !ok ==> faulted || !IsDir(tree, Parent(p)) || (p in tree && !tree[p].File?)
      ensures ok ==> p !in old(tree) || old(tree)[p].File?
    {
      if * { faulted := true; return false; }
      if |p| > maxDepth { faulted := true; return false; }
      if !IsDir(tree, Parent(p)) || (p in tree && !tree[p].File?) { return false; }
      SetLeafWellFormed(tree, p, File([]));
      Become(tree[p := File([])], iset{p});
      ok := true;
    }

    /** `io.Copy` into a file just truncated; a fault leaves part of the content behind. */
    method Fill(p: Path, content: Bytes) returns (ok: bool)
      requires Valid() && p != [] && p in tree && tree[p].File?
      modifies this
      ensures Valid() && OnlyTree() && Confined(iset{p})
      ensures p in tree && tree[p].File?
      ensures ok ==> tree == old(tree)[p := File(content)]
      ensures !ok ==> faulted
    {
      var written: nat := |content|;
      ok := true;
      if * {
        written := *;
        ok, faulted := false, true;
        if written > |content| { written := |content|; }
      }
      assert content[..|content|] == content;
      assert IsDir(tree, Parent(p));
      SetLeafWellFormed(tree, p, File(content[..written]));
      Become(tree[p := File(content[..written])], iset{p});
    }

    /** A step that may fail but does not change the tree: closing a file, setting permissions. */
    method Attempt() returns (ok: bool)
      modifies this`faulted
      ensures OnlyTree()
      ensures !ok ==> faulted
    {
      ok := true;
      if * { ok, faulted := false, true; }
    }

    /** `os.Remove` of a file, its result ignored. */
    method RemoveFile(p: Path)
      requires Valid() && p in tree && tree[p].File?
      modifies this
      ensures Valid() && OnlyTree() && Confined(iset{p})
      ensures tree == old(tree) || tree == old(tree) - {p}
    {
      if * { faulted := true; return; }
      Become(tree - {p}, iset{p});
    }

    /** `os.Rename` of a regular file. */
    method Rename(from: Path, to: Path) returns (ok: bool)
      requires Valid() && ValidPath(to) && from in tree && tree[from].File?
      modifies this
      ensures Valid() && OnlyTree() && Confined(iset{from, to})
      ensures ok ==> to != [] && !IsDir(old(tree), to) && tree == (old(tree) - {from})[to := old(tree)[from]]
      ensures !ok ==> tree == old(tree)
      ensures !ok ==> faulted || IsDir(tree, to) || (to != [] && !IsDir(tree, Parent(to)))
    {
      if * { faulted := true; return false; }
      if IsDir(tree, to) || !IsDir(tree, Parent(to)) { return false; }
      if |to| > maxDepth { faulted := true; return false; }
      assert IsDir(tree - {from}, Parent(to));
      SetLeafWellFormed(tree - {from}, to, tree[from]);
      Become((tree - {from})[to := tree[from]], iset{from, to});
      ok := true;
    }

    /** `os.RemoveAll`; a fault leaves some of the entries. */
    method RemoveAll(p: Path) returns (ok: bool)
      requires Valid() && p != []
      modifies this
      ensures Valid() && OnlyTree() && Confined(Below(p))
      ensures forall q :: q in tree ==> q in old(tree)
      ensures ok ==> forall q :: q in tree ==> !(p <= q)
      ensures !ok ==> faulted
    {
      var gone: set<Path> := {p};
      ok := true;
      if * {
        gone := *;
        ok, faulted := false, true;
      }
      var before := tree;
      var left := map q | q in before && !(p <= q && CoveredBy(gone, q)) :: before[q];
      forall q, k {:trigger q[..k]} | q in left && 0 <= k < |q| ensures IsDir(left, q[..k]) {
        assert IsDir(before, q[..k]);
        assert p <= q[..k] ==> p <= q;
        assert CoveredBy(gone, q[..k]) ==> CoveredBy(gone, q);
      }
      Become(left, Below(p));
    }

    /** The sorted names in a directory; `None` when it cannot be read. */
    method ReadDirNames(p: Path) returns (names: Option<seq<string>>)
      requires Valid()
      modifies this`faulted
      ensures OnlyTree()
      ensures names.Some? ==> IsDir(tree, p) && Sorted(names.value)
      ensures names.Some? ==> forall n :: n in names.value <==> p + [n] in tree
      ensures names.None? ==> faulted || !IsDir(tree, p)
    {
      if * { faulted := true; return None; }
      if !IsDir(tree, p) { return None; }
      var entries := set q | q in tree && |q| == |p| + 1 && p <= q;
      var out: seq<string> := [];
      ghost var todo := entries;
      while entries != {}
        invariant entries <= todo
        invariant OnlyTree() && Sorted(out)
        invariant forall n :: n in out <==> p + [n] in todo && p + [n] !in entries
        decreases |entries|
      {
        var q :| q in entries;
        assert q == p + [q[|p|]];
        var grown := Insert(out, q[|p|]);
        forall n ensures n in grown <==> n in out || n == q[|p|] {
          assert n in grown <==> n in multiset(grown);
        }
        out := grown;
        entries := entries - {q};
      }
      forall n ensures n in out <==> p + [n] in tree {
        assert p <= p + [n];
      }
      names := Some(out);
    }
  }

  predicate CoveredBy(gone: set<Path>, q: Path) {
    exists g :: g in gone && g <= q
  }

  lemma SetLeafWellFormed(t: Tree, p: Path, n: Node)
    requires WellFormed(t) && ValidPath(p) && p != [] && IsDir(t, Parent(p)) && !IsDir(t, p)
    ensures WellFormed(t[p := n])
  {
    var u := t[p := n];
    forall q, k {:trigger q[..k]} | q in u && 0 <= k < |q| ensures IsDir(u, q[..k]) {
      if q == p {
        assert q[..k] == if k == |p| - 1 then Parent(p) else Parent(p)[..k];
        assert IsDir(t, q[..k]);
      } else {
        assert IsDir(t, q[..k]);
      }
    }
  }
}
