/** `splitRef`: a reference into host, repository path and tag. */
module Registry {
  import opened Results
  import opened Text
  import C = Config

  datatype RefParts = RefParts(host: string, path: string, tag: string)

  datatype RefError = EmptyRef | NoRepository

  /** Go's index result. */
  function Position(i: Option<nat>): int {
    match i
    case None => -1
    case Some(n) => n
  }

  function SplitRef(ref: string): Result<RefParts, RefError> {
    if TrimSpace(ref) == "" then Err(EmptyRef) else SplitTrimmed(TrimSpace(ref))
  }

  /** The colon counts as a tag separator only after the first slash, so that ports stay in the host. */
  function SplitTrimmed(r: string): Result<RefParts, RefError> {
    var sep := LastIndexOf(r, ':');
    if Position(sep) > Position(IndexOf(r, '/')) then SplitHost(r[..sep.value], r[sep.value + 1..])
    else SplitHost(r, "latest")
  }

  function SplitHost(at: string, tag: string): Result<RefParts, RefError> {
    match IndexOf(at, '/')
    case None => Err(NoRepository)
    case Some(i) => Ok(RefParts(at[..i], at[i + 1..], tag))
  }

  /** What precedes the tag of a reference. */
  function Repository(parts: RefParts): string {
    parts.host + "/" + parts.path
  }

  lemma SplitHostRebuilds(at: string, tag: string)
    ensures SplitHost(at, tag).Ok? <==> '/' in at
    ensures SplitHost(at, tag).Ok? ==>
              var parts := SplitHost(at, tag).value;
              '/' !in parts.host && Repository(parts) == at && parts.tag == tag
  {
    var i := IndexOf(at, '/');
    if i.Some? {
      assert at[..i.value] + "/" + at[i.value + 1..] == at;
    }
  }

  /**
    A reference is accepted exactly when it names a repository after a host, and the parts
    rebuild it: with its tag, or, when no tag was given, with the default one missing.
   */
  lemma SplitRefRebuilds(ref: string)
    ensures SplitRef(ref).Ok? <==> '/' in TrimSpace(ref)
    ensures SplitRef(ref).Ok? ==>
              var r, parts := TrimSpace(ref), SplitRef(ref).value;
              && '/' !in parts.host
              && (Repository(parts) + ":" + parts.tag == r ||
                  (parts.tag == "latest" && Repository(parts) == r && ':' !in parts.path))
  {
    SplitTrimmedRebuilds(TrimSpace(ref));
  }

  lemma SplitTrimmedRebuilds(r: string)
    ensures SplitTrimmed(r).Ok? <==> '/' in r
    ensures SplitTrimmed(r).Ok? ==>
              var parts := SplitTrimmed(r).value;
              && '/' !in parts.host
              && (Repository(parts) + ":" + parts.tag == r ||
                  (parts.tag == "latest" && Repository(parts) == r && ':' !in parts.path))
  {
    var sep, slash := LastIndexOf(r, ':'), IndexOf(r, '/');
    if Position(sep) > Position(slash) {
      var at, tag := r[..sep.value], r[sep.value + 1..];
      SplitHostRebuilds(at, tag);
      assert at + ":" + tag == r;
      if slash.Some? { assert at[slash.value] == '/'; }
    } else {
      SplitHostRebuilds(r, "latest");
      if slash.Some? { NoColonAfter(r, slash.value); }
    }
  }

  lemma {:induction false} NoColonAfter(r: string, slash: nat)
    requires slash < |r| && Position(LastIndexOf(r, ':')) <= slash
    ensures ':' !in r[slash + 1..]
  {
    var sep := LastIndexOf(r, ':');
    if sep.Some? {
      assert r[slash + 1..] == r[sep.value + 1..][slash - sep.value..];
    }
  }

  lemma {:induction false} TagSeparator(front: string, tag: string)
    requires '/' in front
    ensures ':' !in tag ==> SplitTrimmed(front + ":" + tag) == SplitHost(front, tag)
    ensures ':' in tag ==> SplitTrimmed(front + ":" + tag).Ok? && |SplitTrimmed(front + ":" + tag).value.tag| < |tag|
  {
    var full := front + ":" + tag;
    assert full[|front|] == ':' && full[|front| + 1..] == tag && full[..|front|] == front;
    var slash := IndexOf(front, '/').value;
    assert full[..slash] == front[..slash];
    FirstIndex(full, '/', slash);
    if ':' !in tag {
      LastIndex(full, ':', |front|);
    } else {
      var sep := LastIndexOf(full, ':').value;
      LastColonInTag(front, tag, sep);
      SplitHostRebuilds(full[..sep], full[sep + 1..]);
      assert full[..sep][slash] == '/';
    }
  }

  lemma LastColonInTag(front: string, tag: string, sep: nat)
    requires ':' in tag && sep < |front| + 1 + |tag|
    requires ':' !in (front + ":" + tag)[sep + 1..]
    ensures sep > |front|
  {
    var full := front + ":" + tag;
    forall j | sep < j < |full| ensures full[j] != ':' {
      assert full[j] == full[sep + 1..][j - sep - 1];
    }
    var k :| 0 <= k < |tag| && tag[k] == ':';
    assert full[|front| + 1 + k] == ':';
  }

  /**
    A reference built from a configured entry splits back into the host and repository of the
    prefix and name, and into its tag if and only if the tag has no colon of its own.
   */
  lemma SplitRefOfEntry(prefix: string, name: string, tag: string)
    requires var p := C.TrimSlash(prefix); p != "" && !IsSpace(p[0])
    requires tag == "" || !IsSpace(tag[|tag| - 1])
    ensures var split := SplitRef(C.FullRef(prefix, name, tag));
            && split.Ok? && '/' !in split.value.host
            && (split.value.tag == tag <==> ':' !in tag)
            && (':' !in tag ==> Repository(split.value) == C.TrimSlash(prefix) + "/" + name)
  {
    var front, full := C.TrimSlash(prefix) + "/" + name, C.FullRef(prefix, name, tag);
    assert full == front + ":" + tag && front[|C.TrimSlash(prefix)|] == '/';
    assert full[0] == C.TrimSlash(prefix)[0];
    assert full[|full| - 1] == if tag == "" then ':' else tag[|tag| - 1];
    TrimSpaceFixed(full);
    TagSeparator(front, tag);
    SplitHostRebuilds(front, tag);
    SplitRefRebuilds(full);
  }
}
