/**
  The digest store and the file behind it. The JSON encoding is taken as an injective
  document; a file that was cut off while being written does not parse.
 */
module State {
  import opened Results
  import opened Requests

  type Ref = string

  datatype Entry = Entry(digest: string, deployedAt: int, kind: Kind)

  type Entries = map<Ref, Entry>

  datatype Content = Absent | Empty | Truncated | Document(entries: Entries)

  /** The state file and its temporary sibling. */
  datatype Files = Files(file: Content, tmp: Content)

  datatype OpenError = Unreadable | Unparsable

  /** What opening the store makes of the state file. */
  function Load(c: Content): Result<Entries, OpenError> {
    match c
    case Absent => Ok(map[])
    case Empty => Ok(map[])
    case Truncated => Err(Unparsable)
    case Document(entries) => Ok(entries)
  }

  /** The digest on record for a reference; Go's zero value when there is none. */
  function Recorded(entries: Entries, ref: Ref): string {
    if ref in entries then entries[ref].digest else ""
  }

  /** How a save ends: completely, or at the first operation that fails. */
  datatype SaveFate = Saved | NotStarted | NotWritten(left: Content) | NotRenamed {
    predicate Valid() {
      NotWritten? ==> left in {Empty, Truncated}
    }
  }

  /** The states of the two files after each operation of a save; a crash leaves one of them. */
  function SaveStates(files: Files, entries: Entries, fate: SaveFate): seq<Files> {
    match fate
    case NotStarted => []
    case NotWritten(left) => [files.(tmp := Empty), files.(tmp := left)]
    case NotRenamed => [files.(tmp := Empty), files.(tmp := Truncated), files.(tmp := Document(entries))]
    case Saved => [files.(tmp := Empty), files.(tmp := Truncated), files.(tmp := Document(entries)),
                   Files(Document(entries), Absent)]
  }

  /** The disk outlives the process. */
  class Disk {
    var files: Files
    /** Every state the files have been in since the disk was mounted. */
    ghost var past: seq<Files>

    constructor (files: Files)
      ensures this.files == files && past == [files]
    {
      this.files, past := files, [files];
    }

    method Put(files: Files)
      modifies this
      ensures this.files == files && past == old(past) + [files]
    {
      this.files, past := files, past + [files];
    }
  }

  class Store {
    const disk: Disk
    var entries: Entries

    constructor (disk: Disk, entries: Entries)
      ensures this.disk == disk && this.entries == entries
    {
      this.disk, this.entries := disk, entries;
    }

    method Get(ref: Ref) returns (e: Option<Entry>)
      ensures e == if ref in entries then Some(entries[ref]) else None
    {
      e := if ref in entries then Some(entries[ref]) else None;
    }

    /** The entry is in memory before anything is saved, and stays there when the save fails. */
    method Set(ref: Ref, e: Entry, fate: SaveFate) returns (ok: bool)
      requires fate.Valid()
      modifies this, disk
      ensures entries == old(entries)[ref := e]
      ensures ok <==> fate.Saved?
      ensures disk.past == old(disk.past) + SaveStates(old(disk.files), entries, fate)
      ensures disk.files.file == if ok then Document(entries) else old(disk.files.file)
      ensures ok ==> Load(disk.files.file) == Ok(entries)
      ensures disk.files == FilesAfter(old(disk.files), entries, fate)
    {
      entries := entries[ref := e];
      ok := Save(fate);
    }

    method Save(fate: SaveFate) returns (ok: bool)
      requires fate.Valid()
      modifies disk
      ensures ok <==> fate.Saved?
      ensures disk.past == old(disk.past) + SaveStates(old(disk.files), entries, fate)
      ensures disk.files == FilesAfter(old(disk.files), entries, fate)
    {
      if fate.NotStarted? {
        return false;
      }
      disk.Put(disk.files.(tmp := Empty));
      if fate.NotWritten? {
        disk.Put(disk.files.(tmp := fate.left));
        return false;
      }
      disk.Put(disk.files.(tmp := Truncated));
      disk.Put(disk.files.(tmp := Document(entries)));
      if fate.NotRenamed? {
        return false;
      }
      disk.Put(Files(disk.files.tmp, Absent));
      ok := true;
    }
  }

  function FilesAfter(files: Files, entries: Entries, fate: SaveFate): Files {
    if SaveStates(files, entries, fate) == [] then files
    else SaveStates(files, entries, fate)[|SaveStates(files, entries, fate)| - 1]
  }

  method Open(disk: Disk, readable: bool) returns (r: Result<Store, OpenError>)
    ensures r.Ok? ==> fresh(r.value) && r.value.disk == disk && Load(disk.files.file) == Ok(r.value.entries)
    ensures r.Err? <==> disk.files.file != Absent && (!readable || Load(disk.files.file).Err?)
  {
    if disk.files.file != Absent && !readable { return Err(Unreadable); }
    match Load(disk.files.file) {
      case Err(e) => r := Err(e);
      case Ok(entries) =>
        var store := new Store(disk, entries);
        r := Ok(store);
    }
  }

  /**
    A crash at any point of a save is atomic: reopening yields the map from before the save or
    the new one, and the new one only after the very last operation.
   */
  lemma CrashIsAtomic(files: Files, entries: Entries, fate: SaveFate, k: nat)
    requires fate.Valid() && k < |SaveStates(files, entries, fate)|
    ensures var crashed := SaveStates(files, entries, fate)[k];
            && Load(crashed.file) in {Load(files.file), Ok(entries)}
            && (Load(crashed.file) != Load(files.file) ==> fate.Saved? && crashed == FilesAfter(files, entries, fate))
            && (Load(files.file).Ok? ==> Load(crashed.file).Ok?)
  {
  }

  // ---- many sets, some of them failing ----

  datatype Update = Update(ref: Ref, entry: Entry, fate: SaveFate)

  /** The memory map after the first `n` updates. */
  function MapAfter(entries: Entries, updates: seq<Update>, n: nat): Entries
    requires n <= |updates|
  {
    if n == 0 then entries
    else MapAfter(entries, updates, n - 1)[updates[n - 1].ref := updates[n - 1].entry]
  }

  /** The files before the `n`th update. */
  function FilesBefore(files: Files, entries: Entries, updates: seq<Update>, n: nat): Files
    requires n <= |updates|
  {
    if n == 0 then files
    else FilesAfter(FilesBefore(files, entries, updates, n - 1), MapAfter(entries, updates, n), updates[n - 1].fate)
  }

  /** The disk holds the map of the update numbered `m`, or what it held at the start. */
  ghost predicate HoldsMap(files: Files, entries: Entries, updates: seq<Update>, now: Files, m: nat) {
    && m <= |updates|
    && (m == 0 ==> now.file == files.file)
    && (m > 0 ==> updates[m - 1].fate.Saved? && now.file == Document(MapAfter(entries, updates, m)))
  }

  /** The number of the last update up to `n` that was saved. */
  ghost function LastSaved(updates: seq<Update>, n: nat): (m: nat)
    requires n <= |updates|
    ensures m <= n && (m > 0 ==> updates[m - 1].fate.Saved?)
    ensures forall i :: m <= i < n ==> !updates[i].fate.Saved?
  {
    if n == 0 then 0 else if updates[n - 1].fate.Saved? then n else LastSaved(updates, n - 1)
  }

  lemma {:induction false} DiskAfterUpdates(files: Files, entries: Entries, updates: seq<Update>, n: nat)
    requires n <= |updates| && forall u :: u in updates ==> u.fate.Valid()
    ensures HoldsMap(files, entries, updates, FilesBefore(files, entries, updates, n), LastSaved(updates, n))
  {
    if n > 0 {
      DiskAfterUpdates(files, entries, updates, n - 1);
      assert updates[n - 1] in updates;
    }
  }

  /**
    Whatever updates succeed or fail, and wherever in update `n` the process dies, the disk
    holds the complete map of the last update saved before it, or of `n` itself.
   */
  lemma {:induction false} DiskHoldsLastSaved(files: Files, entries: Entries, updates: seq<Update>, n: nat, k: nat)
    requires n < |updates| && forall u :: u in updates ==> u.fate.Valid()
    requires k < |SaveStates(FilesBefore(files, entries, updates, n), MapAfter(entries, updates, n + 1),
              updates[n].fate)|
    ensures var crashed := SaveStates(FilesBefore(files, entries, updates, n), MapAfter(entries, updates, n + 1),
              updates[n].fate)[k];
            || HoldsMap(files, entries, updates, crashed, LastSaved(updates, n))
            || HoldsMap(files, entries, updates, crashed, n + 1)
  {
    DiskAfterUpdates(files, entries, updates, n);
    assert updates[n] in updates;
    CrashIsAtomic(FilesBefore(files, entries, updates, n), MapAfter(entries, updates, n + 1), updates[n].fate, k);
  }
}
