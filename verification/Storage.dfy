/** Files under the collector's runtime directory and archive root, with the
    durability a journalled publication has to live with.

    A directory is its current listing together with the older ones it has had
    since it was last synced: each rename, creation or unlink adds one.  A
    machine crash may leave any of them, directory by directory, so directory
    operations survive as a prefix until `FsyncDir` forgets the older ones.  File contents are
    values; a file being written shows `Torn` first. */
module Storage {
  import opened Options

  type RunId = string

  datatype Source = Standard | Detailed

  datatype Date = Date(year: int, month: int, day: int)

  datatype Row = Row(dimensions: seq<string>, gross: int, credits: int, net: int)

  /** The reports of `summaries`, `CloudRunResources` for the detailed source only. */
  datatype ReportName = Daily | MonthlyUsage | MonthlyInvoice | Services | Skus | CloudRunResources

  type Table = map<Date, seq<Row>>

  /** Everything a run may publish below the archive root. */
  datatype Dest =
    | DayFile(source: Source, date: Date)
    | ReportFile(source: Source, name: ReportName)
    | SyncFile(run: RunId, year: int, month: int)

  datatype Folder =
    | Runtime
    | DailyFolder(source: Source, year: int, month: int)
    | ReportFolder(source: Source)
    | SyncFolder(year: int, month: int)

  function FolderOf(d: Dest): Folder {
    match d
    case DayFile(source, date) => DailyFolder(source, date.year, date.month)
    case ReportFile(source, _) => ReportFolder(source)
    case SyncFile(_, year, month) => SyncFolder(year, month)
  }

  /** `Incoming` is `.<name>.<run>.tmp`, `Backup` the same with `.bak`; the `New`
      roles are the temporary siblings that `Atomic` renames into place. */
  datatype Role =
    | Final
    | FinalNew
    | Incoming(run: RunId)
    | IncomingNew(run: RunId)
    | Backup(run: RunId)

  datatype Name = Journal | JournalNew | Of(dest: Dest, role: Role)

  datatype Item = Item(dest: Dest, existed: bool)

  datatype Record = Record(run: RunId, files: seq<Item>, evidence: Option<Dest>)

  datatype Content =
    | Torn
    | JournalText(record: Record)
    | DayText(rows: seq<Row>)
    | ReportText(source: Source, name: ReportName, table: Table)
    | EvidenceText(run: RunId, success: bool, files: seq<Dest>)

  type Listing = map<Name, Content>

  datatype Dir = Dir(now: Listing, older: set<Listing>) {
    /** The listings that a machine crash may leave. */
    function Visible(): (v: set<Listing>)
      ensures now in v
    {
      older + {now}
    }

    function Next(l: Listing): Dir {
      Dir(l, older + {now})
    }

    function Synced(): Dir {
      Dir(now, {})
    }
  }

  type Tree = map<Folder, Dir>

  function At(t: Tree, f: Folder): Dir {
    if f in t then t[f] else Dir(map[], {})
  }

  /** A machine crash keeps one of the listings of each directory. */
  ghost predicate CrashImage(t: Tree, after: Tree) {
    forall f :: At(after, f).now in At(t, f).Visible() && At(after, f).older == {}
  }

  function Replaced(l: Listing, temp: Name, path: Name, data: Content): Listing {
    (l - {temp})[path := data]
  }

  /** What `l` goes through when `path` is written through the temporary `temp`. */
  function Writing(l: Listing, temp: Name, path: Name, data: Content): set<Listing> {
    {l[temp := Torn], l[temp := data], Replaced(l, temp, path, data)}
  }

  /** `after` is `t` except that directory `f` may also show listings from `steps`. */
  ghost predicate Partly(t: Tree, after: Tree, f: Folder, steps: set<Listing>) {
    && (forall g :: g != f ==> At(after, g) == At(t, g))
    && At(after, f).Visible() <= At(t, f).Visible() + steps
    && (At(after, f).now == At(t, f).now || At(after, f).now in steps)
  }

  lemma WritingSteps(l: Listing, temp: Name, path: Name, data: Content)
    requires temp != path
    ensures l[temp := Torn][temp := data] == l[temp := data]
    ensures (l[temp := data] - {temp})[path := data] == Replaced(l, temp, path, data)
  {
  }

  lemma PartlyStep(t: Tree, after: Tree, f: Folder, steps: set<Listing>, l: Listing)
    requires Partly(t, after, f, steps) && l in steps
    ensures Partly(t, after[f := At(after, f).Next(l)], f, steps)
  {
  }

  /** Every method can fail before its effect: an exception, or the death of the
      process, in which case everything after it fails too. */
  class Disk {
    var folders: Tree
    ghost var faults: nat  // steps that have failed

    constructor ()
      ensures folders == map[]
    {
      folders, faults := map[], 0;
    }

    /** What fails, fails because some step since `before` has failed. */
    ghost predicate Explains(before: nat, ok: bool)
      reads `faults
    {
      if ok then before <= faults else before < faults
    }

    /** A step that is none of the directory's, and may fail. */
    method Try() returns (ok: bool)
      modifies `faults
      ensures Explains(old(faults), ok) && (ok ==> faults == old(faults))
    {
      ok := *;
      if !ok {
        faults := faults + 1;
      }
    }

    method Write(f: Folder, n: Name, c: Content) returns (ok: bool)
      modifies this
      ensures Explains(old(faults), ok)
      ensures folders == if ok then old(folders)[f := At(old(folders), f).Next(At(old(folders), f).now[n := c])]
                         else old(folders)
    {
      ok := Try();
      if ok {
        var d := At(folders, f);
        folders := folders[f := d.Next(d.now[n := c])];
      }
    }

    method Rename(f: Folder, from: Name, to: Name) returns (ok: bool)
      requires from != to
      modifies this
      ensures from in At(old(folders), f).now ==> Explains(old(faults), ok)
      ensures old(faults) <= faults && (ok ==> from in At(old(folders), f).now)
      ensures ok ==>
        var d := At(old(folders), f);
        folders == old(folders)[f := d.Next((d.now - {from})[to := d.now[from]])]
      ensures !ok ==> folders == old(folders)
    {
      var d := At(folders, f);
      ok := Try();
      ok := ok && from in d.now;
      if ok {
        folders := folders[f := d.Next((d.now - {from})[to := d.now[from]])];
      }
    }

    method Unlink(f: Folder, n: Name) returns (ok: bool)
      modifies this
      ensures Explains(old(faults), ok)
      ensures folders == if ok then old(folders)[f := At(old(folders), f).Next(At(old(folders), f).now - {n})]
                         else old(folders)
    {
      ok := Try();
      if ok {
        var d := At(folders, f);
        folders := folders[f := d.Next(d.now - {n})];
      }
    }

    method FsyncDir(f: Folder) returns (ok: bool)
      modifies this
      ensures Explains(old(faults), ok)
      ensures folders == if ok then old(folders)[f := At(old(folders), f).Synced()] else old(folders)
    {
      ok := Try();
      if ok {
        folders := folders[f := At(folders, f).Synced()];
      }
    }

    /** Complete and durable, or anywhere on the way there. */
    method Atomic(f: Folder, temp: Name, path: Name, data: Content) returns (ok: bool)
      requires temp != path
      modifies this
      ensures Explains(old(faults), ok)
      ensures Partly(old(folders), folders, f, Writing(At(old(folders), f).now, temp, path, data))
      ensures ok ==> At(folders, f) == Dir(Replaced(At(old(folders), f).now, temp, path, data), {})
    {
      ghost var was, l := folders, At(folders, f).now;
      ghost var steps := Writing(l, temp, path, data);
      WritingSteps(l, temp, path, data);
      ok := Write(f, temp, Torn);
      if !ok { return; }
      PartlyStep(was, was, f, steps, l[temp := Torn]);
      ghost var begun := folders;
      ok := Write(f, temp, data);
      if !ok { return; }
      PartlyStep(was, begun, f, steps, l[temp := data]);
      ghost var filled := folders;
      ok := Rename(f, temp, path);
      if !ok { return; }
      PartlyStep(was, filled, f, steps, Replaced(l, temp, path, data));
      ok := FsyncDir(f);
    }

    /** Power loss: each directory keeps one of its listings, chosen by `survivor`. */
    method Crash(survivor: map<Folder, Listing>)
      modifies `folders
      ensures CrashImage(old(folders), folders)
      ensures forall f :: f in survivor && survivor[f] in At(old(folders), f).Visible() && f in old(folders) ==>
        At(folders, f).now == survivor[f]
    {
      var was := folders;
      folders := map f | f in was ::
        Dir(if f in survivor && survivor[f] in was[f].Visible() then survivor[f] else was[f].now, {});
    }
  }
}
