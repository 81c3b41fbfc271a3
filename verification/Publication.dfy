/** Journalled replacement of archive files, rolled forward or back according
    to a decision row that is committed with the database.

    The central predicate is `Inv`: whatever listing of the runtime directory a
    machine crash would leave, the journal it holds is able to bring every
    listing a crash would leave of every archive directory to `want`, the
    archive that the decisions taken so far call for. */
module Publishing {
  import opened Options
  import opened Storage

  type Archive = map<Dest, Content>

  // ---- One destination in one listing ----

  /** `d` is as in `want`, with nothing beside it. */
  ghost predicate Settled(l: Listing, d: Dest, want: Archive) {
    && (forall role :: Of(d, role) in l ==> role == Final)
    && (Of(d, Final) in l <==> d in want)
    && (d in want ==> l[Of(d, Final)] == want[d])
  }

  /** Rolling `item` back gives `want`. */
  ghost predicate Undoable(l: Listing, item: Item, run: RunId, want: Archive) {
    var d := item.dest;
    && (item.existed <==> d in want)
    && (forall role :: Of(d, role) in l ==>
          role == Final || role == Incoming(run) || role == IncomingNew(run) || role == Backup(run))
    && (if item.existed then
          if Of(d, Backup(run)) in l then l[Of(d, Backup(run))] == want[d]
          else Of(d, Final) in l && l[Of(d, Final)] == want[d]
        else
          Of(d, Backup(run)) !in l && (Of(d, Incoming(run)) in l ==> Of(d, Final) !in l))
  }

  /** The prepared evidence with its success annotation; other data unchanged. */
  function Annotated(c: Content): Content {
    if c.EvidenceText? then c.(success := true) else c
  }

  /** Rolling `item` forward gives `want`. */
  ghost predicate Redoable(l: Listing, d: Dest, r: Record, want: Archive) {
    && d in want && Of(d, Final) in l
    && (l[Of(d, Final)] == want[d] || (r.evidence == Some(d) && Annotated(l[Of(d, Final)]) == want[d]))
    && (forall role :: Of(d, role) in l ==>
          || role == Final || role == Incoming(r.run) || role == IncomingNew(r.run) || role == Backup(r.run)
          || (role == FinalNew && r.evidence == Some(d)))
  }

  predicate Lists(r: Record, d: Dest) {
    exists i :: 0 <= i < |r.files| && r.files[i].dest == d
  }

  /** What the journal entry `r` promises of destination `d` in listing `l`. */
  ghost predicate Fits(l: Listing, d: Dest, r: Record, decided: set<RunId>, want: Archive) {
    if !Lists(r, d) then Settled(l, d, want)
    else if r.run in decided then Redoable(l, d, r, want)
    else forall item :: item in r.files && item.dest == d ==> Undoable(l, item, r.run, want)
  }

  // ---- The whole disk ----

  /** The journal entry of a runtime listing; without a journal, one with no files. */
  function Entry(l: Listing): Record {
    if Journal in l && l[Journal].JournalText? then l[Journal].record else Record("", [], None)
  }

  ghost predicate Distinct(files: seq<Item>) {
    forall i, j :: 0 <= i < j < |files| ==> files[i].dest != files[j].dest
  }

  ghost predicate RecordOk(r: Record, decided: set<RunId>, want: Archive) {
    && Distinct(r.files)
    && (r.run in decided && r.evidence.Some? ==>
          && Lists(r, r.evidence.value) && r.evidence.value in want
          && want[r.evidence.value].EvidenceText? && want[r.evidence.value].run == r.run
          && want[r.evidence.value].success)
  }

  ghost predicate JournalsOk(t: Tree, decided: set<RunId>, want: Archive) {
    && (forall l: Listing :: l in At(t, Runtime).Visible() ==>
          && (Journal in l ==> l[Journal].JournalText?)
          && RecordOk(Entry(l), decided, want))
    && (Entry(At(t, Runtime).now).run in decided && Journal in At(t, Runtime).now ==>
          forall l: Listing :: l in At(t, Runtime).Visible() ==>
            Journal in l && l[Journal] == At(t, Runtime).now[Journal])
  }

  ghost predicate AllFit(t: Tree, decided: set<RunId>, want: Archive) {
    forall l: Listing, d, x :: l in At(t, Runtime).Visible() && x in At(t, FolderOf(d)).Visible() ==>
      Fits(x, d, Entry(l), decided, want)
  }

  /** Every file is in the directory its destination belongs to. */
  ghost predicate Placed(t: Tree) {
    forall f, l: Listing, n :: l in At(t, f).Visible() && n in l ==>
      if n.Of? then f == FolderOf(n.dest) else f == Runtime
  }

  /** No evidence claims a success that was not committed. */
  ghost predicate Honest(t: Tree, decided: set<RunId>) {
    forall f, l :: l in At(t, f).Visible() ==> HonestListing(l, decided)
  }

  ghost predicate HonestListing(l: Listing, decided: set<RunId>) {
    forall n :: n in l && l[n].EvidenceText? && l[n].success ==> l[n].run in decided
  }

  ghost predicate Inv(t: Tree, decided: set<RunId>, want: Archive) {
    JournalsOk(t, decided, want) && AllFit(t, decided, want) && Placed(t) && Honest(t, decided)
  }

  /** No power loss can bring a journal back. */
  ghost predicate NoVisibleJournal(t: Tree) {
    forall l :: l in At(t, Runtime).Visible() ==> Journal !in l
  }

  /** Nothing but the archive `want`, in whatever a crash would leave. */
  ghost predicate Pristine(t: Tree, want: Archive) {
    forall d, x :: x in At(t, FolderOf(d)).Visible() ==> Settled(x, d, want)
  }

  /** A machine crash at any moment keeps the invariant. */
  lemma CrashKeepsInv(t: Tree, after: Tree, decided: set<RunId>, want: Archive)
    requires Inv(t, decided, want) && CrashImage(t, after)
    ensures Inv(after, decided, want)
  {
    forall f ensures At(after, f).Visible() <= At(t, f).Visible() {
    }
  }

  /** With no journal the archive directories hold exactly the archive. */
  lemma NoJournalMeansPristine(t: Tree, decided: set<RunId>, want: Archive)
    requires Inv(t, decided, want) && Journal !in At(t, Runtime).now
    ensures Pristine(t, want)
  {
    forall d, x | x in At(t, FolderOf(d)).Visible() ensures Settled(x, d, want) {
      assert Fits(x, d, Entry(At(t, Runtime).now), decided, want);
    }
  }

  /** A settled directory holds the files of the archive that belong in it, and no others. */
  lemma PristineListing(t: Tree, want: Archive, f: Folder, l: Listing)
    requires Pristine(t, want) && Placed(t) && f != Runtime && l in At(t, f).Visible()
    ensures forall n :: n in l ==>
      n.Of? && n.role == Final && n.dest in want && FolderOf(n.dest) == f && l[n] == want[n.dest]
    ensures forall d :: d in want && FolderOf(d) == f ==> Of(d, Final) in l
  {
    forall n | n in l
      ensures n.Of? && n.role == Final && n.dest in want && FolderOf(n.dest) == f && l[n] == want[n.dest]
    {
      assert Settled(l, n.dest, want);
      assert n == Of(n.dest, n.role);
    }
    forall d | d in want && FolderOf(d) == f ensures Of(d, Final) in l {
      assert Settled(l, d, want);
    }
  }

  // ---- Changing one destination ----

  ghost predicate SameElsewhere(l: Listing, x: Listing, d: Dest) {
    forall n: Name :: !(n.Of? && n.dest == d) ==> (n in l <==> n in x) && (n in l ==> l[n] == x[n])
  }

  lemma FitsElsewhere(l: Listing, x: Listing, d: Dest, e: Dest, r: Record, decided: set<RunId>, want: Archive)
    requires SameElsewhere(l, x, d) && e != d && Fits(l, e, r, decided, want)
    ensures Fits(x, e, r, decided, want)
  {
  }

  lemma ArchiveStepFits(t: Tree, after: Tree, d: Dest, steps: set<Listing>, decided: set<RunId>, want: Archive)
    requires AllFit(t, decided, want) && Partly(t, after, FolderOf(d), steps)
    requires forall x :: x in steps ==> SameElsewhere(At(t, FolderOf(d)).now, x, d)
    requires forall l, x :: l in At(t, Runtime).Visible() && x in steps ==> Fits(x, d, Entry(l), decided, want)
    ensures AllFit(after, decided, want)
  {
    forall l: Listing, e, x | l in At(after, Runtime).Visible() && x in At(after, FolderOf(e)).Visible()
      ensures Fits(x, e, Entry(l), decided, want)
    {
      if x !in At(t, FolderOf(e)).Visible() && e != d {
        FitsElsewhere(At(t, FolderOf(d)).now, x, d, e, Entry(l), decided, want);
      }
    }
  }

  /** Steps on one destination keep the invariant if each keeps the promises of
      every journal a crash could leave. */
  lemma ArchiveStep(t: Tree, after: Tree, d: Dest, steps: set<Listing>, decided: set<RunId>, want: Archive)
    requires Inv(t, decided, want) && Partly(t, after, FolderOf(d), steps)
    requires forall x :: x in steps ==> SameElsewhere(At(t, FolderOf(d)).now, x, d) && HonestListing(x, decided)
    requires forall l, x :: l in At(t, Runtime).Visible() && x in steps ==> Fits(x, d, Entry(l), decided, want)
    ensures Inv(after, decided, want)
  {
    ArchiveStepFits(t, after, d, steps, decided, want);
    HonestStep(t, after, FolderOf(d), steps, decided);
    PlacedStep(t, after, d, steps);
  }

  lemma PlacedStep(t: Tree, after: Tree, d: Dest, steps: set<Listing>)
    requires Placed(t) && Partly(t, after, FolderOf(d), steps)
    requires forall x :: x in steps ==> SameElsewhere(At(t, FolderOf(d)).now, x, d)
    ensures Placed(after)
  {
    var l := At(t, FolderOf(d)).now;
    forall f, x: Listing, n | x in At(after, f).Visible() && n in x
      ensures if n.Of? then f == FolderOf(n.dest) else f == Runtime
    {
      if x !in At(t, f).Visible() {
        assert x in steps && (n in l || (n.Of? && n.dest == d));
        assert l in At(t, f).Visible();
      }
    }
  }

  lemma HonestStep(t: Tree, after: Tree, f: Folder, steps: set<Listing>, decided: set<RunId>)
    requires Honest(t, decided) && Partly(t, after, f, steps)
    requires forall x :: x in steps ==> HonestListing(x, decided)
    ensures Honest(after, decided)
  {
    forall g, x | x in At(after, g).Visible() ensures HonestListing(x, decided) {
      assert x in At(t, g).Visible() || x in steps;
    }
  }

  // ---- Recovery of one item ----

  function RolledBack(l: Listing, item: Item, run: RunId): Listing {
    var d := item.dest;
    if Of(d, Backup(run)) in l then (l - {Of(d, Backup(run))})[Of(d, Final) := l[Of(d, Backup(run))]]
    else if !item.existed && Of(d, Incoming(run)) !in l then l - {Of(d, Final)}
    else l
  }

  function Decided(l: Listing, item: Item, run: RunId, committed: bool): Listing {
    if committed then l else RolledBack(l, item, run)
  }

  function Swept(l: Listing, d: Dest, run: RunId): Listing {
    l - {Of(d, Incoming(run))} - {Of(d, IncomingNew(run))} - {Of(d, Backup(run))}
  }

  function Recovering(l: Listing, item: Item, run: RunId, committed: bool): set<Listing> {
    var b, d := Decided(l, item, run, committed), item.dest;
    {b, b - {Of(d, Incoming(run))}, b - {Of(d, Incoming(run))} - {Of(d, IncomingNew(run))}, Swept(b, d, run)}
  }

  /** Rolling back under `r` also keeps what any other journal entry promises. */
  lemma RollBackFits(l: Listing, item: Item, r: Record, x: Listing, other: Record,
                     decided: set<RunId>, want: Archive)
    requires Undoable(l, item, r.run, want) && r.run !in decided
    requires x in Recovering(l, item, r.run, false)
    requires Fits(l, item.dest, other, decided, want)
    ensures Fits(x, item.dest, other, decided, want)
    ensures SameElsewhere(l, x, item.dest)
  {
    if !Lists(other, item.dest) {
      SettledRollBack(l, item, r.run, x, want);
    } else if other.run in decided {
      RedoableRollBack(l, item, r.run, x, other, want);
    } else {
      forall that | that in other.files && that.dest == item.dest ensures Undoable(x, that, other.run, want) {
        UndoableRollBack(l, item, r.run, x, that, other.run, want);
      }
    }
  }

  lemma SettledRollBack(l: Listing, item: Item, run: RunId, x: Listing, want: Archive)
    requires Undoable(l, item, run, want) && Settled(l, item.dest, want) && x in Recovering(l, item, run, false)
    ensures Settled(x, item.dest, want)
  {
  }

  lemma RedoableRollBack(l: Listing, item: Item, run: RunId, x: Listing, other: Record, want: Archive)
    requires Undoable(l, item, run, want) && Redoable(l, item.dest, other, want) && other.run != run
    requires x in Recovering(l, item, run, false)
    ensures Redoable(x, item.dest, other, want)
  {
  }

  lemma UndoableRollBack(l: Listing, item: Item, run: RunId, x: Listing, that: Item, other: RunId, want: Archive)
    requires Undoable(l, item, run, want) && Undoable(l, that, other, want) && that.dest == item.dest
    requires x in Recovering(l, item, run, false)
    ensures Undoable(x, that, other, want)
  {
  }

  lemma RollBackSettles(l: Listing, item: Item, run: RunId, want: Archive)
    requires Undoable(l, item, run, want)
    ensures Settled(Swept(RolledBack(l, item, run), item.dest, run), item.dest, want)
  {
  }

  /** All that is left of `d` once its item has been recovered. */
  ghost predicate Cleared(x: Listing, d: Dest, r: Record, decided: set<RunId>, want: Archive) {
    if r.run in decided then
      Redoable(x, d, r, want) && forall role :: Of(d, role) in x ==> role == Final || role == FinalNew
    else
      Settled(x, d, want)
  }

  method RecoverItem(disk: Disk, item: Item, run: RunId, committed: bool) returns (ok: bool)
    modifies disk
    ensures disk.Explains(old(disk.faults), ok)
    ensures var f := FolderOf(item.dest); var l := At(old(disk.folders), f).now;
      && Partly(old(disk.folders), disk.folders, f, Recovering(l, item, run, committed))
      && (ok ==> At(disk.folders, f) == Dir(Swept(Decided(l, item, run, committed), item.dest, run), {}))
  {
    var d := item.dest;
    var f := FolderOf(d);
    ghost var was, l := disk.folders, At(disk.folders, f).now;
    ghost var b, steps := Decided(l, item, run, committed), Recovering(l, item, run, committed);
    ok := true;
    if !committed {
      var now := At(disk.folders, f).now;
      if Of(d, Backup(run)) in now {
        ok := disk.Rename(f, Of(d, Backup(run)), Of(d, Final));
      } else if !item.existed && Of(d, Incoming(run)) !in now {
        ok := disk.Unlink(f, Of(d, Final));
      }
    }
    if !ok { return; }
    assert Partly(was, disk.folders, f, steps) && At(disk.folders, f).now == b;
    ok := SweepItem(disk, d, run, was, b, steps);
  }

  /** The three unlinks that end the recovery of an item. */
  method SweepItem(disk: Disk, d: Dest, run: RunId, ghost was: Tree, ghost b: Listing, ghost steps: set<Listing>)
    returns (ok: bool)
    requires Partly(was, disk.folders, FolderOf(d), steps) && At(disk.folders, FolderOf(d)).now == b
    requires steps == {b, b - {Of(d, Incoming(run))}, b - {Of(d, Incoming(run))} - {Of(d, IncomingNew(run))},
                       Swept(b, d, run)}
    modifies disk
    ensures disk.Explains(old(disk.faults), ok)
    ensures Partly(was, disk.folders, FolderOf(d), steps)
    ensures ok ==> At(disk.folders, FolderOf(d)) == Dir(Swept(b, d, run), {})
  {
    var f := FolderOf(d);
    ghost var mid := disk.folders;
    ok := disk.Unlink(f, Of(d, Incoming(run)));
    if !ok { return; }
    PartlyStep(was, mid, f, steps, b - {Of(d, Incoming(run))});
    mid := disk.folders;
    ok := disk.Unlink(f, Of(d, IncomingNew(run)));
    if !ok { return; }
    PartlyStep(was, mid, f, steps, b - {Of(d, Incoming(run))} - {Of(d, IncomingNew(run))});
    mid := disk.folders;
    ok := disk.Unlink(f, Of(d, Backup(run)));
    if !ok { return; }
    PartlyStep(was, mid, f, steps, Swept(b, d, run));
    ok := disk.FsyncDir(f);
  }

  /** The journal that recovery works from, and what the steps of one item need. */
  ghost predicate Recoverable(t: Tree, r: Record, decided: set<RunId>, want: Archive) {
    && Inv(t, decided, want)
    && Journal in At(t, Runtime).now && At(t, Runtime).now[Journal] == JournalText(r)
  }

  lemma RecoveringFits(l: Listing, item: Item, r: Record, x: Listing, other: Record,
                       decided: set<RunId>, want: Archive)
    requires item in r.files && Fits(l, item.dest, r, decided, want)
    requires r.run in decided ==> other == r
    requires Fits(l, item.dest, other, decided, want)
    requires x in Recovering(l, item, r.run, r.run in decided)
    ensures Fits(x, item.dest, other, decided, want)
    ensures SameElsewhere(l, x, item.dest)
    ensures HonestListing(l, decided) ==> HonestListing(x, decided)
  {
    RecoveringHonest(l, item, r, x, decided);
    if r.run !in decided {
      RollBackFits(l, item, r, x, other, decided, want);
    }
  }

  lemma RecoveringHonest(l: Listing, item: Item, r: Record, x: Listing, decided: set<RunId>)
    requires x in Recovering(l, item, r.run, r.run in decided)
    ensures HonestListing(l, decided) ==> HonestListing(x, decided)
  {
  }

  lemma RecoverStep(t: Tree, r: Record, item: Item, o: Listing, x: Listing, decided: set<RunId>, want: Archive)
    requires Recoverable(t, r, decided, want) && item in r.files
    requires o in At(t, Runtime).Visible()
    requires x in Recovering(At(t, FolderOf(item.dest)).now, item, r.run, r.run in decided)
    ensures Fits(x, item.dest, Entry(o), decided, want)
    ensures SameElsewhere(At(t, FolderOf(item.dest)).now, x, item.dest) && HonestListing(x, decided)
  {
    var l := At(t, FolderOf(item.dest)).now;
    assert Fits(l, item.dest, r, decided, want) && Fits(l, item.dest, Entry(o), decided, want) by {
      assert Entry(At(t, Runtime).now) == r;
    }
    RecoveringFits(l, item, r, x, Entry(o), decided, want);
  }

  lemma RecoverItemKeeps(t: Tree, after: Tree, r: Record, i: nat, decided: set<RunId>, want: Archive)
    requires Recoverable(t, r, decided, want) && i < |r.files|
    requires var d := r.files[i].dest;
      Partly(t, after, FolderOf(d),
        Recovering(At(t, FolderOf(d)).now, r.files[i], r.run, r.run in decided))
    ensures Recoverable(after, r, decided, want)
  {
    var item := r.files[i];
    var d := item.dest;
    var l := At(t, FolderOf(d)).now;
    var steps := Recovering(l, item, r.run, r.run in decided);
    forall o, x | o in At(t, Runtime).Visible() && x in steps
      ensures Fits(x, d, Entry(o), decided, want) && SameElsewhere(l, x, d) && HonestListing(x, decided)
    {
      RecoverStep(t, r, item, o, x, decided, want);
    }
    ArchiveStep(t, after, d, steps, decided, want);
  }

  lemma RecoverItemClears(l: Listing, r: Record, i: nat, decided: set<RunId>, want: Archive)
    requires i < |r.files| && Fits(l, r.files[i].dest, r, decided, want)
    ensures Cleared(Swept(Decided(l, r.files[i], r.run, r.run in decided), r.files[i].dest, r.run),
                    r.files[i].dest, r, decided, want)
  {
    if r.run !in decided {
      RollBackSettles(l, r.files[i], r.run, want);
    }
  }

  ghost predicate ClearedFrom(t: Tree, r: Record, i: nat, decided: set<RunId>, want: Archive) {
    forall j, x :: i <= j < |r.files| && x in At(t, FolderOf(r.files[j].dest)).Visible() ==>
      Cleared(x, r.files[j].dest, r, decided, want)
  }

  lemma ClearedStep(t: Tree, after: Tree, r: Record, i: nat, decided: set<RunId>, want: Archive)
    requires Recoverable(t, r, decided, want) && i < |r.files| && ClearedFrom(t, r, i + 1, decided, want)
    requires var d := r.files[i].dest; var l := At(t, FolderOf(d)).now;
      && Partly(t, after, FolderOf(d), Recovering(l, r.files[i], r.run, r.run in decided))
      && At(after, FolderOf(d)) == Dir(Swept(Decided(l, r.files[i], r.run, r.run in decided), d, r.run), {})
    ensures ClearedFrom(after, r, i, decided, want)
  {
    var d := r.files[i].dest;
    var l := At(t, FolderOf(d)).now;
    assert Fits(l, d, r, decided, want);
    RecoverItemClears(l, r, i, decided, want);
    forall j, x | i < j < |r.files| && x in At(after, FolderOf(r.files[j].dest)).Visible()
      ensures Cleared(x, r.files[j].dest, r, decided, want)
    {
      assert r.files[j].dest != d;
      if FolderOf(r.files[j].dest) == FolderOf(d) {
        assert Cleared(l, r.files[j].dest, r, decided, want);
        RecoveringFits(l, r.files[i], r, x, r, decided, want);
      }
    }
  }

  method RecoverFiles(disk: Disk, r: Record, committed: bool, ghost decided: set<RunId>, ghost want: Archive)
    returns (ok: bool)
    requires Recoverable(disk.folders, r, decided, want) && (committed <==> r.run in decided)
    modifies disk
    ensures disk.Explains(old(disk.faults), ok)
    ensures Recoverable(disk.folders, r, decided, want)
    ensures At(disk.folders, Runtime) == At(old(disk.folders), Runtime)
    ensures ok ==> ClearedFrom(disk.folders, r, 0, decided, want)
  {
    ok := true;
    for i := |r.files| downto 0
      invariant ok && old(disk.faults) <= disk.faults
      invariant Recoverable(disk.folders, r, decided, want)
      invariant At(disk.folders, Runtime) == At(old(disk.folders), Runtime)
      invariant ClearedFrom(disk.folders, r, i, decided, want)
    {
      ghost var was := disk.folders;
      ok := RecoverItem(disk, r.files[i], r.run, committed);
      RecoverItemKeeps(was, disk.folders, r, i, decided, want);
      if !ok { return; }
      ClearedStep(was, disk.folders, r, i, decided, want);
    }
  }

  /** Every file of `r` is as it should be, up to the evidence annotation. */
  ghost predicate Finished(t: Tree, r: Record, decided: set<RunId>, want: Archive) {
    && Recoverable(t, r, decided, want)
    && ClearedFrom(t, r, 0, decided, want)
    && (r.run in decided && r.evidence.Some? ==>
          forall x :: x in At(t, FolderOf(r.evidence.value)).Visible() ==> Settled(x, r.evidence.value, want))
  }

  lemma FinishedIsPristine(t: Tree, r: Record, decided: set<RunId>, want: Archive)
    requires Finished(t, r, decided, want)
    ensures Pristine(t, want)
  {
    forall d, x | x in At(t, FolderOf(d)).Visible() ensures Settled(x, d, want) {
      assert Fits(x, d, Entry(At(t, Runtime).now), decided, want);
      if Lists(r, d) {
        var j :| 0 <= j < |r.files| && r.files[j].dest == d;
        assert Cleared(x, r.files[j].dest, r, decided, want);
      }
    }
  }

  /** Steps of writing the success annotation: the destination stays redoable. */
  lemma AnnotatingFits(l: Listing, d: Dest, r: Record, x: Listing, decided: set<RunId>, want: Archive)
    requires r.run in decided && r.evidence == Some(d) && RecordOk(r, decided, want)
    requires Redoable(l, d, r, want)
    requires x in Writing(l, Of(d, FinalNew), Of(d, Final), Annotated(l[Of(d, Final)]))
    ensures Redoable(x, d, r, want)
    ensures SameElsewhere(l, x, d)
    ensures HonestListing(l, decided) ==> HonestListing(x, decided)
    ensures Cleared(l, d, r, decided, want) ==> Cleared(x, d, r, decided, want)
    ensures x == Replaced(l, Of(d, FinalNew), Of(d, Final), Annotated(l[Of(d, Final)])) ==>
      Cleared(l, d, r, decided, want) ==> Settled(x, d, want)
  {
  }

  lemma AnnotateKeeps(t: Tree, after: Tree, r: Record, d: Dest, decided: set<RunId>, want: Archive)
    requires Recoverable(t, r, decided, want) && ClearedFrom(t, r, 0, decided, want)
    requires r.run in decided && r.evidence == Some(d)
    requires var l := At(t, FolderOf(d)).now;
      && Of(d, Final) in l
      && Partly(t, after, FolderOf(d), Writing(l, Of(d, FinalNew), Of(d, Final), Annotated(l[Of(d, Final)])))
    ensures Recoverable(after, r, decided, want)
  {
    var l := At(t, FolderOf(d)).now;
    var steps := Writing(l, Of(d, FinalNew), Of(d, Final), Annotated(l[Of(d, Final)]));
    assert Fits(l, d, r, decided, want);
    forall x | x in steps ensures Redoable(x, d, r, want) && SameElsewhere(l, x, d) && HonestListing(x, decided) {
      AnnotatingFits(l, d, r, x, decided, want);
    }
    ArchiveStep(t, after, d, steps, decided, want);
  }

  lemma AnnotateFinishes(t: Tree, after: Tree, r: Record, d: Dest, decided: set<RunId>, want: Archive)
    requires Recoverable(t, r, decided, want) && ClearedFrom(t, r, 0, decided, want)
    requires r.run in decided && r.evidence == Some(d)
    requires var l := At(t, FolderOf(d)).now;
      && Of(d, Final) in l
      && Partly(t, after, FolderOf(d), Writing(l, Of(d, FinalNew), Of(d, Final), Annotated(l[Of(d, Final)])))
      && At(after, FolderOf(d)) == Dir(Replaced(l, Of(d, FinalNew), Of(d, Final), Annotated(l[Of(d, Final)])), {})
    ensures Finished(after, r, decided, want)
  {
    var l := At(t, FolderOf(d)).now;
    AnnotateKeeps(t, after, r, d, decided, want);
    assert Fits(l, d, r, decided, want);
    var i :| 0 <= i < |r.files| && r.files[i].dest == d;
    assert Cleared(l, r.files[i].dest, r, decided, want);
    forall j, x | 0 <= j < |r.files| && x in At(after, FolderOf(r.files[j].dest)).Visible()
      ensures Cleared(x, r.files[j].dest, r, decided, want)
      ensures r.files[j].dest == d ==> Settled(x, d, want)
    {
      if FolderOf(r.files[j].dest) == FolderOf(d) {
        AnnotatingFits(l, d, r, x, decided, want);
        assert Cleared(l, r.files[j].dest, r, decided, want);
      }
    }
  }

  method AnnotateEvidence(disk: Disk, r: Record, committed: bool, ghost decided: set<RunId>, ghost want: Archive)
    returns (ok: bool)
    requires Recoverable(disk.folders, r, decided, want) && ClearedFrom(disk.folders, r, 0, decided, want)
    requires committed <==> r.run in decided
    modifies disk
    ensures disk.Explains(old(disk.faults), ok)
    ensures Recoverable(disk.folders, r, decided, want)
    ensures At(disk.folders, Runtime) == At(old(disk.folders), Runtime)
    ensures ok ==> Finished(disk.folders, r, decided, want)
  {
    ok := true;
    if committed && r.evidence.Some? {
      var d := r.evidence.value;
      ghost var was := disk.folders;
      var l := At(disk.folders, FolderOf(d)).now;
      assert Fits(l, d, r, decided, want);
      ok := disk.Atomic(FolderOf(d), Of(d, FinalNew), Of(d, Final), Annotated(l[Of(d, Final)]));
      AnnotateKeeps(was, disk.folders, r, d, decided, want);
      if ok {
        AnnotateFinishes(was, disk.folders, r, d, decided, want);
      }
    }
  }

  /** Removing the journal of a finished recovery. */
  lemma JournalGone(t: Tree, after: Tree, r: Record, decided: set<RunId>, want: Archive)
    requires Finished(t, r, decided, want)
    requires forall f :: f != Runtime ==> At(after, f) == At(t, f)
    requires At(after, Runtime).now == At(t, Runtime).now - {Journal}
    requires At(after, Runtime).Visible() <= At(t, Runtime).Visible() + {At(t, Runtime).now - {Journal}}
    ensures Inv(after, decided, want)
  {
    FinishedIsPristine(t, r, decided, want);
    forall f, l | l in At(after, f).Visible() ensures HonestListing(l, decided) {
      assert HonestListing(At(t, f).now, decided);
    }
    forall l: Listing, d, x | l in At(after, Runtime).Visible() && x in At(after, FolderOf(d)).Visible()
      ensures Fits(x, d, Entry(l), decided, want)
    {
      assert Settled(x, d, want);
      if l in At(t, Runtime).Visible() {
        assert Fits(x, d, Entry(l), decided, want);
      }
    }
  }

  /** Whatever was interrupted, a recovery that completes leaves the archive that
      the decision row calls for, durably, and no journal; one that fails or is
      killed anywhere leaves a disk from which recovery can start again. */
  method Recover(disk: Disk, success: set<RunId>, ghost decided: set<RunId>, ghost want: Archive) returns (ok: bool)
    requires Inv(disk.folders, decided, want)
    requires forall l :: l in At(disk.folders, Runtime).Visible() && Journal in l ==>
      (Entry(l).run in success <==> Entry(l).run in decided)
    modifies disk
    ensures disk.Explains(old(disk.faults), ok)
    ensures Inv(disk.folders, decided, want)
    ensures var was, now := At(old(disk.folders), Runtime), At(disk.folders, Runtime);
      && now.Visible() <= was.Visible() + {was.now - {Journal}}
      && (ok && Journal !in was.now ==> disk.folders == old(disk.folders))
      && (ok && Journal in was.now ==> now == Dir(was.now - {Journal}, {}))
      && (JournalNew in now.now <==> JournalNew in was.now)
    ensures ok ==> Pristine(disk.folders, want)
    ensures !ok ==> !NoVisibleJournal(disk.folders)
  {
    if Journal !in At(disk.folders, Runtime).now {
      NoJournalMeansPristine(disk.folders, decided, want);
      return true;
    }
    var r := Entry(At(disk.folders, Runtime).now);
    ok := disk.Try();  // reading the journal
    if !ok { return; }
    var committed := r.run in success;
    ok := RecoverFiles(disk, r, committed, decided, want);
    if !ok { return; }
    ok := AnnotateEvidence(disk, r, committed, decided, want);
    if !ok { return; }
    ghost var was := disk.folders;
    if r.run !in decided || r.evidence.None? {
      assert Finished(was, r, decided, want);
    }
    FinishedIsPristine(was, r, decided, want);
    ok := disk.Unlink(Runtime, Journal);
    if !ok { return; }
    JournalGone(was, disk.folders, r, decided, want);
    ok := disk.FsyncDir(Runtime);
    JournalGone(was, disk.folders, r, decided, want);
  }

  // ---- Staging and publishing ----

  /** `d` is untouched in `l`: only staged beside it. */
  ghost predicate Waiting(l: Listing, d: Dest, run: RunId, want: Archive) {
    && (Of(d, Final) in l <==> d in want)
    && (d in want ==> l[Of(d, Final)] == want[d])
    && Of(d, Backup(run)) !in l
  }

  /** Steps in the runtime directory, under an undecided journal or none. */
  lemma RuntimeStep(t: Tree, after: Tree, steps: set<Listing>, decided: set<RunId>, want: Archive)
    requires Inv(t, decided, want) && Partly(t, after, Runtime, steps)
    requires Journal in At(t, Runtime).now ==> Entry(At(t, Runtime).now).run !in decided
    requires forall l: Listing, n :: l in steps && n in l ==> !n.Of? && !l[n].EvidenceText?
    requires forall l: Listing :: l in steps && Journal in l ==> l[Journal].JournalText? && Entry(l).run !in decided
    requires forall l :: l in steps ==> RecordOk(Entry(l), decided, want)
    requires forall l, d, x :: l in steps && x in At(t, FolderOf(d)).Visible() ==> Fits(x, d, Entry(l), decided, want)
    ensures Inv(after, decided, want)
  {
  }

  lemma WritingEntry(now: Listing, r: Record)
    ensures forall l :: l in Writing(now, JournalNew, Journal, JournalText(r)) ==>
      Entry(l) == r || (Entry(l) == Entry(now) && (Journal in l <==> Journal in now))
  {
  }

  lemma IntentRecord(now: Listing, r: Record, item: Item, evidence: Option<Dest>, decided: set<RunId>, want: Archive)
    requires RecordOk(Entry(now), decided, want) && r.run !in decided
    requires (r.files == [] && Journal !in now) || (Journal in now && now[Journal] == JournalText(r))
    requires !Lists(r, item.dest) && (item.existed <==> item.dest in want)
    ensures RecordOk(Record(r.run, r.files + [item], evidence), decided, want)
  {
  }

  lemma IntentFits(x: Listing, d: Dest, now: Listing, r: Record, item: Item, evidence: Option<Dest>,
                   decided: set<RunId>, want: Archive)
    requires Fits(x, d, Entry(now), decided, want) && r.run !in decided
    requires (r.files == [] && Journal !in now) || (Journal in now && now[Journal] == JournalText(r))
    requires !Lists(r, item.dest) && (item.existed <==> item.dest in want)
    ensures Fits(x, d, Record(r.run, r.files + [item], evidence), decided, want)
  {
    FitsLonger(x, d, r, item, evidence, decided, want);
  }

  /** What a listing on the way to a new journal has to satisfy. */
  ghost predicate IntentListingOk(t: Tree, l: Listing, decided: set<RunId>, want: Archive) {
    && (forall n :: n in l ==> !n.Of? && !l[n].EvidenceText?)
    && (Journal in l ==> l[Journal].JournalText? && Entry(l).run !in decided)
    && RecordOk(Entry(l), decided, want)
    && forall d, x :: x in At(t, FolderOf(d)).Visible() ==> Fits(x, d, Entry(l), decided, want)
  }

  lemma IntentListing(t: Tree, r: Record, item: Item, evidence: Option<Dest>, l: Listing,
                      decided: set<RunId>, want: Archive)
    requires Inv(t, decided, want) && r.run !in decided
    requires var now := At(t, Runtime).now;
      (r.files == [] && Journal !in now) || (Journal in now && now[Journal] == JournalText(r))
    requires !Lists(r, item.dest) && (item.existed <==> item.dest in want)
    requires l in Writing(At(t, Runtime).now, JournalNew, Journal,
                          JournalText(Record(r.run, r.files + [item], evidence)))
    ensures IntentListingOk(t, l, decided, want)
  {
    var now, r' := At(t, Runtime).now, Record(r.run, r.files + [item], evidence);
    WritingEntry(now, r');
    IntentRecord(now, r, item, evidence, decided, want);
    forall d, x | x in At(t, FolderOf(d)).Visible() ensures Fits(x, d, Entry(l), decided, want) {
      assert Fits(x, d, Entry(now), decided, want);
      IntentFits(x, d, now, r, item, evidence, decided, want);
    }
  }

  /** Recording the intent to stage a destination that no entry lists yet. */
  lemma IntentKeeps(t: Tree, after: Tree, r: Record, item: Item, evidence: Option<Dest>,
                    decided: set<RunId>, want: Archive)
    requires Inv(t, decided, want) && r.run !in decided
    requires var now := At(t, Runtime).now;
      (r.files == [] && Journal !in now) || (Journal in now && now[Journal] == JournalText(r))
    requires !Lists(r, item.dest) && (item.existed <==> item.dest in want)
    requires Partly(t, after, Runtime,
      Writing(At(t, Runtime).now, JournalNew, Journal, JournalText(Record(r.run, r.files + [item], evidence))))
    ensures Inv(after, decided, want)
  {
    var r' := Record(r.run, r.files + [item], evidence);
    var steps := Writing(At(t, Runtime).now, JournalNew, Journal, JournalText(r'));
    forall l: Listing | l in steps ensures IntentListingOk(t, l, decided, want) {
      IntentListing(t, r, item, evidence, l, decided, want);
    }
    RuntimeStep(t, after, steps, decided, want);
  }

  // ---- What recovery leaves in the runtime directory ----

  function OneItem(run: RunId, d: Dest): Record {
    Record(run, [Item(d, false)], None)
  }

  function Saved(r: Record): Tree {
    map[Runtime := Dir(map[Journal := JournalText(r)], {})]
  }

  /** The first item of a run is in the journal; the save for the second stopped before
      its rename. */
  function InterruptedSave(run: RunId, d: Dest, e: Dest): Tree {
    var now: Listing := map[Journal := JournalText(OneItem(run, d))];
    var r := Record(run, OneItem(run, d).files + [Item(e, false)], None);
    map[Runtime := Dir(now[JournalNew := JournalText(r)], {now, now[JournalNew := Torn]})]
  }

  lemma InterruptedSaveIsOne(run: RunId, d: Dest, e: Dest)
    requires d != e
    ensures var r := Record(run, OneItem(run, d).files + [Item(e, false)], None);
      Partly(Saved(OneItem(run, d)), InterruptedSave(run, d, e), Runtime,
             Writing(At(Saved(OneItem(run, d)), Runtime).now, JournalNew, Journal, JournalText(r)))
    ensures Inv(InterruptedSave(run, d, e), {}, map[])
    ensures JournalNew in At(InterruptedSave(run, d, e), Runtime).now
  {
    SavedInv(OneItem(run, d));
    IntentKeeps(Saved(OneItem(run, d)), InterruptedSave(run, d, e), OneItem(run, d), Item(e, false), None, {}, map[]);
  }

  lemma SavedInv(r: Record)
    requires Distinct(r.files) && forall item :: item in r.files ==> !item.existed
    ensures Inv(Saved(r), {}, map[])
  {
    assert forall f :: f != Runtime ==> At(Saved(r), f).Visible() == {map[]};
  }

  /** The temporary journal of an interrupted save outlives a completed recovery. */
  method RecoverLeavesJournalNew(disk: Disk, run: RunId, d: Dest, e: Dest) returns (ok: bool)
    requires d != e && disk.folders == InterruptedSave(run, d, e)
    modifies disk
    ensures ok ==> Journal !in At(disk.folders, Runtime).now && JournalNew in At(disk.folders, Runtime).now
  {
    InterruptedSaveIsOne(run, d, e);
    ok := Recover(disk, {}, {}, map[]);
  }

  lemma FitsLonger(x: Listing, d: Dest, r: Record, item: Item, evidence: Option<Dest>,
                   decided: set<RunId>, want: Archive)
    requires r.run !in decided && !Lists(r, item.dest) && (item.existed <==> item.dest in want)
    requires if r.files == [] then Settled(x, d, want) else Fits(x, d, r, decided, want)
    ensures Fits(x, d, Record(r.run, r.files + [item], evidence), decided, want)
  {
    var r' := Record(r.run, r.files + [item], evidence);
    assert r'.files[|r.files|] == item;
    assert forall i :: 0 <= i < |r.files| ==> r'.files[i] == r.files[i];
    assert Lists(r', d) <==> Lists(r, d) || d == item.dest;
  }

  lemma IncomingFits(l: Listing, item: Item, r: Record, data: Content, x: Listing, want: Archive)
    requires Waiting(l, item.dest, r.run, want) && Undoable(l, item, r.run, want)
    requires x in Writing(l, Of(item.dest, IncomingNew(r.run)), Of(item.dest, Incoming(r.run)), data)
    ensures Waiting(x, item.dest, r.run, want) && Undoable(x, item, r.run, want)
    ensures SameElsewhere(l, x, item.dest)
  {
  }

  lemma IncomingHonest(l: Listing, d: Dest, run: RunId, data: Content, x: Listing, decided: set<RunId>)
    requires HonestListing(l, decided) && (data.EvidenceText? ==> !data.success)
    requires x in Writing(l, Of(d, IncomingNew(run)), Of(d, Incoming(run)), data)
    ensures HonestListing(x, decided)
  {
  }

  function MovedAside(l: Listing, item: Item, run: RunId): Listing {
    var d := item.dest;
    if item.existed && Of(d, Final) in l then (l - {Of(d, Final)})[Of(d, Backup(run)) := l[Of(d, Final)]] else l
  }

  function MovedIn(l: Listing, d: Dest, run: RunId): Listing {
    if Of(d, Incoming(run)) in l then (l - {Of(d, Incoming(run))})[Of(d, Final) := l[Of(d, Incoming(run))]] else l
  }

  function Moving(l: Listing, item: Item, run: RunId): set<Listing> {
    var b := MovedAside(l, item, run);
    {b, MovedIn(b, item.dest, run)}
  }

  lemma MovingFits(l: Listing, item: Item, run: RunId, x: Listing, want: Archive)
    requires Waiting(l, item.dest, run, want) && Undoable(l, item, run, want)
    requires x in Moving(l, item, run)
    ensures Undoable(x, item, run, want)
    ensures SameElsewhere(l, x, item.dest)
  {
  }

  /** A run that has staged `staged` under the journal `r`, nothing moved yet. */
  ghost predicate Staging(t: Tree, r: Record, staged: Archive, decided: set<RunId>, want: Archive) {
    && Inv(t, decided, want) && r.run !in decided
    && Journalled(t, r)
    && StagedOk(r, staged)
    && WaitingFrom(t, r, staged, 0, want)
  }

  ghost predicate Journalled(t: Tree, r: Record) {
    if r.files == [] then Journal !in At(t, Runtime).now
    else forall l: Listing :: l in At(t, Runtime).Visible() ==> Journal in l && l[Journal] == JournalText(r)
  }

  ghost predicate StagedOk(r: Record, staged: Archive) {
    && (forall d :: d in staged <==> Lists(r, d))
    && (forall d :: d in staged && staged[d].EvidenceText? ==> staged[d].run == r.run && !staged[d].success)
    && (forall d :: d in staged ==> (r.evidence == Some(d) <==> staged[d].EvidenceText?))
    && (r.evidence.Some? ==> r.evidence.value in staged)
  }

  ghost predicate WaitingFrom(t: Tree, r: Record, staged: Archive, i: nat, want: Archive) {
    forall j :: i <= j < |r.files| ==> WaitingItem(t, r.files[j].dest, r.run, staged, want)
  }

  ghost predicate WaitingItem(t: Tree, d: Dest, run: RunId, staged: Archive, want: Archive) {
    && (forall x :: x in At(t, FolderOf(d)).Visible() ==> Waiting(x, d, run, want))
    && d in staged && Of(d, Incoming(run)) in At(t, FolderOf(d)).now
    && At(t, FolderOf(d)).now[Of(d, Incoming(run))] == staged[d]
  }

  ghost predicate PublishedTo(t: Tree, r: Record, staged: Archive, i: nat) {
    forall j, x :: 0 <= j < i <= |r.files| && x in At(t, FolderOf(r.files[j].dest)).Visible() ==>
      && r.files[j].dest in staged && Of(r.files[j].dest, Final) in x
      && x[Of(r.files[j].dest, Final)] == staged[r.files[j].dest]
  }

  /** The archive once a run that staged `staged` has committed. */
  function Committed(want: Archive, staged: Archive): Archive {
    want + map d | d in staged :: Annotated(staged[d])
  }

  /** The SQL commit turns the same disk from undoable to redoable. */
  lemma CommitKeeps(t: Tree, r: Record, staged: Archive, decided: set<RunId>, want: Archive)
    requires Inv(t, decided, want) && r.run !in decided
    requires r.files != [] && Journalled(t, r) && StagedOk(r, staged)
    requires PublishedTo(t, r, staged, |r.files|)
    ensures Inv(t, decided + {r.run}, Committed(want, staged))
  {
    var after := Committed(want, staged);
    forall f, l | l in At(t, f).Visible() ensures HonestListing(l, decided + {r.run}) {
      assert HonestListing(l, decided);
    }
    forall l: Listing, d, x | l in At(t, Runtime).Visible() && x in At(t, FolderOf(d)).Visible()
      ensures Fits(x, d, Entry(l), decided + {r.run}, after)
    {
      assert Entry(l) == r;
      assert Fits(x, d, r, decided, want);
      if Lists(r, d) {
        var j :| 0 <= j < |r.files| && r.files[j].dest == d;
        assert x in At(t, FolderOf(r.files[j].dest)).Visible();
      }
      CommitFits(x, d, r, staged, decided, want);
    }
  }

  lemma CommitFits(x: Listing, d: Dest, r: Record, staged: Archive, decided: set<RunId>, want: Archive)
    requires r.run !in decided && StagedOk(r, staged) && Fits(x, d, r, decided, want)
    requires Lists(r, d) ==> Of(d, Final) in x && x[Of(d, Final)] == staged[d]
    ensures Fits(x, d, r, decided + {r.run}, Committed(want, staged))
  {
    if Lists(r, d) {
      var j :| 0 <= j < |r.files| && r.files[j].dest == d;
      assert Undoable(x, r.files[j], r.run, want);
    }
  }

  /** Other destinations of the same entry do not notice a step on `d`. */
  lemma WaitingElsewhere(t: Tree, after: Tree, d: Dest, steps: set<Listing>, e: Dest, run: RunId,
                         staged: Archive, want: Archive)
    requires Partly(t, after, FolderOf(d), steps)
    requires forall x :: x in steps ==> SameElsewhere(At(t, FolderOf(d)).now, x, d)
    requires e != d && WaitingItem(t, e, run, staged, want)
    ensures WaitingItem(after, e, run, staged, want)
  {
    if FolderOf(e) == FolderOf(d) {
      assert Waiting(At(t, FolderOf(d)).now, e, run, want);
    }
  }

  /** The steps of staging `data`, once the intent is durable. */
  lemma IncomingKeeps(t: Tree, after: Tree, r: Record, item: Item, evidence: Option<Dest>, data: Content,
                      decided: set<RunId>, want: Archive)
    requires Inv(t, decided, want) && r.run !in decided
    requires At(t, Runtime).older == {} && Journal in At(t, Runtime).now
    requires At(t, Runtime).now[Journal] == JournalText(Record(r.run, r.files + [item], evidence))
    requires !Lists(r, item.dest) && (item.existed <==> item.dest in want)
    requires forall x :: x in At(t, FolderOf(item.dest)).Visible() ==> Settled(x, item.dest, want)
    requires data.EvidenceText? ==> !data.success
    requires Partly(t, after, FolderOf(item.dest),
      Writing(At(t, FolderOf(item.dest)).now, Of(item.dest, IncomingNew(r.run)), Of(item.dest, Incoming(r.run)), data))
    ensures Inv(after, decided, want)
    ensures forall x :: x in At(after, FolderOf(item.dest)).Visible() ==> Waiting(x, item.dest, r.run, want)
  {
    var d, r' := item.dest, Record(r.run, r.files + [item], evidence);
    var l := At(t, FolderOf(d)).now;
    var steps := Writing(l, Of(d, IncomingNew(r.run)), Of(d, Incoming(r.run)), data);
    assert HonestListing(l, decided);
    forall x | x in steps
      ensures Fits(x, d, r', decided, want) && SameElsewhere(l, x, d) && HonestListing(x, decided)
      ensures Waiting(x, d, r.run, want)
    {
      IncomingFits(l, item, r, data, x, want);
      IncomingHonest(l, item.dest, r.run, data, x, decided);
      LastItemFits(x, r, item, evidence, decided, want);
    }
    ArchiveStep(t, after, d, steps, decided, want);
  }

  lemma IncomingStaged(t: Tree, after: Tree, r: Record, item: Item, evidence: Option<Dest>, data: Content,
                       staged: Archive, want: Archive)
    requires StagedOk(r, staged) && WaitingFrom(t, r, staged, 0, want) && item.dest !in staged
    requires var l := At(t, FolderOf(item.dest)).now;
      var temp, path := Of(item.dest, IncomingNew(r.run)), Of(item.dest, Incoming(r.run));
      && Partly(t, after, FolderOf(item.dest), Writing(l, temp, path, data))
      && At(after, FolderOf(item.dest)) == Dir(Replaced(l, temp, path, data), {})
    requires forall x :: x in At(after, FolderOf(item.dest)).Visible() ==> Waiting(x, item.dest, r.run, want)
    ensures WaitingFrom(after, Record(r.run, r.files + [item], evidence), staged[item.dest := data], 0, want)
  {
    var d, r' := item.dest, Record(r.run, r.files + [item], evidence);
    forall j | 0 <= j < |r.files| ensures WaitingItem(after, r.files[j].dest, r.run, staged[d := data], want) {
      StillWaiting(t, after, r, item.dest, data, staged, want, j);
    }
    assert forall j :: 0 <= j < |r'.files| ==> r'.files[j] == if j < |r.files| then r.files[j] else item;
  }

  lemma WritingElsewhere(l: Listing, d: Dest, run: RunId, data: Content)
    ensures forall x :: x in Writing(l, Of(d, IncomingNew(run)), Of(d, Incoming(run)), data) ==> SameElsewhere(l, x, d)
  {
  }

  lemma StillWaiting(t: Tree, after: Tree, r: Record, d: Dest, data: Content, staged: Archive, want: Archive, j: nat)
    requires StagedOk(r, staged) && WaitingFrom(t, r, staged, 0, want) && d !in staged && j < |r.files|
    requires Partly(t, after, FolderOf(d),
                    Writing(At(t, FolderOf(d)).now, Of(d, IncomingNew(r.run)), Of(d, Incoming(r.run)), data))
    ensures WaitingItem(after, r.files[j].dest, r.run, staged[d := data], want)
  {
    var e := r.files[j].dest;
    assert Lists(r, e) && e != d;
    WritingElsewhere(At(t, FolderOf(d)).now, d, r.run, data);
    WaitingElsewhere(t, after, d,
                     Writing(At(t, FolderOf(d)).now, Of(d, IncomingNew(r.run)), Of(d, Incoming(r.run)), data),
                     e, r.run, staged, want);
  }

  lemma LastItemFits(x: Listing, r: Record, item: Item, evidence: Option<Dest>, decided: set<RunId>, want: Archive)
    requires !Lists(r, item.dest) && Undoable(x, item, r.run, want) && r.run !in decided
    ensures Fits(x, item.dest, Record(r.run, r.files + [item], evidence), decided, want)
  {
    var r' := Record(r.run, r.files + [item], evidence);
    assert r'.files[|r.files|] == item;
    assert forall j :: 0 <= j < |r.files| ==> r.files[j].dest != item.dest;
    assert forall other :: other in r'.files && other.dest == item.dest ==> other == item;
  }

  lemma StagedLonger(r: Record, item: Item, evidence: Option<Dest>, data: Content, staged: Archive)
    requires StagedOk(r, staged) && r.evidence == None && item.dest !in staged
    requires if data.EvidenceText? then evidence == Some(item.dest) && data.run == r.run && !data.success
             else evidence == None
    ensures StagedOk(Record(r.run, r.files + [item], evidence), staged[item.dest := data])
  {
    var r' := Record(r.run, r.files + [item], evidence);
    assert r'.files[|r.files|] == item;
    assert forall i :: 0 <= i < |r.files| ==> r'.files[i] == r.files[i];
    forall d ensures Lists(r', d) <==> Lists(r, d) || d == item.dest {
    }
  }

  lemma MovingStep(l: Listing, item: Item, r: Record, x: Listing, decided: set<RunId>, want: Archive)
    requires item in r.files && r.run !in decided && Fits(l, item.dest, r, decided, want)
    requires Distinct(r.files) && Waiting(l, item.dest, r.run, want)
    requires x in Moving(l, item, r.run)
    ensures Fits(x, item.dest, r, decided, want) && SameElsewhere(l, x, item.dest)
    ensures HonestListing(l, decided) ==> HonestListing(x, decided)
  {
    MovingFits(l, item, r.run, x, want);
  }

  /** Moving item `i` into place keeps the invariant at every step, and the
      other items as they were. */
  lemma MovingKeeps(t: Tree, after: Tree, r: Record, i: nat, staged: Archive, decided: set<RunId>, want: Archive)
    requires Inv(t, decided, want) && r.run !in decided && r.files != [] && Journalled(t, r)
    requires i < |r.files| && WaitingItem(t, r.files[i].dest, r.run, staged, want)
    requires var d := r.files[i].dest;
      Partly(t, after, FolderOf(d), Moving(At(t, FolderOf(d)).now, r.files[i], r.run))
    ensures Inv(after, decided, want)
    ensures forall x :: x in Moving(At(t, FolderOf(r.files[i].dest)).now, r.files[i], r.run) ==>
      SameElsewhere(At(t, FolderOf(r.files[i].dest)).now, x, r.files[i].dest)
  {
    var item := r.files[i];
    var d := item.dest;
    var l := At(t, FolderOf(d)).now;
    assert Entry(At(t, Runtime).now) == r;
    assert Fits(l, d, r, decided, want);
    assert HonestListing(l, decided);
    forall x | x in Moving(l, item, r.run)
      ensures Fits(x, d, r, decided, want) && SameElsewhere(l, x, d) && HonestListing(x, decided)
    {
      MovingStep(l, item, r, x, decided, want);
    }
    ArchiveStep(t, after, d, Moving(l, item, r.run), decided, want);
  }

  lemma MovedOn(t: Tree, after: Tree, r: Record, i: nat, staged: Archive, want: Archive)
    requires Distinct(r.files) && i < |r.files|
    requires WaitingFrom(t, r, staged, i, want) && PublishedTo(t, r, staged, i)
    requires var d := r.files[i].dest; var l := At(t, FolderOf(d)).now;
      && Partly(t, after, FolderOf(d), Moving(l, r.files[i], r.run))
      && At(after, FolderOf(d)) == Dir(MovedIn(MovedAside(l, r.files[i], r.run), d, r.run), {})
      && (forall x :: x in Moving(l, r.files[i], r.run) ==> SameElsewhere(l, x, d))
    ensures WaitingFrom(after, r, staged, i + 1, want) && PublishedTo(after, r, staged, i + 1)
  {
    var d := r.files[i].dest;
    var steps := Moving(At(t, FolderOf(d)).now, r.files[i], r.run);
    forall j | i < j < |r.files| ensures WaitingItem(after, r.files[j].dest, r.run, staged, want) {
      WaitingElsewhere(t, after, d, steps, r.files[j].dest, r.run, staged, want);
    }
    assert WaitingItem(t, d, r.run, staged, want);
    forall j, x | 0 <= j < i && x in At(after, FolderOf(r.files[j].dest)).Visible()
      ensures Of(r.files[j].dest, Final) in x && x[Of(r.files[j].dest, Final)] == staged[r.files[j].dest]
    {
      assert r.files[j].dest != d;
    }
  }

  lemma UnlistedIsSettled(t: Tree, r: Record, staged: Archive, d: Dest, decided: set<RunId>, want: Archive)
    requires Staging(t, r, staged, decided, want) && d !in staged
    ensures forall x :: x in At(t, FolderOf(d)).Visible() ==> Settled(x, d, want)
  {
    forall x | x in At(t, FolderOf(d)).Visible() ensures Settled(x, d, want) {
      assert Fits(x, d, Entry(At(t, Runtime).now), decided, want);
    }
  }

  /** The runtime directory shows nothing new but journals of `run`. */
  ghost predicate OnlyRun(t: Tree, after: Tree, run: RunId) {
    forall l :: l in At(after, Runtime).Visible() ==>
      l in At(t, Runtime).Visible() || Journal !in l || Entry(l).run == run
  }

  class Publication {
    const disk: Disk
    var record: Record
    ghost var staged: Archive

    constructor (disk: Disk, run: RunId)
      ensures this.disk == disk && record == Record(run, [], None) && staged == map[]
    {
      this.disk := disk;
      record := Record(run, [], None);
      staged := map[];
    }

    method Save() returns (ok: bool)
      modifies disk
      ensures disk.Explains(old(disk.faults), ok)
      ensures var l := At(old(disk.folders), Runtime).now;
        && Partly(old(disk.folders), disk.folders, Runtime, Writing(l, JournalNew, Journal, JournalText(record)))
        && (ok ==> At(disk.folders, Runtime) == Dir(Replaced(l, JournalNew, Journal, JournalText(record)), {}))
    {
      ok := disk.Atomic(Runtime, JournalNew, Journal, JournalText(record));
    }

    method Stage(d: Dest, data: Content, ghost decided: set<RunId>, ghost want: Archive) returns (ok: bool)
      requires Staging(disk.folders, record.(evidence := None), staged, decided, want)
      requires d !in staged
      requires if data.EvidenceText? then record.evidence == Some(d) && data.run == record.run && !data.success
               else record.evidence == None
      modifies this, disk
      ensures disk.Explains(old(disk.faults), ok)
      ensures Inv(disk.folders, decided, want)
      ensures OnlyRun(old(disk.folders), disk.folders, record.run) && record.run == old(record.run)
      ensures ok ==>
        && staged == old(staged)[d := data]
        && record.evidence == old(record.evidence)
        && record.files == old(record.files) + [Item(d, d in want)]
        && Staging(disk.folders, record, staged, decided, want)
    {
      ghost var r := record.(evidence := None);
      var item;
      ok, item := Intend(d, r, decided, want);
      if !ok { return; }
      ok := StageIncoming(item, data, r, decided, want);
    }

    /** The first half of `Stage`: the intent is in the journal before any new file. */
    method Intend(d: Dest, ghost r: Record, ghost decided: set<RunId>, ghost want: Archive)
      returns (ok: bool, item: Item)
      requires r == record.(evidence := None) && Staging(disk.folders, r, staged, decided, want) && d !in staged
      modifies `record, disk
      ensures disk.Explains(old(disk.faults), ok)
      ensures Inv(disk.folders, decided, want)
      ensures item == Item(d, d in want) && record == Record(r.run, r.files + [item], old(record.evidence))
      ensures OnlyRun(old(disk.folders), disk.folders, record.run)
      ensures forall f :: f != Runtime ==> At(disk.folders, f) == At(old(disk.folders), f)
      ensures ok ==> At(disk.folders, Runtime).older == {} && Journal in At(disk.folders, Runtime).now
                     && Entry(At(disk.folders, Runtime).now) == record
      ensures forall x :: x in At(disk.folders, FolderOf(d)).Visible() ==> Settled(x, d, want)
    {
      ghost var was := disk.folders;
      UnlistedIsSettled(was, r, staged, d, decided, want);
      item := Item(d, Of(d, Final) in At(disk.folders, FolderOf(d)).now);
      record := record.(files := record.files + [item]);
      ok := Save();
      IntentKeeps(was, disk.folders, r, item, record.evidence, decided, want);
    }

    /** The second half of `Stage`, once the intent is durable. */
    method StageIncoming(item: Item, data: Content, ghost r: Record, ghost decided: set<RunId>, ghost want: Archive)
      returns (ok: bool)
      requires Inv(disk.folders, decided, want) && r.run !in decided
      requires record == Record(r.run, r.files + [item], record.evidence)
      requires At(disk.folders, Runtime).older == {} && Entry(At(disk.folders, Runtime).now) == record
      requires StagedOk(r, staged) && WaitingFrom(disk.folders, r, staged, 0, want)
      requires item.dest !in staged && r.evidence == None && (item.existed <==> item.dest in want)
      requires forall x :: x in At(disk.folders, FolderOf(item.dest)).Visible() ==> Settled(x, item.dest, want)
      requires if data.EvidenceText? then record.evidence == Some(item.dest) && data.run == record.run && !data.success
               else record.evidence == None
      modifies `staged, disk
      ensures disk.Explains(old(disk.faults), ok)
      ensures Inv(disk.folders, decided, want)
      ensures At(disk.folders, Runtime) == At(old(disk.folders), Runtime)
      ensures ok ==> staged == old(staged)[item.dest := data] && Staging(disk.folders, record, staged, decided, want)
    {
      var d := item.dest;
      ghost var was := disk.folders;
      ok := disk.Atomic(FolderOf(d), Of(d, IncomingNew(record.run)), Of(d, Incoming(record.run)), data);
      IncomingKeeps(was, disk.folders, r, item, record.evidence, data, decided, want);
      if ok {
        IncomingStaged(was, disk.folders, r, item, record.evidence, data, staged, want);
        StagedLonger(r, item, record.evidence, data, staged);
      }
      staged := staged[d := data];
    }

    /** Moves every staged file into place, syncing each directory. */
    method Publish(ghost decided: set<RunId>, ghost want: Archive) returns (ok: bool)
      requires Staging(disk.folders, record, staged, decided, want)
      modifies disk
      ensures disk.Explains(old(disk.faults), ok)
      ensures Inv(disk.folders, decided, want)
      ensures At(disk.folders, Runtime) == At(old(disk.folders), Runtime)
      ensures ok ==> PublishedTo(disk.folders, record, staged, |record.files|)
    {
      ok := true;
      for i := 0 to |record.files|
        invariant ok && old(disk.faults) <= disk.faults
        invariant Inv(disk.folders, decided, want)
        invariant At(disk.folders, Runtime) == At(old(disk.folders), Runtime)
        invariant WaitingFrom(disk.folders, record, staged, i, want)
        invariant PublishedTo(disk.folders, record, staged, i)
      {
        ok := PublishNext(i, decided, want);
        if !ok { return; }
      }
    }

    method PublishNext(i: nat, ghost decided: set<RunId>, ghost want: Archive) returns (ok: bool)
      requires Inv(disk.folders, decided, want) && record.run !in decided
      requires i < |record.files| && Distinct(record.files) && Journalled(disk.folders, record)
      requires WaitingFrom(disk.folders, record, staged, i, want) && PublishedTo(disk.folders, record, staged, i)
      modifies disk
      ensures disk.Explains(old(disk.faults), ok)
      ensures Inv(disk.folders, decided, want)
      ensures At(disk.folders, Runtime) == At(old(disk.folders), Runtime)
      ensures ok ==>
        && WaitingFrom(disk.folders, record, staged, i + 1, want)
        && PublishedTo(disk.folders, record, staged, i + 1)
    {
      ghost var was := disk.folders;
      ok := PublishItem(record.files[i]);
      MovingKeeps(was, disk.folders, record, i, staged, decided, want);
      if ok {
        MovedOn(was, disk.folders, record, i, staged, want);
      }
    }

    method PublishItem(item: Item) returns (ok: bool)
      modifies disk
      ensures var f := FolderOf(item.dest); var l := At(old(disk.folders), f).now;
        && Partly(old(disk.folders), disk.folders, f, Moving(l, item, record.run))
        && (ok ==>
              && Of(item.dest, Incoming(record.run)) in l
              && At(disk.folders, f) == Dir(MovedIn(MovedAside(l, item, record.run), item.dest, record.run), {}))
        && old(disk.faults) <= disk.faults
        && (Of(item.dest, Incoming(record.run)) in l && ((Of(item.dest, Final) in l) == item.existed) ==>
              disk.Explains(old(disk.faults), ok))
        // refused when the destination has appeared or vanished since it was staged
        && ((Of(item.dest, Final) in l) != item.existed ==> !ok && disk.folders == old(disk.folders))
    {
      var d := item.dest;
      var f := FolderOf(d);
      ghost var l := At(disk.folders, f).now;
      ok := (Of(d, Final) in At(disk.folders, f).now) == item.existed;
      if ok && item.existed {
        ok := disk.Rename(f, Of(d, Final), Of(d, Backup(record.run)));
      }
      if !ok { return; }
      assert At(disk.folders, f).now == MovedAside(l, item, record.run);
      ok := disk.Rename(f, Of(d, Incoming(record.run)), Of(d, Final));
      if !ok { return; }
      ok := disk.FsyncDir(f);
    }
  }
}