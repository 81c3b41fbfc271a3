/** The log archiver: entries returned by windows are merged by identity into one
    file a day, and checkpoints follow the files.

    A file is the map from identity to entry that its sorted lines encode.  Each
    replacement is atomic and is durable once its directory is synchronised; a
    crash may undo those that are not. */
module LogArchive {
  import opened IntSets
  import opened Options
  import Orders
  import opened Times

  datatype Entry = Entry(log: string, resource: string, insertId: Option<string>,
                         timestamp: Option<int>, received: Option<int>, body: string)

  /** What the SHA-256 of an identity is taken of. */
  datatype Identity = Inserted(log: string, resource: string, insertId: string) | Whole(entry: Entry)

  function IdentityOf(e: Entry): Identity {
    if e.insertId.Some? && e.insertId.value != "" then Inserted(e.log, e.resource, e.insertId.value)
    else Whole(e.(received := None))
  }

  function EventOf(e: Entry): Option<int> {
    if e.timestamp.Some? then e.timestamp else e.received
  }

  /** The day of the file of an entry; one with no time at all goes to no file. */
  function DayOf(e: Entry): Option<int> {
    if EventOf(e).Some? then Some(DayAt(EventOf(e).value)) else None
  }

  /** Redelivery changes the time of receipt alone, and that keeps the identity. */
  lemma RedeliveryKeepsIdentity(e: Entry, received: Option<int>)
    ensures IdentityOf(e.(received := received)) == IdentityOf(e)
    ensures e.timestamp.Some? ==> DayOf(e.(received := received)) == DayOf(e)
  {
    assert e.(received := received).(received := None) == e.(received := None);
  }

  /** One message delivered twice: the same insertId of the same log and resource, or,
      of entries without one, the same in all but the time of receipt. */
  predicate SameMessage(a: Entry, b: Entry) {
    var named, named' := a.insertId.Some? && a.insertId.value != "", b.insertId.Some? && b.insertId.value != "";
    && named == named'
    && a.log == b.log && a.resource == b.resource && a.insertId == b.insertId
    && (named || (a.timestamp == b.timestamp && a.body == b.body))
  }

  lemma IdentityExactly(a: Entry, b: Entry)
    ensures IdentityOf(a) == IdentityOf(b) <==> SameMessage(a, b)
  {
    assert a.(received := None) == b.(received := None) <==>
      a.log == b.log && a.resource == b.resource && a.insertId == b.insertId && a.timestamp == b.timestamp
      && a.body == b.body;
  }

  /** The UTC day of the timestamp, or of the receipt when there is none. */
  lemma DayExactly(e: Entry, day: int)
    ensures DayOf(e) == Some(day) <==>
      if e.timestamp.Some? then day * 86_400_000_000 <= e.timestamp.value < (day + 1) * 86_400_000_000
      else e.received.Some? && day * 86_400_000_000 <= e.received.value < (day + 1) * 86_400_000_000
  {
  }

  // ---- Merging by identity ----

  type File = map<Identity, Entry>
  type Files = map<int, File>

  function FileAt(files: Files, day: int): File {
    if day in files then files[day] else map[]
  }

  /** Later entries replace earlier ones of the same identity. */
  function Merge(file: File, incoming: seq<Entry>): File {
    if incoming == [] then file
    else
      var last := incoming[|incoming| - 1];
      Merge(file, incoming[..|incoming| - 1])[IdentityOf(last) := last]
  }

  function IdsOf(entries: seq<Entry>): set<Identity> {
    set e | e in entries :: IdentityOf(e)
  }

  lemma {:induction false} MergeKeys(file: File, incoming: seq<Entry>)
    ensures Merge(file, incoming).Keys == file.Keys + IdsOf(incoming)
  {
    if incoming != [] {
      var n := |incoming| - 1;
      MergeKeys(file, incoming[..n]);
      assert incoming == incoming[..n] + [incoming[n]];
    }
  }

  /** Entry `i` is the last of its identity. */
  predicate LastOf(entries: seq<Entry>, i: nat)
    requires i < |entries|
  {
    forall j :: i < j < |entries| ==> IdentityOf(entries[j]) != IdentityOf(entries[i])
  }

  /** The last of each incoming identity is what is kept; other lines stay. */
  lemma {:induction false} MergeKeepsLast(file: File, incoming: seq<Entry>)
    ensures forall i :: 0 <= i < |incoming| && LastOf(incoming, i) ==>
      IdentityOf(incoming[i]) in Merge(file, incoming)
      && Merge(file, incoming)[IdentityOf(incoming[i])] == incoming[i]
    ensures forall id :: id in file && id !in IdsOf(incoming) ==>
      id in Merge(file, incoming) && Merge(file, incoming)[id] == file[id]
  {
    if incoming != [] {
      var n := |incoming| - 1;
      var before := incoming[..n];
      MergeKeepsLast(file, before);
      assert incoming == before + [incoming[n]];
      forall i | 0 <= i < n && LastOf(incoming, i) ensures LastOf(before, i) {
        assert IdentityOf(incoming[n]) != IdentityOf(incoming[i]);
        forall j | i < j < n ensures IdentityOf(before[j]) != IdentityOf(before[i]) {
          assert IdentityOf(incoming[j]) != IdentityOf(incoming[i]);
        }
      }
      forall id | id in file && id !in IdsOf(incoming) ensures id !in IdsOf(before) && id != IdentityOf(incoming[n]) {
        assert forall e :: e in before ==> e in incoming;
        assert incoming[n] in incoming;
      }
    }
  }

  /** Every line of a merge is an old line or an incoming entry. */
  lemma {:induction false} MergedFrom(file: File, incoming: seq<Entry>, id: Identity)
    requires id in Merge(file, incoming)
    ensures (id in file && Merge(file, incoming)[id] == file[id])
      || (Merge(file, incoming)[id] in incoming && IdentityOf(Merge(file, incoming)[id]) == id)
  {
    if incoming != [] {
      var n := |incoming| - 1;
      if id != IdentityOf(incoming[n]) {
        MergedFrom(file, incoming[..n], id);
      }
    }
  }

  /** Gathering the incoming entries first and adding them together is the same. */
  lemma {:induction false} MergeTogether(file: File, incoming: seq<Entry>)
    ensures Merge(file, incoming) == file + Merge(map[], incoming)
  {
    if incoming != [] {
      MergeTogether(file, incoming[..|incoming| - 1]);
    }
  }

  /** Merging the same entries again, or in two parts, changes nothing. */
  lemma {:induction false} MergeInParts(file: File, a: seq<Entry>, b: seq<Entry>)
    ensures Merge(file, a + b) == Merge(Merge(file, a), b)
  {
    if b == [] {
      assert a + b == a;
    } else {
      var n := |b| - 1;
      assert (a + b)[..|a| + n] == a + b[..n];
      MergeInParts(file, a, b[..n]);
    }
  }

  lemma MergeAgain(file: File, incoming: seq<Entry>)
    ensures Merge(Merge(file, incoming), incoming) == Merge(file, incoming)
  {
    MergeTogether(file, incoming);
    MergeTogether(Merge(file, incoming), incoming);
  }

  /** No later entry is the same message. */
  predicate LastLike(entries: seq<Entry>, i: nat)
    requires i < |entries|
  {
    forall j :: i < j < |entries| ==> !SameMessage(entries[j], entries[i])
  }

  predicate NoneLike(entries: seq<Entry>, e: Entry) {
    forall f :: f in entries ==> !SameMessage(f, e)
  }

  /** Lines are filed under their identities. */
  predicate Keyed(file: File) {
    forall id :: id in file ==> IdentityOf(file[id]) == id
  }

  /** The lines after a merge: the last incoming entry of each message, the old lines
      of other messages, nothing else, and no message twice. */
  ghost predicate MergedLines(before: File, after: File, incoming: seq<Entry>) {
    && (forall i :: 0 <= i < |incoming| && LastLike(incoming, i) ==> incoming[i] in after.Values)
    && (forall e :: e in before.Values && NoneLike(incoming, e) ==> e in after.Values)
    && (forall e :: e in after.Values ==>
          || (e in before.Values && NoneLike(incoming, e))
          || exists i :: 0 <= i < |incoming| && LastLike(incoming, i) && incoming[i] == e)
    && (forall e, f :: e in after.Values && f in after.Values && SameMessage(e, f) ==> e == f)
  }

  lemma {:induction false} MergeKeyed(file: File, incoming: seq<Entry>)
    requires Keyed(file)
    ensures Keyed(Merge(file, incoming))
  {
    if incoming != [] {
      MergeKeyed(file, incoming[..|incoming| - 1]);
    }
  }

  lemma LastLikeIsLast(incoming: seq<Entry>, i: nat)
    requires i < |incoming|
    ensures LastLike(incoming, i) <==> LastOf(incoming, i)
  {
    forall j | i < j < |incoming|
      ensures SameMessage(incoming[j], incoming[i]) <==> IdentityOf(incoming[j]) == IdentityOf(incoming[i])
    {
      IdentityExactly(incoming[j], incoming[i]);
    }
  }

  lemma {:induction false} LastIndex(incoming: seq<Entry>, id: Identity) returns (i: nat)
    requires id in IdsOf(incoming)
    ensures i < |incoming| && IdentityOf(incoming[i]) == id && LastOf(incoming, i)
  {
    i := |incoming| - 1;
    while IdentityOf(incoming[i]) != id
      invariant i < |incoming| && forall j :: i < j < |incoming| ==> IdentityOf(incoming[j]) != id
      decreases i
    {
      var e :| e in incoming && IdentityOf(e) == id;
      var k :| 0 <= k < |incoming| && incoming[k] == e;
      i := i - 1;
    }
  }

  lemma NoneLikeIsNew(incoming: seq<Entry>, e: Entry)
    ensures NoneLike(incoming, e) <==> IdentityOf(e) !in IdsOf(incoming)
  {
    forall f | f in incoming ensures SameMessage(f, e) <==> IdentityOf(f) == IdentityOf(e) {
      IdentityExactly(f, e);
    }
  }

  lemma MergedLine(before: File, incoming: seq<Entry>, e: Entry)
    requires Keyed(before) && e in Merge(before, incoming).Values
    ensures (e in before.Values && NoneLike(incoming, e))
            || exists i :: 0 <= i < |incoming| && LastLike(incoming, i) && incoming[i] == e
  {
    var after := Merge(before, incoming);
    var id :| id in after && after[id] == e;
    MergeKeyed(before, incoming);
    MergeKeys(before, incoming);
    MergeKeepsLast(before, incoming);
    if id in IdsOf(incoming) {
      var i := LastIndex(incoming, id);
      LastLikeIsLast(incoming, i);
      assert incoming[i] == e;
    } else {
      NoneLikeIsNew(incoming, e);
      assert id in before && before[id] == e;
    }
  }

  /** What a merge keeps, told by the messages alone. */
  lemma MergeExactly(before: File, incoming: seq<Entry>)
    requires Keyed(before)
    ensures MergedLines(before, Merge(before, incoming), incoming)
  {
    var after := Merge(before, incoming);
    MergeKeepsLast(before, incoming);
    MergeKeyed(before, incoming);
    forall i | 0 <= i < |incoming| && LastLike(incoming, i) ensures incoming[i] in after.Values {
      LastLikeIsLast(incoming, i);
    }
    forall e | e in before.Values && NoneLike(incoming, e) ensures e in after.Values {
      NoneLikeIsNew(incoming, e);
    }
    forall e | e in after.Values
      ensures (e in before.Values && NoneLike(incoming, e))
              || exists i :: 0 <= i < |incoming| && LastLike(incoming, i) && incoming[i] == e
    {
      MergedLine(before, incoming, e);
    }
    forall e, f | e in after.Values && f in after.Values && SameMessage(e, f) ensures e == f {
      IdentityExactly(e, f);
    }
  }

  // ---- Archives ----

  ghost predicate Has(files: Files, e: Entry) {
    DayOf(e).Some? && DayOf(e).value in files && IdentityOf(e) in files[DayOf(e).value]
  }

  /** No line of `a` is missing from `b`. */
  ghost predicate Keeps(a: Files, b: Files) {
    forall d, id :: d in a && id in a[d] ==> d in b && id in b[d]
  }

  datatype Logged = Logged(entry: Entry, visible: int)

  ghost predicate Known(source: set<Logged>, at: int, e: Entry) {
    exists l :: l in source && l.entry == e && l.visible <= at
  }

  /** A line of the file of a day: an entry of the source, under its identity. */
  ghost predicate LineOk(source: set<Logged>, at: int, day: int, id: Identity, e: Entry) {
    Known(source, at, e) && DayOf(e) == Some(day) && IdentityOf(e) == id
  }

  ghost predicate Sound(source: set<Logged>, files: Files, at: int) {
    && (forall d :: d in files ==> files[d] != map[])
    && forall d, id :: d in files && id in files[d] ==> LineOk(source, at, d, id, files[d][id])
  }

  predicate SameLine(e: Entry, f: Entry) {
    IdentityOf(e) == IdentityOf(f) && DayOf(e) == DayOf(f)
  }

  /** One content per identity and day. */
  ghost predicate OneContent(source: set<Logged>) {
    forall a, b :: a in source && b in source && SameLine(a.entry, b.entry) ==> a.entry == b.entry
  }

  /** With one content per identity, which entries are archived fixes the files. */
  lemma FilesDetermined(source: set<Logged>, a: Files, b: Files, at: int)
    requires OneContent(source) && Sound(source, a, at) && Sound(source, b, at)
    requires forall l :: l in source ==> (Has(a, l.entry) <==> Has(b, l.entry))
    ensures a == b
  {
    SameLines(source, a, b, at);
    SameLines(source, b, a, at);
    SameFiles(a, b);
  }

  /** Every file of `a` is in `b`, with all of its lines. */
  ghost predicate Contained(a: Files, b: Files) {
    forall d :: d in a ==> d in b && forall id :: id in a[d] ==> id in b[d] && a[d][id] == b[d][id]
  }

  lemma SameFiles(a: Files, b: Files)
    requires Contained(a, b) && Contained(b, a)
    ensures a == b
  {
    forall d | d in a ensures d in b && a[d] == b[d] {
      assert forall id :: id in a[d] <==> id in b[d];
    }
    assert forall d :: d in b ==> d in a;
  }

  lemma SameLines(source: set<Logged>, a: Files, b: Files, at: int)
    requires OneContent(source) && Sound(source, a, at) && Sound(source, b, at)
    requires forall l :: l in source && Has(a, l.entry) ==> Has(b, l.entry)
    ensures Contained(a, b)
  {
    forall d | d in a ensures d in b && forall id :: id in a[d] ==> id in b[d] && a[d][id] == b[d][id] {
      forall id | id in a[d] ensures d in b && id in b[d] && a[d][id] == b[d][id] {
        LineInBoth(source, a, b, at, d, id);
      }
      assert a[d] != map[];
      assert a[d].Keys != {};
      Orders.SomeMember(a[d].Keys);
    }
  }

  lemma LineInBoth(source: set<Logged>, a: Files, b: Files, at: int, d: int, id: Identity)
    requires OneContent(source) && Sound(source, a, at) && Sound(source, b, at)
    requires forall l :: l in source && Has(a, l.entry) ==> Has(b, l.entry)
    requires d in a && id in a[d]
    ensures d in b && id in b[d] && a[d][id] == b[d][id]
  {
    assert LineOk(source, at, d, id, a[d][id]);
    var l :| l in source && l.entry == a[d][id] && l.visible <= at;
    assert Has(a, l.entry);
    assert LineOk(source, at, d, id, b[d][id]);
    var m :| m in source && m.entry == b[d][id] && m.visible <= at;
  }

  // ---- Windows ----

  datatype Field = Timestamp | ReceiveTimestamp

  function FieldOf(e: Entry, field: Field): Option<int> {
    if field == Timestamp then e.timestamp else e.received
  }

  /** A query for entries with `start <= field < end`, made at `at`. */
  datatype Window = Window(field: Field, start: int, end: int, at: int)

  predicate InWindow(w: Window, l: Logged) {
    var t := FieldOf(l.entry, w.field);
    l.visible <= w.at && t.Some? && w.start <= t.value < w.end
  }

  /** Everything the window returns is in its daily file. */
  ghost predicate Archived(source: set<Logged>, files: Files, w: Window) {
    forall l :: l in source && InWindow(w, l) ==> Has(files, l.entry)
  }

  lemma KeepsArchived(source: set<Logged>, a: Files, b: Files, w: Window)
    requires Keeps(a, b) && Archived(source, a, w)
    ensures Archived(source, b, w)
  {
  }

  /** Window `i` follows the one before it, and no query is older than the first. */
  predicate Follows(windows: seq<Window>, i: nat)
    requires 0 < i < |windows|
  {
    windows[i - 1].end == windows[i].start && windows[0].at <= windows[i].at
  }

  predicate ByEvent(w: Window) { w.field == Timestamp && w.start < w.end }

  /** Windows by event time that follow each other without gap or overlap. */
  ghost predicate Tiles(windows: seq<Window>) {
    && (forall w :: w in windows ==> ByEvent(w))
    && forall i {:trigger Follows(windows, i)} :: 0 < i < |windows| ==> Follows(windows, i)
  }

  /** The cursor of the backfill and the windows completed up to it. */
  ghost predicate Progress(source: set<Logged>, files: Files, through: Option<int>, windows: seq<Window>, clock: int) {
    && Tiles(windows)
    && (through.None? <==> windows == [])
    && (windows != [] ==> windows[|windows| - 1].end == through.value)
    && forall w :: w in windows ==> w.at <= clock && Archived(source, files, w)
  }

  predicate Spans(w: Window, t: int) { w.start <= t < w.end }

  lemma TilesInit(windows: seq<Window>)
    requires Tiles(windows) && |windows| > 1
    ensures Tiles(windows[..|windows| - 1])
    ensures windows[|windows| - 2].end == windows[|windows| - 1].start
  {
    var init := windows[..|windows| - 1];
    forall i | 0 < i < |init| ensures Follows(init, i) {
      assert Follows(windows, i);
    }
    assert Follows(windows, |windows| - 1);
  }

  lemma {:induction false} TilesSpan(windows: seq<Window>, t: int)
    requires Tiles(windows) && windows != []
    ensures windows[0].start <= t < windows[|windows| - 1].end <==>
            exists i :: 0 <= i < |windows| && Spans(windows[i], t)
    ensures windows[0].start < windows[|windows| - 1].end
  {
    var n := |windows| - 1;
    assert ByEvent(windows[n]);
    if n == 0 {
      assert Spans(windows[0], t) <==> windows[0].start <= t < windows[0].end;
    } else {
      var init := windows[..n];
      TilesInit(windows);
      TilesSpan(init, t);
      forall i | 0 <= i <= n && Spans(windows[i], t) ensures windows[0].start <= t < windows[n].end {
        assert i < n ==> Spans(init[i], t);
      }
      if windows[0].start <= t < windows[n].end {
        if windows[n].start <= t {
          assert Spans(windows[n], t);
        } else {
          var i :| 0 <= i < n && Spans(init[i], t);
          assert Spans(windows[i], t);
        }
      }
    }
  }

  /** Each event time of the range is in exactly one completed window. */
  lemma TiledOnce(windows: seq<Window>, t: int)
    requires Tiles(windows) && windows != [] && windows[0].start <= t < windows[|windows| - 1].end
    ensures exists i :: 0 <= i < |windows| && Spans(windows[i], t)
    ensures forall i, j :: 0 <= i < j < |windows| && Spans(windows[i], t) ==> !Spans(windows[j], t)
  {
    TilesSpan(windows, t);
    forall i, j | 0 <= i < j < |windows| && Spans(windows[i], t) ensures !Spans(windows[j], t) {
      assert windows[i].end <= windows[j].start by {
        InOrder(windows, i, j);
      }
    }
  }

  lemma {:induction false} InOrder(windows: seq<Window>, i: nat, j: nat)
    requires Tiles(windows) && i < j < |windows|
    ensures windows[i].end <= windows[j].start
    decreases j
  {
    assert Follows(windows, j);
    if i + 1 < j {
      InOrder(windows, i, j - 1);
      assert ByEvent(windows[j - 1]);
    }
  }

  /** Whatever was visible when the backfill began, from its start up to its
      cursor, is archived. */
  lemma BackfillCovers(source: set<Logged>, files: Files, through: Option<int>, windows: seq<Window>, clock: int,
                       l: Logged)
    requires Progress(source, files, through, windows, clock) && through.Some?
    requires l in source && l.visible <= windows[0].at
    requires l.entry.timestamp.Some? && windows[0].start <= l.entry.timestamp.value < through.value
    ensures Has(files, l.entry)
  {
    TilesSpan(windows, l.entry.timestamp.value);
    var i :| 0 <= i < |windows| && Spans(windows[i], l.entry.timestamp.value);
    assert windows[i] in windows && ByEvent(windows[i]) && (i > 0 ==> Follows(windows, i));
    assert InWindow(windows[i], l);
  }

  /** One more completed window. */
  lemma WindowDone(source: set<Logged>, before: Files, after: Files, through: Option<int>, windows: seq<Window>,
                   clock: int, w: Window)
    requires Progress(source, before, through, windows, clock) && Keeps(before, after)
    requires w.field == Timestamp && w.start < w.end && (through.Some? ==> w.start == through.value) && clock <= w.at
    requires Archived(source, after, w)
    ensures Progress(source, after, Some(w.end), windows + [w], w.at)
  {
    if windows != [] {
      assert windows[0] in windows;
    }
    TilesExtend(windows, w);
    KeepsProgress(source, before, after, through, windows, clock, w.at);
  }

  lemma TilesExtend(windows: seq<Window>, w: Window)
    requires Tiles(windows) && w.field == Timestamp && w.start < w.end
    requires windows != [] ==> windows[|windows| - 1].end == w.start && windows[0].at <= w.at
    ensures Tiles(windows + [w])
  {
    var all := windows + [w];
    forall i | 0 < i < |all| ensures Follows(all, i) {
      if i < |windows| {
        assert Follows(windows, i);
      }
    }
  }

  lemma KeepsProgress(source: set<Logged>, before: Files, after: Files, through: Option<int>, windows: seq<Window>,
                      clock: int, later: int)
    requires Progress(source, before, through, windows, clock) && Keeps(before, after) && clock <= later
    ensures Progress(source, after, through, windows, later)
  {
    forall w | w in windows ensures w.at <= later && Archived(source, after, w) {
      KeepsArchived(source, before, after, w);
    }
  }

  /** Complete backfills of the same history leave the same files, whatever their
      windows, restarts and repeats: the source shows all of the range from the
      start, and nothing from elsewhere was archived. */
  lemma BackfillsAgree(source: set<Logged>, a: Files, aThrough: Option<int>, aDone: seq<Window>,
                       b: Files, bThrough: Option<int>, bDone: seq<Window>, clock: int)
    requires OneContent(source) && Sound(source, a, clock) && Sound(source, b, clock)
    requires Progress(source, a, aThrough, aDone, clock) && Progress(source, b, bThrough, bDone, clock)
    requires aThrough.Some? && aThrough == bThrough && aDone[0].start == bDone[0].start
    requires forall l :: l in source ==> l.visible <= aDone[0].at && l.visible <= bDone[0].at
    requires Within(a, aDone[0].start, aThrough.value) && Within(b, bDone[0].start, bThrough.value)
    ensures a == b
  {
    forall l | l in source ensures Has(a, l.entry) <==> Has(b, l.entry) {
      if Has(a, l.entry) {
        LineIsEntry(source, a, clock, l);
        BackfillCovers(source, b, bThrough, bDone, clock, l);
      }
      if Has(b, l.entry) {
        LineIsEntry(source, b, clock, l);
        BackfillCovers(source, a, aThrough, aDone, clock, l);
      }
    }
    FilesDetermined(source, a, b, clock);
  }

  /** Every archived event time lies in the range. */
  ghost predicate Within(files: Files, lo: int, hi: int) {
    forall d, id :: d in files && id in files[d] ==>
      files[d][id].timestamp.Some? && lo <= files[d][id].timestamp.value < hi
  }

  lemma LineIsEntry(source: set<Logged>, files: Files, at: int, l: Logged)
    requires OneContent(source) && Sound(source, files, at) && l in source && Has(files, l.entry)
    ensures files[DayOf(l.entry).value][IdentityOf(l.entry)] == l.entry
  {
    var d, id := DayOf(l.entry).value, IdentityOf(l.entry);
    assert LineOk(source, at, d, id, files[d][id]);
    var m :| m in source && m.entry == files[d][id] && m.visible <= at;
    assert SameLine(m.entry, l.entry);
  }

  // ---- The incremental checkpoint ----

  ghost predicate Lag(source: set<Logged>, overlap: int, settling: int) {
    forall l :: l in source && l.entry.received.Some? ==> l.visible <= l.entry.received.value + overlap + settling
  }

  /** Up to the checkpoint, everything received since the first window and visible
      at the run that wrote the checkpoint, is archived. */
  ghost predicate Covered(source: set<Logged>, files: Files, through: Option<int>, first: int, settling: int) {
    through.Some? ==> Archived(source, files, Window(ReceiveTimestamp, first, through.value, through.value + settling))
  }

  /** The next window overlaps the last enough: what it leaves out was already
      visible when the last run completed. */
  lemma IncrementalCovers(source: set<Logged>, before: Files, after: Files, through: Option<int>, first: int,
                          overlap: int, settling: int, w: Window)
    requires Lag(source, overlap, settling) && 0 <= overlap
    requires Covered(source, before, through, first, settling) && Keeps(before, after)
    requires w.field == ReceiveTimestamp && w.end + settling <= w.at && Archived(source, after, w)
    requires through.Some? ==> w.start == through.value - overlap
    ensures Covered(source, after, Some(w.end), if through.Some? then first else w.start, settling)
  {
    var since := if through.Some? then first else w.start;
    forall l | l in source && InWindow(Window(ReceiveTimestamp, since, w.end, w.end + settling), l)
      ensures Has(after, l.entry)
    {
      if w.start <= l.entry.received.value {
        assert InWindow(w, l);
      } else {
        assert InWindow(Window(ReceiveTimestamp, first, through.value, through.value + settling), l);
        assert Has(before, l.entry);
      }
    }
  }

  lemma KeepsCovered(source: set<Logged>, before: Files, after: Files, through: Option<int>, first: int, settling: int)
    requires Covered(source, before, through, first, settling) && Keeps(before, after)
    ensures Covered(source, after, through, first, settling)
  {
  }

  // ---- Publication, one day after the other ----

  function OfDay(entries: seq<Entry>, day: int): seq<Entry> {
    if entries == [] then []
    else
      var n := |entries| - 1;
      OfDay(entries[..n], day) + if DayOf(entries[n]) == Some(day) then [entries[n]] else []
  }

  lemma {:induction false} OfDayHas(entries: seq<Entry>, day: int, e: Entry)
    ensures e in OfDay(entries, day) <==> e in entries && DayOf(e) == Some(day)
  {
    if entries != [] {
      var n := |entries| - 1;
      OfDayHas(entries[..n], day, e);
      assert entries == entries[..n] + [entries[n]];
    }
  }

  /** The last of its message among the entries of its day. */
  ghost predicate LastOfDay(entries: seq<Entry>, i: nat)
    requires i < |entries|
  {
    forall j :: i < j < |entries| && DayOf(entries[j]) == DayOf(entries[i]) ==> !SameMessage(entries[j], entries[i])
  }

  lemma {:induction false} LastWithinDay(entries: seq<Entry>, day: int, i: nat) returns (k: nat)
    requires i < |entries| && DayOf(entries[i]) == Some(day) && LastOfDay(entries, i)
    ensures k < |OfDay(entries, day)| && OfDay(entries, day)[k] == entries[i] && LastLike(OfDay(entries, day), k)
  {
    var n := |entries| - 1;
    var front, all := OfDay(entries[..n], day), OfDay(entries, day);
    if i == n {
      k := |front|;
    } else {
      assert forall j :: i < j < n ==> entries[..n][j] == entries[j];
      k := LastWithinDay(entries[..n], day, i);
      assert forall j :: 0 <= j < |front| ==> all[j] == front[j];
      assert DayOf(entries[n]) == Some(day) ==> !SameMessage(entries[n], entries[i]);
    }
  }

  type Groups = map<int, seq<Entry>>

  /** The entries of each day, in the order of arrival. */
  ghost predicate Grouped(entries: seq<Entry>, grouped: Groups) {
    && (forall d :: d in grouped ==> grouped[d] == OfDay(entries, d) != [])
    && forall d :: d !in grouped ==> OfDay(entries, d) == []
  }

  method GroupByDay(entries: seq<Entry>) returns (grouped: Groups)
    ensures Grouped(entries, grouped)
  {
    grouped := map[];
    for i := 0 to |entries|
      invariant Grouped(entries[..i], grouped)
    {
      var event, day := EventOf(entries[i]), DayOf(entries[i]);
      assert entries[..i + 1][..i] == entries[..i];
      if event.None? {
        continue;
      }
      var group := if day.value in grouped then grouped[day.value] else [];
      grouped := grouped[day.value := group + [entries[i]]];
    }
    assert entries[..|entries|] == entries;
  }

  ghost predicate SameDay(before: Files, after: Files, d: int) {
    (d in before <==> d in after) && (d in before ==> after[d] == before[d])
  }

  ghost predicate MergedDay(before: Files, after: Files, grouped: Groups, d: int) {
    d in grouped && d in after && after[d] == Merge(FileAt(before, d), grouped[d])
  }

  /** Each day's file is untouched or merged as a whole. */
  ghost predicate Applied(before: Files, after: Files, grouped: Groups) {
    forall d :: SameDay(before, after, d) || MergedDay(before, after, grouped, d)
  }

  /** Days made durable since are as they now stand. */
  ghost predicate Written(files: Files, before: Files, after: Files) {
    forall d :: SameDay(before, after, d) || (d in files && SameDay(files, after, d))
  }

  ghost predicate AllMerged(before: Files, after: Files, grouped: Groups) {
    forall d :: d in grouped ==> MergedDay(before, after, grouped, d)
  }

  lemma AppliedKeeps(before: Files, after: Files, grouped: Groups)
    requires Applied(before, after, grouped)
    ensures Keeps(before, after)
  {
    forall d, id | d in before && id in before[d] ensures d in after && id in after[d] {
      if !SameDay(before, after, d) {
        assert MergedDay(before, after, grouped, d);
        MergeKeys(before[d], grouped[d]);
        assert id in Merge(before[d], grouped[d]).Keys;
      }
    }
  }

  lemma AppliedSound(source: set<Logged>, before: Files, after: Files, entries: seq<Entry>, grouped: Groups, at: int,
                     later: int)
    requires Sound(source, before, at) && at <= later && Applied(before, after, grouped) && Grouped(entries, grouped)
    requires forall e :: e in entries ==> Known(source, later, e)
    ensures Sound(source, after, later)
  {
    forall d | d in after ensures after[d] != map[] {
      if MergedDay(before, after, grouped, d) {
        MergeKeys(FileAt(before, d), grouped[d]);
        assert grouped[d][0] in grouped[d] && IdentityOf(grouped[d][0]) in after[d].Keys;
      } else {
        assert SameDay(before, after, d);
      }
    }
    forall d, id | d in after && id in after[d] ensures LineOk(source, later, d, id, after[d][id]) {
      AppliedLine(source, before, after, entries, grouped, at, later, d, id);
    }
  }

  lemma AppliedLine(source: set<Logged>, before: Files, after: Files, entries: seq<Entry>, grouped: Groups,
                    at: int, later: int, d: int, id: Identity)
    requires Sound(source, before, at) && at <= later && Grouped(entries, grouped)
    requires SameDay(before, after, d) || MergedDay(before, after, grouped, d)
    requires forall e :: e in entries ==> Known(source, later, e)
    requires d in after && id in after[d]
    ensures LineOk(source, later, d, id, after[d][id])
  {
    if d in before && id in before[d] && after[d][id] == before[d][id] {
      assert LineOk(source, at, d, id, before[d][id]);
    } else {
      assert MergedDay(before, after, grouped, d);
      MergedFrom(FileAt(before, d), grouped[d], id);
      OfDayHas(entries, d, after[d][id]);
    }
  }

  lemma WrittenSound(source: set<Logged>, files: Files, before: Files, after: Files, at: int, later: int)
    requires Written(files, before, after) && Sound(source, before, at) && Sound(source, files, later) && at <= later
    ensures Sound(source, after, later)
  {
    forall d, id | d in after && id in after[d] ensures LineOk(source, later, d, id, after[d][id]) {
      if SameDay(before, after, d) {
        assert LineOk(source, at, d, id, before[d][id]);
      } else {
        assert SameDay(files, after, d) && LineOk(source, later, d, id, files[d][id]);
      }
    }
    forall d | d in after ensures after[d] != map[] {
      assert SameDay(before, after, d) || SameDay(files, after, d);
    }
  }

  lemma WrittenKeeps(files: Files, before: Files, after: Files)
    requires Written(files, before, after) && Keeps(before, files)
    ensures Keeps(before, after) && Keeps(after, files)
  {
    forall d, id | d in before && id in before[d] ensures d in after && id in after[d] {
      assert SameDay(before, after, d) || SameDay(files, after, d);
    }
    forall d, id | d in after && id in after[d] ensures d in files && id in files[d] {
      assert SameDay(before, after, d) || SameDay(files, after, d);
    }
  }

  lemma KeepsThrough(a: Files, b: Files, c: Files)
    requires Keeps(a, b) && Keeps(b, c)
    ensures Keeps(a, c)
  {
  }

  /** After a complete publication every dated entry is in its file. */
  lemma MergedHas(before: Files, after: Files, entries: seq<Entry>, grouped: Groups, e: Entry)
    requires Grouped(entries, grouped) && AllMerged(before, after, grouped)
    requires e in entries && DayOf(e).Some?
    ensures Has(after, e)
  {
    var d := DayOf(e).value;
    OfDayHas(entries, d, e);
    assert MergedDay(before, after, grouped, d);
    MergeKeys(FileAt(before, d), grouped[d]);
    assert IdentityOf(e) in IdsOf(grouped[d]);
    assert IdentityOf(e) in after[d].Keys;
  }

  /** And it is there as it was returned, unless a later entry of its day is the same message. */
  lemma ReturnedLine(before: Files, after: Files, entries: seq<Entry>, grouped: Groups, i: nat)
    requires Grouped(entries, grouped) && AllMerged(before, after, grouped)
    requires forall d :: d in grouped ==> Keyed(FileAt(before, d))
    requires i < |entries| && DayOf(entries[i]).Some? && LastOfDay(entries, i)
    ensures DayOf(entries[i]).value in after && entries[i] in after[DayOf(entries[i]).value].Values
  {
    var d := DayOf(entries[i]).value;
    var k := LastWithinDay(entries, d, i);
    assert MergedDay(before, after, grouped, d);
    MergeExactly(FileAt(before, d), grouped[d]);
  }

  /** Each dated entry is a line of its day, unless a later one is the same message. */
  ghost predicate AllFiled(entries: seq<Entry>, files: Files) {
    forall i :: 0 <= i < |entries| && DayOf(entries[i]).Some? && LastOfDay(entries, i) ==>
      DayOf(entries[i]).value in files && entries[i] in files[DayOf(entries[i]).value].Values
  }

  /** Every line was there or is one of these entries, in the file of its day. */
  ghost predicate OnlyFrom(before: Files, after: Files, entries: seq<Entry>) {
    forall d, id :: d in after && id in after[d] ==>
      || (d in before && id in before[d] && after[d][id] == before[d][id])
      || (after[d][id] in entries && DayOf(after[d][id]) == Some(d))
  }

  lemma AppliedOnly(before: Files, after: Files, entries: seq<Entry>, grouped: Groups)
    requires Applied(before, after, grouped) && Grouped(entries, grouped)
    ensures OnlyFrom(before, after, entries)
  {
    forall d, id | d in after && id in after[d]
      ensures (d in before && id in before[d] && after[d][id] == before[d][id])
              || (after[d][id] in entries && DayOf(after[d][id]) == Some(d))
    {
      if !SameDay(before, after, d) {
        assert MergedDay(before, after, grouped, d);
        MergedFrom(FileAt(before, d), grouped[d], id);
        OfDayHas(entries, d, after[d][id]);
      }
    }
  }

  lemma WindowFiled(source: set<Logged>, at: int, before: Files, after: Files, entries: seq<Entry>, grouped: Groups)
    requires Sound(source, before, at) && Grouped(entries, grouped) && AllMerged(before, after, grouped)
    ensures AllFiled(entries, after)
  {
    forall d ensures Keyed(FileAt(before, d)) {
      SoundIsKeyed(source, before, at, d);
    }
    forall i | 0 <= i < |entries| && DayOf(entries[i]).Some? && LastOfDay(entries, i)
      ensures DayOf(entries[i]).value in after && entries[i] in after[DayOf(entries[i]).value].Values
    {
      ReturnedLine(before, after, entries, grouped, i);
    }
  }

  lemma SoundIsKeyed(source: set<Logged>, files: Files, at: int, d: int)
    requires Sound(source, files, at)
    ensures Keyed(FileAt(files, d))
  {
    forall id | id in FileAt(files, d) ensures IdentityOf(FileAt(files, d)[id]) == id {
      assert LineOk(source, at, d, id, files[d][id]);
    }
  }

  /** What the run report says of one file. */
  datatype Report = Report(day: int, source: nat, unique: nat, added: nat, duplicate: nat, present: nat, either: nat,
                           resulting: nat)

  /** Each returned entry is new, a duplicate within the window, or was present. */
  ghost predicate Balances(r: Report, before: File, incoming: seq<Entry>, after: File) {
    && r.unique == |IdsOf(incoming)|
    && r.source == r.added + r.duplicate + r.present
    && r.unique == r.added + r.present
    && r.either == r.duplicate + r.present
    && r.resulting == |before| + r.added == |after|
  }

  lemma SplitSet<T>(a: set<T>, b: set<T>)
    ensures |a| == |a - b| + |a * b| && |a + b| == |b| + |a - b|
  {
    assert a == (a - b) + (a * b) && a + b == b + (a - b);
  }

  lemma {:induction false} FewIds(entries: seq<Entry>)
    ensures |Merge(map[], entries)| <= |entries|
  {
    if entries != [] {
      var n := |entries| - 1;
      FewIds(entries[..n]);
      var file := Merge(map[], entries[..n]);
      assert file[IdentityOf(entries[n]) := entries[n]].Keys == file.Keys + {IdentityOf(entries[n])};
    }
  }

  /** The loop over the incoming entries of a day. */
  method MergeDay(before: File, day: int, incoming: seq<Entry>) returns (existing: File, report: Report)
    ensures existing == Merge(before, incoming)
    ensures report.day == day && report.source == |incoming| && Balances(report, before, incoming, existing)
  {
    var incomingById: File := map[];
    for i := 0 to |incoming|
      invariant incomingById == Merge(map[], incoming[..i])
    {
      assert incoming[..i + 1][..i] == incoming[..i];
      incomingById := incomingById[IdentityOf(incoming[i]) := incoming[i]];
    }
    assert incoming[..|incoming|] == incoming;
    existing := before + incomingById;
    MergeTogether(before, incoming);
    ReportBalances(before, day, incoming, incomingById, existing);
    var added := |incomingById.Keys - before.Keys|;
    report := Report(day, |incoming|, |incomingById|, added, |incoming| - |incomingById|,
                     |incomingById.Keys * before.Keys|, |incoming| - added, |existing|);
  }

  lemma ReportBalances(before: File, day: int, incoming: seq<Entry>, byId: File, after: File)
    requires byId == Merge(map[], incoming) && after == before + byId
    ensures |byId| <= |incoming| && |byId.Keys - before.Keys| <= |incoming|
    ensures var added := |byId.Keys - before.Keys|;
      Balances(Report(day, |incoming|, |byId|, added, |incoming| - |byId|, |byId.Keys * before.Keys|,
                      |incoming| - added, |after|), before, incoming, after)
  {
    FewIds(incoming);
    MergeKeys(map[], incoming);
    assert byId.Keys == IdsOf(incoming);
    SplitSet(byId.Keys, before.Keys);
    assert after.Keys == before.Keys + byId.Keys == byId.Keys + before.Keys;
    assert |byId| == |byId.Keys| && |before| == |before.Keys| && |after| == |after.Keys|;
  }

  /** New lines come from the window, so a range that holds both still holds all. */
  lemma AppliedWithin(before: Files, after: Files, entries: seq<Entry>, grouped: Groups, lo: int, hi: int)
    requires Within(before, lo, hi) && Applied(before, after, grouped) && Grouped(entries, grouped)
    requires forall e :: e in entries ==> e.timestamp.Some? && lo <= e.timestamp.value < hi
    ensures Within(after, lo, hi)
  {
    forall d, id | d in after && id in after[d]
      ensures after[d][id].timestamp.Some? && lo <= after[d][id].timestamp.value < hi
    {
      if MergedDay(before, after, grouped, d) {
        MergedFrom(FileAt(before, d), grouped[d], id);
        OfDayHas(entries, d, after[d][id]);
      } else {
        assert SameDay(before, after, d);
      }
    }
  }

  /** What a query returns: the visible entries of the window. */
  ghost predicate Returned(source: set<Logged>, w: Window, entries: seq<Entry>) {
    && (forall l :: l in source && InWindow(w, l) ==> l.entry in entries)
    && forall e :: e in entries ==> exists l :: l in source && l.entry == e && InWindow(w, l)
  }

  lemma ReturnedArchived(source: set<Logged>, w: Window, entries: seq<Entry>, grouped: Groups, before: Files,
                         after: Files)
    requires Returned(source, w, entries) && Grouped(entries, grouped) && AllMerged(before, after, grouped)
    ensures Archived(source, after, w)
  {
    forall l | l in source && InWindow(w, l) ensures Has(after, l.entry) {
      MergedHas(before, after, entries, grouped, l.entry);
    }
  }

  lemma DurableArchived(source: set<Logged>, w: Window, entries: seq<Entry>, grouped: Groups, files: Files, safe: Files)
    requires Returned(source, w, entries) && Grouped(entries, grouped) && Archived(source, files, w)
    requires forall d :: d in grouped ==> SameDay(files, safe, d)
    ensures Archived(source, safe, w)
  {
    forall l | l in source && InWindow(w, l) ensures Has(safe, l.entry) {
      assert Has(files, l.entry);
      OfDayHas(entries, DayOf(l.entry).value, l.entry);
      assert SameDay(files, safe, DayOf(l.entry).value);
    }
  }

  /** After a power loss each day's file is the one that stood or the durable one. */
  ghost predicate Survived(files: Files, safe: Files, after: Files) {
    forall d :: SameDay(files, after, d) || SameDay(safe, after, d)
  }

  lemma SurvivedOk(source: set<Logged>, files: Files, safe: Files, after: Files, clock: int)
    requires Sound(source, files, clock) && Sound(source, safe, clock) && Keeps(safe, files)
    requires Survived(files, safe, after)
    ensures Sound(source, after, clock) && Keeps(safe, after)
  {
    forall d, id | d in after && id in after[d] ensures LineOk(source, clock, d, id, after[d][id]) {
      assert SameDay(files, after, d) || SameDay(safe, after, d);
      assert d in files && id in files[d] ==> LineOk(source, clock, d, id, files[d][id]);
      assert d in safe && id in safe[d] ==> LineOk(source, clock, d, id, safe[d][id]);
    }
    forall d | d in after ensures after[d] != map[] {
      assert SameDay(files, after, d) || SameDay(safe, after, d);
    }
    forall d, id | d in safe && id in safe[d] ensures d in after && id in after[d] {
      assert SameDay(files, after, d) || SameDay(safe, after, d);
    }
  }

  function Surviving(files: Files, safe: Files, kept: set<int>): (after: Files)
    ensures Survived(files, safe, after)
  {
    map d | d in files.Keys + safe.Keys && d in (if d in kept then files else safe) ::
      if d in kept then files[d] else safe[d]
  }

  lemma SoundLater(source: set<Logged>, files: Files, at: int, later: int)
    requires Sound(source, files, at) && at <= later
    ensures Sound(source, files, later)
  {
    forall d, id | d in files && id in files[d] ensures LineOk(source, later, d, id, files[d][id]) {
      assert LineOk(source, at, d, id, files[d][id]);
    }
  }

  /** A window by event time adds only lines with event times in it. */
  ghost predicate NothingElse(before: Files, after: Files, field: Field, start: int, end: int) {
    field == Timestamp ==> forall lo, hi :: Within(before, lo, hi) && lo <= start && end <= hi ==> Within(after, lo, hi)
  }

  lemma NothingElseThrough(a: Files, b: Files, c: Files, from: int, here: int, next: int, limit: int)
    requires NothingElse(a, b, Timestamp, from, limit) && NothingElse(b, c, Timestamp, here, next)
    requires from <= here && next <= limit
    ensures NothingElse(a, c, Timestamp, from, limit)
  {
  }

  /** A run that began at `from` has moved the cursor to `here`, or not yet moved it. */
  ghost predicate Went(backfill: Option<int>, windows: seq<Window>, now: Option<int>, nowWindows: seq<Window>,
                       from: int, here: int, began: int) {
    || (now == backfill && nowWindows == windows && here == from)
    || (now == Some(here) && windows < nowWindows
        && nowWindows[|windows|].start == from && began <= nowWindows[|windows|].at)
  }

  ghost predicate OneWindow(backfill: Option<int>, windows: seq<Window>, now: Option<int>, nowWindows: seq<Window>,
                            here: int, next: int, began: int, ok: bool) {
    || (!ok && now == backfill && nowWindows == windows)
    || (now == Some(next) && |nowWindows| == |windows| + 1 && windows < nowWindows
        && nowWindows[|windows|].start == here && nowWindows[|windows|].end == next
        && began <= nowWindows[|windows|].at)
  }

  /** The windows since the first `n` are whole, but for one that ends at the limit. */
  ghost predicate WholeWindows(windows: seq<Window>, n: nat, width: int, limit: int) {
    forall k :: n <= k < |windows| ==>
      && windows[k].end - windows[k].start <= width
      && (windows[k].end - windows[k].start == width || windows[k].end == limit)
  }

  lemma WholeNext(was: Option<int>, wasWindows: seq<Window>, now: Option<int>, nowWindows: seq<Window>, n: nat,
                  width: int, limit: int, here: int, next: int, since: int, ok: bool)
    requires n <= |wasWindows| && WholeWindows(wasWindows, n, width, limit)
    requires OneWindow(was, wasWindows, now, nowWindows, here, next, since, ok)
    requires here < limit && next == if here + width < limit then here + width else limit
    ensures n <= |nowWindows| && WholeWindows(nowWindows, n, width, limit)
  {
  }

  lemma WentEarlier(backfill: Option<int>, windows: seq<Window>, now: Option<int>, nowWindows: seq<Window>,
                    from: int, limit: int, began: int, earlier: int, ok: bool)
    requires exists here :: Went(backfill, windows, now, nowWindows, from, here, began) && (ok ==> limit <= here)
    requires earlier <= began
    ensures exists here :: Went(backfill, windows, now, nowWindows, from, here, earlier) && (ok ==> limit <= here)
  {
    var here :| Went(backfill, windows, now, nowWindows, from, here, began) && (ok ==> limit <= here);
    assert Went(backfill, windows, now, nowWindows, from, here, earlier);
  }

  lemma WentOn(backfill: Option<int>, windows: seq<Window>, was: Option<int>, wasWindows: seq<Window>,
               now: Option<int>, nowWindows: seq<Window>, from: int, here: int, next: int, began: int, since: int,
               ok: bool)
    requires Went(backfill, windows, was, wasWindows, from, here, began) && began <= since
    requires OneWindow(was, wasWindows, now, nowWindows, here, next, since, ok)
    ensures Went(backfill, windows, now, nowWindows, from, next, began)
            || (!ok && Went(backfill, windows, now, nowWindows, from, here, began))
  {
  }

  lemma AppliedNothing(files: Files, field: Field, start: int, end: int)
    ensures NothingElse(files, files, field, start, end)
  {
  }

  lemma WindowPublished(source: set<Logged>, w: Window, entries: seq<Entry>, grouped: Groups,
                        before: Files, after: Files, safeBefore: Files, safeAfter: Files, ok: bool)
    requires Returned(source, w, entries) && Grouped(entries, grouped)
    requires Sound(source, before, w.at) && Sound(source, safeBefore, w.at) && Keeps(safeBefore, before)
    requires Applied(before, after, grouped) && Written(after, safeBefore, safeAfter)
    requires ok ==> AllMerged(before, after, grouped) && forall d :: d in grouped ==> SameDay(after, safeAfter, d)
    ensures Sound(source, after, w.at) && Sound(source, safeAfter, w.at) && Keeps(safeAfter, after)
    ensures Keeps(before, after) && Keeps(safeBefore, safeAfter)
    ensures ok ==> Archived(source, safeAfter, w)
    ensures NothingElse(before, after, w.field, w.start, w.end)
    ensures OnlyFrom(before, after, entries) && (ok ==> AllFiled(entries, after))
  {
    AppliedOnly(before, after, entries, grouped);
    if ok {
      WindowFiled(source, w.at, before, after, entries, grouped);
    }
    AppliedSound(source, before, after, entries, grouped, w.at, w.at);
    AppliedKeeps(before, after, grouped);
    KeepsThrough(safeBefore, before, after);
    WrittenSound(source, after, safeBefore, safeAfter, w.at, w.at);
    WrittenKeeps(after, safeBefore, safeAfter);
    if ok {
      ReturnedArchived(source, w, entries, grouped, before, after);
      DurableArchived(source, w, entries, grouped, after, safeAfter);
    }
    if w.field == Timestamp {
      forall lo, hi | Within(before, lo, hi) && lo <= w.start && w.end <= hi ensures Within(after, lo, hi) {
        AppliedWithin(before, after, entries, grouped, lo, hi);
      }
    }
  }

  /** One archive, its two checkpoints and the log it reads.  Any step may fail,
      and every method leaves a state from which the next run goes on. */
  class Archiver {
    const source: set<Logged>
    const overlap: int
    const settling: int
    const lookback: int
    const width: int
    var clock: int
    var files: Files
    var safe: Files                        // what a power loss cannot undo
    var backfill: Option<int>              // event_through
    var backfillSafe: Option<int>
    var received: Option<int>              // receive_through
    var receivedSafe: Option<int>
    ghost var windows: seq<Window>         // completed up to `backfill`
    ghost var windowsSafe: seq<Window>
    ghost var first: int                   // where the first window up to `received` began
    ghost var firstSafe: int
    ghost var faults: nat                  // steps that have failed

    constructor (source: set<Logged>, overlap: int, settling: int, lookback: int, width: int, clock: int)
      requires Lag(source, overlap, settling) && 0 <= overlap && 0 < width
      ensures Valid() && files == map[] && backfill.None? && received.None?
    {
      this.source, this.overlap, this.settling, this.lookback, this.width := source, overlap, settling, lookback, width;
      this.clock, files, safe := clock, map[], map[];
      backfill, backfillSafe, received, receivedSafe, faults := None, None, None, None, 0;
      windows, windowsSafe, first, firstSafe := [], [], 0, 0;
    }

    ghost predicate Valid()
      reads `clock, `files, `safe, `backfill, `backfillSafe, `received, `receivedSafe, `windows, `windowsSafe, `first,
        `firstSafe
    {
      && Lag(source, overlap, settling) && 0 <= overlap && 0 < width
      && ArchiveOk(files, safe, clock)
      && CursorsOk(safe, clock)
    }

    ghost predicate ArchiveOk(files: Files, safe: Files, clock: int)
    {
      Sound(source, files, clock) && Sound(source, safe, clock) && Keeps(safe, files)
    }

    /** Whatever a checkpoint says is done is durable in the files. */
    ghost predicate CursorsOk(safe: Files, clock: int)
      reads `backfill, `backfillSafe, `received, `receivedSafe, `windows, `windowsSafe, `first, `firstSafe
    {
      BackfillOk(safe, clock) && ReceivedOk(safe)
    }

    ghost predicate BackfillOk(safe: Files, clock: int)
      reads `backfill, `backfillSafe, `windows, `windowsSafe
    {
      && Progress(source, safe, backfill, windows, clock)
      && Progress(source, safe, backfillSafe, windowsSafe, clock)
    }

    ghost predicate ReceivedOk(safe: Files)
      reads `received, `receivedSafe, `first, `firstSafe
    {
      && Covered(source, safe, received, first, settling)
      && Covered(source, safe, receivedSafe, firstSafe, settling)
    }

    lemma CursorsKept(before: Files, after: Files, clock: int, later: int)
      requires CursorsOk(before, clock) && Keeps(before, after) && clock <= later
      ensures CursorsOk(after, later)
    {
      KeepsProgress(source, before, after, backfill, windows, clock, later);
      KeepsProgress(source, before, after, backfillSafe, windowsSafe, clock, later);
      KeepsCovered(source, before, after, received, first, settling);
      KeepsCovered(source, before, after, receivedSafe, firstSafe, settling);
    }

    /** What fails, fails because some step since `before` has failed. */
    ghost predicate Explains(before: nat, ok: bool)
      reads `faults
    {
      if ok then before <= faults else before < faults
    }

    /** A step that may fail. */
    method Try() returns (ok: bool)
      modifies `faults
      ensures Explains(old(faults), ok)
    {
      ok := *;
      if !ok {
        faults := faults + 1;
      }
    }

    /** `os.replace`, then `fsync` of the directory. */
    method Replace(day: int, file: File) returns (ok: bool)
      modifies `files, `safe, `faults
      ensures Explains(old(faults), ok)
      ensures files == old(files) || files == old(files)[day := file]
      ensures !ok ==> safe == old(safe)
      ensures ok ==> files == old(files)[day := file] && safe == old(safe)[day := file]
    {
      ok := Try();
      if !ok { return; }
      files := files[day := file];
      ok := Try();
      if !ok { return; }
      safe := safe[day := file];
    }

    method PublishDay(day: int, incoming: seq<Entry>) returns (ok: bool, report: Report)
      modifies `files, `safe, `faults
      ensures Explains(old(faults), ok)
      ensures DayStep(day, Merge(FileAt(old(files), day), incoming), old(files), files, old(safe), safe, ok)
      ensures ReportOk(old(files), day, incoming, report)
    {
      var existing;
      existing, report := MergeDay(FileAt(files, day), day, incoming);
      ok := Replace(day, existing);
    }

    method Publish(grouped: Groups) returns (ok: bool, reports: seq<Report>)
      requires forall d :: d in grouped ==> grouped[d] != []
      modifies `files, `safe, `faults
      ensures Explains(old(faults), ok)
      ensures Applied(old(files), files, grouped) && Written(files, old(safe), safe)
      ensures ok ==> AllMerged(old(files), files, grouped) && forall d :: d in grouped ==> SameDay(files, safe, d)
      ensures ok ==> ReportsOk(old(files), grouped, Sorted(grouped.Keys), reports)
      ensures ok ==> forall d :: d in grouped && Keyed(FileAt(old(files), d)) ==>
        d in files && MergedLines(FileAt(old(files), d), files[d], grouped[d])
    {
      var days := Sorted(grouped.Keys);
      reports := [];
      for i := 0 to |days|
        invariant old(faults) <= faults
        invariant Through(days, i, old(files), files, old(safe), safe, grouped)
        invariant ReportsOk(old(files), grouped, days[..i], reports)
      {
        var day := days[i];
        ghost var wasFiles, wasSafe := files, safe;
        var report;
        assert day in days;
        ok, report := PublishDay(day, grouped[day]);
        OneDay(days, i, old(files), wasFiles, files, old(safe), wasSafe, safe, grouped, ok);
        if !ok { return; }
        MoreReports(old(files), wasFiles, grouped, days, i, reports, report);
        reports := reports + [report];
      }
      ok := true;
      assert days[..|days|] == days;
      AllThrough(days, old(files), files, old(safe), safe, grouped);
      forall d | d in grouped && Keyed(FileAt(old(files), d))
        ensures d in files && MergedLines(FileAt(old(files), d), files[d], grouped[d])
      {
        assert MergedDay(old(files), files, grouped, d);
        MergeExactly(FileAt(old(files), d), grouped[d]);
      }
    }

    /** Time passes. */
    method Tick()
      requires Valid()
      modifies `clock
      ensures Valid() && old(clock) <= clock
    {
      var passed: int := *;
      if passed < 0 {
        passed := 0;
      }
      SoundLater(source, files, clock, clock + passed);
      SoundLater(source, safe, clock, clock + passed);
      CursorsKept(safe, safe, clock, clock + passed);
      clock := clock + passed;
    }

    /** A query, in whatever order the entries come. */
    method Read(w: Window) returns (entries: seq<Entry>)
      ensures Returned(source, w, entries)
    {
      entries := [];
      var left := set l | l in source && InWindow(w, l) :: l.entry;
      ghost var all := left;
      while left != {}
        invariant forall e :: e in all <==> e in left || e in entries
        decreases left
      {
        Orders.SomeMember(left);
        var e :| e in left;
        left := left - {e};
        entries := entries + [e];
      }
      assert forall l :: l in source && InWindow(w, l) ==> l.entry in all;
    }

    /** One window: read, group by day, publish. */
    method RunWindow(field: Field, start: int, end: int) returns (ok: bool, ghost w: Window, ghost entries: seq<Entry>)
      requires Valid()
      modifies `clock, `files, `safe, `faults
      ensures Explains(old(faults), ok)
      ensures Valid() && old(clock) <= clock
      ensures w == Window(field, start, end, clock)
      ensures Keeps(old(files), files) && Keeps(old(safe), safe)
      ensures ok ==> Archived(source, safe, w)
      // what the query returned is what the files now say, and nothing else is new
      ensures OnlyFrom(old(files), files, entries)
      ensures ok ==> Returned(source, w, entries) && AllFiled(entries, files)
      ensures NothingElse(old(files), files, field, start, end)
    {
      entries := [];
      Tick();
      w := Window(field, start, end, clock);
      AppliedNothing(files, field, start, end);
      ok := Try();
      if !ok { return; }
      var returned := Read(Window(field, start, end, clock));
      entries := returned;
      ok := PublishWindow(returned, w);
      CursorsKept(old(safe), safe, clock, clock);
    }

    /** What a window returned goes into the files of its days. */
    method PublishWindow(entries: seq<Entry>, ghost w: Window) returns (ok: bool)
      requires ArchiveOk(files, safe, clock) && w.at == clock && Returned(source, w, entries)
      modifies `files, `safe, `faults
      ensures Explains(old(faults), ok)
      ensures ArchiveOk(files, safe, clock) && Keeps(old(files), files) && Keeps(old(safe), safe)
      ensures OnlyFrom(old(files), files, entries) && NothingElse(old(files), files, w.field, w.start, w.end)
      ensures ok ==> Archived(source, safe, w) && AllFiled(entries, files)
    {
      var grouped := GroupByDay(entries);
      var reports;
      ok, reports := Publish(grouped);
      WindowPublished(source, w, entries, grouped, old(files), files, old(safe), safe, ok);
    }

    /** The backfill checkpoint replaced; durable when that succeeds. */
    method SaveBackfill(through: int, ghost w: Window) returns (ok: bool)
      requires BackfillOk(safe, clock) && w.field == Timestamp && w.start < w.end == through && w.at == clock
      requires Archived(source, safe, w) && (backfill.Some? ==> w.start == backfill.value)
      modifies `backfill, `backfillSafe, `windows, `windowsSafe, `faults
      ensures Explains(old(faults), ok)
      ensures BackfillOk(safe, clock)
      ensures ok ==> backfill == Some(through) && windows == old(windows) + [w]
      ensures (backfill == old(backfill) && windows == old(windows))
        || (backfill == Some(through) && windows == old(windows) + [w])
    {
      WindowDone(source, safe, safe, backfill, windows, clock, w);
      ok := Try();
      if ok {
        backfill, windows := Some(through), windows + [w];
        ok := Try();
        if ok {
          backfillSafe, windowsSafe := backfill, windows;
        }
      }
    }

    method SaveReceived(through: int, ghost since: int) returns (ok: bool)
      requires ReceivedOk(safe) && Covered(source, safe, Some(through), since, settling)
      modifies `received, `receivedSafe, `first, `firstSafe, `faults
      ensures Explains(old(faults), ok)
      ensures ReceivedOk(safe)
      ensures ok ==> received == Some(through) && first == since
      ensures (received == old(received) && first == old(first)) || (received == Some(through) && first == since)
    {
      ok := Try();
      if ok {
        received, first := Some(through), since;
        ok := Try();
        if ok {
          receivedSafe, firstSafe := received, first;
        }
      }
    }

    /** An incremental run: entries by time of receipt, the last ones left to settle. */
    method Incremental() returns (ok: bool)
      requires Valid()
      modifies `clock, `files, `safe, `received, `receivedSafe, `first, `firstSafe, `faults
      ensures Explains(old(faults), ok)
      ensures Valid() && old(clock) <= clock
      ensures Keeps(old(files), files) && Keeps(old(safe), safe)
      // up to the settled end of the log, unless the overlap reaches beyond it
      ensures ok ==>
        || (received.Some? && old(clock) - settling <= received.value <= clock - settling)
        || (received == old(received) &&
              (if received.Some? then old(clock) - settling <= received.value - overlap else lookback <= settling))
      ensures old(received).Some? ==> first == old(first)
      ensures old(received).None? && received.Some? ==> old(clock) - lookback <= first <= clock - lookback
    {
      Tick();
      var start := if received.Some? then received.value - overlap else clock - lookback;
      var end := clock - settling;
      if start >= end {
        return true;
      }
      ok := IncrementalWindow(start, end);
    }

    /** The window and, behind it, the checkpoint. */
    method IncrementalWindow(start: int, end: int) returns (ok: bool)
      requires Valid() && end + settling <= clock && (received.Some? ==> start == received.value - overlap)
      modifies `clock, `files, `safe, `received, `receivedSafe, `first, `firstSafe, `faults
      ensures Explains(old(faults), ok)
      ensures Valid() && old(clock) <= clock
      ensures Keeps(old(files), files) && Keeps(old(safe), safe)
      ensures ok ==> received == Some(end)
      ensures received == old(received) || received == Some(end)
      ensures first == old(first) || (old(received).None? && received.Some? && first == start)
      ensures old(received).None? && received.Some? ==> first == start
    {
      ghost var w, entries;
      ok, w, entries := RunWindow(ReceiveTimestamp, start, end);
      if !ok { return; }
      IncrementalCovers(source, old(safe), safe, received, first, overlap, settling, w);
      ok := SaveReceived(end, if received.Some? then first else start);
    }

    /** A range run reads a window of event times and moves no checkpoint. */
    method Range(start: int, end: int) returns (ok: bool)
      requires Valid()
      modifies `clock, `files, `safe, `faults
      ensures Explains(old(faults), ok || end <= start)
      ensures Valid() && old(clock) <= clock
      ensures Keeps(old(files), files) && Keeps(old(safe), safe)
      ensures ok ==> start < end && Archived(source, safe, Window(Timestamp, start, end, old(clock)))
      ensures NothingElse(old(files), files, Timestamp, start, end) && (end <= start ==> files == old(files))
    {
      AppliedNothing(files, Timestamp, start, end);
      if start >= end {
        return false;
      }
      ghost var w, entries;
      ok, w, entries := RunWindow(Timestamp, start, end);
    }

    ghost predicate EarliestAt(from: int, at: int) {
      forall l :: l in source && l.visible <= at && l.entry.timestamp.Some? ==> from <= l.entry.timestamp.value
    }

    /** An entry of that time is visible. */
    ghost predicate SomeAt(t: int, at: int) {
      exists l :: l in source && l.visible <= at && l.entry.timestamp == Some(t)
    }

    lemma SomeLater(at: int, later: int)
      requires at <= later
      ensures forall t :: SomeAt(t, at) ==> SomeAt(t, later)
    {
    }

    /** Where a backfill begins: its cursor, the given start, or the earliest entry. */
    method BackfillStart(start: Option<int>) returns (ok: bool, from: int)
      requires Valid()
      ensures ok && backfill.Some? ==> from == backfill.value
      ensures ok && backfill.None? && start.Some? ==> from == start.value
      ensures ok && backfill.None? && start.None? ==> EarliestAt(from, clock) && SomeAt(from, clock)
      // it fails only if there is nothing to begin with
      ensures !ok ==> backfill.None? && start.None? && forall t :: !SomeAt(t, clock)
    {
      if backfill.Some? {
        return true, backfill.value;
      }
      if start.Some? {
        return true, start.value;
      }
      var times := set l | l in source && l.visible <= clock && l.entry.timestamp.Some? :: l.entry.timestamp.value;
      assert forall l ::
        l in source && l.visible <= clock && l.entry.timestamp.Some? ==> l.entry.timestamp.value in times;
      if times == {} {
        return false, 0;
      }
      from := Min(times);
      assert from in times;
      ok := true;
    }

    /** A backfill run, which goes on from the cursor of the last one. */
    method Backfill(start: Option<int>, end: Option<int>) returns (ok: bool, ghost from: int, ghost limit: int)
      requires Valid()
      modifies `clock, `files, `safe, `backfill, `backfillSafe, `windows, `windowsSafe, `faults
      ensures Explains(old(faults), ok || (old(backfill).None? && start.None? && forall t :: !SomeAt(t, old(clock))))
      ensures Valid() && old(clock) <= clock
      ensures Keeps(old(files), files) && Keeps(old(safe), safe)
      ensures if end.Some? then limit == end.value else old(clock) <= limit <= clock
      ensures ok && old(backfill).Some? ==> from == old(backfill).value
      ensures ok && old(backfill).None? && start.Some? ==> from == start.value
      ensures exists here ::
        Went(old(backfill), old(windows), backfill, windows, from, here, old(clock)) && (ok ==> limit <= here)
      ensures WholeWindows(windows, |old(windows)|, width, limit)
      ensures NothingElse(old(files), files, Timestamp, from, limit)
      // a first backfill that completes archives everything visible when it began
      ensures ok && old(backfill).None? && start.None? ==> AllBefore(limit, old(clock))
    {
      Tick();
      var stop := if end.Some? then end.value else clock;
      limit := stop;
      var here;
      ok, here := BackfillStart(start);
      from := here;
      AppliedNothing(files, Timestamp, from, limit);
      assert Went(old(backfill), old(windows), backfill, windows, from, from, old(clock));
      if !ok {
        SomeLater(old(clock), clock);
        return;
      }
      ghost var began := clock;
      ok := BackfillLoop(here, stop);
      WentEarlier(old(backfill), old(windows), backfill, windows, from, limit, began, old(clock), ok);
      if ok && old(backfill).None? && start.None? {
        DiscoveredAll(from, stop, began);
      }
    }

    /** Everything visible at `at` with an event time before `limit` is archived. */
    ghost predicate AllBefore(limit: int, at: int)
      reads this
    {
      forall l :: l in source && l.visible <= at && l.entry.timestamp.Some? && l.entry.timestamp.value < limit ==>
        Has(safe, l.entry)
    }

    lemma DiscoveredAll(from: int, limit: int, began: int)
      requires Valid() && EarliestAt(from, began)
      requires exists here :: Went(None, [], backfill, windows, from, here, began) && limit <= here
      ensures forall at :: at <= began ==> AllBefore(limit, at)
    {
      var here :| Went(None, [], backfill, windows, from, here, began) && limit <= here;
      forall l | l in source && l.visible <= began && l.entry.timestamp.Some? && l.entry.timestamp.value < limit
        ensures Has(safe, l.entry)
      {
        BackfillCovers(source, safe, backfill, windows, clock, l);
      }
    }

    method BackfillLoop(start: int, stop: int) returns (ok: bool)
      requires Valid() && (backfill.Some? ==> start == backfill.value)
      modifies `clock, `files, `safe, `backfill, `backfillSafe, `windows, `windowsSafe, `faults
      ensures Explains(old(faults), ok)
      ensures Valid() && old(clock) <= clock
      ensures Keeps(old(files), files) && Keeps(old(safe), safe)
      ensures exists here ::
        Went(old(backfill), old(windows), backfill, windows, start, here, old(clock)) && (ok ==> stop <= here)
      ensures WholeWindows(windows, |old(windows)|, width, stop)
      ensures NothingElse(old(files), files, Timestamp, start, stop)
    {
      var here := start;
      AppliedNothing(files, Timestamp, start, stop);
      while here < stop
        invariant Valid() && old(clock) <= clock && old(faults) <= faults
        invariant Keeps(old(files), files) && Keeps(old(safe), safe)
        invariant start <= here && (backfill.Some? ==> here == backfill.value)
        invariant Went(old(backfill), old(windows), backfill, windows, start, here, old(clock))
        invariant |old(windows)| <= |windows| && WholeWindows(windows, |old(windows)|, width, stop)
        invariant NothingElse(old(files), files, Timestamp, start, stop)
        decreases stop - here
      {
        ghost var wasFiles, wasSafe, was, wasWindows, since := files, safe, backfill, windows, clock;
        var next := if here + width < stop then here + width else stop;
        ok := BackfillWindow(here, next);
        KeepsThrough(old(files), wasFiles, files);
        KeepsThrough(old(safe), wasSafe, safe);
        NothingElseThrough(old(files), wasFiles, files, start, here, next, stop);
        WentOn(old(backfill), old(windows), was, wasWindows, backfill, windows, start, here, next, old(clock),
               since, ok);
        WholeNext(was, wasWindows, backfill, windows, |old(windows)|, width, stop, here, next, since, ok);
        if !ok { return; }
        here := next;
      }
      ok := true;
    }

    /** One window of the loop, and the cursor behind it. */
    method BackfillWindow(here: int, next: int) returns (ok: bool)
      requires Valid() && (backfill.Some? ==> here == backfill.value) && here < next
      modifies `clock, `files, `safe, `backfill, `backfillSafe, `windows, `windowsSafe, `faults
      ensures Explains(old(faults), ok)
      ensures Valid() && old(clock) <= clock
      ensures Keeps(old(files), files) && Keeps(old(safe), safe)
      ensures NothingElse(old(files), files, Timestamp, here, next)
      ensures OneWindow(old(backfill), old(windows), backfill, windows, here, next, old(clock), ok)
    {
      ghost var w, entries;
      ok, w, entries := RunWindow(Timestamp, here, next);
      if !ok { return; }
      ok := SaveBackfill(next, w);
    }

    /** A power loss undoes some of the replacements that are not durable. */
    method PowerLoss(kept: set<int>, keptBackfill: bool, keptReceived: bool)
      requires Valid()
      modifies `files, `safe, `backfill, `backfillSafe, `windows, `windowsSafe, `received, `receivedSafe, `first,
        `firstSafe
      ensures Valid() && files == safe && Keeps(old(safe), files)
      ensures backfill == old(backfill) || backfill == old(backfillSafe)
      ensures received == old(received) || received == old(receivedSafe)
    {
      LoseFiles(kept);
      LoseBackfill(keptBackfill);
      LoseReceived(keptReceived);
    }

    method LoseFiles(kept: set<int>)
      requires Valid()
      modifies `files, `safe
      ensures Valid() && files == safe && Keeps(old(safe), files)
    {
      var after := Surviving(files, safe, kept);
      SurvivedOk(source, files, safe, after, clock);
      CursorsKept(safe, after, clock, clock);
      files, safe := after, after;
    }

    method LoseBackfill(kept: bool)
      requires BackfillOk(safe, clock)
      modifies `backfill, `backfillSafe, `windows, `windowsSafe
      ensures BackfillOk(safe, clock)
      ensures backfill == old(backfill) || backfill == old(backfillSafe)
    {
      if kept {
        backfillSafe, windowsSafe := backfill, windows;
      } else {
        backfill, windows := backfillSafe, windowsSafe;
      }
    }

    method LoseReceived(kept: bool)
      requires ReceivedOk(safe)
      modifies `received, `receivedSafe, `first, `firstSafe
      ensures ReceivedOk(safe)
      ensures received == old(received) || received == old(receivedSafe)
    {
      if kept {
        receivedSafe, firstSafe := received, first;
      } else {
        received, first := receivedSafe, firstSafe;
      }
    }

    /** Any sequence of runs and power losses: no line that was durable is ever lost,
        and at every point what the checkpoints claim is archived. */
    method Lifetime(steps: nat)
      requires Valid()
      modifies this
      ensures Valid() && old(clock) <= clock && Keeps(old(safe), safe)
    {
      for i := 0 to steps
        invariant Valid() && old(clock) <= clock && Keeps(old(safe), safe)
      {
        ghost var before := safe;
        var choice: nat, start: Option<int>, end: Option<int>, from: int, to: int, kept: set<int>, one: bool, two: bool
          := *, *, *, *, *, *, *, *;
        var ok;
        match choice {
          case 0 => ok := Incremental();
          case 1 =>
            ghost var begun, limit;
            ok, begun, limit := Backfill(start, end);
          case 2 => ok := Range(from, to);
          case _ => PowerLoss(kept, one, two);
        }
        KeepsThrough(old(safe), before, safe);
      }
    }
  }

  /** The new file of a day is put in place, and durable when that succeeds. */
  ghost predicate DayStep(day: int, file: File, was: Files, now: Files, safeWas: Files, safeNow: Files, ok: bool) {
    && (now == was || now == was[day := file])
    && (!ok ==> safeNow == safeWas)
    && (ok ==> now == was[day := file] && safeNow == safeWas[day := file])
  }

  ghost predicate ReportOk(before: Files, day: int, incoming: seq<Entry>, r: Report) {
    && r.day == day && r.source == |incoming|
    && Balances(r, FileAt(before, day), incoming, Merge(FileAt(before, day), incoming))
  }

  /** One balanced report a day, in order. */
  ghost predicate ReportsOk(before: Files, grouped: Groups, days: seq<int>, reports: seq<Report>) {
    |reports| == |days| && forall i :: 0 <= i < |days| ==>
      days[i] in grouped && ReportOk(before, days[i], grouped[days[i]], reports[i])
  }

  lemma MoreReports(first: Files, was: Files, grouped: Groups, days: seq<int>, i: nat, reports: seq<Report>, r: Report)
    requires i < |days| && ReportsOk(first, grouped, days[..i], reports) && SameDay(first, was, days[i])
    requires days[i] in grouped && ReportOk(was, days[i], grouped[days[i]], r)
    ensures ReportsOk(first, grouped, days[..i + 1], reports + [r])
  {
    assert days[..i + 1] == days[..i] + [days[i]];
  }

  lemma AllThrough(days: seq<int>, first: Files, now: Files, safeFirst: Files, safeNow: Files, grouped: Groups)
    requires Through(days, |days|, first, now, safeFirst, safeNow, grouped) && forall d :: d in grouped ==> d in days
    ensures AllMerged(first, now, grouped) && forall d :: d in grouped ==> SameDay(now, safeNow, d)
  {
  }

  /** The first `i` days are merged and durable, the others as they were. */
  ghost predicate Through(days: seq<int>, i: nat, first: Files, now: Files, safeFirst: Files, safeNow: Files,
                          grouped: Groups) {
    && i <= |days|
    && Applied(first, now, grouped) && Written(now, safeFirst, safeNow)
    && (forall j :: 0 <= j < i ==> MergedDay(first, now, grouped, days[j]) && SameDay(now, safeNow, days[j]))
    && forall j :: i <= j < |days| ==> SameDay(first, now, days[j]) && SameDay(safeFirst, safeNow, days[j])
  }

  /** Replacing the file of the next day. */
  lemma OneDay(days: seq<int>, i: nat, first: Files, was: Files, now: Files, safeFirst: Files, safeWas: Files,
               safeNow: Files, grouped: Groups, ok: bool)
    requires Ascending(days) && i < |days| && days[i] in grouped
    requires Through(days, i, first, was, safeFirst, safeWas, grouped)
    requires DayStep(days[i], Merge(FileAt(was, days[i]), grouped[days[i]]), was, now, safeWas, safeNow, ok)
    ensures Applied(first, now, grouped) && Written(now, safeFirst, safeNow)
    ensures ok ==> Through(days, i + 1, first, now, safeFirst, safeNow, grouped)
    ensures SameDay(first, was, days[i])
  {
    var day := days[i];
    assert SameDay(first, was, day) && SameDay(safeFirst, safeWas, day);
    forall d ensures SameDay(first, now, d) || MergedDay(first, now, grouped, d) {
      if d != day {
        assert SameDay(first, was, d) || MergedDay(first, was, grouped, d);
      }
    }
    forall d ensures SameDay(safeFirst, safeNow, d) || (d in now && SameDay(now, safeNow, d)) {
      if d != day {
        assert SameDay(safeFirst, safeWas, d) || (d in was && SameDay(was, safeWas, d));
      }
    }
    if ok {
      forall j | 0 <= j < i ensures MergedDay(first, now, grouped, days[j]) && SameDay(now, safeNow, days[j]) {
        assert days[j] < day;
      }
      forall j | i < j < |days| ensures SameDay(first, now, days[j]) && SameDay(safeFirst, safeNow, days[j]) {
        assert day < days[j];
      }
    }
  }
}
