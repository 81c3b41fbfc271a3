/** Which days a billing run re-aggregates, and up to which export time: backfill
    batches, incremental windows and refreshes of one source.

    The source is append-only.  `source` holds every row it will ever have; a query
    at time `t` sees the rows with `visible <= t`.  A row becomes visible at most
    `overlap + settling` after its export time. */
module Windows {
  import opened IntSets
  import opened Options
  import Orders

  const DAY_SECONDS := 86400

  datatype SourceRow = SourceRow(id: int, day: int, exported: int, visible: int)

  datatype Mode = Backfill | Incremental | Refresh(start: Option<int>, end: Option<int>)

  datatype Code =
    | BackfillAlreadyComplete | SourceAccountMismatch | EmptySource | SourceHistoryMismatch | StandardHistoryMismatch
    | BackfillRequired | RefreshDatesRequired | RefreshDateBoundary | RefreshTooLarge | QueryFailed

  datatype Selection =
    | Selected(days: seq<int>, cutoff: int, watermark: Option<int>, newest: Option<int>, next: Option<int>)
    | Refused(code: Code)

  function DateOf(t: int): (day: int)
    ensures day * 86_400 <= t < (day + 1) * 86_400
  {
    t / DAY_SECONDS
  }

  /** The rows a query at `at` returns up to an export time. */
  function Rows(source: set<SourceRow>, at: int, cutoff: int): set<SourceRow> {
    set r | r in source && r.visible <= at && r.exported <= cutoff
  }

  function DayRows(source: set<SourceRow>, at: int, cutoff: int, day: int): set<SourceRow> {
    set r | r in Rows(source, at, cutoff) && r.day == day
  }

  function DaysOf(rows: set<SourceRow>): set<int> {
    set r | r in rows :: r.day
  }

  function ExportsOf(rows: set<SourceRow>): set<int> {
    set r | r in rows :: r.exported
  }

  function DayRange(start: int, end: int): (days: seq<int>)
    ensures forall d :: d in days <==> start <= d <= end
    ensures Ascending(days)
    decreases end - start
  {
    if end < start then []
    else
      var rest := DayRange(start + 1, end);
      assert forall i :: 0 <= i < |rest| ==> rest[i] in rest;
      [start] + rest
  }

  function MaxOption(a: Option<int>, b: Option<int>): Option<int> {
    if a.None? then b else if b.None? then a else if a.value < b.value then b else a
  }

  /** Row `r` is in the facts of its day. */
  predicate Counted(facts: map<int, set<SourceRow>>, r: SourceRow) {
    r.day in facts && r in facts[r.day]
  }

  /** Every row visible at `at` with export time up to `cutoff` is counted. */
  ghost predicate AllCounted(source: set<SourceRow>, facts: map<int, set<SourceRow>>, at: int, cutoff: int) {
    forall r :: r in Rows(source, at, cutoff) ==> Counted(facts, r)
  }

  /** Facts hold only rows of their own day, seen by a query so far. */
  ghost predicate FactsSound(source: set<SourceRow>, facts: map<int, set<SourceRow>>, clock: int, cutoff: int) {
    forall d, r :: d in facts && r in facts[d] ==>
      r in source && r.day == d && r.visible <= clock && r.exported <= cutoff
  }

  /** The day queries of a run: for each day, the rows visible at some time in
      `[now, clock]` up to the cutoff. */
  ghost predicate Fetched(source: set<SourceRow>, records: map<int, set<SourceRow>>, days: seq<int>, now: int,
                          clock: int, cutoff: int) {
    && (forall d :: d in records <==> d in days)
    && forall d :: d in records ==> exists at :: now <= at <= clock && records[d] == DayRows(source, at, cutoff, d)
  }

  lemma FetchedHas(source: set<SourceRow>, records: map<int, set<SourceRow>>, days: seq<int>, now: int, clock: int,
                   cutoff: int)
    requires Fetched(source, records, days, now, clock, cutoff)
    ensures forall r :: r in Rows(source, now, cutoff) && r.day in days ==> Counted(records, r)
    ensures FactsSound(source, records, clock, cutoff)
  {
    forall d | d in records ensures forall r :: r in records[d] ==>
      r in source && r.day == d && r.visible <= clock && r.exported <= cutoff
      ensures forall r :: r in Rows(source, now, cutoff) && r.day == d ==> r in records[d]
    {
      var at :| now <= at <= clock && records[d] == DayRows(source, at, cutoff, d);
    }
  }

  /** Replacing days by later queries with a later cutoff loses no row. */
  lemma NothingLost(source: set<SourceRow>, facts: map<int, set<SourceRow>>, records: map<int, set<SourceRow>>,
                    days: seq<int>, now: int, clock: int, cutoff: int, r: SourceRow)
    requires Fetched(source, records, days, now, clock, cutoff)
    requires FactsSound(source, facts, now, cutoff) && Counted(facts, r)
    ensures Counted(facts + records, r)
  {
    FetchedHas(source, records, days, now, clock, cutoff);
    assert r in Rows(source, now, cutoff);
  }

  lemma DaysReplaced(source: set<SourceRow>, facts: map<int, set<SourceRow>>, records: map<int, set<SourceRow>>,
                     days: seq<int>, now: int, clock: int, cutoff: int, bound: int)
    requires Fetched(source, records, days, now, clock, cutoff) && now <= clock && cutoff <= bound
    requires FactsSound(source, facts, now, cutoff)
    ensures FactsSound(source, facts + records, clock, bound)
    ensures forall r :: Counted(facts, r) ==> Counted(facts + records, r)
  {
    FetchedHas(source, records, days, now, clock, cutoff);
    forall r | Counted(facts, r) ensures Counted(facts + records, r) {
      NothingLost(source, facts, records, days, now, clock, cutoff, r);
    }
  }

  ghost predicate Lag(source: set<SourceRow>, overlap: int, settling: int) {
    forall r :: r in source ==> r.visible <= r.exported + overlap + settling
  }

  /** The incremental window misses nothing: a row before it was already visible to
      the run that last counted everything, whatever set the watermark since. */
  lemma IncrementalCovers(source: set<SourceRow>, facts: map<int, set<SourceRow>>, records: map<int, set<SourceRow>>,
                          days: seq<int>, overlap: int, settling: int, asOf: int, watermark: int, now: int, clock: int)
    requires Lag(source, overlap, settling) && 0 <= overlap
    requires AllCounted(source, facts, asOf, asOf - settling) && watermark <= asOf - settling && asOf <= now
    requires Fetched(source, records, days, now, clock, now - settling)
    requires FactsSound(source, facts, now, now - settling)
    requires forall r :: r in Rows(source, now, now - settling) && r.exported >= watermark - overlap ==> r.day in days
    ensures AllCounted(source, facts + records, now, now - settling)
  {
    FetchedHas(source, records, days, now, clock, now - settling);
    forall r | r in Rows(source, now, now - settling) ensures Counted(facts + records, r) {
      if r.day !in days {
        assert r.exported < watermark - overlap;
        assert r in Rows(source, asOf, asOf - settling);
      }
    }
  }

  /** A refresh covers the days it names, and of the others what was there. */
  lemma RefreshCovers(source: set<SourceRow>, facts: map<int, set<SourceRow>>, records: map<int, set<SourceRow>>,
                      days: seq<int>, now: int, clock: int, cutoff: int)
    requires Fetched(source, records, days, now, clock, cutoff)
    ensures AllCounted(source, facts + records, now, cutoff) <==>
      forall r :: r in Rows(source, now, cutoff) && r.day !in days ==> Counted(facts, r)
  {
    FetchedHas(source, records, days, now, clock, cutoff);
    forall r | r in Rows(source, now, cutoff) && r.day !in days
      ensures Counted(facts + records, r) <==> Counted(facts, r)
    {
    }
  }

  /** What a caller can query first decides it: of the rows an incremental run would
      look at, those of other days must have been counted. */
  lemma RefreshCoversExactly(source: set<SourceRow>, facts: map<int, set<SourceRow>>, records: map<int, set<SourceRow>>,
                             days: seq<int>, overlap: int, settling: int, asOf: int, watermark: int, now: int,
                             clock: int)
    requires Lag(source, overlap, settling) && 0 <= overlap
    requires AllCounted(source, facts, asOf, asOf - settling) && watermark <= asOf - settling && asOf <= now
    requires Fetched(source, records, days, now, clock, now - settling)
    ensures AllCounted(source, facts + records, now, now - settling) <==>
      forall r :: r in Rows(source, now, now - settling) && r.exported >= watermark - overlap && r.day !in days ==>
        Counted(facts, r)
  {
    RefreshCovers(source, facts, records, days, now, clock, now - settling);
    forall r | r in Rows(source, now, now - settling) && r.exported < watermark - overlap ensures Counted(facts, r) {
      assert r in Rows(source, asOf, asOf - settling);
    }
  }

  /** A refresh alone does not keep up.  A backfill has counted the one row there was;
      a row of another day is exported after it, and a refresh of the first day leaves
      that row out. */
  lemma RefreshIsNotEnough(day: int, other: int, overlap: int, settling: int, backfilled: int, now: int)
    requires day != other && 0 <= overlap && 0 <= settling && backfilled < now
    requires day <= DateOf(backfilled - settling) && other <= DateOf(now - settling)
    ensures var first := SourceRow(1, day, backfilled - settling, backfilled - settling);
      var second := SourceRow(2, other, now - settling, now - settling);
      var source := {first, second};
      var facts, records := map[day := {first}], map[day := DayRows(source, now, now - settling, day)];
      && Lag(source, overlap, settling)
      // the state after the backfill
      && facts[day] == DayRows(source, backfilled, backfilled - settling, day)
      && AllCounted(source, facts, backfilled, backfilled - settling)
      && FactsSound(source, facts, backfilled, backfilled - settling)
      // the refresh
      && Fetched(source, records, [day], now, now, now - settling)
      && second in Rows(source, now, now - settling) && !Counted(facts + records, second)
      && !AllCounted(source, facts + records, now, now - settling)
  {
    var first := SourceRow(1, day, backfilled - settling, backfilled - settling);
    var second := SourceRow(2, other, now - settling, now - settling);
    var source := {first, second};
    assert Rows(source, backfilled, backfilled - settling) == {first};
    assert second in Rows(source, now, now - settling);
  }

  lemma FetchMore(source: set<SourceRow>, records: map<int, set<SourceRow>>, days: seq<int>, i: nat, now: int,
                  at: int, clock: int, cutoff: int)
    requires i < |days| && now <= at <= clock
    requires exists before :: before <= clock && Fetched(source, records, days[..i], now, before, cutoff)
    ensures Fetched(source, records[days[i] := DayRows(source, at, cutoff, days[i])], days[..i + 1], now, clock, cutoff)
  {
    assert days[..i + 1] == days[..i] + [days[i]];
  }

  /** The days before `next` are done; a batch adds those up to `last`. */
  lemma BatchDone(source: set<SourceRow>, facts: map<int, set<SourceRow>>, records: map<int, set<SourceRow>>,
                  days: seq<int>, asOf: int, now: int, clock: int, cutoff: int, next: int, last: int)
    requires Fetched(source, records, days, now, clock, cutoff) && asOf <= now && next <= last
    requires forall d :: d in days <==> next <= d < last
    requires FactsSound(source, facts, clock, cutoff) && forall d :: d in facts ==> d < next
    requires forall r :: r in Rows(source, asOf, cutoff) && r.day < next ==> Counted(facts, r)
    ensures FactsSound(source, facts + records, clock, cutoff) && forall d :: d in facts + records ==> d < last
    ensures forall r :: r in Rows(source, asOf, cutoff) && r.day < last ==> Counted(facts + records, r)
    ensures forall r :: Counted(facts, r) ==> Counted(facts + records, r)
  {
    FetchedHas(source, records, days, now, clock, cutoff);
    assert forall d :: d in records ==> d !in facts;
    assert forall r :: r in Rows(source, asOf, cutoff) ==> r in Rows(source, now, cutoff);
  }

  lemma NonEmptyMeta(rows: set<SourceRow>)
    requires rows != {}
    ensures DaysOf(rows) != {} && ExportsOf(rows) != {}
  {
    Orders.SomeMember(rows);
    var r :| r in rows;
    assert r.day in DaysOf(rows) && r.exported in ExportsOf(rows);
  }

  /** The rows that the query of an incremental run sees at `at`. */
  function Changed(source: set<SourceRow>, from: int, at: int, cutoff: int): set<SourceRow> {
    set r | r in source && r.visible <= at && from <= r.exported <= cutoff
  }

  lemma ChangedCovers(source: set<SourceRow>, days: seq<int>, from: int, now: int, at: int, cutoff: int)
    requires now <= at && forall d :: d in days <==> d in DaysOf(Changed(source, from, at, cutoff))
    ensures forall r :: r in Rows(source, now, cutoff) && r.exported >= from ==> r.day in days
  {
    forall r | r in Rows(source, now, cutoff) && r.exported >= from ensures r.day in days {
      assert r in Changed(source, from, at, cutoff);
    }
  }

  /** The latest of the export times of `rows` and of two known before. */
  ghost predicate Latest(latest: int, a: Option<int>, b: Option<int>, rows: set<SourceRow>) {
    && (forall r :: r in rows ==> r.exported <= latest)
    && (a.Some? ==> a.value <= latest) && (b.Some? ==> b.value <= latest)
    && (a == Some(latest) || b == Some(latest) || exists r :: r in rows && r.exported == latest)
  }

  /** `newest` after a query for `rows`. */
  ghost predicate NewestOf(newest: Option<int>, known: Option<int>, rows: set<SourceRow>) {
    if newest.Some? then Latest(newest.value, known, None, rows) else known == None && rows == {}
  }

  function LatestExport(rows: set<SourceRow>): Option<int> {
    if ExportsOf(rows) == {} then None else Some(Max(ExportsOf(rows)))
  }

  lemma LatestExportIsLatest(rows: set<SourceRow>, newest: Option<int>)
    ensures NewestOf(MaxOption(LatestExport(rows), newest), newest, rows)
  {
    assert forall r :: r in rows ==> r.exported in ExportsOf(rows);
    if ExportsOf(rows) == {} {
      assert rows == {};
    } else {
      assert Max(ExportsOf(rows)) in ExportsOf(rows);
    }
  }

  lemma AdvancedTo(prior: int, newest: Option<int>, known: Option<int>, rows: set<SourceRow>)
    requires NewestOf(newest, known, rows)
    ensures Latest(MaxOption(Some(prior), newest).value, Some(prior), known, rows)
  {
  }

  /** An incremental run takes the days of the rows it sees, and moves watermark and
      newest export time up to everything seen, and to nothing else. */
  ghost predicate Incremented(s: Selection, prior: int, newest: Option<int>, rows: set<SourceRow>)
    requires s.Selected? && s.watermark.Some?
  {
    && (forall d :: d in s.days <==> d in DaysOf(rows))
    && NewestOf(s.newest, newest, rows)
    && Latest(s.watermark.value, Some(prior), newest, rows)
  }

  predicate InHistory(rows: set<SourceRow>, earliest: int, cutoff: int) {
    forall r :: r in rows ==> earliest <= r.day <= DateOf(cutoff)
  }

  lemma IncrementBounds(s: Selection, prior: int, newest: Option<int>, rows: set<SourceRow>, bound: int)
    requires s.Selected? ==> s.watermark.Some? && Incremented(s, prior, newest, rows)
    requires prior <= bound && (newest.Some? ==> newest.value <= bound)
    requires forall r :: r in rows ==> r.exported <= bound
    ensures s.Selected? ==> prior <= s.watermark.value <= bound && (s.newest.Some? ==> s.newest.value <= bound)
  {
  }

  /** The selection of an incremental run that sees `rows`. */
  method Increment(prior: int, newest: Option<int>, rows: set<SourceRow>, earliest: int, cutoff: int)
    returns (s: Selection)
    requires prior <= cutoff && (newest.Some? ==> newest.value <= cutoff)
    requires forall r :: r in rows ==> r.exported <= cutoff
    ensures if InHistory(rows, earliest, cutoff) then
              && s.Selected? && s.cutoff == cutoff && s.next.None? && Ascending(s.days)
              && s.watermark.Some? && Incremented(s, prior, newest, rows)
              && prior <= s.watermark.value <= cutoff && (s.newest.Some? ==> s.newest.value <= cutoff)
            else s == Refused(SourceHistoryMismatch)
  {
    if !InHistory(rows, earliest, cutoff) { return Refused(SourceHistoryMismatch); }
    var latest := MaxOption(LatestExport(rows), newest);
    s := Selected(Sorted(DaysOf(rows)), cutoff, MaxOption(Some(prior), latest), latest, None);
    LatestExportIsLatest(rows, newest);
    AdvancedTo(prior, latest, newest, rows);
    IncrementBounds(s, prior, newest, rows, cutoff);
  }

  class Collector {
    const source: set<SourceRow>
    const overlap: int
    const settling: int
    const cap: int
    const earliest: int
    const standard: bool
    var watermark: Option<int>
    var newest: Option<int>
    var backfillCutoff: Option<int>
    var backfillNext: Option<int>
    var backfillLast: Option<int>
    var facts: map<int, set<SourceRow>>
    var clock: int        // the time of the latest query
    ghost var faults: nat // steps that have failed
    ghost var asOf: int   // the run whose rows are all counted, or are to be by the backfill

    constructor (source: set<SourceRow>, overlap: int, settling: int, cap: int, earliest: int, standard: bool,
                 clock: int)
      requires Lag(source, overlap, settling) && 3600 <= overlap && 60 <= settling && 1 <= cap
      ensures Valid() && facts == map[] && watermark.None? && this.clock == clock && this.source == source
    {
      this.source, this.overlap, this.settling, this.cap := source, overlap, settling, cap;
      this.earliest, this.standard := earliest, standard;
      watermark, newest, backfillCutoff, backfillNext, backfillLast := None, None, None, None, None;
      facts, this.clock, asOf, faults := map[], clock, clock, 0;
    }

    ghost predicate Valid()
      reads `watermark, `newest, `backfillCutoff, `backfillNext, `backfillLast, `facts, `clock, `asOf
    {
      && Lag(source, overlap, settling) && 0 <= overlap && 0 <= settling && 1 <= cap
      && asOf <= clock
      && FactsSound(source, facts, clock, clock - settling)
      && (newest.Some? ==> newest.value <= clock - settling)
      && (watermark.Some? ==> Complete(facts, watermark.value))
      && (watermark.None? && backfillCutoff.None? ==> facts == map[])
      && (watermark.None? && backfillCutoff.Some? ==> Filling())
    }

    /** After the backfill: everything is counted as of `asOf`, and the watermark
        does not run ahead of that. */
    ghost predicate Complete(facts: map<int, set<SourceRow>>, watermark: int)
      reads `asOf
    {
      AllCounted(source, facts, asOf, asOf - settling) && watermark <= asOf - settling
    }

    /** During the backfill: the days before the next one are done. */
    ghost predicate Filling()
      requires backfillCutoff.Some?
      reads `backfillCutoff, `backfillNext, `backfillLast, `facts, `clock, `asOf
    {
      && backfillCutoff.value == asOf - settling
      && backfillNext.Some? && backfillLast.Some? && backfillNext.value <= backfillLast.value
      && (forall r :: r in Rows(source, asOf, asOf - settling) ==>
            r.day <= backfillLast.value && (r.day < backfillNext.value ==> Counted(facts, r)))
      && (forall d :: d in facts ==> d < backfillNext.value)
      && FactsSound(source, facts, clock, asOf - settling)
    }

    /** What fails, fails because some step since `before` has failed. */
    ghost predicate Explains(before: nat, ok: bool)
      reads `faults
    {
      if ok then before <= faults else before < faults
    }

    /** A step that may fail. */
    method Try() returns (ok: bool)
      modifies `faults
      ensures Explains(old(faults), ok)
    {
      ok := *;
      if !ok {
        faults := faults + 1;
      }
    }

    /** A query at some time from `now` on; the clock remembers the latest. */
    method QueryTime(now: int) returns (at: int)
      requires Valid()
      modifies `clock
      ensures Valid() && at == clock >= old(clock) && now <= at
    {
      var from := if clock < now then now else clock;
      at := *;
      if at < from {
        at := from;
      }
      clock := at;
    }

    /** What a selection promises the run that follows it. */
    ghost predicate Planned(s: Selection, mode: Mode, now: int, at: int)
      reads `watermark, `newest, `backfillCutoff, `backfillNext, `backfillLast, `clock
    {
      s.Selected? ==>
        match mode
        case Backfill => PlannedBackfill(s)
        case Incremental => PlannedIncremental(s, now, at)
        case Refresh(start, end) => PlannedRefresh(s, start, end, now)
    }

    /** A whole batch of days, or those that are left. */
    ghost predicate PlannedBackfill(s: Selection)
      requires s.Selected?
      reads `watermark, `newest, `backfillCutoff, `backfillNext, `backfillLast
    {
      && watermark.None? && backfillCutoff.Some? && backfillNext.Some? && backfillLast.Some?
      && s.cutoff == backfillCutoff.value && s.newest == newest && s.next.Some?
      && Ascending(s.days) && backfillNext.value < s.next.value <= backfillLast.value + 1
      && s.next.value <= backfillNext.value + cap
      && (s.next.value == backfillNext.value + cap || s.next.value == backfillLast.value + 1)
      && (forall d :: d in s.days <==> backfillNext.value <= d < s.next.value)
      && s.watermark == (if s.next.value == backfillLast.value + 1 then Some(s.cutoff) else None)
    }

    ghost predicate PlannedIncremental(s: Selection, now: int, at: int)
      requires s.Selected?
      reads `watermark, `newest, `clock
    {
      && watermark.Some? && s.cutoff == now - settling && s.next.None? && now <= at <= clock
      && s.watermark.Some? && watermark.value <= s.watermark.value <= now - settling
      && Ascending(s.days) && (s.newest.Some? ==> s.newest.value <= now - settling)
      && Incremented(s, watermark.value, newest, Changed(source, watermark.value - overlap, at, s.cutoff))
    }

    ghost predicate PlannedRefresh(s: Selection, start: Option<int>, end: Option<int>, now: int)
      requires s.Selected?
      reads `watermark, `newest
    {
      && watermark.Some? && s.cutoff == now - settling && s.next.None? && Ascending(s.days)
      && s.watermark == watermark && s.newest == newest && start.Some? && end.Some?
      && forall d :: d in s.days <==> start.value <= d <= end.value
    }

    /** The bounds of a history that a backfill accepts. */
    predicate HistoryOk(rows: set<SourceRow>, cutoff: int)
      requires DaysOf(rows) != {}
    {
      && earliest <= Min(DaysOf(rows)) && Max(DaysOf(rows)) <= DateOf(cutoff)
      && (standard ==> Min(DaysOf(rows)) == earliest)
    }

    /** The first backfill batch fixes the cutoff and the range of days for good. */
    method Discover(now: int) returns (refused: Option<Code>)
      requires Valid() && clock <= now && watermark.None? && backfillCutoff.None?
      modifies this`clock, this`asOf, this`newest, this`backfillCutoff, this`backfillNext, this`backfillLast
      ensures Valid() && old(clock) <= clock
      ensures asOf <= now && (refused.None? ==> backfillCutoff.Some?)
      // accepted with the first and last day of the rows, or refused for their bounds
      ensures var rows := Rows(source, clock, now - settling);
        && (refused.None? ==>
              && backfillCutoff == Some(now - settling) && DaysOf(rows) != {} && HistoryOk(rows, now - settling)
              && backfillNext == Some(Min(DaysOf(rows))) && backfillLast == Some(Max(DaysOf(rows)))
              && newest.Some? && Latest(newest.value, None, None, rows))
        && (refused.Some? ==> refused.value in {
              QueryFailed, SourceAccountMismatch, EmptySource, SourceHistoryMismatch, StandardHistoryMismatch})
        && (refused == Some(EmptySource) ==> rows == {})
        && (refused == Some(SourceHistoryMismatch) || refused == Some(StandardHistoryMismatch) ==>
              DaysOf(rows) != {} && !HistoryOk(rows, now - settling))
    {
      var cutoff := now - settling;
      var at := QueryTime(now);
      var failed: bool := *;
      if failed { return Some(QueryFailed); }
      failed := *;
      if failed { return Some(SourceAccountMismatch); }
      var rows := Rows(source, at, cutoff);
      if rows == {} { return Some(EmptySource); }
      NonEmptyMeta(rows);
      var first, last := Min(DaysOf(rows)), Max(DaysOf(rows));
      if first < earliest || last > DateOf(cutoff) { return Some(SourceHistoryMismatch); }
      if standard && first != earliest { return Some(StandardHistoryMismatch); }
      FixRange(rows, first, last, now);
      refused := None;
    }

    method FixRange(rows: set<SourceRow>, first: int, last: int, now: int)
      requires Valid() && watermark.None? && backfillCutoff.None? && now <= clock
      requires rows == Rows(source, clock, now - settling) && DaysOf(rows) != {} && ExportsOf(rows) != {}
      requires first == Min(DaysOf(rows)) && last == Max(DaysOf(rows))
      modifies this`asOf, this`newest, this`backfillCutoff, this`backfillNext, this`backfillLast
      ensures Valid() && asOf == now && backfillCutoff == Some(now - settling)
      ensures backfillNext == Some(first) && backfillLast == Some(last)
      ensures newest.Some? && Latest(newest.value, None, None, rows)
    {
      asOf := now;
      backfillCutoff, backfillNext, backfillLast := Some(now - settling), Some(first), Some(last);
      newest := Some(Max(ExportsOf(rows)));
      assert forall r :: r in Rows(source, now, now - settling) ==> r in rows && r.day in DaysOf(rows);
      assert newest.value in ExportsOf(rows) && forall r :: r in rows ==> r.exported in ExportsOf(rows);
    }

    method SelectBackfill(now: int) returns (s: Selection)
      requires Valid() && clock <= now
      modifies this`clock, this`asOf, this`newest, this`backfillCutoff, this`backfillNext, this`backfillLast
      ensures Valid() && old(clock) <= clock && (s.Selected? ==> PlannedBackfill(s))
      ensures asOf <= now && (watermark.Some? ==> asOf == old(asOf) && newest == old(newest))
      ensures watermark.Some? <==> s == Refused(BackfillAlreadyComplete)
      // only the first batch can find fault with the source
      ensures s.Refused? ==> watermark.Some? || old(backfillCutoff).None?
      ensures old(backfillCutoff).Some? ==>
        backfillCutoff == old(backfillCutoff) && backfillNext == old(backfillNext) && newest == old(newest)
    {
      if watermark.Some? { return Refused(BackfillAlreadyComplete); }
      if backfillCutoff.None? {
        var refused := Discover(now);
        if refused.Some? { return Refused(refused.value); }
      }
      var start := backfillNext.value;
      var last := if backfillLast.value < start + cap - 1 then backfillLast.value else start + cap - 1;
      var final := last == backfillLast.value;
      s := Selected(DayRange(start, last), backfillCutoff.value,
                    if final then backfillCutoff else None, newest, Some(last + 1));
    }

    method SelectIncremental(now: int) returns (s: Selection)
      requires Valid() && clock <= now
      modifies `clock
      ensures Valid() && old(clock) <= clock && (s.Selected? ==> PlannedIncremental(s, now, clock))
      ensures watermark.None? <==> s == Refused(BackfillRequired)
      ensures watermark.Some? && (s.Selected? || s == Refused(SourceHistoryMismatch)) ==>
        (s.Selected? <==>
          InHistory(Changed(source, watermark.value - overlap, clock, now - settling), earliest, now - settling))
      ensures s.Refused? ==> s.code in {BackfillRequired, QueryFailed, SourceHistoryMismatch}
    {
      if watermark.None? { return Refused(BackfillRequired); }
      var changed := QueryChanged(now);
      s := SelectFrom(changed, now);
    }

    /** What follows the query for changed rows. */
    method SelectFrom(changed: set<SourceRow>, now: int) returns (s: Selection)
      requires watermark.Some? && changed == Changed(source, watermark.value - overlap, clock, now - settling)
      requires now <= clock && watermark.value <= now - settling && (newest.Some? ==> newest.value <= now - settling)
      ensures s.Selected? ==> PlannedIncremental(s, now, clock)
      ensures s.Selected? || s == Refused(SourceHistoryMismatch) ==>
        (s.Selected? <==> InHistory(changed, earliest, now - settling))
      ensures s.Refused? ==> s.code in {QueryFailed, SourceHistoryMismatch}
    {
      var failed: bool := *;
      if failed { return Refused(QueryFailed); }
      s := Increment(watermark.value, newest, changed, earliest, now - settling);
    }

    method QueryChanged(now: int) returns (changed: set<SourceRow>)
      requires Valid() && watermark.Some?
      modifies `clock
      ensures Valid() && old(clock) <= clock && now <= clock
      ensures changed == Changed(source, watermark.value - overlap, clock, now - settling)
    {
      var at := QueryTime(now);
      changed := Changed(source, watermark.value - overlap, at, now - settling);
    }

    method SelectRefresh(start: Option<int>, end: Option<int>, now: int) returns (s: Selection)
      requires Valid() && clock <= now
      ensures s.Selected? ==> PlannedRefresh(s, start, end, now)
      ensures s.Selected? <==>
        && watermark.Some? && start.Some? && end.Some?
        && earliest <= start.value <= end.value <= DateOf(now - settling) && end.value - start.value < cap
      ensures s.Refused? ==>
        s.code == (if watermark.None? then BackfillRequired
                   else if start.None? || end.None? then RefreshDatesRequired
                   else if earliest <= start.value <= end.value <= DateOf(now - settling) then RefreshTooLarge
                   else RefreshDateBoundary)
    {
      var cutoff := now - settling;
      if watermark.None? { return Refused(BackfillRequired); }
      if start.None? || end.None? { return Refused(RefreshDatesRequired); }
      if !(earliest <= start.value <= end.value <= DateOf(cutoff)) { return Refused(RefreshDateBoundary); }
      if end.value - start.value >= cap { return Refused(RefreshTooLarge); }
      s := Selected(DayRange(start.value, end.value), cutoff, watermark, newest, None);
    }

    method SelectWindow(mode: Mode, now: int) returns (s: Selection)
      requires Valid() && clock <= now
      modifies this`clock, this`asOf, this`newest, this`backfillCutoff, this`backfillNext, this`backfillLast
      ensures Valid() && old(clock) <= clock && Planned(s, mode, now, clock)
      ensures asOf <= now && (watermark.Some? ==> asOf == old(asOf))
      ensures watermark.Some? || old(backfillCutoff).Some? ==> newest == old(newest)
      ensures old(backfillCutoff).Some? ==> backfillNext == old(backfillNext) && backfillCutoff == old(backfillCutoff)
    {
      match mode
      case Backfill => s := SelectBackfill(now);
      case Incremental => s := SelectIncremental(now);
      case Refresh(start, end) => s := SelectRefresh(start, end, now);
    }

    /** The day queries; any of them may fail. */
    method FetchDays(days: seq<int>, now: int, cutoff: int) returns (ok: bool, records: map<int, set<SourceRow>>)
      requires Valid()
      modifies `clock, `faults
      ensures Valid() && old(clock) <= clock && now <= clock && Explains(old(faults), ok)
      ensures ok ==> Fetched(source, records, days, now, clock, cutoff)
    {
      records := map[];
      ok := true;
      var begun := QueryTime(now);
      for i := 0 to |days|
        invariant ok && Valid() && old(clock) <= clock && now <= clock && old(faults) <= faults
        invariant Fetched(source, records, days[..i], now, clock, cutoff)
      {
        var at := QueryTime(clock);
        ok := Try();
        if !ok { return; }
        FetchMore(source, records, days, i, now, at, clock, cutoff);
        records := records[days[i] := DayRows(source, at, cutoff, days[i])];
      }
      assert days[..|days|] == days;
    }

    /** What a successful run has counted; `before` are the facts it found. */
    ghost predicate Achieved(mode: Mode, now: int, before: map<int, set<SourceRow>>)
      reads `watermark, `facts, `backfillCutoff
    {
      match mode
      case Incremental => AllCounted(source, facts, now, now - settling)
      case Backfill =>
        watermark.Some? ==>
          backfillCutoff.Some? && AllCounted(source, facts, backfillCutoff.value + settling, backfillCutoff.value)
      case Refresh(start, end) =>
        && start.Some? && end.Some?
        && (AllCounted(source, facts, now, now - settling) <==>
              forall r :: r in Rows(source, now, now - settling) && !(start.value <= r.day <= end.value) ==>
                Counted(before, r))
    }

    /** How the watermark and the newest export time move in an incremental run that
        queries at `at`: up to everything it saw, and to nothing else. */
    ghost predicate IncrementalMoves(prior: int, known: Option<int>, now: int, at: int, ok: bool)
      reads `watermark, `newest, `clock
    {
      var changed := Changed(source, prior - overlap, at, now - settling);
      && at <= clock && watermark.Some?
      && ((now <= at && NewestOf(newest, known, changed)) || (!ok && newest == known))
      && if ok then Latest(watermark.value, Some(prior), known, changed) else watermark.value == prior
    }

    /** One run of `collect` for this source. */
    method Collect(mode: Mode, now: int) returns (ok: bool, ghost at: int, ghost s: Selection)
      requires Valid() && clock <= now
      modifies this
      ensures Valid() && now <= clock
      // it fails only if it was refused or a step failed
      ensures Explains(old(faults), ok || s.Refused?)
      // nothing that was counted is ever lost
      ensures forall r :: Counted(old(facts), r) ==> Counted(facts, r)
      ensures !ok ==> facts == old(facts) && watermark == old(watermark)
      ensures old(watermark).Some? ==> watermark.Some? && old(watermark).value <= watermark.value
      ensures ok ==> Achieved(mode, now, old(facts))
      // whole batches until the backfill is done
      ensures ok && mode.Backfill? && watermark.None? && old(backfillCutoff).Some? ==>
        old(backfillNext).Some? && backfillNext == Some(old(backfillNext).value + cap)
      ensures !ok && old(backfillCutoff).Some? ==> backfillNext == old(backfillNext)
      // the newest export time is noted even by a run that fails, the watermark by one that succeeds
      ensures mode.Incremental? && old(watermark).Some? ==>
        IncrementalMoves(old(watermark).value, old(newest), now, at, ok)
      ensures mode.Refresh? && ok ==> watermark == old(watermark) && newest == old(newest)
    {
      ok := false;
      var selection := SelectWindow(mode, now);
      at, s := clock, selection;
      if selection.Refused? {
        var _ := QueryTime(now);
        return;
      }
      ok := FetchAndCommit(mode, selection, now, at);
    }

    /** What follows the selection: the day queries and the transaction. */
    method FetchAndCommit(mode: Mode, s: Selection, now: int, ghost at: int) returns (ok: bool)
      requires Valid() && s.Selected? && Planned(s, mode, now, at) && asOf <= now && at <= clock
      requires FactsSound(source, facts, now, now - settling)
      modifies `clock, `newest, `facts, `watermark, `backfillNext, `asOf, `faults
      ensures Explains(old(faults), ok)
      ensures Valid() && now <= clock && old(clock) <= clock && newest == s.newest
      ensures forall r :: Counted(old(facts), r) ==> Counted(facts, r)
      ensures if ok then watermark == s.watermark && Achieved(mode, now, old(facts))
              else facts == old(facts) && watermark == old(watermark)
      ensures old(watermark).Some? ==> watermark.Some? && old(watermark).value <= watermark.value
      ensures backfillNext == if ok && mode.Backfill? then s.next else old(backfillNext)
    {
      var commits := Try();  // publication and commit, all or nothing
      newest := s.newest;    // outside the transaction: it survives a failure below
      var records;
      ok, records := FetchDays(s.days, now, s.cutoff);
      ok := ok && commits;
      if ok {
        Commit(mode, s, now, at, records);
      }
    }

    method Commit(mode: Mode, s: Selection, now: int, ghost at: int, records: map<int, set<SourceRow>>)
      requires Valid() && s.Selected? && Planned(s, mode, now, at)
      requires asOf <= now <= clock && Fetched(source, records, s.days, now, clock, s.cutoff)
      requires FactsSound(source, facts, now, now - settling)
      modifies `facts, `watermark, `backfillNext, `asOf
      ensures Valid()
      ensures forall r :: Counted(old(facts), r) ==> Counted(facts, r)
      ensures old(watermark).Some? ==> watermark.Some? && old(watermark).value <= watermark.value
      ensures Achieved(mode, now, old(facts)) && watermark == s.watermark
      ensures mode.Backfill? ==> backfillNext == s.next
      ensures !mode.Backfill? ==> backfillNext == old(backfillNext)
    {
      match mode
      case Backfill => CommitBackfill(s, now, records);
      case Incremental => CommitIncremental(s, now, at, records);
      case Refresh(_, _) =>
        RefreshCovers(source, facts, records, s.days, now, clock, s.cutoff);
        CommitRefresh(s, now, records);
    }

    /** The committed update of facts and `sync_state`. */
    method CommitBackfill(s: Selection, now: int, records: map<int, set<SourceRow>>)
      requires Valid() && s.Selected? && PlannedBackfill(s)
      requires asOf <= now <= clock && Fetched(source, records, s.days, now, clock, s.cutoff)
      modifies `facts, `watermark, `backfillNext
      ensures Valid() && facts == old(facts) + records && watermark == s.watermark && backfillNext == s.next
      ensures forall r :: Counted(old(facts), r) ==> Counted(facts, r)
      ensures watermark.Some? ==> AllCounted(source, facts, s.cutoff + settling, s.cutoff)
    {
      BatchDone(source, facts, records, s.days, asOf, now, clock, s.cutoff, backfillNext.value, s.next.value);
      AdvanceBatch(facts + records, s.next.value);
    }

    method AdvanceBatch(next: map<int, set<SourceRow>>, day: int)
      requires Valid() && watermark.None? && backfillCutoff.Some? && backfillLast.Some? && day <= backfillLast.value + 1
      requires FactsSound(source, next, clock, asOf - settling) && forall d :: d in next ==> d < day
      requires forall r :: r in Rows(source, asOf, asOf - settling) && r.day < day ==> Counted(next, r)
      modifies `facts, `watermark, `backfillNext
      ensures Valid() && facts == next && backfillNext == Some(day)
      ensures watermark == if day == backfillLast.value + 1 then backfillCutoff else None
      ensures watermark.Some? ==> AllCounted(source, facts, asOf, asOf - settling)
    {
      facts, backfillNext := next, Some(day);
      watermark := if day == backfillLast.value + 1 then backfillCutoff else None;
    }

    method CommitIncremental(s: Selection, now: int, ghost at: int, records: map<int, set<SourceRow>>)
      requires Valid() && s.Selected? && PlannedIncremental(s, now, at)
      requires asOf <= now <= clock && Fetched(source, records, s.days, now, clock, s.cutoff)
      requires FactsSound(source, facts, now, now - settling)
      modifies `facts, `watermark, `asOf
      ensures Valid() && facts == old(facts) + records && watermark == s.watermark
      ensures forall r :: Counted(old(facts), r) ==> Counted(facts, r)
      ensures AllCounted(source, facts, now, now - settling)
    {
      ChangedCovers(source, s.days, watermark.value - overlap, now, at, s.cutoff);
      IncrementalCovers(source, facts, records, s.days, overlap, settling, asOf, watermark.value, now, clock);
      DaysReplaced(source, facts, records, s.days, now, clock, s.cutoff, clock - settling);
      Advance(facts + records, s.watermark.value, now);
    }

    method Advance(next: map<int, set<SourceRow>>, to: int, ghost now: int)
      requires Valid() && watermark.Some? && now <= clock && to <= now - settling
      requires FactsSound(source, next, clock, clock - settling) && AllCounted(source, next, now, now - settling)
      modifies `facts, `watermark, `asOf
      ensures Valid() && facts == next && watermark == Some(to) && asOf == now
    {
      facts, watermark, asOf := next, Some(to), now;
    }

    method CommitRefresh(s: Selection, now: int, records: map<int, set<SourceRow>>)
      requires Valid() && s.Selected? && watermark.Some? && s.watermark == watermark && s.cutoff == now - settling
      requires now <= clock && Fetched(source, records, s.days, now, clock, s.cutoff)
      requires FactsSound(source, facts, now, now - settling)
      modifies `facts, `watermark
      ensures Valid() && facts == old(facts) + records && watermark == s.watermark
      ensures forall r :: Counted(old(facts), r) ==> Counted(facts, r)
    {
      DaysReplaced(source, facts, records, s.days, now, clock, s.cutoff, clock - settling);
      facts := facts + records;
      watermark := s.watermark;
    }
  }
}
