/** The billing collector around its journal: the SQL tables it keeps, one run of
    `collect`, the order of recovery, marking and collection in `main`, and any
    sequence of processes, exceptions, kills and machine crashes. */
module Collecting {
  import opened Options
  import opened Publishing
  import opened Storage

  datatype Status = Running | Success | Failed

  datatype RunRow = RunRow(run: RunId, status: Status)

  /** `sync_runs`, for each source in order of `started_at`. */
  type Runs = map<Source, seq<RunRow>>

  type Facts = map<Source, Table>

  datatype Outcome =
    | Done
    | Refused(why: Why)  // a SafeError, which `main` reports before trying the next source
    | Aborted            // any other exception, or the death of the process

  /** The state of the source belongs to another account or view; the database cannot
      be asked for the decision; nothing was committed; the journal is still to be
      finished. */
  datatype Why = StateIdentityMismatch | DatabaseRecoveryRequired | CollectionFailed | FinalizationPending

  function RowsFor(runs: Runs, s: Source): seq<RunRow> {
    if s in runs then runs[s] else []
  }

  function TableOf(facts: Facts, s: Source): Table {
    if s in facts then facts[s] else map[]
  }

  function DayRows(table: Table, day: Date): seq<Row> {
    if day in table then table[day] else []
  }

  function Pruned(rows: seq<RunRow>, keep: nat): seq<RunRow> {
    if |rows| <= keep then rows else rows[|rows| - keep..]
  }

  function Updated(rows: seq<RunRow>, run: RunId, status: Status): (r: seq<RunRow>)
    ensures |r| == |rows|
    ensures forall i :: 0 <= i < |rows| ==>
      r[i] == if rows[i].run == run then RunRow(run, status) else rows[i]
  {
    seq(|rows|, i requires 0 <= i < |rows| => if rows[i].run == run then RunRow(run, status) else rows[i])
  }

  function Interrupted(rows: seq<RunRow>): (r: seq<RunRow>)
    ensures |r| == |rows|
    ensures forall i :: 0 <= i < |rows| ==>
      r[i] == if rows[i].status == Running then RunRow(rows[i].run, Failed) else rows[i]
  {
    seq(|rows|, i requires 0 <= i < |rows| =>
      if rows[i].status == Running then RunRow(rows[i].run, Failed) else rows[i])
  }

  function SuccessRuns(runs: Runs): set<RunId> {
    set s, row | s in runs && row in runs[s] && row.status == Success :: row.run
  }

  /** `replace_day` on the table as seen inside the transaction. */
  function ReplaceDay(table: Table, day: Date, rows: seq<Row>): Table {
    if rows == [] then table - {day} else table[day := rows]
  }

  function ReplaceDays(table: Table, days: seq<Date>, rows: map<Date, seq<Row>>): Table {
    if days == [] then table
    else ReplaceDay(ReplaceDays(table, days[..|days| - 1], rows), days[|days| - 1], DayRows(rows, days[|days| - 1]))
  }

  function ReportNames(s: Source): seq<ReportName> {
    [Daily, MonthlyUsage, MonthlyInvoice, Services, Skus] + if s == Detailed then [CloudRunResources] else []
  }

  // ---- What the archive has to say about the tables ----

  ghost predicate MatchesAt(facts: Facts, want: Archive, decided: set<RunId>, d: Dest)
    requires d in want
  {
    match d
    case DayFile(s, day) => want[d] == DayText(DayRows(TableOf(facts, s), day))
    case ReportFile(s, name) => name in ReportNames(s) && want[d] == ReportText(s, name, TableOf(facts, s))
    case SyncFile(run, _, _) => run in decided && want[d].EvidenceText? && want[d].run == run && want[d].success
  }

  /** Daily archives, reports and evidence say what the committed tables say. */
  ghost predicate Matches(facts: Facts, want: Archive, decided: set<RunId>) {
    forall d :: d in want ==> MatchesAt(facts, want, decided, d)
  }

  ghost predicate HasEvidence(want: Archive, run: RunId) {
    exists year, month :: SyncFile(run, year, month) in want
  }

  /** And nothing is missing: every committed day with rows, every report of a source
      that has committed and the evidence of every committed run have their file. */
  ghost predicate Complete(facts: Facts, want: Archive, decided: set<RunId>) {
    && (forall s, day :: s in facts && DayRows(facts[s], day) != [] ==> DayFile(s, day) in want)
    && (forall s, n :: s in facts && n in ReportNames(s) ==> ReportFile(s, n) in want)
    && (forall run :: run in decided ==> HasEvidence(want, run))
  }

  ghost predicate UniqueRuns(runs: Runs) {
    forall s, t, i, j ::
      (0 <= i < |RowsFor(runs, s)| && 0 <= j < |RowsFor(runs, t)|
       && RowsFor(runs, s)[i].run == RowsFor(runs, t)[j].run) ==> s == t && i == j
  }

  /** The record lists its evidence, which the run created. */
  ghost predicate CreatedEvidence(r: Record) {
    r.evidence.Some? && Item(r.evidence.value, false) in r.files
  }

  ghost predicate NoLaterSuccess(runs: Runs, run: RunId) {
    forall s, i, j ::
      0 <= i < j < |RowsFor(runs, s)| && RowsFor(runs, s)[i].run == run ==> RowsFor(runs, s)[j].status != Success
  }

  /** The journal of a committed run that a crash could bring back is still decided by
      its row, which is the newest success of its source, and lists created evidence. */
  ghost predicate JournalOk(r: Record, runs: Runs) {
    r.run in SuccessRuns(runs) && NoLaterSuccess(runs, r.run) && CreatedEvidence(r)
  }

  /** The rows tell the truth, and every committed run whose journal a crash could
      bring back still has its row. */
  ghost predicate RowsOk(t: Tree, runs: Runs, decided: set<RunId>, used: set<RunId>) {
    && decided <= used
    && UniqueRuns(runs)
    && (forall s, i :: 0 <= i < |RowsFor(runs, s)| ==>
          && RowsFor(runs, s)[i].run in used
          && (RowsFor(runs, s)[i].status == Success ==> RowsFor(runs, s)[i].run in decided))
    && (forall l :: l in At(t, Runtime).Visible() && Journal in l ==>
          && Entry(l).run in used
          && (Entry(l).run in decided ==> JournalOk(Entry(l), runs)))
  }

  /** No row that pruning `source` drops decides a journal that a crash could bring back. */
  predicate PruneSafe(t: Tree, runs: Runs, source: Source, keep: nat) {
    forall l, i ::
      (l in At(t, Runtime).Visible() && Journal in l && 0 <= i < |RowsFor(runs, source)| - keep
       && RowsFor(runs, source)[i].run == Entry(l).run) ==> RowsFor(runs, source)[i].status != Success
  }

  lemma SuccessRunsIn(runs: Runs, run: RunId) returns (s: Source, i: nat)
    requires run in SuccessRuns(runs)
    ensures i < |RowsFor(runs, s)| && RowsFor(runs, s)[i] == RunRow(run, Success)
  {
    var s', row :| s' in runs && row in runs[s'] && row.status == Success && row.run == run;
    s := s';
    i :| 0 <= i < |runs[s']| && runs[s'][i] == row;
  }

  function AfterPrune(runs: Runs, source: Source, keep: nat): Runs {
    runs[source := Pruned(RowsFor(runs, source), keep)]
  }

  function Cut(runs: Runs, s: Source, source: Source, keep: nat): nat {
    if s == source && |RowsFor(runs, s)| > keep then |RowsFor(runs, s)| - keep else 0
  }

  lemma PrunedRow(runs: Runs, source: Source, keep: nat, s: Source, i: nat)
    requires i < |RowsFor(AfterPrune(runs, source, keep), s)|
    ensures Cut(runs, s, source, keep) + i < |RowsFor(runs, s)|
    ensures RowsFor(AfterPrune(runs, source, keep), s)[i] == RowsFor(runs, s)[Cut(runs, s, source, keep) + i]
  {
  }

  lemma KeptRow(runs: Runs, source: Source, keep: nat, s: Source, i: nat)
    requires Cut(runs, s, source, keep) <= i < |RowsFor(runs, s)|
    ensures RowsFor(runs, s)[i] in RowsFor(AfterPrune(runs, source, keep), s)
  {
    var cut := Cut(runs, s, source, keep);
    assert RowsFor(AfterPrune(runs, source, keep), s) == RowsFor(runs, s)[cut..];
    assert RowsFor(runs, s)[cut..][i - cut] == RowsFor(runs, s)[i];
  }

  lemma PrunedUnique(runs: Runs, source: Source, keep: nat)
    requires UniqueRuns(runs)
    ensures UniqueRuns(AfterPrune(runs, source, keep))
  {
    var after := AfterPrune(runs, source, keep);
    forall s, t, i, j | 0 <= i < |RowsFor(after, s)| && 0 <= j < |RowsFor(after, t)|
      && RowsFor(after, s)[i].run == RowsFor(after, t)[j].run
      ensures s == t && i == j
    {
      PrunedRow(runs, source, keep, s, i);
      PrunedRow(runs, source, keep, t, j);
    }
  }

  lemma PruneKeepsDecision(runs: Runs, source: Source, keep: nat, run: RunId)
    requires run in SuccessRuns(runs)
    requires forall i :: 0 <= i < |RowsFor(runs, source)| - keep && RowsFor(runs, source)[i].run == run ==>
      RowsFor(runs, source)[i].status != Success
    ensures run in SuccessRuns(AfterPrune(runs, source, keep))
  {
    var after := AfterPrune(runs, source, keep);
    var s, i := SuccessRunsIn(runs, run);
    KeptRow(runs, source, keep, s, i);
  }

  lemma PruneKeepsNewest(runs: Runs, source: Source, keep: nat, run: RunId)
    requires NoLaterSuccess(runs, run)
    ensures NoLaterSuccess(AfterPrune(runs, source, keep), run)
  {
    var after := AfterPrune(runs, source, keep);
    forall s, i, j | 0 <= i < j < |RowsFor(after, s)| && RowsFor(after, s)[i].run == run
      ensures RowsFor(after, s)[j].status != Success
    {
      PrunedRow(runs, source, keep, s, i);
      PrunedRow(runs, source, keep, s, j);
    }
  }

  lemma PruneKeepsDecisions(t: Tree, runs: Runs, source: Source, keep: nat, decided: set<RunId>, used: set<RunId>)
    requires RowsOk(t, runs, decided, used) && PruneSafe(t, runs, source, keep)
    ensures RowsOk(t, AfterPrune(runs, source, keep), decided, used)
  {
    var after := AfterPrune(runs, source, keep);
    PrunedUnique(runs, source, keep);
    forall s, i | 0 <= i < |RowsFor(after, s)|
      ensures RowsFor(after, s)[i].run in used
      ensures RowsFor(after, s)[i].status == Success ==> RowsFor(after, s)[i].run in decided
    {
      PrunedRow(runs, source, keep, s, i);
    }
    forall l | l in At(t, Runtime).Visible() && Journal in l && Entry(l).run in decided
      ensures JournalOk(Entry(l), after)
    {
      PruneKeepsDecision(runs, source, keep, Entry(l).run);
      PruneKeepsNewest(runs, source, keep, Entry(l).run);
    }
  }

  /** An unsafe prune leaves a committed journal that no row decides any more. */
  lemma UnsafePruneLosesDecision(t: Tree, runs: Runs, source: Source, keep: nat, decided: set<RunId>, used: set<RunId>)
    requires RowsOk(t, runs, decided, used) && !PruneSafe(t, runs, source, keep)
    ensures exists l :: (l in At(t, Runtime).Visible() && Journal in l && Entry(l).run in decided
                         && Entry(l).run !in SuccessRuns(AfterPrune(runs, source, keep)))
  {
    var after := AfterPrune(runs, source, keep);
    var l, i :| l in At(t, Runtime).Visible() && Journal in l
      && 0 <= i < |RowsFor(runs, source)| - keep && RowsFor(runs, source)[i].run == Entry(l).run
      && RowsFor(runs, source)[i].status == Success;
    forall s, j | 0 <= j < |RowsFor(after, s)| ensures RowsFor(after, s)[j].run != Entry(l).run {
      PrunedRow(runs, source, keep, s, j);
    }
    forall s, row: RunRow | s in after && row in after[s] ensures row.run != Entry(l).run {
      var j :| 0 <= j < |RowsFor(after, s)| && RowsFor(after, s)[j] == row;
    }
  }

  /** Pruning keeps every decision that recovery may still need exactly when it is safe. */
  lemma PruneSafeExactly(t: Tree, runs: Runs, source: Source, keep: nat, decided: set<RunId>, used: set<RunId>)
    requires RowsOk(t, runs, decided, used)
    ensures RowsOk(t, AfterPrune(runs, source, keep), decided, used) <==> PruneSafe(t, runs, source, keep)
  {
    if PruneSafe(t, runs, source, keep) {
      PruneKeepsDecisions(t, runs, source, keep, decided, used);
    } else {
      UnsafePruneLosesDecision(t, runs, source, keep, decided, used);
    }
  }

  // ---- What one run publishes ----

  function DayPlan(source: Source, rows: map<Date, seq<Row>>, days: seq<Date>): Archive {
    if days == [] then map[]
    else
      var last := days[|days| - 1];
      DayPlan(source, rows, days[..|days| - 1])[DayFile(source, last) := DayText(DayRows(rows, last))]
  }

  function ReportPlan(source: Source, table: Table, names: seq<ReportName>): Archive {
    if names == [] then map[]
    else
      var last := names[|names| - 1];
      ReportPlan(source, table, names[..|names| - 1])[ReportFile(source, last) := ReportText(source, last, table)]
  }

  lemma {:induction false} DayPlanLookup(source: Source, rows: map<Date, seq<Row>>, days: seq<Date>)
    ensures forall d :: d in DayPlan(source, rows, days) <==> d.DayFile? && d.source == source && d.date in days
    ensures forall d ::
      d in DayPlan(source, rows, days) ==> DayPlan(source, rows, days)[d] == DayText(DayRows(rows, d.date))
  {
    if days != [] {
      var n := |days| - 1;
      DayPlanLookup(source, rows, days[..n]);
      assert days == days[..n] + [days[n]];
    }
  }

  lemma {:induction false} ReportPlanLookup(source: Source, table: Table, names: seq<ReportName>)
    ensures forall d ::
      d in ReportPlan(source, table, names) <==> d.ReportFile? && d.source == source && d.name in names
    ensures forall d :: d in ReportPlan(source, table, names) ==>
      ReportPlan(source, table, names)[d] == ReportText(source, d.name, table)
  {
    if names != [] {
      var n := |names| - 1;
      ReportPlanLookup(source, table, names[..n]);
      assert names == names[..n] + [names[n]];
    }
  }

  function Files(source: Source, days: seq<Date>): seq<Dest> {
    seq(|days|, i requires 0 <= i < |days| => DayFile(source, days[i]))
    + seq(|ReportNames(source)|,
      i requires 0 <= i < |ReportNames(source)| => ReportFile(source, ReportNames(source)[i]))
  }

  /** The daily archives of `days`, every report over the new table, and the evidence. */
  function Plan(source: Source, sync: Dest, run: RunId, table: Table, rows: map<Date, seq<Row>>,
                days: seq<Date>): Archive {
    (DayPlan(source, rows, days) + ReportPlan(source, table, ReportNames(source)))
      [sync := EvidenceText(run, false, Files(source, days))]
  }

  lemma ReplacedDayRows(table: Table, days: seq<Date>, rows: map<Date, seq<Row>>, day: Date)
    ensures DayRows(ReplaceDays(table, days, rows), day) ==
      if day in days then DayRows(rows, day) else DayRows(table, day)
  {
    if days != [] {
      ReplacedDayRows(table, days[..|days| - 1], rows, day);
      assert days == days[..|days| - 1] + [days[|days| - 1]];
    }
  }

  lemma PlanLookup(source: Source, sync: Dest, run: RunId, table: Table, rows: map<Date, seq<Row>>, days: seq<Date>,
                   d: Dest)
    requires sync.SyncFile?
    ensures var plan := Plan(source, sync, run, table, rows, days);
      match d
      case DayFile(s, day) =>
        (d in plan <==> s == source && day in days) && (d in plan ==> plan[d] == DayText(DayRows(rows, day)))
      case ReportFile(s, n) =>
        && (d in plan <==> s == source && n in ReportNames(source))
        && (d in plan ==> plan[d] == ReportText(source, n, table))
      case SyncFile(_, _, _) =>
        (d in plan <==> d == sync) && (d in plan ==> plan[d] == EvidenceText(run, false, Files(source, days)))
  {
    DayPlanLookup(source, rows, days);
    ReportPlanLookup(source, table, ReportNames(source));
  }

  lemma ReportNamesExactly(s: Source, n: ReportName)
    ensures n in ReportNames(s) <==> n != CloudRunResources || s == Detailed
  {
    assert ReportNames(s)[0] == Daily && ReportNames(s)[1] == MonthlyUsage && ReportNames(s)[2] == MonthlyInvoice;
    assert ReportNames(s)[3] == Services && ReportNames(s)[4] == Skus;
    assert s == Detailed ==> ReportNames(s)[5] == CloudRunResources;
  }

  /** The evidence names everything else that the run stages. */
  lemma FilesExactly(source: Source, sync: Dest, run: RunId, table: Table, rows: map<Date, seq<Row>>, days: seq<Date>,
                     d: Dest)
    requires sync.SyncFile?
    ensures d in Files(source, days) <==> d in Plan(source, sync, run, table, rows, days) && d != sync
  {
    var files, names := Files(source, days), ReportNames(source);
    PlanLookup(source, sync, run, table, rows, days, d);
    match d
    case DayFile(s, day) =>
      if s == source && day in days {
        var i :| 0 <= i < |days| && days[i] == day;
        assert files[i] == d;
      }
    case ReportFile(s, n) =>
      if s == source && n in names {
        var i :| 0 <= i < |names| && names[i] == n;
        assert files[|days| + i] == d;
      }
    case SyncFile(_, _, _) =>
  }

  lemma CommitMatchesAt(facts: Facts, want: Archive, decided: set<RunId>, source: Source, sync: Dest, run: RunId,
                        days: seq<Date>, rows: map<Date, seq<Row>>, d: Dest)
    requires sync.SyncFile? && sync.run == run && (d in want ==> MatchesAt(facts, want, decided, d))
    ensures var table := ReplaceDays(TableOf(facts, source), days, rows);
      var after := Committed(want, Plan(source, sync, run, table, rows, days));
      d in after ==> MatchesAt(facts[source := table], after, decided + {run}, d)
  {
    PlanLookup(source, sync, run, ReplaceDays(TableOf(facts, source), days, rows), rows, days, d);
    if d.DayFile? {
      ReplacedDayRows(TableOf(facts, source), days, rows, d.date);
    }
  }

  /** The tables and the archive change together. */
  lemma CommitMatches(facts: Facts, want: Archive, decided: set<RunId>, source: Source, sync: Dest, run: RunId,
                      days: seq<Date>, rows: map<Date, seq<Row>>)
    requires sync.SyncFile? && sync.run == run && Matches(facts, want, decided)
    ensures var table := ReplaceDays(TableOf(facts, source), days, rows);
      Matches(facts[source := table], Committed(want, Plan(source, sync, run, table, rows, days)), decided + {run})
  {
    forall d {
      CommitMatchesAt(facts, want, decided, source, sync, run, days, rows, d);
    }
  }

  predicate DistinctDays(days: seq<Date>) {
    forall i, j :: 0 <= i < j < |days| ==> days[i] != days[j]
  }

  lemma ReplaceDaysGrows(table: Table, days: seq<Date>, rows: map<Date, seq<Row>>, i: nat)
    requires i < |days|
    ensures ReplaceDays(table, days[..i + 1], rows) ==
      ReplaceDay(ReplaceDays(table, days[..i], rows), days[i], DayRows(rows, days[i]))
  {
    assert days[..i + 1][..i] == days[..i] && days[..i + 1][i] == days[i];
  }

  lemma DayPlanGrows(source: Source, rows: map<Date, seq<Row>>, days: seq<Date>, i: nat)
    requires i < |days| && DistinctDays(days)
    ensures days[..i + 1][..i] == days[..i] && days[..i + 1][i] == days[i]
    ensures DayFile(source, days[i]) !in DayPlan(source, rows, days[..i])
    ensures DayPlan(source, rows, days[..i + 1]) ==
      DayPlan(source, rows, days[..i])[DayFile(source, days[i]) := DayText(DayRows(rows, days[i]))]
  {
    DayPlanLookup(source, rows, days[..i]);
  }

  lemma ReportNamesDistinct(source: Source, i: nat)
    requires i < |ReportNames(source)|
    ensures ReportNames(source)[i] !in ReportNames(source)[..i]
  {
  }

  lemma ReportPlanGrows(base: Archive, source: Source, table: Table, names: seq<ReportName>, i: nat)
    requires i < |names| && names[i] !in names[..i] && forall d :: d in base ==> d.DayFile?
    ensures ReportFile(source, names[i]) !in base + ReportPlan(source, table, names[..i])
    ensures base + ReportPlan(source, table, names[..i + 1]) ==
      (base + ReportPlan(source, table, names[..i]))
        [ReportFile(source, names[i]) := ReportText(source, names[i], table)]
  {
    var k, v := ReportFile(source, names[i]), ReportText(source, names[i], table);
    ReportPlanLookup(source, table, names[..i]);
    assert names[..i + 1][..i] == names[..i] && names[..i + 1][i] == names[i];
    assert ReportPlan(source, table, names[..i + 1]) == ReportPlan(source, table, names[..i])[k := v];
    var before := ReportPlan(source, table, names[..i]);
    assert base + before[k := v] == (base + before)[k := v];
  }

  lemma RowsOkStep(t: Tree, after: Tree, runs: Runs, decided: set<RunId>, used: set<RunId>, run: RunId)
    requires RowsOk(t, runs, decided, used) && OnlyRun(t, after, run)
    requires run in used && run !in decided
    ensures RowsOk(after, runs, decided, used)
  {
  }

  lemma OnlyRunTwice(t: Tree, mid: Tree, after: Tree, run: RunId)
    requires OnlyRun(t, mid, run) && OnlyRun(mid, after, run)
    ensures OnlyRun(t, after, run)
  {
  }

  ghost predicate HasRow(runs: Runs, source: Source, run: RunId) {
    exists i :: 0 <= i < |RowsFor(runs, source)| && RowsFor(runs, source)[i].run == run
  }

  function AfterUpdate(runs: Runs, source: Source, run: RunId, status: Status): Runs {
    runs[source := Updated(RowsFor(runs, source), run, status)]
  }

  lemma UpdatedRow(runs: Runs, source: Source, run: RunId, status: Status, s: Source, i: nat)
    ensures var after := AfterUpdate(runs, source, run, status);
      && |RowsFor(after, s)| == |RowsFor(runs, s)|
      && (i < |RowsFor(after, s)| ==>
            RowsFor(after, s)[i] ==
              if s == source && RowsFor(runs, s)[i].run == run then RunRow(run, status) else RowsFor(runs, s)[i])
  {
  }

  lemma UpdatedUnique(runs: Runs, source: Source, run: RunId, status: Status)
    requires UniqueRuns(runs)
    ensures UniqueRuns(AfterUpdate(runs, source, run, status))
  {
    var after := AfterUpdate(runs, source, run, status);
    forall s, t, i, j | 0 <= i < |RowsFor(after, s)| && 0 <= j < |RowsFor(after, t)|
      && RowsFor(after, s)[i].run == RowsFor(after, t)[j].run
      ensures s == t && i == j
    {
      UpdatedRow(runs, source, run, status, s, i);
      UpdatedRow(runs, source, run, status, t, j);
    }
  }

  lemma SuccessAfterUpdate(runs: Runs, source: Source, run: RunId)
    requires HasRow(runs, source, run)
    ensures run in SuccessRuns(AfterUpdate(runs, source, run, Success))
  {
    var after := AfterUpdate(runs, source, run, Success);
    var i :| 0 <= i < |RowsFor(runs, source)| && RowsFor(runs, source)[i].run == run;
    UpdatedRow(runs, source, run, Success, source, i);
    assert RowsFor(after, source)[i] in after[source];
  }

  /** Setting the status of one run changes no other decision. */
  lemma UpdatedDecisions(runs: Runs, source: Source, run: RunId, status: Status, other: RunId)
    requires other != run && other in SuccessRuns(runs)
    ensures other in SuccessRuns(AfterUpdate(runs, source, run, status))
  {
    var after := AfterUpdate(runs, source, run, status);
    var s, i := SuccessRunsIn(runs, other);
    UpdatedRow(runs, source, run, status, s, i);
    assert RowsFor(after, s)[i] in after[s];
  }

  lemma UpdatedNewest(runs: Runs, source: Source, run: RunId, status: Status, other: RunId)
    requires NoLaterSuccess(runs, other) && status != Success
    ensures NoLaterSuccess(AfterUpdate(runs, source, run, status), other)
  {
    var after := AfterUpdate(runs, source, run, status);
    forall s, i, j | 0 <= i < j < |RowsFor(after, s)| && RowsFor(after, s)[i].run == other
      ensures RowsFor(after, s)[j].status != Success
    {
      UpdatedRow(runs, source, run, status, s, i);
      UpdatedRow(runs, source, run, status, s, j);
    }
  }

  lemma UpdatedTruth(t: Tree, runs: Runs, source: Source, run: RunId, status: Status,
                     decided: set<RunId>, decided': set<RunId>, used: set<RunId>)
    requires RowsOk(t, runs, decided, used) && decided <= decided' && (status == Success ==> run in decided')
    ensures forall s, i :: 0 <= i < |RowsFor(AfterUpdate(runs, source, run, status), s)| ==>
      var row := RowsFor(AfterUpdate(runs, source, run, status), s)[i];
      row.run in used && (row.status == Success ==> row.run in decided')
  {
    var after := AfterUpdate(runs, source, run, status);
    forall s, i | 0 <= i < |RowsFor(after, s)|
      ensures RowsFor(after, s)[i].run in used
      ensures RowsFor(after, s)[i].status == Success ==> RowsFor(after, s)[i].run in decided'
    {
      UpdatedRow(runs, source, run, status, s, i);
    }
  }

  /** Marking an undecided run as anything but a success changes no decision. */
  lemma UpdateRowsOk(t: Tree, runs: Runs, source: Source, run: RunId, status: Status, decided: set<RunId>,
                     used: set<RunId>)
    requires RowsOk(t, runs, decided, used) && run !in decided && status != Success
    ensures RowsOk(t, AfterUpdate(runs, source, run, status), decided, used)
  {
    var after := AfterUpdate(runs, source, run, status);
    UpdatedUnique(runs, source, run, status);
    UpdatedTruth(t, runs, source, run, status, decided, decided, used);
    forall l | l in At(t, Runtime).Visible() && Journal in l && Entry(l).run in decided
      ensures JournalOk(Entry(l), after)
    {
      UpdatedDecisions(runs, source, run, status, Entry(l).run);
      UpdatedNewest(runs, source, run, status, Entry(l).run);
    }
  }

  /** The row of the run is the newest of its source. */
  ghost predicate LastRow(runs: Runs, source: Source, run: RunId) {
    var rows := RowsFor(runs, source);
    |rows| > 0 && rows[|rows| - 1].run == run
  }

  lemma LastIsNewest(runs: Runs, source: Source, run: RunId)
    requires UniqueRuns(runs) && LastRow(runs, source, run)
    ensures NoLaterSuccess(runs, run)
  {
    var last := |RowsFor(runs, source)| - 1;
    assert RowsFor(runs, source)[last].run == run;
    assert forall s, i :: 0 <= i < |RowsFor(runs, s)| && RowsFor(runs, s)[i].run == run ==> s == source && i == last;
  }

  /** At the commit only the journal of the run is there, and its row is the last. */
  lemma CommitRowsOk(t: Tree, runs: Runs, source: Source, r: Record, decided: set<RunId>, used: set<RunId>)
    requires RowsOk(t, runs, decided, used) && r.run in used && LastRow(runs, source, r.run)
    requires forall l :: l in At(t, Runtime).Visible() && Journal in l ==> Entry(l) == r
    requires CreatedEvidence(r)
    ensures RowsOk(t, AfterUpdate(runs, source, r.run, Success), decided + {r.run}, used)
  {
    var after := AfterUpdate(runs, source, r.run, Success);
    UpdatedUnique(runs, source, r.run, Success);
    UpdatedTruth(t, runs, source, r.run, Success, decided, decided + {r.run}, used);
    assert HasRow(runs, source, r.run);
    SuccessAfterUpdate(runs, source, r.run);
    UpdatedRow(runs, source, r.run, Success, source, |RowsFor(runs, source)| - 1);
    LastIsNewest(after, source, r.run);
  }

  /** Disk, decision rows and tables agree about the runs that committed. */
  ghost predicate Consistent(t: Tree, runs: Runs, facts: Facts, decided: set<RunId>, used: set<RunId>, want: Archive) {
    && Inv(t, decided, want) && RowsOk(t, runs, decided, used)
    && Matches(facts, want, decided) && Complete(facts, want, decided)
  }

  lemma ReplacedEmpty(table: Table, days: seq<Date>, rows: map<Date, seq<Row>>, day: Date)
    requires DayRows(ReplaceDays(table, days, rows), day) != []
    ensures day in days || DayRows(table, day) != []
  {
    ReplacedDayRows(table, days, rows, day);
  }

  lemma CommitCompleteDays(facts: Facts, want: Archive, decided: set<RunId>, source: Source, sync: Dest, run: RunId,
                           days: seq<Date>, rows: map<Date, seq<Row>>, s: Source, day: Date)
    requires sync.SyncFile? && sync.run == run && Complete(facts, want, decided)
    requires var after := facts[source := ReplaceDays(TableOf(facts, source), days, rows)];
      s in after && DayRows(after[s], day) != []
    ensures var table := ReplaceDays(TableOf(facts, source), days, rows);
            DayFile(s, day) in Committed(want, Plan(source, sync, run, table, rows, days))
  {
    PlanLookup(source, sync, run, ReplaceDays(TableOf(facts, source), days, rows), rows, days, DayFile(s, day));
    if s == source {
      ReplacedEmpty(TableOf(facts, source), days, rows, day);
    }
  }

  lemma CommitCompleteRuns(want: Archive, decided: set<RunId>, plan: Archive, sync: Dest, run: RunId)
    requires sync.SyncFile? && sync.run == run && sync in plan
    requires forall other :: other in decided ==> HasEvidence(want, other)
    ensures forall other :: other in decided + {run} ==> HasEvidence(Committed(want, plan), other)
  {
    forall other | other in decided + {run} ensures HasEvidence(Committed(want, plan), other) {
      if other == run {
        assert SyncFile(run, sync.year, sync.month) in Committed(want, plan);
      } else {
        var year, month :| SyncFile(other, year, month) in want;
        assert SyncFile(other, year, month) in Committed(want, plan);
      }
    }
  }

  lemma CommitComplete(facts: Facts, want: Archive, decided: set<RunId>, source: Source, sync: Dest, run: RunId,
                       days: seq<Date>, rows: map<Date, seq<Row>>)
    requires sync.SyncFile? && sync.run == run && Complete(facts, want, decided)
    ensures var table := ReplaceDays(TableOf(facts, source), days, rows);
      Complete(facts[source := table], Committed(want, Plan(source, sync, run, table, rows, days)), decided + {run})
  {
    var table := ReplaceDays(TableOf(facts, source), days, rows);
    var plan := Plan(source, sync, run, table, rows, days);
    PlanLookup(source, sync, run, table, rows, days, sync);
    CommitCompleteRuns(want, decided, plan, sync, run);
    forall s, day | s in facts[source := table] && DayRows(facts[source := table][s], day) != []
      ensures DayFile(s, day) in Committed(want, plan)
    {
      CommitCompleteDays(facts, want, decided, source, sync, run, days, rows, s, day);
    }
    forall s, n | s in facts[source := table] && n in ReportNames(s) ensures ReportFile(s, n) in Committed(want, plan) {
      PlanLookup(source, sync, run, table, rows, days, ReportFile(s, n));
    }
  }

  lemma UndecidedEvidence(facts: Facts, want: Archive, decided: set<RunId>, sync: Dest)
    requires Matches(facts, want, decided) && sync.SyncFile? && sync.run !in decided
    ensures sync !in want
  {
  }

  /** A run that has not committed creates its evidence. */
  lemma EvidenceIsCreated(t: Tree, runs: Runs, facts: Facts, decided: set<RunId>, used: set<RunId>, want: Archive,
                          r: Record, sync: Dest, staged: Archive)
    requires Consistent(t, runs, facts, decided, used, want) && r.run !in decided
    requires sync.SyncFile? && sync.run == r.run && sync in staged && staged[sync].EvidenceText?
    requires r.files != [] && Journalled(t, r) && StagedOk(r, staged)
    ensures CreatedEvidence(r)
  {
    assert r.evidence == Some(sync) && Lists(r, sync);
    var item :| item in r.files && item.dest == sync;
    var l, x := At(t, Runtime).now, At(t, FolderOf(sync)).now;
    assert Fits(x, sync, Entry(l), decided, want);
    assert Undoable(x, item, r.run, want);
    UndecidedEvidence(facts, want, decided, sync);
    assert item == Item(sync, false);
  }

  lemma CommitConsistent(t: Tree, runs: Runs, facts: Facts, decided: set<RunId>, used: set<RunId>, want: Archive,
                         r: Record, source: Source, sync: Dest, rows: map<Date, seq<Row>>, days: seq<Date>)
    requires Consistent(t, runs, facts, decided, used, want) && r.run in used && r.run !in decided
    requires sync.SyncFile? && sync.run == r.run && LastRow(runs, source, r.run)
    requires var table := ReplaceDays(TableOf(facts, source), days, rows);
      var plan := Plan(source, sync, r.run, table, rows, days);
      r.files != [] && Journalled(t, r) && StagedOk(r, plan) && PublishedTo(t, r, plan, |r.files|)
    ensures var table := ReplaceDays(TableOf(facts, source), days, rows);
      Consistent(t, AfterUpdate(runs, source, r.run, Success), facts[source := table], decided + {r.run}, used,
                 Committed(want, Plan(source, sync, r.run, table, rows, days)))
  {
    var table := ReplaceDays(TableOf(facts, source), days, rows);
    CommitKeeps(t, r, Plan(source, sync, r.run, table, rows, days), decided, want);
    CommitMatches(facts, want, decided, source, sync, r.run, days, rows);
    CommitComplete(facts, want, decided, source, sync, r.run, days, rows);
    PlanLookup(source, sync, r.run, table, rows, days, sync);
    EvidenceIsCreated(t, runs, facts, decided, used, want, r, sync, Plan(source, sync, r.run, table, rows, days));
    CommitRowsOk(t, runs, source, r, decided, used);
  }

  /** Recovery's question to the database has the right answer. */
  lemma DecisionsAgree(t: Tree, runs: Runs, decided: set<RunId>, used: set<RunId>)
    requires RowsOk(t, runs, decided, used)
    ensures SuccessRuns(runs) <= decided
    ensures forall l :: l in At(t, Runtime).Visible() && Journal in l ==>
      (Entry(l).run in SuccessRuns(runs) <==> Entry(l).run in decided)
  {
    forall run | run in SuccessRuns(runs) ensures run in decided {
      var s, i := SuccessRunsIn(runs, run);
    }
  }

  function AfterInsert(runs: Runs, source: Source, run: RunId): Runs {
    runs[source := RowsFor(runs, source) + [RunRow(run, Running)]]
  }

  lemma InsertedRow(runs: Runs, source: Source, run: RunId, s: Source, i: nat)
    requires i < |RowsFor(AfterInsert(runs, source, run), s)|
    ensures i < |RowsFor(runs, s)| ==> RowsFor(AfterInsert(runs, source, run), s)[i] == RowsFor(runs, s)[i]
    ensures i >= |RowsFor(runs, s)| ==> s == source && i == |RowsFor(runs, s)|
    ensures i >= |RowsFor(runs, s)| ==> RowsFor(AfterInsert(runs, source, run), s)[i] == RunRow(run, Running)
  {
  }

  lemma InsertUnique(t: Tree, runs: Runs, source: Source, run: RunId, decided: set<RunId>, used: set<RunId>)
    requires RowsOk(t, runs, decided, used) && run !in used
    ensures UniqueRuns(AfterInsert(runs, source, run))
  {
    var after := AfterInsert(runs, source, run);
    forall s, t, i, j | 0 <= i < |RowsFor(after, s)| && 0 <= j < |RowsFor(after, t)|
      && RowsFor(after, s)[i].run == RowsFor(after, t)[j].run
      ensures s == t && i == j
    {
      InsertedRow(runs, source, run, s, i);
      InsertedRow(runs, source, run, t, j);
    }
  }

  lemma InsertRowsOk(t: Tree, runs: Runs, source: Source, run: RunId, decided: set<RunId>, used: set<RunId>)
    requires RowsOk(t, runs, decided, used) && run !in used
    ensures RowsOk(t, runs, decided, used + {run})
    ensures RowsOk(t, AfterInsert(runs, source, run), decided, used + {run})
    ensures LastRow(AfterInsert(runs, source, run), source, run)
  {
    var after := AfterInsert(runs, source, run);
    InsertUnique(t, runs, source, run, decided, used);
    InsertedRow(runs, source, run, source, |RowsFor(runs, source)|);
    forall s, i | 0 <= i < |RowsFor(after, s)|
      ensures RowsFor(after, s)[i].run in used + {run}
      ensures RowsFor(after, s)[i].status == Success ==> RowsFor(after, s)[i].run in decided
    {
      InsertedRow(runs, source, run, s, i);
    }
    forall l | l in At(t, Runtime).Visible() && Journal in l && Entry(l).run in decided
      ensures JournalOk(Entry(l), after)
    {
      InsertedJournal(runs, source, run, Entry(l));
    }
  }

  lemma InsertedJournal(runs: Runs, source: Source, run: RunId, r: Record)
    requires JournalOk(r, runs) && r.run != run
    ensures JournalOk(r, AfterInsert(runs, source, run))
  {
    var after := AfterInsert(runs, source, run);
    var s, i := SuccessRunsIn(runs, r.run);
    InsertedRow(runs, source, run, s, i);
    assert RowsFor(after, s)[i] in after[s];
    forall s, i, j | 0 <= i < j < |RowsFor(after, s)| && RowsFor(after, s)[i].run == r.run
      ensures RowsFor(after, s)[j].status != Success
    {
      InsertedRow(runs, source, run, s, i);
      InsertedRow(runs, source, run, s, j);
    }
  }

  /** All that a run may have done to the tables and the archive they call for:
      everything, if its decision row committed, and nothing otherwise. */
  ghost predicate RunEffect(run: RunId, source: Source, sync: Dest, days: seq<Date>, rows: map<Date, seq<Row>>,
                            decided: set<RunId>, facts: Facts, want: Archive,
                            decided': set<RunId>, facts': Facts, want': Archive) {
    if run in decided' then
      var table := ReplaceDays(TableOf(facts, source), days, rows);
      && decided' == decided + {run}
      && facts' == facts[source := table]
      && want' == Committed(want, Plan(source, sync, run, table, rows, days))
    else
      decided' == decided && facts' == facts && want' == want
  }

  /** What an attempt did to `sync_runs` as it found it: a success exactly if the run
      committed, a failure if it is reported as one. */
  ghost predicate RowsDecided(before: Runs, after: Runs, source: Source, run: RunId, o: Outcome, committed: bool) {
    if committed then after == AfterUpdate(before, source, run, Success)
    else if o == Refused(CollectionFailed) then after == AfterUpdate(before, source, run, Failed)
    else after == before || after == AfterUpdate(before, source, run, Failed)
  }

  lemma DecidedElsewhere(before: Runs, after: Runs, source: Source, run: RunId, o: Outcome, committed: bool)
    requires RowsDecided(before, after, source, run, o, committed)
    ensures forall s :: s != source ==> RowsFor(after, s) == RowsFor(before, s)
  {
  }

  /** What a run did to `sync_runs`: old rows pruned, its own added, and its outcome noted. */
  ghost predicate RowsEffect(before: Runs, after: Runs, source: Source, run: RunId, keep: nat, o: Outcome,
                             committed: bool) {
    || RowsDecided(AfterInsert(AfterPrune(before, source, keep), source, run), after, source, run, o, committed)
    || (!committed && o == Refused(StateIdentityMismatch) && after == before)
    || (!committed && o == Aborted && (after == before || after == AfterPrune(before, source, keep)))
  }

  /** What one process is asked to do for one source. */
  datatype Job = Job(source: Source, run: RunId, sync: Dest, days: seq<Date>, rows: map<Date, seq<Row>>)

  datatype Event = Process(jobs: seq<Job>) | PowerLoss(survivor: map<Folder, Listing>)

  /** Sources, and new run ids, are distinct; so are the days of each job. */
  predicate JobsFresh(jobs: seq<Job>, used: set<RunId>) {
    && (forall i, j :: 0 <= i < j < |jobs| ==> jobs[i].source != jobs[j].source && jobs[i].run != jobs[j].run)
    && (forall j :: j in jobs ==> j.run !in used && j.sync.SyncFile? && j.sync.run == j.run && DistinctDays(j.days))
  }

  function RunsOf(jobs: seq<Job>): set<RunId> {
    set j | j in jobs :: j.run
  }

  /** Run ids are new in every process. */
  ghost predicate EventsFresh(events: seq<Event>, used: set<RunId>) {
    && (forall n :: 0 <= n < |events| && events[n].Process? ==> JobsFresh(events[n].jobs, used))
    && (forall m, n :: 0 <= m < n < |events| && events[m].Process? && events[n].Process? ==>
          RunsOf(events[m].jobs) !! RunsOf(events[n].jobs))
  }

  lemma EventsLeft(events: seq<Event>, used: set<RunId>)
    requires events != [] && EventsFresh(events, used)
    ensures EventsFresh(events[1..], used)
    ensures events[0].Process? ==> JobsFresh(events[0].jobs, used)
    ensures events[0].Process? ==>
      forall more :: used <= more <= used + RunsOf(events[0].jobs) ==> EventsFresh(events[1..], more)
  {
    var rest := events[1..];
    forall n | 0 <= n < |rest| && rest[n].Process? ensures JobsFresh(rest[n].jobs, used) {
      assert rest[n] == events[n + 1];
    }
    forall m, n | 0 <= m < n < |rest| && rest[m].Process? && rest[n].Process?
      ensures RunsOf(rest[m].jobs) !! RunsOf(rest[n].jobs) {
      assert rest[m] == events[m + 1] && rest[n] == events[n + 1];
    }
    if events[0].Process? {
      forall more | used <= more <= used + RunsOf(events[0].jobs) ensures EventsFresh(rest, more) {
        forall n | 0 <= n < |rest| && rest[n].Process? ensures JobsFresh(rest[n].jobs, more) {
          OtherRuns(events[0].jobs, rest[n].jobs, used, more);
        }
      }
    }
  }

  lemma OtherRuns(first: seq<Job>, jobs: seq<Job>, used: set<RunId>, more: set<RunId>)
    requires JobsFresh(jobs, used) && RunsOf(first) !! RunsOf(jobs) && more <= used + RunsOf(first)
    ensures JobsFresh(jobs, more)
  {
    forall j | j in jobs ensures j.run !in more {
      assert j.run in RunsOf(jobs);
    }
  }

  /** The outcomes of the first jobs: what is done has committed, and nothing else has
      but runs that were tried. */
  ghost predicate Tried(jobs: seq<Job>, outcomes: seq<Outcome>, before: set<RunId>, decided: set<RunId>) {
    && |outcomes| <= |jobs|
    && before <= decided <= before + RunsOf(jobs[..|outcomes|])
    && forall i :: 0 <= i < |outcomes| && outcomes[i] == Done ==> jobs[i].run in decided
  }

  lemma TriedNext(jobs: seq<Job>, outcomes: seq<Outcome>, o: Outcome, before: set<RunId>, was: set<RunId>,
                  decided: set<RunId>)
    requires Tried(jobs, outcomes, before, was) && |outcomes| < |jobs|
    requires decided == was || decided == was + {jobs[|outcomes|].run}
    requires o == Done ==> jobs[|outcomes|].run in decided
    ensures Tried(jobs, outcomes + [o], before, decided) && (outcomes + [o])[|outcomes|] == o
    ensures AllDone(outcomes + [o]) <==> AllDone(outcomes) && o == Done
    ensures NoneFailed(outcomes + [o]) <==> NoneFailed(outcomes) && (o == Done || o == Refused(StateIdentityMismatch))
  {
    AllDoneNext(outcomes, o);
    var i := |outcomes|;
    assert jobs[..i + 1] == jobs[..i] + [jobs[i]];
    forall r | r in RunsOf(jobs[..i]) + {jobs[i].run} ensures r in RunsOf(jobs[..i + 1]) {
      if r in RunsOf(jobs[..i]) {
        var j :| j in jobs[..i] && j.run == r;
        assert j in jobs[..i + 1];
      } else {
        assert jobs[i] in jobs[..i + 1];
      }
    }
  }

  predicate AllDone(outcomes: seq<Outcome>) {
    forall i :: 0 <= i < |outcomes| ==> outcomes[i] == Done
  }

  /** Done, or not begun because the state belongs to another account or view. */
  predicate NoneFailed(outcomes: seq<Outcome>) {
    forall i :: 0 <= i < |outcomes| ==> outcomes[i] == Done || outcomes[i] == Refused(StateIdentityMismatch)
  }

  lemma AllDoneNext(outcomes: seq<Outcome>, o: Outcome)
    ensures AllDone(outcomes + [o]) <==> AllDone(outcomes) && o == Done
    ensures NoneFailed(outcomes + [o]) <==> NoneFailed(outcomes) && (o == Done || o == Refused(StateIdentityMismatch))
  {
    assert (outcomes + [o])[|outcomes|] == o;
    assert forall i :: 0 <= i < |outcomes| ==> (outcomes + [o])[i] == outcomes[i];
  }

  ghost predicate Counted(jobs: seq<Job>, outcomes: seq<Outcome>, failed: bool, before: set<RunId>, decided: set<RunId>,
                          usedBefore: set<RunId>, used: set<RunId>) {
    && Tried(jobs, outcomes, before, decided) && (failed <==> !AllDone(outcomes))
    && usedBefore <= used <= usedBefore + RunsOf(jobs)
  }

  lemma CountedNext(jobs: seq<Job>, outcomes: seq<Outcome>, failed: bool, o: Outcome, before: set<RunId>,
                    was: set<RunId>, decided: set<RunId>, usedBefore: set<RunId>, wasUsed: set<RunId>, used: set<RunId>)
    requires Counted(jobs, outcomes, failed, before, was, usedBefore, wasUsed) && |outcomes| < |jobs|
    requires decided == was || decided == was + {jobs[|outcomes|].run}
    requires used == wasUsed + {jobs[|outcomes|].run} && jobs[|outcomes|].run in RunsOf(jobs)
    requires o == Done ==> jobs[|outcomes|].run in decided
    ensures Counted(jobs, outcomes + [o], failed || o != Done, before, decided, usedBefore, used)
    ensures NoneFailed(outcomes + [o]) <==> NoneFailed(outcomes) && (o == Done || o == Refused(StateIdentityMismatch))
    ensures |outcomes + [o]| == |outcomes| + 1 && (outcomes + [o])[|outcomes|] == o
  {
    TriedNext(jobs, outcomes, o, before, was, decided);
  }

  lemma AllTried(jobs: seq<Job>, outcomes: seq<Outcome>, before: set<RunId>, decided: set<RunId>)
    requires Tried(jobs, outcomes, before, decided) && |outcomes| == |jobs|
    ensures AllDone(outcomes) ==> RunsOf(jobs) <= decided
  {
    if AllDone(outcomes) {
      forall r | r in RunsOf(jobs) ensures r in decided {
        var j :| j in jobs && j.run == r;
        var i :| 0 <= i < |jobs| && jobs[i] == j;
        assert outcomes[i] == Done;
      }
    }
  }

  /** Only attempts of these runs are marked as running. */
  ghost predicate OnlyRunning(runs: Runs, ids: set<RunId>) {
    forall s, i :: 0 <= i < |RowsFor(runs, s)| && RowsFor(runs, s)[i].status == Running ==>
      RowsFor(runs, s)[i].run in ids
  }

  lemma PruneRunning(runs: Runs, source: Source, keep: nat, ids: set<RunId>)
    requires OnlyRunning(runs, ids)
    ensures OnlyRunning(AfterPrune(runs, source, keep), ids)
  {
    var after := AfterPrune(runs, source, keep);
    forall s, i | 0 <= i < |RowsFor(after, s)| && RowsFor(after, s)[i].status == Running
      ensures RowsFor(after, s)[i].run in ids
    {
      PrunedRow(runs, source, keep, s, i);
    }
  }

  lemma InsertRunning(runs: Runs, source: Source, run: RunId, ids: set<RunId>)
    requires OnlyRunning(runs, ids) && run in ids
    ensures OnlyRunning(AfterInsert(runs, source, run), ids)
  {
    var after := AfterInsert(runs, source, run);
    forall s, i | 0 <= i < |RowsFor(after, s)| && RowsFor(after, s)[i].status == Running
      ensures RowsFor(after, s)[i].run in ids
    {
      InsertedRow(runs, source, run, s, i);
    }
  }

  lemma UpdateRunning(runs: Runs, source: Source, run: RunId, status: Status, ids: set<RunId>)
    requires OnlyRunning(runs, ids) && status != Running
    ensures OnlyRunning(AfterUpdate(runs, source, run, status), ids)
  {
    var after := AfterUpdate(runs, source, run, status);
    forall s, i | 0 <= i < |RowsFor(after, s)| && RowsFor(after, s)[i].status == Running
      ensures RowsFor(after, s)[i].run in ids
    {
      UpdatedRow(runs, source, run, status, s, i);
    }
  }

  lemma EffectRunning(before: Runs, after: Runs, source: Source, run: RunId, keep: nat, o: Outcome, committed: bool,
                      ids: set<RunId>)
    requires RowsEffect(before, after, source, run, keep, o, committed) && OnlyRunning(before, ids) && run in ids
    ensures OnlyRunning(after, ids)
  {
    var pruned := AfterPrune(before, source, keep);
    var begun := AfterInsert(pruned, source, run);
    PruneRunning(before, source, keep, ids);
    InsertRunning(pruned, source, run, ids);
    UpdateRunning(begun, source, run, Success, ids);
    UpdateRunning(begun, source, run, Failed, ids);
  }

  lemma JobsLeft(jobs: seq<Job>, i: nat, used: set<RunId>)
    requires i < |jobs| && JobsFresh(jobs[i..], used)
    ensures JobsFresh(jobs[i + 1..], used + {jobs[i].run})
    ensures forall j :: j in jobs[i + 1..] ==> j in jobs[i..] && j.source != jobs[i].source && j.run != jobs[i].run
  {
    assert jobs[i..] == [jobs[i]] + jobs[i + 1..];
    LaterJobs(jobs[i], jobs[i + 1..], used);
  }

  lemma LaterJobs(first: Job, rest: seq<Job>, used: set<RunId>)
    requires JobsFresh([first] + rest, used)
    ensures JobsFresh(rest, used + {first.run})
    ensures forall j :: j in rest ==> j in [first] + rest && j.source != first.source && j.run != first.run
  {
    var all := [first] + rest;
    forall k | 0 <= k < |rest|
      ensures rest[k] == all[k + 1] && rest[k].source != first.source && rest[k].run != first.run {
      assert all[0] == first && all[k + 1] == rest[k];
    }
  }

  function AfterInterrupt(runs: Runs): Runs {
    map s | s in runs :: Interrupted(runs[s])
  }

  lemma InterruptedRow(runs: Runs, s: Source, i: nat)
    ensures |RowsFor(AfterInterrupt(runs), s)| == |RowsFor(runs, s)|
    ensures i < |RowsFor(runs, s)| ==>
      var row := RowsFor(AfterInterrupt(runs), s)[i];
      row.run == RowsFor(runs, s)[i].run && (row.status == Success <==> RowsFor(runs, s)[i].status == Success)
  {
  }

  lemma InterruptRowsOk(t: Tree, runs: Runs, decided: set<RunId>, used: set<RunId>)
    requires RowsOk(t, runs, decided, used)
    ensures RowsOk(t, AfterInterrupt(runs), decided, used)
  {
    var after := AfterInterrupt(runs);
    forall s, i | 0 <= i < |RowsFor(after, s)|
      ensures |RowsFor(after, s)| == |RowsFor(runs, s)| && RowsFor(after, s)[i].run == RowsFor(runs, s)[i].run
      ensures RowsFor(after, s)[i].status == Success <==> RowsFor(runs, s)[i].status == Success
    {
      InterruptedRow(runs, s, i);
    }
    forall l | l in At(t, Runtime).Visible() && Journal in l && Entry(l).run in decided
      ensures JournalOk(Entry(l), after)
    {
      InterruptedJournal(runs, Entry(l));
    }
  }

  lemma InterruptedJournal(runs: Runs, r: Record)
    requires JournalOk(r, runs)
    ensures JournalOk(r, AfterInterrupt(runs))
  {
    var after := AfterInterrupt(runs);
    var s, i := SuccessRunsIn(runs, r.run);
    InterruptedRow(runs, s, i);
    assert RowsFor(after, s)[i] in after[s];
    forall s, i, j | 0 <= i < j < |RowsFor(after, s)| && RowsFor(after, s)[i].run == r.run
      ensures RowsFor(after, s)[j].status != Success
    {
      InterruptedRow(runs, s, i);
      InterruptedRow(runs, s, j);
    }
  }

  lemma InterruptPruneSafe(t: Tree, after: Tree, runs: Runs, runs': Runs, source: Source, keep: nat)
    requires PruneSafe(t, runs, source, keep)
    requires runs' == runs || runs' == AfterInterrupt(runs)
    requires forall l :: l in At(after, Runtime).Visible() && Journal in l ==> l in At(t, Runtime).Visible()
    ensures PruneSafe(after, runs', source, keep)
  {
    forall i: nat ensures |RowsFor(AfterInterrupt(runs), source)| == |RowsFor(runs, source)|
      ensures i < |RowsFor(runs, source)| ==>
        && RowsFor(AfterInterrupt(runs), source)[i].run == RowsFor(runs, source)[i].run
        && (RowsFor(AfterInterrupt(runs), source)[i].status == Success <==> RowsFor(runs, source)[i].status == Success)
    {
      InterruptedRow(runs, source, i);
    }
  }

  /** Collecting one source leaves pruning another as safe as it was. */
  lemma PruneSafeElsewhere(t: Tree, after: Tree, runs: Runs, runs': Runs, source: Source, keep: nat, run: RunId,
                           decided: set<RunId>, used: set<RunId>)
    requires PruneSafe(t, runs, source, keep) && RowsFor(runs', source) == RowsFor(runs, source)
    requires forall i :: 0 <= i < |RowsFor(runs, source)| ==> RowsFor(runs, source)[i].run in used
    requires OnlyRun(t, after, run) && run !in used
    ensures PruneSafe(after, runs', source, keep)
  {
  }

  lemma CrashKeepsConsistent(t: Tree, after: Tree, runs: Runs, facts: Facts, decided: set<RunId>, used: set<RunId>,
                             want: Archive)
    requires Consistent(t, runs, facts, decided, used, want) && CrashImage(t, after)
    ensures Consistent(after, runs, facts, decided, used, want)
  {
    CrashKeepsInv(t, after, decided, want);
  }

  // ---- What the invariant says to a reader of the archive ----

  /** With no journal pending, every archive directory holds exactly the published
      files, durably, and each says what the committed tables say. */
  lemma QuiescentArchive(t: Tree, runs: Runs, facts: Facts, decided: set<RunId>, used: set<RunId>, want: Archive,
                         f: Folder, l: Listing)
    requires Consistent(t, runs, facts, decided, used, want) && Journal !in At(t, Runtime).now
    requires f != Runtime && l in At(t, f).Visible()
    ensures forall n :: n in l ==> n.Of? && n.role == Final && n.dest in want && l[n] == want[n.dest]
    ensures forall d :: d in want && FolderOf(d) == f ==> Of(d, Final) in l && MatchesAt(facts, want, decided, d)
  {
    NoJournalMeansPristine(t, decided, want);
    PristineListing(t, want, f, l);
  }

  /** And every file the tables call for is there. */
  lemma NothingMissing(t: Tree, runs: Runs, facts: Facts, decided: set<RunId>, used: set<RunId>, want: Archive, d: Dest,
                       l: Listing)
    requires Consistent(t, runs, facts, decided, used, want) && Journal !in At(t, Runtime).now
    requires l in At(t, FolderOf(d)).Visible()
    requires d.DayFile? ==> d.source in facts && DayRows(facts[d.source], d.date) != []
    requires d.ReportFile? ==> d.source in facts && d.name in ReportNames(d.source)
    requires d.SyncFile? ==> d.run in decided && forall e: Dest :: e.SyncFile? && e.run == d.run && e in want ==> e == d
    ensures Of(d, Final) in l && d in want && l[Of(d, Final)] == want[d] && MatchesAt(facts, want, decided, d)
  {
    NoJournalMeansPristine(t, decided, want);
    if d.SyncFile? {
      var year, month :| SyncFile(d.run, year, month) in want;
    }
    assert d in want && Settled(l, d, want);
  }

  // ---- When pruning is safe ----

  /** A journal whose removal was synced needs no decision any more. */
  lemma NoJournalLeftIsPruneSafe(t: Tree, runs: Runs, source: Source, keep: nat)
    requires NoVisibleJournal(t)
    ensures PruneSafe(t, runs, source, keep)
  {
  }

  /** Readable from `sync_runs`: no success row is dropped, or a newer one is kept. */
  predicate NewestKept(runs: Runs, source: Source, keep: nat) {
    var rows := RowsFor(runs, source);
    || (forall i :: 0 <= i < |rows| - keep ==> rows[i].status != Success)
    || exists j :: |rows| - keep <= j < |rows| && j >= 0 && rows[j].status == Success
  }

  /** Then pruning is safe whatever the disk holds: only the newest success of a source
      can still have its journal. */
  lemma NewestKeptIsSafe(t: Tree, runs: Runs, source: Source, keep: nat, decided: set<RunId>, used: set<RunId>)
    requires RowsOk(t, runs, decided, used) && NewestKept(runs, source, keep)
    ensures PruneSafe(t, runs, source, keep)
  {
    assert forall l :: l in At(t, Runtime).Visible() && Journal in l && Entry(l).run in decided ==>
      NoLaterSuccess(runs, Entry(l).run);
  }

  /** `d`, a committed file that the committed run of the surviving journal created, is
      there, and undoing that run removes it: its row is gone, so recovery undoes it. */
  ghost predicate LosesFile(t: Tree, r: Record, d: Dest, decided: set<RunId>, success: set<RunId>, want: Archive) {
    var l, now := At(t, FolderOf(d)).now, At(t, Runtime).now;
    && At(t, Runtime).older == {} && Journal in now && now[Journal] == JournalText(r)
    && r.run in decided && r.run !in success
    && Item(d, false) in r.files && d in want && Of(d, Final) in l && l[Of(d, Final)] == want[d]
    && Of(d, Final) !in Swept(Decided(l, Item(d, false), r.run, r.run in success), d, r.run)
  }

  /** The power loss that brings the runtime listing `l` back and no other. */
  function CrashTo(t: Tree, l: Listing): Tree {
    map f | f in t :: Dir(if f == Runtime then l else t[f].now, {})
  }

  lemma LostByCrash(t: Tree, l: Listing, decided: set<RunId>, want: Archive, success: set<RunId>)
    requires Inv(t, decided, want) && Pristine(t, want) && l in At(t, Runtime).Visible() && Journal in l
    requires Entry(l).run in decided && Entry(l).run !in success && CreatedEvidence(Entry(l))
    ensures LosesFile(CrashTo(t, l), Entry(l), Entry(l).evidence.value, decided, success, want)
  {
    var d := Entry(l).evidence.value;
    assert RecordOk(Entry(l), decided, want);
    assert Settled(At(t, FolderOf(d)).now, d, want);
    assert At(CrashTo(t, l), FolderOf(d)).now == At(t, FolderOf(d)).now;
  }

  /** After an unsafe prune a power loss can bring back a journal with which recovery
      removes a committed file. */
  lemma UnsafePruneLosesFile(t: Tree, runs: Runs, facts: Facts, decided: set<RunId>, used: set<RunId>, want: Archive,
                             source: Source, keep: nat)
    requires Consistent(t, runs, facts, decided, used, want) && Journal !in At(t, Runtime).now
    requires !PruneSafe(t, runs, source, keep)
    ensures exists after, r, d :: CrashImage(t, after)
                                  && LosesFile(after, r, d, decided, SuccessRuns(AfterPrune(runs, source, keep)), want)
  {
    UnsafePruneLosesDecision(t, runs, source, keep, decided, used);
    var l :| l in At(t, Runtime).Visible() && Journal in l && Entry(l).run in decided
             && Entry(l).run !in SuccessRuns(AfterPrune(runs, source, keep));
    NoJournalMeansPristine(t, decided, want);
    assert JournalOk(Entry(l), runs);
    LostByCrash(t, l, decided, want, SuccessRuns(AfterPrune(runs, source, keep)));
    assert CrashImage(t, CrashTo(t, l));
  }

  // ---- The hazard ----

  function Finals(want: Archive, f: Folder): Listing {
    map d | d in want && FolderOf(d) == f :: Of(d, Final) := want[d]
  }

  /** The archive is `want`, settled; the journal `r` has been unlinked, and the runtime
      directory not synchronised since. */
  function Unsynced(want: Archive, r: Record): Tree {
    (map f | f in (set d | d in want :: FolderOf(d)) :: Dir(Finals(want, f), {}))
      [Runtime := Dir(map[], {map[Journal := JournalText(r)]})]
  }

  lemma UnsyncedAt(want: Archive, r: Record, f: Folder)
    requires f != Runtime
    ensures At(Unsynced(want, r), f) == Dir(Finals(want, f), {})
  {
    if f !in Unsynced(want, r) {
      assert Finals(want, f) == map[];
    }
  }

  lemma FinalsAre(want: Archive, f: Folder)
    ensures forall n :: n in Finals(want, f) ==>
      n.Of? && n.role == Final && n.dest in want && FolderOf(n.dest) == f && Finals(want, f)[n] == want[n.dest]
    ensures forall d :: d in want && FolderOf(d) == f ==> Of(d, Final) in Finals(want, f)
  {
  }

  lemma FinalsFit(want: Archive, d: Dest, r: Record, decided: set<RunId>)
    requires r.files == [] || (r.run in decided && forall item :: item in r.files ==> item.dest in want)
    ensures Fits(Finals(want, FolderOf(d)), d, r, decided, want)
  {
    FinalsAre(want, FolderOf(d));
  }

  lemma UnsyncedFits(want: Archive, r: Record, decided: set<RunId>)
    requires r.run in decided && forall item :: item in r.files ==> item.dest in want
    ensures AllFit(Unsynced(want, r), decided, want)
  {
    var t := Unsynced(want, r);
    forall l: Listing, d, x | l in At(t, Runtime).Visible() && x in At(t, FolderOf(d)).Visible()
      ensures Fits(x, d, Entry(l), decided, want)
    {
      UnsyncedAt(want, r, FolderOf(d));
      assert Entry(l) == r || Entry(l).files == [];
      FinalsFit(want, d, Entry(l), decided);
    }
  }

  lemma UnsyncedPlaced(want: Archive, r: Record)
    ensures Placed(Unsynced(want, r))
  {
    forall f, l: Listing, n | l in At(Unsynced(want, r), f).Visible() && n in l
      ensures if n.Of? then f == FolderOf(n.dest) else f == Runtime
    {
      if f != Runtime {
        UnsyncedAt(want, r, f);
        FinalsAre(want, f);
      }
    }
  }

  lemma UnsyncedHonest(want: Archive, r: Record, decided: set<RunId>)
    requires forall d :: d in want && want[d].EvidenceText? && want[d].success ==> want[d].run in decided
    ensures Honest(Unsynced(want, r), decided)
  {
    forall f, l | l in At(Unsynced(want, r), f).Visible() ensures HonestListing(l, decided) {
      if f != Runtime {
        UnsyncedAt(want, r, f);
        FinalsAre(want, f);
      }
    }
  }

  lemma UnsyncedInv(want: Archive, r: Record, decided: set<RunId>)
    requires r.run in decided && RecordOk(r, decided, want)
    requires forall item :: item in r.files ==> item.dest in want
    requires forall d :: d in want && want[d].EvidenceText? && want[d].success ==> want[d].run in decided
    ensures Inv(Unsynced(want, r), decided, want)
    ensures At(Unsynced(want, r), Runtime).Visible() == {map[], map[Journal := JournalText(r)]}
  {
    UnsyncedFits(want, r, decided);
    UnsyncedPlaced(want, r);
    UnsyncedHonest(want, r, decided);
    assert At(Unsynced(want, r), Runtime).Visible() == {map[], map[Journal := JournalText(r)]};
  }

  /** The complete journal of a run: day files, reports, evidence. */
  function FullRecord(source: Source, sync: Dest, run: RunId, days: seq<Date>, existed: bool): Record {
    var files := Files(source, days);
    Record(run, seq(|files|, i requires 0 <= i < |files| => Item(files[i], existed)) + [Item(sync, false)], Some(sync))
  }

  lemma FullRecordLists(source: Source, sync: Dest, run: RunId, days: seq<Date>, existed: bool, table: Table,
                        rows: map<Date, seq<Row>>)
    requires sync.SyncFile? && sync.run == run && DistinctDays(days)
    ensures var r, plan := FullRecord(source, sync, run, days, existed), Plan(source, sync, run, table, rows, days);
            Distinct(r.files) && forall item :: item in r.files ==> item.dest in plan
    ensures CreatedEvidence(FullRecord(source, sync, run, days, existed))
  {
    var r, n := FullRecord(source, sync, run, days, existed), |days|;
    var names := ReportNames(source);
    assert r.files[|r.files| - 1] == Item(sync, false);
    forall i | 0 <= i < |r.files|
      ensures r.files[i].dest == (if i < n then DayFile(source, days[i])
                                  else if i < n + |names| then ReportFile(source, names[i - n]) else sync)
    {
    }
    forall i | 0 <= i < |names| ensures names[i] !in names[..i] {
      ReportNamesDistinct(source, i);
    }
    forall i, j | 0 <= i < j < |r.files| ensures r.files[i].dest != r.files[j].dest {
      if n <= i && j < n + |names| {
        assert names[i - n] in names[..j - n];
      }
    }
    forall item | item in r.files ensures item.dest in Plan(source, sync, run, table, rows, days) {
      PlanLookup(source, sync, run, table, rows, days, item.dest);
    }
  }

  /** The hazard is real.  The first run of a source, over any days and rows, has
      committed and been finalised except that the directory with its unlinked journal
      was not synchronised; since then `keep` attempts have failed before their first
      journal.  Everything is consistent and the next prune drops the decision. */
  lemma PruneHazardExample(source: Source, sync: Dest, run: RunId, days: seq<Date>, rows: map<Date, seq<Row>>,
                           newer: seq<RunRow>, used: set<RunId>)
    requires sync.SyncFile? && sync.run == run && DistinctDays(days) && run in used
    requires forall i :: 0 <= i < |newer| ==> newer[i].run != run && newer[i].status == Failed && newer[i].run in used
    requires forall i, j :: 0 <= i < j < |newer| ==> newer[i].run != newer[j].run
    ensures var table := ReplaceDays(map[], days, rows);
      var want := Committed(map[], Plan(source, sync, run, table, rows, days));
      var t := Unsynced(want, FullRecord(source, sync, run, days, false));
      var runs := map[source := [RunRow(run, Success)] + newer];
      && Consistent(t, runs, map[source := table], {run}, used, want)
      && Journal !in At(t, Runtime).now
      && !PruneSafe(t, runs, source, |newer|)
  {
    var table := ReplaceDays(map[], days, rows);
    var want := Committed(map[], Plan(source, sync, run, table, rows, days));
    var r := FullRecord(source, sync, run, days, false);
    FirstRun(source, sync, run, days, rows);
    UnsyncedInv(want, r, {run});
    HazardRows(Unsynced(want, r), map[source := [RunRow(run, Success)] + newer], source, r, newer, used);
  }

  /** What the first run of a source publishes, and its journal. */
  lemma FirstRun(source: Source, sync: Dest, run: RunId, days: seq<Date>, rows: map<Date, seq<Row>>)
    requires sync.SyncFile? && sync.run == run && DistinctDays(days)
    ensures var table := ReplaceDays(map[], days, rows);
      var want := Committed(map[], Plan(source, sync, run, table, rows, days));
      var r := FullRecord(source, sync, run, days, false);
      && Matches(map[source := table], want, {run}) && Complete(map[source := table], want, {run})
      && RecordOk(r, {run}, want) && CreatedEvidence(r) && (forall item :: item in r.files ==> item.dest in want)
      && forall d :: d in want && want[d].EvidenceText? ==> want[d].run == run
  {
    var table := ReplaceDays(map[], days, rows);
    FullRecordLists(source, sync, run, days, false, table, rows);
    FirstMatches(source, sync, run, days, rows);
    FirstEvidence(source, sync, run, table, rows, days);
  }

  lemma FirstMatches(source: Source, sync: Dest, run: RunId, days: seq<Date>, rows: map<Date, seq<Row>>)
    requires sync.SyncFile? && sync.run == run
    ensures var table := ReplaceDays(map[], days, rows);
      var want := Committed(map[], Plan(source, sync, run, table, rows, days));
      Matches(map[source := table], want, {run}) && Complete(map[source := table], want, {run})
  {
    var none: Facts := map[];
    CommitMatches(none, map[], {}, source, sync, run, days, rows);
    CommitComplete(none, map[], {}, source, sync, run, days, rows);
    assert TableOf(none, source) == map[] && {} + {run} == {run};
    assert none[source := ReplaceDays(map[], days, rows)] == map[source := ReplaceDays(map[], days, rows)];
  }

  lemma FirstEvidence(source: Source, sync: Dest, run: RunId, table: Table, rows: map<Date, seq<Row>>, days: seq<Date>)
    requires sync.SyncFile? && sync.run == run
    ensures var want := Committed(map[], Plan(source, sync, run, table, rows, days));
      && (forall d :: d in want && want[d].EvidenceText? ==> want[d].run == run)
      && sync in want && want[sync].EvidenceText? && want[sync].success
  {
    forall d {
      PlanLookup(source, sync, run, table, rows, days, d);
    }
  }

  lemma HazardRows(t: Tree, runs: Runs, source: Source, r: Record, newer: seq<RunRow>, used: set<RunId>)
    requires At(t, Runtime).Visible() == {map[], map[Journal := JournalText(r)]}
    requires runs == map[source := [RunRow(r.run, Success)] + newer] && CreatedEvidence(r) && r.run in used
    requires forall i :: 0 <= i < |newer| ==> newer[i].run != r.run && newer[i].status == Failed && newer[i].run in used
    requires forall i, j :: 0 <= i < j < |newer| ==> newer[i].run != newer[j].run
    ensures RowsOk(t, runs, {r.run}, used) && !PruneSafe(t, runs, source, |newer|)
  {
    assert forall s :: s != source ==> RowsFor(runs, s) == [];
    assert RowsFor(runs, source)[0] == RunRow(r.run, Success);
    assert UniqueRuns(runs);
    SurvivingRows(t, runs, source, 0, |newer|, r, {r.run}, used);
  }

  /** Rows whose newest success of a source is `r`, which survives on the disk, and is
      about to be pruned. */
  lemma SurvivingRows(t: Tree, runs: Runs, source: Source, i: nat, keep: nat, r: Record, decided: set<RunId>,
                      used: set<RunId>)
    requires At(t, Runtime).Visible() == {map[], map[Journal := JournalText(r)]} && CreatedEvidence(r)
    requires UniqueRuns(runs) && decided <= used && r.run in decided
    requires forall s, j :: 0 <= j < |RowsFor(runs, s)| ==>
      RowsFor(runs, s)[j].run in used && (RowsFor(runs, s)[j].status == Success ==> RowsFor(runs, s)[j].run in decided)
    requires i + keep < |RowsFor(runs, source)| && RowsFor(runs, source)[i] == RunRow(r.run, Success)
    requires forall j :: i < j < |RowsFor(runs, source)| ==> RowsFor(runs, source)[j].status != Success
    ensures RowsOk(t, runs, decided, used) && !PruneSafe(t, runs, source, keep)
  {
    var lost: Listing := map[Journal := JournalText(r)];
    assert lost in At(t, Runtime).Visible() && Entry(lost) == r;
    assert RunRow(r.run, Success) in runs[source];
    assert forall s, j :: 0 <= j < |RowsFor(runs, s)| && RowsFor(runs, s)[j].run == r.run ==> s == source && j == i;
    assert JournalOk(r, runs);
  }

  // ---- Every other state of `sync_runs` is unsafe on some disk ----

  function EmptyContent(d: Dest): Content {
    match d
    case DayFile(_, _) => DayText([])
    case ReportFile(s, n) => ReportText(s, n, map[])
    case SyncFile(run, _, _) => EvidenceText(run, true, [])
  }

  /** What runs over no days leave: their evidence, and the reports of their sources. */
  function EmptyArchive(runs: set<RunId>, sources: set<Source>): Archive {
    map d | d in (set run | run in runs :: SyncFile(run, 2026, 1))
                 + (set s, n | s in sources && n in ReportNames(s) :: ReportFile(s, n)) :: EmptyContent(d)
  }

  lemma EmptyArchiveOk(runs: set<RunId>, sources: set<Source>)
    ensures Matches(Empty(sources), EmptyArchive(runs, sources), runs)
    ensures Complete(Empty(sources), EmptyArchive(runs, sources), runs)
  {
    var facts := Empty(sources);
    var want := EmptyArchive(runs, sources);
    forall d | d in want ensures MatchesAt(facts, want, runs, d) {
    }
    forall run | run in runs ensures HasEvidence(want, run) {
      assert SyncFile(run, 2026, 1) in want;
    }
  }

  function AllRuns(runs: Runs): set<RunId> {
    set s, row | s in runs && row in runs[s] :: row.run
  }

  lemma {:induction false} LastSuccess(rows: seq<RunRow>) returns (i: nat)
    requires exists j :: 0 <= j < |rows| && rows[j].status == Success
    ensures i < |rows| && rows[i].status == Success && forall j :: i < j < |rows| ==> rows[j].status != Success
  {
    i := |rows| - 1;
    if rows[i].status != Success {
      var j :| 0 <= j < |rows| && rows[j].status == Success;
      assert rows[..i][j] == rows[j];
      i := LastSuccess(rows[..i]);
    }
  }

  function Empty(sources: set<Source>): Facts {
    map s | s in sources :: map[]
  }

  /** The archive of earlier runs over no days, and `run` after them. */
  lemma EmptyRunMatches(source: Source, run: RunId, before: set<RunId>, sources: set<Source>, days: seq<Date>,
                        rows: map<Date, seq<Row>>)
    requires |days| == 0
    ensures var plan := Plan(source, SyncFile(run, 2026, 1), run, map[], rows, days);
            var facts, want := Empty(sources + {source}), Committed(EmptyArchive(before, sources), plan);
            Matches(facts, want, before + {run}) && Complete(facts, want, before + {run})
  {
    var sync := SyncFile(run, 2026, 1);
    EmptyArchiveOk(before, sources);
    CommitMatches(Empty(sources), EmptyArchive(before, sources), before, source, sync, run, days, rows);
    CommitComplete(Empty(sources), EmptyArchive(before, sources), before, source, sync, run, days, rows);
    EmptyTables(source, sources, days, rows);
  }

  lemma EmptyTables(source: Source, sources: set<Source>, days: seq<Date>, rows: map<Date, seq<Row>>)
    requires |days| == 0
    ensures ReplaceDays(TableOf(Empty(sources), source), days, rows) == map[]
    ensures Empty(sources)[source := map[]] == Empty(sources + {source})
  {
  }

  lemma EmptyRunRecord(source: Source, run: RunId, older: Archive, decided: set<RunId>, existed: bool,
                       days: seq<Date>, rows: map<Date, seq<Row>>)
    requires |days| == 0
    ensures var sync := SyncFile(run, 2026, 1);
      var want := Committed(older, Plan(source, sync, run, map[], rows, days));
      var r := FullRecord(source, sync, run, days, existed);
      RecordOk(r, decided, want) && CreatedEvidence(r) && forall item :: item in r.files ==> item.dest in want
  {
    var sync := SyncFile(run, 2026, 1);
    FullRecordLists(source, sync, run, days, existed, map[], rows);
    PlanLookup(source, sync, run, map[], rows, days, sync);
  }

  lemma EvidenceHonest(facts: Facts, want: Archive, decided: set<RunId>)
    requires Matches(facts, want, decided)
    ensures forall d :: d in want && want[d].EvidenceText? ==> want[d].run in decided
  {
    forall d | d in want && want[d].EvidenceText? ensures want[d].run in decided {
      assert MatchesAt(facts, want, decided, d);
    }
  }

  lemma WithRun(decided: set<RunId>, run: RunId)
    requires run in decided
    ensures decided - {run} + {run} == decided
  {
  }

  function EmptyRunArchive(source: Source, run: RunId, decided: set<RunId>, sources: set<Source>,
                           days: seq<Date>, rows: map<Date, seq<Row>>): Archive {
    Committed(EmptyArchive(decided - {run}, sources), Plan(source, SyncFile(run, 2026, 1), run, map[], rows, days))
  }

  lemma UnsyncedEmptyRun(source: Source, run: RunId, decided: set<RunId>, sources: set<Source>,
                         days: seq<Date>, rows: map<Date, seq<Row>>)
    requires run in decided && |days| == 0
    ensures var r := FullRecord(source, SyncFile(run, 2026, 1), run, days, source in sources);
      var want, facts := EmptyRunArchive(source, run, decided, sources, days, rows), Empty(sources + {source});
      && Inv(Unsynced(want, r), decided, want)
      && At(Unsynced(want, r), Runtime).Visible() == {map[], map[Journal := JournalText(r)]}
      && CreatedEvidence(r) && Matches(facts, want, decided) && Complete(facts, want, decided)
  {
    var r := FullRecord(source, SyncFile(run, 2026, 1), run, days, source in sources);
    var want := EmptyRunArchive(source, run, decided, sources, days, rows);
    EmptyRunMatches(source, run, decided - {run}, sources, days, rows);
    EmptyRunRecord(source, run, EmptyArchive(decided - {run}, sources), decided, source in sources, days, rows);
    WithRun(decided, run);
    EvidenceHonest(Empty(sources + {source}), want, decided);
    UnsyncedInv(want, r, decided);
  }

  lemma RowsTold(runs: Runs)
    ensures SuccessRuns(runs) <= AllRuns(runs)
    ensures forall s, j :: 0 <= j < |RowsFor(runs, s)| ==>
      RowsFor(runs, s)[j].run in AllRuns(runs)
      && (RowsFor(runs, s)[j].status == Success ==> RowsFor(runs, s)[j].run in SuccessRuns(runs))
  {
    forall s, j | 0 <= j < |RowsFor(runs, s)|
      ensures RowsFor(runs, s)[j].run in AllRuns(runs)
      ensures RowsFor(runs, s)[j].status == Success ==> RowsFor(runs, s)[j].run in SuccessRuns(runs)
    {
      assert RowsFor(runs, s)[j] in runs[s];
    }
  }

  lemma UnsafeSomewhere(runs: Runs, source: Source, keep: nat)
    requires UniqueRuns(runs) && !NewestKept(runs, source, keep)
    ensures exists t, facts, decided, used, want ::
      && Consistent(t, runs, facts, decided, used, want)
      && Journal !in At(t, Runtime).now && !PruneSafe(t, runs, source, keep)
  {
    var t, facts, want := UnsafeDisk(runs, source, keep, [], map[]);
    assert Consistent(t, runs, facts, SuccessRuns(runs), AllRuns(runs), want);
  }

  /** A disk on which pruning these rows is unsafe. */
  lemma UnsafeDisk(runs: Runs, source: Source, keep: nat, days: seq<Date>, rows: map<Date, seq<Row>>)
    returns (t: Tree, facts: Facts, want: Archive)
    requires UniqueRuns(runs) && !NewestKept(runs, source, keep) && |days| == 0
    ensures Consistent(t, runs, facts, SuccessRuns(runs), AllRuns(runs), want)
    ensures Journal !in At(t, Runtime).now && !PruneSafe(t, runs, source, keep)
  {
    var i := LastSuccess(RowsFor(runs, source));
    var run, decided := RowsFor(runs, source)[i].run, SuccessRuns(runs);
    assert RowsFor(runs, source)[i] in runs[source];
    // the sources that another run has committed
    var sources := set s, row | s in runs && row in runs[s] && row.status == Success && row.run != run :: s;
    var r := FullRecord(source, SyncFile(run, 2026, 1), run, days, source in sources);
    want, facts := EmptyRunArchive(source, run, decided, sources, days, rows), Empty(sources + {source});
    t := Unsynced(want, r);
    UnsyncedEmptyRun(source, run, decided, sources, days, rows);
    RowsTold(runs);
    SurvivingRows(t, runs, source, i, keep, r, decided, AllRuns(runs));
  }

  /** What can be read from `sync_runs` before the call decides it: pruning is safe on
      every disk consistent with these rows exactly when the newest success is kept. */
  lemma NewestKeptExactly(runs: Runs, source: Source, keep: nat)
    requires UniqueRuns(runs)
    ensures NewestKept(runs, source, keep) <==>
      forall t, facts, decided, used, want ::
        Consistent(t, runs, facts, decided, used, want) ==> PruneSafe(t, runs, source, keep)
  {
    if NewestKept(runs, source, keep) {
      forall t, facts, decided, used, want | Consistent(t, runs, facts, decided, used, want)
        ensures PruneSafe(t, runs, source, keep)
      {
        NewestKeptIsSafe(t, runs, source, keep, decided, used);
      }
    } else {
      UnsafeSomewhere(runs, source, keep);
    }
  }

  class Collector {
    const disk: Disk
    const keep: nat  // run_history_limit - 1
    var runs: Runs
    var facts: Facts
    ghost var decided: set<RunId>  // every run that ever committed
    var used: set<RunId>           // every run id ever issued
    ghost var want: Archive        // the archive those commits call for

    ghost predicate Valid()
      reads this, disk`folders
    {
      Consistent(disk.folders, runs, facts, decided, used, want)
    }

    /** An empty archive and empty tables. */
    constructor (limit: nat)
      requires 10 <= limit
      ensures Valid() && fresh(disk) && keep == limit - 1 && want == map[] && used == {} && NoPending()
    {
      disk := new Disk();
      keep := limit - 1;
      runs, facts := map[], map[];
      decided, used, want := {}, {}, map[];
      new;
      assert forall f :: At(disk.folders, f).Visible() == {map[]};
    }

    predicate NoPending()
      reads disk`folders
    {
      Journal !in At(disk.folders, Runtime).now
    }

    /** `Publication.stage`, in the collector's terms. */
    method Stage(pub: Publication, d: Dest, data: Content) returns (ok: bool)
      requires Valid() && pub.disk == disk && pub.record.run in used && pub.record.evidence == None
      requires Staging(disk.folders, pub.record, pub.staged, decided, want)
      requires d !in pub.staged && !data.EvidenceText?
      modifies pub, disk
      ensures disk.Explains(old(disk.faults), ok)
      ensures Valid() && pub.record.run == old(pub.record.run)
      ensures OnlyRun(old(disk.folders), disk.folders, pub.record.run)
      ensures ok ==>
        && pub.staged == old(pub.staged)[d := data] && pub.record.evidence == None && pub.record.files != []
        && Staging(disk.folders, pub.record, pub.staged, decided, want)
    {
      assert pub.record.(evidence := None) == pub.record;
      ghost var was := disk.folders;
      ok := pub.Stage(d, data, decided, want);
      RowsOkStep(was, disk.folders, runs, decided, used, pub.record.run);
    }

    /** The run of `pub` is staging, and since `was` has shown no journal but its own. */
    ghost predicate Underway(pub: Publication, was: Tree)
      reads this, disk`folders, pub
    {
      && Valid() && pub.disk == disk && pub.record.run in used && pub.record.evidence == None
      && OnlyRun(was, disk.folders, pub.record.run)
      && Staging(disk.folders, pub.record, pub.staged, decided, want)
    }

    /** Stages the archive of each day, replacing its rows in the transaction's view. */
    method StageDays(pub: Publication, source: Source, days: seq<Date>, rows: map<Date, seq<Row>>)
      returns (ok: bool, table: Table)
      requires Underway(pub, disk.folders)
      requires pub.staged == map[] && DistinctDays(days)
      modifies pub, disk
      ensures disk.Explains(old(disk.faults), ok)
      ensures Valid() && pub.record.run == old(pub.record.run)
      ensures OnlyRun(old(disk.folders), disk.folders, pub.record.run)
      ensures ok ==>
        && table == ReplaceDays(TableOf(facts, source), days, rows)
        && pub.staged == DayPlan(source, rows, days)
        && Underway(pub, old(disk.folders))
    {
      table := TableOf(facts, source);
      ok := true;
      for i := 0 to |days|
        invariant ok && Underway(pub, old(disk.folders)) && pub.record.run == old(pub.record.run)
        invariant old(disk.faults) <= disk.faults
        invariant table == ReplaceDays(TableOf(facts, source), days[..i], rows)
        invariant pub.staged == DayPlan(source, rows, days[..i])
      {
        ReplaceDaysGrows(TableOf(facts, source), days, rows, i);
        table := ReplaceDay(table, days[i], DayRows(rows, days[i]));
        ok := StageDay(pub, source, days, rows, i, old(disk.folders));
        if !ok { return; }
      }
      assert days[..|days|] == days;
    }

    method StageDay(pub: Publication, source: Source, days: seq<Date>, rows: map<Date, seq<Row>>, i: nat,
                    ghost was: Tree)
      returns (ok: bool)
      requires Underway(pub, was)
      requires DistinctDays(days) && i < |days| && pub.staged == DayPlan(source, rows, days[..i])
      modifies pub, disk
      ensures disk.Explains(old(disk.faults), ok)
      ensures Valid() && pub.record.run == old(pub.record.run)
      ensures OnlyRun(was, disk.folders, pub.record.run)
      ensures ok ==> pub.staged == DayPlan(source, rows, days[..i + 1]) && Underway(pub, was)
    {
      DayPlanGrows(source, rows, days, i);
      ok := Stage(pub, DayFile(source, days[i]), DayText(DayRows(rows, days[i])));
      OnlyRunTwice(was, old(disk.folders), disk.folders, pub.record.run);
    }

    method StageReports(pub: Publication, source: Source, table: Table) returns (ok: bool)
      requires Underway(pub, disk.folders)
      requires forall d :: d in pub.staged ==> d.DayFile?
      modifies pub, disk
      ensures disk.Explains(old(disk.faults), ok)
      ensures Valid() && pub.record.run == old(pub.record.run)
      ensures OnlyRun(old(disk.folders), disk.folders, pub.record.run)
      ensures ok ==>
        && pub.staged == old(pub.staged) + ReportPlan(source, table, ReportNames(source))
        && Underway(pub, old(disk.folders))
    {
      var names := ReportNames(source);
      ok := true;
      for i := 0 to |names|
        invariant ok && Underway(pub, old(disk.folders)) && pub.record.run == old(pub.record.run)
        invariant old(disk.faults) <= disk.faults
        invariant pub.staged == old(pub.staged) + ReportPlan(source, table, names[..i])
      {
        ok := StageReport(pub, source, table, names, i, old(pub.staged), old(disk.folders));
        if !ok { return; }
      }
      assert names[..|names|] == names;
    }

    method StageReport(pub: Publication, source: Source, table: Table, names: seq<ReportName>, i: nat,
                       ghost base: Archive, ghost was: Tree)
      returns (ok: bool)
      requires Underway(pub, was)
      requires names == ReportNames(source) && i < |names| && forall d :: d in base ==> d.DayFile?
      requires pub.staged == base + ReportPlan(source, table, names[..i])
      modifies pub, disk
      ensures disk.Explains(old(disk.faults), ok)
      ensures Valid() && pub.record.run == old(pub.record.run)
      ensures OnlyRun(was, disk.folders, pub.record.run)
      ensures ok ==> pub.staged == base + ReportPlan(source, table, names[..i + 1]) && Underway(pub, was)
    {
      ReportNamesDistinct(source, i);
      ReportPlanGrows(base, source, table, names, i);
      ok := Stage(pub, ReportFile(source, names[i]), ReportText(source, names[i], table));
      OnlyRunTwice(was, old(disk.folders), disk.folders, pub.record.run);
    }

    /** `Publication.evidence`: the prepared evidence is staged last. */
    method StageEvidence(pub: Publication, sync: Dest, files: seq<Dest>) returns (ok: bool)
      requires Valid() && pub.disk == disk && pub.record.run in used && pub.record.evidence == None
      requires Staging(disk.folders, pub.record, pub.staged, decided, want)
      requires sync !in pub.staged
      modifies pub, disk
      ensures disk.Explains(old(disk.faults), ok)
      ensures Valid() && pub.record.run == old(pub.record.run)
      ensures OnlyRun(old(disk.folders), disk.folders, pub.record.run)
      ensures ok ==>
        && pub.staged == old(pub.staged)[sync := EvidenceText(pub.record.run, false, files)]
        && pub.record.files != []
        && Staging(disk.folders, pub.record, pub.staged, decided, want)
    {
      ghost var was := disk.folders;
      pub.record := pub.record.(evidence := Some(sync));
      assert pub.record.(evidence := None) == old(pub.record);
      ok := pub.Stage(sync, EvidenceText(pub.record.run, false, files), decided, want);
      RowsOkStep(was, disk.folders, runs, decided, used, pub.record.run);
    }

    method Decide(run: RunId, source: Source, table: Table, ghost staged: Archive)
      requires Consistent(disk.folders, AfterUpdate(runs, source, run, Success), facts[source := table],
                          decided + {run}, used, Committed(want, staged))
      modifies this
      ensures Valid() && used == old(used) && decided == old(decided) + {run}
      ensures runs == AfterUpdate(old(runs), source, run, Success)
      ensures facts == old(facts)[source := table] && want == Committed(old(want), staged)
    {
      facts := facts[source := table];
      runs := AfterUpdate(runs, source, run, Success);
      decided := decided + {run};
      want := Committed(want, staged);
    }

    /** The SQL commit: tables and decision row together, or neither.  The client
        may be told of a failure either way. */
    method Commit(pub: Publication, source: Source, sync: Dest, table: Table,
                  ghost rows: map<Date, seq<Row>>, ghost days: seq<Date>)
      returns (ok: bool)
      requires Valid() && pub.disk == disk && pub.record.run in used && pub.record.run !in decided
      requires sync.SyncFile? && sync.run == pub.record.run
      requires table == ReplaceDays(TableOf(facts, source), days, rows)
      requires pub.staged == Plan(source, sync, pub.record.run, table, rows, days)
      requires pub.record.files != [] && Journalled(disk.folders, pub.record) && StagedOk(pub.record, pub.staged)
      requires PublishedTo(disk.folders, pub.record, pub.staged, |pub.record.files|)
      requires LastRow(runs, source, pub.record.run)
      modifies this, disk`faults
      ensures disk.Explains(old(disk.faults), ok)
      ensures Valid() && used == old(used)
      ensures ok ==> pub.record.run in decided
      ensures pub.record.run in decided ==> pub.record.run in SuccessRuns(runs)
      ensures runs == if pub.record.run in decided then AfterUpdate(old(runs), source, pub.record.run, Success)
                      else old(runs)
      ensures RunEffect(pub.record.run, source, sync, days, rows,
                        old(decided), old(facts), old(want), decided, facts, want)
    {
      var committed := disk.Try();
      var answered := disk.Try();
      if committed {
        CommitAll(pub, source, sync, table, rows, days);
      }
      ok := committed && answered;
    }

    method CommitAll(pub: Publication, source: Source, sync: Dest, table: Table,
                     ghost rows: map<Date, seq<Row>>, ghost days: seq<Date>)
      requires Valid() && pub.disk == disk && pub.record.run in used && pub.record.run !in decided
      requires sync.SyncFile? && sync.run == pub.record.run
      requires table == ReplaceDays(TableOf(facts, source), days, rows)
      requires pub.staged == Plan(source, sync, pub.record.run, table, rows, days)
      requires pub.record.files != [] && Journalled(disk.folders, pub.record) && StagedOk(pub.record, pub.staged)
      requires PublishedTo(disk.folders, pub.record, pub.staged, |pub.record.files|)
      requires LastRow(runs, source, pub.record.run)
      modifies this
      ensures Valid() && used == old(used)
      ensures pub.record.run in decided && pub.record.run in SuccessRuns(runs)
      ensures runs == AfterUpdate(old(runs), source, pub.record.run, Success)
      ensures RunEffect(pub.record.run, source, sync, days, rows,
                        old(decided), old(facts), old(want), decided, facts, want)
    {
      CommitConsistent(disk.folders, runs, facts, decided, used, want, pub.record, source, sync, rows, days);
      assert HasRow(runs, source, pub.record.run);
      SuccessAfterUpdate(runs, source, pub.record.run);
      Decide(pub.record.run, source, table, pub.staged);
    }

    /** The `try` block of `collect`, from view verification to the commit. */
    method Attempt(source: Source, run: RunId, sync: Dest, days: seq<Date>, rows: map<Date, seq<Row>>)
      returns (ok: bool)
      requires Valid() && NoPending() && run in used && run !in decided && LastRow(runs, source, run)
      requires sync.SyncFile? && sync.run == run && DistinctDays(days)
      modifies this, disk
      ensures disk.Explains(old(disk.faults), ok)
      ensures Valid() && used == old(used)
      ensures OnlyRun(old(disk.folders), disk.folders, run)
      ensures ok ==> run in decided
      ensures run in decided ==> run in SuccessRuns(runs) && !NoPending()
      ensures runs == if run in decided then AfterUpdate(old(runs), source, run, Success) else old(runs)
      ensures RunEffect(run, source, sync, days, rows, old(decided), old(facts), old(want), decided, facts, want)
    {
      var pub := new Publication(disk, run);
      ok := disk.Try();  // verify_view, select_window, the day queries and BEGIN
      if !ok { return; }
      var table;
      ok, table := StageAll(pub, source, sync, days, rows);
      if !ok { return; }
      ok := PublishAll(pub);
      if !ok { return; }
      ok := disk.Try();  // the updates of sync_state and sync_runs inside the transaction
      if !ok { return; }
      ok := Commit(pub, source, sync, table, rows, days);
    }

    /** Everything the run publishes, waiting beside its destinations. */
    method StageAll(pub: Publication, source: Source, sync: Dest, days: seq<Date>, rows: map<Date, seq<Row>>)
      returns (ok: bool, table: Table)
      requires Valid() && pub.disk == disk && pub.record.run in used && pub.record.evidence == None
      requires Staging(disk.folders, pub.record, pub.staged, decided, want)
      requires pub.staged == map[] && DistinctDays(days) && sync.SyncFile?
      modifies pub, disk
      ensures disk.Explains(old(disk.faults), ok)
      ensures Valid() && pub.record.run == old(pub.record.run)
      ensures OnlyRun(old(disk.folders), disk.folders, pub.record.run)
      ensures ok ==>
        && table == ReplaceDays(TableOf(facts, source), days, rows)
        && pub.staged == Plan(source, sync, pub.record.run, table, rows, days) && pub.record.files != []
        && Staging(disk.folders, pub.record, pub.staged, decided, want)
    {
      ok, table := StageDays(pub, source, days, rows);
      if !ok { return; }
      DayPlanLookup(source, rows, days);
      ok := StageReports(pub, source, table);
      if !ok { return; }
      ReportPlanLookup(source, table, ReportNames(source));
      ok := StageEvidence(pub, sync, Files(source, days));
    }

    method PublishAll(pub: Publication) returns (ok: bool)
      requires Valid() && pub.disk == disk && pub.record.run in used
      requires Staging(disk.folders, pub.record, pub.staged, decided, want)
      modifies disk
      ensures disk.Explains(old(disk.faults), ok)
      ensures Valid() && OnlyRun(old(disk.folders), disk.folders, pub.record.run)
      ensures At(disk.folders, Runtime) == At(old(disk.folders), Runtime)
      ensures ok ==> PublishedTo(disk.folders, pub.record, pub.staged, |pub.record.files|)
    {
      ok := pub.Publish(decided, want);
      RowsOkStep(old(disk.folders), disk.folders, runs, decided, used, pub.record.run);
    }

    method RecoverNow() returns (ok: bool)
      requires Valid()
      modifies disk
      ensures disk.Explains(old(disk.faults), ok)
      ensures Valid()
      ensures OnlyRun(old(disk.folders), disk.folders, "")
      ensures forall l :: l in At(disk.folders, Runtime).Visible() && Journal in l ==>
        l in At(old(disk.folders), Runtime).Visible()
      ensures ok ==> NoPending() && Pristine(disk.folders, want)
      ensures ok && !old(NoPending()) ==> NoVisibleJournal(disk.folders)
      ensures !ok ==> !NoVisibleJournal(disk.folders)
    {
      DecisionsAgree(disk.folders, runs, decided, used);
      ok := Recover(disk, SuccessRuns(runs), decided, want);
    }

    /** Keeps the newest rows of the source; everything stays consistent exactly when
        that is safe. */
    method Prune(source: Source) returns (ok: bool)
      requires Valid()
      modifies `runs, disk`faults
      ensures disk.Explains(old(disk.faults), ok)
      ensures Valid() <==> (ok ==> PruneSafe(disk.folders, old(runs), source, keep))
      ensures runs == if ok then AfterPrune(old(runs), source, keep) else old(runs)
    {
      ok := disk.Try();
      if ok {
        PruneSafeExactly(disk.folders, runs, source, keep, decided, used);
        runs := AfterPrune(runs, source, keep);
      }
    }

    method InsertRunning(source: Source, run: RunId) returns (ok: bool)
      requires run !in used
      modifies `runs, `used, disk`faults
      ensures disk.Explains(old(disk.faults), ok)
      ensures old(Valid()) ==> Valid() && (ok ==> LastRow(runs, source, run))
      ensures used == old(used) + {run}
      ensures runs == if ok then AfterInsert(old(runs), source, run) else old(runs)
    {
      if Valid() {
        InsertRowsOk(disk.folders, runs, source, run, decided, used);
      }
      used := used + {run};
      ok := disk.Try();
      if ok {
        runs := AfterInsert(runs, source, run);
      }
    }

    /** One run of `collect`.  It starts with no journal pending, and wherever it
        stops, its effect is all or nothing and recovery can finish or undo it. */
    method Collect(source: Source, run: RunId, sync: Dest, days: seq<Date>, rows: map<Date, seq<Row>>)
      returns (o: Outcome)
      requires Valid() && NoPending() && run !in used
      requires sync.SyncFile? && sync.run == run && DistinctDays(days)
      requires PruneSafe(disk.folders, runs, source, keep)
      modifies this, disk
      ensures Valid() && used == old(used) + {run}
      ensures OnlyRun(old(disk.folders), disk.folders, run)
      ensures forall s :: s != source ==> RowsFor(runs, s) == RowsFor(old(runs), s)
      ensures RunEffect(run, source, sync, days, rows, old(decided), old(facts), old(want), decided, facts, want)
      ensures RowsEffect(old(runs), runs, source, run, keep, o, run in decided)
      // a run is done unless a step fails, or the state is that of another account or view
      ensures disk.Explains(old(disk.faults), o == Done || o == Refused(StateIdentityMismatch))
      // done means committed and finished: a committed run that is not reported as done
      // leaves its journal to the next recovery
      ensures o == Done <==> run in decided && NoVisibleJournal(disk.folders)
      ensures o == Done ==> NoPending() && Pristine(disk.folders, want)
      ensures o == Refused(CollectionFailed) ==> run !in decided && NoPending() && Pristine(disk.folders, want)
      ensures o == Refused(FinalizationPending) ==> run in decided
      ensures o == Refused(StateIdentityMismatch) ==> NoPending()
      // no journal is left that could come back, so the next process may prune
      ensures o == Done ==> forall s :: PruneSafe(disk.folders, runs, s, keep)
    {
      var ok;
      ok, o := Begin(source, run);
      if !ok { return; }
      o := AttemptAndFinish(source, run, sync, days, rows);
      if o == Done {
        forall s ensures PruneSafe(disk.folders, runs, s, keep) {
          NoJournalLeftIsPruneSafe(disk.folders, runs, s, keep);
        }
      }
    }

    /** The `try` block, its handler and the final recovery. */
    method AttemptAndFinish(source: Source, run: RunId, sync: Dest, days: seq<Date>, rows: map<Date, seq<Row>>)
      returns (o: Outcome)
      requires Valid() && NoPending() && run in used && run !in decided && LastRow(runs, source, run)
      requires sync.SyncFile? && sync.run == run && DistinctDays(days)
      modifies this, disk
      ensures Valid() && used == old(used)
      ensures OnlyRun(old(disk.folders), disk.folders, run)
      ensures forall s :: s != source ==> RowsFor(runs, s) == RowsFor(old(runs), s)
      ensures RunEffect(run, source, sync, days, rows, old(decided), old(facts), old(want), decided, facts, want)
      ensures RowsDecided(old(runs), runs, source, run, o, run in decided)
      ensures disk.Explains(old(disk.faults), o == Done)
      ensures o == Done <==> run in decided && NoVisibleJournal(disk.folders)
      ensures o == Done || o == Refused(CollectionFailed) ==> NoPending() && Pristine(disk.folders, want)
      ensures o == Refused(CollectionFailed) ==> run !in decided
      ensures o == Refused(FinalizationPending) ==> run in decided
      ensures o != Refused(StateIdentityMismatch)
    {
      var ok := Attempt(source, run, sync, days, rows);
      if !ok {
        ghost var mid := disk.folders;
        ok, o := HandleFailure(source, run);
        OnlyRunTwice(old(disk.folders), mid, disk.folders, run);
      }
      if ok {
        ghost var mid := disk.folders;
        ok := RecoverNow();
        OnlyRunTwice(old(disk.folders), mid, disk.folders, run);
        o := if ok then Done else Refused(FinalizationPending);
      }
      DecidedElsewhere(old(runs), runs, source, run, o, run in decided);
    }

    /** The `except` block: reconnects, asks for the decision, and recovers.
        `committed` is set when the run goes on as a success after all. */
    method HandleFailure(source: Source, run: RunId) returns (committed: bool, o: Outcome)
      requires Valid() && run in used && (run in decided ==> run in SuccessRuns(runs) && !NoPending())
      modifies disk, `runs
      ensures Valid()
      // unless another step fails, the run is finished or marked as failed
      ensures disk.Explains(old(disk.faults), committed || o == Refused(CollectionFailed))
      ensures OnlyRun(old(disk.folders), disk.folders, run)
      ensures committed ==> run in decided && NoVisibleJournal(disk.folders) && Pristine(disk.folders, want)
      ensures o in {Refused(DatabaseRecoveryRequired), Refused(CollectionFailed), Aborted}
      ensures run in decided && !committed ==> !NoVisibleJournal(disk.folders)
      // marked as failed only if undecided, and then only after recovery has undone it
      ensures runs == old(runs)
        || (run !in decided && runs == AfterUpdate(old(runs), source, run, Failed)
            && NoPending() && Pristine(disk.folders, want))
      ensures o == Refused(CollectionFailed) ==> run !in decided && runs == AfterUpdate(old(runs), source, run, Failed)
      ensures o == Refused(CollectionFailed) ==> NoPending() && Pristine(disk.folders, want)
    {
      committed := false;
      var ok := disk.Try();  // rollback, reconnection and GET_LOCK
      if !ok { return committed, Refused(DatabaseRecoveryRequired); }
      ok := disk.Try();  // SELECT status
      if !ok { return committed, Aborted; }
      DecisionsAgree(disk.folders, runs, decided, used);
      committed := run in SuccessRuns(runs);
      ok := RecoverNow();
      o := Aborted;
      if !ok { return false, Aborted; }
      if !committed {
        o := MarkFailed(source, run);
      }
    }

    /** Prunes old rows and inserts the new one. */
    method Begin(source: Source, run: RunId) returns (ok: bool, o: Outcome)
      requires Valid() && run !in used
      modifies `runs, `used, disk`faults
      ensures disk.Explains(old(disk.faults), ok || o == Refused(StateIdentityMismatch))
      ensures PruneSafe(disk.folders, old(runs), source, keep) ==> Valid() && (ok ==> LastRow(runs, source, run))
      ensures used == old(used) + {run}
      ensures forall s :: s != source ==> RowsFor(runs, s) == RowsFor(old(runs), s)
      ensures ok ==> runs == AfterInsert(AfterPrune(old(runs), source, keep), source, run)
      ensures !ok ==> runs == old(runs) || runs == AfterPrune(old(runs), source, keep)
      ensures o == Aborted || (o == Refused(StateIdentityMismatch) && (!ok ==> runs == old(runs)))
    {
      var matches: bool := *;  // the identity of the state
      o := if matches then Aborted else Refused(StateIdentityMismatch);
      ok := matches;
      if ok {
        ok := disk.Try();  // acquire_state and the attempt time
      }
      if ok {
        ok := Prune(source);
      }
      if ok {
        ok := InsertRunning(source, run);
      } else {
        InsertRowsOk(disk.folders, runs, source, run, decided, used);
        used := used + {run};
      }
    }

    /** A run that recovery has undone is reported and stays undecided. */
    method MarkFailed(source: Source, run: RunId) returns (o: Outcome)
      requires Valid() && run in used && run !in decided
      modifies `runs, disk`faults
      ensures Valid() && disk.Explains(old(disk.faults), o != Aborted)
      ensures runs == old(runs) || runs == AfterUpdate(old(runs), source, run, Failed)
      ensures o == Aborted || (o == Refused(CollectionFailed) && runs == AfterUpdate(old(runs), source, run, Failed))
    {
      var ok := disk.Try();
      if ok {
        UpdateRowsOk(disk.folders, runs, source, run, Failed, decided, used);
        runs := AfterUpdate(runs, source, run, Failed);
      }
      var reported := disk.Try();  // the error code in `sync_state`
      o := if ok && reported then Refused(CollectionFailed) else Aborted;
    }

    /** Interrupted attempts are marked only after recovery has read the rows. */
    method MarkInterrupted() returns (ok: bool)
      requires Valid()
      modifies `runs, disk`faults
      ensures disk.Explains(old(disk.faults), ok)
      ensures Valid()
      ensures runs == if ok then AfterInterrupt(old(runs)) else old(runs)
    {
      ok := disk.Try();
      if ok {
        InterruptRowsOk(disk.folders, runs, decided, used);
        runs := AfterInterrupt(runs);
      }
    }

    /** One process: recovery, marking, then each source in turn, stopping when a
        failure leaves a journal pending.  The exit code tells whether all succeeded. */
    method RunSources(jobs: seq<Job>) returns (exit: int, ghost started: bool, ghost outcomes: seq<Outcome>)
      requires Valid() && JobsFresh(jobs, used)
      requires forall j :: j in jobs ==> PruneSafe(disk.folders, runs, j.source, keep)
      modifies this, disk
      ensures Valid() && old(used) <= used <= old(used) + RunsOf(jobs)
      ensures Tried(jobs, outcomes, old(decided), decided)
      // nothing before recovery and marking; then a source is left out only behind one
      // that ended the process or left a journal pending
      ensures !started ==> outcomes == [] && exit == 1
      ensures started && |outcomes| < |jobs| ==>
        outcomes != [] && (outcomes[|outcomes| - 1] == Aborted || (outcomes[|outcomes| - 1].Refused? && !NoPending()))
      ensures started ==> OnlyRunning(runs, RunsOf(jobs))
      ensures exit == 0 <==> started && |outcomes| == |jobs| && AllDone(outcomes)
      ensures exit == 0 ==> RunsOf(jobs) <= decided
      // without a failing step every source is collected, unless its state belongs elsewhere
      ensures disk.Explains(old(disk.faults), started && |outcomes| == |jobs| && NoneFailed(outcomes))
    {
      exit, started, outcomes := 1, false, [];
      var ok := Start(jobs);
      if ok {
        var failed;
        started := true;
        failed, outcomes := CollectAll(jobs);
        exit := if failed then 1 else 0;
        if !failed {
          AllTried(jobs, outcomes, old(decided), decided);
        }
      }
    }

    /** The loop over the sources; `failed` when it is left early, too. */
    method CollectAll(jobs: seq<Job>) returns (failed: bool, ghost outcomes: seq<Outcome>)
      requires Ready(jobs, 0)
      modifies this, disk
      ensures Valid() && OnlyRunning(runs, RunsOf(jobs))
      ensures Counted(jobs, outcomes, failed, old(decided), decided, old(used), used)
      ensures |outcomes| < |jobs| ==> failed && outcomes != []
      ensures |outcomes| < |jobs| ==>
        outcomes[|outcomes| - 1] == Aborted || (outcomes[|outcomes| - 1].Refused? && !NoPending())
      ensures disk.Explains(old(disk.faults), |outcomes| == |jobs| && NoneFailed(outcomes))
    {
      failed, outcomes := false, [];
      for i := 0 to |jobs|
        invariant Ready(jobs, i) && |outcomes| == i
        invariant Counted(jobs, outcomes, failed, old(decided), decided, old(used), used)
        invariant disk.Explains(old(disk.faults), NoneFailed(outcomes))
      {
        ghost var was, wasUsed := decided, used;
        var o := RunNext(jobs, i);
        CountedNext(jobs, outcomes, failed, o, old(decided), was, decided, old(used), wasUsed, used);
        outcomes := outcomes + [o];
        failed := failed || o != Done;
        if o == Aborted || (o.Refused? && !NoPending()) { break; }
      }
    }

    /** Between two sources of a process. */
    ghost predicate Ready(jobs: seq<Job>, i: nat)
      reads this, disk`folders
    {
      && i <= |jobs| && Valid() && NoPending()
      && JobsFresh(jobs[i..], used) && OnlyRunning(runs, RunsOf(jobs))
      && forall j :: j in jobs[i..] ==> PruneSafe(disk.folders, runs, j.source, keep)
    }

    /** Recovery, then the attempts it found interrupted are marked. */
    method Start(jobs: seq<Job>) returns (ok: bool)
      requires Valid() && JobsFresh(jobs, used)
      requires forall j :: j in jobs ==> PruneSafe(disk.folders, runs, j.source, keep)
      modifies disk, `runs
      ensures disk.Explains(old(disk.faults), ok)
      ensures Valid()
      ensures ok ==> Ready(jobs, 0)
    {
      ok := disk.Try();  // locks, connection and archive binding
      if !ok { return; }
      ok := RecoverNow();
      if !ok { return; }
      ok := MarkInterrupted();
      if !ok { return; }
      forall j | j in jobs ensures PruneSafe(disk.folders, runs, j.source, keep) {
        InterruptPruneSafe(old(disk.folders), disk.folders, old(runs), runs, j.source, keep);
      }
      assert jobs[0..] == jobs;
    }

    method RunNext(jobs: seq<Job>, i: nat) returns (o: Outcome)
      requires i < |jobs| && Ready(jobs, i)
      modifies this, disk
      ensures Valid() && used == old(used) + {jobs[i].run} && jobs[i].run in RunsOf(jobs)
      ensures OnlyRunning(runs, RunsOf(jobs)) && (NoPending() ==> Ready(jobs, i + 1))
      ensures decided == old(decided) || decided == old(decided) + {jobs[i].run}
      ensures disk.Explains(old(disk.faults), o == Done || o == Refused(StateIdentityMismatch))
      ensures o == Done ==> jobs[i].run in decided
      ensures o == Done || o == Refused(StateIdentityMismatch) ==> NoPending()
    {
      assert jobs[i] in jobs[i..];
      o := Collect(jobs[i].source, jobs[i].run, jobs[i].sync, jobs[i].days, jobs[i].rows);
      JobsLeft(jobs, i, old(used));
      EffectRunning(old(runs), runs, jobs[i].source, jobs[i].run, keep, o, jobs[i].run in decided, RunsOf(jobs));
      forall j | j in jobs[i + 1..] ensures PruneSafe(disk.folders, runs, j.source, keep) {
        assert j in jobs[i..];
        PruneSafeElsewhere(old(disk.folders), disk.folders, old(runs), runs, j.source, keep, jobs[i].run,
                           old(decided), old(used));
      }
    }

    /** Any sequence of processes and power losses, up to the first process that would
        prune a decision a journal still needs: until then no committed run is undone. */
    method Lifetime(events: seq<Event>) returns (done: nat)
      requires Valid() && EventsFresh(events, used)
      modifies this, disk
      ensures Valid() && done <= |events| && old(decided) <= decided
      ensures done < |events| ==>
        events[done].Process? && exists j :: j in events[done].jobs && !PruneSafe(disk.folders, runs, j.source, keep)
    {
      for n := 0 to |events|
        invariant Valid() && EventsFresh(events[n..], used) && old(decided) <= decided
      {
        EventsLeft(events[n..], used);
        assert events[n..][1..] == events[n + 1..];
        match events[n]
        case Process(jobs) =>
          if !forall j :: j in jobs ==> PruneSafe(disk.folders, runs, j.source, keep) {
            return n;
          }
          var _, _, _ := RunSources(jobs);
        case PowerLoss(survivor) =>
          ghost var t := disk.folders;
          disk.Crash(survivor);
          CrashKeepsConsistent(t, disk.folders, runs, facts, decided, used, want);
      }
      return |events|;
    }
  }
}
