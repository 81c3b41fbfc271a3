/** What the lines of a report are, said of the rows themselves: which rows a line
    stands for, what it shows of them, what it adds up, and in which order lines come. */
module ReportMeaning {
  import opened Orders
  import opened Reports
  import opened Storage
  import opened Texts

  /** A column of a row; a missing value is NULL. */
  function Shown(r: Fact, dim: Dim): Cell {
    if dim in r.cells then Text(r.cells[dim]) else Null
  }

  /** The columns of each report. */
  function Columns(name: ReportName, r: Fact): Key {
    match name
    case Daily => [Day(r.date), Shown(r, Currency)]
    case MonthlyUsage => [Month(r.date.year, r.date.month), Shown(r, Currency)]
    case MonthlyInvoice => [Shown(r, InvoiceMonth), Shown(r, Currency)]
    case Services => [Shown(r, ServiceId), Shown(r, ServiceDescription), Shown(r, Currency)]
    case Skus =>
      [Shown(r, ServiceId), Shown(r, ServiceDescription), Shown(r, SkuId), Shown(r, SkuDescription), Shown(r, Currency)]
    case CloudRunResources =>
      [Day(r.date), Shown(r, InvoiceMonth), Shown(r, ProjectId), Shown(r, ResourceName), Shown(r, ResourceGlobalName),
       Shown(r, SkuId), Shown(r, SkuDescription), Shown(r, Currency)]
  }

  /** The report on Cloud Run reads only its rows. */
  predicate Reads(name: ReportName, r: Fact) {
    name == CloudRunResources ==> ServiceDescription in r.cells && r.cells[ServiceDescription] == "Cloud Run"
  }

  datatype Money = Gross | Credits | Net

  function Part(a: Amounts, m: Money): int {
    match m
    case Gross => a.gross
    case Credits => a.credits
    case Net => a.net
  }

  function TotalOf(rows: seq<Fact>, hit: Fact -> bool, m: Money): int {
    if rows == [] then 0
    else
      var last := rows[|rows| - 1];
      TotalOf(rows[..|rows| - 1], hit, m) + if hit(last) then Part(last.amounts, m) else 0
  }

  /** One amount, added up over the rows that show these columns. */
  function Total(rows: seq<Fact>, name: ReportName, key: Key, m: Money): int {
    TotalOf(rows, (r: Fact) => Reads(name, r) && Columns(name, r) == key, m)
  }

  lemma KeyIsColumns(name: ReportName, r: Fact)
    ensures KeyOf(r, Dims(name)) == Columns(name, r)
  {
  }

  lemma SelectedSnoc(rows: seq<Fact>, name: ReportName)
    requires rows != []
    ensures var last := rows[|rows| - 1];
            Selected(rows, name) == Selected(rows[..|rows| - 1], name) + if Reads(name, last) then [last] else []
  {
  }

  /** Rows that are not selected are no hits; of the others those with the key are. */
  ghost predicate Hits(hit: Fact -> bool, chosen: Fact -> bool, dims: seq<Dim>, key: Key) {
    forall r :: hit(r) <==> chosen(r) && KeyOf(r, dims) == key
  }

  function Chosen(rows: seq<Fact>, chosen: Fact -> bool): seq<Fact> {
    if rows == [] then []
    else Chosen(rows[..|rows| - 1], chosen) + if chosen(rows[|rows| - 1]) then [rows[|rows| - 1]] else []
  }

  lemma {:induction false} ChosenAddUp(rows: seq<Fact>, chosen: Fact -> bool, hit: Fact -> bool, dims: seq<Dim>,
                                       key: Key, m: Money)
    requires Hits(hit, chosen, dims, key)
    ensures Part(SumOf(Chosen(rows, chosen), dims, key), m) == TotalOf(rows, hit, m)
  {
    if rows != [] {
      var front, last := Chosen(rows[..|rows| - 1], chosen), rows[|rows| - 1];
      ChosenAddUp(rows[..|rows| - 1], chosen, hit, dims, key, m);
      SumOfSnoc(front, last, dims, key);
      assert front + [] == front;
      assert hit(last) <==> chosen(last) && KeyOf(last, dims) == key;
    }
  }

  lemma {:induction false} SelectedAreChosen(rows: seq<Fact>, name: ReportName, chosen: Fact -> bool)
    requires forall r :: chosen(r) <==> Reads(name, r)
    ensures Selected(rows, name) == Chosen(rows, chosen)
  {
    if rows != [] {
      SelectedAreChosen(rows[..|rows| - 1], name, chosen);
      SelectedSnoc(rows, name);
    }
  }

  lemma SumIsTotal(rows: seq<Fact>, name: ReportName, key: Key, m: Money)
    ensures Part(SumOf(Selected(rows, name), Dims(name), key), m) == Total(rows, name, key, m)
  {
    var chosen := (r: Fact) => Reads(name, r);
    var hit := (r: Fact) => Reads(name, r) && Columns(name, r) == key;
    forall r ensures hit(r) <==> chosen(r) && KeyOf(r, Dims(name)) == key {
      KeyIsColumns(name, r);
    }
    SelectedAreChosen(rows, name, chosen);
    ChosenAddUp(rows, chosen, hit, Dims(name), key, m);
  }

  lemma {:induction false} SelectedHas(rows: seq<Fact>, name: ReportName, r: Fact)
    ensures r in Selected(rows, name) <==> r in rows && Reads(name, r)
  {
    if rows != [] {
      SelectedHas(rows[..|rows| - 1], name, r);
      SelectedSnoc(rows, name);
      assert rows == rows[..|rows| - 1] + [rows[|rows| - 1]];
    }
  }

  /** The columns of a row that is read have a line, and every line is that of such a
      row; it shows the exact total of all rows that agree on the columns. */
  lemma LinesExactly(rows: seq<Fact>, name: ReportName, line: Line)
    ensures line in Report(rows, name) <==>
      && (exists r :: r in rows && Reads(name, r) && Columns(name, r) == line.key)
      && forall m :: Part(line.amounts, m) == Total(rows, name, line.key, m)
  {
    var selected, dims, key := Selected(rows, name), Dims(name), line.key;
    KeyLessIsOrder();
    var keys := Sorted(KeysOf(selected, dims), KeyLess);
    forall m ensures Part(SumOf(selected, dims, key), m) == Total(rows, name, key, m) {
      SumIsTotal(rows, name, key, m);
    }
    HasKey(rows, name, key);
    SameAmounts(line.amounts, SumOf(selected, dims, key));
    if key in keys {
      var i :| 0 <= i < |keys| && keys[i] == key;
      assert LinesFor(selected, dims, keys)[i] == Line(key, SumOf(selected, dims, key));
    }
    if line in Report(rows, name) {
      var i :| 0 <= i < |Report(rows, name)| && Report(rows, name)[i] == line;
      assert keys[i] == key;
    }
  }

  lemma HasKey(rows: seq<Fact>, name: ReportName, key: Key)
    ensures key in KeysOf(Selected(rows, name), Dims(name)) <==>
      exists r :: r in rows && Reads(name, r) && Columns(name, r) == key
  {
    forall r ensures r in Selected(rows, name) <==> r in rows && Reads(name, r) {
      SelectedHas(rows, name, r);
    }
    forall r ensures KeyOf(r, Dims(name)) == Columns(name, r) {
      KeyIsColumns(name, r);
    }
    if key in KeysOf(Selected(rows, name), Dims(name)) {
      var r :| r in Selected(rows, name) && KeyOf(r, Dims(name)) == key;
      assert r in rows && Reads(name, r) && Columns(name, r) == key;
    }
    if r :| r in rows && Reads(name, r) && Columns(name, r) == key {
      assert r in Selected(rows, name) && KeyOf(r, Dims(name)) == key;
    }
  }

  lemma SameAmounts(a: Amounts, b: Amounts)
    ensures a == b <==> forall m :: Part(a, m) == Part(b, m)
  {
    assert Part(a, Gross) == Part(b, Gross) && Part(a, Credits) == Part(b, Credits) && Part(a, Net) == Part(b, Net)
      ==> a == b;
  }

  // ---- The order of lines ----

  predicate DayBefore(a: Date, b: Date) {
    if a.year != b.year then a.year < b.year else if a.month != b.month then a.month < b.month else a.day < b.day
  }

  /** NULL comes first; texts by their characters, days and months by the calendar. */
  ghost predicate CellBefore(a: Cell, b: Cell) {
    match (a, b)
    case (Null, _) => !b.Null?
    case (Text(s), Text(t)) => TextBefore(s, t)
    case (Day(c), Day(d)) => DayBefore(c, d)
    case (Month(y, m), Month(z, n)) => y < z || (y == z && m < n)
    case _ => false
  }

  /** The first column in which two lines differ decides. */
  ghost predicate LineBefore(a: Key, b: Key) {
    exists k :: 0 <= k < |a| && k < |b| && a[..k] == b[..k] && CellBefore(a[k], b[k])
  }

  predicate SameKind(a: Cell, b: Cell) {
    a.Null? || b.Null? || (a.Text? && b.Text?) || (a.Day? && b.Day?) || (a.Month? && b.Month?)
  }

  lemma CellLessIsBefore(a: Cell, b: Cell)
    requires SameKind(a, b) && CellLess(a, b)
    ensures CellBefore(a, b)
  {
    if a.Text? && b.Text? {
      TextLessIsBefore(a.text, b.text);
    }
  }

  lemma {:induction false} KeyLessIsBefore(a: Key, b: Key)
    requires |a| == |b| && (forall k :: 0 <= k < |a| ==> SameKind(a[k], b[k])) && KeyLess(a, b)
    ensures LineBefore(a, b)
  {
    if a[0] == b[0] {
      CellLessIsTotal(a[0], a[0]);
      KeyLessIsBefore(a[1..], b[1..]);
      var k :| 0 <= k < |a[1..]| && k < |b[1..]| && a[1..][..k] == b[1..][..k] && CellBefore(a[1..][k], b[1..][k]);
      assert a[..k + 1] == [a[0]] + a[1..][..k] && b[..k + 1] == [b[0]] + b[1..][..k];
      assert CellBefore(a[k + 1], b[k + 1]);
    } else {
      CellLessIsBefore(a[0], b[0]);
      assert a[..0] == b[..0];
    }
  }

  lemma ColumnKinds(name: ReportName, r: Fact, q: Fact)
    ensures |Columns(name, r)| == |Columns(name, q)|
    ensures forall k :: 0 <= k < |Columns(name, r)| ==> SameKind(Columns(name, r)[k], Columns(name, q)[k])
  {
  }

  lemma LinesInOrder(rows: seq<Fact>, name: ReportName, i: nat, j: nat)
    requires i < j < |Report(rows, name)|
    ensures LineBefore(Report(rows, name)[i].key, Report(rows, name)[j].key)
  {
    var lines := Report(rows, name);
    KeyLessIsOrder();
    LinesExactly(rows, name, lines[i]);
    LinesExactly(rows, name, lines[j]);
    var r :| r in rows && Reads(name, r) && Columns(name, r) == lines[i].key;
    var q :| q in rows && Reads(name, q) && Columns(name, q) == lines[j].key;
    ColumnKinds(name, r, q);
    KeyLessIsBefore(lines[i].key, lines[j].key);
  }
}
