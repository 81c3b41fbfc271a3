/** Report totals: rows grouped exactly, in an order that does not depend on how
    they arrive. */
module Reports {
  import opened Orders
  import opened Storage
  import opened Texts

  datatype Cell = Null | Text(text: string) | Day(date: Date) | Month(year: int, month: int)

  datatype Dim =
    | UsageDate | UsageMonth | InvoiceMonth | Currency | ServiceId | ServiceDescription | SkuId | SkuDescription
    | ProjectId | ResourceName | ResourceGlobalName

  datatype Amounts = Amounts(gross: int, credits: int, net: int) {
    function Plus(other: Amounts): Amounts {
      Amounts(gross + other.gross, credits + other.credits, net + other.net)
    }
  }

  const ZERO := Amounts(0, 0, 0)

  /** A stored fact; a dimension without a value is SQL NULL. */
  datatype Fact = Fact(date: Date, cells: map<Dim, string>, amounts: Amounts)

  function ValueOf(r: Fact, dim: Dim): Cell {
    if dim == UsageDate then Day(r.date)
    else if dim == UsageMonth then Month(r.date.year, r.date.month)
    else if dim in r.cells then Text(r.cells[dim])
    else Null
  }

  type Key = seq<Cell>

  function KeyOf(r: Fact, dims: seq<Dim>): Key {
    seq(|dims|, i requires 0 <= i < |dims| => ValueOf(r, dims[i]))
  }

  function Dims(name: ReportName): seq<Dim> {
    match name
    case Daily => [UsageDate, Currency]
    case MonthlyUsage => [UsageMonth, Currency]
    case MonthlyInvoice => [InvoiceMonth, Currency]
    case Services => [ServiceId, ServiceDescription, Currency]
    case Skus => [ServiceId, ServiceDescription, SkuId, SkuDescription, Currency]
    case CloudRunResources =>
      [UsageDate, InvoiceMonth, ProjectId, ResourceName, ResourceGlobalName, SkuId, SkuDescription, Currency]
  }

  /** The rows a report reads. */
  function Selected(rows: seq<Fact>, name: ReportName): seq<Fact> {
    if rows == [] then []
    else
      var last := rows[|rows| - 1];
      Selected(rows[..|rows| - 1], name)
        + if name != CloudRunResources || ValueOf(last, ServiceDescription) == Text("Cloud Run") then [last] else []
  }

  /** The total of the rows of a group. */
  function SumOf(rows: seq<Fact>, dims: seq<Dim>, key: Key): Amounts {
    if rows == [] then ZERO
    else
      var last := rows[|rows| - 1];
      var before := SumOf(rows[..|rows| - 1], dims, key);
      if KeyOf(last, dims) == key then before.Plus(last.amounts) else before
  }

  function KeysOf(rows: seq<Fact>, dims: seq<Dim>): set<Key> {
    set r | r in rows :: KeyOf(r, dims)
  }

  method Group(rows: seq<Fact>, dims: seq<Dim>) returns (totals: map<Key, Amounts>)
    ensures totals.Keys == KeysOf(rows, dims)
    ensures forall k :: k in totals ==> totals[k] == SumOf(rows, dims, k)
  {
    totals := map[];
    for i := 0 to |rows|
      invariant totals.Keys == KeysOf(rows[..i], dims)
      invariant forall k :: k in totals ==> totals[k] == SumOf(rows[..i], dims, k)
    {
      var key := KeyOf(rows[i], dims);
      assert rows[..i + 1] == rows[..i] + [rows[i]];
      assert rows[..i + 1][..i] == rows[..i];
      if key !in totals {
        NoRows(rows[..i], dims, key);
        totals := totals[key := ZERO];
      }
      totals := totals[key := totals[key].Plus(rows[i].amounts)];
    }
    assert rows[..|rows|] == rows;
  }

  lemma {:induction false} NoRows(rows: seq<Fact>, dims: seq<Dim>, key: Key)
    requires key !in KeysOf(rows, dims)
    ensures SumOf(rows, dims, key) == ZERO
  {
    if rows != [] {
      var n := |rows| - 1;
      assert rows[n] in rows && KeyOf(rows[n], dims) in KeysOf(rows, dims);
      forall r | r in rows[..n] ensures KeyOf(r, dims) in KeysOf(rows, dims) {
        assert r in rows;
      }
      NoRows(rows[..n], dims, key);
    }
  }

  // ---- Order of groups ----

  function Rank(c: Cell): nat {
    match c
    case Null => 0
    case Text(_) => 1
    case Day(_) => 2
    case Month(_, _) => 3
  }

  predicate DateLess(a: Date, b: Date) {
    a.year < b.year || (a.year == b.year && (a.month < b.month || (a.month == b.month && a.day < b.day)))
  }

  /** NULL first; a column holds values of one kind. */
  predicate CellLess(a: Cell, b: Cell) {
    || Rank(a) < Rank(b)
    || (a.Text? && b.Text? && TextLess(a.text, b.text))
    || (a.Day? && b.Day? && DateLess(a.date, b.date))
    || (a.Month? && b.Month? && (a.year < b.year || (a.year == b.year && a.month < b.month)))
  }

  predicate KeyLess(a: Key, b: Key) {
    b != [] && (a == [] || CellLess(a[0], b[0]) || (a[0] == b[0] && KeyLess(a[1..], b[1..])))
  }

  lemma CellLessIsTotal(a: Cell, b: Cell)
    ensures a != b ==> CellLess(a, b) != CellLess(b, a)
    ensures a == b ==> !CellLess(a, b)
  {
    if a.Text? && b.Text? {
      TextsCompare(a.text, b.text);
    }
  }

  lemma CellLessIsTransitive(a: Cell, b: Cell, c: Cell)
    requires CellLess(a, b) && CellLess(b, c)
    ensures CellLess(a, c)
  {
    if a.Text? && b.Text? && c.Text? {
      TextLessIsTransitive(a.text, b.text, c.text);
    }
  }

  lemma {:induction false} KeyLessIsTotal(a: Key, b: Key)
    ensures a != b ==> KeyLess(a, b) != KeyLess(b, a)
    ensures a == b ==> !KeyLess(a, b)
  {
    if a != [] && b != [] {
      CellLessIsTotal(a[0], b[0]);
      KeyLessIsTotal(a[1..], b[1..]);
      assert a == [a[0]] + a[1..] && b == [b[0]] + b[1..];
    }
  }

  lemma {:induction false} KeyLessIsTransitive(a: Key, b: Key, c: Key)
    requires KeyLess(a, b) && KeyLess(b, c)
    ensures KeyLess(a, c)
  {
    if a != [] {
      if CellLess(a[0], b[0]) && CellLess(b[0], c[0]) {
        CellLessIsTransitive(a[0], b[0], c[0]);
      } else if a[0] == b[0] == c[0] {
        CellLessIsTotal(a[0], a[0]);
        KeyLessIsTransitive(a[1..], b[1..], c[1..]);
      }
    }
  }

  lemma KeyLessIsOrder()
    ensures StrictTotal(KeyLess)
  {
    forall a, b ensures if a == b then !KeyLess(a, b) else KeyLess(a, b) != KeyLess(b, a) {
      KeyLessIsTotal(a, b);
    }
    forall a, b, c | KeyLess(a, b) && KeyLess(b, c) ensures KeyLess(a, c) {
      KeyLessIsTransitive(a, b, c);
    }
  }

  // ---- Reports ----

  datatype Line = Line(key: Key, amounts: Amounts)

  function LinesFor(rows: seq<Fact>, dims: seq<Dim>, keys: seq<Key>): seq<Line> {
    seq(|keys|, i requires 0 <= i < |keys| => Line(keys[i], SumOf(rows, dims, keys[i])))
  }

  function Report(rows: seq<Fact>, name: ReportName): seq<Line> {
    var selected := Selected(rows, name);
    KeyLessIsOrder();
    LinesFor(selected, Dims(name), Sorted(KeysOf(selected, Dims(name)), KeyLess))
  }

  method Summary(rows: seq<Fact>, name: ReportName) returns (lines: seq<Line>)
    ensures lines == Report(rows, name)
  {
    var selected := Selected(rows, name);
    var totals := Group(selected, Dims(name));
    KeyLessIsOrder();
    lines := Lines(selected, Dims(name), totals, Sorted(totals.Keys, KeyLess));
  }

  method Lines(ghost rows: seq<Fact>, ghost dims: seq<Dim>, totals: map<Key, Amounts>, ordered: seq<Key>)
    returns (lines: seq<Line>)
    requires forall k :: k in ordered ==> k in totals
    requires forall k :: k in totals ==> totals[k] == SumOf(rows, dims, k)
    ensures lines == LinesFor(rows, dims, ordered)
  {
    lines := [];
    for i := 0 to |ordered|
      invariant |lines| == i && forall j :: 0 <= j < i ==> lines[j] == Line(ordered[j], SumOf(rows, dims, ordered[j]))
    {
      lines := lines + [Line(ordered[i], totals[ordered[i]])];
    }
  }

  /** Rows may arrive in any order. */
  lemma {:induction false} SumOfSplit(a: seq<Fact>, b: seq<Fact>, dims: seq<Dim>, key: Key)
    ensures SumOf(a + b, dims, key) == SumOf(a, dims, key).Plus(SumOf(b, dims, key))
  {
    if b == [] {
      assert a + b == a;
    } else {
      var n := |b| - 1;
      assert (a + b)[..|a| + n] == a + b[..n];
      SumOfSplit(a, b[..n], dims, key);
    }
  }

  lemma TakeOut(rows: seq<Fact>, k: nat, dims: seq<Dim>, key: Key)
    requires k < |rows|
    ensures SumOf(rows, dims, key) == SumOf(rows[..k] + rows[k + 1..] + [rows[k]], dims, key)
    ensures multiset(rows) == multiset(rows[..k] + rows[k + 1..]) + multiset{rows[k]}
  {
    var a, b := rows[..k], rows[k + 1..];
    assert rows == a + ([rows[k]] + b) && a + b + [rows[k]] == a + (b + [rows[k]]);
    SumOfSplit(a, [rows[k]] + b, dims, key);
    SumOfSplit(a, b + [rows[k]], dims, key);
    SumOfSplit([rows[k]], b, dims, key);
    SumOfSplit(b, [rows[k]], dims, key);
  }

  lemma {:induction false} SumOfPermuted(a: seq<Fact>, b: seq<Fact>, dims: seq<Dim>, key: Key)
    requires multiset(a) == multiset(b)
    ensures SumOf(a, dims, key) == SumOf(b, dims, key)
    decreases |a|
  {
    if a == [] {
      assert |b| == |multiset(b)|;
    } else {
      var n := |a| - 1;
      assert a[n] in multiset(a);
      var k := IndexOf(b, a[n]);
      var without := b[..k] + b[k + 1..];
      TakeOut(b, k, dims, key);
      assert a == a[..n] + [a[n]];
      assert multiset(without) == multiset(b) - multiset{a[n]} == multiset(a[..n]);
      SumOfPermuted(a[..n], without, dims, key);
      assert (without + [a[n]])[..|without|] == without;
    }
  }

  lemma IndexOf(rows: seq<Fact>, r: Fact) returns (k: nat)
    requires r in multiset(rows)
    ensures k < |rows| && rows[k] == r
  {
    k :| 0 <= k < |rows| && rows[k] == r;
  }

  lemma {:induction false} SelectedCounts(rows: seq<Fact>, name: ReportName, r: Fact)
    ensures multiset(Selected(rows, name))[r]
         == if name != CloudRunResources || ValueOf(r, ServiceDescription) == Text("Cloud Run")
            then multiset(rows)[r] else 0
  {
    if rows != [] {
      var n := |rows| - 1;
      assert rows == rows[..n] + [rows[n]];
      SelectedCounts(rows[..n], name, r);
    }
  }

  /** The report does not depend on the order in which the facts are streamed. */
  lemma ReportIsDeterministic(a: seq<Fact>, b: seq<Fact>, name: ReportName)
    requires multiset(a) == multiset(b)
    ensures Report(a, name) == Report(b, name)
  {
    var x, y, dims := Selected(a, name), Selected(b, name), Dims(name);
    forall r ensures multiset(x)[r] == multiset(y)[r] {
      SelectedCounts(a, name, r);
      SelectedCounts(b, name, r);
    }
    assert multiset(x) == multiset(y);
    forall r ensures r in x <==> r in y {
      assert r in x <==> r in multiset(x);
      assert r in y <==> r in multiset(y);
    }
    assert KeysOf(x, dims) == KeysOf(y, dims);
    forall k ensures SumOf(x, dims, k) == SumOf(y, dims, k) {
      SumOfPermuted(x, y, dims, k);
    }
  }

  // ---- Conservation ----

  /** The total of the lines whose key the projection takes to `to`. */
  function Rolled(lines: seq<Line>, f: Key -> Key, to: Key): Amounts {
    if lines == [] then ZERO
    else
      var last := lines[|lines| - 1];
      var before := Rolled(lines[..|lines| - 1], f, to);
      if f(last.key) == to then before.Plus(last.amounts) else before
  }

  ghost predicate Projects(rows: seq<Fact>, fine: seq<Dim>, coarse: seq<Dim>, f: Key -> Key) {
    forall r :: r in rows ==> f(KeyOf(r, fine)) == KeyOf(r, coarse)
  }

  ghost predicate Distinct(keys: seq<Key>) {
    forall i, j :: 0 <= i < j < |keys| ==> keys[i] != keys[j]
  }

  lemma SumOfSnoc(rows: seq<Fact>, last: Fact, dims: seq<Dim>, key: Key)
    ensures SumOf(rows + [last], dims, key)
         == if KeyOf(last, dims) == key then SumOf(rows, dims, key).Plus(last.amounts) else SumOf(rows, dims, key)
  {
    assert (rows + [last])[..|rows|] == rows;
  }

  /** The same total, group by group. */
  function RolledKeys(rows: seq<Fact>, dims: seq<Dim>, keys: seq<Key>, f: Key -> Key, to: Key): Amounts {
    if keys == [] then ZERO
    else
      var last := keys[|keys| - 1];
      var before := RolledKeys(rows, dims, keys[..|keys| - 1], f, to);
      if f(last) == to then before.Plus(SumOf(rows, dims, last)) else before
  }

  lemma {:induction false} RolledByKeys(rows: seq<Fact>, dims: seq<Dim>, keys: seq<Key>, f: Key -> Key, to: Key)
    ensures Rolled(LinesFor(rows, dims, keys), f, to) == RolledKeys(rows, dims, keys, f, to)
    decreases |keys|
  {
    if keys != [] {
      var n := |keys| - 1;
      RolledByKeys(rows, dims, keys[..n], f, to);
      assert LinesFor(rows, dims, keys)[..n] == LinesFor(rows, dims, keys[..n]);
    }
  }

  /** Adding one row to the facts adds it to the rolled-up total of its own group,
      once, when the keys list that group exactly once. */
  lemma {:induction false} OneRow(rows: seq<Fact>, last: Fact, dims: seq<Dim>, keys: seq<Key>, f: Key -> Key, to: Key)
    requires Distinct(keys)
    ensures RolledKeys(rows + [last], dims, keys, f, to)
         == if KeyOf(last, dims) in keys && f(KeyOf(last, dims)) == to
            then RolledKeys(rows, dims, keys, f, to).Plus(last.amounts)
            else RolledKeys(rows, dims, keys, f, to)
    decreases |keys|
  {
    if keys != [] {
      var n := |keys| - 1;
      OneRow(rows, last, dims, keys[..n], f, to);
      SumOfSnoc(rows, last, dims, keys[n]);
      assert KeyOf(last, dims) in keys <==> KeyOf(last, dims) in keys[..n] || KeyOf(last, dims) == keys[n];
      assert keys[n] !in keys[..n];
    }
  }

  lemma {:induction false} RolledNothing(dims: seq<Dim>, keys: seq<Key>, f: Key -> Key, to: Key)
    ensures RolledKeys([], dims, keys, f, to) == ZERO
    decreases |keys|
  {
    if keys != [] {
      RolledNothing(dims, keys[..|keys| - 1], f, to);
      assert ZERO.Plus(ZERO) == ZERO;
    }
  }

  /** A coarser total is the sum of the finer groups that go into it. */
  lemma RollUp(rows: seq<Fact>, fine: seq<Dim>, coarse: seq<Dim>, f: Key -> Key, keys: seq<Key>, to: Key)
    requires Projects(rows, fine, coarse, f) && Distinct(keys) && forall r :: r in rows ==> KeyOf(r, fine) in keys
    ensures Rolled(LinesFor(rows, fine, keys), f, to) == SumOf(rows, coarse, to)
  {
    RolledByKeys(rows, fine, keys, f, to);
    RollUpKeys(rows, fine, coarse, f, keys, to);
  }

  lemma {:induction false} RollUpKeys(rows: seq<Fact>, fine: seq<Dim>, coarse: seq<Dim>, f: Key -> Key, keys: seq<Key>,
                                      to: Key)
    requires Projects(rows, fine, coarse, f) && Distinct(keys) && forall r :: r in rows ==> KeyOf(r, fine) in keys
    ensures RolledKeys(rows, fine, keys, f, to) == SumOf(rows, coarse, to)
    decreases |rows|
  {
    if rows == [] {
      RolledNothing(fine, keys, f, to);
    } else {
      var n := |rows| - 1;
      assert rows == rows[..n] + [rows[n]] && rows[n] in rows;
      assert forall r :: r in rows[..n] ==> r in rows;
      RollUpKeys(rows[..n], fine, coarse, f, keys, to);
      OneRow(rows[..n], rows[n], fine, keys, f, to);
    }
  }

  lemma OrderedKeysDiffer(keys: seq<Key>)
    requires InOrder(keys, KeyLess)
    ensures Distinct(keys)
  {
    forall i, j | 0 <= i < j < |keys| ensures keys[i] != keys[j] {
      KeyLessIsTotal(keys[i], keys[i]);
    }
  }

  function ToCurrency(k: Key): Key {
    if k == [] then [] else [k[|k| - 1]]
  }

  /** Every report sums to the totals of its rows, currency by currency. */
  lemma CurrencyTotals(rows: seq<Fact>, name: ReportName, currency: Key)
    ensures Rolled(Report(rows, name), ToCurrency, currency) == SumOf(Selected(rows, name), [Currency], currency)
  {
    var selected, dims := Selected(rows, name), Dims(name);
    forall r | r in selected ensures ToCurrency(KeyOf(r, dims)) == KeyOf(r, [Currency]) {
    }
    KeyLessIsOrder();
    var keys := Sorted(KeysOf(selected, dims), KeyLess);
    OrderedKeysDiffer(keys);
    RollUp(selected, dims, [Currency], ToCurrency, keys, currency);
  }

  lemma LineTotals(rows: seq<Fact>, name: ReportName, line: Line)
    requires line in Report(rows, name)
    ensures line.amounts == SumOf(Selected(rows, name), Dims(name), line.key)
  {
    var i :| 0 <= i < |Report(rows, name)| && Report(rows, name)[i] == line;
  }

  lemma {:induction false} AllSelected(rows: seq<Fact>, name: ReportName)
    requires name != CloudRunResources
    ensures Selected(rows, name) == rows
  {
    if rows != [] {
      AllSelected(rows[..|rows| - 1], name);
    }
  }

  function DayToMonth(k: Key): Key {
    if |k| == 2 && k[0].Day? then [Month(k[0].date.year, k[0].date.month), k[1]] else k
  }

  function SkuToService(k: Key): Key {
    if |k| == 5 then [k[0], k[1], k[4]] else k
  }

  /** A report is the roll-up of a finer one over the same rows. */
  lemma RollsInto(rows: seq<Fact>, fine: ReportName, coarse: ReportName, f: Key -> Key, line: Line)
    requires fine != CloudRunResources && coarse != CloudRunResources && line in Report(rows, coarse)
    requires Projects(rows, Dims(fine), Dims(coarse), f)
    ensures line.amounts == Rolled(Report(rows, fine), f, line.key)
  {
    LineTotals(rows, coarse, line);
    AllSelected(rows, fine);
    AllSelected(rows, coarse);
    KeyLessIsOrder();
    var keys := Sorted(KeysOf(rows, Dims(fine)), KeyLess);
    OrderedKeysDiffer(keys);
    RollUp(rows, Dims(fine), Dims(coarse), f, keys, line.key);
  }

  /** The monthly report is the roll-up of the daily one. */
  lemma MonthlyFromDaily(rows: seq<Fact>, line: Line)
    requires line in Report(rows, MonthlyUsage)
    ensures line.amounts == Rolled(Report(rows, Daily), DayToMonth, line.key)
  {
    forall r | r in rows ensures DayToMonth(KeyOf(r, Dims(Daily))) == KeyOf(r, Dims(MonthlyUsage)) {
    }
    RollsInto(rows, Daily, MonthlyUsage, DayToMonth, line);
  }

  lemma ServiceOfSku(r: Fact)
    ensures SkuToService(KeyOf(r, Dims(Skus))) == KeyOf(r, Dims(Services))
  {
  }

  /** The services report is the roll-up of the SKU report. */
  lemma ServicesFromSkus(rows: seq<Fact>, line: Line)
    requires line in Report(rows, Services)
    ensures line.amounts == Rolled(Report(rows, Skus), SkuToService, line.key)
  {
    forall r | r in rows ensures SkuToService(KeyOf(r, Dims(Skus))) == KeyOf(r, Dims(Services)) {
      ServiceOfSku(r);
    }
    RollsInto(rows, Skus, Services, SkuToService, line);
  }

  /** What `day_rows` requires of every stored row. */
  predicate NetOk(a: Amounts) { a.net == a.gross + a.credits }

  lemma {:induction false} SumsAreNet(rows: seq<Fact>, dims: seq<Dim>, key: Key)
    requires forall r :: r in rows ==> NetOk(r.amounts)
    ensures NetOk(SumOf(rows, dims, key))
  {
    if rows != [] {
      var n := |rows| - 1;
      assert rows[n] in rows && forall r :: r in rows[..n] ==> r in rows;
      SumsAreNet(rows[..n], dims, key);
    }
  }

  /** Net is gross plus credits on every line of every report. */
  lemma NetOnEveryLine(rows: seq<Fact>, name: ReportName, line: Line)
    requires forall r :: r in rows ==> NetOk(r.amounts)
    requires line in Report(rows, name)
    ensures NetOk(line.amounts)
  {
    var selected := Selected(rows, name);
    forall r | r in selected ensures NetOk(r.amounts) {
      SelectedCounts(rows, name, r);
      assert r in multiset(selected) && r in multiset(rows);
    }
    LineTotals(rows, name, line);
    SumsAreNet(selected, Dims(name), line.key);
  }
}
