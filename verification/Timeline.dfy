/** The identity timeline of a station: which device each day had, and on which
    days the report shows it.

    Days are numbered as `date.toordinal` numbers them; instants are microseconds,
    with day `d` beginning at `d * DAY`. */
module Timelines {
  import opened Options
  import opened Texts
  import opened Times

  datatype Source = History(index: nat) | Attributes

  datatype Interval = Interval(device: string, installation: string, contract: string, source: Source,
                               from: int, to: Option<int>)
  {
    predicate Covers(day: int) {
      from <= day && (to.None? || day <= to.value)
    }

    /** What does not depend on the end. */
    function Identity(): Interval { this.(to := None) }
  }

  // ---- From records to intervals ----

  /** `end_datetime_to_last_day` */
  function LastDay(end: Option<int>): Option<int> {
    if end.None? then None
    else if end.value % DAY == 0 then Some(DayAt(end.value) - 1)
    else Some(DayAt(end.value))
  }

  /** A day is covered when it begins before the end. */
  lemma LastDayMeaning(end: int, day: int)
    ensures day <= LastDay(Some(end)).value <==> day * DAY < end
  {
    var q := end / DAY;
    assert end == q * DAY + end % DAY;
    if day <= q - 1 {
      assert day * DAY <= (q - 1) * DAY;
    } else if day >= q + 1 {
      assert day * DAY >= (q + 1) * DAY;
    }
  }

  /** One entry of `source_history`; one that is no object is `None`. */
  datatype Record = Record(site: string, installation: string, device: string, contract: string,
                           start: Option<int>, end: Option<int>)

  datatype Raw = Raw(start: int, interval: Interval)

  /** Entries of another site, of the earlier Communities identity or without a
      start give no interval. */
  predicate Used(entry: Option<Record>, site: string, linked: set<string>) {
    && entry.Some?
    && (entry.value.site == "" || Upper(entry.value.site) == Upper(site))
    && !(entry.value.installation != "" && Upper(entry.value.installation) in linked)
    && entry.value.start.Some?
  }

  function RawOf(index: nat, r: Record): Raw
    requires r.start.Some?
  {
    Raw(r.start.value,
        Interval(r.device, r.installation, r.contract, History(index), DayAt(r.start.value), LastDay(r.end)))
  }

  /** Intervals start on the day of the instant they are sorted by. */
  predicate RawOk(r: Raw) {
    r.interval.from == DayAt(r.start)
  }

  // ---- Sorting by start, device and installation ----

  predicate KeyLess(a: Raw, b: Raw) {
    var x, y := a.interval, b.interval;
    || a.start < b.start
    || (a.start == b.start
        && (TextLess(x.device, y.device) || (x.device == y.device && TextLess(x.installation, y.installation))))
  }

  lemma KeyLessIsStrict(a: Raw, b: Raw)
    requires KeyLess(a, b)
    ensures !KeyLess(b, a)
  {
    if a.start == b.start {
      if TextLess(a.interval.device, b.interval.device) {
        TextLessIsStrict(a.interval.device, b.interval.device);
      } else {
        TextLessIsStrict(a.interval.installation, b.interval.installation);
      }
    }
  }

  predicate Ordered(raw: seq<Raw>) {
    forall i {:trigger Step(raw, i)} :: 0 < i < |raw| ==> Step(raw, i)
  }

  predicate Step(raw: seq<Raw>, i: nat)
    requires 0 < i < |raw|
  {
    !KeyLess(raw[i], raw[i - 1])
  }

  /** After the entries that are not greater: insertions in order are a stable sort. */
  function Insert(x: Raw, sorted: seq<Raw>): (r: seq<Raw>)
    ensures multiset(r) == multiset(sorted) + multiset{x}
    ensures r != [] && (r[0] == x || (sorted != [] && r[0] == sorted[0] && !KeyLess(x, sorted[0])))
  {
    if sorted == [] then [x]
    else if KeyLess(x, sorted[0]) then [x] + sorted
    else
      assert sorted == [sorted[0]] + sorted[1..];
      [sorted[0]] + Insert(x, sorted[1..])
  }

  function SortRaw(raw: seq<Raw>): (r: seq<Raw>)
    ensures multiset(r) == multiset(raw)
  {
    if raw == [] then []
    else
      assert raw == raw[..|raw| - 1] + [raw[|raw| - 1]];
      Insert(raw[|raw| - 1], SortRaw(raw[..|raw| - 1]))
  }

  lemma {:induction false} InsertOrdered(x: Raw, sorted: seq<Raw>)
    requires Ordered(sorted)
    ensures Ordered(Insert(x, sorted))
  {
    if sorted != [] {
      var r := Insert(x, sorted);
      if KeyLess(x, sorted[0]) {
        KeyLessIsStrict(x, sorted[0]);
        forall i | 0 < i < |r| ensures Step(r, i) {
          assert i > 1 ==> Step(sorted, i - 1);
        }
      } else {
        var rest := sorted[1..];
        RestOrdered(sorted);
        InsertOrdered(x, rest);
        var tail := Insert(x, rest);
        forall i | 0 < i < |r| ensures Step(r, i) {
          if i == 1 {
            assert rest != [] ==> Step(sorted, 1);
          } else {
            assert Step(tail, i - 1);
          }
        }
      }
    }
  }

  lemma {:induction false} SortRawOrdered(raw: seq<Raw>)
    ensures Ordered(SortRaw(raw))
  {
    if raw != [] {
      SortRawOrdered(raw[..|raw| - 1]);
      InsertOrdered(raw[|raw| - 1], SortRaw(raw[..|raw| - 1]));
    }
  }

  lemma KeysNotLess(a: Raw, b: Raw, c: Raw)
    requires !KeyLess(b, a) && !KeyLess(c, b)
    ensures !KeyLess(c, a)
  {
    if a.start == b.start == c.start {
      TextsNotLess(a.interval.device, b.interval.device, c.interval.device);
      TextsCompare(a.interval.device, b.interval.device);
      TextsCompare(b.interval.device, c.interval.device);
      if a.interval.device == b.interval.device == c.interval.device {
        TextsNotLess(a.interval.installation, b.interval.installation, c.interval.installation);
      }
    }
  }

  lemma {:induction false} OrderedKeys(raw: seq<Raw>, i: nat, j: nat)
    requires Ordered(raw) && i <= j < |raw|
    ensures !KeyLess(raw[j], raw[i])
    decreases j
  {
    if i == j {
      KeyLessIsIrreflexive(raw[i]);
    } else {
      assert Step(raw, j);
      OrderedKeys(raw, i, j - 1);
      KeysNotLess(raw[i], raw[j - 1], raw[j]);
    }
  }

  lemma KeyLessIsIrreflexive(a: Raw)
    ensures !KeyLess(a, a)
  {
    TextsCompare(a.interval.device, a.interval.device);
    TextsCompare(a.interval.installation, a.interval.installation);
  }

  predicate SameKey(a: Raw, b: Raw) {
    a.start == b.start && a.interval.device == b.interval.device && a.interval.installation == b.interval.installation
  }

  /** The records with the key of `k`, in their order. */
  function Keyed(x: Raw, k: Raw): seq<Raw> {
    if SameKey(x, k) then [x] else []
  }

  function WithKey(raw: seq<Raw>, k: Raw): seq<Raw> {
    if raw == [] then [] else Keyed(raw[0], k) + WithKey(raw[1..], k)
  }

  lemma {:induction false} WithKeySnoc(raw: seq<Raw>, x: Raw, k: Raw)
    ensures WithKey(raw + [x], k) == WithKey(raw, k) + Keyed(x, k)
  {
    if raw != [] {
      assert (raw + [x])[1..] == raw[1..] + [x];
      WithKeySnoc(raw[1..], x, k);
    }
  }

  lemma {:induction false} WithoutKey(raw: seq<Raw>, k: Raw)
    requires forall x :: x in raw ==> !SameKey(x, k)
    ensures WithKey(raw, k) == []
  {
    if raw != [] {
      WithoutKey(raw[1..], k);
    }
  }

  /** Nothing after a greater key has the key of `x`. */
  lemma NoneAfter(x: Raw, sorted: seq<Raw>, k: Raw)
    requires Ordered(sorted) && sorted != [] && KeyLess(x, sorted[0]) && SameKey(x, k)
    ensures WithKey(sorted, k) == []
  {
    forall y | y in sorted ensures !SameKey(y, k) {
      var i :| 0 <= i < |sorted| && sorted[i] == y;
      OrderedKeys(sorted, 0, i);
    }
    WithoutKey(sorted, k);
  }

  lemma RestOrdered(sorted: seq<Raw>)
    requires Ordered(sorted) && sorted != []
    ensures Ordered(sorted[1..])
  {
    var rest := sorted[1..];
    forall i | 0 < i < |rest| ensures Step(rest, i) {
      assert Step(sorted, i + 1);
    }
  }

  lemma WithKeyCons(y: Raw, rest: seq<Raw>, k: Raw)
    ensures WithKey([y] + rest, k) == Keyed(y, k) + WithKey(rest, k)
  {
    assert ([y] + rest)[1..] == rest;
  }

  lemma {:induction false} InsertLast(x: Raw, sorted: seq<Raw>, k: Raw)
    requires Ordered(sorted)
    ensures WithKey(Insert(x, sorted), k) == WithKey(sorted, k) + Keyed(x, k)
    decreases |sorted|
  {
    if sorted == [] {
      WithKeyCons(x, sorted, k);
      assert [x] + sorted == [x];
    } else if KeyLess(x, sorted[0]) {
      InsertFirst(x, sorted, k);
    } else {
      var first, rest := sorted[0], sorted[1..];
      RestOrdered(sorted);
      InsertLast(x, rest, k);
      InsertLater(first, rest, Insert(x, rest), x, k);
      assert sorted == [first] + rest;
    }
  }

  lemma InsertFirst(x: Raw, sorted: seq<Raw>, k: Raw)
    requires Ordered(sorted) && sorted != [] && KeyLess(x, sorted[0])
    ensures WithKey([x] + sorted, k) == WithKey(sorted, k) + Keyed(x, k)
  {
    WithKeyCons(x, sorted, k);
    if SameKey(x, k) {
      NoneAfter(x, sorted, k);
    }
  }

  lemma InsertLater(first: Raw, rest: seq<Raw>, inserted: seq<Raw>, x: Raw, k: Raw)
    requires WithKey(inserted, k) == WithKey(rest, k) + Keyed(x, k)
    ensures WithKey([first] + inserted, k) == WithKey([first] + rest, k) + Keyed(x, k)
  {
    WithKeyCons(first, inserted, k);
    WithKeyCons(first, rest, k);
  }

  /** The records with the key of `k` are the same, in the same order. */
  predicate SameInOrder(a: seq<Raw>, b: seq<Raw>, k: Raw) {
    WithKey(a, k) == WithKey(b, k)
  }

  lemma InsertIsStable(raw: seq<Raw>, sorted: seq<Raw>, k: Raw)
    requires raw != [] && Ordered(sorted) && SameInOrder(sorted, raw[..|raw| - 1], k)
    ensures SameInOrder(Insert(raw[|raw| - 1], sorted), raw, k)
  {
    InsertLast(raw[|raw| - 1], sorted, k);
    WithKeySnoc(raw[..|raw| - 1], raw[|raw| - 1], k);
    assert raw == raw[..|raw| - 1] + [raw[|raw| - 1]];
  }

  /** The sort is stable: records with equal keys keep their order. */
  lemma {:induction false} SortRawIsStable(raw: seq<Raw>, k: Raw)
    ensures SameInOrder(SortRaw(raw), raw, k)
  {
    if raw != [] {
      SortRawIsStable(raw[..|raw| - 1], k);
      SortRawOrdered(raw[..|raw| - 1]);
      InsertIsStable(raw, SortRaw(raw[..|raw| - 1]), k);
    }
  }

  /** By start, then by the characters of the device, then by those of the installation. */
  ghost predicate NotAfter(a: Raw, b: Raw) {
    var x, y := a.interval, b.interval;
    || a.start < b.start
    || (a.start == b.start && TextBefore(x.device, y.device))
    || (a.start == b.start && x.device == y.device
        && (TextBefore(x.installation, y.installation) || x.installation == y.installation))
  }

  lemma SortedByKey(raw: seq<Raw>, i: nat, j: nat)
    requires i < j < |SortRaw(raw)|
    ensures NotAfter(SortRaw(raw)[i], SortRaw(raw)[j])
  {
    var a, b := SortRaw(raw)[i], SortRaw(raw)[j];
    SortRawOrdered(raw);
    OrderedKeys(SortRaw(raw), i, j);
    TextsCompare(a.interval.device, b.interval.device);
    TextsCompare(a.interval.installation, b.interval.installation);
    TextLessIsBefore(a.interval.device, b.interval.device);
    TextLessIsBefore(a.interval.installation, b.interval.installation);
  }

  // ---- Trimming ----

  /** Starts never go back. */
  ghost predicate Chronological(a: seq<Interval>) {
    forall i, j :: 0 <= i < j < |a| ==> a[i].from <= a[j].from
  }

  lemma {:induction false} OrderedStarts(raw: seq<Raw>, i: nat, j: nat)
    requires Ordered(raw) && i <= j < |raw|
    ensures raw[i].start <= raw[j].start
    decreases j
  {
    if i < j {
      assert Step(raw, j);
      OrderedStarts(raw, i, j - 1);
    }
  }

  function IntervalsOf(raw: seq<Raw>): (r: seq<Interval>)
    ensures |r| == |raw| && forall i :: 0 <= i < |raw| ==> r[i] == raw[i].interval
  {
    seq(|raw|, i requires 0 <= i < |raw| => raw[i].interval)
  }

  lemma SortedIsChronological(raw: seq<Raw>)
    requires forall r :: r in raw ==> RawOk(r)
    ensures Chronological(IntervalsOf(SortRaw(raw)))
  {
    var sorted := SortRaw(raw);
    SortRawOrdered(raw);
    forall i, j | 0 <= i < j < |sorted| ensures sorted[i].interval.from <= sorted[j].interval.from {
      OrderedStarts(sorted, i, j);
      assert sorted[i] in multiset(sorted) && sorted[j] in multiset(sorted);
      assert RawOk(sorted[i]) && RawOk(sorted[j]);
      DayAtMonotone(sorted[i].start, sorted[j].start);
    }
  }

  lemma DayAtMonotone(t: int, u: int)
    requires t <= u
    ensures DayAt(t) <= DayAt(u)
  {
    assert DayAt(t) * DAY <= t <= u < (DayAt(u) + 1) * DAY;
  }

  /** An interval that does not end before the next one starts is cut there. */
  function Trimmed(current: Interval, next: Interval): Interval {
    if current.to.None? || current.to.value >= next.from then current.(to := Some(next.from - 1)) else current
  }

  function TrimAt(a: seq<Interval>, i: nat): Interval
    requires i < |a|
  {
    if i + 1 < |a| then Trimmed(a[i], a[i + 1]) else a[i]
  }

  predicate NotEmpty(x: Interval) { x.to.None? || x.from <= x.to.value }

  function Kept(a: seq<Interval>): seq<Interval> {
    if a == [] then []
    else Kept(a[..|a| - 1]) + if NotEmpty(a[|a| - 1]) then [a[|a| - 1]] else []
  }

  function AllTrimmed(a: seq<Interval>): (r: seq<Interval>)
    ensures |r| == |a| && forall i :: 0 <= i < |a| ==> r[i] == TrimAt(a, i)
  {
    seq(|a|, i requires 0 <= i < |a| => TrimAt(a, i))
  }

  /** Interval `i` is the last to start on or before `day`. */
  ghost predicate LastStarted(a: seq<Interval>, i: int, day: int) {
    0 <= i < |a| && a[i].from <= day && forall j :: i < j < |a| ==> day < a[j].from
  }

  /** What trimming leaves of an interval: the days on which it is the last to have
      started, of those it covered. */
  lemma TrimmedPointwise(a: seq<Interval>, i: nat, day: int)
    requires Chronological(a) && i < |a|
    ensures TrimAt(a, i).Covers(day) <==> LastStarted(a, i, day) && a[i].Covers(day)
    ensures TrimAt(a, i).Identity() == a[i].Identity()
  {
    if i + 1 < |a| {
      assert forall j :: i < j < |a| ==> a[i + 1].from <= a[j].from;
    }
  }

  lemma {:induction false} KeptFrom(a: seq<Interval>, k: nat, l: nat)
    requires k < l < |Kept(a)|
    ensures exists i, j :: 0 <= i < j < |a| && a[i] == Kept(a)[k] && a[j] == Kept(a)[l]
  {
    var n := |a| - 1;
    if l < |Kept(a[..n])| {
      KeptFrom(a[..n], k, l);
    } else {
      KeptHas(a[..n], Kept(a)[k]);
      var i :| 0 <= i < n && a[i] == Kept(a)[k];
      assert a[n] == Kept(a)[l];
    }
  }

  lemma {:induction false} KeptHas(a: seq<Interval>, x: Interval)
    ensures x in Kept(a) <==> x in a && NotEmpty(x)
  {
    if a != [] {
      var n := |a| - 1;
      KeptHas(a[..n], x);
      assert a == a[..n] + [a[n]];
    }
  }

  ghost predicate Disjoint(r: seq<Interval>) {
    forall k, l, day :: 0 <= k < l < |r| && r[k].Covers(day) ==> !r[l].Covers(day)
  }

  lemma TrimmedDisjoint(a: seq<Interval>)
    requires Chronological(a)
    ensures Disjoint(Kept(AllTrimmed(a)))
  {
    var t, r := AllTrimmed(a), Kept(AllTrimmed(a));
    forall k, l, day | 0 <= k < l < |r| && r[k].Covers(day) ensures !r[l].Covers(day) {
      KeptFrom(t, k, l);
      var i, j :| 0 <= i < j < |t| && t[i] == r[k] && t[j] == r[l];
      TrimmedPointwise(a, i, day);
      TrimmedPointwise(a, j, day);
    }
  }

  // ---- Looking up a day ----

  datatype Lookup = Found(interval: Interval) | NotFound | Overlapping

  function Candidates(items: seq<Interval>, day: int): seq<Interval> {
    if items == [] then []
    else
      var n := |items| - 1;
      Candidates(items[..n], day) + if items[n].Covers(day) then [items[n]] else []
  }

  function IntervalForDay(items: seq<Interval>, day: int): Lookup {
    var candidates := Candidates(items, day);
    if |candidates| > 1 then Overlapping
    else if candidates == [] then NotFound
    else Found(candidates[0])
  }

  lemma {:induction false} CandidatesHas(items: seq<Interval>, day: int, x: Interval)
    ensures x in Candidates(items, day) <==> x in items && x.Covers(day)
  {
    if items != [] {
      var n := |items| - 1;
      CandidatesHas(items[..n], day, x);
      assert items == items[..n] + [items[n]];
    }
  }

  lemma {:induction false} OverlapFrom(items: seq<Interval>, day: int) returns (k: int, l: int)
    requires |Candidates(items, day)| > 1
    ensures 0 <= k < l < |items| && items[k].Covers(day) && items[l].Covers(day)
  {
    var n := |items| - 1;
    var init := items[..n];
    if |Candidates(init, day)| > 1 {
      k, l := OverlapFrom(init, day);
    } else {
      var x := Candidates(init, day)[0];
      CandidatesHas(init, day, x);
      k :| 0 <= k < n && init[k] == x;
      l := n;
    }
  }

  lemma {:induction false} OverlapFound(items: seq<Interval>, day: int, k: int, l: int)
    requires 0 <= k < l < |items| && items[k].Covers(day) && items[l].Covers(day)
    ensures |Candidates(items, day)| > 1
  {
    var n := |items| - 1;
    var init := items[..n];
    if l < n {
      OverlapFound(init, day, k, l);
    } else {
      CandidatesHas(init, day, init[k]);
    }
  }

  /** The lookup fails exactly when two of the intervals cover the day. */
  lemma OverlapExactly(items: seq<Interval>, day: int)
    ensures |Candidates(items, day)| > 1 <==>
      exists k, l :: 0 <= k < l < |items| && items[k].Covers(day) && items[l].Covers(day)
  {
    if |Candidates(items, day)| > 1 {
      var k, l := OverlapFrom(items, day);
    }
    if k, l :| 0 <= k < l < |items| && items[k].Covers(day) && items[l].Covers(day) {
      OverlapFound(items, day, k, l);
    }
  }

  /** On trimmed intervals the lookup never fails, and gives the last record started
      by then, if that record covered the day. */
  lemma LookupOfTrimmed(a: seq<Interval>, day: int)
    requires Chronological(a)
    ensures IntervalForDay(Kept(AllTrimmed(a)), day) != Overlapping
    ensures IntervalForDay(Kept(AllTrimmed(a)), day).NotFound? <==>
      forall i :: LastStarted(a, i, day) ==> !a[i].Covers(day)
    ensures forall i :: LastStarted(a, i, day) && a[i].Covers(day) ==>
      IntervalForDay(Kept(AllTrimmed(a)), day) == Found(TrimAt(a, i))
  {
    var t, r := AllTrimmed(a), Kept(AllTrimmed(a));
    TrimmedDisjoint(a);
    OverlapExactly(r, day);
    var candidates := Candidates(r, day);
    forall i | LastStarted(a, i, day) && a[i].Covers(day) ensures TrimAt(a, i) in candidates {
      TrimmedPointwise(a, i, day);
      assert t[i] == TrimAt(a, i);
      KeptHas(t, t[i]);
      CandidatesHas(r, day, t[i]);
    }
    if candidates != [] {
      var x := candidates[0];
      CandidatesHas(r, day, x);
      KeptHas(t, x);
      var i :| 0 <= i < |t| && t[i] == x;
      TrimmedPointwise(a, i, day);
    }
  }

  // ---- As it runs ----

  /** One record per used history entry, in their order. */
  function RawsOf(history: seq<Option<Record>>, site: string, linked: set<string>, n: nat): seq<Raw>
    requires n <= |history|
  {
    if n == 0 then []
    else
      RawsOf(history, site, linked, n - 1)
        + if Used(history[n - 1], site, linked) then [RawOf(n - 1, history[n - 1].value)] else []
  }

  /** And the current one, which starts with its day. */
  function AllRaws(history: seq<Option<Record>>, site: string, linked: set<string>,
                   current: Option<Interval>): seq<Raw> {
    RawsOf(history, site, linked, |history|)
    + if current.Some? then [Raw(current.value.from * DAY, current.value)] else []
  }

  lemma {:induction false} RawsOfOk(history: seq<Option<Record>>, site: string, linked: set<string>, n: nat)
    requires n <= |history|
    ensures forall r :: r in RawsOf(history, site, linked, n) ==> RawOk(r)
  {
    if n > 0 {
      RawsOfOk(history, site, linked, n - 1);
    }
  }

  lemma AllRawsOk(history: seq<Option<Record>>, site: string, linked: set<string>, current: Option<Interval>)
    ensures forall r :: r in AllRaws(history, site, linked, current) ==> RawOk(r)
  {
    RawsOfOk(history, site, linked, |history|);
    assert current.Some? ==> DayAt(current.value.from * DAY) == current.value.from;
  }

  method CollectRaw(history: seq<Option<Record>>, site: string, linked: set<string>, current: Option<Interval>)
    returns (raw: seq<Raw>)
    ensures raw == AllRaws(history, site, linked, current)
  {
    raw := [];
    for k := 0 to |history|
      invariant raw == RawsOf(history, site, linked, k)
    {
      if history[k].None? {
        continue;
      }
      var entry := history[k].value;
      if entry.site != "" && Upper(entry.site) != Upper(site) {
        continue;
      }
      if entry.installation != "" && Upper(entry.installation) in linked {
        continue;
      }
      if entry.start.None? {
        continue;
      }
      var start := entry.start.value;
      var interval := Interval(entry.device, entry.installation, entry.contract, History(k), DayAt(start),
                               LastDay(entry.end));
      raw := raw + [Raw(start, interval)];
    }
    if current.Some? {
      raw := raw + [Raw(current.value.from * DAY, current.value)];
    }
  }

  method Trim(a: seq<Interval>) returns (r: seq<Interval>)
    ensures r == Kept(AllTrimmed(a))
  {
    var intervals := a;
    var i := 0;
    while i + 1 < |intervals|
      invariant |intervals| == |a| && (i < |a| || a == [])
      invariant forall j :: 0 <= j < |a| ==> intervals[j] == if j < i then TrimAt(a, j) else a[j]
    {
      var current, next := intervals[i], intervals[i + 1];
      if current.to.None? || current.to.value >= next.from {
        intervals := intervals[i := current.(to := Some(next.from - 1))];
      }
      i := i + 1;
    }
    assert intervals == AllTrimmed(a);
    r := Kept(intervals);
  }

  /** The records in order of their start, device and installation. */
  function SortedRecords(history: seq<Option<Record>>, site: string, linked: set<string>,
                         current: Option<Interval>): seq<Interval> {
    IntervalsOf(SortRaw(AllRaws(history, site, linked, current)))
  }

  method BuildNodesIntervals(history: seq<Option<Record>>, site: string, linked: set<string>, firstSeen: Option<int>,
                             device: string, installation: string, contract: string, removed: Option<int>, latest: int)
    returns (r: seq<Interval>)
    ensures var records := SortedRecords(history, site, linked,
                                         CurrentInterval(firstSeen, device, installation, contract, removed, latest));
      r == Kept(AllTrimmed(records)) && Chronological(records)
  {
    var current := None;
    if firstSeen.Some? || device != "" {
      var day := if firstSeen.Some? then firstSeen.value else latest;
      current := Some(Interval(device, installation, contract, Attributes, day, removed));
    }
    var raw := CollectRaw(history, site, linked, current);
    AllRawsOk(history, site, linked, current);
    SortedIsChronological(raw);
    r := Trim(IntervalsOf(SortRaw(raw)));
  }

  /** The device of the station's attributes, from when it was first seen. */
  function CurrentInterval(firstSeen: Option<int>, device: string, installation: string, contract: string,
                           removed: Option<int>, latest: int): Option<Interval> {
    if firstSeen.Some? || device != "" then
      Some(Interval(device, installation, contract, Attributes,
                    if firstSeen.Some? then firstSeen.value else latest, removed))
    else None
  }
}
