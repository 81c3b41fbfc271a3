/** Takeover runs and outage episodes of the scheduler watchdog, computed from the
    observations of one worker. */
module CronEpisodes {
  import opened IntSets
  import opened Options

  datatype Observation = CloudflareCron | WatchdogTakeover

  /** Epoch seconds of a minute slot; slots are whole minutes. */
  type Observations = map<int, Observation>

  datatype Run = Run(start: int, end: int, count: int)

  datatype Episode = Episode(start: int, end: int, count: int, identityStart: int, identityEnd: int,
                             recovery: Option<int>, unresolvedGaps: bool)

  predicate Aligned(obs: Observations) {
    forall s :: s in obs ==> s % 60 == 0
  }

  predicate TakeoverAt(obs: Observations, s: int) {
    s in obs && obs[s] == WatchdogTakeover
  }

  predicate CloudflareAt(obs: Observations, s: int) {
    s in obs && obs[s] == CloudflareCron
  }

  /** Every minute from `a` to `b` is an observed takeover. */
  ghost predicate Block(obs: Observations, a: int, b: int) {
    a <= b && a % 60 == 0 && b % 60 == 0 && forall s :: a <= s <= b && s % 60 == 0 ==> TakeoverAt(obs, s)
  }

  ghost predicate MaximalRun(obs: Observations, a: int, b: int) {
    Block(obs, a, b) && !TakeoverAt(obs, a - 60) && !TakeoverAt(obs, b + 60)
  }

  function Length(a: int, b: int): int { (b - a) / 60 + 1 }

  function MinutesFrom(a: int, n: nat): set<int> {
    if n == 0 then {} else MinutesFrom(a, n - 1) + {a + 60 * (n - 1)}
  }

  lemma {:induction false} MinutesCount(a: int, n: nat)
    ensures |MinutesFrom(a, n)| == n
    ensures forall s :: s in MinutesFrom(a, n) <==> a <= s < a + 60 * n && (s - a) % 60 == 0
  {
    if n > 0 {
      MinutesCount(a, n - 1);
    }
  }

  /** The length of a run is the number of its observed slots. */
  lemma LengthCounts(obs: Observations, a: int, b: int)
    requires Aligned(obs) && Block(obs, a, b)
    ensures Length(a, b) == |set s | s in obs && a <= s <= b|
  {
    var slots, n := set s | s in obs && a <= s <= b, (b - a) / 60 + 1;
    MinutesCount(a, n);
    forall s ensures s in slots <==> s in MinutesFrom(a, n) {
      if s in MinutesFrom(a, n) {
        assert s % 60 == 0;
        assert TakeoverAt(obs, s);
      }
    }
    assert slots == MinutesFrom(a, n);
  }

  lemma BlockNeighbours(obs: Observations, a: int, b: int)
    requires Block(obs, a, b)
    ensures forall c :: a < c <= b && c % 60 == 0 ==> TakeoverAt(obs, c - 60)
    ensures forall c :: a <= c < b && c % 60 == 0 ==> TakeoverAt(obs, c + 60)
  {
  }

  lemma MaximalRunsMeet(obs: Observations, a: int, b: int, c: int, d: int)
    requires MaximalRun(obs, a, b) && MaximalRun(obs, c, d)
    requires a <= d && c <= b
    ensures a == c && b == d
  {
    BlockNeighbours(obs, a, b);
    BlockNeighbours(obs, c, d);
  }

  // ---- Runs ----

  /** `slots[..k]` is the part of the observations before `slots[k]`. */
  ghost predicate Scanned(obs: Observations, slots: seq<int>, k: nat) {
    Aligned(obs) && Ascending(slots) && (forall s :: s in slots <==> s in obs) && k <= |slots|
  }

  lemma NextMinute(obs: Observations, slots: seq<int>, k: nat, s: int)
    requires Scanned(obs, slots, k) && k > 0 && s == slots[k - 1] + 60
    ensures s in obs <==> k < |slots| && slots[k] == s
  {
    if s in obs {
      var i :| 0 <= i < |slots| && slots[i] == s;
      assert slots[k - 1] in obs && slots[k - 1] < slots[i];
      if k < |slots| {
        assert slots[k] in obs;
      }
    }
  }

  lemma PreviousMinute(obs: Observations, slots: seq<int>, k: nat, s: int)
    requires Scanned(obs, slots, k) && k < |slots| && s == slots[k] - 60
    ensures s in obs <==> k > 0 && slots[k - 1] == s
  {
    if s in obs {
      var i :| 0 <= i < |slots| && slots[i] == s;
      assert slots[k] in obs && slots[i] < slots[k];
      if k > 0 {
        assert slots[k - 1] in obs;
      }
    }
  }

  /** The maximal runs that end before `bound`, in order. */
  ghost predicate RunsUpTo(obs: Observations, runs: seq<Run>, bound: int) {
    && (forall i :: 0 <= i < |runs| ==>
          && MaximalRun(obs, runs[i].start, runs[i].end)
          && runs[i].count == Length(runs[i].start, runs[i].end)
          && runs[i].end < bound)
    && (forall i, j :: 0 <= i < j < |runs| ==> runs[i].end < runs[j].start)
  }

  predicate InRuns(runs: seq<Run>, s: int) {
    exists i :: 0 <= i < |runs| && runs[i].start <= s <= runs[i].end
  }

  /** The block being extended, if the last slot was a takeover. */
  ghost predicate OpenBlock(obs: Observations, slots: seq<int>, k: nat, start: Option<int>, previous: Option<int>)
    requires k <= |slots|
  {
    && (start.Some? <==> previous.Some?)
    && (start.Some? ==>
          && k > 0 && previous.value == slots[k - 1]
          && Block(obs, start.value, previous.value) && !TakeoverAt(obs, start.value - 60))
    && (start.None? && k > 0 ==> CloudflareAt(obs, slots[k - 1]))
  }

  ghost predicate Covered(obs: Observations, slots: seq<int>, k: nat, runs: seq<Run>, start: Option<int>)
    requires k <= |slots|
  {
    forall i :: 0 <= i < k && TakeoverAt(obs, slots[i]) ==>
      InRuns(runs, slots[i]) || (start.Some? && start.value <= slots[i])
  }

  /** All takeover runs: exactly the maximal blocks, each once, in order. */
  ghost predicate AllRuns(obs: Observations, runs: seq<Run>) {
    && (forall i :: 0 <= i < |runs| ==>
          MaximalRun(obs, runs[i].start, runs[i].end) && runs[i].count == Length(runs[i].start, runs[i].end))
    && (forall i, j :: 0 <= i < j < |runs| ==> runs[i].end < runs[j].start)
    && (forall a, b :: MaximalRun(obs, a, b) ==> Run(a, b, Length(a, b)) in runs)
    && (forall s {:trigger InRuns(runs, s)} :: TakeoverAt(obs, s) ==> InRuns(runs, s))
  }

  lemma CloseBlock(obs: Observations, slots: seq<int>, k: nat, runs: seq<Run>, start: Option<int>,
                   previous: Option<int>)
    requires Scanned(obs, slots, k) && OpenBlock(obs, slots, k, start, previous) && start.Some?
    requires Covered(obs, slots, k, runs, start)
    requires RunsUpTo(obs, runs, start.value)
    requires k < |slots| ==> CloudflareAt(obs, slots[k]) || slots[k] != previous.value + 60
    ensures var runs' := runs + [Run(start.value, previous.value, Length(start.value, previous.value))];
      && RunsUpTo(obs, runs', previous.value + 1)
      && Covered(obs, slots, k, runs', None)
  {
    var run := Run(start.value, previous.value, Length(start.value, previous.value));
    var runs' := runs + [run];
    NextMinute(obs, slots, k, previous.value + 60);
    assert MaximalRun(obs, run.start, run.end);
    forall i | 0 <= i < k && TakeoverAt(obs, slots[i]) ensures InRuns(runs', slots[i]) {
      if InRuns(runs, slots[i]) {
        var j :| 0 <= j < |runs| && runs[j].start <= slots[i] <= runs[j].end;
        assert runs'[j] == runs[j];
      } else {
        assert runs'[|runs|] == run;
        assert i < k - 1 ==> slots[i] < slots[k - 1];
      }
    }
  }

  lemma OpenedBlock(obs: Observations, slots: seq<int>, k: nat, start: Option<int>, previous: Option<int>)
    requires Scanned(obs, slots, k) && OpenBlock(obs, slots, k, start, previous)
    requires k < |slots| && TakeoverAt(obs, slots[k])
    ensures (previous.None? || slots[k] != previous.value + 60) ==>
      OpenBlock(obs, slots, k + 1, Some(slots[k]), Some(slots[k]))
    ensures previous.Some? && slots[k] == previous.value + 60 ==>
      OpenBlock(obs, slots, k + 1, start, Some(slots[k]))
  {
    PreviousMinute(obs, slots, k, slots[k] - 60);
    assert slots[k] in obs;
  }

  lemma ScanComplete(obs: Observations, slots: seq<int>, runs: seq<Run>, bound: int)
    requires Scanned(obs, slots, |slots|) && RunsUpTo(obs, runs, bound) && Covered(obs, slots, |slots|, runs, None)
    ensures AllRuns(obs, runs)
  {
    forall s | TakeoverAt(obs, s) ensures InRuns(runs, s) {
      assert s in slots;
    }
    forall a, b | MaximalRun(obs, a, b) ensures Run(a, b, Length(a, b)) in runs {
      assert TakeoverAt(obs, a);
      var i :| 0 <= i < |slots| && slots[i] == a;
      var j :| 0 <= j < |runs| && runs[j].start <= a <= runs[j].end;
      MaximalRunsMeet(obs, a, b, runs[j].start, runs[j].end);
      assert runs[j] == Run(a, b, Length(a, b));
    }
  }

  ghost predicate Scanning(obs: Observations, slots: seq<int>, k: nat, runs: seq<Run>,
                           start: Option<int>, previous: Option<int>) {
    && Scanned(obs, slots, k) && OpenBlock(obs, slots, k, start, previous)
    && Covered(obs, slots, k, runs, start)
    && (start.Some? ==> RunsUpTo(obs, runs, start.value))
    && (start.None? && k > 0 ==> RunsUpTo(obs, runs, slots[k - 1]))
    && (start.None? && k == 0 ==> runs == [])
  }

  function Closed(runs: seq<Run>, start: Option<int>, previous: Option<int>): seq<Run> {
    if start.Some? && previous.Some? then runs + [Run(start.value, previous.value, Length(start.value, previous.value))]
    else runs
  }

  lemma ScanCloudflare(obs: Observations, slots: seq<int>, k: nat, runs: seq<Run>, start: Option<int>,
                       previous: Option<int>)
    requires Scanning(obs, slots, k, runs, start, previous) && k < |slots| && CloudflareAt(obs, slots[k])
    ensures Scanning(obs, slots, k + 1, Closed(runs, start, previous), None, None)
  {
    if start.Some? {
      CloseBlock(obs, slots, k, runs, start, previous);
      assert slots[k - 1] < slots[k];
    }
  }

  lemma TakeoverGrows(obs: Observations, slots: seq<int>, k: nat, runs: seq<Run>, start: Option<int>,
                      previous: Option<int>)
    requires Scanning(obs, slots, k, runs, start, previous) && k < |slots| && TakeoverAt(obs, slots[k])
    requires previous.Some? && slots[k] == previous.value + 60
    ensures Scanning(obs, slots, k + 1, runs, start, Some(slots[k]))
  {
    OpenedBlock(obs, slots, k, start, previous);
  }

  lemma TakeoverOpens(obs: Observations, slots: seq<int>, k: nat, runs: seq<Run>, start: Option<int>,
                      previous: Option<int>)
    requires Scanning(obs, slots, k, runs, start, previous) && k < |slots| && TakeoverAt(obs, slots[k])
    requires previous.None? || slots[k] != previous.value + 60
    ensures Scanning(obs, slots, k + 1, Closed(runs, start, previous), Some(slots[k]), Some(slots[k]))
  {
    OpenedBlock(obs, slots, k, start, previous);
    if start.Some? {
      CloseBlock(obs, slots, k, runs, start, previous);
    }
  }

  lemma ScanTakeover(obs: Observations, slots: seq<int>, k: nat, runs: seq<Run>, start: Option<int>,
                     previous: Option<int>)
    requires Scanning(obs, slots, k, runs, start, previous) && k < |slots| && TakeoverAt(obs, slots[k])
    ensures previous.Some? && slots[k] == previous.value + 60 ==>
      Scanning(obs, slots, k + 1, runs, start, Some(slots[k]))
    ensures previous.None? || slots[k] != previous.value + 60 ==>
      Scanning(obs, slots, k + 1, Closed(runs, start, previous), Some(slots[k]), Some(slots[k]))
  {
    if previous.Some? && slots[k] == previous.value + 60 {
      TakeoverGrows(obs, slots, k, runs, start, previous);
    } else {
      TakeoverOpens(obs, slots, k, runs, start, previous);
    }
  }

  lemma ScanEnd(obs: Observations, slots: seq<int>, runs: seq<Run>, start: Option<int>, previous: Option<int>)
    requires Scanning(obs, slots, |slots|, runs, start, previous)
    ensures AllRuns(obs, Closed(runs, start, previous))
  {
    if start.Some? {
      CloseBlock(obs, slots, |slots|, runs, start, previous);
      ScanComplete(obs, slots, Closed(runs, start, previous), previous.value + 1);
    } else if |slots| > 0 {
      ScanComplete(obs, slots, runs, slots[|slots| - 1]);
    } else {
      ScanComplete(obs, slots, runs, 0);
    }
  }

  /** The runs that end before the last slot, and the block it leaves open. */
  method ScanSlots(observations: Observations, slots: seq<int>)
    returns (runs: seq<Run>, start: Option<int>, previous: Option<int>)
    requires Scanned(observations, slots, 0)
    ensures Scanning(observations, slots, |slots|, runs, start, previous)
  {
    runs := [];
    start, previous := None, None;
    for k := 0 to |slots|
      invariant Scanning(observations, slots, k, runs, start, previous)
    {
      var slot := slots[k];
      if observations[slot] != WatchdogTakeover {
        ScanCloudflare(observations, slots, k, runs, start, previous);
        runs := Closed(runs, start, previous);
        start, previous := None, None;
      } else {
        ScanTakeover(observations, slots, k, runs, start, previous);
        if previous.None? || slot != previous.value + 60 {
          runs := Closed(runs, start, previous);
          start := Some(slot);
        }
        previous := Some(slot);
      }
    }
  }

  method TakeoverRuns(observations: Observations) returns (runs: seq<Run>)
    requires Aligned(observations)
    ensures AllRuns(observations, runs)
  {
    var slots := Sorted(observations.Keys);
    var start, previous;
    runs, start, previous := ScanSlots(observations, slots);
    ScanEnd(observations, slots, runs, start, previous);
    runs := Closed(runs, start, previous);
  }

  // ---- Episodes ----

  /** `r` is the first Cloudflare slot after `end`. */
  ghost predicate IsRecovery(obs: Observations, end: int, r: Option<int>) {
    match r
    case Some(c) => end < c && CloudflareAt(obs, c) && forall s :: end < s < c ==> !CloudflareAt(obs, s)
    case None => forall s :: end < s ==> !CloudflareAt(obs, s)
  }

  function FirstAfter(slots: seq<int>, end: int): Option<int> {
    if slots == [] then None
    else if slots[0] > end then Some(slots[0])
    else FirstAfter(slots[1..], end)
  }

  lemma {:induction false} FirstAfterIsFirst(slots: seq<int>, end: int)
    requires Ascending(slots)
    ensures match FirstAfter(slots, end)
      case Some(c) => c in slots && c > end && forall s :: s in slots && s > end ==> c <= s
      case None => forall s :: s in slots ==> s <= end
  {
    if slots != [] && slots[0] <= end {
      FirstAfterIsFirst(slots[1..], end);
      assert slots == [slots[0]] + slots[1..];
    }
  }

  predicate HasGap(obs: Observations, a: int, b: int) {
    exists s :: a <= s <= b && (s - a) % 60 == 0 && s !in obs
  }

  function IndexOf(eps: seq<Episode>, recovery: Option<int>): (k: int)
    ensures -1 <= k < |eps|
    ensures k >= 0 ==> eps[k].recovery == recovery
    ensures k < 0 ==> forall i :: 0 <= i < |eps| ==> eps[i].recovery != recovery
  {
    if eps == [] then -1
    else if eps[|eps| - 1].recovery == recovery then |eps| - 1
    else IndexOf(eps[..|eps| - 1], recovery)
  }

  lemma FirstIsRecovery(obs: Observations, slots: seq<int>, end: int)
    requires Ascending(slots) && forall s :: s in slots <==> CloudflareAt(obs, s)
    ensures IsRecovery(obs, end, FirstAfter(slots, end))
  {
    FirstAfterIsFirst(slots, end);
  }

  // Episodes as spans of the qualifying runs `q`, taken in order.

  function MaxCount(q: seq<Run>, lo: nat, hi: nat): int
    requires lo <= hi < |q|
  {
    if lo == hi then q[hi].count
    else if MaxCount(q, lo, hi - 1) < q[hi].count then q[hi].count
    else MaxCount(q, lo, hi - 1)
  }

  ghost predicate NoCloudflare(obs: Observations, a: int, b: int) {
    forall s :: a <= s <= b ==> !CloudflareAt(obs, s)
  }

  /** Runs in order, none containing a Cloudflare slot. */
  ghost predicate RunsApart(obs: Observations, q: seq<Run>) {
    && (forall i :: 0 <= i < |q| ==> q[i].start <= q[i].end && NoCloudflare(obs, q[i].start, q[i].end))
    && (forall i, j :: 0 <= i < j < |q| ==> q[i].end < q[j].start)
  }

  datatype Span = Span(lo: nat, hi: nat)

  /** Episode `e` is the runs `lo..hi` of `q`. */
  ghost predicate Spans(obs: Observations, q: seq<Run>, e: Episode, p: Span) {
    && p.lo <= p.hi < |q|
    && e.start == q[p.lo].start && e.end == q[p.hi].end
    && e.identityStart == q[p.lo].start && e.identityEnd == q[p.lo].end
    && e.count == MaxCount(q, p.lo, p.hi)
    && NoCloudflare(obs, e.start, e.end) && IsRecovery(obs, e.end, e.recovery)
  }

  ghost predicate Separated(obs: Observations, x: int, y: int) {
    exists c :: x < c < y && CloudflareAt(obs, c)
  }

  /** The episodes tile the first `n` runs, split exactly where a recovery lies between. */
  ghost predicate Tiled(obs: Observations, q: seq<Run>, n: nat, eps: seq<Episode>, spans: seq<Span>) {
    && n <= |q| && |spans| == |eps|
    && (forall i :: 0 <= i < |eps| ==> Spans(obs, q, eps[i], spans[i]) && spans[i].hi < n)
    && (if n == 0 then eps == [] else |eps| > 0 && spans[0].lo == 0 && spans[|eps| - 1].hi == n - 1)
    && (forall i :: 0 < i < |eps| ==> NextTo(obs, eps, spans, i))
  }

  /** Episode `i` follows the one before it, with a Cloudflare slot between. */
  ghost predicate NextTo(obs: Observations, eps: seq<Episode>, spans: seq<Span>, i: nat)
    requires 0 < i < |eps| == |spans|
  {
    spans[i].lo == spans[i - 1].hi + 1 && Separated(obs, eps[i - 1].end, eps[i].start)
  }

  lemma RecoveredBefore(obs: Observations, end: int, recovery: Option<int>, c: int, b: int)
    requires IsRecovery(obs, end, recovery) && end < c < b && CloudflareAt(obs, c)
    ensures !IsRecovery(obs, b, recovery)
  {
    assert recovery.Some? && recovery.value <= c;
  }

  lemma SpanForward(obs: Observations, q: seq<Run>, e: Episode, p: Span)
    requires RunsApart(obs, q) && Spans(obs, q, e, p)
    ensures e.start <= e.end
  {
  }

  lemma SpansInOrder(obs: Observations, q: seq<Run>, n: nat, eps: seq<Episode>, spans: seq<Span>, i: nat, j: nat)
    requires RunsApart(obs, q) && Tiled(obs, q, n, eps, spans) && i < j < |eps|
    ensures spans[i].hi < spans[j].lo
    ensures eps[i].end < eps[j].start && Separated(obs, eps[i].end, eps[j].start)
  {
    assert NextTo(obs, eps, spans, j);
    if i + 1 < j {
      SpansInOrder(obs, q, n, eps, spans, i, j - 1);
      assert Spans(obs, q, eps[j - 1], spans[j - 1]);
      var c :| eps[i].end < c < eps[j - 1].start && CloudflareAt(obs, c);
      SpanForward(obs, q, eps[j - 1], spans[j - 1]);
    }
    assert Spans(obs, q, eps[i], spans[i]) && Spans(obs, q, eps[j], spans[j]);
  }

  /** Only the last episode can still be waiting for its recovery. */
  lemma EarlierRecovered(obs: Observations, q: seq<Run>, n: nat, eps: seq<Episode>, spans: seq<Span>, k: nat)
    requires RunsApart(obs, q) && Tiled(obs, q, n, eps, spans) && n < |q| && k + 1 < |eps|
    ensures !IsRecovery(obs, q[n].end, eps[k].recovery)
  {
    SpansInOrder(obs, q, n, eps, spans, k, k + 1);
    assert Spans(obs, q, eps[k], spans[k]) && Spans(obs, q, eps[k + 1], spans[k + 1]);
    var c :| eps[k].end < c < eps[k + 1].start && CloudflareAt(obs, c);
    RecoveredBefore(obs, eps[k].end, eps[k].recovery, c, q[n].end);
  }

  function Extended(e: Episode, run: Run): Episode {
    e.(start := if run.start < e.start then run.start else e.start,
       end := if e.end < run.end then run.end else e.end,
       count := if e.count < run.count then run.count else e.count)
  }

  lemma RecoveringIsLast(obs: Observations, q: seq<Run>, n: nat, eps: seq<Episode>, spans: seq<Span>, k: nat)
    requires RunsApart(obs, q) && Tiled(obs, q, n, eps, spans) && n < |q|
    requires k < |eps| && IsRecovery(obs, q[n].end, eps[k].recovery)
    ensures k == |eps| - 1
  {
    if k + 1 < |eps| {
      EarlierRecovered(obs, q, n, eps, spans, k);
    }
  }

  /** A run with the recovery of an episode extends that episode, which is the last. */
  lemma MergeRun(obs: Observations, q: seq<Run>, n: nat, eps: seq<Episode>, spans: seq<Span>, k: nat)
    requires RunsApart(obs, q) && Tiled(obs, q, n, eps, spans) && n < |q|
    requires k < |eps| && IsRecovery(obs, q[n].end, eps[k].recovery)
    ensures Tiled(obs, q, n + 1, eps[k := Extended(eps[k], q[n])], spans[k := Span(spans[k].lo, n)])
  {
    RecoveringIsLast(obs, q, n, eps, spans, k);
    SpansMerge(obs, q, n, eps[k], spans[k]);
    LastExtended(obs, q, n, eps, spans, Extended(eps[k], q[n]), Span(spans[k].lo, n));
  }

  lemma LastExtended(obs: Observations, q: seq<Run>, n: nat, eps: seq<Episode>, spans: seq<Span>, e: Episode, p: Span)
    requires Tiled(obs, q, n, eps, spans) && n < |q| && eps != [] && Spans(obs, q, e, p)
    requires p.lo == spans[|eps| - 1].lo && p.hi == n && e.start == eps[|eps| - 1].start
    ensures Tiled(obs, q, n + 1, eps[|eps| - 1 := e], spans[|eps| - 1 := p])
  {
    var eps', spans' := eps[|eps| - 1 := e], spans[|eps| - 1 := p];
    forall i | 0 < i < |eps'| ensures NextTo(obs, eps', spans', i) {
      assert NextTo(obs, eps, spans, i);
    }
  }

  lemma SpansMerge(obs: Observations, q: seq<Run>, n: nat, e: Episode, p: Span)
    requires RunsApart(obs, q) && Spans(obs, q, e, p) && p.hi + 1 == n < |q| && IsRecovery(obs, q[n].end, e.recovery)
    ensures Spans(obs, q, Extended(e, q[n]), Span(p.lo, n))
  {
    assert q[p.hi].end < q[n].start;
    forall s | e.start <= s <= q[n].end ensures !CloudflareAt(obs, s) {
      if e.end < s {
        assert e.recovery.None? || s < e.recovery.value;
      }
    }
  }

  lemma RecoveredBetween(obs: Observations, end: int, r: Option<int>, a: int, b: int, r': Option<int>)
    requires IsRecovery(obs, end, r) && IsRecovery(obs, b, r') && r != r'
    requires end < a <= b && NoCloudflare(obs, a, b)
    ensures Separated(obs, end, a)
  {
    assert r.Some? ==> CloudflareAt(obs, r.value);
    assert r'.Some? ==> CloudflareAt(obs, r'.value);
  }

  lemma StartEpisode(obs: Observations, q: seq<Run>, n: nat, eps: seq<Episode>, spans: seq<Span>, e: Episode)
    requires RunsApart(obs, q) && Tiled(obs, q, n, eps, spans) && n < |q|
    requires IsRecovery(obs, q[n].end, e.recovery) && forall i :: 0 <= i < |eps| ==> eps[i].recovery != e.recovery
    requires e.start == e.identityStart == q[n].start && e.end == e.identityEnd == q[n].end && e.count == q[n].count
    ensures Tiled(obs, q, n + 1, eps + [e], spans + [Span(n, n)])
  {
    if n > 0 {
      var last := eps[|eps| - 1];
      assert Spans(obs, q, last, spans[|eps| - 1]);
      RecoveredBetween(obs, last.end, last.recovery, q[n].start, q[n].end, e.recovery);
    }
    assert Spans(obs, q, e, Span(n, n));
    AppendTile(obs, q, n, eps, spans, e);
  }

  lemma AppendTile(obs: Observations, q: seq<Run>, n: nat, eps: seq<Episode>, spans: seq<Span>, e: Episode)
    requires Tiled(obs, q, n, eps, spans) && n < |q| && Spans(obs, q, e, Span(n, n))
    requires n > 0 ==> Separated(obs, eps[|eps| - 1].end, e.start)
    ensures Tiled(obs, q, n + 1, eps + [e], spans + [Span(n, n)])
  {
    var eps', spans' := eps + [e], spans + [Span(n, n)];
    forall i | 0 < i < |eps'| ensures NextTo(obs, eps', spans', i) {
      if i < |eps| {
        assert NextTo(obs, eps, spans, i);
      }
    }
  }

  lemma {:induction false} MaxCountLonger(q: seq<Run>, run: Run, lo: nat, hi: nat)
    requires lo <= hi < |q|
    ensures MaxCount(q + [run], lo, hi) == MaxCount(q, lo, hi)
  {
    if lo < hi {
      MaxCountLonger(q, run, lo, hi - 1);
    }
  }

  lemma TiledLonger(obs: Observations, q: seq<Run>, n: nat, eps: seq<Episode>, spans: seq<Span>, run: Run)
    requires Tiled(obs, q, n, eps, spans)
    ensures Tiled(obs, q + [run], n, eps, spans)
  {
    forall i | 0 <= i < |eps| ensures Spans(obs, q + [run], eps[i], spans[i]) {
      assert Spans(obs, q, eps[i], spans[i]);
      MaxCountLonger(q, run, spans[i].lo, spans[i].hi);
    }
  }

  // ---- What the episodes of a set of observations are ----

  ghost predicate Qualifying(obs: Observations, threshold: int, a: int, b: int) {
    MaximalRun(obs, a, b) && Length(a, b) >= threshold
  }

  /** An episode goes from one qualifying run, its identity, to another, with no
      Cloudflare slot between; its count is that of the longest run it contains. */
  ghost predicate EpisodeOk(obs: Observations, threshold: int, e: Episode) {
    && Qualifying(obs, threshold, e.identityStart, e.identityEnd)
    && e.start == e.identityStart && e.identityEnd <= e.end
    && (exists a :: e.start <= a && Qualifying(obs, threshold, a, e.end))
    && NoCloudflare(obs, e.start, e.end)
    && IsRecovery(obs, e.end, e.recovery)
    && (forall a, b :: e.start <= a && b <= e.end && Qualifying(obs, threshold, a, b) ==> Length(a, b) <= e.count)
    && (exists a, b :: e.start <= a && b <= e.end && Qualifying(obs, threshold, a, b) && Length(a, b) == e.count)
    && (e.unresolvedGaps <==> HasGap(obs, e.start, e.end))
  }

  ghost predicate EachOk(obs: Observations, threshold: int, eps: seq<Episode>) {
    forall i :: 0 <= i < |eps| ==> EpisodeOk(obs, threshold, eps[i])
  }

  ghost predicate Apart(obs: Observations, eps: seq<Episode>) {
    forall i, j :: 0 <= i < j < |eps| ==> eps[i].end < eps[j].start && Separated(obs, eps[i].end, eps[j].start)
  }

  ghost predicate Inside(eps: seq<Episode>, a: int, b: int) {
    exists i :: 0 <= i < |eps| && eps[i].start <= a && b <= eps[i].end
  }

  ghost predicate CoverAll(obs: Observations, threshold: int, eps: seq<Episode>) {
    forall a, b {:trigger Inside(eps, a, b)} :: Qualifying(obs, threshold, a, b) ==> Inside(eps, a, b)
  }

  /** The episodes are in order, a Cloudflare slot lies between any two, and every
      qualifying run is inside one of them. */
  ghost predicate IsEpisodes(obs: Observations, threshold: int, eps: seq<Episode>) {
    EachOk(obs, threshold, eps) && Apart(obs, eps) && CoverAll(obs, threshold, eps)
  }

  predicate GapsNoted(obs: Observations, eps: seq<Episode>) {
    forall i :: 0 <= i < |eps| ==> (eps[i].unresolvedGaps <==> HasGap(obs, eps[i].start, eps[i].end))
  }

  ghost predicate AllQualifying(obs: Observations, threshold: int, q: seq<Run>) {
    && (forall i :: 0 <= i < |q| ==>
          Qualifying(obs, threshold, q[i].start, q[i].end) && q[i].count == Length(q[i].start, q[i].end))
    && (forall a, b {:trigger Run(a, b, Length(a, b))} ::
          Qualifying(obs, threshold, a, b) ==> Run(a, b, Length(a, b)) in q)
  }

  lemma {:induction false} MaxCountIsMax(q: seq<Run>, lo: nat, hi: nat) returns (k: nat)
    requires lo <= hi < |q|
    ensures forall j :: lo <= j <= hi ==> q[j].count <= MaxCount(q, lo, hi)
    ensures lo <= k <= hi && q[k].count == MaxCount(q, lo, hi)
  {
    k := hi;
    if lo < hi {
      var j := MaxCountIsMax(q, lo, hi - 1);
      if q[hi].count <= MaxCount(q, lo, hi - 1) {
        k := j;
      }
    }
  }

  lemma SpanCount(obs: Observations, threshold: int, q: seq<Run>, e: Episode, p: Span)
    requires RunsApart(obs, q) && AllQualifying(obs, threshold, q) && Spans(obs, q, e, p)
    ensures forall a, b :: e.start <= a && b <= e.end && Qualifying(obs, threshold, a, b) ==> Length(a, b) <= e.count
  {
    var _ := MaxCountIsMax(q, p.lo, p.hi);
    forall a, b | e.start <= a && b <= e.end && Qualifying(obs, threshold, a, b) ensures Length(a, b) <= e.count {
      var j :| 0 <= j < |q| && q[j] == Run(a, b, Length(a, b));
      RunInside(obs, q, e, p, j);
    }
  }

  lemma SpanReached(obs: Observations, threshold: int, q: seq<Run>, e: Episode, p: Span)
    requires RunsApart(obs, q) && AllQualifying(obs, threshold, q) && Spans(obs, q, e, p)
    ensures exists a, b :: e.start <= a && b <= e.end && Qualifying(obs, threshold, a, b) && Length(a, b) == e.count
  {
    var k := MaxCountIsMax(q, p.lo, p.hi);
    InSpan(obs, q, e, p, k);
    assert Qualifying(obs, threshold, q[k].start, q[k].end) && Length(q[k].start, q[k].end) == e.count;
  }

  lemma RunInside(obs: Observations, q: seq<Run>, e: Episode, p: Span, j: nat)
    requires RunsApart(obs, q) && Spans(obs, q, e, p) && j < |q|
    requires e.start <= q[j].start && q[j].end <= e.end
    ensures p.lo <= j <= p.hi
  {
  }

  lemma SpanIsEpisode(obs: Observations, threshold: int, q: seq<Run>, e: Episode, p: Span)
    requires RunsApart(obs, q) && AllQualifying(obs, threshold, q) && Spans(obs, q, e, p)
    requires e.unresolvedGaps <==> HasGap(obs, e.start, e.end)
    ensures EpisodeOk(obs, threshold, e)
  {
    SpanCount(obs, threshold, q, e, p);
    SpanReached(obs, threshold, q, e, p);
    assert Qualifying(obs, threshold, q[p.lo].start, q[p.lo].end);
    assert Qualifying(obs, threshold, q[p.hi].start, q[p.hi].end);
  }

  lemma TilesCover(obs: Observations, threshold: int, q: seq<Run>, eps: seq<Episode>, spans: seq<Span>)
    requires RunsApart(obs, q) && AllQualifying(obs, threshold, q) && Tiled(obs, q, |q|, eps, spans)
    ensures CoverAll(obs, threshold, eps)
  {
    forall a, b | Qualifying(obs, threshold, a, b) ensures Inside(eps, a, b) {
      assert Run(a, b, Length(a, b)) in q;
      var j :| 0 <= j < |q| && q[j] == Run(a, b, Length(a, b));
      var i := TileOf(obs, q, |q|, eps, spans, j);
    }
  }

  lemma TilesApart(obs: Observations, q: seq<Run>, eps: seq<Episode>, spans: seq<Span>)
    requires RunsApart(obs, q) && Tiled(obs, q, |q|, eps, spans)
    ensures Apart(obs, eps)
  {
    forall i, j | 0 <= i < j < |eps| ensures eps[i].end < eps[j].start && Separated(obs, eps[i].end, eps[j].start) {
      SpansInOrder(obs, q, |q|, eps, spans, i, j);
    }
  }

  lemma TilesOk(obs: Observations, threshold: int, q: seq<Run>, eps: seq<Episode>, spans: seq<Span>)
    requires RunsApart(obs, q) && AllQualifying(obs, threshold, q) && Tiled(obs, q, |q|, eps, spans)
    requires GapsNoted(obs, eps)
    ensures EachOk(obs, threshold, eps)
  {
    forall i | 0 <= i < |eps| ensures EpisodeOk(obs, threshold, eps[i]) {
      assert Spans(obs, q, eps[i], spans[i]);
      SpanIsEpisode(obs, threshold, q, eps[i], spans[i]);
    }
  }

  lemma InSpan(obs: Observations, q: seq<Run>, e: Episode, p: Span, j: nat)
    requires RunsApart(obs, q) && Spans(obs, q, e, p) && p.lo <= j <= p.hi
    ensures e.start <= q[j].start && q[j].end <= e.end
  {
  }

  lemma TileStep(obs: Observations, q: seq<Run>, n: nat, eps: seq<Episode>, spans: seq<Span>, i: nat, j: nat)
    requires Tiled(obs, q, n, eps, spans) && i < |eps| && j <= spans[i].hi
    ensures j < spans[i].lo ==> i > 0 && j <= spans[i - 1].hi
  {
    assert i > 0 ==> NextTo(obs, eps, spans, i);
  }

  lemma {:induction false} TileOf(obs: Observations, q: seq<Run>, n: nat, eps: seq<Episode>, spans: seq<Span>, j: nat)
    returns (i: nat)
    requires RunsApart(obs, q) && Tiled(obs, q, n, eps, spans) && j < n
    ensures i < |eps| && eps[i].start <= q[j].start && q[j].end <= eps[i].end
  {
    i := |eps| - 1;
    while j < spans[i].lo
      invariant i < |eps| && j <= spans[i].hi
      decreases i
    {
      TileStep(obs, q, n, eps, spans, i, j);
      i := i - 1;
    }
    InSpan(obs, q, eps[i], spans[i], j);
  }

  /** The runs long enough to count. */
  function Filter(runs: seq<Run>, threshold: int): seq<Run> {
    if runs == [] then []
    else
      var front, last := Filter(runs[..|runs| - 1], threshold), runs[|runs| - 1];
      if last.count >= threshold then front + [last] else front
  }

  lemma {:induction false} FilterMembers(runs: seq<Run>, threshold: int)
    ensures forall r :: r in Filter(runs, threshold) <==> r in runs && r.count >= threshold
  {
    if runs != [] {
      FilterMembers(runs[..|runs| - 1], threshold);
      assert runs == runs[..|runs| - 1] + [runs[|runs| - 1]];
    }
  }

  lemma ApartSnoc(obs: Observations, front: seq<Run>, last: Run)
    requires RunsApart(obs, front)
    requires last.start <= last.end && NoCloudflare(obs, last.start, last.end)
    requires forall r :: r in front ==> r.end < last.start
    ensures RunsApart(obs, front + [last])
  {
  }

  lemma ApartFront(obs: Observations, runs: seq<Run>)
    requires RunsApart(obs, runs) && runs != []
    ensures RunsApart(obs, runs[..|runs| - 1])
    ensures forall r :: r in runs[..|runs| - 1] ==> r.end < runs[|runs| - 1].start
  {
  }

  lemma {:induction false} FilterApart(obs: Observations, runs: seq<Run>, threshold: int)
    requires RunsApart(obs, runs)
    ensures RunsApart(obs, Filter(runs, threshold))
  {
    if runs != [] {
      ApartFront(obs, runs);
      FilterApart(obs, runs[..|runs| - 1], threshold);
      FilterMembers(runs[..|runs| - 1], threshold);
      if runs[|runs| - 1].count >= threshold {
        ApartSnoc(obs, Filter(runs[..|runs| - 1], threshold), runs[|runs| - 1]);
      }
    }
  }

  lemma BlockHasNoCloudflare(obs: Observations, a: int, b: int)
    requires Aligned(obs) && Block(obs, a, b)
    ensures NoCloudflare(obs, a, b)
  {
    forall s | a <= s <= b ensures !CloudflareAt(obs, s) {
      assert s in obs ==> TakeoverAt(obs, s);
    }
  }

  lemma AllRunsApart(obs: Observations, runs: seq<Run>)
    requires Aligned(obs) && AllRuns(obs, runs)
    ensures RunsApart(obs, runs)
  {
    forall i | 0 <= i < |runs| ensures runs[i].start <= runs[i].end && NoCloudflare(obs, runs[i].start, runs[i].end) {
      assert MaximalRun(obs, runs[i].start, runs[i].end);
      BlockHasNoCloudflare(obs, runs[i].start, runs[i].end);
    }
  }

  lemma FilterQualifies(obs: Observations, runs: seq<Run>, threshold: int)
    requires AllRuns(obs, runs)
    ensures AllQualifying(obs, threshold, Filter(runs, threshold))
  {
    FilterMembers(runs, threshold);
    var q := Filter(runs, threshold);
    forall i | 0 <= i < |q|
      ensures Qualifying(obs, threshold, q[i].start, q[i].end) && q[i].count == Length(q[i].start, q[i].end) {
      assert q[i] in runs;
    }
  }

  function WithGaps(obs: Observations, eps: seq<Episode>): (r: seq<Episode>)
    ensures |r| == |eps|
    ensures forall i :: 0 <= i < |eps| ==> r[i] == eps[i].(unresolvedGaps := HasGap(obs, eps[i].start, eps[i].end))
    ensures GapsNoted(obs, r)
  {
    seq(|eps|, i requires 0 <= i < |eps| => eps[i].(unresolvedGaps := HasGap(obs, eps[i].start, eps[i].end)))
  }

  lemma TiledWithGaps(obs: Observations, q: seq<Run>, n: nat, eps: seq<Episode>, spans: seq<Span>)
    requires Tiled(obs, q, n, eps, spans)
    ensures Tiled(obs, q, n, WithGaps(obs, eps), spans)
  {
    var r := WithGaps(obs, eps);
    forall i | 0 <= i < |r| ensures Spans(obs, q, r[i], spans[i]) {
      assert Spans(obs, q, eps[i], spans[i]);
    }
    forall i | 0 < i < |r| ensures NextTo(obs, r, spans, i) {
      assert NextTo(obs, eps, spans, i);
    }
  }

  /** The qualifying runs in order, none with a Cloudflare slot. */
  ghost predicate QualifyingRuns(obs: Observations, threshold: int, q: seq<Run>) {
    RunsApart(obs, q) && AllQualifying(obs, threshold, q)
  }

  lemma FilterIsQualifying(obs: Observations, threshold: int, runs: seq<Run>)
    requires Aligned(obs) && AllRuns(obs, runs)
    ensures QualifyingRuns(obs, threshold, Filter(runs, threshold))
  {
    AllRunsApart(obs, runs);
    FilterApart(obs, runs, threshold);
    FilterQualifies(obs, runs, threshold);
  }

  lemma TilesAreEpisodes(obs: Observations, threshold: int, q: seq<Run>, eps: seq<Episode>, spans: seq<Span>)
    requires QualifyingRuns(obs, threshold, q) && Tiled(obs, q, |q|, eps, spans) && GapsNoted(obs, eps)
    ensures IsEpisodes(obs, threshold, eps)
  {
    TilesOk(obs, threshold, q, eps, spans);
    TilesApart(obs, q, eps, spans);
    TilesCover(obs, threshold, q, eps, spans);
  }

  lemma NotingGaps(obs: Observations, threshold: int, q: seq<Run>, eps: seq<Episode>, spans: seq<Span>)
    requires QualifyingRuns(obs, threshold, q) && Tiled(obs, q, |q|, eps, spans)
    ensures IsEpisodes(obs, threshold, WithGaps(obs, eps))
  {
    TiledWithGaps(obs, q, |q|, eps, spans);
    TilesAreEpisodes(obs, threshold, q, WithGaps(obs, eps), spans);
  }

  /** A run joins the episode with its recovery, or starts one. */
  function AddRun(cloudflareSlots: seq<int>, eps: seq<Episode>, run: Run): seq<Episode> {
    var recovery := FirstAfter(cloudflareSlots, run.end);
    var k := IndexOf(eps, recovery);
    if k < 0 then eps + [Episode(run.start, run.end, run.count, run.start, run.end, recovery, false)]
    else eps[k := Extended(eps[k], run)]
  }

  function Collected(cloudflareSlots: seq<int>, runs: seq<Run>, threshold: int): seq<Episode> {
    if runs == [] then []
    else
      var front, last := Collected(cloudflareSlots, runs[..|runs| - 1], threshold), runs[|runs| - 1];
      if last.count >= threshold then AddRun(cloudflareSlots, front, last) else front
  }

  lemma AddRunTiles(obs: Observations, slots: seq<int>, q: seq<Run>, n: nat, eps: seq<Episode>, spans: seq<Span>)
    returns (spans': seq<Span>)
    requires Ascending(slots) && forall s :: s in slots <==> CloudflareAt(obs, s)
    requires RunsApart(obs, q) && Tiled(obs, q, n, eps, spans) && n < |q|
    ensures Tiled(obs, q, n + 1, AddRun(slots, eps, q[n]), spans')
  {
    var recovery := FirstAfter(slots, q[n].end);
    FirstIsRecovery(obs, slots, q[n].end);
    var k := IndexOf(eps, recovery);
    if k < 0 {
      StartEpisode(obs, q, n, eps, spans,
                   Episode(q[n].start, q[n].end, q[n].count, q[n].start, q[n].end, recovery, false));
      spans' := spans + [Span(n, n)];
    } else {
      MergeRun(obs, q, n, eps, spans, k);
      spans' := spans[k := Span(spans[k].lo, n)];
    }
  }

  lemma OneMoreRun(obs: Observations, slots: seq<int>, q: seq<Run>, run: Run, eps: seq<Episode>, spans: seq<Span>)
    returns (spans': seq<Span>)
    requires Ascending(slots) && forall s :: s in slots <==> CloudflareAt(obs, s)
    requires RunsApart(obs, q + [run]) && Tiled(obs, q, |q|, eps, spans)
    ensures Tiled(obs, q + [run], |q| + 1, AddRun(slots, eps, run), spans')
  {
    TiledLonger(obs, q, |q|, eps, spans, run);
    spans' := AddRunTiles(obs, slots, q + [run], |q|, eps, spans);
  }

  lemma {:induction false} CollectedTiles(obs: Observations, slots: seq<int>, runs: seq<Run>, threshold: int)
    returns (spans: seq<Span>)
    requires Ascending(slots) && forall s :: s in slots <==> CloudflareAt(obs, s)
    requires RunsApart(obs, runs)
    ensures Tiled(obs, Filter(runs, threshold), |Filter(runs, threshold)|, Collected(slots, runs, threshold), spans)
  {
    spans := [];
    if runs != [] {
      var front := runs[..|runs| - 1];
      ApartFront(obs, runs);
      spans := CollectedTiles(obs, slots, front, threshold);
      if runs[|runs| - 1].count >= threshold {
        FilterApart(obs, runs, threshold);
        spans := OneMoreRun(obs, slots, Filter(front, threshold), runs[|runs| - 1],
                            Collected(slots, front, threshold), spans);
      }
    }
  }

  method CollectEpisodes(cloudflareSlots: seq<int>, runs: seq<Run>, threshold: int) returns (episodes: seq<Episode>)
    ensures episodes == Collected(cloudflareSlots, runs, threshold)
  {
    episodes := [];
    for i := 0 to |runs|
      invariant episodes == Collected(cloudflareSlots, runs[..i], threshold)
    {
      assert runs[..i + 1][..i] == runs[..i];
      if runs[i].count >= threshold {
        episodes := AddRun(cloudflareSlots, episodes, runs[i]);
      }
    }
    assert runs[..|runs|] == runs;
  }

  /** Gaps are noted on the finished episodes, which were collected in order of
      their starts, so sorting them by start leaves them as they are. */
  method QualifyingEpisodes(observations: Observations, threshold: int) returns (episodes: seq<Episode>)
    requires Aligned(observations)
    ensures IsEpisodes(observations, threshold, episodes)
  {
    var cloudflareSlots := Sorted(set s | s in observations && observations[s] == CloudflareCron);
    var runs := TakeoverRuns(observations);
    episodes := CollectEpisodes(cloudflareSlots, runs, threshold);
    AllRunsApart(observations, runs);
    ghost var spans := CollectedTiles(observations, cloudflareSlots, runs, threshold);
    FilterIsQualifying(observations, threshold, runs);
    NotingGaps(observations, threshold, Filter(runs, threshold), episodes, spans);
    episodes := WithGaps(observations, episodes);
  }

  // ---- The observations alone determine the episodes ----

  lemma RecoveryUnique(obs: Observations, end: int, r: Option<int>, r': Option<int>)
    requires IsRecovery(obs, end, r) && IsRecovery(obs, end, r')
    ensures r == r'
  {
    assert r.Some? ==> CloudflareAt(obs, r.value);
    assert r'.Some? ==> CloudflareAt(obs, r'.value);
  }

  /** A stretch without Cloudflare slots cannot reach into two episodes. */
  lemma NotAcross(obs: Observations, eps: seq<Episode>, i: nat, j: nat, a: int, b: int)
    requires Apart(obs, eps) && i < |eps| && j < |eps| && NoCloudflare(obs, a, b)
    requires eps[i].start <= a <= eps[i].end && eps[j].start <= b <= eps[j].end && a <= b
    ensures i == j
  {
  }

  lemma EpisodeParts(obs: Observations, threshold: int, e: Episode) returns (a: int)
    requires EpisodeOk(obs, threshold, e)
    ensures Qualifying(obs, threshold, e.identityStart, e.identityEnd) && Qualifying(obs, threshold, a, e.end)
    ensures e.start == e.identityStart <= e.identityEnd <= e.end && e.start <= a <= e.end
    ensures NoCloudflare(obs, e.start, e.end)
  {
    a :| e.start <= a && Qualifying(obs, threshold, a, e.end);
  }

  lemma EpisodeInside(obs: Observations, threshold: int, e: Episode, eps: seq<Episode>) returns (i: nat)
    requires EpisodeOk(obs, threshold, e) && Apart(obs, eps) && CoverAll(obs, threshold, eps)
    ensures i < |eps| && eps[i].start <= e.start && e.end <= eps[i].end
  {
    var a := EpisodeParts(obs, threshold, e);
    i := InsideOne(obs, eps, e.identityStart, e.identityEnd, a, e.end);
  }

  lemma InsideOne(obs: Observations, eps: seq<Episode>, a: int, b: int, c: int, d: int) returns (i: nat)
    requires Apart(obs, eps) && Inside(eps, a, b) && Inside(eps, c, d)
    requires NoCloudflare(obs, a, d) && a <= b <= d && a <= c <= d
    ensures i < |eps| && eps[i].start <= a && d <= eps[i].end
  {
    i :| 0 <= i < |eps| && eps[i].start <= a && b <= eps[i].end;
    var j :| 0 <= j < |eps| && eps[j].start <= c && d <= eps[j].end;
    NotAcross(obs, eps, i, j, a, d);
  }

  lemma SameSpanSameEpisode(obs: Observations, threshold: int, e: Episode, x: Episode)
    requires EpisodeOk(obs, threshold, e) && EpisodeOk(obs, threshold, x) && e.start == x.start && e.end == x.end
    ensures e == x
  {
    MaximalRunsMeet(obs, e.identityStart, e.identityEnd, x.identityStart, x.identityEnd);
    RecoveryUnique(obs, e.end, e.recovery, x.recovery);
  }

  lemma NestedIsSame(obs: Observations, eps: seq<Episode>, k: nat, m: nat)
    requires Apart(obs, eps) && k < |eps| && m < |eps| && eps[k].start <= eps[k].end
    requires eps[m].start <= eps[k].start && eps[k].end <= eps[m].end
    ensures k == m
  {
  }

  lemma OkAt(obs: Observations, threshold: int, eps: seq<Episode>, k: nat)
    requires EachOk(obs, threshold, eps) && k < |eps|
    ensures EpisodeOk(obs, threshold, eps[k])
  {
  }

  /** Episode `k` of one list has the span of an episode of the other. */
  lemma SharedSpan(obs: Observations, threshold: int, eps: seq<Episode>, e: Episode, k: nat, x: Episode)
    requires EpisodeOk(obs, threshold, e) && EpisodeOk(obs, threshold, x)
    requires Apart(obs, eps) && CoverAll(obs, threshold, eps) && k < |eps| && eps[k] == e
    requires x.start <= e.start && e.end <= x.end
    ensures e == x
  {
    var m := EpisodeInside(obs, threshold, x, eps);
    var _ := EpisodeParts(obs, threshold, e);
    NestedIsSame(obs, eps, k, m);
    SameSpanSameEpisode(obs, threshold, e, x);
  }

  lemma EpisodeShared(obs: Observations, threshold: int, eps: seq<Episode>, eps': seq<Episode>, k: nat)
    requires EachOk(obs, threshold, eps) && Apart(obs, eps) && CoverAll(obs, threshold, eps)
    requires EachOk(obs, threshold, eps') && Apart(obs, eps') && CoverAll(obs, threshold, eps')
    requires k < |eps|
    ensures eps[k] in eps'
  {
    OkAt(obs, threshold, eps, k);
    var i := EpisodeInside(obs, threshold, eps[k], eps');
    OkAt(obs, threshold, eps', i);
    SharedSpan(obs, threshold, eps, eps[k], k, eps'[i]);
  }

  /** Any two lists that meet the description have the same episodes. */
  lemma EpisodesDetermined(obs: Observations, threshold: int, eps: seq<Episode>, eps': seq<Episode>)
    requires IsEpisodes(obs, threshold, eps) && IsEpisodes(obs, threshold, eps')
    ensures forall e :: e in eps <==> e in eps'
  {
    forall k | 0 <= k < |eps| ensures eps[k] in eps' {
      EpisodeShared(obs, threshold, eps, eps', k);
    }
    forall k | 0 <= k < |eps'| ensures eps'[k] in eps {
      EpisodeShared(obs, threshold, eps', eps, k);
    }
  }

  lemma FullyObserved(obs: Observations, a: int, b: int)
    requires Aligned(obs) && a % 60 == 0 && b % 60 == 0 && a <= b
    requires NoCloudflare(obs, a, b) && !HasGap(obs, a, b)
    ensures Block(obs, a, b)
  {
    forall s | a <= s <= b && s % 60 == 0 ensures TakeoverAt(obs, s) {
      assert (s - a) % 60 == 0;
      assert s in obs && !CloudflareAt(obs, s);
    }
  }

  lemma OneRun(obs: Observations, a: int, b: int, c: int, d: int)
    requires Block(obs, a, d) && MaximalRun(obs, a, b) && MaximalRun(obs, c, d)
    ensures MaximalRun(obs, a, d)
  {
  }

  /** An episode without gaps is a single fully observed run. */
  lemma NoGapsIsOneRun(obs: Observations, threshold: int, e: Episode)
    requires Aligned(obs) && EpisodeOk(obs, threshold, e) && !e.unresolvedGaps
    ensures MaximalRun(obs, e.start, e.end) && e.count == Length(e.start, e.end)
  {
    var a := EpisodeParts(obs, threshold, e);
    FullyObserved(obs, e.start, e.end);
    OneRun(obs, e.start, e.identityEnd, a, e.end);
    var c, d :| e.start <= c && d <= e.end && Qualifying(obs, threshold, c, d) && Length(c, d) == e.count;
    MaximalRunsMeet(obs, e.start, e.end, c, d);
  }
}
