/** The outage records of one worker, re-matched to the recomputed episodes each
    time an observation arrives. */
module CronTracking {
  import opened CronEpisodes
  import opened Options

  const RETENTION_SLOTS := 120

  /** Seconds before the second, third, fourth and fifth upload attempt. */
  const RETRY_DELAYS: seq<int> := [120, 300, 900, 1800]

  /** What the stable report says: fixed when the outage is first detected. */
  datatype Payload = Payload(latestSlot: int, count: int)

  datatype Outage = Outage(
    start: int, end: int, count: int, identityStart: int, identityEnd: int,
    active: bool, recovery: Option<int>, recoveryLogged: bool, payload: Payload,
    attempts: nat, inFlight: bool, succeeded: bool, nextAttempt: int)

  function NewOutage(e: Episode): Outage {
    Outage(e.start, e.end, e.count, e.identityStart, e.identityEnd, true, None, false,
           Payload(e.end, e.count), 0, false, false, 0)
  }

  predicate Conclusive(e: Episode) {
    e.recovery.Some? && !e.unresolvedGaps
  }

  /** The record of an outage once matched to `e`. */
  function Matched(o: Outage, e: Episode): Outage {
    o.(start := e.start, end := e.end, count := e.count, active := !Conclusive(e),
       recovery := if Conclusive(e) then e.recovery else None,
       recoveryLogged := o.recoveryLogged || Conclusive(e))
  }

  /** The record shows the episode. */
  predicate Shows(o: Outage, e: Episode) {
    && o.start == e.start && o.end == e.end && o.count == e.count
    && (o.active <==> !Conclusive(e))
    && o.recovery == (if Conclusive(e) then e.recovery else None)
  }

  /** What never changes in a record while episodes are recomputed. */
  predicate SameIdentity(o: Outage, o': Outage) {
    && o'.identityStart == o.identityStart && o'.identityEnd == o.identityEnd && o'.payload == o.payload
    && o'.attempts == o.attempts && o'.inFlight == o.inFlight && o'.succeeded == o.succeeded
    && o'.nextAttempt == o.nextAttempt
  }

  /** Nothing has been reported of the record yet. */
  predicate Fresh(o: Outage) {
    o.attempts == 0 && !o.inFlight && !o.succeeded && o.nextAttempt == 0
  }

  predicate AnchoredIn(o: Outage, e: Episode) {
    e.start <= o.identityStart && o.identityEnd <= e.end
  }

  /** The first episode, from `k` on, that contains the anchor; -1 if none does. */
  function FirstContaining(eps: seq<Episode>, o: Outage, k: nat): (i: int)
    requires k <= |eps|
    ensures i == -1 || (k <= i < |eps| && AnchoredIn(o, eps[i]))
    ensures i == -1 ==> forall j :: k <= j < |eps| ==> !AnchoredIn(o, eps[j])
    decreases |eps| - k
  {
    if k == |eps| then -1
    else if AnchoredIn(o, eps[k]) then k
    else FirstContaining(eps, o, k + 1)
  }

  /** The first unassigned record, from `k` on, whose anchor is in episode `e`. */
  function FirstAnchored(anchored: seq<int>, taken: set<nat>, e: int, k: nat): (i: int)
    requires k <= |anchored|
    ensures i == -1 || (k <= i < |anchored| && i !in taken && anchored[i] == e)
    ensures i == -1 ==> forall j :: k <= j < |anchored| && j !in taken ==> anchored[j] != e
    ensures forall j :: k <= j < i && j !in taken ==> anchored[j] != e
    decreases |anchored| - k
  {
    if k == |anchored| then -1
    else if k !in taken && anchored[k] == e then k
    else FirstAnchored(anchored, taken, e, k + 1)
  }

  /** Record `j` is free, has no anchor, and its last interval overlaps `e`. */
  predicate Overlapping(outages: seq<Outage>, anchored: seq<int>, taken: set<nat>, e: Episode, j: int) {
    && 0 <= j < |outages| && j !in taken && (j < |anchored| ==> anchored[j] == -1)
    && outages[j].start <= e.end && e.start <= outages[j].end
  }

  /** The first unassigned record without an anchor whose last interval overlaps `e`. */
  function FirstOverlapping(outages: seq<Outage>, anchored: seq<int>, taken: set<nat>, e: Episode, k: nat): (i: int)
    requires k <= |outages|
    ensures i == -1 || (k <= i && Overlapping(outages, anchored, taken, e, i))
    ensures forall j :: k <= j < (if i == -1 then |outages| else i) ==> !Overlapping(outages, anchored, taken, e, j)
    decreases |outages| - k
  {
    if k == |outages| then -1
    else if Overlapping(outages, anchored, taken, e, k) then k
    else FirstOverlapping(outages, anchored, taken, e, k + 1)
  }

  /** Episode `n` of those assigned so far is shown by record `where[n]`. */
  ghost predicate Assigned(outages: seq<Outage>, eps: seq<Episode>, where: seq<nat>, n: nat) {
    && n == |where| <= |eps|
    && (forall e :: 0 <= e < n ==> where[e] < |outages| && Shows(outages[where[e]], eps[e]))
    && (forall d, e :: 0 <= d < e < n ==> where[d] != where[e])
  }

  /** The records that were there keep their identity; new ones show an episode. */
  ghost predicate Kept(before: seq<Outage>, outages: seq<Outage>) {
    && |before| <= |outages|
    && forall i :: 0 <= i < |before| ==> SameIdentity(before[i], outages[i])
  }

  /** A record made for `e`: its identity and its payload are those of the episode
      as first detected, and nothing of it has been reported. */
  predicate Detected(o: Outage, e: Episode) {
    && Fresh(o) && o.identityStart == e.identityStart && o.identityEnd == e.identityEnd
    && o.payload == Payload(e.end, e.count)
  }

  /** Records given no episode stay as they were; a matched one notes a recovery once
      it is over; new ones are as detected. */
  ghost predicate Rematched(before: seq<Outage>, outages: seq<Outage>, eps: seq<Episode>, where: seq<nat>)
  {
    && |where| <= |eps| && |before| <= |outages|
    && (forall i :: 0 <= i < |before| && i !in where ==> outages[i] == before[i])
    && (forall i :: |before| <= i < |outages| ==> i in where)
    && forall e :: 0 <= e < |where| ==>
         && where[e] < |outages|
         && if where[e] < |before|
            then outages[where[e]].recoveryLogged <==> before[where[e]].recoveryLogged || !outages[where[e]].active
            else
              && Detected(outages[where[e]], eps[e])
              && (outages[where[e]].recoveryLogged <==> !outages[where[e]].active)
  }

  lemma PutRematches(before: seq<Outage>, outages: seq<Outage>, eps: seq<Episode>, where: seq<nat>, k: nat)
    requires Rematched(before, outages, eps, where) && |where| < |eps| && k <= |outages| && k !in where
    ensures Rematched(before, Put(outages, k, eps[|where|]), eps, where + [k])
  {
    var n, after, where' := |where|, Put(outages, k, eps[|where|]), where + [k];
    assert where'[n] == k && forall e :: 0 <= e < n ==> where'[e] == where[e] && where[e] != k;
    forall i | 0 <= i < |after| ensures i in where' <==> i in where || i == k {
      if i in where {
        var e :| 0 <= e < n && where[e] == i;
        assert where'[e] == i;
      }
    }
    assert k < |before| ==> outages[k] == before[k];
  }

  lemma NewAreFresh(before: seq<Outage>, outages: seq<Outage>, eps: seq<Episode>, where: seq<nat>)
    requires Rematched(before, outages, eps, where)
    ensures forall i :: |before| <= i < |outages| ==> Fresh(outages[i])
  {
    forall i | |before| <= i < |outages| ensures Fresh(outages[i]) {
      assert i in where;
      var e :| 0 <= e < |where| && where[e] == i;
    }
  }

  /** Assignments when every record that was there is anchored in one episode. */
  ghost predicate ByAnchor(outages: seq<Outage>, eps: seq<Episode>, where: seq<nat>, n: nat, anchored: seq<int>) {
    && n == |where| <= |eps| && |anchored| <= |outages|
    && (forall i :: |anchored| <= i < |outages| ==> i in where)
    && (forall i :: 0 <= i < |anchored| && 0 <= anchored[i] < n ==> where[anchored[i]] == i)
    && (forall e :: 0 <= e < n ==> where[e] < |outages| && AnchoredIn(outages[where[e]], eps[e]))
    && (forall e :: 0 <= e < n && where[e] < |anchored| ==> anchored[where[e]] == e)
    && (forall e :: 0 <= e < n && where[e] >= |anchored| ==>
          && outages[where[e]].identityStart == eps[e].identityStart
          && outages[where[e]].identityEnd == eps[e].identityEnd)
  }

  /** Every record is anchored, no two in the same episode. */
  ghost predicate AllAnchored(anchored: seq<int>, eps: seq<Episode>) {
    && (forall i :: 0 <= i < |anchored| ==> 0 <= anchored[i] < |eps|)
    && (forall i, j :: 0 <= i < j < |anchored| ==> anchored[i] != anchored[j])
  }

  function AnchorsOf(outages: seq<Outage>, eps: seq<Episode>): (anchored: seq<int>)
    ensures |anchored| == |outages|
    ensures forall i :: 0 <= i < |outages| ==> anchored[i] == FirstContaining(eps, outages[i], 0)
  {
    seq(|outages|, i requires 0 <= i < |outages| => FirstContaining(eps, outages[i], 0))
  }

  /** Episode `e` goes to record `k`, or to a new one. */
  function Put(outages: seq<Outage>, k: nat, e: Episode): seq<Outage>
    requires k <= |outages|
  {
    if k == |outages| then outages + [Matched(NewOutage(e), e)] else outages[k := Matched(outages[k], e)]
  }

  lemma PutKeeps(before: seq<Outage>, outages: seq<Outage>, k: nat, e: Episode)
    requires Kept(before, outages) && k <= |outages|
    ensures Kept(before, Put(outages, k, e))
  {
  }

  lemma PutAssigns(outages: seq<Outage>, eps: seq<Episode>, where: seq<nat>, k: nat)
    requires Assigned(outages, eps, where, |where|) && |where| < |eps|
    requires k <= |outages| && k !in where
    ensures Assigned(Put(outages, k, eps[|where|]), eps, where + [k], |where| + 1)
  {
  }

  lemma PutByAnchor(outages: seq<Outage>, eps: seq<Episode>, where: seq<nat>, anchored: seq<int>, k: nat)
    requires ByAnchor(outages, eps, where, |where|, anchored) && AllAnchored(anchored, eps) && |where| < |eps|
    requires k <= |outages| && k !in where
    requires if k < |outages| then k < |anchored| && anchored[k] == |where| && AnchoredIn(outages[k], eps[|where|])
             else forall i :: 0 <= i < |anchored| ==> i in where || anchored[i] != |where|
    requires eps[|where|].start <= eps[|where|].identityStart && eps[|where|].identityEnd <= eps[|where|].end
    ensures ByAnchor(Put(outages, k, eps[|where|]), eps, where + [k], |where| + 1, anchored)
  {
    var n, where' := |where|, where + [k];
    assert where'[n] == k && forall e :: 0 <= e < n ==> where'[e] == where[e];
    forall i | |anchored| <= i < |Put(outages, k, eps[n])| ensures i in where' {
      if i < |outages| { assert i in where; }
    }
    assert forall i :: i in where ==> exists e :: 0 <= e < n && where[e] == i;
  }

  method Anchors(outages: seq<Outage>, eps: seq<Episode>) returns (anchored: seq<int>)
    ensures anchored == AnchorsOf(outages, eps)
  {
    anchored := [];
    for i := 0 to |outages|
      invariant |anchored| == i
      invariant forall j :: 0 <= j < i ==> anchored[j] == FirstContaining(eps, outages[j], 0)
    {
      anchored := anchored + [FirstContaining(eps, outages[i], 0)];
    }
  }

  predicate Free(anchored: seq<int>, taken: set<nat>, e: nat, j: int) {
    0 <= j < |anchored| && j !in taken && anchored[j] == e
  }

  /** Episode `e` goes to the first free record anchored in it, else to the first that
      lost its anchor and overlaps it; a new record is made only if there is neither. */
  ghost predicate Chosen(outages: seq<Outage>, anchored: seq<int>, taken: set<nat>, ep: Episode, e: nat, k: nat) {
    if exists j :: Free(anchored, taken, e, j) then
      Free(anchored, taken, e, k) && forall j :: 0 <= j < k ==> !Free(anchored, taken, e, j)
    else if exists j :: Overlapping(outages, anchored, taken, ep, j) then
      && Overlapping(outages, anchored, taken, ep, k)
      && forall j :: 0 <= j < k ==> !Overlapping(outages, anchored, taken, ep, j)
    else k == |outages|
  }

  lemma ChosenBefore(before: seq<Outage>, outages: seq<Outage>, anchored: seq<int>, taken: set<nat>, ep: Episode,
                     e: nat, k: nat)
    requires Chosen(outages, anchored, taken, ep, e, k) && |anchored| == |before| <= |outages|
    requires forall i: nat :: i < |before| && i !in taken ==> outages[i] == before[i]
    requires forall i: nat :: |before| <= i < |outages| ==> i in taken
    ensures Chosen(before, anchored, taken, ep, e, if k < |before| then k else |before|)
  {
    forall j ensures Overlapping(outages, anchored, taken, ep, j) <==> Overlapping(before, anchored, taken, ep, j) {
    }
  }

  function Taken(where: seq<nat>): set<nat> {
    set k | k in where
  }

  /** Every episode in turn, given what the earlier ones have taken. */
  ghost predicate AllChosen(before: seq<Outage>, anchored: seq<int>, eps: seq<Episode>, where: seq<nat>) {
    && |where| <= |eps|
    && forall e :: 0 <= e < |where| ==>
         Chosen(before, anchored, Taken(where[..e]), eps[e], e, if where[e] < |before| then where[e] else |before|)
  }

  lemma AllChosenNext(before: seq<Outage>, anchored: seq<int>, eps: seq<Episode>, where: seq<nat>, k: nat)
    requires AllChosen(before, anchored, eps, where) && |where| < |eps|
    requires Chosen(before, anchored, Taken(where), eps[|where|], |where|, if k < |before| then k else |before|)
    ensures AllChosen(before, anchored, eps, where + [k])
  {
    var where' := where + [k];
    forall e | 0 <= e < |where'| ensures
      Chosen(before, anchored, Taken(where'[..e]), eps[e], e, if where'[e] < |before| then where'[e] else |before|)
    {
      assert where'[..e] == where[..e];
      assert e == |where| ==> where[..e] == where;
    }
  }

  /** One turn of the matching loop: the anchored record, else an overlapping one
      whose anchor is gone, else a new one. */
  function Match(outages: seq<Outage>, anchored: seq<int>, taken: set<nat>, eps: seq<Episode>, e: nat): (k: nat)
    requires e < |eps| && |anchored| <= |outages|
    ensures k <= |outages| && (k < |outages| ==> k !in taken)
    ensures Chosen(outages, anchored, taken, eps[e], e, k)
  {
    var a := FirstAnchored(anchored, taken, e, 0);
    if a != -1 then
      assert Free(anchored, taken, e, a);
      a
    else
      assert forall j :: !Free(anchored, taken, e, j);
      var o := FirstOverlapping(outages, anchored, taken, eps[e], 0);
      if o != -1 then o else |outages|
  }

  lemma MatchByAnchor(before: seq<Outage>, outages: seq<Outage>, eps: seq<Episode>, where: seq<nat>, taken: set<nat>)
    requires Kept(before, outages) && AllAnchored(AnchorsOf(before, eps), eps)
    requires ByAnchor(outages, eps, where, |where|, AnchorsOf(before, eps)) && |where| < |eps|
    requires forall k :: k in taken <==> k in where
    requires eps[|where|].start <= eps[|where|].identityStart && eps[|where|].identityEnd <= eps[|where|].end
    ensures var k := Match(outages, AnchorsOf(before, eps), taken, eps, |where|);
      k !in where &&
      ByAnchor(Put(outages, k, eps[|where|]), eps, where + [k], |where| + 1, AnchorsOf(before, eps))
  {
    var anchored := AnchorsOf(before, eps);
    var k := Match(outages, anchored, taken, eps, |where|);
    if k < |outages| {
      assert k < |anchored|;
      assert SameIdentity(before[k], outages[k]);
    } else {
      assert forall e :: 0 <= e < |where| ==> where[e] < |outages|;
    }
    PutByAnchor(outages, eps, where, anchored, k);
  }

  /** The matching loop of `_recompute_outages`. */
  method MatchOutages(before: seq<Outage>, eps: seq<Episode>) returns (outages: seq<Outage>, ghost where: seq<nat>)
    requires forall e :: e in eps ==> e.start <= e.identityStart && e.identityEnd <= e.end
    ensures Kept(before, outages)
    ensures Assigned(outages, eps, where, |eps|) && Rematched(before, outages, eps, where)
    ensures AllChosen(before, AnchorsOf(before, eps), eps, where)
    ensures AllAnchored(AnchorsOf(before, eps), eps) ==>
      ByAnchor(outages, eps, where, |eps|, AnchorsOf(before, eps))
  {
    outages := before;
    var anchored := Anchors(before, eps);
    var taken: set<nat> := {};
    where := [];
    for e := 0 to |eps|
      invariant Kept(before, outages)
      invariant Assigned(outages, eps, where, e) && Rematched(before, outages, eps, where)
      invariant AllChosen(before, anchored, eps, where)
      invariant forall k :: k in taken <==> k in where
      invariant AllAnchored(anchored, eps) ==> ByAnchor(outages, eps, where, e, anchored)
    {
      var k := Match(outages, anchored, taken, eps, e);
      if AllAnchored(anchored, eps) {
        MatchByAnchor(before, outages, eps, where, taken);
      }
      PutKeeps(before, outages, k, eps[e]);
      PutAssigns(outages, eps, where, k);
      PutRematches(before, outages, eps, where, k);
      assert taken == Taken(where);
      ChosenBefore(before, outages, anchored, taken, eps[e], e, k);
      AllChosenNext(before, anchored, eps, where, k);
      outages := Put(outages, k, eps[e]);
      taken := taken + {k};
      where := where + [k];
    }
  }

  // ---- Anchors ----

  /** The run that was reported when the outage was detected still stands. */
  ghost predicate AnchorOk(obs: Observations, threshold: int, o: Outage) {
    Block(obs, o.identityStart, o.identityEnd) && Length(o.identityStart, o.identityEnd) >= threshold
  }

  ghost predicate AnchorsApart(obs: Observations, o: Outage, o': Outage) {
    Separated(obs, o.identityEnd, o'.identityStart) || Separated(obs, o'.identityEnd, o.identityStart)
  }

  /** Every anchor stands, and a Cloudflare slot lies between any two. */
  ghost predicate AnchorsOk(obs: Observations, threshold: int, outages: seq<Outage>) {
    && (forall i :: 0 <= i < |outages| ==> AnchorOk(obs, threshold, outages[i]))
    && (forall i, j :: 0 <= i < j < |outages| ==> AnchorsApart(obs, outages[i], outages[j]))
  }

  ghost predicate Grows(obs: Observations, obs': Observations) {
    forall s :: s in obs ==> s in obs' && obs'[s] == obs[s]
  }

  lemma SeparatedGrows(obs: Observations, obs': Observations, x: int, y: int)
    requires Separated(obs, x, y) && Grows(obs, obs')
    ensures Separated(obs', x, y)
  {
    var c :| x < c < y && CloudflareAt(obs, c);
    assert CloudflareAt(obs', c);
  }

  /** Late evidence never disturbs an anchor. */
  lemma AnchorsGrow(obs: Observations, obs': Observations, threshold: int, outages: seq<Outage>)
    requires AnchorsOk(obs, threshold, outages) && Grows(obs, obs')
    ensures AnchorsOk(obs', threshold, outages)
  {
    forall i | 0 <= i < |outages| ensures AnchorOk(obs', threshold, outages[i]) {
      assert AnchorOk(obs, threshold, outages[i]);
      forall s | outages[i].identityStart <= s <= outages[i].identityEnd && s % 60 == 0 ensures TakeoverAt(obs', s) {
        assert TakeoverAt(obs, s);
      }
    }
    forall i, j | 0 <= i < j < |outages| ensures AnchorsApart(obs', outages[i], outages[j]) {
      assert AnchorsApart(obs, outages[i], outages[j]);
      if Separated(obs, outages[i].identityEnd, outages[j].identityStart) {
        SeparatedGrows(obs, obs', outages[i].identityEnd, outages[j].identityStart);
      } else {
        SeparatedGrows(obs, obs', outages[j].identityEnd, outages[i].identityStart);
      }
    }
  }

  lemma ExtendLeft(obs: Observations, a: int, b: int) returns (c: int)
    requires Block(obs, a, b)
    ensures c <= a && Block(obs, c, b) && !TakeoverAt(obs, c - 60)
    decreases set s | s in obs && s < a
  {
    c := a;
    if TakeoverAt(obs, a - 60) {
      var less, all := set s | s in obs && s < a - 60, set s | s in obs && s < a;
      assert a - 60 in all && a - 60 !in less && less <= all;
      c := ExtendLeft(obs, a - 60, b);
    }
  }

  lemma ExtendRight(obs: Observations, a: int, b: int) returns (d: int)
    requires Block(obs, a, b)
    ensures b <= d && Block(obs, a, d) && !TakeoverAt(obs, d + 60)
    decreases set s | s in obs && s > b
  {
    d := b;
    if TakeoverAt(obs, b + 60) {
      var less, all := set s | s in obs && s > b + 60, set s | s in obs && s > b;
      assert b + 60 in all && b + 60 !in less && less <= all;
      d := ExtendRight(obs, a, b + 60);
    }
  }

  /** A standing anchor is inside an episode. */
  lemma AnchorInEpisode(obs: Observations, threshold: int, o: Outage, eps: seq<Episode>)
    requires AnchorOk(obs, threshold, o) && CoverAll(obs, threshold, eps)
    ensures 0 <= FirstContaining(eps, o, 0) < |eps|
  {
    var c := ExtendLeft(obs, o.identityStart, o.identityEnd);
    var d := ExtendRight(obs, c, o.identityEnd);
    assert Qualifying(obs, threshold, c, d);
    assert Inside(eps, c, d);
    var i :| 0 <= i < |eps| && eps[i].start <= c && d <= eps[i].end;
    assert AnchoredIn(o, eps[i]);
  }

  lemma OneEpisodeOneAnchor(obs: Observations, e: Episode, o: Outage, o': Outage)
    requires NoCloudflare(obs, e.start, e.end) && AnchoredIn(o, e) && AnchoredIn(o', e)
    requires o.identityStart <= o.identityEnd && o'.identityStart <= o'.identityEnd
    ensures !AnchorsApart(obs, o, o')
  {
  }

  lemma AllAreAnchored(obs: Observations, threshold: int, outages: seq<Outage>, eps: seq<Episode>)
    requires AnchorsOk(obs, threshold, outages) && IsEpisodes(obs, threshold, eps)
    ensures AllAnchored(AnchorsOf(outages, eps), eps)
  {
    var anchored := AnchorsOf(outages, eps);
    forall i | 0 <= i < |outages| ensures 0 <= anchored[i] < |eps| {
      AnchorInEpisode(obs, threshold, outages[i], eps);
    }
    forall i, j | 0 <= i < j < |outages| ensures anchored[i] != anchored[j] {
      OkAt(obs, threshold, eps, anchored[i]);
      if anchored[i] == anchored[j] {
        OneEpisodeOneAnchor(obs, eps[anchored[i]], outages[i], outages[j]);
      }
    }
  }

  // ---- The correspondence ----

  /** Records and episodes correspond one to one: `where[e]` is the record of episode `e`. */
  ghost predicate Tracks(outages: seq<Outage>, eps: seq<Episode>, where: seq<nat>) {
    && Assigned(outages, eps, where, |eps|)
    && (forall i :: 0 <= i < |outages| ==> i in where)
  }

  ghost predicate Corresponds(obs: Observations, threshold: int, outages: seq<Outage>) {
    exists eps, where :: IsEpisodes(obs, threshold, eps) && Tracks(outages, eps, where)
  }

  lemma WhereIs(outages: seq<Outage>, eps: seq<Episode>, where: seq<nat>, anchored: seq<int>, i: nat) returns (e: nat)
    requires ByAnchor(outages, eps, where, |eps|, anchored) && AllAnchored(anchored, eps) && i < |outages|
    ensures e < |where| == |eps| && where[e] == i && AnchoredIn(outages[i], eps[e])
  {
    if i < |anchored| {
      e := anchored[i];
    } else {
      assert i in where;
      e :| 0 <= e < |where| && where[e] == i;
    }
  }

  lemma MatchedTracks(outages: seq<Outage>, eps: seq<Episode>, where: seq<nat>, anchored: seq<int>)
    requires Assigned(outages, eps, where, |eps|)
    requires ByAnchor(outages, eps, where, |eps|, anchored) && AllAnchored(anchored, eps)
    ensures Tracks(outages, eps, where)
  {
    forall i | 0 <= i < |outages| ensures i in where {
      var e := WhereIs(outages, eps, where, anchored, i);
    }
  }

  lemma AnchorsFromEpisodes(obs: Observations, eps: seq<Episode>, o: Outage, o': Outage, d: nat, e: nat)
    requires Apart(obs, eps) && d < |eps| && e < |eps| && d != e
    requires AnchoredIn(o, eps[d]) && AnchoredIn(o', eps[e])
    ensures AnchorsApart(obs, o, o')
  {
    var a, b := if d < e then d else e, if d < e then e else d;
    assert Separated(obs, eps[a].end, eps[b].start);
    var c :| eps[a].end < c < eps[b].start && CloudflareAt(obs, c);
  }

  lemma MatchedAnchors(obs: Observations, threshold: int, before: seq<Outage>, outages: seq<Outage>, eps: seq<Episode>,
                       where: seq<nat>)
    requires AnchorsOk(obs, threshold, before) && IsEpisodes(obs, threshold, eps) && Kept(before, outages)
    requires AllAnchored(AnchorsOf(before, eps), eps)
    requires ByAnchor(outages, eps, where, |eps|, AnchorsOf(before, eps))
    ensures AnchorsOk(obs, threshold, outages)
  {
    forall i | 0 <= i < |outages| ensures AnchorOk(obs, threshold, outages[i]) {
      if i < |before| {
        assert AnchorOk(obs, threshold, before[i]) && SameIdentity(before[i], outages[i]);
      } else {
        var e := WhereIs(outages, eps, where, AnchorsOf(before, eps), i);
        OkAt(obs, threshold, eps, e);
      }
    }
    forall i, j | 0 <= i < j < |outages| ensures AnchorsApart(obs, outages[i], outages[j]) {
      var d := WhereIs(outages, eps, where, AnchorsOf(before, eps), i);
      var e := WhereIs(outages, eps, where, AnchorsOf(before, eps), j);
      AnchorsFromEpisodes(obs, eps, outages[i], outages[j], d, e);
    }
  }

  lemma RecomputeCorresponds(obs: Observations, threshold: int, before: seq<Outage>, outages: seq<Outage>,
                             eps: seq<Episode>, where: seq<nat>)
    requires AnchorsOk(obs, threshold, before) && IsEpisodes(obs, threshold, eps)
    requires Kept(before, outages) && Assigned(outages, eps, where, |eps|)
    requires AllAnchored(AnchorsOf(before, eps), eps) ==>
      ByAnchor(outages, eps, where, |eps|, AnchorsOf(before, eps))
    ensures AnchorsOk(obs, threshold, outages) && Corresponds(obs, threshold, outages)
  {
    AllAreAnchored(obs, threshold, before, eps);
    MatchedTracks(outages, eps, where, AnchorsOf(before, eps));
    MatchedAnchors(obs, threshold, before, outages, eps, where);
  }

  // ---- Order of arrival ----

  type View = (int, int, int, bool, Option<int>)

  function ViewOf(o: Outage): View {
    (o.start, o.end, o.count, o.active, o.recovery)
  }

  function EpisodeView(e: Episode): View {
    (e.start, e.end, e.count, !Conclusive(e), if Conclusive(e) then e.recovery else None)
  }

  /** What the records show of their outages. */
  function Shown(outages: seq<Outage>): set<View> {
    set o | o in outages :: ViewOf(o)
  }

  lemma ShownFromEpisodes(outages: seq<Outage>, eps: seq<Episode>, where: seq<nat>)
    requires Tracks(outages, eps, where)
    ensures Shown(outages) == set e | e in eps :: EpisodeView(e)
  {
    forall o | o in outages ensures ViewOf(o) in (set e | e in eps :: EpisodeView(e)) {
      var i :| 0 <= i < |outages| && outages[i] == o;
      assert i in where;
      var e :| 0 <= e < |where| && where[e] == i;
      assert ViewOf(outages[where[e]]) == EpisodeView(eps[e]) && eps[e] in eps;
    }
    forall e | e in eps ensures EpisodeView(e) in Shown(outages) {
      var n :| 0 <= n < |eps| && eps[n] == e;
      assert ViewOf(outages[where[n]]) == EpisodeView(e) && outages[where[n]] in outages;
    }
  }

  /** What is shown depends on the observations only. */
  lemma ShownDetermined(obs: Observations, threshold: int, outages: seq<Outage>, outages': seq<Outage>)
    requires Corresponds(obs, threshold, outages) && Corresponds(obs, threshold, outages')
    ensures Shown(outages) == Shown(outages')
  {
    var eps: seq<Episode>, where: seq<nat> :| IsEpisodes(obs, threshold, eps) && Tracks(outages, eps, where);
    var eps': seq<Episode>, where': seq<nat> :| IsEpisodes(obs, threshold, eps') && Tracks(outages', eps', where');
    EpisodesDetermined(obs, threshold, eps, eps');
    ShownFromEpisodes(outages, eps, where);
    ShownFromEpisodes(outages', eps', where');
  }

  /** No two records show overlapping outages, and a Cloudflare slot lies between. */
  lemma RecordsApart(obs: Observations, threshold: int, outages: seq<Outage>, i: nat, j: nat)
    requires Corresponds(obs, threshold, outages) && i < |outages| && j < |outages| && i != j
    ensures Separated(obs, outages[i].end, outages[j].start) || Separated(obs, outages[j].end, outages[i].start)
  {
    var eps: seq<Episode>, where: seq<nat> :| IsEpisodes(obs, threshold, eps) && Tracks(outages, eps, where);
    var d := EpisodeOf(outages, eps, where, i);
    var e := EpisodeOf(outages, eps, where, j);
    if d < e {
      EpisodesApart(obs, threshold, eps, d, e);
    } else {
      EpisodesApart(obs, threshold, eps, e, d);
    }
  }

  lemma EpisodeOf(outages: seq<Outage>, eps: seq<Episode>, where: seq<nat>, i: nat) returns (e: nat)
    requires Tracks(outages, eps, where) && i < |outages|
    ensures e < |where| == |eps| && where[e] == i && Shows(outages[i], eps[e])
  {
    assert i in where;
    e :| 0 <= e < |where| && where[e] == i;
  }

  lemma EpisodesApart(obs: Observations, threshold: int, eps: seq<Episode>, d: nat, e: nat)
    requires IsEpisodes(obs, threshold, eps) && d < e < |eps|
    ensures Separated(obs, eps[d].end, eps[e].start)
  {
  }

  ghost predicate CloudflareAfter(obs: Observations, end: int) {
    exists c :: end < c && CloudflareAt(obs, c)
  }

  lemma ConclusiveExactly(obs: Observations, e: Episode)
    requires IsRecovery(obs, e.end, e.recovery)
    requires e.unresolvedGaps <==> HasGap(obs, e.start, e.end)
    requires !e.unresolvedGaps ==> Block(obs, e.start, e.end)
    ensures Conclusive(e) <==> Block(obs, e.start, e.end) && CloudflareAfter(obs, e.end)
  {
    if e.unresolvedGaps {
      var s :| e.start <= s <= e.end && (s - e.start) % 60 == 0 && s !in obs;
      assert !TakeoverAt(obs, s);
    }
    if e.recovery.Some? {
      assert CloudflareAt(obs, e.recovery.value);
    }
  }

  lemma EpisodeOver(obs: Observations, threshold: int, e: Episode)
    requires Aligned(obs) && EpisodeOk(obs, threshold, e)
    ensures IsRecovery(obs, e.end, e.recovery)
    ensures e.unresolvedGaps <==> HasGap(obs, e.start, e.end)
    ensures !e.unresolvedGaps ==> Block(obs, e.start, e.end)
  {
    if !e.unresolvedGaps {
      NoGapsIsOneRun(obs, threshold, e);
    }
  }

  /** A record matched by the latest recompute shows its outage as over exactly if it
      was observed minute by minute and a Cloudflare slot follows, whether or not
      observations were pruned; and then the first such slot is its recovery. */
  lemma InactiveExactly(obs: Observations, threshold: int, outages: seq<Outage>, eps: seq<Episode>, where: seq<nat>,
                        e: nat)
    requires Aligned(obs) && IsEpisodes(obs, threshold, eps) && Assigned(outages, eps, where, |eps|) && e < |eps|
    ensures var o := outages[where[e]];
            && (!o.active <==> Block(obs, o.start, o.end) && CloudflareAfter(obs, o.end))
            && if o.active then o.recovery == None else IsRecovery(obs, o.end, o.recovery)
  {
    assert Shows(outages[where[e]], eps[e]);
    OkAt(obs, threshold, eps, e);
    EpisodeOver(obs, threshold, eps[e]);
    ConclusiveExactly(obs, eps[e]);
  }

  /** A record matched by the latest recompute shows its outage as over only if that
      was observed minute by minute, whether or not observations were pruned. */
  lemma InactiveIsFullyObserved(obs: Observations, threshold: int, outages: seq<Outage>, eps: seq<Episode>,
                                where: seq<nat>, e: nat)
    requires Aligned(obs) && IsEpisodes(obs, threshold, eps) && Assigned(outages, eps, where, |eps|)
    requires e < |eps| && !outages[where[e]].active
    ensures var o := outages[where[e]];
            && MaximalRun(obs, o.start, o.end) && o.count == Length(o.start, o.end)
            && o.recovery.Some? && CloudflareAt(obs, o.recovery.value) && o.recovery.value > o.end
  {
    assert Shows(outages[where[e]], eps[e]);
    OkAt(obs, threshold, eps, e);
    NoGapsIsOneRun(obs, threshold, eps[e]);
  }

  /** The first observation of a slot counts; later ones agree or are ignored. */
  function Accept(obs: Observations, x: (int, Observation)): Observations {
    if x.0 in obs then obs else obs[x.0 := x.1]
  }

  function AcceptAll(xs: seq<(int, Observation)>): Observations {
    if xs == [] then map[] else Accept(AcceptAll(xs[..|xs| - 1]), xs[|xs| - 1])
  }

  predicate ConflictFree(xs: seq<(int, Observation)>) {
    forall x, y :: x in xs && y in xs && x.0 == y.0 ==> x.1 == y.1
  }

  lemma {:induction false} AcceptAllKeys(xs: seq<(int, Observation)>)
    requires ConflictFree(xs)
    ensures forall s, o :: (s in AcceptAll(xs) && AcceptAll(xs)[s] == o) <==> (s, o) in xs
  {
    if xs != [] {
      var front, last := xs[..|xs| - 1], xs[|xs| - 1];
      assert xs == front + [last] && last == (last.0, last.1);
      assert ConflictFree(front);
      AcceptAllKeys(front);
      forall s, o ensures (s in AcceptAll(xs) && AcceptAll(xs)[s] == o) <==> (s, o) in xs {
        if s == last.0 && s in AcceptAll(front) {
          assert (s, AcceptAll(front)[s]) in front;
          assert (s, AcceptAll(front)[s]) in xs && last in xs;
        }
      }
    }
  }

  /** The same observations in any order, with any repetitions, lead to the same
      outages. */
  lemma OrderIndependent(xs: seq<(int, Observation)>, ys: seq<(int, Observation)>, threshold: int,
                         outages: seq<Outage>, outages': seq<Outage>)
    requires ConflictFree(xs) && forall x :: x in xs <==> x in ys
    requires Corresponds(AcceptAll(xs), threshold, outages) && Corresponds(AcceptAll(ys), threshold, outages')
    ensures Shown(outages) == Shown(outages')
  {
    AcceptAllKeys(xs);
    AcceptAllKeys(ys);
    var a, b := AcceptAll(xs), AcceptAll(ys);
    assert a == b by {
      forall s ensures s in a <==> s in b {
        if s in a { assert (s, a[s]) in xs; }
        if s in b { assert (s, b[s]) in ys; }
      }
      forall s | s in a ensures a[s] == b[s] {
        assert (s, a[s]) in xs;
      }
    }
    ShownDetermined(a, threshold, outages, outages');
  }

  // ---- Retention ----

  /** The observations no older than the retention window before the newest. */
  function Pruned(obs: Observations): Observations {
    map s | s in obs && (forall t :: t in obs ==> t - RETENTION_SLOTS * 60 <= s) :: obs[s]
  }

  /** Two hours before the newest slot. */
  lemma PrunedExactly(obs: Observations, newest: int)
    requires newest in obs && forall s :: s in obs ==> s <= newest
    ensures forall s :: s in Pruned(obs) <==> s in obs && newest - 7200 <= s
    ensures forall s :: s in Pruned(obs) ==> Pruned(obs)[s] == obs[s]
  {
  }

  predicate Retained(obs: Observations) {
    forall s, t :: s in obs && t in obs ==> t - RETENTION_SLOTS * 60 <= s
  }

  /** Identity and payload of a record never change. */
  predicate SameReport(o: Outage, o': Outage) {
    o'.identityStart == o.identityStart && o'.identityEnd == o.identityEnd && o'.payload == o.payload
  }

  /** Observations change no identity, no payload, nothing of what the finished
      reports left, and no record's place. */
  ghost predicate SameReports(before: seq<Outage>, outages: seq<Outage>) {
    && |before| <= |outages|
    && forall i :: 0 <= i < |before| ==>
         && SameReport(before[i], outages[i]) && outages[i].succeeded == before[i].succeeded
         && outages[i].attempts == before[i].attempts && outages[i].nextAttempt == before[i].nextAttempt
  }

  /** Reports only go forward: attempts never decrease, and success is final. */
  ghost predicate Onward(before: seq<Outage>, outages: seq<Outage>) {
    && |before| <= |outages|
    && forall i :: 0 <= i < |before| ==>
         && SameReport(before[i], outages[i]) && before[i].attempts <= outages[i].attempts
         && (before[i].succeeded ==> outages[i].succeeded && outages[i].attempts == before[i].attempts)
  }

  lemma OnwardTwice(a: seq<Outage>, b: seq<Outage>, c: seq<Outage>)
    requires Onward(a, b) && Onward(b, c)
    ensures Onward(a, c)
  {
    forall i | 0 <= i < |a|
      ensures SameReport(a[i], c[i]) && a[i].attempts <= c[i].attempts
              && (a[i].succeeded ==> c[i].succeeded && c[i].attempts == a[i].attempts)
    {
      assert SameReport(a[i], b[i]) && SameReport(b[i], c[i]);
    }
  }

  ghost predicate SameButFlags(before: seq<Outage>, outages: seq<Outage>) {
    && |outages| == |before|
    && forall i :: 0 <= i < |before| ==> outages[i] == before[i].(inFlight := outages[i].inFlight)
  }

  /** Whatever was pruned, every episode has a record of its own that shows it. */
  ghost predicate EachEpisodeShown(obs: Observations, threshold: int, outages: seq<Outage>) {
    exists eps, where :: IsEpisodes(obs, threshold, eps) && Assigned(outages, eps, where, |eps|)
  }

  lemma FlagsKeepAnchors(obs: Observations, threshold: int, before: seq<Outage>, outages: seq<Outage>)
    requires SameButFlags(before, outages) && AnchorsOk(obs, threshold, before)
    ensures AnchorsOk(obs, threshold, outages)
  {
    forall i | 0 <= i < |outages| ensures AnchorOk(obs, threshold, outages[i]) {
      assert AnchorOk(obs, threshold, before[i]);
    }
    forall i, j | 0 <= i < j < |outages| ensures AnchorsApart(obs, outages[i], outages[j]) {
      assert AnchorsApart(obs, before[i], before[j]);
    }
  }

  lemma FlagsKeepView(before: seq<Outage>, outages: seq<Outage>, eps: seq<Episode>, where: seq<nat>)
    requires SameButFlags(before, outages) && Assigned(before, eps, where, |eps|)
    ensures Assigned(outages, eps, where, |eps|)
    ensures Tracks(before, eps, where) ==> Tracks(outages, eps, where)
  {
  }

  lemma OnlyFlags(obs: Observations, threshold: int, before: seq<Outage>, outages: seq<Outage>, eps: seq<Episode>,
                  where: seq<nat>)
    requires SameButFlags(before, outages) && IsEpisodes(obs, threshold, eps) && Assigned(before, eps, where, |eps|)
    ensures EachEpisodeShown(obs, threshold, outages)
    ensures AnchorsOk(obs, threshold, before) ==> AnchorsOk(obs, threshold, outages)
    ensures Corresponds(obs, threshold, before) ==> Corresponds(obs, threshold, outages)
  {
    FlagsKeepView(before, outages, eps, where);
    if AnchorsOk(obs, threshold, before) {
      FlagsKeepAnchors(obs, threshold, before, outages);
    }
    if Corresponds(obs, threshold, before) {
      var eps': seq<Episode>, where': seq<nat> :| IsEpisodes(obs, threshold, eps') && Tracks(before, eps', where');
      FlagsKeepView(before, outages, eps', where');
    }
  }

  ghost predicate Accounted(outages: seq<Outage>, pending: multiset<nat>, finished: multiset<nat>) {
    && (forall i :: i in pending || i in finished ==> i < |outages|)
    && (forall i :: 0 <= i < |outages| ==>
          && pending[i] == (if outages[i].inFlight then 1 else 0)
          && finished[i] == outages[i].attempts
          && pending[i] + finished[i] <= 5
          && (outages[i].succeeded ==> !outages[i].inFlight))
  }

  predicate Due(o: Outage, now: int) {
    !o.succeeded && !o.inFlight && o.attempts <= |RETRY_DELAYS| && now >= o.nextAttempt
  }

  lemma SubmitAccounted(outages: seq<Outage>, pending: multiset<nat>, finished: multiset<nat>, k: nat, now: int)
    requires Accounted(outages, pending, finished) && k < |outages| && Due(outages[k], now)
    ensures Accounted(outages[k := outages[k].(inFlight := true)], pending + multiset{k}, finished)
  {
  }

  /** Records whose report has neither succeeded nor used up its attempts. */
  ghost predicate Unsettled(outages: seq<Outage>, submit: seq<nat>) {
    forall k :: k in submit ==> k < |outages| && !outages[k].succeeded && outages[k].attempts <= 4
  }

  /** Exactly the records that are neither settled nor in flight, have an attempt left
      and are past the time of the next one; each is now in flight. */
  ghost predicate AllDueSent(before: seq<Outage>, outages: seq<Outage>, submit: seq<nat>, now: int) {
    forall k :: 0 <= k < |before| && k < |outages| ==>
      && (k in submit <==>
            !before[k].succeeded && !before[k].inFlight && before[k].attempts <= 4 && before[k].nextAttempt <= now)
      && (outages[k].inFlight <==> before[k].inFlight || k in submit)
  }

  /** So is every new record, unless the clock is before its start. */
  ghost predicate NewSent(n: nat, outages: seq<Outage>, submit: seq<nat>, now: int) {
    forall k :: n <= k < |outages| ==>
      && outages[k].attempts == 0 && !outages[k].succeeded && outages[k].nextAttempt == 0
      && (k in submit <==> 0 <= now) && (outages[k].inFlight <==> 0 <= now)
  }

  lemma SentAfterMatching(before: seq<Outage>, matched: seq<Outage>, outages: seq<Outage>, submit: seq<nat>, now: int)
    requires Kept(before, matched) && SameButFlags(matched, outages) && AllDueSent(matched, outages, submit, now)
    requires forall i :: |before| <= i < |matched| ==> Fresh(matched[i])
    ensures AllDueSent(before, outages, submit, now) && NewSent(|before|, outages, submit, now)
  {
    forall k | 0 <= k < |before| ensures SameIdentity(before[k], matched[k]) {
    }
  }

  lemma KeptAccounted(before: seq<Outage>, outages: seq<Outage>, pending: multiset<nat>, finished: multiset<nat>)
    requires Accounted(before, pending, finished) && Kept(before, outages)
    requires forall i :: |before| <= i < |outages| ==> Fresh(outages[i])
    ensures Accounted(outages, pending, finished)
  {
    forall i | 0 <= i < |outages|
      ensures pending[i] == (if outages[i].inFlight then 1 else 0) && finished[i] == outages[i].attempts
      ensures pending[i] + finished[i] <= 5 && (outages[i].succeeded ==> !outages[i].inFlight)
    {
      if i >= |before| {
        assert i !in pending && i !in finished;
      }
    }
  }

  /** The loop that submits has come to record `n`. */
  ghost predicate Submitting(before: seq<Outage>, outages: seq<Outage>, submit: seq<nat>, n: nat, now: int) {
    && SameButFlags(before, outages) && Unsettled(outages, submit) && n <= |before|
    && AllDueSent(before[..n], outages, submit, now)
    && (forall k :: k in submit ==> k < n) && forall k :: n <= k < |before| ==> outages[k] == before[k]
  }

  lemma SubmittingStep(before: seq<Outage>, outages: seq<Outage>, submit: seq<nat>, n: nat, now: int)
    requires Submitting(before, outages, submit, n, now) && n < |outages|
    ensures if Due(outages[n], now)
            then Submitting(before, outages[n := outages[n].(inFlight := true)], submit + [n], n + 1, now)
            else Submitting(before, outages, submit, n + 1, now)
  {
    assert before[..n + 1] == before[..n] + [before[n]];
  }

  /** A finished report of a pending record: settled, or to be tried again. */
  function Finished(o: Outage, uploaded: bool, now: int): Outage {
    var o' := o.(inFlight := false, attempts := o.attempts + 1);
    if uploaded then o'.(succeeded := true)
    else if o'.attempts <= |RETRY_DELAYS| then o'.(nextAttempt := now + RETRY_DELAYS[o'.attempts - 1])
    else o'
  }

  lemma FinishAccounted(outages: seq<Outage>, pending: multiset<nat>, finished: multiset<nat>, k: nat, uploaded: bool,
                        now: int)
    requires Accounted(outages, pending, finished) && k in pending
    ensures k < |outages| && outages[k].attempts < 5
    ensures Accounted(outages[k := Finished(outages[k], uploaded, now)], pending - multiset{k}, finished + multiset{k})
  {
  }

  lemma NothingCorresponds(threshold: int)
    ensures AnchorsOk(map[], threshold, []) && Corresponds(map[], threshold, [])
  {
    assert forall a, b :: Qualifying(map[], threshold, a, b) ==> TakeoverAt(map[], a);
    assert IsEpisodes(map[], threshold, []) && Tracks([], [], []);
  }

  lemma {:induction false} AcceptGrows(xs: seq<(int, Observation)>, i: nat)
    requires i <= |xs|
    ensures Grows(AcceptAll(xs[..i]), AcceptAll(xs))
    ensures i > 0 ==> Grows(AcceptAll(xs[..i - 1]), AcceptAll(xs[..i]))
    decreases |xs|
  {
    if i > 0 {
      assert xs[..i][..i - 1] == xs[..i - 1];
    }
    if i < |xs| {
      var front := xs[..|xs| - 1];
      assert front[..i] == xs[..i];
      AcceptGrows(front, i);
    } else {
      assert xs[..i] == xs;
    }
  }

  lemma RetainedIsUnpruned(obs: Observations, all: Observations)
    requires Retained(all) && Grows(obs, all)
    ensures Pruned(obs) == obs
  {
    forall s | s in obs ensures s in Pruned(obs) {
      assert s in all;
    }
  }

  /** What reaches the tracker, in any order: an observation, the refusal of a
      submitted job, the end of one. */
  datatype Event =
    | Observed(slot: int, observation: Observation, now: int)
    | Refused(record: nat)
    | Reported(record: nat, uploaded: bool, at: int)

  /** Nothing was sent for a record that had succeeded. */
  ghost predicate NoneSent(before: seq<Outage>, sent: multiset<nat>) {
    forall k :: k in sent && k < |before| ==> !before[k].succeeded
  }

  class CronHealthTracker {
    const threshold: int
    var observations: Observations
    var outages: seq<Outage>
    ghost var pending: multiset<nat>   // reports submitted and not yet finished, by record
    ghost var finished: multiset<nat>  // finished uploads, by record

    constructor (threshold: int)
      ensures this.threshold == threshold && observations == map[] && outages == []
      ensures Aligned(observations) && AnchorsOk(observations, threshold, outages) && ReportsOk()
    {
      this.threshold := threshold;
      observations, outages := map[], [];
      pending, finished := multiset{}, multiset{};
    }

    /** The flags of each record tell how many reports of it are pending or done. */
    ghost predicate ReportsOk()
      reads this
    {
      Accounted(outages, pending, finished)
    }

    method Recompute() returns (ghost eps: seq<Episode>, ghost where: seq<nat>)
      requires Aligned(observations) && ReportsOk()
      modifies `outages
      ensures Kept(old(outages), outages) && ReportsOk()
      ensures Rematched(old(outages), outages, eps, where)
      ensures forall i :: |old(outages)| <= i < |outages| ==> Fresh(outages[i])
      ensures IsEpisodes(observations, threshold, eps) && Assigned(outages, eps, where, |eps|)
      ensures AnchorsOk(observations, threshold, old(outages)) ==>
        AnchorsOk(observations, threshold, outages) && Corresponds(observations, threshold, outages)
    {
      var episodes := QualifyingEpisodes(observations, threshold);
      eps := episodes;
      var outages';
      outages', where := MatchOutages(outages, episodes);
      if AnchorsOk(observations, threshold, outages) {
        RecomputeCorresponds(observations, threshold, outages, outages', episodes, where);
      }
      NewAreFresh(outages, outages', eps, where);
      KeptAccounted(outages, outages', pending, finished);
      outages := outages';
    }

    /** Takes one observation under the lock; returns the records whose report is
        handed to the executor once the lock is released. */
    method Record(slot: int, observation: Observation, now: int) returns (conflict: bool, submit: seq<nat>)
      requires slot % 60 == 0 && Aligned(observations) && ReportsOk()
      modifies this
      ensures Aligned(observations) && ReportsOk()
      ensures conflict <==> slot in old(observations) && old(observations)[slot] != observation
      ensures observations == if conflict then old(observations) else Pruned(old(observations)[slot := observation])
      ensures conflict ==> outages == old(outages) && submit == []
      ensures Onward(old(outages), outages)
      ensures SameReports(old(outages), outages)
      ensures !conflict ==> EachEpisodeShown(observations, threshold, outages)
      ensures AnchorsOk(observations, threshold, old(outages)) && !conflict ==>
        AnchorsOk(observations, threshold, outages) && Corresponds(observations, threshold, outages)
      ensures Unsettled(outages, submit)
      ensures !conflict ==>
        AllDueSent(old(outages), outages, submit, now) && NewSent(|old(outages)|, outages, submit, now)
      ensures forall k :: k in submit && k < |old(outages)| ==> !old(outages)[k].succeeded && !old(outages)[k].inFlight
      ensures pending == old(pending) + multiset(submit) && finished == old(finished)
    {
      submit := [];
      conflict := slot in observations && observations[slot] != observation;
      if conflict { return; }
      observations := observations[slot := observation];
      observations := Pruned(observations);
      submit := RecomputeAndSubmit(now);
      forall k | k in submit && k < |old(outages)| ensures !old(outages)[k].succeeded && !old(outages)[k].inFlight {
        assert multiset(submit)[k] > 0;
      }
    }

    method RecomputeAndSubmit(now: int) returns (submit: seq<nat>)
      requires Aligned(observations) && ReportsOk()
      modifies `outages, `pending
      ensures ReportsOk() && SameReports(old(outages), outages)
      ensures EachEpisodeShown(observations, threshold, outages)
      ensures AnchorsOk(observations, threshold, old(outages)) ==>
        AnchorsOk(observations, threshold, outages) && Corresponds(observations, threshold, outages)
      ensures Unsettled(outages, submit)
      ensures AllDueSent(old(outages), outages, submit, now) && NewSent(|old(outages)|, outages, submit, now)
      ensures pending == old(pending) + multiset(submit)
    {
      ghost var eps, where := Recompute();
      ghost var matched := outages;
      submit := SubmitDue(now);
      OnlyFlags(observations, threshold, matched, outages, eps, where);
      SentAfterMatching(old(outages), matched, outages, submit, now);
    }

    /** Marks every record whose report is due as in flight. */
    method SubmitDue(now: int) returns (submit: seq<nat>)
      requires ReportsOk()
      modifies `outages, `pending
      ensures ReportsOk() && SameButFlags(old(outages), outages)
      ensures Unsettled(outages, submit) && AllDueSent(old(outages), outages, submit, now)
      ensures pending == old(pending) + multiset(submit)
    {
      submit := [];
      for k := 0 to |outages|
        invariant ReportsOk() && Submitting(old(outages), outages, submit, k, now)
        invariant pending == old(pending) + multiset(submit)
      {
        SubmittingStep(old(outages), outages, submit, k, now);
        if Due(outages[k], now) {
          MarkInFlight(k, now);
          submit := submit + [k];
        }
      }
      assert old(outages)[..|outages|] == old(outages);
    }

    method MarkInFlight(k: nat, now: int)
      requires ReportsOk() && k < |outages| && Due(outages[k], now)
      modifies `outages, `pending
      ensures ReportsOk() && pending == old(pending) + multiset{k}
      ensures outages == old(outages)[k := old(outages)[k].(inFlight := true)]
    {
      SubmitAccounted(outages, pending, finished, k, now);
      outages := outages[k := outages[k].(inFlight := true)];
      pending := pending + multiset{k};
    }

    /** The executor refused the job: the record may be submitted again. */
    method SubmitFailed(k: nat)
      requires ReportsOk() && k in pending
      modifies `outages, `pending
      ensures ReportsOk() && finished == old(finished) && pending == old(pending) - multiset{k}
      ensures outages == old(outages)[k := old(outages)[k].(inFlight := false)]
      ensures Onward(old(outages), outages)
    {
      outages := outages[k := outages[k].(inFlight := false)];
      pending := pending - multiset{k};
    }

    /** The end of `_report_outage`: a failure schedules the next attempt, while an
        upload, or finding that none is configured, settles the record. */
    method FinishReport(k: nat, uploaded: bool, now: int)
      requires ReportsOk() && k in pending
      modifies `outages, `pending, `finished
      ensures ReportsOk()
      ensures pending == old(pending) - multiset{k} && finished == old(finished) + multiset{k}
      ensures outages == old(outages)[k := Finished(old(outages)[k], uploaded, now)]
      ensures finished[k] <= 5 && pending[k] == 0
      ensures var o, o' := old(outages)[k], outages[k];
        && o'.attempts == o.attempts + 1 && !o'.inFlight && (o'.succeeded <==> uploaded)
        && o'.nextAttempt ==
             (if uploaded then o.nextAttempt
              else match o'.attempts
                case 1 => now + 120
                case 2 => now + 300
                case 3 => now + 900
                case 4 => now + 1800
                case _ => o.nextAttempt)
      ensures Onward(old(outages), outages)
    {
      FinishAccounted(outages, pending, finished, k, uploaded, now);
      outages := outages[k := Finished(outages[k], uploaded, now)];
      pending, finished := pending - multiset{k}, finished + multiset{k};
    }

    /** Any interleaving of observations and report workers, from any state: an outage
        has at most one report pending or running, at most five finish, its attempts
        only grow, and once it has succeeded nothing more is sent for it. */
    method Interleave(events: seq<Event>) returns (ghost sent: multiset<nat>)
      requires Aligned(observations) && ReportsOk()
      requires forall e :: e in events && e.Observed? ==> e.slot % 60 == 0
      modifies this
      ensures Aligned(observations) && ReportsOk() && Onward(old(outages), outages)
      ensures forall k :: pending[k] <= 1 && finished[k] <= 5
      ensures NoneSent(old(outages), sent)
    {
      sent := multiset{};
      for i := 0 to |events|
        invariant Aligned(observations) && ReportsOk() && Onward(old(outages), outages) && NoneSent(old(outages), sent)
      {
        ghost var was := outages;
        var submit := Step(events[i]);
        OnwardTwice(old(outages), was, outages);
        sent := sent + multiset(submit);
      }
    }

    method Step(event: Event) returns (submit: seq<nat>)
      requires Aligned(observations) && ReportsOk() && (event.Observed? ==> event.slot % 60 == 0)
      modifies this
      ensures Aligned(observations) && ReportsOk() && Onward(old(outages), outages)
      ensures forall k :: k in submit && k < |old(outages)| ==> !old(outages)[k].succeeded && !old(outages)[k].inFlight
      // the end of a report that is in flight is taken note of
      ensures event.Reported? && old(pending)[event.record] > 0 ==>
        finished == old(finished) + multiset{event.record} && pending == old(pending) - multiset{event.record}
      ensures event.Refused? && old(pending)[event.record] > 0 ==>
        finished == old(finished) && pending == old(pending) - multiset{event.record}
    {
      submit := [];
      match event
      case Observed(slot, observation, now) =>
        var conflict;
        conflict, submit := Record(slot, observation, now);
      case Refused(k) =>
        if k < |outages| && outages[k].inFlight {
          SubmitFailed(k);
        }
      case Reported(k, uploaded, at) =>
        if k < |outages| && outages[k].inFlight {
          FinishReport(k, uploaded, at);
        }
    }

    /** Any arrival order inside the retention window: the records are those of the
        accepted observations, and each keeps the anchor it was created with. */
    method Replay(xs: seq<(int, Observation)>, now: int)
      requires observations == map[] && outages == [] && ReportsOk()
      requires Retained(AcceptAll(xs)) && forall x :: x in xs ==> x.0 % 60 == 0
      modifies this
      ensures ReportsOk() && observations == AcceptAll(xs)
      ensures AnchorsOk(observations, threshold, outages) && Corresponds(observations, threshold, outages)
    {
      NothingCorresponds(threshold);
      for i := 0 to |xs|
        invariant Aligned(observations) && ReportsOk() && observations == AcceptAll(xs[..i])
        invariant AnchorsOk(observations, threshold, outages) && Corresponds(observations, threshold, outages)
      {
        assert xs[..i + 1] == xs[..i] + [xs[i]];
        AcceptGrows(xs, i + 1);
        RetainedIsUnpruned(AcceptAll(xs[..i + 1]), AcceptAll(xs));
        AnchorsGrow(observations, AcceptAll(xs[..i + 1]), threshold, outages);
        assert xs[i].0 in observations && observations[xs[i].0] == xs[i].1 ==>
          observations[xs[i].0 := xs[i].1] == observations;
        var conflict, submit := Record(xs[i].0, xs[i].1, now);
      }
      assert xs[..|xs|] == xs;
    }
  }
}
