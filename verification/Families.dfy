/** The sites that belong together: the graph of identity links and the family of a
    site, its closure. */
module Families {
  import opened Orders
  import opened Texts

  const PREFIX := "blondon_installation:"

  datatype StationKey = StationKey(connector: int, site: string)

  datatype Station = Station(key: StationKey, matchId: string)

  /** A metadata record: `SiteCode` and `InstallationCode`. */
  datatype Record = Record(site: string, installation: string)

  datatype Metadata = Metadata(owner: StationKey, records: seq<Record>)

  datatype Error = NotFound

  datatype Result<+T> = Ok(value: T) | Err(error: Error)

  type Graph = map<StationKey, set<StationKey>>

  function Neighbours(graph: Graph, key: StationKey): set<StationKey> {
    if key in graph then graph[key] else {}
  }

  // ---- Reachability ----

  ghost predicate Path(graph: Graph, p: seq<StationKey>) {
    forall i {:trigger Hop(graph, p, i)} :: 0 < i < |p| ==> Hop(graph, p, i)
  }

  predicate Hop(graph: Graph, p: seq<StationKey>, i: nat)
    requires 0 < i < |p|
  {
    p[i] in Neighbours(graph, p[i - 1])
  }

  ghost predicate PathFrom(graph: Graph, seeds: set<StationKey>, p: seq<StationKey>, key: StationKey) {
    p != [] && p[0] in seeds && p[|p| - 1] == key && Path(graph, p)
  }

  ghost predicate Reaches(graph: Graph, seeds: set<StationKey>, key: StationKey) {
    exists p :: PathFrom(graph, seeds, p, key)
  }

  ghost predicate Symmetric(graph: Graph) {
    forall a, b :: b in Neighbours(graph, a) ==> a in Neighbours(graph, b)
  }

  lemma SeedReached(graph: Graph, seeds: set<StationKey>, key: StationKey)
    requires key in seeds
    ensures Reaches(graph, seeds, key)
  {
    assert PathFrom(graph, seeds, [key], key);
  }

  lemma StepReached(graph: Graph, seeds: set<StationKey>, key: StationKey, next: StationKey)
    requires Reaches(graph, seeds, key) && next in Neighbours(graph, key)
    ensures Reaches(graph, seeds, next)
  {
    var p :| PathFrom(graph, seeds, p, key);
    var q := p + [next];
    forall i | 0 < i < |q| ensures Hop(graph, q, i) {
      if i < |p| {
        assert Hop(graph, p, i);
      }
    }
    assert PathFrom(graph, seeds, q, next);
  }

  /** A set that holds the seeds and every neighbour of its own holds all reached. */
  lemma {:induction false} ClosedHolds(graph: Graph, seeds: set<StationKey>, closed: set<StationKey>,
                                       p: seq<StationKey>, key: StationKey)
    requires PathFrom(graph, seeds, p, key) && seeds <= closed
    requires forall k :: k in closed ==> Neighbours(graph, k) <= closed
    ensures key in closed
    decreases |p|
  {
    if |p| > 1 {
      var n := |p| - 1;
      var q := p[..n];
      forall i | 0 < i < |q| ensures Hop(graph, q, i) {
        assert Hop(graph, p, i);
      }
      ClosedHolds(graph, seeds, closed, q, p[n - 1]);
      assert Hop(graph, p, n);
    }
  }

  lemma {:induction false} ReachThrough(graph: Graph, a: set<StationKey>, b: set<StationKey>, p: seq<StationKey>,
                                        key: StationKey)
    requires PathFrom(graph, b, p, key) && forall k :: k in b ==> Reaches(graph, a, k)
    ensures Reaches(graph, a, key)
    decreases |p|
  {
    if |p| > 1 {
      var n := |p| - 1;
      var q := p[..n];
      forall i | 0 < i < |q| ensures Hop(graph, q, i) {
        assert Hop(graph, p, i);
      }
      ReachThrough(graph, a, b, q, p[n - 1]);
      assert Hop(graph, p, n);
      StepReached(graph, a, p[n - 1], key);
    }
  }

  /** In a symmetric graph a path leads back. */
  lemma {:induction false} ReachBack(graph: Graph, from: StationKey, p: seq<StationKey>, key: StationKey)
    requires Symmetric(graph) && PathFrom(graph, {from}, p, key)
    ensures Reaches(graph, {key}, from)
    decreases |p|
  {
    if |p| == 1 {
      SeedReached(graph, {key}, from);
    } else {
      var n := |p| - 1;
      var q := p[..n];
      forall i | 0 < i < |q| ensures Hop(graph, q, i) {
        assert Hop(graph, p, i);
      }
      var last := p[n - 1];
      ReachBack(graph, from, q, last);
      assert Hop(graph, p, n);
      SeedReached(graph, {key}, key);
      StepReached(graph, {key}, key, last);
      var back :| PathFrom(graph, {last}, back, from);
      ReachThrough(graph, {key}, {last}, back, from);
    }
  }

  /** All of `seeds` lie in the component of `root`. */
  ghost predicate Inside(graph: Graph, root: StationKey, seeds: set<StationKey>) {
    seeds != {} && forall k :: k in seeds ==> Reaches(graph, {root}, k)
  }

  /** Seeds in one component reach all of it. */
  lemma WholeComponent(graph: Graph, root: StationKey, seeds: set<StationKey>, key: StationKey)
    requires Symmetric(graph) && Inside(graph, root, seeds)
    ensures Reaches(graph, seeds, key) <==> Reaches(graph, {root}, key)
  {
    if Reaches(graph, seeds, key) {
      var p :| PathFrom(graph, seeds, p, key);
      ReachThrough(graph, {root}, seeds, p, key);
    }
    if Reaches(graph, {root}, key) {
      SomeMember(seeds);
      var seed :| seed in seeds;
      var there :| PathFrom(graph, {root}, there, seed);
      ReachBack(graph, root, there, seed);
      var back :| PathFrom(graph, {seed}, back, root);
      SeedReached(graph, seeds, seed);
      ReachThrough(graph, seeds, {seed}, back, root);
      var p :| PathFrom(graph, {root}, p, key);
      ReachThrough(graph, seeds, {root}, p, key);
    }
  }

  // ---- Families in order ----

  predicate KeyLess(a: StationKey, b: StationKey) {
    a.connector < b.connector || (a.connector == b.connector && TextLess(a.site, b.site))
  }

  lemma KeyLessExactly(a: StationKey, b: StationKey)
    ensures KeyLess(a, b) <==> a.connector < b.connector || (a.connector == b.connector && TextBefore(a.site, b.site))
  {
    TextLessIsBefore(a.site, b.site);
  }

  lemma KeyLessIsTotal(a: StationKey, b: StationKey)
    requires a != b
    ensures KeyLess(a, b) != KeyLess(b, a)
  {
    if a.connector == b.connector {
      TextLessIsTotal(a.site, b.site);
      if TextLess(a.site, b.site) {
        TextLessIsStrict(a.site, b.site);
      } else {
        TextLessIsStrict(b.site, a.site);
      }
    }
  }

  lemma KeyLessIsTransitive(a: StationKey, b: StationKey, c: StationKey)
    requires KeyLess(a, b) && KeyLess(b, c)
    ensures KeyLess(a, c)
  {
    if a.connector == b.connector == c.connector {
      TextLessIsTransitive(a.site, b.site, c.site);
    }
  }

  lemma KeyLessIsOrder()
    ensures StrictTotal(KeyLess)
  {
    forall a, b ensures if a == b then !KeyLess(a, b) else KeyLess(a, b) != KeyLess(b, a) {
      if a != b {
        KeyLessIsTotal(a, b);
      } else if TextLess(a.site, a.site) {
        TextLessIsStrict(a.site, a.site);
      }
    }
    forall a, b, c | KeyLess(a, b) && KeyLess(b, c) ensures KeyLess(a, c) {
      KeyLessIsTransitive(a, b, c);
    }
  }

  // ---- Resolving a family ----

  ghost function Nodes(graph: Graph): set<StationKey> {
    set k, n | k in graph && n in graph[k] :: n
  }

  ghost predicate Closing(graph: Graph, seeds: set<StationKey>, visited: set<StationKey>, queue: seq<StationKey>) {
    && (forall k :: k in seeds ==> k in visited || k in queue)
    && (forall k :: k in visited || k in queue ==> Reaches(graph, seeds, k))
    && (forall k, n :: k in visited && n in Neighbours(graph, k) ==> n in visited || n in queue)
    && (forall k :: k in visited || k in queue ==> k in seeds + Nodes(graph))
  }

  lemma ClosingStep(graph: Graph, seeds: set<StationKey>, visited: set<StationKey>, queue: seq<StationKey>,
                    more: seq<StationKey>)
    requires Closing(graph, seeds, visited, queue) && queue != []
    requires forall n :: n in more ==> n in Neighbours(graph, queue[0])
    requires forall n :: n in Neighbours(graph, queue[0]) ==> n in visited + {queue[0]} || n in more
    ensures Closing(graph, seeds, visited + {queue[0]}, queue[1..] + more)
  {
    var key := queue[0];
    assert forall k :: k in queue ==> k == key || k in queue[1..];
    forall n | n in more ensures Reaches(graph, seeds, n) && n in Nodes(graph) {
      StepReached(graph, seeds, key, n);
    }
  }

  lemma ClosingSkip(graph: Graph, seeds: set<StationKey>, visited: set<StationKey>, queue: seq<StationKey>)
    requires Closing(graph, seeds, visited, queue) && queue != [] && queue[0] in visited
    ensures Closing(graph, seeds, visited, queue[1..])
  {
    assert forall k :: k in queue ==> k == queue[0] || k in queue[1..];
  }

  lemma Closed(graph: Graph, seeds: set<StationKey>, visited: set<StationKey>)
    requires Closing(graph, seeds, visited, [])
    ensures forall k :: k in visited <==> Reaches(graph, seeds, k)
  {
    forall k | Reaches(graph, seeds, k) ensures k in visited {
      var p :| PathFrom(graph, seeds, p, k);
      ClosedHolds(graph, seeds, visited, p, k);
    }
  }

  ghost predicate IsFamily(graph: Graph, seeds: set<StationKey>, family: seq<StationKey>) {
    InOrder(family, KeyLess) && forall k :: k in family <==> Reaches(graph, seeds, k)
  }

  /** The neighbours not visited yet, in whatever order the set gives them. */
  method Unvisited(neighbours: set<StationKey>, visited: set<StationKey>) returns (more: seq<StationKey>)
    ensures forall n :: n in more <==> n in neighbours && n !in visited
  {
    KeyLessIsOrder();
    more := Sorted(neighbours - visited, KeyLess);
  }

  method ResolveFamily(ref: string, lookup: map<string, set<StationKey>>, graph: Graph)
    returns (r: Result<seq<StationKey>>)
    ensures var seeds := if Upper(ref) in lookup then lookup[Upper(ref)] else {};
            if seeds == {} then r == Err(NotFound) else r.Ok? && IsFamily(graph, seeds, r.value)
  {
    var query := Upper(ref);
    var seeds := if query in lookup then lookup[query] else {};
    if seeds == {} {
      return Err(NotFound);
    }
    var visited: set<StationKey> := {};
    KeyLessIsOrder();
    var queue := Sorted(seeds, KeyLess);
    ghost var all := seeds + Nodes(graph);
    forall k | k in seeds ensures Reaches(graph, seeds, k) {
      SeedReached(graph, seeds, k);
    }
    while queue != []
      invariant Closing(graph, seeds, visited, queue) && visited <= all
      decreases all - visited, |queue|
    {
      var key := queue[0];
      assert key in queue;
      if key in visited {
        ClosingSkip(graph, seeds, visited, queue);
        queue := queue[1..];
        continue;
      }
      var more := Unvisited(Neighbours(graph, key), visited + {key});
      ClosingStep(graph, seeds, visited, queue, more);
      visited := visited + {key};
      queue := queue[1..] + more;
    }
    Closed(graph, seeds, visited);
    return Ok(Sorted(visited, KeyLess));
  }

  /** A family names no site twice. */
  lemma FamilyIsDuplicateFree(graph: Graph, seeds: set<StationKey>, family: seq<StationKey>)
    requires IsFamily(graph, seeds, family)
    ensures forall i, j :: 0 <= i < j < |family| ==> family[i] != family[j]
  {
    KeyLessIsOrder();
    NoDuplicates(family, KeyLess);
  }

  /** Queries with seeds in one component give the same family. */
  lemma SameComponentSameFamily(graph: Graph, root: StationKey, a: set<StationKey>, b: set<StationKey>,
                                f: seq<StationKey>, g: seq<StationKey>)
    requires Symmetric(graph) && Inside(graph, root, a) && Inside(graph, root, b)
    requires IsFamily(graph, a, f) && IsFamily(graph, b, g)
    ensures f == g
  {
    forall k ensures k in f <==> k in g {
      WholeComponent(graph, root, a, k);
      WholeComponent(graph, root, b, k);
    }
    KeyLessIsOrder();
    SameOrder(f, g, KeyLess);
  }

  // ---- Building the index ----

  type Lookup = map<string, set<StationKey>>

  function Found(lookup: Lookup, ref: string): set<StationKey> {
    if ref in lookup then lookup[ref] else {}
  }

  function SitesOf(communities: map<string, seq<StationKey>>, ref: string): seq<StationKey> {
    if ref in communities then communities[ref] else []
  }

  predicate IsInstallation(matchId: string) {
    |PREFIX| <= |matchId| && Lower(matchId)[..|PREFIX|] == PREFIX
  }

  function Alias(matchId: string): string
    requires IsInstallation(matchId)
  {
    Strip(matchId[|PREFIX|..])
  }

  /** The prefix in any case, and after it the alias between spaces. */
  lemma InstallationExactly(matchId: string) returns (before: string, after: string)
    ensures IsInstallation(matchId) <==>
      |matchId| >= 21 && forall i :: 0 <= i < 21 ==>
        var c, p := matchId[i] as int, "blondon_installation:"[i] as int;
        c == p || (97 <= p <= 122 && c == p - 32)
    ensures IsInstallation(matchId) ==>
      && matchId[21..] == before + Alias(matchId) + after && AllSpaces(before) && AllSpaces(after)
      && (Alias(matchId) != "" ==> Alias(matchId)[0] != ' ' && Alias(matchId)[|Alias(matchId)| - 1] != ' ')
  {
    before, after := "", "";
    if |matchId| >= 21 {
      assert Lower(matchId)[..21] == PREFIX <==>
        forall i :: 0 <= i < 21 ==> LowerChar(matchId[i]) == "blondon_installation:"[i];
      before, after := StripExactly(matchId[21..]);
    }
  }

  /** The references under which a station is found by itself. */
  predicate StationRefers(s: Station, ref: string, k: StationKey) {
    k == s.key && (ref == Upper(s.key.site)
                   || (IsInstallation(s.matchId) && Alias(s.matchId) != "" && ref == Upper(Alias(s.matchId))))
  }

  /** The references a metadata record adds for its owner. */
  predicate RecordRefers(owner: StationKey, r: Record, ref: string, k: StationKey) {
    k == owner && ((r.site != "" && ref == Upper(r.site))
                   || (owner.connector == 2 && r.installation != "" && ref == Upper(r.installation)))
  }

  predicate CommunityOf(keys: set<StationKey>, ref: string, k: StationKey) {
    k in keys && k.connector == 3 && Upper(k.site) == ref
  }

  /** A Nodes record names the installation of a Communities site. */
  predicate RecordLinks(keys: set<StationKey>, owner: StationKey, r: Record, a: StationKey, b: StationKey) {
    && owner.connector == 2 && r.installation != ""
    && (|| (a == owner && CommunityOf(keys, Upper(r.installation), b))
        || (b == owner && CommunityOf(keys, Upper(r.installation), a)))
  }

  ghost predicate OwnerLinks(keys: set<StationKey>, m: Metadata, a: StationKey, b: StationKey) {
    exists r :: r in m.records && RecordLinks(keys, m.owner, r, a, b)
  }

  ghost predicate OwnerRefers(m: Metadata, ref: string, k: StationKey) {
    exists r :: r in m.records && RecordRefers(m.owner, r, ref, k)
  }

  predicate SameInstallation(s: Station, t: Station) {
    && s.key != t.key && IsInstallation(Strip(s.matchId)) && IsInstallation(Strip(t.matchId))
    && Lower(Strip(s.matchId)) == Lower(Strip(t.matchId))
  }

  ghost predicate Matched(catalog: seq<Station>, a: StationKey, b: StationKey) {
    exists s, t :: s in catalog && t in catalog && s.key == a && t.key == b && SameInstallation(s, t)
  }

  function Keys(catalog: seq<Station>): set<StationKey> {
    set s | s in catalog :: s.key
  }

  /** Two stations are linked by metadata in either direction, or by their matches. */
  ghost predicate Linked(catalog: seq<Station>, metadata: seq<Metadata>, a: StationKey, b: StationKey) {
    (exists m :: m in metadata && OwnerLinks(Keys(catalog), m, a, b)) || Matched(catalog, a, b)
  }

  ghost predicate Refers(catalog: seq<Station>, metadata: seq<Metadata>, ref: string, k: StationKey) {
    (exists s :: s in catalog && StationRefers(s, ref, k)) || exists m :: m in metadata && OwnerRefers(m, ref, k)
  }

  ghost predicate GraphIs(graph: Graph, catalog: seq<Station>, metadata: seq<Metadata>) {
    forall a, b :: b in Neighbours(graph, a) <==> Linked(catalog, metadata, a, b)
  }

  /** The graph stays symmetric, whatever the metadata. */
  lemma IndexIsSymmetric(graph: Graph, catalog: seq<Station>, metadata: seq<Metadata>)
    requires GraphIs(graph, catalog, metadata)
    ensures Symmetric(graph)
  {
    forall a, b | b in Neighbours(graph, a) ensures a in Neighbours(graph, b) {
      assert Linked(catalog, metadata, a, b);
      if Matched(catalog, a, b) {
        var s, t :| s in catalog && t in catalog && s.key == a && t.key == b && SameInstallation(s, t);
        assert SameInstallation(t, s);
      } else {
        var m :| m in metadata && OwnerLinks(Keys(catalog), m, a, b);
        var r :| r in m.records && RecordLinks(Keys(catalog), m.owner, r, a, b);
        assert RecordLinks(Keys(catalog), m.owner, r, b, a);
        assert OwnerLinks(Keys(catalog), m, b, a);
      }
    }
  }

  function Put(lookup: Lookup, ref: string, key: StationKey): (r: Lookup)
    ensures forall x, k :: k in Found(r, x) <==> k in Found(lookup, x) || (x == ref && k == key)
  {
    lookup[ref := Found(lookup, ref) + {key}]
  }

  function Join(graph: Graph, a: StationKey, b: StationKey): (r: Graph)
    ensures forall x, y :: y in Neighbours(r, x) <==> y in Neighbours(graph, x) || (x == a && y == b)
  {
    graph[a := Neighbours(graph, a) + {b}]
  }

  function Append(communities: map<string, seq<StationKey>>, ref: string, key: StationKey)
    : (r: map<string, seq<StationKey>>)
    ensures forall x, k :: k in SitesOf(r, x) <==> k in SitesOf(communities, x) || (x == ref && k == key)
  {
    communities[ref := SitesOf(communities, ref) + [key]]
  }

  method IndexCatalog(catalog: seq<Station>) returns (lookup: Lookup, communities: map<string, seq<StationKey>>)
    ensures forall ref, k :: k in Found(lookup, ref) <==> exists s :: s in catalog && StationRefers(s, ref, k)
    ensures forall ref, k :: k in SitesOf(communities, ref) <==> CommunityOf(Keys(catalog), ref, k)
  {
    lookup, communities := map[], map[];
    for i := 0 to |catalog|
      invariant forall ref, k :: k in Found(lookup, ref) <==> exists s :: s in catalog[..i] && StationRefers(s, ref, k)
      invariant forall ref, k :: k in SitesOf(communities, ref) <==> CommunityOf(Keys(catalog[..i]), ref, k)
    {
      var s := catalog[i];
      assert catalog[..i + 1] == catalog[..i] + [s];
      ghost var was := lookup;
      lookup := Put(lookup, Upper(s.key.site), s.key);
      if IsInstallation(s.matchId) && Alias(s.matchId) != "" {
        lookup := Put(lookup, Upper(Alias(s.matchId)), s.key);
      }
      assert forall ref, k :: k in Found(lookup, ref) <==> k in Found(was, ref) || StationRefers(s, ref, k);
      ghost var keys, sites := Keys(catalog[..i]), communities;
      assert Keys(catalog[..i + 1]) == keys + {s.key};
      if s.key.connector == 3 {
        communities := Append(communities, Upper(s.key.site), s.key);
      }
      assert forall ref, k :: CommunityOf(keys + {s.key}, ref, k) <==>
        CommunityOf(keys, ref, k) || (s.key.connector == 3 && ref == Upper(s.key.site) && k == s.key);
    }
    assert catalog[..|catalog|] == catalog;
  }

  /** Both directions for every Communities site of the installation. */
  method LinkOwner(graph: Graph, owner: StationKey, sites: seq<StationKey>) returns (r: Graph)
    ensures forall a, b :: b in Neighbours(r, a) <==> b in Neighbours(graph, a) || BothWays(owner, sites, a, b)
  {
    r := graph;
    for i := 0 to |sites|
      invariant forall a, b :: b in Neighbours(r, a) <==> b in Neighbours(graph, a) || BothWays(owner, sites[..i], a, b)
    {
      ghost var was := r;
      assert sites[..i + 1] == sites[..i] + [sites[i]];
      r := Join(Join(r, owner, sites[i]), sites[i], owner);
      assert forall a, b :: BothWays(owner, sites[..i + 1], a, b) <==>
        BothWays(owner, sites[..i], a, b) || (a == owner && b == sites[i]) || (b == owner && a == sites[i]);
      assert forall a, b :: b in Neighbours(r, a) <==>
        b in Neighbours(was, a) || (a == owner && b == sites[i]) || (b == owner && a == sites[i]);
    }
    assert sites[..|sites|] == sites;
  }

  predicate BothWays(owner: StationKey, sites: seq<StationKey>, a: StationKey, b: StationKey) {
    (a == owner && b in sites) || (b == owner && a in sites)
  }

  method IndexOwner(lookup: Lookup, graph: Graph, communities: map<string, seq<StationKey>>,
                    ghost keys: set<StationKey>, m: Metadata)
    returns (newLookup: Lookup, newGraph: Graph)
    requires forall ref, k :: k in SitesOf(communities, ref) <==> CommunityOf(keys, ref, k)
    ensures forall ref, k :: k in Found(newLookup, ref) <==> k in Found(lookup, ref) || OwnerRefers(m, ref, k)
    ensures forall a, b :: b in Neighbours(newGraph, a) <==> b in Neighbours(graph, a) || OwnerLinks(keys, m, a, b)
  {
    newLookup, newGraph := lookup, graph;
    var owner, records := m.owner, m.records;
    for i := 0 to |records|
      invariant forall ref, k :: k in Found(newLookup, ref) <==>
        k in Found(lookup, ref) || OwnerRefers(Metadata(owner, records[..i]), ref, k)
      invariant forall a, b :: b in Neighbours(newGraph, a) <==>
        b in Neighbours(graph, a) || OwnerLinks(keys, Metadata(owner, records[..i]), a, b)
    {
      var r := records[i];
      assert records[..i + 1] == records[..i] + [r];
      ghost var was, wasGraph := newLookup, newGraph;
      if r.site != "" {
        newLookup := Put(newLookup, Upper(r.site), owner);
      }
      if owner.connector == 2 && r.installation != "" {
        var ref := Upper(r.installation);
        newLookup := Put(newLookup, ref, owner);
        newGraph := LinkOwner(newGraph, owner, SitesOf(communities, ref));
        assert forall a, b :: BothWays(owner, SitesOf(communities, ref), a, b) <==> RecordLinks(keys, owner, r, a, b);
      }
      assert forall ref, k :: k in Found(newLookup, ref) <==> k in Found(was, ref) || RecordRefers(owner, r, ref, k);
      assert forall a, b ::
        b in Neighbours(newGraph, a) <==> b in Neighbours(wasGraph, a) || RecordLinks(keys, owner, r, a, b);
    }
    assert records[..|records|] == records && Metadata(owner, records) == m;
  }

  /** Every ordered pair of a group of matching stations. */
  method LinkMatches(graph: Graph, catalog: seq<Station>) returns (r: Graph)
    ensures forall a, b :: b in Neighbours(r, a) <==> b in Neighbours(graph, a) || Matched(catalog, a, b)
  {
    r := graph;
    for i := 0 to |catalog|
      invariant forall a, b ::
        b in Neighbours(r, a) <==> b in Neighbours(graph, a) || MatchedFrom(catalog[..i], catalog, a, b)
    {
      ghost var was := r;
      assert catalog[..i + 1] == catalog[..i] + [catalog[i]];
      for j := 0 to |catalog|
        invariant forall a, b ::
          b in Neighbours(r, a) <==> b in Neighbours(was, a) || MatchedFrom([catalog[i]], catalog[..j], a, b)
      {
        assert catalog[..j + 1] == catalog[..j] + [catalog[j]];
        ghost var before := r;
        var left, right := Strip(catalog[i].matchId), Strip(catalog[j].matchId);
        if IsInstallation(left) && IsInstallation(right) && Lower(left) == Lower(right)
          && catalog[i].key != catalog[j].key {
          r := Join(r, catalog[i].key, catalog[j].key);
        }
        MatchedMore(catalog[i], catalog[..j], catalog[j]);
      }
      assert catalog[..|catalog|] == catalog;
      MatchedOneMore(catalog[..i], catalog[i], catalog);
    }
    assert catalog[..|catalog|] == catalog;
  }

  ghost predicate MatchedFrom(left: seq<Station>, right: seq<Station>, a: StationKey, b: StationKey) {
    exists s, t :: s in left && t in right && s.key == a && t.key == b && SameInstallation(s, t)
  }

  lemma MatchedMore(s: Station, right: seq<Station>, t: Station)
    ensures forall a, b :: MatchedFrom([s], right + [t], a, b) <==>
      MatchedFrom([s], right, a, b) || (SameInstallation(s, t) && a == s.key && b == t.key)
  {
    assert forall x :: x in right + [t] <==> x in right || x == t;
    assert s in [s];
  }

  lemma MatchedOneMore(left: seq<Station>, s: Station, right: seq<Station>)
    ensures forall a, b ::
      MatchedFrom(left + [s], right, a, b) <==> MatchedFrom(left, right, a, b) || MatchedFrom([s], right, a, b)
  {
    assert forall x :: x in left + [s] <==> x in left || x in [s];
  }

  method BuildFamilyIndex(catalog: seq<Station>, metadata: seq<Metadata>) returns (lookup: Lookup, graph: Graph)
    ensures forall ref, k :: k in Found(lookup, ref) <==> Refers(catalog, metadata, ref, k)
    ensures GraphIs(graph, catalog, metadata)
  {
    var communities;
    lookup, communities := IndexCatalog(catalog);
    graph := map[];
    ghost var own := lookup;
    for i := 0 to |metadata|
      invariant forall ref, k :: k in Found(lookup, ref) <==>
        k in Found(own, ref) || exists m :: m in metadata[..i] && OwnerRefers(m, ref, k)
      invariant forall a, b ::
        b in Neighbours(graph, a) <==> exists m :: m in metadata[..i] && OwnerLinks(Keys(catalog), m, a, b)
    {
      assert metadata[..i + 1] == metadata[..i] + [metadata[i]];
      lookup, graph := IndexOwner(lookup, graph, communities, Keys(catalog), metadata[i]);
    }
    assert metadata[..|metadata|] == metadata;
    graph := LinkMatches(graph, catalog);
  }
}
