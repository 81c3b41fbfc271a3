/** The local cache of remote objects: a body file and a sidecar file per key,
    written by several processes at once and read without a lock. */
module LocalCache {
  import opened Options
  import opened Texts

  type Blob = seq<int>

  /** What is in a sidecar file: the fields of a JSON object, or something else. */
  datatype SidecarText =
    | Json(version: int, key: string, etag: Option<string>, sha: Option<Blob>)
    | OtherText

  datatype Sidecar = Sidecar(etag: string, sha: Blob)

  datatype FileRead<+T> = Bytes(content: T) | Missing | Unreadable

  datatype Fingerprint = Fingerprint(present: bool, etag: Option<string>)

  datatype Outcome =
    | Disabled | ColdMiss | Corrupt | ValidationError | FingerprintMismatch | WarmHit(body: Blob, etag: string)

  /** `sha` stands for a text of 64 hexadecimal digits, `None` for any other text. */
  function ParseSidecar(text: SidecarText, key: string): Option<Sidecar> {
    if text.OtherText? || text.version != 1 || text.key != key || text.etag.None? then None
    else
      var etag := Strip(text.etag.value);
      if etag != "" && text.sha.Some? then Some(Sidecar(etag, text.sha.value)) else None
  }

  // ---- What the cache relies on ----

  /** Equal digests mean equal bodies. */
  ghost predicate Injective(digest: Blob -> Blob) {
    forall a, b :: digest(a) == digest(b) ==> a == b
  }

  /** A body under its own etag: an etag, trimmed, names one content of the key. */
  ghost predicate Genuine(contents: (string, string) -> Blob, key: string, etag: string, body: Blob) {
    contents(key, Strip(etag)) == body
  }

  /** A sidecar that parses names the digest of the content of its etag. */
  ghost predicate SidecarOk(contents: (string, string) -> Blob, digest: Blob -> Blob, key: string, text: SidecarText) {
    var parsed := ParseSidecar(text, key);
    parsed.Some? ==> parsed.value.sha == digest(contents(key, parsed.value.etag))
  }

  lemma {:induction false} StripTwice(s: string)
    ensures Strip(Strip(s)) == Strip(s)
    decreases |s|
  {
    if s != "" && s[0] == ' ' {
      StripTwice(s[1..]);
    } else if s != "" && s[|s| - 1] == ' ' {
      StripTwice(s[..|s| - 1]);
    }
  }

  function SidecarFor(key: string, etag: string, sha: Blob): SidecarText {
    Json(1, key, Some(etag), Some(sha))
  }

  lemma StoredSidecarOk(contents: (string, string) -> Blob, digest: Blob -> Blob, key: string, etag: string, body: Blob)
    requires Genuine(contents, key, etag, body)
    ensures SidecarOk(contents, digest, key, SidecarFor(key, Strip(etag), digest(body)))
  {
    StripTwice(etag);
  }

  // ---- The decision of a read ----

  function Validate(sidecar: FileRead<SidecarText>, body: FileRead<Blob>, key: string, valid: Blob -> bool,
                    digest: Blob -> Blob, remote: Option<Fingerprint>): Outcome
    requires sidecar.Bytes? && body.Bytes?
  {
    var parsed := ParseSidecar(sidecar.content, key);
    if parsed.None? || !valid(body.content) || digest(body.content) != parsed.value.sha then Corrupt
    else if remote.None? then ValidationError
    else if !remote.value.present || remote.value.etag.None? || remote.value.etag.value == ""
            || remote.value.etag.value != parsed.value.etag then FingerprintMismatch
    else WarmHit(body.content, parsed.value.etag)
  }

  /** However old the two files are and whoever wrote them, a hit has the bytes of
      the remote object whose etag was observed. */
  lemma HitIsSound(contents: (string, string) -> Blob, digest: Blob -> Blob, sidecar: FileRead<SidecarText>,
                   body: FileRead<Blob>, key: string, valid: Blob -> bool, remote: Option<Fingerprint>)
    requires Injective(digest) && sidecar.Bytes? && body.Bytes? && SidecarOk(contents, digest, key, sidecar.content)
    ensures var r := Validate(sidecar, body, key, valid, digest, remote);
            r.WarmHit? ==> remote.Some? && remote.value.present && remote.value.etag == Some(r.etag)
                           && r.body == contents(key, r.etag) && valid(r.body)
  {
  }

  /** The cache is of use: what was stored whole is a hit while the remote keeps its etag. */
  lemma StoreThenHit(key: string, etag: string, body: Blob, valid: Blob -> bool, digest: Blob -> Blob)
    requires Strip(etag) != "" && valid(body)
    ensures Validate(Bytes(SidecarFor(key, Strip(etag), digest(body))), Bytes(body), key, valid, digest,
                     Some(Fingerprint(true, Some(Strip(etag))))) == WarmHit(body, Strip(etag))
  {
    StripTwice(etag);
  }

  /** Without injective digests a hit can be wrong: one that collides is enough. */
  lemma CollisionIsNotCaught(contents: (string, string) -> Blob, digest: Blob -> Blob, key: string, etag: string,
                             other: Blob)
    requires Strip(etag) == etag != "" && digest(other) == digest(contents(key, etag)) && other != contents(key, etag)
    ensures var text := SidecarFor(key, etag, digest(contents(key, etag)));
            SidecarOk(contents, digest, key, text)
            && Validate(Bytes(text), Bytes(other), key, (b: Blob) => true, digest, Some(Fingerprint(true, Some(etag))))
               == WarmHit(other, etag)
  {
  }

  // ---- Running beside other writers ----

  datatype Counter = DisabledCount | ColdMissCount | WarmHitCount | MismatchCount | CorruptCount | ValidationErrorCount
                   | WriteFailureCount | SkippedMissingEtagCount

  type Stats = map<Counter, nat>

  function Bump(stats: Stats, c: Counter): Stats {
    stats[c := 1 + if c in stats then stats[c] else 0]
  }

  function CounterOf(o: Outcome): Counter {
    match o
    case Disabled => DisabledCount
    case ColdMiss => ColdMissCount
    case Corrupt => CorruptCount
    case ValidationError => ValidationErrorCount
    case FingerprintMismatch => MismatchCount
    case WarmHit(_, _) => WarmHitCount
  }

  function CountOf(stats: Stats, c: Counter): nat {
    if c in stats then stats[c] else 0
  }

  /** A read adds one to the counter named after its outcome, and nothing to the others. */
  lemma CountedOnce(stats: Stats, o: Outcome, c: Counter)
    ensures CountOf(Bump(stats, CounterOf(o)), c) == CountOf(stats, c) +
      if (match c
          case DisabledCount => o.Disabled?
          case ColdMissCount => o.ColdMiss?
          case WarmHitCount => o.WarmHit?
          case MismatchCount => o.FingerprintMismatch?
          case CorruptCount => o.Corrupt?
          case ValidationErrorCount => o.ValidationError?
          case _ => false)
      then 1 else 0
  {
  }

  /** A file put in place by this process. */
  datatype Write = BodyWrite(key: string, body: Blob) | SidecarWrite(key: string, text: SidecarText)

  /** The shared directory and the remote store. */
  class World {
    const contents: (string, string) -> Blob
    const digest: Blob -> Blob
    var bodies: map<string, Blob>
    var sidecars: map<string, SidecarText>
    var remote: map<string, string>           // the current etag of each object
    ghost var writes: seq<Write>              // by this process, in order
    ghost var disturbed: nat                  // steps of other processes and failures, so far

    constructor (contents: (string, string) -> Blob, digest: Blob -> Blob)
      requires Injective(digest)
      ensures Valid() && bodies == map[] && sidecars == map[]
    {
      this.contents, this.digest := contents, digest;
      bodies, sidecars, remote, writes, disturbed := map[], map[], map[], [], 0;
    }

    ghost predicate Valid()
      reads this
    {
      && Injective(digest)
      && (forall k :: k in sidecars ==> SidecarOk(contents, digest, k, sidecars[k]))
      && forall k :: k in remote ==> remote[k] != "" && Strip(remote[k]) == remote[k]
    }

    /** What one other process may do between two steps: put an object, replace a
        body file by anything at all, replace a sidecar by that of a genuine pair, or
        leave a file damaged or gone. */
    method OtherStep(kind: int, key: string, etag: string, body: Blob)
      requires Valid()
      modifies `bodies, `sidecars, `remote, `disturbed
      ensures Valid() && disturbed == old(disturbed) + 1
    {
      disturbed := disturbed + 1;
      if kind == 0 {
        bodies := bodies[key := body];
      } else if kind == 1 {
        bodies := map k | k in bodies && k != key :: bodies[k];
      } else if kind == 2 {
        StoredSidecarOk(contents, digest, key, etag, contents(key, Strip(etag)));
        sidecars := sidecars[key := SidecarFor(key, Strip(etag), digest(contents(key, Strip(etag))))];
      } else if kind == 3 {
        sidecars := sidecars[key := OtherText];
      } else if kind == 4 {
        sidecars := map k | k in sidecars && k != key :: sidecars[k];
      } else if kind == 5 {
        StripTwice(etag);
        if Strip(etag) != "" {
          remote := remote[key := Strip(etag)];
        }
      } else {
        remote := map k | k in remote && k != key :: remote[k];
      }
    }

    /** Any number of steps of any other processes. */
    method Others()
      requires Valid()
      modifies `bodies, `sidecars, `remote, `disturbed
      ensures Valid() && old(disturbed) <= disturbed
      ensures disturbed == old(disturbed) ==>
        bodies == old(bodies) && sidecars == old(sidecars) && remote == old(remote)
    {
      var more: bool := *;
      var left: nat := *;
      while more && left > 0
        invariant Valid() && old(disturbed) <= disturbed
        invariant disturbed == old(disturbed) ==>
          bodies == old(bodies) && sidecars == old(sidecars) && remote == old(remote)
        decreases left
      {
        var kind: int, key: string, etag: string, body: Blob := *, *, *, *;
        OtherStep(kind, key, etag, body);
        left := left - 1;
        more := *;
      }
    }

    method ReadSidecar(key: string) returns (r: FileRead<SidecarText>)
      requires Valid()
      modifies `disturbed
      ensures Valid() && disturbed == old(disturbed) + if r.Unreadable? then 1 else 0
      ensures !r.Unreadable? ==> r == if key in sidecars then Bytes(sidecars[key]) else Missing
    {
      var failed: bool := *;
      if failed {
        disturbed := disturbed + 1;
        return Unreadable;
      }
      return if key in sidecars then Bytes(sidecars[key]) else Missing;
    }

    method ReadBody(key: string) returns (r: FileRead<Blob>)
      modifies `disturbed
      ensures disturbed == old(disturbed) + if r.Unreadable? then 1 else 0
      ensures !r.Unreadable? ==> r == if key in bodies then Bytes(bodies[key]) else Missing
    {
      var failed: bool := *;
      if failed {
        disturbed := disturbed + 1;
        return Unreadable;
      }
      return if key in bodies then Bytes(bodies[key]) else Missing;
    }

    /** HEAD: the etag at that moment, unless the response has none, or a failure. */
    method Head(key: string) returns (r: Option<Fingerprint>)
      modifies `disturbed
      ensures old(disturbed) <= disturbed
      ensures r.Some? && r.value.etag.Some? ==> key in remote && r.value.etag == Some(remote[key])
      ensures disturbed == old(disturbed) ==>
        r == Some(Fingerprint(key in remote, if key in remote then Some(remote[key]) else None))
    {
      var failed: bool, named: bool := *, *;
      if failed || (key in remote && !named) {
        disturbed := disturbed + 1;
      }
      if failed {
        return None;
      }
      return Some(Fingerprint(key in remote, if named && key in remote then Some(remote[key]) else None));
    }

    /** GET: a body with its own etag, if the response has one. */
    method Get(key: string) returns (r: Option<(Blob, Option<string>)>)
      requires Valid()
      modifies `disturbed
      ensures Valid() && old(disturbed) <= disturbed
      ensures disturbed == old(disturbed) ==>
        r == if key in remote then Some((contents(key, remote[key]), Some(remote[key]))) else None
      ensures r.Some? ==> key in remote && r.value.0 == contents(key, remote[key])
      ensures r.Some? && r.value.1.Some? ==> r.value.1 == Some(remote[key])
    {
      var failed: bool, named: bool := *, *;
      if key in remote && (failed || !named) {
        disturbed := disturbed + 1;
      }
      if failed || key !in remote {
        return None;
      }
      return Some((contents(key, remote[key]), if named then Some(remote[key]) else None));
    }

    /** A temporary file renamed onto the body; the write or the rename may fail. */
    method WriteBody(key: string, body: Blob) returns (ok: bool)
      requires Valid()
      modifies `bodies, `writes, `disturbed
      ensures Valid() && disturbed == old(disturbed) + if ok then 0 else 1
      ensures bodies == if ok then old(bodies)[key := body] else old(bodies)
      ensures writes == if ok then old(writes) + [BodyWrite(key, body)] else old(writes)
    {
      ok := *;
      if ok {
        bodies, writes := bodies[key := body], writes + [BodyWrite(key, body)];
      } else {
        disturbed := disturbed + 1;
      }
    }

    method WriteSidecar(key: string, text: SidecarText) returns (ok: bool)
      requires Valid() && SidecarOk(contents, digest, key, text)
      modifies `sidecars, `writes, `disturbed
      ensures Valid() && disturbed == old(disturbed) + if ok then 0 else 1
      ensures sidecars == if ok then old(sidecars)[key := text] else old(sidecars)
      ensures writes == if ok then old(writes) + [SidecarWrite(key, text)] else old(writes)
    {
      ok := *;
      if ok {
        sidecars, writes := sidecars[key := text], writes + [SidecarWrite(key, text)];
      } else {
        disturbed := disturbed + 1;
      }
    }
  }

  /** The sidecar is one of this schema and key, with an etag, for this body, which is valid. */
  ghost predicate Coherent(text: SidecarText, body: Blob, key: string, valid: Blob -> bool, digest: Blob -> Blob) {
    && text.Json? && text.version == 1 && text.key == key && text.etag.Some? && Strip(text.etag.value) != ""
    && text.sha == Some(digest(body)) && valid(body)
  }

  /** The five ways a read ends when nothing interferes and nothing fails. */
  ghost predicate Decided(r: Outcome, enabled: bool, sidecars: map<string, SidecarText>, bodies: map<string, Blob>,
                          remote: map<string, string>, key: string, valid: Blob -> bool, digest: Blob -> Blob) {
    if !enabled then r == Disabled
    else if key !in sidecars || key !in bodies then r == ColdMiss
    else if !Coherent(sidecars[key], bodies[key], key, valid, digest) then r == Corrupt
    else if key !in remote || remote[key] != Strip(sidecars[key].etag.value) then r == FingerprintMismatch
    else r == WarmHit(bodies[key], remote[key])
  }

  function Asked(remote: map<string, string>, key: string): Fingerprint {
    Fingerprint(key in remote, if key in remote then Some(remote[key]) else None)
  }

  lemma ValidateDecides(sidecars: map<string, SidecarText>, bodies: map<string, Blob>, remote: map<string, string>,
                        key: string, valid: Blob -> bool, digest: Blob -> Blob)
    requires key in sidecars && key in bodies && (key in remote ==> remote[key] != "")
    ensures Validate(Bytes(sidecars[key]), Bytes(bodies[key]), key, valid, digest, None).Corrupt? <==>
      !Coherent(sidecars[key], bodies[key], key, valid, digest)
    ensures Decided(Validate(Bytes(sidecars[key]), Bytes(bodies[key]), key, valid, digest, Some(Asked(remote, key))),
                    true, sidecars, bodies, remote, key, valid, digest)
  {
  }

  lemma StoredDecides(sidecars: map<string, SidecarText>, bodies: map<string, Blob>, remote: map<string, string>,
                      key: string, valid: Blob -> bool, digest: Blob -> Blob, body: Blob)
    requires key in remote && remote[key] != "" && Strip(remote[key]) == remote[key] && valid(body)
    requires key in bodies && bodies[key] == body
    requires key in sidecars && sidecars[key] == SidecarFor(key, Strip(remote[key]), digest(body))
    ensures Decided(WarmHit(body, remote[key]), true, sidecars, bodies, remote, key, valid, digest)
  {
  }

  /** The etag observed is that of the remote object, and the body is its content. */
  ghost predicate Observed(contents: (string, string) -> Blob, seen: map<string, string>, key: string, body: Blob,
                           etag: string) {
    key in seen && seen[key] == etag && body == contents(key, etag)
  }

  class Cache {
    const world: World
    const enabled: bool
    var stats: Stats

    constructor (world: World, enabled: bool)
      ensures this.world == world && this.enabled == enabled && stats == map[]
    {
      this.world, this.enabled, stats := world, enabled, map[];
    }

    /** `seen` is the remote store as it was when it was asked. */
    method ReadValidated(key: string, valid: Blob -> bool) returns (r: Outcome, ghost seen: map<string, string>)
      requires world.Valid()
      modifies world, `stats
      ensures world.Valid() && world.writes == old(world.writes)
      ensures stats == Bump(old(stats), CounterOf(r))
      ensures old(world.disturbed) <= world.disturbed
      ensures world.disturbed == old(world.disturbed) ==>
        && world.bodies == old(world.bodies) && world.sidecars == old(world.sidecars)
        && world.remote == old(world.remote)
        && Decided(r, enabled, world.sidecars, world.bodies, world.remote, key, valid, world.digest)
      ensures r.WarmHit? ==> enabled && Observed(world.contents, seen, key, r.body, r.etag) && valid(r.body)
    {
      seen := map[];
      if !enabled {
        stats := Bump(stats, DisabledCount);
        return Disabled, seen;
      }
      var sidecar, body := ReadFiles(key);
      if !(sidecar.Bytes? && body.Bytes?) {
        var missing := FirstFailure(sidecar, body);
        r := if missing then ColdMiss else Corrupt;
        stats := Bump(stats, CounterOf(r));
        return;
      }
      if key in world.sidecars && key in world.bodies {
        ValidateDecides(world.sidecars, world.bodies, world.remote, key, valid, world.digest);
      }
      r := Validate(sidecar, body, key, valid, world.digest, None);
      if r.Corrupt? {
        stats := Bump(stats, CorruptCount);
        return;
      }
      var remote;
      remote, seen := Ask(key);
      HitIsSound(world.contents, world.digest, sidecar, body, key, valid, remote);
      r := Validate(sidecar, body, key, valid, world.digest, remote);
      stats := Bump(stats, CounterOf(r));
    }

    /** Both files, in either order; others may change them before and between. */
    method ReadFiles(key: string) returns (sidecar: FileRead<SidecarText>, body: FileRead<Blob>)
      requires world.Valid()
      modifies world
      ensures world.Valid() && world.writes == old(world.writes) && old(world.disturbed) <= world.disturbed
      ensures sidecar.Bytes? ==> SidecarOk(world.contents, world.digest, key, sidecar.content)
      ensures world.disturbed == old(world.disturbed) ==>
        && world.bodies == old(world.bodies) && world.sidecars == old(world.sidecars)
        && world.remote == old(world.remote)
        && sidecar == (if key in world.sidecars then Bytes(world.sidecars[key]) else Missing)
        && body == (if key in world.bodies then Bytes(world.bodies[key]) else Missing)
    {
      var bodyFirst: bool := *;
      world.Others();
      if bodyFirst {
        body := world.ReadBody(key);
        world.Others();
        sidecar := world.ReadSidecar(key);
      } else {
        sidecar := world.ReadSidecar(key);
        world.Others();
        body := world.ReadBody(key);
      }
    }

    /** HEAD, and the remote store as it was then. */
    method Ask(key: string) returns (remote: Option<Fingerprint>, ghost seen: map<string, string>)
      requires world.Valid()
      modifies world
      ensures world.Valid() && world.writes == old(world.writes) && old(world.disturbed) <= world.disturbed
      ensures remote.Some? && remote.value.etag.Some? ==> key in seen && remote.value.etag == Some(seen[key])
      ensures world.disturbed == old(world.disturbed) ==>
        && world.bodies == old(world.bodies) && world.sidecars == old(world.sidecars)
        && world.remote == old(world.remote)
        && remote == Some(Asked(world.remote, key))
    {
      world.Others();
      remote := world.Head(key);
      seen := world.remote;
      world.Others();
    }

    /** Both reads run; the first failure decides. */
    method FirstFailure<T, U>(a: FileRead<T>, b: FileRead<U>) returns (missing: bool)
      ensures a.Missing? && b.Missing? ==> missing
      ensures a.Unreadable? && b.Unreadable? ==> !missing
      ensures a.Bytes? && !b.Bytes? ==> missing == b.Missing?
      ensures b.Bytes? && !a.Bytes? ==> missing == a.Missing?
    {
      var first: bool := *;
      if b.Bytes? || (first && !a.Bytes?) {
        missing := a.Missing?;
      } else {
        missing := b.Missing?;
      }
    }

    /** The two files of a body and its etag. */
    function Stored(key: string, body: Blob, etag: string): seq<Write>
    {
      [BodyWrite(key, body), SidecarWrite(key, SidecarFor(key, Strip(etag), world.digest(body)))]
    }

    method Store(key: string, body: Blob, etag: Option<string>) returns (ok: bool)
      requires world.Valid() && (etag.Some? ==> Genuine(world.contents, key, etag.value, body))
      modifies world, `stats
      ensures world.Valid()
      ensures !enabled ==> ok && stats == old(stats)
      ensures enabled && (etag.None? || Strip(etag.value) == "") ==>
        !ok && stats == Bump(old(stats), SkippedMissingEtagCount)
      ensures enabled && etag.Some? && Strip(etag.value) != "" ==>
        stats == if ok then old(stats) else Bump(old(stats), WriteFailureCount)
      // the body before the sidecar, and nothing else
      ensures world.writes == old(world.writes)
        || (enabled && world.writes == old(world.writes) + [BodyWrite(key, body)])
        || (enabled && etag.Some? && ok && world.writes == old(world.writes) + Stored(key, body, etag.value))
      ensures enabled && ok ==> etag.Some? && world.writes == old(world.writes) + Stored(key, body, etag.value)
      ensures old(world.disturbed) <= world.disturbed
      ensures world.disturbed == old(world.disturbed) ==> world.remote == old(world.remote)
      ensures world.disturbed == old(world.disturbed) && enabled && etag.Some? && Strip(etag.value) != "" ==>
        && ok && world.bodies == old(world.bodies)[key := body]
        && world.sidecars == old(world.sidecars)[key := SidecarFor(key, Strip(etag.value), world.digest(body))]
    {
      if !enabled {
        return true;
      }
      if etag.None? || Strip(etag.value) == "" {
        stats := Bump(stats, SkippedMissingEtagCount);
        return false;
      }
      var text := SidecarFor(key, Strip(etag.value), world.digest(body));
      StoredSidecarOk(world.contents, world.digest, key, etag.value, body);
      world.Others();
      ok := world.WriteBody(key, body);
      if ok {
        world.Others();
        ok := world.WriteSidecar(key, text);
      }
      if !ok {
        stats := Bump(stats, WriteFailureCount);
      }
      world.Others();
    }

    /** The client: the cached object when it is still the remote one, or else a fresh
        copy, which is kept. */
    method LoadDurable(key: string, valid: Blob -> bool)
      returns (r: Option<(Blob, Option<string>)>, ghost seen: map<string, string>)
      requires world.Valid()
      modifies world, `stats
      ensures world.Valid()
      ensures r.Some? ==> key in seen && Observed(world.contents, seen, key, r.value.0, seen[key])
      ensures r.Some? && r.value.1.Some? ==> r.value.1 == Some(seen[key])
      // undisturbed, the object is returned if it is there, and then the next read is a hit
      ensures world.disturbed == old(world.disturbed) ==>
        && world.remote == old(world.remote) && (r.Some? <==> key in world.remote)
        && (r.Some? && enabled && valid(r.value.0) ==>
              Decided(WarmHit(r.value.0, world.remote[key]), true, world.sidecars, world.bodies, world.remote, key,
                      valid, world.digest))
    {
      var local;
      local, seen := ReadValidated(key, valid);
      if local.WarmHit? {
        return Some((local.body, Some(local.etag))), seen;
      }
      r := world.Get(key);
      seen := world.remote;
      if r.Some? {
        var stored := Store(key, r.value.0, r.value.1);
        if world.disturbed == old(world.disturbed) && enabled && valid(r.value.0) {
          StoredDecides(world.sidecars, world.bodies, world.remote, key, valid, world.digest, r.value.0);
        }
      }
    }

    /** After a PUT whose response names the etag of what was put. */
    method UpdateAfterPut(key: string, body: Blob, etag: Option<string>)
      requires world.Valid() && (etag.Some? ==> Genuine(world.contents, key, etag.value, body))
      modifies world, `stats
      ensures world.Valid()
      ensures !enabled ==> stats == old(stats)
      ensures world.writes == old(world.writes)
        || (enabled && world.writes == old(world.writes) + [BodyWrite(key, body)])
        || (enabled && etag.Some? && world.writes == old(world.writes) + Stored(key, body, etag.value))
      ensures world.disturbed == old(world.disturbed) && enabled && etag.Some? && Strip(etag.value) != "" ==>
        && world.bodies == old(world.bodies)[key := body]
        && world.sidecars == old(world.sidecars)[key := SidecarFor(key, Strip(etag.value), world.digest(body))]
    {
      var stored := Store(key, body, etag);
    }
  }
}
