/** Acknowledgement ids sent in as few requests as their limits allow. */
module AckChunks {
  const MAX_IDS := 1000
  const MAX_BYTES := 450_000

  /** Bytes of a character in a JSON string in UTF-8. */
  function CharBytes(c: char): nat {
    if c == '"' || c == '\\' || '\U{0008}' <= c <= '\n' || c == '\U{000C}' || c == '\r' then 2
    else if c < ' ' then 6
    else if c < '\U{0080}' then 1
    else if c < '\U{0800}' then 2
    else if c < '\U{10000}' then 3
    else 4
  }

  function TextBytes(s: string): nat {
    if s == "" then 0 else CharBytes(s[0]) + TextBytes(s[1..])
  }

  /** The quoted ids and the commas that follow all but the last. */
  function ListBytes(ids: seq<string>): nat {
    if ids == [] then 0
    else TextBytes(ids[0]) + 2 + (if |ids| == 1 then 0 else 1) + ListBytes(ids[1..])
  }

  /** `JSON.stringify({ ackIds: ids })` in UTF-8. */
  function RequestBytes(ids: seq<string>): nat {
    |"{\"ackIds\":["| + ListBytes(ids) + |"]}"|
  }

  predicate Fits(ids: seq<string>) {
    |ids| <= MAX_IDS && RequestBytes(ids) <= MAX_BYTES
  }

  /** One id alone is sent whatever its size. */
  predicate Admissible(chunk: seq<string>) {
    |chunk| == 1 || (chunk != [] && Fits(chunk))
  }

  // ---- The request that is measured ----

  function HexDigit(n: nat): char
    requires n < 16
  {
    "0123456789abcdef"[n]
  }

  /** A character inside a JSON string, as `JSON.stringify` writes it. */
  function Escaped(c: char): string {
    var k := c as int;
    if c == '"' then "\\\""
    else if c == '\\' then "\\\\"
    else if k == 8 then "\\b"
    else if k == 9 then "\\t"
    else if k == 10 then "\\n"
    else if k == 12 then "\\f"
    else if k == 13 then "\\r"
    else if k < 32 then "\\u00" + [HexDigit(k / 16), HexDigit(k % 16)]
    else [c]
  }

  function EscapedAll(s: string): string {
    if s == "" then "" else Escaped(s[0]) + EscapedAll(s[1..])
  }

  function JsonString(s: string): string { "\"" + EscapedAll(s) + "\"" }

  function JsonStrings(ids: seq<string>): string {
    if ids == [] then ""
    else JsonString(ids[0]) + (if |ids| == 1 then "" else ",") + JsonStrings(ids[1..])
  }

  /** `JSON.stringify({ ackIds: ids })` */
  function Request(ids: seq<string>): string {
    "{\"ackIds\":[" + JsonStrings(ids) + "]}"
  }

  function Utf8(c: char): nat {
    var k := c as int;
    if k < 0x80 then 1 else if k < 0x800 then 2 else if k < 0x1_0000 then 3 else 4
  }

  /** The bytes of a text in UTF-8. */
  function Utf8Length(s: string): nat {
    if s == "" then 0 else Utf8(s[0]) + Utf8Length(s[1..])
  }

  lemma {:induction false} Utf8Concat(a: string, b: string)
    ensures Utf8Length(a + b) == Utf8Length(a) + Utf8Length(b)
  {
    if a == "" {
      assert a + b == b;
    } else {
      assert (a + b)[1..] == a[1..] + b;
      Utf8Concat(a[1..], b);
    }
  }

  lemma Utf8Between(a: string, b: string, c: string)
    ensures Utf8Length(a + b + c) == Utf8Length(a) + Utf8Length(b) + Utf8Length(c)
  {
    Utf8Concat(a, b);
    Utf8Concat(a + b, c);
  }

  lemma {:induction false} AsciiLength(s: string)
    requires forall c :: c in s ==> c as int < 0x80
    ensures Utf8Length(s) == |s|
  {
    if s != "" {
      assert s[0] in s && forall c :: c in s[1..] ==> c in s;
      AsciiLength(s[1..]);
    }
  }

  lemma EscapedLength(c: char)
    ensures Utf8Length(Escaped(c)) == CharBytes(c)
  {
    if |Escaped(c)| > 1 {
      AsciiLength(Escaped(c));
    } else {
      assert Escaped(c)[1..] == "";
    }
  }

  lemma {:induction false} TextLength(s: string)
    ensures Utf8Length(EscapedAll(s)) == TextBytes(s)
  {
    if s != "" {
      EscapedLength(s[0]);
      TextLength(s[1..]);
      Utf8Concat(Escaped(s[0]), EscapedAll(s[1..]));
    }
  }

  lemma StringLength(s: string)
    ensures Utf8Length(JsonString(s)) == TextBytes(s) + 2
  {
    TextLength(s);
    AsciiLength("\"");
    Utf8Between("\"", EscapedAll(s), "\"");
  }

  lemma {:induction false} StringsLength(ids: seq<string>)
    ensures Utf8Length(JsonStrings(ids)) == ListBytes(ids)
  {
    if ids != [] {
      var comma := if |ids| == 1 then "" else ",";
      StringLength(ids[0]);
      StringsLength(ids[1..]);
      AsciiLength(comma);
      Utf8Between(JsonString(ids[0]), comma, JsonStrings(ids[1..]));
    }
  }

  lemma HeadLength(head: string)
    requires head == "{\"ackIds\":["
    ensures Utf8Length(head) == 11
  {
    AsciiLength(head);
  }

  lemma TailLength(tail: string)
    requires tail == "]}"
    ensures Utf8Length(tail) == 2
  {
    AsciiLength(tail);
  }

  /** What fits is a request of at most 1000 ids and 450000 bytes. */
  lemma FitsExactly(ids: seq<string>)
    ensures RequestBytes(ids) == Utf8Length(Request(ids))
    ensures Fits(ids) <==> |ids| <= 1000 && Utf8Length(Request(ids)) <= 450_000
  {
    StringsLength(ids);
    HeadLength("{\"ackIds\":[");
    TailLength("]}");
    Utf8Between("{\"ackIds\":[", JsonStrings(ids), "]}");
  }

  lemma {:induction false} ListBytesSplit(a: seq<string>, b: seq<string>)
    ensures ListBytes(a) + ListBytes(b) <= ListBytes(a + b)
  {
    if a == [] {
      assert a + b == b;
    } else {
      assert (a + b)[1..] == a[1..] + b;
      ListBytesSplit(a[1..], b);
    }
  }

  /** A part of what fits, fits. */
  lemma PartFits(a: seq<string>, b: seq<string>, c: seq<string>)
    requires Fits(a + b + c)
    ensures Fits(b)
  {
    ListBytesSplit(a + b, c);
    ListBytesSplit(a, b);
  }

  // ---- Splits ----

  function Joined(chunks: seq<seq<string>>): seq<string> {
    if chunks == [] then [] else Joined(chunks[..|chunks| - 1]) + chunks[|chunks| - 1]
  }

  lemma JoinedSnoc(chunks: seq<seq<string>>, chunk: seq<string>)
    ensures Joined(chunks + [chunk]) == Joined(chunks) + chunk
  {
    assert (chunks + [chunk])[..|chunks|] == chunks;
  }

  /** In order, none empty, none over the limits. */
  ghost predicate SplitOf(chunks: seq<seq<string>>, ids: seq<string>) {
    Joined(chunks) == ids && forall c :: c in chunks ==> Admissible(c)
  }

  /** Any other split has more chunks, or as many with a last one at least as long. */
  ghost predicate NoBetter(ids: seq<string>, count: nat, last: nat) {
    forall s :: SplitOf(s, ids) ==> |s| > count || (|s| == count && (s == [] || last <= |s[|s| - 1]|))
  }

  lemma SplitShorter(s: seq<seq<string>>, ids: seq<string>, id: string) returns (t: seq<seq<string>>)
    requires SplitOf(s, ids + [id])
    ensures s != [] && SplitOf(t, ids)
    ensures s[|s| - 1] != [] && s[|s| - 1] == ids[|ids| + 1 - |s[|s| - 1]|..] + [id]
    ensures if |s[|s| - 1]| == 1 then |t| == |s| - 1
            else |t| == |s| && t[|t| - 1] == s[|s| - 1][..|s[|s| - 1]| - 1]
  {
    assert Joined(s) != [];
    var n := |s| - 1;
    var init, last := s[..n], s[n];
    assert last in s && Admissible(last);
    assert forall c :: c in init ==> c in s;
    var m := |last| - 1;
    var before := Joined(init);
    assert before + last == ids + [id];
    assert (before + last)[|ids|] == last[m] == id;
    assert before + last[..m] == (before + last)[..|ids|] == ids;
    assert last == last[..m] + [last[m]];
    assert ids[|before|..] == last[..m];
    if m == 0 {
      assert before + [] == before;
      t := init;
    } else {
      t := init + [last[..m]];
      assert t[..n] == init;
      assert [] + last[..m] + [id] == last;
      PartFits([], last[..m], [id]);
    }
  }

  /** The next id in the current chunk, when that still fits. */
  lemma NoBetterGrow(ids: seq<string>, id: string, count: nat, current: nat)
    requires NoBetter(ids, count, current) && (ids == [] ==> current == 0) && (ids == [] <==> count == 0)
    ensures NoBetter(ids + [id], if ids == [] then 1 else count, current + 1)
  {
    forall s | SplitOf(s, ids + [id])
      ensures |s| > (if ids == [] then 1 else count)
        || (|s| == (if ids == [] then 1 else count) && (s == [] || current + 1 <= |s[|s| - 1]|))
    {
      var t := SplitShorter(s, ids, id);
      assert |t| > count || |t| == count;
    }
  }

  /** The next id in a new chunk, when the current one cannot take it. */
  lemma NoBetterCut(ids: seq<string>, id: string, count: nat, current: seq<string>)
    requires NoBetter(ids, count, |current|) && count > 0 && current != []
    requires |current| <= |ids| && current == ids[|ids| - |current|..] && !Fits(current + [id])
    ensures NoBetter(ids + [id], count + 1, 1)
  {
    forall s | SplitOf(s, ids + [id])
      ensures |s| > count + 1 || (|s| == count + 1 && (s == [] || 1 <= |s[|s| - 1]|))
    {
      var t := SplitShorter(s, ids, id);
      var last := s[|s| - 1];
      if |last| > |current| {
        var k := |last| - 1 - |current|;
        assert last == last[..k] + (current + [id]) + [];
        assert last in s && Admissible(last);
        if Fits(last) {
          PartFits(last[..k], current + [id], []);
        }
      }
    }
  }

  /** The state of the loop after `ids`. */
  ghost predicate SoFar(ids: seq<string>, chunks: seq<seq<string>>, current: seq<string>) {
    && Joined(chunks) + current == ids
    && (forall c :: c in chunks ==> Admissible(c))
    && (if ids == [] then current == [] && chunks == [] else Admissible(current))
    && NoBetter(ids, if ids == [] then 0 else |chunks| + 1, |current|)
  }

  lemma SoFarCut(ids: seq<string>, id: string, chunks: seq<seq<string>>, current: seq<string>)
    requires SoFar(ids, chunks, current) && current != [] && !Fits(current + [id])
    ensures SoFar(ids + [id], chunks + [current], [id])
  {
    JoinedSnoc(chunks, current);
    NoBetterCut(ids, id, |chunks| + 1, current);
  }

  lemma SoFarGrow(ids: seq<string>, id: string, chunks: seq<seq<string>>, current: seq<string>)
    requires SoFar(ids, chunks, current) && (current == [] || Fits(current + [id]))
    ensures SoFar(ids + [id], chunks, current + [id])
  {
    assert Joined(chunks) + (current + [id]) == ids + [id];
    NoBetterGrow(ids, id, if ids == [] then 0 else |chunks| + 1, |current|);
  }

  lemma SoFarDone(ids: seq<string>, chunks: seq<seq<string>>, current: seq<string>)
    requires SoFar(ids, chunks, current)
    ensures var all := if current == [] then chunks else chunks + [current];
      SplitOf(all, ids) && forall s :: SplitOf(s, ids) ==> |all| <= |s|
  {
    JoinedSnoc(chunks, current);
  }

  method ChunkPubsubAckIds(ids: seq<string>) returns (chunks: seq<seq<string>>)
    ensures SplitOf(chunks, ids)
    ensures forall s :: SplitOf(s, ids) ==> |chunks| <= |s|
  {
    chunks := [];
    var current: seq<string> := [];
    NoBetterStart();
    for i := 0 to |ids|
      invariant SoFar(ids[..i], chunks, current)
    {
      var candidate := current + [ids[i]];
      assert ids[..i + 1] == ids[..i] + [ids[i]];
      if |current| > 0 && (|candidate| > MAX_IDS || RequestBytes(candidate) > MAX_BYTES) {
        SoFarCut(ids[..i], ids[i], chunks, current);
        chunks := chunks + [current];
        current := [ids[i]];
        continue;
      }
      SoFarGrow(ids[..i], ids[i], chunks, current);
      current := candidate;
    }
    assert ids[..|ids|] == ids;
    SoFarDone(ids, chunks, current);
    if |current| > 0 {
      chunks := chunks + [current];
    }
  }

  lemma NoBetterStart()
    ensures NoBetter([], 0, 0)
  {
  }
}
