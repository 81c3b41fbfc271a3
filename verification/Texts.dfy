/** Upper and lower case and order of strings, for ASCII letters. */
module Texts {
  function UpperChar(c: char): char {
    if 'a' <= c <= 'z' then c - 'a' + 'A' else c
  }

  function LowerChar(c: char): char {
    if 'A' <= c <= 'Z' then c - 'A' + 'a' else c
  }

  function Upper(s: string): (r: string)
    ensures |r| == |s| && forall i :: 0 <= i < |s| ==> r[i] == UpperChar(s[i])
  {
    seq(|s|, i requires 0 <= i < |s| => UpperChar(s[i]))
  }

  function Lower(s: string): (r: string)
    ensures |r| == |s| && forall i :: 0 <= i < |s| ==> r[i] == LowerChar(s[i])
  {
    seq(|s|, i requires 0 <= i < |s| => LowerChar(s[i]))
  }

  lemma CaseExactly(c: char)
    ensures UpperChar(c) as int == if 97 <= c as int <= 122 then c as int - 32 else c as int
    ensures LowerChar(c) as int == if 65 <= c as int <= 90 then c as int + 32 else c as int
  {
  }

  /** `strip`, of spaces. */
  function Strip(s: string): string {
    if s != "" && s[0] == ' ' then Strip(s[1..])
    else if s != "" && s[|s| - 1] == ' ' then Strip(s[..|s| - 1])
    else s
  }

  predicate AllSpaces(s: string) {
    forall c :: c in s ==> c == ' '
  }

  /** Nothing but spaces is taken away, and none is left at either end. */
  lemma {:induction false} StripExactly(s: string) returns (before: string, after: string)
    ensures s == before + Strip(s) + after && AllSpaces(before) && AllSpaces(after)
    ensures Strip(s) != "" ==> Strip(s)[0] != ' ' && Strip(s)[|Strip(s)| - 1] != ' '
    decreases |s|
  {
    before, after := "", "";
    if s != "" && s[0] == ' ' {
      before, after := StripExactly(s[1..]);
      assert s == " " + s[1..];
      before := " " + before;
    } else if s != "" && s[|s| - 1] == ' ' {
      before, after := StripExactly(s[..|s| - 1]);
      assert s == s[..|s| - 1] + " ";
      after := after + " ";
    }
  }

  /** The order of strings by their characters. */
  predicate TextLess(a: string, b: string) {
    b != "" && (a == "" || a[0] < b[0] || (a[0] == b[0] && TextLess(a[1..], b[1..])))
  }

  /** The first difference decides; a beginning comes before what continues it. */
  lemma {:induction false} TextLessExactly(a: string, b: string, k: nat)
    requires k <= |a| && k <= |b| && a[..k] == b[..k]
    requires k < |a| && k < |b| ==> a[k] != b[k]
    requires k < |a| || k < |b|
    ensures TextLess(a, b) <==> k == |a| || (k < |b| && a[k] as int < b[k] as int)
  {
    if k > 0 {
      assert a[..k][0] == a[0] == b[..k][0] == b[0];
      assert a[1..][..k - 1] == a[..k][1..] == b[..k][1..] == b[1..][..k - 1];
      TextLessExactly(a[1..], b[1..], k - 1);
    }
  }

  /** `a` begins `b`, or has the smaller character where they first differ. */
  ghost predicate TextBefore(a: string, b: string) {
    exists k :: 0 <= k <= |a| && k <= |b| && a[..k] == b[..k]
      && if k < |a| then k < |b| && a[k] as int < b[k] as int else k < |b|
  }

  lemma {:induction false} FirstDifference(a: string, b: string) returns (k: nat)
    requires a != b
    ensures k <= |a| && k <= |b| && a[..k] == b[..k] && (k < |a| || k < |b|)
    ensures k < |a| && k < |b| ==> a[k] != b[k]
  {
    k := 0;
    while k < |a| && k < |b| && a[k] == b[k]
      invariant k <= |a| && k <= |b| && a[..k] == b[..k]
    {
      k := k + 1;
    }
    assert a[..|a|] == a && b[..|b|] == b;
  }

  lemma TextLessIsBefore(a: string, b: string)
    ensures TextLess(a, b) <==> TextBefore(a, b)
  {
    if TextBefore(a, b) {
      var k :| 0 <= k <= |a| && k <= |b| && a[..k] == b[..k]
        && if k < |a| then k < |b| && a[k] as int < b[k] as int else k < |b|;
      TextLessExactly(a, b, k);
    }
    if TextLess(a, b) {
      TextsCompare(a, b);
      var k := FirstDifference(a, b);
      TextLessExactly(a, b, k);
    }
  }

  lemma {:induction false} TextLessIsStrict(a: string, b: string)
    requires TextLess(a, b)
    ensures !TextLess(b, a) && a != b
  {
    if a != "" && a[0] == b[0] {
      TextLessIsStrict(a[1..], b[1..]);
    }
  }

  lemma {:induction false} TextLessIsTotal(a: string, b: string)
    requires a != b
    ensures TextLess(a, b) || TextLess(b, a)
  {
    if a != "" && b != "" && a[0] == b[0] {
      assert a == [a[0]] + a[1..] && b == [b[0]] + b[1..];
      TextLessIsTotal(a[1..], b[1..]);
    }
  }

  lemma {:induction false} TextLessIsTransitive(a: string, b: string, c: string)
    requires TextLess(a, b) && TextLess(b, c)
    ensures TextLess(a, c)
  {
    if a != "" && a[0] == b[0] == c[0] {
      TextLessIsTransitive(a[1..], b[1..], c[1..]);
    }
  }

  lemma TextsCompare(a: string, b: string)
    ensures a != b ==> TextLess(a, b) != TextLess(b, a)
    ensures a == b ==> !TextLess(a, b)
  {
    if TextLess(a, b) {
      TextLessIsStrict(a, b);
    } else if TextLess(b, a) {
      TextLessIsStrict(b, a);
    } else if a != b {
      TextLessIsTotal(a, b);
    }
  }

  /** `<=` is transitive. */
  lemma TextsNotLess(a: string, b: string, c: string)
    requires !TextLess(b, a) && !TextLess(c, b)
    ensures !TextLess(c, a) && (!TextLess(a, c) ==> a == b == c)
  {
    TextsCompare(a, b);
    TextsCompare(b, c);
    TextsCompare(a, c);
    if a != b && b != c {
      TextLessIsTransitive(a, b, c);
    }
  }
}
