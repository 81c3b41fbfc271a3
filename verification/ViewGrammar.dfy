/** What the tokens of a view look like, character by character, and that the lexer
    takes exactly these. */
module ViewGrammar {
  import opened ViewTokens

  /** The white space of `str.isspace`, by code point. */
  predicate White(c: char) {
    var k := c as int;
    || 9 <= k <= 13 || 28 <= k <= 32 || k == 0x85 || k == 0xA0 || k == 0x1680 || 0x2000 <= k <= 0x200A
    || k == 0x2028 || k == 0x2029 || k == 0x202F || k == 0x205F || k == 0x3000
  }

  predicate Digit(c: char) { 48 <= c as int <= 57 }

  predicate Letter(c: char) { 65 <= c as int <= 90 || 97 <= c as int <= 122 || c == '_' }

  predicate AllDigits(s: string) {
    forall c :: c in s ==> Digit(c)
  }

  /** Between the quotes: other characters, pairs after a backslash, doubled quotes. */
  predicate QuotedBody(b: string, quote: char) {
    || b == ""
    || (b[0] != '\\' && b[0] != quote && QuotedBody(b[1..], quote))
    || (|b| > 1 && (b[0] == '\\' || (b[0] == quote && b[1] == quote)) && QuotedBody(b[2..], quote))
  }

  /** Digits with at most one point, and at least one digit. */
  ghost predicate IsMantissa(m: string) {
    || (m != "" && AllDigits(m))
    || (|m| > 1 && exists k :: 0 <= k < |m| && m[k] == '.' && AllDigits(m[..k]) && AllDigits(m[k + 1..]))
  }

  predicate IsExponent(e: string) {
    || e == ""
    || (|e| > 1 && e[0] in ['E', 'e'] && AllDigits(e[1..]))
    || (|e| > 2 && e[0] in ['E', 'e'] && e[1] in ['+', '-'] && AllDigits(e[2..]))
  }

  ghost predicate IsNumber(s: string) {
    exists k :: 0 < k <= |s| && IsMantissa(s[..k]) && IsExponent(s[k..])
  }

  /** The text `s` spells the token `t`. */
  ghost predicate Spells(t: Token, s: string) {
    match t.kind
    case Quoted =>
      && t.text == s && |s| > 1 && s[0] in ['\'', '"', '`'] && s[|s| - 1] == s[0]
      && QuotedBody(s[1..|s| - 1], s[0])
    case Word =>
      && s != "" && Letter(s[0]) && (forall c :: c in s ==> Letter(c) || Digit(c)) && |t.text| == |s|
      && forall i :: 0 <= i < |s| ==>
           t.text[i] as int == if 65 <= s[i] as int <= 90 then s[i] as int + 32 else s[i] as int
    case Number => t.text == s && IsNumber(s)
    case Operator => t.text == s && s in ["<=", ">=", "<>", "!=", "||", "<<", ">>", "=>", ":="]
    case Punctuation => t.text == s && |s| == 1 && s[0] in "(),.*=+-/<>;%[]"
  }

  // ---- Quoted values ----

  lemma {:induction false} BodyEnds(b: string, quote: char)
    requires quote != '\\' && QuotedBody(b, quote)
    ensures QuotedEnd(b + [quote], quote) == Taken(|b| + 1)
  {
    if b == "" {
    } else if b[0] != '\\' && b[0] != quote {
      BodyEnds(b[1..], quote);
      assert (b + [quote])[1..] == b[1..] + [quote];
    } else {
      BodyEnds(b[2..], quote);
      assert (b + [quote])[2..] == b[2..] + [quote];
    }
  }

  lemma {:induction false} EndIsBody(s: string, quote: char)
    requires quote != '\\' && QuotedEnd(s, quote) == Taken(|s|)
    ensures s != "" && s[|s| - 1] == quote && QuotedBody(s[..|s| - 1], quote)
  {
    var b := s[..|s| - 1];
    if s[0] == '\\' || (s[0] == quote && |s| > 1) {
      EndIsBody(s[2..], quote);
      assert b[2..] == s[2..][..|s| - 3];
    } else if s[0] != quote {
      EndIsBody(s[1..], quote);
      assert b[1..] == s[1..][..|s| - 2];
    }
  }

  lemma QuotedExactly(s: string, t: Token)
    requires s != "" && s[0] in ['\'', '"', '`']
    ensures Next(s) == Emit(t, |s|) <==> t.kind == Quoted && Spells(t, s)
  {
    if Next(s) == Emit(t, |s|) {
      EndIsBody(s[1..], s[0]);
      assert s[1..][..|s| - 2] == s[1..|s| - 1] && s[..|s|] == s;
    }
    if t.kind == Quoted && Spells(t, s) {
      BodyEnds(s[1..|s| - 1], s[0]);
      assert s[1..] == s[1..|s| - 1] + [s[0]] && s[..|s|] == s;
    }
  }

  // ---- Words ----

  lemma {:induction false} AllWordChars(s: string)
    ensures WordChars(s) == |s| <==> forall c :: c in s ==> Letter(c) || Digit(c)
  {
    if s != "" {
      AllWordChars(s[1..]);
      assert s == [s[0]] + s[1..] && s[0] in s;
      assert IsWordChar(s[0]) <==> Letter(s[0]) || Digit(s[0]);
    }
  }

  lemma WordExactly(s: string, t: Token)
    requires s != "" && Letter(s[0])
    ensures Next(s) == Emit(t, |s|) <==> t.kind == Word && Spells(t, s)
  {
    AllWordChars(s);
    assert s[..|s|] == s;
  }

  // ---- Numbers ----

  lemma {:induction false} AllAreDigits(s: string)
    ensures Digits(s) == |s| <==> AllDigits(s)
  {
    if s != "" {
      AllAreDigits(s[1..]);
      assert s == [s[0]] + s[1..] && s[0] in s;
      assert IsDigit(s[0]) <==> Digit(s[0]);
    }
  }

  /** The digits at the front, up to a character that is none. */
  lemma {:induction false} FrontDigits(s: string, k: nat)
    requires k <= |s| && AllDigits(s[..k]) && (k < |s| ==> !Digit(s[k]))
    ensures Digits(s) == k
  {
    assert s != "" ==> (IsDigit(s[0]) <==> Digit(s[0]));
    if k > 0 {
      assert s[..k][0] in s[..k] && s[..k][0] == s[0] && s[..k][1..] == s[1..][..k - 1];
      assert forall c :: c in s[1..][..k - 1] ==> c in s[..k];
      FrontDigits(s[1..], k - 1);
    }
  }

  lemma {:induction false} DigitsAre(s: string)
    ensures forall i :: 0 <= i < Digits(s) ==> Digit(s[i])
    ensures Digits(s) < |s| ==> !Digit(s[Digits(s)])
  {
    if s != "" && IsDigit(s[0]) {
      DigitsAre(s[1..]);
      assert forall i :: 0 < i <= Digits(s) && i < |s| ==> s[i] == s[1..][i - 1];
    }
  }

  /** A mantissa is taken whole when no digit and no point follows. */
  lemma MantissaTaken(s: string, k: nat)
    requires 0 < k <= |s| && IsMantissa(s[..k]) && (k < |s| ==> !Digit(s[k]) && s[k] != '.')
    ensures Mantissa(s) == k
  {
    if AllDigits(s[..k]) {
      FrontDigits(s, k);
    } else {
      var p :| 0 <= p < k && s[..k][p] == '.' && AllDigits(s[..k][..p]) && AllDigits(s[..k][p + 1..]);
      assert s[..k][..p] == s[..p] && s[..k][p + 1..] == s[p + 1..][..k - p - 1];
      FrontDigits(s, p);
      FrontDigits(s[p + 1..], k - p - 1);
    }
  }

  lemma MantissaIs(s: string)
    requires Mantissa(s) > 0
    ensures IsMantissa(s[..Mantissa(s)])
  {
    var d, m := Digits(s), s[..Mantissa(s)];
    DigitsAre(s);
    if Mantissa(s) > d {
      DigitsAre(s[d + 1..]);
      assert m[..d] == s[..d] && m[d + 1..] == s[d + 1..][..|m| - d - 1] && m[d] == '.';
    }
  }

  lemma ExponentExactly(e: string)
    ensures Exponent(e) == |e| <==> IsExponent(e)
  {
    if |e| > 1 {
      AllAreDigits(e[1..]);
      AllAreDigits(e[2..]);
      assert AllDigits(e[1..]) ==> e[1] in e[1..];
    }
  }

  lemma NumberExactly(s: string)
    requires s != ""
    ensures NumberChars(s) == |s| <==> IsNumber(s)
  {
    if NumberChars(s) == |s| {
      var m := Mantissa(s);
      MantissaIs(s);
      ExponentExactly(s[m..]);
    }
    if IsNumber(s) {
      var k :| 0 < k <= |s| && IsMantissa(s[..k]) && IsExponent(s[k..]);
      MantissaTaken(s, k);
      ExponentExactly(s[k..]);
    }
  }

  // ---- Tokens ----

  lemma NumberBegins(s: string)
    requires IsNumber(s)
    ensures s != "" && (Digit(s[0]) || (|s| > 1 && s[0] == '.' && Digit(s[1])))
  {
    var k :| 0 < k <= |s| && IsMantissa(s[..k]) && IsExponent(s[k..]);
    var m := s[..k];
    assert m[0] in m && m[0] == s[0];
    if !AllDigits(m) {
      var p :| 0 <= p < k && m[p] == '.' && AllDigits(m[..p]) && AllDigits(m[p + 1..]);
      if p > 0 {
        assert m[..p][0] in m[..p];
      } else {
        assert m[1..][0] in m[1..] && m[1] == s[1];
      }
    }
  }

  lemma NextNumber(s: string)
    requires IsNumber(s)
    ensures Next(s) == Emit(Token(Number, s), |s|)
  {
    NumberBegins(s);
    NumberExactly(s);
    assert s[..|s|] == s;
  }

  lemma OperatorText(s: string)
    ensures s in ["<=", ">=", "<>", "!=", "||", "<<", ">>", "=>", ":="] <==> |s| == 2 && IsOperator(s[0], s[1])
  {
    assert |s| == 2 ==> s == [s[0], s[1]];
  }

  lemma PunctuationText(c: char)
    ensures c in "(),.*=+-/<>;%[]" <==> IsPunctuation(c)
  {
  }

  lemma SpelledNumber(s: string, t: Token)
    requires IsNumber(s)
    ensures Spells(t, s) <==> t == Token(Number, s)
  {
    NumberBegins(s);
    OperatorText(s);
    PunctuationText(s[0]);
  }

  /** The last two branches of the loop. */
  lemma NextSymbol(s: string, t: Token)
    requires s != "" && !IsWordStart(s[0]) && !IsQuote(s[0]) && NumberChars(s) != |s|
    ensures Next(s) == Emit(t, |s|) <==>
      || (t == Token(Operator, s) && |s| == 2 && IsOperator(s[0], s[1]))
      || (t == Token(Punctuation, s) && |s| == 1 && IsPunctuation(s[0]))
  {
    assert s[..|s|] == s;
    assert Mantissa(s) > 0 ==> IsDigit(s[0]) || (s[0] == '.' && |s| > 1);
  }

  lemma SymbolToken(s: string, t: Token)
    requires s != "" && !Letter(s[0]) && s[0] !in ['\'', '"', '`'] && !IsNumber(s)
    ensures Next(s) == Emit(t, |s|) <==> Spells(t, s)
  {
    NumberExactly(s);
    OperatorText(s);
    PunctuationText(s[0]);
    NextSymbol(s, t);
  }

  /** The first character tells a quoted value and a word from the rest. */
  lemma KindOf(s: string, t: Token)
    requires s != "" && Spells(t, s)
    ensures s[0] in ['\'', '"', '`'] <==> t.kind == Quoted
    ensures Letter(s[0]) <==> t.kind == Word
  {
    match t.kind
    case Number => NumberBegins(s);
    case Operator => OperatorText(s);
    case Punctuation => PunctuationText(s[0]);
    case _ =>
  }

  /** The lexer takes a whole text as one token exactly if the text spells that token. */
  lemma SpellsExactly(s: string, t: Token)
    requires s != ""
    ensures Next(s) == Emit(t, |s|) <==> Spells(t, s)
  {
    if Spells(t, s) {
      KindOf(s, t);
    }
    if s[0] in ['\'', '"', '`'] {
      QuotedExactly(s, t);
    } else if Letter(s[0]) {
      WordExactly(s, t);
    } else if IsNumber(s) {
      NextNumber(s);
      SpelledNumber(s, t);
    } else {
      SymbolToken(s, t);
    }
  }

  /** So a text that spells a token lexes to that token and nothing else. */
  lemma OneToken(s: string, t: Token)
    requires s != "" && Spells(t, s)
    ensures Lex(s) == Ok([t])
    ensures t != Token(Punctuation, ";") ==> Tokens(s) == Ok([t])
  {
    SpellsExactly(s, t);
    assert s[|s|..] == "" && [t] + [] == [t];
  }

  /** And every token comes from a text that spells it. */
  lemma EmittedIsSpelled(s: string)
    requires s != "" && Next(s).Emit?
    ensures Spells(Next(s).token, s[..Next(s).n])
  {
    var n, t := Next(s).n, Next(s).token;
    EmittedIsCanonical(s);
    SpellsExactly(t.text, t);
    TextKept(s);
    if t.kind == Word {
      WordCharsAre(s);
      WordLexes(s[..n]);
      SpellsExactly(s[..n], t);
      assert s[..n][..n] == s[..n];
    }
  }

  lemma {:induction false} PlainBody(text: string, quote: char)
    requires quote !in text && '\\' !in text
    ensures QuotedBody(text, quote)
  {
    if text != "" {
      assert text[0] in text && forall c :: c in text[1..] ==> c in text;
      PlainBody(text[1..], quote);
    }
  }

  /** Names and literals without escapes, in any of the three quotes. */
  lemma QuotedText(quote: char, text: string)
    requires quote in ['\'', '"', '`'] && quote !in text && '\\' !in text
    ensures Tokens([quote] + text + [quote]) == Ok([Token(Quoted, [quote] + text + [quote])])
  {
    var s := [quote] + text + [quote];
    PlainBody(text, quote);
    assert s[1..|s| - 1] == text;
    OneToken(s, Token(Quoted, s));
  }

  // ---- Of the tokens at the front the longest is taken ----

  lemma {:induction false} QuotedGrows(a: string, rest: string, quote: char)
    requires QuotedEnd(a, quote).Taken? && QuotedEnd(a + rest, quote).Taken?
    ensures QuotedEnd(a, quote).n <= QuotedEnd(a + rest, quote).n
  {
    if a[0] == '\\' || (a[0] == quote && |a| > 1 && a[1] == quote) {
      Tail(a, rest, 2);
      QuotedGrows(a[2..], rest, quote);
    } else if a[0] != quote {
      Tail(a, rest, 1);
      QuotedGrows(a[1..], rest, quote);
    }
  }

  lemma {:induction false} DigitsGrow(a: string, rest: string)
    ensures Digits(a) <= Digits(a + rest)
  {
    if a != "" && IsDigit(a[0]) {
      Tail(a, rest, 1);
      DigitsGrow(a[1..], rest);
    }
  }

  lemma {:induction false} WordGrows(a: string, rest: string)
    ensures WordChars(a) <= WordChars(a + rest)
  {
    if a != "" && IsWordChar(a[0]) {
      Tail(a, rest, 1);
      WordGrows(a[1..], rest);
    }
  }

  lemma ExponentGrows(a: string, rest: string)
    requires Exponent(a) == |a| > 0
    ensures |a| <= Exponent(a + rest)
  {
    var k := if |a| > 1 && (a[1] == '+' || a[1] == '-') then 2 else 1;
    Tail(a, rest, k);
    DigitsGrow(a[k..], rest);
  }

  lemma MantissaGrows(a: string, rest: string)
    requires Mantissa(a) == |a| > 0
    ensures |a| <= Mantissa(a + rest)
  {
    var d := Digits(a);
    DigitsGrow(a, rest);
    if d < |a| {
      Tail(a, rest, d + 1);
      DigitsGrow(a[d + 1..], rest);
      DigitsStop(a, rest);
    }
  }

  lemma {:induction false} DigitsStop(a: string, rest: string)
    requires Digits(a) < |a|
    ensures Digits(a + rest) == Digits(a)
  {
    if IsDigit(a[0]) {
      Tail(a, rest, 1);
      DigitsStop(a[1..], rest);
    }
  }

  lemma NumberGrows(a: string, rest: string)
    requires IsNumber(a)
    ensures |a| <= NumberChars(a + rest)
  {
    var k :| 0 < k <= |a| && IsMantissa(a[..k]) && IsExponent(a[k..]);
    NumberExactly(a);
    if k == |a| {
      NumberWhole(a);
      MantissaGrows(a, rest);
    } else {
      MantissaTaken(a, k);
      assert (a + rest)[..k] == a[..k];
      MantissaTaken(a + rest, k);
      ExponentExactly(a[k..]);
      Tail(a, rest, k);
      ExponentGrows(a[k..], rest);
    }
  }

  lemma NumberWhole(a: string)
    requires a != "" && IsMantissa(a[..|a|])
    ensures Mantissa(a) == |a|
  {
    MantissaTaken(a, |a|);
  }

  lemma QuotedStep(a: string, rest: string, t: Token)
    requires t.kind == Quoted && Spells(t, a)
    ensures Next(a + rest) != Bad(UnsupportedToken)
    ensures Next(a + rest).Emit? ==> |a| <= Next(a + rest).n
  {
    QuotedExactly(a, t);
    Tail(a, rest, 1);
    NotComment((a + rest)[1..], a[0]);
    if QuotedEnd((a + rest)[1..], a[0]).Taken? {
      QuotedGrows(a[1..], rest, a[0]);
    }
  }

  lemma WordStep(a: string, rest: string, t: Token)
    requires t.kind == Word && Spells(t, a)
    ensures Next(a + rest).Emit? && |a| <= Next(a + rest).n
  {
    AllWordChars(a);
    WordGrows(a, rest);
    assert (a + rest)[0] == a[0];
  }

  lemma NumberStep(a: string, rest: string)
    requires IsNumber(a)
    ensures Next(a + rest).Emit? && |a| <= Next(a + rest).n
  {
    NumberBegins(a);
    NumberGrows(a, rest);
    assert (a + rest)[0] == a[0] && (|a| > 1 ==> (a + rest)[1] == a[1]);
  }

  lemma {:induction false} OnlyUnterminated(s: string)
    ensures CommentEnd(s).Failed? ==> CommentEnd(s) == Failed(UnterminatedComment)
  {
    if |s| >= 2 && !(s[0] == '*' && s[1] == '/') {
      OnlyUnterminated(s[1..]);
    }
  }

  lemma SymbolStep(a: string, rest: string, t: Token)
    requires (t.kind == Operator || t.kind == Punctuation) && Spells(t, a)
    ensures Next(a + rest) != Bad(UnsupportedToken)
    ensures Next(a + rest).Emit? ==> |a| <= Next(a + rest).n
  {
    OperatorText(a);
    PunctuationText(a[0]);
    assert (a + rest)[0] == a[0] && (|a| > 1 ==> (a + rest)[1] == a[1]);
    assert t.kind == Operator ==> NumberChars(a + rest) == 0;
    if |a + rest| > 1 {
      OnlyUnterminated((a + rest)[2..]);
    }
  }

  lemma PrefixStep(s: string, m: nat, t: Token)
    requires 0 < m <= |s| && Spells(t, s[..m])
    ensures Next(s).Emit? ==> m <= Next(s).n
    ensures Next(s) != Bad(UnsupportedToken)
  {
    assert s == s[..m] + s[m..];
    match t.kind
    case Quoted => QuotedStep(s[..m], s[m..], t);
    case Word => WordStep(s[..m], s[m..], t);
    case Number => NumberStep(s[..m], s[m..]);
    case _ => SymbolStep(s[..m], s[m..], t);
  }

  /** Every token is the longest text at the front that spells one. */
  lemma TakesLongest(s: string)
    requires s != "" && Next(s).Emit?
    ensures Spells(Next(s).token, s[..Next(s).n])
    ensures forall m, t :: 0 < m <= |s| && Spells(t, s[..m]) ==> m <= Next(s).n
  {
    EmittedIsSpelled(s);
    forall m, t | 0 < m <= |s| && Spells(t, s[..m]) ensures m <= Next(s).n {
      PrefixStep(s, m, t);
    }
  }

  predicate StartsBlank(s: string)
    requires s != ""
  {
    White(s[0]) || s[0] == '#' || "--" <= s || "/*" <= s
  }

  /** What is refused as unfamiliar begins neither a blank, nor a quoted value, nor any token. */
  lemma RefusedExactly(s: string)
    requires s != ""
    ensures Next(s) == Bad(UnsupportedToken) <==>
      && !StartsBlank(s) && s[0] !in ['\'', '"', '`']
      && forall m, t :: 0 < m <= |s| ==> !Spells(t, s[..m])
  {
    BlankExactly(s);
    if Next(s) == Bad(UnsupportedToken) {
      forall m, t | 0 < m <= |s| ensures !Spells(t, s[..m]) {
        if Spells(t, s[..m]) {
          PrefixStep(s, m, t);
        }
      }
    } else if Next(s).Emit? {
      EmittedIsSpelled(s);
      assert 0 < Next(s).n <= |s|;
    }
  }

  // ---- White space and comments ----

  /** A turn skips, or finds a comment without end, exactly at white space or a comment. */
  lemma BlankExactly(s: string)
    requires s != ""
    ensures StartsBlank(s) <==> Next(s).Skip? || Next(s) == Bad(UnterminatedComment)
    ensures White(s[0]) ==> Next(s) == Skip(1)
    ensures !StartsBlank(s) && s[0] !in ['\'', '"', '`'] && Next(s).Bad? ==> Next(s) == Bad(UnsupportedToken)
    ensures s[0] in ['\'', '"', '`'] ==> Next(s) != Bad(UnsupportedToken)
  {
    assert IsSpace(s[0]) <==> White(s[0]);
    assert |s| > 1 ==> s[..2] == [s[0], s[1]];
    assert StartsComment(s) <==> s[0] == '#' || "--" <= s;
    if s[0] in ['\'', '"', '`'] {
      NotComment(s[1..], s[0]);
    } else if "/*" <= s {
      OnlyUnterminated(s[2..]);
    }
  }

  lemma {:induction false} NotComment(s: string, quote: char)
    ensures QuotedEnd(s, quote) == Failed(IncompleteEscape) || QuotedEnd(s, quote) == Failed(UnterminatedQuoted)
            || QuotedEnd(s, quote).Taken?
  {
    if s == "" {
    } else if s[0] == '\\' || (s[0] == quote && |s| > 1 && s[1] == quote) {
      if |s| > 1 {
        NotComment(s[2..], quote);
      }
    } else if s[0] != quote {
      NotComment(s[1..], quote);
    }
  }

  lemma {:induction false} NewlineFound(text: string, b: string)
    requires '\n' !in text
    ensures FindNewline(text + "\n" + b) == |text| && FindNewline(text) == |text|
  {
    if text == "" {
      assert text + "\n" + b == "\n" + b;
    } else {
      assert text[0] in text && forall c :: c in text[1..] ==> c in text;
      NewlineFound(text[1..], b);
      assert (text + "\n" + b)[1..] == text[1..] + "\n" + b;
    }
  }

  /** A comment after `--` or `#` ends with its line, or with the statement. */
  lemma LineComment(mark: string, text: string, b: string)
    requires mark == "--" || mark == "#"
    requires '\n' !in text
    ensures Lex(mark + text + "\n" + b) == Lex(b) && Lex(mark + text) == Ok([])
  {
    var line, s := mark + text, mark + text + "\n" + b;
    NewlineFound(line, b);
    assert s[..|mark|] == mark && line[..|mark|] == mark;
    assert s[|line| + 1..] == b && line[|line|..] == "";
  }

  /** The first end of a comment. */
  predicate NoEnd(text: string) {
    forall i :: 0 <= i < |text| - 1 ==> !(text[i] == '*' && text[i + 1] == '/')
  }

  lemma {:induction false} EndFound(text: string, b: string)
    requires NoEnd(text)
    ensures CommentEnd(text + "*/" + b) == Taken(|text| + 2)
    ensures CommentEnd(text) == Failed(UnterminatedComment)
  {
    var s := text + "*/" + b;
    if text == "" {
      assert s == "*/" + b;
    } else {
      EndFound(text[1..], b);
      assert s[1..] == text[1..] + "*/" + b;
      assert |text| == 1 ==> s[1] == '*';
    }
  }

  lemma BlockComment(text: string, b: string)
    requires NoEnd(text)
    ensures Lex("/*" + text + "*/" + b) == Lex(b)
    ensures Lex("/*" + text) == Err(UnterminatedComment)
  {
    var open, s := "/*" + text, "/*" + text + "*/" + b;
    EndFound(text, b);
    assert s[2..] == text + "*/" + b && open[2..] == text;
    assert s[|text| + 4..] == b;
  }

  // ---- One statement ----

  /** Without semicolons but for one at the end, which is dropped; all else is refused. */
  lemma StatementExactly(tokens: seq<Token>, r: seq<Token>)
    ensures Statement(tokens) == Ok(r) <==>
      Token(Punctuation, ";") !in r && (tokens == r || tokens == r + [Token(Punctuation, ";")])
    ensures Statement(tokens).Err? ==> Statement(tokens) == Err(MultipleStatements)
  {
    if tokens != [] {
      assert tokens == tokens[..|tokens| - 1] + [tokens[|tokens| - 1]];
    }
    assert (r + [SEMICOLON])[..|r|] == r;
  }
}
