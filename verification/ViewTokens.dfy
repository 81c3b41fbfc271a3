/** The lexer that compares a deployed view with its expected definition. */
module ViewTokens {
  import opened Texts

  datatype Kind = Quoted | Word | Number | Operator | Punctuation

  datatype Token = Token(kind: Kind, text: string)

  datatype Error = UnterminatedComment | IncompleteEscape | UnterminatedQuoted | UnsupportedToken | MultipleStatements

  datatype Result<+T> = Ok(value: T) | Err(error: Error)

  // ---- Characters ----

  /** `str.isspace`. */
  predicate IsSpace(c: char) {
    || '\t' <= c <= '\r' || '\U{001C}' <= c <= ' ' || c == '\U{0085}' || c == '\U{00A0}' || c == '\U{1680}'
    || '\U{2000}' <= c <= '\U{200A}' || c == '\U{2028}' || c == '\U{2029}' || c == '\U{202F}' || c == '\U{205F}'
    || c == '\U{3000}'
  }

  predicate IsDigit(c: char) { '0' <= c <= '9' }

  predicate IsWordStart(c: char) { 'A' <= c <= 'Z' || 'a' <= c <= 'z' || c == '_' }

  predicate IsWordChar(c: char) { IsWordStart(c) || IsDigit(c) }

  predicate IsQuote(c: char) { c == '\'' || c == '"' || c == '`' }

  predicate IsPunctuation(c: char) {
    c == '(' || c == ')' || c == ',' || c == '.' || c == '*' || c == '=' || c == '+' || c == '-' || c == '/'
    || c == '<' || c == '>' || c == ';' || c == '%' || c == '[' || c == ']'
  }

  /** The nine operators, each of two characters; none is a prefix of another. */
  predicate IsOperator(c: char, d: char) {
    || (c == '<' && (d == '=' || d == '>' || d == '<')) || (c == '>' && (d == '=' || d == '>'))
    || (c == '!' && d == '=') || (c == '|' && d == '|') || (c == '=' && d == '>') || (c == ':' && d == '=')
  }

  // ---- Scanners: how much of `s` they take ----

  function FindNewline(s: string): (n: nat)
    ensures n <= |s| && (n < |s| ==> s[n] == '\n')
  {
    if s == "" || s[0] == '\n' then 0 else 1 + FindNewline(s[1..])
  }

  datatype Scan = Taken(n: nat) | Failed(error: Error)

  function Later(k: nat, scan: Scan): Scan {
    if scan.Taken? then Taken(k + scan.n) else scan
  }

  /** After the opening of a comment, up to and including its end. */
  function CommentEnd(s: string): (r: Scan)
    ensures r.Taken? ==> r.n <= |s|
  {
    if |s| < 2 then Failed(UnterminatedComment)
    else if s[0] == '*' && s[1] == '/' then Taken(2)
    else Later(1, CommentEnd(s[1..]))
  }

  /** After an opening quote, up to and including the closing one. */
  function QuotedEnd(s: string, quote: char): (r: Scan)
    ensures r.Taken? ==> 0 < r.n <= |s|
  {
    if s == "" then Failed(UnterminatedQuoted)
    else if s[0] == '\\' then if |s| < 2 then Failed(IncompleteEscape) else Later(2, QuotedEnd(s[2..], quote))
    else if s[0] == quote then if |s| > 1 && s[1] == quote then Later(2, QuotedEnd(s[2..], quote)) else Taken(1)
    else Later(1, QuotedEnd(s[1..], quote))
  }

  function Digits(s: string): (n: nat)
    ensures n <= |s|
  {
    if s == "" || !IsDigit(s[0]) then 0 else 1 + Digits(s[1..])
  }

  function WordChars(s: string): (n: nat)
    ensures n <= |s|
  {
    if s == "" || !IsWordChar(s[0]) then 0 else 1 + WordChars(s[1..])
  }

  /** `[0-9]+(\.[0-9]*)?|\.[0-9]+` */
  function Mantissa(s: string): (n: nat)
    ensures n <= |s|
  {
    var d := Digits(s);
    if d > 0 then if d < |s| && s[d] == '.' then d + 1 + Digits(s[d + 1..]) else d
    else if s != "" && s[0] == '.' && Digits(s[1..]) > 0 then 1 + Digits(s[1..])
    else 0
  }

  /** `([Ee][+-]?[0-9]+)?` */
  function Exponent(s: string): (n: nat)
    ensures n <= |s|
  {
    if s == "" || (s[0] != 'E' && s[0] != 'e') then 0
    else
      var k := if |s| > 1 && (s[1] == '+' || s[1] == '-') then 2 else 1;
      if Digits(s[k..]) > 0 then k + Digits(s[k..]) else 0
  }

  function NumberChars(s: string): (n: nat)
    ensures n <= |s|
  {
    var m := Mantissa(s);
    if m > 0 then m + Exponent(s[m..]) else 0
  }

  // ---- The lexer as a function ----

  datatype Step = Skip(n: nat) | Emit(token: Token, n: nat) | Bad(error: Error)

  predicate StartsComment(s: string) {
    s != "" && (s[0] == '#' || (|s| > 1 && s[0] == '-' && s[1] == '-'))
  }

  /** One turn of the loop on what is left of the statement. */
  function Next(s: string): (step: Step)
    requires s != ""
    ensures step.Skip? ==> 0 < step.n <= |s|
    ensures step.Emit? ==> 0 < step.n <= |s|
  {
    if IsSpace(s[0]) then Skip(1)
    else if StartsComment(s) then
      var end := FindNewline(s);
      Skip(if end == |s| then |s| else end + 1)
    else if |s| > 1 && s[0] == '/' && s[1] == '*' then
      var end := CommentEnd(s[2..]);
      if end.Taken? then Skip(2 + end.n) else Bad(end.error)
    else if IsQuote(s[0]) then
      var end := QuotedEnd(s[1..], s[0]);
      if end.Taken? then Emit(Token(Quoted, s[..1 + end.n]), 1 + end.n) else Bad(end.error)
    else if IsWordStart(s[0]) then Emit(Token(Word, Lower(s[..WordChars(s)])), WordChars(s))
    else if NumberChars(s) > 0 then Emit(Token(Number, s[..NumberChars(s)]), NumberChars(s))
    else if |s| > 1 && IsOperator(s[0], s[1]) then Emit(Token(Operator, s[..2]), 2)
    else if IsPunctuation(s[0]) then Emit(Token(Punctuation, s[..1]), 1)
    else Bad(UnsupportedToken)
  }

  function Prepend(tokens: seq<Token>, r: Result<seq<Token>>): Result<seq<Token>> {
    if r.Ok? then Ok(tokens + r.value) else r
  }

  function Lex(s: string): Result<seq<Token>> {
    if s == "" then Ok([])
    else match Next(s)
      case Skip(n) => Lex(s[n..])
      case Emit(token, n) => Prepend([token], Lex(s[n..]))
      case Bad(error) => Err(error)
  }

  const SEMICOLON := Token(Punctuation, ";")

  function WithoutLast(tokens: seq<Token>): seq<Token> {
    if tokens != [] && tokens[|tokens| - 1] == SEMICOLON then tokens[..|tokens| - 1] else tokens
  }

  /** One statement, whose final semicolon does not matter. */
  function Statement(tokens: seq<Token>): Result<seq<Token>> {
    if SEMICOLON in WithoutLast(tokens) then Err(MultipleStatements) else Ok(WithoutLast(tokens))
  }

  function Tokens(statement: string): Result<seq<Token>> {
    var r := Lex(statement);
    if r.Ok? then Statement(r.value) else r
  }

  // ---- What follows a separator does not matter ----

  /** White space ends every token. */
  predicate Separates(rest: string) {
    rest != "" && IsSpace(rest[0])
  }

  lemma Tail(a: string, rest: string, k: nat)
    requires k <= |a|
    ensures (a + rest)[k..] == a[k..] + rest && (a + rest)[..k] == a[..k]
  {
  }

  lemma {:induction false} NewlineExtends(a: string, rest: string)
    requires FindNewline(a) < |a|
    ensures FindNewline(a + rest) == FindNewline(a)
  {
    if a[0] != '\n' {
      Tail(a, rest, 1);
      NewlineExtends(a[1..], rest);
    }
  }

  lemma {:induction false} CommentExtends(a: string, rest: string)
    requires CommentEnd(a).Taken?
    ensures CommentEnd(a + rest) == CommentEnd(a)
  {
    if !(a[0] == '*' && a[1] == '/') {
      Tail(a, rest, 1);
      CommentExtends(a[1..], rest);
    }
  }

  lemma {:induction false} QuotedExtends(a: string, quote: char, rest: string)
    requires QuotedEnd(a, quote).Taken? && Separates(rest) && IsQuote(quote)
    ensures QuotedEnd(a + rest, quote) == QuotedEnd(a, quote)
  {
    if a[0] == '\\' || (a[0] == quote && |a| > 1 && a[1] == quote) {
      Tail(a, rest, 2);
      QuotedExtends(a[2..], quote, rest);
    } else if a[0] != quote {
      Tail(a, rest, 1);
      QuotedExtends(a[1..], quote, rest);
    } else {
      assert (a + rest)[0] == quote && (|a| == 1 ==> (a + rest)[1] == rest[0]);
    }
  }

  lemma {:induction false} DigitsExtend(a: string, rest: string)
    requires Separates(rest)
    ensures Digits(a + rest) == Digits(a)
  {
    if a == "" {
      assert a + rest == rest;
    } else if IsDigit(a[0]) {
      Tail(a, rest, 1);
      DigitsExtend(a[1..], rest);
    }
  }

  lemma {:induction false} WordExtends(a: string, rest: string)
    requires Separates(rest)
    ensures WordChars(a + rest) == WordChars(a)
  {
    if a == "" {
      assert a + rest == rest;
    } else if IsWordChar(a[0]) {
      Tail(a, rest, 1);
      WordExtends(a[1..], rest);
    }
  }

  lemma MantissaExtends(a: string, rest: string)
    requires Separates(rest)
    ensures Mantissa(a + rest) == Mantissa(a)
  {
    var d := Digits(a);
    DigitsExtend(a, rest);
    if d < |a| {
      Tail(a, rest, d + 1);
      DigitsExtend(a[d + 1..], rest);
    }
    if a != "" {
      Tail(a, rest, 1);
      DigitsExtend(a[1..], rest);
    } else {
      assert a + rest == rest;
    }
  }

  lemma ExponentExtends(a: string, rest: string)
    requires Separates(rest)
    ensures Exponent(a + rest) == Exponent(a)
  {
    if a == "" {
      assert a + rest == rest;
    } else {
      Tail(a, rest, 1);
      DigitsExtend(a[1..], rest);
      if |a| > 1 {
        Tail(a, rest, 2);
        DigitsExtend(a[2..], rest);
      }
    }
  }

  lemma NumberExtends(a: string, rest: string)
    requires Separates(rest)
    ensures NumberChars(a + rest) == NumberChars(a)
  {
    MantissaExtends(a, rest);
    Tail(a, rest, Mantissa(a));
    ExponentExtends(a[Mantissa(a)..], rest);
  }

  /** A line comment that runs to the end of `s`. */
  predicate OpenComment(s: string) {
    StartsComment(s) && FindNewline(s) == |s|
  }

  /** A step that succeeds on `a` is the same with more after a separator, except
      that a comment open at the end of `a` takes some of it. */
  lemma NextExtends(a: string, rest: string)
    requires a != "" && Separates(rest) && !Next(a).Bad? && !(OpenComment(a) && !IsSpace(a[0]))
    ensures Next(a + rest) == Next(a)
  {
    Tail(a, rest, Next(a).n);
    Tail(a, rest, 1);
    if IsSpace(a[0]) {
    } else if StartsComment(a) {
      NewlineExtends(a, rest);
    } else if |a| > 1 && a[0] == '/' && a[1] == '*' {
      Tail(a, rest, 2);
      CommentExtends(a[2..], rest);
    } else if IsQuote(a[0]) {
      QuotedExtends(a[1..], a[0], rest);
    } else if IsWordStart(a[0]) {
      WordExtends(a, rest);
    } else {
      NumberExtends(a, rest);
    }
  }

  // ---- A token lexes to itself ----

  lemma {:induction false} QuotedCut(s: string, quote: char)
    requires QuotedEnd(s, quote).Taken?
    ensures QuotedEnd(s[..QuotedEnd(s, quote).n], quote) == QuotedEnd(s, quote)
  {
    var n := QuotedEnd(s, quote).n;
    if s[0] == '\\' || (s[0] == quote && |s| > 1 && s[1] == quote) {
      QuotedCut(s[2..], quote);
      assert s[..n][2..] == s[2..][..n - 2];
    } else if s[0] != quote {
      QuotedCut(s[1..], quote);
      assert s[..n][1..] == s[1..][..n - 1];
    }
  }

  lemma {:induction false} DigitsCut(s: string, k: nat)
    requires k <= |s|
    ensures Digits(s[..k]) == if k < Digits(s) then k else Digits(s)
  {
    if k > 0 && IsDigit(s[0]) {
      DigitsCut(s[1..], k - 1);
      assert s[..k][1..] == s[1..][..k - 1];
    }
  }

  lemma {:induction false} WordLexes(w: string)
    requires forall c :: c in w ==> IsWordChar(c)
    ensures WordChars(w) == |w|
  {
    if w != "" {
      WordLexes(w[1..]);
    }
  }

  lemma {:induction false} WordCharsAre(s: string)
    ensures forall i :: 0 <= i < WordChars(s) ==> IsWordChar(s[i])
  {
    if s != "" && IsWordChar(s[0]) {
      WordCharsAre(s[1..]);
    }
  }

  lemma MantissaCut(s: string, n: nat)
    requires 0 < Mantissa(s) <= n <= |s|
    requires n == Mantissa(s) || s[Mantissa(s)] == 'e' || s[Mantissa(s)] == 'E'
    ensures Mantissa(s[..n]) == Mantissa(s)
  {
    var d := Digits(s);
    DigitsCut(s, n);
    if d > 0 {
      if d < n {
        assert s[..n][d + 1..] == s[d + 1..][..n - d - 1];
        DigitsCut(s[d + 1..], n - d - 1);
      }
    } else {
      assert n > 0 && s[0] == '.';
      assert s[..n][1..] == s[1..][..n - 1];
      DigitsCut(s[1..], n - 1);
    }
  }

  lemma ExponentCut(s: string)
    ensures Exponent(s[..Exponent(s)]) == Exponent(s)
  {
    var n := Exponent(s);
    if n > 0 {
      var k := if |s| > 1 && (s[1] == '+' || s[1] == '-') then 2 else 1;
      assert s[..n][k..] == s[k..][..n - k];
      DigitsCut(s[k..], n - k);
    }
  }

  lemma NumberCut(s: string)
    ensures NumberChars(s[..NumberChars(s)]) == NumberChars(s)
  {
    var m, n := Mantissa(s), NumberChars(s);
    if m > 0 {
      MantissaCut(s, n);
      assert s[..n][m..] == s[m..][..n - m];
      ExponentCut(s[m..]);
    }
  }

  ghost predicate Canonical(t: Token) {
    t.text != "" && Next(t.text) == Emit(t, |t.text|)
  }

  lemma NumberStarts(s: string)
    requires NumberChars(s) > 0
    ensures IsDigit(s[0]) || s[0] == '.'
  {
  }

  /** Whatever the lexer emits, its text alone lexes to the same token. */
  lemma EmittedIsCanonical(s: string)
    requires s != "" && Next(s).Emit?
    ensures Canonical(Next(s).token)
  {
    var n := Next(s).n;
    if IsQuote(s[0]) {
      QuotedCut(s[1..], s[0]);
      assert s[..n][1..] == s[1..][..n - 1];
      assert s[..n][..n] == s[..n];
    } else if IsWordStart(s[0]) {
      WordCharsAre(s);
      var w := Lower(s[..n]);
      forall c | c in w ensures IsWordChar(c) {
      }
      WordLexes(w);
      assert Lower(w[..|w|]) == w;
    } else if NumberChars(s) > 0 {
      NumberCut(s);
      NumberStarts(s);
      assert s[..n][..n] == s[..n];
    } else {
      assert NumberChars(s[..n]) == 0 by {
        NoNumber(s, n);
      }
      assert s[..n][..n] == s[..n];
    }
  }

  lemma NoNumber(s: string, n: nat)
    requires n <= |s| && NumberChars(s) == 0 && s != ""
    ensures NumberChars(s[..n]) == 0
  {
    DigitsCut(s, n);
    if n > 0 {
      assert s[..n][1..] == s[1..][..n - 1];
      DigitsCut(s[1..], n - 1);
    }
  }

  // ---- Lexing and printing undo each other ----

  /** The texts of the tokens, joined by spaces. */
  function Print(tokens: seq<Token>): string {
    if tokens == [] then ""
    else if |tokens| == 1 then tokens[0].text
    else tokens[0].text + (" " + Print(tokens[1..]))
  }

  lemma {:induction false} LexedAreCanonical(s: string)
    requires Lex(s).Ok?
    ensures forall t :: t in Lex(s).value ==> Canonical(t)
    decreases |s|
  {
    if s != "" {
      LexedAreCanonical(s[Next(s).n..]);
      if Next(s).Emit? {
        EmittedIsCanonical(s);
      }
    }
  }

  lemma {:induction false} PrintedLexes(tokens: seq<Token>)
    requires forall t :: t in tokens ==> Canonical(t)
    ensures Lex(Print(tokens)) == Ok(tokens)
  {
    if tokens != [] {
      var t := tokens[0];
      assert Canonical(t);
      if |tokens| == 1 {
        assert t.text[|t.text|..] == "" && tokens == [t] == [t] + [];
      } else {
        var rest := " " + Print(tokens[1..]);
        NextExtends(t.text, rest);
        Tail(t.text, rest, |t.text|);
        assert t.text[|t.text|..] + rest == rest;
        assert Lex(rest) == Lex(Print(tokens[1..])) by {
          assert Next(rest) == Skip(1) && rest[1..] == Print(tokens[1..]);
        }
        PrintedLexes(tokens[1..]);
        assert tokens == [t] + tokens[1..];
      }
    }
  }

  /** Printing the tokens of a view and lexing again gives the same tokens. */
  lemma PrintLexRoundTrip(statement: string)
    requires Tokens(statement).Ok?
    ensures Tokens(Print(Tokens(statement).value)) == Tokens(statement)
  {
    var all, tokens := Lex(statement).value, Tokens(statement).value;
    LexedAreCanonical(statement);
    assert forall t :: t in tokens ==> t in all;
    PrintedLexes(tokens);
    assert tokens != [] ==> tokens[|tokens| - 1] in tokens;
  }

  // ---- Lines are lexed one after the other ----

  lemma PrependTwice(a: seq<Token>, b: seq<Token>, r: Result<seq<Token>>)
    ensures Prepend(a, Prepend(b, r)) == Prepend(a + b, r)
  {
    if r.Ok? {
      assert a + (b + r.value) == (a + b) + r.value;
    }
  }

  /** When `a` lexes, a newline and more text after it only add tokens: those of
      the text, or its failure. */
  lemma {:induction false} LexAppends(a: string, b: string)
    requires Lex(a).Ok?
    ensures Lex(a + "\n" + b) == Prepend(Lex(a).value, Lex(b))
    decreases |a|
  {
    var more := "\n" + b;
    assert a + "\n" + b == a + more;
    if a == "" || (OpenComment(a) && !IsSpace(a[0])) {
      LastLine(a, b);
    } else {
      FirstStep(a);
      var rest := a[Next(a).n..];
      assert rest + "\n" + b == rest + more;
      LexAppends(rest, b);
      MoreAfterStep(a, more);
      PrependTwice(Found(Next(a)), Lex(rest).value, Lex(b));
    }
  }

  lemma LastLine(a: string, b: string)
    requires a == "" || (OpenComment(a) && !IsSpace(a[0]))
    ensures Lex(a) == Ok([]) && Lex(a + ("\n" + b)) == Lex(b) == Prepend([], Lex(b))
  {
    var more := "\n" + b;
    PrependNone(Lex(b));
    if a == "" {
      assert a + more == more && Next(more) == Skip(1) && more[1..] == b;
    } else {
      OpenCommentExtends(a, b);
      assert a[|a|..] == "" && (a + more)[|a| + 1..] == b;
    }
  }

  lemma FirstStep(a: string)
    requires a != "" && Lex(a).Ok?
    ensures !Next(a).Bad? && Lex(a[Next(a).n..]).Ok?
    ensures Lex(a).value == Found(Next(a)) + Lex(a[Next(a).n..]).value
  {
    PrependNone(Lex(a[Next(a).n..]));
  }

  lemma MoreAfterStep(a: string, more: string)
    requires a != "" && Separates(more) && !Next(a).Bad? && !(OpenComment(a) && !IsSpace(a[0]))
    ensures Lex(a + more) == Prepend(Found(Next(a)), Lex(a[Next(a).n..] + more))
  {
    NextExtends(a, more);
    Tail(a, more, Next(a).n);
    PrependNone(Lex(a[Next(a).n..] + more));
  }

  function Found(step: Step): seq<Token> {
    if step.Emit? then [step.token] else []
  }

  lemma {:induction false} FirstNewline(a: string, b: string)
    requires FindNewline(a) == |a|
    ensures FindNewline(a + ("\n" + b)) == |a|
  {
    if a == "" {
      assert a + ("\n" + b) == "\n" + b;
    } else {
      Tail(a, "\n" + b, 1);
      FirstNewline(a[1..], b);
    }
  }

  lemma OpenCommentExtends(a: string, b: string)
    requires OpenComment(a) && !IsSpace(a[0])
    ensures Next(a) == Skip(|a|) && Next(a + ("\n" + b)) == Skip(|a| + 1)
  {
    FirstNewline(a, b);
  }

  /** White space and complete comments, in any number and order. */
  ghost predicate Blank(s: string)
    decreases |s|
  {
    s == "" || (Next(s).Skip? && !(OpenComment(s) && !IsSpace(s[0])) && Blank(s[Next(s).n..]))
  }

  /** `a` lexes and does not end inside a line comment. */
  ghost predicate Complete(a: string)
    decreases |a|
  {
    a == "" || (!Next(a).Bad? && !(OpenComment(a) && !IsSpace(a[0])) && Complete(a[Next(a).n..]))
  }

  lemma SkipExtends(s: string, rest: string)
    requires s != "" && Next(s).Skip? && !(OpenComment(s) && !IsSpace(s[0]))
    ensures Next(s + rest) == Next(s)
  {
    Tail(s, rest, 1);
    if IsSpace(s[0]) {
    } else if StartsComment(s) {
      NewlineExtends(s, rest);
    } else {
      Tail(s, rest, 2);
      CommentExtends(s[2..], rest);
    }
  }

  /** Blanks before anything are skipped. */
  lemma {:induction false} BlankSkips(sep: string, b: string)
    requires Blank(sep)
    ensures Lex(sep + b) == Lex(b)
    decreases |sep|
  {
    if sep == "" {
      assert sep + b == b;
    } else {
      SkipExtends(sep, b);
      Tail(sep, b, Next(sep).n);
      BlankSkips(sep[Next(sep).n..], b);
    }
  }

  lemma {:induction false} CompleteLexes(a: string)
    requires Complete(a)
    ensures Lex(a).Ok?
    decreases |a|
  {
    if a != "" {
      CompleteLexes(a[Next(a).n..]);
    }
  }

  /** A complete text, blanks that begin with white space, and more text. */
  lemma {:induction false} LexSeparated(a: string, sep: string, b: string)
    requires Complete(a) && Blank(sep) && Separates(sep)
    ensures Lex(a).Ok? && Lex(a + (sep + b)) == Prepend(Lex(a).value, Lex(b))
    decreases |a|
  {
    CompleteLexes(a);
    if a == "" {
      assert a + (sep + b) == sep + b;
      BlankSkips(sep, b);
      PrependNone(Lex(b));
    } else {
      FirstStep(a);
      var rest := a[Next(a).n..];
      LexSeparated(rest, sep, b);
      MoreAfterStep(a, sep + b);
      PrependTwice(Found(Next(a)), Lex(rest).value, Lex(b));
    }
  }

  /** Which blanks stand between two parts never changes the tokens. */
  lemma BlanksDoNotMatter(a: string, sep: string, other: string, b: string)
    requires Complete(a) && Blank(sep) && Separates(sep) && Blank(other) && Separates(other)
    ensures Lex(a + (sep + b)) == Lex(a + (other + b))
  {
    LexSeparated(a, sep, b);
    LexSeparated(a, other, b);
  }

  // ---- The case of words does not matter ----

  predicate SameCase(s: string, t: string) {
    Lower(s) == Lower(t)
  }

  lemma SameCaseAt(s: string, t: string, i: nat)
    requires SameCase(s, t) && i < |s|
    ensures |t| == |s| && (s[i] == t[i] || (IsWordStart(s[i]) && IsWordStart(t[i])))
    ensures (s[i] == 'e' || s[i] == 'E') <==> (t[i] == 'e' || t[i] == 'E')
  {
    assert Lower(s)[i] == Lower(t)[i];
  }

  lemma SameCaseFrom(s: string, t: string, k: nat)
    requires SameCase(s, t) && k <= |s|
    ensures |t| == |s| && SameCase(s[k..], t[k..]) && SameCase(s[..k], t[..k])
  {
    assert |Lower(s)| == |Lower(t)|;
    assert forall i :: 0 <= i < |s| ==> Lower(s)[i] == Lower(t)[i];
    assert forall i :: 0 <= i < |s| - k ==> Lower(s[k..])[i] == Lower(s)[k + i] && Lower(t[k..])[i] == Lower(t)[k + i];
  }

  lemma {:induction false} SameNewline(s: string, t: string)
    requires SameCase(s, t)
    ensures FindNewline(s) == FindNewline(t) && |s| == |t|
  {
    SameCaseFrom(s, t, 0);
    if s != "" {
      SameCaseAt(s, t, 0);
      SameCaseFrom(s, t, 1);
      SameNewline(s[1..], t[1..]);
    }
  }

  lemma {:induction false} SameComment(s: string, t: string)
    requires SameCase(s, t)
    ensures CommentEnd(s) == CommentEnd(t)
  {
    SameCaseFrom(s, t, 0);
    if |s| > 1 {
      SameCaseAt(s, t, 0);
      SameCaseAt(s, t, 1);
      SameCaseFrom(s, t, 1);
      SameComment(s[1..], t[1..]);
    }
  }

  lemma {:induction false} SameQuoted(s: string, t: string, quote: char)
    requires SameCase(s, t) && IsQuote(quote)
    ensures QuotedEnd(s, quote) == QuotedEnd(t, quote)
  {
    SameCaseFrom(s, t, 0);
    if s != "" {
      SameCaseAt(s, t, 0);
      SameCaseFrom(s, t, 1);
      SameQuoted(s[1..], t[1..], quote);
      if |s| > 1 {
        SameCaseAt(s, t, 1);
        SameCaseFrom(s, t, 2);
        SameQuoted(s[2..], t[2..], quote);
      }
    }
  }

  lemma {:induction false} SameDigits(s: string, t: string)
    requires SameCase(s, t)
    ensures Digits(s) == Digits(t) && |s| == |t|
  {
    SameCaseFrom(s, t, 0);
    if s != "" {
      SameCaseAt(s, t, 0);
      SameCaseFrom(s, t, 1);
      SameDigits(s[1..], t[1..]);
    }
  }

  lemma {:induction false} SameWord(s: string, t: string)
    requires SameCase(s, t)
    ensures WordChars(s) == WordChars(t)
  {
    SameCaseFrom(s, t, 0);
    if s != "" {
      SameCaseAt(s, t, 0);
      SameCaseFrom(s, t, 1);
      SameWord(s[1..], t[1..]);
    }
  }

  lemma SameMantissa(s: string, t: string)
    requires SameCase(s, t)
    ensures Mantissa(s) == Mantissa(t)
  {
    var d := Digits(s);
    SameDigits(s, t);
    if s != "" {
      SameCaseAt(s, t, 0);
      SameCaseFrom(s, t, 1);
      SameDigits(s[1..], t[1..]);
    }
    if d < |s| {
      SameCaseAt(s, t, d);
      SameCaseFrom(s, t, d + 1);
      SameDigits(s[d + 1..], t[d + 1..]);
    }
  }

  lemma SameExponent(s: string, t: string)
    requires SameCase(s, t)
    ensures Exponent(s) == Exponent(t)
  {
    SameDigits(s, t);
    if s != "" {
      SameCaseAt(s, t, 0);
      SameCaseFrom(s, t, 1);
      SameDigits(s[1..], t[1..]);
      if |s| > 1 {
        SameCaseAt(s, t, 1);
        SameCaseFrom(s, t, 2);
        SameDigits(s[2..], t[2..]);
      }
    }
  }

  lemma SameNumber(s: string, t: string)
    requires SameCase(s, t)
    ensures NumberChars(s) == NumberChars(t)
  {
    SameMantissa(s, t);
    SameCaseFrom(s, t, Mantissa(s));
    SameExponent(s[Mantissa(s)..], t[Mantissa(s)..]);
  }

  /** What one turn does on `t`, when it does `step` on `s`: as much, and to the
      same kind of token, whose text is that of `t`. */
  predicate Alike(step: Step, other: Step, t: string) {
    match step
    case Skip(_) => other == step
    case Emit(token, n) => other.Emit? && other.n == n <= |t| && other.token.kind == token.kind
                           && (if token.kind == Word then other == step else other.token.text == t[..n])
    case Bad(_) => true
  }

  /** Spaces, comments and the marks that open them are no letters. */
  predicate Skips(s: string) {
    s != "" && (IsSpace(s[0]) || StartsComment(s) || (|s| > 1 && s[0] == '/' && s[1] == '*'))
  }

  lemma SameOpening(s: string, t: string)
    requires SameCase(s, t) && s != ""
    ensures |s| == |t| && (Skips(s) <==> Skips(t))
    ensures if IsWordStart(s[0]) then IsWordStart(t[0]) else t[0] == s[0]
    ensures |s| > 1 ==> if IsWordStart(s[1]) then IsWordStart(t[1]) else t[1] == s[1]
  {
    SameCaseAt(s, t, 0);
    if |s| > 1 {
      SameCaseAt(s, t, 1);
    }
  }

  lemma SameSkip(s: string, t: string)
    requires SameCase(s, t) && Skips(s)
    ensures Skips(t) && Next(t) == Next(s)
  {
    SameOpening(s, t);
    if !IsSpace(s[0]) {
      if StartsComment(s) {
        SameNewline(s, t);
      } else {
        SameCaseFrom(s, t, 2);
        SameComment(s[2..], t[2..]);
      }
    }
  }

  lemma SameQuotedStep(s: string, t: string)
    requires SameCase(s, t) && s != "" && !Skips(s) && IsQuote(s[0])
    ensures t != "" && Alike(Next(s), Next(t), t)
  {
    SameOpening(s, t);
    SameCaseFrom(s, t, 1);
    SameQuoted(s[1..], t[1..], s[0]);
  }

  lemma SameWordStep(s: string, t: string)
    requires SameCase(s, t) && s != "" && !Skips(s) && IsWordStart(s[0])
    ensures t != "" && Alike(Next(s), Next(t), t)
  {
    SameOpening(s, t);
    SameWord(s, t);
    SameCaseFrom(s, t, WordChars(s));
  }

  lemma SameOtherStep(s: string, t: string)
    requires SameCase(s, t) && s != "" && !Skips(s) && !IsQuote(s[0]) && !IsWordStart(s[0])
    ensures t != "" && Alike(Next(s), Next(t), t)
  {
    SameOpening(s, t);
    SameNumber(s, t);
    SameCaseFrom(s, t, 0);
  }

  /** The case of letters decides neither where a token ends nor what kind it has. */
  lemma SameStep(s: string, t: string)
    requires SameCase(s, t) && s != ""
    ensures t != "" && Alike(Next(s), Next(t), t)
  {
    if Skips(s) {
      SameSkip(s, t);
    } else if IsQuote(s[0]) {
      SameQuotedStep(s, t);
    } else if IsWordStart(s[0]) {
      SameWordStep(s, t);
    } else {
      SameOtherStep(s, t);
    }
  }

  /** `t` is `s` but for the case of words and comments. */
  ghost predicate Recased(s: string, t: string)
    decreases |s|
  {
    && SameCase(s, t)
    && (s != "" && !Next(s).Bad? ==>
          var n := Next(s).n;
          && n <= |t|
          && (Next(s).Emit? && Next(s).token.kind != Word ==> s[..n] == t[..n])
          && Recased(s[n..], t[n..]))
  }

  /** The case of words, and of comments, never changes the tokens. */
  lemma {:induction false} WordCaseDoesNotMatter(s: string, t: string)
    requires Recased(s, t) && Lex(s).Ok?
    ensures Lex(t) == Lex(s)
    decreases |s|
  {
    SameCaseFrom(s, t, 0);
    if s != "" {
      SameStep(s, t);
      TextKept(s);
      WordCaseDoesNotMatter(s[Next(s).n..], t[Next(s).n..]);
    }
  }

  lemma TextKept(s: string)
    requires s != ""
    ensures Next(s).Emit? && Next(s).token.kind != Word ==> Next(s).token.text == s[..Next(s).n]
  {
  }

  // ---- The lexer as it runs ----

  lemma PrependNone(r: Result<seq<Token>>)
    ensures Prepend([], r) == r
  {
    if r.Ok? {
      assert [] + r.value == r.value;
    }
  }

  lemma LaterTwice(j: nat, k: nat, scan: Scan)
    ensures Later(j, Later(k, scan)) == Later(j + k, scan)
  {
  }

  predicate Left(statement: string, pos: nat, left: string) {
    pos <= |statement| && left == statement[pos..]
  }

  /** What is found up to `pos` and the tokens of what is left make up those of the whole. */
  ghost predicate ReadUpTo(goal: Result<seq<Token>>, statement: string, pos: nat, tokens: seq<Token>) {
    pos <= |statement| && forall left :: Left(statement, pos, left) ==> goal == Prepend(tokens, Lex(left))
  }

  /** `step` is what one turn does at `pos`. */
  ghost predicate Turns(statement: string, pos: nat, step: Step) {
    && pos < |statement| && (!step.Bad? ==> 0 < step.n <= |statement| - pos)
    && forall left :: Left(statement, pos, left) ==> step == Next(left)
  }

  /** One turn of the loop: what is left is shorter, and its tokens come after
      the ones found. */
  lemma OneTurn(goal: Result<seq<Token>>, statement: string, pos: nat, tokens: seq<Token>, step: Step)
    requires ReadUpTo(goal, statement, pos, tokens) && Turns(statement, pos, step)
    ensures step.Bad? ==> goal == Err(step.error)
    ensures !step.Bad? ==> ReadUpTo(goal, statement, pos + step.n, tokens + Found(step))
  {
    var s := statement[pos..];
    assert Left(statement, pos, s);
    if !step.Bad? {
      var rest := Lex(s[step.n..]);
      assert s[step.n..] == statement[pos + step.n..];
      PrependTwice(tokens, Found(step), rest);
      PrependNone(rest);
    }
  }

  /** What is left from `pos` on ends the quoted value that began at `start`. */
  ghost predicate QuotedUpTo(goal: Scan, statement: string, start: nat, pos: nat) {
    start < pos <= |statement|
    && forall left :: Left(statement, pos, left) ==> goal == Later(pos - start - 1, QuotedEnd(left, statement[start]))
  }

  /** One turn of the inner loop, which goes `step` characters on or ends. */
  lemma QuotedTurn(goal: Scan, statement: string, start: nat, pos: nat)
    requires QuotedUpTo(goal, statement, start, pos) && pos < |statement| && IsQuote(statement[start])
    ensures var c, quote, more := statement[pos], statement[start], pos + 1 < |statement|;
      if c == '\\' then if more then QuotedUpTo(goal, statement, start, pos + 2) else goal == Failed(IncompleteEscape)
      else if c == quote then
        if more && statement[pos + 1] == quote then QuotedUpTo(goal, statement, start, pos + 2)
        else goal == Taken(pos - start)
      else QuotedUpTo(goal, statement, start, pos + 1)
  {
    var left := statement[pos..];
    assert Left(statement, pos, left);
    assert left[1..] == statement[pos + 1..];
    LaterTwice(pos - start - 1, 1, QuotedEnd(left[1..], statement[start]));
    if pos + 1 < |statement| {
      assert left[2..] == statement[pos + 2..];
      LaterTwice(pos - start - 1, 2, QuotedEnd(left[2..], statement[start]));
    }
  }

  lemma QuotedOver(goal: Scan, statement: string, start: nat)
    requires QuotedUpTo(goal, statement, start, |statement|)
    ensures goal == Failed(UnterminatedQuoted)
  {
    assert Left(statement, |statement|, "");
  }

  lemma QuotedBegins(statement: string, start: nat)
    requires start < |statement|
    ensures QuotedUpTo(QuotedEnd(statement[start + 1..], statement[start]), statement, start, start + 1)
  {
    LaterTwice(0, 0, QuotedEnd(statement[start + 1..], statement[start]));
  }

  /** The inner loop of a quoted value, which starts after the opening quote. */
  method SkipQuoted(statement: string, start: nat) returns (r: Result<nat>)
    requires start < |statement| && IsQuote(statement[start])
    ensures var end := QuotedEnd(statement[start + 1..], statement[start]);
            r == if end.Taken? then Ok(start + 1 + end.n) else Err(end.error)
  {
    ghost var goal := QuotedEnd(statement[start + 1..], statement[start]);
    QuotedBegins(statement, start);
    var quote := statement[start];
    var pos := start + 1;
    while pos < |statement|
      invariant QuotedUpTo(goal, statement, start, pos)
    {
      QuotedTurn(goal, statement, start, pos);
      if statement[pos] == '\\' {
        if pos + 1 >= |statement| {
          return Err(IncompleteEscape);
        }
        pos := pos + 2;
      } else if statement[pos] == quote {
        if pos + 1 < |statement| && statement[pos + 1] == quote {
          pos := pos + 2;
        } else {
          return Ok(pos + 1);
        }
      } else {
        pos := pos + 1;
      }
    }
    QuotedOver(goal, statement, start);
    return Err(UnterminatedQuoted);
  }

  /** The branches of one turn of the loop. */
  method Turn(statement: string, pos: nat) returns (step: Step)
    requires pos < |statement|
    ensures Turns(statement, pos, step)
  {
    var c, left := statement[pos], statement[pos..];
    if IsSpace(c) {
      return Skip(1);
    }
    if StartsComment(left) {
      var end := FindNewline(left);
      return Skip(if end == |left| then |left| else end + 1);
    }
    if |left| > 1 && c == '/' && left[1] == '*' {
      var end := CommentEnd(left[2..]);
      return if end.Taken? then Skip(2 + end.n) else Bad(end.error);
    }
    if IsQuote(c) {
      var end := SkipQuoted(statement, pos);
      assert left[1..] == statement[pos + 1..];
      if end.Err? {
        return Bad(end.error);
      }
      assert left[..end.value - pos] == statement[pos..end.value];
      return Emit(Token(Quoted, statement[pos..end.value]), end.value - pos);
    }
    if IsWordStart(c) {
      var word := WordChars(left);
      return Emit(Token(Word, Lower(left[..word])), word);
    }
    var number := NumberChars(left);
    if number > 0 {
      return Emit(Token(Number, left[..number]), number);
    }
    if |left| > 1 && IsOperator(c, left[1]) {
      return Emit(Token(Operator, left[..2]), 2);
    }
    if IsPunctuation(c) {
      assert left[..1] == [c];
      return Emit(Token(Punctuation, [c]), 1);
    }
    return Bad(UnsupportedToken);
  }

  lemma NothingFound(statement: string)
    ensures ReadUpTo(Lex(statement), statement, 0, [])
  {
    PrependNone(Lex(statement));
    assert statement[0..] == statement;
  }

  lemma NothingLeft(goal: Result<seq<Token>>, statement: string, tokens: seq<Token>)
    requires ReadUpTo(goal, statement, |statement|, tokens)
    ensures goal == Ok(tokens)
  {
    assert Left(statement, |statement|, "") && tokens + [] == tokens;
  }

  /** The loop over the statement. */
  method LexAll(statement: string) returns (r: Result<seq<Token>>)
    ensures r == Lex(statement)
  {
    ghost var goal := Lex(statement);
    var tokens: seq<Token> := [];
    var pos := 0;
    NothingFound(statement);
    while pos < |statement|
      invariant pos <= |statement|
      invariant ReadUpTo(goal, statement, pos, tokens)
    {
      var step := Turn(statement, pos);
      OneTurn(goal, statement, pos, tokens, step);
      if step.Bad? {
        return Err(step.error);
      }
      tokens := tokens + Found(step);
      pos := pos + step.n;
    }
    NothingLeft(goal, statement, tokens);
    return Ok(tokens);
  }

  method ViewSqlTokens(statement: string) returns (r: Result<seq<Token>>)
    ensures r == Tokens(statement)
  {
    r := LexAll(statement);
    if r.Err? {
      return r;
    }
    var tokens := r.value;
    if tokens != [] && tokens[|tokens| - 1] == SEMICOLON {
      tokens := tokens[..|tokens| - 1];
    }
    if SEMICOLON in tokens {
      return Err(MultipleStatements);
    }
    return Ok(tokens);
  }
}
