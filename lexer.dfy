/**
 * The lexer of the two example interpreters. It holds the text not yet
 * read and shrinks it one character at a time. `next()` skips white space,
 * then reads an identifier or keyword, a digit run, or one punctuation
 * character, and throws when the first character starts none of them. The
 * copy of examples/interpreter lets identifiers contain `_`; the copy of
 * examples/parser.cpp does not. Characters are classified as in the C
 * locale.
 */
module Lexing {
  import opened Wrappers

  /** Which copy of the lexer: they differ only in the identifier rule. */
  datatype Dialect = Interpreter | Standalone

  /** `std::isspace`: space, tab, newline, vertical tab, form feed, carriage return. */
  predicate IsSpace(c: char) {
    c == ' ' || c == '\t' || c == '\n' || c == '\r' || c as int == 11 || c as int == 12
  }

  /** `std::isalpha` */
  predicate IsAlpha(c: char) {
    'a' <= c <= 'z' || 'A' <= c <= 'Z'
  }

  /** `std::isdigit` */
  predicate IsDigit(c: char) {
    '0' <= c <= '9'
  }

  /** `isIDBegin` (a letter or `_`); the standalone copy tests `std::isalpha` alone. */
  predicate IsIdBegin(d: Dialect, c: char) {
    IsAlpha(c) || (d == Interpreter && c == '_')
  }

  /** `isID` (an identifier start or a digit); the standalone copy tests `std::isalnum`. */
  predicate IsId(d: Dialect, c: char) {
    IsIdBegin(d, c) || IsDigit(c)
  }

  datatype TokenKind =
    | Let | Print | Quit | Identifier | NumericLiteral
    | CloseParen | Semicolon | Comma | Assign | Add | Sub | Mul | Div | OpenParen
    | End

  /** A token: the slice of the text it was read from (`ID`) and its kind. */
  datatype Token = Token(id: string, kind: TokenKind)

  /** `std::runtime_error("Failed to scan token")` */
  datatype ScanError = FailedToScanToken

  /** The `keywords` map. */
  function Keyword(id: string): Option<TokenKind> {
    if id == "let" then Some(Let)
    else if id == "print" then Some(Print)
    else if id == "quit" then Some(Quit)
    else None
  }

  /** The kind an identifier-shaped lexeme gets: its keyword, otherwise `Identifier`. */
  function WordKind(id: string): TokenKind {
    match Keyword(id)
    case Some(k) => k
    case None => Identifier
  }

  /** The nine `matchChar` tests, in order. */
  function Punctuation(c: char): Option<TokenKind> {
    if c == '(' then Some(OpenParen)
    else if c == ')' then Some(CloseParen)
    else if c == ';' then Some(Semicolon)
    else if c == ',' then Some(Comma)
    else if c == '=' then Some(Assign)
    else if c == '+' then Some(Add)
    else if c == '-' then Some(Sub)
    else if c == '*' then Some(Mul)
    else if c == '/' then Some(Div)
    else None
  }

  /** The three character classes the lexer's loops run over. */
  datatype CharClass = Space | IdChar(d: Dialect) | Digit

  predicate In(k: CharClass, c: char) {
    match k
    case Space => IsSpace(c)
    case IdChar(d) => IsId(d, c)
    case Digit => IsDigit(c)
  }

  /**
   * Where the run of class-`k` characters that starts at index `i` ends:
   * the index of the first character from `i` on that is not in the class,
   * or the end of the text.
   */
  function Span(text: string, k: CharClass, i: nat): (n: nat)
    requires i <= |text|
    ensures i <= n <= |text|
    decreases |text| - i
  {
    if i < |text| && In(k, text[i]) then Span(text, k, i + 1) else i
  }

  /** The run stops at the end of the text or at a character outside the class. */
  lemma {:induction false} SpanStops(text: string, k: CharClass, i: nat)
    requires i <= |text|
    ensures Span(text, k, i) == |text| || !In(k, text[Span(text, k, i)])
    decreases |text| - i
  {
    if i < |text| && In(k, text[i]) {
      SpanStops(text, k, i + 1);
    }
  }

  /** Every character of the run is in the class. */
  lemma {:induction false} SpanAll(text: string, k: CharClass, i: nat)
    requires i <= |text|
    ensures forall j :: i <= j < Span(text, k, i) ==> In(k, text[j])
    decreases |text| - i
  {
    if i < |text| && In(k, text[i]) {
      SpanAll(text, k, i + 1);
    }
  }

  /** A run over characters that are all in the class reaches the end of the text. */
  lemma {:induction false} SpanWhole(text: string, k: CharClass, i: nat)
    requires i <= |text|
    requires forall j :: i <= j < |text| ==> In(k, text[j])
    ensures Span(text, k, i) == |text|
    decreases |text| - i
  {
    if i < |text| {
      SpanWhole(text, k, i + 1);
    }
  }

  /** A run of one character. */
  lemma SpanOne(text: string, k: CharClass, i: nat)
    requires i < |text| && In(k, text[i]) && (i + 1 == |text| || !In(k, text[i + 1]))
    ensures Span(text, k, i) == i + 1
  {
    assert Span(text, k, i + 1) == i + 1;
  }

  /** What `skipWhitespace` leaves of `text`. */
  function SkipSpace(text: string): (r: string)
    ensures |r| <= |text| && r == text[|text| - |r|..]
    ensures r == [] || !IsSpace(r[0])
  {
    SpanStops(text, Space, 0);
    text[Span(text, Space, 0)..]
  }

  /** `skipWhitespace` drops only white space. */
  lemma SkipSpaceDropsSpace(text: string)
    ensures forall i :: 0 <= i < |text| - |SkipSpace(text)| ==> IsSpace(text[i])
  {
    SpanAll(text, Space, 0);
  }

  /** One call of `next()`: the token it returns or the error it throws, and the text left afterwards. */
  datatype Scanned = Scanned(token: Result<Token, ScanError>, rest: string)

  /**
   * The token `next()` reads once white space is skipped: the lexeme is a
   * prefix of `t` and the rest is what follows it; on an error nothing is
   * consumed.
   */
  function ScanFrom(d: Dialect, t: string): (r: Scanned)
    ensures r.token.Success? ==> t == r.token.value.id + r.rest
    ensures r.token.Failure? ==> r.rest == t
  {
    if |t| == 0 then Scanned(Success(Token("", End)), t)
    else if IsIdBegin(d, t[0]) then
      var n := Span(t, IdChar(d), 1);
      Scanned(Success(Token(t[..n], WordKind(t[..n]))), t[n..])
    else if IsDigit(t[0]) then
      var n := Span(t, Digit, 0);
      Scanned(Success(Token(t[..n], NumericLiteral)), t[n..])
    else
      match Punctuation(t[0])
      case Some(k) => Scanned(Success(Token(t[..1], k)), t[1..])
      case None => Scanned(Failure(FailedToScanToken), t)
  }

  /** The token `next()` reads from `text`. */
  function Scan(d: Dialect, text: string): Scanned {
    ScanFrom(d, SkipSpace(text))
  }

  /** `End`, with an empty lexeme, exactly when only white space is left; afterwards nothing is left. */
  lemma ScanEnd(d: Dialect, text: string)
    ensures Scan(d, text).token.Success? && Scan(d, text).token.value.kind == End <==>
      forall i :: 0 <= i < |text| ==> IsSpace(text[i])
    ensures Scan(d, text).token.Success? && Scan(d, text).token.value.kind == End ==>
      Scan(d, text).token.value.id == [] && Scan(d, text).rest == []
  {
    var t := SkipSpace(text);
    SkipSpaceDropsSpace(text);
    if |t| > 0 {
      assert text[|text| - |t|] == t[0];
    }
  }

  /** Once `End` has been returned, every later call returns `End` again. */
  lemma EndRepeats(d: Dialect, text: string)
    requires Scan(d, text).token.Success? && Scan(d, text).token.value.kind == End
    ensures Scan(d, Scan(d, text).rest) == Scan(d, text)
  {
    ScanEnd(d, text);
  }

  /**
   * A word: it starts with an identifier-start character, continues with
   * identifier characters as far as they go, and is a keyword exactly when
   * the `keywords` map lists it.
   */
  lemma ScanWord(d: Dialect, text: string)
    requires SkipSpace(text) != [] && IsIdBegin(d, SkipSpace(text)[0])
    ensures var r := Scan(d, text);
      r.token.Success? && |r.token.value.id| > 0 && IsIdBegin(d, r.token.value.id[0]) &&
      (forall i :: 0 <= i < |r.token.value.id| ==> IsId(d, r.token.value.id[i])) &&
      (r.rest == [] || !IsId(d, r.rest[0])) &&
      (r.token.value.kind == Identifier <==> Keyword(r.token.value.id).None?) &&
      (r.token.value.kind != Identifier ==> Some(r.token.value.kind) == Keyword(r.token.value.id))
  {
    var t := SkipSpace(text);
    WordShape(d, t);
    WordKindKeyword(t[..Span(t, IdChar(d), 1)]);
  }

  /** The lexeme of a word and what follows it. */
  lemma WordShape(d: Dialect, t: string)
    requires |t| > 0 && IsIdBegin(d, t[0])
    ensures var n := Span(t, IdChar(d), 1);
      IsIdBegin(d, t[..n][0]) &&
      (forall i :: 0 <= i < n ==> IsId(d, t[..n][i])) &&
      (t[n..] == [] || !IsId(d, t[n..][0]))
  {
    var n := Span(t, IdChar(d), 1);
    SpanAll(t, IdChar(d), 1);
    SpanStops(t, IdChar(d), 1);
    assert forall i :: 0 <= i < n ==> t[..n][i] == t[i];
    assert n < |t| ==> t[n..][0] == t[n];
  }

  /** A word is `Identifier` exactly when it is not a keyword, and otherwise its keyword's kind. */
  lemma WordKindKeyword(id: string)
    ensures WordKind(id) == Identifier <==> Keyword(id).None?
    ensures WordKind(id) != Identifier ==> Some(WordKind(id)) == Keyword(id)
  {
  }

  /** A number: the longest run of digits, with no sign and no decimal point. */
  lemma ScanNumber(d: Dialect, text: string)
    requires SkipSpace(text) != [] && IsDigit(SkipSpace(text)[0])
    ensures var r := Scan(d, text);
      r.token == Success(Token(r.token.value.id, NumericLiteral)) && |r.token.value.id| > 0 &&
      (forall i :: 0 <= i < |r.token.value.id| ==> IsDigit(r.token.value.id[i])) &&
      (r.rest == [] || !IsDigit(r.rest[0]))
  {
    var t := SkipSpace(text);
    NumberAt(d, t);
    SpanAll(t, Digit, 0);
    SpanStops(t, Digit, 0);
    var n := Span(t, Digit, 0);
    assert forall i :: 0 <= i < n ==> t[..n][i] == t[i];
    assert n < |t| ==> t[n..][0] == t[n];
  }

  /** One of `( ) ; , = + - * /` is a one-character token; any other character that starts no word or number is an error. */
  lemma ScanPunctuation(d: Dialect, text: string)
    requires SkipSpace(text) != [] && !IsIdBegin(d, SkipSpace(text)[0]) && !IsDigit(SkipSpace(text)[0])
    ensures var c := SkipSpace(text)[0];
      Scan(d, text) == match Punctuation(c)
        case Some(k) => Scanned(Success(Token([c], k)), SkipSpace(text)[1..])
        case None => Scanned(Failure(FailedToScanToken), SkipSpace(text))
  {
    var t := SkipSpace(text);
    assert t[..1] == [t[0]];
  }

  /** Every token but `End` consumes at least one character, and surrounding white space is dropped. */
  lemma ScanProgress(d: Dialect, text: string)
    ensures var r := Scan(d, text);
      r.token.Success? && r.token.value.kind != End ==> |r.token.value.id| > 0 && |r.rest| < |text|
    ensures |Scan(d, text).rest| <= |text|
  {
    ProgressFrom(d, SkipSpace(text));
  }

  lemma ProgressFrom(d: Dialect, t: string)
    ensures var r := ScanFrom(d, t);
      r.token.Success? && r.token.value.kind != End ==> |r.token.value.id| > 0 && |r.rest| < |t|
    ensures |ScanFrom(d, t).rest| <= |t|
  {
    if |t| > 0 && !IsIdBegin(d, t[0]) && IsDigit(t[0]) {
      NumberAt(d, t);
      assert Span(t, Digit, 0) > 0;
    }
  }

  /** Text that starts with no white space is what `skipWhitespace` leaves. */
  lemma NoSpaceToSkip(text: string)
    requires |text| > 0 && !IsSpace(text[0])
    ensures SkipSpace(text) == text
  {
  }

  /** The word branch of `next()`. */
  lemma WordAt(d: Dialect, t: string)
    requires |t| > 0 && IsIdBegin(d, t[0])
    ensures var n := Span(t, IdChar(d), 1);
      ScanFrom(d, t) == Scanned(Success(Token(t[..n], WordKind(t[..n]))), t[n..])
  {
  }

  /** The digit branch of `next()`. */
  lemma NumberAt(d: Dialect, t: string)
    requires |t| > 0 && !IsIdBegin(d, t[0]) && IsDigit(t[0])
    ensures var n := Span(t, Digit, 0);
      ScanFrom(d, t) == Scanned(Success(Token(t[..n], NumericLiteral)), t[n..])
  {
  }

  /** A one-letter lexeme is no keyword. */
  lemma LetterIsNoKeyword(c: char)
    ensures WordKind([c]) == Identifier
  {
  }

  lemma LetterFrom(d: Dialect, t: string)
    requires |t| > 0 && IsAlpha(t[0]) && (|t| == 1 || !IsId(d, t[1]))
    ensures ScanFrom(d, t) == Scanned(Success(Token([t[0]], Identifier)), t[1..])
  {
    WordAt(d, t);
    assert Span(t, IdChar(d), 1) == 1;
    assert t[..1] == [t[0]];
    LetterIsNoKeyword(t[0]);
  }

  /** A one-letter word followed by a character that cannot continue it is an identifier. */
  lemma ScanLetter(d: Dialect, text: string)
    requires |text| > 0 && IsAlpha(text[0]) && (|text| == 1 || !IsId(d, text[1]))
    ensures Scan(d, text) == Scanned(Success(Token([text[0]], Identifier)), text[1..])
  {
    NoSpaceToSkip(text);
    LetterFrom(d, text);
  }

  lemma DigitFrom(d: Dialect, t: string)
    requires |t| > 0 && IsDigit(t[0]) && (|t| == 1 || !IsDigit(t[1]))
    ensures ScanFrom(d, t) == Scanned(Success(Token([t[0]], NumericLiteral)), t[1..])
  {
    NumberAt(d, t);
    SpanOne(t, Digit, 0);
    assert t[..1] == [t[0]];
  }

  /** A one-digit number followed by a non-digit. */
  lemma ScanDigit(d: Dialect, text: string)
    requires |text| > 0 && IsDigit(text[0]) && (|text| == 1 || !IsDigit(text[1]))
    ensures Scan(d, text) == Scanned(Success(Token([text[0]], NumericLiteral)), text[1..])
  {
    NoSpaceToSkip(text);
    DigitFrom(d, text);
  }

  lemma PunctuationFrom(d: Dialect, t: string)
    requires |t| > 0 && Punctuation(t[0]).Some?
    ensures ScanFrom(d, t) == Scanned(Success(Token([t[0]], Punctuation(t[0]).value)), t[1..])
  {
    assert t[..1] == [t[0]];
  }

  /** A punctuation character is a token of its own, whatever follows it. */
  lemma ScanPunctuationChar(d: Dialect, text: string)
    requires |text| > 0 && Punctuation(text[0]).Some?
    ensures Scan(d, text) == Scanned(Success(Token([text[0]], Punctuation(text[0]).value)), text[1..])
  {
    NoSpaceToSkip(text);
    PunctuationFrom(d, text);
  }

  lemma WholeWordFrom(d: Dialect, t: string)
    requires |t| > 0 && IsIdBegin(d, t[0]) && Keyword(t).None?
    requires forall i :: 0 <= i < |t| ==> IsId(d, t[i])
    ensures ScanFrom(d, t) == Scanned(Success(Token(t, Identifier)), [])
  {
    SpanWhole(t, IdChar(d), 1);
    WordAt(d, t);
    assert t[..|t|] == t;
  }

  /** A text that is one word and no keyword is one identifier with nothing left. */
  lemma ScanWholeWord(d: Dialect, text: string)
    requires |text| > 0 && IsIdBegin(d, text[0]) && Keyword(text).None?
    requires forall i :: 0 <= i < |text| ==> IsId(d, text[i])
    ensures Scan(d, text) == Scanned(Success(Token(text, Identifier)), [])
  {
    NoSpaceToSkip(text);
    WholeWordFrom(d, text);
  }

  /** A character that starts no word, number or punctuation is an error. */
  lemma ScanStray(d: Dialect, text: string)
    requires |text| > 0 && !IsSpace(text[0]) && !IsIdBegin(d, text[0]) && !IsDigit(text[0])
    requires Punctuation(text[0]).None?
    ensures Scan(d, text) == Scanned(Failure(FailedToScanToken), text)
  {
    NoSpaceToSkip(text);
    assert ScanFrom(d, text) == Scanned(Failure(FailedToScanToken), text);
  }

  /** Nothing but the end is left in the empty text. */
  lemma ScanNothing(d: Dialect)
    ensures Scan(d, []) == Scanned(Success(Token([], End)), [])
  {
  }

  /** The interpreter's copy reads `a_b` as one identifier. */
  lemma InterpreterReadsUnderscore()
    ensures Scan(Interpreter, "a_b") == Scanned(Success(Token("a_b", Identifier)), [])
  {
    var t := "a_b";
    assert t[0] == 'a' && t[1] == '_' && t[2] == 'b';
    ScanWholeWord(Interpreter, t);
  }

  /** The standalone copy reads `a_b` as `a`, leaving `_b`. */
  lemma StandaloneStopsAtUnderscore()
    ensures Scan(Standalone, "a_b") == Scanned(Success(Token("a", Identifier)), "_b")
  {
    var t := "a_b";
    assert t[0] == 'a' && t[1] == '_';
    ScanLetter(Standalone, t);
    assert [t[0]] == "a";
    assert t[1..] == "_b";
  }

  /** The standalone copy then fails on `_`. */
  lemma StandaloneFailsOnUnderscore()
    ensures Scan(Standalone, "_b").token == Failure(FailedToScanToken)
  {
    var t := "_b";
    assert t[0] == '_';
    ScanStray(Standalone, t);
  }

  /** A standalone identifier never contains `_`, and every one is also an identifier of the interpreter's copy. */
  lemma StandaloneWordsAreInterpreterWords(c: char)
    ensures IsId(Standalone, c) ==> IsId(Interpreter, c) && c != '_'
    ensures IsId(Interpreter, c) && c != '_' ==> IsId(Standalone, c)
  {
  }

  /**
   * `Lexer`: the text not yet read, which `inc()` shortens by one character at
   * a time.
   */
  class Lexer {
    const dialect: Dialect
    var text: string

    constructor(dialect: Dialect, text: string)
      ensures this.dialect == dialect && this.text == text
    {
      this.dialect := dialect;
      this.text := text;
    }

    /** `inc()`: asserts the text is not empty and drops its first character. */
    method Inc()
      requires |text| > 0
      modifies this
      ensures text == old(text)[1..]
    {
      text := text[1..];
    }

    /** `skipWhitespace()` */
    method SkipWhitespace()
      modifies this
      ensures text == SkipSpace(old(text))
    {
      ghost var first := text;
      while |text| > 0 && IsSpace(text[0])
        invariant |text| <= |first| && text == first[|first| - |text|..]
        invariant Span(first, Space, |first| - |text|) == Span(first, Space, 0)
        decreases |text|
      {
        Inc();
      }
    }

    /** The identifier loop of `next()`: the word at the front of the text, then its keyword lookup. */
    method ReadWord() returns (r: Result<Token, ScanError>)
      requires |text| > 0 && IsIdBegin(dialect, text[0])
      modifies this
      ensures r == ScanFrom(dialect, old(text)).token
      ensures text == ScanFrom(dialect, old(text)).rest
    {
      var first := text;
      Inc();
      while |text| > 0 && IsId(dialect, text[0])
        invariant |text| < |first| && text == first[|first| - |text|..]
        invariant Span(first, IdChar(dialect), |first| - |text|) == Span(first, IdChar(dialect), 1)
        decreases |text|
      {
        Inc();
      }
      var id := first[..|first| - |text|];
      match Keyword(id)
      case Some(k) => return Success(Token(id, k));
      case None => return Success(Token(id, Identifier));
    }

    /** The digit loop of `next()`. */
    method ReadNumber() returns (r: Result<Token, ScanError>)
      requires |text| > 0 && IsDigit(text[0]) && !IsIdBegin(dialect, text[0])
      modifies this
      ensures r == ScanFrom(dialect, old(text)).token
      ensures text == ScanFrom(dialect, old(text)).rest
    {
      var first := text;
      while |text| > 0 && IsDigit(text[0])
        invariant |text| <= |first| && text == first[|first| - |text|..]
        invariant Span(first, Digit, |first| - |text|) == Span(first, Digit, 0)
        decreases |text|
      {
        Inc();
      }
      return Success(Token(first[..|first| - |text|], NumericLiteral));
    }

    /** `next()`: the next token, or the error it throws; the text afterwards is what `Scan` leaves. */
    method Next() returns (r: Result<Token, ScanError>)
      modifies this
      ensures r == Scan(dialect, old(text)).token
      ensures text == Scan(dialect, old(text)).rest
    {
      SkipWhitespace();
      if |text| == 0 {
        return Success(Token("", End));
      }
      if IsIdBegin(dialect, text[0]) {
        r := ReadWord();
        return;
      }
      if IsDigit(text[0]) {
        r := ReadNumber();
        return;
      }
      var first := text;
      match Punctuation(first[0])
      case Some(k) =>
        Inc();
        return Success(Token(first[..1], k));
      case None =>
        return Failure(FailedToScanToken);
    }
  }
}
