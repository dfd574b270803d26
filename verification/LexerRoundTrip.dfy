/** Lexing undoes writing. */
module LexerRoundTrip {
  import opened Sequences
  import opened Wrappers
  import opened Tokens
  import opened Decimal
  import opened Lexer
  import opened Writer

  // ----- what lexing can yield -----

  lemma {:induction false} QuotedIsCrlfOnly(s: string, escaped: bool, acc: string, max: int)
    requires CrlfOnly(acc) && Fits(max, |acc|)
    ensures var r := Quoted(s, escaped, acc, max);
            r.Ok? ==> CrlfOnly(r.value.0) && Fits(max, |r.value.0|)
    decreases |s|
  {
    if s == "" {
    } else if IsNewline(s[0]) {
      var c := ConsumeCrlf(s);
      if c.Ok? && Fits(max, |acc| + 2) {
        CrlfOnlyConcat(acc, "\r\n");
        QuotedIsCrlfOnly(c.value, false, acc + "\r\n", max);
      }
    } else if s[0] == '\\' && !escaped {
      QuotedIsCrlfOnly(s[1..], true, acc, max);
    } else if s[0] == '"' && !escaped {
    } else if Fits(max, |acc| + 1) {
      CrlfOnlyConcat(acc, [s[0]]);
      QuotedIsCrlfOnly(s[1..], false, acc + [s[0]], max);
    }
  }

  lemma {:induction false} MultilineIsCrlfOnly(s: string, atLF: bool, hadDot: bool, acc: string, max: int)
    requires CrlfOnly(acc) && Fits(max, |acc|)
    ensures var r := Multiline(s, atLF, hadDot, acc, max);
            r.Ok? ==> CrlfOnly(r.value.0) && Fits(max, |r.value.0|)
    decreases |s|
  {
    if s == "" {
    } else if s[0] == '.' {
      if atLF {
        MultilineIsCrlfOnly(s[1..], false, true, acc, max);
      } else if Fits(max, |acc| + 1) {
        CrlfOnlyConcat(acc, ".");
        MultilineIsCrlfOnly(s[1..], false, false, acc + ".", max);
      }
    } else if IsNewline(s[0]) {
      var c := ConsumeCrlf(s);
      if c.Ok? && !hadDot && Fits(max, |acc| + 2) {
        CrlfOnlyConcat(acc, "\r\n");
        MultilineIsCrlfOnly(c.value, true, false, acc + "\r\n", max);
      }
    } else {
      CrlfOnlyConcat(acc, ".");
      var dotted := if hadDot then acc + "." else acc;
      CrlfOnlyConcat(dotted, [s[0]]);
      if Fits(max, |dotted| + 1) {
        MultilineIsCrlfOnly(s[1..], false, false, dotted + [s[0]], max);
      }
    }
  }

  predicate StringFits(t: Token, max: int) {
    t.String? ==> Fits(max, |t.text|)
  }

  /** The tokens some input lexes to under a string limit. */
  predicate Lexable(toks: seq<Token>, max: int) {
    forall i :: 0 <= i < |toks| ==> Spellable(toks[i]) && StringFits(toks[i], max)
  }

  lemma TurnIsLexable(s: string, max: int)
    requires s != ""
    ensures var t := NextTurn(s, max); t.Turn? ==> Lexable(t.out, max)
  {
    if s[0] == '"' {
      QuotedIsCrlfOnly(s[1..], false, "", max);
    } else if s[0] == 't' && |s| >= 5 && TextLine(s[5..]).Ok? {
      MultilineIsCrlfOnly(TextLine(s[5..]).value, false, false, "", max);
    }
  }

  /** Every successful run yields only spellable tokens: CR and LF only in pairs, and so on. */
  lemma {:induction false} LexYieldsLexable(s: string, opts: Options, n: nat)
    ensures var r := LexFrom(s, opts, n); r.Ok? ==> Lexable(r.value, opts.maxStringBytes)
    decreases |s|, 1
  {
    if s != "" {
      TurnIsLexable(s, opts.maxStringBytes);
      TurnYieldsLexable(NextTurn(s, opts.maxStringBytes), opts, n);
    }
  }

  lemma {:induction false} TurnYieldsLexable(t: Turn, opts: Options, n: nat)
    requires t.Turn? ==> Lexable(t.out, opts.maxStringBytes)
    ensures var r := AfterTurn(t, opts, n); r.Ok? ==> Lexable(r.value, opts.maxStringBytes)
    decreases if t.Turn? then |t.rest| + 1 else 1, 0
  {
    if t.Turn? {
      var later := LexFrom(t.rest, opts, n + |t.out|);
      LexYieldsLexable(t.rest, opts, n + |t.out|);
      LexableJoin(AfterTurn(t, opts, n), t, later, opts.maxStringBytes);
    }
  }

  lemma LexableJoin(r: Result<seq<Token>>, t: Turn, later: Result<seq<Token>>, max: int)
    requires t.Turn? && Lexable(t.out, max) && (later.Ok? ==> Lexable(later.value, max))
    requires r == Err || r == Prepend(t.out, later)
    ensures r.Ok? ==> Lexable(r.value, max)
  {
  }

  // ----- one written token is one turn -----

  lemma {:induction false} IdentLengthOf(text: string, rest: string)
    requires (forall i :: 0 <= i < |text| ==> IsIdentChar(text[i])) && (rest != "" ==> !IsIdentChar(rest[0]))
    ensures IdentLength(text + rest) == |text|
  {
    if text == "" {
      assert text + rest == rest;
    } else {
      IdentLengthOf(text[1..], rest);
      assert (text + rest)[1..] == text[1..] + rest;
    }
  }

  lemma NumberTurn(t: Token, rest: string)
    requires t.Number? && Spellable(t)
    ensures NumberTokenStart(t)
    ensures NumberToken(TokenText(t) + " " + rest) == Ok((t, " " + rest))
  {
    var digits, tail := Numeral(t.value), QuantifierText(t.quantifier) + (" " + rest);
    NumeralRoundTrip(t.value);
    Associate4(digits, QuantifierText(t.quantifier), " ", rest);
    assert TokenText(t) + " " + rest == digits + tail;
    TailOfNumber(t.quantifier, rest);
    DigitLengthOf(digits, tail);
    NumberTokenAt(digits, tail);
  }

  lemma TailOfNumber(q: Quantifier, rest: string)
    ensures var tail := QuantifierText(q) + (" " + rest);
            && !IsDigit(tail[0]) && QuantifierOf(tail[0]) == (if q.Unit? then None else Some(q))
            && (if q.Unit? then tail else tail[1..]) == " " + rest
  {
    if !q.Unit? {
      AfterFirst(QuantifierText(q)[0], " " + rest);
    }
  }

  lemma {:induction false} NumberTokenAt(digits: string, tail: string)
    requires digits != "" && AllDigits(digits) && Value(digits) <= MAX_INT
    requires DigitLength(digits + tail) == |digits|
    ensures NumberToken(digits + tail)
         == Ok(if tail != "" && QuantifierOf(tail[0]).Some?
               then (Number(Value(digits), QuantifierOf(tail[0]).value), tail[1..])
               else (Number(Value(digits), Unit), tail))
  {
    var s, n := digits + tail, |digits|;
    assert s[..n] == digits && s[n..] == tail;
    if tail != "" {
      assert s[n] == tail[0] && s[n + 1..] == tail[1..];
    }
  }

  predicate NumberTokenStart(t: Token) {
    TokenText(t) != "" && IsDigit(TokenText(t)[0])
  }

  lemma {:induction false} QuotedOfEscaped(text: string, acc: string, rest: string, max: int)
    requires CrlfOnly(text) && Fits(max, |acc|)
    ensures Quoted(Escape(text) + "\"" + rest, false, acc, max)
         == if Fits(max, |acc| + |text|) then Ok((acc + text, rest)) else Err
    decreases |text|
  {
    var s := Escape(text) + "\"" + rest;
    if text == "" {
      assert s[1..] == rest && acc + text == acc;
    } else if text[0] == '\r' {
      QuotedOfCrlf(text, acc, rest, max);
      if Fits(max, |acc| + 2) {
        QuotedOfEscaped(text[2..], acc + "\r\n", rest, max);
        assert acc + "\r\n" + text[2..] == acc + text;
      }
    } else {
      QuotedOfEscapedChar(text, acc, rest, max);
      if Fits(max, |acc| + 1) {
        QuotedOfEscaped(text[1..], acc + [text[0]], rest, max);
        assert acc + [text[0]] + text[1..] == acc + text;
      }
    }
  }

  lemma {:induction false} EscapedCrlf(text: string)
    requires |text| >= 2 && text[0] == '\r' && text[1] == '\n'
    ensures Escape(text) == "\r\n" + Escape(text[2..])
  {
    assert text[1..][1..] == text[2..];
    EscapeUnfolds(text);
    EscapeUnfolds(text[1..]);
    Associate("\r", "\n", Escape(text[2..]));
  }

  lemma {:induction false} EscapeUnfolds(text: string)
    requires text != "" && text[0] != '"' && text[0] != '\\'
    ensures Escape(text) == [text[0]] + Escape(text[1..])
  {
  }

  lemma {:induction false} QuotedOfCrlf(text: string, acc: string, rest: string, max: int)
    requires |text| >= 2 && text[0] == '\r' && text[1] == '\n'
    ensures Quoted(Escape(text) + "\"" + rest, false, acc, max)
         == if Fits(max, |acc| + 2) then Quoted(Escape(text[2..]) + "\"" + rest, false, acc + "\r\n", max) else Err
  {
    EscapedCrlf(text);
    var s, tail := Escape(text) + "\"" + rest, Escape(text[2..]) + "\"" + rest;
    assert s == "\r\n" + tail;
    assert s[2..] == tail;
  }

  lemma {:induction false} QuotedOfEscapedChar(text: string, acc: string, rest: string, max: int)
    requires text != "" && !IsNewline(text[0])
    ensures Quoted(Escape(text) + "\"" + rest, false, acc, max)
         == if Fits(max, |acc| + 1) then Quoted(Escape(text[1..]) + "\"" + rest, false, acc + [text[0]], max) else Err
  {
    var s := Escape(text) + "\"" + rest;
    var tail := Escape(text[1..]) + "\"" + rest;
    if text[0] == '"' || text[0] == '\\' {
      assert s == ['\\', text[0]] + tail;
      assert s[1..] == [text[0]] + tail;
      assert s[1..][1..] == tail;
    } else {
      assert s == [text[0]] + tail;
      assert s[1..] == tail;
    }
  }

  /** A t-initial identifier is read only when four more bytes can be peeked at. */
  predicate Peekable(t: Token, rest: string) {
    t.Identifier? && t.text != "" && t.text[0] == 't' ==> |t.text| + 1 + |rest| >= 5
  }

  /** What follows an identifier must end it, and must not make it the start of a multi-line literal. */
  predicate EndsWord(text: string, rest: string) {
    rest == "" || (!IsIdentChar(rest[0]) && !(text == "text" && rest[0] == ':'))
  }

  lemma IdentifierTurn(text: string, rest: string, max: int)
    requires IsIdentifier(text) && EndsWord(text, rest)
    ensures NextTurn(text + rest, max)
         == if text[0] == 't' && |text + rest| < 5 then Fail else Turn([Identifier(text)], rest, true)
  {
    var s := text + rest;
    assert s[0] == text[0];
    IdentifierWord(text, rest);
    if |s| >= 5 && s[0] == 't' {
      IdentifierIsNotText(text, rest);
    }
    LetterTurn(s, max);
  }

  lemma LetterTurn(s: string, max: int)
    requires s != "" && IsAlpha(s[0])
    requires |s| >= 5 && s[0] == 't' ==> s[1..5] != "ext:"
    ensures NextTurn(s, max) == if s[0] == 't' && |s| < 5 then Fail else WordTurn(s)
  {
  }

  lemma IdentifierWord(text: string, rest: string)
    requires IsIdentifier(text) && EndsWord(text, rest)
    ensures WordTurn(text + rest) == Turn([Identifier(text)], rest, true)
  {
    assert (text + rest)[0] == text[0];
    IdentLengthOf(text, rest);
    Parted(text, rest);
  }

  lemma IdentifierIsNotText(text: string, rest: string)
    requires IsIdentifier(text) && EndsWord(text, rest) && |text + rest| >= 5 && text[0] == 't'
    ensures (text + rest)[1..5] != "ext:"
  {
    var s := text + rest;
    if |text| >= 5 {
      assert s[1..5][3] == text[4];
    } else if |text| == 4 {
      assert s[1..5][3] == rest[0];
      assert text[1..] == s[1..5][..3];
      assert text == [text[0]] + text[1..];
      assert "text" == "t" + "ext" && "ext:"[..3] == "ext";
    } else {
      assert s[1..5][|text| - 1] == rest[0];
    }
  }

  lemma {:induction false} QuoteTurn(s: string, max: int)
    requires s != "" && s[0] == '"'
    ensures NextTurn(s, max) == StringTurn(Quoted(s[1..], false, "", max), true)
  {
  }

  lemma QuoteTail(e: string, rest: string)
    ensures ("\"" + e + "\"" + " " + rest)[1..] == e + "\"" + (" " + rest)
  {
  }

  lemma {:induction false} StringTurnOf(text: string, rest: string, max: int)
    requires CrlfOnly(text)
    ensures NextTurn(FormatString(text) + " " + rest, max)
         == if Fits(max, |text|) then Turn([String(text)], " " + rest, true) else Fail
  {
    QuoteTurn(FormatString(text) + " " + rest, max);
    QuoteTail(Escape(text), rest);
    QuotedOfEscaped(text, "", " " + rest, max);
    assert "" + text == text;
  }

  lemma PunctuationTurn(c: char, rest: string, max: int)
    requires Punctuation(c).Some?
    ensures NextTurn([c] + " " + rest, max) == Turn([Punctuation(c).value], " " + rest, true)
  {
    assert ([c] + " " + rest)[1..] == " " + rest;
  }

  lemma DigitTurn(t: Token, rest: string, max: int)
    requires t.Number? && Spellable(t)
    ensures NextTurn(TokenText(t) + " " + rest, max) == Turn([t], " " + rest, true)
  {
    NumberTurn(t, rest);
    assert (TokenText(t) + " " + rest)[0] == TokenText(t)[0];
  }

  /** Reading the text of a token gives that token and stops before the space, or fails. */
  lemma TokenTurn(t: Token, rest: string, max: int)
    requires Spellable(t)
    ensures NextTurn(TokenText(t) + " " + rest, max)
         == if Peekable(t, rest) && StringFits(t, max) then Turn([t], " " + rest, true) else Fail
  {
    match t
    case Identifier(text) =>
      IdentifierTurn(text, " " + rest, max);
      Associate(text, " ", rest);
    case Number(_, _) => DigitTurn(t, rest, max);
    case String(text) => StringTurnOf(text, rest, max);
    case _ => PunctuationTurn(TokenText(t)[0], rest, max);
  }

  // ----- the round trip -----

  /** Each t-initial identifier has four bytes after its t in the text that follows. */
  predicate PeeksOk(toks: seq<Token>) {
    forall i :: 0 <= i < |toks| ==> Peekable(toks[i], Text(toks[i + 1..]))
  }

  predicate StringsFit(toks: seq<Token>, max: int) {
    forall i :: 0 <= i < |toks| ==> StringFits(toks[i], max)
  }

  predicate CountOk(n: nat, toks: seq<Token>, opts: Options) {
    toks == [] || opts.maxTokens == 0 || n + |toks| <= opts.maxTokens
  }

  lemma {:induction false} LexFromTokenText(t: Token, rest: string, opts: Options, n: nat)
    requires Spellable(t)
    ensures LexFrom(TokenText(t) + " " + rest, opts, n)
         == if Peekable(t, rest) && StringFits(t, opts.maxStringBytes) && !OverLimit(opts, true, n + 1)
            then Prepend([t], LexFrom(rest, opts, n + 1)) else Err
  {
    TokenTurn(t, rest, opts.maxStringBytes);
    SpaceIsSkipped(rest, opts, n + 1);
  }

  lemma {:induction false} SpaceIsSkipped(rest: string, opts: Options, n: nat)
    ensures LexFrom(" " + rest, opts, n) == LexFrom(rest, opts, n)
  {
    var sp := " " + rest;
    assert sp[1..] == rest;
    assert NextTurn(sp, opts.maxStringBytes) == Turn([], rest, false);
    PrependNothing(LexFrom(rest, opts, n));
  }

  lemma {:induction false} LexTextFrom(toks: seq<Token>, opts: Options, n: nat)
    requires forall i :: 0 <= i < |toks| ==> Spellable(toks[i])
    ensures LexFrom(Text(toks), opts, n)
         == if PeeksOk(toks) && StringsFit(toks, opts.maxStringBytes) && CountOk(n, toks, opts) then Ok(toks) else Err
  {
    if toks != [] {
      var t, tail := toks[0], toks[1..];
      LexTextFrom(tail, opts, n + 1);
      LexFromTokenText(t, Text(tail), opts, n);
      PeeksOkCons(toks);
      assert [t] + tail == toks;
    }
  }

  lemma PeeksOkCons(toks: seq<Token>)
    requires toks != []
    ensures PeeksOk(toks) <==> Peekable(toks[0], Text(toks[1..])) && PeeksOk(toks[1..])
  {
    var tail := toks[1..];
    forall i | 0 <= i < |tail|
      ensures Peekable(tail[i], Text(tail[i + 1..])) == Peekable(toks[i + 1], Text(toks[i + 2..]))
    {
      assert tail[i + 1..] == toks[i + 2..];
    }
    if PeeksOk(toks) {
      forall i | 0 <= i < |tail| ensures Peekable(tail[i], Text(tail[i + 1..])) {
        assert Peekable(toks[i + 1], Text(toks[i + 2..]));
      }
    }
    if Peekable(toks[0], Text(tail)) && PeeksOk(tail) {
      forall i | 0 <= i < |toks| ensures Peekable(toks[i], Text(toks[i + 1..])) {
        if i > 0 {
          assert Peekable(tail[i - 1], Text(tail[i..]));
        }
      }
    }
  }

  /** Lex of Write gives back the tokens, or fails, exactly when a peek comes up short or a limit is hit. */
  lemma {:induction false} LexUndoesWrite(toks: seq<Token>, opts: Options)
    requires forall i :: 0 <= i < |toks| ==> Spellable(toks[i])
    ensures Lex(Text(toks), opts)
         == if PeeksOk(toks) && StringsFit(toks, opts.maxStringBytes) && CountOk(0, toks, opts) then Ok(toks) else Err
  {
    LexTextFrom(toks, opts, 0);
  }

  predicate IsNegative(t: Token) {
    t.Number? && t.value < 0
  }

  lemma {:induction false} MinusTurn(t: Token, rest: string, opts: Options, n: nat)
    requires IsNegative(t)
    ensures LexFrom(TokenText(t) + " " + rest, opts, n) == Err
  {
    assert (TokenText(t) + " " + rest)[0] == '-';
  }

  lemma {:induction false} NegativeNumberFails(toks: seq<Token>, k: nat, opts: Options, n: nat)
    requires k < |toks| && IsNegative(toks[k])
    requires forall i :: 0 <= i < |toks| ==> Spellable(toks[i]) || IsNegative(toks[i])
    ensures LexFrom(Text(toks), opts, n) == Err
    decreases |toks|
  {
    if IsNegative(toks[0]) {
      MinusTurn(toks[0], Text(toks[1..]), opts, n);
    } else {
      NegativeNumberFails(toks[1..], k - 1, opts, n + 1);
      LexFromTokenText(toks[0], Text(toks[1..]), opts, n);
    }
  }

  /** A list with a negative number never lexes again. */
  lemma {:induction false} NegativeNumberIsRefused(toks: seq<Token>, opts: Options)
    requires forall i :: 0 <= i < |toks| ==> Spellable(toks[i]) || IsNegative(toks[i])
    requires exists k :: 0 <= k < |toks| && IsNegative(toks[k])
    ensures Lex(Text(toks), opts) == Err
  {
    var k :| 0 <= k < |toks| && IsNegative(toks[k]);
    NegativeNumberFails(toks, k, opts, 0);
  }

  /** What was lexed once, written and lexed again without limits, comes back whenever no peek comes up short. */
  lemma {:induction false} RelexIsStable(s: string, toks: seq<Token>)
    requires Lex(s, Options(0, 0)) == Ok(toks)
    ensures Lex(Text(toks), Options(0, 0)) == if PeeksOk(toks) then Ok(toks) else Err
  {
    LexYieldsLexable(s, Options(0, 0), 0);
    LexUndoesWrite(toks, Options(0, 0));
  }

  /** So lex_fuzz_test.go is wrong that Lex accepts all Write output: "t" and four spaces lexes, "t " does not. */
  lemma RelexCanFail()
    ensures Lex("t    ", Options(0, 0)) == Ok([Identifier("t")])
    ensures Lex(Text([Identifier("t")]), Options(0, 0)) == Err
  {
    var toks := [Identifier("t")];
    SpacedIdentifierLexes();
    LexUndoesWrite(toks, Options(0, 0));
    assert !Peekable(toks[0], Text(toks[1..]));
  }

  lemma SpacedIdentifierLexes()
    ensures Lex("t    ", Options(0, 0)) == Ok([Identifier("t")])
  {
    var toks, opts := [Identifier("t")], Options(0, 0);
    LexFromTokenText(toks[0], "   ", opts, 0);
    SpacesLexToNothing("   ", opts, 1);
    assert toks + [] == toks;
    assert "t" + " " + "   " == "t    ";
  }

  lemma {:induction false} SpacesLexToNothing(s: string, opts: Options, n: nat)
    requires forall i :: 0 <= i < |s| ==> s[i] == ' '
    ensures LexFrom(s, opts, n) == Ok([])
  {
    if s != "" {
      assert NextTurn(s, opts.maxStringBytes) == Turn([], s[1..], false);
      SpacesLexToNothing(s[1..], opts, n);
      PrependNothing(Ok([]));
    }
  }
}
