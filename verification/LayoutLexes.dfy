/** Every text of the lexical grammar lexes to its tokens, exactly when the lexer's limits admit it. */
module LayoutLexes {
  import opened Wrappers
  import opened Sequences
  import opened Tokens
  import opened Lexer
  import opened Layout
  import Decimal
  import LexerRoundTrip

  // ----- line ends and comments -----

  lemma EolRead(cr: bool, next: string)
    ensures var s := Eol(cr) + next; IsNewline(s[0]) && ConsumeCrlf(s) == Ok(next)
  {
    if cr {
      assert ("\r\n" + next)[2..] == next;
    } else {
      AfterFirst('\n', next);
    }
  }

  lemma {:induction false} HashRead(c: string, cr: bool, next: string)
    requires OneLine(c)
    ensures HashComment(c + (Eol(cr) + next)) == Ok(next)
    decreases |c|
  {
    var eol := Eol(cr) + next;
    if c == "" {
      EolRead(cr, next);
      assert c + eol == eol;
    } else {
      HashRead(c[1..], cr, next);
      assert c + eol == [c[0]] + (c[1..] + eol);
      AfterFirst(c[0], c[1..] + eol);
    }
  }

  lemma {:induction false} HashEnds(c: string)
    requires OneLine(c)
    ensures HashComment(c) == Ok("")
    decreases |c|
  {
    if c != "" {
      HashEnds(c[1..]);
    }
  }

  lemma {:induction false} BlockRead(c: string, wasStar: bool, next: string)
    requires NoStarSlash(c) && (wasStar && c != "" ==> c[0] != '/')
    ensures BlockComment(c + ("*/" + next), wasStar) == Ok(next)
    decreases |c|
  {
    var close := "*/" + next;
    if c == "" {
      assert c + close == close && close[1..] == "/" + next;
      AfterFirst('/', next);
    } else {
      BlockRead(c[1..], c[0] == '*', next);
      assert c + close == [c[0]] + (c[1..] + close);
      AfterFirst(c[0], c[1..] + close);
    }
  }

  // ----- quoted strings -----

  lemma {:induction false} GlyphRead(g: Glyph, acc: string, next: string, max: int)
    requires GlyphOk(g) && Fits(max, |acc|)
    ensures Quoted(GlyphText(g) + next, false, acc, max)
         == if Fits(max, |acc + GlyphValue(g)|) then Quoted(next, false, acc + GlyphValue(g), max) else Err
  {
    match g
    case Bare(c) => AfterFirst(c, next);
    case Escaped(c) =>
      assert ['\\', c] + next == ['\\'] + ([c] + next);
      AfterFirst('\\', [c] + next);
      AfterFirst(c, next);
    case NewLine(escaped, cr) =>
      EolRead(cr, next);
      if escaped {
        assert GlyphText(g) + next == ['\\'] + (Eol(cr) + next);
        AfterFirst('\\', Eol(cr) + next);
      } else {
        assert GlyphText(g) + next == Eol(cr) + next;
      }
  }

  lemma {:induction false} GlyphsRead(gs: seq<Glyph>, acc: string, next: string, max: int)
    requires GlyphsOk(gs) && Fits(max, |acc|)
    ensures Quoted(GlyphsText(gs) + ("\"" + next), false, acc, max)
         == if Fits(max, |acc + GlyphsValue(gs)|) then Ok((acc + GlyphsValue(gs), next)) else Err
    decreases |gs|
  {
    var close := "\"" + next;
    if gs == [] {
      assert GlyphsText(gs) + close == close && acc + GlyphsValue(gs) == acc;
      AfterFirst('"', next);
    } else {
      var v := GlyphValue(gs[0]);
      Associate(GlyphText(gs[0]), GlyphsText(gs[1..]), close);
      GlyphRead(gs[0], acc, GlyphsText(gs[1..]) + close, max);
      Associate(acc, v, GlyphsValue(gs[1..]));
      if Fits(max, |acc + v|) {
        GlyphsRead(gs[1..], acc + v, next, max);
      }
    }
  }

  // ----- multi-line literals -----

  lemma {:induction false} BlanksRead(gap: string, next: string)
    requires forall i :: 0 <= i < |gap| ==> IsBlank(gap[i])
    ensures TextLine(gap + next) == TextLine(next)
    decreases |gap|
  {
    if gap == "" {
      assert gap + next == next;
    } else {
      BlanksRead(gap[1..], next);
      assert gap + next == [gap[0]] + (gap[1..] + next);
      AfterFirst(gap[0], gap[1..] + next);
    }
  }

  lemma {:induction false} RemarkRead(remark: Option<string>, cr: bool, next: string)
    requires remark.Some? ==> OneLine(remark.value)
    ensures TextLine(RemarkText(remark) + Eol(cr) + next) == Ok(next)
  {
    EolRead(cr, next);
    Associate(RemarkText(remark), Eol(cr), next);
    if remark.Some? {
      HashRead(remark.value, cr, next);
      Associate("#", remark.value, Eol(cr) + next);
      AfterFirst('#', remark.value + (Eol(cr) + next));
    } else {
      assert "" + (Eol(cr) + next) == Eol(cr) + next;
    }
  }

  lemma {:induction false} GapRead(gap: string, remark: Option<string>, cr: bool, next: string)
    requires (forall i :: 0 <= i < |gap| ==> IsBlank(gap[i])) && (remark.Some? ==> OneLine(remark.value))
    ensures TextLine(GapText(gap, remark, cr) + next) == Ok(next)
  {
    Associate(gap, RemarkText(remark) + Eol(cr), next);
    BlanksRead(gap, RemarkText(remark) + Eol(cr) + next);
    RemarkRead(remark, cr, next);
  }

  /** From the middle of a line to the start of the next. */
  lemma {:induction false} RestRead(raw: string, cr: bool, acc: string, next: string, max: int)
    requires OneLine(raw) && Fits(max, |acc|)
    ensures Multiline(raw + (Eol(cr) + next), false, false, acc, max)
         == if Fits(max, |acc + (raw + "\r\n")|) then Multiline(next, true, false, acc + (raw + "\r\n"), max) else Err
    decreases |raw|
  {
    var eol := Eol(cr) + next;
    if raw == "" {
      EolRead(cr, next);
      assert raw + eol == eol && raw + "\r\n" == "\r\n";
    } else {
      assert raw + eol == [raw[0]] + (raw[1..] + eol);
      AfterFirst(raw[0], raw[1..] + eol);
      assert acc + (raw + "\r\n") == (acc + [raw[0]]) + (raw[1..] + "\r\n");
      if Fits(max, |acc| + 1) {
        RestRead(raw[1..], cr, acc + [raw[0]], next, max);
      }
    }
  }

  /** A whole later line. */
  lemma {:induction false} LineRead(raw: string, cr: bool, acc: string, next: string, max: int)
    requires OneLine(raw) && raw != "." && Fits(max, |acc|)
    ensures Multiline(raw + (Eol(cr) + next), true, false, acc, max)
         == if Fits(max, |acc + LineValue(raw)|) then Multiline(next, true, false, acc + LineValue(raw), max) else Err
  {
    if raw != "" && raw[0] == '.' {
      DottedLineRead(raw, cr, acc, next, max);
    } else {
      PlainLineRead(raw, cr, acc, next, max);
    }
  }

  lemma {:induction false} PlainLineRead(raw: string, cr: bool, acc: string, next: string, max: int)
    requires OneLine(raw) && (raw == "" || raw[0] != '.') && Fits(max, |acc|)
    ensures Multiline(raw + (Eol(cr) + next), true, false, acc, max)
         == Multiline(raw + (Eol(cr) + next), false, false, acc, max)
    ensures Multiline(raw + (Eol(cr) + next), true, false, acc, max)
         == if Fits(max, |acc + LineValue(raw)|) then Multiline(next, true, false, acc + LineValue(raw), max) else Err
  {
    RestRead(raw, cr, acc, next, max);
    EolRead(cr, next);
    if raw == "" {
      assert raw + (Eol(cr) + next) == Eol(cr) + next;
    } else {
      assert (raw + (Eol(cr) + next))[0] == raw[0];
    }
  }

  lemma {:induction false} DottedLineRead(raw: string, cr: bool, acc: string, next: string, max: int)
    requires OneLine(raw) && |raw| >= 2 && raw[0] == '.' && Fits(max, |acc|)
    ensures Multiline(raw + (Eol(cr) + next), true, false, acc, max)
         == if Fits(max, |acc + LineValue(raw)|) then Multiline(next, true, false, acc + LineValue(raw), max) else Err
  {
    var eol, c, tail := Eol(cr) + next, raw[1], raw[2..];
    assert raw + eol == ['.'] + ([c] + (tail + eol));
    AfterFirst('.', [c] + (tail + eol));
    AfterFirst(c, tail + eol);
    var kept := if c == '.' then acc + "." else acc + "." + [c];
    assert acc + LineValue(raw) == kept + (tail + "\r\n");
    if Fits(max, |kept|) {
      RestRead(tail, cr, kept, next, max);
    }
  }

  lemma {:induction false} LinesRead(ls: seq<Line>, last: bool, acc: string, next: string, max: int)
    requires LinesOk(ls) && Fits(max, |acc|)
    ensures Multiline(LinesText(ls) + ("." + (Eol(last) + next)), true, false, acc, max)
         == if Fits(max, |acc + LinesValue(ls)|) then Ok((acc + LinesValue(ls), next)) else Err
    decreases |ls|
  {
    var close := "." + (Eol(last) + next);
    if ls == [] {
      assert LinesText(ls) + close == close && acc + LinesValue(ls) == acc;
      AfterFirst('.', Eol(last) + next);
      EolRead(last, next);
    } else {
      var v := LineValue(ls[0].raw);
      Associate4(ls[0].raw, Eol(ls[0].cr), LinesText(ls[1..]), close);
      LineRead(ls[0].raw, ls[0].cr, acc, LinesText(ls[1..]) + close, max);
      Associate(acc, v, LinesValue(ls[1..]));
      if Fits(max, |acc + v|) {
        LinesRead(ls[1..], last, acc + v, next, max);
      }
    }
  }

  lemma {:induction false} BodyRead(first: Line, more: seq<Line>, last: bool, next: string, max: int)
    requires OneLine(first.raw) && LinesOk(more)
    ensures var v := first.raw + "\r\n" + LinesValue(more);
            Multiline(LineText(first) + (LinesText(more) + ("." + (Eol(last) + next))), false, false, "", max)
            == if Fits(max, |v|) then Ok((v, next)) else Err
  {
    var tail := LinesText(more) + ("." + (Eol(last) + next));
    var v := first.raw + "\r\n";
    Associate(first.raw, Eol(first.cr), tail);
    RestRead(first.raw, first.cr, "", tail, max);
    assert "" + v == v;
    if Fits(max, |v|) {
      LinesRead(more, last, v, next, max);
    }
  }

  // ----- one element is one turn -----

  predicate Counted(e: Element) {
    !e.Blank? && !e.Literal?
  }

  /** What a turn itself may refuse: a short peek or a long string. */
  predicate TurnOk(e: Element, next: string, max: int)
    requires ElementOk(e)
  {
    match e
    case Word(text) => text[0] == 't' ==> |text + next| >= 5
    case Quote(_) => SizeFits(max, |ElementTokens(e)[0].text|)
    case Literal(_, _, _, _, _, _) => SizeFits(max, |ElementTokens(e)[0].text|)
    case _ => true
  }

  predicate IsTurn(e: Element, next: string, max: int)
    requires ElementOk(e)
  {
    && ElementText(e) + next != ""
    && NextTurn(ElementText(e) + next, max)
       == if TurnOk(e, next, max) then Turn(ElementTokens(e), next, Counted(e)) else Fail
  }

  lemma LayoutTurn(e: Element, next: string, max: int)
    requires e.Blank? || e.Break?
    ensures IsTurn(e, next, max)
  {
    match e
    case Blank(tab) => AfterFirst(if tab then '\t' else ' ', next);
    case Break(cr) => EolRead(cr, next);
  }

  lemma CommentTurn(e: Element, next: string, max: int)
    requires (e.Hash? || e.Block?) && ElementOk(e)
    ensures IsTurn(e, next, max)
  {
    match e
    case Hash(comment, cr) =>
      HashRead(comment, cr, next);
      Associate4("#", comment, Eol(cr), next);
      AfterFirst('#', comment + (Eol(cr) + next));
    case Block(comment) =>
      var body := comment + ("*/" + next);
      BlockRead(comment, false, next);
      Associate4("/*", comment, "*/", next);
      assert ("/*" + body)[2..] == body;
  }

  lemma DigitsTurn(digits: string, suffix: string, next: string, max: int)
    requires ElementOk(Digits(digits, suffix)) && Separate(Digits(digits, suffix), next)
    ensures IsTurn(Digits(digits, suffix), next, max)
  {
    var tail := suffix + next;
    Associate(digits, suffix, next);
    SuffixEnds(suffix, next);
    Decimal.DigitLengthOf(digits, tail);
    LexerRoundTrip.NumberTokenAt(digits, tail);
    assert (digits + tail)[0] == digits[0];
    NumberIsWord(digits + tail, max);
  }

  lemma NumberIsWord(s: string, max: int)
    requires s != "" && Decimal.IsDigit(s[0]) && NumberToken(s).Ok?
    ensures NextTurn(s, max) == Turn([NumberToken(s).value.0], NumberToken(s).value.1, true)
  {
  }

  lemma SuffixEnds(suffix: string, next: string)
    requires ElementOk(Digits("0", suffix)) && Separate(Digits("0", suffix), next)
    ensures var tail := suffix + next;
            && (tail != "" ==> !Decimal.IsDigit(tail[0]))
            && (if tail != "" && QuantifierOf(tail[0]).Some?
                then QuantifierOf(tail[0]).value == SuffixQuantifier(suffix) && tail[1..] == next
                else SuffixQuantifier(suffix) == Unit && tail == next)
  {
    if suffix == "" {
      assert suffix + next == next;
    } else {
      AfterFirst(suffix[0], next);
      assert suffix == [suffix[0]];
    }
  }

  lemma QuoteTurn(glyphs: seq<Glyph>, next: string, max: int)
    requires GlyphsOk(glyphs)
    ensures IsTurn(Quote(glyphs), next, max)
  {
    var body := GlyphsText(glyphs) + ("\"" + next);
    GlyphsRead(glyphs, "", next, max);
    assert "" + GlyphsValue(glyphs) == GlyphsValue(glyphs);
    Associate4("\"", GlyphsText(glyphs), "\"", next);
    AfterFirst('"', body);
    LexerRoundTrip.QuoteTurn("\"" + body, max);
  }

  lemma LiteralTurn(e: Element, next: string, max: int)
    requires e.Literal? && ElementOk(e)
    ensures IsTurn(e, next, max)
  {
    var gap := GapText(e.gap, e.remark, e.head);
    var body := LineText(e.first) + (LinesText(e.more) + ("." + (Eol(e.last) + next)));
    LiteralSplit(e, next);
    GapRead(e.gap, e.remark, e.head, body);
    BodyRead(e.first, e.more, e.last, next, max);
    TextTurnAt(gap + body, max);
  }

  lemma LiteralSplit(e: Element, next: string)
    requires e.Literal?
    ensures ElementText(e) + next
         == "text:" + (GapText(e.gap, e.remark, e.head)
                       + (LineText(e.first) + (LinesText(e.more) + ("." + (Eol(e.last) + next)))))
  {
    var gap, first, more := GapText(e.gap, e.remark, e.head), LineText(e.first), LinesText(e.more);
    Associate6("text:", gap, first, more, "." + Eol(e.last), next);
    Associate(".", Eol(e.last), next);
    Regroup("text:", gap, first, more, "." + Eol(e.last));
  }

  lemma Regroup(a: string, b: string, c: string, d: string, e: string)
    ensures a + (b + (c + (d + e))) == a + b + c + d + e
  {
    Associate4(a + b, c, d, e);
    Associate(a, b, c + (d + e));
  }

  lemma TextTurnAt(s: string, max: int)
    ensures NextTurn("text:" + s, max) == TextTurn(s, max)
  {
    var all := "text:" + s;
    assert all[1..5] == "ext:" && all[5..] == s;
  }

  lemma MarkTurn(t: Token, next: string, max: int)
    requires MarkText(t) != ""
    ensures IsTurn(Mark(t), next, max)
  {
    AfterFirst(MarkText(t)[0], next);
  }

  lemma ElementTurn(e: Element, next: string, max: int)
    requires ElementOk(e) && Separate(e, next)
    ensures IsTurn(e, next, max)
  {
    match e
    case Blank(_) => LayoutTurn(e, next, max);
    case Break(_) => LayoutTurn(e, next, max);
    case Hash(_, _) => CommentTurn(e, next, max);
    case Block(_) => CommentTurn(e, next, max);
    case Word(text) => LexerRoundTrip.IdentifierTurn(text, next, max);
    case Digits(digits, suffix) => DigitsTurn(digits, suffix, next, max);
    case Quote(glyphs) => QuoteTurn(glyphs, next, max);
    case Literal(_, _, _, _, _, _) => LiteralTurn(e, next, max);
    case Mark(mark) => MarkTurn(mark, next, max);
  }

  // ----- the whole text -----

  lemma {:induction false} ElementStep(e: Element, next: string, opts: Options, n: nat)
    requires ElementOk(e) && Separate(e, next)
    ensures LexFrom(ElementText(e) + next, opts, n)
         == if Admits(e, next, opts.maxTokens, opts.maxStringBytes, n)
            then Prepend(ElementTokens(e), LexFrom(next, opts, n + |ElementTokens(e)|)) else Err
  {
    ElementTurn(e, next, opts.maxStringBytes);
  }

  lemma {:induction false} EndRead(end: Option<string>, opts: Options, n: nat)
    requires end.Some? ==> OneLine(end.value)
    ensures LexFrom(EndText(end), opts, n)
         == if end.Some? && !CountFits(opts.maxTokens, n) then Err else Ok([])
  {
    if end.Some? {
      AfterFirst('#', end.value);
      HashEnds(end.value);
      assert NextTurn("#" + end.value, opts.maxStringBytes) == Turn([], "", true);
      assert LexFrom("", opts, n) == Ok([]);
      PrependNothing(Ok([]));
      assert AfterTurn(Turn([], "", true), opts, n) == if CountFits(opts.maxTokens, n) then Ok([]) else Err;
    }
  }

  lemma {:induction false} LayoutFrom(es: seq<Element>, end: Option<string>, opts: Options, n: nat)
    requires ElementsOk(es) && Separated(es, EndText(end)) && (end.Some? ==> OneLine(end.value))
    ensures LexFrom(WholeText(es, end), opts, n)
         == if AllAdmitted(es, end, opts.maxTokens, opts.maxStringBytes, n) then Ok(ElementsTokens(es)) else Err
    decreases |es|
  {
    if es == [] {
      assert WholeText(es, end) == EndText(end);
      EndRead(end, opts, n);
    } else {
      var next, out := WholeText(es[1..], end), ElementTokens(es[0]);
      Associate(ElementText(es[0]), ElementsText(es[1..]), EndText(end));
      ElementStep(es[0], next, opts, n);
      LayoutFrom(es[1..], end, opts, n + |out|);
    }
  }

  /** A text of the grammar lexes to its tokens, whatever stands between them, or fails exactly by a peek or a limit. */
  lemma {:induction false} LayoutLexesToTokens(es: seq<Element>, end: Option<string>, opts: Options)
    requires ElementsOk(es) && Separated(es, EndText(end)) && (end.Some? ==> OneLine(end.value))
    ensures Lex(WholeText(es, end), opts)
         == if AllAdmitted(es, end, opts.maxTokens, opts.maxStringBytes, 0) then Ok(ElementsTokens(es)) else Err
  {
    LayoutFrom(es, end, opts, 0);
  }
}
