/** Every text that lexes is a text of the lexical grammar, so the grammar says exactly what lexes, and to what. */
module LayoutComplete {
  import opened Wrappers
  import opened Sequences
  import opened Tokens
  import opened Lexer
  import opened Layout
  import Decimal
  import LayoutLexes

  // ----- line ends and comments -----

  lemma EolSplit(s: string) returns (cr: bool)
    requires s != "" && IsNewline(s[0]) && ConsumeCrlf(s).Ok?
    ensures s == Eol(cr) + ConsumeCrlf(s).value
  {
    cr := s[0] == '\r';
  }

  lemma {:induction false} HashSplit(s: string) returns (c: string, open: bool, cr: bool)
    requires HashComment(s).Ok?
    ensures OneLine(c)
    ensures if open then s == c && HashComment(s).value == "" else s == c + (Eol(cr) + HashComment(s).value)
    decreases |s|
  {
    if s == "" {
      c, open, cr := "", true, false;
    } else if IsNewline(s[0]) {
      cr := EolSplit(s);
      c, open := "", false;
      assert s == "" + (Eol(cr) + HashComment(s).value);
    } else {
      c, open, cr := HashSplit(s[1..]);
      assert s == [s[0]] + s[1..];
      c := [s[0]] + c;
    }
  }

  /** The comment so far, with the star that was read last. */
  function Starred(s: string, wasStar: bool): string {
    if wasStar then "*" + s else s
  }

  lemma {:induction false} BlockSplit(s: string, wasStar: bool) returns (c: string)
    requires BlockComment(s, wasStar).Ok?
    ensures NoStarSlash(c) && Starred(s, wasStar) == c + ("*/" + BlockComment(s, wasStar).value)
    decreases |s|
  {
    var rest := BlockComment(s, wasStar).value;
    assert s == [s[0]] + s[1..];
    if wasStar && s[0] == '/' {
      c := "";
      assert "*" + s == "" + ("*/" + rest);
    } else {
      c := BlockSplit(s[1..], s[0] == '*');
      var skipped := if s[0] == '*' then "" else [s[0]];
      assert Starred(s, false) == skipped + Starred(s[1..], s[0] == '*');
      var before := Starred(skipped, wasStar);
      assert Starred(s, wasStar) == before + (c + ("*/" + rest));
      BlockJoin(before, c, "*/" + rest, s, wasStar);
      c := before + c;
    }
  }

  lemma BlockJoin(before: string, c: string, close: string, s: string, wasStar: bool)
    requires s != "" && !(wasStar && s[0] == '/') && NoStarSlash(c) && close != "" && close[0] == '*'
    requires before == Starred(if s[0] == '*' then "" else [s[0]], wasStar)
    requires s[0] == '*' ==> (c + close)[0] == '*'
    ensures NoStarSlash(before + c) && before + (c + close) == (before + c) + close
  {
    Associate(before, c, close);
    if c != "" {
      assert (c + close)[0] == c[0];
    }
    forall i | 0 < i < |before + c| ensures !((before + c)[i - 1] == '*' && (before + c)[i] == '/') {
      if i > |before| {
        assert (before + c)[i - 1] == c[i - 1 - |before|] && (before + c)[i] == c[i - |before|];
      }
    }
  }

  // ----- quoted strings -----

  function Slashed(s: string, escaped: bool): string {
    if escaped then "\\" + s else s
  }

  lemma {:induction false} QuotedSplit(s: string, escaped: bool, acc: string, max: int) returns (gs: seq<Glyph>)
    requires Quoted(s, escaped, acc, max).Ok?
    ensures GlyphsOk(gs)
    ensures Slashed(s, escaped) == GlyphsText(gs) + ("\"" + Quoted(s, escaped, acc, max).value.1)
    decreases |s|
  {
    var close := "\"" + Quoted(s, escaped, acc, max).value.1;
    if IsNewline(s[0]) {
      var cr := EolSplit(s);
      var more := QuotedSplit(ConsumeCrlf(s).value, false, acc + "\r\n", max);
      gs := GlyphFirst(NewLine(escaped, cr), more, close);
      SlashedLine(s, escaped, cr, ConsumeCrlf(s).value);
    } else if s[0] == '\\' && !escaped {
      gs := QuotedSplit(s[1..], true, acc, max);
      assert s == "\\" + s[1..];
    } else if s[0] == '"' && !escaped {
      gs := [];
      assert GlyphsText(gs) + close == close && s == "\"" + s[1..];
    } else {
      var more := QuotedSplit(s[1..], false, acc + [s[0]], max);
      gs := GlyphFirst(if escaped then Escaped(s[0]) else Bare(s[0]), more, close);
      SlashedChar(s, escaped);
    }
  }

  lemma SlashedLine(s: string, escaped: bool, cr: bool, next: string)
    requires s == Eol(cr) + next
    ensures Slashed(s, escaped) == GlyphText(NewLine(escaped, cr)) + next
  {
    if escaped {
      Associate("\\", Eol(cr), next);
    } else {
      assert "" + Eol(cr) == Eol(cr);
    }
  }

  lemma SlashedChar(s: string, escaped: bool)
    requires s != ""
    ensures Slashed(s, escaped) == GlyphText(if escaped then Escaped(s[0]) else Bare(s[0])) + s[1..]
  {
  }

  lemma GlyphFirst(g: Glyph, more: seq<Glyph>, close: string) returns (gs: seq<Glyph>)
    requires GlyphOk(g) && GlyphsOk(more)
    ensures GlyphsOk(gs) && GlyphsText(gs) + close == GlyphText(g) + (GlyphsText(more) + close)
  {
    gs := [g] + more;
    AfterFirst(g, more);
    Associate(GlyphText(g), GlyphsText(more), close);
  }

  // ----- multi-line literals -----

  lemma {:induction false} GapSplit(s: string) returns (gap: string, remark: Option<string>, cr: bool)
    requires TextLine(s).Ok? && TextLine(s).value != ""
    ensures (forall i :: 0 <= i < |gap| ==> IsBlank(gap[i])) && (remark.Some? ==> OneLine(remark.value))
    ensures s == GapText(gap, remark, cr) + TextLine(s).value
    decreases |s|
  {
    var rest := TextLine(s).value;
    assert s == [s[0]] + s[1..];
    if IsBlank(s[0]) {
      gap, remark, cr := GapSplit(s[1..]);
      Associate4([s[0]], gap, RemarkText(remark) + Eol(cr), rest);
      Associate([s[0]], gap, RemarkText(remark) + Eol(cr));
      gap := [s[0]] + gap;
    } else if s[0] == '#' {
      var c, open;
      c, open, cr := HashSplit(s[1..]);
      gap, remark := "", Some(c);
      assert GapText(gap, remark, cr) == "#" + c + Eol(cr);
      Associate4("#", c, Eol(cr), rest);
    } else {
      cr := EolSplit(s);
      gap, remark := "", None;
      assert GapText(gap, remark, cr) == Eol(cr);
    }
  }

  /** Later lines, the closing dot and what follows. */
  function Closing(more: seq<Line>, last: bool, rest: string): string {
    LinesText(more) + ("." + (Eol(last) + rest))
  }

  lemma LineFirst(l: Line, more: seq<Line>, last: bool, rest: string)
    requires OneLine(l.raw) && l.raw != "." && LinesOk(more)
    ensures LinesOk([l] + more) && Closing([l] + more, last, rest) == l.raw + (Eol(l.cr) + Closing(more, last, rest))
  {
    AfterFirst(l, more);
    Associate4(l.raw, Eol(l.cr), LinesText(more), "." + (Eol(last) + rest));
  }

  /** From the middle of a line. */
  lemma {:induction false} MidSplit(s: string, acc: string, max: int)
    returns (raw: string, cr: bool, more: seq<Line>, last: bool)
    requires Multiline(s, false, false, acc, max).Ok?
    ensures OneLine(raw) && LinesOk(more)
    ensures s == raw + (Eol(cr) + Closing(more, last, Multiline(s, false, false, acc, max).value.1))
    decreases |s|, 0
  {
    assert s == [s[0]] + s[1..];
    if IsNewline(s[0]) {
      cr := EolSplit(s);
      more, last := StartSplit(ConsumeCrlf(s).value, acc + "\r\n", max);
      raw := "";
      assert "" + s == s;
    } else {
      raw, cr, more, last := MidSplit(s[1..], acc + [s[0]], max);
      Associate([s[0]], raw, Eol(cr) + Closing(more, last, Multiline(s, false, false, acc, max).value.1));
      raw := [s[0]] + raw;
    }
  }

  /** From the start of a later line. */
  lemma {:induction false} StartSplit(s: string, acc: string, max: int) returns (more: seq<Line>, last: bool)
    requires Multiline(s, true, false, acc, max).Ok?
    ensures LinesOk(more) && s == Closing(more, last, Multiline(s, true, false, acc, max).value.1)
    decreases |s|, 1
  {
    if s[0] == '.' {
      assert s == "." + s[1..];
      more, last := DotSplit(s[1..], acc, max);
    } else {
      assert Multiline(s, true, false, acc, max) == Multiline(s, false, false, acc, max);
      var raw, cr;
      raw, cr, more, last := MidSplit(s, acc, max);
      StartsLike(s, raw, cr);
      LineFirst(Line(raw, cr), more, last, Multiline(s, true, false, acc, max).value.1);
      more := [Line(raw, cr)] + more;
    }
  }

  lemma StartsLike(s: string, raw: string, cr: bool)
    requires s != "" && s[0] != '.' && |raw| <= |s| && raw == s[..|raw|]
    ensures raw != "."
  {
  }

  function AfterDotKept(s: string, acc: string): string
    requires s != ""
  {
    if s[0] == '.' then acc + "." else acc + "." + [s[0]]
  }

  lemma {:induction false} AfterDot(s: string, acc: string, max: int)
    requires Multiline(s, false, true, acc, max).Ok? && !IsNewline(s[0])
    ensures Multiline(s[1..], false, false, AfterDotKept(s, acc), max) == Multiline(s, false, true, acc, max)
  {
  }

  lemma DottedFirst(c: char, raw: string, cr: bool, more: seq<Line>, last: bool, rest: string)
    requires !IsNewline(c) && OneLine(raw) && LinesOk(more)
    ensures var line := Line(['.', c] + raw, cr);
            && LinesOk([line] + more)
            && Closing([line] + more, last, rest) == ['.', c] + (raw + (Eol(cr) + Closing(more, last, rest)))
  {
    LineFirst(Line(['.', c] + raw, cr), more, last, rest);
    Associate(['.', c], raw, Eol(cr) + Closing(more, last, rest));
  }

  /** After a dot at the start of a later line. */
  lemma {:induction false} DotSplit(s: string, acc: string, max: int) returns (more: seq<Line>, last: bool)
    requires Multiline(s, false, true, acc, max).Ok?
    ensures LinesOk(more) && "." + s == Closing(more, last, Multiline(s, false, true, acc, max).value.1)
    decreases |s|, 2
  {
    var rest := Multiline(s, false, true, acc, max).value.1;
    assert s == [s[0]] + s[1..];
    if IsNewline(s[0]) {
      last := EolSplit(s);
      more := [];
      assert Closing(more, last, rest) == "." + (Eol(last) + rest);
    } else {
      var raw, cr;
      AfterDot(s, acc, max);
      raw, cr, more, last := MidSplit(s[1..], AfterDotKept(s, acc), max);
      DottedFirst(s[0], raw, cr, more, last, rest);
      assert "." + s == ['.', s[0]] + s[1..];
      more := [Line(['.', s[0]] + raw, cr)] + more;
    }
  }

  lemma LiteralSplit(s: string, max: int) returns (e: Element)
    requires |s| >= 5 && s[..5] == "text:" && TextTurn(s[5..], max).Turn?
    ensures e.Literal? && ElementOk(e) && s == ElementText(e) + TextTurn(s[5..], max).rest
  {
    var body, rest := TextLine(s[5..]).value, TextTurn(s[5..], max).rest;
    var gap, remark, head := GapSplit(s[5..]);
    var raw, cr, more, last := MidSplit(body, "", max);
    e := Literal(gap, remark, head, Line(raw, cr), more, last);
    Associate(raw, Eol(cr), Closing(more, last, rest));
    LayoutLexes.LiteralSplit(e, rest);
    assert s == "text:" + s[5..];
  }

  // ----- one turn -----

  lemma NumberSplit(s: string) returns (e: Element)
    requires s != "" && Decimal.IsDigit(s[0]) && NumberToken(s).Ok?
    ensures ElementOk(e) && Separate(e, NumberToken(s).value.1) && s == ElementText(e) + NumberToken(s).value.1
  {
    var n := Decimal.DigitLength(s);
    assert n > 0;
    Parted(s[..n], s[n..]);
    if n < |s| && QuantifierOf(s[n]).Some? {
      e := Digits(s[..n], [s[n]]);
      assert s == s[..n] + [s[n]] + s[n + 1..];
    } else {
      e := Digits(s[..n], "");
      assert s == s[..n] + "" + s[n..];
    }
  }

  lemma WordSplit(s: string) returns (e: Element)
    requires s != "" && IsAlpha(s[0]) && (|s| >= 5 ==> s[..5] != "text:")
    ensures ElementOk(e) && Separate(e, WordTurn(s).rest) && s == ElementText(e) + WordTurn(s).rest
  {
    var n := IdentLength(s);
    assert n > 0;
    e := Word(s[..n]);
    assert s == s[..n] + s[n..];
    assert |s| >= 5 ==> s[..5] == s[..4] + [s[4]];
    assert "text" + ":" == "text:";
  }

  /** An element of the grammar, or a hash comment that ends the input. */
  predicate IsElement(s: string, rest: string, e: Element, open: bool) {
    if open then s != "" && s[0] == '#' && OneLine(s[1..]) && rest == ""
    else ElementOk(e) && Separate(e, rest) && s == ElementText(e) + rest
  }

  lemma SilentSplit(s: string, max: int) returns (e: Element, open: bool)
    requires s != "" && NextTurn(s, max).Turn? && (IsNewline(s[0]) || s[0] == '#' || s[0] == '/')
    ensures IsElement(s, NextTurn(s, max).rest, e, open)
  {
    var rest := NextTurn(s, max).rest;
    assert s == [s[0]] + s[1..];
    open := false;
    if IsNewline(s[0]) {
      var cr := EolSplit(s);
      e := Break(cr);
    } else if s[0] == '#' {
      var c, cr;
      c, open, cr := HashSplit(s[1..]);
      e := Hash(c, cr);
      Associate4("#", c, Eol(cr), rest);
    } else {
      var c := BlockSplit(s[2..], false);
      e := Block(c);
      assert s == "/*" + s[2..];
      Associate4("/*", c, "*/", rest);
    }
  }

  lemma QuoteSplit(s: string, max: int) returns (e: Element)
    requires s != "" && s[0] == '"' && NextTurn(s, max).Turn?
    ensures IsElement(s, NextTurn(s, max).rest, e, false)
  {
    var rest := NextTurn(s, max).rest;
    var gs := QuotedSplit(s[1..], false, "", max);
    e := Quote(gs);
    assert s == "\"" + s[1..];
    Associate4("\"", GlyphsText(gs), "\"", rest);
  }

  lemma OtherSplit(s: string, max: int) returns (e: Element)
    requires s != "" && NextTurn(s, max).Turn?
    requires !IsNewline(s[0]) && s[0] != '#' && s[0] != '/' && s[0] != '"' && !IsBlank(s[0])
    requires Punctuation(s[0]).None?
    ensures IsElement(s, NextTurn(s, max).rest, e, false)
  {
    if |s| >= 5 && s[0] == 't' && s[1..5] == "ext:" {
      assert s[..5] == ['t'] + s[1..5];
      e := LiteralSplit(s, max);
    } else {
      assert NextTurn(s, max) == WordTurn(s);
      if Decimal.IsDigit(s[0]) {
        e := NumberSplit(s);
      } else {
        assert |s| >= 5 ==> s[..5][1..] == s[1..5] && s[..5][0] == s[0];
        e := WordSplit(s);
      }
    }
  }

  lemma TurnSplit(s: string, max: int) returns (e: Element, open: bool)
    requires s != "" && NextTurn(s, max).Turn?
    ensures IsElement(s, NextTurn(s, max).rest, e, open)
  {
    assert s == [s[0]] + s[1..];
    open := false;
    if Punctuation(s[0]).Some? {
      e := Mark(Punctuation(s[0]).value);
    } else if IsBlank(s[0]) {
      e := Blank(s[0] == '\t');
    } else if IsNewline(s[0]) || s[0] == '#' || s[0] == '/' {
      e, open := SilentSplit(s, max);
    } else if s[0] == '"' {
      e := QuoteSplit(s, max);
    } else {
      e := OtherSplit(s, max);
    }
  }

  // ----- the whole text -----

  predicate InGrammar(es: seq<Element>, end: Option<string>, s: string) {
    && ElementsOk(es) && Separated(es, EndText(end)) && (end.Some? ==> OneLine(end.value))
    && s == WholeText(es, end)
  }

  lemma {:induction false} LexSplit(s: string, opts: Options, n: nat) returns (es: seq<Element>, end: Option<string>)
    requires LexFrom(s, opts, n).Ok?
    ensures InGrammar(es, end, s)
    decreases |s|
  {
    if s == "" {
      es, end := [], None;
    } else {
      var e, open, rest, n' := FirstSplit(s, opts, n);
      if open {
        es, end := [], Some(s[1..]);
        assert s == "#" + s[1..] && WholeText(es, end) == EndText(end);
      } else {
        var more;
        more, end := LexSplit(rest, opts, n');
        ElementFirst(e, more, end, rest);
        es := [e] + more;
      }
    }
  }

  lemma FirstSplit(s: string, opts: Options, n: nat) returns (e: Element, open: bool, rest: string, n': nat)
    requires s != "" && LexFrom(s, opts, n).Ok?
    ensures IsElement(s, rest, e, open) && |rest| < |s| && LexFrom(rest, opts, n').Ok?
  {
    var t := NextTurn(s, opts.maxStringBytes);
    AfterOk(t, opts, n);
    e, open := TurnSplit(s, opts.maxStringBytes);
    rest, n' := t.rest, n + |t.out|;
  }

  lemma {:induction false} AfterOk(t: Turn, opts: Options, n: nat)
    requires AfterTurn(t, opts, n).Ok?
    ensures t.Turn? && LexFrom(t.rest, opts, n + |t.out|).Ok?
  {
  }

  lemma ElementFirst(e: Element, more: seq<Element>, end: Option<string>, rest: string)
    requires ElementOk(e) && Separate(e, rest) && InGrammar(more, end, rest)
    ensures InGrammar([e] + more, end, ElementText(e) + rest)
  {
    AfterFirst(e, more);
    Associate(ElementText(e), ElementsText(more), EndText(end));
  }

  /** The elements spell the text, which stands for these tokens, within the limits. */
  predicate Spells(es: seq<Element>, end: Option<string>, s: string, toks: seq<Token>, opts: Options) {
    && InGrammar(es, end, s) && toks == ElementsTokens(es)
    && AllAdmitted(es, end, opts.maxTokens, opts.maxStringBytes, 0)
  }

  /** A text lexes to a list of tokens if and only if the grammar spells them so and the limits admit it. */
  lemma LexExactly(s: string, toks: seq<Token>, opts: Options)
    ensures Lex(s, opts) == Ok(toks) <==> exists es, end :: Spells(es, end, s, toks, opts)
  {
    if Lex(s, opts) == Ok(toks) {
      var es, end := LexSplit(s, opts, 0);
      LayoutLexes.LayoutLexesToTokens(es, end, opts);
      assert Spells(es, end, s, toks, opts);
    }
    forall es, end | Spells(es, end, s, toks, opts) ensures Lex(s, opts) == Ok(toks) {
      LayoutLexes.LayoutLexesToTokens(es, end, opts);
    }
  }
}
