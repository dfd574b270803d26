/**
 * The lexical grammar of section 2 of RFC 5228 as lexer/lex.go has it, written down as a generator: every way to
 * spell a list of tokens, with blanks, line ends and comments between them. Lexing is exactly its inverse.
 */
module Layout {
  import opened Wrappers
  import opened Tokens
  import Decimal

  /** A character of a quoted string: as it is, after a backslash, or a line end, which a backslash may precede. */
  datatype Glyph = Bare(c: char) | Escaped(c: char) | NewLine(escaped: bool, cr: bool)

  /** A line of a multi-line literal as it stands in the text. */
  datatype Line = Line(raw: string, cr: bool)

  datatype Element =
    | Blank(tab: bool)
    | Break(cr: bool)
    | Hash(comment: string, cr: bool)
    | Block(comment: string)
    | Word(text: string)
    | Digits(digits: string, suffix: string)
    | Quote(glyphs: seq<Glyph>)
    | Literal(gap: string, remark: Option<string>, head: bool, first: Line, more: seq<Line>, last: bool)
    | Mark(mark: Token)

  // ----- the text -----

  function Eol(cr: bool): string {
    if cr then "\r\n" else "\n"
  }

  function GlyphText(g: Glyph): string {
    match g
    case Bare(c) => [c]
    case Escaped(c) => ['\\', c]
    case NewLine(escaped, cr) => (if escaped then "\\" else "") + Eol(cr)
  }

  function GlyphsText(gs: seq<Glyph>): string {
    if gs == [] then "" else GlyphText(gs[0]) + GlyphsText(gs[1..])
  }

  function LineText(l: Line): string {
    l.raw + Eol(l.cr)
  }

  function LinesText(ls: seq<Line>): string {
    if ls == [] then "" else LineText(ls[0]) + LinesText(ls[1..])
  }

  function RemarkText(remark: Option<string>): string {
    if remark.Some? then "#" + remark.value else ""
  }

  /** What stands between "text:" and the end of its line. */
  function GapText(gap: string, remark: Option<string>, cr: bool): string {
    gap + (RemarkText(remark) + Eol(cr))
  }

  function MarkText(t: Token): string {
    match t
    case ListStart => "["
    case ListEnd => "]"
    case BlockStart => "{"
    case BlockEnd => "}"
    case TestListStart => "("
    case TestListEnd => ")"
    case Comma => ","
    case Semicolon => ";"
    case Colon => ":"
    case _ => ""
  }

  function ElementText(e: Element): string {
    match e
    case Blank(tab) => if tab then "\t" else " "
    case Break(cr) => Eol(cr)
    case Hash(comment, cr) => "#" + (comment + Eol(cr))
    case Block(comment) => "/*" + (comment + "*/")
    case Word(text) => text
    case Digits(digits, suffix) => digits + suffix
    case Quote(glyphs) => "\"" + (GlyphsText(glyphs) + "\"")
    case Literal(gap, remark, head, first, more, last) =>
      "text:" + (GapText(gap, remark, head) + (LineText(first) + (LinesText(more) + ("." + Eol(last)))))
    case Mark(mark) => MarkText(mark)
  }

  function ElementsText(es: seq<Element>): string {
    if es == [] then "" else ElementText(es[0]) + ElementsText(es[1..])
  }

  /** A last hash comment needs no line end. */
  function EndText(end: Option<string>): string {
    if end.None? then "" else "#" + end.value
  }

  function WholeText(es: seq<Element>, end: Option<string>): string {
    ElementsText(es) + EndText(end)
  }

  // ----- the tokens -----

  function GlyphValue(g: Glyph): string {
    match g
    case Bare(c) => [c]
    case Escaped(c) => [c]
    case NewLine(_, _) => "\r\n"
  }

  function GlyphsValue(gs: seq<Glyph>): string {
    if gs == [] then "" else GlyphValue(gs[0]) + GlyphsValue(gs[1..])
  }

  /** Two leading dots stand for one, except on the first line. */
  function LineValue(raw: string): string {
    (if |raw| >= 2 && raw[0] == '.' && raw[1] == '.' then raw[1..] else raw) + "\r\n"
  }

  function LinesValue(ls: seq<Line>): string {
    if ls == [] then "" else LineValue(ls[0].raw) + LinesValue(ls[1..])
  }

  function SuffixQuantifier(suffix: string): Quantifier {
    if suffix == "K" || suffix == "k" then Kilo
    else if suffix == "M" || suffix == "m" then Mega
    else if suffix == "G" || suffix == "g" then Giga
    else Unit
  }

  function ElementTokens(e: Element): seq<Token>
    requires ElementOk(e)
  {
    match e
    case Word(text) => [Identifier(text)]
    case Digits(digits, suffix) => [Number(Decimal.Value(digits), SuffixQuantifier(suffix))]
    case Quote(glyphs) => [String(GlyphsValue(glyphs))]
    case Literal(_, _, _, first, more, _) => [String(first.raw + "\r\n" + LinesValue(more))]
    case Mark(mark) => [mark]
    case _ => []
  }

  function ElementsTokens(es: seq<Element>): seq<Token>
    requires ElementsOk(es)
  {
    if es == [] then [] else ElementTokens(es[0]) + ElementsTokens(es[1..])
  }

  // ----- which elements there are -----

  predicate OneLine(s: string) {
    forall i :: 0 <= i < |s| ==> s[i] != '\r' && s[i] != '\n'
  }

  predicate NoStarSlash(s: string) {
    forall i :: 0 < i < |s| ==> !(s[i - 1] == '*' && s[i] == '/')
  }

  predicate IsBlank(c: char) {
    c == ' ' || c == '\t'
  }

  predicate GlyphOk(g: Glyph) {
    match g
    case Bare(c) => c != '\r' && c != '\n' && c != '"' && c != '\\'
    case Escaped(c) => c != '\r' && c != '\n'
    case NewLine(_, _) => true
  }

  predicate GlyphsOk(gs: seq<Glyph>) {
    forall i :: 0 <= i < |gs| ==> GlyphOk(gs[i])
  }

  /** A later line of a literal; a single dot would end it. */
  predicate LinesOk(ls: seq<Line>) {
    forall i :: 0 <= i < |ls| ==> OneLine(ls[i].raw) && ls[i].raw != "."
  }

  predicate ElementOk(e: Element) {
    match e
    case Hash(comment, _) => OneLine(comment)
    case Block(comment) => NoStarSlash(comment)
    case Word(text) => IsIdentifier(text)
    case Digits(digits, suffix) =>
      && digits != "" && Decimal.AllDigits(digits) && Decimal.Value(digits) <= Decimal.MAX_INT
      && (suffix == "" || SuffixQuantifier(suffix) != Unit)
    case Quote(glyphs) => GlyphsOk(glyphs)
    case Literal(gap, remark, _, first, more, _) =>
      && (forall i :: 0 <= i < |gap| ==> IsBlank(gap[i]))
      && (remark.Some? ==> OneLine(remark.value)) && OneLine(first.raw) && LinesOk(more)
    case Mark(mark) => MarkText(mark) != ""
    case _ => true
  }

  predicate ElementsOk(es: seq<Element>) {
    forall i :: 0 <= i < |es| ==> ElementOk(es[i])
  }

  /** What comes next does not belong to the element: the longest match is taken. */
  predicate Separate(e: Element, next: string) {
    match e
    case Word(text) => next == "" || (!IsIdentChar(next[0]) && !(text == "text" && next[0] == ':'))
    case Digits(_, suffix) =>
      suffix == "" && next != "" ==> !Decimal.IsDigit(next[0]) && SuffixQuantifier([next[0]]).Unit?
    case _ => true
  }

  predicate Separated(es: seq<Element>, end: string) {
    es == [] || (Separate(es[0], ElementsText(es[1..]) + end) && Separated(es[1..], end))
  }

  // ----- what the lexer's limits admit -----

  predicate CountFits(maxTokens: int, n: nat) {
    maxTokens != 0 ==> n <= maxTokens
  }

  predicate SizeFits(maxBytes: int, n: nat) {
    maxBytes > 0 ==> n <= maxBytes
  }

  /** Blanks and multi-line literals are not followed by a look at the token count. */
  predicate Admits(e: Element, next: string, maxTokens: int, maxBytes: int, n: nat)
    requires ElementOk(e)
  {
    match e
    case Blank(_) => true
    case Break(_) => CountFits(maxTokens, n)
    case Hash(_, _) => CountFits(maxTokens, n)
    case Block(_) => CountFits(maxTokens, n)
    case Word(text) => (text[0] == 't' ==> |text + next| >= 5) && CountFits(maxTokens, n + 1)
    case Digits(_, _) => CountFits(maxTokens, n + 1)
    case Quote(_) => SizeFits(maxBytes, |ElementTokens(e)[0].text|) && CountFits(maxTokens, n + 1)
    case Literal(_, _, _, _, _, _) => SizeFits(maxBytes, |ElementTokens(e)[0].text|)
    case Mark(_) => CountFits(maxTokens, n + 1)
  }

  predicate AllAdmitted(es: seq<Element>, end: Option<string>, maxTokens: int, maxBytes: int, n: nat)
    requires ElementsOk(es)
  {
    if es == [] then end.Some? ==> CountFits(maxTokens, n)
    else
      && Admits(es[0], WholeText(es[1..], end), maxTokens, maxBytes, n)
      && AllAdmitted(es[1..], end, maxTokens, maxBytes, n + |ElementTokens(es[0])|)
  }
}
