/**
 * The wire format as the decoder accepts it, written down as a generator: every way to spell a command, a status
 * or a script listing, with any number of blanks, either line end and needless escapes.
 */
module WireGrammar {
  import opened Wrappers
  import Decimal
  import Wire

  /** A character of a quoted string, perhaps after a backslash. */
  datatype Glyph = Glyph(c: char, escaped: bool)

  datatype Form =
    | Atom(chars: string)
    | Quoted(glyphs: seq<Glyph>)
    | Literal(digits: string, plus: bool, cr: bool, data: string)

  datatype Word = Word(gap: nat, form: Form)

  datatype Call = Call(lead: nat, name: string, words: seq<Word>, cr: bool)

  // ----- text -----

  function Blanks(n: nat): string {
    if n == 0 then "" else " " + Blanks(n - 1)
  }

  function Eol(cr: bool): string {
    if cr then "\r\n" else "\n"
  }

  function GlyphsText(gs: seq<Glyph>): string {
    if gs == [] then "" else (if gs[0].escaped then ['\\', gs[0].c] else [gs[0].c]) + GlyphsText(gs[1..])
  }

  function Close(plus: bool): string {
    if plus then "+}" else "}"
  }

  function FormText(f: Form): string {
    match f
    case Atom(chars) => chars
    case Quoted(glyphs) => "\"" + (GlyphsText(glyphs) + "\"")
    case Literal(digits, plus, cr, data) => "{" + (digits + (Close(plus) + (Eol(cr) + data)))
  }

  function WordsText(ws: seq<Word>): string {
    if ws == [] then "" else Blanks(ws[0].gap) + (FormText(ws[0].form) + WordsText(ws[1..]))
  }

  function CallText(c: Call): string {
    Blanks(c.lead) + (c.name + (WordsText(c.words) + Eol(c.cr)))
  }

  // ----- values -----

  function GlyphsValue(gs: seq<Glyph>): string {
    if gs == [] then "" else [gs[0].c] + GlyphsValue(gs[1..])
  }

  function FormValue(f: Form): string {
    match f
    case Atom(chars) => chars
    case Quoted(glyphs) => GlyphsValue(glyphs)
    case Literal(_, _, _, data) => data
  }

  function Values(ws: seq<Word>): seq<string> {
    if ws == [] then [] else [FormValue(ws[0].form)] + Values(ws[1..])
  }

  function Bytes(ws: seq<Word>): nat {
    if ws == [] then 0 else |FormValue(ws[0].form)| + Bytes(ws[1..])
  }

  /** The text with its ASCII letters in upper case. */
  function Capital(s: string): string {
    seq(|s|, i requires 0 <= i < |s| => if 'a' <= s[i] <= 'z' then (s[i] as int - 32) as char else s[i])
  }

  // ----- which are in the grammar -----

  predicate AtomOctet(c: char) {
    '!' <= c && c as int != 127 && c !in "(){\"\\"
  }

  predicate AtomOk(s: string) {
    s != "" && forall i :: 0 <= i < |s| ==> AtomOctet(s[i])
  }

  predicate GlyphsOk(gs: seq<Glyph>) {
    forall i :: 0 <= i < |gs| ==> (gs[i].c == '"' || gs[i].c == '\\' ==> gs[i].escaped)
  }

  predicate FormOk(f: Form) {
    match f
    case Atom(chars) => AtomOk(chars)
    case Quoted(glyphs) => GlyphsOk(glyphs)
    case Literal(digits, _, _, data) => digits != "" && Decimal.AllDigits(digits) && Decimal.Value(digits) == |data|
  }

  /** Two atoms need a blank between them. */
  predicate WordsOk(ws: seq<Word>, afterAtom: bool) {
    ws == [] || (&& FormOk(ws[0].form) && (afterAtom && ws[0].form.Atom? ==> ws[0].gap > 0)
                 && WordsOk(ws[1..], ws[0].form.Atom?))
  }

  predicate CallOk(c: Call) {
    AtomOk(c.name) && WordsOk(c.words, true)
  }

  // ----- limits -----

  /** A limit of zero or less is none. */
  predicate AtMost(limit: int, n: nat) {
    limit <= 0 || n <= limit
  }

  predicate FormFits(lim: Wire.Limits, f: Form) {
    match f
    case Atom(chars) => AtMost(lim.maxAtom, |chars|)
    case Quoted(glyphs) => AtMost(lim.maxQuoted, |glyphs|)
    case Literal(_, _, _, data) => |data| <= 4294967295 && AtMost(lim.maxLiteral, |data|)
  }

  predicate WordsFit(lim: Wire.Limits, ws: seq<Word>) {
    ws == [] || (FormFits(lim, ws[0].form) && WordsFit(lim, ws[1..]))
  }

  /** The size of a command is that of its name and its values. */
  predicate CallFits(lim: Wire.Limits, c: Call) {
    && AtMost(lim.maxAtom, |c.name|) && WordsFit(lim, c.words) && AtMost(lim.maxArgs, |c.words|)
    && AtMost(lim.maxCommand, |c.name| + Bytes(c.words))
  }

  // ----- statuses -----

  /** The human-readable end of a status line. */
  datatype Message = Message(form: Option<Form>, cr: bool)

  /** What follows the kind. A response code may be followed by the end of the input. */
  datatype More =
    | Bare(cr: bool)
    | Said(gap: nat, message: Message)
    | Coded(gap: nat, inner: nat, code: string, words: seq<Word>, close: nat, after: nat, said: Option<Message>)

  datatype Answer = Answer(lead: nat, kind: string, more: More)

  function MessageText(m: Message): string {
    (if m.form.Some? then FormText(m.form.value) else "") + Eol(m.cr)
  }

  function SaidText(m: Option<Message>): string {
    if m.Some? then MessageText(m.value) else ""
  }

  function MoreText(m: More): string {
    match m
    case Bare(cr) => Eol(cr)
    case Said(gap, message) => Blanks(gap) + MessageText(message)
    case Coded(gap, inner, code, words, close, after, said) =>
      Blanks(gap) + ("(" + (Blanks(inner) + (code + (WordsText(words)
      + (Blanks(close) + (")" + (Blanks(after) + SaidText(said))))))))
  }

  function AnswerText(l: Answer): string {
    Blanks(l.lead) + (l.kind + MoreText(l.more))
  }

  function MessageValue(m: Message): string {
    if m.form.Some? then FormValue(m.form.value) else ""
  }

  function AnswerValue(l: Answer): Wire.Status {
    var kind := Capital(l.kind);
    match l.more
    case Bare(_) => Wire.Status(kind, "", [], "")
    case Said(_, message) => Wire.Status(kind, "", [], MessageValue(message))
    case Coded(_, _, code, words, _, _, said) =>
      Wire.Status(kind, Capital(code), Values(words), if said.Some? then MessageValue(said.value) else "")
  }

  predicate MessageOk(m: Message) {
    m.form.Some? ==> FormOk(m.form.value)
  }

  predicate MoreOk(m: More) {
    match m
    case Bare(_) => true
    case Said(gap, message) => gap > 0 && MessageOk(message)
    case Coded(gap, _, code, words, _, _, said) =>
      gap > 0 && AtomOk(code) && WordsOk(words, true) && (said.Some? ==> MessageOk(said.value))
  }

  predicate AnswerOk(l: Answer) {
    AtomOk(l.kind) && Capital(l.kind) in {"OK", "NO", "BYE"} && MoreOk(l.more)
  }

  /** Nothing can follow a status that the end of the input cut short. */
  predicate Follows(rest: string, l: Answer) {
    l.more.Coded? && l.more.said.None? ==> rest == ""
  }

  predicate MessageFits(lim: Wire.Limits, m: Message) {
    m.form.Some? ==> FormFits(lim, m.form.value)
  }

  predicate AnswerFits(lim: Wire.Limits, l: Answer) {
    && AtMost(lim.maxAtom, |l.kind|)
    && match l.more
       case Bare(_) => true
       case Said(_, message) => MessageFits(lim, message)
       case Coded(_, _, code, words, _, _, said) =>
         && AtMost(lim.maxAtom, |code|) && WordsFit(lim, words)
         && (said.Some? ==> MessageFits(lim, said.value))
  }

  // ----- listings -----

  /** A script's name, and perhaps a word after it. */
  datatype Item = Item(name: Form, mark: Option<Word>, cr: bool)

  function MarkText(mark: Option<Word>): string {
    if mark.Some? then Blanks(mark.value.gap) + FormText(mark.value.form) else ""
  }

  function ItemText(i: Item): string {
    FormText(i.name) + (MarkText(i.mark) + Eol(i.cr))
  }

  function ItemsText(items: seq<Item>): string {
    if items == [] then "" else ItemText(items[0]) + ItemsText(items[1..])
  }

  function ItemValue(i: Item): Wire.ScriptInfo {
    Wire.ScriptInfo(FormValue(i.name), i.mark.Some? && Capital(FormValue(i.mark.value.form)) == "ACTIVE")
  }

  function ItemValues(items: seq<Item>): seq<Wire.ScriptInfo> {
    if items == [] then [] else [ItemValue(items[0])] + ItemValues(items[1..])
  }

  predicate ItemOk(i: Item) {
    && FormOk(i.name) && !i.name.Atom?
    && (i.mark.Some? ==> i.mark.value.gap > 0 && i.mark.value.form.Atom? && FormOk(i.mark.value.form))
  }

  predicate ItemsOk(items: seq<Item>) {
    items == [] || (ItemOk(items[0]) && ItemsOk(items[1..]))
  }

  predicate ItemFits(lim: Wire.Limits, i: Item) {
    FormFits(lim, i.name) && (i.mark.Some? ==> FormFits(lim, i.mark.value.form))
  }

  predicate ItemsFit(lim: Wire.Limits, items: seq<Item>) {
    items == [] || (ItemFits(lim, items[0]) && ItemsFit(lim, items[1..]))
  }
}
