/** Whatever the decoder reads is a text of the wire grammar, so the grammar says exactly what is read, and as what. */
module WireComplete {
  import opened Wrappers
  import opened Sequences
  import opened Wire
  import opened WireGrammar
  import opened WireReads
  import Decimal

  // ----- blanks and line ends -----

  lemma {:induction false} BlanksSplit(s: string) returns (n: nat)
    ensures match SkipSp(s)
            case Ok(more) => NoSpace(more) && s == Blanks(n) + more
            case Err => s == Blanks(n)
    decreases |s|
  {
    if s != "" && s[0] == ' ' {
      var k := BlanksSplit(s[1..]);
      n := k + 1;
      assert s == " " + s[1..];
      if SkipSp(s).Ok? {
        Associate(" ", Blanks(k), SkipSp(s).value);
      }
    } else {
      n := 0;
      assert s == "" + s;
    }
  }

  /** No blanks were skipped where none stand. */
  lemma {:induction false} NoBlanks(n: nat, s: string)
    requires NoSpace(Blanks(n) + s)
    ensures n == 0 && Blanks(n) + s == s
  {
    BlanksStart(n, s);
  }

  lemma EolSplit(s: string) returns (cr: bool)
    requires ExpectCrlf(s).Ok?
    ensures s == Eol(cr) + ExpectCrlf(s).value
  {
    cr := s[0] == '\r';
  }

  // ----- forms -----

  lemma {:induction false} AtomSplit(lim: Limits, counted: bool, spent: nat, acc: string, s: string) returns (a: string)
    requires AtomLoop(lim, counted, spent, acc, s).Got?
    ensures var g := AtomLoop(lim, counted, spent, acc, s);
            && (a == "" || AtomOk(a)) && (acc == "" ==> a != "")
            && s == a + g.rest && g.value == acc + a && EndsAtom(g.rest)
    decreases |s|
  {
    if s != "" {
      AtomChars(s[0]);
    }
    if s == "" || !AtomOctet(s[0]) {
      a := "";
      assert s == "" + s && acc + "" == acc;
    } else {
      var a' := AtomSplit(lim, counted, Spend(counted, spent, 1), acc + [s[0]], s[1..]);
      a := [s[0]] + a';
      assert s == [s[0]] + s[1..];
      Associate([s[0]], a', AtomLoop(lim, counted, spent, acc, s).rest);
      Associate(acc, [s[0]], a');
    }
  }

  lemma ReadAtomSplit(lim: Limits, counted: bool, spent: nat, s: string) returns (gap: nat, a: string)
    requires ReadAtom(lim, counted, spent, s).Got?
    ensures var g := ReadAtom(lim, counted, spent, s);
            AtomOk(a) && s == Blanks(gap) + (a + g.rest) && g.value == a && EndsAtom(g.rest)
  {
    gap := BlanksSplit(s);
    a := AtomSplit(lim, counted, spent, "", SkipSp(s).value);
    assert "" + a == a;
  }

  lemma {:induction false} GlyphsSplit(lim: Limits, counted: bool, spent: nat, acc: string, s: string)
    returns (gs: seq<Glyph>)
    requires QuotedLoop(lim, counted, spent, acc, s).Got?
    ensures GlyphsOk(gs) && s == GlyphsText(gs) + ("\"" + QuotedLoop(lim, counted, spent, acc, s).rest)
    decreases |s|
  {
    var rest := QuotedLoop(lim, counted, spent, acc, s).rest;
    if s[0] == '"' {
      gs := [];
      assert s == "\"" + s[1..];
      assert "" + s == s;
    } else {
      var escaped := s[0] == '\\';
      var c, more := if escaped then s[1] else s[0], if escaped then s[2..] else s[1..];
      var gs' := GlyphsSplit(lim, counted, Spend(counted, spent, 1), acc + [c], more);
      gs := [Glyph(c, escaped)] + gs';
      assert gs[1..] == gs';
      assert s == (if escaped then ['\\', c] else [c]) + more;
      Associate(if escaped then ['\\', c] else [c], GlyphsText(gs'), "\"" + rest);
    }
  }

  lemma SizeSplit(s: string) returns (digits: string, plus: bool)
    requires LiteralSize(s).Ok?
    ensures digits != "" && Decimal.AllDigits(digits) && Decimal.Value(digits) == LiteralSize(s).value.0
    ensures s == digits + (Close(plus) + LiteralSize(s).value.1)
  {
    var n := Decimal.DigitLength(s);
    digits := s[..n];
    var tail := s[n..];
    plus := tail != "" && tail[0] == '+';
    assert s == digits + tail;
    if plus {
      assert tail == "+" + tail[1..];
      assert tail[1..] == "}" + tail[1..][1..];
      assert "+}" == "+" + "}";
      Associate("+", "}", tail[1..][1..]);
    } else {
      assert tail == "}" + tail[1..];
    }
  }

  lemma LiteralSplit(lim: Limits, counted: bool, spent: nat, s: string) returns (f: Form)
    requires ReadLiteral(lim, counted, spent, s).Got?
    ensures f.Literal? && FormOk(f) && "{" + s == FormText(f) + ReadLiteral(lim, counted, spent, s).rest
  {
    var digits, plus := SizeSplit(s);
    var (size, s') := LiteralSize(s).value;
    var cr := EolSplit(s');
    var after := ExpectCrlf(s').value;
    var data, rest := after[..size], after[size..];
    assert after == data + rest;
    f := Literal(digits, plus, cr, data);
    Associate4("{", digits, Close(plus) + (Eol(cr) + data), rest);
    Associate4(Close(plus), Eol(cr), data, rest);
    Associate(Eol(cr), data, rest);
    Associate(digits, Close(plus) + (Eol(cr) + data), rest);
  }

  lemma StringSplit(lim: Limits, counted: bool, spent: nat, s: string) returns (gap: nat, f: Form)
    requires ReadString(lim, counted, spent, s).Got?
    ensures !f.Atom? && FormOk(f) && s == Blanks(gap) + (FormText(f) + ReadString(lim, counted, spent, s).rest)
  {
    gap := BlanksSplit(s);
    var s' := SkipSp(s).value;
    assert s' == [s'[0]] + s'[1..];
    if s'[0] == '"' {
      var gs := GlyphsSplit(lim, counted, spent, "", s'[1..]);
      f := Quoted(gs);
      Associate4("\"", GlyphsText(gs), "\"", ReadString(lim, counted, spent, s).rest);
    } else {
      f := LiteralSplit(lim, counted, spent, s'[1..]);
    }
  }

  lemma TokenSplit(lim: Limits, counted: bool, spent: nat, s: string) returns (w: Word)
    requires ReadToken(lim, counted, spent, s).Got?
    ensures FormOk(w.form) && (w.form.Atom? ==> EndsAtom(ReadToken(lim, counted, spent, s).rest))
    ensures s == Blanks(w.gap) + (FormText(w.form) + ReadToken(lim, counted, spent, s).rest)
  {
    var gap := BlanksSplit(s);
    var s' := SkipSp(s).value;
    if s'[0] == '"' || s'[0] == '{' {
      var gap', f := StringSplit(lim, counted, spent, s');
      NoBlanks(gap', FormText(f) + ReadToken(lim, counted, spent, s).rest);
      w := Word(gap, f);
    } else {
      var gap', a := ReadAtomSplit(lim, counted, spent, s');
      NoBlanks(gap', a + ReadToken(lim, counted, spent, s).rest);
      w := Word(gap, Atom(a));
    }
  }

  // ----- words -----

  /** One more word in front; after an atom a word that is one stands apart. */
  lemma {:induction false} WordSplit(s: string, w: Word, more: string, ws: seq<Word>, end: string, afterAtom: bool)
    requires FormOk(w.form) && s == Blanks(w.gap) + (FormText(w.form) + more)
    requires WordsOk(ws, w.form.Atom?) && more == WordsText(ws) + end && (afterAtom ==> EndsAtom(s))
    ensures WordsOk([w] + ws, afterAtom) && s == WordsText([w] + ws) + end
  {
    AfterFirst(w, ws);
    FormStarts(w.form, more);
    BlanksStart(w.gap, FormText(w.form) + more);
    WordsSplit([w] + ws, end);
  }

  // ----- commands -----

  lemma {:induction false} ArgsSplit(lim: Limits, spent: nat, acc: seq<string>, s: string, afterAtom: bool)
    returns (ws: seq<Word>, cr: bool)
    requires ArgLoop(lim, spent, acc, s).Ok? && (afterAtom ==> EndsAtom(s))
    ensures WordsOk(ws, afterAtom) && s == WordsText(ws) + (Eol(cr) + ArgLoop(lim, spent, acc, s).value.1)
    decreases |s|
  {
    if IsLineEnd(s[0]) {
      ws := [];
      cr := EolSplit(s);
      assert "" + s == s;
    } else {
      var g := ReadToken(lim, true, spent, s);
      var w := TokenSplit(lim, true, spent, s);
      var ws';
      ws', cr := ArgsSplit(lim, g.spent, acc + [g.value], g.rest, w.form.Atom?);
      WordSplit(s, w, g.rest, ws', Eol(cr) + ArgLoop(lim, spent, acc, s).value.1, afterAtom);
      ws := [w] + ws';
    }
  }

  lemma CommandSplit(lim: Limits, s: string) returns (c: Call)
    requires ReadCommand(lim, s).Ok?
    ensures CallOk(c) && s == CallText(c) + ReadCommand(lim, s).value.rest
  {
    var g := ReadAtom(lim, true, 0, s);
    var lead, name := ReadAtomSplit(lim, true, 0, s);
    var ws, cr := ArgsSplit(lim, g.spent, [], g.rest, true);
    c := Call(lead, name, ws, cr);
    CallSplit(c, ReadCommand(lim, s).value.rest);
  }

  /** A spelling of the command within the limits, and then the rest. */
  predicate Spells(lim: Limits, c: Call, s: string, cmd: Command) {
    && CallOk(c) && CallFits(lim, c) && s == CallText(c) + cmd.rest
    && cmd.name == Capital(c.name) && cmd.args == Values(c.words)
  }

  /** The server reads a command exactly when the bytes begin with a spelling of it that the limits admit. */
  lemma CommandExactly(lim: Limits, s: string, cmd: Command)
    ensures ReadCommand(lim, s) == Ok(cmd) <==> exists c :: Spells(lim, c, s, cmd)
  {
    if ReadCommand(lim, s) == Ok(cmd) {
      var c := CommandSplit(lim, s);
      CallReads(lim, c, cmd.rest);
      assert Spells(lim, c, s, cmd);
    }
    if c :| Spells(lim, c, s, cmd) {
      CallReads(lim, c, cmd.rest);
    }
  }

  // ----- statuses -----

  lemma TextSplit(lim: Limits, st: Status, s: string) returns (m: Message)
    requires ReadText(lim, st, s).Ok? && NoSpace(s)
    ensures MessageOk(m) && s == MessageText(m) + ReadText(lim, st, s).value.rest
  {
    var rest := ReadText(lim, st, s).value.rest;
    if IsLineEnd(s[0]) {
      var cr := EolSplit(s);
      m := Message(None, cr);
      MessageSplit(m, rest);
      assert "" + s == s;
    } else {
      var g := ReadToken(lim, false, 0, s);
      var w := TokenSplit(lim, false, 0, s);
      NoBlanks(w.gap, FormText(w.form) + g.rest);
      var cr := EolSplit(g.rest);
      m := Message(Some(w.form), cr);
      MessageSplit(m, rest);
    }
  }

  lemma ClosingSplit(lim: Limits, st: Status, s: string) returns (after: nat, said: Option<Message>)
    requires SkipSp(s).Ok? ==> ReadText(lim, st, SkipSp(s).value).Ok?
    ensures var rest := if SkipSp(s).Ok? then ReadText(lim, st, SkipSp(s).value).value.rest else "";
            && (said.Some? ==> MessageOk(said.value)) && (said.None? ==> rest == "")
            && s == Blanks(after) + (SaidText(said) + rest)
  {
    after := BlanksSplit(s);
    match SkipSp(s)
    case Ok(more) =>
      var m := TextSplit(lim, st, more);
      said := Some(m);
    case Err =>
      said := None;
      assert s == Blanks(after) + ("" + "");
  }

  lemma {:induction false} CodeSplit(lim: Limits, st: Status, s: string, afterAtom: bool)
    returns (ws: seq<Word>, close: nat, after: nat, said: Option<Message>)
    requires CodeLoop(lim, st, s).Ok? && (afterAtom ==> EndsAtom(s))
    ensures WordsOk(ws, afterAtom) && (said.Some? ==> MessageOk(said.value))
    ensures said.None? ==> CodeLoop(lim, st, s).value.rest == ""
    ensures s == WordsText(ws) + CodeEnd(close, after, said, CodeLoop(lim, st, s).value.rest)
    decreases |s|
  {
    var gap := BlanksSplit(s);
    var s', rest := SkipSp(s).value, CodeLoop(lim, st, s).value.rest;
    if s'[0] == ')' {
      ws, close := [], gap;
      after, said := ClosingSplit(lim, st, s'[1..]);
      assert s' == ")" + s'[1..];
      assert "" + s == s;
    } else {
      var g := ReadToken(lim, false, 0, s');
      var w := TokenSplit(lim, false, 0, s');
      NoBlanks(w.gap, FormText(w.form) + g.rest);
      var ws';
      ws', close, after, said := CodeSplit(lim, st.(codeArgs := st.codeArgs + [g.value]), g.rest, w.form.Atom?);
      WordSplit(s, Word(gap, w.form), g.rest, ws', CodeEnd(close, after, said, rest), afterAtom);
      ws := [Word(gap, w.form)] + ws';
    }
  }

  lemma MoreSplit(lim: Limits, st: Status, s: string) returns (m: More)
    requires AfterKind(lim, st, s).Ok?
    ensures MoreOk(m) && (m.Coded? && m.said.None? ==> AfterKind(lim, st, s).value.rest == "")
    ensures s == MoreText(m) + AfterKind(lim, st, s).value.rest
  {
    var rest := AfterKind(lim, st, s).value.rest;
    if s[0] != ' ' {
      var cr := EolSplit(s);
      m := Bare(cr);
    } else {
      var gap := BlanksSplit(s);
      var s' := SkipSp(s).value;
      if s'[0] == '(' {
        m := CodedParts(lim, st, s', gap);
      } else {
        var message := TextSplit(lim, st, s');
        m := Said(gap, message);
        Associate(Blanks(gap), MessageText(message), rest);
      }
    }
  }

  lemma CodedParts(lim: Limits, st: Status, s: string, gap: nat) returns (m: More)
    requires s != "" && s[0] == '(' && ReadCode(lim, st, s[1..]).Ok? && gap > 0
    ensures m.Coded? && MoreOk(m) && (m.said.None? ==> ReadCode(lim, st, s[1..]).value.rest == "")
    ensures Blanks(gap) + s == MoreText(m) + ReadCode(lim, st, s[1..]).value.rest
  {
    var rest := ReadCode(lim, st, s[1..]).value.rest;
    var g := ReadAtom(lim, false, 0, s[1..]);
    var inner, code := ReadAtomSplit(lim, false, 0, s[1..]);
    var ws, close, after, said := CodeSplit(lim, st.(code := Upper(code)), g.rest, true);
    m := Coded(gap, inner, code, ws, close, after, said);
    CodedSplit(m, rest);
    assert s == "(" + s[1..];
  }

  lemma StatusSplit(lim: Limits, s: string) returns (l: Answer)
    requires ReadStatus(lim, s).Ok?
    ensures AnswerOk(l) && Follows(ReadStatus(lim, s).value.rest, l)
    ensures s == AnswerText(l) + ReadStatus(lim, s).value.rest
  {
    var g := ReadAtom(lim, false, 0, s);
    var lead, kind := ReadAtomSplit(lim, false, 0, s);
    UpperIsCapital(kind);
    StatusAt(lim, s, kind, g.rest);
    var more := MoreSplit(lim, Status(Upper(kind), "", [], ""), g.rest);
    l := Answer(lead, kind, more);
    AnswerSplit(l, ReadStatus(lim, s).value.rest);
  }

  predicate SpellsStatus(lim: Limits, l: Answer, s: string, reply: Reply) {
    && AnswerOk(l) && AnswerFits(lim, l) && Follows(reply.rest, l)
    && s == AnswerText(l) + reply.rest && reply.status == AnswerValue(l)
  }

  /** The client reads a status exactly when the bytes begin with a spelling of it that the limits admit. */
  lemma StatusExactly(lim: Limits, s: string, reply: Reply)
    ensures ReadStatus(lim, s) == Ok(reply) <==> exists l :: SpellsStatus(lim, l, s, reply)
  {
    if ReadStatus(lim, s) == Ok(reply) {
      var l := StatusSplit(lim, s);
      AnswerReads(lim, l, reply.rest);
      assert SpellsStatus(lim, l, s, reply);
    }
    if l :| SpellsStatus(lim, l, s, reply) {
      AnswerReads(lim, l, reply.rest);
    }
  }

  // ----- listings -----

  /** What follows the name of a script. */
  lemma MarkSplit(lim: Limits, s: string) returns (mark: Option<Word>, cr: bool)
    requires s != "" && if s[0] == ' ' then var g := ReadAtom(lim, false, 0, s); g.Got? && ExpectCrlf(g.rest).Ok?
                        else ExpectCrlf(s).Ok?
    ensures mark.Some? ==> mark.value.gap > 0 && mark.value.form.Atom? && FormOk(mark.value.form)
    ensures var end := if s[0] == ' ' then ReadAtom(lim, false, 0, s).rest else s;
            s == MarkText(mark) + (Eol(cr) + ExpectCrlf(end).value)
  {
    if s[0] == ' ' {
      var gap, a := ReadAtomSplit(lim, false, 0, s);
      var end := ReadAtom(lim, false, 0, s).rest;
      cr := EolSplit(end);
      mark := Some(Word(gap, Atom(a)));
      assert gap > 0 by {
        BlanksStart(gap, a + end);
      }
      Associate(Blanks(gap), a, end);
    } else {
      cr := EolSplit(s);
      mark := None;
      assert "" + s == s;
    }
  }

  lemma EntrySplit(lim: Limits, s: string) returns (i: Item)
    requires ReadLine(lim, s).Ok? && ReadLine(lim, s).value.Entry?
    ensures ItemOk(i) && s == ItemText(i) + ReadLine(lim, s).value.rest
  {
    var g := ReadString(lim, false, 0, s);
    var gap, f := StringSplit(lim, false, 0, s);
    NoBlanks(gap, FormText(f) + g.rest);
    var mark, cr := MarkSplit(lim, g.rest);
    i := Item(f, mark, cr);
    ItemSplit(i, ReadLine(lim, s).value.rest);
  }

  lemma FinalSplit(lim: Limits, s: string) returns (l: Answer)
    requires ReadLine(lim, s).Ok? && ReadLine(lim, s).value.Final?
    ensures AnswerOk(l) && Follows(ReadLine(lim, s).value.rest, l)
    ensures s == AnswerText(l) + ReadLine(lim, s).value.rest
  {
    l := StatusSplit(lim, s);
  }

  lemma {:induction false} ListingSplit(lim: Limits, acc: seq<ScriptInfo>, s: string)
    returns (items: seq<Item>, l: Answer)
    requires ReadListing(lim, acc, s).Ok?
    ensures ItemsOk(items) && AnswerOk(l) && Follows(ReadListing(lim, acc, s).value.1, l)
    ensures s == ItemsText(items) + (AnswerText(l) + ReadListing(lim, acc, s).value.1)
    decreases |s|
  {
    var rest := ReadListing(lim, acc, s).value.1;
    match ReadLine(lim, s).value
    case Final(_, _) =>
      items := [];
      l := FinalSplit(lim, s);
      assert "" + s == s;
    case Entry(info, more) =>
      var i := EntrySplit(lim, s);
      var items';
      items', l := ListingSplit(lim, acc + [info], more);
      items := [i] + items';
      AfterFirst(i, items');
      Associate(ItemText(i), ItemsText(items'), AnswerText(l) + rest);
  }

  predicate SpellsListing(lim: Limits, items: seq<Item>, l: Answer, s: string, list: seq<ScriptInfo>, rest: string) {
    && ItemsOk(items) && ItemsFit(lim, items) && AnswerOk(l) && AnswerFits(lim, l) && Follows(rest, l)
    && Capital(l.kind) == "OK" && s == ItemsText(items) + (AnswerText(l) + rest) && list == ItemValues(items)
  }

  /** The client collects a listing exactly when the bytes begin with a spelling of its lines and of a status OK. */
  lemma {:induction false} ListingExactly(lim: Limits, s: string, list: seq<ScriptInfo>, rest: string)
    ensures ReadListing(lim, [], s) == Ok((list, rest))
       <==> exists items, l :: SpellsListing(lim, items, l, s, list, rest)
  {
    if ReadListing(lim, [], s) == Ok((list, rest)) {
      var items, l := ListingSplit(lim, [], s);
      ItemsRead(lim, [], items, l, rest);
      assert [] + ItemValues(items) == ItemValues(items);
      assert SpellsListing(lim, items, l, s, list, rest);
    }
    if items, l :| SpellsListing(lim, items, l, s, list, rest) {
      ItemsRead(lim, [], items, l, rest);
      assert [] + ItemValues(items) == ItemValues(items);
    }
  }
}
