/** The decoder reads every text of the wire grammar to its value, exactly within the limits. */
module WireReads {
  import opened Wrappers
  import opened Sequences
  import opened Wire
  import opened G = WireGrammar
  import Decimal

  // ----- blanks, line ends, letters -----

  predicate NoSpace(s: string) {
    s != "" && s[0] != ' '
  }

  lemma {:induction false} BlanksSkipped(n: nat, s: string)
    requires NoSpace(s)
    ensures SkipSp(Blanks(n) + s) == Ok(s)
    decreases n
  {
    if n == 0 {
      assert Blanks(n) + s == s;
    } else {
      Associate(" ", Blanks(n - 1), s);
      AfterFirst(' ', Blanks(n - 1) + s);
      BlanksSkipped(n - 1, s);
    }
  }

  lemma {:induction false} OnlyBlanks(n: nat)
    ensures SkipSp(Blanks(n)) == Err
  {
    if n > 0 {
      AfterFirst(' ', Blanks(n - 1));
      OnlyBlanks(n - 1);
    }
  }

  lemma EolEnds(cr: bool, rest: string)
    ensures ExpectCrlf(Eol(cr) + rest) == Ok(rest)
    ensures Eol(cr) + rest != "" && IsLineEnd((Eol(cr) + rest)[0])
  {
    if cr {
      assert (Eol(cr) + rest)[2..] == rest;
    } else {
      AfterFirst('\n', rest);
    }
  }

  lemma {:induction false} UpperIsCapital(s: string)
    ensures Upper(s) == Capital(s)
  {
    if s != "" {
      UpperIsCapital(s[1..]);
      assert Capital(s) == [Capital(s)[0]] + Capital(s[1..]);
    }
  }

  // ----- forms -----

  /** The outcome of reading `value` under a limit of its own and the command budget. */
  function Outcome(lim: Limits, counted: bool, spent: nat, fits: bool, value: string, tail: string): Got<string> {
    if fits && Affordable(lim, counted, Spend(counted, spent, |value|))
    then Got(value, tail, Spend(counted, spent, |value|))
    else Fail
  }

  /** What follows an atom must end it. */
  predicate EndsAtom(tail: string) {
    tail == "" || !AtomOctet(tail[0])
  }

  lemma AtomChars(c: char)
    ensures IsAtomChar(c) <==> AtomOctet(c)
  {
  }

  lemma {:induction false} AtomStep(lim: Limits, counted: bool, spent: nat, acc: string, c: char, s: string)
    requires AtomOctet(c)
    ensures AtomLoop(lim, counted, spent, acc, [c] + s)
         == if Under(lim.maxAtom, |acc| + 1) && Affordable(lim, counted, Spend(counted, spent, 1))
            then AtomLoop(lim, counted, Spend(counted, spent, 1), acc + [c], s) else Fail
  {
    AtomChars(c);
    AfterFirst(c, s);
  }

  lemma {:induction false} AtomReads(lim: Limits, counted: bool, spent: nat, acc: string, a: string, tail: string)
    requires (a == "" || AtomOk(a)) && EndsAtom(tail) && acc + a != ""
    requires Under(lim.maxAtom, |acc|) && Affordable(lim, counted, spent)
    ensures AtomLoop(lim, counted, spent, acc, a + tail)
         == if Under(lim.maxAtom, |acc + a|) && Affordable(lim, counted, Spend(counted, spent, |a|))
            then Got(acc + a, tail, Spend(counted, spent, |a|)) else Fail
    decreases |a|
  {
    if a == "" {
      assert a + tail == tail && acc + a == acc;
      if tail != "" {
        AtomChars(tail[0]);
      }
    } else {
      var a' := a[1..];
      assert a + tail == [a[0]] + (a' + tail);
      assert acc + a == (acc + [a[0]]) + a';
      AtomStep(lim, counted, spent, acc, a[0], a' + tail);
      if Under(lim.maxAtom, |acc| + 1) && Affordable(lim, counted, Spend(counted, spent, 1)) {
        AtomReads(lim, counted, Spend(counted, spent, 1), acc + [a[0]], a', tail);
      }
    }
  }

  /** An atom is read past blanks and up to the byte that ends it. */
  lemma {:induction false} ReadAtomReads(lim: Limits, counted: bool, spent: nat, gap: nat, a: string, tail: string)
    requires AtomOk(a) && EndsAtom(tail) && Affordable(lim, counted, spent)
    ensures ReadAtom(lim, counted, spent, Blanks(gap) + (a + tail))
         == Outcome(lim, counted, spent, AtMost(lim.maxAtom, |a|), a, tail)
  {
    assert (a + tail)[0] == a[0];
    BlanksSkipped(gap, a + tail);
    AtomReads(lim, counted, spent, "", a, tail);
    assert "" + a == a;
  }

  lemma {:induction false} GlyphStep(lim: Limits, counted: bool, spent: nat, acc: string, g: Glyph, s: string)
    requires g.c == '"' || g.c == '\\' ==> g.escaped
    ensures QuotedLoop(lim, counted, spent, acc, (if g.escaped then ['\\', g.c] else [g.c]) + s)
         == if Under(lim.maxQuoted, |acc| + 1) && Affordable(lim, counted, Spend(counted, spent, 1))
            then QuotedLoop(lim, counted, Spend(counted, spent, 1), acc + [g.c], s) else Fail
  {
    if g.escaped {
      assert (['\\', g.c] + s)[2..] == s;
    } else {
      AfterFirst(g.c, s);
    }
  }

  lemma {:induction false} GlyphsRead(lim: Limits, counted: bool, spent: nat, acc: string, gs: seq<Glyph>, tail: string)
    requires GlyphsOk(gs) && Under(lim.maxQuoted, |acc|) && Affordable(lim, counted, spent)
    ensures QuotedLoop(lim, counted, spent, acc, GlyphsText(gs) + ("\"" + tail))
         == if Under(lim.maxQuoted, |acc| + |gs|) && Affordable(lim, counted, Spend(counted, spent, |gs|))
            then Got(acc + GlyphsValue(gs), tail, Spend(counted, spent, |gs|)) else Fail
    decreases |gs|
  {
    var close := "\"" + tail;
    if gs == [] {
      assert GlyphsText(gs) + close == close && acc + GlyphsValue(gs) == acc;
      AfterFirst('"', tail);
    } else {
      var g, more := gs[0], GlyphsText(gs[1..]) + close;
      Associate(if g.escaped then ['\\', g.c] else [g.c], GlyphsText(gs[1..]), close);
      Associate(acc, [g.c], GlyphsValue(gs[1..]));
      GlyphStep(lim, counted, spent, acc, g, more);
      if Under(lim.maxQuoted, |acc| + 1) && Affordable(lim, counted, Spend(counted, spent, 1)) {
        GlyphsRead(lim, counted, Spend(counted, spent, 1), acc + [g.c], gs[1..], tail);
      }
    }
  }

  lemma {:induction false} GlyphsCount(gs: seq<Glyph>)
    ensures |GlyphsValue(gs)| == |gs|
  {
    if gs != [] {
      GlyphsCount(gs[1..]);
    }
  }

  lemma {:induction false} SizeCloses(ds: string, plus: bool, tail: string)
    requires ds != "" && Decimal.AllDigits(ds)
    ensures SizeClosed(ds, Close(plus) + tail)
         == if Decimal.Value(ds) > Decimal.MAX_INT then Err else Ok((Decimal.Value(ds), tail))
  {
    AfterFirst('}', tail);
    if plus {
      assert Close(plus) + tail == "+" + ("}" + tail);
      AfterFirst('+', "}" + tail);
    }
  }

  lemma {:induction false} SizeReads(ds: string, plus: bool, tail: string)
    requires ds != "" && Decimal.AllDigits(ds)
    ensures LiteralSize(ds + (Close(plus) + tail))
         == if Decimal.Value(ds) > Decimal.MAX_INT then Err else Ok((Decimal.Value(ds), tail))
  {
    Decimal.DigitLengthOf(ds, Close(plus) + tail);
    Parted(ds, Close(plus) + tail);
    SizeCloses(ds, plus, tail);
  }

  lemma LiteralReads(lim: Limits, counted: bool, spent: nat, f: Form, tail: string)
    requires f.Literal? && FormOk(f)
    ensures ReadLiteral(lim, counted, spent, f.digits + (Close(f.plus) + (Eol(f.cr) + (f.data + tail))))
         == Outcome(lim, counted, spent, FormFits(lim, f), f.data, tail)
  {
    SizeReads(f.digits, f.plus, Eol(f.cr) + (f.data + tail));
    EolEnds(f.cr, f.data + tail);
    Parted(f.data, tail);
  }

  /** What the first byte of a form tells. */
  lemma FormStarts(f: Form, tail: string)
    requires FormOk(f)
    ensures var s := FormText(f) + tail;
            && s != "" && s[0] != ' ' && s[0] != '(' && s[0] != ')' && !IsLineEnd(s[0])
            && (f.Atom? <==> AtomOctet(s[0])) && (f.Quoted? <==> s[0] == '"') && (f.Literal? <==> s[0] == '{')
  {
    assert FormText(f) != "" && (FormText(f) + tail)[0] == FormText(f)[0];
  }

  lemma {:induction false} QuotedFormReads(lim: Limits, counted: bool, spent: nat, gap: nat, f: Form, tail: string)
    requires f.Quoted? && FormOk(f) && Affordable(lim, counted, spent)
    ensures ReadString(lim, counted, spent, Blanks(gap) + (FormText(f) + tail))
         == Outcome(lim, counted, spent, FormFits(lim, f), FormValue(f), tail)
  {
    var body := GlyphsText(f.glyphs) + ("\"" + tail);
    Associate4("\"", GlyphsText(f.glyphs), "\"", tail);
    AfterFirst('"', body);
    BlanksSkipped(gap, "\"" + body);
    GlyphsRead(lim, counted, spent, "", f.glyphs, tail);
    GlyphsCount(f.glyphs);
    assert "" + GlyphsValue(f.glyphs) == GlyphsValue(f.glyphs);
  }

  lemma {:induction false} LiteralFormReads(lim: Limits, counted: bool, spent: nat, gap: nat, f: Form, tail: string)
    requires f.Literal? && FormOk(f)
    ensures ReadString(lim, counted, spent, Blanks(gap) + (FormText(f) + tail))
         == Outcome(lim, counted, spent, FormFits(lim, f), FormValue(f), tail)
  {
    var body := f.digits + (Close(f.plus) + (Eol(f.cr) + (f.data + tail)));
    Associate4("{", f.digits, Close(f.plus) + (Eol(f.cr) + f.data), tail);
    Associate4(Close(f.plus), Eol(f.cr), f.data, tail);
    Associate(Eol(f.cr), f.data, tail);
    Associate(f.digits, Close(f.plus) + (Eol(f.cr) + f.data), tail);
    assert FormText(f) + tail == "{" + body;
    AfterFirst('{', body);
    BlanksSkipped(gap, "{" + body);
    LiteralReads(lim, counted, spent, f, tail);
  }

  /** A quoted or literal string is read whole, whatever follows. */
  lemma {:induction false} StringReads(lim: Limits, counted: bool, spent: nat, gap: nat, f: Form, tail: string)
    requires !f.Atom? && FormOk(f) && Affordable(lim, counted, spent)
    ensures ReadString(lim, counted, spent, Blanks(gap) + (FormText(f) + tail))
         == Outcome(lim, counted, spent, FormFits(lim, f), FormValue(f), tail)
  {
    if f.Quoted? {
      QuotedFormReads(lim, counted, spent, gap, f, tail);
    } else {
      LiteralFormReads(lim, counted, spent, gap, f, tail);
    }
  }

  lemma {:induction false} TokenAt(lim: Limits, counted: bool, spent: nat, gap: nat, s: string)
    requires NoSpace(s)
    ensures ReadToken(lim, counted, spent, Blanks(gap) + s)
         == if s[0] == '"' || s[0] == '{' then ReadString(lim, counted, spent, s) else ReadAtom(lim, counted, spent, s)
  {
    BlanksSkipped(gap, s);
  }

  lemma {:induction false} FormReads(lim: Limits, counted: bool, spent: nat, gap: nat, f: Form, tail: string)
    requires FormOk(f) && (f.Atom? ==> EndsAtom(tail)) && Affordable(lim, counted, spent)
    ensures ReadToken(lim, counted, spent, Blanks(gap) + (FormText(f) + tail))
         == Outcome(lim, counted, spent, FormFits(lim, f), FormValue(f), tail)
  {
    var s := FormText(f) + tail;
    FormStarts(f, tail);
    TokenAt(lim, counted, spent, gap, s);
    assert Blanks(0) + s == s;
    if f.Atom? {
      ReadAtomReads(lim, counted, spent, 0, f.chars, tail);
    } else {
      StringReads(lim, counted, spent, 0, f, tail);
    }
  }

  // ----- words -----

  /** What follows the words is no part of them. */
  predicate EndsWords(end: string) {
    end != "" && !AtomOctet(end[0])
  }

  lemma {:induction false} BlanksStart(gap: nat, s: string)
    ensures gap > 0 ==> Blanks(gap) + s != "" && (Blanks(gap) + s)[0] == ' '
    ensures gap == 0 ==> Blanks(gap) + s == s
  {
  }

  /** Words after an atom end it. */
  lemma {:induction false} WordsEndAtom(ws: seq<Word>, end: string)
    requires WordsOk(ws, true) && EndsWords(end)
    ensures EndsAtom(WordsText(ws) + end)
  {
    if ws == [] {
      assert WordsText(ws) + end == end;
    } else {
      WordsSplit(ws, end);
      FormStarts(ws[0].form, WordsText(ws[1..]) + end);
      BlanksStart(ws[0].gap, FormText(ws[0].form) + (WordsText(ws[1..]) + end));
    }
  }

  lemma {:induction false} WordsSplit(ws: seq<Word>, end: string)
    requires ws != []
    ensures WordsText(ws) + end == Blanks(ws[0].gap) + (FormText(ws[0].form) + (WordsText(ws[1..]) + end))
  {
    Associate4(Blanks(ws[0].gap), FormText(ws[0].form), WordsText(ws[1..]), end);
  }

  lemma {:induction false} FirstWordReads(lim: Limits, counted: bool, spent: nat, ws: seq<Word>, end: string)
    requires ws != [] && WordsOk(ws, false) && EndsWords(end) && Affordable(lim, counted, spent)
    ensures var s := WordsText(ws) + end;
            && s != "" && !IsLineEnd(s[0])
            && ReadToken(lim, counted, spent, s)
            == Outcome(lim, counted, spent, FormFits(lim, ws[0].form), FormValue(ws[0].form), WordsText(ws[1..]) + end)
  {
    var f, more := ws[0].form, WordsText(ws[1..]) + end;
    WordsSplit(ws, end);
    FormStarts(f, more);
    BlanksStart(ws[0].gap, FormText(f) + more);
    if f.Atom? {
      WordsEndAtom(ws[1..], end);
    }
    FormReads(lim, counted, spent, ws[0].gap, f, more);
  }

  lemma {:induction false} WordsOkAnyway(ws: seq<Word>, afterAtom: bool)
    requires WordsOk(ws, afterAtom)
    ensures WordsOk(ws, false)
  {
  }

  // ----- commands -----

  function ArgsOutcome(lim: Limits, spent: nat, acc: seq<string>, ws: seq<Word>, rest: string)
    : Result<(seq<string>, string)>
  {
    if WordsFit(lim, ws) && AtMost(lim.maxArgs, |acc| + |ws|) && AtMost(lim.maxCommand, spent + Bytes(ws))
    then Ok((acc + Values(ws), rest)) else Err
  }

  predicate FirstFits(lim: Limits, spent: nat, before: nat, f: Form) {
    FormFits(lim, f) && AtMost(lim.maxArgs, before + 1) && AtMost(lim.maxCommand, spent + |FormValue(f)|)
  }

  lemma ArgsJoin(lim: Limits, spent: nat, acc: seq<string>, ws: seq<Word>, rest: string)
    requires ws != []
    ensures var v := FormValue(ws[0].form);
            ArgsOutcome(lim, spent, acc, ws, rest)
            == if FirstFits(lim, spent, |acc|, ws[0].form)
               then ArgsOutcome(lim, spent + |v|, acc + [v], ws[1..], rest) else Err
  {
    Associate(acc, [FormValue(ws[0].form)], Values(ws[1..]));
  }

  lemma {:induction false} ArgLoopAt(lim: Limits, spent: nat, acc: seq<string>, s: string, g: Got<string>)
    requires s != "" && !IsLineEnd(s[0]) && g == ReadToken(lim, true, spent, s)
    ensures ArgLoop(lim, spent, acc, s) == if AtMost(lim.maxArgs, |acc| + 1) then AfterArg(lim, acc, g) else Err
  {
  }

  lemma {:induction false} ArgOutcome(lim: Limits, spent: nat, acc: seq<string>, fits: bool, v: string, tail: string)
    ensures AfterArg(lim, acc, Outcome(lim, true, spent, fits, v, tail))
         == if fits && AtMost(lim.maxCommand, spent + |v|) then ArgLoop(lim, spent + |v|, acc + [v], tail) else Err
  {
  }

  lemma FirstArgRead(lim: Limits, spent: nat, acc: seq<string>, s: string, f: Form, more: string)
    requires s != "" && !IsLineEnd(s[0])
    requires ReadToken(lim, true, spent, s) == Outcome(lim, true, spent, FormFits(lim, f), FormValue(f), more)
    ensures ArgLoop(lim, spent, acc, s)
         == if FirstFits(lim, spent, |acc|, f)
            then ArgLoop(lim, spent + |FormValue(f)|, acc + [FormValue(f)], more) else Err
  {
    ArgLoopAt(lim, spent, acc, s, Outcome(lim, true, spent, FormFits(lim, f), FormValue(f), more));
    ArgOutcome(lim, spent, acc, FormFits(lim, f), FormValue(f), more);
  }

  lemma ArgsStep(lim: Limits, spent: nat, acc: seq<string>, s: string, ws: seq<Word>, more: string, rest: string)
    requires ws != [] && s != "" && !IsLineEnd(s[0])
    requires var f := ws[0].form;
             ReadToken(lim, true, spent, s) == Outcome(lim, true, spent, FormFits(lim, f), FormValue(f), more)
    requires var f := ws[0].form;
             FirstFits(lim, spent, |acc|, f) ==>
               ArgLoop(lim, spent + |FormValue(f)|, acc + [FormValue(f)], more)
               == ArgsOutcome(lim, spent + |FormValue(f)|, acc + [FormValue(f)], ws[1..], rest)
    ensures ArgLoop(lim, spent, acc, s) == ArgsOutcome(lim, spent, acc, ws, rest)
  {
    FirstArgRead(lim, spent, acc, s, ws[0].form, more);
    ArgsJoin(lim, spent, acc, ws, rest);
  }

  /** The arguments end here, and then comes the rest. */
  ghost predicate EndsArgs(lim: Limits, end: string, rest: string) {
    EndsWords(end) && forall spent, acc :: ArgLoop(lim, spent, acc, end) == Ok((acc, rest))
  }

  lemma EolEndsArgs(lim: Limits, cr: bool, rest: string)
    ensures EndsArgs(lim, Eol(cr) + rest, rest)
  {
    EolEnds(cr, rest);
  }

  lemma ArgsNone(lim: Limits, spent: nat, acc: seq<string>, end: string, rest: string)
    requires EndsArgs(lim, end, rest) && AtMost(lim.maxCommand, spent) && AtMost(lim.maxArgs, |acc|)
    ensures ArgLoop(lim, spent, acc, WordsText([]) + end) == ArgsOutcome(lim, spent, acc, [], rest)
  {
    assert WordsText([]) + end == end && acc + Values([]) == acc;
  }

  lemma {:induction false} ArgsCons(lim: Limits, spent: nat, acc: seq<string>, ws: seq<Word>, end: string, rest: string)
    requires ws != [] && WordsOk(ws, false) && EndsWords(end) && AtMost(lim.maxCommand, spent)
    requires var v := FormValue(ws[0].form);
             FirstFits(lim, spent, |acc|, ws[0].form) ==>
               ArgLoop(lim, spent + |v|, acc + [v], WordsText(ws[1..]) + end)
               == ArgsOutcome(lim, spent + |v|, acc + [v], ws[1..], rest)
    ensures ArgLoop(lim, spent, acc, WordsText(ws) + end) == ArgsOutcome(lim, spent, acc, ws, rest)
  {
    FirstWordReads(lim, true, spent, ws, end);
    ArgsStep(lim, spent, acc, WordsText(ws) + end, ws, WordsText(ws[1..]) + end, rest);
  }

  lemma {:induction false} ArgsRead(lim: Limits, spent: nat, acc: seq<string>, ws: seq<Word>, end: string, rest: string)
    requires WordsOk(ws, false) && EndsArgs(lim, end, rest)
    requires AtMost(lim.maxCommand, spent) && AtMost(lim.maxArgs, |acc|)
    ensures ArgLoop(lim, spent, acc, WordsText(ws) + end) == ArgsOutcome(lim, spent, acc, ws, rest)
    decreases |ws|
  {
    if ws == [] {
      ArgsNone(lim, spent, acc, end, rest);
    } else {
      var f := ws[0].form;
      var v := FormValue(f);
      WordsOkAnyway(ws[1..], f.Atom?);
      if FirstFits(lim, spent, |acc|, f) {
        assert |acc + [v]| == |acc| + 1;
        ArgsRead(lim, spent + |v|, acc + [v], ws[1..], end, rest);
      }
      ArgsCons(lim, spent, acc, ws, end, rest);
    }
  }

  lemma CallSplit(c: Call, rest: string)
    ensures CallText(c) + rest == Blanks(c.lead) + (c.name + (WordsText(c.words) + (Eol(c.cr) + rest)))
  {
    Associate4(Blanks(c.lead), c.name, WordsText(c.words) + Eol(c.cr), rest);
    Associate(c.name, WordsText(c.words) + Eol(c.cr), rest);
    Associate(WordsText(c.words), Eol(c.cr), rest);
  }

  /** Every spelling of a command is read to its name and values, and not a byte further, exactly within the limits. */
  lemma CallReads(lim: Limits, c: Call, rest: string)
    requires CallOk(c)
    ensures ReadCommand(lim, CallText(c) + rest)
         == if CallFits(lim, c) then Ok(Command(Capital(c.name), Values(c.words), rest)) else Err
  {
    var end := Eol(c.cr) + rest;
    var more := WordsText(c.words) + end;
    CallSplit(c, rest);
    EolEndsArgs(lim, c.cr, rest);
    WordsEndAtom(c.words, end);
    ReadAtomReads(lim, true, 0, c.lead, c.name, more);
    UpperIsCapital(c.name);
    if AtMost(lim.maxAtom, |c.name|) && AtMost(lim.maxCommand, |c.name|) {
      WordsOkAnyway(c.words, true);
      ArgsRead(lim, |c.name|, [], c.words, end, rest);
      assert [] + Values(c.words) == Values(c.words);
    }
  }

  // ----- statuses -----

  lemma MessageSplit(m: Message, rest: string)
    ensures MessageText(m) + rest == (if m.form.Some? then FormText(m.form.value) else "") + (Eol(m.cr) + rest)
  {
    Associate(if m.form.Some? then FormText(m.form.value) else "", Eol(m.cr), rest);
  }

  lemma MessageReads(lim: Limits, st: Status, m: Message, rest: string)
    requires MessageOk(m) && st.text == ""
    ensures ReadText(lim, st, MessageText(m) + rest)
         == if MessageFits(lim, m) then Ok(Reply(st.(text := MessageValue(m)), rest)) else Err
    ensures NoSpace(MessageText(m) + rest) && (MessageText(m) + rest)[0] != '('
  {
    var end := Eol(m.cr) + rest;
    MessageSplit(m, rest);
    EolEnds(m.cr, rest);
    match m.form
    case None => assert "" + end == end;
    case Some(f) =>
      FormStarts(f, end);
      assert Blanks(0) + (FormText(f) + end) == FormText(f) + end;
      FormReads(lim, false, 0, 0, f, end);
  }

  /** What follows the words of a response code. */
  function CodeEnd(close: nat, after: nat, said: Option<Message>, rest: string): string {
    Blanks(close) + (")" + (Blanks(after) + (SaidText(said) + rest)))
  }

  predicate SaidFits(lim: Limits, said: Option<Message>) {
    said.Some? ==> MessageFits(lim, said.value)
  }

  function SaidValue(said: Option<Message>): string {
    if said.Some? then MessageValue(said.value) else ""
  }

  lemma {:induction false} CodeCloses(lim: Limits, st: Status, close: nat, after: nat, said: Option<Message>,
                                      rest: string)
    requires (said.Some? ==> MessageOk(said.value)) && (said.None? ==> rest == "") && st.text == ""
    ensures CodeLoop(lim, st, CodeEnd(close, after, said, rest))
         == if SaidFits(lim, said) then Ok(Reply(st.(text := SaidValue(said)), rest)) else Err
    ensures EndsWords(CodeEnd(close, after, said, rest))
  {
    var more := Blanks(after) + (SaidText(said) + rest);
    AfterFirst(')', more);
    BlanksSkipped(close, ")" + more);
    BlanksStart(close, ")" + more);
    match said
    case None =>
      assert more == Blanks(after);
      OnlyBlanks(after);
    case Some(m) =>
      MessageReads(lim, st, m, rest);
      BlanksSkipped(after, MessageText(m) + rest);
  }

  lemma {:induction false} FirstCodeWordReads(lim: Limits, st: Status, ws: seq<Word>, end: string)
    requires ws != [] && WordsOk(ws, false) && EndsWords(end)
    ensures var f := ws[0].form;
            CodeLoop(lim, st, WordsText(ws) + end)
            == if FormFits(lim, f)
               then CodeLoop(lim, st.(codeArgs := st.codeArgs + [FormValue(f)]), WordsText(ws[1..]) + end) else Err
  {
    var gap, f, more := ws[0].gap, ws[0].form, WordsText(ws[1..]) + end;
    var s := FormText(f) + more;
    WordsSplit(ws, end);
    FormStarts(f, more);
    BlanksSkipped(gap, s);
    assert Blanks(0) + s == s;
    if f.Atom? {
      WordsEndAtom(ws[1..], end);
    }
    FormReads(lim, false, 0, 0, f, more);
  }

  lemma {:induction false} CodeWordsRead(lim: Limits, st: Status, ws: seq<Word>, end: string)
    requires WordsOk(ws, false) && EndsWords(end)
    ensures CodeLoop(lim, st, WordsText(ws) + end)
         == if WordsFit(lim, ws) then CodeLoop(lim, st.(codeArgs := st.codeArgs + Values(ws)), end) else Err
    decreases |ws|
  {
    if ws == [] {
      assert WordsText(ws) + end == end && st.codeArgs + Values(ws) == st.codeArgs;
    } else {
      FirstCodeWordReads(lim, st, ws, end);
      WordsOkAnyway(ws[1..], ws[0].form.Atom?);
      CodeWordsRead(lim, st.(codeArgs := st.codeArgs + [FormValue(ws[0].form)]), ws[1..], end);
      Associate(st.codeArgs, [FormValue(ws[0].form)], Values(ws[1..]));
    }
  }

  lemma CodedSplit(m: More, rest: string)
    requires m.Coded?
    ensures MoreText(m) + rest
         == Blanks(m.gap) + ("(" + (Blanks(m.inner) + (m.code + (WordsText(m.words)
            + CodeEnd(m.close, m.after, m.said, rest)))))
  {
    var e3 := Blanks(m.after) + SaidText(m.said);
    var e2 := Blanks(m.close) + (")" + e3);
    var e1 := m.code + (WordsText(m.words) + e2);
    Associate(Blanks(m.after), SaidText(m.said), rest);
    Associate4(Blanks(m.close), ")", e3, rest);
    Associate4(m.code, WordsText(m.words), e2, rest);
    Associate4("(", Blanks(m.inner), e1, rest);
    Associate(Blanks(m.gap), "(" + (Blanks(m.inner) + e1), rest);
  }

  lemma {:induction false} CodeReads(lim: Limits, st: Status, m: More, rest: string)
    requires m.Coded? && MoreOk(m) && (m.said.None? ==> rest == "") && st.text == "" && st.codeArgs == []
    ensures ReadCode(lim, st,
                     Blanks(m.inner) + (m.code + (WordsText(m.words) + CodeEnd(m.close, m.after, m.said, rest))))
         == if AtMost(lim.maxAtom, |m.code|) && WordsFit(lim, m.words) && SaidFits(lim, m.said)
            then Ok(Reply(Status(st.kind, Capital(m.code), Values(m.words), SaidValue(m.said)), rest)) else Err
  {
    var end := CodeEnd(m.close, m.after, m.said, rest);
    var coded := st.(code := Upper(m.code));
    CodeCloses(lim, coded.(codeArgs := Values(m.words)), m.close, m.after, m.said, rest);
    WordsEndAtom(m.words, end);
    ReadAtomReads(lim, false, 0, m.inner, m.code, WordsText(m.words) + end);
    UpperIsCapital(m.code);
    WordsOkAnyway(m.words, true);
    CodeWordsRead(lim, coded, m.words, end);
    assert [] + Values(m.words) == Values(m.words);
  }

  /** How a status goes on after its kind. */
  function AfterKind(lim: Limits, st: Status, s: string): Result<Reply> {
    if s == "" then Err
    else if s[0] != ' ' then StatusEnd(st, s)
    else
      match SkipSp(s)
      case Err => Err
      case Ok(s2) => if s2[0] == '(' then ReadCode(lim, st, s2[1..]) else ReadText(lim, st, s2)
  }

  predicate MoreFits(lim: Limits, m: More) {
    AnswerFits(lim, Answer(0, "", m))
  }

  lemma MoreReads(lim: Limits, l: Answer, rest: string)
    requires MoreOk(l.more) && Follows(rest, l)
    ensures AfterKind(lim, Status(Capital(l.kind), "", [], ""), MoreText(l.more) + rest)
         == if MoreFits(lim, l.more) then Ok(Reply(AnswerValue(l), rest)) else Err
    ensures EndsAtom(MoreText(l.more) + rest)
  {
    var st := Status(Capital(l.kind), "", [], "");
    match l.more
    case Bare(cr) => EolEnds(cr, rest);
    case Said(gap, message) =>
      Associate(Blanks(gap), MessageText(message), rest);
      MessageReads(lim, st, message, rest);
      BlanksSkipped(gap, MessageText(message) + rest);
      BlanksStart(gap, MessageText(message) + rest);
    case Coded(gap, inner, code, words, close, after, said) =>
      var body := Blanks(inner) + (code + (WordsText(words) + CodeEnd(close, after, said, rest)));
      CodedSplit(l.more, rest);
      AfterFirst('(', body);
      BlanksSkipped(gap, "(" + body);
      BlanksStart(gap, "(" + body);
      CodeReads(lim, st, l.more, rest);
  }

  lemma {:induction false} StatusAt(lim: Limits, s: string, name: string, more: string)
    requires var g := ReadAtom(lim, false, 0, s); g.Got? && g.value == name && g.rest == more && IsKind(Upper(name))
    ensures ReadStatus(lim, s) == AfterKind(lim, Status(Upper(name), "", [], ""), more)
  {
  }

  lemma AnswerSplit(l: Answer, rest: string)
    ensures AnswerText(l) + rest == Blanks(l.lead) + (l.kind + (MoreText(l.more) + rest))
  {
    Associate4(Blanks(l.lead), l.kind, MoreText(l.more), rest);
  }

  /** Every spelling of a status line is read to its value, and not a byte further, exactly within the limits. */
  lemma AnswerReads(lim: Limits, l: Answer, rest: string)
    requires AnswerOk(l) && Follows(rest, l)
    ensures ReadStatus(lim, AnswerText(l) + rest) == if AnswerFits(lim, l) then Ok(Reply(AnswerValue(l), rest)) else Err
  {
    var more := MoreText(l.more) + rest;
    AnswerSplit(l, rest);
    MoreReads(lim, l, rest);
    ReadAtomReads(lim, false, 0, l.lead, l.kind, more);
    UpperIsCapital(l.kind);
    if AtMost(lim.maxAtom, |l.kind|) {
      StatusAt(lim, AnswerText(l) + rest, l.kind, more);
    }
  }

  // ----- listings -----

  lemma ItemSplit(i: Item, rest: string)
    ensures ItemText(i) + rest == FormText(i.name) + (MarkText(i.mark) + (Eol(i.cr) + rest))
  {
    Associate4(FormText(i.name), MarkText(i.mark), Eol(i.cr), rest);
  }

  lemma LineAt(lim: Limits, name: string, s: string, more: string)
    requires s != "" && (s[0] == '"' || s[0] == '{') && more != "" && ReadString(lim, false, 0, s) == Got(name, more, 0)
    ensures more[0] != ' ' ==> ReadLine(lim, s) == ReadEntryEnd(ScriptInfo(name, false), more)
    ensures more[0] == ' ' ==>
              var g := ReadAtom(lim, false, 0, more);
              ReadLine(lim, s)
              == if g.Fail? then Err else ReadEntryEnd(ScriptInfo(name, Upper(g.value) == "ACTIVE"), g.rest)
  {
  }

  lemma ItemReads(lim: Limits, i: Item, rest: string)
    requires ItemOk(i)
    ensures ReadLine(lim, ItemText(i) + rest) == if ItemFits(lim, i) then Ok(Entry(ItemValue(i), rest)) else Err
  {
    var end := Eol(i.cr) + rest;
    var more := MarkText(i.mark) + end;
    var s := FormText(i.name) + more;
    ItemSplit(i, rest);
    FormStarts(i.name, more);
    assert Blanks(0) + s == s;
    StringReads(lim, false, 0, 0, i.name, more);
    EolEnds(i.cr, rest);
    if FormFits(lim, i.name) {
      match i.mark
      case None =>
        assert more == end;
        LineAt(lim, FormValue(i.name), s, more);
      case Some(word) =>
        Associate(Blanks(word.gap), word.form.chars, end);
        BlanksStart(word.gap, word.form.chars + end);
        ReadAtomReads(lim, false, 0, word.gap, word.form.chars, end);
        UpperIsCapital(word.form.chars);
        LineAt(lim, FormValue(i.name), s, more);
    }
  }

  lemma FinalReads(lim: Limits, l: Answer, rest: string)
    requires AnswerOk(l) && Follows(rest, l)
    ensures ReadLine(lim, AnswerText(l) + rest) == if AnswerFits(lim, l) then Ok(Final(AnswerValue(l), rest)) else Err
  {
    AnswerReads(lim, l, rest);
    AnswerSplit(l, rest);
    BlanksStart(l.lead, l.kind + (MoreText(l.more) + rest));
    assert (l.kind + (MoreText(l.more) + rest))[0] == l.kind[0];
  }

  function ListingOutcome(lim: Limits, acc: seq<ScriptInfo>, items: seq<Item>, l: Answer, rest: string)
    : Result<(seq<ScriptInfo>, string)>
  {
    if ItemsFit(lim, items) && AnswerFits(lim, l) && Capital(l.kind) == "OK"
    then Ok((acc + ItemValues(items), rest)) else Err
  }

  /** Every spelling of a listing up to its final status is collected in order; only OK ends it well. */
  lemma {:induction false} ItemsRead(lim: Limits, acc: seq<ScriptInfo>, items: seq<Item>, l: Answer, rest: string)
    requires ItemsOk(items) && AnswerOk(l) && Follows(rest, l)
    ensures ReadListing(lim, acc, ItemsText(items) + (AnswerText(l) + rest)) == ListingOutcome(lim, acc, items, l, rest)
    decreases |items|
  {
    var end := AnswerText(l) + rest;
    if items == [] {
      assert ItemsText(items) + end == end && acc + ItemValues(items) == acc;
      FinalReads(lim, l, rest);
    } else {
      Associate(ItemText(items[0]), ItemsText(items[1..]), end);
      ItemReads(lim, items[0], ItemsText(items[1..]) + end);
      ItemsRead(lim, acc + [ItemValue(items[0])], items[1..], l, rest);
      Associate(acc, [ItemValue(items[0])], ItemValues(items[1..]));
    }
  }
}
