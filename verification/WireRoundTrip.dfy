/** What a ManageSieve peer writes, the other reads back exactly, or refuses because of a limit. */
module WireRoundTrip {
  import opened Wrappers
  import opened Sequences
  import opened Wire
  import opened WireGrammar
  import Decimal
  import R = WireReads
  import Writer

  // ----- strings -----

  function GlyphsOf(v: string): seq<Glyph> {
    if v == "" then [] else [Glyph(v[0], v[0] == '"' || v[0] == '\\')] + GlyphsOf(v[1..])
  }

  lemma {:induction false} GlyphsOfText(v: string)
    ensures var gs := GlyphsOf(v);
            GlyphsText(gs) == Writer.Escape(v) && GlyphsValue(gs) == v && |gs| == |v| && GlyphsOk(gs)
  {
    if v != "" {
      GlyphsOfText(v[1..]);
      AfterFirst(Glyph(v[0], v[0] == '"' || v[0] == '\\'), GlyphsOf(v[1..]));
      assert v == [v[0]] + v[1..];
    }
  }

  /** The form in which a string is written. */
  function FormOf(v: string, plus: bool): Form {
    if ValidQuoted(v) then Quoted(GlyphsOf(v)) else Literal(Decimal.Numeral(|v|), plus, true, v)
  }

  /** The limit that governs a string depends on the form the writer chose. */
  predicate StringFits(lim: Limits, v: string) {
    if ValidQuoted(v) then AtMost(lim.maxQuoted, |v|) else |v| <= 4294967295 && AtMost(lim.maxLiteral, |v|)
  }

  lemma {:induction false} LiteralOfText(v: string, plus: bool)
    ensures FormText(Literal(Decimal.Numeral(|v|), plus, true, v)) == LiteralHead(|v|, plus) + v
  {
    Associate4("{" + Decimal.Numeral(|v|), Close(plus), "\r\n", v);
    Associate("{", Decimal.Numeral(|v|), Close(plus) + ("\r\n" + v));
  }

  lemma FormOfText(lim: Limits, v: string, plus: bool)
    ensures var f := FormOf(v, plus);
            && !f.Atom? && FormOk(f) && FormText(f) == StringText(v, plus) && FormValue(f) == v
            && (FormFits(lim, f) <==> StringFits(lim, v))
  {
    if ValidQuoted(v) {
      GlyphsOfText(v);
      Associate("\"", Writer.Escape(v), "\"");
    } else {
      Decimal.NumeralRoundTrip(|v|);
      LiteralOfText(v, plus);
    }
  }

  /** An octet that is a control character, or the second octet of one from U+0080 to U+009F. */
  predicate EndsControl(v: string, i: nat)
    requires i < |v|
  {
    v[i] < ' ' || v[i] as int == 127 || (i > 0 && v[i - 1] as int == 194 && 128 <= v[i] as int < 160)
  }

  /** A string is quoted exactly when it has at most 1024 octets and no control character, and a literal otherwise. */
  lemma QuotedExactly(v: string, plus: bool)
    ensures StringText(v, plus) != ""
    ensures StringText(v, plus)[0]
         == if |v| <= 1024 && forall i :: 0 <= i < |v| ==> !EndsControl(v, i) then '"' else '{'
  {
    if i :| 0 <= i < |v| && ControlAt(v, i) {
      assert EndsControl(v, i) || EndsControl(v, i + 1);
    }
    if i :| 0 <= i < |v| && EndsControl(v, i) {
      assert ControlAt(v, i) || ControlAt(v, i - 1);
    }
    FirstOctet(v, plus);
  }

  lemma FirstOctet(v: string, plus: bool)
    ensures StringText(v, plus) != "" && StringText(v, plus)[0] == if ValidQuoted(v) then '"' else '{'
  {
    if ValidQuoted(v) {
      Associate("\"", Writer.Escape(v), "\"");
    } else {
      LiteralOfText(v, plus);
    }
  }

  /** Every string is read back whole, whatever its bytes and whatever follows, exactly when the limits allow it. */
  lemma StringReads(lim: Limits, counted: bool, spent: nat, v: string, plus: bool, tail: string)
    requires Affordable(lim, counted, spent)
    ensures ReadString(lim, counted, spent, StringText(v, plus) + tail)
         == R.Outcome(lim, counted, spent, StringFits(lim, v), v, tail)
    ensures ReadToken(lim, counted, spent, StringText(v, plus) + tail)
         == R.Outcome(lim, counted, spent, StringFits(lim, v), v, tail)
  {
    var f := FormOf(v, plus);
    FormOfText(lim, v, plus);
    assert Blanks(0) + (FormText(f) + tail) == FormText(f) + tail;
    R.StringReads(lim, counted, spent, 0, f, tail);
    R.FormReads(lim, counted, spent, 0, f, tail);
  }

  // ----- commands -----

  function ArgValue(a: Arg): string {
    match a
    case StrArg(text) => text
    case NumArg(number) => Decimal.FormatInt(number)
  }

  function ArgValues(args: seq<Arg>): seq<string> {
    if args == [] then [] else [ArgValue(args[0])] + ArgValues(args[1..])
  }

  predicate ArgFits(lim: Limits, a: Arg) {
    if a.StrArg? then StringFits(lim, a.text) else AtMost(lim.maxAtom, |ArgValue(a)|)
  }

  predicate ArgsFit(lim: Limits, args: seq<Arg>) {
    args == [] || (ArgFits(lim, args[0]) && ArgsFit(lim, args[1..]))
  }

  function TotalBytes(args: seq<Arg>): nat {
    if args == [] then 0 else |ArgValue(args[0])| + TotalBytes(args[1..])
  }

  function WordOf(a: Arg): Word {
    Word(1, if a.StrArg? then FormOf(a.text, true) else Atom(Decimal.FormatInt(a.number)))
  }

  function WordsOf(args: seq<Arg>): seq<Word> {
    if args == [] then [] else [WordOf(args[0])] + WordsOf(args[1..])
  }

  lemma WordOfText(lim: Limits, a: Arg)
    ensures var f := WordOf(a).form;
            && FormOk(f) && FormText(f) == ArgText(a) && FormValue(f) == ArgValue(a)
            && (FormFits(lim, f) <==> ArgFits(lim, a))
  {
    match a
    case StrArg(text) => FormOfText(lim, text, true);
    case NumArg(number) => Decimal.NumeralRoundTrip(if number < 0 then -number else number);
  }

  lemma {:induction false} WordsOfText(lim: Limits, args: seq<Arg>, afterAtom: bool)
    ensures var ws := WordsOf(args);
            && |ws| == |args| && WordsOk(ws, afterAtom) && WordsText(ws) == ArgsText(args)
            && Values(ws) == ArgValues(args) && Bytes(ws) == TotalBytes(args)
            && (WordsFit(lim, ws) <==> ArgsFit(lim, args))
  {
    if args != [] {
      var w, ws := WordOf(args[0]), WordsOf(args[1..]);
      WordOfText(lim, args[0]);
      WordsOfText(lim, args[1..], w.form.Atom?);
      AfterFirst(w, ws);
      assert Blanks(1) == " ";
      Associate(" ", FormText(w.form), WordsText(ws));
    }
  }

  predicate CommandAdmitted(lim: Limits, name: string, args: seq<Arg>) {
    && AtMost(lim.maxAtom, |name|) && ArgsFit(lim, args) && AtMost(lim.maxArgs, |args|)
    && AtMost(lim.maxCommand, |name| + TotalBytes(args))
  }

  lemma {:induction false} UpperIsUpper(s: string)
    ensures |Upper(s)| == |s| && Upper(Upper(s)) == Upper(s)
  {
    if s != "" {
      UpperIsUpper(s[1..]);
      assert Upper(s)[1..] == Upper(s[1..]);
    }
  }

  /**
   * A command is read back with its arguments in order and nothing of what follows,
   * exactly when every limit admits it.
   */
  lemma {:induction false} CommandRoundTrip(lim: Limits, name: string, args: seq<Arg>, rest: string)
    requires AtomOk(Upper(name))
    ensures ReadCommand(lim, CommandText(name, args) + rest)
         == if CommandAdmitted(lim, name, args) then Ok(Command(Upper(name), ArgValues(args), rest)) else Err
  {
    var c := Call(0, Upper(name), WordsOf(args), true);
    WordsOfText(lim, args, true);
    UpperIsUpper(name);
    R.UpperIsCapital(Upper(name));
    Associate(Upper(name), WordsText(c.words), Eol(true));
    assert CallText(c) == CommandText(name, args);
    R.CallReads(lim, c, rest);
  }

  /** A command limit of one byte admits a command of one byte, and not the same with one byte in a literal. */
  lemma LiteralBytesAreCounted(rest: string)
    ensures var lim := Limits(0, 0, 0, 0, 1);
            && ReadCommand(lim, CommandText("X", []) + rest) == Ok(Command("X", [], rest))
            && ReadCommand(lim, CommandText("X", [StrArg("\n")]) + rest) == Err
            && StringText("\n", true)[0] == '{'
  {
    var lim := Limits(0, 0, 0, 0, 1);
    assert "X"[1..] == "" && Upper("X") == "X";
    CommandRoundTrip(lim, "X", [], rest);
    CommandRoundTrip(lim, "X", [StrArg("\n")], rest);
    assert TotalBytes([StrArg("\n")]) >= 1;
    assert ControlAt("\n", 0);
  }

  /** No configured limit; a literal still has at most 2^32 - 1 bytes. */
  const UNLIMITED := Limits(0, 0, 0, 0, 0)

  /** Two streams that begin with a command and agree as bytes agree on the command and on what follows it. */
  lemma {:induction false} CommandsAreSelfDelimiting(name: string, args: seq<Arg>, rest: string, name': string,
                                                     args': seq<Arg>, rest': string)
    requires AtomOk(Upper(name)) && AtomOk(Upper(name'))
    requires ArgsFit(UNLIMITED, args) && ArgsFit(UNLIMITED, args')
    requires CommandText(name, args) + rest == CommandText(name', args') + rest'
    ensures Upper(name) == Upper(name') && ArgValues(args) == ArgValues(args') && rest == rest'
  {
    CommandRoundTrip(UNLIMITED, name, args, rest);
    CommandRoundTrip(UNLIMITED, name', args', rest');
  }
}
