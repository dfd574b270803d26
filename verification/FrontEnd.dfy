/** Lexer and parser together: the whole front end undoes printing and writing. */
module FrontEnd {
  import opened Wrappers
  import opened Tokens
  import opened Ast
  import opened Printer
  import Lexer
  import LexerRoundTrip
  import Parser
  import ParserLimits
  import ParserRoundTrip
  import Writer

  datatype Options = Options(lexer: Lexer.Options, parser: Parser.Options)

  /** Source text to syntax tree: the first two stages of Load in sieve.go. */
  function Read(source: string, opts: Options): Result<seq<Cmd>> {
    match Lexer.Lex(source, opts.lexer)
    case Err => Err
    case Ok(toks) => Parser.Parse(toks, opts.parser)
  }

  /** The canonical source text of a tree. */
  function Source(cs: seq<Cmd>): string {
    Writer.Text(PrintCmds(cs))
  }

  // ----- negative numbers: no source text spells them -----

  predicate NonNegativeArgs(args: seq<Arg>) {
    args == [] || ((args[0].NumberArg? ==> 0 <= args[0].value) && NonNegativeArgs(args[1..]))
  }

  predicate NonNegativeTests(ts: seq<Test>)
    decreases ts
  {
    ts == [] || (NonNegativeArgs(ts[0].args) && NonNegativeTests(ts[0].tests) && NonNegativeTests(ts[1..]))
  }

  predicate NonNegativeEnding(e: Ending)
    decreases e
  {
    e.Braced? ==> NonNegative(e.cmds)
  }

  /** No number of the tree wrapped around to a negative value. */
  predicate NonNegative(cs: seq<Cmd>)
    decreases cs
  {
    cs == [] || (&& NonNegativeArgs(cs[0].args) && NonNegativeTests(cs[0].tests)
                 && NonNegativeEnding(cs[0].ending) && NonNegative(cs[1..]))
  }

  /** Tokens that a printed tree may hold, of which the negative numbers cannot be read back. */
  predicate Writable(toks: seq<Token>) {
    forall i :: 0 <= i < |toks| ==> Spellable(toks[i]) || LexerRoundTrip.IsNegative(toks[i])
  }

  predicate NoNegative(toks: seq<Token>) {
    forall i :: 0 <= i < |toks| ==> !LexerRoundTrip.IsNegative(toks[i])
  }

  /** Writable, and free of negative numbers exactly when `clean`. */
  predicate Prints(toks: seq<Token>, clean: bool) {
    Writable(toks) && (NoNegative(toks) <==> clean)
  }

  lemma OnePrints(t: Token)
    requires Spellable(t)
    ensures Prints([t], true)
  {
  }

  lemma BothPrint(a: seq<Token>, p: bool, b: seq<Token>, q: bool)
    requires Prints(a, p) && Prints(b, q)
    ensures Prints(a + b, p && q)
  {
    if NoNegative(a + b) {
      assert forall i :: 0 <= i < |a| ==> a[i] == (a + b)[i];
      assert forall i :: 0 <= i < |b| ==> b[i] == (a + b)[|a| + i];
    }
  }

  /** A token in front and one behind change nothing. */
  lemma WrappedPrints(first: Token, toks: seq<Token>, clean: bool, last: Token)
    requires Spellable(first) && Spellable(last) && Prints(toks, clean)
    ensures Prints([first] + toks, clean) && Prints([first] + toks + [last], clean) && Prints(toks + [last], clean)
  {
    OnePrints(first);
    OnePrints(last);
    BothPrint([first], true, toks, clean);
    BothPrint([first] + toks, clean, [last], true);
    BothPrint(toks, clean, [last], true);
  }

  lemma {:induction false} StringsPrint(texts: seq<string>)
    requires forall i :: 0 <= i < |texts| ==> CrlfOnly(texts[i])
    ensures Prints(MoreStrings(texts), true) && Prints(PrintStrings(texts), true)
  {
    if texts != [] {
      StringsPrint(texts[1..]);
      OnePrints(String(texts[0]));
      BothPrint([String(texts[0])], true, MoreStrings(texts[1..]), true);
      BothPrint([Comma, String(texts[0])], true, MoreStrings(texts[1..]), true);
    }
  }

  lemma ArgPrints(a: Arg)
    requires ArgOk(a, true)
    ensures Prints(PrintArg(a), a.NumberArg? ==> 0 <= a.value)
  {
    match a
    case NumberArg(v) => assert [Number(v, Unit)][0] == Number(v, Unit);
    case StringListArg(texts) =>
      StringsPrint(texts);
      WrappedPrints(ListStart, PrintStrings(texts), true, ListEnd);
    case _ =>
  }

  lemma {:induction false} ArgsPrint(args: seq<Arg>)
    requires ArgsOk(args, true)
    ensures Prints(PrintArgs(args), NonNegativeArgs(args))
  {
    if args != [] {
      ArgPrints(args[0]);
      ArgsPrint(args[1..]);
      BothPrint(PrintArg(args[0]), args[0].NumberArg? ==> 0 <= args[0].value,
                PrintArgs(args[1..]), NonNegativeArgs(args[1..]));
    }
  }

  lemma {:induction false} TestPrints(t: Test)
    requires TestOk(t, true)
    ensures Prints(PrintTest(t), NonNegativeArgs(t.args) && NonNegativeTests(t.tests))
    decreases t
  {
    var p, q := NonNegativeArgs(t.args), NonNegativeTests(t.tests);
    ArgsPrint(t.args);
    TestsPrint(t.tests);
    BothPrint(PrintArgs(t.args), p, PrintTests(t.tests), q);
    WrappedPrints(Identifier(t.id), PrintArgs(t.args) + PrintTests(t.tests), p && q, Comma);
  }

  lemma {:induction false} TestsPrint(ts: seq<Test>)
    requires TestsOk(ts, true)
    ensures Prints(PrintTests(ts), NonNegativeTests(ts)) && Prints(MoreTests(ts), NonNegativeTests(ts))
    decreases ts
  {
    if ts != [] {
      var p, q := NonNegativeArgs(ts[0].args) && NonNegativeTests(ts[0].tests), NonNegativeTests(ts[1..]);
      TestPrints(ts[0]);
      TestsPrint(ts[1..]);
      var first, more := PrintTest(ts[0]), MoreTests(ts[1..]);
      BothPrint(first, p, more, q);
      WrappedPrints(Comma, first + more, p && q, TestListEnd);
      ParenthesisedPrints(first, p, more, q);
    }
  }

  lemma ParenthesisedPrints(first: seq<Token>, p: bool, more: seq<Token>, q: bool)
    requires Prints(first, p) && Prints(more, q)
    ensures Prints([TestListStart] + (first + (more + [TestListEnd])), p && q)
  {
    WrappedPrints(Comma, more, q, TestListEnd);
    BothPrint(first, p, more + [TestListEnd], q);
    WrappedPrints(TestListStart, first + (more + [TestListEnd]), p && q, Comma);
  }

  lemma {:induction false} EndingPrints(e: Ending)
    requires e.Braced? ==> CmdsOk(e.cmds, true)
    ensures Prints(PrintEnding(e), NonNegativeEnding(e))
    decreases e
  {
    if e.Braced? {
      CmdsPrint(e.cmds);
      WrappedPrints(BlockStart, PrintCmds(e.cmds), NonNegative(e.cmds), BlockEnd);
    } else {
      OnePrints(Semicolon);
    }
  }

  lemma {:induction false} CmdPrints(c: Cmd)
    requires CmdOk(c, true)
    ensures Prints(PrintCmd(c), NonNegativeArgs(c.args) && NonNegativeTests(c.tests) && NonNegativeEnding(c.ending))
    decreases c
  {
    var p, q, r := NonNegativeArgs(c.args), NonNegativeTests(c.tests), NonNegativeEnding(c.ending);
    var end := PrintTests(c.tests) + PrintEnding(c.ending);
    ArgsPrint(c.args);
    TestsPrint(c.tests);
    EndingPrints(c.ending);
    BothPrint(PrintTests(c.tests), q, PrintEnding(c.ending), r);
    BothPrint(PrintArgs(c.args), p, end, q && r);
    WrappedPrints(Identifier(c.id), PrintArgs(c.args) + end, p && q && r, Comma);
  }

  lemma {:induction false} CmdsPrint(cs: seq<Cmd>)
    requires CmdsOk(cs, true)
    ensures Prints(PrintCmds(cs), NonNegative(cs))
    decreases cs
  {
    if cs != [] {
      var c := cs[0];
      CmdPrints(c);
      CmdsPrint(cs[1..]);
      BothPrint(PrintCmd(c), NonNegativeArgs(c.args) && NonNegativeTests(c.tests) && NonNegativeEnding(c.ending),
                PrintCmds(cs[1..]), NonNegative(cs[1..]));
    }
  }

  // ----- the inverse -----

  /** What the lexer and the parser demand of a printed tree. */
  predicate Admitted(cs: seq<Cmd>, opts: Options) {
    var toks := PrintCmds(cs);
    && NonNegative(cs)
    && LexerRoundTrip.PeeksOk(toks)
    && LexerRoundTrip.StringsFit(toks, opts.lexer.maxStringBytes)
    && LexerRoundTrip.CountOk(0, toks, opts.lexer)
    && ParserRoundTrip.Within(cs, 0, opts.parser)
  }

  lemma {:induction false} TestsOkUnspelled(ts: seq<Test>)
    requires TestsOk(ts, true)
    ensures TestsOk(ts, false)
    decreases ts
  {
    forall i | 0 <= i < |ts| ensures TestOk(ts[i], false) {
      assert TestOk(ts[i], true);
      TestsOkUnspelled(ts[i].tests);
    }
  }

  lemma {:induction false} CmdsOkUnspelled(cs: seq<Cmd>)
    requires CmdsOk(cs, true)
    ensures CmdsOk(cs, false)
    decreases cs
  {
    forall i | 0 <= i < |cs| ensures CmdOk(cs[i], false) {
      assert CmdOk(cs[i], true);
      TestsOkUnspelled(cs[i].tests);
      if cs[i].ending.Braced? {
        CmdsOkUnspelled(cs[i].ending.cmds);
      }
    }
  }

  /** Printing, writing, lexing and parsing gives back exactly the tree, or an error when it is not admitted. */
  lemma {:induction false} ReadUndoesSource(cs: seq<Cmd>, opts: Options)
    requires CmdsOk(cs, true)
    ensures Read(Source(cs), opts) == if Admitted(cs, opts) then Ok(cs) else Err
  {
    var toks := PrintCmds(cs);
    CmdsPrint(cs);
    if NonNegative(cs) {
      LexerRoundTrip.LexUndoesWrite(toks, opts.lexer);
      CmdsOkUnspelled(cs);
      ParserRoundTrip.ParseUndoesPrint(cs, opts.parser);
    } else {
      LexerRoundTrip.NegativeNumberIsRefused(toks, opts.lexer);
    }
  }

  /** The tree that any source text reads as comes back from its canonical source, exactly when that is admitted. */
  lemma RereadIsStable(source: string, cs: seq<Cmd>, opts: Options)
    requires Read(source, opts) == Ok(cs)
    ensures Read(Source(cs), opts) == if Admitted(cs, opts) then Ok(cs) else Err
  {
    LexerRoundTrip.LexYieldsLexable(source, opts.lexer, 0);
    var toks := Lexer.Lex(source, opts.lexer).value;
    ParserLimits.ParseSound(toks, opts.parser, true);
    ReadUndoesSource(cs, opts);
  }

  // ----- a source that does not come back -----

  const UNLIMITED := Options(Lexer.Options(0, 0), Parser.Options(0, 0))

  const WRAPPED_TOKENS := [Identifier("keep"), Number(8589934592, Giga), Semicolon]
  const WRAPPED_TREE := [Cmd("keep", [NumberArg(-0x8000_0000_0000_0000)], [], Plain)]

  /** 8589934592G is 2^63, which wraps around to -2^63; the tree prints as a source that does not lex. */
  lemma WrappedNumberIsLost()
    ensures Read(Writer.Text(WRAPPED_TOKENS), UNLIMITED) == Ok(WRAPPED_TREE)
    ensures Read(Source(WRAPPED_TREE), UNLIMITED) == Err
  {
    WrappedNumberLexes();
    WrappedNumberParses();
    WrappedTreeIsNegative();
    ReadUndoesSource(WRAPPED_TREE, UNLIMITED);
  }

  lemma WrappedTreeIsNegative()
    ensures CmdsOk(WRAPPED_TREE, true) && !NonNegative(WRAPPED_TREE)
  {
    assert !NonNegativeArgs(WRAPPED_TREE[0].args);
  }

  lemma WrappedNumberLexes()
    ensures Lexer.Lex(Writer.Text(WRAPPED_TOKENS), UNLIMITED.lexer) == Ok(WRAPPED_TOKENS)
  {
    LexesUnlimited(WRAPPED_TOKENS);
  }

  lemma {:induction false} LexesUnlimited(toks: seq<Token>)
    requires forall i :: 0 <= i < |toks| ==> Spellable(toks[i]) && (toks[i].Identifier? ==> toks[i].text[0] != 't')
    ensures Lexer.Lex(Writer.Text(toks), UNLIMITED.lexer) == Ok(toks)
  {
    LexerRoundTrip.LexUndoesWrite(toks, UNLIMITED.lexer);
  }

  lemma WrappedNumberParses()
    ensures Parser.Parse(WRAPPED_TOKENS, UNLIMITED.parser) == Ok(WRAPPED_TREE)
  {
    var toks, c := WRAPPED_TOKENS, WRAPPED_TREE[0];
    WrappedArgumentParses();
    assert toks[1..] == [Number(8589934592, Giga), Semicolon];
    assert [Semicolon][1..] == [] && [] + [c] == [c];
    assert Parser.CommandLoop([], 0, UNLIMITED.parser, [c]) == Ok(Parser.Block([c], [], false));
    assert Parser.CommandEnd(c, [Semicolon], 0, UNLIMITED.parser, []) == Ok(Parser.Block([c], [], false));
  }

  lemma WrappedArgumentParses()
    ensures Parser.ReadArguments([Number(8589934592, Giga), Semicolon], false, 0, UNLIMITED.parser)
         == Ok(Parser.Arguments([NumberArg(-0x8000_0000_0000_0000)], [], [Semicolon]))
  {
    var s, arg := [Number(8589934592, Giga), Semicolon], NumberArg(-0x8000_0000_0000_0000);
    assert s[1..] == [Semicolon];
    assert Parser.ReadArgument(s) == Ok((arg, [Semicolon]));
    assert Parser.ArgumentLoop([Semicolon], false, 0, UNLIMITED.parser, [arg], [])
        == Ok(Parser.Arguments([arg], [], [Semicolon]));
    assert [] + [arg] == [arg];
  }
}
