/** The parser accepts exactly the grammar: whatever it reads was put together by the generator. */
module SyntaxComplete {
  import opened Wrappers
  import opened Sequences
  import opened Tokens
  import opened Ast
  import opened Parser
  import opened SyntaxParses
  import FrontEnd
  import LayoutComplete
  import Lexer
  import S = Syntax

  lemma Headed(s: seq<Token>)
    requires s != []
    ensures s == [s[0]] + s[1..]
  {
  }

  // ----- words -----

  lemma {:induction false} TextsSplit(s: seq<Token>, acc: seq<string>) returns (texts: seq<string>, comma: bool)
    requires StringList(s, true, acc).Ok?
    ensures comma ==> texts != []
    ensures s == S.TextsTokens(texts, comma) + ([ListEnd] + StringList(s, true, acc).value.rest)
    decreases |s|
  {
    Headed(s);
    if s[0].ListEnd? {
      texts, comma := [], false;
    } else {
      var t, after := s[0].text, s[1..];
      Headed(after);
      if after[0].ListEnd? {
        texts, comma := [t], false;
      } else {
        var texts', comma' := TextsSplit(after[1..], acc + [t]);
        texts, comma := [t] + texts', texts' == [] || comma';
        assert texts[1..] == texts';
        var end := [ListEnd] + StringList(s, true, acc).value.rest;
        assert texts' == [] ==> S.TextsTokens(texts', comma) == S.TextsTokens(texts', comma');
        Associate4([String(t)], [Comma], S.TextsTokens(texts', comma), end);
      }
    }
  }

  lemma WordSplit(s: seq<Token>) returns (w: S.Word)
    requires s != [] && StartsArgument(s[0]) && ReadArgument(s).Ok?
    ensures S.WordOk(w) && s == S.WordTokens(w) + ReadArgument(s).value.1
  {
    Headed(s);
    match s[0]
    case Number(v, q) => w := S.Amount(v, q);
    case String(text) => w := S.Text(text);
    case Colon =>
      Headed(s[1..]);
      w := S.Tag(s[1].text);
    case ListStart =>
      var texts, comma := TextsSplit(s[1..], []);
      w := S.Texts(texts, comma);
      Associate4([ListStart], S.TextsTokens(texts, comma), [ListEnd], ReadArgument(s).value.1);
  }

  // ----- arguments and tests -----

  /** The tokens before the rest are those of the body. */
  predicate Split(s: seq<Token>, b: S.Body, rest: seq<Token>, forTest: bool) {
    S.BodyOk(b) && s == S.BodyTokens(b) + rest && (b.list.NoGroup? ==> Ends(rest, forTest))
  }

  lemma NothingSplit(s: seq<Token>, forTest: bool)
    requires Ends(s, forTest)
    ensures Split(s, S.Body([], S.NoGroup), s, forTest)
  {
    assert S.BodyTokens(S.Body([], S.NoGroup)) == [];
  }

  /** One more argument or test in front. */
  lemma {:induction false} ItemSplit(s: seq<Token>, i: S.Item, after: seq<Token>, b: S.Body, rest: seq<Token>,
                                     forTest: bool)
    requires S.ItemOk(i) && s == S.ItemTokens(i) + after && Split(after, b, rest, forTest)
    requires S.IsOpen(i) ==> b == S.Body([], S.NoGroup)
    ensures Split(s, S.Body([i] + b.items, b.list), rest, forTest)
  {
    var items := [i] + b.items;
    AfterFirst(i, b.items);
    Associate4(S.ItemTokens(i), S.ItemsTokens(b.items), S.GroupTokens(b.list), rest);
    Associate(S.ItemsTokens(b.items), S.GroupTokens(b.list), rest);
    assert S.ItemsTokens(items) == S.ItemTokens(i) + S.ItemsTokens(b.items);
  }

  lemma {:induction false} GroupSplit(s: seq<Token>, clauses: seq<S.Clause>, comma: bool, rest: seq<Token>,
                                      forTest: bool)
    requires S.ClausesOk(clauses) && (comma ==> clauses != [])
    requires s == [TestListStart] + (S.ClausesTokens(clauses, comma) + ([TestListEnd] + rest))
    ensures Split(s, S.Body([], S.Group(clauses, comma)), rest, forTest)
  {
    var b := S.Body([], S.Group(clauses, comma));
    Associate4([TestListStart], S.ClausesTokens(clauses, comma), [TestListEnd], rest);
    assert S.ItemsTokens([]) + S.GroupTokens(b.list) == S.GroupTokens(b.list);
  }

  lemma {:induction false} LoopSplit(s: seq<Token>, forTest: bool, n: nat, opts: Options, args: seq<Arg>,
                                     tests: seq<Test>)
    returns (b: S.Body)
    requires ArgumentLoop(s, forTest, n, opts, args, tests).Ok?
    ensures Split(s, b, ArgumentLoop(s, forTest, n, opts, args, tests).value.rest, forTest)
    ensures Ends(s, true) ==> b == S.Body([], S.NoGroup)
    decreases |s|, 0
  {
    Headed(s);
    var rest := ArgumentLoop(s, forTest, n, opts, args, tests).value.rest;
    if EndsArguments(s[0], forTest) {
      b := S.Body([], S.NoGroup);
      NothingSplit(s, forTest);
    } else if StartsArgument(s[0]) {
      var w := WordSplit(s);
      var (arg, after) := ReadArgument(s).value;
      var b' := LoopSplit(after, forTest, n, opts, args + [arg], tests);
      ItemSplit(s, S.Given(w), after, b', rest, forTest);
      b := S.Body([S.Given(w)] + b'.items, b'.list);
    } else if s[0].Identifier? {
      var a := ReadArguments(s[1..], true, n + 1, opts).value;
      var inner := ArgumentsSplit(s[1..], true, n + 1, opts);
      var i := S.Asked(S.Clause(s[0].text, inner));
      var b' := LoopSplit(a.rest, forTest, n, opts, args, tests + [Test(s[0].text, a.args, a.tests)]);
      Associate([s[0]], S.BodyTokens(inner), a.rest);
      ItemSplit(s, i, a.rest, b', rest, forTest);
      b := S.Body([i] + b'.items, b'.list);
    } else {
      var clauses, comma := TestsSplit(s[1..], n, opts, []);
      GroupSplit(s, clauses, comma, rest, forTest);
      b := S.Body([], S.Group(clauses, comma));
    }
  }

  lemma {:induction false} ArgumentsSplit(s: seq<Token>, forTest: bool, n: nat, opts: Options) returns (b: S.Body)
    requires ReadArguments(s, forTest, n, opts).Ok?
    ensures Split(s, b, ReadArguments(s, forTest, n, opts).value.rest, forTest)
    decreases |s|, 1
  {
    b := LoopSplit(s, forTest, n, opts, [], []);
  }

  /** One more test at the head of a list. */
  lemma ClauseSplit(s: seq<Token>, c: S.Clause, after: seq<Token>, clauses: seq<S.Clause>, comma: bool, end: seq<Token>)
    requires S.BodyOk(c.body) && S.ClausesOk(clauses)
    requires s == S.ClauseTokens(c) + ([Comma] + after) && after == S.ClausesTokens(clauses, comma) + end
    ensures S.ClausesOk([c] + clauses)
    ensures s == S.ClausesTokens([c] + clauses, clauses == [] || comma) + end
  {
    AfterFirst(c, clauses);
    Associate4(S.ClauseTokens(c), [Comma], S.ClausesTokens(clauses, comma), end);
    assert clauses == [] ==> S.ClausesTokens(clauses, true) == S.ClausesTokens(clauses, comma);
  }

  lemma {:induction false} LastClauseSplit(s: seq<Token>, c: S.Clause, end: seq<Token>)
    requires S.BodyOk(c.body) && s == S.ClauseTokens(c) + end
    ensures S.ClausesOk([c]) && s == S.ClausesTokens([c], false) + end
  {
    var none: seq<Token> := [];
    assert S.ClausesTokens([c], false) == S.ClauseTokens(c) + (none + none);
  }

  lemma {:induction false} TestsSplit(s: seq<Token>, n: nat, opts: Options, acc: seq<Test>)
    returns (clauses: seq<S.Clause>, comma: bool)
    requires ReadTests(s, n, opts, true, acc).Ok?
    ensures S.ClausesOk(clauses) && (comma ==> clauses != [])
    ensures s == S.ClausesTokens(clauses, comma) + ([TestListEnd] + ReadTests(s, n, opts, true, acc).value.rest)
    decreases |s|, 0
  {
    Headed(s);
    var end := [TestListEnd] + ReadTests(s, n, opts, true, acc).value.rest;
    if s[0].TestListEnd? {
      clauses, comma := [], false;
    } else {
      var a := ReadArguments(s[1..], true, n + 1, opts).value;
      var inner := ArgumentsSplit(s[1..], true, n + 1, opts);
      var c := S.Clause(s[0].text, inner);
      var acc' := acc + [Test(s[0].text, a.args, a.tests)];
      Associate([s[0]], S.BodyTokens(inner), a.rest);
      Headed(a.rest);
      if a.rest[0].TestListEnd? {
        LastClauseSplit(s, c, end);
        clauses, comma := [c], false;
      } else {
        var more, comma' := TestsSplit(a.rest[1..], n, opts, acc');
        ClauseSplit(s, c, a.rest[1..], more, comma', end);
        clauses, comma := [c] + more, more == [] || comma';
      }
    }
  }

  // ----- commands -----

  /** The tokens are those of the commands, up to the end or to a closing brace. */
  predicate SplitCommands(s: seq<Token>, cs: seq<S.Command>, b: Block) {
    && S.CommandsOk(cs)
    && s == S.CommandsTokens(cs) + (if b.closed then [BlockEnd] + b.rest else [])
  }

  lemma CommandSplit(s: seq<Token>, c: S.Command, after: seq<Token>, cs: seq<S.Command>, b: Block)
    requires S.BodyOk(c.body) && S.FinishOk(c.ending)
    requires s == [Identifier(c.id)] + (S.BodyTokens(c.body) + (S.FinishTokens(c.ending) + after))
    requires SplitCommands(after, cs, b)
    ensures SplitCommands(s, [c] + cs, b)
  {
    var end := if b.closed then [BlockEnd] + b.rest else [];
    AfterFirst(c, cs);
    Associate4([Identifier(c.id)], S.BodyTokens(c.body), S.FinishTokens(c.ending), after);
    Associate(S.CommandTokens(c), S.CommandsTokens(cs), end);
  }

  lemma {:induction false} CommandsSplit(s: seq<Token>, n: nat, opts: Options, acc: seq<Cmd>)
    returns (cs: seq<S.Command>)
    requires CommandLoop(s, n, opts, acc).Ok?
    ensures SplitCommands(s, cs, CommandLoop(s, n, opts, acc).value)
    decreases |s|, 0
  {
    cs := [];
    if s != [] {
      Headed(s);
      if s[0].Identifier? {
        var a := ReadArguments(s[1..], false, 0, opts).value;
        var body := ArgumentsSplit(s[1..], false, 0, opts);
        var ending, after, more := EndSplit(Cmd(s[0].text, a.args, a.tests, Plain), a.rest, n, opts, acc);
        var c := S.Command(s[0].text, body, ending);
        CommandSplit(s, c, after, more, CommandLoop(s, n, opts, acc).value);
        cs := [c] + more;
      }
    }
  }

  lemma {:induction false} EndSplit(c: Cmd, s: seq<Token>, n: nat, opts: Options, acc: seq<Cmd>)
    returns (ending: S.Finish, after: seq<Token>, more: seq<S.Command>)
    requires CommandEnd(c, s, n, opts, acc).Ok?
    ensures S.FinishOk(ending) && s == S.FinishTokens(ending) + after
    ensures SplitCommands(after, more, CommandEnd(c, s, n, opts, acc).value)
    decreases |s|, 1
  {
    Headed(s);
    if s[0].Semicolon? {
      ending, after := S.Semi, s[1..];
      more := CommandsSplit(after, n, opts, acc + [c]);
    } else {
      var b := ParseBlock(s[1..], n + 1, opts).value;
      var inner := CommandsSplit(s[1..], n + 1, opts, []);
      ending, after := S.Braces(inner), b.rest;
      Associate4([BlockStart], S.CommandsTokens(inner), [BlockEnd], after);
      more := CommandsSplit(after, n, opts, acc + [c.(ending := Braced(b.cmds))]);
    }
  }

  /** A script of the grammar, within the limits, whose tokens come first and whose tree is the given one. */
  predicate Derives(script: seq<S.Command>, tail: seq<Token>, toks: seq<Token>, cs: seq<Cmd>, opts: Options) {
    && S.CommandsOk(script) && (tail == [] || tail[0].BlockEnd?)
    && S.CommandsFit(script, 0, opts.maxBlockNesting, opts.maxTestNesting)
    && toks == S.CommandsTokens(script) + tail && cs == S.CommandsTrees(script)
  }

  /** The parser answers with a tree exactly when the tokens are a script of the grammar with that tree. */
  lemma ParseExactly(toks: seq<Token>, cs: seq<Cmd>, opts: Options)
    ensures Parse(toks, opts) == Ok(cs) <==> exists script, tail :: Derives(script, tail, toks, cs, opts)
  {
    if Parse(toks, opts) == Ok(cs) {
      var b := ParseBlock(toks, 0, opts).value;
      var script := CommandsSplit(toks, 0, opts, []);
      var tail := if b.closed then [BlockEnd] + b.rest else [];
      SyntaxParsesToTrees(script, tail, opts);
      assert Derives(script, tail, toks, cs, opts);
    }
    if script, tail :| Derives(script, tail, toks, cs, opts) {
      SyntaxParsesToTrees(script, tail, opts);
    }
  }

  /** A source text reads as a tree exactly when the two grammars together spell that tree so. */
  lemma ReadExactly(source: string, cs: seq<Cmd>, opts: FrontEnd.Options)
    ensures FrontEnd.Read(source, opts) == Ok(cs)
       <==> exists es, end, toks, script, tail ::
              LayoutComplete.Spells(es, end, source, toks, opts.lexer) && Derives(script, tail, toks, cs, opts.parser)
  {
    if FrontEnd.Read(source, opts) == Ok(cs) {
      var toks := Lexer.Lex(source, opts.lexer).value;
      LayoutComplete.LexExactly(source, toks, opts.lexer);
      ParseExactly(toks, cs, opts.parser);
      var es, end :| LayoutComplete.Spells(es, end, source, toks, opts.lexer);
      var script, tail :| Derives(script, tail, toks, cs, opts.parser);
    }
    if es, end, toks, script, tail :|
      LayoutComplete.Spells(es, end, source, toks, opts.lexer) && Derives(script, tail, toks, cs, opts.parser) {
      LayoutComplete.LexExactly(source, toks, opts.lexer);
      ParseExactly(toks, cs, opts.parser);
    }
  }
}
