/** Parsing undoes printing, exactly within the nesting limits: what is printed is one way to spell the tree. */
module ParserRoundTrip {
  import opened Sequences
  import opened Wrappers
  import opened Tokens
  import opened Ast
  import opened Parser
  import opened Printer
  import S = Syntax
  import SyntaxParses

  /** Every command's tests are within the test nesting limit. */
  predicate TestsWithin(cs: seq<Cmd>, opts: Options) {
    forall i :: 0 <= i < |cs| ==> CmdTestsWithin(cs[i], opts)
  }

  predicate CmdTestsWithin(c: Cmd, opts: Options) {
    TestAllowed(opts, TestDepth(c.tests)) && (c.ending.Braced? ==> TestsWithin(c.ending.cmds, opts))
  }

  lemma {:induction false} TestsWithinCons(cs: seq<Cmd>, opts: Options)
    requires cs != []
    ensures TestsWithin(cs, opts) <==> CmdTestsWithin(cs[0], opts) && TestsWithin(cs[1..], opts)
  {
    assert cs == [cs[0]] + cs[1..];
  }

  /** Whether a tree is within both nesting limits when it stands in n blocks. */
  predicate Within(cs: seq<Cmd>, n: nat, opts: Options) {
    BlockAllowed(opts, n + BlockDepth(cs)) && TestsWithin(cs, opts)
  }

  // ----- the spelling that is printed -----

  function WordOf(a: Arg): S.Word {
    match a
    case NumberArg(v) => S.Amount(v, Unit)
    case StringArg(text) => S.Text(text)
    case StringListArg(texts) => S.Texts(texts, false)
    case TagArg(tag) => S.Tag(tag)
  }

  /** The arguments, and a single test after them. */
  function ItemsOf(args: seq<Arg>, last: seq<S.Item>): seq<S.Item> {
    if args == [] then last else [S.Given(WordOf(args[0]))] + ItemsOf(args[1..], last)
  }

  function ClauseOf(t: Test): S.Clause
    decreases t
  {
    S.Clause(t.id, BodyOf(t.args, t.tests))
  }

  function ClausesOf(ts: seq<Test>): seq<S.Clause>
    decreases ts, 0
  {
    if ts == [] then [] else [ClauseOf(ts[0])] + ClausesOf(ts[1..])
  }

  function BodyOf(args: seq<Arg>, ts: seq<Test>): S.Body
    decreases ts, 1
  {
    if ts == [] then S.Body(ItemsOf(args, []), S.NoGroup)
    else if |ts| == 1 then S.Body(ItemsOf(args, [S.Asked(ClauseOf(ts[0]))]), S.NoGroup)
    else S.Body(ItemsOf(args, []), S.Group(ClausesOf(ts), false))
  }

  function CommandOf(c: Cmd): S.Command
    decreases c
  {
    S.Command(c.id, BodyOf(c.args, c.tests), FinishOf(c.ending))
  }

  function FinishOf(e: Ending): S.Finish
    decreases e
  {
    match e
    case Plain => S.Semi
    case Braced(cmds) => S.Braces(CommandsOf(cmds))
  }

  function CommandsOf(cs: seq<Cmd>): seq<S.Command>
    decreases cs
  {
    if cs == [] then [] else [CommandOf(cs[0])] + CommandsOf(cs[1..])
  }

  // ----- arguments -----

  lemma {:induction false} MoreStringsOf(texts: seq<string>)
    ensures MoreStrings(texts) == if texts == [] then [] else [Comma] + S.TextsTokens(texts, false)
  {
    if texts != [] {
      var none: seq<Token> := [];
      MoreStringsOf(texts[1..]);
      assert [Comma, String(texts[0])] == [Comma] + [String(texts[0])];
      Associate([Comma], [String(texts[0])], MoreStrings(texts[1..]));
      assert |texts| == 1 ==> S.TextsTokens(texts, false) == [String(texts[0])] + (none + none);
    }
  }

  lemma {:induction false} StringsOf(texts: seq<string>)
    ensures PrintStrings(texts) == S.TextsTokens(texts, false)
  {
    if texts != [] {
      var none: seq<Token> := [];
      MoreStringsOf(texts[1..]);
      assert |texts| == 1 ==> S.TextsTokens(texts, false) == [String(texts[0])] + (none + none);
    }
  }

  lemma WordOfArg(a: Arg)
    requires ArgOk(a, false)
    ensures S.WordOk(WordOf(a)) && S.WordTokens(WordOf(a)) == PrintArg(a) && S.WordTree(WordOf(a)) == a
  {
    match a
    case StringListArg(texts) =>
      StringsOf(texts);
      Associate([ListStart], PrintStrings(texts), [ListEnd]);
    case _ =>
  }

  /** What the items of a body are, for the body's tokens, tree and depth. */
  predicate ItemsAre(items: seq<S.Item>, toks: seq<Token>, args: seq<Arg>, tests: seq<Test>, depth: nat) {
    && S.ItemsTokens(items) == toks && S.ItemArgs(items) == args && S.ItemTests(items) == tests
    && S.ItemsDepth(items) == depth
  }

  lemma {:induction false} WordCons(w: S.Word, items: seq<S.Item>, toks: seq<Token>, args: seq<Arg>, tests: seq<Test>,
                                    depth: nat, open: bool)
    requires S.WordOk(w) && ItemsAre(items, toks, args, tests, depth) && S.ItemsOk(items, open)
    ensures S.ItemsOk([S.Given(w)] + items, open)
    ensures ItemsAre([S.Given(w)] + items, S.WordTokens(w) + toks, [S.WordTree(w)] + args, tests, depth)
  {
    AfterFirst(S.Given(w), items);
    assert S.ItemOk(S.Given(w)) && !S.IsOpen(S.Given(w));
    assert [] + tests == tests;
  }

  lemma {:induction false} FirstArg(args: seq<Arg>, items: seq<S.Item>, toks: seq<Token>, tests: seq<Test>, depth: nat,
                                    open: bool)
    requires args != [] && ArgOk(args[0], false) && S.ItemsOk(items, open)
    requires ItemsAre(items, PrintArgs(args[1..]) + toks, args[1..], tests, depth)
    ensures S.ItemsOk([S.Given(WordOf(args[0]))] + items, open)
    ensures ItemsAre([S.Given(WordOf(args[0]))] + items, PrintArgs(args) + toks, args, tests, depth)
  {
    WordOfArg(args[0]);
    WordCons(WordOf(args[0]), items, PrintArgs(args[1..]) + toks, args[1..], tests, depth, open);
    Associate(PrintArg(args[0]), PrintArgs(args[1..]), toks);
    assert args == [args[0]] + args[1..];
  }

  lemma {:induction false} ItemsOfArgs(args: seq<Arg>, last: seq<S.Item>, toks: seq<Token>, tests: seq<Test>,
                                       depth: nat, open: bool)
    requires ArgsOk(args, false) && ItemsAre(last, toks, [], tests, depth) && S.ItemsOk(last, open)
    ensures S.ItemsOk(ItemsOf(args, last), open)
    ensures ItemsAre(ItemsOf(args, last), PrintArgs(args) + toks, args, tests, depth)
    decreases |args|
  {
    if args == [] {
      assert [] + toks == toks;
    } else {
      ItemsOfArgs(args[1..], last, toks, tests, depth, open);
      FirstArg(args, ItemsOf(args[1..], last), toks, tests, depth, open);
    }
  }

  // ----- tests -----

  predicate ClauseIs(c: S.Clause, t: Test) {
    && S.BodyOk(c.body) && S.ClauseTokens(c) == PrintTest(t) && S.ClauseTree(c) == t
    && S.BodyDepth(c.body) == TestDepth(t.tests)
  }

  lemma {:induction false} LastItem(c: S.Clause, t: Test)
    requires ClauseIs(c, t)
    ensures ItemsAre([S.Asked(c)], PrintTest(t), [], [t], 1 + TestDepth(t.tests)) && S.ItemsOk([S.Asked(c)], true)
  {
    var i, none := S.Asked(c), [];
    AfterFirst(i, none);
    assert [i] + none == [i];
    assert S.ItemsTokens([i]) == PrintTest(t) + [] == PrintTest(t);
    assert S.ItemArgs([i]) == [] && S.ItemTests([i]) == [t] + [];
    assert S.ItemsDepth(none) == 0 && S.ItemsOk(none, true);
    assert S.ItemOk(i);
  }

  /** The body of a test or a command. */
  predicate BodyIs(b: S.Body, args: seq<Arg>, ts: seq<Test>) {
    && S.BodyOk(b) && S.BodyTokens(b) == PrintArgs(args) + PrintTests(ts)
    && S.ItemArgs(b.items) == args && S.BodyTests(b) == ts && S.BodyDepth(b) == TestDepth(ts)
  }

  lemma {:induction false} BodyOfTests(args: seq<Arg>, ts: seq<Test>)
    requires ArgsOk(args, false) && TestsOk(ts, false)
    ensures BodyIs(BodyOf(args, ts), args, ts)
    decreases ts, 1
  {
    var b := BodyOf(args, ts);
    if ts == [] {
      ItemsOfArgs(args, [], [], [], 0, true);
      assert PrintArgs(args) + [] + [] == PrintArgs(args) + [];
    } else if |ts| == 1 {
      var c := ClauseOf(ts[0]);
      ClauseOfTest(ts[0]);
      LastItem(c, ts[0]);
      ItemsOfArgs(args, [S.Asked(c)], PrintTest(ts[0]), [ts[0]], 1 + TestDepth(ts[0].tests), true);
      assert PrintArgs(args) + PrintTest(ts[0]) + [] == PrintArgs(args) + PrintTest(ts[0]) && ts == [ts[0]];
    } else {
      ItemsOfArgs(args, [], [], [], 0, false);
      assert PrintArgs(args) + [] == PrintArgs(args);
      ClausesOfTests(ts);
      GroupOfTests(ts);
    }
  }

  lemma {:induction false} ClauseOfTest(t: Test)
    requires TestOk(t, false)
    ensures ClauseIs(ClauseOf(t), t)
    decreases t
  {
    BodyOfTests(t.args, t.tests);
  }

  predicate ClausesAre(clauses: seq<S.Clause>, ts: seq<Test>) {
    && S.ClausesOk(clauses) && S.ClausesTrees(clauses) == ts && S.ClausesDepth(clauses) == TestDepth(ts)
    && |clauses| == |ts|
    && MoreTests(ts) == if ts == [] then [] else [Comma] + S.ClausesTokens(clauses, false)
  }

  lemma {:induction false} ClausesCons(c: S.Clause, t: Test, clauses: seq<S.Clause>, ts: seq<Test>)
    requires ClauseIs(c, t) && ClausesAre(clauses, ts)
    ensures ClausesAre([c] + clauses, [t] + ts)
    ensures S.ClausesTokens([c] + clauses, false) == PrintTest(t) + MoreTests(ts)
  {
    AfterFirst(c, clauses);
    AfterFirst(t, ts);
    var none: seq<Token> := [];
    assert none + none == none;
  }

  lemma {:induction false} ClausesOfTests(ts: seq<Test>)
    requires TestsOk(ts, false)
    ensures ClausesAre(ClausesOf(ts), ts)
    decreases ts, 0
  {
    if ts != [] {
      ClauseOfTest(ts[0]);
      ClausesOfTests(ts[1..]);
      ClausesCons(ClauseOf(ts[0]), ts[0], ClausesOf(ts[1..]), ts[1..]);
      assert ts == [ts[0]] + ts[1..];
    }
  }

  lemma {:induction false} GroupOfTests(ts: seq<Test>)
    requires |ts| > 1 && ClausesAre(ClausesOf(ts), ts)
    ensures S.GroupTokens(S.Group(ClausesOf(ts), false)) == PrintTests(ts)
  {
    var inner, end := S.ClausesTokens(ClausesOf(ts), false), [TestListEnd];
    AfterFirst(Comma, inner);
    AfterFirst(Comma, PrintTest(ts[0]) + MoreTests(ts[1..]));
    Associate(PrintTest(ts[0]), MoreTests(ts[1..]), end);
  }

  // ----- commands -----

  predicate CommandsAre(script: seq<S.Command>, cs: seq<Cmd>) {
    S.CommandsOk(script) && S.CommandsTokens(script) == PrintCmds(cs) && S.CommandsTrees(script) == cs
  }

  lemma {:induction false} FinishOfEnding(e: Ending)
    requires e.Braced? ==> CmdsOk(e.cmds, false)
    ensures var f := FinishOf(e); S.FinishOk(f) && S.FinishTokens(f) == PrintEnding(e) && S.FinishTree(f) == e
    decreases e
  {
    if e.Braced? {
      CommandsOfCmds(e.cmds);
      Associate([BlockStart], PrintCmds(e.cmds), [BlockEnd]);
    }
  }

  lemma {:induction false} CommandsOfCmds(cs: seq<Cmd>)
    requires CmdsOk(cs, false)
    ensures CommandsAre(CommandsOf(cs), cs)
    decreases cs
  {
    if cs != [] {
      var c := cs[0];
      BodyOfTests(c.args, c.tests);
      FinishOfEnding(c.ending);
      CommandsOfCmds(cs[1..]);
      AfterFirst(CommandOf(c), CommandsOf(cs[1..]));
      Associate(PrintArgs(c.args), PrintTests(c.tests), PrintEnding(c.ending));
      assert cs == [c] + cs[1..];
    }
  }

  lemma WithinCons(cs: seq<Cmd>, n: nat, opts: Options)
    requires cs != []
    ensures Within(cs, n, opts)
       <==> && TestAllowed(opts, TestDepth(cs[0].tests)) && Within(cs[1..], n, opts)
            && (cs[0].ending.Braced? ==> Within(cs[0].ending.cmds, n + 1, opts))
    ensures Within(cs, n, opts) ==> BlockAllowed(opts, n)
  {
    TestsWithinCons(cs, opts);
  }

  lemma FitCons(c: S.Command, cs: seq<S.Command>, n: nat, opts: Options)
    ensures S.CommandsFit([c] + cs, n, opts.maxBlockNesting, opts.maxTestNesting)
       <==> && BlockAllowed(opts, n) && TestAllowed(opts, S.BodyDepth(c.body))
            && S.CommandsFit(cs, n, opts.maxBlockNesting, opts.maxTestNesting)
            && (c.ending.Braces? ==>
                  S.CommandsFit(c.ending.commands, n + 1, opts.maxBlockNesting, opts.maxTestNesting))
  {
    AfterFirst(c, cs);
  }

  lemma {:induction false} FitsWithin(cs: seq<Cmd>, n: nat, opts: Options)
    requires CmdsOk(cs, false)
    ensures S.CommandsFit(CommandsOf(cs), n, opts.maxBlockNesting, opts.maxTestNesting) <==> Within(cs, n, opts)
    decreases cs
  {
    if cs != [] {
      var c := cs[0];
      BodyOfTests(c.args, c.tests);
      assert CommandsOf(cs) == [CommandOf(c)] + CommandsOf(cs[1..]);
      assert c.ending.Braced? ==> FinishOf(c.ending) == S.Braces(CommandsOf(c.ending.cmds));
      FitCons(CommandOf(c), CommandsOf(cs[1..]), n, opts);
      WithinCons(cs, n, opts);
      FitsWithin(cs[1..], n, opts);
      if c.ending.Braced? {
        FitsWithin(c.ending.cmds, n + 1, opts);
      }
    }
  }

  /** A printed tree parses to itself when its block and test depths are within the limits, and is refused otherwise. */
  lemma {:induction false} ParseUndoesPrint(cs: seq<Cmd>, opts: Options)
    requires CmdsOk(cs, false)
    ensures Parse(PrintCmds(cs), opts) == if Within(cs, 0, opts) then Ok(cs) else Err
  {
    CommandsOfCmds(cs);
    FitsWithin(cs, 0, opts);
    SyntaxParses.SyntaxParsesToTrees(CommandsOf(cs), [], opts);
    assert PrintCmds(cs) + [] == PrintCmds(cs);
  }
}
