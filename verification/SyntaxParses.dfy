/** Every token list of the grammar parses to its tree, exactly within the nesting limits. */
module SyntaxParses {
  import opened Wrappers
  import opened Sequences
  import opened Tokens
  import opened Ast
  import opened Parser
  import S = Syntax

  // ----- words -----

  /** A comma between elements, if there is one. */
  function CommaIf(b: bool): seq<Token> {
    if b then [Comma] else []
  }

  lemma {:induction false} TextsRead(texts: seq<string>, comma: bool, rest: seq<Token>, acc: seq<string>)
    ensures StringList(S.TextsTokens(texts, comma) + ([ListEnd] + rest), true, acc) == Ok(Strings(acc + texts, rest))
    decreases |texts|
  {
    var end := [ListEnd] + rest;
    AfterFirst(ListEnd, rest);
    if texts == [] {
      assert S.TextsTokens(texts, comma) + end == end && acc + texts == acc;
    } else {
      var sep, more := CommaIf(|texts| > 1 || comma), S.TextsTokens(texts[1..], comma);
      var after := sep + (more + end);
      Associate4([String(texts[0])], sep, more, end);
      AfterFirst(String(texts[0]), after);
      TextsRead(texts[1..], comma, rest, acc + [texts[0]]);
      Shift(acc, texts);
      if |texts| > 1 || comma {
        AfterFirst(Comma, more + end);
      } else {
        assert after == end;
      }
    }
  }

  lemma WordReads(w: S.Word, rest: seq<Token>)
    requires S.WordOk(w)
    ensures var s := S.WordTokens(w) + rest;
            s != [] && StartsArgument(s[0]) && ReadArgument(s) == Ok((S.WordTree(w), rest))
  {
    var s := S.WordTokens(w) + rest;
    match w
    case Amount(v, q) =>
      AfterFirst(Number(v, q), rest);
      HeldIsWrapped(v * Multiplier(q));
    case Text(text) => AfterFirst(String(text), rest);
    case Tag(tag) => assert s[2..] == rest;
    case Texts(texts, comma) =>
      var body := S.TextsTokens(texts, comma) + ([ListEnd] + rest);
      Associate4([ListStart], S.TextsTokens(texts, comma), [ListEnd], rest);
      AfterFirst(ListStart, body);
      TextsRead(texts, comma, rest, []);
      assert [] + texts == texts;
  }

  lemma HeldIsWrapped(n: int)
    ensures Wrap(n) == S.Held(n)
  {
    var q, m := n / 18446744073709551616, n % 18446744073709551616;
    assert n == 18446744073709551616 * q + m;
    if m < 9223372036854775808 {
      assert n + 9223372036854775808 == 18446744073709551616 * q + (m + 9223372036854775808);
    } else {
      assert n + 9223372036854775808 == 18446744073709551616 * (q + 1) + (m - 9223372036854775808);
    }
  }

  // ----- arguments and tests -----

  /** The token ends what stands before it, in a test or in a command. */
  predicate Ends(rest: seq<Token>, forTest: bool) {
    rest != [] && EndsArguments(rest[0], forTest)
  }

  lemma {:induction false} WordStep(w: S.Word, rest: seq<Token>, forTest: bool, n: nat, opts: Options, args: seq<Arg>,
                                    tests: seq<Test>)
    requires S.WordOk(w)
    ensures ArgumentLoop(S.WordTokens(w) + rest, forTest, n, opts, args, tests)
         == ArgumentLoop(rest, forTest, n, opts, args + [S.WordTree(w)], tests)
  {
    WordReads(w, rest);
  }

  /** A test in front of the rest of the arguments. */
  lemma {:induction false} ClauseStep(c: S.Clause, rest: seq<Token>, forTest: bool, n: nat, opts: Options,
                                      args: seq<Arg>, tests: seq<Test>, ok: bool)
    requires ReadArguments(S.BodyTokens(c.body) + rest, true, n + 1, opts)
          == if ok then Ok(Arguments(S.ItemArgs(c.body.items), S.BodyTests(c.body), rest)) else Err
    ensures ArgumentLoop(S.ClauseTokens(c) + rest, forTest, n, opts, args, tests)
         == if ok then ArgumentLoop(rest, forTest, n, opts, args, tests + [S.ClauseTree(c)]) else Err
  {
    Associate([Identifier(c.id)], S.BodyTokens(c.body), rest);
    AfterFirst(Identifier(c.id), S.BodyTokens(c.body) + rest);
  }

  lemma {:induction false} ItemStep(i: S.Item, rest: seq<Token>, forTest: bool, n: nat, opts: Options,
                                    args: seq<Arg>, tests: seq<Test>)
    requires S.ItemOk(i) && (S.IsOpen(i) ==> Ends(rest, true)) && TestAllowed(opts, n)
    ensures ArgumentLoop(S.ItemTokens(i) + rest, forTest, n, opts, args, tests)
         == if TestAllowed(opts, n + S.ItemDepth(i))
            then ArgumentLoop(rest, forTest, n, opts, args + S.ItemArg(i), tests + S.ItemTest(i)) else Err
    decreases i
  {
    match i
    case Given(word) =>
      WordStep(word, rest, forTest, n, opts, args, tests);
      assert tests + [] == tests;
    case Asked(test) =>
      BodyReads(test.body, rest, true, n + 1, opts);
      ClauseStep(test, rest, forTest, n, opts, args, tests, TestAllowed(opts, n + 1 + S.BodyDepth(test.body)));
      assert args + [] == args;
  }

  lemma {:induction false} ItemsJoin(items: seq<S.Item>, n: nat, opts: Options, args: seq<Arg>, tests: seq<Test>)
    requires items != []
    ensures args + S.ItemArg(items[0]) + S.ItemArgs(items[1..]) == args + S.ItemArgs(items)
    ensures tests + S.ItemTest(items[0]) + S.ItemTests(items[1..]) == tests + S.ItemTests(items)
    ensures TestAllowed(opts, n + S.ItemsDepth(items))
       <==> TestAllowed(opts, n + S.ItemDepth(items[0])) && TestAllowed(opts, n + S.ItemsDepth(items[1..]))
  {
    Associate(args, S.ItemArg(items[0]), S.ItemArgs(items[1..]));
    Associate(tests, S.ItemTest(items[0]), S.ItemTests(items[1..]));
  }

  lemma {:induction false} ItemsChain(items: seq<S.Item>, s: seq<Token>, more: seq<Token>, rest: seq<Token>,
                                      forTest: bool, n: nat, opts: Options, args: seq<Arg>, tests: seq<Test>)
    requires items != []
    requires ArgumentLoop(s, forTest, n, opts, args, tests)
          == if TestAllowed(opts, n + S.ItemDepth(items[0]))
             then ArgumentLoop(more, forTest, n, opts, args + S.ItemArg(items[0]), tests + S.ItemTest(items[0]))
             else Err
    requires ArgumentLoop(more, forTest, n, opts, args + S.ItemArg(items[0]), tests + S.ItemTest(items[0]))
          == if TestAllowed(opts, n + S.ItemsDepth(items[1..]))
             then ArgumentLoop(rest, forTest, n, opts, args + S.ItemArg(items[0]) + S.ItemArgs(items[1..]),
                               tests + S.ItemTest(items[0]) + S.ItemTests(items[1..]))
             else Err
    ensures ArgumentLoop(s, forTest, n, opts, args, tests)
         == if TestAllowed(opts, n + S.ItemsDepth(items))
            then ArgumentLoop(rest, forTest, n, opts, args + S.ItemArgs(items), tests + S.ItemTests(items)) else Err
  {
    ItemsJoin(items, n, opts, args, tests);
  }

  lemma {:induction false} ItemsRead(items: seq<S.Item>, last: bool, rest: seq<Token>, forTest: bool, n: nat,
                                     opts: Options, args: seq<Arg>, tests: seq<Test>)
    requires S.ItemsOk(items, last) && (last ==> Ends(rest, true)) && TestAllowed(opts, n)
    ensures ArgumentLoop(S.ItemsTokens(items) + rest, forTest, n, opts, args, tests)
         == if TestAllowed(opts, n + S.ItemsDepth(items))
            then ArgumentLoop(rest, forTest, n, opts, args + S.ItemArgs(items), tests + S.ItemTests(items)) else Err
    decreases items
  {
    if items == [] {
      assert S.ItemsTokens(items) + rest == rest && args + [] == args && tests + [] == tests;
    } else {
      var i, more := items[0], S.ItemsTokens(items[1..]) + rest;
      Associate(S.ItemTokens(i), S.ItemsTokens(items[1..]), rest);
      if S.IsOpen(i) {
        assert items[1..] == [] && more == rest;
      }
      ItemStep(i, more, forTest, n, opts, args, tests);
      ItemsRead(items[1..], last, rest, forTest, n, opts, args + S.ItemArg(i), tests + S.ItemTest(i));
      ItemsChain(items, S.ItemsTokens(items) + rest, more, rest, forTest, n, opts, args, tests);
    }
  }

  lemma {:induction false} GroupStep(inner: seq<Token>, trees: seq<Test>, rest: seq<Token>, forTest: bool, n: nat,
                                     opts: Options, args: seq<Arg>, tests: seq<Test>, ok: bool)
    requires ReadTests(inner + ([TestListEnd] + rest), n, opts, true, [])
          == if ok then Ok(TestList([] + trees, rest)) else Err
    ensures ArgumentLoop([TestListStart] + (inner + [TestListEnd]) + rest, forTest, n, opts, args, tests)
         == if ok then Ok(Arguments(args, trees, rest)) else Err
  {
    Associate4([TestListStart], inner, [TestListEnd], rest);
    AfterFirst(TestListStart, inner + ([TestListEnd] + rest));
    assert [] + trees == trees;
  }

  /** A list of tests stands for all that was asked before it. */
  lemma {:induction false} GroupRead(clauses: seq<S.Clause>, comma: bool, rest: seq<Token>, forTest: bool, n: nat,
                                     opts: Options, args: seq<Arg>, tests: seq<Test>)
    requires S.ClausesOk(clauses) && TestAllowed(opts, n)
    ensures ArgumentLoop([TestListStart] + (S.ClausesTokens(clauses, comma) + [TestListEnd]) + rest, forTest, n, opts,
                         args, tests)
         == if TestAllowed(opts, n + S.ClausesDepth(clauses)) then Ok(Arguments(args, S.ClausesTrees(clauses), rest))
            else Err
    decreases clauses, 1
  {
    ClausesRead(clauses, comma, rest, n, opts, []);
    var inner, trees, ok := S.ClausesTokens(clauses, comma), S.ClausesTrees(clauses),
      TestAllowed(opts, n + S.ClausesDepth(clauses));
    GroupStep(inner, trees, rest, forTest, n, opts, args, tests, ok);
  }

  /** A test within a list. */
  lemma {:induction false} ListedStep(c: S.Clause, rest: seq<Token>, n: nat, opts: Options, acc: seq<Test>, ok: bool)
    requires ReadArguments(S.BodyTokens(c.body) + rest, true, n + 1, opts)
          == if ok then Ok(Arguments(S.ItemArgs(c.body.items), S.BodyTests(c.body), rest)) else Err
    ensures ReadTests(S.ClauseTokens(c) + rest, n, opts, true, acc)
         == if ok then ReadTests(rest, n, opts, false, acc + [S.ClauseTree(c)]) else Err
  {
    Associate([Identifier(c.id)], S.BodyTokens(c.body), rest);
    AfterFirst(Identifier(c.id), S.BodyTokens(c.body) + rest);
  }

  lemma {:induction false} SeparatorStep(comma: bool, more: seq<Token>, n: nat, opts: Options, acc: seq<Test>)
    requires more != [] && (!comma ==> more[0].TestListEnd?)
    ensures ReadTests(CommaIf(comma) + more, n, opts, false, acc) == ReadTests(more, n, opts, true, acc)
    ensures Ends(CommaIf(comma) + more, true)
  {
    if comma {
      AfterFirst(Comma, more);
    } else {
      assert CommaIf(comma) + more == more;
    }
  }

  lemma {:induction false} ClauseListed(c: S.Clause, comma: bool, more: seq<Token>, n: nat, opts: Options,
                                        acc: seq<Test>)
    requires S.BodyOk(c.body) && more != [] && (!comma ==> more[0].TestListEnd?)
    ensures ReadTests(S.ClauseTokens(c) + (CommaIf(comma) + more), n, opts, true, acc)
         == if TestAllowed(opts, n + 1 + S.BodyDepth(c.body))
            then ReadTests(more, n, opts, true, acc + [S.ClauseTree(c)]) else Err
    decreases c
  {
    SeparatorStep(comma, more, n, opts, acc + [S.ClauseTree(c)]);
    BodyReads(c.body, CommaIf(comma) + more, true, n + 1, opts);
    ListedStep(c, CommaIf(comma) + more, n, opts, acc, TestAllowed(opts, n + 1 + S.BodyDepth(c.body)));
  }

  function Listed(clauses: seq<S.Clause>, rest: seq<Token>, n: nat, opts: Options, acc: seq<Test>): Result<TestList> {
    if TestAllowed(opts, n + S.ClausesDepth(clauses)) then Ok(TestList(acc + S.ClausesTrees(clauses), rest)) else Err
  }

  lemma ListedJoin(clauses: seq<S.Clause>, rest: seq<Token>, n: nat, opts: Options, acc: seq<Test>)
    requires clauses != [] && TestAllowed(opts, n)
    ensures Listed(clauses, rest, n, opts, acc)
         == if TestAllowed(opts, n + 1 + S.BodyDepth(clauses[0].body))
            then Listed(clauses[1..], rest, n, opts, acc + [S.ClauseTree(clauses[0])]) else Err
  {
    Associate(acc, [S.ClauseTree(clauses[0])], S.ClausesTrees(clauses[1..]));
  }

  lemma {:induction false} ClausesRead(clauses: seq<S.Clause>, comma: bool, rest: seq<Token>, n: nat, opts: Options,
                                       acc: seq<Test>)
    requires S.ClausesOk(clauses) && TestAllowed(opts, n)
    ensures ReadTests(S.ClausesTokens(clauses, comma) + ([TestListEnd] + rest), n, opts, true, acc)
         == Listed(clauses, rest, n, opts, acc)
    decreases clauses, 0
  {
    var end := [TestListEnd] + rest;
    AfterFirst(TestListEnd, rest);
    if clauses == [] {
      assert S.ClausesTokens(clauses, comma) + end == end && acc + [] == acc;
    } else {
      var c, sep, more := clauses[0], |clauses| > 1 || comma, S.ClausesTokens(clauses[1..], comma);
      Associate4(S.ClauseTokens(c), CommaIf(sep), more, end);
      ClauseListed(c, sep, more + end, n, opts, acc);
      ClausesRead(clauses[1..], comma, rest, n, opts, acc + [S.ClauseTree(c)]);
      ListedJoin(clauses, rest, n, opts, acc);
    }
  }

  lemma {:induction false} NoGroupRead(rest: seq<Token>, forTest: bool, n: nat, opts: Options, args: seq<Arg>,
                                       tests: seq<Test>)
    requires Ends(rest, forTest)
    ensures ArgumentLoop(S.GroupTokens(S.NoGroup) + rest, forTest, n, opts, args, tests)
         == Ok(Arguments(args, tests, rest))
  {
    assert S.GroupTokens(S.NoGroup) + rest == rest;
  }

  lemma {:induction false} ItemsThenGroup(b: S.Body, rest: seq<Token>, forTest: bool, n: nat, opts: Options)
    requires S.BodyOk(b) && (b.list.NoGroup? ==> Ends(rest, forTest)) && TestAllowed(opts, n)
    ensures ReadArguments(S.BodyTokens(b) + rest, forTest, n, opts)
         == if TestAllowed(opts, n + S.ItemsDepth(b.items))
            then ArgumentLoop(S.GroupTokens(b.list) + rest, forTest, n, opts, S.ItemArgs(b.items), S.ItemTests(b.items))
            else Err
    decreases b, 0
  {
    var after := S.GroupTokens(b.list) + rest;
    Associate(S.ItemsTokens(b.items), S.GroupTokens(b.list), rest);
    if b.list.NoGroup? {
      assert after == rest;
    }
    ItemsRead(b.items, b.list.NoGroup?, after, forTest, n, opts, [], []);
    assert [] + S.ItemArgs(b.items) == S.ItemArgs(b.items) && [] + S.ItemTests(b.items) == S.ItemTests(b.items);
  }

  lemma {:induction false} BodyFits(b: S.Body, n: nat, opts: Options)
    ensures TestAllowed(opts, n + S.BodyDepth(b))
       <==> && TestAllowed(opts, n + S.ItemsDepth(b.items))
            && (b.list.Group? ==> TestAllowed(opts, n + S.ClausesDepth(b.list.clauses)))
  {
  }

  lemma {:induction false} BodyReads(b: S.Body, rest: seq<Token>, forTest: bool, n: nat, opts: Options)
    requires S.BodyOk(b) && (b.list.NoGroup? ==> Ends(rest, forTest))
    ensures ReadArguments(S.BodyTokens(b) + rest, forTest, n, opts)
         == if TestAllowed(opts, n + S.BodyDepth(b)) then Ok(Arguments(S.ItemArgs(b.items), S.BodyTests(b), rest))
            else Err
    decreases b
  {
    if TestAllowed(opts, n) {
      ItemsThenGroup(b, rest, forTest, n, opts);
      BodyFits(b, n, opts);
      match b.list
      case NoGroup => NoGroupRead(rest, forTest, n, opts, S.ItemArgs(b.items), S.ItemTests(b.items));
      case Group(clauses, comma) =>
        GroupRead(clauses, comma, rest, forTest, n, opts, S.ItemArgs(b.items), S.ItemTests(b.items));
    }
  }

  // ----- commands -----

  lemma {:induction false} CommandHead(c: S.Command, rest: seq<Token>, n: nat, opts: Options, acc: seq<Cmd>)
    requires S.BodyOk(c.body)
    ensures CommandLoop(S.CommandTokens(c) + rest, n, opts, acc)
         == if TestAllowed(opts, S.BodyDepth(c.body))
            then CommandEnd(Cmd(c.id, S.ItemArgs(c.body.items), S.BodyTests(c.body), Plain),
                            S.FinishTokens(c.ending) + rest, n, opts, acc)
            else Err
  {
    var after := S.FinishTokens(c.ending) + rest;
    Associate4([Identifier(c.id)], S.BodyTokens(c.body), S.FinishTokens(c.ending), rest);
    AfterFirst(Identifier(c.id), S.BodyTokens(c.body) + after);
    BodyReads(c.body, after, false, 0, opts);
  }

  lemma {:induction false} BracesStep(c: Cmd, inner: seq<Token>, cmds: seq<Cmd>, rest: seq<Token>, n: nat,
                                      opts: Options, acc: seq<Cmd>, ok: bool)
    requires ParseBlock(inner + ([BlockEnd] + rest), n + 1, opts)
          == if ok then Ok(Block([] + cmds, rest, true)) else Err
    ensures CommandEnd(c, [BlockStart] + (inner + [BlockEnd]) + rest, n, opts, acc)
         == if ok then CommandLoop(rest, n, opts, acc + [c.(ending := Braced(cmds))]) else Err
  {
    Associate4([BlockStart], inner, [BlockEnd], rest);
    AfterFirst(BlockStart, inner + ([BlockEnd] + rest));
    assert [] + cmds == cmds;
  }

  predicate FinishFits(f: S.Finish, n: nat, opts: Options) {
    f.Braces? ==> S.CommandsFit(f.commands, n + 1, opts.maxBlockNesting, opts.maxTestNesting)
  }

  lemma {:induction false} FinishRead(f: S.Finish, c: Cmd, rest: seq<Token>, n: nat, opts: Options, acc: seq<Cmd>)
    requires S.FinishOk(f) && c.ending.Plain?
    ensures CommandEnd(c, S.FinishTokens(f) + rest, n, opts, acc)
         == if FinishFits(f, n, opts) then CommandLoop(rest, n, opts, acc + [c.(ending := S.FinishTree(f))]) else Err
    decreases f
  {
    match f
    case Semi => AfterFirst(Semicolon, rest);
    case Braces(commands) =>
      AfterFirst(BlockEnd, rest);
      CommandsRead(commands, [BlockEnd] + rest, n + 1, opts, []);
      BracesStep(c, S.CommandsTokens(commands), S.CommandsTrees(commands), rest, n, opts, acc, FinishFits(f, n, opts));
  }

  /** What reading commands comes to: they run up to the end of the tokens or to a closing brace. */
  function Outcome(cs: seq<S.Command>, tail: seq<Token>, n: nat, opts: Options, acc: seq<Cmd>): Result<Block> {
    if S.CommandsFit(cs, n, opts.maxBlockNesting, opts.maxTestNesting)
    then Ok(Block(acc + S.CommandsTrees(cs), if tail == [] then [] else tail[1..], tail != [])) else Err
  }

  lemma {:induction false} CommandsRead(cs: seq<S.Command>, tail: seq<Token>, n: nat, opts: Options, acc: seq<Cmd>)
    requires S.CommandsOk(cs) && (tail == [] || tail[0].BlockEnd?)
    ensures (if BlockAllowed(opts, n) then CommandLoop(S.CommandsTokens(cs) + tail, n, opts, acc) else Err)
         == Outcome(cs, tail, n, opts, acc)
    decreases cs
  {
    if cs == [] {
      assert S.CommandsTokens(cs) + tail == tail && acc + [] == acc;
    } else if BlockAllowed(opts, n) {
      var c, more := cs[0], S.CommandsTokens(cs[1..]) + tail;
      Associate(S.CommandTokens(c), S.CommandsTokens(cs[1..]), tail);
      CommandHead(c, more, n, opts, acc);
      FinishRead(c.ending, Cmd(c.id, S.ItemArgs(c.body.items), S.BodyTests(c.body), Plain), more, n, opts, acc);
      CommandsRead(cs[1..], tail, n, opts, acc + [S.CommandTree(c)]);
      Associate(acc, [S.CommandTree(c)], S.CommandsTrees(cs[1..]));
    }
  }

  /**
   * Every token list of the grammar, alone or before a stray closing brace, parses to its tree when its nesting is
   * within both limits and is refused otherwise.
   */
  lemma {:induction false} SyntaxParsesToTrees(cs: seq<S.Command>, tail: seq<Token>, opts: Options)
    requires S.CommandsOk(cs) && (tail == [] || tail[0].BlockEnd?)
    ensures Parse(S.CommandsTokens(cs) + tail, opts)
         == if S.CommandsFit(cs, 0, opts.maxBlockNesting, opts.maxTestNesting) then Ok(S.CommandsTrees(cs)) else Err
  {
    CommandsRead(cs, tail, 0, opts, []);
    assert [] + S.CommandsTrees(cs) == S.CommandsTrees(cs);
  }
}
