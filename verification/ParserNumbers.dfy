/** The parser sees how much a number is and not how it is written: 100K is 102400 (section 2.4.1 of RFC 5228). */
module ParserNumbers {
  import opened Wrappers
  import opened Tokens
  import opened Ast
  import opened Parser
  import FrontEnd
  import Layout
  import LayoutLexes
  import Lexer
  import Syntax

  /** The same token, or two numbers of the same amount. */
  predicate AlikeToken(t: Token, t': Token) {
    t == t' || (t.Number? && t'.Number? && Syntax.Total(t.value, t.quantifier) == Syntax.Total(t'.value, t'.quantifier))
  }

  predicate Alike(s: seq<Token>, s': seq<Token>) {
    |s| == |s'| && forall i :: 0 <= i < |s| ==> AlikeToken(s[i], s'[i])
  }

  lemma AlikeTail(s: seq<Token>, s': seq<Token>)
    requires Alike(s, s') && s != []
    ensures Alike(s[1..], s'[1..]) && AlikeToken(s[0], s'[0])
  {
  }

  lemma {:induction false} StringListAlike(s: seq<Token>, s': seq<Token>, need: bool, acc: seq<string>)
    requires Alike(s, s')
    ensures var r, r' := StringList(s, need, acc), StringList(s', need, acc);
            (r.Ok? <==> r'.Ok?) && (r.Ok? ==> r.value.texts == r'.value.texts && Alike(r.value.rest, r'.value.rest))
    decreases |s|
  {
    if s != [] {
      AlikeTail(s, s');
      match s[0]
      case String(text) =>
        if need {
          StringListAlike(s[1..], s'[1..], false, acc + [text]);
        }
      case Comma =>
        if !need {
          StringListAlike(s[1..], s'[1..], true, acc);
        }
      case _ =>
    }
  }

  lemma ArgumentAlike(s: seq<Token>, s': seq<Token>)
    requires Alike(s, s') && s != [] && StartsArgument(s[0])
    ensures StartsArgument(s'[0])
    ensures var r, r' := ReadArgument(s), ReadArgument(s');
            (r.Ok? <==> r'.Ok?) && (r.Ok? ==> r.value.0 == r'.value.0 && Alike(r.value.1, r'.value.1))
  {
    AlikeTail(s, s');
    match s[0]
    case ListStart => StringListAlike(s[1..], s'[1..], true, []);
    case Number(v, q) => SameAmount(v, q, s'[0].value, s'[0].quantifier);
    case Colon =>
      if |s| >= 2 {
        AlikeTail(s[1..], s'[1..]);
      }
    case _ =>
  }

  lemma SameAmount(v: int, q: Quantifier, v': int, q': Quantifier)
    requires Syntax.Total(v, q) == Syntax.Total(v', q')
    ensures v * Multiplier(q) == v' * Multiplier(q')
  {
  }

  /** Two readings of arguments agree. */
  predicate SameArguments(r: Result<Arguments>, r': Result<Arguments>) {
    && (r.Ok? <==> r'.Ok?)
    && (r.Ok? ==> && r.value.args == r'.value.args && r.value.tests == r'.value.tests
                  && Alike(r.value.rest, r'.value.rest))
  }

  lemma {:induction false} ArgumentsAlike(s: seq<Token>, s': seq<Token>, forTest: bool, n: nat, opts: Options)
    requires Alike(s, s')
    ensures SameArguments(ReadArguments(s, forTest, n, opts), ReadArguments(s', forTest, n, opts))
    decreases |s|, 1
  {
    if TestAllowed(opts, n) {
      ArgumentLoopAlike(s, s', forTest, n, opts, [], []);
    }
  }

  lemma {:induction false} ArgumentLoopAlike(s: seq<Token>, s': seq<Token>, forTest: bool, n: nat, opts: Options,
                                             args: seq<Arg>, tests: seq<Test>)
    requires Alike(s, s')
    ensures SameArguments(
              ArgumentLoop(s, forTest, n, opts, args, tests), ArgumentLoop(s', forTest, n, opts, args, tests))
    decreases |s|, 0
  {
    if s == [] {
    } else {
      AlikeTail(s, s');
      if EndsArguments(s[0], forTest) {
      } else if StartsArgument(s[0]) {
        ArgumentAlike(s, s');
        var r, r' := ReadArgument(s), ReadArgument(s');
        if r.Ok? {
          ArgumentLoopAlike(r.value.1, r'.value.1, forTest, n, opts, args + [r.value.0], tests);
        }
      } else if s[0].Identifier? {
        ArgumentsAlike(s[1..], s'[1..], true, n + 1, opts);
        var r, r' := ReadArguments(s[1..], true, n + 1, opts), ReadArguments(s'[1..], true, n + 1, opts);
        if r.Ok? {
          var t := Test(s[0].text, r.value.args, r.value.tests);
          ArgumentLoopAlike(r.value.rest, r'.value.rest, forTest, n, opts, args, tests + [t]);
        }
      } else if s[0].TestListStart? {
        TestsAlike(s[1..], s'[1..], n, opts, true, []);
      }
    }
  }

  lemma {:induction false} TestsAlike(s: seq<Token>, s': seq<Token>, n: nat, opts: Options, need: bool, acc: seq<Test>)
    requires Alike(s, s')
    ensures var r, r' := ReadTests(s, n, opts, need, acc), ReadTests(s', n, opts, need, acc);
            (r.Ok? <==> r'.Ok?) && (r.Ok? ==> r.value.tests == r'.value.tests && Alike(r.value.rest, r'.value.rest))
    decreases |s|, 0
  {
    if s != [] {
      AlikeTail(s, s');
      match s[0]
      case Identifier(id) =>
        if need {
          ArgumentsAlike(s[1..], s'[1..], true, n + 1, opts);
          var r, r' := ReadArguments(s[1..], true, n + 1, opts), ReadArguments(s'[1..], true, n + 1, opts);
          if r.Ok? {
            TestsAlike(r.value.rest, r'.value.rest, n, opts, false, acc + [Test(id, r.value.args, r.value.tests)]);
          }
        }
      case Comma =>
        if !need {
          TestsAlike(s[1..], s'[1..], n, opts, true, acc);
        }
      case _ =>
    }
  }

  predicate SameBlock(r: Result<Block>, r': Result<Block>) {
    && (r.Ok? <==> r'.Ok?)
    && (r.Ok? ==> && r.value.cmds == r'.value.cmds && r.value.closed == r'.value.closed
                  && Alike(r.value.rest, r'.value.rest))
  }

  lemma {:induction false} BlockAlike(s: seq<Token>, s': seq<Token>, n: nat, opts: Options)
    requires Alike(s, s')
    ensures SameBlock(ParseBlock(s, n, opts), ParseBlock(s', n, opts))
    decreases |s|, 1
  {
    if BlockAllowed(opts, n) {
      CommandsAlike(s, s', n, opts, []);
    }
  }

  lemma {:induction false} CommandsAlike(s: seq<Token>, s': seq<Token>, n: nat, opts: Options, acc: seq<Cmd>)
    requires Alike(s, s')
    ensures SameBlock(CommandLoop(s, n, opts, acc), CommandLoop(s', n, opts, acc))
    decreases |s|, 0
  {
    if s != [] {
      AlikeTail(s, s');
      if s[0].Identifier? {
        ArgumentsAlike(s[1..], s'[1..], false, 0, opts);
        var r, r' := ReadArguments(s[1..], false, 0, opts), ReadArguments(s'[1..], false, 0, opts);
        if r.Ok? {
          EndAlike(Cmd(s[0].text, r.value.args, r.value.tests, Plain), r.value.rest, r'.value.rest, n, opts, acc);
        }
      }
    }
  }

  lemma {:induction false} EndAlike(c: Cmd, s: seq<Token>, s': seq<Token>, n: nat, opts: Options, acc: seq<Cmd>)
    requires Alike(s, s')
    ensures SameBlock(CommandEnd(c, s, n, opts, acc), CommandEnd(c, s', n, opts, acc))
    decreases |s|, 1
  {
    if s != [] {
      AlikeTail(s, s');
      if s[0].Semicolon? {
        CommandsAlike(s[1..], s'[1..], n, opts, acc + [c]);
      } else if s[0].BlockStart? {
        BlockAlike(s[1..], s'[1..], n + 1, opts);
        var r, r' := ParseBlock(s[1..], n + 1, opts), ParseBlock(s'[1..], n + 1, opts);
        if r.Ok? && r.value.closed {
          CommandsAlike(r.value.rest, r'.value.rest, n, opts, acc + [c.(ending := Braced(r.value.cmds))]);
        }
      }
    }
  }

  /** Token lists that differ only in how amounts are written parse alike. */
  lemma ParseSeesAmounts(s: seq<Token>, s': seq<Token>, opts: Options)
    requires Alike(s, s')
    ensures Parse(s, opts) == Parse(s', opts)
  {
    BlockAlike(s, s', 0, opts);
  }

  // ----- the same for texts -----

  /** The same element, or two numbers of the same amount. */
  predicate AlikeElement(e: Layout.Element, e': Layout.Element)
    requires Layout.ElementOk(e) && Layout.ElementOk(e')
  {
    e == e' || (e.Digits? && e'.Digits? && Alike(Layout.ElementTokens(e), Layout.ElementTokens(e')))
  }

  predicate AlikeElements(es: seq<Layout.Element>, es': seq<Layout.Element>)
    requires Layout.ElementsOk(es) && Layout.ElementsOk(es')
  {
    |es| == |es'| && forall i :: 0 <= i < |es| ==> AlikeElement(es[i], es'[i])
  }

  lemma {:induction false} AlikeElementsTokens(es: seq<Layout.Element>, es': seq<Layout.Element>)
    requires Layout.ElementsOk(es) && Layout.ElementsOk(es') && AlikeElements(es, es')
    ensures Alike(Layout.ElementsTokens(es), Layout.ElementsTokens(es'))
    decreases |es|
  {
    if es != [] {
      AlikeElementsTokens(es[1..], es'[1..]);
      assert AlikeElement(es[0], es'[0]);
      AlikeConcat(Layout.ElementTokens(es[0]), Layout.ElementTokens(es'[0]),
                  Layout.ElementsTokens(es[1..]), Layout.ElementsTokens(es'[1..]));
    }
  }

  lemma AlikeConcat(a: seq<Token>, a': seq<Token>, b: seq<Token>, b': seq<Token>)
    requires Alike(a, a') && Alike(b, b')
    ensures Alike(a + b, a' + b')
  {
  }

  /** Source texts that differ only in how amounts are written read as the same tree. */
  lemma {:induction false} ReadSeesAmounts(es: seq<Layout.Element>, es': seq<Layout.Element>, end: Option<string>,
                                           opts: FrontEnd.Options)
    requires Layout.ElementsOk(es) && Layout.ElementsOk(es') && AlikeElements(es, es')
    requires end.Some? ==> Layout.OneLine(end.value)
    requires Layout.Separated(es, Layout.EndText(end)) && Layout.Separated(es', Layout.EndText(end))
    requires Layout.AllAdmitted(es, end, opts.lexer.maxTokens, opts.lexer.maxStringBytes, 0)
    requires Layout.AllAdmitted(es', end, opts.lexer.maxTokens, opts.lexer.maxStringBytes, 0)
    ensures FrontEnd.Read(Layout.WholeText(es, end), opts) == FrontEnd.Read(Layout.WholeText(es', end), opts)
  {
    LayoutLexes.LayoutLexesToTokens(es, end, opts.lexer);
    LayoutLexes.LayoutLexesToTokens(es', end, opts.lexer);
    AlikeElementsTokens(es, es');
    ParseSeesAmounts(Layout.ElementsTokens(es), Layout.ElementsTokens(es'), opts.parser);
  }
}
