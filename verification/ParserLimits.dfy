/** What every accepted token stream yields: a tree within the nesting limits. */
module ParserLimits {
  import opened Wrappers
  import opened Tokens
  import opened Ast
  import opened Parser
  import ParserRoundTrip
  import Printer

  /** With `spelled`, the tokens are ones the lexer can yield. */
  predicate Stream(s: seq<Token>, spelled: bool) {
    spelled ==> forall i :: 0 <= i < |s| ==> Spellable(s[i])
  }

  predicate Fits(ts: seq<Test>, n: nat, opts: Options, spelled: bool) {
    TestAllowed(opts, n + TestDepth(ts)) && TestsOk(ts, spelled)
  }

  lemma {:induction false} FitsSnoc(ts: seq<Test>, t: Test, n: nat, opts: Options, spelled: bool)
    requires Fits(ts, n, opts, spelled) && TestOk(t, spelled) && TestAllowed(opts, n + 1 + TestDepth(t.tests))
    ensures Fits(ts + [t], n, opts, spelled)
  {
    TestDepthSnoc(ts, t);
  }

  lemma {:induction false} StringListSound(s: seq<Token>, need: bool, acc: seq<string>, spelled: bool)
    requires Stream(s, spelled) && ArgOk(StringListArg(acc), spelled)
    ensures var r := StringList(s, need, acc);
            r.Ok? ==> ArgOk(StringListArg(r.value.texts), spelled) && Stream(r.value.rest, spelled)
    decreases |s|
  {
    if s != [] {
      if s[0].String? && need {
        StringListSound(s[1..], false, acc + [s[0].text], spelled);
      } else if s[0].Comma? && !need {
        StringListSound(s[1..], true, acc, spelled);
      }
    }
  }

  lemma ArgumentSound(s: seq<Token>, spelled: bool)
    requires Stream(s, spelled) && s != [] && StartsArgument(s[0])
    ensures var r := ReadArgument(s); r.Ok? ==> ArgOk(r.value.0, spelled) && Stream(r.value.1, spelled)
  {
    if s[0].ListStart? {
      StringListSound(s[1..], true, [], spelled);
    } else if s[0].Colon? && |s| >= 2 {
      assert spelled ==> Spellable(s[1]);
    }
  }

  predicate ArgumentsFit(r: Result<Arguments>, n: nat, opts: Options, spelled: bool) {
    r.Ok? ==> ArgsOk(r.value.args, spelled) && Fits(r.value.tests, n, opts, spelled) && Stream(r.value.rest, spelled)
  }

  lemma {:induction false} ArgumentsSound(s: seq<Token>, forTest: bool, n: nat, opts: Options, spelled: bool)
    requires Stream(s, spelled)
    ensures ArgumentsFit(ReadArguments(s, forTest, n, opts), n, opts, spelled)
    decreases |s|, 1
  {
    if TestAllowed(opts, n) {
      ArgumentLoopSound(s, forTest, n, opts, [], [], spelled);
    }
  }

  lemma {:induction false} ArgumentLoopSound(s: seq<Token>, forTest: bool, n: nat, opts: Options,
                                             args: seq<Arg>, tests: seq<Test>, spelled: bool)
    requires Stream(s, spelled) && ArgsOk(args, spelled) && Fits(tests, n, opts, spelled)
    ensures ArgumentsFit(ArgumentLoop(s, forTest, n, opts, args, tests), n, opts, spelled)
    decreases |s|, 0
  {
    if s == [] || EndsArguments(s[0], forTest) {
    } else if StartsArgument(s[0]) {
      ArgumentSound(s, spelled);
      var r := ReadArgument(s);
      if r.Ok? {
        ArgumentLoopSound(r.value.1, forTest, n, opts, args + [r.value.0], tests, spelled);
      }
    } else if s[0].Identifier? {
      ArgumentsSound(s[1..], true, n + 1, opts, spelled);
      var r := ReadArguments(s[1..], true, n + 1, opts);
      if r.Ok? {
        var t := Test(s[0].text, r.value.args, r.value.tests);
        FitsSnoc(tests, t, n, opts, spelled);
        ArgumentLoopSound(r.value.rest, forTest, n, opts, args, tests + [t], spelled);
      }
    } else if s[0].TestListStart? {
      TestsSound(s[1..], n, opts, true, [], spelled);
    }
  }

  predicate TestListFits(r: Result<TestList>, n: nat, opts: Options, spelled: bool) {
    r.Ok? ==> Fits(r.value.tests, n, opts, spelled) && Stream(r.value.rest, spelled)
  }

  lemma {:induction false} TestsSound(s: seq<Token>, n: nat, opts: Options, need: bool, acc: seq<Test>, spelled: bool)
    requires Stream(s, spelled) && TestAllowed(opts, n) && Fits(acc, n, opts, spelled)
    ensures TestListFits(ReadTests(s, n, opts, need, acc), n, opts, spelled)
    decreases |s|, 0
  {
    if s == [] {
    } else if s[0].Identifier? && need {
      ArgumentsSound(s[1..], true, n + 1, opts, spelled);
      var r := ReadArguments(s[1..], true, n + 1, opts);
      if r.Ok? {
        var t := Test(s[0].text, r.value.args, r.value.tests);
        FitsSnoc(acc, t, n, opts, spelled);
        TestsSound(r.value.rest, n, opts, false, acc + [t], spelled);
      }
    } else if s[0].Comma? && !need {
      TestsSound(s[1..], n, opts, true, acc, spelled);
    }
  }

  predicate BlockFits(r: Result<Block>, n: nat, opts: Options, spelled: bool) {
    r.Ok? ==> Commands(r.value.cmds, n, opts, spelled) && Stream(r.value.rest, spelled)
  }

  predicate Commands(cs: seq<Cmd>, n: nat, opts: Options, spelled: bool) {
    ParserRoundTrip.Within(cs, n, opts) && CmdsOk(cs, spelled)
  }

  lemma {:induction false} CommandsSnoc(cs: seq<Cmd>, c: Cmd, n: nat, opts: Options, spelled: bool)
    requires Commands(cs, n, opts, spelled) && CmdOk(c, spelled) && ParserRoundTrip.CmdTestsWithin(c, opts)
    requires BlockAllowed(opts, n) && (c.ending.Braced? ==> BlockAllowed(opts, n + 1 + BlockDepth(c.ending.cmds)))
    ensures Commands(cs + [c], n, opts, spelled)
  {
    BlockDepthSnoc(cs, c);
    assert [c][1..] == [];
  }

  lemma {:induction false} BlockSound(s: seq<Token>, n: nat, opts: Options, spelled: bool)
    requires Stream(s, spelled)
    ensures BlockFits(ParseBlock(s, n, opts), n, opts, spelled)
    decreases |s|, 1
  {
    if BlockAllowed(opts, n) {
      CommandLoopSound(s, n, opts, [], spelled);
    }
  }

  lemma {:induction false} CommandLoopSound(s: seq<Token>, n: nat, opts: Options, acc: seq<Cmd>, spelled: bool)
    requires Stream(s, spelled) && BlockAllowed(opts, n) && Commands(acc, n, opts, spelled)
    ensures BlockFits(CommandLoop(s, n, opts, acc), n, opts, spelled)
    decreases |s|, 0
  {
    if s != [] && s[0].Identifier? {
      ArgumentsSound(s[1..], false, 0, opts, spelled);
      var r := ReadArguments(s[1..], false, 0, opts);
      if r.Ok? {
        CommandEndSound(Cmd(s[0].text, r.value.args, r.value.tests, Plain), r.value.rest, n, opts, acc, spelled);
      }
    }
  }

  lemma {:induction false} CommandEndSound(c: Cmd, s: seq<Token>, n: nat, opts: Options, acc: seq<Cmd>, spelled: bool)
    requires Stream(s, spelled) && BlockAllowed(opts, n) && Commands(acc, n, opts, spelled)
    requires c.ending.Plain? && CmdOk(c, spelled) && TestAllowed(opts, TestDepth(c.tests))
    ensures BlockFits(CommandEnd(c, s, n, opts, acc), n, opts, spelled)
    decreases |s|, 1
  {
    if s == [] {
    } else if s[0].Semicolon? {
      CommandsSnoc(acc, c, n, opts, spelled);
      CommandLoopSound(s[1..], n, opts, acc + [c], spelled);
    } else if s[0].BlockStart? {
      BlockSound(s[1..], n + 1, opts, spelled);
      var b := ParseBlock(s[1..], n + 1, opts);
      if b.Ok? && b.value.closed {
        var c' := c.(ending := Braced(b.value.cmds));
        CommandsSnoc(acc, c', n, opts, spelled);
        CommandLoopSound(b.value.rest, n, opts, acc + [c'], spelled);
      }
    }
  }

  /** Whatever Parse accepts is within both limits and holds only 64-bit numbers. */
  lemma {:induction false} ParseSound(toks: seq<Token>, opts: Options, spelled: bool)
    requires Stream(toks, spelled)
    ensures var r := Parse(toks, opts);
            r.Ok? ==> ParserRoundTrip.Within(r.value, 0, opts) && CmdsOk(r.value, spelled)
  {
    BlockSound(toks, 0, opts, spelled);
  }

  /** Parsing, printing and parsing again gives the same tree, for every accepted stream. */
  lemma ReparseIsStable(toks: seq<Token>, opts: Options)
    ensures var r := Parse(toks, opts); r.Ok? ==> Parse(Printer.PrintCmds(r.value), opts) == r
  {
    ParseSound(toks, opts, false);
    var r := Parse(toks, opts);
    if r.Ok? {
      ParserRoundTrip.ParseUndoesPrint(r.value, opts);
    }
  }
}
