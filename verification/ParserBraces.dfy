/** Where parsing stops: after the first closing brace that matches no opening brace. */
module ParserBraces {
  import opened Wrappers
  import opened Tokens
  import opened Ast
  import opened Parser

  /** What follows the first unmatched closing brace of s, inside d open braces. */
  function AfterStray(s: seq<Token>, d: nat): Option<seq<Token>> {
    if s == [] then None
    else if s[0].BlockStart? then AfterStray(s[1..], d + 1)
    else if s[0].BlockEnd? then if d == 0 then Some(s[1..]) else AfterStray(s[1..], d - 1)
    else AfterStray(s[1..], d)
  }

  lemma {:induction false} StringListHasNoBrace(s: seq<Token>, need: bool, acc: seq<string>, d: nat)
    ensures var r := StringList(s, need, acc); r.Ok? ==> AfterStray(s, d) == AfterStray(r.value.rest, d)
    decreases |s|
  {
    if s != [] {
      if s[0].String? && need {
        StringListHasNoBrace(s[1..], false, acc + [s[0].text], d);
      } else if s[0].Comma? && !need {
        StringListHasNoBrace(s[1..], true, acc, d);
      }
    }
  }

  lemma {:induction false} ArgumentHasNoBrace(s: seq<Token>, d: nat)
    requires s != [] && StartsArgument(s[0])
    ensures var r := ReadArgument(s); r.Ok? ==> AfterStray(s, d) == AfterStray(r.value.1, d)
  {
    if s[0].ListStart? {
      StringListHasNoBrace(s[1..], true, [], d);
    } else if s[0].Colon? && |s| >= 2 {
      assert s[1..][1..] == s[2..];
    }
  }

  lemma {:induction false} ArgumentsHaveNoBrace(s: seq<Token>, forTest: bool, n: nat, opts: Options, d: nat)
    ensures var r := ReadArguments(s, forTest, n, opts); r.Ok? ==> AfterStray(s, d) == AfterStray(r.value.rest, d)
    decreases |s|, 1
  {
    if TestAllowed(opts, n) {
      ArgumentLoopHasNoBrace(s, forTest, n, opts, [], [], d);
    }
  }

  lemma {:induction false} ArgumentLoopHasNoBrace(s: seq<Token>, forTest: bool, n: nat, opts: Options,
                                                  args: seq<Arg>, tests: seq<Test>, d: nat)
    ensures var r := ArgumentLoop(s, forTest, n, opts, args, tests);
            r.Ok? ==> AfterStray(s, d) == AfterStray(r.value.rest, d)
    decreases |s|, 0
  {
    if s == [] || EndsArguments(s[0], forTest) {
    } else if StartsArgument(s[0]) {
      ArgumentHasNoBrace(s, d);
      var r := ReadArgument(s);
      if r.Ok? {
        ArgumentLoopHasNoBrace(r.value.1, forTest, n, opts, args + [r.value.0], tests, d);
      }
    } else if s[0].Identifier? {
      ArgumentsHaveNoBrace(s[1..], true, n + 1, opts, d);
      var r := ReadArguments(s[1..], true, n + 1, opts);
      if r.Ok? {
        ArgumentLoopHasNoBrace(r.value.rest, forTest, n, opts, args,
                               tests + [Test(s[0].text, r.value.args, r.value.tests)], d);
      }
    } else if s[0].TestListStart? {
      TestsHaveNoBrace(s[1..], n, opts, true, [], d);
    }
  }

  lemma {:induction false} TestsHaveNoBrace(s: seq<Token>, n: nat, opts: Options, need: bool, acc: seq<Test>, d: nat)
    ensures var r := ReadTests(s, n, opts, need, acc); r.Ok? ==> AfterStray(s, d) == AfterStray(r.value.rest, d)
    decreases |s|, 0
  {
    if s == [] {
    } else if s[0].Identifier? && need {
      ArgumentsHaveNoBrace(s[1..], true, n + 1, opts, d);
      var r := ReadArguments(s[1..], true, n + 1, opts);
      if r.Ok? {
        TestsHaveNoBrace(r.value.rest, n, opts, false, acc + [Test(s[0].text, r.value.args, r.value.tests)], d);
      }
    } else if s[0].Comma? && !need {
      TestsHaveNoBrace(s[1..], n, opts, true, acc, d);
    }
  }

  /** How a block that was read relates to the unmatched braces of what it was read from. */
  predicate Balanced(s: seq<Token>, r: Result<Block>, d: nat) {
    r.Ok? ==>
      AfterStray(s, d) == if !r.value.closed then None
                          else if d == 0 then Some(r.value.rest) else AfterStray(r.value.rest, d - 1)
  }

  lemma {:induction false} BlockBalanced(s: seq<Token>, n: nat, opts: Options, d: nat)
    ensures Balanced(s, ParseBlock(s, n, opts), d)
    decreases |s|, 1
  {
    if BlockAllowed(opts, n) {
      CommandLoopBalanced(s, n, opts, [], d);
    }
  }

  lemma {:induction false} CommandLoopBalanced(s: seq<Token>, n: nat, opts: Options, acc: seq<Cmd>, d: nat)
    ensures Balanced(s, CommandLoop(s, n, opts, acc), d)
    decreases |s|, 0
  {
    if s != [] && s[0].Identifier? {
      ArgumentsHaveNoBrace(s[1..], false, 0, opts, d);
      var r := ReadArguments(s[1..], false, 0, opts);
      if r.Ok? {
        CommandEndBalanced(Cmd(s[0].text, r.value.args, r.value.tests, Plain), r.value.rest, n, opts, acc, d);
      }
    }
  }

  lemma {:induction false} CommandEndBalanced(c: Cmd, s: seq<Token>, n: nat, opts: Options, acc: seq<Cmd>, d: nat)
    ensures Balanced(s, CommandEnd(c, s, n, opts, acc), d)
    decreases |s|, 1
  {
    if s == [] {
    } else if s[0].Semicolon? {
      CommandLoopBalanced(s[1..], n, opts, acc + [c], d);
    } else if s[0].BlockStart? {
      BlockBalanced(s[1..], n + 1, opts, d + 1);
      var b := ParseBlock(s[1..], n + 1, opts);
      if b.Ok? && b.value.closed {
        CommandLoopBalanced(b.value.rest, n, opts, acc + [c.(ending := Braced(b.value.cmds))], d);
      }
    }
  }

  /** An accepted stream is read to its end exactly when all braces match; else what follows the odd one is left. */
  lemma {:induction false} ReadsUpToStrayBrace(toks: seq<Token>, opts: Options)
    ensures var r := ParseBlock(toks, 0, opts);
            r.Ok? ==> AfterStray(toks, 0) == if r.value.closed then Some(r.value.rest) else None
  {
    BlockBalanced(toks, 0, opts, 0);
  }

  /** Tokens after a stray brace are dropped without an error. */
  lemma StrayBraceDropsTheRest(rest: seq<Token>, opts: Options)
    requires BlockAllowed(opts, 0)
    ensures Parse([BlockEnd] + rest, opts) == Ok([])
  {
    var s := [BlockEnd] + rest;
    assert ParseBlock(s, 0, opts) == CommandLoop(s, 0, opts, []);
  }
}
