/**
 * A canonical printer for syntax trees, the reference that parsing is measured against.
 * A single test is written bare, several tests in parentheses.
 */
module Printer {
  import opened Tokens
  import opened Ast

  /** The rest of a string list, after its first element. */
  function MoreStrings(texts: seq<string>): seq<Token> {
    if texts == [] then [] else [Comma, String(texts[0])] + MoreStrings(texts[1..])
  }

  function PrintStrings(texts: seq<string>): seq<Token> {
    if texts == [] then [] else [String(texts[0])] + MoreStrings(texts[1..])
  }

  function PrintArg(a: Arg): seq<Token> {
    match a
    case NumberArg(v) => [Number(v, Unit)]
    case StringArg(text) => [String(text)]
    case StringListArg(texts) => [ListStart] + PrintStrings(texts) + [ListEnd]
    case TagArg(tag) => [Colon, Identifier(tag)]
  }

  function PrintArgs(args: seq<Arg>): seq<Token> {
    if args == [] then [] else PrintArg(args[0]) + PrintArgs(args[1..])
  }

  function PrintTest(t: Test): seq<Token>
    decreases t
  {
    [Identifier(t.id)] + (PrintArgs(t.args) + PrintTests(t.tests))
  }

  function PrintTests(ts: seq<Test>): seq<Token>
    decreases ts
  {
    if ts == [] then []
    else if |ts| == 1 then PrintTest(ts[0])
    else [TestListStart] + (PrintTest(ts[0]) + (MoreTests(ts[1..]) + [TestListEnd]))
  }

  /** The rest of a test list, after its first test. */
  function MoreTests(ts: seq<Test>): seq<Token>
    decreases ts
  {
    if ts == [] then [] else [Comma] + (PrintTest(ts[0]) + MoreTests(ts[1..]))
  }

  function PrintCmd(c: Cmd): seq<Token>
    decreases c
  {
    [Identifier(c.id)] + (PrintArgs(c.args) + (PrintTests(c.tests) + PrintEnding(c.ending)))
  }

  function PrintEnding(e: Ending): seq<Token>
    decreases e
  {
    match e
    case Plain => [Semicolon]
    case Braced(cmds) => [BlockStart] + PrintCmds(cmds) + [BlockEnd]
  }

  function PrintCmds(cs: seq<Cmd>): seq<Token>
    decreases cs
  {
    if cs == [] then [] else PrintCmd(cs[0]) + PrintCmds(cs[1..])
  }
}
