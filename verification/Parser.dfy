/** What parser/parse.go computes, as functions on the unread tokens. */
module Parser {
  import opened Wrappers
  import opened Tokens
  import opened Ast

  datatype Options = Options(maxBlockNesting: int, maxTestNesting: int)

  predicate BlockAllowed(opts: Options, nesting: nat) {
    opts.maxBlockNesting == 0 || nesting <= opts.maxBlockNesting
  }

  predicate TestAllowed(opts: Options, nesting: nat) {
    opts.maxTestNesting == 0 || nesting <= opts.maxTestNesting
  }

  /** Go's 64-bit int arithmetic wraps around. */
  function Wrap(n: int): int {
    (n + 0x8000_0000_0000_0000) % 0x1_0000_0000_0000_0000 - 0x8000_0000_0000_0000
  }

  datatype Strings = Strings(texts: seq<string>, rest: seq<Token>)
  datatype Arguments = Arguments(args: seq<Arg>, tests: seq<Test>, rest: seq<Token>)
  datatype TestList = TestList(tests: seq<Test>, rest: seq<Token>)
  /** `closed` tells a closing brace from the end of the stream. */
  datatype Block = Block(cmds: seq<Cmd>, rest: seq<Token>, closed: bool)

  function StringList(s: seq<Token>, need: bool, acc: seq<string>): (r: Result<Strings>)
    ensures r.Ok? ==> |r.value.rest| < |s|
    decreases |s|
  {
    if s == [] then Err
    else match s[0]
      case String(text) => if need then StringList(s[1..], false, acc + [text]) else Err
      case Comma => if need then Err else StringList(s[1..], true, acc)
      case ListEnd => Ok(Strings(acc, s[1..]))
      case _ => Err
  }

  function ReadArguments(s: seq<Token>, forTest: bool, nesting: nat, opts: Options): (r: Result<Arguments>)
    ensures r.Ok? ==> |r.value.rest| <= |s|
    decreases |s|, 1
  {
    if TestAllowed(opts, nesting) then ArgumentLoop(s, forTest, nesting, opts, [], []) else Err
  }

  /** The tokens that start a string, string list, number or tag argument. */
  predicate StartsArgument(t: Token) {
    t.String? || t.ListStart? || t.Number? || t.Colon?
  }

  function ReadArgument(s: seq<Token>): (r: Result<(Arg, seq<Token>)>)
    requires s != [] && StartsArgument(s[0])
    ensures r.Ok? ==> |r.value.1| < |s|
  {
    match s[0]
    case String(text) => Ok((StringArg(text), s[1..]))
    case Number(value, q) => Ok((NumberArg(Wrap(value * Multiplier(q))), s[1..]))
    case Colon => if |s| >= 2 && s[1].Identifier? then Ok((TagArg(s[1].text), s[2..])) else Err
    case ListStart =>
      match StringList(s[1..], true, [])
      case Err => Err
      case Ok(l) => Ok((StringListArg(l.texts), l.rest))
  }

  /** The tokens that end the arguments of a command, or of a test. */
  predicate EndsArguments(t: Token, forTest: bool) {
    t.Semicolon? || t.BlockStart? || (forTest && (t.Comma? || t.TestListEnd?))
  }

  /** The loop of readArguments: a test list ends it and replaces the tests collected before. */
  function ArgumentLoop(s: seq<Token>, forTest: bool, nesting: nat, opts: Options,
                        args: seq<Arg>, tests: seq<Test>): (r: Result<Arguments>)
    ensures r.Ok? ==> |r.value.rest| <= |s|
    decreases |s|, 0
  {
    if s == [] then Err
    else if EndsArguments(s[0], forTest) then Ok(Arguments(args, tests, s))
    else if StartsArgument(s[0]) then
      match ReadArgument(s)
      case Err => Err
      case Ok((arg, rest)) => ArgumentLoop(rest, forTest, nesting, opts, args + [arg], tests)
    else if s[0].Identifier? then
      match ReadArguments(s[1..], true, nesting + 1, opts)
      case Err => Err
      case Ok(a) => ArgumentLoop(a.rest, forTest, nesting, opts, args, tests + [Test(s[0].text, a.args, a.tests)])
    else if s[0].TestListStart? then
      match ReadTests(s[1..], nesting, opts, true, [])
      case Err => Err
      case Ok(l) => Ok(Arguments(args, l.tests, l.rest))
    else Err
  }

  function ReadTests(s: seq<Token>, nesting: nat, opts: Options, need: bool, acc: seq<Test>): (r: Result<TestList>)
    ensures r.Ok? ==> |r.value.rest| < |s|
    decreases |s|, 0
  {
    if s == [] then Err
    else match s[0]
      case Identifier(id) => (
        if !need then Err
        else match ReadArguments(s[1..], true, nesting + 1, opts)
          case Err => Err
          case Ok(a) => ReadTests(a.rest, nesting, opts, false, acc + [Test(id, a.args, a.tests)]))
      case Comma => if need then Err else ReadTests(s[1..], nesting, opts, true, acc)
      case TestListEnd => Ok(TestList(acc, s[1..]))
      case _ => Err
  }

  function ParseBlock(s: seq<Token>, nesting: nat, opts: Options): (r: Result<Block>)
    ensures r.Ok? ==> |r.value.rest| <= |s| && (!r.value.closed ==> r.value.rest == [])
    decreases |s|, 1
  {
    if BlockAllowed(opts, nesting) then CommandLoop(s, nesting, opts, []) else Err
  }

  function CommandLoop(s: seq<Token>, nesting: nat, opts: Options, acc: seq<Cmd>): (r: Result<Block>)
    ensures r.Ok? ==> |r.value.rest| <= |s| && (!r.value.closed ==> r.value.rest == [])
    decreases |s|, 0
  {
    if s == [] then Ok(Block(acc, [], false))
    else match s[0]
      case BlockEnd => Ok(Block(acc, s[1..], true))
      case Identifier(id) => (
        match ReadArguments(s[1..], false, 0, opts)
        case Err => Err
        case Ok(a) => CommandEnd(Cmd(id, a.args, a.tests, Plain), a.rest, nesting, opts, acc))
      case _ => Err
  }

  /** The semicolon or block that ends a command, and the commands after it. */
  function CommandEnd(c: Cmd, s: seq<Token>, nesting: nat, opts: Options, acc: seq<Cmd>): (r: Result<Block>)
    ensures r.Ok? ==> |r.value.rest| <= |s| && (!r.value.closed ==> r.value.rest == [])
    decreases |s|, 1
  {
    if s == [] then Err
    else match s[0]
      case Semicolon => CommandLoop(s[1..], nesting, opts, acc + [c])
      case BlockStart => (
        match ParseBlock(s[1..], nesting + 1, opts)
        case Err => Err
        case Ok(b) =>
          if b.closed then CommandLoop(b.rest, nesting, opts, acc + [c.(ending := Braced(b.cmds))]) else Err)
      case _ => Err
  }

  /** Parse on a fresh stream; tokens after a stray closing brace stay unread. */
  function Parse(toks: seq<Token>, opts: Options): Result<seq<Cmd>> {
    match ParseBlock(toks, 0, opts)
    case Err => Err
    case Ok(b) => Ok(b.cmds)
  }
}
