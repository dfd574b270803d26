/** parser/parse.go and lexer/stream.go as written: recursive descent over a shared cursor. */
module ParserLoops {
  import opened Wrappers
  import opened Tokens
  import opened Ast
  import opened Parser

  class Stream {
    const toks: seq<Token>
    var cursor: int

    constructor (toks: seq<Token>)
      ensures Valid() && Unread() == toks
    {
      this.toks, cursor := toks, -1;
      new;
      assert toks[0..] == toks;
    }

    ghost predicate Valid()
      reads this
    {
      -1 <= cursor
    }

    ghost function Unread(): seq<Token>
      requires Valid()
      reads this
    {
      if cursor + 1 <= |toks| then toks[cursor + 1..] else []
    }

    /** The token popped last, None past the end. */
    method Last() returns (t: Option<Token>)
      requires Valid() && 0 <= cursor
      ensures t.None? <==> cursor >= |toks|
      ensures t.Some? ==> t.value == toks[cursor]
    {
      t := if cursor >= |toks| then None else Some(toks[cursor]);
    }

    method Pop() returns (t: Option<Token>)
      requires Valid()
      modifies this
      ensures Valid() && cursor == old(cursor) + 1
      ensures t.None? <==> old(Unread()) == []
      ensures t.None? <==> cursor >= |toks|
      ensures t.None? ==> Unread() == []
      ensures t.Some? ==> t.value == old(Unread())[0] && Unread() == old(Unread())[1..]
    {
      cursor := cursor + 1;
      t := if cursor >= |toks| then None else Some(toks[cursor]);
    }

    method Peek() returns (t: Option<Token>)
      requires Valid()
      ensures t == if Unread() == [] then None else Some(Unread()[0])
    {
      var cur := cursor + 1;
      t := if cur >= |toks| then None else Some(toks[cur]);
    }
  }

  method ReadStringList(s: Stream) returns (r: Result<seq<string>>)
    requires s.Valid()
    modifies s
    ensures s.Valid()
    ensures r.Ok? == StringList(old(s.Unread()), true, []).Ok?
    ensures r.Ok? ==> StringList(old(s.Unread()), true, []) == Ok(Strings(r.value, s.Unread()))
  {
    var res, need := [], true;
    ghost var was := s.Unread();
    while true
      invariant s.Valid()
      invariant StringList(was, true, []) == StringList(s.Unread(), need, res)
      decreases |s.Unread()|
    {
      var tok := s.Pop();
      if tok.None? {
        return Err;
      }
      match tok.value
      case String(text) =>
        if !need {
          return Err;
        }
        res, need := res + [text], false;
      case Comma =>
        if need {
          return Err;
        }
        need := true;
      case ListEnd =>
        return Ok(res);
      case _ =>
        return Err;
    }
  }

  method ReadPlainArg(s: Stream) returns (r: Result<Arg>)
    requires s.Valid() && s.Unread() != [] && StartsArgument(s.Unread()[0])
    modifies s
    ensures s.Valid()
    ensures r.Ok? == ReadArgument(old(s.Unread())).Ok?
    ensures r.Ok? ==> ReadArgument(old(s.Unread())) == Ok((r.value, s.Unread()))
  {
    var tok := s.Pop();
    match tok.value
    case String(text) =>
      r := Ok(StringArg(text));
    case Number(value, q) =>
      r := Ok(NumberArg(Wrap(value * Multiplier(q))));
    case Colon =>
      var id := s.Pop();
      r := if id.Some? && id.value.Identifier? then Ok(TagArg(id.value.text)) else Err;
    case ListStart =>
      var list := ReadStringList(s);
      r := if list.Err? then Err else Ok(StringListArg(list.value));
  }

  method ReadArgs(s: Stream, forTest: bool, nesting: nat, opts: Options) returns (r: Result<(seq<Arg>, seq<Test>)>)
    requires s.Valid()
    modifies s
    ensures s.Valid()
    ensures r.Ok? == ReadArguments(old(s.Unread()), forTest, nesting, opts).Ok?
    ensures r.Ok? ==>
              ReadArguments(old(s.Unread()), forTest, nesting, opts) == Ok(Arguments(r.value.0, r.value.1, s.Unread()))
    decreases |s.Unread()|, 1
  {
    if !TestAllowed(opts, nesting) {
      return Err;
    }
    var args: seq<Arg>, tests: seq<Test> := [], [];
    ghost var was := s.Unread();
    while true
      invariant s.Valid()
      invariant ReadArguments(was, forTest, nesting, opts)
             == ArgumentLoop(s.Unread(), forTest, nesting, opts, args, tests)
      decreases |s.Unread()|
    {
      var tok := s.Peek();
      if tok.None? {
        return Err;
      }
      if EndsArguments(tok.value, forTest) {
        return Ok((args, tests));
      } else if StartsArgument(tok.value) {
        var arg := ReadPlainArg(s);
        if arg.Err? {
          return Err;
        }
        args := args + [arg.value];
      } else if tok.value.Identifier? {
        var _ := s.Pop();
        var inner := ReadArgs(s, true, nesting + 1, opts);
        if inner.Err? {
          return Err;
        }
        tests := tests + [Test(tok.value.text, inner.value.0, inner.value.1)];
      } else if tok.value.TestListStart? {
        var _ := s.Pop();
        var list := ReadTestList(s, nesting, opts);
        return if list.Err? then Err else Ok((args, list.value));
      } else {
        return Err;
      }
    }
  }

  method ReadTestList(s: Stream, nesting: nat, opts: Options) returns (r: Result<seq<Test>>)
    requires s.Valid()
    modifies s
    ensures s.Valid()
    ensures r.Ok? == ReadTests(old(s.Unread()), nesting, opts, true, []).Ok?
    ensures r.Ok? ==> ReadTests(old(s.Unread()), nesting, opts, true, []) == Ok(TestList(r.value, s.Unread()))
    decreases |s.Unread()|, 0
  {
    var res: seq<Test>, need := [], true;
    ghost var was := s.Unread();
    while true
      invariant s.Valid()
      invariant ReadTests(was, nesting, opts, true, []) == ReadTests(s.Unread(), nesting, opts, need, res)
      decreases |s.Unread()|
    {
      var tok := s.Pop();
      if tok.None? {
        return Err;
      }
      match tok.value
      case Identifier(id) =>
        if !need {
          return Err;
        }
        var inner := ReadArgs(s, true, nesting + 1, opts);
        if inner.Err? {
          return Err;
        }
        res, need := res + [Test(id, inner.value.0, inner.value.1)], false;
      case Comma =>
        if need {
          return Err;
        }
        need := true;
      case TestListEnd =>
        return Ok(res);
      case _ =>
        return Err;
    }
  }

  /** parse: the commands up to a closing brace or the end of the stream. */
  method ParseCommands(s: Stream, nesting: nat, opts: Options) returns (r: Result<seq<Cmd>>)
    requires s.Valid()
    modifies s
    ensures s.Valid()
    ensures r.Ok? == ParseBlock(old(s.Unread()), nesting, opts).Ok?
    ensures r.Ok? ==> 0 <= s.cursor
    ensures r.Ok? ==> ParseBlock(old(s.Unread()), nesting, opts).value.cmds == r.value
    ensures r.Ok? ==> ParseBlock(old(s.Unread()), nesting, opts).value.rest == s.Unread()
    ensures r.Ok? ==> ParseBlock(old(s.Unread()), nesting, opts).value.closed == (s.cursor < |s.toks|)
    decreases |s.Unread()|
  {
    if !BlockAllowed(opts, nesting) {
      return Err;
    }
    var res: seq<Cmd> := [];
    ghost var was := s.Unread();
    ghost var goal := ParseBlock(was, nesting, opts);
    while true
      invariant s.Valid()
      invariant goal == CommandLoop(s.Unread(), nesting, opts, res)
      decreases |s.Unread()|
    {
      ghost var before := s.Unread();
      var idT := s.Pop();
      if idT.None? || idT.value.BlockEnd? {
        assert goal == Ok(Block(res, s.Unread(), idT.Some?));
        return Ok(res);
      }
      if !idT.value.Identifier? {
        return Err;
      }
      var cmd := ParseCommand(s, idT.value.text, nesting, opts, before, res);
      if cmd.Err? {
        return Err;
      }
      res := res + [cmd.value];
    }
  }

  /** One command, past its identifier. */
  method ParseCommand(s: Stream, id: string, nesting: nat, opts: Options, ghost before: seq<Token>, ghost res: seq<Cmd>)
    returns (r: Result<Cmd>)
    requires s.Valid() && before != [] && before[0] == Identifier(id) && before[1..] == s.Unread()
    modifies s
    ensures s.Valid()
    ensures r.Err? ==> CommandLoop(before, nesting, opts, res) == Err
    ensures r.Ok? ==> |s.Unread()| < |before|
    ensures r.Ok? ==>
              (CommandLoop(before, nesting, opts, res) == CommandLoop(s.Unread(), nesting, opts, res + [r.value]))
    decreases |s.Unread()|, 1
  {
    var a := ReadArgs(s, false, 0, opts);
    if a.Err? {
      return Err;
    }
    var cmd := Cmd(id, a.value.0, a.value.1, Plain);
    assert CommandLoop(before, nesting, opts, res) == CommandEnd(cmd, s.Unread(), nesting, opts, res);
    r := ParseEnding(s, cmd, nesting, opts, res);
  }

  method ParseEnding(s: Stream, cmd: Cmd, nesting: nat, opts: Options, ghost res: seq<Cmd>) returns (r: Result<Cmd>)
    requires s.Valid()
    modifies s
    ensures s.Valid()
    ensures r.Err? ==> CommandEnd(cmd, old(s.Unread()), nesting, opts, res) == Err
    ensures r.Ok? ==> |s.Unread()| < |old(s.Unread())|
    ensures r.Ok? ==> (CommandEnd(cmd, old(s.Unread()), nesting, opts, res)
                    == CommandLoop(s.Unread(), nesting, opts, res + [r.value]))
    decreases |s.Unread()|, 0
  {
    var cmdEnd := s.Pop();
    if cmdEnd.None? {
      return Err;
    }
    if cmdEnd.value.Semicolon? {
      return Ok(cmd);
    }
    if !cmdEnd.value.BlockStart? {
      return Err;
    }
    var block := ParseCommands(s, nesting + 1, opts);
    if block.Err? {
      return Err;
    }
    var last := s.Last();
    if last.None? {
      return Err;
    }
    return Ok(cmd.(ending := Braced(block.value)));
  }

  method ParseTokens(toks: seq<Token>, opts: Options) returns (r: Result<seq<Cmd>>)
    ensures r == Parse(toks, opts)
  {
    var s := new Stream(toks);
    r := ParseCommands(s, 0, opts);
  }
}
