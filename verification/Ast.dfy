/** The syntax tree of parser/command.go, without positions. */
module Ast {
  import opened Tokens

  datatype Arg =
    | NumberArg(value: int)
    | StringArg(text: string)
    | StringListArg(texts: seq<string>)
    | TagArg(tag: string)

  datatype Test = Test(id: string, args: seq<Arg>, tests: seq<Test>)

  datatype Cmd = Cmd(id: string, args: seq<Arg>, tests: seq<Test>, ending: Ending)

  /** A command ends in a semicolon or in a block, perhaps an empty one. */
  datatype Ending = Plain | Braced(cmds: seq<Cmd>)

  function Max(a: nat, b: nat): nat {
    if a < b then b else a
  }

  function TestDepth(ts: seq<Test>): nat {
    if ts == [] then 0 else Max(1 + TestDepth(ts[0].tests), TestDepth(ts[1..]))
  }

  function BlockDepth(cs: seq<Cmd>): nat {
    if cs == [] then 0
    else Max(if cs[0].ending.Braced? then 1 + BlockDepth(cs[0].ending.cmds) else 0, BlockDepth(cs[1..]))
  }

  predicate IsInt64(n: int) {
    -0x8000_0000_0000_0000 <= n < 0x8000_0000_0000_0000
  }

  /** Numbers are Go ints; with `spelled`, every text can also be written in Sieve source. */
  predicate ArgOk(a: Arg, spelled: bool) {
    match a
    case NumberArg(v) => IsInt64(v)
    case StringArg(text) => spelled ==> CrlfOnly(text)
    case StringListArg(texts) => spelled ==> forall i :: 0 <= i < |texts| ==> CrlfOnly(texts[i])
    case TagArg(tag) => spelled ==> IsIdentifier(tag)
  }

  predicate ArgsOk(args: seq<Arg>, spelled: bool) {
    forall i :: 0 <= i < |args| ==> ArgOk(args[i], spelled)
  }

  predicate TestsOk(ts: seq<Test>, spelled: bool) {
    forall i :: 0 <= i < |ts| ==> TestOk(ts[i], spelled)
  }

  predicate TestOk(t: Test, spelled: bool) {
    (spelled ==> IsIdentifier(t.id)) && ArgsOk(t.args, spelled) && TestsOk(t.tests, spelled)
  }

  predicate CmdsOk(cs: seq<Cmd>, spelled: bool) {
    forall i :: 0 <= i < |cs| ==> CmdOk(cs[i], spelled)
  }

  predicate CmdOk(c: Cmd, spelled: bool) {
    && (spelled ==> IsIdentifier(c.id)) && ArgsOk(c.args, spelled) && TestsOk(c.tests, spelled)
    && (c.ending.Braced? ==> CmdsOk(c.ending.cmds, spelled))
  }

  lemma {:induction false} BlockDepthSnoc(cs: seq<Cmd>, c: Cmd)
    ensures BlockDepth(cs + [c]) == Max(BlockDepth(cs), BlockDepth([c]))
  {
    if cs == [] {
      assert cs + [c] == [c];
    } else {
      assert (cs + [c])[1..] == cs[1..] + [c];
      BlockDepthSnoc(cs[1..], c);
    }
  }

  lemma {:induction false} TestDepthSnoc(ts: seq<Test>, t: Test)
    ensures TestDepth(ts + [t]) == Max(TestDepth(ts), 1 + TestDepth(t.tests))
  {
    if ts == [] {
      assert ts + [t] == [t];
    } else {
      assert (ts + [t])[1..] == ts[1..] + [t];
      TestDepthSnoc(ts[1..], t);
    }
  }
}
