/**
 * The grammar that parser/parse.go accepts, written down as a generator: every way to put a tree into tokens, with
 * trailing commas, tests before a test list that the list replaces, and any way of writing an amount.
 */
module Syntax {
  import opened Tokens
  import opened Ast

  datatype Word = Amount(value: int, quantifier: Quantifier) | Text(text: string) | Tag(tag: string)
                | Texts(texts: seq<string>, comma: bool)

  datatype Item = Given(word: Word) | Asked(test: Clause)

  /** A test and what follows its name. */
  datatype Clause = Clause(id: string, body: Body)

  /** Arguments and tests, and perhaps a parenthesised list that ends them. */
  datatype Body = Body(items: seq<Item>, list: Group)

  datatype Group = NoGroup | Group(clauses: seq<Clause>, comma: bool)

  datatype Command = Command(id: string, body: Body, ending: Finish)

  datatype Finish = Semi | Braces(commands: seq<Command>)

  // ----- tokens -----

  /** Elements separated by commas; the last one may have a comma after it. */
  function TextsTokens(texts: seq<string>, comma: bool): seq<Token> {
    if texts == [] then []
    else [String(texts[0])] + ((if |texts| > 1 || comma then [Comma] else []) + TextsTokens(texts[1..], comma))
  }

  function WordTokens(w: Word): seq<Token> {
    match w
    case Amount(value, quantifier) => [Number(value, quantifier)]
    case Text(text) => [String(text)]
    case Tag(tag) => [Colon, Identifier(tag)]
    case Texts(texts, comma) => [ListStart] + (TextsTokens(texts, comma) + [ListEnd])
  }

  function ItemTokens(i: Item): seq<Token>
    decreases i
  {
    match i
    case Given(word) => WordTokens(word)
    case Asked(test) => ClauseTokens(test)
  }

  function ItemsTokens(items: seq<Item>): seq<Token>
    decreases items
  {
    if items == [] then [] else ItemTokens(items[0]) + ItemsTokens(items[1..])
  }

  function ClauseTokens(c: Clause): seq<Token>
    decreases c
  {
    [Identifier(c.id)] + BodyTokens(c.body)
  }

  function BodyTokens(b: Body): seq<Token>
    decreases b
  {
    ItemsTokens(b.items) + GroupTokens(b.list)
  }

  function GroupTokens(g: Group): seq<Token>
    decreases g
  {
    match g
    case NoGroup => []
    case Group(clauses, comma) => [TestListStart] + (ClausesTokens(clauses, comma) + [TestListEnd])
  }

  function ClausesTokens(clauses: seq<Clause>, comma: bool): seq<Token>
    decreases clauses
  {
    if clauses == [] then []
    else
      ClauseTokens(clauses[0])
      + ((if |clauses| > 1 || comma then [Comma] else []) + ClausesTokens(clauses[1..], comma))
  }

  function CommandTokens(c: Command): seq<Token>
    decreases c
  {
    [Identifier(c.id)] + (BodyTokens(c.body) + FinishTokens(c.ending))
  }

  function FinishTokens(f: Finish): seq<Token>
    decreases f
  {
    match f
    case Semi => [Semicolon]
    case Braces(commands) => [BlockStart] + (CommandsTokens(commands) + [BlockEnd])
  }

  function CommandsTokens(cs: seq<Command>): seq<Token>
    decreases cs
  {
    if cs == [] then [] else CommandTokens(cs[0]) + CommandsTokens(cs[1..])
  }

  // ----- trees -----

  /** How much a number is. */
  function Total(v: int, q: Quantifier): int {
    match q
    case Unit => v
    case Kilo => v * 1024
    case Mega => v * 1048576
    case Giga => v * 1073741824
  }

  /** A 64-bit int holds the representative of a number modulo 2^64. */
  function Held(n: int): int {
    var m := n % 18446744073709551616;
    if m < 9223372036854775808 then m else m - 18446744073709551616
  }

  function WordTree(w: Word): Arg {
    match w
    case Amount(value, quantifier) => NumberArg(Held(Total(value, quantifier)))
    case Text(text) => StringArg(text)
    case Tag(tag) => TagArg(tag)
    case Texts(texts, _) => StringListArg(texts)
  }

  function ItemArgs(items: seq<Item>): seq<Arg> {
    if items == [] then [] else ItemArg(items[0]) + ItemArgs(items[1..])
  }

  function ItemArg(i: Item): seq<Arg> {
    match i
    case Given(word) => [WordTree(word)]
    case Asked(_) => []
  }

  function ItemTests(items: seq<Item>): seq<Test>
    decreases items
  {
    if items == [] then [] else ItemTest(items[0]) + ItemTests(items[1..])
  }

  function ItemTest(i: Item): seq<Test>
    decreases i
  {
    match i
    case Given(_) => []
    case Asked(test) => [ClauseTree(test)]
  }

  function ClauseTree(c: Clause): Test
    decreases c
  {
    Test(c.id, ItemArgs(c.body.items), BodyTests(c.body))
  }

  /** A list replaces the tests before it. */
  function BodyTests(b: Body): seq<Test>
    decreases b
  {
    match b.list
    case NoGroup => ItemTests(b.items)
    case Group(clauses, _) => ClausesTrees(clauses)
  }

  function ClausesTrees(clauses: seq<Clause>): seq<Test>
    decreases clauses
  {
    if clauses == [] then [] else [ClauseTree(clauses[0])] + ClausesTrees(clauses[1..])
  }

  function CommandTree(c: Command): Cmd
    decreases c
  {
    Cmd(c.id, ItemArgs(c.body.items), BodyTests(c.body), FinishTree(c.ending))
  }

  function FinishTree(f: Finish): Ending
    decreases f
  {
    match f
    case Semi => Plain
    case Braces(commands) => Braced(CommandsTrees(commands))
  }

  function CommandsTrees(cs: seq<Command>): seq<Cmd>
    decreases cs
  {
    if cs == [] then [] else [CommandTree(cs[0])] + CommandsTrees(cs[1..])
  }

  // ----- which are in the grammar -----

  predicate WordOk(w: Word) {
    w.Texts? && w.comma ==> w.texts != []
  }

  /** A test without a list of its own takes everything up to the end of what it stands in. */
  predicate IsOpen(i: Item) {
    i.Asked? && i.test.body.list.NoGroup?
  }

  predicate ItemOk(i: Item)
    decreases i
  {
    match i
    case Given(word) => WordOk(word)
    case Asked(test) => BodyOk(test.body)
  }

  predicate ItemsOk(items: seq<Item>, last: bool)
    decreases items
  {
    items == [] || (ItemOk(items[0]) && (IsOpen(items[0]) ==> |items| == 1 && last) && ItemsOk(items[1..], last))
  }

  predicate BodyOk(b: Body)
    decreases b
  {
    ItemsOk(b.items, b.list.NoGroup?) && GroupOk(b.list)
  }

  predicate GroupOk(g: Group)
    decreases g
  {
    g.Group? ==> ClausesOk(g.clauses) && (g.comma ==> g.clauses != [])
  }

  predicate ClausesOk(clauses: seq<Clause>)
    decreases clauses
  {
    clauses == [] || (BodyOk(clauses[0].body) && ClausesOk(clauses[1..]))
  }

  predicate CommandsOk(cs: seq<Command>)
    decreases cs
  {
    cs == [] || (BodyOk(cs[0].body) && FinishOk(cs[0].ending) && CommandsOk(cs[1..]))
  }

  predicate FinishOk(f: Finish)
    decreases f
  {
    f.Braces? ==> CommandsOk(f.commands)
  }

  // ----- nesting -----

  function Higher(a: nat, b: nat): nat {
    if a > b then a else b
  }

  function ItemsDepth(items: seq<Item>): nat
    decreases items
  {
    if items == [] then 0 else Higher(ItemDepth(items[0]), ItemsDepth(items[1..]))
  }

  function ItemDepth(i: Item): nat
    decreases i
  {
    match i
    case Given(_) => 0
    case Asked(test) => 1 + BodyDepth(test.body)
  }

  /** Tests that a list replaces count too. */
  function BodyDepth(b: Body): nat
    decreases b
  {
    Higher(ItemsDepth(b.items), if b.list.Group? then ClausesDepth(b.list.clauses) else 0)
  }

  function ClausesDepth(clauses: seq<Clause>): nat
    decreases clauses
  {
    if clauses == [] then 0 else Higher(1 + BodyDepth(clauses[0].body), ClausesDepth(clauses[1..]))
  }

  predicate DepthFits(limit: int, n: nat) {
    limit == 0 || n <= limit
  }

  /** Both nesting limits, for commands that stand in n blocks. */
  predicate CommandsFit(cs: seq<Command>, n: nat, maxBlocks: int, maxTests: int)
    decreases cs
  {
    && DepthFits(maxBlocks, n)
    && (cs == [] || (&& DepthFits(maxTests, BodyDepth(cs[0].body))
                     && (cs[0].ending.Braces? ==> CommandsFit(cs[0].ending.commands, n + 1, maxBlocks, maxTests))
                     && CommandsFit(cs[1..], n, maxBlocks, maxTests)))
  }
}
