/**
 * What lexer/lex.go computes, as functions on the unread part of the input.
 * An octet is the char with that code.
 */
module Lexer {
  import opened Wrappers
  import opened Tokens
  import opened Decimal

  datatype Options = Options(maxTokens: int, maxStringBytes: int)

  predicate IsNewline(c: char) {
    c == '\r' || c == '\n'
  }

  /** consumeCRLF: a lone LF counts as a line end, a lone CR is an error. */
  function ConsumeCrlf(s: string): (r: Result<string>)
    requires s != "" && IsNewline(s[0])
    ensures r.Ok? ==> |r.value| < |s|
  {
    if s[0] == '\n' then Ok(s[1..])
    else if |s| >= 2 && s[1] == '\n' then Ok(s[2..])
    else Err
  }

  function IdentLength(s: string): (n: nat)
    ensures n <= |s| && forall i :: 0 <= i < n ==> IsIdentChar(s[i])
    ensures n < |s| ==> !IsIdentChar(s[n])
  {
    if s != "" && IsIdentChar(s[0]) then 1 + IdentLength(s[1..]) else 0
  }

  function QuantifierOf(c: char): Option<Quantifier> {
    if c == 'K' || c == 'k' then Some(Kilo)
    else if c == 'M' || c == 'm' then Some(Mega)
    else if c == 'G' || c == 'g' then Some(Giga)
    else None
  }

  function NumberToken(s: string): (r: Result<(Token, string)>)
    requires s != "" && IsDigit(s[0])
    ensures r.Ok? ==> |r.value.1| < |s|
  {
    var n := DigitLength(s);
    var v := Value(s[..n]);
    if v > MAX_INT then Err
    else if n < |s| && QuantifierOf(s[n]).Some? then
      Ok((Number(v, QuantifierOf(s[n]).value), s[n + 1..]))
    else Ok((Number(v, Unit), s[n..]))
  }

  function HashComment(s: string): (r: Result<string>)
    ensures r.Ok? ==> |r.value| <= |s|
  {
    if s == "" then Ok("")
    else if IsNewline(s[0]) then ConsumeCrlf(s)
    else HashComment(s[1..])
  }

  function BlockComment(s: string, wasStar: bool): (r: Result<string>)
    ensures r.Ok? ==> |r.value| < |s|
  {
    if s == "" then Err
    else if wasStar && s[0] == '/' then Ok(s[1..])
    else BlockComment(s[1..], s[0] == '*')
  }

  predicate Fits(max: int, n: nat) {
    max > 0 ==> n <= max
  }

  /** quotedString, past the opening quote; acc holds what was read so far. */
  function Quoted(s: string, escaped: bool, acc: string, max: int): (r: Result<(string, string)>)
    ensures r.Ok? ==> |r.value.1| < |s|
    decreases |s|
  {
    if s == "" then Err
    else if IsNewline(s[0]) then
      match ConsumeCrlf(s)
      case Err => Err
      case Ok(rest) => if Fits(max, |acc| + 2) then Quoted(rest, false, acc + "\r\n", max) else Err
    else if s[0] == '\\' && !escaped then Quoted(s[1..], true, acc, max)
    else if s[0] == '"' && !escaped then Ok((acc, s[1..]))
    else if Fits(max, |acc| + 1) then Quoted(s[1..], false, acc + [s[0]], max)
    else Err
  }

  /** multilineString, past the line that starts with "text:". */
  function Multiline(s: string, atLF: bool, hadDot: bool, acc: string, max: int): (r: Result<(string, string)>)
    ensures r.Ok? ==> |r.value.1| < |s|
    decreases |s|
  {
    if s == "" then Err
    else if s[0] == '.' then
      if atLF then Multiline(s[1..], false, true, acc, max)
      else if Fits(max, |acc| + 1) then Multiline(s[1..], false, false, acc + ".", max)
      else Err
    else if IsNewline(s[0]) then
      match ConsumeCrlf(s)
      case Err => Err
      case Ok(rest) =>
        if hadDot then Ok((acc, rest))
        else if Fits(max, |acc| + 2) then Multiline(rest, true, false, acc + "\r\n", max)
        else Err
    else
      var dotted := if hadDot then acc + "." else acc;
      if Fits(max, |dotted| + 1) then Multiline(s[1..], false, false, dotted + [s[0]], max) else Err
  }

  /** What may stand between "text:" and the end of its line. */
  function TextLine(s: string): (r: Result<string>)
    ensures r.Ok? ==> |r.value| < |s|
  {
    if s == "" then Err
    else if s[0] == ' ' || s[0] == '\t' then TextLine(s[1..])
    else if s[0] == '#' then HashComment(s[1..])
    else if IsNewline(s[0]) then ConsumeCrlf(s)
    else Err
  }

  /** One turn of the lexer loop; `counted` says whether the turn reaches the token limit check. */
  datatype Turn = Fail | Turn(out: seq<Token>, rest: string, counted: bool)

  function Punctuation(c: char): Option<Token> {
    match c
    case '[' => Some(ListStart)
    case ']' => Some(ListEnd)
    case '{' => Some(BlockStart)
    case '}' => Some(BlockEnd)
    case '(' => Some(TestListStart)
    case ')' => Some(TestListEnd)
    case ',' => Some(Comma)
    case ':' => Some(Colon)
    case ';' => Some(Semicolon)
    case _ => None
  }

  function Silent(r: Result<string>): Turn {
    match r
    case Err => Fail
    case Ok(rest) => Turn([], rest, true)
  }

  function StringTurn(r: Result<(string, string)>, counted: bool): Turn {
    match r
    case Err => Fail
    case Ok((text, rest)) => Turn([String(text)], rest, counted)
  }

  function TextTurn(s: string, max: int): (t: Turn)
    ensures t.Turn? ==> |t.rest| < |s|
  {
    match TextLine(s)
    case Err => Fail
    case Ok(rest) => StringTurn(Multiline(rest, false, false, "", max), false)
  }

  /** Identifier or number: the default branch of the lexer loop. */
  function WordTurn(s: string): (t: Turn)
    requires s != ""
    ensures t.Turn? ==> |t.rest| < |s|
  {
    if IsAlpha(s[0]) then
      var n := IdentLength(s);
      Turn([Identifier(s[..n])], s[n..], true)
    else if IsDigit(s[0]) then
      match NumberToken(s)
      case Err => Fail
      case Ok((tok, rest)) => Turn([tok], rest, true)
    else Fail
  }

  function NextTurn(s: string, max: int): (t: Turn)
    requires s != ""
    ensures t.Turn? ==> |t.rest| < |s|
  {
    var c := s[0];
    if Punctuation(c).Some? then Turn([Punctuation(c).value], s[1..], true)
    else if c == ' ' || c == '\t' then Turn([], s[1..], false)
    else if IsNewline(c) then Silent(ConsumeCrlf(s))
    else if c == '"' then StringTurn(Quoted(s[1..], false, "", max), true)
    else if c == '#' then Silent(HashComment(s[1..]))
    else if c == '/' then
      if |s| >= 2 && s[1] == '*' then Silent(BlockComment(s[2..], false)) else Fail
    else if c == 't' then
      if |s| < 5 then Fail
      else if s[1..5] == "ext:" then TextTurn(s[5..], max)
      else WordTurn(s)
    else WordTurn(s)
  }

  predicate OverLimit(opts: Options, counted: bool, n: nat) {
    counted && opts.maxTokens != 0 && n > opts.maxTokens
  }

  function Prepend(out: seq<Token>, r: Result<seq<Token>>): Result<seq<Token>> {
    match r
    case Err => Err
    case Ok(toks) => Ok(out + toks)
  }

  lemma PrependNothing(r: Result<seq<Token>>)
    ensures Prepend([], r) == r
  {
    if r.Ok? {
      assert [] + r.value == r.value;
    }
  }

  /** The tokens of s, when n tokens came before it. */
  function LexFrom(s: string, opts: Options, n: nat): Result<seq<Token>>
    decreases |s|, 1
  {
    if s == "" then Ok([]) else AfterTurn(NextTurn(s, opts.maxStringBytes), opts, n)
  }

  function AfterTurn(t: Turn, opts: Options, n: nat): Result<seq<Token>>
    decreases if t.Turn? then |t.rest| + 1 else 1, 0
  {
    if t.Fail? || OverLimit(opts, t.counted, n + |t.out|) then Err
    else Prepend(t.out, LexFrom(t.rest, opts, n + |t.out|))
  }

  function Lex(s: string, opts: Options): Result<seq<Token>> {
    LexFrom(s, opts, 0)
  }
}
