/** The ManageSieve wire format (RFC 5804; managesieve/internal/wire/codec.go) as functions on octet strings. */
module Wire {
  import opened Wrappers
  import Decimal
  import Writer

  // ----- encoding -----

  /** validQuoted, on octets: no control characters, U+0080 to U+009F included, and at most 1024 octets. */
  predicate ValidQuoted(s: string) {
    |s| <= 1024 && forall i :: 0 <= i < |s| ==> !ControlAt(s, i)
  }

  predicate ControlAt(s: string, i: nat)
    requires i < |s|
  {
    || s[i] as int < 0x20 || s[i] as int == 0x7F
    || (s[i] as int == 0xC2 && i + 1 < |s| && 0x80 <= s[i + 1] as int <= 0x9F)
  }

  function LiteralHead(n: nat, plus: bool): string {
    "{" + Decimal.Numeral(n) + (if plus then "+}" else "}") + "\r\n"
  }

  /** A string in quoted or literal form; `plus` marks the client's non-synchronizing literals. */
  function StringText(s: string, plus: bool): string {
    if ValidQuoted(s) then Writer.FormatString(s) else LiteralHead(|s|, plus) + s
  }

  /** A client's command argument; a number is written as a bare atom. */
  datatype Arg = StrArg(text: string) | NumArg(number: int)

  function ArgText(a: Arg): string {
    match a
    case StrArg(text) => StringText(text, true)
    case NumArg(number) => Decimal.FormatInt(number)
  }

  function ArgsText(args: seq<Arg>): string {
    if args == [] then "" else " " + ArgText(args[0]) + ArgsText(args[1..])
  }

  /** strings.ToUpper on ASCII text. */
  function Upper(s: string): string {
    if s == "" then "" else [if 'a' <= s[0] <= 'z' then s[0] - 32 as char else s[0]] + Upper(s[1..])
  }

  function CommandText(name: string, args: seq<Arg>): string {
    Upper(name) + ArgsText(args) + "\r\n"
  }

  datatype Status = Status(kind: string, code: string, codeArgs: seq<string>, text: string)

  function StringsText(args: seq<string>): string {
    if args == [] then "" else " " + StringText(args[0], false) + StringsText(args[1..])
  }

  function CodeText(st: Status): string {
    if st.code == "" then "" else " (" + st.code + StringsText(st.codeArgs) + ")"
  }

  function TailText(st: Status): string {
    if st.text == "" then "" else " " + StringText(st.text, false)
  }

  function KindText(st: Status): string {
    if st.kind == "" then "OK" else st.kind
  }

  function StatusText(st: Status): string {
    KindText(st) + CodeText(st) + TailText(st) + "\r\n"
  }

  datatype ScriptInfo = ScriptInfo(name: string, active: bool)

  function EntryText(e: ScriptInfo): string {
    StringText(e.name, false) + (if e.active then " ACTIVE" else "") + "\r\n"
  }

  function EntriesText(list: seq<ScriptInfo>): string {
    if list == [] then "" else EntryText(list[0]) + EntriesText(list[1..])
  }

  const OK_STATUS := Status("OK", "", [], "")

  /** handleListScripts: one line per script, then the status. */
  function ListingText(list: seq<ScriptInfo>): string {
    EntriesText(list) + StatusText(OK_STATUS)
  }

  // ----- decoding -----

  datatype Limits = Limits(maxLiteral: int, maxAtom: int, maxQuoted: int, maxArgs: int, maxCommand: int)

  /** A value, what is unread, and the command bytes spent. */
  datatype Got<T> = Fail | Got(value: T, rest: string, spent: nat)

  const MAX_UINT32: nat := 0xFFFF_FFFF

  predicate Under(limit: int, n: nat) {
    limit > 0 ==> n <= limit
  }

  /** addCommandBytes; outside a command nothing is counted. */
  function Spend(counted: bool, spent: nat, n: nat): nat {
    if counted then spent + n else spent
  }

  predicate Affordable(lim: Limits, counted: bool, spent: nat) {
    counted ==> Under(lim.maxCommand, spent)
  }

  predicate IsAtomChar(c: char) {
    c as int > 0x20 && c as int != 0x7F && c != '(' && c != ')' && c != '{' && c != '"' && c != '\\'
  }

  function ExpectCrlf(s: string): (r: Result<string>)
    ensures r.Ok? ==> |r.value| < |s|
  {
    if s == "" then Err
    else if s[0] == '\r' then if |s| >= 2 && s[1] == '\n' then Ok(s[2..]) else Err
    else if s[0] == '\n' then Ok(s[1..])
    else Err
  }

  function SkipSp(s: string): (r: Result<string>)
    ensures r.Ok? ==> r.value != "" && |r.value| <= |s|
  {
    if s == "" then Err else if s[0] == ' ' then SkipSp(s[1..]) else Ok(s)
  }

  function AtomLoop(lim: Limits, counted: bool, spent: nat, acc: string, s: string): (g: Got<string>)
    ensures g.Got? ==> |g.rest| <= |s| && (acc == "" ==> |g.rest| < |s|)
    decreases |s|
  {
    if s == "" || !IsAtomChar(s[0]) then if acc == "" then Fail else Got(acc, s, spent)
    else if !Under(lim.maxAtom, |acc| + 1) then Fail
    else if !Affordable(lim, counted, Spend(counted, spent, 1)) then Fail
    else AtomLoop(lim, counted, Spend(counted, spent, 1), acc + [s[0]], s[1..])
  }

  function ReadAtom(lim: Limits, counted: bool, spent: nat, s: string): (g: Got<string>)
    ensures g.Got? ==> |g.rest| < |s|
  {
    match SkipSp(s)
    case Err => Fail
    case Ok(s') => AtomLoop(lim, counted, spent, "", s')
  }

  function QuotedLoop(lim: Limits, counted: bool, spent: nat, acc: string, s: string): (g: Got<string>)
    ensures g.Got? ==> |g.rest| < |s|
    decreases |s|
  {
    if s == "" then Fail
    else if s[0] == '"' then Got(acc, s[1..], spent)
    else if s[0] == '\\' && |s| == 1 then Fail
    else
      var (c, rest) := if s[0] == '\\' then (s[1], s[2..]) else (s[0], s[1..]);
      if !Under(lim.maxQuoted, |acc| + 1) then Fail
      else if !Affordable(lim, counted, Spend(counted, spent, 1)) then Fail
      else QuotedLoop(lim, counted, Spend(counted, spent, 1), acc + [c], rest)
  }

  /** The size between the braces of a literal, past the opening one. */
  function LiteralSize(s: string): (r: Result<(nat, string)>)
    ensures r.Ok? ==> |r.value.1| < |s|
  {
    var n := Decimal.DigitLength(s);
    SizeClosed(s[..n], s[n..])
  }

  /** The digits must be followed by an optional plus and the closing brace. */
  function SizeClosed(digits: string, tail: string): (r: Result<(nat, string)>)
    requires Decimal.AllDigits(digits)
    ensures r.Ok? ==> |r.value.1| < |tail|
  {
    var end := if tail != "" && tail[0] == '+' then tail[1..] else tail;
    if digits == "" || end == "" || end[0] != '}' then Err
    else if Decimal.Value(digits) > Decimal.MAX_INT then Err
    else Ok((Decimal.Value(digits), end[1..]))
  }

  function ReadLiteral(lim: Limits, counted: bool, spent: nat, s: string): (g: Got<string>)
    ensures g.Got? ==> |g.rest| < |s|
  {
    match LiteralSize(s)
    case Err => Fail
    case Ok((size, s')) =>
      if size > MAX_UINT32 || !Under(lim.maxLiteral, size) then Fail
      else if !Affordable(lim, counted, Spend(counted, spent, size)) then Fail
      else
        match ExpectCrlf(s')
        case Err => Fail
        case Ok(data) =>
          if |data| < size then Fail else Got(data[..size], data[size..], Spend(counted, spent, size))
  }

  function ReadString(lim: Limits, counted: bool, spent: nat, s: string): (g: Got<string>)
    ensures g.Got? ==> |g.rest| < |s|
  {
    match SkipSp(s)
    case Err => Fail
    case Ok(s') =>
      if s'[0] == '"' then QuotedLoop(lim, counted, spent, "", s'[1..])
      else if s'[0] == '{' then ReadLiteral(lim, counted, spent, s'[1..])
      else Fail
  }

  function ReadToken(lim: Limits, counted: bool, spent: nat, s: string): (g: Got<string>)
    ensures g.Got? ==> |g.rest| < |s|
  {
    match SkipSp(s)
    case Err => Fail
    case Ok(s') =>
      if s'[0] == '"' || s'[0] == '{' then ReadString(lim, counted, spent, s') else ReadAtom(lim, counted, spent, s')
  }

  predicate IsLineEnd(c: char) {
    c == '\r' || c == '\n'
  }

  function ArgLoop(lim: Limits, spent: nat, acc: seq<string>, s: string): Result<(seq<string>, string)>
    decreases |s|, 1
  {
    if s == "" then Err
    else if IsLineEnd(s[0]) then
      match ExpectCrlf(s)
      case Err => Err
      case Ok(rest) => Ok((acc, rest))
    else if !Under(lim.maxArgs, |acc| + 1) then Err
    else AfterArg(lim, acc, ReadToken(lim, true, spent, s))
  }

  function AfterArg(lim: Limits, acc: seq<string>, g: Got<string>): Result<(seq<string>, string)>
    decreases if g.Got? then |g.rest| + 1 else 1, 0
  {
    match g
    case Fail => Err
    case Got(arg, rest, spent) => ArgLoop(lim, spent, acc + [arg], rest)
  }

  datatype Command = Command(name: string, args: seq<string>, rest: string)

  function ReadCommand(lim: Limits, s: string): Result<Command> {
    match ReadAtom(lim, true, 0, s)
    case Fail => Err
    case Got(name, s', spent) =>
      match ArgLoop(lim, spent, [], s')
      case Err => Err
      case Ok((args, rest)) => Ok(Command(Upper(name), args, rest))
  }

  predicate IsKind(k: string) {
    k == "OK" || k == "NO" || k == "BYE"
  }

  datatype Reply = Reply(status: Status, rest: string)

  function ReadStatus(lim: Limits, s: string): (r: Result<Reply>)
    ensures r.Ok? ==> |r.value.rest| < |s|
  {
    match ReadAtom(lim, false, 0, s)
    case Fail => Err
    case Got(name, s', _) =>
      var st := Status(Upper(name), "", [], "");
      if !IsKind(st.kind) || s' == "" then Err
      else if s'[0] != ' ' then StatusEnd(st, s')
      else
        match SkipSp(s')
        case Err => Err
        case Ok(s2) => if s2[0] == '(' then ReadCode(lim, st, s2[1..]) else ReadText(lim, st, s2)
  }

  function StatusEnd(st: Status, s: string): (r: Result<Reply>)
    ensures r.Ok? ==> |r.value.rest| < |s|
  {
    match ExpectCrlf(s)
    case Err => Err
    case Ok(rest) => Ok(Reply(st, rest))
  }

  function ReadText(lim: Limits, st: Status, s: string): (r: Result<Reply>)
    ensures r.Ok? ==> |r.value.rest| < |s|
  {
    if s == "" then Err
    else if IsLineEnd(s[0]) then StatusEnd(st, s)
    else
      match ReadToken(lim, false, 0, s)
      case Fail => Err
      case Got(text, rest, _) => StatusEnd(st.(text := text), rest)
  }

  function ReadCode(lim: Limits, st: Status, s: string): (r: Result<Reply>)
    ensures r.Ok? ==> |r.value.rest| < |s|
  {
    match ReadAtom(lim, false, 0, s)
    case Fail => Err
    case Got(code, s', _) => CodeLoop(lim, st.(code := Upper(code)), s')
  }

  /** The arguments of a response code; the end of input right after the parenthesis also ends the status. */
  function CodeLoop(lim: Limits, st: Status, s: string): (r: Result<Reply>)
    ensures r.Ok? ==> |r.value.rest| < |s|
    decreases |s|
  {
    match SkipSp(s)
    case Err => Err
    case Ok(s') =>
      if s'[0] == ')' then
        match SkipSp(s'[1..])
        case Err => Ok(Reply(st, ""))
        case Ok(s2) => ReadText(lim, st, s2)
      else
        match ReadToken(lim, false, 0, s')
        case Fail => Err
        case Got(arg, rest, _) => CodeLoop(lim, st.(codeArgs := st.codeArgs + [arg]), rest)
  }

  datatype Line = Entry(info: ScriptInfo, rest: string) | Final(status: Status, rest: string)

  function ReadEntryEnd(info: ScriptInfo, s: string): (r: Result<Line>)
    ensures r.Ok? ==> |r.value.rest| < |s|
  {
    match ExpectCrlf(s)
    case Err => Err
    case Ok(rest) => Ok(Entry(info, rest))
  }

  /** ReadScriptOrStatus */
  function ReadLine(lim: Limits, s: string): (r: Result<Line>)
    ensures r.Ok? ==> |r.value.rest| < |s|
  {
    if s == "" then Err
    else if s[0] == '"' || s[0] == '{' then
      match ReadString(lim, false, 0, s)
      case Fail => Err
      case Got(name, s', _) =>
        if s' == "" then Err
        else if s'[0] == ' ' then
          match ReadAtom(lim, false, 0, s')
          case Fail => Err
          case Got(tok, s2, _) => ReadEntryEnd(ScriptInfo(name, Upper(tok) == "ACTIVE"), s2)
        else ReadEntryEnd(ScriptInfo(name, false), s')
    else
      match ReadStatus(lim, s)
      case Err => Err
      case Ok(reply) => Ok(Final(reply.status, reply.rest))
  }

  /** The client's ListScripts loop: entries up to an OK status. */
  function ReadListing(lim: Limits, acc: seq<ScriptInfo>, s: string): Result<(seq<ScriptInfo>, string)>
    decreases |s|
  {
    match ReadLine(lim, s)
    case Err => Err
    case Ok(Entry(info, rest)) => ReadListing(lim, acc + [info], rest)
    case Ok(Final(status, rest)) => if status.kind == "OK" then Ok((acc, rest)) else Err
  }
}
