/** lexer/write.go: tokens back to bytes, one space after each. */
module Writer {
  import opened Tokens
  import opened Sequences
  import Decimal

  function EscapeChar(c: char): string {
    if c == '"' || c == '\\' then ['\\', c] else [c]
  }

  function Escape(s: string): string {
    if s == "" then "" else EscapeChar(s[0]) + Escape(s[1..])
  }

  function FormatString(s: string): string {
    "\"" + Escape(s) + "\""
  }

  function QuantifierText(q: Quantifier): string {
    match q
    case Unit => ""
    case Kilo => "K"
    case Mega => "M"
    case Giga => "G"
  }

  function TokenText(t: Token): string {
    match t
    case Identifier(text) => text
    case Number(value, q) => Decimal.FormatInt(value) + QuantifierText(q)
    case String(text) => FormatString(text)
    case ListStart => "["
    case ListEnd => "]"
    case BlockStart => "{"
    case BlockEnd => "}"
    case TestListStart => "("
    case TestListEnd => ")"
    case Comma => ","
    case Semicolon => ";"
    case Colon => ":"
  }

  /** The bytes of a token list. */
  function Text(toks: seq<Token>): string {
    if toks == [] then "" else TokenText(toks[0]) + " " + Text(toks[1..])
  }

  lemma {:induction false} TextSnoc(toks: seq<Token>, t: Token)
    ensures Text(toks + [t]) == Text(toks) + TokenText(t) + " "
  {
    if toks == [] {
      assert [t][1..] == [] && toks + [t] == [t];
    } else {
      TextSnoc(toks[1..], t);
      assert (toks + [t])[1..] == toks[1..] + [t];
      Associate4(TokenText(toks[0]) + " ", Text(toks[1..]), TokenText(t), " ");
    }
  }

  lemma {:induction false} EscapeSnoc(s: string, c: char)
    ensures Escape(s + [c]) == Escape(s) + EscapeChar(c)
  {
    if s == "" {
      assert s + [c] == [c] && [c][1..] == "";
    } else {
      EscapeSnoc(s[1..], c);
      assert (s + [c])[1..] == s[1..] + [c];
      Associate(EscapeChar(s[0]), Escape(s[1..]), EscapeChar(c));
    }
  }

  method WriteString(s: string) returns (text: string)
    ensures text == FormatString(s)
  {
    var esc := "\"";
    for i := 0 to |s|
      invariant esc == "\"" + Escape(s[..i])
    {
      assert s[..i + 1] == s[..i] + [s[i]];
      EscapeSnoc(s[..i], s[i]);
      if s[i] == '"' || s[i] == '\\' {
        esc := esc + "\\";
      }
      esc := esc + [s[i]];
    }
    assert s[..|s|] == s;
    text := esc + "\"";
  }

  method Write(toks: seq<Token>) returns (out: string)
    ensures out == Text(toks)
  {
    out := "";
    for i := 0 to |toks|
      invariant out == Text(toks[..i])
    {
      assert toks[..i + 1] == toks[..i] + [toks[i]];
      TextSnoc(toks[..i], toks[i]);
      var text;
      if toks[i].String? {
        text := WriteString(toks[i].text);
      } else {
        text := TokenText(toks[i]);
      }
      out := out + text;
      out := out + " ";
    }
    assert toks[..|toks|] == toks;
  }
}
