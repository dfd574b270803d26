/** Tokens of the Sieve language (lexer/token.go), without source positions. */
module Tokens {
  import Decimal

  datatype Quantifier = Unit | Kilo | Mega | Giga

  datatype Token =
    | Identifier(text: string)
    | Number(value: int, quantifier: Quantifier)
    | String(text: string)
    | ListStart | ListEnd
    | BlockStart | BlockEnd
    | TestListStart | TestListEnd
    | Comma | Semicolon | Colon

  function Multiplier(q: Quantifier): int {
    match q
    case Unit => 1
    case Kilo => 1024
    case Mega => 1024 * 1024
    case Giga => 1024 * 1024 * 1024
  }

  predicate IsAlpha(c: char) {
    'a' <= c <= 'z' || 'A' <= c <= 'Z'
  }

  predicate IsIdentChar(c: char) {
    IsAlpha(c) || Decimal.IsDigit(c) || c == '_'
  }

  predicate IsIdentifier(s: string) {
    s != "" && IsAlpha(s[0]) && forall i :: 0 <= i < |s| ==> IsIdentChar(s[i])
  }

  /** CR and LF occur only as CRLF pairs. */
  predicate CrlfOnly(s: string) {
    if s == "" then true
    else if s[0] == '\r' then |s| >= 2 && s[1] == '\n' && CrlfOnly(s[2..])
    else s[0] != '\n' && CrlfOnly(s[1..])
  }

  /** The tokens a byte stream can spell. */
  predicate Spellable(t: Token) {
    match t
    case Identifier(text) => IsIdentifier(text)
    case Number(value, _) => 0 <= value <= Decimal.MAX_INT
    case String(text) => CrlfOnly(text)
    case _ => true
  }

  lemma {:induction false} CrlfOnlyConcat(s: string, t: string)
    requires CrlfOnly(s) && CrlfOnly(t)
    ensures CrlfOnly(s + t)
  {
    if s == "" {
      assert s + t == t;
    } else if s[0] == '\r' {
      CrlfOnlyConcat(s[2..], t);
      assert (s + t)[2..] == s[2..] + t;
      assert (s + t)[0] == '\r' && (s + t)[1] == '\n';
    } else {
      CrlfOnlyConcat(s[1..], t);
      assert (s + t)[1..] == s[1..] + t;
      assert (s + t)[0] == s[0];
    }
  }
}
