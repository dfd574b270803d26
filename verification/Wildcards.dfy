/** Sieve wildcard patterns: escapes and the :quotewildcard modifier (interp/value_modifiers.go). */
module Wildcards {

  predicate IsSpecial(c: char) {
    c == '\\' || c == '*' || c == '?'
  }

  function QuoteChar(c: char): string {
    if IsSpecial(c) then ['\\', c] else [c]
  }

  /** modQuoteWildcard */
  function Quote(s: string): string {
    if s == "" then "" else QuoteChar(s[0]) + Quote(s[1..])
  }

  /** The pattern stops right after a backslash that escapes nothing. */
  predicate EndsInEscape(p: string) {
    if p == "" then false
    else if p[0] == '\\' then |p| == 1 || EndsInEscape(p[2..])
    else EndsInEscape(p[1..])
  }

  lemma {:induction false} QuoteConcat(s: string, t: string)
    ensures Quote(s + t) == Quote(s) + Quote(t)
  {
    if s == "" {
      assert s + t == t;
    } else {
      assert (s + t)[1..] == s[1..] + t;
      QuoteConcat(s[1..], t);
    }
  }

  lemma {:induction false} EndsInEscapeAfterQuote(s: string, t: string)
    ensures EndsInEscape(Quote(s) + t) == EndsInEscape(t)
  {
    var p := Quote(s) + t;
    if s == "" {
      assert p == t;
    } else {
      var tail := Quote(s[1..]) + t;
      assert p == QuoteChar(s[0]) + tail;
      assert p[|QuoteChar(s[0])|..] == tail;
      EndsInEscapeAfterQuote(s[1..], t);
    }
  }

  /** modQuoteWildcard as written: a loop over the characters. */
  method QuoteWildcard(s: string) returns (b: string)
    ensures b == Quote(s)
  {
    b := "";
    for i := 0 to |s|
      invariant b == Quote(s[..i])
    {
      QuoteConcat(s[..i], [s[i]]);
      assert s[..i + 1] == s[..i] + [s[i]];
      assert [s[i]][1..] == "";
      if s[i] == '\\' || s[i] == '*' || s[i] == '?' {
        b := b + "\\";
      }
      b := b + [s[i]];
    }
    assert s[..|s|] == s;
  }
}
