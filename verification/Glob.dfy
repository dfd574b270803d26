/** The :matches compiler of interp/match.go and the meaning of the regular expressions it emits. */
module Glob {
  import opened Sequences
  import opened Wrappers
  import opened Wildcards

  /** The pieces of a pattern. Here a char is a Unicode code point, or an octet for the octet comparator. */
  datatype Item = Lit(c: char) | AnyChar | AnyString

  /** A regular expression of the fragment the compiler uses: anchored at the start, perhaps at the end. */
  datatype Regex = Regex(caseFold: bool, items: seq<Item>, anchored: bool)

  function Items(p: string): seq<Item> {
    if p == "" then []
    else if p[0] == '\\' then if |p| == 1 then [] else [Lit(p[1])] + Items(p[2..])
    else if p[0] == '?' then [AnyChar] + Items(p[1..])
    else if p[0] == '*' then [AnyString] + Items(p[1..])
    else [Lit(p[0])] + Items(p[1..])
  }

  /** What the compiler means to emit. */
  function Compile(p: string, caseFold: bool): Regex {
    Regex(caseFold, Items(p), !EndsInEscape(p))
  }

  // ----- the emitted text -----

  /** Characters with a meaning in RE2 syntax. */
  predicate IsMeta(c: char) {
    || c == '\\' || c == '.' || c == '+' || c == '*' || c == '?' || c == '(' || c == ')' || c == '|'
    || c == '[' || c == ']' || c == '{' || c == '}' || c == '^' || c == '$'
  }

  function LitText(c: char): string {
    if IsMeta(c) then ['\\', c] else [c]
  }

  function ItemText(i: Item): string {
    match i
    case Lit(c) => LitText(c)
    case AnyChar => "(.)"
    case AnyString => "((?s:.*?))"
  }

  function ItemsText(items: seq<Item>, anchored: bool): string {
    if items == [] then if anchored then "$" else ""
    else ItemText(items[0]) + ItemsText(items[1..], anchored)
  }

  function RegexText(r: Regex): string {
    (if r.caseFold then "(?i)" else "") + "^" + ItemsText(r.items, r.anchored)
  }

  /** What one character of the pattern writes, and the escape flag after it. */
  function Piece(c: char, escaped: bool): string {
    if escaped then LitText(c)
    else if c == '\\' then ""
    else if c == '?' then ItemText(AnyChar)
    else if c == '*' then ItemText(AnyString)
    else LitText(c)
  }

  predicate EscapedAfter(c: char, escaped: bool) {
    !escaped && c == '\\'
  }

  /** The text still to be written when s is unread. */
  function TailText(s: string, escaped: bool): string {
    if s == "" then if escaped then "" else "$"
    else Piece(s[0], escaped) + TailText(s[1..], EscapedAfter(s[0], escaped))
  }

  lemma {:induction false} TailTextIsItemsText(p: string)
    ensures TailText(p, false) == ItemsText(Items(p), !EndsInEscape(p))
    decreases |p|
  {
    if p == "" {
    } else if p[0] == '\\' {
      assert TailText(p, false) == TailText(p[1..], true);
      if |p| > 1 {
        TailTextIsItemsText(p[2..]);
        assert p[1..][1..] == p[2..];
        assert Items(p)[1..] == Items(p[2..]);
      }
    } else {
      TailTextIsItemsText(p[1..]);
      assert Items(p)[1..] == Items(p[1..]);
    }
  }

  method WritePiece(chr: char, escaped: bool) returns (piece: string, escaped': bool)
    ensures piece == Piece(chr, escaped) && escaped' == EscapedAfter(chr, escaped)
  {
    piece, escaped' := "", false;
    if !escaped {
      if chr == '\\' {
        escaped' := true;
      } else if chr == '?' {
        piece := "(.)";
      } else if chr == '*' {
        piece := "((?s:.*?))";
      } else {
        piece := if IsMeta(chr) then ['\\', chr] else [chr];
      }
    } else {
      piece := if IsMeta(chr) then ['\\', chr] else [chr];
    }
  }

  lemma {:induction false} Step(result: string, s: string, escaped: bool)
    requires s != ""
    ensures result + TailText(s, escaped)
         == (result + Piece(s[0], escaped)) + TailText(s[1..], EscapedAfter(s[0], escaped))
  {
    Associate(result, Piece(s[0], escaped), TailText(s[1..], EscapedAfter(s[0], escaped)));
  }

  /** patternToRegex as written: one pass with an escape flag. */
  method PatternToRegex(pattern: string, caseFold: bool) returns (result: string)
    ensures result == RegexText(Compile(pattern, caseFold))
  {
    result := if caseFold then "(?i)" else "";
    result := result + "^";
    var escaped := false;
    TailTextIsItemsText(pattern);
    ghost var goal := result + TailText(pattern, false);
    assert goal == RegexText(Compile(pattern, caseFold));
    assert pattern[0..] == pattern;
    for i := 0 to |pattern|
      invariant goal == result + TailText(pattern[i..], escaped)
    {
      Step(result, pattern[i..], escaped);
      assert pattern[i..][1..] == pattern[i + 1..];
      var piece;
      piece, escaped := WritePiece(pattern[i], escaped);
      result := result + piece;
    }
    assert pattern[|pattern|..] == "";
    if !escaped {
      result := result + "$";
    }
  }

  // ----- reading the emitted text back -----

  /**
   * Reads a text of the fragment as RE2 does: backslash and a metacharacter is that character,
   * other metacharacters stand for operators.
   */
  function ReadItems(t: string): Option<(seq<Item>, bool)>
    decreases |t|
  {
    if t == "" then Some(([], false))
    else if t == "$" then Some(([], true))
    else if |t| >= 10 && t[..10] == "((?s:.*?))" then Cons(AnyString, ReadItems(t[10..]))
    else if |t| >= 3 && t[..3] == "(.)" then Cons(AnyChar, ReadItems(t[3..]))
    else if |t| >= 2 && t[0] == '\\' && IsMeta(t[1]) then Cons(Lit(t[1]), ReadItems(t[2..]))
    else if !IsMeta(t[0]) then Cons(Lit(t[0]), ReadItems(t[1..]))
    else None
  }

  function Cons(i: Item, r: Option<(seq<Item>, bool)>): Option<(seq<Item>, bool)> {
    match r
    case None => None
    case Some((items, anchored)) => Some(([i] + items, anchored))
  }

  function ReadRegex(t: string): Option<Regex> {
    var caseFold := |t| >= 4 && t[..4] == "(?i)";
    var t' := if caseFold then t[4..] else t;
    if t' != "" && t'[0] == '^' then
      match ReadItems(t'[1..])
      case None => None
      case Some((items, anchored)) => Some(Regex(caseFold, items, anchored))
    else None
  }

  lemma {:induction false} ReadItem(i: Item, rest: string)
    ensures ReadItems(ItemText(i) + rest) == Cons(i, ReadItems(rest))
  {
    match i
    case AnyString => ReadAnyString(rest);
    case AnyChar => ReadAnyChar(rest);
    case Lit(c) => ReadLit(c, rest);
  }

  lemma {:induction false} ReadAnyString(rest: string)
    ensures ReadItems("((?s:.*?))" + rest) == Cons(AnyString, ReadItems(rest))
  {
    var t := "((?s:.*?))" + rest;
    assert t[..10] == "((?s:.*?))" && t[10..] == rest;
  }

  lemma {:induction false} ReadAnyChar(rest: string)
    ensures ReadItems("(.)" + rest) == Cons(AnyChar, ReadItems(rest))
  {
    var t := "(.)" + rest;
    assert t[..3] == "(.)" && t[3..] == rest;
    assert |t| >= 10 ==> t[..10][1] == '.';
  }

  lemma {:induction false} ReadLit(c: char, rest: string)
    ensures ReadItems(ItemText(Lit(c)) + rest) == Cons(Lit(c), ReadItems(rest))
  {
    if IsMeta(c) {
      ReadEscaped(c, rest);
    } else {
      ReadPlainChar(c, rest);
    }
  }

  lemma {:induction false} ReadEscaped(c: char, rest: string)
    requires IsMeta(c)
    ensures ReadItems(['\\', c] + rest) == Cons(Lit(c), ReadItems(rest))
  {
    var t := ['\\', c] + rest;
    assert t[0] == '\\' && t[1] == c && t[2..] == rest;
    assert |t| >= 3 ==> t[..3][0] == '\\';
    assert |t| >= 10 ==> t[..10][0] == '\\';
  }

  lemma {:induction false} ReadPlainChar(c: char, rest: string)
    requires !IsMeta(c)
    ensures ReadItems([c] + rest) == Cons(Lit(c), ReadItems(rest))
  {
    var t := [c] + rest;
    AfterFirst(c, rest);
    assert |t| >= 3 ==> t[..3][0] == c;
    assert |t| >= 10 ==> t[..10][0] == c;
  }

  lemma {:induction false} ReadItemsText(items: seq<Item>, anchored: bool)
    ensures ReadItems(ItemsText(items, anchored)) == Some((items, anchored))
  {
    if items != [] {
      ReadItemsText(items[1..], anchored);
      ReadItem(items[0], ItemsText(items[1..], anchored));
      assert [items[0]] + items[1..] == items;
    }
  }

  /** The emitted text reads as the intended expression: nothing in the pattern escapes into the syntax. */
  lemma EmittedTextIsFaithful(p: string, caseFold: bool)
    ensures ReadRegex(RegexText(Compile(p, caseFold))) == Some(Compile(p, caseFold))
  {
    var r := Compile(p, caseFold);
    var body := ItemsText(r.items, r.anchored);
    ReadItemsText(r.items, r.anchored);
    if caseFold {
      Associate("(?i)", "^", body);
      ReadFolded(body);
    } else {
      assert "" + "^" + body == "^" + body;
      ReadPlain(body);
    }
  }

  lemma {:induction false} ReadFolded(body: string)
    requires ReadItems(body).Some?
    ensures ReadRegex("(?i)" + ("^" + body)) == Some(Regex(true, ReadItems(body).value.0, ReadItems(body).value.1))
  {
    var t := "(?i)" + ("^" + body);
    assert t[..4] == "(?i)" && t[4..] == "^" + body;
    assert ("^" + body)[1..] == body;
  }

  lemma {:induction false} ReadPlain(body: string)
    requires ReadItems(body).Some?
    ensures ReadRegex("^" + body) == Some(Regex(false, ReadItems(body).value.0, ReadItems(body).value.1))
  {
    var t := "^" + body;
    assert |t| >= 4 ==> t[..4][0] == '^';
    assert t[1..] == body;
  }
}
