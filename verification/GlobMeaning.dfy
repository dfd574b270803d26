/** The meaning of compiled patterns: exactly the glob's strings, with the captures the wildcards stand for. */
module GlobMeaning {
  import opened Wrappers
  import opened Wildcards
  import opened Glob

  /**
   * Matching as the regular expression library does it: the first match in priority order,
   * where `.*?` tries shorter captures first. `fold` sends a character to the representative
   * of its case-folding class; without folding it is the identity.
   */
  function Match(fold: char -> char, items: seq<Item>, anchored: bool, v: string): Option<seq<string>>
    decreases |items|, 0, 0
  {
    if items == [] then if anchored && v != "" then None else Some([])
    else match items[0]
      case Lit(c) =>
        if v != "" && fold(c) == fold(v[0]) then Match(fold, items[1..], anchored, v[1..]) else None
      case AnyChar =>
        if v != "" && v[0] != '\n' then Capture([v[0]], Match(fold, items[1..], anchored, v[1..])) else None
      case AnyString => Lazy(fold, items[1..], anchored, v, 0)
  }

  /** The shortest capture of at least k characters that lets the rest match. */
  function Lazy(fold: char -> char, items: seq<Item>, anchored: bool, v: string, k: nat): Option<seq<string>>
    requires k <= |v|
    decreases |items|, 1, |v| - k
  {
    var rest := Match(fold, items, anchored, v[k..]);
    if rest.Some? then Capture(v[..k], rest)
    else if k < |v| then Lazy(fold, items, anchored, v, k + 1)
    else None
  }

  /** No case folding. */
  function Identity(c: char): char {
    c
  }

  function Capture(c: string, r: Option<seq<string>>): Option<seq<string>> {
    match r
    case None => None
    case Some(caps) => Some([c] + caps)
  }

  /** Section 2.7.1 of RFC 5228; `lf` says whether `?` may stand for a line feed. */
  ghost predicate Matches(fold: char -> char, p: string, v: string, lf: bool)
    decreases |p|
  {
    if p == "" then v == ""
    else if p[0] == '\\' then
      |p| >= 2 && v != "" && fold(p[1]) == fold(v[0]) && Matches(fold, p[2..], v[1..], lf)
    else if p[0] == '?' then v != "" && (lf || v[0] != '\n') && Matches(fold, p[1..], v[1..], lf)
    else if p[0] == '*' then exists k :: 0 <= k <= |v| && Matches(fold, p[1..], v[k..], lf)
    else v != "" && fold(p[0]) == fold(v[0]) && Matches(fold, p[1..], v[1..], lf)
  }

  // ----- the shortest capture -----

  lemma {:induction false} LazyIsFirst(fold: char -> char, items: seq<Item>, anchored: bool, v: string, k: nat)
    returns (n: nat)
    requires k <= |v|
    ensures k <= n
    ensures Lazy(fold, items, anchored, v, k).None? ==>
              forall j :: k <= j <= |v| ==> Match(fold, items, anchored, v[j..]).None?
    ensures Lazy(fold, items, anchored, v, k).Some? ==>
              && n <= |v|
              && Match(fold, items, anchored, v[n..]).Some?
              && Lazy(fold, items, anchored, v, k) == Capture(v[..n], Match(fold, items, anchored, v[n..]))
              && forall j :: k <= j < n ==> Match(fold, items, anchored, v[j..]).None?
    decreases |v| - k
  {
    n := k;
    if Match(fold, items, anchored, v[k..]).None? && k < |v| {
      n := LazyIsFirst(fold, items, anchored, v, k + 1);
    }
  }

  // ----- compilation preserves meaning -----

  /** A pattern that does not end inside an escape accepts exactly the strings of the glob. */
  lemma {:induction false} CompiledAcceptsGlob(fold: char -> char, p: string, v: string)
    requires !EndsInEscape(p)
    ensures Match(fold, Items(p), true, v).Some? <==> Matches(fold, p, v, false)
    decreases |p|
  {
    if p == "" {
    } else if p[0] == '\\' {
      assert Items(p)[1..] == Items(p[2..]);
      if v != "" {
        CompiledAcceptsGlob(fold, p[2..], v[1..]);
      }
    } else {
      assert Items(p)[1..] == Items(p[1..]);
      if p[0] == '*' {
        StarAcceptsGlob(fold, p, v);
      } else if v != "" {
        CompiledAcceptsGlob(fold, p[1..], v[1..]);
      }
    }
  }

  lemma {:induction false} StarAcceptsGlob(fold: char -> char, p: string, v: string)
    requires !EndsInEscape(p) && p != "" && p[0] == '*'
    ensures Lazy(fold, Items(p[1..]), true, v, 0).Some? <==> Matches(fold, p, v, false)
    decreases |p|, 0
  {
    var n := LazyIsFirst(fold, Items(p[1..]), true, v, 0);
    forall k | 0 <= k <= |v|
      ensures Match(fold, Items(p[1..]), true, v[k..]).Some? <==> Matches(fold, p[1..], v[k..], false)
    {
      CompiledAcceptsGlob(fold, p[1..], v[k..]);
    }
  }

  /** A trailing backslash drops the end anchor: the pattern then accepts every extension of what it matched. */
  lemma {:induction false} DanglingAcceptsExtensions(fold: char -> char, p: string, v: string)
    requires EndsInEscape(p)
    ensures !EndsInEscape(p[..|p| - 1])
    ensures Match(fold, Items(p), false, v).Some?
       <==> exists k :: 0 <= k <= |v| && Matches(fold, p[..|p| - 1], v[..k], false)
    decreases |p|
  {
    DanglingItems(p);
    var body := p[..|p| - 1];
    UnanchoredIsPrefix(fold, Items(body), v);
    forall k | 0 <= k <= |v|
      ensures Match(fold, Items(body), true, v[..k]).Some? <==> Matches(fold, body, v[..k], false)
    {
      CompiledAcceptsGlob(fold, body, v[..k]);
    }
  }

  lemma {:induction false} DanglingItems(p: string)
    requires EndsInEscape(p)
    ensures !EndsInEscape(p[..|p| - 1]) && Items(p[..|p| - 1]) == Items(p)
    decreases |p|
  {
    var body := p[..|p| - 1];
    if |p| == 1 {
      assert body == "";
    } else {
      var w := if p[0] == '\\' then 2 else 1;
      assert |p| > w;
      DanglingItems(p[w..]);
      assert body[w..] == p[w..][..|p[w..]| - 1];
    }
  }

  lemma {:induction false} UnanchoredIsPrefix(fold: char -> char, items: seq<Item>, v: string)
    ensures Match(fold, items, false, v).Some?
       <==> exists k :: 0 <= k <= |v| && Match(fold, items, true, v[..k]).Some?
    decreases |items|
  {
    if items == [] {
      assert v[..0] == "";
      assert Match(fold, items, true, v[..0]).Some?;
    } else if items[0].AnyString? {
      UnanchoredStar(fold, items, v);
    } else if v != "" {
      UnanchoredIsPrefix(fold, items[1..], v[1..]);
      forall k | 1 <= k <= |v| ensures v[..k][1..] == v[1..][..k - 1] {
      }
      if Match(fold, items, false, v).Some? {
        var k :| 0 <= k <= |v[1..]| && Match(fold, items[1..], true, v[1..][..k]).Some?;
        assert v[..k + 1][1..] == v[1..][..k];
        assert Match(fold, items, true, v[..k + 1]).Some?;
      }
      if exists k :: 0 <= k <= |v| && Match(fold, items, true, v[..k]).Some? {
        var k :| 0 <= k <= |v| && Match(fold, items, true, v[..k]).Some?;
        assert Match(fold, items[1..], true, v[1..][..k - 1]).Some?;
      }
    }
  }

  lemma {:induction false} UnanchoredStar(fold: char -> char, items: seq<Item>, v: string)
    requires items != [] && items[0].AnyString?
    ensures Match(fold, items, false, v).Some?
       <==> exists k :: 0 <= k <= |v| && Match(fold, items, true, v[..k]).Some?
    decreases |items|, 0
  {
    var rest := items[1..];
    var n := LazyIsFirst(fold, rest, false, v, 0);
    if Match(fold, items, false, v).Some? {
      UnanchoredIsPrefix(fold, rest, v[n..]);
      var j :| 0 <= j <= |v[n..]| && Match(fold, rest, true, v[n..][..j]).Some?;
      var k := n + j;
      assert v[..k][n..] == v[n..][..j];
      var m := LazyIsFirst(fold, rest, true, v[..k], 0);
      assert Match(fold, items, true, v[..k]).Some?;
    }
    if exists k :: 0 <= k <= |v| && Match(fold, items, true, v[..k]).Some? {
      var k :| 0 <= k <= |v| && Match(fold, items, true, v[..k]).Some?;
      var m := LazyIsFirst(fold, rest, true, v[..k], 0);
      assert v[..k][m..] == v[m..][..k - m];
      UnanchoredIsPrefix(fold, rest, v[m..]);
    }
  }

  /** The emitted expression accepts the glob's strings, or with a trailing backslash all their extensions. */
  lemma {:induction false} CompiledMeaning(fold: char -> char, p: string, v: string)
    ensures var r := Compile(p, false);
            Match(fold, r.items, r.anchored, v).Some? <==>
              if EndsInEscape(p) then exists k :: 0 <= k <= |v| && Matches(fold, p[..|p| - 1], v[..k], false)
              else Matches(fold, p, v, false)
  {
    if EndsInEscape(p) {
      DanglingAcceptsExtensions(fold, p, v);
    } else {
      CompiledAcceptsGlob(fold, p, v);
    }
  }

  /** The comment in the source says such a pattern will not compile; instead "a\\" accepts "ab". */
  lemma TrailingBackslashAcceptsMore()
    ensures EndsInEscape("a\\") && Match(Identity, Items("a\\"), false, "ab").Some?
    ensures !Matches(Identity, "a", "ab", true)
  {
    var p := "a\\";
    assert p[1..] == "\\";
    assert Items(p) == [Lit('a')] + Items("\\");
    assert Items(p)[1..] == [];
    assert "ab"[1..] == "b" && "a"[1..] == "";
  }

  // ----- captures -----

  predicate IsWildcard(i: Item) {
    !i.Lit?
  }

  function WildcardCount(items: seq<Item>): nat {
    if items == [] then 0 else (if IsWildcard(items[0]) then 1 else 0) + WildcardCount(items[1..])
  }

  /** The string with captures put back for the wildcards. */
  function Refill(items: seq<Item>, caps: seq<string>): string
    requires |caps| == WildcardCount(items)
  {
    if items == [] then ""
    else if items[0].Lit? then [items[0].c] + Refill(items[1..], caps)
    else caps[0] + Refill(items[1..], caps[1..])
  }

  predicate SameFolded(fold: char -> char, s: string, t: string) {
    |s| == |t| && forall i :: 0 <= i < |s| ==> fold(s[i]) == fold(t[i])
  }

  /** Captures a wildcard could stand for so that the whole value is covered. */
  predicate Fits(fold: char -> char, items: seq<Item>, caps: seq<string>, v: string) {
    if items == [] then caps == [] && v == ""
    else match items[0]
      case Lit(c) => v != "" && fold(c) == fold(v[0]) && Fits(fold, items[1..], caps, v[1..])
      case AnyChar =>
        && v != "" && v[0] != '\n' && caps != [] && caps[0] == [v[0]] && Fits(fold, items[1..], caps[1..], v[1..])
      case AnyString =>
        && caps != [] && caps[0] <= v && Fits(fold, items[1..], caps[1..], v[|caps[0]|..])
  }

  /** Fitting captures, one per wildcard in order, rebuild the value up to case folding. */
  lemma {:induction false} FitsRefills(fold: char -> char, items: seq<Item>, caps: seq<string>, v: string)
    requires Fits(fold, items, caps, v)
    ensures |caps| == WildcardCount(items) && SameFolded(fold, Refill(items, caps), v)
    decreases |items|
  {
    if items == [] {
    } else {
      match items[0]
      case Lit(c) => FitsRefills(fold, items[1..], caps, v[1..]);
      case AnyChar => FitsRefills(fold, items[1..], caps[1..], v[1..]);
      case AnyString =>
        FitsRefills(fold, items[1..], caps[1..], v[|caps[0]|..]);
        assert v == caps[0] + v[|caps[0]|..];
    }
  }

  /** The captures of a match fit. */
  lemma {:induction false} MatchFits(fold: char -> char, items: seq<Item>, v: string)
    requires Match(fold, items, true, v).Some?
    ensures Fits(fold, items, Match(fold, items, true, v).value, v)
    decreases |items|
  {
    if items == [] {
    } else if items[0].AnyString? {
      var n := LazyIsFirst(fold, items[1..], true, v, 0);
      MatchFits(fold, items[1..], v[n..]);
      var caps := Match(fold, items, true, v).value;
      assert caps[0] == v[..n] && caps[1..] == Match(fold, items[1..], true, v[n..]).value;
    } else {
      MatchFits(fold, items[1..], v[1..]);
      if items[0].AnyChar? {
        assert Match(fold, items, true, v).value[1..] == Match(fold, items[1..], true, v[1..]).value;
      }
    }
  }

  /** Captures of one match against those of another: shorter at the first difference. */
  predicate NotLonger(a: seq<string>, b: seq<string>) {
    a == [] || (b != [] && (|a[0]| < |b[0]| || (|a[0]| == |b[0]| && NotLonger(a[1..], b[1..]))))
  }

  /** Section 3.2 of RFC 5229: captures that fit make a match, and each wildcard from the left takes the least. */
  lemma {:induction false} MatchIsShortest(fold: char -> char, items: seq<Item>, v: string, caps: seq<string>)
    requires Fits(fold, items, caps, v)
    ensures var m := Match(fold, items, true, v); m.Some? && NotLonger(m.value, caps)
    decreases |items|
  {
    if items == [] {
    } else {
      match items[0]
      case Lit(c) => MatchIsShortest(fold, items[1..], v[1..], caps);
      case AnyChar =>
        MatchIsShortest(fold, items[1..], v[1..], caps[1..]);
        assert Match(fold, items, true, v).value[1..] == Match(fold, items[1..], true, v[1..]).value;
      case AnyString =>
        var k := |caps[0]|;
        MatchIsShortest(fold, items[1..], v[k..], caps[1..]);
        var n := LazyIsFirst(fold, items[1..], true, v, 0);
        assert n <= k;
        var m := Match(fold, items, true, v).value;
        assert m[0] == v[..n] && m[1..] == Match(fold, items[1..], true, v[n..]).value;
    }
  }

  /** Without case folding the captures of a match rebuild the value. */
  lemma {:induction false} CapturesRebuildValue(items: seq<Item>, v: string)
    requires Match(Identity, items, true, v).Some?
    ensures var caps := Match(Identity, items, true, v).value;
            |caps| == WildcardCount(items) && Refill(items, caps) == v
  {
    MatchFits(Identity, items, v);
    FitsRefills(Identity, items, Match(Identity, items, true, v).value, v);
  }

  // ----- quoting -----

  /** A quoted string matches only itself. */
  lemma {:induction false} QuotedMatchesItself(s: string, v: string, lf: bool)
    ensures !EndsInEscape(Quote(s))
    ensures Matches(Identity, Quote(s), v, lf) <==> v == s
    decreases |s|
  {
    var p := Quote(s);
    if s != "" {
      var w := |QuoteChar(s[0])|;
      assert p[w..] == Quote(s[1..]);
      if v != "" {
        QuotedMatchesItself(s[1..], v[1..], lf);
        assert v == s <==> v[0] == s[0] && v[1..] == s[1..] by {
          assert v == [v[0]] + v[1..] && s == [s[0]] + s[1..];
        }
      } else {
        QuotedMatchesItself(s[1..], "", lf);
      }
    }
  }

  // ----- line feeds -----

  /** An unescaped question mark. */
  predicate HasQuestionMark(p: string) {
    if p == "" then false
    else if p[0] == '\\' then |p| >= 2 && HasQuestionMark(p[2..])
    else p[0] == '?' || HasQuestionMark(p[1..])
  }

  /** The shortest string of a glob that has a line feed for every question mark. */
  function LfInstance(p: string): string {
    if p == "" then ""
    else if p[0] == '\\' then if |p| == 1 then "" else [p[1]] + LfInstance(p[2..])
    else if p[0] == '?' then "\n" + LfInstance(p[1..])
    else if p[0] == '*' then LfInstance(p[1..])
    else [p[0]] + LfInstance(p[1..])
  }

  lemma {:induction false} LfInstanceMatches(fold: char -> char, p: string)
    requires !EndsInEscape(p)
    ensures Matches(fold, p, LfInstance(p), true)
    decreases |p|
  {
    var v := LfInstance(p);
    if p == "" {
    } else if p[0] == '\\' {
      LfInstanceMatches(fold, p[2..]);
      assert v[1..] == LfInstance(p[2..]);
    } else {
      LfInstanceMatches(fold, p[1..]);
      if p[0] == '*' {
        assert v[0..] == v;
        assert Matches(fold, p[1..], v[0..], true);
      } else {
        assert v[1..] == LfInstance(p[1..]);
      }
    }
  }

  lemma {:induction false} MatchesAreLongEnough(fold: char -> char, p: string, v: string, lf: bool)
    requires Matches(fold, p, v, lf)
    ensures |v| >= |LfInstance(p)|
    decreases |p|
  {
    if p == "" {
    } else if p[0] == '\\' {
      MatchesAreLongEnough(fold, p[2..], v[1..], lf);
    } else if p[0] == '*' {
      var k :| 0 <= k <= |v| && Matches(fold, p[1..], v[k..], lf);
      MatchesAreLongEnough(fold, p[1..], v[k..], lf);
    } else {
      MatchesAreLongEnough(fold, p[1..], v[1..], lf);
    }
  }

  lemma {:induction false} LfInstanceIsRefused(fold: char -> char, p: string)
    requires HasQuestionMark(p)
    ensures !Matches(fold, p, LfInstance(p), false)
    decreases |p|
  {
    var v := LfInstance(p);
    if p[0] == '\\' {
      assert v[1..] == LfInstance(p[2..]);
      LfInstanceIsRefused(fold, p[2..]);
    } else if p[0] == '?' {
      assert v[0] == '\n';
    } else if p[0] == '*' {
      LfInstanceIsRefused(fold, p[1..]);
      forall k | 0 <= k <= |v| ensures !Matches(fold, p[1..], v[k..], false) {
        if k == 0 {
          assert v[0..] == v;
        } else if Matches(fold, p[1..], v[k..], false) {
          MatchesAreLongEnough(fold, p[1..], v[k..], false);
        }
      }
    } else {
      assert v[1..] == LfInstance(p[1..]);
      LfInstanceIsRefused(fold, p[1..]);
    }
  }

  lemma {:induction false} WithoutQuestionMarkLfIsNoMatter(fold: char -> char, p: string, v: string)
    requires !HasQuestionMark(p)
    ensures Matches(fold, p, v, false) <==> Matches(fold, p, v, true)
    decreases |p|
  {
    if p == "" {
    } else if p[0] == '\\' {
      if |p| >= 2 && v != "" {
        WithoutQuestionMarkLfIsNoMatter(fold, p[2..], v[1..]);
      }
    } else if p[0] == '*' {
      forall k | 0 <= k <= |v|
        ensures Matches(fold, p[1..], v[k..], false) <==> Matches(fold, p[1..], v[k..], true)
      {
        WithoutQuestionMarkLfIsNoMatter(fold, p[1..], v[k..]);
      }
    } else if v != "" {
      WithoutQuestionMarkLfIsNoMatter(fold, p[1..], v[1..]);
    }
  }

  /** A compiled pattern accepts all strings of the RFC's glob exactly when it has no unescaped question mark. */
  lemma {:induction false} AgreesWithRfcExactlyWithoutQuestionMark(fold: char -> char, p: string)
    requires !EndsInEscape(p)
    ensures (forall v :: Match(fold, Items(p), true, v).Some? <==> Matches(fold, p, v, true)) <==> !HasQuestionMark(p)
  {
    if HasQuestionMark(p) {
      LfInstanceMatches(fold, p);
      LfInstanceIsRefused(fold, p);
      CompiledAcceptsGlob(fold, p, LfInstance(p));
    } else {
      forall v ensures Match(fold, Items(p), true, v).Some? <==> Matches(fold, p, v, true) {
        CompiledAcceptsGlob(fold, p, v);
        WithoutQuestionMarkLfIsNoMatter(fold, p, v);
      }
    }
  }
}
