/** Cutting values to the variable length limit (interp/runtime.go, value_modifiers.go). Chars are octets here. */
module Truncation {
  import opened Wildcards

  /** A second or further octet of a UTF-8 sequence. */
  predicate IsContinuation(c: char) {
    128 <= c as int < 192
  }

  function CutPoint(value: string, until: nat): (n: nat)
    requires until < |value|
    ensures n <= until
  {
    if until > 0 && IsContinuation(value[until]) then CutPoint(value, until - 1) else until
  }

  /** What SetVar stores for a value. */
  function Truncate(value: string, max: nat): string {
    if |value| > max then value[..CutPoint(value, max)] else value
  }

  method TruncateValue(value: string, max: nat) returns (r: string)
    ensures r == Truncate(value, max)
  {
    r := value;
    if |value| > max {
      var until: nat := max;
      while until > 0 && IsContinuation(value[until])
        invariant until <= max && CutPoint(value, until) == CutPoint(value, max)
      {
        until := until - 1;
      }
      r := value[..until];
    }
  }

  // ----- UTF-8, as in section 4 of RFC 3629 -----

  function SequenceLength(lead: char): nat {
    var b := lead as int;
    if b < 0x80 then 1
    else if 0xC2 <= b <= 0xDF then 2
    else if 0xE0 <= b <= 0xEF then 3
    else if 0xF0 <= b <= 0xF4 then 4
    else 0
  }

  predicate SecondOctetOk(lead: char, second: char) {
    var b, c := lead as int, second as int;
    && (b == 0xE0 ==> c >= 0xA0)
    && (b == 0xED ==> c <= 0x9F)
    && (b == 0xF0 ==> c >= 0x90)
    && (b == 0xF4 ==> c <= 0x8F)
  }

  predicate StartsCharacter(s: string) {
    && s != ""
    && var n := SequenceLength(s[0]);
    && 1 <= n <= |s|
    && (forall i :: 1 <= i < n ==> IsContinuation(s[i]))
    && (n >= 2 ==> SecondOctetOk(s[0], s[1]))
  }

  predicate IsUtf8(s: string) {
    s == "" || (StartsCharacter(s) && IsUtf8(s[SequenceLength(s[0])..]))
  }

  /** A prefix of valid UTF-8 is valid exactly when it is not followed by a continuation octet. */
  lemma {:induction false} PrefixIsUtf8(s: string, k: nat)
    requires IsUtf8(s) && k <= |s|
    ensures IsUtf8(s[..k]) <==> k == |s| || !IsContinuation(s[k])
    decreases |s|
  {
    if s == "" {
      assert s[..k] == "";
    } else {
      var n := SequenceLength(s[0]);
      if k == 0 {
        assert s[..k] == "";
      } else if k >= n {
        PrefixIsUtf8(s[n..], k - n);
        assert s[..k][n..] == s[n..][..k - n];
        assert forall i :: 0 <= i < n ==> s[..k][i] == s[i];
        assert StartsCharacter(s[..k]);
      }
    }
  }

  /** Nothing between the cut and the limit can start a character. */
  lemma {:induction false} CutPointIsLast(value: string, until: nat)
    requires until < |value|
    ensures var n := CutPoint(value, until);
            && (n == 0 || !IsContinuation(value[n]))
            && forall k :: n < k <= until ==> IsContinuation(value[k])
    decreases until
  {
    if until > 0 && IsContinuation(value[until]) {
      CutPointIsLast(value, until - 1);
    }
  }

  /** SetVar keeps the longest valid UTF-8 prefix within the limit. */
  lemma {:induction false} TruncateKeepsLongestUtf8(value: string, max: nat)
    requires IsUtf8(value)
    ensures var r := Truncate(value, max);
            && r <= value && |r| <= max && IsUtf8(r)
            && forall k :: |r| < k <= max && k <= |value| ==> !IsUtf8(value[..k])
  {
    if |value| > max {
      CutPointIsLast(value, max);
      var n := CutPoint(value, max);
      PrefixIsUtf8(value, n);
      assert IsUtf8(value[..n]) by {
        if n == 0 {
          assert value[..0] == "";
        }
      }
      forall k | n < k <= max ensures !IsUtf8(value[..k]) {
        PrefixIsUtf8(value, k);
      }
    }
  }

  // ----- the quotewildcard guard -----

  /** What buildValueModifier returns when :quotewildcard is the last modifier applied. */
  function GuardedCut(q: string, max: nat): string {
    if |q| > max then
      var n := CutPoint(q, max);
      if n > 0 && q[n - 1] == '\\' then q[..n - 1] else q[..n]
    else q
  }

  method QuoteAndCut(s: string, max: nat) returns (q: string)
    ensures q == GuardedCut(Quote(s), max)
  {
    q := QuoteWildcard(s);
    if |q| > max {
      var until: nat := max;
      while until > 0 && IsContinuation(q[until])
        invariant until <= max && CutPoint(q, until) == CutPoint(q, max)
      {
        until := until - 1;
      }
      if until > 0 && q[until - 1] == '\\' {
        until := until - 1;
      }
      q := q[..until];
    }
  }

  /** Where a position of a quoted string falls: between two quoted characters, or inside an escape. */
  lemma {:induction false} QuotePosition(s: string, n: nat) returns (i: nat)
    requires n <= |Quote(s)|
    ensures i <= |s|
    ensures var q := Quote(s);
            || (n == |Quote(s[..i])| && q[..n] == Quote(s[..i]))
            || (i < |s| && IsSpecial(s[i]) && n == |Quote(s[..i])| + 1 && q[..n] == Quote(s[..i]) + "\\")
    decreases |s|
  {
    var q := Quote(s);
    if n == 0 {
      i := 0;
      assert s[..0] == "" && q[..0] == "";
    } else {
      var w := |QuoteChar(s[0])|;
      if n < w {
        i := 0;
        assert s[..0] == "" && q[..1] == "" + "\\";
      } else {
        var j := QuotePosition(s[1..], n - w);
        i := j + 1;
        assert s[..i] == [s[0]] + s[1..][..j];
        assert s[..i][1..] == s[1..][..j];
        assert q[..n] == QuoteChar(s[0]) + Quote(s[1..])[..n - w];
      }
    }
  }

  lemma {:induction false} QuoteLengthGrows(s: string, i: nat, j: nat)
    requires i < j <= |s|
    ensures |Quote(s[..j])| > |Quote(s[..i])|
    ensures IsSpecial(s[i]) ==> |Quote(s[..j])| > |Quote(s[..i])| + 1
  {
    assert s[..j] == s[..i] + ([s[i]] + s[i + 1..j]);
    QuoteConcat(s[..i], [s[i]] + s[i + 1..j]);
    assert ([s[i]] + s[i + 1..j])[1..] == s[i + 1..j];
  }

  lemma QuoteEndsInBackslash(s: string, i: nat)
    requires 0 < i <= |s|
    ensures var q := Quote(s[..i]); q != "" && (q[|q| - 1] == '\\' <==> s[i - 1] == '\\')
  {
    assert s[..i] == s[..i - 1] + [s[i - 1]];
    QuoteConcat(s[..i - 1], [s[i - 1]]);
    assert [s[i - 1]][1..] == "";
  }

  /** The cut falls right after the quoted form of a backslash. */
  predicate SplitsPair(s: string, max: nat) {
    && |Quote(s)| > max
    && exists i :: 0 < i <= |s| && s[i - 1] == '\\' && |Quote(s[..i])| == CutPoint(Quote(s), max)
  }

  predicate IsQuotedPrefix(t: string, s: string) {
    exists i :: 0 <= i <= |s| && t == Quote(s[..i])
  }

  lemma PositionIsUnique(s: string, i: nat, j: nat)
    requires i <= |s| && j <= |s| && |Quote(s[..i])| == |Quote(s[..j])|
    ensures i == j
  {
    if i < j {
      QuoteLengthGrows(s, i, j);
    } else if j < i {
      QuoteLengthGrows(s, j, i);
    }
  }

  lemma {:induction false} SplitsPairAt(s: string, max: nat, i: nat)
    requires |Quote(s)| > max && i <= |s| && CutPoint(Quote(s), max) == |Quote(s[..i])|
    ensures SplitsPair(s, max) <==> i > 0 && s[i - 1] == '\\'
  {
    forall j | 0 < j <= |s| && |Quote(s[..j])| == CutPoint(Quote(s), max) ensures j == i {
      PositionIsUnique(s, i, j);
    }
  }

  lemma {:induction false} GuardAfterCharacter(q: string, max: nat, p: string)
    requires |q| > max && q[..CutPoint(q, max)] == p
    ensures GuardedCut(q, max) == if p != "" && p[|p| - 1] == '\\' then p[..|p| - 1] else p
  {
    var n := CutPoint(q, max);
    assert n > 0 ==> q[n - 1] == p[n - 1] && q[..n - 1] == p[..n - 1];
  }

  lemma {:induction false} CutBetweenCharacters(s: string, max: nat, i: nat)
    requires |Quote(s)| > max && i <= |s| && CutPoint(Quote(s), max) == |Quote(s[..i])|
    requires Quote(s)[..CutPoint(Quote(s), max)] == Quote(s[..i])
    ensures SplitsPair(s, max) <==> i > 0 && s[i - 1] == '\\'
    ensures IsQuotedPrefix(GuardedCut(Quote(s), max), s) <==> !SplitsPair(s, max)
    ensures SplitsPair(s, max) ==> GuardedCut(Quote(s), max) == Quote(s[..i - 1]) + "\\"
  {
    SplitsPairAt(s, max, i);
    GuardAfterCharacter(Quote(s), max, Quote(s[..i]));
    if i > 0 {
      QuoteEndsInBackslash(s, i);
      if s[i - 1] == '\\' {
        QuotedBackslash(s, i);
        HalfPairIsNoPrefix(s, i);
      }
    } else {
      assert s[..0] == "";
    }
  }

  lemma QuotedBackslash(s: string, i: nat)
    requires 0 < i <= |s| && s[i - 1] == '\\'
    ensures var p := Quote(s[..i]); p != "" && p[..|p| - 1] == Quote(s[..i - 1]) + "\\"
  {
    assert s[..i] == s[..i - 1] + "\\";
    QuoteConcat(s[..i - 1], "\\");
    assert "\\"[1..] == "";
    assert Quote("\\") == "\\\\";
  }

  lemma HalfPairIsNoPrefix(s: string, i: nat)
    requires 0 < i <= |s| && s[i - 1] == '\\'
    ensures !IsQuotedPrefix(Quote(s[..i - 1]) + "\\", s)
  {
    forall j | 0 <= j <= |s| ensures |Quote(s[..j])| != |Quote(s[..i - 1])| + 1 {
      if j < i - 1 { QuoteLengthGrows(s, j, i - 1); } else if i - 1 < j { QuoteLengthGrows(s, i - 1, j); }
    }
  }

  lemma {:induction false} CutInsideEscape(s: string, max: nat, i: nat)
    requires |Quote(s)| > max && i < |s| && IsSpecial(s[i]) && CutPoint(Quote(s), max) == |Quote(s[..i])| + 1
    requires Quote(s)[..CutPoint(Quote(s), max)] == Quote(s[..i]) + "\\"
    ensures !SplitsPair(s, max) && GuardedCut(Quote(s), max) == Quote(s[..i])
  {
    var q, n := Quote(s), CutPoint(Quote(s), max);
    assert q[n - 1] == q[..n][n - 1] == '\\';
    assert q[..n - 1] == q[..n][..n - 1];
    forall j | 0 <= j <= |s| ensures |Quote(s[..j])| != n {
      if j < i { QuoteLengthGrows(s, j, i); } else if i < j { QuoteLengthGrows(s, i, j); }
    }
  }

  /** The guarded cut is the quoting of a prefix of the source, except exactly when it splits a quoted backslash. */
  lemma {:induction false} GuardedCutIsQuotedPrefix(s: string, max: nat)
    ensures IsQuotedPrefix(GuardedCut(Quote(s), max), s) <==> !SplitsPair(s, max)
    ensures SplitsPair(s, max) ==> EndsInEscape(GuardedCut(Quote(s), max))
    ensures Truncate(GuardedCut(Quote(s), max), max) == GuardedCut(Quote(s), max)
  {
    var q := Quote(s);
    if |q| > max {
      var n := CutPoint(q, max);
      var i := QuotePosition(s, n);
      if n == |Quote(s[..i])| {
        CutBetweenCharacters(s, max, i);
        if SplitsPair(s, max) {
          EndsInEscapeAfterQuote(s[..i - 1], "\\");
        }
      } else {
        CutInsideEscape(s, max, i);
        assert IsQuotedPrefix(GuardedCut(q, max), s);
      }
    } else {
      assert s[..|s|] == s;
      assert IsQuotedPrefix(q, s);
    }
  }

  /** A source without backslashes is always cut to the quoting of one of its prefixes. */
  lemma {:induction false} BackslashFreeIsCutCleanly(s: string, max: nat)
    requires '\\' !in s
    ensures IsQuotedPrefix(GuardedCut(Quote(s), max), s)
  {
    GuardedCutIsQuotedPrefix(s, max);
  }

  /** The guard can break a quoting: it cuts "a\\\\b", the quoted form of "a\\b" as Dafny writes it, to "a\\". */
  lemma GuardSplitsPair()
    ensures GuardedCut(Quote("a\\b"), 3) == "a\\" && EndsInEscape("a\\")
  {
    var s := "a\\b";
    assert s[1..] == "\\b" && s[1..][1..] == "b" && s[1..][1..][1..] == "";
    assert Quote("b") == "b";
    assert Quote("\\b") == "\\\\b";
    assert Quote(s) == "a\\\\b";
  }
}
