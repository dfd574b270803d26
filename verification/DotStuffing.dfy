/** Multi-line literals, section 2.4.2 of RFC 5228: reading undoes dot-stuffing. */
module DotStuffing {
  import opened Wrappers
  import opened Tokens
  import opened Lexer

  predicate IsLine(l: string) {
    forall i :: 0 <= i < |l| ==> !IsNewline(l[i])
  }

  predicate AreLines(lines: seq<string>) {
    forall i :: 0 <= i < |lines| ==> IsLine(lines[i])
  }

  predicate StartsWithDot(l: string) {
    l != "" && l[0] == '.'
  }

  function Joined(lines: seq<string>): string {
    if lines == [] then "" else lines[0] + "\r\n" + Joined(lines[1..])
  }

  function StuffLine(l: string): string {
    if StartsWithDot(l) then "." + l else l
  }

  function Stuffed(lines: seq<string>): string {
    if lines == [] then "" else StuffLine(lines[0]) + "\r\n" + Stuffed(lines[1..])
  }

  /** The literal's body: the stuffed lines and the line holding a single dot. */
  function Body(lines: seq<string>, rest: string): string {
    Stuffed(lines) + (".\r\n" + rest)
  }

  lemma {:induction false} LineEnd(tail: string, acc: string, atLF: bool, max: int)
    ensures Multiline("\r\n" + tail, atLF, false, acc, max)
         == if Fits(max, |acc| + 2) then Multiline(tail, true, false, acc + "\r\n", max) else Err
  {
    assert ("\r\n" + tail)[2..] == tail;
  }

  /** In the middle of a line every byte is kept. */
  lemma {:induction false} RestOfLine(l: string, tail: string, acc: string, max: int)
    requires IsLine(l) && Fits(max, |acc|)
    ensures Multiline(l + "\r\n" + tail, false, false, acc, max)
         == if Fits(max, |acc| + |l| + 2) then Multiline(tail, true, false, acc + l + "\r\n", max) else Err
    decreases |l|
  {
    if l == "" {
      assert l + "\r\n" + tail == "\r\n" + tail && acc + l == acc;
      LineEnd(tail, acc, false, max);
    } else {
      assert (l + "\r\n" + tail)[1..] == l[1..] + "\r\n" + tail;
      if Fits(max, |acc| + 1) {
        RestOfLine(l[1..], tail, acc + [l[0]], max);
        assert acc + [l[0]] + l[1..] == acc + l;
      }
    }
  }

  lemma {:induction false} DotOpensLine(s: string, acc: string, max: int)
    ensures Multiline("." + s, true, false, acc, max) == Multiline(s, false, true, acc, max)
  {
    assert ("." + s)[1..] == s;
  }

  lemma PlainOpensLine(c: char, s: string, acc: string, hadDot: bool, max: int)
    requires !IsNewline(c) && (hadDot <==> c == '.')
    ensures Multiline([c] + s, !hadDot, hadDot, acc, max)
         == if Fits(max, |acc| + 1) then Multiline(s, false, false, acc + [c], max) else Err
  {
    assert ([c] + s)[1..] == s;
  }

  lemma LineSplit(l: string, tail: string, acc: string)
    requires l != ""
    ensures l + "\r\n" + tail == [l[0]] + (l[1..] + "\r\n" + tail)
    ensures StartsWithDot(l) ==> StuffLine(l) + "\r\n" + tail == "." + (l + "\r\n" + tail)
    ensures acc + [l[0]] + l[1..] == acc + l
  {
  }

  /** At the start of a line one dot is taken off a stuffed line. */
  lemma {:induction false} StuffedLine(l: string, tail: string, acc: string, max: int)
    requires IsLine(l) && Fits(max, |acc|)
    ensures Multiline(StuffLine(l) + "\r\n" + tail, true, false, acc, max)
         == if Fits(max, |acc| + |l| + 2) then Multiline(tail, true, false, acc + l + "\r\n", max) else Err
  {
    if l == "" {
      assert StuffLine(l) + "\r\n" + tail == "\r\n" + tail && acc + l == acc;
      LineEnd(tail, acc, true, max);
    } else {
      LineSplit(l, tail, acc);
      if l[0] == '.' {
        DotOpensLine(l + "\r\n" + tail, acc, max);
      }
      PlainOpensLine(l[0], l[1..] + "\r\n" + tail, acc, l[0] == '.', max);
      if Fits(max, |acc| + 1) {
        RestOfLine(l[1..], tail, acc + [l[0]], max);
      }
    }
  }

  lemma {:induction false} StuffedSplit(lines: seq<string>, tail: string)
    requires lines != []
    ensures Stuffed(lines) + tail == StuffLine(lines[0]) + "\r\n" + (Stuffed(lines[1..]) + tail)
  {
  }

  lemma {:induction false} JoinedSplit(lines: seq<string>, acc: string)
    requires lines != []
    ensures acc + lines[0] + "\r\n" + Joined(lines[1..]) == acc + Joined(lines)
  {
  }

  lemma {:induction false} StuffedLines(lines: seq<string>, tail: string, acc: string, max: int)
    requires AreLines(lines) && Fits(max, |acc|)
    ensures Multiline(Stuffed(lines) + tail, true, false, acc, max)
         == if Fits(max, |acc| + |Joined(lines)|) then Multiline(tail, true, false, acc + Joined(lines), max) else Err
    decreases |lines|
  {
    if lines == [] {
      assert Stuffed(lines) + tail == tail && acc + Joined(lines) == acc;
    } else {
      StuffedSplit(lines, tail);
      JoinedSplit(lines, acc);
      StuffedLine(lines[0], Stuffed(lines[1..]) + tail, acc, max);
      var acc' := acc + lines[0] + "\r\n";
      if Fits(max, |acc'|) {
        StuffedLines(lines[1..], tail, acc', max);
      }
    }
  }

  lemma {:induction false} DotLineEnds(rest: string, acc: string, max: int)
    ensures Multiline(".\r\n" + rest, true, false, acc, max) == Ok((acc, rest))
  {
    assert (".\r\n" + rest)[1..] == "\r\n" + rest;
    assert ("\r\n" + rest)[2..] == rest;
  }

  /** The first line is not at the start of a line for the reader: its stuffing dot stays. */
  lemma {:induction false} FirstLine(lines: seq<string>, rest: string, max: int)
    requires AreLines(lines) && lines != []
    ensures var all := StuffLine(lines[0]) + "\r\n" + Joined(lines[1..]);
            Multiline(Body(lines, rest), false, false, "", max) == if Fits(max, |all|) then Ok((all, rest)) else Err
  {
    var first, after := StuffLine(lines[0]), Stuffed(lines[1..]) + (".\r\n" + rest);
    StuffedSplit(lines, ".\r\n" + rest);
    RestOfLine(first, after, "", max);
    var acc := first + "\r\n";
    assert "" + first == first;
    if Fits(max, |acc|) {
      StuffedLines(lines[1..], ".\r\n" + rest, acc, max);
      DotLineEnds(rest, acc + Joined(lines[1..]), max);
    }
  }

  lemma {:induction false} MultilineExtends(s: string, atLF: bool, hadDot: bool, acc: string, max: int)
    ensures var r := Multiline(s, atLF, hadDot, acc, max); r.Ok? ==> |acc| <= |r.value.0|
    decreases |s|
  {
    if s == "" {
    } else if s[0] == '.' {
      MultilineExtends(s[1..], false, true, acc, max);
      MultilineExtends(s[1..], false, false, acc + ".", max);
    } else if IsNewline(s[0]) {
      if ConsumeCrlf(s).Ok? {
        MultilineExtends(ConsumeCrlf(s).value, true, false, acc + "\r\n", max);
      }
    } else {
      var dotted := if hadDot then acc + "." else acc;
      MultilineExtends(s[1..], false, false, dotted + [s[0]], max);
    }
  }

  /** The body "." alone is not recognised as an empty literal. */
  lemma {:induction false} EmptyBodyIsMissed(rest: string, max: int)
    ensures var r := Multiline(Body([], rest), false, false, "", max); r.Ok? ==> r.value.0 != ""
  {
    var s := Body([], rest);
    assert s == ".\r\n" + rest;
    assert s[1..] == "\r\n" + rest;
    if Fits(max, 1) {
      LineEnd(rest, "" + ".", false, max);
      MultilineExtends(rest, true, false, "" + "." + "\r\n", max);
    }
  }

  /** Reading a stuffed body gives the lines back exactly when there is a first line and it has no leading dot. */
  lemma {:induction false} ReadingUndoesStuffing(lines: seq<string>, rest: string, max: int)
    requires AreLines(lines)
    ensures Multiline(Body(lines, rest), false, false, "", max) == Ok((Joined(lines), rest))
       <==> lines != [] && !StartsWithDot(lines[0]) && Fits(max, |Joined(lines)|)
  {
    if lines == [] {
      EmptyBodyIsMissed(rest, max);
    } else {
      FirstLine(lines, rest, max);
    }
  }

  /** The same for a whole "text:" token. */
  lemma {:induction false} TextTokenRoundTrip(lines: seq<string>, rest: string, max: int)
    requires AreLines(lines) && lines != [] && !StartsWithDot(lines[0]) && Fits(max, |Joined(lines)|)
    ensures NextTurn("text:\r\n" + Body(lines, rest), max) == Turn([String(Joined(lines))], rest, false)
  {
    ReadingUndoesStuffing(lines, rest, max);
    TextTokenTurn(Body(lines, rest), max);
  }

  lemma {:induction false} TextTokenTurn(body: string, max: int)
    ensures NextTurn("text:\r\n" + body, max) == StringTurn(Multiline(body, false, false, "", max), false)
  {
    var s := "text:\r\n" + body;
    assert s[1..5] == "ext:" && s[5..] == "\r\n" + body;
    assert s[5..][2..] == body;
  }
}
