/** lexer/lex.go as written: loops over a byte reader with one byte of unread. */
module LexerLoops {
  import opened Sequences
  import opened Wrappers
  import opened Tokens
  import opened Decimal
  import opened Lexer
  import opened ByteInput

  method ReadCrlf(r: ByteReader) returns (ok: bool)
    requires r.Valid() && r.Unread() != "" && IsNewline(r.Unread()[0])
    modifies r
    ensures r.Valid()
    ensures ok == ConsumeCrlf(old(r.Unread())).Ok?
    ensures ok ==> r.Unread() == ConsumeCrlf(old(r.Unread())).value
  {
    var b := r.ReadByte();
    if b.value == '\r' {
      b := r.ReadByte();
      return b == Some('\n');
    }
    ok := true;
  }

  method ReadIdentifier(r: ByteReader, startWith: string) returns (id: string)
    requires r.Valid()
    modifies r
    ensures r.Valid()
    ensures id == startWith + old(r.Unread())[..IdentLength(old(r.Unread()))]
    ensures r.Unread() == old(r.Unread())[IdentLength(old(r.Unread()))..]
  {
    id := startWith;
    ghost var s := r.Unread();
    ghost var k := 0;
    while true
      invariant r.Valid() && k <= IdentLength(s)
      invariant id == startWith + s[..k]
      invariant r.Unread() == s[k..]
      decreases |s| - k
    {
      var b := r.ReadByte();
      if b.None? {
        break;
      }
      Cursor(s, k);
      if IsIdentChar(b.value) {
        Associate(startWith, s[..k], [s[k]]);
        id, k := id + [b.value], k + 1;
      } else {
        r.UnreadByte();
        break;
      }
    }
    assert k == IdentLength(s);
  }

  method ReadNumber(r: ByteReader, first: char) returns (num: Result<Token>)
    requires r.Valid() && IsDigit(first)
    modifies r
    ensures r.Valid()
    ensures num.Ok? == NumberToken([first] + old(r.Unread())).Ok?
    ensures num.Ok? ==> NumberToken([first] + old(r.Unread())) == Ok((num.value, r.Unread()))
  {
    var digits := [first];
    var q := Unit;
    ghost var s := [first] + r.Unread();
    ghost var rest := s;
    while true
      invariant r.Valid()
      invariant 1 <= |digits| <= DigitLength(s)
      invariant digits == s[..|digits|] && r.Unread() == s[|digits|..]
      decreases |r.Unread()|
    {
      var b := r.ReadByte();
      if b.None? {
        break;
      }
      if QuantifierOf(b.value).Some? {
        q := QuantifierOf(b.value).value;
        DigitsEndAt(s, |digits|);
        break;
      }
      if IsDigit(b.value) {
        assert s[..|digits| + 1] == digits + [b.value];
        digits := digits + [b.value];
      } else {
        r.UnreadByte();
        DigitsEndAt(s, |digits|);
        break;
      }
    }
    assert |digits| == DigitLength(s);
    if Value(digits) > MAX_INT {
      return Err;
    }
    num := Ok(Number(Value(digits), q));
  }

  method SkipHashComment(r: ByteReader) returns (ok: bool)
    requires r.Valid()
    modifies r
    ensures r.Valid()
    ensures ok == HashComment(old(r.Unread())).Ok?
    ensures ok ==> r.Unread() == HashComment(old(r.Unread())).value
  {
    ghost var s := r.Unread();
    while true
      invariant r.Valid() && HashComment(s) == HashComment(r.Unread())
      decreases |r.Unread()|
    {
      var b := r.ReadByte();
      if b.None? {
        return true;
      }
      if IsNewline(b.value) {
        r.UnreadByte();
        ok := ReadCrlf(r);
        return;
      }
    }
  }

  method SkipBlockComment(r: ByteReader) returns (ok: bool)
    requires r.Valid()
    modifies r
    ensures r.Valid()
    ensures ok == BlockComment(old(r.Unread()), false).Ok?
    ensures ok ==> r.Unread() == BlockComment(old(r.Unread()), false).value
  {
    var wasStar := false;
    ghost var s := r.Unread();
    while true
      invariant r.Valid() && BlockComment(s, false) == BlockComment(r.Unread(), wasStar)
      decreases |r.Unread()|
    {
      var b := r.ReadByte();
      if b.None? {
        return false;
      }
      if wasStar && b.value == '/' {
        return true;
      }
      wasStar := b.value == '*';
    }
  }

  method ReadQuoted(r: ByteReader, max: int) returns (text: Result<string>)
    requires r.Valid()
    modifies r
    ensures r.Valid()
    ensures text.Ok? == Quoted(old(r.Unread()), false, "", max).Ok?
    ensures text.Ok? ==> Quoted(old(r.Unread()), false, "", max) == Ok((text.value, r.Unread()))
  {
    var str, atBackslash := "", false;
    ghost var s := r.Unread();
    while true
      invariant r.Valid()
      invariant Quoted(s, false, "", max) == Quoted(r.Unread(), atBackslash, str, max)
      decreases |r.Unread()|
    {
      var b := r.ReadByte();
      if b.None? {
        return Err;
      }
      if IsNewline(b.value) {
        r.UnreadByte();
        var ok := ReadCrlf(r);
        if !ok || !Fits(max, |str| + 2) {
          return Err;
        }
        str := str + "\r\n";
      } else if b.value == '\\' && !atBackslash {
        atBackslash := true;
        continue;
      } else if b.value == '"' && !atBackslash {
        return Ok(str);
      } else {
        if !Fits(max, |str| + 1) {
          return Err;
        }
        str := str + [b.value];
      }
      atBackslash := false;
    }
  }

  method ReadMultiline(r: ByteReader, max: int) returns (text: Result<string>)
    requires r.Valid()
    modifies r
    ensures r.Valid()
    ensures text.Ok? == Multiline(old(r.Unread()), false, false, "", max).Ok?
    ensures text.Ok? ==> Multiline(old(r.Unread()), false, false, "", max) == Ok((text.value, r.Unread()))
  {
    var data, atLF, atLFHadDot := "", false, false;
    ghost var s := r.Unread();
    while true
      invariant r.Valid() && !(atLF && atLFHadDot)
      invariant Multiline(s, false, false, "", max) == Multiline(r.Unread(), atLF, atLFHadDot, data, max)
      decreases |r.Unread()|
    {
      var b := r.ReadByte();
      if b.None? {
        return Err;
      }
      if b.value == '.' {
        if atLF {
          atLFHadDot := true;
        } else {
          if !Fits(max, |data| + 1) {
            return Err;
          }
          data := data + ".";
          atLFHadDot := false;
        }
        atLF := false;
      } else if IsNewline(b.value) {
        r.UnreadByte();
        var ok := ReadCrlf(r);
        if !ok {
          return Err;
        }
        if atLFHadDot {
          return Ok(data);
        }
        if !Fits(max, |data| + 2) {
          return Err;
        }
        data := data + "\r\n";
        atLF := true;
      } else {
        if atLFHadDot {
          if !Fits(max, |data| + 1) {
            return Err;
          }
          data := data + ".";
        }
        atLF, atLFHadDot := false, false;
        if !Fits(max, |data| + 1) {
          return Err;
        }
        data := data + [b.value];
      }
    }
  }

  method ReadTextLine(r: ByteReader) returns (ok: bool)
    requires r.Valid()
    modifies r
    ensures r.Valid()
    ensures ok == TextLine(old(r.Unread())).Ok?
    ensures ok ==> r.Unread() == TextLine(old(r.Unread())).value
  {
    ghost var s := r.Unread();
    while true
      invariant r.Valid() && TextLine(s) == TextLine(r.Unread())
      decreases |r.Unread()|
    {
      var b := r.ReadByte();
      if b.None? {
        return false;
      }
      if b.value == ' ' || b.value == '\t' {
        continue;
      } else if b.value == '#' {
        ok := SkipHashComment(r);
        return;
      } else if IsNewline(b.value) {
        r.UnreadByte();
        ok := ReadCrlf(r);
        return;
      } else {
        return false;
      }
    }
  }

  /** The identifier or number that starts with b, the byte just read. */
  method ReadWord(r: ByteReader, b: char) returns (tok: Result<Token>)
    requires r.Valid()
    modifies r
    ensures r.Valid()
    ensures tok.Err? ==> WordTurn([b] + old(r.Unread())) == Fail
    ensures tok.Ok? ==> WordTurn([b] + old(r.Unread())) == Turn([tok.value], r.Unread(), true)
  {
    ghost var s := [b] + r.Unread();
    assert s[1..] == r.Unread();
    if IsAlpha(b) {
      var text := ReadIdentifier(r, [b]);
      assert text == s[..IdentLength(s)];
      tok := Ok(Identifier(text));
    } else if IsDigit(b) {
      tok := ReadNumber(r, b);
    } else {
      tok := Err;
    }
  }

  /** One turn of the loop, past the byte b that selects its case. */
  method ReadTurn(r: ByteReader, b: char, max: int) returns (turn: Turn)
    requires r.Valid() && r.pos > 0 && r.data[r.pos - 1] == b
    modifies r
    ensures r.Valid()
    ensures turn == NextTurn([b] + old(r.Unread()), max)
    ensures turn.Turn? ==> turn.rest == r.Unread()
  {
    ghost var s := [b] + r.Unread();
    assert s[1..] == r.Unread();
    var ok;
    if Punctuation(b).Some? {
      return Turn([Punctuation(b).value], r.data[r.pos..], true);
    } else if b == ' ' || b == '\t' {
      return Turn([], r.data[r.pos..], false);
    } else if IsNewline(b) {
      r.UnreadByte();
      assert r.Unread() == s;
      ok := ReadCrlf(r);
    } else if b == '"' {
      var text := ReadQuoted(r, max);
      return if text.Err? then Fail else Turn([String(text.value)], r.data[r.pos..], true);
    } else if b == '#' {
      ok := SkipHashComment(r);
    } else if b == '/' {
      var b2 := r.ReadByte();
      if b2 != Some('*') {
        return Fail;
      }
      assert r.Unread() == s[2..];
      ok := SkipBlockComment(r);
    } else {
      if b == 't' {
        var ext := r.Peek(4);
        if ext.None? {
          return Fail;
        }
        assert ext.value == s[1..5];
        if ext.value == "ext:" {
          r.Discard(4);
          assert r.Unread() == s[5..];
          ok := ReadTextLine(r);
          if !ok {
            return Fail;
          }
          var text := ReadMultiline(r, max);
          return if text.Err? then Fail else Turn([String(text.value)], r.data[r.pos..], false);
        }
      }
      var tok := ReadWord(r, b);
      return if tok.Err? then Fail else Turn([tok.value], r.data[r.pos..], true);
    }
    return if ok then Turn([], r.data[r.pos..], true) else Fail;
  }

  /** What the run yields when `out` has been collected and s is unread. */
  ghost function Whole(out: seq<Token>, s: string, opts: Options): Result<seq<Token>> {
    Prepend(out, LexFrom(s, opts, |out|))
  }

  lemma WholeTurn(out: seq<Token>, s: string, opts: Options, turn: Turn)
    requires s != "" && turn == NextTurn(s, opts.maxStringBytes)
    ensures turn.Fail? || OverLimit(opts, turn.counted, |out| + |turn.out|) ==> Whole(out, s, opts) == Err
    ensures turn.Turn? && !OverLimit(opts, turn.counted, |out| + |turn.out|) ==>
              Whole(out, s, opts) == Whole(out + turn.out, turn.rest, opts)
  {
    assert LexFrom(s, opts, |out|) == AfterTurn(turn, opts, |out|);
    if turn.Turn? {
      PrependTwice(out, turn.out, LexFrom(turn.rest, opts, |out| + |turn.out|));
    }
  }

  lemma PrependTwice(a: seq<Token>, b: seq<Token>, r: Result<seq<Token>>)
    ensures Prepend(a, Prepend(b, r)) == Prepend(a + b, r)
  {
    if r.Ok? {
      Associate(a, b, r.value);
    }
  }

  /** Takes one turn; false means the run fails. */
  method Advance(reader: ByteReader, res: seq<Token>, opts: Options) returns (ok: bool, res': seq<Token>)
    requires reader.Valid() && reader.Unread() != ""
    modifies reader
    ensures reader.Valid()
    ensures !ok ==> Whole(res, old(reader.Unread()), opts) == Err
    ensures ok ==> |reader.Unread()| < |old(reader.Unread())|
    ensures ok ==> Whole(res, old(reader.Unread()), opts) == Whole(res', reader.Unread(), opts)
  {
    ghost var s := reader.Unread();
    var b := reader.ReadByte();
    assert s == [b.value] + reader.Unread();
    var turn := ReadTurn(reader, b.value, opts.maxStringBytes);
    WholeTurn(res, s, opts, turn);
    if turn.Fail? || OverLimit(opts, turn.counted, |res| + |turn.out|) {
      return false, res;
    }
    return true, res + turn.out;
  }

  /** tokenStream: collects tokens until the input ends, checking the token limit on the way. */
  method TokenStream(input: string, opts: Options) returns (r: Result<seq<Token>>)
    ensures r == Lex(input, opts)
  {
    var reader := new ByteReader(input);
    var res: seq<Token> := [];
    ghost var goal := Lex(input, opts);
    assert goal.Ok? ==> [] + goal.value == goal.value;
    while reader.pos < |reader.data|
      invariant reader.Valid() && fresh(reader)
      invariant goal == Whole(res, reader.Unread(), opts)
      decreases |reader.Unread()|
    {
      var ok;
      ok, res := Advance(reader, res, opts);
      if !ok {
        return Err;
      }
    }
    assert res + [] == res;
    return Ok(res);
  }
}
