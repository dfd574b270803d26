/** The encoder and decoder objects of managesieve/internal/wire/codec.go, and the loops of the peers that use them. */
module WireLoops {
  import opened Wrappers
  import opened Sequences
  import opened ByteInput
  import opened Wire
  import Decimal
  import Writer

  // ----- writing -----

  /** A writer into memory; its errors are sticky, and while a literal is open nothing else may be written. */
  class Encoder {
    var out: string
    var failed: bool
    var literal: bool

    constructor ()
      ensures out == "" && Ready()
    {
      out, failed, literal := "", false, false;
    }

    predicate Ready()
      reads this
    {
      !failed && !literal
    }

    method WriteString(s: string)
      modifies this
      ensures failed == !old(Ready()) && literal == old(literal)
      ensures out == old(out) + if old(Ready()) then s else ""
    {
      if failed {
        assert out == out + "";
        return;
      }
      if literal {
        failed := true;
        assert out == out + "";
        return;
      }
      out := out + s;
    }

    method Quoted(s: string)
      modifies this
      ensures failed == !old(Ready()) && literal == old(literal)
      ensures out == old(out) + if old(Ready()) then Writer.FormatString(s) else ""
    {
      var b := "\"";
      for i := 0 to |s|
        invariant unchanged(this) && b == "\"" + Writer.Escape(s[..i])
      {
        assert s[..i + 1] == s[..i] + [s[i]];
        Writer.EscapeSnoc(s[..i], s[i]);
        if s[i] == '"' || s[i] == '\\' {
          b := b + "\\";
        }
        b := b + [s[i]];
      }
      assert s[..|s|] == s;
      WriteString(b + "\"");
    }

    /** Opens a literal; null stands for the writer that only returns the error. */
    method Literal(size: nat, plus: bool) returns (w: LiteralWriter?)
      modifies this
      ensures w != null <==> old(Ready())
      ensures w != null ==> fresh(w) && w.enc == this && w.remain == size
      ensures failed == !old(Ready()) && (literal <==> old(literal) || w != null)
      ensures out == old(out) + if w != null then LiteralHead(size, plus) else ""
    {
      var was := out;
      WriteString("{");
      WriteString(Decimal.Numeral(size));
      if plus {
        WriteString("+");
      }
      WriteString("}\r\n");
      if failed {
        return null;
      }
      assert out == was + LiteralHead(size, plus);
      literal := true;
      w := new LiteralWriter(this, size);
    }

    /** StringClient with `plus`, StringServer without. */
    method String(s: string, plus: bool)
      modifies this
      ensures failed == !old(Ready()) && literal == old(literal)
      ensures out == old(out) + if old(Ready()) then StringText(s, plus) else ""
    {
      if ValidQuoted(s) {
        Quoted(s);
        return;
      }
      var was := out;
      var wc := Literal(|s|, plus);
      if wc != null {
        var written := wc.Write(s);
        var closed := wc.Close();
        assert out == was + (LiteralHead(|s|, plus) + s);
        failed := failed || !written || !closed;
      }
    }
  }

  class LiteralWriter {
    const enc: Encoder
    var remain: nat

    constructor (enc: Encoder, size: nat)
      ensures this.enc == enc && remain == size
    {
      this.enc, remain := enc, size;
    }

    /** Never more than the announced size. */
    method Write(p: string) returns (ok: bool)
      modifies this, enc
      ensures ok <==> |p| <= old(remain)
      ensures remain == old(remain) - if ok then |p| else 0
      ensures enc.out == old(enc.out) + if ok then p else ""
      ensures enc.failed == old(enc.failed) && enc.literal == old(enc.literal)
    {
      if |p| > remain {
        assert enc.out == enc.out + "";
        return false;
      }
      enc.out := enc.out + p;
      remain := remain - |p|;
      ok := true;
    }

    /** Fails exactly when fewer bytes than announced were written. */
    method Close() returns (ok: bool)
      modifies enc
      ensures !enc.literal && enc.out == old(enc.out) && enc.failed == old(enc.failed)
      ensures ok <==> remain == 0
    {
      enc.literal := false;
      ok := remain == 0;
    }
  }

  lemma {:induction false} ArgsTextSnoc(args: seq<Arg>, a: Arg)
    ensures ArgsText(args + [a]) == ArgsText(args) + (" " + ArgText(a))
  {
    if args == [] {
      assert args + [a] == [a] && [a][1..] == [];
    } else {
      ArgsTextSnoc(args[1..], a);
      assert (args + [a])[1..] == args[1..] + [a];
      Associate(" " + ArgText(args[0]), ArgsText(args[1..]), " " + ArgText(a));
    }
  }

  lemma {:induction false} StringsTextSnoc(args: seq<string>, a: string)
    ensures StringsText(args + [a]) == StringsText(args) + (" " + StringText(a, false))
  {
    if args == [] {
      assert args + [a] == [a] && [a][1..] == [];
    } else {
      StringsTextSnoc(args[1..], a);
      assert (args + [a])[1..] == args[1..] + [a];
      Associate(" " + StringText(args[0], false), StringsText(args[1..]), " " + StringText(a, false));
    }
  }

  lemma {:induction false} EntriesTextSnoc(list: seq<ScriptInfo>, e: ScriptInfo)
    ensures EntriesText(list + [e]) == EntriesText(list) + EntryText(e)
  {
    if list == [] {
      assert list + [e] == [e] && [e][1..] == [];
    } else {
      EntriesTextSnoc(list[1..], e);
      assert (list + [e])[1..] == list[1..] + [e];
    }
  }

  method WriteArg(enc: Encoder, a: Arg)
    requires enc.Ready()
    modifies enc
    ensures enc.Ready() && enc.out == old(enc.out) + (" " + ArgText(a))
  {
    enc.WriteString(" ");
    match a {
      case NumArg(number) => enc.WriteString(Decimal.FormatInt(number));
      case StrArg(text) => enc.String(text, true);
    }
    Associate(old(enc.out), " ", ArgText(a));
  }

  /** The client's writeSimpleCommandLocked. */
  method WriteCommand(name: string, args: seq<Arg>) returns (out: string)
    ensures out == CommandText(name, args)
  {
    var enc := new Encoder();
    enc.WriteString(Upper(name));
    for i := 0 to |args|
      invariant enc.Ready() && enc.out == Upper(name) + ArgsText(args[..i])
    {
      WriteArg(enc, args[i]);
      NextArg(Upper(name), args, i);
    }
    assert args[..|args|] == args;
    enc.WriteString("\r\n");
    out := enc.out;
  }

  lemma NextArg(head: string, args: seq<Arg>, i: nat)
    requires i < |args|
    ensures head + ArgsText(args[..i + 1]) == (head + ArgsText(args[..i])) + (" " + ArgText(args[i]))
  {
    assert args[..i + 1] == args[..i] + [args[i]];
    ArgsTextSnoc(args[..i], args[i]);
    Associate(head, ArgsText(args[..i]), " " + ArgText(args[i]));
  }

  method WriteStrings(enc: Encoder, args: seq<string>)
    requires enc.Ready()
    modifies enc
    ensures enc.Ready() && enc.out == old(enc.out) + StringsText(args)
  {
    for i := 0 to |args|
      invariant enc.Ready() && enc.out == old(enc.out) + StringsText(args[..i])
    {
      assert args[..i + 1] == args[..i] + [args[i]];
      StringsTextSnoc(args[..i], args[i]);
      WriteSpaced(enc, args[i]);
      Associate(old(enc.out), StringsText(args[..i]), " " + StringText(args[i], false));
    }
    assert args[..|args|] == args;
  }

  method WriteSpaced(enc: Encoder, s: string)
    requires enc.Ready()
    modifies enc
    ensures enc.Ready() && enc.out == old(enc.out) + (" " + StringText(s, false))
  {
    enc.WriteString(" ");
    enc.String(s, false);
    Associate(old(enc.out), " ", StringText(s, false));
  }

  method WriteCode(enc: Encoder, code: string, args: seq<string>)
    requires enc.Ready()
    modifies enc
    ensures enc.Ready() && enc.out == old(enc.out) + (" (" + code + StringsText(args) + ")")
  {
    enc.WriteString(" ");
    enc.WriteString("(");
    enc.WriteString(code);
    assert enc.out == old(enc.out) + (" (" + code);
    WriteStrings(enc, args);
    Associate(old(enc.out), " (" + code, StringsText(args));
    enc.WriteString(")");
    Associate(old(enc.out), " (" + code + StringsText(args), ")");
  }

  /** The server's writeStatus. */
  method WriteStatus(st: Status) returns (out: string)
    ensures out == StatusText(st)
  {
    var enc := new Encoder();
    enc.WriteString(if st.kind == "" then "OK" else st.kind);
    assert enc.out == KindText(st);
    if st.code != "" {
      WriteCode(enc, st.code, st.codeArgs);
    }
    assert enc.out == KindText(st) + CodeText(st);
    if st.text != "" {
      WriteSpaced(enc, st.text);
    }
    assert enc.out == KindText(st) + CodeText(st) + TailText(st);
    enc.WriteString("\r\n");
    out := enc.out;
  }

  method WriteEntry(e: ScriptInfo) returns (out: string)
    ensures out == EntryText(e)
  {
    var enc := new Encoder();
    enc.String(e.name, false);
    if e.active {
      enc.WriteString(" ");
      enc.WriteString("ACTIVE");
    }
    assert enc.out == StringText(e.name, false) + (if e.active then " ACTIVE" else "");
    enc.WriteString("\r\n");
    out := enc.out;
  }

  /** The server's handleListScripts, past the session's answer. */
  method WriteListing(list: seq<ScriptInfo>) returns (out: string)
    ensures out == ListingText(list)
  {
    out := "";
    for i := 0 to |list|
      invariant out == EntriesText(list[..i])
    {
      assert list[..i + 1] == list[..i] + [list[i]];
      EntriesTextSnoc(list[..i], list[i]);
      var line := WriteEntry(list[i]);
      out := out + line;
    }
    assert list[..|list|] == list;
    var status := WriteStatus(OK_STATUS);
    out := out + status;
  }

  // ----- reading -----

  /** What a read of the decoder must deliver: nothing, or the value and the reader moved just past it. */
  ghost predicate Delivered(g: Got<string>, v: Option<string>, rest: string, spent: nat) {
    if g.Fail? then v.None? else v == Some(g.value) && rest == g.rest && spent == g.spent
  }

  class Decoder {
    const r: ByteReader
    const lim: Limits

    constructor (r: ByteReader, lim: Limits)
      ensures this.r == r && this.lim == lim
    {
      this.r, this.lim := r, lim;
    }

    method PeekByte() returns (b: Option<char>)
      requires r.Valid()
      ensures b == if r.Unread() == "" then None else Some(r.Unread()[0])
    {
      var ahead := r.Peek(1);
      b := if ahead.None? then None else Some(ahead.value[0]);
    }

    method ExpectCRLF() returns (ok: bool)
      requires r.Valid()
      modifies r
      ensures r.Valid()
      ensures ok <==> ExpectCrlf(old(r.Unread())).Ok?
      ensures ok ==> Ok(r.Unread()) == ExpectCrlf(old(r.Unread()))
    {
      var b := r.ReadByte();
      if b.None? {
        return false;
      }
      if b.value == '\r' {
        b := r.ReadByte();
        if b.None? {
          return false;
        }
      }
      ok := b.value == '\n';
    }

    method SkipSP() returns (ok: bool)
      requires r.Valid()
      modifies r
      ensures r.Valid()
      ensures ok <==> SkipSp(old(r.Unread())).Ok?
      ensures ok ==> Ok(r.Unread()) == SkipSp(old(r.Unread()))
      ensures !ok ==> r.Unread() == ""
    {
      ghost var goal := SkipSp(r.Unread());
      while true
        invariant r.Valid() && goal == SkipSp(r.Unread())
        decreases |r.Unread()|
      {
        var b := PeekByte();
        if b.None? {
          return false;
        }
        if b.value != ' ' {
          return true;
        }
        b := r.ReadByte();
      }
    }

    method ReadAtom(counted: bool, spent: nat) returns (atom: Option<string>, spent': nat)
      requires r.Valid()
      modifies r
      ensures r.Valid()
      ensures Delivered(Wire.ReadAtom(lim, counted, spent, old(r.Unread())), atom, r.Unread(), spent')
    {
      spent' := spent;
      ghost var goal := Wire.ReadAtom(lim, counted, spent, r.Unread());
      var ok := SkipSP();
      if !ok {
        return None, spent';
      }
      var b := "";
      while true
        invariant r.Valid() && goal == AtomLoop(lim, counted, spent', b, r.Unread())
        decreases |r.Unread()|
      {
        var ch := PeekByte();
        if ch.None? || !IsAtomChar(ch.value) {
          return if b == "" then None else Some(b), spent';
        }
        if lim.maxAtom > 0 && |b| >= lim.maxAtom {
          return None, spent';
        }
        ch := r.ReadByte();
        b := b + [ch.value];
        spent' := Spend(counted, spent', 1);
        if !Affordable(lim, counted, spent') {
          return None, spent';
        }
      }
    }

    method ReadQuoted(counted: bool, spent: nat) returns (s: Option<string>, spent': nat)
      requires r.Valid() && r.Unread() != "" && r.Unread()[0] == '"'
      modifies r
      ensures r.Valid()
      ensures Delivered(QuotedLoop(lim, counted, spent, "", old(r.Unread())[1..]), s, r.Unread(), spent')
    {
      spent' := spent;
      ghost var goal := QuotedLoop(lim, counted, spent, "", r.Unread()[1..]);
      var ch := r.ReadByte();
      var b := "";
      while true
        invariant r.Valid() && goal == QuotedLoop(lim, counted, spent', b, r.Unread())
        decreases |r.Unread()|
      {
        ch := r.ReadByte();
        if ch.None? {
          return None, spent';
        }
        if ch.value == '"' {
          return Some(b), spent';
        }
        if ch.value == '\\' {
          ch := r.ReadByte();
          if ch.None? {
            return None, spent';
          }
        }
        if lim.maxQuoted > 0 && |b| >= lim.maxQuoted {
          return None, spent';
        }
        b := b + [ch.value];
        spent' := Spend(counted, spent', 1);
        if !Affordable(lim, counted, spent') {
          return None, spent';
        }
      }
    }

    /** The digits of a literal's size and the byte after them. */
    method ReadDigits() returns (digits: string, next: Option<char>)
      requires r.Valid()
      modifies r
      ensures r.Valid() && var s := old(r.Unread()); var n := Decimal.DigitLength(s);
              && digits == s[..n] && (next.None? <==> s[n..] == "")
              && (if next.None? then r.Unread() == "" else next.value == s[n..][0] && r.Unread() == s[n..][1..])
    {
      ghost var s := r.Unread();
      ghost var k := 0;
      digits := "";
      while true
        invariant r.Valid() && k <= Decimal.DigitLength(s) && digits == s[..k] && r.Unread() == s[k..]
        decreases |s| - k
      {
        next := r.ReadByte();
        if next.None? {
          return;
        }
        Cursor(s, k);
        if !Decimal.IsDigit(next.value) {
          Decimal.DigitsEndAt(s, k);
          return;
        }
        digits, k := digits + [next.value], k + 1;
      }
    }

    method ReadSize() returns (size: Option<nat>)
      requires r.Valid()
      modifies r
      ensures r.Valid()
      ensures size.None? <==> LiteralSize(old(r.Unread())).Err?
      ensures size.Some? ==> LiteralSize(old(r.Unread())) == Ok((size.value, r.Unread()))
    {
      ghost var s := r.Unread();
      var digits, ch := ReadDigits();
      assert LiteralSize(s) == SizeClosed(digits, s[Decimal.DigitLength(s)..]);
      if ch == Some('+') {
        ch := r.ReadByte();
      }
      if ch != Some('}') || digits == "" || Decimal.Value(digits) > Decimal.MAX_INT {
        return None;
      }
      size := Some(Decimal.Value(digits));
    }

    method ReadLiteral(counted: bool, spent: nat) returns (s: Option<string>, spent': nat)
      requires r.Valid() && r.Unread() != "" && r.Unread()[0] == '{'
      modifies r
      ensures r.Valid()
      ensures Delivered(Wire.ReadLiteral(lim, counted, spent, old(r.Unread())[1..]), s, r.Unread(), spent')
    {
      spent' := spent;
      var open := r.ReadByte();
      var size := ReadSize();
      if size.None? || size.value > MAX_UINT32 || (lim.maxLiteral > 0 && size.value > lim.maxLiteral) {
        return None, spent';
      }
      spent' := Spend(counted, spent', size.value);
      if !Affordable(lim, counted, spent') {
        return None, spent';
      }
      var ok := ExpectCRLF();
      if !ok {
        return None, spent';
      }
      s := r.Peek(size.value);
      if s.Some? {
        r.Discard(size.value);
      }
    }

    method ReadString(counted: bool, spent: nat) returns (s: Option<string>, spent': nat)
      requires r.Valid()
      modifies r
      ensures r.Valid()
      ensures Delivered(Wire.ReadString(lim, counted, spent, old(r.Unread())), s, r.Unread(), spent')
    {
      var ok := SkipSP();
      if !ok {
        return None, spent;
      }
      var b := PeekByte();
      if b == Some('"') {
        s, spent' := ReadQuoted(counted, spent);
      } else if b == Some('{') {
        s, spent' := ReadLiteral(counted, spent);
      } else {
        s, spent' := None, spent;
      }
    }

    method ReadToken(counted: bool, spent: nat) returns (s: Option<string>, spent': nat)
      requires r.Valid()
      modifies r
      ensures r.Valid()
      ensures Delivered(Wire.ReadToken(lim, counted, spent, old(r.Unread())), s, r.Unread(), spent')
    {
      var ok := SkipSP();
      if !ok {
        return None, spent;
      }
      var b := PeekByte();
      if b == Some('"') || b == Some('{') {
        s, spent' := ReadString(counted, spent);
      } else {
        s, spent' := ReadAtom(counted, spent);
      }
    }

    method ReadArgs(spent: nat) returns (args: Option<seq<string>>)
      requires r.Valid()
      modifies r
      ensures r.Valid()
      ensures var goal := ArgLoop(lim, spent, [], old(r.Unread()));
              if goal.Err? then args.None? else args == Some(goal.value.0) && r.Unread() == goal.value.1
    {
      ghost var goal := ArgLoop(lim, spent, [], r.Unread());
      var acc := [];
      var total := spent;
      while true
        invariant r.Valid() && goal == ArgLoop(lim, total, acc, r.Unread())
        decreases |r.Unread()|
      {
        var b := PeekByte();
        if b.None? {
          return None;
        }
        if IsLineEnd(b.value) {
          var ok := ExpectCRLF();
          return if ok then Some(acc) else None;
        }
        if lim.maxArgs > 0 && |acc| >= lim.maxArgs {
          return None;
        }
        var arg;
        arg, total := ReadToken(true, total);
        if arg.None? {
          return None;
        }
        acc := acc + [arg.value];
      }
    }

    method ReadCommand() returns (cmd: Result<Command>)
      requires r.Valid()
      modifies r
      ensures r.Valid()
      ensures cmd == Wire.ReadCommand(lim, old(r.Unread()))
      ensures cmd.Ok? ==> cmd.value.rest == r.Unread()
    {
      var name, spent := ReadAtom(true, 0);
      if name.None? {
        return Err;
      }
      var args := ReadArgs(spent);
      if args.None? {
        return Err;
      }
      cmd := Ok(Command(Upper(name.value), args.value, r.data[r.pos..]));
    }

    // ----- replies -----

    method EndStatus(st: Status) returns (out: Option<Status>)
      requires r.Valid()
      modifies r
      ensures r.Valid() && Replied(StatusEnd(st, old(r.Unread())), out, r.Unread())
    {
      var ok := ExpectCRLF();
      out := if ok then Some(st) else None;
    }

    method ReadText(st: Status) returns (out: Option<Status>)
      requires r.Valid()
      modifies r
      ensures r.Valid() && Replied(Wire.ReadText(lim, st, old(r.Unread())), out, r.Unread())
    {
      var b := PeekByte();
      if b.None? {
        return None;
      }
      var full := st;
      if !IsLineEnd(b.value) {
        var text, _ := ReadToken(false, 0);
        if text.None? {
          return None;
        }
        full := st.(text := text.value);
      }
      out := EndStatus(full);
    }

    method ReadCodeArgs(st: Status) returns (out: Option<Status>)
      requires r.Valid()
      modifies r
      ensures r.Valid() && Replied(CodeLoop(lim, st, old(r.Unread())), out, r.Unread())
    {
      ghost var goal := CodeLoop(lim, st, r.Unread());
      var full := st;
      while true
        invariant r.Valid() && goal == CodeLoop(lim, full, r.Unread())
        decreases |r.Unread()|
      {
        var ok := SkipSP();
        if !ok {
          return None;
        }
        var pb := PeekByte();
        if pb == Some(')') {
          pb := r.ReadByte();
          break;
        }
        var arg, _ := ReadToken(false, 0);
        if arg.None? {
          return None;
        }
        full := full.(codeArgs := full.codeArgs + [arg.value]);
      }
      var ok := SkipSP();
      if !ok {
        return Some(full);
      }
      out := ReadText(full);
    }

    method ReadStatusLine() returns (out: Option<Status>)
      requires r.Valid()
      modifies r
      ensures r.Valid() && Replied(ReadStatus(lim, old(r.Unread())), out, r.Unread())
    {
      var name, _ := ReadAtom(false, 0);
      if name.None? {
        return None;
      }
      var st := Status(Upper(name.value), "", [], "");
      var b := PeekByte();
      if !IsKind(st.kind) || b.None? {
        return None;
      }
      if b.value != ' ' {
        out := EndStatus(st);
        return;
      }
      var ok := SkipSP();
      if !ok {
        return None;
      }
      b := PeekByte();
      if b == Some('(') {
        b := r.ReadByte();
        out := ReadCode(st);
      } else {
        out := ReadText(st);
      }
    }

    method ReadCode(st: Status) returns (out: Option<Status>)
      requires r.Valid()
      modifies r
      ensures r.Valid() && Replied(Wire.ReadCode(lim, st, old(r.Unread())), out, r.Unread())
    {
      var code, _ := ReadAtom(false, 0);
      if code.None? {
        return None;
      }
      out := ReadCodeArgs(st.(code := Upper(code.value)));
    }

    method ReadScript() returns (info: Option<ScriptInfo>)
      requires r.Valid() && r.Unread() != "" && (r.Unread()[0] == '"' || r.Unread()[0] == '{')
      modifies r
      ensures r.Valid()
      ensures info.None? <==> ReadLine(lim, old(r.Unread())).Err?
      ensures info.Some? ==> ReadLine(lim, old(r.Unread())) == Ok(Entry(info.value, r.Unread()))
    {
      var name, _ := ReadString(false, 0);
      if name.None? {
        return None;
      }
      var pb := PeekByte();
      if pb.None? {
        return None;
      }
      var active := false;
      if pb.value == ' ' {
        var tok, _ := ReadAtom(false, 0);
        if tok.None? {
          return None;
        }
        active := Upper(tok.value) == "ACTIVE";
      }
      var ok := ExpectCRLF();
      info := if ok then Some(ScriptInfo(name.value, active)) else None;
    }

    /** The client's ListScripts loop over ReadScriptOrStatus. */
    method ReadScripts() returns (list: Option<seq<ScriptInfo>>)
      requires r.Valid()
      modifies r
      ensures r.Valid()
      ensures list.None? <==> ReadListing(lim, [], old(r.Unread())).Err?
      ensures list.Some? ==> ReadListing(lim, [], old(r.Unread())) == Ok((list.value, r.Unread()))
    {
      ghost var goal := ReadListing(lim, [], r.Unread());
      var acc := [];
      while true
        invariant r.Valid() && goal == ReadListing(lim, acc, r.Unread())
        decreases |r.Unread()|
      {
        var b := PeekByte();
        if b.None? {
          return None;
        }
        if b.value == '"' || b.value == '{' {
          var info := ReadScript();
          if info.None? {
            return None;
          }
          acc := acc + [info.value];
        } else {
          var status := ReadStatusLine();
          return if status.Some? && status.value.kind == "OK" then Some(acc) else None;
        }
      }
    }
  }

  ghost predicate Replied(goal: Result<Reply>, out: Option<Status>, rest: string) {
    if goal.Err? then out.None? else out == Some(goal.value.status) && rest == goal.value.rest
  }
}
