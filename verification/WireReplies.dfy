/** What a server writes in reply, its statuses and script listings, the client reads back. */
module WireReplies {
  import opened Wrappers
  import opened Sequences
  import opened Wire
  import opened WireGrammar
  import opened WireRoundTrip
  import R = WireReads

  // ----- statuses -----

  predicate TextFits(lim: Limits, text: string) {
    text != "" ==> StringFits(lim, text)
  }

  predicate StringsFit(lim: Limits, args: seq<string>) {
    args == [] || (StringFits(lim, args[0]) && StringsFit(lim, args[1..]))
  }

  /** A status as the reader sees it: a kind by default, upper case, and arguments only beside a code. */
  function Seen(st: Status): Status {
    Status(if st.kind == "" then "OK" else Upper(st.kind), Upper(st.code), if st.code == "" then [] else st.codeArgs,
           st.text)
  }

  predicate StatusAdmitted(lim: Limits, st: Status) {
    && AtMost(lim.maxAtom, |KindText(st)|) && Upper(KindText(st)) in {"OK", "NO", "BYE"}
    && (st.code != "" ==> AtMost(lim.maxAtom, |st.code|) && StringsFit(lim, st.codeArgs))
    && TextFits(lim, st.text)
  }

  function CodeWords(args: seq<string>): seq<Word> {
    if args == [] then [] else [Word(1, FormOf(args[0], false))] + CodeWords(args[1..])
  }

  lemma {:induction false} CodeWordsText(lim: Limits, args: seq<string>, afterAtom: bool)
    ensures var ws := CodeWords(args);
            && WordsOk(ws, afterAtom) && WordsText(ws) == StringsText(args) && Values(ws) == args
            && (WordsFit(lim, ws) <==> StringsFit(lim, args))
  {
    if args != [] {
      var w, ws := Word(1, FormOf(args[0], false)), CodeWords(args[1..]);
      FormOfText(lim, args[0], false);
      CodeWordsText(lim, args[1..], false);
      AfterFirst(w, ws);
      assert Blanks(1) == " ";
      Associate(" ", FormText(w.form), WordsText(ws));
      assert args == [args[0]] + args[1..];
    }
  }

  function MessageOf(text: string): Message {
    Message(if text == "" then None else Some(FormOf(text, false)), true)
  }

  lemma MessageOfText(lim: Limits, text: string)
    ensures var m := MessageOf(text);
            && MessageOk(m) && MessageValue(m) == text && (MessageFits(lim, m) <==> TextFits(lim, text))
            && MessageText(m) == (if text == "" then "" else StringText(text, false)) + "\r\n"
  {
    FormOfText(lim, text, false);
  }

  function MoreOf(st: Status): More {
    var gap := if st.text == "" then 0 else 1;
    if st.code != "" then Coded(1, 0, st.code, CodeWords(st.codeArgs), 0, gap, Some(MessageOf(st.text)))
    else if st.text == "" then Bare(true)
    else Said(1, MessageOf(st.text))
  }

  /** The text of a message with the blank before it. */
  lemma TailOf(st: Status)
    ensures Blanks(if st.text == "" then 0 else 1) + MessageText(MessageOf(st.text)) == TailText(st) + "\r\n"
  {
    MessageOfText(UNLIMITED, st.text);
    assert Blanks(1) == " ";
    if st.text != "" {
      Associate(" ", StringText(st.text, false), "\r\n");
    }
  }

  lemma MoreOfText(st: Status)
    ensures MoreText(MoreOf(st)) == CodeText(st) + (TailText(st) + "\r\n")
  {
    TailOf(st);
    if st.code != "" {
      var tail := TailText(st) + "\r\n";
      CodeWordsText(UNLIMITED, st.codeArgs, true);
      CodedText(st.code, StringsText(st.codeArgs), tail);
    } else {
      assert "" + (TailText(st) + "\r\n") == TailText(st) + "\r\n";
    }
  }

  lemma CodedText(code: string, args: string, tail: string)
    ensures Blanks(1) + ("(" + (Blanks(0) + (code + (args + (Blanks(0) + (")" + tail))))))
         == (" (" + code + args + ")") + tail
  {
    assert Blanks(1) == " " && " (" == " " + "(";
    assert Blanks(0) + (code + (args + (")" + tail))) == code + (args + (")" + tail));
    assert Blanks(0) + (")" + tail) == ")" + tail;
    Associate6(" ", "(", code, args, ")", tail);
  }

  lemma KindSeen(st: Status)
    ensures Capital(KindText(st)) == Upper(KindText(st)) == if st.kind == "" then "OK" else Upper(st.kind)
  {
    R.UpperIsCapital(KindText(st));
    KindsAreUpper();
  }

  lemma StatusIsAnswer(lim: Limits, st: Status)
    requires AtomOk(KindText(st)) && (st.code != "" ==> AtomOk(st.code))
    ensures var l := Answer(0, KindText(st), MoreOf(st));
            && AnswerText(l) == StatusText(st) && MoreOk(l.more) && AnswerValue(l) == Seen(st)
            && (AnswerOk(l) && AnswerFits(lim, l) <==> StatusAdmitted(lim, st))
  {
    MoreOfText(st);
    MessageOfText(lim, st.text);
    CodeWordsText(lim, st.codeArgs, true);
    KindSeen(st);
    R.UpperIsCapital(st.code);
    Associate4(KindText(st), CodeText(st), TailText(st), "\r\n");
  }

  /** A kind that is none of the three is refused. */
  lemma UnknownKind(lim: Limits, l: Answer, rest: string)
    requires AtomOk(l.kind) && MoreOk(l.more) && R.EndsAtom(MoreText(l.more) + rest)
    requires Capital(l.kind) !in {"OK", "NO", "BYE"}
    ensures ReadStatus(lim, AnswerText(l) + rest) == Err
  {
    R.AnswerSplit(l, rest);
    R.ReadAtomReads(lim, false, 0, l.lead, l.kind, MoreText(l.more) + rest);
    R.UpperIsCapital(l.kind);
  }

  /**
   * A status line is read back as the reader sees it, and nothing of what follows,
   * exactly when its kind is known and the limits admit its parts.
   */
  lemma StatusRoundTrip(lim: Limits, st: Status, rest: string)
    requires AtomOk(KindText(st)) && (st.code != "" ==> AtomOk(st.code))
    ensures ReadStatus(lim, StatusText(st) + rest)
         == if StatusAdmitted(lim, st) then Ok(Reply(Seen(st), rest)) else Err
  {
    var l := Answer(0, KindText(st), MoreOf(st));
    StatusIsAnswer(lim, st);
    if AnswerOk(l) {
      R.AnswerReads(lim, l, rest);
    } else {
      R.MoreReads(lim, l, rest);
      UnknownKind(lim, l, rest);
    }
  }

  /** Exactly the statuses in canonical form survive the trip unchanged. */
  lemma StatusSurvives(lim: Limits, st: Status, rest: string)
    requires AtomOk(KindText(st)) && (st.code != "" ==> AtomOk(st.code))
    ensures ReadStatus(lim, StatusText(st) + rest) == Ok(Reply(st, rest))
       <==> && StatusAdmitted(lim, st) && st.kind in {"OK", "NO", "BYE"} && Upper(st.code) == st.code
            && (st.code == "" ==> st.codeArgs == [])
  {
    StatusRoundTrip(lim, st, rest);
    KindsAreUpper();
  }

  /** A status with arguments and no code arrives without them. */
  lemma ArgumentsWithoutCodeAreLost(args: seq<string>, rest: string)
    ensures ReadStatus(UNLIMITED, StatusText(Status("NO", "", args, "")) + rest)
         == Ok(Reply(Status("NO", "", [], ""), rest))
  {
    KindsAreUpper();
    StatusRoundTrip(UNLIMITED, Status("NO", "", args, ""), rest);
  }

  lemma KindsAreUpper()
    ensures Upper("OK") == "OK" && Upper("NO") == "NO" && Upper("BYE") == "BYE" && Upper("ACTIVE") == "ACTIVE"
  {
    UpperFixed("OK");
    UpperFixed("NO");
    UpperFixed("BYE");
    UpperFixed("ACTIVE");
  }

  lemma {:induction false} UpperFixed(s: string)
    requires forall i :: 0 <= i < |s| ==> !('a' <= s[i] <= 'z')
    ensures Upper(s) == s
  {
    R.UpperIsCapital(s);
    assert Capital(s) == s;
  }

  // ----- script listings -----

  predicate EntryFits(lim: Limits, e: ScriptInfo) {
    StringFits(lim, e.name) && (e.active ==> AtMost(lim.maxAtom, |"ACTIVE"|))
  }

  predicate EntriesFit(lim: Limits, list: seq<ScriptInfo>) {
    list == [] || (EntryFits(lim, list[0]) && EntriesFit(lim, list[1..]))
  }

  function ItemOf(e: ScriptInfo): Item {
    Item(FormOf(e.name, false), if e.active then Some(Word(1, Atom("ACTIVE"))) else None, true)
  }

  function ItemsOf(list: seq<ScriptInfo>): seq<Item> {
    if list == [] then [] else [ItemOf(list[0])] + ItemsOf(list[1..])
  }

  lemma MarkOfText(e: ScriptInfo)
    ensures MarkText(ItemOf(e).mark) == if e.active then " ACTIVE" else ""
  {
    assert Blanks(1) == " ";
  }

  lemma ActiveWord()
    ensures AtomOk("ACTIVE") && Capital("ACTIVE") == "ACTIVE"
  {
    var s := "ACTIVE";
    assert forall i :: 0 <= i < |s| ==> 'A' <= s[i] <= 'Z';
    UpperFixed(s);
    R.UpperIsCapital(s);
  }

  lemma ItemOfText(lim: Limits, e: ScriptInfo)
    ensures var i := ItemOf(e);
            ItemOk(i) && ItemText(i) == EntryText(e) && ItemValue(i) == e && (ItemFits(lim, i) <==> EntryFits(lim, e))
  {
    var name, mark := StringText(e.name, false), if e.active then " ACTIVE" else "";
    FormOfText(lim, e.name, false);
    MarkOfText(e);
    ActiveWord();
    Associate(name, mark, "\r\n");
    assert ItemText(ItemOf(e)) == name + (mark + "\r\n");
  }

  /** The items are the entries as they are written. */
  predicate Writes(lim: Limits, items: seq<Item>, list: seq<ScriptInfo>) {
    && ItemsOk(items) && ItemsText(items) == EntriesText(list) && ItemValues(items) == list
    && (ItemsFit(lim, items) <==> EntriesFit(lim, list))
  }

  lemma ItemsCons(lim: Limits, i: Item, e: ScriptInfo, items: seq<Item>, list: seq<ScriptInfo>)
    requires ItemOk(i) && ItemText(i) == EntryText(e) && ItemValue(i) == e && (ItemFits(lim, i) <==> EntryFits(lim, e))
    requires Writes(lim, items, list)
    ensures Writes(lim, [i] + items, [e] + list)
  {
    AfterFirst(i, items);
    AfterFirst(e, list);
  }

  lemma {:induction false} ItemsOfText(lim: Limits, list: seq<ScriptInfo>)
    ensures Writes(lim, ItemsOf(list), list)
  {
    if list != [] {
      ItemOfText(lim, list[0]);
      ItemsOfText(lim, list[1..]);
      ItemsCons(lim, ItemOf(list[0]), list[0], ItemsOf(list[1..]), list[1..]);
      assert list == [list[0]] + list[1..];
    }
  }

  lemma FinalOfText()
    ensures var l := Answer(0, "OK", Bare(true));
            AnswerText(l) == StatusText(OK_STATUS) && AnswerOk(l) && Capital(l.kind) == "OK"
  {
    KindsAreUpper();
    R.UpperIsCapital("OK");
  }

  lemma {:induction false} ListingOfText(lim: Limits, list: seq<ScriptInfo>, rest: string)
    ensures ListingText(list) + rest == ItemsText(ItemsOf(list)) + (AnswerText(Answer(0, "OK", Bare(true))) + rest)
  {
    ItemsOfText(lim, list);
    FinalOfText();
    Associate(EntriesText(list), StatusText(OK_STATUS), rest);
  }

  lemma {:induction false} ListingEnds(lim: Limits, items: seq<Item>, list: seq<ScriptInfo>, l: Answer, rest: string)
    requires Writes(lim, items, list) && AnswerOk(l) && l.more.Bare? && Capital(l.kind) == "OK"
    ensures ReadListing(lim, [], ItemsText(items) + (AnswerText(l) + rest))
         == if EntriesFit(lim, list) && AtMost(lim.maxAtom, |l.kind|) then Ok((list, rest)) else Err
  {
    R.ItemsRead(lim, [], items, l, rest);
    assert [] + list == list;
  }

  /**
   * The listing the server writes is the listing the client collects, in order and with the active marks,
   * exactly when the client's limits admit every line.
   */
  lemma {:induction false} ListingRoundTrip(lim: Limits, list: seq<ScriptInfo>, rest: string)
    ensures ReadListing(lim, [], ListingText(list) + rest)
         == if EntriesFit(lim, list) && AtMost(lim.maxAtom, |"OK"|) then Ok((list, rest)) else Err
  {
    var l := Answer(0, "OK", Bare(true));
    ItemsOfText(lim, list);
    FinalOfText();
    ListingOfText(lim, list, rest);
    ListingEnds(lim, ItemsOf(list), list, l, rest);
  }
}
