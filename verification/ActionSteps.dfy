/** What each plain command does to the run-time state, written out, and what a whole block leaves of it. */
module ActionSteps {
  import opened Mime
  import opened Sequences
  import opened State
  import opened Commands
  import opened Interpreter
  import opened RunInduction
  import opened Wrappers
  import Truncation

  /** One more action is within the limit. */
  predicate HasRoom(w: World, d: Core) {
    w.maxActions <= 0 || |d.actions| < w.maxActions
  }

  /** The action is recorded; past the limit that is all, and the command fails. */
  predicate Takes(w: World, d: Core, a: Action, d': Core, flag: bool, r: Run) {
    r == if HasRoom(w, d) then Run(d'.(actions := d.actions + [a]), flag, Normal)
         else Run(d.(actions := d.actions + [a]), flag, Failed)
  }

  /** A mailbox is filed into once. */
  lemma {:induction false} FileIntoStep(w: World, name: string, copy: bool, d: Core, flag: bool)
    ensures var m, r := w.mailbox(d, name), Exec(w, FileInto(name, copy), d, flag);
            if m in d.mailboxes then r == Run(d, flag, Normal)
            else
              Takes(w, d, FileIntoAction(m, copy),
                    d.(mailboxes := d.mailboxes + [m], implicitKeep := d.implicitKeep && copy), flag, r)
  {
  }

  /** A list name that starts with a colon is short for one of the registered names. */
  function FullListName(name: string): string {
    if name != "" && name[0] == ':' then "urn:ietf:params:sieve" + name else name
  }

  /** The policy decides; a redirect to a list is recorded without an address. */
  lemma RedirectStep(w: World, to: string, copy: bool, list: bool, d: Core, flag: bool)
    ensures var r, addr := Exec(w, Redirect(to, copy, list), d, flag), w.expand(d, to);
            match w.redirect(d, if list then FullListName(addr) else addr)
            case PolicyError => r == Run(d, flag, Failed)
            case Denied => r == Run(d, flag, Normal)
            case Allowed =>
              var kept := d.(implicitKeep := d.implicitKeep && copy);
              if list then Takes(w, d, RedirectAction("", copy, FullListName(addr)), kept, flag, r)
              else
                Takes(w, d, RedirectAction(addr, copy, ""), kept.(redirects := d.redirects + [addr]), flag, r)
  {
  }

  lemma {:induction false} KeepStep(w: World, d: Core, flag: bool)
    ensures Takes(w, d, KeepAction(false), d.(keep := true), flag, Exec(w, Keep, d, flag))
  {
  }

  lemma {:induction false} DiscardStep(w: World, d: Core, flag: bool)
    ensures Takes(w, d, DiscardAction, d.(implicitKeep := false), flag, Exec(w, Discard, d, flag))
  {
  }

  lemma {:induction false} RejectStep(w: World, reason: string, d: Core, flag: bool)
    ensures Takes(w, d, RejectAction(w.expand(d, reason)), d.(implicitKeep := false), flag,
                  Exec(w, Reject(reason), d, flag))
  {
  }

  lemma {:induction false} ERejectStep(w: World, reason: string, d: Core, flag: bool)
    ensures Takes(w, d, ERejectAction(w.expand(d, reason)), d.(implicitKeep := false), flag,
                  Exec(w, EReject(reason), d, flag))
  {
  }

  lemma {:induction false} NotifyStep(w: World, m: string, d: Core, flag: bool)
    ensures var r, text := Exec(w, Notify(m), d, flag), w.expand(d, m);
            if text == "" then r == Run(d, flag, Failed) else Takes(w, d, NotifyAction(text), d, flag, r)
  {
  }

  lemma {:induction false} ExpandAllIs(w: World, d: Core, args: seq<string>, i: nat)
    requires i < |args|
    ensures |ExpandAll(w, d, args)| == |args| && ExpandAll(w, d, args)[i] == w.expand(d, args[i])
    decreases |args|
  {
    if |args| > 1 {
      ExpandAllIs(w, d, args[1..], if i == 0 then 0 else i - 1);
    }
  }

  lemma ExpandedTexts(w: World, d: Core, args: seq<string>) returns (texts: seq<string>)
    ensures texts == ExpandAll(w, d, args)
    ensures |texts| == |args| && forall i :: 0 <= i < |args| ==> texts[i] == w.expand(d, args[i])
  {
    texts := ExpandAll(w, d, args);
    assert |texts| == |args| by {
      if args != [] {
        ExpandAllIs(w, d, args, 0);
      }
    }
    forall i | 0 <= i < |args| ensures texts[i] == w.expand(d, args[i]) {
      ExpandAllIs(w, d, args, i);
    }
  }

  lemma {:induction false} PipeEffect(w: World, d: Core, program: string, args: seq<string>, copy: bool, try_: bool)
    requires "vnd.yarilo.pipe" in d.script.extensions
    ensures var e, name, texts := DoPipe(w, d, program, args, copy, try_), w.expand(d, program), ExpandAll(w, d, args);
            var d' := d.(actions := d.actions + [PipeAction(name, texts, copy, try_)]);
            if !w.programOk(name) || !ArgumentsOk(w, texts) || name in d.piped
            then e == Effect(d, if try_ then Normal else Failed)
            else if HasRoom(w, d)
            then e == Effect(d'.(piped := d.piped + {name}, implicitKeep := d.implicitKeep && (copy || try_)), Normal)
            else if try_ then e == Effect(d', Normal)
            else e == Effect(d'.(piped := d.piped + {name}), Failed)
  {
    var name := w.expand(d, program);
    assert name !in d.piped ==> d.piped + {name} - {name} == d.piped;
  }

  /** A pipe needs its extension, a good name, good arguments and a program not piped to before. */
  lemma PipeStep(w: World, program: string, args: seq<string>, copy: bool, try_: bool, d: Core, flag: bool)
    returns (texts: seq<string>)
    ensures |texts| == |args| && forall i :: 0 <= i < |args| ==> texts[i] == w.expand(d, args[i])
    ensures var r, name := Exec(w, Pipe(program, args, copy, try_), d, flag), w.expand(d, program);
            var a := PipeAction(name, texts, copy, try_);
            if "vnd.yarilo.pipe" !in d.script.extensions then r == Run(d, flag, Failed)
            else if !w.programOk(name) || (exists i :: 0 <= i < |texts| && !w.argumentOk(texts[i])) || name in d.piped
            then r == Run(d, flag, if try_ then Normal else Failed)
            else if HasRoom(w, d)
            then
              r == Run(d.(actions := d.actions + [a], piped := d.piped + {name},
                          implicitKeep := d.implicitKeep && (copy || try_)), flag, Normal)
            else if try_ then r == Run(d.(actions := d.actions + [a]), flag, Normal)
            else r == Run(d.(actions := d.actions + [a], piped := d.piped + {name}), flag, Failed)
  {
    texts := ExpandedTexts(w, d, args);
    var e := DoPipe(w, d, program, args, copy, try_);
    assert Exec(w, Pipe(program, args, copy, try_), d, flag) == Run(e.core, flag, e.outcome);
    if "vnd.yarilo.pipe" in d.script.extensions {
      PipeEffect(w, d, program, args, copy, try_);
    }
  }

  /** The message is still to be kept: the run came to its end and no action took the message. */
  predicate KeepIsDue(r: Run) {
    && r.outcome.Normal? && r.core.implicitKeep
    && forall i :: 0 <= i < |r.core.actions| ==> !CancelsKeep(r.core.actions[i])
  }

  /**
   * A whole script succeeds when it stopped, returned or came to its end, with room for the implicit keep if that is
   * due. The keep is then the only thing added; a break that no loop took and a failure are errors.
   */
  lemma {:induction false} ScriptStep(w: World, s: Script, d: Core, flag: bool)
    ensures var r := Block(w, s.cmds, d, flag);
            && Execute(w, s, d, flag).core
               == (if KeepIsDue(r) then r.core.(actions := r.core.actions + [KeepAction(true)]) else r.core)
            && (Execute(w, s, d, flag).ok
                <==> r.outcome.Stopped? || r.outcome.Returned?
                     || (r.outcome.Normal? && (KeepIsDue(r) ==> HasRoom(w, r.core))))
  {
  }

  /** stop, return and break change nothing. */
  lemma {:induction false} SignalStep(w: World, name: string, d: Core, flag: bool)
    ensures Exec(w, Stop, d, flag) == Run(d, flag, Stopped)
    ensures Exec(w, Return, d, flag) == Run(d, flag, Returned)
    ensures Exec(w, Break(name), d, flag) == Run(d, flag, Broke(name))
  {
  }

  /** global declares the lowered names in turn, up to the first that has a dot. */
  lemma GlobalStep(w: World, names: seq<string>, d: Core, flag: bool) returns (k: nat)
    ensures k <= |names| && (forall i :: 0 <= i < k ==> '.' !in names[i]) && (k < |names| ==> '.' in names[k])
    ensures var declared := d.globalDecls + set i | 0 <= i < k :: w.lower(names[i]);
            Exec(w, Global(names), d, flag)
            == Run(d.(globalDecls := declared), flag, if k < |names| then Failed else Normal)
  {
    k := Declares(w, names, d);
  }

  lemma {:induction false} Declares(w: World, names: seq<string>, d: Core) returns (k: nat)
    ensures k <= |names| && (forall i :: 0 <= i < k ==> '.' !in names[i]) && (k < |names| ==> '.' in names[k])
    ensures var declared := d.globalDecls + set i | 0 <= i < k :: w.lower(names[i]);
            Declare(w, d, names) == Effect(d.(globalDecls := declared), if k < |names| then Failed else Normal)
    decreases |names|
  {
    if names == [] || '.' in names[0] {
      k := 0;
      assert d.globalDecls + {} == d.globalDecls;
    } else {
      var d' := d.(globalDecls := d.globalDecls + {w.lower(names[0])});
      k := Declares(w, names[1..], d');
      DeclaredMore(w, names, k);
      assert d'.globalDecls + (set i | 0 <= i < k :: w.lower(names[1..][i]))
          == d.globalDecls + (set i | 0 <= i < k + 1 :: w.lower(names[i]));
      k := k + 1;
    }
  }

  lemma DeclaredMore(w: World, names: seq<string>, k: nat)
    requires names != [] && k <= |names[1..]|
    ensures (set i | 0 <= i < k + 1 :: w.lower(names[i]))
         == {w.lower(names[0])} + set i | 0 <= i < k :: w.lower(names[1..][i])
  {
    var all, later := set i | 0 <= i < k + 1 :: w.lower(names[i]), set i | 0 <= i < k :: w.lower(names[1..][i]);
    forall x | x in all ensures x in {w.lower(names[0])} + later {
      var i :| 0 <= i < k + 1 && x == w.lower(names[i]);
      if i > 0 {
        assert names[1..][i - 1] == names[i];
      }
    }
    forall x | x in later ensures x in all {
      var i :| 0 <= i < k && x == w.lower(names[1..][i]);
      assert names[i + 1] == names[1..][i];
    }
  }

  // ----- variables -----

  /** The longest valid UTF-8 prefix of a value within a limit. */
  predicate IsLongestPrefix(stored: string, value: string, max: nat) {
    && stored <= value && |stored| <= max && Truncation.IsUtf8(stored)
    && forall k :: |stored| < k <= max && k <= |value| ==> !Truncation.IsUtf8(value[..k])
  }

  /** A value cut to a limit: whole if it fits, else up to the last octet within it that can start a character. */
  predicate IsCut(stored: string, value: string, max: nat) {
    if |value| <= max then stored == value
    else
      && stored < value && |stored| <= max
      && (stored == "" || !(128 <= value[|stored|] as int < 192))
      && forall k :: |stored| < k <= max ==> 128 <= value[k] as int < 192
  }

  /** The variable of a name without a name space: a global one if it was declared so, else one of the script's own. */
  function Stored(d: Core, name: string, value: string): Core {
    if name in d.globalDecls then d.(globals := d.globals[name := value]) else d.(vars := d.vars[name := value])
  }

  lemma {:induction false} CutDotSplits(s: string)
    requires '.' in s
    ensures var (space, name) := CutDot(s); s == space + "." + name && '.' !in space
    decreases |s|
  {
    assert s == [s[0]] + s[1..];
    if s[0] != '.' {
      CutDotSplits(s[1..]);
    }
  }

  lemma {:induction false} CutAndLongest(value: string, max: nat)
    ensures IsCut(Truncation.Truncate(value, max), value, max)
    ensures Truncation.IsUtf8(value) ==> IsLongestPrefix(Truncation.Truncate(value, max), value, max)
  {
    if |value| > max {
      Truncation.CutPointIsLast(value, max);
    }
    if Truncation.IsUtf8(value) {
      Truncation.TruncateKeepsLongestUtf8(value, max);
    }
  }

  /** set stores the value under the lowered name, cut to the limit between characters, and changes nothing else. */
  lemma SetStep(w: World, name: string, text: string, d: Core, flag: bool)
    returns (stored: string, space: string, base: string)
    ensures IsCut(stored, w.expand(d, text), w.maxValueLength)
    ensures Truncation.IsUtf8(w.expand(d, text)) ==> IsLongestPrefix(stored, w.expand(d, text), w.maxValueLength)
    ensures '.' !in space && w.lower(name) == if '.' in w.lower(name) then space + "." + base else base
    ensures '.' !in w.lower(name) ==> space == ""
    ensures var r := Exec(w, Set(name, text), d, flag);
            if |name| > w.maxNameLength then r == Run(d, flag, Failed)
            else if space == "" then r == Run(Stored(d, base, stored), flag, Normal)
            else if space == "global" && "include" in d.script.extensions
            then r == Run(d.(globals := d.globals[base := stored]), flag, Normal)
            else r == Run(d, flag, Failed)
  {
    var value, lower := w.expand(d, text), w.lower(name);
    CutAndLongest(value, w.maxValueLength);
    stored := Truncation.Truncate(value, w.maxValueLength);
    if '.' in lower {
      CutDotSplits(lower);
      space, base := CutDot(lower).0, CutDot(lower).1;
    } else {
      space, base := "", lower;
    }
  }

  // ----- whole blocks -----

  predicate RecordGrows(d: Core, d': Core) {
    d.actions <= d'.actions && d.mailboxes <= d'.mailboxes && d.redirects <= d'.redirects
  }

  lemma PlainRecordGrows(w: World, c: Cmd, d: Core)
    requires IsPlain(c)
    ensures RecordGrows(d, ExecPlain(w, c, d).core)
  {
    PlainAppends(w, c, d);
    if c.Redirect? {
      RedirectRecordGrows(w, c.addr, c.copy, c.list, d);
    } else {
      MailboxesGrow(w, c, d);
    }
  }

  lemma MailboxesGrow(w: World, c: Cmd, d: Core)
    requires IsPlain(c)
    ensures d.mailboxes <= ExecPlain(w, c, d).core.mailboxes
  {
    if c.Global? {
      DeclareKeepsRest(w, d, c.names);
    }
  }

  lemma RedirectRecordGrows(w: World, to: string, copy: bool, list: bool, d: Core)
    ensures RecordGrows(d, DoRedirect(w, d, to, copy, list).core)
  {
  }

  /** No run takes an action, a mailbox or a redirect address back. */
  lemma {:induction false} RunRecordGrows(w: World, cmds: seq<Cmd>, d: Core, flag: bool)
    ensures RecordGrows(d, Block(w, cmds, d, flag).core)
  {
    var rel: Relation := (d, d', ok) => RecordGrows(d, d');
    RepositoryAnyMay(w);
    forall c, d | IsPlain(c) ensures rel(d, ExecPlain(w, c, d).core, !ExecPlain(w, c, d).outcome.Failed?) {
      PlainRecordGrows(w, c, d);
    }
    LedgerRelationIsKept(w, Any, rel);
    AnyMay(cmds);
    BlockKeeps(w, Any, rel, cmds, d, flag);
  }

  /** A block that comes to its end has run each of its commands, in the state the ones before it left. */
  lemma {:induction false} BlockRunsEach(w: World, cmds: seq<Cmd>, i: nat, d: Core, flag: bool)
    requires i < |cmds| && Block(w, cmds, d, flag).outcome.Normal?
    ensures var before := Block(w, cmds[..i], d, flag);
            var r := Exec(w, cmds[i], before.core, before.flag);
            && before.outcome.Normal? && r.outcome.Normal?
            && Block(w, cmds, d, flag) == Block(w, cmds[i + 1..], r.core, r.flag)
    decreases i
  {
    if i == 0 {
      assert cmds[..0] == [];
    } else {
      var first := Exec(w, cmds[0], d, flag);
      BlockRunsEach(w, cmds[1..], i - 1, first.core, first.flag);
      assert cmds[..i][0] == cmds[0] && cmds[..i][1..] == cmds[1..][..i - 1];
      assert cmds[1..][i - 1 + 1..] == cmds[i + 1..];
    }
  }

  /** The action that a command asks for in a state; fileinto and pipe look at more than the state says. */
  function Asked(w: World, d: Core, c: Cmd): Option<Action> {
    match c
    case Keep => Some(KeepAction(false))
    case Discard => Some(DiscardAction)
    case Reject(reason) => Some(RejectAction(w.expand(d, reason)))
    case EReject(reason) => Some(ERejectAction(w.expand(d, reason)))
    case Notify(m) => if w.expand(d, m) == "" then None else Some(NotifyAction(w.expand(d, m)))
    case Redirect(to, copy, list) =>
      var addr := w.expand(d, to);
      if w.redirect(d, if list then FullListName(addr) else addr) != Allowed then None
      else if list then Some(RedirectAction("", copy, FullListName(addr)))
      else Some(RedirectAction(addr, copy, ""))
    case _ => None
  }

  lemma {:induction false} AskedIsRecorded(w: World, c: Cmd, d: Core, flag: bool)
    requires Asked(w, d, c).Some?
    ensures Exec(w, c, d, flag).core.actions == d.actions + [Asked(w, d, c).value]
  {
    if c.Redirect? {
      RedirectStep(w, c.addr, c.copy, c.list, d, flag);
    } else {
      FinalIsRecorded(w, c, d, flag);
    }
  }

  lemma {:induction false} FinalIsRecorded(w: World, c: Cmd, d: Core, flag: bool)
    requires !c.Redirect? && Asked(w, d, c).Some?
    ensures Exec(w, c, d, flag).core.actions == d.actions + [Asked(w, d, c).value]
  {
    match c
    case Keep => KeepStep(w, d, flag);
    case Discard => DiscardStep(w, d, flag);
    case Reject(reason) => RejectStep(w, reason, d, flag);
    case EReject(reason) => ERejectStep(w, reason, d, flag);
    case Notify(m) => NotifyStep(w, m, d, flag);
  }

  /** And a command that asks for none records none. */
  lemma {:induction false} UnaskedIsNotRecorded(w: World, c: Cmd, d: Core, flag: bool)
    requires IsPlain(c) && !c.FileInto? && !c.Pipe? && Asked(w, d, c).None?
    ensures Exec(w, c, d, flag).core.actions == d.actions
  {
    match c
    case Redirect(to, copy, list) => RedirectStep(w, to, copy, list, d, flag);
    case Notify(m) => NotifyStep(w, m, d, flag);
    case Set(name, value) => SetRecordsNothing(w, name, value, d, flag);
    case Global(names) =>
      var _ := GlobalStep(w, names, d, flag);
    case Break(name) => SignalStep(w, name, d, flag);
    case _ => SignalStep(w, "", d, flag);
  }

  lemma {:induction false} SetRecordsNothing(w: World, name: string, value: string, d: Core, flag: bool)
    ensures Exec(w, Set(name, value), d, flag).core.actions == d.actions
  {
  }

  lemma {:induction false} FiledMailboxIsListed(w: World, name: string, copy: bool, d: Core, flag: bool)
    requires Exec(w, FileInto(name, copy), d, flag).outcome.Normal?
    ensures w.mailbox(d, name) in Exec(w, FileInto(name, copy), d, flag).core.mailboxes
  {
    FileIntoStep(w, name, copy, d, flag);
  }

  /** In a block that comes to its end every fileinto has filed and every action asked for is on record. */
  lemma {:induction false} BlockRecordsAll(w: World, cmds: seq<Cmd>, i: nat, d: Core, flag: bool)
    requires i < |cmds| && Block(w, cmds, d, flag).outcome.Normal?
    ensures var then_, after := Block(w, cmds[..i], d, flag).core, Block(w, cmds, d, flag).core;
            && (cmds[i].FileInto? ==> w.mailbox(then_, cmds[i].mailbox) in after.mailboxes)
            && (Asked(w, then_, cmds[i]).Some? ==> Asked(w, then_, cmds[i]).value in after.actions)
  {
    var before := Block(w, cmds[..i], d, flag);
    var r := Exec(w, cmds[i], before.core, before.flag);
    BlockRunsEach(w, cmds, i, d, flag);
    RunRecordGrows(w, cmds[i + 1..], r.core, r.flag);
    var after := Block(w, cmds, d, flag).core;
    PrefixHolds(r.core.actions, after.actions);
    PrefixHolds(r.core.mailboxes, after.mailboxes);
    if Asked(w, before.core, cmds[i]).Some? {
      AskedIsRecorded(w, cmds[i], before.core, before.flag);
    }
    if cmds[i].FileInto? {
      FiledMailboxIsListed(w, cmds[i].mailbox, cmds[i].copy, before.core, before.flag);
    }
  }

  lemma PrefixHolds<T>(s: seq<T>, t: seq<T>)
    requires s <= t
    ensures forall x :: x in s ==> x in t
  {
    forall x | x in s ensures x in t {
      var i :| 0 <= i < |s| && s[i] == x;
      assert t[i] == x;
    }
  }
}
