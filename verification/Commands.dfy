/** Commands that run nothing else: actions, variables (interp/action.go, pipe.go, include.go, runtime.go). */
module Commands {
  import opened State
  import opened Truncation

  datatype Effect = Effect(core: Core, outcome: Outcome)

  /** What a plain command never changes: the script, both stacks and the include records. */
  predicate Untouched(d: Core, d': Core) {
    && d'.script == d.script && d'.stack == d.stack && d'.parts == d.parts && d'.once == d.once
    && d'.begun == d.begun && d'.visits == d.visits
  }

  /** DefaultOnAction: the action is recorded even when it exceeds the limit. */
  function Apply(w: World, d: Core, a: Action): (e: Effect)
    ensures Untouched(d, e.core)
  {
    var d' := d.(actions := d.actions + [a]);
    Effect(d', if w.maxActions > 0 && |d'.actions| > w.maxActions then Failed else Normal)
  }

  function CancelUnless(copy: bool, d: Core): Core {
    if copy then d else d.(implicitKeep := false)
  }

  function DoFileInto(w: World, d: Core, name: string, copy: bool): (e: Effect)
    ensures Untouched(d, e.core)
  {
    var mailbox := w.mailbox(d, name);
    if mailbox in d.mailboxes then Effect(d, Normal)
    else
      var e := Apply(w, d, FileIntoAction(mailbox, copy));
      if e.outcome.Failed? then e
      else Effect(CancelUnless(copy, e.core.(mailboxes := e.core.mailboxes + [mailbox])), Normal)
  }

  /** expandListName: a leading colon is shorthand. */
  function ListName(name: string): string {
    if name != "" && name[0] == ':' then "urn:ietf:params:sieve" + name else name
  }

  function DoRedirect(w: World, d: Core, to: string, copy: bool, list: bool): (e: Effect)
    ensures Untouched(d, e.core)
  {
    var addr := w.expand(d, to);
    match w.redirect(d, if list then ListName(addr) else addr)
    case PolicyError => Effect(d, Failed)
    case Denied => Effect(d, Normal)
    case Allowed =>
      var a := if list then RedirectAction("", copy, ListName(addr)) else RedirectAction(addr, copy, "");
      var e := Apply(w, d, a);
      if e.outcome.Failed? then e
      else
        var d' := if list then e.core else e.core.(redirects := e.core.redirects + [addr]);
        Effect(CancelUnless(copy, d'), Normal)
  }

  function DoKeep(w: World, d: Core): (e: Effect)
    ensures Untouched(d, e.core)
  {
    var e := Apply(w, d, KeepAction(false));
    if e.outcome.Failed? then e else Effect(e.core.(keep := true), Normal)
  }

  /** discard, reject and ereject: record the action and cancel the implicit keep. */
  function DoFinal(w: World, d: Core, a: Action): (e: Effect)
    ensures Untouched(d, e.core)
  {
    var e := Apply(w, d, a);
    if e.outcome.Failed? then e else Effect(e.core.(implicitKeep := false), Normal)
  }

  function DoNotify(w: World, d: Core, m: string): (e: Effect)
    ensures Untouched(d, e.core)
  {
    var m' := w.expand(d, m);
    if m' == "" then Effect(d, Failed) else Apply(w, d, NotifyAction(m'))
  }

  const PIPE_EXTENSION := "vnd.yarilo.pipe"

  predicate ArgumentsOk(w: World, args: seq<string>) {
    forall i :: 0 <= i < |args| ==> w.argumentOk(args[i])
  }

  function ExpandAll(w: World, d: Core, args: seq<string>): seq<string> {
    if args == [] then [] else [w.expand(d, args[0])] + ExpandAll(w, d, args[1..])
  }

  /** CmdPipe.Execute: with :try every failure is swallowed, the action limit included. */
  function DoPipe(w: World, d: Core, program: string, args: seq<string>, copy: bool, try_: bool): (e: Effect)
    ensures Untouched(d, e.core)
  {
    var name, args' := w.expand(d, program), ExpandAll(w, d, args);
    var refused := Effect(d, if try_ then Normal else Failed);
    if PIPE_EXTENSION !in d.script.extensions then Effect(d, Failed)
    else if !w.programOk(name) || !ArgumentsOk(w, args') || name in d.piped then refused
    else
      var e := Apply(w, d.(piped := d.piped + {name}), PipeAction(name, args', copy, try_));
      if e.outcome.Failed? then
        if try_ then Effect(e.core.(piped := e.core.piped - {name}), Normal) else e
      else Effect(CancelUnless(copy || try_, e.core), Normal)
  }

  /** strings.Cut at the first dot: the namespace and the name. */
  function CutDot(s: string): (string, string) {
    if s == "" then ("", "")
    else if s[0] == '.' then ("", s[1..])
    else
      var (a, b) := CutDot(s[1..]);
      ([s[0]] + a, b)
  }

  /** RuntimeData.SetVar */
  function SetVar(w: World, d: Core, name: string, value: string): (e: Effect)
    ensures Untouched(d, e.core)
  {
    if |name| > w.maxNameLength then Effect(d, Failed)
    else
      var v, lower := Truncate(value, w.maxValueLength), w.lower(name);
      var (space, name') := if '.' in lower then CutDot(lower) else ("", lower);
      if space == "global" then
        if "include" in d.script.extensions then Effect(d.(globals := d.globals[name' := v]), Normal)
        else Effect(d, Failed)
      else if space == "" then
        if name' in d.globalDecls then Effect(d.(globals := d.globals[name' := v]), Normal)
        else Effect(d.(vars := d.vars[name' := v]), Normal)
      else Effect(d, Failed)
  }

  /** CmdGlobal.Execute: names are declared one by one, up to the first that has a namespace. */
  function Declare(w: World, d: Core, names: seq<string>): (e: Effect)
    ensures Untouched(d, e.core)
    decreases |names|
  {
    if names == [] then Effect(d, Normal)
    else if '.' in names[0] then Effect(d, Failed)
    else Declare(w, d.(globalDecls := d.globalDecls + {w.lower(names[0])}), names[1..])
  }

  /** The commands with a block, and include, are run elsewhere. */
  predicate IsPlain(c: Cmd) {
    !c.If? && !c.Elsif? && !c.Else? && !c.ForEveryPart? && !c.Include?
  }

  function ExecPlain(w: World, c: Cmd, d: Core): (e: Effect)
    requires IsPlain(c)
    ensures Untouched(d, e.core)
  {
    match c
    case Stop => Effect(d, Stopped)
    case Return => Effect(d, Returned)
    case Break(name) => Effect(d, Broke(name))
    case Keep => DoKeep(w, d)
    case Discard => DoFinal(w, d, DiscardAction)
    case Reject(reason) => DoFinal(w, d, RejectAction(w.expand(d, reason)))
    case EReject(reason) => DoFinal(w, d, ERejectAction(w.expand(d, reason)))
    case FileInto(mailbox, copy) => DoFileInto(w, d, mailbox, copy)
    case Redirect(addr, copy, list) => DoRedirect(w, d, addr, copy, list)
    case Notify(m) => DoNotify(w, d, m)
    case Pipe(program, args, copy, try_) => DoPipe(w, d, program, args, copy, try_)
    case Set(name, value) => SetVar(w, d, name, w.expand(d, value))
    case Global(names) => Declare(w, d, names)
  }

  lemma {:induction false} DeclareKeepsRest(w: World, d: Core, names: seq<string>)
    ensures Declare(w, d, names).core == d.(globalDecls := Declare(w, d, names).core.globalDecls)
    decreases |names|
  {
    if names != [] && '.' !in names[0] {
      DeclareKeepsRest(w, d.(globalDecls := d.globalDecls + {w.lower(names[0])}), names[1..]);
    }
  }

  // ----- what a plain command may record -----

  /** The kind of action a command asks for. */
  predicate MayRecord(c: Cmd, a: Action) {
    match a
    case KeepAction(implicit) => c.Keep? && !implicit
    case DiscardAction => c.Discard?
    case FileIntoAction(_, copy) => c.FileInto? && c.copy == copy
    case RedirectAction(_, copy, _) => c.Redirect? && c.copy == copy
    case RejectAction(_) => c.Reject?
    case ERejectAction(_) => c.EReject?
    case PipeAction(_, _, copy, try_) => c.Pipe? && c.copy == copy && c.try_ == try_
    case NotifyAction(_) => c.Notify?
  }

  /** At most one action was added, of that kind; only a redirect touches the redirect list. */
  ghost predicate Appends(c: Cmd, d: Core, d': Core) {
    && (d'.actions == d.actions || exists a :: MayRecord(c, a) && d'.actions == d.actions + [a])
    && (!c.Redirect? ==> d'.redirects == d.redirects)
  }

  lemma FileIntoAppends(w: World, c: Cmd, d: Core)
    requires c.FileInto?
    ensures Appends(c, d, ExecPlain(w, c, d).core)
  {
    assert MayRecord(c, FileIntoAction(w.mailbox(d, c.mailbox), c.copy));
  }

  lemma RedirectAppends(w: World, c: Cmd, d: Core)
    requires c.Redirect?
    ensures Appends(c, d, ExecPlain(w, c, d).core)
  {
    var addr := w.expand(d, c.addr);
    assert MayRecord(c, RedirectAction("", c.copy, ListName(addr)));
    assert MayRecord(c, RedirectAction(addr, c.copy, ""));
  }

  lemma PipeAppends(w: World, c: Cmd, d: Core)
    requires c.Pipe?
    ensures Appends(c, d, ExecPlain(w, c, d).core)
  {
    assert MayRecord(c, PipeAction(w.expand(d, c.program), ExpandAll(w, d, c.args), c.copy, c.try_));
  }

  lemma FinalAppends(w: World, c: Cmd, d: Core)
    requires c.Keep? || c.Discard? || c.Reject? || c.EReject? || c.Notify?
    ensures Appends(c, d, ExecPlain(w, c, d).core)
  {
    match c
    case Keep => assert MayRecord(c, KeepAction(false));
    case Discard => assert MayRecord(c, DiscardAction);
    case Reject(reason) => assert MayRecord(c, RejectAction(w.expand(d, reason)));
    case EReject(reason) => assert MayRecord(c, ERejectAction(w.expand(d, reason)));
    case Notify(m) => assert MayRecord(c, NotifyAction(w.expand(d, m)));
  }

  lemma OtherAppends(w: World, c: Cmd, d: Core)
    requires c.Stop? || c.Return? || c.Break? || c.Set? || c.Global?
    ensures Appends(c, d, ExecPlain(w, c, d).core)
  {
    if c.Global? {
      DeclareKeepsRest(w, d, c.names);
    }
  }

  lemma PlainAppends(w: World, c: Cmd, d: Core)
    requires IsPlain(c)
    ensures Appends(c, d, ExecPlain(w, c, d).core)
  {
    if c.FileInto? {
      FileIntoAppends(w, c, d);
    } else if c.Redirect? {
      RedirectAppends(w, c, d);
    } else if c.Pipe? {
      PipeAppends(w, c, d);
    } else if c.Stop? || c.Return? || c.Break? || c.Set? || c.Global? {
      OtherAppends(w, c, d);
    } else {
      FinalAppends(w, c, d);
    }
  }
}
