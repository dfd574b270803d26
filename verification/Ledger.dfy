/** The action list and what RuntimeData derives from it, over whole runs. */
module Ledger {
  import opened Mime
  import opened State
  import opened Commands
  import opened Interpreter
  import opened RunInduction

  // ----- projections of the action list -----

  function MailboxesOf(actions: seq<Action>): seq<string> {
    if actions == [] then []
    else
      var a := actions[|actions| - 1];
      MailboxesOf(actions[..|actions| - 1]) + if a.FileIntoAction? then [a.mailbox] else []
  }

  predicate Distinct(s: seq<string>) {
    forall i, j :: 0 <= i < j < |s| ==> s[i] != s[j]
  }

  predicate IsExplicitKeep(a: Action) {
    a.KeepAction? && !a.implicit
  }

  predicate Replaces(a: Action) {
    CancelsKeep(a) && !a.KeepAction?
  }

  predicate IsTryPipe(a: Action) {
    a.PipeAction? && a.try_
  }

  // ----- the invariant -----

  predicate FilesOk(d: Core) {
    d.mailboxes == MailboxesOf(d.actions) && Distinct(d.mailboxes)
  }

  predicate KeepOk(d: Core) {
    && (d.keep <==> exists i :: 0 <= i < |d.actions| && IsExplicitKeep(d.actions[i]))
    && (forall i :: 0 <= i < |d.actions| && d.actions[i].KeepAction? ==> IsExplicitKeep(d.actions[i]))
  }

  predicate ImplicitOk(d: Core) {
    d.implicitKeep <==> forall i :: 0 <= i < |d.actions| ==> !Replaces(d.actions[i])
  }

  /** Only :try pipes are ever recorded past the limit. */
  predicate LimitOk(w: World, d: Core) {
    w.maxActions > 0 ==> forall i :: w.maxActions <= i < |d.actions| ==> IsTryPipe(d.actions[i])
  }

  predicate LedgerOk(w: World, d: Core) {
    FilesOk(d) && KeepOk(d) && ImplicitOk(d) && LimitOk(w, d)
  }

  /** The fields the invariant speaks of. */
  predicate SameLedger(d: Core, d': Core) {
    && d'.actions == d.actions && d'.mailboxes == d.mailboxes
    && d'.keep == d.keep && d'.implicitKeep == d.implicitKeep
  }

  /** One action was recorded; the derived fields moved accordingly. */
  predicate Recorded(w: World, d: Core, d': Core, a: Action) {
    && d'.actions == d.actions + [a]
    && d'.mailboxes == (if a.FileIntoAction? then d.mailboxes + [a.mailbox] else d.mailboxes)
    && (a.FileIntoAction? ==> a.mailbox !in d.mailboxes)
    && d'.keep == (d.keep || IsExplicitKeep(a)) && (a.KeepAction? ==> !a.implicit)
    && d'.implicitKeep == (d.implicitKeep && !Replaces(a))
    && (w.maxActions > 0 && |d'.actions| > w.maxActions ==> IsTryPipe(a))
  }

  lemma FilesRecorded(w: World, d: Core, d': Core, a: Action)
    requires FilesOk(d) && Recorded(w, d, d', a)
    ensures FilesOk(d')
  {
    assert d'.actions[..|d'.actions| - 1] == d.actions;
  }

  lemma KeepRecorded(w: World, d: Core, d': Core, a: Action)
    requires KeepOk(d) && Recorded(w, d, d', a)
    ensures KeepOk(d')
  {
    if d.keep {
      var i :| 0 <= i < |d.actions| && IsExplicitKeep(d.actions[i]);
      assert IsExplicitKeep(d'.actions[i]);
    }
    if IsExplicitKeep(a) {
      assert IsExplicitKeep(d'.actions[|d.actions|]);
    }
  }

  lemma ImplicitRecorded(w: World, d: Core, d': Core, a: Action)
    requires ImplicitOk(d) && Recorded(w, d, d', a)
    ensures ImplicitOk(d')
  {
    assert d'.actions[|d.actions|] == a;
    assert forall i :: 0 <= i < |d.actions| ==> d'.actions[i] == d.actions[i];
  }

  lemma LedgerRecorded(w: World, d: Core, d': Core, a: Action)
    requires LedgerOk(w, d) && Recorded(w, d, d', a)
    ensures LedgerOk(w, d')
  {
    FilesRecorded(w, d, d', a);
    KeepRecorded(w, d, d', a);
    ImplicitRecorded(w, d, d', a);
  }

  // ----- what each command records -----

  lemma FileIntoRecords(w: World, d: Core, name: string, copy: bool)
    ensures var e := DoFileInto(w, d, name, copy);
            var a := FileIntoAction(w.mailbox(d, name), copy);
            e.outcome.Failed? || SameLedger(d, e.core) || Recorded(w, d, e.core, a)
  {
  }

  /** The action a redirect asks for. */
  function Redirection(w: World, d: Core, to: string, copy: bool, list: bool): Action {
    var addr := w.expand(d, to);
    if list then RedirectAction("", copy, ListName(addr)) else RedirectAction(addr, copy, "")
  }

  lemma RedirectRecords(w: World, d: Core, to: string, copy: bool, list: bool)
    ensures var e := DoRedirect(w, d, to, copy, list);
            e.outcome.Failed? || SameLedger(d, e.core) || Recorded(w, d, e.core, Redirection(w, d, to, copy, list))
  {
  }

  lemma {:induction false} PipeRecords(w: World, d: Core, c: Cmd)
    requires c.Pipe?
    ensures var e := DoPipe(w, d, c.program, c.args, c.copy, c.try_);
            var a := PipeAction(w.expand(d, c.program), ExpandAll(w, d, c.args), c.copy, c.try_);
            e.outcome.Failed? || SameLedger(d, e.core) || Recorded(w, d, e.core, a)
  {
  }

  lemma SameLedgerOk(w: World, d: Core, d': Core)
    requires SameLedger(d, d')
    ensures LedgerOk(w, d) <==> LedgerOk(w, d')
  {
  }

  predicate EffectOk(w: World, e: Effect) {
    e.outcome.Failed? || LedgerOk(w, e.core)
  }

  lemma RecordedOrSame(w: World, d: Core, e: Effect, a: Action)
    requires LedgerOk(w, d)
    requires e.outcome.Failed? || SameLedger(d, e.core) || Recorded(w, d, e.core, a)
    ensures EffectOk(w, e)
  {
    if !e.outcome.Failed? {
      if SameLedger(d, e.core) {
        SameLedgerOk(w, d, e.core);
      } else {
        LedgerRecorded(w, d, e.core, a);
      }
    }
  }

  lemma FinalLedger(w: World, d: Core, a: Action)
    requires LedgerOk(w, d) && (a.DiscardAction? || a.RejectAction? || a.ERejectAction?)
    ensures EffectOk(w, DoFinal(w, d, a))
  {
    RecordedOrSame(w, d, DoFinal(w, d, a), a);
  }

  lemma {:induction false} VariablesLedger(w: World, d: Core, name: string, value: string, names: seq<string>)
    requires LedgerOk(w, d)
    ensures EffectOk(w, SetVar(w, d, name, value)) && EffectOk(w, Declare(w, d, names))
  {
    SameLedgerOk(w, d, SetVar(w, d, name, value).core);
    DeclareKeepsRest(w, d, names);
    SameLedgerOk(w, d, Declare(w, d, names).core);
  }

  lemma DeliveryLedger(w: World, c: Cmd, d: Core)
    requires LedgerOk(w, d) && (c.FileInto? || c.Redirect? || c.Pipe?)
    ensures EffectOk(w, ExecPlain(w, c, d))
  {
    match c
    case FileInto(mailbox, copy) =>
      FileIntoRecords(w, d, mailbox, copy);
      RecordedOrSame(w, d, DoFileInto(w, d, mailbox, copy), FileIntoAction(w.mailbox(d, mailbox), copy));
    case Redirect(addr, copy, list) =>
      RedirectRecords(w, d, addr, copy, list);
      RecordedOrSame(w, d, DoRedirect(w, d, addr, copy, list), Redirection(w, d, addr, copy, list));
    case Pipe(program, args, copy, try_) =>
      PipeRecords(w, d, c);
      RecordedOrSame(w, d, DoPipe(w, d, program, args, copy, try_),
                     PipeAction(w.expand(d, program), ExpandAll(w, d, args), copy, try_));
  }

  lemma OtherLedger(w: World, c: Cmd, d: Core)
    requires IsPlain(c) && LedgerOk(w, d) && !(c.FileInto? || c.Redirect? || c.Pipe?)
    ensures EffectOk(w, ExecPlain(w, c, d))
  {
    match c
    case Keep => RecordedOrSame(w, d, DoKeep(w, d), KeepAction(false));
    case Discard => FinalLedger(w, d, DiscardAction);
    case Reject(reason) => FinalLedger(w, d, RejectAction(w.expand(d, reason)));
    case EReject(reason) => FinalLedger(w, d, ERejectAction(w.expand(d, reason)));
    case Notify(m) => RecordedOrSame(w, d, DoNotify(w, d, m), NotifyAction(w.expand(d, m)));
    case Set(name, value) => VariablesLedger(w, d, name, w.expand(d, value), []);
    case Global(names) => VariablesLedger(w, d, "", "", names);
    case _ =>
  }

  lemma PlainLedger(w: World, c: Cmd, d: Core)
    requires IsPlain(c) && LedgerOk(w, d)
    ensures EffectOk(w, ExecPlain(w, c, d))
  {
    if c.FileInto? || c.Redirect? || c.Pipe? {
      DeliveryLedger(w, c, d);
    } else {
      OtherLedger(w, c, d);
    }
  }

  // ----- over whole runs -----

  predicate LedgerStep(w: World, d: Core, d': Core, ok: bool) {
    ok && LedgerOk(w, d) ==> LedgerOk(w, d')
  }

  lemma LedgerIsKept(w: World) returns (rel: Relation)
    ensures Kept(w, Any, rel) && forall d, d', ok :: rel(d, d', ok) == LedgerStep(w, d, d', ok)
  {
    rel := (d, d', ok) => LedgerStep(w, d, d', ok);
    RepositoryAnyMay(w);
    forall c, d | IsPlain(c) ensures rel(d, ExecPlain(w, c, d).core, !ExecPlain(w, c, d).outcome.Failed?) {
      if LedgerOk(w, d) {
        PlainLedger(w, c, d);
      }
    }
    LedgerRelationIsKept(w, Any, rel);
  }

  /** Whatever runs, as long as it does not fail, the derived fields stay exact projections of the action list. */
  lemma {:induction false} RunKeepsLedger(w: World, cmds: seq<Cmd>, d: Core, flag: bool)
    requires LedgerOk(w, d)
    ensures var r := Block(w, cmds, d, flag); r.outcome.Failed? || LedgerOk(w, r.core)
  {
    var rel := LedgerIsKept(w);
    AnyMay(cmds);
    BlockKeeps(w, Any, rel, cmds, d, flag);
  }
}
