/** No mail is lost: what Script.Execute leaves in the action list. */
module Delivery {
  import opened State
  import opened Commands
  import opened Interpreter
  import opened RunInduction
  import opened Ledger

  lemma FreshLedger(w: World, s: Script)
    ensures LedgerOk(w, Fresh(s))
  {
  }

  /** After a run that did not fail, the implicit keep is still due exactly when nothing cancelled it. */
  lemma DueMeansUncancelled(w: World, d: Core)
    requires LedgerOk(w, d)
    ensures d.implicitKeep && !Cancelled(d.actions) <==> !Cancelled(d.actions)
  {
    if !d.implicitKeep {
      var i :| 0 <= i < |d.actions| && Replaces(d.actions[i]);
      assert CancelsKeep(d.actions[i]);
    }
  }

  predicate HasImplicitKeep(actions: seq<Action>) {
    exists i :: 0 <= i < |actions| && actions[i].KeepAction? && actions[i].implicit
  }

  /**
   * A run to its end adds an implicit keep, last and once, exactly when no action before it cancels one;
   * so something always takes responsibility for the message.
   */
  lemma {:induction false} NormalRunsDeliver(w: World, s: Script)
    requires Block(w, s.cmds, Fresh(s), false).outcome.Normal?
    ensures var before := Block(w, s.cmds, Fresh(s), false).core.actions;
            var after := Execute(w, s, Fresh(s), false).core.actions;
            && !HasImplicitKeep(before)
            && after == (if Cancelled(before) then before else before + [KeepAction(true)])
            && Cancelled(after)
  {
    FreshLedger(w, s);
    RunKeepsLedger(w, s.cmds, Fresh(s), false);
    var d := Block(w, s.cmds, Fresh(s), false).core;
    DueMeansUncancelled(w, d);
    var after := Execute(w, s, Fresh(s), false).core.actions;
    if !Cancelled(d.actions) {
      assert CancelsKeep(after[|d.actions|]);
    }
  }

  /** Whether a successful Execute left nobody responsible for the message. */
  predicate Lost(w: World, s: Script) {
    !Cancelled(Execute(w, s, Fresh(s), false).core.actions)
  }

  /** What a successful Execute lost, stop or return cut short before any cancelling action. */
  lemma {:induction false} SuccessDeliversUnlessStopped(w: World, s: Script)
    requires Execute(w, s, Fresh(s), false).ok
    ensures var r := Block(w, s.cmds, Fresh(s), false);
            Lost(w, s) <==> (r.outcome.Stopped? || r.outcome.Returned?) && !Cancelled(r.core.actions)
  {
    var r := Block(w, s.cmds, Fresh(s), false);
    if r.outcome.Normal? {
      NormalRunsDeliver(w, s);
    }
  }

  /** Section 3.3 of RFC 5228 keeps the message when a script stops; here a lone stop applies no action at all. */
  lemma StopAloneLosesMail(w: World)
    ensures var s := Script([Stop], {});
            Execute(w, s, Fresh(s), false).ok && Execute(w, s, Fresh(s), false).core.actions == []
  {
    var s := Script([Stop], {});
    assert Block(w, s.cmds, Fresh(s), false) == Exec(w, Stop, Fresh(s), false);
  }

  // ----- the action limit -----

  predicate NoTry(c: Cmd) {
    c.Pipe? ==> !c.try_
  }

  predicate NoTryActions(actions: seq<Action>) {
    forall i :: 0 <= i < |actions| ==> !IsTryPipe(actions[i])
  }

  predicate TryStep(d: Core, d': Core) {
    NoTryActions(d.actions) ==> NoTryActions(d'.actions)
  }

  lemma PlainTry(w: World, c: Cmd, d: Core)
    requires IsPlain(c) && NoTry(c)
    ensures TryStep(d, ExecPlain(w, c, d).core)
  {
    PlainAppends(w, c, d);
  }

  lemma TryIsKept(w: World) returns (rel: Relation)
    requires RepositoryMay(w, NoTry)
    ensures Kept(w, NoTry, rel) && forall d, d', ok :: rel(d, d', ok) == TryStep(d, d')
  {
    rel := (d, d', ok) => TryStep(d, d');
    forall c, d | IsPlain(c) && NoTry(c)
      ensures rel(d, ExecPlain(w, c, d).core, !ExecPlain(w, c, d).outcome.Failed?)
    {
      PlainTry(w, c, d);
    }
    LedgerRelationIsKept(w, NoTry, rel);
  }

  /** Without `pipe :try` in the script or the repository, a run that does not fail stays within a set limit. */
  lemma {:induction false} BlockWithinLimit(w: World, s: Script)
    requires AllMay(s.cmds, NoTry) && RepositoryMay(w, NoTry) && w.maxActions > 0
    ensures var r := Block(w, s.cmds, Fresh(s), false); r.outcome.Failed? || |r.core.actions| <= w.maxActions
  {
    var actions := Block(w, s.cmds, Fresh(s), false).core.actions;
    var first := if w.maxActions < |actions| then actions[w.maxActions] else DiscardAction;
    var rel := TryIsKept(w);
    BlockKeeps(w, NoTry, rel, s.cmds, Fresh(s), false);
    FreshLedger(w, s);
    RunKeepsLedger(w, s.cmds, Fresh(s), false);
  }

  /** So does a whole Execute that succeeds, the implicit keep included. */
  lemma LimitHoldsWithoutTry(w: World, s: Script)
    requires AllMay(s.cmds, NoTry) && RepositoryMay(w, NoTry) && w.maxActions > 0
    ensures var r := Execute(w, s, Fresh(s), false); r.ok ==> |r.core.actions| <= w.maxActions
  {
    BlockWithinLimit(w, s);
  }

  /** With it the limit does not hold: a :try pipe after a discard stays recorded under a limit of one. */
  lemma TryPipeExceedsLimit(w: World, name: string)
    requires w.maxActions == 1 && w.programOk(name)
    requires forall d, s :: w.expand(d, s) == s
    ensures var s := Script([Discard, Pipe(name, [], false, true)], {PIPE_EXTENSION});
            var r := Execute(w, s, Fresh(s), false);
            r.ok && r.core.actions == [DiscardAction, PipeAction(name, [], false, true)]
  {
    var s := Script([Discard, Pipe(name, [], false, true)], {PIPE_EXTENSION});
    var e := DoFinal(w, Fresh(s), DiscardAction);
    assert e.core.actions == [DiscardAction] && e.outcome.Normal?;
    var f := DoPipe(w, e.core, name, [], false, true);
    assert f.core.actions == [DiscardAction, PipeAction(name, [], false, true)] && f.outcome.Normal?;
    BlockOfTwo(w, s.cmds[0], s.cmds[1], Fresh(s));
    assert CancelsKeep(f.core.actions[0]);
  }

  lemma {:induction false} BlockOfTwo(w: World, a: Cmd, b: Cmd, d: Core)
    requires IsPlain(a) && IsPlain(b) && ExecPlain(w, a, d).outcome.Normal?
    ensures var e := ExecPlain(w, b, ExecPlain(w, a, d).core);
            Block(w, [a, b], d, false) == Run(e.core, false, e.outcome)
  {
    assert [a, b][1..] == [b] && [b][1..] == [];
    assert Block(w, [b], ExecPlain(w, a, d).core, false) == Exec(w, b, ExecPlain(w, a, d).core, false);
  }
}
