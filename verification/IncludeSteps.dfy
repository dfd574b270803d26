/** What an include command does, case by case: when its script runs, in which state, and what else it answers. */
module IncludeSteps {
  import opened Mime
  import opened State
  import opened Commands
  import opened Interpreter
  import opened RunInduction

  /** The name an inclusion goes by. */
  function ScriptKey(c: Cmd): Key
    requires c.Include?
  {
    c.location + ":" + c.name
  }

  predicate UsedUp(c: Cmd, d: Core)
    requires c.Include?
  {
    c.once && ScriptKey(c) in d.once
  }

  predicate IsPending(c: Cmd, d: Core)
    requires c.Include?
  {
    ScriptKey(c) in d.stack
  }

  predicate KnownLocation(c: Cmd)
    requires c.Include?
  {
    c.location == "personal" || c.location == "global"
  }

  /** Nothing stands in the way of looking the script up. */
  predicate MayLoad(w: World, c: Cmd, d: Core)
    requires c.Include?
  {
    w.hasLoader && !UsedUp(c, d) && !IsPending(c, d) && |d.stack| < 4 && KnownLocation(c)
  }

  predicate Begins(w: World, c: Cmd, d: Core)
    requires c.Include?
  {
    MayLoad(w, c, d) && w.load(c.location, c.name).Found?
  }

  /** The run of the included script: locals of its own, its key pushed, everything else shared. */
  function Inner(w: World, c: Cmd, d: Core, flag: bool): Run
    requires c.Include? && Begins(w, c, d)
  {
    var script := w.load(c.location, c.name).script;
    Block(w, script.cmds,
          d.(script := script, vars := map[], globalDecls := {}, matchVars := [], stack := d.stack + [ScriptKey(c)],
             begun := d.begun + [Inclusion(ScriptKey(c), c.once, d.stack)]),
          flag)
  }

  /**
   * When the script runs, the caller ends up with what that run made of the shared state, its own locals as they
   * were, and the run's outcome, a return aside.
   */
  lemma {:induction false} BegunIncludeRuns(w: World, c: Cmd, d: Core, flag: bool)
    requires c.Include? && Begins(w, c, d)
    ensures var r, inner := Exec(w, c, d, flag), Inner(w, c, d, flag);
            && r.core == inner.core.(script := d.script, vars := d.vars, globalDecls := d.globalDecls,
                                     matchVars := d.matchVars, stack := d.stack,
                                     once := if c.once then inner.core.once + {ScriptKey(c)} else inner.core.once)
            && r.flag == inner.flag
            && r.outcome == if inner.outcome.Returned? then Normal else inner.outcome
  {
    var key := ScriptKey(c);
    assert (d.stack + [key])[..|d.stack|] == d.stack;
  }

  /** In every other case no script runs, and this is the answer. */
  function Answer(w: World, c: Cmd, d: Core): Outcome
    requires c.Include? && !Begins(w, c, d)
  {
    if !w.hasLoader then Failed
    else if UsedUp(c, d) then Normal
    else if IsPending(c, d) then if c.once then Normal else Failed
    else if |d.stack| >= 4 || !KnownLocation(c) then Failed
    else if w.load(c.location, c.name).Missing? && c.optional then Normal
    else Failed
  }

  /** Nothing changes, but a script that asks for itself with :once has been used. */
  lemma {:induction false} OtherIncludeAnswers(w: World, c: Cmd, d: Core, flag: bool)
    requires c.Include? && !Begins(w, c, d)
    ensures var marked := w.hasLoader && c.once && !UsedUp(c, d) && IsPending(c, d);
            Exec(w, c, d, flag)
            == Run(if marked then d.(once := d.once + {ScriptKey(c)}) else d, flag, Answer(w, c, d))
  {
  }

  // ----- the record of it -----

  predicate HistoryGrows(d: Core, d': Core) {
    d.begun <= d'.begun
  }

  lemma HistoryIsKept(w: World) returns (rel: Relation)
    ensures Kept(w, Any, rel) && forall d, d', ok :: rel(d, d', ok) == HistoryGrows(d, d')
  {
    rel := (d, d', ok) => HistoryGrows(d, d');
    RepositoryAnyMay(w);
    assert Chains(rel);
    assert KeptByPlain(w, Any, rel) by {
      forall c, d | IsPlain(c) ensures rel(d, ExecPlain(w, c, d).core, !ExecPlain(w, c, d).outcome.Failed?) {
        assert Untouched(d, ExecPlain(w, c, d).core);
      }
    }
    forall d, p, inner, ok | rel(Enter(d, p), inner, ok) ensures rel(d, Leave(inner), ok) {
      assert HistoryGrows(Enter(d, p), inner);
    }
    forall d, key, once, script, inner, ok | rel(Call(d, key, once, script), inner, ok)
      ensures rel(d, Resume(d, key, once, inner), ok)
    {
      assert HistoryGrows(Call(d, key, once, script), inner);
    }
  }

  lemma {:induction false} BlockHistory(w: World, cmds: seq<Cmd>, d: Core, flag: bool)
    ensures d.begun <= Block(w, cmds, d, flag).core.begun
  {
    var rel := HistoryIsKept(w);
    AnyMay(cmds);
    BlockKeeps(w, Any, rel, cmds, d, flag);
  }

  /** An inclusion is on record after the command exactly when its script began to run. */
  lemma {:induction false} RecordedExactlyWhenBegun(w: World, c: Cmd, d: Core, flag: bool)
    requires c.Include?
    ensures var begun := Exec(w, c, d, flag).core.begun;
            Begins(w, c, d) <==> d.begun + [Inclusion(ScriptKey(c), c.once, d.stack)] <= begun
  {
    var e := Inclusion(ScriptKey(c), c.once, d.stack);
    if Begins(w, c, d) {
      var script := w.load(c.location, c.name).script;
      BegunIncludeRuns(w, c, d, flag);
      BlockHistory(w, script.cmds,
                   d.(script := script, vars := map[], globalDecls := {}, matchVars := [],
                      stack := d.stack + [ScriptKey(c)], begun := d.begun + [e]),
                   flag);
    } else {
      OtherIncludeAnswers(w, c, d, flag);
      assert |d.begun + [e]| == |d.begun| + 1;
    }
  }
}
