/** The include extension (RFC 6609) over whole runs. */
module Includes {
  import opened Mime
  import opened State
  import opened Commands
  import opened Interpreter
  import opened RunInduction

  predicate Distinct(s: seq<Key>) {
    forall i, j :: 0 <= i < j < |s| ==> s[i] != s[j]
  }

  /** Every call stack that was ever in use: keys distinct, at most MAX_DEPTH of them. */
  predicate StacksOk(d: Core) {
    && Distinct(d.stack) && |d.stack| <= MAX_DEPTH
    && forall i :: 0 <= i < |d.begun| ==>
         |d.begun[i].stack| < MAX_DEPTH && Distinct(d.begun[i].stack + [d.begun[i].key])
  }

  /** A key begun by :once is used up, or its script is still running in the frame that began it. */
  predicate Settled(d: Core, e: Inclusion) {
    || e.key in d.once
    || (|e.stack| < |d.stack| && d.stack[..|e.stack| + 1] == e.stack + [e.key])
  }

  predicate OnceOk(d: Core) {
    && (forall i :: 0 <= i < |d.begun| && d.begun[i].once ==> Settled(d, d.begun[i]))
    && (forall i, j :: 0 <= i < j < |d.begun| && d.begun[i].once && d.begun[j].once ==>
          d.begun[i].key != d.begun[j].key)
  }

  /** History only grows, and what a run begins, it begins above its own call stack. */
  predicate Above(d: Core, d': Core) {
    && d'.stack == d.stack && d.once <= d'.once && d.begun <= d'.begun
    && forall i :: |d.begun| <= i < |d'.begun| ==> d.stack <= d'.begun[i].stack
  }

  predicate IncludeStep(d: Core, d': Core) {
    StacksOk(d) && OnceOk(d) ==> Above(d, d') && StacksOk(d') && OnceOk(d')
  }

  lemma AboveChains(d: Core, d': Core, d'': Core)
    requires Above(d, d') && Above(d', d'')
    ensures Above(d, d'')
  {
    forall i | |d.begun| <= i < |d''.begun| ensures d.stack <= d''.begun[i].stack {
      if i < |d'.begun| {
        assert d''.begun[i] == d'.begun[i];
      }
    }
  }

  lemma CallOk(d: Core, key: Key, once: bool, script: Script)
    requires StacksOk(d) && OnceOk(d) && MayCall(d, key, once)
    ensures StacksOk(Call(d, key, once, script)) && OnceOk(Call(d, key, once, script))
  {
    var d' := Call(d, key, once, script);
    forall i | 0 <= i < |d.begun| && d.begun[i].once ensures Settled(d', d.begun[i]) {
      var e := d.begun[i];
      assert Settled(d, e);
      if e.key !in d.once {
        assert d'.stack[..|e.stack| + 1] == d.stack[..|e.stack| + 1];
      }
    }
    var e := d'.begun[|d.begun|];
    assert Settled(d', e) by {
      assert d'.stack[..|d.stack| + 1] == d.stack + [key];
    }
    if once {
      forall i | 0 <= i < |d.begun| && d.begun[i].once ensures d.begun[i].key != key {
        SettledKey(d, d.begun[i]);
      }
    }
  }

  lemma SettledKey(d: Core, e: Inclusion)
    requires Settled(d, e)
    ensures e.key in d.once || e.key in d.stack
  {
    if e.key !in d.once {
      assert d.stack[..|e.stack| + 1][|e.stack|] == e.key;
    }
  }

  lemma NotBelow(e: Inclusion, stack: seq<Key>, key: Key)
    requires stack + [key] <= e.stack && Distinct(e.stack + [e.key])
    ensures e.key != key
  {
    assert (e.stack + [e.key])[|stack|] == key;
    assert (e.stack + [e.key])[|e.stack|] == e.key;
  }

  /** A :once event of the finished frame's key is used up afterwards. */
  lemma EventSettles(d: Core, key: Key, once: bool, script: Script, inner: Core, i: nat)
    requires StacksOk(d) && OnceOk(d) && MayCall(d, key, once)
    requires Above(Call(d, key, once, script), inner) && StacksOk(inner) && OnceOk(inner)
    requires i < |inner.begun| && inner.begun[i].once
    ensures Settled(Resume(d, key, once, inner), inner.begun[i])
  {
    var e, d' := inner.begun[i], Resume(d, key, once, inner);
    var called := Call(d, key, once, script);
    assert Settled(inner, e);
    assert inner.stack == d.stack + [key] && d'.stack == d.stack;
    if i < |d.begun| {
      assert e == called.begun[i] == d.begun[i];
      SettledKey(d, e);
    } else if i == |d.begun| {
      assert e == called.begun[i];
    } else {
      NotBelow(e, d.stack, key);
    }
    if |e.stack| < |d.stack| {
      assert d'.stack[..|e.stack| + 1] == inner.stack[..|e.stack| + 1];
    } else if |e.stack| == |d.stack| {
      assert inner.stack[..|e.stack| + 1] == inner.stack;
    }
  }

  lemma ResumeOk(d: Core, key: Key, once: bool, script: Script, inner: Core)
    requires StacksOk(d) && OnceOk(d) && MayCall(d, key, once)
    requires Above(Call(d, key, once, script), inner) && StacksOk(inner) && OnceOk(inner)
    ensures var d' := Resume(d, key, once, inner); Above(d, d') && StacksOk(d') && OnceOk(d')
  {
    var d', called := Resume(d, key, once, inner), Call(d, key, once, script);
    assert d'.stack == d.stack;
    forall i | |d.begun| <= i < |d'.begun| ensures d.stack <= d'.begun[i].stack {
      if i == |d.begun| {
        assert d'.begun[i] == called.begun[i];
      } else {
        assert called.stack <= d'.begun[i].stack;
      }
    }
    forall i | 0 <= i < |d'.begun| && d'.begun[i].once ensures Settled(d', d'.begun[i]) {
      EventSettles(d, key, once, script, inner, i);
    }
  }

  lemma CallStep(d: Core, key: Key, once: bool, script: Script, inner: Core)
    requires MayCall(d, key, once) && IncludeStep(Call(d, key, once, script), inner)
    ensures IncludeStep(d, Resume(d, key, once, inner))
  {
    if StacksOk(d) && OnceOk(d) {
      CallOk(d, key, once, script);
      ResumeOk(d, key, once, script, inner);
    }
  }

  lemma ChainStep(d: Core, d': Core, d'': Core)
    requires IncludeStep(d, d') && IncludeStep(d', d'')
    ensures IncludeStep(d, d'')
  {
    if StacksOk(d) && OnceOk(d) {
      AboveChains(d, d', d'');
    }
  }

  lemma UntouchedStep(d: Core, d': Core)
    requires Untouched(d, d')
    ensures IncludeStep(d, d')
  {
    if StacksOk(d) && OnceOk(d) {
      forall i | 0 <= i < |d.begun| && d.begun[i].once ensures Settled(d', d.begun[i]) {
        assert Settled(d, d.begun[i]);
      }
    }
  }

  lemma LoopStep(d: Core, p: Address, inner: Core)
    requires IncludeStep(Enter(d, p), inner)
    ensures IncludeStep(d, Leave(inner))
  {
    if StacksOk(d) && OnceOk(d) {
      assert StacksOk(Enter(d, p));
      assert OnceOk(Enter(d, p)) by {
        forall i | 0 <= i < |d.begun| && d.begun[i].once ensures Settled(Enter(d, p), d.begun[i]) {
          assert Settled(d, d.begun[i]);
        }
      }
      forall i | 0 <= i < |inner.begun| && inner.begun[i].once ensures Settled(Leave(inner), inner.begun[i]) {
        assert Settled(inner, inner.begun[i]);
      }
    }
  }

  lemma MarkStep(d: Core, key: Key)
    ensures IncludeStep(d, d.(once := d.once + {key}))
  {
  }

  lemma IncludeIsKept(w: World) returns (rel: Relation)
    ensures Kept(w, Any, rel) && forall d, d', ok :: rel(d, d', ok) == IncludeStep(d, d')
  {
    rel := (d, d', ok) => IncludeStep(d, d');
    RepositoryAnyMay(w);
    assert Chains(rel) by {
      forall d, d', d'', ok | rel(d, d', true) && rel(d', d'', ok) ensures rel(d, d'', ok) {
        ChainStep(d, d', d'');
      }
    }
    assert KeptByPlain(w, Any, rel) by {
      forall c, d | IsPlain(c) ensures rel(d, ExecPlain(w, c, d).core, !ExecPlain(w, c, d).outcome.Failed?) {
        UntouchedStep(d, ExecPlain(w, c, d).core);
      }
      forall d: Core, mv ensures rel(d, d.(matchVars := mv), true) {
        UntouchedStep(d, d.(matchVars := mv));
      }
      forall d: Core, key ensures rel(d, d.(once := d.once + {key}), true) {
        MarkStep(d, key);
      }
    }
    forall d, p, inner, ok | rel(Enter(d, p), inner, ok) && SameStacks(Enter(d, p), inner)
      ensures rel(d, Leave(inner), ok)
    {
      LoopStep(d, p, inner);
    }
    forall d, key, once, script, inner, ok | MayCall(d, key, once) && rel(Call(d, key, once, script), inner, ok)
      ensures rel(d, Resume(d, key, once, inner), ok)
    {
      CallStep(d, key, once, script, inner);
    }
  }

  /** In every run over every repository, cyclic ones included, all call stacks are short and free of repetition. */
  lemma {:induction false} StacksStayShort(w: World, s: Script)
    ensures StacksOk(Block(w, s.cmds, Fresh(s), false).core)
  {
    var rel := IncludeIsKept(w);
    AnyMay(s.cmds);
    BlockKeeps(w, Any, rel, s.cmds, Fresh(s), false);
  }

  /** In every run at most one inclusion that :once began executes, for each script. */
  lemma {:induction false} OnceRunsAtMostOnce(w: World, s: Script)
    ensures var begun := Block(w, s.cmds, Fresh(s), false).core.begun;
            forall i, j :: 0 <= i < j < |begun| && begun[i].once && begun[j].once ==> begun[i].key != begun[j].key
  {
    var rel := IncludeIsKept(w);
    AnyMay(s.cmds);
    BlockKeeps(w, Any, rel, s.cmds, Fresh(s), false);
  }

  // ----- isolation -----

  /** What belongs to the running script alone. */
  predicate SameLocals(d: Core, d': Core) {
    && d'.script == d.script && d'.vars == d.vars && d'.globalDecls == d.globalDecls
    && d'.matchVars == d.matchVars && d'.stack == d.stack
  }

  /** What all scripts of a run share. */
  predicate SameShared(d: Core, d': Core) {
    && d'.globals == d.globals && d'.actions == d.actions && d'.mailboxes == d.mailboxes
    && d'.redirects == d.redirects && d'.keep == d.keep && d'.implicitKeep == d.implicitKeep
    && d'.piped == d.piped && d'.once == d.once && d'.parts == d.parts
    && d'.begun == d.begun && d'.visits == d.visits && d'.stack == d.stack
  }

  /** Whatever the included script does and however it ends, the caller finds its own fields as they were. */
  lemma {:induction false} IncludeRestoresCaller(w: World, c: Cmd, d: Core, flag: bool)
    requires c.Include?
    ensures SameLocals(d, Exec(w, c, d, flag).core)
  {
    ExecOfInclude(w, c, d, flag);
  }

  /** And the included script sees none of them: callers that differ only there get the same result. */
  lemma {:induction false} IncludeHidesCaller(w: World, c: Cmd, d1: Core, d2: Core, flag: bool)
    requires c.Include? && SameShared(d1, d2)
    ensures var r1, r2 := Exec(w, c, d1, flag), Exec(w, c, d2, flag);
            SameShared(r1.core, r2.core) && r1.outcome == r2.outcome && r1.flag == r2.flag
  {
    var key, admission := KeyOf(c.location, c.name), Admit(w, c, d1);
    assert Admit(w, c, d2) == admission;
    if admission.Start? {
      var script := admission.script;
      assert Call(d1, key, c.once, script) == Call(d2, key, c.once, script);
      ResumeShares(d1, d2, key, c.once, Block(w, script.cmds, Call(d1, key, c.once, script), flag).core);
    }
    ExecOfInclude(w, c, d1, flag);
    ExecOfInclude(w, c, d2, flag);
  }

  lemma {:induction false} ExecOfInclude(w: World, c: Cmd, d: Core, flag: bool)
    requires c.Include?
    ensures Exec(w, c, d, flag) == ExecInclude(w, c, d, flag)
  {
  }

  lemma ResumeShares(d1: Core, d2: Core, key: Key, once: bool, inner: Core)
    ensures SameShared(Resume(d1, key, once, inner), Resume(d2, key, once, inner))
  {
  }

  /** Return ends only the included script; stop, break and errors go on to the caller. */
  lemma {:induction false} ReturnEndsHere(w: World, c: Cmd, d: Core, flag: bool)
    requires c.Include?
    ensures !Exec(w, c, d, flag).outcome.Returned?
  {
    ExecOfInclude(w, c, d, flag);
  }
}
