/** The pipe command across loading and running: it checks its extension twice (interp/pipe.go). */
module LoadedPipes {
  import opened State
  import opened Commands
  import opened Interpreter
  import G = Guards

  /** A pipe as the loader sees it. */
  function PipeText(copy: bool): G.PCmd {
    G.Other([G.Need([PIPE_EXTENSION])] + (if copy then [G.Need(["copy"])] else []), true, G.NoBody)
  }

  /**
   * In a script that loaded, a pipe fails its second check exactly when no require names its extension. It then
   * fails and records nothing, with :try too; otherwise a :try pipe never fails.
   */
  lemma {:induction false} LoadedPipeFails(h: G.Host, text: seq<G.PCmd>, w: World, d: Core, program: string,
                                           args: seq<string>, copy: bool, try_: bool)
    requires G.Loaded(h, text).ok && d.script.extensions == G.Loaded(h, text).required
    ensures PIPE_EXTENSION !in G.RequiredByAll(h, text) ==> DoPipe(w, d, program, args, copy, try_) == Effect(d, Failed)
    ensures DoPipe(w, d, program, args, copy, true).outcome.Failed? <==> PIPE_EXTENSION !in G.RequiredByAll(h, text)
  {
    G.GuardsEndWithLoading(h, text, PIPE_EXTENSION);
  }

  /** require "ihave"; if ihave "vnd.yarilo.pipe" { pipe ..; } */
  const GUARDED_PIPE := [
    G.Require(["ihave"]),
    G.Cond(true, [G.Ihave([PIPE_EXTENSION])], G.Body([PipeText(false)]))
  ]

  /** This script loads, as RFC 5463 lets it, and fails whenever it runs. */
  lemma GuardedPipeLoadsAndFails(h: G.Host, w: World, test: TestName, program: string)
    requires h.supported("ihave") && G.Available(h, PIPE_EXTENSION)
    requires forall d :: w.check(test, d) == Answer(true, [])
    ensures var l := G.Loaded(h, GUARDED_PIPE);
            var s := Script([If(test, [Pipe(program, [], false, false)])], l.required);
            l.ok && PIPE_EXTENSION in l.used && !Execute(w, s, Fresh(s), false).ok
  {
    GuardedPipeLoads(h);
    var l := G.Loaded(h, GUARDED_PIPE);
    var c := Pipe(program, [], false, false);
    var s := Script([If(test, [c])], l.required);
    assert PIPE_EXTENSION !in l.required;
    ConditionalPipeFails(w, test, c, Fresh(s));
    assert s.cmds == [If(test, [c])];
  }

  lemma {:induction false} ConditionalPipeFails(w: World, test: TestName, c: Cmd, d: Core)
    requires c.Pipe? && PIPE_EXTENSION !in d.script.extensions && w.check(test, d) == Answer(true, [])
    ensures Block(w, [If(test, [c])], d, false).outcome == Failed
  {
    var d' := d.(matchVars := []);
    assert ExecPlain(w, c, d') == Effect(d', Failed);
    assert Block(w, [c], d', false) == Exec(w, c, d', false) == Run(d', false, Failed);
    assert Conditional(w, test, [c], d, false) == Run(d', false, Failed);
    assert Exec(w, If(test, [c]), d, false) == Conditional(w, test, [c], d, false);
  }

  lemma GuardedPipeLoads(h: G.Host)
    requires h.supported("ihave") && G.Available(h, PIPE_EXTENSION)
    ensures G.Loaded(h, GUARDED_PIPE) == G.Loading(true, {"ihave"}, {PIPE_EXTENSION}, {"ihave", PIPE_EXTENSION})
  {
    var start := G.Loading(true, {}, {}, {});
    var guard := GUARDED_PIPE[1];
    var required := G.Loading(true, {"ihave"}, {}, {});
    RequireIhave(h);
    assert GUARDED_PIPE[1..] == [guard] && [guard][1..] == [];
    GuardLoads(h);
    assert G.ScopedBlock(h, {}, required, [guard]) == G.ScopedCmd(h, {}, required, guard);
  }

  lemma {:induction false} RequireIhave(h: G.Host)
    requires h.supported("ihave")
    ensures G.ScopedCmd(h, {}, G.Loading(true, {}, {}, {}), GUARDED_PIPE[0]) == G.Loading(true, {"ihave"}, {}, {})
  {
    assert ["ihave"][1..] == [];
    assert {} + G.Required("ihave") == {"ihave"};
  }

  lemma {:induction false} GuardLoads(h: G.Host)
    requires G.Available(h, PIPE_EXTENSION)
    ensures G.ScopedCmd(h, {}, G.Loading(true, {"ihave"}, {}, {}), GUARDED_PIPE[1])
         == G.Loading(true, {"ihave"}, {PIPE_EXTENSION}, {"ihave", PIPE_EXTENSION})
  {
    var c := GUARDED_PIPE[1];
    var scope := {} + G.Names([PIPE_EXTENSION]);
    var l := G.Loading(true, {"ihave"}, {}, {"ihave"});
    assert [PIPE_EXTENSION][0] in scope;
    assert G.ScopedTest({}, G.Loading(true, {"ihave"}, {}, {}), c.tests[0]) == l by {
      assert {} + {"ihave"} == {"ihave"};
    }
    assert G.Have(h, [PIPE_EXTENSION]) && G.IsGuard(c);
    BodyLoads(h, scope, l);
    assert G.ScopedSpec(h, scope, l, c) == G.Loading(true, {"ihave"}, {PIPE_EXTENSION}, {"ihave", PIPE_EXTENSION});
  }

  lemma {:induction false} BodyLoads(h: G.Host, scope: set<string>, l: G.Loading)
    requires PIPE_EXTENSION in scope && l == G.Loading(true, {"ihave"}, {}, {"ihave"})
    ensures G.ScopedSpec(h, scope, l, GUARDED_PIPE[1])
         == G.Loading(true, {"ihave"}, {PIPE_EXTENSION}, {"ihave", PIPE_EXTENSION})
  {
    var c := GUARDED_PIPE[1];
    assert c.tests[1..] == [] && l.granted + {"ihave"} == l.granted;
    assert G.ScopedTests(scope, l, c.tests) == G.ScopedTest(scope, l, c.tests[0]) == l;
    PipeLoads(scope, l);
    assert {} + {PIPE_EXTENSION} == {PIPE_EXTENSION};
    assert c.body.cmds == [PipeText(false)] && [PipeText(false)][1..] == [];
    assert G.ScopedBlock(h, scope, l, [PipeText(false)]) == G.ScopedCmd(h, scope, l, PipeText(false));
  }

  lemma {:induction false} PipeLoads(scope: set<string>, l: G.Loading)
    requires l.ok && PIPE_EXTENSION in scope && PIPE_EXTENSION !in l.required
    ensures G.CheckAll(scope, l, PipeText(false).uses)
         == l.(used := l.used + {PIPE_EXTENSION}, granted := l.granted + {PIPE_EXTENSION})
  {
    assert PipeText(false).uses == [G.Need([PIPE_EXTENSION])];
    assert [G.Need([PIPE_EXTENSION])][1..] == [];
  }
}
