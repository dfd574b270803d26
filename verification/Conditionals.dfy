/**
 * Section 3.1 of RFC 5228: of each if / elsif / else chain exactly the first branch whose test holds runs.
 * The interpreter's one shared flag implements this for every well-formed script.
 */
module Conditionals {
  import opened Mime
  import opened State
  import opened Commands
  import opened Interpreter

  // ----- chains -----

  predicate Continues(c: Cmd) {
    c.Elsif? || c.Else?
  }

  /** `open`: an elsif or else may come next. */
  predicate WellFormed(cmds: seq<Cmd>, open: bool) {
    if cmds == [] then true
    else
      && (Continues(cmds[0]) ==> open)
      && (cmds[0].If? || Continues(cmds[0]) || cmds[0].ForEveryPart? ==> WellFormed(cmds[0].block, false))
      && WellFormed(cmds[1..], cmds[0].If? || cmds[0].Elsif?)
  }

  ghost predicate RepositoryWellFormed(w: World) {
    forall location, name :: w.load(location, name).Found? ==> WellFormed(w.load(location, name).script.cmds, false)
  }

  /** How many commands at the front still belong to a chain whose branch has been taken. */
  function ChainLength(cmds: seq<Cmd>): (n: nat)
    ensures n <= |cmds|
  {
    if cmds == [] then 0
    else if cmds[0].Elsif? then 1 + ChainLength(cmds[1..])
    else if cmds[0].Else? then 1
    else 0
  }

  // ----- the structured semantics: no flag -----

  datatype SRun = SRun(core: Core, outcome: Outcome)

  function SBlock(w: World, cmds: seq<Cmd>, d: Core): (r: SRun)
    ensures SameStacks(d, r.core)
    decreases Room(d), cmds, 1, 0
  {
    if cmds == [] then SRun(d, Normal)
    else if cmds[0].If? then SChain(w, cmds, d)
    else
      var r := if Continues(cmds[0]) then SRun(d, Normal) else SExec(w, cmds[0], d);
      if r.outcome.Normal? then SBlock(w, cmds[1..], r.core) else r
  }

  /** The branches from cmds[0] on, none taken yet, and the commands after the chain. */
  function SChain(w: World, cmds: seq<Cmd>, d: Core): (r: SRun)
    requires cmds != [] && (cmds[0].If? || Continues(cmds[0]))
    ensures SameStacks(d, r.core)
    decreases Room(d), cmds, 0, 0
  {
    if cmds[0].Else? then
      var r := SBlock(w, cmds[0].block, d);
      if r.outcome.Normal? then SBlock(w, cmds[1..], r.core) else r
    else
      match w.check(cmds[0].test, d)
      case TestError => SRun(d, Failed)
      case Answer(holds, mv) =>
        var d' := d.(matchVars := mv);
        if holds then
          var r := SBlock(w, cmds[0].block, d');
          if r.outcome.Normal? then SBlock(w, cmds[1 + ChainLength(cmds[1..])..], r.core) else r
        else if |cmds| > 1 && Continues(cmds[1]) then SChain(w, cmds[1..], d')
        else SBlock(w, cmds[1..], d')
  }

  function SExec(w: World, c: Cmd, d: Core): (r: SRun)
    requires !c.If? && !Continues(c)
    ensures SameStacks(d, r.core)
    decreases Room(d), c, 1, 0
  {
    if IsPlain(c) then SRun(ExecPlain(w, c, d).core, ExecPlain(w, c, d).outcome)
    else if c.Include? then
      match Admit(w, c, d)
      case Answered(outcome) => SRun(d, outcome)
      case MarkUsed => SRun(d.(once := d.once + {KeyOf(c.location, c.name)}), Normal)
      case Start(script) =>
        var key := KeyOf(c.location, c.name);
        var r := SBlock(w, script.cmds, Call(d, key, c.once, script));
        SRun(Resume(d, key, c.once, r.core), AfterInclude(r.outcome))
    else
      match w.message
      case NoTree => SRun(d, Normal)
      case TreeError => SRun(d, Failed)
      case Tree(root) => SLoop(w, c.name, c.block, LoopParts(root, d.parts), d)
  }

  function SLoop(w: World, name: string, block: seq<Cmd>, parts: seq<Address>, d: Core): (r: SRun)
    ensures SameStacks(d, r.core)
    decreases Room(d), block, 2, |parts|
  {
    if parts == [] then SRun(d, Normal)
    else
      var r := SBlock(w, block, Enter(d, parts[0]));
      match r.outcome
      case Normal => SLoop(w, name, block, parts[1..], Leave(r.core))
      case Broke(n) => SRun(Leave(r.core), if n == "" || n == name then Normal else r.outcome)
      case _ => SRun(Leave(r.core), r.outcome)
  }

  // ----- refinement -----

  predicate Same(r: Run, s: SRun) {
    r.core == s.core && r.outcome == s.outcome
  }

  /** Blocks outside any chain: whatever the flag was, the machine does what the structured semantics says. */
  lemma {:induction false} BlockRefines(w: World, cmds: seq<Cmd>, d: Core, flag: bool)
    requires WellFormed(cmds, false) && RepositoryWellFormed(w)
    ensures Same(Block(w, cmds, d, flag), SBlock(w, cmds, d))
    decreases Room(d), cmds, 2, 0
  {
    if cmds == [] {
    } else if cmds[0].If? {
      ChainRefines(w, cmds, d, flag);
    } else {
      ExecRefines(w, cmds[0], d, flag);
      var r := Exec(w, cmds[0], d, flag);
      if r.outcome.Normal? {
        BlockRefines(w, cmds[1..], r.core, r.flag);
      }
    }
  }

  /** After an if or elsif that did not hold, or at the head of a chain. */
  lemma {:induction false} ChainRefines(w: World, cmds: seq<Cmd>, d: Core, flag: bool)
    requires WellFormed(cmds, true) && RepositoryWellFormed(w)
    requires cmds != [] && (cmds[0].If? || (Continues(cmds[0]) && !flag))
    ensures Same(Block(w, cmds, d, flag), SChain(w, cmds, d))
    decreases Room(d), cmds, 1, 0
  {
    if cmds[0].Else? {
      BlockRefines(w, cmds[0].block, d, flag);
      var r := Block(w, cmds[0].block, d, flag);
      if r.outcome.Normal? {
        BlockRefines(w, cmds[1..], r.core, r.flag);
      }
    } else {
      BranchUnfolds(w, cmds, d, flag);
      var a := w.check(cmds[0].test, d);
      if a.Answer? {
        var d' := d.(matchVars := a.matchVars);
        if a.holds {
          BlockRefines(w, cmds[0].block, d', flag);
          var r := Block(w, cmds[0].block, d', flag);
          if r.outcome.Normal? {
            TakenChainIsSkipped(w, cmds, r.core);
          }
        } else {
          TailRefines(w, cmds, d');
        }
      }
    }
  }

  lemma {:induction false} BranchUnfolds(w: World, cmds: seq<Cmd>, d: Core, flag: bool)
    requires cmds != [] && (cmds[0].If? || (cmds[0].Elsif? && !flag))
    ensures var r := Conditional(w, cmds[0].test, cmds[0].block, d, flag);
            Block(w, cmds, d, flag) == if r.outcome.Normal? then Block(w, cmds[1..], r.core, r.flag) else r
  {
    assert Exec(w, cmds[0], d, flag) == Conditional(w, cmds[0].test, cmds[0].block, d, flag);
  }

  /** The commands after a branch that did not hold, with the flag down. */
  lemma {:induction false} TailRefines(w: World, cmds: seq<Cmd>, d: Core)
    requires WellFormed(cmds, true) && RepositoryWellFormed(w)
    requires cmds != [] && (cmds[0].If? || cmds[0].Elsif?)
    ensures |cmds| > 1 && Continues(cmds[1]) ==> Same(Block(w, cmds[1..], d, false), SChain(w, cmds[1..], d))
    ensures !(|cmds| > 1 && Continues(cmds[1])) ==> Same(Block(w, cmds[1..], d, false), SBlock(w, cmds[1..], d))
    decreases Room(d), cmds, 0, 0
  {
    if |cmds| > 1 && Continues(cmds[1]) {
      ChainRefines(w, cmds[1..], d, false);
    } else {
      BlockRefines(w, cmds[1..], d, false);
    }
  }

  /** After a branch that ran, with the flag up: the rest of its chain does nothing. */
  lemma {:induction false} TakenChainIsSkipped(w: World, cmds: seq<Cmd>, d: Core)
    requires WellFormed(cmds, true) && RepositoryWellFormed(w)
    requires cmds != [] && (cmds[0].If? || cmds[0].Elsif?)
    ensures Same(Block(w, cmds[1..], d, true), SBlock(w, cmds[1 + ChainLength(cmds[1..])..], d))
    decreases Room(d), cmds, 0, 0
  {
    var n := ChainLength(cmds[1..]);
    ChainSkipped(w, cmds[1..], d);
    assert cmds[1..][n..] == cmds[1 + n..];
    BlockRefines(w, cmds[1 + n..], d, true);
  }

  lemma {:induction false} ChainSkipped(w: World, cmds: seq<Cmd>, d: Core)
    requires WellFormed(cmds, true)
    ensures Block(w, cmds, d, true) == Block(w, cmds[ChainLength(cmds)..], d, true)
    ensures WellFormed(cmds[ChainLength(cmds)..], false)
    decreases |cmds|
  {
    if cmds != [] && cmds[0].Elsif? {
      ChainSkipped(w, cmds[1..], d);
      assert cmds[1..][ChainLength(cmds[1..])..] == cmds[ChainLength(cmds)..];
    } else if cmds == [] || !cmds[0].Else? {
      assert cmds[0..] == cmds;
    }
  }

  lemma {:induction false} ExecRefines(w: World, c: Cmd, d: Core, flag: bool)
    requires !c.If? && !Continues(c) && WellFormed([c], false) && RepositoryWellFormed(w)
    ensures Same(Exec(w, c, d, flag), SExec(w, c, d))
    decreases Room(d), c, 1, 0
  {
    if c.Include? {
      IncludeRefines(w, c, d, flag);
    } else if c.ForEveryPart? && w.message.Tree? {
      LoopRefines(w, c.name, c.block, LoopParts(w.message.root, d.parts), d, flag);
    }
  }

  lemma {:induction false} IncludeRefines(w: World, c: Cmd, d: Core, flag: bool)
    requires c.Include? && RepositoryWellFormed(w)
    ensures Same(ExecInclude(w, c, d, flag), SExec(w, c, d))
    decreases Room(d), c, 0, 0
  {
    var key, admission := KeyOf(c.location, c.name), Admit(w, c, d);
    if admission.Start? {
      assert w.load(c.location, c.name) == Found(admission.script);
      BlockRefines(w, admission.script.cmds, Call(d, key, c.once, admission.script), flag);
    }
  }

  lemma {:induction false} LoopRefines(w: World, name: string, block: seq<Cmd>, parts: seq<Address>,
                                       d: Core, flag: bool)
    requires WellFormed(block, false) && RepositoryWellFormed(w)
    ensures Same(Loop(w, name, block, parts, d, flag), SLoop(w, name, block, parts, d))
    decreases Room(d), block, 3, |parts|
  {
    if parts != [] {
      BlockRefines(w, block, Enter(d, parts[0]), flag);
      var r := Block(w, block, Enter(d, parts[0]), flag);
      if r.outcome.Normal? {
        LoopRefines(w, name, block, parts[1..], Leave(r.core), r.flag);
      }
    }
  }

  // ----- chains without an if, which the loader accepts -----

  lemma {:induction false} StructuredSkips(w: World, cmds: seq<Cmd>, d: Core)
    ensures SBlock(w, cmds, d) == SBlock(w, cmds[ChainLength(cmds)..], d)
    decreases |cmds|
  {
    if cmds != [] && cmds[0].Elsif? {
      StructuredSkips(w, cmds[1..], d);
      assert cmds[1..][ChainLength(cmds[1..])..] == cmds[ChainLength(cmds)..];
    } else if cmds == [] || !cmds[0].Else? {
      assert cmds[0..] == cmds;
    }
  }

  /**
   * A block that starts with elsif or else goes by the flag some finished chain left: up, the branches are skipped,
   * as the structured semantics does; down, they run. So it agrees exactly when the flag is up or running them
   * makes no difference.
   */
  lemma {:induction false} LeadingBranchesGoByStaleFlag(w: World, cmds: seq<Cmd>, d: Core, flag: bool)
    requires cmds != [] && Continues(cmds[0]) && WellFormed(cmds, true) && RepositoryWellFormed(w)
    ensures Same(Block(w, cmds, d, flag), if flag then SBlock(w, cmds, d) else SChain(w, cmds, d))
    ensures Same(Block(w, cmds, d, flag), SBlock(w, cmds, d)) <==> flag || SChain(w, cmds, d) == SBlock(w, cmds, d)
  {
    if flag {
      ChainSkipped(w, cmds, d);
      StructuredSkips(w, cmds, d);
      BlockRefines(w, cmds[ChainLength(cmds)..], d, true);
    } else {
      ChainRefines(w, cmds, d, false);
    }
  }

  /** The script of one bare else: the machine keeps the message, the structured semantics does nothing. */
  lemma {:induction false} BareElseIsNotRefined(w: World)
    ensures var s := Script([Else([Keep])], {});
            && Block(w, s.cmds, Fresh(s), false).core.actions == [KeepAction(false)]
            && !Same(Block(w, s.cmds, Fresh(s), false), SBlock(w, s.cmds, Fresh(s)))
  {
    var s := Script([Else([Keep])], {});
    var d := Fresh(s);
    assert s.cmds[1..] == [] && [Keep][1..] == [];
    assert SBlock(w, s.cmds, d) == SBlock(w, [], d) == SRun(d, Normal);
    assert Block(w, [Keep], d, false) == Exec(w, Keep, d, false);
    assert Block(w, s.cmds, d, false) == Exec(w, s.cmds[0], d, false);
    assert Exec(w, Keep, d, false).core.actions == [] + [KeepAction(false)];
  }
}
