/** Which script texts can lose the message: stop and return skip the implicit keep. */
module Stops {
  import opened Mime
  import opened State
  import opened Commands
  import opened Interpreter
  import opened RunInduction
  import opened Delivery

  // ----- texts that always deliver -----

  predicate NoStop(c: Cmd) {
    !c.Stop?
  }

  predicate NoReturn(c: Cmd) {
    !c.Return?
  }

  /** The outcomes left to a text without stop, and those left to one without return as well. */
  predicate Ends(o: Outcome, noReturn: bool) {
    !o.Stopped? && (noReturn ==> !o.Returned?)
  }

  lemma PlainEnds(w: World, c: Cmd, d: Core)
    requires IsPlain(c) && !c.Stop?
    ensures Ends(ExecPlain(w, c, d).outcome, !c.Return?)
  {
    if c.Global? {
      DeclareEnds(w, d, c.names);
    }
  }

  lemma {:induction false} DeclareEnds(w: World, d: Core, names: seq<string>)
    ensures Ends(Declare(w, d, names).outcome, true)
    decreases |names|
  {
    if names != [] && '.' !in names[0] {
      DeclareEnds(w, d.(globalDecls := d.globalDecls + {w.lower(names[0])}), names[1..]);
    }
  }

  lemma {:induction false} ExecEnds(w: World, c: Cmd, d: Core, flag: bool)
    requires RepositoryMay(w, NoStop) && May(c, NoStop)
    ensures Ends(Exec(w, c, d, flag).outcome, May(c, NoReturn))
    decreases Room(d), c, 1, 0
  {
    if IsPlain(c) {
      PlainEnds(w, c, d);
    } else {
      match c
      case If(test, block) => ConditionalEnds(w, test, block, d, flag);
      case Elsif(test, block) => ConditionalEnds(w, test, block, d, flag);
      case Else(block) => BlockEnds(w, block, d, flag);
      case Include(_, _, _, _) => IncludeEnds(w, c, d, flag);
      case ForEveryPart(name, block) =>
        if w.message.Tree? {
          LoopEnds(w, name, block, LoopParts(w.message.root, d.parts), d, flag);
        }
    }
  }

  lemma {:induction false} ConditionalEnds(w: World, test: TestName, block: seq<Cmd>, d: Core, flag: bool)
    requires RepositoryMay(w, NoStop) && AllMay(block, NoStop)
    ensures Ends(Conditional(w, test, block, d, flag).outcome, AllMay(block, NoReturn))
    decreases Room(d), block, 1, 0
  {
    var a := w.check(test, d);
    if a.Answer? && a.holds {
      BlockEnds(w, block, d.(matchVars := a.matchVars), flag);
    }
  }

  lemma {:induction false} BlockEnds(w: World, cmds: seq<Cmd>, d: Core, flag: bool)
    requires RepositoryMay(w, NoStop) && AllMay(cmds, NoStop)
    ensures Ends(Block(w, cmds, d, flag).outcome, AllMay(cmds, NoReturn))
    decreases Room(d), cmds, 0, 0
  {
    if cmds != [] {
      ExecEnds(w, cmds[0], d, flag);
      var r := Exec(w, cmds[0], d, flag);
      if r.outcome.Normal? {
        BlockEnds(w, cmds[1..], r.core, r.flag);
      }
    }
  }

  lemma {:induction false} LoopEnds(w: World, name: string, block: seq<Cmd>, parts: seq<Address>, d: Core, flag: bool)
    requires RepositoryMay(w, NoStop) && AllMay(block, NoStop)
    ensures Ends(Loop(w, name, block, parts, d, flag).outcome, AllMay(block, NoReturn))
    decreases Room(d), block, 1, |parts|
  {
    if parts != [] {
      BlockEnds(w, block, Enter(d, parts[0]), flag);
      var r := Block(w, block, Enter(d, parts[0]), flag);
      if r.outcome.Normal? {
        LoopEnds(w, name, block, parts[1..], Leave(r.core), r.flag);
      }
    }
  }

  lemma {:induction false} IncludeEnds(w: World, c: Cmd, d: Core, flag: bool)
    requires RepositoryMay(w, NoStop) && c.Include?
    ensures Ends(ExecInclude(w, c, d, flag).outcome, true)
    decreases Room(d), c, 0, 0
  {
    var key, admission := KeyOf(c.location, c.name), Admit(w, c, d);
    AdmissionFacts(w, c, d);
    if admission.Start? {
      BlockEnds(w, admission.script.cmds, Call(d, key, c.once, admission.script), flag);
    }
  }

  /**
   * Without stop in the script and the repository, and without return in the script's own text,
   * every Execute that succeeds leaves an action that takes the message.
   */
  lemma DeliversWithoutStop(w: World, s: Script)
    requires AllMay(s.cmds, NoStop) && AllMay(s.cmds, NoReturn) && RepositoryMay(w, NoStop)
    ensures Execute(w, s, Fresh(s), false).ok ==> !Lost(w, s)
  {
    BlockEnds(w, s.cmds, Fresh(s), false);
    if Execute(w, s, Fresh(s), false).ok {
      SuccessDeliversUnlessStopped(w, s);
    }
  }

  // ----- texts that lose it -----

  /** Commands that record no cancelling action. */
  predicate LeavesKeep(c: Cmd) {
    match c
    case Keep => false
    case Discard => false
    case Reject(_) => false
    case EReject(_) => false
    case FileInto(_, copy) => copy
    case Redirect(_, copy, _) => copy
    case Pipe(_, _, copy, try_) => copy || try_
    case _ => true
  }

  predicate KeepStep(d: Core, d': Core) {
    !Cancelled(d.actions) ==> !Cancelled(d'.actions)
  }

  lemma PlainLeavesKeep(w: World, c: Cmd, d: Core)
    requires IsPlain(c) && LeavesKeep(c)
    ensures KeepStep(d, ExecPlain(w, c, d).core)
  {
    PlainAppends(w, c, d);
  }

  lemma {:induction false} RunLeavesKeep(w: World, s: Script)
    requires AllMay(s.cmds, LeavesKeep) && RepositoryMay(w, LeavesKeep)
    ensures !Cancelled(Block(w, s.cmds, Fresh(s), false).core.actions)
  {
    var rel: Relation := (d, d', ok) => KeepStep(d, d');
    forall c, d | IsPlain(c) && LeavesKeep(c)
      ensures rel(d, ExecPlain(w, c, d).core, !ExecPlain(w, c, d).outcome.Failed?)
    {
      PlainLeavesKeep(w, c, d);
    }
    LedgerRelationIsKept(w, LeavesKeep, rel);
    BlockKeeps(w, LeavesKeep, rel, s.cmds, Fresh(s), false);
  }

  /** A block with a stop or return of its own never comes to its end. */
  lemma {:induction false} BlockIsCutShort(w: World, cmds: seq<Cmd>, i: nat, d: Core, flag: bool)
    requires i < |cmds| && (cmds[i].Stop? || cmds[i].Return?)
    ensures !Block(w, cmds, d, flag).outcome.Normal?
    decreases i
  {
    if i > 0 {
      var r := Exec(w, cmds[0], d, flag);
      if r.outcome.Normal? {
        BlockIsCutShort(w, cmds[1..], i - 1, r.core, r.flag);
      }
    }
  }

  /**
   * Where neither the script nor the repository holds a cancelling command, a stop or return
   * at the script's top level loses the message whenever Execute succeeds.
   */
  lemma StopLosesMail(w: World, s: Script, i: nat)
    requires AllMay(s.cmds, LeavesKeep) && RepositoryMay(w, LeavesKeep)
    requires i < |s.cmds| && (s.cmds[i].Stop? || s.cmds[i].Return?)
    ensures Execute(w, s, Fresh(s), false).ok ==> Lost(w, s)
  {
    RunLeavesKeep(w, s);
    BlockIsCutShort(w, s.cmds, i, Fresh(s), false);
  }
}
