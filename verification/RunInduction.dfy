/** One induction over whole runs: a relation every step keeps relates the ends of every run. */
module RunInduction {
  import opened Mime
  import opened State
  import opened Commands
  import opened Interpreter

  /** From the state before to the state after; true when the step did not fail. */
  type Relation = (Core, Core, bool) -> bool

  /** Every plain command in the blocks satisfies `may`. */
  predicate AllMay(cmds: seq<Cmd>, may: Cmd -> bool) {
    forall i :: 0 <= i < |cmds| ==> May(cmds[i], may)
  }

  predicate May(c: Cmd, may: Cmd -> bool) {
    match c
    case If(_, block) => AllMay(block, may)
    case Elsif(_, block) => AllMay(block, may)
    case Else(block) => AllMay(block, may)
    case ForEveryPart(_, block) => AllMay(block, may)
    case Include(_, _, _, _) => true
    case _ => may(c)
  }

  /** So do the plain commands of every script in the repository. */
  ghost predicate RepositoryMay(w: World, may: Cmd -> bool) {
    forall location, name :: w.load(location, name).Found? ==> AllMay(w.load(location, name).script.cmds, may)
  }

  predicate Any(c: Cmd) {
    true
  }

  lemma {:induction false} AnyMay(cmds: seq<Cmd>)
    ensures AllMay(cmds, Any)
    decreases cmds
  {
    forall i | 0 <= i < |cmds| ensures May(cmds[i], Any) {
      var c := cmds[i];
      if c.If? || c.Elsif? || c.Else? || c.ForEveryPart? {
        AnyMay(c.block);
      }
    }
  }

  lemma RepositoryAnyMay(w: World)
    ensures RepositoryMay(w, Any)
  {
    forall location, name | w.load(location, name).Found?
      ensures AllMay(w.load(location, name).script.cmds, Any)
    {
      AnyMay(w.load(location, name).script.cmds);
    }
  }

  ghost predicate Chains(rel: Relation) {
    && (forall d :: rel(d, d, true) && rel(d, d, false))
    && (forall d, d', d'', ok :: rel(d, d', true) && rel(d', d'', ok) ==> rel(d, d'', ok))
  }

  ghost predicate KeptByPlain(w: World, may: Cmd -> bool, rel: Relation) {
    && (forall c, d :: IsPlain(c) && may(c) ==> rel(d, ExecPlain(w, c, d).core, !ExecPlain(w, c, d).outcome.Failed?))
    && (forall d: Core, mv :: rel(d, d.(matchVars := mv), true))
    && (forall d: Core, key :: key in d.stack ==> rel(d, d.(once := d.once + {key}), true))
  }

  ghost predicate KeptByLoops(rel: Relation) {
    forall d, p, inner, ok ::
      rel(Enter(d, p), inner, ok) && SameStacks(Enter(d, p), inner) ==> rel(d, Leave(inner), ok)
  }

  /** An include runs only when its key is not pending, there is room, and :once has not used it up. */
  predicate MayCall(d: Core, key: Key, once: bool) {
    key !in d.stack && |d.stack| < MAX_DEPTH && !(once && key in d.once)
  }

  ghost predicate KeptByCalls(rel: Relation) {
    forall d, key, once, script, inner, ok {:trigger rel(Call(d, key, once, script), inner, ok)} ::
      && MayCall(d, key, once)
      && rel(Call(d, key, once, script), inner, ok)
      && SameStacks(Call(d, key, once, script), inner)
      ==> rel(d, Resume(d, key, once, inner), ok)
  }

  ghost predicate Kept(w: World, may: Cmd -> bool, rel: Relation) {
    RepositoryMay(w, may) && Chains(rel) && KeptByPlain(w, may, rel) && KeptByLoops(rel) && KeptByCalls(rel)
  }

  ghost predicate Related(rel: Relation, d: Core, r: Run) {
    rel(d, r.core, !r.outcome.Failed?)
  }

  lemma {:induction false} ExecKeeps(w: World, may: Cmd -> bool, rel: Relation, c: Cmd, d: Core, flag: bool)
    requires Kept(w, may, rel) && May(c, may)
    ensures Related(rel, d, Exec(w, c, d, flag))
    decreases Room(d), c, 1, 0
  {
    if IsPlain(c) {
    } else {
      match c
      case If(test, block) => ConditionalKeeps(w, may, rel, test, block, d, flag);
      case Elsif(test, block) => ConditionalKeeps(w, may, rel, test, block, d, flag);
      case Else(block) => BlockKeeps(w, may, rel, block, d, flag);
      case Include(_, _, _, _) => IncludeKeeps(w, may, rel, c, d, flag);
      case ForEveryPart(name, block) =>
        if w.message.Tree? {
          LoopKeeps(w, may, rel, name, block, LoopParts(w.message.root, d.parts), d, flag);
        }
    }
  }

  lemma {:induction false} ConditionalKeeps(w: World, may: Cmd -> bool, rel: Relation,
                                            test: TestName, block: seq<Cmd>, d: Core, flag: bool)
    requires Kept(w, may, rel) && AllMay(block, may)
    ensures Related(rel, d, Conditional(w, test, block, d, flag))
    decreases Room(d), block, 1, 0
  {
    var a := w.check(test, d);
    if a.Answer? {
      var d' := d.(matchVars := a.matchVars);
      assert rel(d, d', true);
      if a.holds {
        BlockKeeps(w, may, rel, block, d', flag);
      }
    }
  }

  lemma {:induction false} BlockKeeps(w: World, may: Cmd -> bool, rel: Relation, cmds: seq<Cmd>, d: Core, flag: bool)
    requires Kept(w, may, rel) && AllMay(cmds, may)
    ensures Related(rel, d, Block(w, cmds, d, flag))
    decreases Room(d), cmds, 0, 0
  {
    if cmds != [] {
      ExecKeeps(w, may, rel, cmds[0], d, flag);
      var r := Exec(w, cmds[0], d, flag);
      if r.outcome.Normal? {
        BlockKeeps(w, may, rel, cmds[1..], r.core, r.flag);
      }
    }
  }

  lemma {:induction false} LoopKeeps(w: World, may: Cmd -> bool, rel: Relation,
                                     name: string, block: seq<Cmd>, parts: seq<Address>,
                                     d: Core, flag: bool)
    requires Kept(w, may, rel) && AllMay(block, may)
    ensures Related(rel, d, Loop(w, name, block, parts, d, flag))
    decreases Room(d), block, 1, |parts|
  {
    if parts != [] {
      BlockKeeps(w, may, rel, block, Enter(d, parts[0]), flag);
      var r := Block(w, block, Enter(d, parts[0]), flag);
      assert rel(d, Leave(r.core), !r.outcome.Failed?);
      if r.outcome.Normal? {
        LoopKeeps(w, may, rel, name, block, parts[1..], Leave(r.core), r.flag);
      }
    }
  }

  lemma {:induction false} IncludeKeeps(w: World, may: Cmd -> bool, rel: Relation, c: Cmd, d: Core, flag: bool)
    requires Kept(w, may, rel) && c.Include?
    ensures Related(rel, d, ExecInclude(w, c, d, flag))
    decreases Room(d), c, 0, 1
  {
    var key, admission := KeyOf(c.location, c.name), Admit(w, c, d);
    AdmissionFacts(w, c, d);
    match admission
    case Answered(outcome) =>
    case MarkUsed => assert rel(d, d.(once := d.once + {key}), true);
    case Start(script) => CallKeeps(w, may, rel, c, d, key, script, flag);
  }

  lemma AdmissionFacts(w: World, c: Cmd, d: Core)
    requires c.Include?
    ensures var key, admission := KeyOf(c.location, c.name), Admit(w, c, d);
            && (admission.Start? ==>
                  MayCall(d, key, c.once) && w.load(c.location, c.name) == Found(admission.script))
            && (admission.MarkUsed? ==> key in d.stack)
  {
  }

  lemma {:induction false} CallKeeps(w: World, may: Cmd -> bool, rel: Relation,
                                     c: Cmd, d: Core, key: Key, script: Script, flag: bool)
    requires Kept(w, may, rel) && AllMay(script.cmds, may) && c.Include? && MayCall(d, key, c.once)
    ensures var r := Block(w, script.cmds, Call(d, key, c.once, script), flag);
            rel(d, Resume(d, key, c.once, r.core), !r.outcome.Failed?)
    decreases Room(d), c, 0, 0
  {
    BlockKeeps(w, may, rel, script.cmds, Call(d, key, c.once, script), flag);
  }

  // ----- relations between ledgers -----

  /** The same actions and the same fields that are derived from them. */
  predicate Alike(d: Core, e: Core) {
    && d.actions == e.actions && d.mailboxes == e.mailboxes && d.redirects == e.redirects
    && d.keep == e.keep && d.implicitKeep == e.implicitKeep
  }

  /** The relation looks at nothing else. */
  ghost predicate LedgerOnly(rel: Relation) {
    forall d, e, d', e', ok {:trigger Alike(d, e), Alike(d', e'), rel(d, d', ok)} ::
      Alike(d, e) && Alike(d', e') && rel(d, d', ok) ==> rel(e, e', ok)
  }

  ghost predicate KeptByCommands(w: World, may: Cmd -> bool, rel: Relation) {
    forall c, d :: IsPlain(c) && may(c) ==> rel(d, ExecPlain(w, c, d).core, !ExecPlain(w, c, d).outcome.Failed?)
  }

  /** For such a relation only the plain commands matter. */
  lemma LedgerRelationIsKept(w: World, may: Cmd -> bool, rel: Relation)
    requires RepositoryMay(w, may) && Chains(rel) && LedgerOnly(rel) && KeptByCommands(w, may, rel)
    ensures Kept(w, may, rel)
  {
    forall d: Core, mv ensures rel(d, d.(matchVars := mv), true) {
      assert Alike(d, d) && Alike(d, d.(matchVars := mv)) && rel(d, d, true);
    }
    forall d: Core, key ensures rel(d, d.(once := d.once + {key}), true) {
      assert Alike(d, d) && Alike(d, d.(once := d.once + {key})) && rel(d, d, true);
    }
    forall d, p, inner, ok | rel(Enter(d, p), inner, ok) ensures rel(d, Leave(inner), ok) {
      assert Alike(Enter(d, p), d) && Alike(inner, Leave(inner));
    }
    forall d, key, once, script, inner, ok | rel(Call(d, key, once, script), inner, ok)
      ensures rel(d, Resume(d, key, once, inner), ok)
    {
      assert Alike(Call(d, key, once, script), d) && Alike(inner, Resume(d, key, once, inner));
    }
  }
}
