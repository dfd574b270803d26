/** foreverypart and break, section 3 of RFC 5703, over whole runs. */
module Loops {
  import opened Mime
  import opened Sequences
  import opened State
  import opened Commands
  import opened Interpreter
  import opened RunInduction

  // ----- visits -----

  /** What a run visits, it visits in loops inside the ones that were open before it. */
  predicate VisitStep(d: Core, d': Core) {
    && d'.parts == d.parts && d.visits <= d'.visits
    && forall i :: |d.visits| <= i < |d'.visits| ==> d'.visits[i].depth > |d.parts|
  }

  lemma VisitChain(d: Core, d': Core, d'': Core)
    requires VisitStep(d, d') && VisitStep(d', d'')
    ensures VisitStep(d, d'')
  {
    forall i | |d.visits| <= i < |d''.visits| ensures d''.visits[i].depth > |d.parts| {
      if i < |d'.visits| {
        assert d''.visits[i] == d'.visits[i];
      }
    }
  }

  lemma VisitLoop(d: Core, p: Address, inner: Core)
    requires VisitStep(Enter(d, p), inner)
    ensures VisitStep(d, Leave(inner))
  {
    assert Leave(inner).parts == d.parts;
    forall i | |d.visits| <= i < |inner.visits| ensures inner.visits[i].depth > |d.parts| {
      if i == |d.visits| {
        assert inner.visits[i] == Enter(d, p).visits[i];
      }
    }
  }

  lemma VisitIsKept(w: World) returns (rel: Relation)
    ensures Kept(w, Any, rel) && forall d, d', ok :: rel(d, d', ok) == VisitStep(d, d')
  {
    rel := (d, d', ok) => VisitStep(d, d');
    RepositoryAnyMay(w);
    assert Chains(rel) by {
      forall d, d', d'', ok | rel(d, d', true) && rel(d', d'', ok) ensures rel(d, d'', ok) {
        VisitChain(d, d', d'');
      }
    }
    forall d, p, inner, ok | rel(Enter(d, p), inner, ok) && SameStacks(Enter(d, p), inner)
      ensures rel(d, Leave(inner), ok)
    {
      VisitLoop(d, p, inner);
    }
  }

  lemma {:induction false} BlockVisits(w: World, cmds: seq<Cmd>, d: Core, flag: bool)
    ensures VisitStep(d, Block(w, cmds, d, flag).core)
  {
    var rel := VisitIsKept(w);
    AnyMay(cmds);
    BlockKeeps(w, Any, rel, cmds, d, flag);
  }

  /** The parts visited by the loop at a nesting depth. */
  function PartsAt(visits: seq<Visit>, depth: nat): seq<Address> {
    if visits == [] then []
    else (if visits[0].depth == depth then [visits[0].part] else []) + PartsAt(visits[1..], depth)
  }

  lemma {:induction false} PartsAtConcat(s: seq<Visit>, t: seq<Visit>, depth: nat)
    ensures PartsAt(s + t, depth) == PartsAt(s, depth) + PartsAt(t, depth)
  {
    if s == [] {
      assert s + t == t;
    } else {
      assert (s + t)[1..] == s[1..] + t;
      PartsAtConcat(s[1..], t, depth);
      var first := if s[0].depth == depth then [s[0].part] else [];
      Associate(first, PartsAt(s[1..], depth), PartsAt(t, depth));
    }
  }

  lemma {:induction false} DeeperIsElsewhere(s: seq<Visit>, depth: nat)
    requires forall i :: 0 <= i < |s| ==> s[i].depth > depth
    ensures PartsAt(s, depth) == []
  {
    if s != [] {
      DeeperIsElsewhere(s[1..], depth);
    }
  }

  /** The visits that happened between two states. */
  function Since(d: Core, d': Core): seq<Visit>
    requires d.visits <= d'.visits
  {
    d'.visits[|d.visits|..]
  }

  /** One turn of a loop at this depth visits exactly its part; everything else is deeper. */
  lemma {:induction false} TurnVisits(w: World, block: seq<Cmd>, p: Address, d: Core, flag: bool)
    ensures var d' := Leave(Block(w, block, Enter(d, p), flag).core);
            && d'.parts == d.parts && d.visits <= d'.visits
            && PartsAt(Since(d, d'), |d.parts| + 1) == [p]
  {
    var e := Enter(d, p);
    BlockVisits(w, block, e, flag);
    var d' := Leave(Block(w, block, e, flag).core);
    assert d'.parts == d.parts;
    var first := Visit(|d.parts| + 1, p);
    assert e.visits == d.visits + [first];
    var rest := d'.visits[|e.visits|..];
    assert Since(d, d') == [first] + rest;
    assert ([first] + rest)[1..] == rest;
    DeeperIsElsewhere(rest, |d.parts| + 1);
  }

  /** What a loop makes of the outcome of a turn. */
  function Caught(name: string, o: Outcome): Outcome {
    if o.Broke? && (o.name == "" || o.name == name) then Normal else o
  }

  lemma {:induction false} LoopTurn(w: World, name: string, block: seq<Cmd>, parts: seq<Address>, d: Core, flag: bool)
    requires parts != []
    ensures var turn, r := Block(w, block, Enter(d, parts[0]), flag), Loop(w, name, block, parts, d, flag);
            var d' := Leave(turn.core);
            && (turn.outcome.Normal? ==> r == Loop(w, name, block, parts[1..], d', turn.flag))
            && (!turn.outcome.Normal? ==> r == Run(d', turn.flag, Caught(name, turn.outcome)))
  {
  }

  lemma {:induction false} SinceChain(d: Core, d': Core, d'': Core, depth: nat)
    requires d.visits <= d'.visits && d'.visits <= d''.visits
    ensures PartsAt(Since(d, d''), depth) == PartsAt(Since(d, d'), depth) + PartsAt(Since(d', d''), depth)
  {
    assert Since(d, d'') == Since(d, d') + Since(d', d'');
    PartsAtConcat(Since(d, d'), Since(d', d''), depth);
  }

  /** A run over `parts` visited the first k of them at its own depth, in order, each once. */
  ghost predicate Traversed(parts: seq<Address>, d: Core, d': Core, k: nat) {
    && k <= |parts| && d.visits <= d'.visits && d'.parts == d.parts
    && PartsAt(Since(d, d'), |d.parts| + 1) == parts[..k]
  }

  /**
   * The last of k turns began in `at`, on the k-th part, and the loop ends as it makes of that turn;
   * parts are left over only when the turn did not end normally. Without parts nothing happens.
   */
  ghost predicate EndsAfter(w: World, name: string, block: seq<Cmd>, parts: seq<Address>, d: Core, flag: bool, r: Run,
                            k: nat, at: Core, atFlag: bool)
    requires k <= |parts|
  {
    if k == 0 then parts == [] && r == Run(d, flag, Normal)
    else
      var turn := Block(w, block, at, atFlag);
      && at.parts == d.parts + [parts[k - 1]]
      && r == Run(Leave(turn.core), turn.flag, Caught(name, turn.outcome))
      && (k < |parts| ==> !turn.outcome.Normal?)
  }

  lemma TraversedOneMore(parts: seq<Address>, d: Core, d': Core, d'': Core, k: nat)
    requires parts != [] && d'.parts == d.parts && d.visits <= d'.visits
    requires PartsAt(Since(d, d'), |d.parts| + 1) == [parts[0]]
    requires Traversed(parts[1..], d', d'', k)
    ensures Traversed(parts, d, d'', k + 1)
  {
    SinceChain(d, d', d'', |d.parts| + 1);
    assert parts[..k + 1] == [parts[0]] + parts[1..][..k];
  }

  lemma EndsOneLater(w: World, name: string, block: seq<Cmd>, parts: seq<Address>, d: Core, flag: bool,
                     d': Core, flag': bool, r: Run, k: nat, at: Core, atFlag: bool)
    requires parts != [] && d'.parts == d.parts && 0 < k < |parts|
    requires EndsAfter(w, name, block, parts[1..], d', flag', r, k, at, atFlag)
    ensures EndsAfter(w, name, block, parts, d, flag, r, k + 1, at, atFlag)
  {
    assert parts[1..][k - 1] == parts[k];
  }

  lemma {:induction false} LoopEndsAtFirst(w: World, name: string, block: seq<Cmd>, parts: seq<Address>, d: Core,
                                           flag: bool)
    requires parts != []
    requires !Block(w, block, Enter(d, parts[0]), flag).outcome.Normal?
    ensures var r := Loop(w, name, block, parts, d, flag);
            && Traversed(parts, d, r.core, 1)
            && EndsAfter(w, name, block, parts, d, flag, r, 1, Enter(d, parts[0]), flag)
  {
    TurnVisits(w, block, parts[0], d, flag);
    LoopTurn(w, name, block, parts, d, flag);
    assert parts[..1] == [parts[0]];
  }

  lemma {:induction false} LoopGoesOn(w: World, name: string, block: seq<Cmd>, parts: seq<Address>, d: Core, flag: bool,
                                      r: Run, k: nat, at: Core, atFlag: bool)
    requires parts != []
    requires var turn := Block(w, block, Enter(d, parts[0]), flag);
             && turn.outcome.Normal? && Traversed(parts[1..], Leave(turn.core), r.core, k)
             && EndsAfter(w, name, block, parts[1..], Leave(turn.core), turn.flag, r, k, at, atFlag)
    ensures Traversed(parts, d, r.core, k + 1)
    ensures if k == 0 then EndsAfter(w, name, block, parts, d, flag, r, 1, Enter(d, parts[0]), flag)
            else EndsAfter(w, name, block, parts, d, flag, r, k + 1, at, atFlag)
  {
    var turn := Block(w, block, Enter(d, parts[0]), flag);
    TurnVisits(w, block, parts[0], d, flag);
    TraversedOneMore(parts, d, Leave(turn.core), r.core, k);
    if k > 0 {
      EndsOneLater(w, name, block, parts, d, flag, Leave(turn.core), turn.flag, r, k, at, atFlag);
    }
  }

  /** A loop over given parts visits them in order until a turn does not end normally. */
  lemma {:induction false} LoopVisits(w: World, name: string, block: seq<Cmd>, parts: seq<Address>, d: Core, flag: bool)
    returns (k: nat, at: Core, atFlag: bool)
    ensures Traversed(parts, d, Loop(w, name, block, parts, d, flag).core, k)
    ensures EndsAfter(w, name, block, parts, d, flag, Loop(w, name, block, parts, d, flag), k, at, atFlag)
    decreases |parts|
  {
    if parts == [] {
      k, at, atFlag := 0, d, flag;
      assert Since(d, d) == [];
    } else {
      var turn := Block(w, block, Enter(d, parts[0]), flag);
      if turn.outcome.Normal? {
        var r := Loop(w, name, block, parts[1..], Leave(turn.core), turn.flag);
        LoopTurn(w, name, block, parts, d, flag);
        k, at, atFlag := LoopVisits(w, name, block, parts[1..], Leave(turn.core), turn.flag);
        LoopGoesOn(w, name, block, parts, d, flag, r, k, at, atFlag);
        at, atFlag := if k == 0 then Enter(d, parts[0]) else at, if k == 0 then flag else atFlag;
        k := k + 1;
      } else {
        LoopEndsAtFirst(w, name, block, parts, d, flag);
        k, at, atFlag := 1, Enter(d, parts[0]), flag;
      }
    }
  }

  /** b lies strictly below a. */
  predicate Under(a: Address, b: Address) {
    |b| > |a| && b[..|a|] == a
  }

  /**
   * The parts a loop goes over, each once and in pre-order: at the top all parts of a multipart message or the
   * message itself, inside another loop all parts below the current one.
   */
  ghost predicate Walks(root: Part, open: seq<Address>, parts: seq<Address>) {
    && InOrder(parts) && Mime.Distinct(parts)
    && if open != [] then forall b :: b in parts <==> Under(open[|open| - 1], b) && Exists(root, b)
       else if root.multipart then forall b :: b in parts <==> b != [] && Exists(root, b)
       else parts == [[]]
  }

  lemma {:induction false} ExistsThrough(root: Part, a: Address, b: Address)
    requires Under(a, b)
    ensures Exists(root, b) <==> Exists(root, a) && Exists(PartAt(root, a), b[|a|..])
    decreases |a|
  {
    if a == [] {
      assert b[0..] == b;
    } else {
      assert b[0] == b[..|a|][0] == a[0];
      assert b[1..][..|a| - 1] == b[..|a|][1..] == a[1..];
      assert b[1..][|a| - 1..] == b[|a|..];
      if a[0] < |root.children| {
        ExistsThrough(root.children[a[0]], a[1..], b[1..]);
      }
    }
  }

  lemma LoopPartsWalk(root: Part, open: seq<Address>)
    ensures Walks(root, open, LoopParts(root, open))
  {
    if open == [] {
      DescendantsArePreorder(root, []);
      forall b: Address ensures b[..0] == [] && b[0..] == b {}
    } else {
      InnerPartsWalk(root, open, open[|open| - 1]);
    }
  }

  lemma InnerPartsWalk(root: Part, open: seq<Address>, a: Address)
    requires open != [] && a == open[|open| - 1]
    ensures Walks(root, open, LoopParts(root, open))
  {
    var parts := LoopParts(root, open);
    if Exists(root, a) {
      DescendantsArePreorder(PartAt(root, a), a);
    }
    forall b ensures b in parts <==> Under(a, b) && Exists(root, b) {
      if Under(a, b) {
        ExistsThrough(root, a, b);
      }
    }
  }

  /** Every foreverypart, at any nesting, visits the parts it walks in their order until a turn ends it. */
  lemma ForEveryPartVisits(w: World, name: string, block: seq<Cmd>, d: Core, flag: bool)
    returns (parts: seq<Address>, k: nat, at: Core, atFlag: bool)
    requires w.message.Tree?
    ensures Walks(w.message.root, d.parts, parts)
    ensures var r := Exec(w, ForEveryPart(name, block), d, flag);
            Traversed(parts, d, r.core, k) && EndsAfter(w, name, block, parts, d, flag, r, k, at, atFlag)
  {
    parts := LoopParts(w.message.root, d.parts);
    LoopPartsWalk(w.message.root, d.parts);
    ExecIsLoop(w, name, block, d, flag);
    k, at, atFlag := LoopVisits(w, name, block, parts, d, flag);
  }

  /** A loop whose turns all end normally visits every part it walks. */
  lemma {:induction false} UnbrokenLoopVisitsAll(w: World, name: string, block: seq<Cmd>, d: Core, flag: bool)
    requires w.message.Tree?
    requires forall e, f :: Block(w, block, e, f).outcome.Normal?
    ensures var r := Exec(w, ForEveryPart(name, block), d, flag);
            && r.outcome.Normal? && d.visits <= r.core.visits
            && Walks(w.message.root, d.parts, PartsAt(Since(d, r.core), |d.parts| + 1))
  {
    var parts, k, at, atFlag := ForEveryPartVisits(w, name, block, d, flag);
    AllNormal(w, name, block, parts, d, flag, Exec(w, ForEveryPart(name, block), d, flag), k, at, atFlag);
    assert parts[..|parts|] == parts;
  }

  lemma {:induction false} AllNormal(w: World, name: string, block: seq<Cmd>, parts: seq<Address>, d: Core, flag: bool,
                                     r: Run, k: nat, at: Core, atFlag: bool)
    requires k <= |parts| && EndsAfter(w, name, block, parts, d, flag, r, k, at, atFlag)
    requires Block(w, block, at, atFlag).outcome.Normal?
    ensures k == |parts| && r.outcome.Normal?
  {
  }

  /** Without a tree nothing runs; a message that cannot be parsed is an error. */
  lemma {:induction false} ForEveryPartNeedsTree(w: World, name: string, block: seq<Cmd>, d: Core, flag: bool)
    requires !w.message.Tree?
    ensures Exec(w, ForEveryPart(name, block), d, flag)
         == Run(d, flag, if w.message.NoTree? then Normal else Failed)
  {
  }

  lemma {:induction false} ExecIsLoop(w: World, name: string, block: seq<Cmd>, d: Core, flag: bool)
    requires w.message.Tree?
    ensures Exec(w, ForEveryPart(name, block), d, flag)
         == Loop(w, name, block, LoopParts(w.message.root, d.parts), d, flag)
  {
  }

  // ----- breaks -----

  /** The break names that may leave a command; `open` are those that may leave an included script. */
  function Leaving(c: Cmd, open: iset<string>): iset<string> {
    match c
    case Break(name) => iset{name}
    case If(_, block) => AllLeaving(block, open)
    case Elsif(_, block) => AllLeaving(block, open)
    case Else(block) => AllLeaving(block, open)
    case ForEveryPart(name, block) => AllLeaving(block, open) - iset{"", name}
    case Include(_, _, _, _) => open
    case _ => iset{}
  }

  function AllLeaving(cmds: seq<Cmd>, open: iset<string>): iset<string> {
    if cmds == [] then iset{} else Leaving(cmds[0], open) + AllLeaving(cmds[1..], open)
  }

  /** `open` covers the breaks that leave any script of the repository. */
  ghost predicate Covers(w: World, open: iset<string>) {
    forall location, name :: w.load(location, name).Found? ==>
      AllLeaving(w.load(location, name).script.cmds, open) <= open
  }

  predicate Allowed(o: Outcome, names: iset<string>) {
    o.Broke? ==> o.name in names
  }

  lemma {:induction false} ExecBreaks(w: World, c: Cmd, d: Core, flag: bool, open: iset<string>)
    requires Covers(w, open)
    ensures Allowed(Exec(w, c, d, flag).outcome, Leaving(c, open))
    decreases Room(d), c, 1, 0
  {
    if IsPlain(c) {
      PlainBreaks(w, c, d, open);
    } else {
      match c
      case If(test, block) => ConditionalBreaks(w, test, block, d, flag, open);
      case Elsif(test, block) => ConditionalBreaks(w, test, block, d, flag, open);
      case Else(block) => BlockBreaks(w, block, d, flag, open);
      case Include(_, _, _, _) => IncludeBreaks(w, c, d, flag, open);
      case ForEveryPart(name, block) =>
        if w.message.Tree? {
          LoopBreaks(w, name, block, LoopParts(w.message.root, d.parts), d, flag, open);
        }
    }
  }

  lemma {:induction false} PlainBreaks(w: World, c: Cmd, d: Core, open: iset<string>)
    requires IsPlain(c)
    ensures Allowed(ExecPlain(w, c, d).outcome, Leaving(c, open))
  {
    if c.Global? {
      DeclareBreaks(w, d, c.names);
    }
  }

  lemma {:induction false} DeclareBreaks(w: World, d: Core, names: seq<string>)
    ensures !Declare(w, d, names).outcome.Broke?
    decreases |names|
  {
    if names != [] && '.' !in names[0] {
      DeclareBreaks(w, d.(globalDecls := d.globalDecls + {w.lower(names[0])}), names[1..]);
    }
  }

  lemma {:induction false} ConditionalBreaks(w: World, test: TestName, block: seq<Cmd>, d: Core, flag: bool,
                                             open: iset<string>)
    requires Covers(w, open)
    ensures Allowed(Conditional(w, test, block, d, flag).outcome, AllLeaving(block, open))
    decreases Room(d), block, 1, 0
  {
    var a := w.check(test, d);
    if a.Answer? && a.holds {
      BlockBreaks(w, block, d.(matchVars := a.matchVars), flag, open);
    }
  }

  lemma {:induction false} BlockBreaks(w: World, cmds: seq<Cmd>, d: Core, flag: bool, open: iset<string>)
    requires Covers(w, open)
    ensures Allowed(Block(w, cmds, d, flag).outcome, AllLeaving(cmds, open))
    decreases Room(d), cmds, 0, 0
  {
    if cmds != [] {
      ExecBreaks(w, cmds[0], d, flag, open);
      var r := Exec(w, cmds[0], d, flag);
      if r.outcome.Normal? {
        BlockBreaks(w, cmds[1..], r.core, r.flag, open);
      }
    }
  }

  lemma {:induction false} LoopBreaks(w: World, name: string, block: seq<Cmd>, parts: seq<Address>, d: Core, flag: bool,
                                      open: iset<string>)
    requires Covers(w, open)
    ensures Allowed(Loop(w, name, block, parts, d, flag).outcome, AllLeaving(block, open) - iset{"", name})
    decreases Room(d), block, 1, |parts|
  {
    if parts != [] {
      BlockBreaks(w, block, Enter(d, parts[0]), flag, open);
      var r := Block(w, block, Enter(d, parts[0]), flag);
      if r.outcome.Normal? {
        LoopBreaks(w, name, block, parts[1..], Leave(r.core), r.flag, open);
      }
    }
  }

  lemma {:induction false} IncludeBreaks(w: World, c: Cmd, d: Core, flag: bool, open: iset<string>)
    requires Covers(w, open) && c.Include?
    ensures Allowed(ExecInclude(w, c, d, flag).outcome, open)
    decreases Room(d), c, 0, 0
  {
    var key, admission := KeyOf(c.location, c.name), Admit(w, c, d);
    if admission.Start? {
      var script := admission.script;
      assert w.load(c.location, c.name) == Found(script);
      BlockBreaks(w, script.cmds, Call(d, key, c.once, script), flag, open);
    }
  }

  /** A break leaves only loops of other names: where every break has its loop in the text, none reaches the top. */
  lemma {:induction false} EnclosedBreaksStayInside(w: World, s: Script, d: Core)
    requires AllLeaving(s.cmds, iset{}) == iset{} && Covers(w, iset{})
    ensures !Block(w, s.cmds, d, false).outcome.Broke?
  {
    BlockBreaks(w, s.cmds, d, false, iset{});
  }
}
