/** The interpreter as a function: blocks, conditionals, loops and includes over the state and one conditional flag. */
module Interpreter {
  import opened Mime
  import opened State
  import opened Commands

  const MAX_DEPTH := 4

  /** The state after a command, the conditional flag, and how the command ended. */
  datatype Run = Run(core: Core, flag: bool, outcome: Outcome)

  /** How many includes may still nest. */
  function Room(d: Core): nat {
    if |d.stack| < MAX_DEPTH then MAX_DEPTH - |d.stack| else 0
  }

  predicate SameStacks(d: Core, d': Core) {
    d'.stack == d.stack && d'.parts == d.parts
  }

  /** The parts a foreverypart loop goes over. */
  function LoopParts(root: Part, parts: seq<Address>): seq<Address> {
    if parts == [] then if root.multipart then Descendants(root, []) else [[]]
    else
      var a := parts[|parts| - 1];
      if Exists(root, a) then Descendants(PartAt(root, a), a) else []
  }

  function Enter(d: Core, part: Address): Core {
    d.(parts := d.parts + [part], visits := d.visits + [Visit(|d.parts| + 1, part)])
  }

  function Leave(d: Core): Core {
    if d.parts == [] then d else d.(parts := d.parts[..|d.parts| - 1])
  }

  function KeyOf(location: string, name: string): Key {
    location + ":" + name
  }

  /** The state in which an included script starts. */
  function Call(d: Core, key: Key, once: bool, script: Script): Core {
    d.(script := script, vars := map[], globalDecls := {}, matchVars := [], stack := d.stack + [key],
       begun := d.begun + [Inclusion(key, once, d.stack)])
  }

  /** The state after it: the caller's own fields restored, the shared ones kept. */
  function Resume(d: Core, key: Key, once: bool, inner: Core): Core {
    inner.(script := d.script, vars := d.vars, globalDecls := d.globalDecls, matchVars := d.matchVars,
           stack := if inner.stack == [] then [] else inner.stack[..|inner.stack| - 1],
           once := if once then inner.once + {key} else inner.once)
  }

  function AfterInclude(o: Outcome): Outcome {
    if o.Returned? then Normal else o
  }

  function Exec(w: World, c: Cmd, d: Core, flag: bool): (r: Run)
    ensures SameStacks(d, r.core)
    decreases Room(d), c, 1, 0
  {
    if IsPlain(c) then
      var e := ExecPlain(w, c, d);
      Run(e.core, flag, e.outcome)
    else match c
      case If(test, block) => Conditional(w, test, block, d, flag)
      case Elsif(test, block) => if flag then Run(d, flag, Normal) else Conditional(w, test, block, d, flag)
      case Else(block) => if flag then Run(d, flag, Normal) else Block(w, block, d, flag)
      case Include(_, _, _, _) => ExecInclude(w, c, d, flag)
      case ForEveryPart(name, block) =>
        match w.message
        case NoTree => Run(d, flag, Normal)
        case TreeError => Run(d, flag, Failed)
        case Tree(root) => Loop(w, name, block, LoopParts(root, d.parts), d, flag)
  }

  /** Check the test, run the block if it holds, then set the flag. */
  function Conditional(w: World, test: TestName, block: seq<Cmd>, d: Core, flag: bool): (r: Run)
    ensures SameStacks(d, r.core)
    decreases Room(d), block, 1, 0
  {
    match w.check(test, d)
    case TestError => Run(d, flag, Failed)
    case Answer(holds, mv) =>
      var d' := d.(matchVars := mv);
      if !holds then Run(d', false, Normal)
      else
        var r := Block(w, block, d', flag);
        if r.outcome.Normal? then r.(flag := true) else r
  }

  function Block(w: World, cmds: seq<Cmd>, d: Core, flag: bool): (r: Run)
    ensures SameStacks(d, r.core)
    decreases Room(d), cmds, 0, 0
  {
    if cmds == [] then Run(d, flag, Normal)
    else
      var r := Exec(w, cmds[0], d, flag);
      if r.outcome.Normal? then Block(w, cmds[1..], r.core, r.flag) else r
  }

  function Loop(w: World, name: string, block: seq<Cmd>, parts: seq<Address>, d: Core, flag: bool): (r: Run)
    ensures SameStacks(d, r.core)
    decreases Room(d), block, 1, |parts|
  {
    if parts == [] then Run(d, flag, Normal)
    else
      var r := Block(w, block, Enter(d, parts[0]), flag);
      var d' := Leave(r.core);
      match r.outcome
      case Normal => Loop(w, name, block, parts[1..], d', r.flag)
      case Broke(n) => Run(d', r.flag, if n == "" || n == name then Normal else r.outcome)
      case _ => Run(d', r.flag, r.outcome)
  }

  /** What becomes of an include command: answered at once, marked as used up, or its script starts. */
  datatype Admission = Answered(outcome: Outcome) | MarkUsed | Start(script: Script)

  function Admit(w: World, c: Cmd, d: Core): Admission
    requires c.Include?
  {
    var key := KeyOf(c.location, c.name);
    if !w.hasLoader then Answered(Failed)
    else if c.once && key in d.once then Answered(Normal)
    else if key in d.stack then if c.once then MarkUsed else Answered(Failed)
    else if |d.stack| >= MAX_DEPTH then Answered(Failed)
    else if c.location != "personal" && c.location != "global" then Answered(Failed)
    else
      match w.load(c.location, c.name)
      case Missing => Answered(if c.optional then Normal else Failed)
      case Broken => Answered(Failed)
      case Found(script) => Start(script)
  }

  function ExecInclude(w: World, c: Cmd, d: Core, flag: bool): (r: Run)
    requires c.Include?
    ensures SameStacks(d, r.core)
    decreases Room(d), c, 0, 0
  {
    var key := KeyOf(c.location, c.name);
    match Admit(w, c, d)
    case Answered(outcome) => Run(d, flag, outcome)
    case MarkUsed => Run(d.(once := d.once + {key}), flag, Normal)
    case Start(script) =>
      var r := Block(w, script.cmds, Call(d, key, c.once, script), flag);
      Run(Resume(d, key, c.once, r.core), r.flag, AfterInclude(r.outcome))
  }

  datatype Result = Result(core: Core, ok: bool)

  predicate Cancelled(actions: seq<Action>) {
    exists i :: 0 <= i < |actions| && CancelsKeep(actions[i])
  }

  /** Script.Execute: stop and return leave before the implicit keep is considered. */
  function Execute(w: World, s: Script, d: Core, flag: bool): Result {
    var r := Block(w, s.cmds, d, flag);
    match r.outcome
    case Stopped => Result(r.core, true)
    case Returned => Result(r.core, true)
    case Broke(_) => Result(r.core, false)
    case Failed => Result(r.core, false)
    case Normal =>
      if r.core.implicitKeep && !Cancelled(r.core.actions) then
        var e := Apply(w, r.core, KeepAction(true));
        Result(e.core, e.outcome.Normal?)
      else Result(r.core, true)
  }
}
