/** RuntimeData and the Execute methods as written: fields updated in place, loops over commands, parts and actions. */
module Runtime {
  import opened Mime
  import opened State
  import opened Commands
  import opened Interpreter
  import Truncation

  class RuntimeData {
    var script: Script
    var vars: map<string, string>
    var globalDecls: set<string>
    var matchVars: seq<string>
    var globals: map<string, string>
    var actions: seq<Action>
    var mailboxes: seq<string>
    var redirects: seq<string>
    var keep: bool
    var implicitKeep: bool
    var piped: set<string>
    var stack: seq<Key>
    var once: set<Key>
    var parts: seq<Address>
    var ifResult: bool

    // History, read by nothing
    var begun: seq<Inclusion>
    var visits: seq<Visit>

    constructor (s: Script)
      ensures View() == Fresh(s) && !ifResult
    {
      script, vars, globalDecls, matchVars, globals := s, map[], {}, [], map[];
      actions, mailboxes, redirects, keep, implicitKeep, piped := [], [], [], false, true, {};
      stack, once, parts, ifResult, begun, visits := [], {}, [], false, [], [];
    }

    function View(): Core
      reads this
    {
      Core(script, vars, globalDecls, matchVars, globals, actions, mailboxes, redirects, keep, implicitKeep,
           piped, stack, once, parts, begun, visits)
    }

    /** The method did what a plain command's function says, and left the flag alone. */
    twostate predicate Did(e: Effect, o: Outcome)
      reads this
    {
      View() == e.core && o == e.outcome && ifResult == old(ifResult)
    }

    // ----- actions -----

    method OnAction(w: World, a: Action) returns (o: Outcome)
      modifies this
      ensures Did(Apply(w, old(View()), a), o)
    {
      actions := actions + [a];
      if w.maxActions > 0 && |actions| > w.maxActions {
        return Failed;
      }
      o := Normal;
    }

    method ExecFileInto(w: World, name: string, copy: bool) returns (o: Outcome)
      modifies this
      ensures Did(DoFileInto(w, old(View()), name, copy), o)
    {
      var mailbox := w.mailbox(View(), name);
      var found := false;
      for i := 0 to |mailboxes|
        invariant found <==> mailbox in mailboxes[..i]
        invariant View() == old(View()) && ifResult == old(ifResult)
      {
        if mailboxes[i] == mailbox {
          found := true;
        }
      }
      assert mailboxes[..|mailboxes|] == mailboxes;
      if found {
        return Normal;
      }
      o := OnAction(w, FileIntoAction(mailbox, copy));
      if o.Failed? {
        return;
      }
      mailboxes := mailboxes + [mailbox];
      CancelKeepUnless(copy);
    }

    method ExecRedirect(w: World, to: string, copy: bool, list: bool) returns (o: Outcome)
      modifies this
      ensures Did(DoRedirect(w, old(View()), to, copy, list), o)
    {
      var addr := w.expand(View(), to);
      var target := if list then ListName(addr) else addr;
      var policy := w.redirect(View(), target);
      if policy.PolicyError? {
        return Failed;
      }
      if policy.Denied? {
        return Normal;
      }
      if list {
        o := OnAction(w, RedirectAction("", copy, target));
        if o.Failed? {
          return;
        }
      } else {
        o := OnAction(w, RedirectAction(addr, copy, ""));
        if o.Failed? {
          return;
        }
        redirects := redirects + [addr];
      }
      CancelKeepUnless(copy);
    }

    method CancelKeepUnless(copy: bool)
      modifies this
      ensures View() == CancelUnless(copy, old(View())) && ifResult == old(ifResult)
    {
      if !copy {
        implicitKeep := false;
      }
    }

    method ExecKeep(w: World) returns (o: Outcome)
      modifies this
      ensures Did(DoKeep(w, old(View())), o)
    {
      o := OnAction(w, KeepAction(false));
      if o.Normal? {
        keep := true;
      }
    }

    method ExecFinal(w: World, a: Action) returns (o: Outcome)
      modifies this
      ensures Did(DoFinal(w, old(View()), a), o)
    {
      o := OnAction(w, a);
      if o.Normal? {
        implicitKeep := false;
      }
    }

    method ExecNotify(w: World, m: string) returns (o: Outcome)
      modifies this
      ensures Did(DoNotify(w, old(View()), m), o)
    {
      var m' := w.expand(View(), m);
      if m' == "" {
        return Failed;
      }
      o := OnAction(w, NotifyAction(m'));
    }

    /** Expands the arguments one by one, up to the first that is refused. */
    method ExpandArguments(w: World, args: seq<string>) returns (ok: bool, args': seq<string>)
      ensures ok == ArgumentsOk(w, ExpandAll(w, View(), args))
      ensures ok ==> args' == ExpandAll(w, View(), args)
    {
      args' := [];
      for i := 0 to |args|
        invariant |args'| == i && ExpandAll(w, View(), args) == args' + ExpandAll(w, View(), args[i..])
        invariant ArgumentsOk(w, args')
      {
        var expanded := w.expand(View(), args[i]);
        assert args[i..][1..] == args[i + 1..];
        assert args' + ExpandAll(w, View(), args[i..]) == args' + [expanded] + ExpandAll(w, View(), args[i + 1..]);
        if !w.argumentOk(expanded) {
          assert ExpandAll(w, View(), args)[i] == expanded;
          return false, args';
        }
        args' := args' + [expanded];
      }
      assert args' + [] == args';
      ok := true;
    }

    method ExecPipe(w: World, program: string, args: seq<string>, copy: bool, try_: bool) returns (o: Outcome)
      modifies this
      ensures Did(DoPipe(w, old(View()), program, args, copy, try_), o)
    {
      if PIPE_EXTENSION !in script.extensions {
        return Failed;
      }
      var name := w.expand(View(), program);
      if !w.programOk(name) {
        return if try_ then Normal else Failed;
      }
      var ok, args' := ExpandArguments(w, args);
      if !ok {
        return if try_ then Normal else Failed;
      }
      if name in piped {
        return if try_ then Normal else Failed;
      }
      piped := piped + {name};
      o := OnAction(w, PipeAction(name, args', copy, try_));
      if o.Failed? {
        if try_ {
          piped := piped - {name};
          return Normal;
        }
        return;
      }
      CancelKeepUnless(copy || try_);
    }

    // ----- variables -----

    method ExecSet(w: World, name: string, value: string) returns (o: Outcome)
      modifies this
      ensures Did(SetVar(w, old(View()), name, value), o)
    {
      if |name| > w.maxNameLength {
        return Failed;
      }
      var v := Truncation.TruncateValue(value, w.maxValueLength);
      var lower := w.lower(name);
      var (space, name') := if '.' in lower then CutDot(lower) else ("", lower);
      if space == "global" {
        if "include" !in script.extensions {
          return Failed;
        }
        globals := globals[name' := v];
      } else if space == "" {
        if name' in globalDecls {
          globals := globals[name' := v];
        } else {
          vars := vars[name' := v];
        }
      } else {
        return Failed;
      }
      o := Normal;
    }

    method ExecGlobal(w: World, names: seq<string>) returns (o: Outcome)
      modifies this
      ensures Did(Declare(w, old(View()), names), o)
    {
      for i := 0 to |names|
        invariant Declare(w, old(View()), names) == Declare(w, View(), names[i..])
        invariant ifResult == old(ifResult)
      {
        assert names[i..][1..] == names[i + 1..];
        if '.' in names[i] {
          return Failed;
        }
        globalDecls := globalDecls + {w.lower(names[i])};
      }
      o := Normal;
    }

    method ExecutePlain(w: World, c: Cmd) returns (o: Outcome)
      requires IsPlain(c)
      modifies this
      ensures Did(ExecPlain(w, c, old(View())), o)
    {
      match c
      case Stop => o := Stopped;
      case Return => o := Returned;
      case Break(name) => o := Broke(name);
      case Keep => o := ExecKeep(w);
      case Discard => o := ExecFinal(w, DiscardAction);
      case Reject(reason) => o := ExecFinal(w, RejectAction(w.expand(View(), reason)));
      case EReject(reason) => o := ExecFinal(w, ERejectAction(w.expand(View(), reason)));
      case FileInto(mailbox, copy) => o := ExecFileInto(w, mailbox, copy);
      case Redirect(addr, copy, list) => o := ExecRedirect(w, addr, copy, list);
      case Notify(m) => o := ExecNotify(w, m);
      case Pipe(program, args, copy, try_) => o := ExecPipe(w, program, args, copy, try_);
      case Set(name, value) => o := ExecSet(w, name, w.expand(View(), value));
      case Global(names) => o := ExecGlobal(w, names);
    }

    // ----- control -----

    method Execute(w: World, c: Cmd) returns (o: Outcome)
      modifies this
      ensures Run(View(), ifResult, o) == Exec(w, c, old(View()), old(ifResult))
      decreases Room(View()), c, 1, 0
    {
      if IsPlain(c) {
        o := ExecutePlain(w, c);
        return;
      }
      match c
      case If(test, block) => o := ExecuteConditional(w, test, block);
      case Elsif(test, block) =>
        if ifResult {
          return Normal;
        }
        o := ExecuteConditional(w, test, block);
      case Else(block) =>
        if ifResult {
          return Normal;
        }
        o := ExecuteBlock(w, block);
      case Include(_, _, _, _) => o := ExecuteInclude(w, c);
      case ForEveryPart(name, block) =>
        if w.message.NoTree? {
          return Normal;
        }
        if w.message.TreeError? {
          return Failed;
        }
        o := ExecuteLoop(w, name, block, LoopParts(w.message.root, parts));
    }

    method ExecuteConditional(w: World, test: TestName, block: seq<Cmd>) returns (o: Outcome)
      modifies this
      ensures Run(View(), ifResult, o) == Conditional(w, test, block, old(View()), old(ifResult))
      decreases Room(View()), block, 1, 0
    {
      var answer := w.check(test, View());
      if answer.TestError? {
        return Failed;
      }
      matchVars := answer.matchVars;
      if answer.holds {
        o := ExecuteBlock(w, block);
        if !o.Normal? {
          return;
        }
      }
      ifResult := answer.holds;
      o := Normal;
    }

    method ExecuteBlock(w: World, cmds: seq<Cmd>) returns (o: Outcome)
      modifies this
      ensures Run(View(), ifResult, o) == Block(w, cmds, old(View()), old(ifResult))
      decreases Room(View()), cmds, 0, 0
    {
      assert cmds[0..] == cmds;
      for i := 0 to |cmds|
        invariant SameStacks(old(View()), View())
        invariant Block(w, cmds, old(View()), old(ifResult)) == Block(w, cmds[i..], View(), ifResult)
      {
        assert cmds[i..][1..] == cmds[i + 1..] && cmds[i..][0] == cmds[i];
        o := Execute(w, cmds[i]);
        if !o.Normal? {
          return;
        }
      }
      o := Normal;
    }

    method PushPart(part: Address)
      modifies this
      ensures View() == Enter(old(View()), part) && ifResult == old(ifResult)
    {
      visits := visits + [Visit(|parts| + 1, part)];
      parts := parts + [part];
    }

    method PopPart()
      requires parts != []
      modifies this
      ensures View() == Leave(old(View())) && ifResult == old(ifResult)
    {
      parts := parts[..|parts| - 1];
    }

    method ExecuteLoop(w: World, name: string, block: seq<Cmd>, set_: seq<Address>) returns (o: Outcome)
      modifies this
      ensures Run(View(), ifResult, o) == Loop(w, name, block, set_, old(View()), old(ifResult))
      decreases Room(View()), block, 1, 0
    {
      assert set_[0..] == set_;
      ghost var goal := Loop(w, name, block, set_, View(), ifResult);
      for i := 0 to |set_|
        invariant SameStacks(old(View()), View())
        invariant goal == Loop(w, name, block, set_[i..], View(), ifResult)
      {
        assert set_[i..][1..] == set_[i + 1..] && set_[i..][0] == set_[i];
        PushPart(set_[i]);
        o := ExecuteBlock(w, block);
        PopPart();
        if !o.Normal? {
          if o.Broke? && (o.name == "" || o.name == name) {
            return Normal;
          }
          return;
        }
      }
      o := Normal;
    }

    method ExecuteInclude(w: World, c: Cmd) returns (o: Outcome)
      requires c.Include?
      modifies this
      ensures Run(View(), ifResult, o) == ExecInclude(w, c, old(View()), old(ifResult))
      decreases Room(View()), c, 0, 1
    {
      if !w.hasLoader {
        return Failed;
      }
      var key := KeyOf(c.location, c.name);
      if c.once && key in once {
        return Normal;
      }
      if key in stack {
        if c.once {
          once := once + {key};
          return Normal;
        }
        return Failed;
      }
      if |stack| >= MAX_DEPTH || (c.location != "personal" && c.location != "global") {
        return Failed;
      }
      var loaded := w.load(c.location, c.name);
      if loaded.Missing? {
        return if c.optional then Normal else Failed;
      }
      if loaded.Broken? {
        return Failed;
      }
      o := ExecuteIncluded(w, c, key, c.once, loaded.script);
    }

    /** Assigns the fields each script has for itself. */
    method SetLocals(s: Script, v: map<string, string>, decls: set<string>, mv: seq<string>)
      modifies this
      ensures View() == old(View()).(script := s, vars := v, globalDecls := decls, matchVars := mv)
      ensures ifResult == old(ifResult)
    {
      script, vars, globalDecls, matchVars := s, v, decls, mv;
    }

    method PushKey(key: Key, isOnce: bool)
      modifies this
      ensures View() == old(View()).(stack := old(stack) + [key],
                                     begun := old(begun) + [Inclusion(key, isOnce, old(stack))])
      ensures ifResult == old(ifResult)
    {
      begun := begun + [Inclusion(key, isOnce, stack)];
      stack := stack + [key];
    }

    method PopKey(key: Key, isOnce: bool)
      requires stack != []
      modifies this
      ensures View() == old(View()).(stack := old(stack)[..|old(stack)| - 1],
                                     once := if isOnce then old(once) + {key} else old(once))
      ensures ifResult == old(ifResult)
    {
      stack := stack[..|stack| - 1];
      if isOnce {
        once := once + {key};
      }
    }

    /** Saves the caller's own fields, runs the script, and puts them back on every outcome. */
    method ExecuteIncluded(w: World, ghost c: Cmd, key: Key, isOnce: bool, included: Script) returns (o: Outcome)
      requires |stack| < MAX_DEPTH
      modifies this
      ensures var r := Block(w, included.cmds, Call(old(View()), key, isOnce, included), old(ifResult));
              Run(View(), ifResult, o) == Run(Resume(old(View()), key, isOnce, r.core), r.flag, AfterInclude(r.outcome))
      decreases Room(View()), c, 0, 0
    {
      ghost var caller := View();
      var savedScript, savedVars, savedDecls, savedMatch := script, vars, globalDecls, matchVars;
      SetLocals(included, map[], {}, []);
      PushKey(key, isOnce);
      assert View() == Call(caller, key, isOnce, included);
      o := ExecuteBlock(w, included.cmds);
      ghost var inner := View();
      PopKey(key, isOnce);
      SetLocals(savedScript, savedVars, savedDecls, savedMatch);
      assert View() == Resume(caller, key, isOnce, inner);
      if o.Returned? {
        o := Normal;
      }
    }

    /** Script.Execute */
    method ExecuteScript(w: World, s: Script) returns (ok: bool)
      modifies this
      ensures Result(View(), ok) == Interpreter.Execute(w, s, old(View()), old(ifResult))
    {
      var o := ExecuteBlock(w, s.cmds);
      if !o.Normal? {
        return o.Stopped? || o.Returned?;
      }
      var keepIt := implicitKeep;
      ghost var reached := View();
      for i := 0 to |actions|
        invariant View() == reached
        invariant keepIt <==> implicitKeep && !Cancelled(actions[..i])
      {
        assert actions[..i + 1] == actions[..i] + [actions[i]];
        if CancelsKeep(actions[i]) {
          assert Cancelled(actions[..i + 1]) by {
            assert CancelsKeep(actions[..i + 1][i]);
          }
          keepIt := false;
        } else {
          CancelledSnoc(actions[..i], actions[i]);
        }
      }
      assert actions[..|actions|] == actions;
      if keepIt {
        o := OnAction(w, KeepAction(true));
        return o.Normal?;
      }
      ok := true;
    }
  }

  lemma CancelledSnoc(s: seq<Action>, a: Action)
    ensures Cancelled(s + [a]) <==> Cancelled(s) || CancelsKeep(a)
  {
    var t := s + [a];
    if Cancelled(s) {
      var i :| 0 <= i < |s| && CancelsKeep(s[i]);
      assert t[i] == s[i];
    }
    if CancelsKeep(a) {
      assert t[|s|] == a;
    }
  }
}
