/** Commands, actions and run-time state of the interpreter (interp/applied_action.go, interp/runtime.go). */
module State {
  import opened Mime

  type Key = string

  /** Tests are named; what they answer is up to the World. */
  type TestName = nat

  datatype Cmd =
    | Stop
    | Return
    | Keep
    | Discard
    | FileInto(mailbox: string, copy: bool)
    | Redirect(addr: string, copy: bool, list: bool)
    | Reject(reason: string)
    | EReject(reason: string)
    | Notify(method_: string)
    | Pipe(program: string, args: seq<string>, copy: bool, try_: bool)
    | Set(name: string, value: string)
    | Global(names: seq<string>)
    | Include(location: string, name: string, once: bool, optional: bool)
    | If(test: TestName, block: seq<Cmd>)
    | Elsif(test: TestName, block: seq<Cmd>)
    | Else(block: seq<Cmd>)
    | ForEveryPart(name: string, block: seq<Cmd>)
    | Break(name: string)

  datatype Script = Script(cmds: seq<Cmd>, extensions: set<string>)

  datatype Action =
    | KeepAction(implicit: bool)
    | DiscardAction
    | FileIntoAction(mailbox: string, copy: bool)
    | RedirectAction(address: string, copy: bool, listName: string)
    | RejectAction(reason: string)
    | ERejectAction(reason: string)
    | PipeAction(program: string, args: seq<string>, copy: bool, try_: bool)
    | NotifyAction(method_: string)

  predicate CancelsKeep(a: Action) {
    match a
    case KeepAction(_) => true
    case DiscardAction => true
    case FileIntoAction(_, copy) => !copy
    case RedirectAction(_, copy, _) => !copy
    case RejectAction(_) => true
    case ERejectAction(_) => true
    case PipeAction(_, _, copy, try_) => !copy && !try_
    case NotifyAction(_) => false
  }

  /** History: an included script began to run, under the given call stack. */
  datatype Inclusion = Inclusion(key: Key, once: bool, stack: seq<Key>)

  /** History: a foreverypart loop at nesting `depth` began to run its block on a part. */
  datatype Visit = Visit(depth: nat, part: Address)

  /**
   * RuntimeData, without the flag that connects if, elsif and else.
   * `begun` and `visits` are history: no command reads them.
   */
  datatype Core = Core(
    script: Script,
    vars: map<string, string>,
    globalDecls: set<string>,
    matchVars: seq<string>,
    globals: map<string, string>,
    actions: seq<Action>,
    mailboxes: seq<string>,
    redirects: seq<string>,
    keep: bool,
    implicitKeep: bool,
    piped: set<string>,
    stack: seq<Key>,
    once: set<Key>,
    parts: seq<Address>,
    begun: seq<Inclusion>,
    visits: seq<Visit>)

  /** NewRuntimeData */
  function Fresh(s: Script): Core {
    Core(s, map[], {}, [], map[], [], [], [], false, true, {}, [], {}, [], [], [])
  }

  datatype Answer = TestError | Answer(holds: bool, matchVars: seq<string>)
  datatype Policy = PolicyError | Denied | Allowed
  /** Missing: no such script or the loader failed. Broken: it could not be read, lexed, parsed or loaded. */
  datatype Loaded = Missing | Broken | Found(script: Script)
  datatype Message = NoTree | TreeError | Tree(root: Part)

  /** Everything outside the interpreter: tests, variable expansion, host policy, the script repository, the message. */
  datatype World = World(
    check: (TestName, Core) -> Answer,
    expand: (Core, string) -> string,
    mailbox: (Core, string) -> string,
    redirect: (Core, string) -> Policy,
    programOk: string -> bool,
    argumentOk: string -> bool,
    lower: string -> string,
    hasLoader: bool,
    load: (string, string) -> Loaded,
    message: Message,
    maxActions: int,
    maxNameLength: nat,
    maxValueLength: nat)

  datatype Outcome = Normal | Stopped | Returned | Broke(name: string) | Failed
}
