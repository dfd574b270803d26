/** Which extensions a script may use while it is loaded: require, and ihave blocks (RFC 5463). */
module Guards {

  /** How a loader checks extensions: one of some must be there, or it only asks and goes on either way. */
  datatype Use = Need(anyOf: seq<string>) | Ask(ext: string)

  /** A test that is loaded: ihave, or one that checks extensions and may hold further tests. */
  datatype PTest = Ihave(caps: seq<string>) | Checks(uses: seq<Use>, tests: seq<PTest>)

  datatype Body = NoBody | Body(cmds: seq<PCmd>)

  /** `fits` is what LoadSpec thinks of the arguments. Other commands check extensions and may hold a block. */
  datatype PCmd =
    | Require(extensions: seq<string>)
    | Cond(fits: bool, tests: seq<PTest>, body: Body)
    | Other(uses: seq<Use>, fits: bool, body: Body)

  /** What the build supports and the host allows. */
  datatype Host = Host(supported: string -> bool, allowed: string -> bool)

  /** available: what ihave may report. */
  predicate Available(h: Host, ext: string) {
    ext != "variables" && ext != "encoded-character" && h.supported(ext) && h.allowed(ext)
  }

  predicate Have(h: Host, caps: seq<string>) {
    forall i :: 0 <= i < |caps| ==> Available(h, caps[i])
  }

  function Names(caps: seq<string>): set<string> {
    set i | 0 <= i < |caps| :: caps[i]
  }

  // ----- the reference: lexical scopes, no counters -----

  /** How far loading got: required extensions, those used under a guard, and (history) every check that was granted. */
  datatype Loading = Loading(ok: bool, required: set<string>, used: set<string>, granted: set<string>)

  /** A check succeeds exactly when an earlier require granted the extension or an enclosing true ihave names it. */
  function Check(scope: set<string>, l: Loading, ext: string): Loading {
    if ext in l.required then l.(granted := l.granted + {ext})
    else if ext in scope then l.(used := l.used + {ext}, granted := l.granted + {ext})
    else l.(ok := false)
  }

  /** Checks joined by "or": the first that succeeds ends them. */
  function CheckAny(scope: set<string>, l: Loading, exts: seq<string>): Loading
    decreases |exts|
  {
    if exts == [] then l.(ok := false)
    else if Check(scope, l, exts[0]).ok then Check(scope, l, exts[0])
    else CheckAny(scope, l, exts[1..])
  }

  function CheckUse(scope: set<string>, l: Loading, u: Use): Loading {
    match u
    case Need(anyOf) => CheckAny(scope, l, anyOf)
    case Ask(ext) => if Check(scope, l, ext).ok then Check(scope, l, ext) else l
  }

  function CheckAll(scope: set<string>, l: Loading, uses: seq<Use>): Loading
    decreases |uses|
  {
    if uses == [] || !l.ok then l else CheckAll(scope, CheckUse(scope, l, uses[0]), uses[1..])
  }

  function Required(ext: string): set<string> {
    {ext} + (if ext == "imapflags" then {"imap4flags"} else if ext == "vacation-seconds" then {"vacation"} else {})
  }

  function RequireAll(h: Host, l: Loading, exts: seq<string>): Loading
    decreases |exts|
  {
    if exts == [] then l
    else if !h.supported(exts[0]) then l.(ok := false)
    else RequireAll(h, l.(required := l.required + Required(exts[0])), exts[1..])
  }

  function ScopedTests(scope: set<string>, l: Loading, tests: seq<PTest>): Loading
    decreases tests
  {
    if tests == [] || !l.ok then l else ScopedTests(scope, ScopedTest(scope, l, tests[0]), tests[1..])
  }

  function ScopedTest(scope: set<string>, l: Loading, t: PTest): Loading
    decreases t
  {
    match t
    case Ihave(caps) =>
      var l' := Check(scope, l, "ihave");
      if l'.ok && caps == [] then l'.(ok := false) else l'
    case Checks(uses, tests) => ScopedTests(scope, CheckAll(scope, l, uses), tests)
  }

  /** LoadSpec's tail for a command with one test and a block. */
  function ScopedSpec(h: Host, scope: set<string>, l: Loading, c: PCmd): Loading
    requires c.Cond?
    decreases c, 0
  {
    if !c.fits || |c.tests| != 1 then l.(ok := false)
    else
      var l' := ScopedTests(scope, l, c.tests);
      if !l'.ok then l' else ScopedBody(h, scope, l', c.body)
  }

  function ScopedBody(h: Host, scope: set<string>, l: Loading, b: Body): Loading
    decreases b, 1
  {
    match b
    case NoBody => l.(ok := false)
    case Body(cmds) => ScopedBlock(h, scope, l, cmds)
  }

  predicate IsGuard(c: PCmd) {
    c.Cond? && |c.tests| == 1 && c.tests[0].Ihave?
  }

  function ScopedCmd(h: Host, scope: set<string>, l: Loading, c: PCmd): Loading
    decreases c, 1
  {
    match c
    case Require(exts) => RequireAll(h, l, exts)
    case Other(uses, fits, body) =>
      var l' := CheckAll(scope, l, uses);
      if !l'.ok || !fits then l'.(ok := false)
      else if body.NoBody? then l'
      else ScopedBody(h, scope, l', body)
    case Cond(_, tests, _) =>
      if !IsGuard(c) then ScopedSpec(h, scope, l, c)
      else
        var l' := ScopedTest(scope, l, tests[0]);
        if !l'.ok || !Have(h, tests[0].caps) then l'
        else ScopedSpec(h, scope + Names(tests[0].caps), l', c)
  }

  function ScopedBlock(h: Host, scope: set<string>, l: Loading, cmds: seq<PCmd>): Loading
    decreases cmds, 0
  {
    if cmds == [] || !l.ok then l else ScopedBlock(h, scope, ScopedCmd(h, scope, l, cmds[0]), cmds[1..])
  }

  /** How loading a whole script ends. */
  function Loaded(h: Host, cmds: seq<PCmd>): Loading {
    ScopedBlock(h, {}, Loading(true, {}, {}, {}), cmds)
  }

  // ----- counters -----

  function CountIn(m: map<string, int>, ext: string): int {
    if ext in m then m[ext] else 0
  }

  /** The counters are positive exactly for the names in scope. */
  ghost predicate Counts(m: map<string, int>, scope: set<string>) {
    forall ext :: CountIn(m, ext) >= 0 && (CountIn(m, ext) > 0 <==> ext in scope)
  }

  ghost predicate SameCounts(m: map<string, int>, m': map<string, int>) {
    forall ext :: CountIn(m', ext) == CountIn(m, ext)
  }

  function Adjusted(m: map<string, int>, caps: seq<string>, step: int): map<string, int>
    decreases |caps|
  {
    if caps == [] then m else Adjusted(m[caps[0] := CountIn(m, caps[0]) + step], caps[1..], step)
  }

  function Occurrences(caps: seq<string>, ext: string): nat {
    if caps == [] then 0 else (if caps[0] == ext then 1 else 0) + Occurrences(caps[1..], ext)
  }

  lemma {:induction false} AdjustedCount(m: map<string, int>, caps: seq<string>, ext: string)
    ensures CountIn(Adjusted(m, caps, 1), ext) == CountIn(m, ext) + Occurrences(caps, ext)
    ensures CountIn(Adjusted(m, caps, -1), ext) == CountIn(m, ext) - Occurrences(caps, ext)
    decreases |caps|
  {
    if caps != [] {
      AdjustedCount(m[caps[0] := CountIn(m, caps[0]) + 1], caps[1..], ext);
      AdjustedCount(m[caps[0] := CountIn(m, caps[0]) - 1], caps[1..], ext);
    }
  }

  lemma {:induction false} OccurrencesOfNames(caps: seq<string>, ext: string)
    ensures Occurrences(caps, ext) > 0 <==> ext in Names(caps)
    decreases |caps|
  {
    if caps != [] {
      OccurrencesOfNames(caps[1..], ext);
      assert caps == [caps[0]] + caps[1..];
      if ext in Names(caps[1..]) {
        var i :| 0 <= i < |caps[1..]| && caps[1..][i] == ext;
        assert caps[i + 1] == ext;
      }
    }
  }

  /** Raising the counters brings the names into scope. */
  lemma {:induction false} RaisedCounts(m: map<string, int>, scope: set<string>, caps: seq<string>)
    requires Counts(m, scope)
    ensures Counts(Adjusted(m, caps, 1), scope + Names(caps))
  {
    forall ext
      ensures CountIn(Adjusted(m, caps, 1), ext) >= 0
      ensures CountIn(Adjusted(m, caps, 1), ext) > 0 <==> ext in scope + Names(caps)
    {
      AdjustedCount(m, caps, ext);
      OccurrencesOfNames(caps, ext);
    }
  }

  /** Lowering them afterwards brings back what was. */
  lemma {:induction false} LoweredCounts(m: map<string, int>, m': map<string, int>, caps: seq<string>)
    requires SameCounts(Adjusted(m, caps, 1), m')
    ensures SameCounts(m, Adjusted(m', caps, -1))
  {
    forall ext ensures CountIn(Adjusted(m', caps, -1), ext) == CountIn(m, ext) {
      AdjustedCount(m, caps, ext);
      AdjustedCount(m', caps, ext);
    }
  }

  // ----- the loader as written: counters, incremented and put back -----

  class Script {
    var extensions: set<string>
    var guarded: map<string, int>
    var guardedUsed: set<string>
    ghost var granted: set<string>

    constructor ()
      ensures extensions == {} && guardedUsed == {} && granted == {} && Counts(guarded, {})
    {
      extensions, guarded, guardedUsed, granted := {}, map[], {}, {};
    }

    ghost function State(ok: bool): Loading
      reads this
    {
      Loading(ok, extensions, guardedUsed, granted)
    }

    method RequiresExtension(ext: string, ghost scope: set<string>) returns (ok: bool)
      requires Counts(guarded, scope)
      modifies this
      ensures State(ok) == Check(scope, old(State(true)), ext) && guarded == old(guarded)
    {
      if ext in extensions {
        granted := granted + {ext};
        return true;
      }
      if CountIn(guarded, ext) > 0 {
        guardedUsed := guardedUsed + {ext};
        granted := granted + {ext};
        return true;
      }
      ok := false;
    }

    method RequireAny(exts: seq<string>, ghost scope: set<string>) returns (ok: bool)
      requires Counts(guarded, scope)
      modifies this
      ensures State(ok) == CheckAny(scope, old(State(true)), exts) && guarded == old(guarded)
    {
      assert exts[0..] == exts;
      for i := 0 to |exts|
        invariant guarded == old(guarded) && State(true) == old(State(true))
        invariant CheckAny(scope, State(true), exts) == CheckAny(scope, State(true), exts[i..])
      {
        assert exts[i..][1..] == exts[i + 1..];
        ok := RequiresExtension(exts[i], scope);
        if ok {
          return;
        }
      }
      ok := false;
    }

    method CheckOne(u: Use, ghost scope: set<string>) returns (ok: bool)
      requires Counts(guarded, scope)
      modifies this
      ensures State(ok) == CheckUse(scope, old(State(true)), u) && guarded == old(guarded)
    {
      match u
      case Need(anyOf) => ok := RequireAny(anyOf, scope);
      case Ask(ext) =>
        var _ := RequiresExtension(ext, scope);
        ok := true;
    }

    method RequireEach(uses: seq<Use>, ghost scope: set<string>) returns (ok: bool)
      requires Counts(guarded, scope)
      modifies this
      ensures State(ok) == CheckAll(scope, old(State(true)), uses) && guarded == old(guarded)
    {
      assert uses[0..] == uses;
      for i := 0 to |uses|
        invariant guarded == old(guarded) && Counts(guarded, scope)
        invariant CheckAll(scope, old(State(true)), uses) == CheckAll(scope, State(true), uses[i..])
      {
        assert uses[i..][1..] == uses[i + 1..];
        ok := CheckOne(uses[i], scope);
        if !ok {
          return;
        }
      }
      ok := true;
    }

    method LoadRequire(h: Host, exts: seq<string>) returns (ok: bool)
      modifies this
      ensures State(ok) == RequireAll(h, old(State(true)), exts) && guarded == old(guarded)
    {
      assert exts[0..] == exts;
      for i := 0 to |exts|
        invariant guarded == old(guarded)
        invariant RequireAll(h, old(State(true)), exts) == RequireAll(h, State(true), exts[i..])
      {
        assert exts[i..][1..] == exts[i + 1..];
        if !h.supported(exts[i]) {
          return false;
        }
        assert extensions + {exts[i]} + {} == extensions + {exts[i]};
        extensions := extensions + Required(exts[i]);
      }
      ok := true;
    }

    method LoadTest(t: PTest, ghost scope: set<string>) returns (ok: bool)
      requires Counts(guarded, scope)
      modifies this
      ensures State(ok) == ScopedTest(scope, old(State(true)), t) && guarded == old(guarded)
      decreases t, 1
    {
      match t
      case Ihave(caps) =>
        ok := RequiresExtension("ihave", scope);
        if ok && |caps| < 1 {
          ok := false;
        }
      case Checks(uses, tests) =>
        ok := RequireEach(uses, scope);
        if ok {
          ok := LoadTests(tests, scope);
        }
    }

    method LoadTests(tests: seq<PTest>, ghost scope: set<string>) returns (ok: bool)
      requires Counts(guarded, scope)
      modifies this
      ensures State(ok) == ScopedTests(scope, old(State(true)), tests) && guarded == old(guarded)
      decreases tests, 0
    {
      assert tests[0..] == tests;
      for i := 0 to |tests|
        invariant guarded == old(guarded) && Counts(guarded, scope)
        invariant ScopedTests(scope, old(State(true)), tests) == ScopedTests(scope, State(true), tests[i..])
      {
        assert tests[i..][1..] == tests[i + 1..];
        ok := LoadTest(tests[i], scope);
        if !ok {
          return;
        }
      }
      ok := true;
    }

    /** Adds to the counter of each name. */
    method Adjust(caps: seq<string>, step: int)
      modifies this`guarded
      ensures guarded == Adjusted(old(guarded), caps, step)
    {
      assert caps[0..] == caps;
      for i := 0 to |caps|
        invariant Adjusted(old(guarded), caps, step) == Adjusted(guarded, caps[i..], step)
      {
        assert caps[i..][1..] == caps[i + 1..];
        guarded := guarded[caps[i] := CountIn(guarded, caps[i]) + step];
      }
    }

    method LoadSpec(h: Host, c: PCmd, ghost scope: set<string>) returns (ok: bool)
      requires Counts(guarded, scope) && c.Cond?
      modifies this
      ensures State(ok) == ScopedSpec(h, scope, old(State(true)), c) && SameCounts(old(guarded), guarded)
      decreases c, 0
    {
      if !c.fits || |c.tests| != 1 {
        return false;
      }
      ok := LoadTests(c.tests, scope);
      if ok {
        ok := LoadBody(h, c.body, scope);
      }
    }

    method LoadBody(h: Host, b: Body, ghost scope: set<string>) returns (ok: bool)
      requires Counts(guarded, scope)
      modifies this
      ensures State(ok) == ScopedBody(h, scope, old(State(true)), b) && SameCounts(old(guarded), guarded)
      decreases b, 1
    {
      match b
      case NoBody => ok := false;
      case Body(cmds) => ok := LoadBlock(h, cmds, scope);
    }

    /** loadCondBlock: under a false ihave the block is not loaded; under a true one its names are guarded. */
    method LoadCondBlock(h: Host, c: PCmd, ghost scope: set<string>) returns (ok: bool)
      requires Counts(guarded, scope) && c.Cond?
      modifies this
      ensures State(ok) == ScopedCmd(h, scope, old(State(true)), c) && SameCounts(old(guarded), guarded)
      decreases c, 2
    {
      if !(|c.tests| == 1 && c.tests[0].Ihave?) {
        ok := LoadSpec(h, c, scope);
        return;
      }
      var caps := c.tests[0].caps;
      ok := LoadTest(c.tests[0], scope);
      if !ok {
        return;
      }
      var have := true;
      for i := 0 to |caps|
        invariant have == Have(h, caps[..i])
      {
        assert caps[..i + 1] == caps[..i] + [caps[i]];
        have := have && Available(h, caps[i]);
      }
      assert caps[..|caps|] == caps;
      if !have {
        return true;
      }
      ok := LoadGuarded(h, c, caps, scope);
    }

    /** Runs LoadSpec with the counters of the names raised, and lowers them again on every path. */
    method LoadGuarded(h: Host, c: PCmd, caps: seq<string>, ghost scope: set<string>) returns (ok: bool)
      requires Counts(guarded, scope) && c.Cond?
      modifies this
      ensures State(ok) == ScopedSpec(h, scope + Names(caps), old(State(true)), c) && SameCounts(old(guarded), guarded)
      decreases c, 1
    {
      RaisedCounts(guarded, scope, caps);
      Adjust(caps, 1);
      ok := LoadSpec(h, c, scope + Names(caps));
      LoweredCounts(old(guarded), guarded, caps);
      Adjust(caps, -1);
    }

    method LoadCmd(h: Host, c: PCmd, ghost scope: set<string>) returns (ok: bool)
      requires Counts(guarded, scope)
      modifies this
      ensures State(ok) == ScopedCmd(h, scope, old(State(true)), c) && SameCounts(old(guarded), guarded)
      decreases c, 3
    {
      match c
      case Require(exts) => ok := LoadRequire(h, exts);
      case Cond(_, _, _) => ok := LoadCondBlock(h, c, scope);
      case Other(uses, fits, body) =>
        ok := RequireEach(uses, scope);
        if !ok || !fits {
          return false;
        }
        if body.Body? {
          ok := LoadBody(h, body, scope);
        }
    }

    method LoadBlock(h: Host, cmds: seq<PCmd>, ghost scope: set<string>) returns (ok: bool)
      requires Counts(guarded, scope)
      modifies this
      ensures State(ok) == ScopedBlock(h, scope, old(State(true)), cmds) && SameCounts(old(guarded), guarded)
      decreases cmds, 0
    {
      assert cmds[0..] == cmds;
      for i := 0 to |cmds|
        invariant SameCounts(old(guarded), guarded)
        invariant ScopedBlock(h, scope, old(State(true)), cmds) == ScopedBlock(h, scope, State(true), cmds[i..])
      {
        assert cmds[i..][1..] == cmds[i + 1..];
        ok := LoadCmd(h, cmds[i], scope);
        if !ok {
          return;
        }
      }
      ok := true;
    }

    /** Extensions: the required ones and those used under a guard. */
    function Extensions(): set<string>
      reads this
    {
      extensions + guardedUsed
    }
  }

  /** LoadScript: all counters end at zero, whether loading succeeds or not. */
  method LoadScript(h: Host, cmds: seq<PCmd>) returns (s: Script, ok: bool)
    ensures fresh(s) && Counts(s.guarded, {})
    ensures s.State(ok) == Loaded(h, cmds)
  {
    s := new Script();
    ok := s.LoadBlock(h, cmds, {});
  }

  // ----- what the scopes guarantee -----

  /** Every extension that a check granted is reported by Extensions. */
  predicate Reported(l: Loading) {
    l.granted <= l.required + l.used
  }

  lemma {:induction false} CheckAnyReports(scope: set<string>, l: Loading, exts: seq<string>)
    requires Reported(l)
    ensures Reported(CheckAny(scope, l, exts))
    decreases |exts|
  {
    if exts != [] {
      CheckAnyReports(scope, l, exts[1..]);
    }
  }

  lemma {:induction false} CheckAllReports(scope: set<string>, l: Loading, uses: seq<Use>)
    requires Reported(l)
    ensures Reported(CheckAll(scope, l, uses))
    decreases |uses|
  {
    if uses != [] && l.ok {
      if uses[0].Need? {
        CheckAnyReports(scope, l, uses[0].anyOf);
      }
      CheckAllReports(scope, CheckUse(scope, l, uses[0]), uses[1..]);
    }
  }

  lemma {:induction false} RequireAllReports(h: Host, l: Loading, exts: seq<string>)
    requires Reported(l)
    ensures Reported(RequireAll(h, l, exts))
    decreases |exts|
  {
    if exts != [] && h.supported(exts[0]) {
      RequireAllReports(h, l.(required := l.required + Required(exts[0])), exts[1..]);
    }
  }

  lemma {:induction false} TestReports(scope: set<string>, l: Loading, t: PTest)
    requires Reported(l)
    ensures Reported(ScopedTest(scope, l, t))
    decreases t
  {
    if t.Checks? {
      CheckAllReports(scope, l, t.uses);
      TestsReport(scope, CheckAll(scope, l, t.uses), t.tests);
    }
  }

  lemma {:induction false} TestsReport(scope: set<string>, l: Loading, tests: seq<PTest>)
    requires Reported(l)
    ensures Reported(ScopedTests(scope, l, tests))
    decreases tests
  {
    if tests != [] && l.ok {
      TestReports(scope, l, tests[0]);
      TestsReport(scope, ScopedTest(scope, l, tests[0]), tests[1..]);
    }
  }

  lemma {:induction false} SpecReports(h: Host, scope: set<string>, l: Loading, c: PCmd)
    requires c.Cond? && Reported(l)
    ensures Reported(ScopedSpec(h, scope, l, c))
    decreases c, 0
  {
    if c.fits && |c.tests| == 1 {
      TestsReport(scope, l, c.tests);
      var l' := ScopedTests(scope, l, c.tests);
      if l'.ok && c.body.Body? {
        BlockReports(h, scope, l', c.body.cmds);
      }
    }
  }

  lemma {:induction false} CmdReports(h: Host, scope: set<string>, l: Loading, c: PCmd)
    requires Reported(l)
    ensures Reported(ScopedCmd(h, scope, l, c))
    decreases c, 1
  {
    match c
    case Require(exts) => RequireAllReports(h, l, exts);
    case Other(uses, fits, body) =>
      CheckAllReports(scope, l, uses);
      if body.Body? {
        BlockReports(h, scope, CheckAll(scope, l, uses), body.cmds);
      }
    case Cond(_, tests, _) =>
      SpecReports(h, scope, l, c);
      if IsGuard(c) {
        TestReports(scope, l, tests[0]);
        SpecReports(h, scope + Names(tests[0].caps), ScopedTest(scope, l, tests[0]), c);
      }
  }

  lemma {:induction false} BlockReports(h: Host, scope: set<string>, l: Loading, cmds: seq<PCmd>)
    requires Reported(l)
    ensures Reported(ScopedBlock(h, scope, l, cmds))
    decreases cmds, 0
  {
    if cmds != [] && l.ok {
      CmdReports(h, scope, l, cmds[0]);
      BlockReports(h, scope, ScopedCmd(h, scope, l, cmds[0]), cmds[1..]);
    }
  }

  /** A loaded script's Extensions lists everything any check granted it. */
  lemma ExtensionsReportGrants(h: Host, cmds: seq<PCmd>)
    ensures Reported(Loaded(h, cmds))
  {
    BlockReports(h, {}, Loading(true, {}, {}, {}), cmds);
  }

  // ----- after loading -----

  function RequiredAll(exts: seq<string>): set<string> {
    if exts == [] then {} else Required(exts[0]) + RequiredAll(exts[1..])
  }

  /** What the require commands of a text grant, those in blocks of a false ihave aside. */
  function RequiredBy(h: Host, c: PCmd): set<string>
    decreases c, 1
  {
    match c
    case Require(exts) => RequiredAll(exts)
    case Other(_, _, body) => RequiredIn(h, body)
    case Cond(_, tests, body) => if IsGuard(c) && !Have(h, tests[0].caps) then {} else RequiredIn(h, body)
  }

  function RequiredIn(h: Host, b: Body): set<string>
    decreases b, 1
  {
    if b.Body? then RequiredByAll(h, b.cmds) else {}
  }

  function RequiredByAll(h: Host, cmds: seq<PCmd>): set<string>
    decreases cmds, 0
  {
    if cmds == [] then {} else RequiredBy(h, cmds[0]) + RequiredByAll(h, cmds[1..])
  }

  /** Exactly these names came to be required, if all went well. */
  predicate Grants(l: Loading, l': Loading, exts: set<string>) {
    l'.ok ==> l'.required == l.required + exts
  }

  lemma {:induction false} RequireAllGrants(h: Host, l: Loading, exts: seq<string>)
    ensures Grants(l, RequireAll(h, l, exts), RequiredAll(exts))
    decreases |exts|
  {
    if exts != [] && h.supported(exts[0]) {
      RequireAllGrants(h, l.(required := l.required + Required(exts[0])), exts[1..]);
    }
  }

  lemma {:induction false} CheckAnyGrantsNothing(scope: set<string>, l: Loading, exts: seq<string>)
    ensures CheckAny(scope, l, exts).required == l.required
    decreases |exts|
  {
    if exts != [] {
      CheckAnyGrantsNothing(scope, l, exts[1..]);
    }
  }

  lemma {:induction false} CheckAllGrantsNothing(scope: set<string>, l: Loading, uses: seq<Use>)
    ensures CheckAll(scope, l, uses).required == l.required
    decreases |uses|
  {
    if uses != [] && l.ok {
      if uses[0].Need? {
        CheckAnyGrantsNothing(scope, l, uses[0].anyOf);
      }
      CheckAllGrantsNothing(scope, CheckUse(scope, l, uses[0]), uses[1..]);
    }
  }

  lemma {:induction false} TestGrantsNothing(scope: set<string>, l: Loading, t: PTest)
    ensures ScopedTest(scope, l, t).required == l.required
    decreases t
  {
    if t.Checks? {
      CheckAllGrantsNothing(scope, l, t.uses);
      TestsGrantNothing(scope, CheckAll(scope, l, t.uses), t.tests);
    }
  }

  lemma {:induction false} TestsGrantNothing(scope: set<string>, l: Loading, tests: seq<PTest>)
    ensures ScopedTests(scope, l, tests).required == l.required
    decreases tests
  {
    if tests != [] && l.ok {
      TestGrantsNothing(scope, l, tests[0]);
      TestsGrantNothing(scope, ScopedTest(scope, l, tests[0]), tests[1..]);
    }
  }

  lemma {:induction false} SpecGrants(h: Host, scope: set<string>, l: Loading, c: PCmd)
    requires c.Cond?
    ensures Grants(l, ScopedSpec(h, scope, l, c), RequiredIn(h, c.body))
    decreases c, 0
  {
    if c.fits && |c.tests| == 1 {
      TestsGrantNothing(scope, l, c.tests);
      BodyGrants(h, scope, ScopedTests(scope, l, c.tests), c.body);
    }
  }

  lemma {:induction false} BodyGrants(h: Host, scope: set<string>, l: Loading, b: Body)
    ensures Grants(l, ScopedBody(h, scope, l, b), RequiredIn(h, b))
    decreases b, 1
  {
    if b.Body? {
      BlockGrants(h, scope, l, b.cmds);
    }
  }

  lemma {:induction false} CmdGrants(h: Host, scope: set<string>, l: Loading, c: PCmd)
    ensures Grants(l, ScopedCmd(h, scope, l, c), RequiredBy(h, c))
    decreases c, 1
  {
    match c
    case Require(exts) => RequireAllGrants(h, l, exts);
    case Other(uses, fits, body) =>
      CheckAllGrantsNothing(scope, l, uses);
      BodyGrants(h, scope, CheckAll(scope, l, uses), body);
    case Cond(_, tests, _) =>
      SpecGrants(h, scope, l, c);
      if IsGuard(c) {
        TestGrantsNothing(scope, l, tests[0]);
        SpecGrants(h, scope + Names(tests[0].caps), ScopedTest(scope, l, tests[0]), c);
      }
  }

  lemma {:induction false} BlockGrants(h: Host, scope: set<string>, l: Loading, cmds: seq<PCmd>)
    ensures Grants(l, ScopedBlock(h, scope, l, cmds), RequiredByAll(h, cmds))
    decreases cmds, 0
  {
    if cmds != [] && l.ok {
      CmdGrants(h, scope, l, cmds[0]);
      BlockGrants(h, scope, ScopedCmd(h, scope, l, cmds[0]), cmds[1..]);
    }
  }

  /** Once a script is loaded, a check succeeds exactly for what its require commands name: no ihave counts any more. */
  lemma {:induction false} GuardsEndWithLoading(h: Host, cmds: seq<PCmd>, ext: string)
    requires Loaded(h, cmds).ok
    ensures Loaded(h, cmds).required == RequiredByAll(h, cmds)
    ensures Check({}, Loaded(h, cmds), ext).ok <==> ext in RequiredByAll(h, cmds)
  {
    BlockGrants(h, {}, Loading(true, {}, {}, {}), cmds);
  }

  /** Load a script and check an extension again, as pipe does when it runs. */
  method CheckAfterLoading(h: Host, cmds: seq<PCmd>, ext: string) returns (loaded: bool, granted: bool)
    ensures loaded <==> Loaded(h, cmds).ok
    ensures loaded ==> (granted <==> ext in RequiredByAll(h, cmds))
  {
    var s;
    s, loaded := LoadScript(h, cmds);
    granted := false;
    if loaded {
      GuardsEndWithLoading(h, cmds, ext);
      granted := s.RequiresExtension(ext, {});
    }
  }
}
