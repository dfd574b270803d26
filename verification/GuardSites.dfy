/** Which scripts load: every place that needs an extension has it, from a require before it or an ihave around it. */
module GuardSites {
  import opened Guards
  import opened Sequences

  /** A place of the text, in reading order: a name required, a check with the ihave names around it, or a fault. */
  datatype Site =
    | Named(ext: string)
    | Use(scope: set<string>, anyOf: seq<string>)
    | Query(scope: set<string>, ext: string)
    | Fault

  // ----- the sites of a text -----

  function UseSites(scope: set<string>, uses: seq<Guards.Use>): seq<Site> {
    if uses == [] then []
    else
      [match uses[0]
       case Need(anyOf) => Use(scope, anyOf)
       case Ask(ext) => Query(scope, ext)] + UseSites(scope, uses[1..])
  }

  function NamedSites(exts: seq<string>): seq<Site> {
    if exts == [] then [] else [Named(exts[0])] + NamedSites(exts[1..])
  }

  /** An ihave must name something. */
  function TestSites(scope: set<string>, t: PTest): seq<Site>
    decreases t
  {
    match t
    case Ihave(caps) => [Use(scope, ["ihave"])] + (if caps == [] then [Fault] else [])
    case Checks(uses, tests) => UseSites(scope, uses) + TestsSites(scope, tests)
  }

  function TestsSites(scope: set<string>, tests: seq<PTest>): seq<Site>
    decreases tests
  {
    if tests == [] then [] else TestSites(scope, tests[0]) + TestsSites(scope, tests[1..])
  }

  /** What ihave may find: two extensions are always refused. */
  predicate Found(h: Host, caps: seq<string>) {
    forall ext :: ext in caps ==> h.supported(ext) && h.allowed(ext) && ext !in {"variables", "encoded-character"}
  }

  /** The block of an ihave that does not find everything is not read at all. */
  function CmdSites(h: Host, scope: set<string>, c: PCmd): seq<Site>
    decreases c, 1
  {
    match c
    case Require(exts) => NamedSites(exts)
    case Other(uses, fits, body) =>
      UseSites(scope, uses) + (if !fits then [Fault] else if body.NoBody? then [] else BodySites(h, scope, body))
    case Cond(fits, tests, body) =>
      if |tests| == 1 && tests[0].Ihave? then
        TestSites(scope, tests[0])
        + (if !Found(h, tests[0].caps) then []
           else if !fits then [Fault]
           else BodySites(h, scope + (set ext | ext in tests[0].caps), body))
      else if |tests| == 1 && fits then TestsSites(scope, tests) + BodySites(h, scope, body)
      else [Fault]
  }

  function BodySites(h: Host, scope: set<string>, b: Body): seq<Site>
    decreases b, 1
  {
    match b
    case NoBody => [Fault]
    case Body(cmds) => BlockSites(h, scope, cmds)
  }

  function BlockSites(h: Host, scope: set<string>, cmds: seq<PCmd>): seq<Site>
    decreases cmds, 0
  {
    if cmds == [] then [] else CmdSites(h, scope, cmds[0]) + BlockSites(h, scope, cmds[1..])
  }

  // ----- loading goes through the sites one by one -----

  function Step(h: Host, l: Loading, s: Site): Loading {
    match s
    case Named(ext) => RequireAll(h, l, [ext])
    case Use(scope, anyOf) => CheckAny(scope, l, anyOf)
    case Query(scope, ext) => CheckUse(scope, l, Ask(ext))
    case Fault => l.(ok := false)
  }

  function Steps(h: Host, l: Loading, sites: seq<Site>): Loading
    decreases |sites|
  {
    if sites == [] || !l.ok then l else Steps(h, Step(h, l, sites[0]), sites[1..])
  }

  lemma {:induction false} StepsConcat(h: Host, l: Loading, a: seq<Site>, b: seq<Site>)
    ensures Steps(h, l, a + b) == Steps(h, Steps(h, l, a), b)
    decreases |a|
  {
    if a == [] {
      assert a + b == b;
    } else if l.ok {
      assert (a + b)[1..] == a[1..] + b;
      StepsConcat(h, Step(h, l, a[0]), a[1..], b);
    }
  }

  lemma {:induction false} OneStep(h: Host, l: Loading, s: Site)
    ensures Steps(h, l, [s]) == if l.ok then Step(h, l, s) else l
  {
    assert [s][1..] == [];
  }

  lemma {:induction false} UseSteps(h: Host, scope: set<string>, l: Loading, uses: seq<Guards.Use>)
    ensures Steps(h, l, UseSites(scope, uses)) == CheckAll(scope, l, uses)
    decreases |uses|
  {
    if uses != [] && l.ok {
      assert UseSites(scope, uses)[1..] == UseSites(scope, uses[1..]);
      UseSteps(h, scope, CheckUse(scope, l, uses[0]), uses[1..]);
    }
  }

  lemma {:induction false} RequireOne(h: Host, l: Loading, ext: string)
    ensures RequireAll(h, l, [ext])
         == if h.supported(ext) then l.(required := l.required + Required(ext)) else l.(ok := false)
  {
    assert [ext][1..] == [];
  }

  lemma {:induction false} NamedSteps(h: Host, l: Loading, exts: seq<string>)
    requires l.ok
    ensures Steps(h, l, NamedSites(exts)) == RequireAll(h, l, exts)
    decreases |exts|
  {
    if exts != [] {
      assert NamedSites(exts)[1..] == NamedSites(exts[1..]);
      RequireOne(h, l, exts[0]);
      if h.supported(exts[0]) {
        NamedSteps(h, l.(required := l.required + Required(exts[0])), exts[1..]);
      }
    }
  }

  lemma {:induction false} IhaveSteps(h: Host, scope: set<string>, l: Loading, caps: seq<string>)
    requires l.ok
    ensures Steps(h, l, TestSites(scope, Ihave(caps))) == ScopedTest(scope, l, Ihave(caps))
  {
    var use := Use(scope, ["ihave"]);
    assert ["ihave"][1..] == [];
    OneStep(h, l, use);
    if caps == [] {
      StepsConcat(h, l, [use], [Fault]);
      OneStep(h, Step(h, l, use), Fault);
    } else {
      assert [use] + [] == [use];
    }
  }

  lemma {:induction false} TestSteps(h: Host, scope: set<string>, l: Loading, t: PTest)
    requires l.ok
    ensures Steps(h, l, TestSites(scope, t)) == ScopedTest(scope, l, t)
    decreases t
  {
    match t
    case Ihave(caps) => IhaveSteps(h, scope, l, caps);
    case Checks(uses, tests) =>
      StepsConcat(h, l, UseSites(scope, uses), TestsSites(scope, tests));
      UseSteps(h, scope, l, uses);
      TestsSteps(h, scope, CheckAll(scope, l, uses), tests);
  }

  lemma {:induction false} TestsSteps(h: Host, scope: set<string>, l: Loading, tests: seq<PTest>)
    ensures Steps(h, l, TestsSites(scope, tests)) == ScopedTests(scope, l, tests)
    decreases tests
  {
    if tests != [] && l.ok {
      StepsConcat(h, l, TestSites(scope, tests[0]), TestsSites(scope, tests[1..]));
      TestSteps(h, scope, l, tests[0]);
      TestsSteps(h, scope, ScopedTest(scope, l, tests[0]), tests[1..]);
    }
  }

  lemma FoundIsHave(h: Host, caps: seq<string>)
    ensures Found(h, caps) <==> Have(h, caps)
  {
    forall i | 0 <= i < |caps|
      ensures Available(h, caps[i])
         <==> h.supported(caps[i]) && h.allowed(caps[i]) && caps[i] !in {"variables", "encoded-character"}
    {
    }
    if Found(h, caps) {
      forall i | 0 <= i < |caps| ensures Available(h, caps[i]) {
        assert caps[i] in caps;
      }
    }
  }

  /** The block is read after the test was checked once more, which changes nothing. */
  lemma {:induction false} GuardChecksTwice(scope: set<string>, l: Loading, t: PTest)
    requires t.Ihave? && ScopedTest(scope, l, t).ok
    ensures var l' := ScopedTest(scope, l, t); ScopedTests(scope + Names(t.caps), l', [t]) == l'
  {
    assert [t][1..] == [];
  }

  lemma {:induction false} CondSteps(h: Host, scope: set<string>, l: Loading, c: PCmd)
    requires l.ok && c.Cond? && !IsGuard(c)
    ensures Steps(h, l, CmdSites(h, scope, c)) == ScopedSpec(h, scope, l, c)
    decreases c, 0
  {
    if c.fits && |c.tests| == 1 {
      StepsConcat(h, l, TestsSites(scope, c.tests), BodySites(h, scope, c.body));
      TestsSteps(h, scope, l, c.tests);
      BodySteps(h, scope, ScopedTests(scope, l, c.tests), c.body);
    } else {
      OneStep(h, l, Fault);
    }
  }

  lemma {:induction false} GuardSteps(h: Host, scope: set<string>, l: Loading, c: PCmd)
    requires l.ok && IsGuard(c)
    ensures Steps(h, l, CmdSites(h, scope, c)) == ScopedCmd(h, scope, l, c)
    decreases c, 0
  {
    var t, caps := c.tests[0], c.tests[0].caps;
    var l' := ScopedTest(scope, l, t);
    FoundIsHave(h, caps);
    TestSteps(h, scope, l, t);
    if !Found(h, caps) {
      assert TestSites(scope, t) + [] == TestSites(scope, t);
    } else {
      var scope' := scope + (set ext | ext in caps);
      assert scope' == scope + Names(caps);
      var inner := if !c.fits then [Fault] else BodySites(h, scope', c.body);
      StepsConcat(h, l, TestSites(scope, t), inner);
      OneStep(h, l', Fault);
      assert c.tests == [t];
      if l'.ok {
        GuardChecksTwice(scope, l, t);
        BodySteps(h, scope', l', c.body);
      }
    }
  }

  lemma {:induction false} BodySteps(h: Host, scope: set<string>, l: Loading, b: Body)
    ensures Steps(h, l, BodySites(h, scope, b)) == if l.ok then ScopedBody(h, scope, l, b) else l
    decreases b, 1
  {
    match b
    case NoBody => OneStep(h, l, Fault);
    case Body(cmds) => BlockSteps(h, scope, l, cmds);
  }

  lemma {:induction false} CmdSteps(h: Host, scope: set<string>, l: Loading, c: PCmd)
    requires l.ok
    ensures Steps(h, l, CmdSites(h, scope, c)) == ScopedCmd(h, scope, l, c)
    decreases c, 1
  {
    match c
    case Require(exts) => NamedSteps(h, l, exts);
    case Other(uses, fits, body) =>
      var more := if !fits then [Fault] else if body.NoBody? then [] else BodySites(h, scope, body);
      StepsConcat(h, l, UseSites(scope, uses), more);
      UseSteps(h, scope, l, uses);
      OneStep(h, CheckAll(scope, l, uses), Fault);
      BodySteps(h, scope, CheckAll(scope, l, uses), body);
    case Cond(_, _, _) =>
      if IsGuard(c) {
        GuardSteps(h, scope, l, c);
      } else {
        CondSteps(h, scope, l, c);
      }
  }

  lemma {:induction false} BlockSteps(h: Host, scope: set<string>, l: Loading, cmds: seq<PCmd>)
    ensures Steps(h, l, BlockSites(h, scope, cmds)) == ScopedBlock(h, scope, l, cmds)
    decreases cmds, 0
  {
    if cmds != [] && l.ok {
      StepsConcat(h, l, CmdSites(h, scope, cmds[0]), BlockSites(h, scope, cmds[1..]));
      CmdSteps(h, scope, l, cmds[0]);
      BlockSteps(h, scope, ScopedCmd(h, scope, l, cmds[0]), cmds[1..]);
    }
  }

  // ----- what each site needs -----

  /** Two names stand for another as well. */
  predicate Covers(name: string, ext: string) {
    ext == name || (name == "imapflags" && ext == "imap4flags") || (name == "vacation-seconds" && ext == "vacation")
  }

  predicate RequiredBefore(sites: seq<Site>, i: nat, ext: string)
    requires i <= |sites|
  {
    exists j :: 0 <= j < i && sites[j].Named? && Covers(sites[j].ext, ext)
  }

  predicate Usable(sites: seq<Site>, i: nat, scope: set<string>, ext: string)
    requires i <= |sites|
  {
    RequiredBefore(sites, i, ext) || ext in scope
  }

  predicate Passes(h: Host, sites: seq<Site>, i: nat)
    requires i < |sites|
  {
    match sites[i]
    case Named(ext) => h.supported(ext)
    case Use(scope, anyOf) => exists k :: 0 <= k < |anyOf| && Usable(sites, i, scope, anyOf[k])
    case Query(_, _) => true
    case Fault => false
  }

  /** The site draws on an ihave block for this extension: the first usable name, not required before. */
  predicate DrawsOn(sites: seq<Site>, i: nat, ext: string)
    requires i < |sites|
  {
    && !RequiredBefore(sites, i, ext)
    && match sites[i]
       case Use(scope, anyOf) =>
         ext in scope && exists k :: 0 <= k < |anyOf| && anyOf[k] == ext && NoneUsable(sites, i, scope, anyOf[..k])
       case Query(scope, asked) => ext in scope && asked == ext
       case _ => false
  }

  predicate NoneUsable(sites: seq<Site>, i: nat, scope: set<string>, exts: seq<string>)
    requires i <= |sites|
  {
    forall k :: 0 <= k < |exts| ==> !Usable(sites, i, scope, exts[k])
  }

  /** How far loading is before a site. */
  ghost predicate At(sites: seq<Site>, i: nat, l: Loading)
    requires i <= |sites|
  {
    && l.ok && (forall ext :: ext in l.required <==> RequiredBefore(sites, i, ext))
    && (forall ext :: ext in l.used <==> exists j :: 0 <= j < i && DrawsOn(sites, j, ext))
  }

  /** Checks joined by "or" come to the first usable name. */
  lemma {:induction false} CheckAnyFirst(scope: set<string>, l: Loading, exts: seq<string>) returns (k: nat)
    requires l.ok
    ensures k <= |exts| && forall j :: 0 <= j < k ==> exts[j] !in l.required + scope
    ensures k < |exts| ==> exts[k] in l.required + scope && CheckAny(scope, l, exts) == Check(scope, l, exts[k])
    ensures k == |exts| ==> CheckAny(scope, l, exts) == l.(ok := false)
    decreases |exts|
  {
    if exts == [] || exts[0] in l.required + scope {
      k := 0;
    } else {
      var k' := CheckAnyFirst(scope, l, exts[1..]);
      k := k' + 1;
      assert forall j :: 1 <= j < k ==> exts[j] == exts[1..][j - 1];
    }
  }

  lemma RequiredNext(sites: seq<Site>, i: nat, ext: string)
    requires i < |sites|
    ensures RequiredBefore(sites, i + 1, ext)
       <==> RequiredBefore(sites, i, ext) || (sites[i].Named? && Covers(sites[i].ext, ext))
  {
  }

  /** What one check adds to the extensions used under a guard. */
  predicate Adds(l: Loading, l': Loading, ext: string, guarded: bool) {
    l'.ok && l'.required == l.required && l'.used == if guarded then l.used + {ext} else l.used
  }

  lemma CheckAdds(scope: set<string>, l: Loading, ext: string)
    requires l.ok && ext in l.required + scope
    ensures Adds(l, Check(scope, l, ext), ext, ext !in l.required)
  {
  }

  lemma {:induction false} UseAt(sites: seq<Site>, i: nat, l: Loading, scope: set<string>, anyOf: seq<string>)
    requires i < |sites| && At(sites, i, l) && sites[i] == Use(scope, anyOf)
    ensures var l' := CheckAny(scope, l, anyOf);
            && (l'.ok <==> exists k :: 0 <= k < |anyOf| && Usable(sites, i, scope, anyOf[k]))
            && (l'.ok ==> l'.required == l.required)
            && (l'.ok ==> forall ext :: ext in l'.used <==> ext in l.used || DrawsOn(sites, i, ext))
  {
    var k := CheckAnyFirst(scope, l, anyOf);
    forall ext ensures Usable(sites, i, scope, ext) <==> ext in l.required + scope {
    }
    if k < |anyOf| {
      var chosen := anyOf[k];
      CheckAdds(scope, l, chosen);
      assert NoneUsable(sites, i, scope, anyOf[..k]);
      forall ext ensures DrawsOn(sites, i, ext) <==> ext == chosen && ext !in l.required {
        if DrawsOn(sites, i, ext) {
          var j :| 0 <= j < |anyOf| && anyOf[j] == ext && NoneUsable(sites, i, scope, anyOf[..j]);
          assert j <= k;
        }
      }
    }
  }

  lemma QueryAt(sites: seq<Site>, i: nat, l: Loading, scope: set<string>, asked: string)
    requires i < |sites| && At(sites, i, l) && sites[i] == Query(scope, asked)
    ensures var l' := CheckUse(scope, l, Ask(asked));
            && l'.ok && l'.required == l.required
            && forall ext :: ext in l'.used <==> ext in l.used || DrawsOn(sites, i, ext)
  {
    if asked in l.required + scope {
      CheckAdds(scope, l, asked);
    }
  }

  lemma {:induction false} NamedAt(h: Host, sites: seq<Site>, i: nat, l: Loading, name: string)
    requires i < |sites| && At(sites, i, l) && sites[i] == Named(name)
    ensures var l' := RequireAll(h, l, [name]);
            && (l'.ok <==> h.supported(name)) && l'.used == l.used
            && (l'.ok ==> forall ext :: ext in l'.required <==> ext in l.required || Covers(name, ext))
  {
    RequireOne(h, l, name);
    assert forall ext :: ext in Required(name) <==> Covers(name, ext);
  }

  lemma StepAt(h: Host, sites: seq<Site>, i: nat, l: Loading)
    requires i < |sites| && At(sites, i, l)
    ensures Step(h, l, sites[i]).ok <==> Passes(h, sites, i)
    ensures Step(h, l, sites[i]).ok ==> At(sites, i + 1, Step(h, l, sites[i]))
  {
    match sites[i]
    case Named(name) => NamedAt(h, sites, i, l, name);
    case Use(scope, anyOf) => UseAt(sites, i, l, scope, anyOf);
    case Query(scope, asked) => QueryAt(sites, i, l, scope, asked);
    case Fault =>
    forall ext { RequiredNext(sites, i, ext); }
  }

  /** From a site on, loading succeeds exactly when every site passes. */
  lemma {:induction false} StepsFrom(h: Host, sites: seq<Site>, i: nat, l: Loading)
    requires i <= |sites| && At(sites, i, l)
    ensures Steps(h, l, sites[i..]).ok <==> forall j :: i <= j < |sites| ==> Passes(h, sites, j)
    ensures Steps(h, l, sites[i..]).ok ==> At(sites, |sites|, Steps(h, l, sites[i..]))
    decreases |sites| - i
  {
    if i < |sites| {
      Cursor(sites, i);
      StepAt(h, sites, i, l);
      if Passes(h, sites, i) {
        StepsFrom(h, sites, i + 1, Step(h, l, sites[i]));
      }
    }
  }

  lemma {:induction false} LoadedAt(h: Host, cmds: seq<PCmd>)
    ensures var sites := BlockSites(h, {}, cmds);
            && (Loaded(h, cmds).ok <==> forall i :: 0 <= i < |sites| ==> Passes(h, sites, i))
            && (Loaded(h, cmds).ok ==> At(sites, |sites|, Loaded(h, cmds)))
  {
    var sites, l := BlockSites(h, {}, cmds), Loading(true, {}, {}, {});
    BlockSteps(h, {}, l, cmds);
    assert sites[0..] == sites;
    StepsFrom(h, sites, 0, l);
  }

  /**
   * A script loads exactly when each of its sites passes. Then the required extensions are exactly those named,
   * and the others it reports are exactly those some site draws on a guard for.
   */
  lemma {:induction false} LoadsExactly(h: Host, cmds: seq<PCmd>, ext: string)
    ensures var sites := BlockSites(h, {}, cmds);
            && (Loaded(h, cmds).ok <==> forall i :: 0 <= i < |sites| ==> Passes(h, sites, i))
            && (Loaded(h, cmds).ok ==>
                  && (ext in Loaded(h, cmds).required <==> RequiredBefore(sites, |sites|, ext))
                  && (ext in Loaded(h, cmds).used <==> exists i :: 0 <= i < |sites| && DrawsOn(sites, i, ext)))
  {
    LoadedAt(h, cmds);
  }
}
