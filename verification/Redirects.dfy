/** RedirectAddr against the action list: what every run keeps, and exactly which command breaks it. */
module Redirects {
  import opened Mime
  import opened State
  import opened Commands
  import opened Interpreter
  import opened RunInduction

  /** The addresses of the address redirects in an action list, in order. */
  function AddressesOf(actions: seq<Action>): seq<string> {
    if actions == [] then []
    else
      var a := actions[|actions| - 1];
      AddressesOf(actions[..|actions| - 1]) + if a.RedirectAction? && a.listName == "" then [a.address] else []
  }

  predicate Projected(d: Core) {
    d.redirects == AddressesOf(d.actions)
  }

  lemma {:induction false} AddressesSnoc(actions: seq<Action>, a: Action)
    ensures AddressesOf(actions + [a])
         == AddressesOf(actions) + if a.RedirectAction? && a.listName == "" then [a.address] else []
  {
    assert (actions + [a])[..|actions|] == actions;
  }

  /** Nothing was recorded, or a redirect to the address or to the list of that name. */
  predicate Redirected(d: Core, d': Core, addr: string, list: bool) {
    || (d'.actions == d.actions && d'.redirects == d.redirects)
    || (&& |d'.actions| == |d.actions| + 1
        && var a := d'.actions[|d.actions|];
        && d'.actions == d.actions + [a] && a.RedirectAction?
        && a.address == (if list then "" else addr) && a.listName == (if list then ListName(addr) else "")
        && d'.redirects == if list then d.redirects else d.redirects + [addr])
  }

  lemma RedirectRedirects(w: World, d: Core, to: string, copy: bool, list: bool)
    ensures var e := DoRedirect(w, d, to, copy, list);
            !e.outcome.Failed? ==> Redirected(d, e.core, w.expand(d, to), list)
  {
  }

  /** An allowed redirect to a list without a name. */
  predicate IsNamelessList(w: World, d: Core, to: string, list: bool) {
    list && w.expand(d, to) == "" && w.redirect(d, "") == Allowed
  }

  /** A redirect that does not fail keeps the projection exactly when it is not one to a nameless list. */
  lemma RedirectKeepsProjection(w: World, d: Core, to: string, copy: bool, list: bool)
    requires Projected(d)
    ensures var e := DoRedirect(w, d, to, copy, list);
            !e.outcome.Failed? ==> (Projected(e.core) <==> !IsNamelessList(w, d, to, list))
  {
    var addr := w.expand(d, to);
    var a := if list then RedirectAction("", copy, ListName(addr)) else RedirectAction(addr, copy, "");
    AddressesSnoc(d.actions, a);
    if list && addr == "" {
      assert |AddressesOf(d.actions) + [""]| == |d.redirects| + 1;
    }
  }

  /** `redirect :list ""` under a policy that allows everything: one empty address on the list, none in RedirectAddr. */
  lemma {:induction false} NamelessListBreaksProjection(w: World)
    requires forall d, s :: w.redirect(d, s) == Allowed && w.expand(d, s) == s
    ensures var s := Script([Redirect("", false, true)], {});
            var r := Block(w, s.cmds, Fresh(s), false);
            r.outcome.Normal? && r.core.redirects == [] && AddressesOf(r.core.actions) == [""]
  {
    var s := Script([Redirect("", false, true)], {});
    var e := DoRedirect(w, Fresh(s), "", false, true);
    AddressesSnoc([], RedirectAction("", false, ""));
    assert [] + [RedirectAction("", false, "")] == [RedirectAction("", false, "")];
    assert e.core.actions == [RedirectAction("", false, "")];
    assert s.cmds[1..] == [];
    assert Block(w, s.cmds, Fresh(s), false) == Run(e.core, false, Normal);
  }

  // ----- whole runs -----

  predicate NoListRedirect(c: Cmd) {
    c.Redirect? ==> !c.list
  }

  /** The fields the projections speak of. */
  predicate SameRedirects(d: Core, d': Core) {
    d'.redirects == d.redirects && AddressesOf(d'.actions) == AddressesOf(d.actions)
  }

  /** No other command touches either side. */
  lemma OthersKeepRedirects(w: World, c: Cmd, d: Core)
    requires IsPlain(c) && !c.Redirect?
    ensures SameRedirects(d, ExecPlain(w, c, d).core)
  {
    PlainAppends(w, c, d);
    AppendKeepsRedirects(c, d, ExecPlain(w, c, d).core);
  }

  lemma AppendKeepsRedirects(c: Cmd, d: Core, d': Core)
    requires Appends(c, d, d') && !c.Redirect?
    ensures SameRedirects(d, d')
  {
    if d'.actions != d.actions {
      var a :| MayRecord(c, a) && d'.actions == d.actions + [a];
      AddressesSnoc(d.actions, a);
    }
  }

  predicate ProjectionStep(d: Core, d': Core, ok: bool) {
    ok && Projected(d) ==> Projected(d')
  }

  lemma PlainKeepsProjection(w: World, c: Cmd, d: Core)
    requires IsPlain(c) && (NoListRedirect(c) || RefusesEmptyTarget(w))
    ensures var e := ExecPlain(w, c, d); ProjectionStep(d, e.core, !e.outcome.Failed?)
  {
    if c.Redirect? {
      if Projected(d) {
        RedirectKeepsProjection(w, d, c.addr, c.copy, c.list);
      }
    } else {
      OthersKeepRedirects(w, c, d);
    }
  }

  /** The policy never lets a redirect to an empty address or list name through. */
  ghost predicate RefusesEmptyTarget(w: World) {
    forall d :: w.redirect(d, "") != Allowed
  }

  lemma ProjectionIsKept(w: World, may: Cmd -> bool) returns (rel: Relation)
    requires RepositoryMay(w, may) && ((forall c :: may(c) ==> NoListRedirect(c)) || RefusesEmptyTarget(w))
    ensures Kept(w, may, rel) && forall d, d', ok :: rel(d, d', ok) == ProjectionStep(d, d', ok)
  {
    rel := (d, d', ok) => ProjectionStep(d, d', ok);
    forall c, d | IsPlain(c) && may(c) ensures rel(d, ExecPlain(w, c, d).core, !ExecPlain(w, c, d).outcome.Failed?) {
      PlainKeepsProjection(w, c, d);
    }
    LedgerRelationIsKept(w, may, rel);
  }

  /** Without `redirect :list` in the script and the repository every run keeps the projection, whatever the policy. */
  lemma {:induction false} RunKeepsProjection(w: World, cmds: seq<Cmd>, d: Core, flag: bool)
    requires AllMay(cmds, NoListRedirect) && RepositoryMay(w, NoListRedirect) && Projected(d)
    ensures var r := Block(w, cmds, d, flag); r.outcome.Failed? || Projected(r.core)
  {
    var rel := ProjectionIsKept(w, NoListRedirect);
    BlockKeeps(w, NoListRedirect, rel, cmds, d, flag);
  }

  /** Nor can any run break it where the policy refuses the empty target. */
  lemma {:induction false} PolicyKeepsProjection(w: World, cmds: seq<Cmd>, d: Core, flag: bool)
    requires RefusesEmptyTarget(w) && Projected(d)
    ensures var r := Block(w, cmds, d, flag); r.outcome.Failed? || Projected(r.core)
  {
    RepositoryAnyMay(w);
    AnyMay(cmds);
    var rel := ProjectionIsKept(w, Any);
    BlockKeeps(w, Any, rel, cmds, d, flag);
  }

  // ----- with list redirects -----

  function Named(s: seq<string>): seq<string> {
    if s == [] then []
    else Named(s[..|s| - 1]) + if s[|s| - 1] == "" then [] else [s[|s| - 1]]
  }

  lemma {:induction false} NamedSnoc(s: seq<string>, x: string)
    ensures Named(s + [x]) == Named(s) + if x == "" then [] else [x]
  {
    assert (s + [x])[..|s|] == s;
  }

  /** The two lists agree but for empty addresses. */
  predicate NamedAgree(d: Core) {
    Named(d.redirects) == Named(AddressesOf(d.actions))
  }

  lemma {:induction false} AddressAdded(s: seq<string>, t: seq<string>, x: string)
    requires Named(s) == Named(t)
    ensures Named(s + [x]) == Named(t + [x]) && (x == "" ==> Named(s) == Named(t + [x]))
  {
    NamedSnoc(s, x);
    NamedSnoc(t, x);
    assert Named(t) + [] == Named(t);
  }

  lemma AddressesAgree(d: Core, d': Core, addr: string, list: bool)
    requires NamedAgree(d) && Redirected(d, d', addr, list)
    ensures NamedAgree(d')
  {
    if d'.actions != d.actions {
      var a := d'.actions[|d.actions|];
      AddressesSnoc(d.actions, a);
      assert AddressesOf(d.actions) + [] == AddressesOf(d.actions);
      AddressAdded(d.redirects, AddressesOf(d.actions), a.address);
    }
  }

  lemma RedirectKeepsNamed(w: World, d: Core, to: string, copy: bool, list: bool)
    requires NamedAgree(d)
    ensures var e := DoRedirect(w, d, to, copy, list); !e.outcome.Failed? ==> NamedAgree(e.core)
  {
    RedirectRedirects(w, d, to, copy, list);
    var e := DoRedirect(w, d, to, copy, list);
    if !e.outcome.Failed? {
      AddressesAgree(d, e.core, w.expand(d, to), list);
    }
  }

  predicate NamedStep(d: Core, d': Core, ok: bool) {
    ok && NamedAgree(d) ==> NamedAgree(d')
  }

  lemma PlainKeepsNamed(w: World, c: Cmd, d: Core)
    requires IsPlain(c)
    ensures var e := ExecPlain(w, c, d); NamedStep(d, e.core, !e.outcome.Failed?)
  {
    if c.Redirect? {
      if NamedAgree(d) {
        RedirectKeepsNamed(w, d, c.addr, c.copy, c.list);
      }
    } else {
      OthersKeepRedirects(w, c, d);
    }
  }

  lemma NamedIsKept(w: World) returns (rel: Relation)
    ensures Kept(w, Any, rel) && forall d, d', ok :: rel(d, d', ok) == NamedStep(d, d', ok)
  {
    rel := (d, d', ok) => NamedStep(d, d', ok);
    RepositoryAnyMay(w);
    forall c, d | IsPlain(c) ensures rel(d, ExecPlain(w, c, d).core, !ExecPlain(w, c, d).outcome.Failed?) {
      PlainKeepsNamed(w, c, d);
    }
    LedgerRelationIsKept(w, Any, rel);
  }

  /** Every run, over any script, policy and repository, keeps the two lists equal but for empty addresses. */
  lemma {:induction false} RunKeepsNamed(w: World, cmds: seq<Cmd>, d: Core, flag: bool)
    requires NamedAgree(d)
    ensures var r := Block(w, cmds, d, flag); r.outcome.Failed? || NamedAgree(r.core)
  {
    var rel := NamedIsKept(w);
    AnyMay(cmds);
    BlockKeeps(w, Any, rel, cmds, d, flag);
  }
}
