/** The MIME part tree of interp/mime.go. A part is named by its address: child indexes from the root. */
module Mime {

  datatype Part = Part(multipart: bool, children: seq<Part>)

  type Address = seq<nat>

  /** descendants: each child, at once followed by that child's own descendants. */
  function Descendants(p: Part, at: Address): seq<Address>
    decreases p, 1, 0
  {
    From(p, at, 0)
  }

  function From(p: Part, at: Address, i: nat): seq<Address>
    requires i <= |p.children|
    decreases p, 0, |p.children| - i
  {
    if i == |p.children| then []
    else [at + [i]] + Descendants(p.children[i], at + [i]) + From(p, at, i + 1)
  }

  /** The part at an address, if there is one. */
  predicate Exists(p: Part, a: Address)
    decreases |a|
  {
    a == [] || (a[0] < |p.children| && Exists(p.children[a[0]], a[1..]))
  }

  function PartAt(p: Part, a: Address): Part
    requires Exists(p, a)
    decreases |a|
  {
    if a == [] then p else PartAt(p.children[a[0]], a[1..])
  }

  /** Depth-first pre-order: an ancestor before its descendants, an earlier branch before a later one. */
  predicate Before(a: Address, b: Address) {
    if b == [] then false
    else a == [] || a[0] < b[0] || (a[0] == b[0] && Before(a[1..], b[1..]))
  }

  predicate InOrder(s: seq<Address>) {
    forall i, j :: 0 <= i < j < |s| ==> Before(s[i], s[j])
  }

  lemma {:induction false} BeforeIsIrreflexive(a: Address)
    ensures !Before(a, a)
  {
    if a != [] {
      BeforeIsIrreflexive(a[1..]);
    }
  }

  lemma {:induction false} BeforeUnder(at: Address, a: Address, b: Address)
    ensures Before(at + a, at + b) <==> Before(a, b)
  {
    if at == [] {
      assert at + a == a && at + b == b;
    } else {
      assert (at + a)[1..] == at[1..] + a && (at + b)[1..] == at[1..] + b;
      BeforeUnder(at[1..], a, b);
    }
  }

  // ----- what is listed -----

  /** b is below child j of `at`, for some j of at least i. */
  predicate Below(p: Part, at: Address, i: nat, b: Address) {
    && |b| > |at| && at == b[..|at|]
    && i <= b[|at|] < |p.children| && Exists(p.children[b[|at|]], b[|at| + 1..])
  }

  lemma {:induction false} FromLists(p: Part, at: Address, i: nat, b: Address)
    requires i <= |p.children|
    ensures b in From(p, at, i) <==> Below(p, at, i, b)
    decreases p, 0, |p.children| - i
  {
    if i < |p.children| {
      var c := at + [i];
      DescendantsList(p.children[i], c, b);
      FromLists(p, at, i + 1, b);
      assert b in From(p, at, i) <==> b == c || b in Descendants(p.children[i], c) || b in From(p, at, i + 1);
      if |b| > |at| && at == b[..|at|] && b[|at|] == i {
        assert b == c + b[|at| + 1..];
        assert b[..|c|] == c;
        ExistsUnder(p.children[i], b[|at| + 1..]);
      }
      if |b| > |c| && c == b[..|c|] {
        assert at == b[..|at|] && b[|at|] == i;
      }
    }
  }

  lemma {:induction false} ExistsUnder(p: Part, a: Address)
    ensures Exists(p, a) <==> a == [] || Below(p, [], 0, a)
  {
    if a != [] {
      assert a[..0] == [];
    }
  }

  lemma {:induction false} DescendantsList(p: Part, at: Address, b: Address)
    ensures b in Descendants(p, at) <==> |b| > |at| && at == b[..|at|] && Exists(p, b[|at|..])
    decreases p, 1, 0
  {
    FromLists(p, at, 0, b);
    if |b| > |at| && at == b[..|at|] {
      var a := b[|at|..];
      assert a[0] == b[|at|] && a[1..] == b[|at| + 1..];
    }
  }

  lemma {:induction false} BelowIsBefore(at: Address, i: nat, a: Address, b: Address)
    requires |a| > |at| && at == a[..|at|] && a[|at|] == i
    requires |b| > |at| && at == b[..|at|] && b[|at|] > i
    ensures Before(a, b)
  {
    assert a == at + a[|at|..] && b == at + b[|at|..];
    BeforeUnder(at, a[|at|..], b[|at|..]);
  }

  lemma {:induction false} ParentIsBefore(c: Address, b: Address)
    requires |b| > |c| && c == b[..|c|]
    ensures Before(c, b)
  {
    assert c == c + [] && b == c + b[|c|..];
    BeforeUnder(c, [], b[|c|..]);
  }

  lemma InOrderConcat(s: seq<Address>, t: seq<Address>)
    requires InOrder(s) && InOrder(t)
    requires forall a, b :: a in s && b in t ==> Before(a, b)
    ensures InOrder(s + t)
  {
    var u := s + t;
    forall i, j | 0 <= i < j < |u| ensures Before(u[i], u[j]) {
      if i < |s| <= j {
        assert s[i] in s && t[j - |s|] in t;
      }
    }
  }

  lemma {:induction false} FromInOrder(p: Part, at: Address, i: nat)
    requires i <= |p.children|
    ensures InOrder(From(p, at, i))
    decreases p, 0, |p.children| - i
  {
    if i < |p.children| {
      var c := at + [i];
      var own, rest := Descendants(p.children[i], c), From(p, at, i + 1);
      DescendantsInOrder(p.children[i], c);
      FromInOrder(p, at, i + 1);
      forall a, b | a in [c] && b in own ensures Before(a, b) {
        DescendantsList(p.children[i], c, b);
        ParentIsBefore(c, b);
      }
      InOrderConcat([c], own);
      forall a, b | a in [c] + own && b in rest ensures Before(a, b) {
        FromLists(p, at, i + 1, b);
        if a in own {
          DescendantsList(p.children[i], c, a);
          assert a[..|at|] == a[..|c|][..|at|];
          assert a[|at|] == a[..|c|][|at|];
        }
        BelowIsBefore(at, i, a, b);
      }
      InOrderConcat([c] + own, rest);
    }
  }

  lemma {:induction false} DescendantsInOrder(p: Part, at: Address)
    ensures InOrder(Descendants(p, at))
    decreases p, 1, 0
  {
    FromInOrder(p, at, 0);
  }

  predicate Distinct(s: seq<Address>) {
    forall i, j :: 0 <= i < j < |s| ==> s[i] != s[j]
  }

  /** descendants lists exactly the parts below, each once, in depth-first pre-order. */
  lemma {:induction false} DescendantsArePreorder(p: Part, at: Address)
    ensures var ds := Descendants(p, at);
            && InOrder(ds) && Distinct(ds)
            && forall b :: b in ds <==> |b| > |at| && at == b[..|at|] && Exists(p, b[|at|..])
  {
    var ds := Descendants(p, at);
    DescendantsInOrder(p, at);
    forall i, j | 0 <= i < j < |ds| ensures ds[i] != ds[j] {
      assert Before(ds[i], ds[j]);
      BeforeIsIrreflexive(ds[i]);
    }
    forall b ensures b in ds <==> |b| > |at| && at == b[..|at|] && Exists(p, b[|at|..]) {
      DescendantsList(p, at, b);
    }
  }
}
