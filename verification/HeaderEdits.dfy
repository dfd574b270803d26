/** The editheader extension (RFC 5293): edits are recorded in a log and replayed onto values (interp/editheader.go). */
module HeaderEdits {
  import opened Wrappers
  import opened Sequences

  datatype Edit = Edit(add: bool, field: string, value: string, last: bool, index: int)

  /** What a matcher says of a value; errors count as no match. */
  datatype Verdict = MatchError | NoMatch | Matched

  /** `fold` sends a field name to a representative of its case-insensitive class. */
  datatype Host = Host(fold: string -> string, trim: string -> string, check: string -> Verdict)

  predicate IsMatch(h: Host, v: string) {
    h.check(h.trim(v)).Matched?
  }

  // ----- replay -----

  /** The position an :index argument means, counted from either end. */
  function Position(index: int, last: bool, n: nat): int {
    if last then n - index else index - 1
  }

  function RemoveAt(vs: seq<string>, i: int): seq<string> {
    if 0 <= i < |vs| then vs[..i] + vs[i + 1..] else vs
  }

  function RemoveFirst(vs: seq<string>, v: string): seq<string> {
    if vs == [] then [] else if vs[0] == v then vs[1..] else [vs[0]] + RemoveFirst(vs[1..], v)
  }

  function Replayed(e: Edit, vs: seq<string>): seq<string> {
    if e.add then if e.last then vs + [e.value] else [e.value] + vs
    else if e.index > 0 then RemoveAt(vs, Position(e.index, e.last, |vs|))
    else if e.value != "" then RemoveFirst(vs, e.value)
    else []
  }

  /** The values of a field after the whole log. */
  function Replay(h: Host, log: seq<Edit>, field: string, vs: seq<string>): seq<string> {
    if log == [] then vs
    else
      var vs' := if h.fold(log[0].field) == h.fold(field) then Replayed(log[0], vs) else vs;
      Replay(h, log[1..], field, vs')
  }

  lemma {:induction false} ReplayConcat(h: Host, log: seq<Edit>, more: seq<Edit>, field: string, vs: seq<string>)
    ensures Replay(h, log + more, field, vs) == Replay(h, more, field, Replay(h, log, field, vs))
    decreases |log|
  {
    if log == [] {
      assert log + more == more;
    } else {
      assert (log + more)[1..] == log[1..] + more;
      var vs' := if h.fold(log[0].field) == h.fold(field) then Replayed(log[0], vs) else vs;
      ReplayConcat(h, log[1..], more, field, vs');
    }
  }

  // ----- replay as written: one array, updated in place -----

  method DeleteAt(a: array<string>, n: nat, i: nat)
    requires i < n <= a.Length
    modifies a
    ensures a[..n - 1] == RemoveAt(old(a[..n]), i)
  {
    ghost var was := a[..n];
    for j := i to n - 1
      invariant a[..j] == was[..i] + was[i + 1..j + 1]
      invariant forall k :: j <= k < n ==> a[k] == was[k]
    {
      ghost var done := a[..j];
      a[j] := a[j + 1];
      assert a[..j + 1] == done + [was[j + 1]];
      assert was[i + 1..j + 2] == was[i + 1..j + 1] + [was[j + 1]];
    }
    assert was[i + 1..n] == was[i + 1..];
  }

  lemma {:induction false} RemoveFirstSplits(s: seq<string>, t: seq<string>, v: string)
    ensures RemoveFirst(s + t, v) == if v in s then RemoveFirst(s, v) + t else s + RemoveFirst(t, v)
    decreases |s|
  {
    if s == [] {
      assert s + t == t;
    } else {
      assert (s + t)[1..] == s[1..] + t;
      RemoveFirstSplits(s[1..], t, v);
      assert v in s <==> v == s[0] || v in s[1..];
    }
  }

  lemma {:induction false} NotRemoved(s: seq<string>, v: string)
    requires v !in s
    ensures RemoveFirst(s, v) == s
    decreases |s|
  {
    if s != [] {
      NotRemoved(s[1..], v);
      assert s == [s[0]] + s[1..];
    }
  }

  lemma {:induction false} RemoveFirstSnoc(s: seq<string>, x: string, v: string)
    ensures RemoveFirst(s + [x], v)
         == if v in s then RemoveFirst(s, v) + [x] else if x == v then s else s + [x]
  {
    RemoveFirstSplits(s, [x], v);
    assert [x][1..] == [];
    if v !in s {
      NotRemoved(s, v);
    }
  }

  /** What the filter has made of the values read so far. */
  predicate Filtered(read: seq<string>, v: string, out: seq<string>, deleted: bool) {
    (deleted <==> v in read) && out == RemoveFirst(read, v)
  }

  lemma FilterStep(was: seq<string>, i: nat, v: string, out: seq<string>, deleted: bool)
    requires i < |was| && Filtered(was[..i], v, out, deleted)
    ensures if !deleted && was[i] == v then Filtered(was[..i + 1], v, out, true)
            else Filtered(was[..i + 1], v, out + [was[i]], deleted)
  {
    Cursor(was, i);
    RemoveFirstSnoc(was[..i], was[i], v);
    if !deleted {
      NotRemoved(was[..i], v);
    }
  }

  method Put(a: array<string>, k: nat, v: string)
    requires k < a.Length
    modifies a
    ensures a[..k + 1] == old(a[..k]) + [v]
    ensures forall j :: k < j < a.Length ==> a[j] == old(a[j])
  {
    a[k] := v;
  }

  /** Filters in place: the write position never passes the read position. */
  method DeleteFirst(a: array<string>, n: nat, v: string) returns (k: nat)
    requires n <= a.Length
    modifies a
    ensures k <= n && a[..k] == RemoveFirst(old(a[..n]), v)
  {
    ghost var was := a[..n];
    var deleted := false;
    k := 0;
    for i := 0 to n
      invariant 0 <= k <= i && Filtered(was[..i], v, a[..k], deleted)
      invariant forall j :: i <= j < n ==> a[j] == was[j]
    {
      FilterStep(was, i, v, a[..k], deleted);
      if !deleted && a[i] == v {
        deleted := true;
        continue;
      }
      Put(a, k, a[i]);
      k := k + 1;
    }
    assert was[..n] == was;
  }

  /** Appends within the array when there is room, else in a larger copy. */
  method Append(a: array<string>, n: nat, v: string) returns (b: array<string>)
    requires n <= a.Length
    modifies a
    ensures b == a || fresh(b)
    ensures n + 1 <= b.Length && b[..n + 1] == old(a[..n]) + [v]
  {
    if n < a.Length {
      b := a;
    } else {
      b := new string[2 * n + 1];
      for i := 0 to n
        invariant forall j :: 0 <= j < i ==> b[j] == a[j]
        invariant a[..] == old(a[..])
      {
        b[i] := a[i];
      }
    }
    b[n] := v;
  }

  method Prepend(a: array<string>, n: nat, v: string) returns (b: array<string>)
    requires n <= a.Length
    ensures fresh(b) && b.Length == n + 1 && b[..] == [v] + a[..n]
  {
    b := new string[n + 1];
    b[0] := v;
    for i := 0 to n
      invariant b[0] == v && forall j :: 0 <= j < i ==> b[j + 1] == a[j]
    {
      b[i + 1] := a[i];
    }
  }

  method ReplayOne(a: array<string>, n: nat, e: Edit) returns (b: array<string>, m: nat)
    requires n <= a.Length
    modifies a
    ensures b == a || fresh(b)
    ensures m <= b.Length && b[..m] == Replayed(e, old(a[..n]))
  {
    b, m := a, n;
    if e.add {
      if e.last {
        b := Append(a, n, e.value);
      } else {
        b := Prepend(a, n, e.value);
        assert b[..] == b[..n + 1];
      }
      m := n + 1;
    } else if e.index > 0 {
      var i := Position(e.index, e.last, n);
      if 0 <= i < n {
        DeleteAt(a, n, i);
        m := n - 1;
      }
    } else if e.value != "" {
      m := DeleteFirst(a, n, e.value);
    } else {
      m := 0;
    }
  }

  /** applyHeaderEditsToValues: the replay works on a copy, the caller's values stay as they are. */
  method ApplyEdits(h: Host, log: seq<Edit>, field: string, values: array<string>) returns (b: array<string>, m: nat)
    ensures m <= b.Length && b[..m] == Replay(h, log, field, values[..])
    ensures log != [] ==> fresh(b)
    ensures values[..] == old(values[..])
  {
    if log == [] {
      return values, values.Length;
    }
    b, m := new string[values.Length], values.Length;
    for i := 0 to values.Length
      invariant forall j :: 0 <= j < i ==> b[j] == values[j]
      invariant values[..] == old(values[..])
    {
      b[i] := values[i];
    }
    assert b[..m] == values[..];
    assert log[0..] == log;
    for i := 0 to |log|
      invariant m <= b.Length && fresh(b)
      invariant Replay(h, log, field, values[..]) == Replay(h, log[i..], field, b[..m])
      invariant values[..] == old(values[..])
    {
      assert log[i..][1..] == log[i + 1..];
      if h.fold(log[i].field) == h.fold(field) {
        b, m := ReplayOne(b, m, log[i]);
      }
    }
  }

  // ----- commands -----

  predicate IsValidName(name: string) {
    name != "" && forall i :: 0 <= i < |name| ==> 33 <= name[i] as int <= 126 && name[i] != ':'
  }

  predicate IsProtected(h: Host, name: string) {
    h.fold(name) == h.fold("received") || h.fold(name) == h.fold("auto-submitted")
  }

  function AddHeader(log: seq<Edit>, field: string, value: string, last: bool): seq<Edit> {
    if IsValidName(field) then log + [Edit(true, field, value, last, 0)] else log
  }

  /** The names a field may have: printable ASCII characters without the colon. */
  predicate IsFieldName(name: string) {
    name != "" && forall c :: c in name ==> '!' <= c <= '~' && c != ':'
  }

  lemma NamesAgree(name: string)
    ensures IsFieldName(name) <==> IsValidName(name)
  {
    if IsFieldName(name) {
      forall i | 0 <= i < |name| ensures 33 <= name[i] as int <= 126 && name[i] != ':' {
        assert name[i] in name;
      }
    }
  }

  /**
   * addheader puts its value before or, with :last, after the visible ones, and leaves other fields alone;
   * with what is no field name it does nothing.
   */
  lemma {:induction false} AddedValueIsVisible(h: Host, log: seq<Edit>, field: string, value: string, last: bool,
                                               other: string, header: seq<string>)
    ensures var visible := Replay(h, log, other, header);
            var after := Replay(h, AddHeader(log, field, value, last), other, header);
            after == if !IsFieldName(field) || h.fold(other) != h.fold(field) then visible
                     else if last then visible + [value] else [value] + visible
  {
    NamesAgree(field);
    var e := Edit(true, field, value, last, 0);
    ReplayConcat(h, log, [e], other, header);
    assert [e][1..] == [];
  }

  /** The deletions recorded for the values that match. */
  function Deletions(h: Host, field: string, vs: seq<string>): seq<Edit> {
    if vs == [] then []
    else (if IsMatch(h, vs[0]) then [Edit(false, field, vs[0], false, 0)] else []) + Deletions(h, field, vs[1..])
  }

  /** deleteheader; `header` is what the message holds, None when it cannot be read. */
  function DeleteHeader(h: Host, log: seq<Edit>, field: string, hasPatterns: bool, index: int, last: bool,
                        header: Option<seq<string>>): seq<Edit> {
    if !IsValidName(field) || IsProtected(h, field) then log
    else if !hasPatterns then log + [Edit(false, field, "", last, index)]
    else if header.None? then log
    else
      var vs := Replay(h, log, field, header.value);
      if index > 0 then
        var i := Position(index, last, |vs|);
        if 0 <= i < |vs| && IsMatch(h, vs[i]) then log + [Edit(false, field, "", last, index)] else log
      else log + Deletions(h, field, vs)
  }

  lemma {:induction false} DeletionsSnoc(h: Host, field: string, vs: seq<string>, v: string)
    ensures Deletions(h, field, vs + [v])
         == Deletions(h, field, vs) + if IsMatch(h, v) then [Edit(false, field, v, false, 0)] else []
    decreases |vs|
  {
    if vs == [] {
      assert vs + [v] == [v] && [v][1..] == [];
    } else {
      assert (vs + [v])[1..] == vs[1..] + [v];
      DeletionsSnoc(h, field, vs[1..], v);
    }
  }

  /** CmdDeleteHeader.Execute as written. */
  method ExecuteDelete(h: Host, log: seq<Edit>, field: string, hasPatterns: bool, index: int, last: bool,
                       header: Option<array<string>>) returns (log': seq<Edit>)
    ensures log' == DeleteHeader(h, log, field, hasPatterns, index, last,
                                 if header.None? then None else Some(header.value[..]))
  {
    log' := log;
    if !IsValidName(field) || IsProtected(h, field) {
      return;
    }
    if !hasPatterns {
      return log + [Edit(false, field, "", last, index)];
    }
    if header.None? {
      return;
    }
    var values, n := ApplyEdits(h, log, field, header.value);
    ghost var visible := Replay(h, log, field, header.value[..]);
    assert values[..n] == visible;
    if index > 0 {
      var i := Position(index, last, n);
      assert 0 <= i < n ==> values[i] == visible[i];
      if 0 <= i < n && IsMatch(h, values[i]) {
        log' := log + [Edit(false, field, "", last, index)];
      }
      return;
    }
    for i := 0 to n
      invariant values[..n] == visible && log' == log + Deletions(h, field, values[..i])
    {
      DeletionsSnoc(h, field, values[..i], values[i]);
      assert values[..i + 1] == values[..i] + [values[i]];
      if IsMatch(h, values[i]) {
        log' := log' + [Edit(false, field, values[i], false, 0)];
      }
    }
  }

  // ----- what deletion by pattern does -----

  function Unmatched(h: Host, vs: seq<string>): seq<string> {
    if vs == [] then [] else (if IsMatch(h, vs[0]) then [] else [vs[0]]) + Unmatched(h, vs[1..])
  }

  predicate NoneMatches(h: Host, vs: seq<string>) {
    forall i :: 0 <= i < |vs| ==> !IsMatch(h, vs[i])
  }

  predicate AllMatch(h: Host, vs: seq<string>) {
    forall i :: 0 <= i < |vs| ==> IsMatch(h, vs[i])
  }

  lemma {:induction false} DeletionStep(h: Host, field: string, v: string, more: seq<Edit>, vs: seq<string>)
    requires v != ""
    ensures Replay(h, [Edit(false, field, v, false, 0)] + more, field, vs) == Replay(h, more, field, RemoveFirst(vs, v))
  {
    assert ([Edit(false, field, v, false, 0)] + more)[1..] == more;
  }

  /** Deleting each matching value in turn leaves exactly the others, in order. */
  lemma {:induction false} DeletionsFilter(h: Host, field: string, kept: seq<string>, vs: seq<string>)
    requires NoneMatches(h, kept) && !("" in vs && IsMatch(h, ""))
    ensures Replay(h, Deletions(h, field, vs), field, kept + vs) == kept + Unmatched(h, vs)
    decreases |vs|
  {
    if vs == [] {
    } else if IsMatch(h, vs[0]) {
      DeletionStep(h, field, vs[0], Deletions(h, field, vs[1..]), kept + vs);
      RemoveAfter(h, kept, vs);
      DeletionsFilter(h, field, kept, vs[1..]);
      assert Unmatched(h, vs) == Unmatched(h, vs[1..]);
    } else {
      Shift(kept, vs);
      Associate(kept, [vs[0]], Unmatched(h, vs[1..]));
      DeletionsFilter(h, field, kept + [vs[0]], vs[1..]);
      assert Deletions(h, field, vs) == Deletions(h, field, vs[1..]);
    }
  }

  lemma {:induction false} RemoveAfter(h: Host, kept: seq<string>, vs: seq<string>)
    requires NoneMatches(h, kept) && vs != [] && IsMatch(h, vs[0])
    ensures RemoveFirst(kept + vs, vs[0]) == kept + vs[1..]
  {
    RemoveFirstSplits(kept, vs, vs[0]);
  }

  lemma {:induction false} DeletionsOfNothing(h: Host, field: string, vs: seq<string>)
    ensures Replay(h, Deletions(h, field, vs), field, []) == []
    decreases |vs|
  {
    if vs != [] {
      DeletionsOfNothing(h, field, vs[1..]);
      if IsMatch(h, vs[0]) {
        assert Deletions(h, field, vs)[1..] == Deletions(h, field, vs[1..]);
      } else {
        assert Deletions(h, field, vs) == Deletions(h, field, vs[1..]);
      }
    }
  }

  /** An empty matching value is recorded as a deletion of everything. */
  lemma {:induction false} EmptyMatchDeletesAll(h: Host, field: string, vs: seq<string>, now: seq<string>)
    requires "" in vs && IsMatch(h, "")
    ensures Replay(h, Deletions(h, field, vs), field, now) == []
    decreases |vs|
  {
    var rest := Deletions(h, field, vs[1..]);
    if IsMatch(h, vs[0]) {
      assert Deletions(h, field, vs)[1..] == rest;
      if vs[0] == "" {
        DeletionsOfNothing(h, field, vs[1..]);
      } else {
        EmptyMatchDeletesAll(h, field, vs[1..], RemoveFirst(now, vs[0]));
      }
    } else {
      assert Deletions(h, field, vs) == rest;
      EmptyMatchDeletesAll(h, field, vs[1..], now);
    }
  }

  lemma {:induction false} UnmatchedIsEmpty(h: Host, vs: seq<string>)
    ensures Unmatched(h, vs) == [] <==> AllMatch(h, vs)
    decreases |vs|
  {
    if vs != [] {
      UnmatchedIsEmpty(h, vs[1..]);
      assert vs == [vs[0]] + vs[1..];
    }
  }

  /** deleteheader may touch every field but two. */
  predicate Deletable(h: Host, field: string) {
    IsFieldName(field) && h.fold(field) !in {h.fold("received"), h.fold("auto-submitted")}
  }

  /** It does nothing with other names, and with patterns when the message cannot be read. */
  lemma OtherNamesAreRefused(h: Host, log: seq<Edit>, field: string, hasPatterns: bool, index: int, last: bool,
                             header: Option<seq<string>>)
    requires !Deletable(h, field) || (hasPatterns && header.None?)
    ensures DeleteHeader(h, log, field, hasPatterns, index, last, header) == log
  {
    NamesAgree(field);
  }

  /** Without patterns it removes the value that :index counts from either end, if there is one, or else every value. */
  lemma {:induction false} DeleteWithoutPatterns(h: Host, log: seq<Edit>, field: string, header: seq<string>,
                                                 index: int, last: bool, readable: Option<seq<string>>)
    requires Deletable(h, field)
    ensures var visible := Replay(h, log, field, header);
            var i := if last then |visible| - index else index - 1;
            Replay(h, DeleteHeader(h, log, field, false, index, last, readable), field, header)
            == if index <= 0 then [] else if 0 <= i < |visible| then visible[..i] + visible[i + 1..] else visible
  {
    NamesAgree(field);
    var e := Edit(false, field, "", last, index);
    ReplayConcat(h, log, [e], field, header);
    assert [e][1..] == [];
  }

  /**
   * deleteheader with patterns and no :index leaves the previously visible values minus exactly the matching ones,
   * in order, if and only if no empty value matches or every value matches.
   */
  lemma {:induction false} DeleteIsFilter(h: Host, log: seq<Edit>, field: string, header: seq<string>, index: int,
                                          last: bool)
    requires Deletable(h, field) && index <= 0
    ensures var visible := Replay(h, log, field, header);
            var log' := DeleteHeader(h, log, field, true, index, last, Some(header));
            var filtered := Replay(h, log', field, header) == Unmatched(h, visible);
            filtered <==> !("" in visible && IsMatch(h, "")) || AllMatch(h, visible)
  {
    var visible := Replay(h, log, field, header);
    NamesAgree(field);
    ReplayConcat(h, log, Deletions(h, field, visible), field, header);
    if "" in visible && IsMatch(h, "") {
      EmptyMatchDeletesAll(h, field, visible, visible);
      UnmatchedIsEmpty(h, visible);
    } else {
      DeletionsFilter(h, field, [], visible);
      assert [] + visible == visible;
      assert [] + Unmatched(h, visible) == Unmatched(h, visible);
    }
  }

  /** With :index it removes that one value when it is there and matches, and nothing otherwise. */
  lemma {:induction false} DeleteIndexRemovesOne(h: Host, log: seq<Edit>, field: string, header: seq<string>,
                                                 index: int, last: bool)
    requires Deletable(h, field) && index > 0
    ensures var visible := Replay(h, log, field, header);
            var i := if last then |visible| - index else index - 1;
            var log' := DeleteHeader(h, log, field, true, index, last, Some(header));
            Replay(h, log', field, header)
              == if 0 <= i < |visible| && h.check(h.trim(visible[i])).Matched? then visible[..i] + visible[i + 1..]
                 else visible
  {
    var visible := Replay(h, log, field, header);
    var i := Position(index, last, |visible|);
    NamesAgree(field);
    DeleteWithoutPatterns(h, log, field, header, index, last, None);
    if 0 <= i < |visible| && IsMatch(h, visible[i]) {
      assert DeleteHeader(h, log, field, true, index, last, Some(header))
          == DeleteHeader(h, log, field, false, index, last, None);
    }
  }

  /** deleteheader :index 1, from the same end, undoes addheader. */
  lemma {:induction false} DeleteUndoesAdd(h: Host, log: seq<Edit>, field: string, value: string, last: bool,
                                           header: seq<string>)
    requires Deletable(h, field)
    ensures var added := AddHeader(log, field, value, last);
            Replay(h, DeleteHeader(h, added, field, false, 1, last, Some(header)), field, header)
            == Replay(h, log, field, header)
  {
    var visible := Replay(h, log, field, header);
    var added, e := AddHeader(log, field, value, last), Edit(false, field, "", last, 1);
    NamesAgree(field);
    AddedValueIsVisible(h, log, field, value, last, field, header);
    ReplayConcat(h, added, [e], field, header);
    assert [e][1..] == [];
    if last {
      assert (visible + [value])[..|visible|] == visible;
    } else {
      assert ([value] + visible)[1..] == visible;
    }
  }

  /** An edit of one field leaves the visible values of every other field alone. */
  lemma {:induction false} OtherFieldsKept(h: Host, log: seq<Edit>, field: string, hasPatterns: bool, index: int,
                                           last: bool, header: Option<seq<string>>, other: string, values: seq<string>)
    requires h.fold(other) != h.fold(field)
    ensures Replay(h, DeleteHeader(h, log, field, hasPatterns, index, last, header), other, values)
         == Replay(h, log, other, values)
  {
    var e := Edit(false, field, "", last, index);
    ReplayConcat(h, log, [e], other, values);
    assert [e][1..] == [];
    if header.Some? {
      var vs := Replay(h, log, field, header.value);
      ReplayConcat(h, log, Deletions(h, field, vs), other, values);
      DeletionsElsewhere(h, field, vs, other, Replay(h, log, other, values));
    }
  }

  lemma {:induction false} DeletionsElsewhere(h: Host, field: string, vs: seq<string>, other: string, now: seq<string>)
    requires h.fold(other) != h.fold(field)
    ensures Replay(h, Deletions(h, field, vs), other, now) == now
    decreases |vs|
  {
    if vs != [] {
      DeletionsElsewhere(h, field, vs[1..], other, now);
      if IsMatch(h, vs[0]) {
        assert Deletions(h, field, vs)[1..] == Deletions(h, field, vs[1..]);
      } else {
        assert Deletions(h, field, vs) == Deletions(h, field, vs[1..]);
      }
    }
  }

  /** A recorded empty value wipes the field: values "" and "x" where only "" matches are both gone. */
  lemma {:induction false} EmptyValueWipesField(h: Host, field: string)
    requires Deletable(h, field) && IsMatch(h, "") && !IsMatch(h, "x")
    ensures Replay(h, DeleteHeader(h, [], field, true, 0, false, Some(["", "x"])), field, ["", "x"]) == []
  {
    var vs := ["", "x"];
    NamesAgree(field);
    assert Replay(h, [], field, vs) == vs;
    EmptyMatchDeletesAll(h, field, vs, vs);
    assert [] + Deletions(h, field, vs) == Deletions(h, field, vs);
  }
}
