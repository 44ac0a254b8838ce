/** The tool registry (`ToolRegistry` in backend/app/tools/registry.py): an insertion-ordered
    dictionary of tools, one prefixed slice of which can be replaced as a whole. */
module Registry {
  import opened Text

  datatype RegisteredTool = RegisteredTool(
    name: string,
    description: string,
    schema: string,
    parallelSafe: bool,
    handler: string)

  datatype Diff = Diff(added: seq<string>, removed: seq<string>, updated: seq<string>, same: seq<string>)

  const NO_CHANGE := Diff([], [], [], [])

  /** Same definition and same parallel flag; the handler is not compared. */
  predicate RegisteredToolsEqual(a: RegisteredTool, b: RegisteredTool) {
    a.name == b.name && a.description == b.description && a.schema == b.schema && a.parallelSafe == b.parallelSafe
  }

  // Selecting from a list in order

  function Within(s: seq<string>, keep: set<string>): (r: seq<string>)
    ensures forall x :: x in r <==> x in s && x in keep
  {
    if s == [] then []
    else Within(s[..|s| - 1], keep) + (if s[|s| - 1] in keep then [s[|s| - 1]] else [])
  }

  function Without(s: seq<string>, drop: set<string>): (r: seq<string>)
    ensures forall x :: x in r <==> x in s && x !in drop
  {
    if s == [] then []
    else Without(s[..|s| - 1], drop) + (if s[|s| - 1] in drop then [] else [s[|s| - 1]])
  }

  predicate Distinct(names: seq<string>) {
    forall i, j :: 0 <= i < j < |names| ==> names[i] != names[j]
  }

  lemma {:induction false} WithoutDistinct(s: seq<string>, drop: set<string>)
    requires Distinct(s)
    ensures Distinct(Without(s, drop))
  {
    if s != [] {
      var before, x := s[..|s| - 1], s[|s| - 1];
      WithoutDistinct(before, drop);
      var kept := Without(before, drop);
      forall i | 0 <= i < |kept|
        ensures kept[i] != x
      {
        assert kept[i] in before;
      }
    }
  }

  lemma {:induction false} WithoutAppend(a: seq<string>, b: seq<string>, drop: set<string>)
    ensures Without(a + b, drop) == Without(a, drop) + Without(b, drop)
  {
    if b == [] {
      assert a + b == a;
    } else {
      assert (a + b)[..|a + b| - 1] == a + b[..|b| - 1];
      WithoutAppend(a, b[..|b| - 1], drop);
    }
  }

  lemma {:induction false} WithoutTwice(s: seq<string>, inner: set<string>, outer: set<string>)
    requires inner <= outer
    ensures Without(Without(s, inner), outer) == Without(s, outer)
  {
    if s != [] {
      var before, x := s[..|s| - 1], s[|s| - 1];
      WithoutTwice(before, inner, outer);
      WithoutAppend(Without(before, inner), if x in inner then [] else [x], outer);
      assert [x][..0] == [];
    }
  }

  lemma {:induction false} WithoutAll(s: seq<string>, drop: set<string>)
    requires forall x :: x in s ==> x in drop
    ensures Without(s, drop) == []
  {
    if s != [] {
      forall x | x in s[..|s| - 1]
        ensures x in drop
      {
        assert x in s;
      }
      WithoutAll(s[..|s| - 1], drop);
      assert s[|s| - 1] in s;
    }
  }

  lemma {:induction false} WithoutSame(s: seq<string>, a: set<string>, b: set<string>)
    requires forall x :: x in s ==> (x in a <==> x in b)
    ensures Without(s, a) == Without(s, b)
  {
    if s != [] {
      forall x | x in s[..|s| - 1]
        ensures x in a <==> x in b
      {
        assert x in s;
      }
      WithoutSame(s[..|s| - 1], a, b);
      assert s[|s| - 1] in s;
    }
  }

  // Lists of tools and dictionaries

  function Names(tools: seq<RegisteredTool>): (r: seq<string>)
    ensures |r| == |tools|
    ensures forall i :: 0 <= i < |tools| ==> r[i] == tools[i].name
  {
    seq(|tools|, i requires 0 <= i < |tools| => tools[i].name)
  }

  /** The dictionary `{tool.name: tool}`. */
  function ByName(tools: seq<RegisteredTool>): (m: map<string, RegisteredTool>)
    ensures forall n :: n in m <==> n in Names(tools)
    ensures forall n :: n in m ==> m[n].name == n && m[n] in tools
  {
    if tools == [] then map[]
    else
      var last := tools[|tools| - 1];
      assert Names(tools) == Names(tools[..|tools| - 1]) + [last.name];
      ByName(tools[..|tools| - 1])[last.name := last]
  }

  lemma {:induction false} ByNameAt(tools: seq<RegisteredTool>, i: nat)
    requires i < |tools| && Distinct(Names(tools))
    ensures tools[i].name in ByName(tools) && ByName(tools)[tools[i].name] == tools[i]
  {
    hide ByName;
    assert Names(tools)[i] in Names(tools);
    var t := ByName(tools)[tools[i].name];
    var j :| 0 <= j < |tools| && tools[j] == t;
    assert Names(tools)[j] == Names(tools)[i];
  }

  lemma DistinctOneMore(names: seq<string>, i: nat)
    requires i < |names|
    ensures Distinct(names[..i + 1]) <==> Distinct(names[..i]) && names[i] !in names[..i]
  {
    var before, more := names[..i], names[..i + 1];
    forall j | 0 <= j < i
      ensures more[j] == before[j]
    {
    }
    if names[i] in before {
      var j :| 0 <= j < i && before[j] == names[i];
      assert more[j] == more[i];
    }
  }

  lemma PrefixDistinct(names: seq<string>, i: nat)
    requires i <= |names|
    ensures Distinct(names) ==> Distinct(names[..i])
  {
  }

  lemma SeenBefore(tools: seq<RegisteredTool>, i: nat)
    requires i < |tools|
    ensures tools[i].name in ByName(tools[..i]) <==> Names(tools)[i] in Names(tools)[..i]
  {
    hide ByName;
    assert Names(tools[..i]) == Names(tools)[..i];
  }

  // The registry as a value

  datatype Table = Table(order: seq<string>, tools: map<string, RegisteredTool>) {
    ghost predicate Valid() {
      && Distinct(order)
      && (forall n :: n in order <==> n in tools)
      && (forall n :: n in tools ==> tools[n].name == n)
    }

    function Under(prefix: string): set<string> {
      set n | n in tools && prefix <= n
    }

    /** The part of the registry under `prefix`. */
    function Slice(prefix: string): (r: map<string, RegisteredTool>)
      ensures forall n :: n in r <==> n in tools && prefix <= n
      ensures forall n :: n in r ==> r[n] == tools[n]
    {
      tools - (tools.Keys - Under(prefix))
    }

    /** All other tools, and their order. */
    function Others(prefix: string): (r: map<string, RegisteredTool>)
      ensures forall n :: n in r <==> n in tools && !(prefix <= n)
      ensures forall n :: n in r ==> r[n] == tools[n]
    {
      tools - Under(prefix)
    }

    function OtherOrder(prefix: string): seq<string> {
      Without(order, Under(prefix))
    }
  }

  predicate Replaceable(prefix: string, incoming: seq<RegisteredTool>) {
    && prefix != ""
    && (forall i :: 0 <= i < |incoming| ==> prefix <= incoming[i].name)
    && Distinct(Names(incoming))
  }

  /** Names under the prefix that do not come in again. */
  function Gone(t: Table, prefix: string, m: map<string, RegisteredTool>): set<string> {
    t.Under(prefix) - m.Keys
  }

  function Changed(t: Table, m: map<string, RegisteredTool>): set<string> {
    set n | n in m && n in t.tools && !RegisteredToolsEqual(t.tools[n], m[n])
  }

  function Kept(t: Table, m: map<string, RegisteredTool>): set<string> {
    set n | n in m && n in t.tools && RegisteredToolsEqual(t.tools[n], m[n])
  }

  function DiffOf(t: Table, prefix: string, incoming: seq<RegisteredTool>): Diff {
    var m := ByName(incoming);
    Diff(
      Without(Names(incoming), t.tools.Keys),
      Within(t.order, Gone(t, prefix, m)),
      Within(Names(incoming), Changed(t, m)),
      Within(Names(incoming), Kept(t, m)))
  }

  function Replaced(t: Table, prefix: string, incoming: seq<RegisteredTool>): Table {
    var m := ByName(incoming);
    Table(
      Without(t.order, Gone(t, prefix, m)) + Without(Names(incoming), t.tools.Keys),
      (t.tools - Gone(t, prefix, m)) + m)
  }

  lemma IncomingUnderPrefix(prefix: string, incoming: seq<RegisteredTool>, n: string)
    requires Replaceable(prefix, incoming) && n in ByName(incoming)
    ensures prefix <= n
  {
    var i :| 0 <= i < |incoming| && Names(incoming)[i] == n;
    assert prefix <= incoming[i].name;
  }

  lemma ReplacedAt(t: Table, prefix: string, incoming: seq<RegisteredTool>, n: string)
    requires Replaceable(prefix, incoming)
    ensures var r, m := Replaced(t, prefix, incoming), ByName(incoming);
            && (prefix <= n ==> (n in r.tools <==> n in m) && (n in m ==> r.tools[n] == m[n]))
            && (!(prefix <= n) ==> (n in r.tools <==> n in t.tools) && (n in t.tools ==> r.tools[n] == t.tools[n]))
  {
    hide ByName, Names, Without, Replaceable;
    if n in ByName(incoming) {
      IncomingUnderPrefix(prefix, incoming, n);
    }
  }

  /** After a replacement the slice is exactly the incoming tools, and every other tool is what it
      was. */
  lemma ReplacedSliceIsIncoming(t: Table, prefix: string, incoming: seq<RegisteredTool>)
    requires Replaceable(prefix, incoming)
    ensures Replaced(t, prefix, incoming).Slice(prefix) == ByName(incoming)
    ensures Replaced(t, prefix, incoming).Others(prefix) == t.Others(prefix)
  {
    hide ByName, Names, Without, Replaced, Replaceable;
    var r, m := Replaced(t, prefix, incoming), ByName(incoming);
    forall n
      ensures n in r.Slice(prefix) <==> n in m
      ensures n in m ==> r.Slice(prefix)[n] == m[n]
      ensures n in r.Others(prefix) <==> n in t.Others(prefix)
      ensures n in t.Others(prefix) ==> r.Others(prefix)[n] == t.Others(prefix)[n]
    {
      ReplacedAt(t, prefix, incoming, n);
      if n in m {
        IncomingUnderPrefix(prefix, incoming, n);
      }
    }
  }

  lemma ReplacedKeepsOtherOrder(t: Table, prefix: string, incoming: seq<RegisteredTool>)
    requires t.Valid() && Replaceable(prefix, incoming)
    ensures Replaced(t, prefix, incoming).OtherOrder(prefix) == t.OtherOrder(prefix)
  {
    hide ByName, Names;
    var r, m := Replaced(t, prefix, incoming), ByName(incoming);
    var gone, added := Gone(t, prefix, m), Without(Names(incoming), t.tools.Keys);
    forall n | n in m
      ensures prefix <= n && n in r.tools
    {
      IncomingUnderPrefix(prefix, incoming, n);
    }
    WithoutAppend(Without(t.order, gone), added, r.Under(prefix));
    WithoutAll(added, r.Under(prefix));
    forall n | n in Without(t.order, gone)
      ensures n in r.Under(prefix) <==> n in t.Under(prefix)
    {
      assert n in t.tools;
    }
    WithoutSame(Without(t.order, gone), r.Under(prefix), t.Under(prefix));
    WithoutTwice(t.order, gone, t.Under(prefix));
    var rest := Without(t.order, t.Under(prefix));
    assert rest + [] == rest;
  }

  /** Same description, schema and parallel flag; whose code runs is not compared. */
  predicate LooksTheSame(a: RegisteredTool, b: RegisteredTool) {
    a.description == b.description && a.schema == b.schema && a.parallelSafe == b.parallelSafe
  }

  /** The diff tells every name apart by what the slice shows before and after: added and removed names
      are in one of them only; a name in both is unchanged when it looks the same, else updated. */
  lemma DiffPartitions(t: Table, prefix: string, incoming: seq<RegisteredTool>, n: string)
    requires t.Valid() && Replaceable(prefix, incoming)
    ensures var d := DiffOf(t, prefix, incoming);
            var before, after := t.Slice(prefix), Replaced(t, prefix, incoming).Slice(prefix);
            && (n in after <==> n in Names(incoming))
            && (n in d.removed <==> n in before && n !in after)
            && (n in d.added <==> n !in before && n in after)
            && (n in d.updated <==> n in before && n in after && !LooksTheSame(before[n], after[n]))
            && (n in d.same <==> n in before && n in after && LooksTheSame(before[n], after[n]))
  {
    hide Replaceable, Distinct;
    ReplacedSliceIsIncoming(t, prefix, incoming);
    if n in ByName(incoming) {
      IncomingUnderPrefix(prefix, incoming, n);
    }
  }

  // Order

  predicate Before(s: seq<string>, x: string, y: string) {
    exists i, j :: 0 <= i < j < |s| && s[i] == x && s[j] == y
  }

  lemma BeforeInConcat(a: seq<string>, b: seq<string>, x: string, y: string)
    ensures Before(a + b, x, y) <==> Before(a, x, y) || Before(b, x, y) || (x in a && y in b)
  {
    var c := a + b;
    if Before(a, x, y) {
      var i, j :| 0 <= i < j < |a| && a[i] == x && a[j] == y;
      assert c[i] == x && c[j] == y;
    }
    if Before(b, x, y) {
      var i, j :| 0 <= i < j < |b| && b[i] == x && b[j] == y;
      assert c[|a| + i] == x && c[|a| + j] == y;
    }
    if x in a && y in b {
      var i :| 0 <= i < |a| && a[i] == x;
      var j :| 0 <= j < |b| && b[j] == y;
      assert c[i] == x && c[|a| + j] == y;
    }
    if Before(c, x, y) {
      var i, j :| 0 <= i < j < |c| && c[i] == x && c[j] == y;
      if i < |a| && j < |a| {
        assert a[i] == x && a[j] == y;
      } else if i < |a| {
        assert a[i] == x && b[j - |a|] == y;
      } else {
        assert b[i - |a|] == x && b[j - |a|] == y;
      }
    }
  }

  lemma {:induction false} WithoutKeepsBefore(s: seq<string>, drop: set<string>, x: string, y: string)
    ensures Before(Without(s, drop), x, y) <==> Before(s, x, y) && x !in drop && y !in drop
  {
    hide Before;
    if s == [] {
      NothingIsBefore([], x, y);
    } else {
      var before, last := s[..|s| - 1], [s[|s| - 1]];
      WithoutKeepsBefore(before, drop, x, y);
      NothingIsBefore([], x, y);
      NothingIsBefore(last, x, y);
      BeforeInConcat(before, last, x, y);
      BeforeInConcat(Without(before, drop), if last[0] in drop then [] else last, x, y);
      assert s == before + last;
    }
  }

  lemma NothingIsBefore(s: seq<string>, x: string, y: string)
    requires |s| <= 1
    ensures !Before(s, x, y)
  {
  }

  lemma BothAreIn(s: seq<string>, x: string, y: string)
    ensures Before(s, x, y) ==> x in s && y in s
  {
  }

  /** The order in which tools are offered after a replacement: tools that stay keep their order, tools
      that come in come after them, in the order in which they came. */
  lemma ReplacedOrder(t: Table, prefix: string, incoming: seq<RegisteredTool>, x: string, y: string)
    requires t.Valid() && Replaceable(prefix, incoming)
    ensures var r := Replaced(t, prefix, incoming);
            Before(r.order, x, y) <==>
            && x in r.tools && y in r.tools
            && (Before(t.order, x, y)
                || (x in t.tools && y !in t.tools)
                || (x !in t.tools && y !in t.tools && Before(Names(incoming), x, y)))
  {
    hide ByName, Names, Without, Distinct, Before, Replaceable;
    var m := ByName(incoming);
    var gone := Gone(t, prefix, m);
    var kept, added := Without(t.order, gone), Without(Names(incoming), t.tools.Keys);
    BeforeInConcat(kept, added, x, y);
    WithoutKeepsBefore(t.order, gone, x, y);
    WithoutKeepsBefore(Names(incoming), t.tools.Keys, x, y);
    BothAreIn(t.order, x, y);
    BothAreIn(Names(incoming), x, y);
  }

  lemma ReplacedValid(t: Table, prefix: string, incoming: seq<RegisteredTool>)
    requires t.Valid() && Replaceable(prefix, incoming)
    ensures Replaced(t, prefix, incoming).Valid()
  {
    hide ByName, Without, Distinct, Names;
    var m := ByName(incoming);
    var kept, added := Without(t.order, Gone(t, prefix, m)), Without(Names(incoming), t.tools.Keys);
    WithoutDistinct(t.order, Gone(t, prefix, m));
    WithoutDistinct(Names(incoming), t.tools.Keys);
    ConcatDistinct(kept, added);
    assert forall n :: n in Replaced(t, prefix, incoming).order <==> n in kept || n in added;
  }

  lemma ConcatDistinct(a: seq<string>, b: seq<string>)
    requires Distinct(a) && Distinct(b) && forall x :: x in a ==> x !in b
    ensures Distinct(a + b)
  {
    forall i, j | 0 <= i < |a| && 0 <= j < |b|
      ensures a[i] != b[j]
    {
      assert a[i] in a && b[j] in b;
    }
  }

  // The registry object

  class ToolRegistry {
    var order: seq<string>
    var tools: map<string, RegisteredTool>

    constructor ()
      ensures View() == Table([], map[]) && View().Valid()
    {
      order, tools := [], map[];
    }

    function View(): Table
      reads this
    {
      Table(order, tools)
    }

    method Register(tool: RegisteredTool) returns (ok: bool)
      requires View().Valid()
      modifies this
      ensures View().Valid()
      ensures ok <==> tool.name !in old(tools)
      ensures View() == if ok then Table(old(order) + [tool.name], old(tools)[tool.name := tool]) else old(View())
    {
      if tool.name in tools {
        return false;
      }
      assert forall n :: n in order + [tool.name] <==> n in order || n == tool.name;
      order, tools := order + [tool.name], tools[tool.name := tool];
      return true;
    }

    /** Checks the whole list before anything is changed. */
    static method CollectIncoming(prefix: string, registered: seq<RegisteredTool>)
      returns (incoming: Option<map<string, RegisteredTool>>)
      requires prefix != ""
      ensures incoming.Some? <==> Replaceable(prefix, registered)
      ensures incoming.Some? ==> incoming.value == ByName(registered)
    {
      var collected: map<string, RegisteredTool> := map[];
      for i := 0 to |registered|
        invariant collected == ByName(registered[..i])
        invariant forall j :: 0 <= j < i ==> prefix <= registered[j].name
        invariant Distinct(Names(registered)[..i])
      {
        var tool := registered[i];
        assert registered[..i + 1][..i] == registered[..i];
        if !(prefix <= tool.name) {
          return None;
        }
        DistinctOneMore(Names(registered), i);
        SeenBefore(registered, i);
        if tool.name in collected {
          assert !Distinct(Names(registered)) by {
            PrefixDistinct(Names(registered), i + 1);
          }
          return None;
        }
        collected := collected[tool.name := tool];
      }
      assert registered[..|registered|] == registered;
      assert Names(registered)[..|registered|] == Names(registered);
      return Some(collected);
    }

    method ReplacePrefix(prefix: string, registered: seq<RegisteredTool>) returns (r: Result<Diff, string>)
      requires View().Valid()
      modifies this
      ensures View().Valid()
      ensures r.Ok? <==> Replaceable(prefix, registered)
      ensures prefix == "" ==> r.Err?
      ensures r.Ok? ==> r.value == DiffOf(old(View()), prefix, registered)
      ensures View() == if r.Ok? then Replaced(old(View()), prefix, registered) else old(View())
    {
      if prefix == "" {
        return Err("ValueError: Tool prefix must not be empty.");
      }
      var collected := CollectIncoming(prefix, registered);
      if collected.None? {
        return Err("ValueError");
      }
      var t, incoming := View(), collected.value;
      ReplacedValid(t, prefix, registered);
      var removed := Within(order, Gone(t, prefix, incoming));
      order, tools := Without(order, Gone(t, prefix, incoming)), tools - Gone(t, prefix, incoming);
      var diff := StoreIncoming(t, prefix, registered, incoming);
      return Ok(diff.(removed := removed));
    }

    /** The last loop: every incoming tool is classified and stored. */
    method StoreIncoming(
        ghost t: Table, ghost prefix: string, registered: seq<RegisteredTool>, incoming: map<string, RegisteredTool>)
      returns (diff: Diff)
      requires Replaceable(prefix, registered) && incoming == ByName(registered)
      requires View() == Table(Without(t.order, Gone(t, prefix, incoming)), t.tools - Gone(t, prefix, incoming))
      modifies this
      ensures View() == Replaced(t, prefix, registered)
      ensures diff == DiffOf(t, prefix, registered).(removed := [])
    {
      hide ByName, Names, Gone, Without, Within, DiffUpTo, RegisteredToolsEqual, Replaceable, DiffOf, Replaced;
      diff := NO_CHANGE;
      assert registered[..0] == [];
      Nothing(t, Names(registered), incoming);
      assert order + [] == order;
      ghost var left, kept := tools, order;
      for i := 0 to |registered|
        invariant diff == DiffUpTo(t, Names(registered), incoming, i)
        invariant order == kept + diff.added
        invariant tools == left + ByName(registered[..i])
      {
        var name := registered[i].name;
        NextIncoming(t, prefix, registered, i);
        NextInDiff(t, Names(registered), incoming, i);
        assert name in tools <==> name in t.tools;
        assert name in tools ==> tools[name] == t.tools[name];
        ghost var soFar := ByName(registered[..i]);
        if name !in tools {
          diff := diff.(added := diff.added + [name]);
          order := order + [name];
        } else if RegisteredToolsEqual(tools[name], incoming[name]) {
          diff := diff.(same := diff.same + [name]);
        } else {
          diff := diff.(updated := diff.updated + [name]);
        }
        OverlayOne(left, soFar, name, incoming[name]);
        tools := tools[name := incoming[name]];
      }
      assert registered[..|registered|] == registered;
      DiffUpToAll(t, prefix, registered);
    }
  }

  lemma OverlayOne(a: map<string, RegisteredTool>, b: map<string, RegisteredTool>, n: string, v: RegisteredTool)
    ensures (a + b)[n := v] == a + b[n := v]
  {
  }

  lemma DiffUpToAll(t: Table, prefix: string, registered: seq<RegisteredTool>)
    ensures DiffUpTo(t, Names(registered), ByName(registered), |registered|)
       == DiffOf(t, prefix, registered).(removed := [])
    ensures var m := ByName(registered);
            Replaced(t, prefix, registered)
            == Table(Without(t.order, Gone(t, prefix, m)) + DiffUpTo(t, Names(registered), m, |registered|).added,
                     (t.tools - Gone(t, prefix, m)) + m)
  {
    assert Names(registered)[..|registered|] == Names(registered);
  }

  /** The lists each name falls into, given which are known, changed and kept. */
  function Classified(names: seq<string>, known: set<string>, changed: set<string>, kept: set<string>): Diff {
    Diff(Without(names, known), [], Within(names, changed), Within(names, kept))
  }

  lemma ClassifiedOneMore(names: seq<string>, n: string, known: set<string>, changed: set<string>, kept: set<string>)
    requires n in known <==> n in changed || n in kept
    requires !(n in changed && n in kept)
    ensures var d := Classified(names, known, changed, kept);
            Classified(names + [n], known, changed, kept)
            == if n !in known then d.(added := d.added + [n])
               else if n in kept then d.(same := d.same + [n])
               else d.(updated := d.updated + [n])
  {
    hide Without, Within;
    assert (names + [n])[..|names|] == names;
    Split(names + [n], known);
    Split(names + [n], changed);
    Split(names + [n], kept);
  }

  /** The running diff after the first `i` incoming tools. */
  function DiffUpTo(t: Table, names: seq<string>, m: map<string, RegisteredTool>, i: nat): Diff
    requires i <= |names|
  {
    Classified(names[..i], t.tools.Keys, Changed(t, m), Kept(t, m))
  }

  lemma Nothing(t: Table, names: seq<string>, m: map<string, RegisteredTool>)
    ensures DiffUpTo(t, names, m, 0) == NO_CHANGE && ByName([]) == map[]
  {
  }

  /** The next incoming tool is new to the dictionary so far and stands in the final one. */
  lemma NextIncoming(t: Table, prefix: string, registered: seq<RegisteredTool>, i: nat)
    requires Replaceable(prefix, registered) && i < |registered|
    ensures var n, m := registered[i].name, ByName(registered);
            && n in m && m[n] == registered[i]
            && n !in ByName(registered[..i])
            && ByName(registered[..i + 1]) == ByName(registered[..i])[n := registered[i]]
            && n !in Gone(t, prefix, m)
  {
    var names := Names(registered);
    ByNameAt(registered, i);
    PrefixDistinct(names, i + 1);
    DistinctOneMore(names, i);
    SeenBefore(registered, i);
    ByNamePrefix(registered, i);
  }

  lemma ByNamePrefix(registered: seq<RegisteredTool>, i: nat)
    requires i < |registered|
    ensures ByName(registered[..i + 1]) == ByName(registered[..i])[registered[i].name := registered[i]]
  {
    assert registered[..i + 1][..i] == registered[..i];
  }

  /** It lands in the list its comparison with the old registry says. */
  lemma NextInDiff(t: Table, names: seq<string>, m: map<string, RegisteredTool>, i: nat)
    requires i < |names| && names[i] in m
    ensures var n := names[i];
            var d, e := DiffUpTo(t, names, m, i), DiffUpTo(t, names, m, i + 1);
            e == if n !in t.tools then d.(added := d.added + [n])
                 else if RegisteredToolsEqual(t.tools[n], m[n]) then d.(same := d.same + [n])
                 else d.(updated := d.updated + [n])
  {
    hide Classified, RegisteredToolsEqual, Changed, Kept;
    ChangedOrKept(t, m, names[i]);
    assert names[..i + 1] == names[..i] + [names[i]];
    ClassifiedOneMore(names[..i], names[i], t.tools.Keys, Changed(t, m), Kept(t, m));
  }

  lemma ChangedOrKept(t: Table, m: map<string, RegisteredTool>, n: string)
    requires n in m
    ensures n in Changed(t, m) <==> n in t.tools && !RegisteredToolsEqual(t.tools[n], m[n])
    ensures n in Kept(t, m) <==> n in t.tools && RegisteredToolsEqual(t.tools[n], m[n])
  {
  }

  lemma Split(s: seq<string>, some: set<string>)
    requires s != []
    ensures var before, x := s[..|s| - 1], s[|s| - 1];
            && Without(s, some) == (if x in some then Without(before, some) else Without(before, some) + [x])
            && Within(s, some) == (if x in some then Within(before, some) + [x] else Within(before, some))
  {
    var before := s[..|s| - 1];
    assert Without(before, some) + [] == Without(before, some);
    assert Within(before, some) + [] == Within(before, some);
  }
}
