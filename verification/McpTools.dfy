/**
 The flattened tool list of the MCP manager: every tool of every connected server under a
 unique name, and what listing, permission check and dispatch make of it.
 */
module McpTools {
  import Lex

  datatype Tool = Tool(name: string, body: int)

  datatype FlatTool = FlatTool(name: string, server: string, tool: Tool)

  predicate Allowed(c: char) {
    'a' <= c <= 'z' || 'A' <= c <= 'Z' || '0' <= c <= '9' || c == '_' || c == '-'
  }

  function Sanitize(s: string): string {
    seq(|s|, i requires 0 <= i < |s| => if Allowed(s[i]) then s[i] else '_')
  }

  function FlatName(server: string, tool: Tool): string {
    Sanitize(server) + "_" + Sanitize(tool.name)
  }

  function Flat(server: string, tool: Tool): FlatTool {
    FlatTool(FlatName(server, tool), server, tool)
  }

  /** A letter, a digit, an underscore or a hyphen, by its code. */
  predicate WordChar(c: char) {
    var n := c as int;
    0x30 <= n <= 0x39 || 0x41 <= n <= 0x5A || 0x61 <= n <= 0x7A || n == 0x5F || n == 0x2D
  }

  /** What a tool's name keeps: its word characters, in their places; everything else becomes an underscore. */
  lemma FlatNameKeepsWords(server: string, tool: Tool)
    ensures var n, name := |server|, FlatName(server, tool);
            && |name| == n + 1 + |tool.name| && name[n] == '_'
            && (forall i | 0 <= i < n :: name[i] == if WordChar(server[i]) then server[i] else '_')
            && (forall i | 0 <= i < |tool.name| ::
                  name[n + 1 + i] == if WordChar(tool.name[i]) then tool.name[i] else '_')
            && (forall i | 0 <= i < |name| :: WordChar(name[i]))
  {
    var n, name := |server|, FlatName(server, tool);
    forall i | 0 <= i < |name|
      ensures i < n ==> name[i] == if WordChar(server[i]) then server[i] else '_'
      ensures i > n ==> name[i] == if WordChar(tool.name[i - n - 1]) then tool.name[i - n - 1] else '_'
      ensures WordChar(name[i])
    {
    }
    forall i | 0 <= i < |tool.name|
      ensures name[n + 1 + i] == if WordChar(tool.name[i]) then tool.name[i] else '_'
    {
      assert tool.name[n + 1 + i - n - 1] == tool.name[i];
    }
  }

  /** The characters are not told apart in a name: both become an underscore, or are the same. */
  predicate Alike(c: char, d: char) {
    c == d || ((c == '_' || !WordChar(c)) && (d == '_' || !WordChar(d)))
  }

  predicate AllAlike(x: string, y: string) {
    |x| == |y| && forall i | 0 <= i < |x| :: Alike(x[i], y[i])
  }

  lemma SanitizeJoins(x: string, y: string)
    ensures Sanitize(x) == Sanitize(y) <==> AllAlike(x, y)
  {
    if Sanitize(x) == Sanitize(y) {
      forall i | 0 <= i < |x|
        ensures Alike(x[i], y[i])
      {
        assert Sanitize(x)[i] == Sanitize(y)[i];
      }
    }
  }

  /** Two tools of one server share a name exactly if they differ only in what becomes an underscore. */
  lemma SameNameIff(server: string, x: Tool, y: Tool)
    ensures FlatName(server, x) == FlatName(server, y) <==> AllAlike(x.name, y.name)
  {
    SanitizeJoins(x.name, y.name);
    hide Sanitize, AllAlike;
    var p := Sanitize(server) + "_";
    assert (p + Sanitize(x.name))[|p|..] == Sanitize(x.name) && (p + Sanitize(y.name))[|p|..] == Sanitize(y.name);
  }

  // ---------------------------------------------------------------------------
  // Collecting and sorting
  // ---------------------------------------------------------------------------

  /** The tools in the order in which the servers and their lists are iterated. */
  function Collect(tools: map<string, seq<Tool>>, order: seq<string>): seq<FlatTool>
    requires forall s | s in order :: s in tools
  {
    if order == [] then []
    else
      var list := tools[order[0]];
      seq(|list|, i requires 0 <= i < |list| => Flat(order[0], list[i])) + Collect(tools, order[1..])
  }

  /** The order by name, then by server. */
  predicate Before(x: FlatTool, y: FlatTool) {
    if x.name != y.name then Lex.Less(x.name, y.name) else Lex.Less(x.server, y.server)
  }

  /** `s` is a result of sorting `all`; the sort is not stable, so there may be several. */
  ghost predicate SortOf(s: seq<FlatTool>, all: seq<FlatTool>) {
    multiset(s) == multiset(all) && Sorted(s)
  }

  // ---------------------------------------------------------------------------
  // Removing duplicates
  // ---------------------------------------------------------------------------

  function Names(s: seq<FlatTool>): set<string> {
    set x | x in s :: x.name
  }

  /** The first entry of every name. */
  function FirstPerName(s: seq<FlatTool>): seq<FlatTool> {
    if s == [] then []
    else
      var init, last := s[..|s| - 1], s[|s| - 1];
      if last.name in Names(init) then FirstPerName(init) else FirstPerName(init) + [last]
  }

  lemma OneMoreEntry(s: seq<FlatTool>, x: FlatTool)
    ensures FirstPerName(s + [x]) == FirstPerName(s) + if x.name in Names(s) then [] else [x]
    ensures Names(s + [x]) == Names(s) + {x.name}
    ensures x.name in Names(s) ==> Names(s + [x]) == Names(s)
  {
    assert (s + [x])[..|s|] == s;
  }

  lemma NextEntry(s: seq<FlatTool>, i: nat)
    requires i < |s|
    ensures FirstPerName(s[..i + 1]) == FirstPerName(s[..i]) + if s[i].name in Names(s[..i]) then [] else [s[i]]
    ensures Names(s[..i + 1]) == Names(s[..i]) + {s[i].name}
    ensures s[i].name in Names(s[..i]) ==> Names(s[..i + 1]) == Names(s[..i])
  {
    assert s[..i + 1] == s[..i] + [s[i]];
    OneMoreEntry(s[..i], s[i]);
  }

  /** The output shares the array with the input and never overtakes it. */
  method Dedupe(a: array<FlatTool>) returns (n: nat)
    modifies a
    ensures n <= a.Length
    ensures a[..n] == FirstPerName(old(a[..]))
  {
    ghost var s, out := a[..], [];
    var seen: set<string> := {};
    n := 0;
    assert s[..0] == [] && FirstPerName([]) == [] && Names([]) == {};
    hide *;
    for i := 0 to a.Length
      invariant n == |out| <= i
      invariant forall j | i <= j < a.Length :: a[j] == s[j]
      invariant forall j | 0 <= j < n :: a[j] == out[j]
      invariant out == FirstPerName(s[..i]) && seen == Names(s[..i])
    {
      var x := a[i];
      NextEntry(s, i);
      if x.name !in seen {
        seen := seen + {x.name};
        a[n] := x;
        n := n + 1;
        out := out + [x];
      }
    }
    assert s[..a.Length] == s && a[..n] == out;
  }

  /** Sorted by name without repetition. */
  predicate StrictlySorted(s: seq<FlatTool>) {
    forall i, j | 0 <= i < j < |s| :: Lex.Less(s[i].name, s[j].name)
  }

  /** `out` has exactly the names of `s`, each with the least server that has it. */
  predicate LeastServers(out: seq<FlatTool>, s: seq<FlatTool>) {
    && Names(out) == Names(s)
    && (forall x | x in out :: x in s)
    && (forall x, y | x in out && y in s && x.name == y.name :: !Lex.Less(y.server, x.server))
  }

  predicate Sorted(s: seq<FlatTool>) {
    forall i, j | 0 <= i < j < |s| :: !Before(s[j], s[i])
  }

  lemma LastIsNotBefore(s: seq<FlatTool>, x: FlatTool)
    requires s != [] && Sorted(s) && x in s[..|s| - 1]
    ensures !Before(s[|s| - 1], x)
  {
    var i :| 0 <= i < |s| - 1 && s[..|s| - 1][i] == x;
    assert s[i] == x;
  }

  /** An entry that is not before any of the others and has a new name comes last. */
  lemma AppendNewName(out: seq<FlatTool>, init: seq<FlatTool>, last: FlatTool)
    requires StrictlySorted(out) && LeastServers(out, init)
    requires forall x | x in init :: !Before(last, x)
    requires last.name !in Names(init)
    ensures StrictlySorted(out + [last]) && LeastServers(out + [last], init + [last])
  {
    forall x | x in out ensures Lex.Less(x.name, last.name) {
      assert x in init && x.name in Names(init);
      Lex.Total(x.name, last.name);
    }
    NewNameIsLeast(out, init, last);
  }

  lemma NewNameIsLeast(out: seq<FlatTool>, init: seq<FlatTool>, last: FlatTool)
    requires LeastServers(out, init) && last.name !in Names(init)
    ensures LeastServers(out + [last], init + [last])
  {
    hide FirstPerName;
    assert forall y | y in init :: y.name in Names(init);
    assert forall x | x in out :: x.name in Names(out);
    Lex.Irreflexive(last.server);
    OneMoreEntry(out, last);
    OneMoreEntry(init, last);
  }

  /** An entry that is not before any of the others and has an old name changes nothing. */
  lemma SkipOldName(out: seq<FlatTool>, init: seq<FlatTool>, last: FlatTool)
    requires LeastServers(out, init)
    requires forall x | x in init :: !Before(last, x)
    requires last.name in Names(init)
    ensures LeastServers(out, init + [last])
  {
    OneMoreEntry(init, last);
  }

  lemma {:induction false} FirstPerNameIsLeast(s: seq<FlatTool>)
    requires Sorted(s)
    ensures StrictlySorted(FirstPerName(s)) && LeastServers(FirstPerName(s), s)
  {
    if s != [] {
      var init, last := s[..|s| - 1], s[|s| - 1];
      forall x | x in init ensures !Before(last, x) {
        LastIsNotBefore(s, x);
      }
      assert s == init + [last];
      FirstPerNameIsLeast(init);
      hide StrictlySorted, LeastServers, Sorted;
      if last.name in Names(init) {
        SkipOldName(FirstPerName(init), init, last);
      } else {
        AppendNewName(FirstPerName(init), init, last);
      }
    }
  }

  // ---------------------------------------------------------------------------
  // The list does not depend on the iteration order
  // ---------------------------------------------------------------------------

  lemma FirstNameIsFirst(s: seq<FlatTool>, t: seq<FlatTool>)
    requires StrictlySorted(s) && StrictlySorted(t) && Names(s) == Names(t) && s != [] && t != []
    ensures s[0].name == t[0].name
  {
    assert s[0].name in Names(t) && t[0].name in Names(s);
    var i :| 0 <= i < |t| && t[i].name == s[0].name;
    var j :| 0 <= j < |s| && s[j].name == t[0].name;
    if i > 0 && j > 0 {
      Lex.Transitive(s[0].name, s[j].name, t[i].name);
      Lex.Irreflexive(s[0].name);
    }
  }

  lemma NamesOfTail(s: seq<FlatTool>)
    requires StrictlySorted(s) && s != []
    ensures Names(s[1..]) == Names(s) - {s[0].name}
  {
    Lex.Irreflexive(s[0].name);
    assert s == [s[0]] + s[1..];
    forall x | x in s[1..] ensures x.name != s[0].name {
      var i :| 0 < i < |s| && s[i] == x;
    }
  }

  /** Two strictly sorted lists with the same names have them in the same places. */
  lemma {:induction false} SameNamesSamePlaces(s: seq<FlatTool>, t: seq<FlatTool>)
    requires StrictlySorted(s) && StrictlySorted(t) && Names(s) == Names(t)
    ensures |s| == |t| && forall i | 0 <= i < |s| :: s[i].name == t[i].name
  {
    assert s != [] ==> s[0].name in Names(t);
    assert t != [] ==> t[0].name in Names(s);
    if s != [] && t != [] {
      FirstNameIsFirst(s, t);
      NamesOfTail(s);
      NamesOfTail(t);
      SameNamesSamePlaces(s[1..], t[1..]);
      assert forall i | 0 < i < |s| :: s[i] == s[1..][i - 1] && t[i] == t[1..][i - 1];
    }
  }

  /** No server has two different tools with the same flattened name. */
  predicate NoClash(tools: map<string, seq<Tool>>) {
    forall server, t, u | server in tools && t in tools[server] && u in tools[server] ::
      FlatName(server, t) == FlatName(server, u) ==> t == u
  }

  lemma {:induction false} Collected(tools: map<string, seq<Tool>>, order: seq<string>, x: FlatTool)
    requires forall s | s in order :: s in tools
    ensures x in Collect(tools, order) <==>
            x.server in order && x.tool in tools[x.server] && x == Flat(x.server, x.tool)
  {
    if order != [] {
      Collected(tools, order[1..], x);
      var list := tools[order[0]];
      var first := seq(|list|, i requires 0 <= i < |list| => Flat(order[0], list[i]));
      assert x in first <==> x.server == order[0] && x.tool in list && x == Flat(order[0], x.tool) by {
        if x.tool in list && x == Flat(order[0], x.tool) {
          var i :| 0 <= i < |list| && list[i] == x.tool;
          assert first[i] == x;
        }
      }
    }
  }

  /** `order` is an iteration order of the map. */
  predicate Enumerates(order: seq<string>, tools: map<string, seq<Tool>>) {
    (set s | s in order) == tools.Keys
  }

  lemma EnumeratesAll(order: seq<string>, tools: map<string, seq<Tool>>)
    requires Enumerates(order, tools)
    ensures forall s :: s in order <==> s in tools
  {
    assert forall s :: s in order <==> s in (set s | s in order);
  }

  /** What the sorted and deduplicated list contains, whatever the iteration order and the sort. */
  lemma FlatToolsSpec(tools: map<string, seq<Tool>>, order: seq<string>, sorted: seq<FlatTool>, name: string)
    requires Enumerates(order, tools) && forall s | s in order :: s in tools
    requires SortOf(sorted, Collect(tools, order))
    ensures var out := FirstPerName(sorted);
            && StrictlySorted(out)
            && (forall x | x in out ::
                  && x.server in tools && x.tool in tools[x.server] && x.name == FlatName(x.server, x.tool)
                  && forall server, t | server in tools && t in tools[server] && FlatName(server, t) == x.name ::
                       !Lex.Less(server, x.server))
            && (name in Names(out) <==>
                  exists server, t :: server in tools && t in tools[server] && FlatName(server, t) == name)
  {
    EnumeratesAll(order, tools);
    FirstPerNameIsLeast(sorted);
    var out, all := FirstPerName(sorted), Collect(tools, order);
    InSorted(sorted, all);
    forall x | x in out
      ensures x.server in tools && x.tool in tools[x.server] && x.name == FlatName(x.server, x.tool)
    {
      Collected(tools, order, x);
    }
    forall server, t | server in tools && t in tools[server] ensures Flat(server, t) in sorted {
      Collected(tools, order, Flat(server, t));
    }
    if name in Names(out) {
      var x :| x in out && x.name == name;
      assert x.server in tools && x.tool in tools[x.server] && FlatName(x.server, x.tool) == name;
    }
    if server, t :| server in tools && t in tools[server] && FlatName(server, t) == name {
      assert Flat(server, t).name in Names(sorted);
    }
  }

  lemma InSorted(s: seq<FlatTool>, all: seq<FlatTool>)
    requires multiset(s) == multiset(all)
    ensures forall x :: x in s <==> x in all
  {
    forall x ensures x in s <==> x in all {
      assert x in s <==> x in multiset(s);
      assert x in all <==> x in multiset(all);
    }
  }

  /**
   Two runs over the same tools list the same names in the same places and resolve each to
   the same server; they give the same list if no server has a name twice.
   */
  lemma FlatToolsDeterministic(tools: map<string, seq<Tool>>,
                               order: seq<string>, sorted: seq<FlatTool>,
                               order': seq<string>, sorted': seq<FlatTool>)
    requires Enumerates(order, tools) && forall s | s in order :: s in tools
    requires Enumerates(order', tools) && forall s | s in order' :: s in tools
    requires SortOf(sorted, Collect(tools, order)) && SortOf(sorted', Collect(tools, order'))
    ensures var out, out' := FirstPerName(sorted), FirstPerName(sorted');
            && |out| == |out'|
            && (forall i | 0 <= i < |out| :: out[i].name == out'[i].name && out[i].server == out'[i].server)
            && (NoClash(tools) ==> out == out')
  {
    hide FirstPerName, Collect, SortOf;
    var out, out' := FirstPerName(sorted), FirstPerName(sorted');
    forall name ensures name in Names(out) <==> name in Names(out') {
      FlatToolsSpec(tools, order, sorted, name);
      FlatToolsSpec(tools, order', sorted', name);
    }
    FlatToolsSpec(tools, order, sorted, "");
    FlatToolsSpec(tools, order', sorted', "");
    assert Names(out) == Names(out');
    SameNamesSamePlaces(out, out');
    forall i | 0 <= i < |out| ensures out[i].server == out'[i].server {
      var x, y := out[i], out'[i];
      assert x in out && y in out';
      Lex.Total(x.server, y.server);
    }
    if NoClash(tools) {
      forall i | 0 <= i < |out| ensures out[i] == out'[i] {
        var x, y := out[i], out'[i];
        assert x in out && y in out';
        assert FlatName(x.server, x.tool) == FlatName(x.server, y.tool);
      }
    }
  }

  lemma {:induction false} FirstPerNameHas(s: seq<FlatTool>, x: FlatTool)
    ensures x in FirstPerName(s) <==>
            exists i :: 0 <= i < |s| && s[i] == x && forall k | 0 <= k < i :: s[k].name != x.name
  {
    if s != [] {
      var init, last := s[..|s| - 1], s[|s| - 1];
      FirstPerNameHas(init, x);
      assert forall i | 0 <= i < |init| :: init[i] == s[i];
      if x == last && last.name !in Names(init) {
        assert forall k | 0 <= k < |init| :: init[k] in init && s[k].name != x.name;
        assert s[|init|] == x;
      }
      if i :| 0 <= i < |s| && s[i] == x && forall k | 0 <= k < i :: s[k].name != x.name {
        assert i < |init| ==> init[i] == x;
      }
    }
  }

  /** The least server with some name has it for two different tools. */
  ghost predicate Ambiguous(tools: map<string, seq<Tool>>) {
    exists server, t, u ::
      && server in tools && t in tools[server] && u in tools[server] && t != u
      && FlatName(server, t) == FlatName(server, u)
      && forall other, v | other in tools && v in tools[other] && FlatName(other, v) == FlatName(server, t) ::
           !Lex.Less(other, server)
  }

  lemma Swapped(s: seq<FlatTool>, i: nat, j: nat)
    requires i < |s| && j < |s| && s[i].name == s[j].name && s[i].server == s[j].server
    ensures var t := s[i := s[j]][j := s[i]];
            multiset(t) == multiset(s) && (Sorted(s) ==> Sorted(t)) && forall k | 0 <= k < |s| :: t[k].name == s[k].name
  {
    var t := s[i := s[j]][j := s[i]];
    if Sorted(s) {
      forall a, b | 0 <= a < b < |t|
        ensures !Before(t[b], t[a])
      {
        assert !Before(s[b], s[a]);
      }
    }
  }

  /** Exchanging two entries of one name and server exchanges which of them is listed. */
  lemma SwapChangesList(s: seq<FlatTool>, x: FlatTool, y: FlatTool)
    requires Sorted(s) && x in FirstPerName(s) && y in s && x != y && x.name == y.name && x.server == y.server
    ensures exists t :: multiset(t) == multiset(s) && Sorted(t) && FirstPerName(t) != FirstPerName(s)
  {
    FirstPerNameHas(s, x);
    var i :| 0 <= i < |s| && s[i] == x && forall k | 0 <= k < i :: s[k].name != x.name;
    var j :| 0 <= j < |s| && s[j] == y;
    var t := s[i := s[j]][j := s[i]];
    Swapped(s, i, j);
    hide Sorted, FirstPerName;
    OtherIsFirst(s, t, i, y);
    FirstPerNameIsLeast(s);
    assert FirstPerName(t) != FirstPerName(s) by {
      if y in FirstPerName(s) {
        OneEntryPerName(FirstPerName(s), x, y);
      }
    }
  }

  lemma OtherIsFirst(s: seq<FlatTool>, t: seq<FlatTool>, i: nat, y: FlatTool)
    requires i < |s| == |t| && t[i] == y
    requires forall k | 0 <= k < |s| :: t[k].name == s[k].name
    requires forall k | 0 <= k < i :: s[k].name != y.name
    ensures y in FirstPerName(t)
  {
    FirstPerNameHas(t, y);
  }

  lemma OneEntryPerName(out: seq<FlatTool>, x: FlatTool, y: FlatTool)
    requires StrictlySorted(out) && x in out && y in out && x.name == y.name
    ensures x == y
  {
    Lex.Irreflexive(x.name);
    var i :| 0 <= i < |out| && out[i] == x;
    var j :| 0 <= j < |out| && out[j] == y;
  }

  /**
   The sort leaves open which of two equal entries comes first. Another result of it lists a
   different tool under some name exactly when the tools are ambiguous.
   */
  lemma ListVariesIff(tools: map<string, seq<Tool>>, order: seq<string>, sorted: seq<FlatTool>)
    requires Enumerates(order, tools) && forall s | s in order :: s in tools
    requires SortOf(sorted, Collect(tools, order))
    ensures (exists other :: SortOf(other, Collect(tools, order)) && FirstPerName(other) != FirstPerName(sorted))
            <==> Ambiguous(tools)
  {
    if Ambiguous(tools) {
      AmbiguousVaries(tools, order, sorted);
    }
    if other :| SortOf(other, Collect(tools, order)) && FirstPerName(other) != FirstPerName(sorted) {
      VariesIsAmbiguous(tools, order, sorted, order, other);
    }
  }

  lemma AmbiguousVaries(tools: map<string, seq<Tool>>, order: seq<string>, sorted: seq<FlatTool>)
    requires Enumerates(order, tools) && forall s | s in order :: s in tools
    requires SortOf(sorted, Collect(tools, order)) && Ambiguous(tools)
    ensures exists other :: SortOf(other, Collect(tools, order)) && FirstPerName(other) != FirstPerName(sorted)
  {
    var server, t, u :|
      && server in tools && t in tools[server] && u in tools[server] && t != u
      && FlatName(server, t) == FlatName(server, u)
      && forall other, v | other in tools && v in tools[other] && FlatName(other, v) == FlatName(server, t) ::
           !Lex.Less(other, server);
    var name := FlatName(server, t);
    EnumeratesAll(order, tools);
    Collected(tools, order, Flat(server, t));
    Collected(tools, order, Flat(server, u));
    InSorted(sorted, Collect(tools, order));
    FlatToolsSpec(tools, order, sorted, name);
    hide FirstPerName, Collect, FlatName, Enumerates;
    var x :| x in FirstPerName(sorted) && x.name == name;
    Lex.Total(x.server, server);
    var y := if x.tool == t then Flat(server, u) else Flat(server, t);
    assert y in sorted && x != y;
    SwapChangesList(sorted, x, y);
  }

  lemma VariesIsAmbiguous(tools: map<string, seq<Tool>>, order: seq<string>, sorted: seq<FlatTool>,
                          order': seq<string>, other: seq<FlatTool>)
    requires Enumerates(order, tools) && forall s | s in order :: s in tools
    requires Enumerates(order', tools) && forall s | s in order' :: s in tools
    requires SortOf(sorted, Collect(tools, order)) && SortOf(other, Collect(tools, order'))
    requires FirstPerName(other) != FirstPerName(sorted)
    ensures Ambiguous(tools)
  {
    FlatToolsDeterministic(tools, order, sorted, order', other);
    FlatToolsSpec(tools, order, sorted, "");
    FlatToolsSpec(tools, order', other, "");
    hide FirstPerName, Collect, FlatName, Enumerates, SortOf;
    var out, out' := FirstPerName(sorted), FirstPerName(other);
    var i :| 0 <= i < |out| && out[i] != out'[i];
    var x, y := out[i], out'[i];
    assert x in out && y in out';
    assert x.server in tools && x.tool in tools[x.server] && y.tool in tools[x.server] && x.tool != y.tool;
    assert FlatName(x.server, x.tool) == FlatName(x.server, y.tool);
  }

  // ---------------------------------------------------------------------------
  // One sort, several orders of iteration
  // ---------------------------------------------------------------------------

  /** The sort as a function of its input. */
  ghost predicate Sorts(sort: seq<FlatTool> -> seq<FlatTool>) {
    forall all :: SortOf(sort(all), all)
  }

  /** Each server once, as the map is iterated. */
  predicate IterationOrder(order: seq<string>, tools: map<string, seq<Tool>>) {
    Enumerates(order, tools) && forall i, j | 0 <= i < j < |order| :: order[i] != order[j]
  }

  /** Two orders of iteration lead to different lists. */
  ghost predicate ListsDiffer(tools: map<string, seq<Tool>>, sort: seq<FlatTool> -> seq<FlatTool>,
                              order: seq<string>, order': seq<string>) {
    && IterationOrder(order, tools) && IterationOrder(order', tools)
    && (forall s | s in order || s in order' :: s in tools)
    && FirstPerName(sort(Collect(tools, order))) != FirstPerName(sort(Collect(tools, order')))
  }

  /** Two servers have tools. */
  predicate TwoServers(tools: map<string, seq<Tool>>) {
    exists a, b :: a in tools && b in tools && a != b && tools[a] != [] && tools[b] != []
  }

  function Flats(tools: map<string, seq<Tool>>, server: string): seq<FlatTool>
    requires server in tools
  {
    seq(|tools[server]|, i requires 0 <= i < |tools[server]| => Flat(server, tools[server][i]))
  }

  lemma {:induction false} OneServerOneInput(tools: map<string, seq<Tool>>, order: seq<string>, only: string)
    requires forall s | s in order :: s in tools && (s != only ==> tools[s] == [])
    requires forall i, j | 0 <= i < j < |order| :: order[i] != order[j]
    requires only in tools
    ensures Collect(tools, order) == if only in order then Flats(tools, only) else []
  {
    if order != [] {
      OneServerOneInput(tools, order[1..], only);
      if order[0] == only {
        assert only !in order[1..];
        assert Flats(tools, only) + [] == Flats(tools, only);
      } else {
        assert Flats(tools, order[0]) == [];
        assert only in order <==> only in order[1..];
        assert [] + Collect(tools, order[1..]) == Collect(tools, order[1..]);
      }
    }
  }

  lemma {:induction false} NoServerNoInput(tools: map<string, seq<Tool>>, order: seq<string>)
    requires forall s | s in order :: s in tools && tools[s] == []
    ensures Collect(tools, order) == []
  {
    if order != [] {
      NoServerNoInput(tools, order[1..]);
    }
  }

  lemma OneServerNeverDiffers(tools: map<string, seq<Tool>>, sort: seq<FlatTool> -> seq<FlatTool>,
                              order: seq<string>, order': seq<string>)
    requires !TwoServers(tools)
    ensures !ListsDiffer(tools, sort, order, order')
  {
    if ListsDiffer(tools, sort, order, order') {
      EnumeratesAll(order, tools);
      EnumeratesAll(order', tools);
      hide FirstPerName, Enumerates;
      if only :| only in tools && tools[only] != [] {
        assert forall s | s in tools && s != only :: tools[s] == [];
        OneServerOneInput(tools, order, only);
        OneServerOneInput(tools, order', only);
      } else {
        NoServerNoInput(tools, order);
        NoServerNoInput(tools, order');
      }
    }
  }

  lemma {:induction false} OrderExists(left: set<string>) returns (order: seq<string>)
    ensures (set s | s in order) == left
    ensures forall i, j | 0 <= i < j < |order| :: order[i] != order[j]
  {
    if left == {} {
      order := [];
    } else {
      var x :| x in left;
      var rest := OrderExists(left - {x});
      OrderStartsWith(x, rest, left);
      order := [x] + rest;
    }
  }

  lemma OrderStartsWith(x: string, rest: seq<string>, left: set<string>)
    requires x in left && (set s | s in rest) == left - {x}
    requires forall i, j | 0 <= i < j < |rest| :: rest[i] != rest[j]
    ensures (set s | s in [x] + rest) == left
    ensures forall i, j | 0 <= i < j < |[x] + rest| :: ([x] + rest)[i] != ([x] + rest)[j]
  {
    assert forall s :: s in rest <==> s in (set u | u in rest);
    forall s
      ensures s in [x] + rest <==> s in left
    {
      assert s in [x] + rest <==> s == x || s in rest;
      assert s in (set u | u in rest) <==> s in left - {x};
    }
    assert forall j | 0 <= j < |rest| :: rest[j] in rest;
  }

  function Insert(s: seq<FlatTool>, x: FlatTool): (r: seq<FlatTool>)
  {
    if s == [] then [x]
    else if Before(x, s[|s| - 1]) then Insert(s[..|s| - 1], x) + [s[|s| - 1]]
    else s + [x]
  }

  function InsertionSort(s: seq<FlatTool>): seq<FlatTool> {
    if s == [] then [] else Insert(InsertionSort(s[..|s| - 1]), s[|s| - 1])
  }

  lemma {:induction false} InsertKeeps(s: seq<FlatTool>, x: FlatTool)
    ensures multiset(Insert(s, x)) == multiset(s) + multiset{x}
  {
    if s != [] && Before(x, s[|s| - 1]) {
      InsertKeeps(s[..|s| - 1], x);
      assert s == s[..|s| - 1] + [s[|s| - 1]];
    }
  }

  lemma NotBeforeTransitive(x: FlatTool, y: FlatTool, z: FlatTool)
    requires !Before(y, x) && !Before(z, y)
    ensures !Before(z, x)
  {
    Lex.Total(x.name, y.name);
    Lex.Total(y.name, z.name);
    Lex.Total(x.server, y.server);
    Lex.Total(y.server, z.server);
    if Lex.Less(x.name, y.name) && Lex.Less(y.name, z.name) {
      Lex.Transitive(x.name, y.name, z.name);
    }
    if Lex.Less(x.server, y.server) && Lex.Less(y.server, z.server) {
      Lex.Transitive(x.server, y.server, z.server);
    }
    Asymmetric(x.name, z.name);
    Asymmetric(x.server, z.server);
  }

  lemma Asymmetric(a: string, b: string)
    ensures !(Lex.Less(a, b) && Lex.Less(b, a))
  {
    if Lex.Less(a, b) && Lex.Less(b, a) {
      Lex.Transitive(a, b, a);
      Lex.Irreflexive(a);
    }
  }

  lemma {:induction false} InsertSorts(s: seq<FlatTool>, x: FlatTool)
    requires Sorted(s)
    ensures Sorted(Insert(s, x))
  {
    hide Before;
    if s != [] {
      var init, last := s[..|s| - 1], s[|s| - 1];
      if Before(x, last) {
        InsertSorts(init, x);
        BeforeIsAsymmetric(x, last);
        InsertKeeps(init, x);
        forall y | y in Insert(init, x)
          ensures !Before(last, y)
        {
          assert y in multiset(Insert(init, x));
          assert y != x ==> y in multiset(init);
        }
        AppendSorted(Insert(init, x), last);
      } else {
        forall y | y in s
          ensures !Before(x, y)
        {
          var i :| 0 <= i < |s| && s[i] == y;
          if i < |s| - 1 {
            NotBeforeTransitive(y, last, x);
          }
        }
        AppendSorted(s, x);
      }
    }
  }

  lemma BeforeIsAsymmetric(x: FlatTool, y: FlatTool)
    requires Before(x, y)
    ensures !Before(y, x)
  {
    Asymmetric(x.name, y.name);
    Asymmetric(x.server, y.server);
  }

  lemma AppendSorted(s: seq<FlatTool>, x: FlatTool)
    requires Sorted(s) && forall y | y in s :: !Before(x, y)
    ensures Sorted(s + [x])
  {
    hide Before;
    forall i, j | 0 <= i < j < |s + [x]|
      ensures !Before((s + [x])[j], (s + [x])[i])
    {
      assert s[i] in s;
    }
  }

  lemma {:induction false} InsertionSortSorts(s: seq<FlatTool>)
    ensures SortOf(InsertionSort(s), s)
  {
    if s == [] {
      assert Sorted([]);
    } else {
      var init, last := s[..|s| - 1], s[|s| - 1];
      hide Before, Sorted, Insert;
      InsertionSortSorts(init);
      InsertKeeps(InsertionSort(init), last);
      InsertSorts(InsertionSort(init), last);
      assert s == init + [last];
    }
  }

  /**
   With some sort, two orders of iterating the same tools list different tools exactly when
   the tools are ambiguous and two servers have any: with one, the sort always has the same
   input.
   */
  lemma ListsDifferIff(tools: map<string, seq<Tool>>)
    ensures (exists sort, order, order' :: Sorts(sort) && ListsDiffer(tools, sort, order, order'))
            <==> Ambiguous(tools) && TwoServers(tools)
  {
    if sort, order, order' :| Sorts(sort) && ListsDiffer(tools, sort, order, order') {
      if !TwoServers(tools) {
        OneServerNeverDiffers(tools, sort, order, order');
      }
      VariesIsAmbiguous(tools, order', sort(Collect(tools, order')), order, sort(Collect(tools, order)));
    }
    if Ambiguous(tools) && TwoServers(tools) {
      AmbiguousDiffers(tools);
    }
  }

  lemma AmbiguousDiffers(tools: map<string, seq<Tool>>)
    requires Ambiguous(tools) && TwoServers(tools)
    ensures exists sort, order, order' :: Sorts(sort) && ListsDiffer(tools, sort, order, order')
  {
    var a, b :| a in tools && b in tools && a != b && tools[a] != [] && tools[b] != [];
    var order := OrderFrom(tools, a);
    var order' := OrderFrom(tools, b);
    var input, input' := Collect(tools, order), Collect(tools, order');
    assert input[0].server == a && input'[0].server == b;
    hide *;
    InsertionSortSorts(input);
    AmbiguousVaries(tools, order, InsertionSort(input));
    SomeSortDiffers(tools, order, order');
  }

  lemma SomeSortDiffers(tools: map<string, seq<Tool>>, order: seq<string>, order': seq<string>)
    requires IterationOrder(order, tools) && IterationOrder(order', tools)
    requires forall s | s in order || s in order' :: s in tools
    requires Collect(tools, order) != Collect(tools, order')
    requires exists other :: SortOf(other, Collect(tools, order)) &&
                             FirstPerName(other) != FirstPerName(InsertionSort(Collect(tools, order)))
    ensures exists sort, order, order' :: Sorts(sort) && ListsDiffer(tools, sort, order, order')
  {
    hide *;
    var input, input' := Collect(tools, order), Collect(tools, order');
    var other :| SortOf(other, input) && FirstPerName(other) != FirstPerName(InsertionSort(input));
    var plain := (all: seq<FlatTool>) => InsertionSort(all);
    var tricky := (all: seq<FlatTool>) => if all == input then other else InsertionSort(all);
    BothSort(plain, tricky, input, other);
    if FirstPerName(InsertionSort(input')) != FirstPerName(InsertionSort(input)) {
      DifferBy(tools, plain, order, order');
    } else {
      DifferBy(tools, tricky, order, order');
    }
  }

  lemma DifferBy(tools: map<string, seq<Tool>>, sort: seq<FlatTool> -> seq<FlatTool>,
                 order: seq<string>, order': seq<string>)
    requires IterationOrder(order, tools) && IterationOrder(order', tools)
    requires forall s | s in order || s in order' :: s in tools
    requires Sorts(sort)
    requires FirstPerName(sort(Collect(tools, order))) != FirstPerName(sort(Collect(tools, order')))
    ensures exists sort, order, order' :: Sorts(sort) && ListsDiffer(tools, sort, order, order')
  {
    assert ListsDiffer(tools, sort, order, order');
  }

  lemma BothSort(plain: seq<FlatTool> -> seq<FlatTool>, tricky: seq<FlatTool> -> seq<FlatTool>,
                 input: seq<FlatTool>, other: seq<FlatTool>)
    requires forall all :: plain(all) == InsertionSort(all)
    requires forall all :: tricky(all) == if all == input then other else InsertionSort(all)
    requires SortOf(other, input)
    ensures Sorts(plain) && Sorts(tricky)
  {
    hide SortOf, InsertionSort;
    forall all
      ensures SortOf(plain(all), all) && SortOf(tricky(all), all)
    {
      InsertionSortSorts(all);
    }
  }

  lemma OrderFrom(tools: map<string, seq<Tool>>, first: string) returns (order: seq<string>)
    requires first in tools && tools[first] != []
    ensures IterationOrder(order, tools) && forall s | s in order :: s in tools
    ensures Collect(tools, order) != [] && Collect(tools, order)[0].server == first
  {
    var rest := OrderExists(tools.Keys - {first});
    OrderStartsWith(first, rest, tools.Keys);
    order := [first] + rest;
    EnumeratesAll(order, tools);
    assert order[0] == first;
  }

  /** Two tools of one server that come out as "s_a_b", beside a second server. */
  lemma AmbiguousTools()
    ensures var tools := map["s" := [Tool("a.b", 0), Tool("a_b", 1)], "t" := [Tool("c", 2)]];
            Ambiguous(tools) && TwoServers(tools)
  {
    var tools := map["s" := [Tool("a.b", 0), Tool("a_b", 1)], "t" := [Tool("c", 2)]];
    var t, u := Tool("a.b", 0), Tool("a_b", 1);
    assert t in tools["s"] && u in tools["s"];
    SanitizedAlike();
    assert FlatName("s", t) == FlatName("s", u) == "s_a_b";
    assert FlatName("t", Tool("c", 2))[0] == 't' by {
      assert Sanitize("t") == "t";
    }
    Lex.Irreflexive("s");
    assert tools["t"] != [] && tools["s"] != [];
    hide FlatName, Sanitize;
  }

  lemma SanitizedAlike()
    ensures Sanitize("s") == "s" && Sanitize("a.b") == Sanitize("a_b") == "a_b"
  {
  }

  // ---------------------------------------------------------------------------
  // Listing, checking, calling
  // ---------------------------------------------------------------------------

  method HasTool(list: seq<FlatTool>, name: string) returns (found: bool)
    ensures found <==> name in Names(list)
  {
    for i := 0 to |list|
      invariant forall j | 0 <= j < i :: list[j].name != name
    {
      if list[i].name == name {
        assert list[i] in list;
        return true;
      }
    }
    return false;
  }

  datatype Target<Conn> = NoTarget | Target(client: Conn, tool: string)

  /** The client and tool a name is dispatched to. */
  function Dispatch<Conn>(list: seq<FlatTool>, clients: map<string, Conn>, name: string): Target<Conn> {
    if list == [] then NoTarget
    else if list[0].name == name then
      if list[0].server in clients then Target(clients[list[0].server], list[0].tool.name) else NoTarget
    else Dispatch(list[1..], clients, name)
  }

  method CallTool<Conn>(list: seq<FlatTool>, clients: map<string, Conn>, name: string) returns (target: Target<Conn>)
    ensures target == Dispatch(list, clients, name)
  {
    assert list[0..] == list;
    for i := 0 to |list|
      invariant Dispatch(list, clients, name) == Dispatch(list[i..], clients, name)
    {
      var ft := list[i];
      assert list[i..][1..] == list[i + 1..];
      if ft.name == name {
        if ft.server in clients {
          return Target(clients[ft.server], ft.tool.name);
        }
        return NoTarget;
      }
    }
    return NoTarget;
  }

  lemma {:induction false} DispatchOf<Conn>(list: seq<FlatTool>, clients: map<string, Conn>, x: FlatTool)
    requires StrictlySorted(list) && x in list
    ensures Dispatch(list, clients, x.name) ==
            if x.server in clients then Target(clients[x.server], x.tool.name) else NoTarget
  {
    var i :| 0 <= i < |list| && list[i] == x;
    if i > 0 {
      Lex.Irreflexive(x.name);
      assert list[1..][i - 1] == x;
      DispatchOf(list[1..], clients, x);
    }
  }

  lemma {:induction false} DispatchUnknown<Conn>(list: seq<FlatTool>, clients: map<string, Conn>, name: string)
    requires name !in Names(list)
    ensures Dispatch(list, clients, name).NoTarget?
  {
    if list != [] {
      assert list[0] in list;
      assert forall x | x in list[1..] :: x in list;
      DispatchUnknown(list[1..], clients, name);
    }
  }

  /**
   Listing, permission check and dispatch agree on every name exactly when each listed
   server has a client: they do while the manager is open, and do not once Close has
   forgotten the clients but kept the lists.
   */
  lemma AgreeIff<Conn>(list: seq<FlatTool>, clients: map<string, Conn>)
    requires StrictlySorted(list)
    ensures (forall name :: name in Names(list) <==> Dispatch(list, clients, name).Target?)
            <==> (forall x | x in list :: x.server in clients)
  {
    forall name | name !in Names(list) ensures Dispatch(list, clients, name).NoTarget? {
      DispatchUnknown(list, clients, name);
    }
    forall x | x in list
      ensures x.name in Names(list) && (Dispatch(list, clients, x.name).Target? <==> x.server in clients)
    {
      DispatchOf(list, clients, x);
    }
    if forall x | x in list :: x.server in clients {
      forall name ensures name in Names(list) <==> Dispatch(list, clients, name).Target? {
        if name in Names(list) {
          var x :| x in list && x.name == name;
        }
      }
    }
  }

  /**
   With the same servers in `clients` as in `tools`, a name that is listed is dispatched to the
   least server that has it.
   */
  lemma CallReachesListedTool<Conn>(tools: map<string, seq<Tool>>, clients: map<string, Conn>,
                                    order: seq<string>, sorted: seq<FlatTool>, name: string)
    requires clients.Keys == tools.Keys
    requires Enumerates(order, tools) && forall s | s in order :: s in tools
    requires SortOf(sorted, Collect(tools, order))
    ensures var out := FirstPerName(sorted);
            && (name in Names(out) <==> Dispatch(out, clients, name).Target?)
            && (name in Names(out) ==>
                  exists x :: x in out && x.name == name && x.server in clients
                              && Dispatch(out, clients, name) == Target(clients[x.server], x.tool.name))
  {
    hide FirstPerName, Collect, SortOf;
    FlatToolsSpec(tools, order, sorted, name);
    var out := FirstPerName(sorted);
    AgreeIff(out, clients);
    if name in Names(out) {
      var x :| x in out && x.name == name;
      DispatchOf(out, clients, x);
    }
  }
}
