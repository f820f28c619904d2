/** Listing and dispatch over the runs of the manager: the tool lists of its state, and its clients. */
module McpListing {
  import opened McpConnections
  import Lists = McpTools

  /**
   In every run, and whatever lists its cache holds, listing, permission check and dispatch agree
   on every name exactly while the manager is open or lists nothing.
   */
  lemma AgreeOverRunsIff(actions: seq<Action>, tools: map<Name, seq<Lists.Tool>>,
                         order: seq<string>, sorted: seq<Lists.FlatTool>)
    requires tools.Keys == Run(actions).tools.Keys
    requires Lists.Enumerates(order, tools) && forall n | n in order :: n in tools
    requires Lists.SortOf(sorted, Lists.Collect(tools, order))
    ensures var s, listed := Run(actions), Lists.FirstPerName(sorted);
            (forall name :: name in Lists.Names(listed) <==> Lists.Dispatch(listed, s.clients, name).Target?)
            <==> !s.closed || listed == []
  {
    var s, listed := Run(actions), Lists.FirstPerName(sorted);
    Lists.FlatToolsSpec(tools, order, sorted, "");
    Lists.AgreeIff(listed, s.clients);
    RunKeepsInv(actions);
    hide Run, Owned, MadeUnlessClosed, Lists.FirstPerName, Lists.Collect, Lists.Enumerates, Lists.Names, Lists.Dispatch;
    assert forall x | x in listed :: x.server in s.tools;
    if listed != [] {
      assert listed[0] in listed;
    }
  }

  /** After the close of a manager with one connected server, a listed tool is not dispatched. */
  lemma ListedNotCalled(name: Name, tool: Lists.Tool)
    ensures var s := Run([OnceBegins({name}), OnceDials(name, Dialed), OncePublishes, Close]);
            var tools := map[name := [tool]];
            var listed := Lists.FirstPerName(Lists.Collect(tools, [name]));
            && tools.Keys == s.tools.Keys && Lists.SortOf(Lists.Collect(tools, [name]), Lists.Collect(tools, [name]))
            && listed == [Lists.Flat(name, tool)]
            && Lists.Dispatch(listed, s.clients, listed[0].name).NoTarget?
  {
    ListOutlivesClient(name);
    ListOfOne(name, tool);
    hide *;
    NotDispatched(Lists.Flat(name, tool));
  }

  lemma ListOfOne(name: Name, tool: Lists.Tool)
    ensures var all := Lists.Collect(map[name := [tool]], [name]);
            all == [Lists.Flat(name, tool)] && Lists.FirstPerName(all) == all && Lists.SortOf(all, all)
  {
    CollectOne(name, tool);
    FirstOfOne(Lists.Flat(name, tool));
    hide *;
  }

  lemma CollectOne(name: Name, tool: Lists.Tool)
    ensures Lists.Collect(map[name := [tool]], [name]) == [Lists.Flat(name, tool)]
  {
    hide Lists.Flat;
    assert [name][1..] == [];
    assert Lists.Collect(map[name := [tool]], []) == [];
  }

  lemma FirstOfOne(x: Lists.FlatTool)
    ensures Lists.FirstPerName([x]) == [x] && Lists.SortOf([x], [x])
  {
    hide Lists.Before;
    assert [x][..0] == [];
    assert Lists.FirstPerName([]) == [] && Lists.Names([]) == {};
  }

  lemma NotDispatched(x: Lists.FlatTool)
    ensures Lists.Dispatch<Conn>([x], map[], x.name).NoTarget?
  {
  }
}
