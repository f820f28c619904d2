/**
 The MCP manager object. Each method is one critical section and is proved to take the
 step of McpConnections.
 */
module McpManager {
  import opened McpConnections

  /** A map that may not have been made: it reads as empty, and writing to it panics. */
  datatype Table<V> = Nil | Made(value: map<Name, V>)

  function Rows<V>(t: Table<V>): map<Name, V> {
    if t.Nil? then map[] else t.value
  }

  function Without<V>(t: Table<V>, name: Name): (u: Table<V>)
    ensures Rows(u) == Rows(t) - {name} && u.Made? == t.Made?
  {
    if t.Nil? then t else Made(t.value - {name})
  }

  /** What disconnecting comes to. */
  datatype Disconnected = NotFound | Marked | Panicked

  class Manager {
    const servers: set<Name>
    var dynamic: set<Name>
    var closed: bool
    var status: Table<Status>
    var clients: Table<Conn>
    var tools: Table<Conn>
    var resources: Table<Conn>
    /** The connections that were closed. */
    var shut: set<Conn>

    /** The fields are those of the protocol state `s`. */
    ghost predicate Shows(s: State)
      reads this
    {
      && ShowsTables(s)
      && (if s.once.NotStarted? then dynamic == {} else s.known == servers + dynamic)
      && forall c :: c in shut <==> IsShut(s, c)
    }

    ghost predicate ShowsTables(s: State)
      reads this
    {
      && closed == s.closed
      && status.Made? == tools.Made? == resources.Made? == s.made && clients.Made? == (s.made && !s.closed)
      && Rows(status) == s.status && Rows(clients) == s.clients
      && Rows(tools) == s.tools && Rows(resources) == s.resources
    }

    constructor (configured: set<Name>)
      ensures servers == configured && Shows(START)
    {
      servers, dynamic, closed, shut := configured, {}, false, {};
      status, clients, tools, resources := Nil, Nil, Nil, Nil;
    }

    predicate Known(name: Name)
      reads this
    {
      name in dynamic || name in servers
    }

    /** Begins the initial connect, and returns the servers to dial; a closed manager dials none. */
    method BeginConnect(ghost s: State) returns (todo: set<Name>)
      requires Shows(s) && s.once.NotStarted?
      ensures Shows(Step(s, OnceBegins(servers)))
      ensures Step(s, OnceBegins(servers)).once == if closed then Ready else Connecting(todo, map[], map[])
    {
      todo := if closed then {} else servers;
    }

    /** Adds a server. */
    method Add(name: Name, ghost s: State)
      requires Shows(s) && s.once.Ready?
      modifies this`dynamic
      ensures Shows(Step(s, Register(name))) && Known(name)
    {
      dynamic := dynamic + {name};
    }

    /** Closes and forgets the connection cached for `name`. */
    method CloseCached(name: Name, ghost s: State)
      requires Shows(s)
      modifies this`clients, this`tools, this`resources, this`shut
      ensures Shows(CloseLocked(s, name))
    {
      if name in Rows(clients) {
        shut := shut + {Rows(clients)[name]};
        clients := Without(clients, name);
      }
      tools := Without(tools, name);
      resources := Without(resources, name);
    }

    /** Makes each map that does not exist. */
    method EnsureMaps()
      modifies this`status, this`clients, this`tools, this`resources
      ensures status == Made(Rows(old(status))) && clients == Made(Rows(old(clients)))
      ensures tools == Made(Rows(old(tools))) && resources == Made(Rows(old(resources)))
    {
      if status.Nil? {
        status := Made(map[]);
      }
      if clients.Nil? {
        clients := Made(map[]);
      }
      if tools.Nil? {
        tools := Made(map[]);
      }
      if resources.Nil? {
        resources := Made(map[]);
      }
    }

    /** Publishes a status without a connection, unless the manager was closed meanwhile. */
    method PublishStatus(name: Name, st: Status, ghost s: State)
      requires Shows(s)
      modifies this
      ensures Shows(Mark(s, name, st))
    {
      if !closed {
        CloseCached(name, s);
        EnsureMaps();
        status := Made(status.value[name := st]);
      }
    }

    /** Publishes a dialed connection; the caller has to close it itself if the manager was closed meanwhile. */
    method PublishConn(t: Tid, name: Name, c: Conn, ghost s: State) returns (discard: bool)
      requires Shows(s) && Inv(s) && At(s, t, Holding(name, c))
      modifies this
      ensures Shows(Step(s, Commit(t)))
      ensures discard <==> s.closed
    {
      if closed {
        return true;
      }
      hide Inv, Mark, Install;
      PublishStatus(name, Connected, s);
      StillHeld(s, t, name, c);
      Cache(t, name, c, Mark(s, name, Connected));
      return false;
    }

    method Cache(t: Tid, name: Name, c: Conn, ghost s: State)
      requires Shows(s) && s.made && !s.closed && !s.once.NotStarted? && c in s.conns && s.conns[c] == ByThread(t)
      modifies this`clients, this`tools, this`resources
      ensures Shows(Install(s, t, name, c))
    {
      clients := Made(clients.value[name := c]);
      tools := Made(tools.value[name := c]);
      resources := Made(resources.value[name := c]);
    }

    /**
     The outcome of the initial connect; the caller has to close the connections if the manager
     was closed meanwhile.
     */
    method PublishAll(marks: map<Name, Status>, dialed: map<Name, Conn>, ghost s: State) returns (drop: bool)
      requires Shows(s) && s.once == Connecting({}, dialed, marks)
      modifies this
      ensures Shows(Step(s, OncePublishes))
      ensures drop <==> s.closed
    {
      if closed {
        return true;
      }
      status, clients, tools, resources := Made(marks), Made(dialed), Made(dialed), Made(dialed);
      return false;
    }

    /** Disconnects a known server. The write of its status panics when the map does not exist. */
    method Disconnect(name: Name, ghost s: State) returns (result: Disconnected)
      requires Shows(s) && Enabled(s, McpConnections.Disconnect(name)) && !s.panicked
      modifies this
      ensures Shows(Step(s, McpConnections.Disconnect(name)))
      ensures result.NotFound? <==> name !in s.known
      ensures result.Panicked? <==> Step(s, McpConnections.Disconnect(name)).panicked
      ensures result.Marked? ==>
                && name !in Rows(clients) && name !in Rows(tools) && name !in Rows(resources)
                && Rows(status) == Rows(old(status))[name := Disabled]
                && (name in Rows(old(clients)) ==> Rows(old(clients))[name] in shut)
    {
      if !Known(name) {
        return NotFound;
      }
      hide CloseLocked;
      CloseLockedFlags(s, name);
      CloseCached(name, s);
      if status.Nil? {
        return Panicked;
      }
      status := Made(status.value[name := Disabled]);
      return Marked;
    }

    /** Stores a new tool list of `c`, if that is still the connection cached for `name`. */
    method Refresh(name: Name, c: Conn, ghost s: State) returns (changed: bool)
      requires Shows(s) && c in s.conns
      modifies this`tools
      ensures Shows(Step(s, McpConnections.Refresh(name, c)))
      ensures changed <==> !s.closed && name in s.clients && s.clients[name] == c
    {
      if closed || name !in Rows(clients) || Rows(clients)[name] != c {
        return false;
      }
      tools := Made(tools.value[name := c]);
      return true;
    }

    /** Marks the manager closed and returns the connections to close. */
    method Close(ghost s: State) returns (handles: set<Conn>)
      requires Shows(s)
      modifies this`closed, this`clients
      ensures Shows(Step(s, McpConnections.Close))
      ensures handles == s.clients.Values
    {
      closed := true;
      handles := Rows(clients).Values;
      clients := Nil;
    }
  }

  lemma CloseLockedFlags(s: State, name: Name)
    ensures var t := CloseLocked(s, name);
            t.made == s.made && t.status == s.status && t.panicked == s.panicked && t.known == s.known
            && t.tools == s.tools - {name} && t.resources == s.resources - {name} && t.clients == s.clients - {name}
  {
    if name !in s.clients {
      assert s.clients - {name} == s.clients;
    }
  }

  /** Closing what is cached does not touch the connection a call still holds. */
  lemma StillHeld(s: State, t: Tid, name: Name, c: Conn)
    requires Inv(s) && At(s, t, Holding(name, c)) && !s.closed
    ensures var u := Mark(s, name, Connected);
            c in u.conns && u.conns[c] == ByThread(t) && u.threads == s.threads && u.made && !u.closed
            && u.once == s.once
  {
    hide Coherent, MadeUnlessClosed, Traced;
  }
}
