/**
 What connecting, disconnecting and closing come to for the servers and connections of the MCP
 manager, told by the actions of a run.
 */
module McpOutcomes {
  import opened McpConnections

  lemma NextStep(s: State, a: Action)
    requires Enabled(s, a)
    ensures Step(s, a) == Apply(s, a)
  {
    hide Apply;
  }

  /** The cached connection of `name` is closed and forgotten with its lists, and no other is touched. */
  predicate Forgotten(s: State, u: State, name: Name) {
    && u.clients == s.clients - {name} && u.tools == s.tools - {name} && u.resources == s.resources - {name}
    && u.conns == if name in s.clients then s.conns[s.clients[name] := Shut] else s.conns
  }

  lemma CloseLockedForgets(s: State, name: Name)
    ensures Forgotten(s, CloseLocked(s, name), name)
    ensures CloseLocked(s, name) == s.(clients := CloseLocked(s, name).clients, tools := CloseLocked(s, name).tools,
                                       resources := CloseLocked(s, name).resources, conns := CloseLocked(s, name).conns)
  {
    if name !in s.clients {
      assert s.clients - {name} == s.clients;
    }
  }

  // ---------------------------------------------------------------------------
  // Disconnecting
  // ---------------------------------------------------------------------------

  lemma DisconnectEffect(s: State, name: Name)
    requires s.once.Ready? && name in s.known && s.made
    ensures var u := Step(s, Disconnect(name));
            && Forgotten(s, u, name) && u.status == s.status[name := Disabled]
            && u == s.(clients := u.clients, tools := u.tools, resources := u.resources,
                       conns := u.conns, status := u.status)
  {
    NextStep(s, Disconnect(name));
    CloseLockedForgets(s, name);
    hide Step, CloseLocked;
  }

  /**
   Disconnecting a known server of a manager that was not closed before its initial connect was
   over leaves it in no cache and disabled, closes its connection, and touches no other server.
   */
  lemma DisconnectForgets(actions: seq<Action>, name: Name)
    requires Run(actions).once.Ready? && !ClosedEarly(actions) && name in Run(actions).known
    ensures var s, u := Run(actions), Run(actions + [Disconnect(name)]);
            && name !in u.clients && name !in u.tools && name !in u.resources
            && name in u.status && u.status[name] == Disabled
            && (name in s.clients ==> IsShut(u, s.clients[name]))
            && Forgotten(s, u, name) && u.status == s.status[name := Disabled]
            && u.panicked == s.panicked && u.threads == s.threads && u.known == s.known && u.closed == s.closed
  {
    OneMore(actions, Disconnect(name));
    MapsMissingIff(actions);
    hide Run, Step, ClosedEarly;
    DisconnectEffect(Run(actions), name);
  }

  // ---------------------------------------------------------------------------
  // The end of a connect
  // ---------------------------------------------------------------------------

  lemma MarkEffect(s: State, name: Name, st: Status)
    requires !s.closed
    ensures var u := Mark(s, name, st);
            && Forgotten(s, u, name) && u.status == s.status[name := st] && u.made
            && u == s.(clients := u.clients, tools := u.tools, resources := u.resources,
                       conns := u.conns, status := u.status, made := true)
  {
    CloseLockedForgets(s, name);
    hide CloseLocked;
  }

  /** The status that a call leaves when it has no connection. */
  function StatusOf(c: Thread): Status {
    if c.Disabling? then Disabled else Failed
  }

  lemma UnconnectedEffect(s: State, t: Tid)
    requires Enabled(s, Commit(t)) && !s.threads[t].Holding? && !s.closed
    ensures var u, name := Step(s, Commit(t)), s.threads[t].name;
            && Forgotten(s, u, name) && u.status == s.status[name := StatusOf(s.threads[t])]
            && u.threads == s.threads[t := Done]
  {
    NextStep(s, Commit(t));
    MarkEffect(s, s.threads[t].name, StatusOf(s.threads[t]));
    hide Step, Mark, Forgotten;
    assert CommitStep(s, t) == Mark(s, s.threads[t].name, StatusOf(s.threads[t])).(threads := s.threads[t := Done]);
    ForgottenWith(s, Mark(s, s.threads[t].name, StatusOf(s.threads[t])), s.threads[t].name, s.threads[t := Done]);
  }

  lemma ForgottenWith(s: State, u: State, name: Name, threads: map<Tid, Thread>)
    requires Forgotten(s, u, name)
    ensures Forgotten(s, u.(threads := threads), name)
  {
  }

  lemma ConnectedEffect(s: State, t: Tid)
    requires Enabled(s, Commit(t)) && s.threads[t].Holding? && !s.closed
    ensures var u, name, c := Step(s, Commit(t)), s.threads[t].name, s.threads[t].c;
            && u.clients == s.clients[name := c] && u.tools == s.tools[name := c]
            && u.resources == s.resources[name := c] && u.status == s.status[name := Connected]
            && u.threads == s.threads[t := Done]
            && u.conns == (if name in s.clients then s.conns[s.clients[name] := Shut] else s.conns)[c := Cached(name)]
  {
    var name, c := s.threads[t].name, s.threads[t].c;
    NextStep(s, Commit(t));
    MarkEffect(s, name, Connected);
    hide Step, Mark;
    var m := Mark(s, name, Connected);
    assert CommitStep(s, t) == Install(m, t, name, c);
    assert m.clients[name := c] == s.clients[name := c] && m.tools[name := c] == s.tools[name := c];
    assert m.resources[name := c] == s.resources[name := c];
  }

  /**
   A call that connected makes its connection the cached one, with its lists and status, and
   closes the one it replaces.
   */
  lemma ConnectCaches(actions: seq<Action>, t: Tid)
    requires Enabled(Run(actions), Commit(t)) && Run(actions).threads[t].Holding? && !Run(actions).closed
    ensures var s, u := Run(actions), Run(actions + [Commit(t)]);
            var name, c := s.threads[t].name, s.threads[t].c;
            && u.clients == s.clients[name := c] && u.tools == s.tools[name := c]
            && u.resources == s.resources[name := c] && u.status == s.status[name := Connected]
            && u.threads == s.threads[t := Done]
            && c in u.conns && u.conns[c] == Cached(name)
            && (name in s.clients ==> IsShut(u, s.clients[name]))
            && (forall d | d in s.conns && d != c && d !in s.clients.Values :: d in u.conns && u.conns[d] == s.conns[d])
  {
    OneMore(actions, Commit(t));
    ConnectedEffect(Run(actions), t);
    CallHoldsItsOwn(actions, t);
    hide Run, Step;
  }

  lemma CallHoldsItsOwn(actions: seq<Action>, t: Tid)
    requires t in Run(actions).threads && Run(actions).threads[t].Holding?
    ensures Run(actions).threads[t].c in Run(actions).conns
    ensures Run(actions).threads[t].c !in Run(actions).clients.Values
  {
    hide Run, Coherent, MadeUnlessClosed, Traced;
    RunKeepsInv(actions);
  }

  /** A call without a connection leaves the server disconnected, as disabled or failed. */
  lemma UnconnectedMarks(actions: seq<Action>, t: Tid)
    requires Enabled(Run(actions), Commit(t)) && !Run(actions).threads[t].Holding? && !Run(actions).closed
    ensures var s, u := Run(actions), Run(actions + [Commit(t)]);
            var name := s.threads[t].name;
            && Forgotten(s, u, name) && u.threads == s.threads[t := Done]
            && u.status == s.status[name := if s.threads[t].Disabling? then Disabled else Failed]
  {
    OneMore(actions, Commit(t));
    hide Run, Step;
    UnconnectedEffect(Run(actions), t);
  }

  lemma LateCommit(s: State, t: Tid)
    requires Enabled(s, Commit(t)) && s.closed
    ensures CommitStep(s, t) ==
            s.(threads := s.threads[t := if s.threads[t].Holding? then Discarding(s.threads[t].c) else Done])
  {
    hide CloseLocked, Install;
    if s.threads[t].Holding? {
    } else if s.threads[t].Disabling? {
    }
  }

  /** Once the manager is closed, a call that ends changes nothing but itself. */
  lemma LateCommitChangesNothing(actions: seq<Action>, t: Tid)
    requires Enabled(Run(actions), Commit(t)) && Run(actions).closed
    ensures var s, u := Run(actions), Run(actions + [Commit(t)]);
            && u == s.(threads := u.threads)
            && u.threads == s.threads[t := if s.threads[t].Holding? then Discarding(s.threads[t].c) else Done]
  {
    OneMore(actions, Commit(t));
    LateCommit(Run(actions), t);
    hide Run, CommitStep;
  }

  // ---------------------------------------------------------------------------
  // The way to it
  // ---------------------------------------------------------------------------

  /** A reconnect of an open manager dials exactly if the server is enabled; of a closed one it does nothing. */
  lemma ReconnectBegins(actions: seq<Action>, t: Tid, name: Name, enabled: bool)
    requires Enabled(Run(actions), Reconnect(t, name, enabled))
    ensures var s, u := Run(actions), Run(actions + [Reconnect(t, name, enabled)]);
            && u == s.(threads := u.threads) && t in u.threads && u.threads == s.threads[t := u.threads[t]]
            && (u.threads[t] == Dialing(name) <==> !s.closed && enabled)
            && (u.threads[t] == Disabling(name) <==> !s.closed && !enabled)
            && (u.threads[t] == Done <==> s.closed)
  {
    OneMore(actions, Reconnect(t, name, enabled));
    NextStep(Run(actions), Reconnect(t, name, enabled));
    hide Run, Step;
  }

  /** A dial that succeeds makes a connection nobody had; one that fails makes none. */
  lemma DialMakesConnection(actions: seq<Action>, t: Tid, ok: bool)
    requires Enabled(Run(actions), DialOne(t, ok))
    ensures var s, u := Run(actions), Run(actions + [DialOne(t, ok)]);
            var name := s.threads[t].name;
            && t in u.threads && u.threads == s.threads[t := u.threads[t]]
            && (ok ==> s.nextConn !in s.conns && u.threads[t] == Holding(name, s.nextConn)
                       && u.conns == s.conns[s.nextConn := ByThread(t)])
            && (!ok ==> u.threads[t] == Failing(name) && u.conns == s.conns)
            && u.clients == s.clients && u.tools == s.tools && u.status == s.status
  {
    OneMore(actions, DialOne(t, ok));
    NextStep(Run(actions), DialOne(t, ok));
    RunKeepsInv(actions);
    hide Run, Step, Coherent, MadeUnlessClosed, Held;
  }

  // ---------------------------------------------------------------------------
  // The initial connect
  // ---------------------------------------------------------------------------

  /** The initial connect has dialed `name`, with this result. */
  ghost predicate DialedAs(actions: seq<Action>, name: Name, result: DialResult) {
    exists k: nat :: k < |actions| && actions[k] == OnceDials(name, result) && Enabled(Run(actions[..k]), actions[k])
  }

  lemma DialedAsMore(actions: seq<Action>, name: Name, result: DialResult)
    requires actions != []
    ensures var n := |actions| - 1;
            DialedAs(actions, name, result) <==>
              || DialedAs(actions[..n], name, result)
              || (actions[n] == OnceDials(name, result) && Enabled(Run(actions[..n]), actions[n]))
  {
    hide Run, Enabled;
    var n := |actions| - 1;
    assert forall k | 0 <= k <= n :: actions[..n][..k] == actions[..k];
    if DialedAs(actions[..n], name, result) {
      var k: nat :| k < n && actions[..n][k] == OnceDials(name, result)
                    && Enabled(Run(actions[..n][..k]), actions[..n][k]);
      assert Enabled(Run(actions[..k]), actions[k]);
    }
    if k: nat :| k < n && actions[k] == OnceDials(name, result) && Enabled(Run(actions[..k]), actions[k]) {
      assert Enabled(Run(actions[..n][..k]), actions[..n][k]);
    }
  }

  /** The status that a dial leaves. */
  function Marked(result: DialResult): Status {
    match result
    case NotEnabled => Disabled
    case DialFailed => Failed
    case Dialed => Connected
  }

  /** The initial connect has marked `name` with this result exactly if it was dialed so. */
  predicate MarkedAs(s: State, name: Name, result: DialResult, dialed: bool) {
    && (s.once.NotStarted? ==> !dialed)
    && (s.once.Connecting? ==>
          && (name in s.known <==> name in s.once.todo || name in s.once.marks)
          && (name in s.once.todo ==> name !in s.once.marks)
          && (dialed <==> name in s.once.marks && s.once.marks[name] == Marked(result)))
  }

  /** The initial connect and the known servers are as they were. */
  predicate SameOnce(s: State, u: State) {
    u.once == s.once && u.known == s.known
  }

  lemma OthersKeepOnce(s: State, a: Action)
    requires Enabled(s, a)
    requires !a.OnceBegins? && !a.OnceDials? && !a.OncePublishes? && !a.OnceDrops? && !a.OnceReturns? && !a.Register?
    ensures SameOnce(s, Apply(s, a))
  {
    hide CommitStep, DisconnectStep;
    if a.Commit? {
      CommitKeepsOnce(s, a.t);
    } else if a.Disconnect? {
      DisconnectKeepsOnce(s, a.name);
    } else if a.DialOne? {
    } else if a.Refresh? {
    } else if a.Close? || a.CloseOne? {
    }
  }

  lemma RegisterKeepsOnce(s: State, name: Name)
    requires Enabled(s, Register(name))
    ensures s.once.Ready? && RegisterStep(s, name).once == s.once
  {
  }

  lemma DisconnectKeepsOnce(s: State, name: Name)
    ensures DisconnectStep(s, name).once == s.once && DisconnectStep(s, name).known == s.known
  {
    CloseLockedForgets(s, name);
    hide CloseLocked, Forgotten;
  }

  lemma CommitKeepsOnce(s: State, t: Tid)
    requires Enabled(s, Commit(t))
    ensures CommitStep(s, t).once == s.once && CommitStep(s, t).known == s.known
  {
    var name := s.threads[t].name;
    CloseLockedForgets(s, name);
    hide CloseLocked, Forgotten;
    if s.threads[t].Disabling? {
    } else if s.threads[t].Failing? {
    } else if s.closed {
    }
  }

  lemma DialMarks(s: State, name: Name, result: DialResult)
    requires Enabled(s, OnceDials(name, result))
    ensures var u := OnceDialsStep(s, name, result);
            && u.known == s.known && u.closed == s.closed && u.once.Connecting?
            && u.once.todo == s.once.todo - {name} && u.once.marks == s.once.marks[name := Marked(result)]
  {
    if result.NotEnabled? {
    } else if result.DialFailed? {
    }
  }

  lemma DialKeepsMarked(s: State, a: Action, name: Name, result: DialResult, dialed: bool)
    requires MarkedAs(s, name, result, dialed) && Enabled(s, a) && a.OnceDials?
    ensures MarkedAs(OnceDialsStep(s, a.name, a.result), name, result, dialed || a == OnceDials(name, result))
  {
    DialMarks(s, a.name, a.result);
    hide OnceDialsStep;
  }

  lemma OnceKeepsMarked(s: State, a: Action, name: Name, result: DialResult, dialed: bool)
    requires MarkedAs(s, name, result, dialed) && Enabled(s, a)
    requires a.OnceBegins? || a.OncePublishes? || a.OnceDrops? || a.OnceReturns?
    ensures MarkedAs(Apply(s, a), name, result, dialed)
  {
    if a.OnceBegins? {
    } else if a.OncePublishes? {
    }
  }

  lemma MarkedAsInStep(s: State, a: Action, name: Name, result: DialResult, dialed: bool)
    requires MarkedAs(s, name, result, dialed) && Enabled(s, a)
    ensures MarkedAs(Apply(s, a), name, result, dialed || a == OnceDials(name, result))
  {
    hide Enabled;
    if a.OnceDials? {
      hide MarkedAs, OnceDialsStep;
      DialKeepsMarked(s, a, name, result, dialed);
      return;
    }
    if a.Register? {
      RegisterKeepsOnce(s, a.name);
      return;
    }
    hide Apply;
    if a.OnceBegins? || a.OncePublishes? || a.OnceDrops? || a.OnceReturns? {
      hide MarkedAs;
      OnceKeepsMarked(s, a, name, result, dialed);
    } else {
      OthersKeepOnce(s, a);
    }
  }

  lemma {:induction false} MarkedAsInRun(actions: seq<Action>, name: Name, result: DialResult)
    ensures MarkedAs(Run(actions), name, result, DialedAs(actions, name, result))
  {
    if actions != [] {
      hide Apply, MarkedAs, DialedAs, Enabled;
      var before, a := actions[..|actions| - 1], actions[|actions| - 1];
      MarkedAsInRun(before, name, result);
      DialedAsMore(actions, name, result);
      if Enabled(Run(before), a) {
        MarkedAsInStep(Run(before), a, name, result, DialedAs(before, name, result));
      }
    }
  }

  /**
   When the initial connect is over in an open manager, every configured server has the status of
   its dial, and the connected ones are in the caches.
   */
  lemma InitialStatusIff(actions: seq<Action>, name: Name, result: DialResult)
    requires Enabled(Run(actions), OncePublishes) && !Run(actions).closed
    ensures var u := Run(actions + [OncePublishes]);
            && (DialedAs(actions, name, result) <==> name in u.status && u.status[name] == Marked(result))
            && (name in u.status <==> name in u.known)
            && (DialedAs(actions, name, Dialed) <==> name in u.clients)
  {
    OneMore(actions, OncePublishes);
    NextStep(Run(actions), OncePublishes);
    MarkedAsInRun(actions, name, result);
    MarkedAsInRun(actions, name, Dialed);
    RunKeepsInv(actions);
    hide Run, Step, DialedAs, MadeUnlessClosed, Owned;
  }

  // ---------------------------------------------------------------------------
  // Closing
  // ---------------------------------------------------------------------------

  /** The close hands over every cached connection for closing, and touches no list, status or call. */
  lemma CloseHandsOver(actions: seq<Action>)
    ensures var s, u := Run(actions), Run(actions + [Close]);
            && u.closed && u.clients == map[]
            && u.closing == s.closing + set c | c in s.conns && s.conns[c].Cached?
            && u.conns.Keys == s.conns.Keys
            && (forall c | c in s.conns && !s.conns[c].Cached? :: u.conns[c] == s.conns[c])
            && u.tools == s.tools && u.resources == s.resources && u.status == s.status && u.threads == s.threads
  {
    OneMore(actions, Close);
    assert Step(Run(actions), Close) == CloseStep(Run(actions)) by {
      hide CloseStep;
    }
    RunKeepsInv(actions);
    hide Run, Step, Coherent, MadeUnlessClosed;
    var s := Run(actions);
    forall c | c in s.conns
      ensures c in s.clients.Values <==> s.conns[c].Cached?
    {
      assert IsAt(s, c, s.conns[c]);
    }
  }

  /** The action closes the connection `c`. */
  predicate Shuts(s: State, a: Action, c: Conn) {
    Enabled(s, a) &&
    match a
    case OnceDrops(name) => s.once.dialed[name] == c
    case Commit(t) =>
      !s.closed && !s.threads[t].Discarding? && s.threads[t].name in s.clients && s.clients[s.threads[t].name] == c
    case Discard(t) => s.threads[t].c == c
    case Disconnect(name) => name in s.known && name in s.clients && s.clients[name] == c
    case CloseOne(d) => d == c
    case _ => false
  }

  lemma CommitShuts(s: State, t: Tid, c: Conn)
    requires Held(s) && Enabled(s, Commit(t)) && c in s.conns
    ensures IsShut(Step(s, Commit(t)), c) <==> IsShut(s, c) || Shuts(s, Commit(t), c)
  {
    if s.closed {
      NextStep(s, Commit(t));
      hide Step;
    } else if s.threads[t].Holding? {
      ConnectedEffect(s, t);
      hide Step;
    } else {
      UnconnectedEffect(s, t);
      hide Step;
    }
  }

  lemma DisconnectShuts(s: State, name: Name, c: Conn)
    requires c in s.conns
    ensures IsShut(DisconnectStep(s, name), c) <==>
              IsShut(s, c) || (name in s.known && name in s.clients && s.clients[name] == c)
  {
    CloseLockedForgets(s, name);
    hide CloseLocked;
    if name !in s.known {
    } else if name !in s.clients {
    }
  }

  lemma PublishShutsNothing(s: State, c: Conn)
    requires Enabled(s, OncePublishes) && c in s.conns
    ensures IsShut(OncePublishesStep(s), c) <==> IsShut(s, c)
  {
  }

  lemma DialShutsNothing(s: State, name: Name, result: DialResult, c: Conn)
    requires Traced(s) && Enabled(s, OnceDials(name, result)) && c in s.conns
    ensures IsShut(OnceDialsStep(s, name, result), c) <==> IsShut(s, c)
  {
    hide IsAt;
    if result.NotEnabled? {
    } else if result.DialFailed? {
    }
  }

  lemma OnceShuts(s: State, a: Action, c: Conn)
    requires Traced(s) && Enabled(s, a) && c in s.conns
    requires a.OnceBegins? || a.OnceDials? || a.OncePublishes? || a.OnceDrops? || a.OnceReturns?
    ensures IsShut(Apply(s, a), c) <==> IsShut(s, c) || Shuts(s, a, c)
  {
    hide OncePublishesStep, OnceDialsStep;
    if a.OnceDials? {
      DialShutsNothing(s, a.name, a.result, c);
      hide Traced, IsShut;
    } else if a.OncePublishes? {
      PublishShutsNothing(s, c);
      hide Traced, IsShut;
    } else if a.OnceDrops? {
      hide Traced;
    } else {
      hide Traced;
    }
  }

  lemma CallShuts(s: State, a: Action, c: Conn)
    requires Traced(s) && Enabled(s, a) && c in s.conns
    requires a.Register? || a.Reconnect? || a.DialOne? || a.Discard?
    ensures IsShut(Apply(s, a), c) <==> IsShut(s, c) || Shuts(s, a, c)
  {
    hide IsAt;
    if a.DialOne? {
    } else if a.Discard? {
      hide Traced;
    }
  }

  lemma CloseShuts(s: State, a: Action, c: Conn)
    requires Enabled(s, a) && c in s.conns && (a.Refresh? || a.Close? || a.CloseOne?)
    ensures IsShut(Apply(s, a), c) <==> IsShut(s, c) || Shuts(s, a, c)
  {
    if a.Refresh? {
    } else if a.Close? {
    }
  }

  lemma OtherShuts(s: State, a: Action, c: Conn)
    requires Owned(s) && Enabled(s, a) && c in s.conns && !a.Commit? && !a.Disconnect?
    ensures IsShut(Apply(s, a), c) <==> IsShut(s, c) || Shuts(s, a, c)
  {
    hide Held, Traced, IsShut, Shuts, Apply, Enabled;
    if a.Refresh? || a.Close? || a.CloseOne? {
      CloseShuts(s, a, c);
    } else if a.Register? || a.Reconnect? || a.DialOne? || a.Discard? {
      CallShuts(s, a, c);
    } else {
      OnceShuts(s, a, c);
    }
  }

  /**
   A connection is closed exactly by dropping it after a close of the manager, by being replaced,
   by a disconnect, or by being worked through after the close; and it stays closed.
   */
  lemma ShutIff(actions: seq<Action>, a: Action, c: Conn)
    requires c in Run(actions).conns
    ensures IsShut(Run(actions + [a]), c) <==> IsShut(Run(actions), c) || Shuts(Run(actions), a, c)
  {
    OneMore(actions, a);
    RunKeepsInv(actions);
    var s := Run(actions);
    hide Run, Coherent, MadeUnlessClosed, Shuts, IsShut, Apply;
    if !Enabled(s, a) {
      hide Owned;
      NothingShut(s, a, c);
    } else if a.Commit? {
      hide Step, Enabled;
      CommitShuts(s, a.t, c);
    } else if a.Disconnect? {
      NextStep(s, a);
      hide Owned, Step;
      DisconnectIsApplied(s, a.name, c);
    } else {
      NextStep(s, a);
      hide Step, Enabled;
      OtherShuts(s, a, c);
    }
  }

  lemma NothingShut(s: State, a: Action, c: Conn)
    requires !Enabled(s, a)
    ensures !Shuts(s, a, c) && Step(s, a) == s
  {
  }

  lemma DisconnectIsApplied(s: State, name: Name, c: Conn)
    requires c in s.conns && Enabled(s, Disconnect(name))
    ensures IsShut(Apply(s, Disconnect(name)), c) <==> IsShut(s, c) || Shuts(s, Disconnect(name), c)
  {
    DisconnectShuts(s, name, c);
    hide DisconnectStep;
  }

  lemma ClosedInStep(s: State, a: Action)
    ensures Step(s, a).closed <==> s.closed || a == Close
  {
    hide CommitStep, OnceDialsStep, DisconnectStep, OnceBeginsStep, OncePublishesStep, OnceDropsStep;
    if !Enabled(s, a) {
    } else if a.Commit? {
      CommitKeepsClosed(s, a.t);
    } else if a.Disconnect? {
      DisconnectKeepsClosed(s, a.name);
    } else if a.OnceBegins? || a.OnceDials? || a.OncePublishes? || a.OnceDrops? || a.OnceReturns? {
      OnceKeepsClosed(s, a);
    } else if a.Register? || a.Reconnect? || a.DialOne? || a.Discard? {
    }
  }

  lemma OnceKeepsClosed(s: State, a: Action)
    requires Enabled(s, a) && (a.OnceBegins? || a.OnceDials? || a.OncePublishes? || a.OnceDrops? || a.OnceReturns?)
    ensures Apply(s, a).closed == s.closed
  {
    hide OnceDialsStep;
    if a.OnceDials? {
      DialMarks(s, a.name, a.result);
    } else if a.OncePublishes? {
    }
  }

  lemma DisconnectKeepsClosed(s: State, name: Name)
    ensures DisconnectStep(s, name).closed == s.closed
  {
    hide CloseLocked;
  }

  lemma CommitKeepsClosed(s: State, t: Tid)
    requires Enabled(s, Commit(t))
    ensures CommitStep(s, t).closed == s.closed
  {
    hide CloseLocked;
    if s.threads[t].Disabling? {
    } else if s.threads[t].Failing? {
    } else if s.closed {
    }
  }

  /** The manager is closed exactly if somebody closed it. */
  lemma {:induction false} ClosedIff(actions: seq<Action>)
    ensures Run(actions).closed <==> Close in actions
  {
    if actions != [] {
      hide Step;
      var n := |actions| - 1;
      ClosedIff(actions[..n]);
      ClosedInStep(Run(actions[..n]), actions[n]);
      assert actions == actions[..n] + [actions[n]];
    }
  }

  // ---------------------------------------------------------------------------
  // Known servers
  // ---------------------------------------------------------------------------

  /** The initial connect begins with `name` configured, or `name` is added. */
  predicate MakesKnown(s: State, a: Action, name: Name) {
    Enabled(s, a) && ((a.OnceBegins? && name in a.servers) || a == Register(name))
  }

  ghost predicate MadeKnown(actions: seq<Action>, name: Name) {
    exists k: nat :: k < |actions| && MakesKnown(Run(actions[..k]), actions[k], name)
  }

  lemma MadeKnownMore(actions: seq<Action>, name: Name)
    requires actions != []
    ensures var n := |actions| - 1;
            MadeKnown(actions, name) <==>
              MadeKnown(actions[..n], name) || MakesKnown(Run(actions[..n]), actions[n], name)
  {
    hide Run, MakesKnown;
    var n := |actions| - 1;
    assert forall k | 0 <= k <= n :: actions[..n][..k] == actions[..k];
    if MadeKnown(actions[..n], name) {
      var k: nat :| k < n && MakesKnown(Run(actions[..n][..k]), actions[..n][k], name);
      assert MakesKnown(Run(actions[..k]), actions[k], name);
    }
    if k: nat :| k < n && MakesKnown(Run(actions[..k]), actions[k], name) {
      assert MakesKnown(Run(actions[..n][..k]), actions[..n][k], name);
    }
  }

  lemma OnceKeepsKnown(s: State, a: Action)
    requires Enabled(s, a) && (a.OnceDials? || a.OncePublishes? || a.OnceDrops? || a.OnceReturns?)
    ensures Apply(s, a).known == s.known && !Apply(s, a).once.NotStarted?
  {
    hide OnceDialsStep;
    if a.OnceDials? {
      DialMarks(s, a.name, a.result);
    } else if a.OncePublishes? {
    }
  }

  /** A server is known exactly if it was configured when the initial connect began, or added since. */
  lemma {:induction false} KnownIff(actions: seq<Action>, name: Name)
    ensures name in Run(actions).known <==> MadeKnown(actions, name)
    ensures Run(actions).once.NotStarted? ==> Run(actions).known == {}
  {
    if actions != [] {
      hide Apply, MadeKnown;
      var before, a := actions[..|actions| - 1], actions[|actions| - 1];
      KnownIff(before, name);
      MadeKnownMore(actions, name);
      if Enabled(Run(before), a) {
        KnownInStep(Run(before), a, name);
      }
    }
  }

  lemma KnownInStep(s: State, a: Action, name: Name)
    requires Enabled(s, a) && (s.once.NotStarted? ==> s.known == {})
    ensures var t := Apply(s, a);
            && (name in t.known <==> name in s.known || MakesKnown(s, a, name))
            && (t.once.NotStarted? ==> t.known == {})
  {
    if a.OnceBegins? {
    } else if a.Register? {
    } else if a.OnceDials? || a.OncePublishes? || a.OnceDrops? || a.OnceReturns? {
      OnceKeepsKnown(s, a);
      hide Apply, Enabled;
    } else {
      OthersKeepOnce(s, a);
      hide Apply, Enabled;
    }
  }
}
