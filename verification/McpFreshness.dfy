/**
 One MCP connection and its tool list: the dial that lists the tools and then watches for
 changes, the publication, and a refresh for every change that is announced. A refresh reads the
 list and then stores it, if the connection is the cached one by then.
 */
module McpFreshness {

  /** `Watched` is dialed and not published yet; `Gone` is closed or replaced. */
  datatype Phase = Dialing | Listed | Watched | Cached | Gone

  datatype Refresh = Starting | HasRead(version: nat)

  /** `version` counts the changes of the server's list, `held` is the version the dial or the cache has. */
  datatype State = State(phase: Phase, version: nat, held: nat, refreshes: map<nat, Refresh>, next: nat)

  datatype Action =
    | Lists
    | Watches
    | Publishes
    | Changes
    | Reads(t: nat)
    | Fails(t: nat)
    | Stores(t: nat)
    | Leaves

  predicate Enabled(s: State, a: Action) {
    match a
    case Lists => s.phase.Dialing?
    case Watches => s.phase.Listed?
    case Publishes => s.phase.Watched?
    case Changes => true
    case Reads(t) => t in s.refreshes && s.refreshes[t].Starting?
    case Fails(t) => t in s.refreshes && s.refreshes[t].Starting?
    case Stores(t) => t in s.refreshes && s.refreshes[t].HasRead?
    case Leaves => s.phase.Cached?
  }

  function Apply(s: State, a: Action): State
    requires Enabled(s, a)
  {
    match a
    case Lists => s.(phase := Listed, held := s.version)
    case Watches => s.(phase := Watched)
    case Publishes => s.(phase := Cached)
    case Changes =>
      // Before the handler is registered, a change is announced to nobody.
      if s.phase.Dialing? || s.phase.Listed? then s.(version := s.version + 1)
      else s.(version := s.version + 1, refreshes := s.refreshes[s.next := Starting], next := s.next + 1)
    case Reads(t) => s.(refreshes := s.refreshes[t := HasRead(s.version)])
    case Fails(t) => s.(refreshes := s.refreshes - {t})
    case Stores(t) =>
      s.(refreshes := s.refreshes - {t}, held := if s.phase.Cached? then s.refreshes[t].version else s.held)
    case Leaves => s.(phase := Gone)
  }

  function Step(s: State, a: Action): State {
    if Enabled(s, a) then Apply(s, a) else s
  }

  const START := State(Dialing, 0, 0, map[], 0)

  function RunFrom(s: State, actions: seq<Action>): State {
    if actions == [] then s else Step(RunFrom(s, actions[..|actions| - 1]), actions[|actions| - 1])
  }

  function Run(actions: seq<Action>): State {
    RunFrom(START, actions)
  }

  // ---------------------------------------------------------------------------
  // Changes during the dial
  // ---------------------------------------------------------------------------

  /** The connection is not published yet: the list it holds is the one the dial read. */
  predicate StillDialed(s: State, read: nat, changed: bool) {
    && (s.phase.Listed? || s.phase.Watched?) && s.held == read <= s.version
    && (s.version == read <==> !changed)
  }

  lemma PhaseNeverReturns(s: State, a: Action)
    requires !s.phase.Dialing? && !s.phase.Listed? && !s.phase.Watched?
    ensures !Step(s, a).phase.Dialing? && !Step(s, a).phase.Listed? && !Step(s, a).phase.Watched?
  {
  }

  lemma {:induction false} WhileDialed(s: State, middle: seq<Action>)
    requires s.phase.Listed? && s.held == s.version
    ensures var t := RunFrom(s, middle);
            t.phase.Dialing? || t.phase.Listed? || t.phase.Watched? ==>
              StillDialed(t, s.version, Changes in middle)
  {
    if middle != [] {
      var init, last := middle[..|middle| - 1], middle[|middle| - 1];
      WhileDialed(s, init);
      var t := RunFrom(s, init);
      assert Changes in middle <==> Changes in init || last == Changes;
      if !t.phase.Dialing? && !t.phase.Listed? && !t.phase.Watched? {
        PhaseNeverReturns(t, last);
      }
    }
  }

  /**
   At the moment a connection is published, its list is the server's newest exactly when the list
   did not change since the dial read it: a refresh in between is dropped.
   */
  lemma PublishedFreshIff(first: seq<Action>, middle: seq<Action>)
    requires Run(first).phase.Dialing? && Run(first + [Lists] + middle).phase.Watched?
    ensures var s := Run(first + [Lists] + middle + [Publishes]);
            s.phase.Cached? && (s.held == s.version <==> Changes !in middle)
  {
    OneMore(first, Lists);
    RunInParts(first + [Lists], middle);
    OneMore(first + [Lists] + middle, Publishes);
    WhileDialed(Run(first + [Lists]), middle);
  }

  lemma OneMore(actions: seq<Action>, a: Action)
    ensures Run(actions + [a]) == Step(Run(actions), a)
  {
    assert (actions + [a])[..|actions|] == actions;
  }

  lemma {:induction false} RunInParts(first: seq<Action>, second: seq<Action>)
    ensures Run(first + second) == RunFrom(Run(first), second)
  {
    hide Step;
    if second == [] {
      assert first + second == first;
    } else {
      var all := first + second;
      assert all[..|all| - 1] == first + second[..|second| - 1];
      RunInParts(first, second[..|second| - 1]);
    }
  }

  /** A change announced during the dial is lost: nothing is under way, and the cache has the old list. */
  lemma ChangeIsLost()
    ensures var s := Run([Lists, Watches, Changes, Reads(0), Stores(0), Publishes]);
            s.phase.Cached? && s.refreshes == map[] && s.held == 0 && s.version == 1
  {
    assert [] + [Lists] == [Lists] && [Lists] + [Watches] == [Lists, Watches];
    assert [Lists, Watches] + [Changes] == [Lists, Watches, Changes];
    assert [Lists, Watches, Changes] + [Reads(0)] == [Lists, Watches, Changes, Reads(0)];
    assert [Lists, Watches, Changes, Reads(0)] + [Stores(0)] == [Lists, Watches, Changes, Reads(0), Stores(0)];
    assert [Lists, Watches, Changes, Reads(0), Stores(0)] + [Publishes]
        == [Lists, Watches, Changes, Reads(0), Stores(0), Publishes];
    OneMore([], Lists);
    OneMore([Lists], Watches);
    OneMore([Lists, Watches], Changes);
    OneMore([Lists, Watches, Changes], Reads(0));
    OneMore([Lists, Watches, Changes, Reads(0)], Stores(0));
    OneMore([Lists, Watches, Changes, Reads(0), Stores(0)], Publishes);
  }

  /** A change announced to a cached connection starts a refresh, and that fetches the newest list. */
  lemma ChangeIsFetched(actions: seq<Action>)
    requires Run(actions).phase.Cached?
    ensures var s := Run(actions);
            var t, u := Run(actions + [Changes]), Run(actions + [Changes] + [Reads(s.next)] + [Stores(s.next)]);
            && t.version == s.version + 1 && t.held == s.held
            && t.refreshes == s.refreshes[s.next := Starting] && s.next !in s.refreshes
            && u.phase.Cached? && u.held == u.version == t.version && u.refreshes == s.refreshes
  {
    OneMore(actions, Changes);
    OneMore(actions + [Changes], Reads(Run(actions).next));
    OneMore(actions + [Changes] + [Reads(Run(actions).next)], Stores(Run(actions).next));
    FreshRefresh(actions);
    hide Run;
    var s := Run(actions);
    assert s.refreshes[s.next := HasRead(s.version + 1)] - {s.next} == s.refreshes;
  }

  lemma FreshInStep(s: State, a: Action)
    requires forall t | t in s.refreshes :: t < s.next
    ensures forall t | t in Step(s, a).refreshes :: t < Step(s, a).next
  {
  }

  lemma {:induction false} FreshRefresh(actions: seq<Action>)
    ensures forall t | t in Run(actions).refreshes :: t < Run(actions).next
  {
    if actions != [] {
      hide Step;
      FreshRefresh(actions[..|actions| - 1]);
      FreshInStep(Run(actions[..|actions| - 1]), actions[|actions| - 1]);
    }
  }

  // ---------------------------------------------------------------------------
  // Refreshes of a cached connection
  // ---------------------------------------------------------------------------

  /** A refresh goes on to its end. */
  function Finish(s: State, t: nat): State {
    Step(Step(s, Reads(t)), Stores(t))
  }

  function FinishAll(s: State, order: seq<nat>): State {
    if order == [] then s else Finish(FinishAll(s, order[..|order| - 1]), order[|order| - 1])
  }

  /** An order in which the refreshes can finish: each of them once. */
  ghost predicate OrderOf(order: seq<nat>, s: State) {
    && (forall i, j | 0 <= i < j < |order| :: order[i] != order[j])
    && (forall t :: t in order <==> t in s.refreshes)
  }

  /** The version a refresh ends with, if the list does not change any more. */
  function Ends(s: State, t: nat): nat
    requires t in s.refreshes
  {
    match s.refreshes[t]
    case Starting => s.version
    case HasRead(v) => v
  }

  lemma {:induction false} LastOneStays(s: State, order: seq<nat>)
    requires s.phase.Cached?
    requires forall i, j | 0 <= i < j < |order| :: order[i] != order[j]
    requires forall t | t in order :: t in s.refreshes
    ensures var u := FinishAll(s, order);
            && u.phase.Cached? && u.version == s.version
            && u.held == (if order == [] then s.held else Ends(s, order[|order| - 1]))
            && forall t | t in s.refreshes && t !in order :: t in u.refreshes && u.refreshes[t] == s.refreshes[t]
  {
    if order != [] {
      var init, last := order[..|order| - 1], order[|order| - 1];
      LastOneStays(s, init);
      assert last !in init;
    }
  }

  /** In whatever order the refreshes finish, the cache ends with the newest list. */
  ghost predicate SurelyFresh(s: State) {
    forall order | OrderOf(order, s) :: FinishAll(s, order).held == s.version
  }

  lemma {:induction false} OrderExists(left: set<nat>) returns (order: seq<nat>)
    ensures forall i, j | 0 <= i < j < |order| :: order[i] != order[j]
    ensures forall t :: t in order <==> t in left
  {
    if left == {} {
      order := [];
    } else {
      var x :| x in left;
      var rest := OrderExists(left - {x});
      order := rest + [x];
    }
  }

  /**
   Once the list changes no more, the cache of a published connection is certain to end with the
   newest list exactly when no refresh under way has read an older one, and, where none is under
   way, it has the newest already.
   */
  lemma SurelyFreshIff(s: State)
    requires s.phase.Cached?
    ensures SurelyFresh(s) <==>
            && (forall t | t in s.refreshes :: Ends(s, t) == s.version)
            && (s.refreshes == map[] ==> s.held == s.version)
  {
    if SurelyFresh(s) {
      forall t | t in s.refreshes
        ensures Ends(s, t) == s.version
      {
        var rest := OrderExists(s.refreshes.Keys - {t});
        assert OrderOf(rest + [t], s);
        LastOneStays(s, rest + [t]);
      }
      if s.refreshes == map[] {
        assert OrderOf([], s);
        LastOneStays(s, []);
      }
    }
    if (forall t | t in s.refreshes :: Ends(s, t) == s.version) && (s.refreshes == map[] ==> s.held == s.version) {
      forall order | OrderOf(order, s)
        ensures FinishAll(s, order).held == s.version
      {
        LastOneStays(s, order);
        if order == [] {
          assert s.refreshes == map[];
        } else {
          assert order[|order| - 1] in order;
        }
      }
    }
  }
}
