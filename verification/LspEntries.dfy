/**
 What callers of the language-server service are told and what becomes of the processes, told by
 the actions of a run: who failed, who connected, and whether the service was disposed.
 */
module LspEntries {
  import opened LspSpawning

  // ---------------------------------------------------------------------------
  // What happened
  // ---------------------------------------------------------------------------

  /** An attempt for `key` ends without a server: its spawn or its handshake failed. */
  predicate Fails(s: State, a: Action, key: Key) {
    a.Commit? && Enabled(s, a) && s.threads[a.t].GivesUp? && s.threads[a.t].key == key
  }

  /** An attempt for `key` ends with a connected server. */
  predicate Succeeds(s: State, a: Action, key: Key) {
    a.Commit? && Enabled(s, a) && s.threads[a.t].Commits? && s.threads[a.t].key == key && !s.disposed
  }

  ghost predicate HasFailed(actions: seq<Action>, key: Key) {
    exists k: nat :: k < |actions| && Fails(Run(actions[..k]), actions[k], key)
  }

  ghost predicate HasConnected(actions: seq<Action>, key: Key) {
    exists k: nat :: k < |actions| && Succeeds(Run(actions[..k]), actions[k], key)
  }

  lemma HasFailedMore(actions: seq<Action>, key: Key)
    requires actions != []
    ensures var n := |actions| - 1;
            HasFailed(actions, key) <==> HasFailed(actions[..n], key) || Fails(Run(actions[..n]), actions[n], key)
  {
    hide Run, Fails;
    var n := |actions| - 1;
    assert forall k | 0 <= k <= n :: actions[..n][..k] == actions[..k];
    if HasFailed(actions[..n], key) {
      var k: nat :| k < n && Fails(Run(actions[..n][..k]), actions[..n][k], key);
      assert Fails(Run(actions[..k]), actions[k], key);
    }
    if HasFailed(actions, key) && !Fails(Run(actions[..n]), actions[n], key) {
      var k: nat :| k < |actions| && Fails(Run(actions[..k]), actions[k], key);
      assert k < n && Fails(Run(actions[..n][..k]), actions[..n][k], key);
    }
  }

  lemma HasConnectedMore(actions: seq<Action>, key: Key)
    requires actions != []
    ensures var n := |actions| - 1;
            HasConnected(actions, key) <==>
              HasConnected(actions[..n], key) || Succeeds(Run(actions[..n]), actions[n], key)
  {
    hide Run, Succeeds;
    var n := |actions| - 1;
    assert forall k | 0 <= k <= n :: actions[..n][..k] == actions[..k];
    if HasConnected(actions[..n], key) {
      var k: nat :| k < n && Succeeds(Run(actions[..n][..k]), actions[..n][k], key);
      assert Succeeds(Run(actions[..k]), actions[k], key);
    }
    if HasConnected(actions, key) && !Succeeds(Run(actions[..n]), actions[n], key) {
      var k: nat :| k < |actions| && Succeeds(Run(actions[..k]), actions[k], key);
      assert k < n && Succeeds(Run(actions[..n][..k]), actions[..n][k], key);
    }
  }

  /** Entering adds one caller, and touches neither the servers nor the other callers. */
  lemma EnterOnlyAdds(s: State, t: Tid, key: Key)
    ensures var u := EnterStep(s, t, key);
            && u.disposed == s.disposed && u.running == s.running && u.broken == s.broken
            && u.procs == s.procs && u.outcomes == s.outcomes
            && t in u.threads && u.threads == s.threads[t := u.threads[t]]
            && (u.threads[t].Refused? || u.threads[t].Waits? || u.threads[t].Spawns?)
  {
    if s.disposed {
    } else if key in s.broken {
    } else if key in s.running {
    } else if key in s.spawning {
    }
  }

  lemma CommitEffect(s: State, t: Tid, key: Key)
    requires Enabled(s, Commit(t))
    ensures var u := CommitStep(s, t);
            && u.disposed == s.disposed
            && (key in u.broken <==> key in s.broken || Fails(s, Commit(t), key))
            && (key in u.running <==> key in s.running || Succeeds(s, Commit(t), key))
            && t in u.threads && u.threads == s.threads[t := u.threads[t]] && u.threads[t].Spawned?
            && (u.threads[t].result == Error <==> s.threads[t].GivesUp?)
  {
    hide Own;
    if s.threads[t].GivesUp? {
    } else if s.disposed {
    }
  }

  lemma BooksInStep(s: State, a: Action, key: Key)
    requires KeysDisjoint(s)
    ensures var t := Step(s, a);
            && (t.disposed <==> s.disposed || a == Dispose)
            && (key in t.broken <==> key in s.broken || Fails(s, a, key))
            && (key in t.running <==> !t.disposed && (key in s.running || Succeeds(s, a, key)))
  {
    hide Own, EnterStep, CommitStep;
    if a.Enter? {
      EnterOnlyAdds(s, a.t, a.key);
    } else if a.Commit? && Enabled(s, a) {
      CommitEffect(s, a.t, key);
    }
  }

  /**
   A key is broken exactly if an attempt for it failed, and running exactly if one connected and
   the service was not disposed.
   */
  lemma {:induction false} BooksIff(actions: seq<Action>, key: Key)
    ensures var s := Run(actions);
            && (s.disposed <==> Dispose in actions)
            && (key in s.broken <==> HasFailed(actions, key))
            && (key in s.running <==> HasConnected(actions, key) && Dispose !in actions)
  {
    if actions != [] {
      hide Step, Fails, Succeeds, HasFailed, HasConnected, KeysDisjoint, Attempts, Waiters, Owned;
      var n := |actions| - 1;
      BooksIff(actions[..n], key);
      HasFailedMore(actions, key);
      HasConnectedMore(actions, key);
      RunKeepsInv(actions[..n]);
      BooksInStep(Run(actions[..n]), actions[n], key);
      assert actions == actions[..n] + [actions[n]];
    }
  }

  // ---------------------------------------------------------------------------
  // Entering
  // ---------------------------------------------------------------------------

  /** A process of `key` is in the running map. */
  ghost predicate ServerRuns(s: State, key: Key) {
    exists p :: p in s.procs && s.procs[p] == Info(key, InRunning)
  }

  /** The caller `u` is in charge of an attempt for `key`. */
  predicate InCharge(s: State, u: Tid, key: Key) {
    u in s.threads && Spawning(s.threads[u]) && s.threads[u].key == key
  }

  ghost predicate UnderWay(s: State, key: Key) {
    exists u :: InCharge(s, u, key)
  }

  lemma RunsIff(s: State, key: Key)
    requires Owned(s)
    ensures ServerRuns(s, key) <==> key in s.running
  {
    if key in s.running {
      assert s.procs[s.running[key]] == Info(key, InRunning);
    }
  }

  lemma UnderWayIff(s: State, key: Key)
    requires Attempts(s)
    ensures UnderWay(s, key) <==> key in s.spawning
    ensures forall u | InCharge(s, u, key) :: key in s.spawning && s.threads[u].o == s.spawning[key]
  {
    if key in s.spawning {
      assert InCharge(s, s.spawners[s.spawning[key]], key);
    }
  }

  lemma EnterCases(s: State, t: Tid, key: Key)
    requires KeysDisjoint(s) && t !in s.threads
    ensures var u := EnterStep(s, t, key);
            t in u.threads && u.threads[t] == (if s.disposed then Refused(Nothing)
                                               else if key in s.broken then Refused(Error)
                                               else if key in s.running then Refused(ServerId)
                                               else if key in s.spawning then Waits(key, s.spawning[key])
                                               else Spawns(key, s.nextOnce))
  {
    if s.disposed {
    } else if key in s.broken {
    } else if key in s.running {
    } else if key in s.spawning {
    }
  }

  lemma OneMoreAction(actions: seq<Action>, a: Action)
    ensures Run(actions + [a]) == Step(Run(actions), a)
  {
    assert (actions + [a])[..|actions|] == actions;
  }

  /**
   What a caller is told at entry: nothing exactly after the dispose; else the error exactly if an
   attempt for the key failed; the server's id exactly if its process runs. It waits exactly if
   somebody else is in charge of an attempt, for that attempt, and otherwise makes one itself.
   */
  lemma EntryAnswers(actions: seq<Action>, t: Tid, key: Key)
    requires t !in Run(actions).threads
    ensures var s, u := Run(actions), Run(actions + [Enter(t, key)]);
            && t in u.threads && u.threads == s.threads[t := u.threads[t]]
            && (u.threads[t] == Refused(Nothing) <==> Dispose in actions)
            && (u.threads[t] == Refused(Error) <==> Dispose !in actions && HasFailed(actions, key))
            && (u.threads[t] == Refused(ServerId) <==> ServerRuns(s, key))
            && (u.threads[t].Waits? <==> Dispose !in actions && UnderWay(s, key))
            && (forall v | u.threads[t].Waits? && InCharge(s, v, key) :: u.threads[t] == Waits(key, s.threads[v].o))
            && (u.threads[t].Spawns? <==>
                  Dispose !in actions && !HasFailed(actions, key) && !ServerRuns(s, key) && !UnderWay(s, key))
            && (u.threads[t].Spawns? ==> InCharge(u, t, key) && u.threads[t].o !in s.outcomes)
  {
    hide Run, HasFailed, ServerRuns, UnderWay;
    OneMoreAction(actions, Enter(t, key));
    BooksIff(actions, key);
    RunKeepsInv(actions);
    var s := Run(actions);
    RunsIff(s, key);
    UnderWayIff(s, key);
    EnterCases(s, t, key);
    EnterOnlyAdds(s, t, key);
    assert Step(s, Enter(t, key)) == EnterStep(s, t, key) by {
      hide EnterStep;
    }
    hide EnterStep;
    assert s.nextOnce !in s.outcomes;
    hide Attempts, Waiters, Owned;
  }

  // ---------------------------------------------------------------------------
  // What a spawner reports
  // ---------------------------------------------------------------------------

  /** The spawn or the handshake of the caller `t` fails. */
  predicate FailsFor(s: State, a: Action, t: Tid) {
    (a == SpawnResult(t, false) || a == HandshakeResult(t, false)) && Enabled(s, a)
  }

  /** It failed at some time. */
  ghost predicate Failed(actions: seq<Action>, t: Tid) {
    exists k: nat :: k < |actions| && FailsFor(Run(actions[..k]), actions[k], t)
  }

  lemma FailedMore(actions: seq<Action>, t: Tid)
    requires actions != []
    ensures var n := |actions| - 1;
            Failed(actions, t) <==> Failed(actions[..n], t) || FailsFor(Run(actions[..n]), actions[n], t)
  {
    hide Run, FailsFor;
    var n := |actions| - 1;
    assert forall k | 0 <= k <= n :: actions[..n][..k] == actions[..k];
    if Failed(actions[..n], t) {
      var k: nat :| k < n && FailsFor(Run(actions[..n][..k]), actions[..n][k], t);
      assert FailsFor(Run(actions[..k]), actions[k], t);
    }
    if Failed(actions, t) && !FailsFor(Run(actions[..n]), actions[n], t) {
      var k: nat :| k < |actions| && FailsFor(Run(actions[..k]), actions[k], t);
      assert k < n && FailsFor(Run(actions[..n][..k]), actions[..n][k], t);
    }
  }

  /** The caller is where its failure or success has brought it. */
  predicate Tells(s: State, t: Tid, failed: bool) {
    if t !in s.threads then !failed
    else
      match s.threads[t]
      case GivesUp(_, _) => failed
      case Spawned(_, result) => failed <==> result == Error
      case _ => !failed
  }

  lemma SpawnTells(s: State, a: Action, t: Tid, failed: bool)
    requires Tells(s, t, failed) && Enabled(s, a) && (a.SpawnResult? || a.HandshakeResult?)
    ensures Tells(Apply(s, a), t, failed || FailsFor(s, a, t))
  {
    hide Own;
    if a.SpawnResult? {
    } else if a.ok {
    }
  }

  lemma CommitTells(s: State, u: Tid, t: Tid, failed: bool)
    requires Tells(s, t, failed) && Enabled(s, Commit(u))
    ensures Tells(CommitStep(s, u), t, failed)
  {
    CommitEffect(s, u, s.threads[u].key);
    hide CommitStep;
  }

  lemma EnterTells(s: State, u: Tid, key: Key, t: Tid, failed: bool)
    requires Tells(s, t, failed) && u !in s.threads
    ensures Tells(EnterStep(s, u, key), t, failed)
  {
    EnterOnlyAdds(s, u, key);
    hide EnterStep;
  }

  lemma TellsInStep(s: State, a: Action, t: Tid, failed: bool)
    requires Tells(s, t, failed)
    ensures Tells(Step(s, a), t, failed || FailsFor(s, a, t))
  {
    hide Own, EnterStep, CommitStep, SpawnStep, HandshakeStep;
    if Enabled(s, a) {
      match a
      case Enter(u, key) => EnterTells(s, u, key, t, failed);
      case SpawnResult(_, _) => SpawnTells(s, a, t, failed);
      case HandshakeResult(_, _) => SpawnTells(s, a, t, failed);
      case Commit(u) => CommitTells(s, u, t, failed);
      case Wake(_) =>
      case Dispose =>
      case KillOne(_) =>
    }
  }

  lemma {:induction false} TellsInRun(actions: seq<Action>, t: Tid)
    ensures Tells(Run(actions), t, Failed(actions, t))
  {
    if actions != [] {
      hide Step, Tells, FailsFor, Failed;
      TellsInRun(actions[..|actions| - 1], t);
      FailedMore(actions, t);
      TellsInStep(Run(actions[..|actions| - 1]), actions[|actions| - 1], t, Failed(actions[..|actions| - 1], t));
    }
  }

  /** A spawner reports an error exactly if its spawn or its handshake failed. */
  lemma ErrorIffFailed(actions: seq<Action>, t: Tid)
    requires t in Run(actions).threads && Run(actions).threads[t].Spawned?
    ensures Run(actions).threads[t].result == Error <==> Failed(actions, t)
  {
    hide Run, Failed;
    TellsInRun(actions, t);
  }

  // ---------------------------------------------------------------------------
  // Processes
  // ---------------------------------------------------------------------------

  /** A spawn that succeeds starts a process nobody had, and leaves the others as they are. */
  lemma SpawnStartsProcess(actions: seq<Action>, t: Tid)
    requires Enabled(Run(actions), SpawnResult(t, true))
    ensures var s, u := Run(actions), Run(actions + [SpawnResult(t, true)]);
            && s.nextProc !in s.procs && u.procs.Keys == s.procs.Keys + {s.nextProc}
            && (forall p | p in s.procs :: u.procs[p] == s.procs[p])
            && t in u.threads && u.threads == s.threads[t := u.threads[t]]
            && u.threads[t] == Connects(s.threads[t].key, s.threads[t].o, s.nextProc)
  {
    OneMoreAction(actions, SpawnResult(t, true));
    RunKeepsInv(actions);
    hide Run, KeysDisjoint, Attempts, Waiters;
  }

  /** A connected server that meets an open service is the one that runs from then on. */
  lemma CommitInstalls(actions: seq<Action>, t: Tid)
    requires Enabled(Run(actions), Commit(t)) && Run(actions).threads[t].Commits? && Dispose !in actions
    ensures var s, u := Run(actions), Run(actions + [Commit(t)]);
            u.running == s.running[s.threads[t].key := s.threads[t].p] && u.broken == s.broken
  {
    OneMoreAction(actions, Commit(t));
    BooksIff(actions, Run(actions).threads[t].key);
    hide Run, Own, HasFailed, HasConnected;
  }

  /** The action kills `p`: its handshake failed, it came too late, or it was handed over for killing. */
  predicate Kills(s: State, a: Action, p: Proc) {
    Enabled(s, a) &&
    match a
    case HandshakeResult(t, ok) => !ok && s.threads[t].p == p
    case Commit(t) => s.threads[t].Commits? && s.threads[t].p == p && s.disposed
    case KillOne(q) => q == p
    case _ => false
  }

  lemma CommitKills(s: State, t: Tid, p: Proc)
    requires Owned(s) && p in s.procs && Enabled(s, Commit(t))
    ensures Killed(CommitStep(s, t), p) <==> Killed(s, p) || Kills(s, Commit(t), p)
  {
    if s.threads[t].GivesUp? {
    } else if s.disposed {
    }
  }

  lemma DisposeKillsNothing(s: State, p: Proc)
    requires Owned(s) && p in s.procs
    ensures Killed(DisposeStep(s), p) <==> Killed(s, p)
  {
  }

  lemma KillsInStep(s: State, a: Action, p: Proc)
    requires Owned(s) && p in s.procs
    ensures Killed(Step(s, a), p) <==> Killed(s, p) || Kills(s, a, p)
  {
    hide EnterStep, CommitStep, DisposeStep;
    if Enabled(s, a) {
      match a
      case Enter(t, key) => EnterOnlyAdds(s, t, key);
      case SpawnResult(_, _) =>
      case HandshakeResult(_, _) => hide Owned;
      case Commit(t) => CommitKills(s, t, p);
      case Wake(_) => hide Owned;
      case Dispose => DisposeKillsNothing(s, p);
      case KillOne(_) => hide Owned;
    }
  }

  /** A process dies exactly in such a step, and stays dead. */
  lemma KilledIff(actions: seq<Action>, a: Action, p: Proc)
    requires p in Run(actions).procs
    ensures Killed(Run(actions + [a]), p) <==> Killed(Run(actions), p) || Kills(Run(actions), a, p)
  {
    hide Run, Step, Kills, Killed, KeysDisjoint, Attempts, Waiters, Owned;
    OneMoreAction(actions, a);
    RunKeepsInv(actions);
    KillsInStep(Run(actions), a, p);
  }

  /** The dispose hands over every process that runs for killing, and touches no other. */
  lemma DisposeHandsOver(actions: seq<Action>)
    requires Dispose !in actions
    ensures var s, t := Run(actions), Run(actions + [Dispose]);
            && t.disposing == (set p | p in s.procs && s.procs[p].owner == InRunning)
            && t.procs.Keys == s.procs.Keys && t.running == map[]
            && (forall p | p in s.procs && s.procs[p].owner != InRunning :: t.procs[p] == s.procs[p])
            && t.threads == s.threads && t.broken == s.broken && t.spawning == s.spawning
  {
    OneMoreAction(actions, Dispose);
    BooksIff(actions, 0);
    RunKeepsInv(actions);
    hide Run, HasFailed, HasConnected, Attempts, Waiters, KeysDisjoint;
    var s := Run(actions);
    forall p | p in s.procs
      ensures p in s.running.Values <==> s.procs[p].owner == InRunning
    {
      if s.procs[p].owner == InRunning {
        assert s.running[s.procs[p].key] == p;
      }
    }
  }
}
