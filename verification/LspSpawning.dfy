/**
 The lifecycle of language servers as a step system: any number of callers of ensureOne,
 the spawns they run, and DisposeAll. One step is one critical section or one operation on
 a process.
 */
module LspSpawning {

  type Key = nat     // server id and root
  type Tid = nat     // a caller of ensureOne
  type Once = nat    // one spawn attempt, shared by its spawner and its waiters
  type Proc = nat    // a started server process

  datatype Result = ServerId | Nothing | Error

  /** How a spawn attempt ended, as its waiters read it: with an error, without a handle, or with one. */
  datatype Outcome = SpawnFailed | WasDisposed | Installed

  datatype Thread =
    | Waits(key: Key, o: Once)
    | Spawns(key: Key, o: Once)            // it owns the attempt; no process yet
    | Connects(key: Key, o: Once, p: Proc) // the handshake is running
    | Commits(key: Key, o: Once, p: Proc)  // the handshake succeeded
    | GivesUp(key: Key, o: Once)           // the spawn or the handshake failed
    | Refused(result: Result)
    | Waited(o: Once, result: Result)
    | Spawned(o: Once, result: Result)

  /** Where a started process is. Kept as history; the invariant ties it to the real fields. */
  datatype Owner = ByThread(t: Tid) | InRunning | ByDisposer | Dead

  datatype Info = Info(key: Key, owner: Owner)

  /**
   `disposed`, `running`, `broken` and `spawning` are the fields of the service; `outcomes`
   are the attempts whose `done` is closed, `disposing` the handles DisposeAll has taken and
   not killed yet. `procs` and `spawners` are history.
   */
  datatype State = State(
    disposed: bool, running: map<Key, Proc>, broken: set<Key>, spawning: map<Key, Once>,
    outcomes: map<Once, Outcome>, nextOnce: Once, threads: map<Tid, Thread>, disposing: set<Proc>,
    procs: map<Proc, Info>, nextProc: Proc, spawners: map<Once, Tid>)

  datatype Action =
    | Enter(t: Tid, key: Key)
    | SpawnResult(t: Tid, ok: bool)
    | HandshakeResult(t: Tid, ok: bool)
    | Commit(t: Tid)
    | Wake(t: Tid)
    | Dispose
    | KillOne(p: Proc)

  predicate Enabled(s: State, a: Action) {
    match a
    case Enter(t, key) => t !in s.threads
    case SpawnResult(t, ok) => t in s.threads && s.threads[t].Spawns?
    case HandshakeResult(t, ok) => t in s.threads && s.threads[t].Connects? && s.threads[t].p in s.procs
    case Commit(t) =>
      t in s.threads && (s.threads[t].GivesUp? || (s.threads[t].Commits? && s.threads[t].p in s.procs))
    case Wake(t) => t in s.threads && s.threads[t].Waits? && s.threads[t].o in s.outcomes
    case Dispose => !s.disposed
    case KillOne(p) => p in s.disposing && p in s.procs
  }

  function Own(procs: map<Proc, Info>, p: Proc, owner: Owner): map<Proc, Info>
    requires p in procs
  {
    procs[p := procs[p].(owner := owner)]
  }

  /** What a waiter makes of the attempt it waited for. */
  function WaiterResult(o: Outcome): Result {
    if o.SpawnFailed? then Error else ServerId
  }

  /** What the spawner itself makes of it. */
  function SpawnerResult(o: Outcome): Result {
    match o
    case SpawnFailed => Error
    case WasDisposed => Nothing
    case Installed => ServerId
  }

  function EnterStep(s: State, t: Tid, key: Key): State {
    if s.disposed then s.(threads := s.threads[t := Refused(Nothing)])
    else if key in s.broken then s.(threads := s.threads[t := Refused(Error)])
    else if key in s.running then s.(threads := s.threads[t := Refused(ServerId)])
    else if key in s.spawning then s.(threads := s.threads[t := Waits(key, s.spawning[key])])
    else
      var o := s.nextOnce;
      s.(spawning := s.spawning[key := o], nextOnce := o + 1,
         threads := s.threads[t := Spawns(key, o)], spawners := s.spawners[o := t])
  }

  function Finish(s: State, t: Tid, key: Key, o: Once, outcome: Outcome): State {
    s.(spawning := s.spawning - {key}, outcomes := s.outcomes[o := outcome],
       threads := s.threads[t := Spawned(o, SpawnerResult(outcome))])
  }

  function CommitStep(s: State, t: Tid): State
    requires Enabled(s, Commit(t))
  {
    match s.threads[t]
    case GivesUp(key, o) => Finish(s.(broken := s.broken + {key}), t, key, o, SpawnFailed)
    case Commits(key, o, p) =>
      if s.disposed then Finish(s.(procs := Own(s.procs, p, Dead)), t, key, o, WasDisposed)
      else Finish(s.(running := s.running[key := p], procs := Own(s.procs, p, InRunning)), t, key, o, Installed)
  }

  function SpawnStep(s: State, t: Tid, ok: bool): State
    requires Enabled(s, SpawnResult(t, ok))
  {
    var key, o := s.threads[t].key, s.threads[t].o;
    if ok then
      s.(threads := s.threads[t := Connects(key, o, s.nextProc)],
         procs := s.procs[s.nextProc := Info(key, ByThread(t))], nextProc := s.nextProc + 1)
    else s.(threads := s.threads[t := GivesUp(key, o)])
  }

  function HandshakeStep(s: State, t: Tid, ok: bool): State
    requires Enabled(s, HandshakeResult(t, ok))
  {
    var key, o, p := s.threads[t].key, s.threads[t].o, s.threads[t].p;
    if ok then s.(threads := s.threads[t := Commits(key, o, p)])
    else s.(threads := s.threads[t := GivesUp(key, o)], procs := Own(s.procs, p, Dead))
  }

  function WakeStep(s: State, t: Tid): State
    requires Enabled(s, Wake(t))
  {
    var o := s.threads[t].o;
    s.(threads := s.threads[t := Waited(o, WaiterResult(s.outcomes[o]))])
  }

  function DisposeStep(s: State): State {
    s.(disposed := true, disposing := s.running.Values, running := map[],
       procs := map p | p in s.procs ::
                  if p in s.running.Values then s.procs[p].(owner := ByDisposer) else s.procs[p])
  }

  function KillStep(s: State, p: Proc): State
    requires p in s.procs
  {
    s.(disposing := s.disposing - {p}, procs := Own(s.procs, p, Dead))
  }

  function Apply(s: State, a: Action): State
    requires Enabled(s, a)
  {
    match a
    case Enter(t, key) => EnterStep(s, t, key)
    case SpawnResult(t, ok) => SpawnStep(s, t, ok)
    case HandshakeResult(t, ok) => HandshakeStep(s, t, ok)
    case Commit(t) => CommitStep(s, t)
    case Wake(t) => WakeStep(s, t)
    case Dispose => DisposeStep(s)
    case KillOne(p) => KillStep(s, p)
  }

  function Step(s: State, a: Action): State {
    if Enabled(s, a) then Apply(s, a) else s
  }

  const START := State(false, map[], {}, map[], map[], 0, map[], {}, map[], 0, map[])

  function RunFrom(s: State, actions: seq<Action>): State {
    if actions == [] then s
    else Step(RunFrom(s, actions[..|actions| - 1]), actions[|actions| - 1])
  }

  function Run(actions: seq<Action>): State {
    RunFrom(START, actions)
  }

  // ---------------------------------------------------------------------------
  // The invariant
  // ---------------------------------------------------------------------------

  /** The thread owns the attempt on its key. */
  predicate Spawning(c: Thread) {
    c.Spawns? || c.Connects? || c.Commits? || c.GivesUp?
  }

  /** The thread holds a process. */
  predicate Holding(c: Thread) {
    c.Connects? || c.Commits?
  }

  predicate KeysDisjoint(s: State) {
    && s.running.Keys !! s.broken
    && s.running.Keys !! s.spawning.Keys
    && s.broken !! s.spawning.Keys
    && (s.disposed ==> s.running == map[])
    && (!s.disposed ==> s.disposing == {})
  }

  /** The attempts under way are those in `spawning`, each with its own spawner. */
  predicate Attempts(s: State) {
    && (forall t | t in s.threads && Spawning(s.threads[t]) ::
          var c := s.threads[t];
          && c.key in s.spawning && s.spawning[c.key] == c.o
          && c.o in s.spawners && s.spawners[c.o] == t)
    && (forall key | key in s.spawning ::
          var o := s.spawning[key];
          && o < s.nextOnce && o !in s.outcomes && o in s.spawners
          && s.spawners[o] in s.threads
          && Spawning(s.threads[s.spawners[o]])
          && s.threads[s.spawners[o]].key == key && s.threads[s.spawners[o]].o == o)
    && (forall o | o in s.outcomes :: o < s.nextOnce)
    && (forall o | o in s.spawners :: o < s.nextOnce)
  }

  /** Every waiter waits for an attempt that is under way or over, and everyone read the outcome. */
  predicate Waiters(s: State) {
    forall t | t in s.threads ::
      match s.threads[t]
      case Waits(key, o) => o in s.outcomes || (key in s.spawning && s.spawning[key] == o)
      case Waited(o, r) => o in s.outcomes && r == WaiterResult(s.outcomes[o])
      case Spawned(o, r) => o in s.outcomes && r == SpawnerResult(s.outcomes[o])
      case _ => true
  }

  /** The history of a process says where it really is. */
  predicate Owned(s: State) {
    && (forall p | p in s.procs :: p < s.nextProc)
    && (forall t | t in s.threads && Holding(s.threads[t]) ::
          s.threads[t].p in s.procs && s.procs[s.threads[t].p] == Info(s.threads[t].key, ByThread(t)))
    && (forall key | key in s.running :: s.running[key] in s.procs && s.procs[s.running[key]] == Info(key, InRunning))
    && (forall p | p in s.disposing :: p in s.procs && s.procs[p].owner == ByDisposer)
    && (forall p | p in s.procs ::
          match s.procs[p].owner
          case ByThread(t) =>
            t in s.threads && Holding(s.threads[t]) && s.threads[t].p == p && s.threads[t].key == s.procs[p].key
          case InRunning => s.procs[p].key in s.running && s.running[s.procs[p].key] == p
          case ByDisposer => p in s.disposing
          case Dead => true)
  }

  predicate Inv(s: State) {
    KeysDisjoint(s) && Attempts(s) && Waiters(s) && Owned(s)
  }

  /** A caller that takes no attempt upon itself. */
  lemma PassiveKeepsInv(s: State, t: Tid, c: Thread)
    requires Inv(s) && t !in s.threads
    requires c.Refused? || (c.Waits? && c.key in s.spawning && s.spawning[c.key] == c.o)
    ensures Inv(s.(threads := s.threads[t := c]))
  {
  }

  predicate MayStart(s: State, key: Key) {
    !s.disposed && key !in s.broken && key !in s.running && key !in s.spawning
  }

  lemma StartKeepsAttempts(s: State, t: Tid, key: Key)
    requires KeysDisjoint(s) && Attempts(s) && t !in s.threads && MayStart(s, key)
    ensures KeysDisjoint(EnterStep(s, t, key)) && Attempts(EnterStep(s, t, key))
  {
  }

  lemma StartKeepsWaiters(s: State, t: Tid, key: Key)
    requires Attempts(s) && Waiters(s) && t !in s.threads && MayStart(s, key)
    ensures Waiters(EnterStep(s, t, key))
  {
  }

  lemma StartKeepsOwned(s: State, t: Tid, key: Key)
    requires Owned(s) && t !in s.threads && MayStart(s, key)
    ensures Owned(EnterStep(s, t, key))
  {
  }

  lemma SpawnKeepsAttempts(s: State, t: Tid, ok: bool)
    requires KeysDisjoint(s) && Attempts(s) && Enabled(s, SpawnResult(t, ok))
    ensures KeysDisjoint(SpawnStep(s, t, ok)) && Attempts(SpawnStep(s, t, ok))
  {
  }

  lemma SpawnKeepsWaiters(s: State, t: Tid, ok: bool)
    requires Attempts(s) && Waiters(s) && Enabled(s, SpawnResult(t, ok))
    ensures Waiters(SpawnStep(s, t, ok))
  {
  }

  lemma SpawnKeepsOwned(s: State, t: Tid, ok: bool)
    requires Owned(s) && Enabled(s, SpawnResult(t, ok))
    ensures Owned(SpawnStep(s, t, ok))
  {
  }

  lemma HandshakeKeepsAttempts(s: State, t: Tid, ok: bool)
    requires KeysDisjoint(s) && Attempts(s) && Enabled(s, HandshakeResult(t, ok))
    ensures KeysDisjoint(HandshakeStep(s, t, ok)) && Attempts(HandshakeStep(s, t, ok))
  {
  }

  lemma HandshakeKeepsWaiters(s: State, t: Tid, ok: bool)
    requires Attempts(s) && Waiters(s) && Enabled(s, HandshakeResult(t, ok))
    ensures Waiters(HandshakeStep(s, t, ok))
  {
  }

  lemma HandshakeKeepsOwned(s: State, t: Tid, ok: bool)
    requires Owned(s) && Enabled(s, HandshakeResult(t, ok))
    ensures Owned(HandshakeStep(s, t, ok))
  {
  }

  lemma CommitKeepsDisjoint(s: State, t: Tid)
    requires KeysDisjoint(s) && Attempts(s) && Enabled(s, Commit(t))
    ensures KeysDisjoint(CommitStep(s, t))
  {
  }

  lemma CommitKeepsAttempts(s: State, t: Tid)
    requires Attempts(s) && Enabled(s, Commit(t))
    ensures Attempts(CommitStep(s, t))
  {
    if s.threads[t].GivesUp? {
    } else if s.disposed {
    }
  }

  lemma CommitKeepsWaiters(s: State, t: Tid)
    requires Attempts(s) && Waiters(s) && Enabled(s, Commit(t))
    ensures Waiters(CommitStep(s, t))
  {
  }

  lemma InstallKeepsOwned(s: State, t: Tid)
    requires Owned(s) && Enabled(s, Commit(t)) && s.threads[t].Commits? && !s.disposed
    requires s.threads[t].key !in s.running
    ensures Owned(CommitStep(s, t))
  {
  }

  lemma UninstalledKeepsOwned(s: State, t: Tid)
    requires Owned(s) && Enabled(s, Commit(t)) && (s.threads[t].GivesUp? || s.disposed)
    ensures Owned(CommitStep(s, t))
  {
  }

  lemma CommitKeepsOwned(s: State, t: Tid)
    requires KeysDisjoint(s) && Attempts(s) && Owned(s) && Enabled(s, Commit(t))
    ensures Owned(CommitStep(s, t))
  {
    hide Owned, CommitStep;
    assert s.threads[t].key in s.spawning;
    if s.threads[t].GivesUp? || s.disposed {
      UninstalledKeepsOwned(s, t);
    } else {
      InstallKeepsOwned(s, t);
    }
  }

  lemma WakeKeepsInv(s: State, t: Tid)
    requires Inv(s) && Enabled(s, Wake(t))
    ensures Inv(WakeStep(s, t))
  {
  }

  lemma DisposeKeepsInv(s: State)
    requires Inv(s) && !s.disposed
    ensures Inv(DisposeStep(s))
  {
  }

  lemma KillKeepsInv(s: State, p: Proc)
    requires Inv(s) && p in s.disposing && p in s.procs
    ensures Inv(KillStep(s, p))
  {
  }

  lemma StepKeepsInv(s: State, a: Action)
    requires Inv(s)
    ensures Inv(Step(s, a))
  {
    hide KeysDisjoint, Attempts, Waiters, Owned, SpawnStep, HandshakeStep, CommitStep, WakeStep, DisposeStep, KillStep;
    if Enabled(s, a) {
      match a
      case Enter(t, key) =>
        if MayStart(s, key) {
          StartKeepsAttempts(s, t, key);
          StartKeepsWaiters(s, t, key);
          StartKeepsOwned(s, t, key);
        } else {
          PassiveKeepsInv(s, t, EnterStep(s, t, key).threads[t]);
        }
      case SpawnResult(t, ok) =>
        SpawnKeepsAttempts(s, t, ok);
        SpawnKeepsWaiters(s, t, ok);
        SpawnKeepsOwned(s, t, ok);
      case HandshakeResult(t, ok) =>
        HandshakeKeepsAttempts(s, t, ok);
        HandshakeKeepsWaiters(s, t, ok);
        HandshakeKeepsOwned(s, t, ok);
      case Commit(t) =>
        CommitKeepsDisjoint(s, t);
        CommitKeepsAttempts(s, t);
        CommitKeepsWaiters(s, t);
        CommitKeepsOwned(s, t);
      case Wake(t) => WakeKeepsInv(s, t);
      case Dispose => DisposeKeepsInv(s);
      case KillOne(p) => KillKeepsInv(s, p);
    }
  }

  lemma {:induction false} RunKeepsInv(actions: seq<Action>)
    ensures Inv(Run(actions))
  {
    hide Inv, Step;
    if actions == [] {
      StartInv();
    } else {
      RunKeepsInv(actions[..|actions| - 1]);
      StepKeepsInv(Run(actions[..|actions| - 1]), actions[|actions| - 1]);
    }
  }

  lemma StartInv()
    ensures Inv(START)
  {
  }

  // ---------------------------------------------------------------------------
  // Keys
  // ---------------------------------------------------------------------------

  lemma KeySetsDisjoint(actions: seq<Action>)
    ensures var s := Run(actions);
            && s.running.Keys !! s.broken
            && s.running.Keys !! s.spawning.Keys
            && s.broken !! s.spawning.Keys
  {
    hide Run, Attempts, Waiters, Owned;
    RunKeepsInv(actions);
  }

  /** Two callers never spawn for the same key at the same time. */
  lemma OneSpawnerPerKey(actions: seq<Action>, t: Tid, u: Tid)
    requires var s := Run(actions);
             t in s.threads && u in s.threads && Spawning(s.threads[t]) && Spawning(s.threads[u])
             && s.threads[t].key == s.threads[u].key
    ensures t == u
  {
    hide Run, Waiters, Owned;
    RunKeepsInv(actions);
  }

  predicate Alive(s: State, p: Proc) {
    p in s.procs && (s.procs[p].owner.ByThread? || s.procs[p].owner.InRunning?)
  }

  /** Until it is handed over for killing, a server process is the only one for its key. */
  lemma OneServerPerKey(actions: seq<Action>, p: Proc, q: Proc)
    requires var s := Run(actions);
             Alive(s, p) && Alive(s, q) && s.procs[p].key == s.procs[q].key
    ensures p == q
  {
    hide Run, Waiters;
    RunKeepsInv(actions);
  }

  lemma BrokenStaysInStep(s: State, a: Action, key: Key)
    requires key in s.broken
    ensures key in Step(s, a).broken
  {
    hide Own, CommitStep, EnterStep;
    if Enabled(s, a) {
      if a.Commit? {
        CommitBreaks(s, a.t);
      } else if a.Enter? {
        EnterBreaksNothing(s, a.t, a.key);
      }
    }
  }

  lemma CommitBreaks(s: State, t: Tid)
    requires Enabled(s, Commit(t))
    ensures CommitStep(s, t).broken == s.broken + if s.threads[t].GivesUp? then {s.threads[t].key} else {}
  {
  }

  lemma EnterBreaksNothing(s: State, t: Tid, key: Key)
    ensures EnterStep(s, t, key).broken == s.broken
  {
  }

  lemma {:induction false} BrokenStays(s: State, more: seq<Action>, key: Key)
    requires key in s.broken
    ensures key in RunFrom(s, more).broken
  {
    hide Step;
    if more != [] {
      BrokenStays(s, more[..|more| - 1], key);
      BrokenStaysInStep(RunFrom(s, more[..|more| - 1]), more[|more| - 1], key);
    }
  }

  lemma {:induction false} RunInParts(first: seq<Action>, second: seq<Action>)
    ensures Run(first + second) == RunFrom(Run(first), second)
  {
    hide Step;
    if second == [] {
      assert first + second == first;
    } else {
      var all := first + second;
      assert all[..|all| - 1] == first + second[..|second| - 1];
      RunInParts(first, second[..|second| - 1]);
    }
  }

  /** A broken key is never spawned or running again. */
  lemma BrokenIsFinal(actions: seq<Action>, more: seq<Action>, key: Key)
    requires key in Run(actions).broken
    ensures var t := Run(actions + more);
            key in t.broken && key !in t.spawning && key !in t.running
  {
    hide Run, RunFrom, Step, Attempts, Waiters, Owned;
    RunInParts(actions, more);
    BrokenStays(Run(actions), more, key);
    RunKeepsInv(actions + more);
  }

  // ---------------------------------------------------------------------------
  // Processes
  // ---------------------------------------------------------------------------

  ghost predicate HeldBySomeone(s: State, p: Proc) {
    exists t :: t in s.threads && Holding(s.threads[t]) && s.threads[t].p == p
  }

  predicate Killed(s: State, p: Proc) {
    p in s.procs && s.procs[p].owner == Dead
  }

  function One(b: bool): nat {
    if b then 1 else 0
  }

  /** Every started process is in exactly one place: a spawner's hands, the running map, DisposeAll's list, or dead. */
  lemma ExactlyOneOwner(actions: seq<Action>, p: Proc)
    requires p in Run(actions).procs
    ensures var s := Run(actions);
            && One(HeldBySomeone(s, p)) + One(p in s.running.Values) + One(p in s.disposing) + One(Killed(s, p)) == 1
            && (forall t, u | t in s.threads && u in s.threads && Holding(s.threads[t]) && Holding(s.threads[u])
                              && s.threads[t].p == p == s.threads[u].p :: t == u)
            && (forall k, l | k in s.running && l in s.running && s.running[k] == p == s.running[l] :: k == l)
  {
    hide Run, KeysDisjoint, Attempts, Waiters;
    RunKeepsInv(actions);
    var s := Run(actions);
    match s.procs[p].owner
    case ByThread(t) =>
      assert t in s.threads && Holding(s.threads[t]) && s.threads[t].p == p;
    case InRunning =>
      assert s.running[s.procs[p].key] == p;
    case ByDisposer =>
    case Dead =>
  }

  lemma DisposedStaysInStep(s: State, a: Action)
    requires Inv(s) && s.disposed
    ensures var t := Step(s, a);
            t.disposed && t.spawning.Keys <= s.spawning.Keys
  {
    hide Waiters, Owned;
  }

  lemma {:induction false} DisposedStays(s: State, more: seq<Action>)
    requires Inv(s) && s.disposed
    ensures var t := RunFrom(s, more);
            Inv(t) && t.disposed && t.spawning.Keys <= s.spawning.Keys
  {
    hide Step, Inv;
    if more != [] {
      var t := RunFrom(s, more[..|more| - 1]);
      DisposedStays(s, more[..|more| - 1]);
      DisposedStaysInStep(t, more[|more| - 1]);
      StepKeepsInv(t, more[|more| - 1]);
    }
  }

  /** After the dispose nothing is running for ever, and no new spawn attempt begins. */
  lemma NothingRunsAfterDispose(actions: seq<Action>, more: seq<Action>)
    requires Run(actions).disposed
    ensures var s, t := Run(actions), Run(actions + more);
            t.disposed && t.running == map[] && t.spawning.Keys <= s.spawning.Keys
  {
    hide Run, RunFrom, Step, Attempts, Waiters, Owned;
    RunKeepsInv(actions);
    RunInParts(actions, more);
    DisposedStays(Run(actions), more);
  }

  /** Once DisposeAll has worked through its list, all processes are dead exactly if no spawn is still holding one. */
  lemma NothingLeaks(actions: seq<Action>)
    requires Run(actions).disposed && Run(actions).disposing == {}
    ensures var s := Run(actions);
            (forall p | p in s.procs :: Killed(s, p)) <==> forall t | t in s.threads :: !Holding(s.threads[t])
  {
    hide Run, Attempts, Waiters;
    RunKeepsInv(actions);
    var s := Run(actions);
    if t :| t in s.threads && Holding(s.threads[t]) {
      assert !Killed(s, s.threads[t].p);
    }
  }

  /** The last step of a spawn that outlived the dispose kills its process. */
  lemma LateSpawnIsKilled(actions: seq<Action>, t: Tid)
    requires Run(actions).disposed && Enabled(Run(actions), Commit(t)) && Run(actions).threads[t].Commits?
    ensures var s, u := Run(actions), Step(Run(actions), Commit(t));
            Killed(u, s.threads[t].p) && u.running == map[] && !Holding(u.threads[t])
  {
    hide Run, Attempts, Waiters, Owned;
    RunKeepsInv(actions);
  }

  // ---------------------------------------------------------------------------
  // Waiters
  // ---------------------------------------------------------------------------

  /** A waiter can go on, or the attempt it waits for is in the hands of a live spawner. */
  lemma NoWaiterForgotten(actions: seq<Action>, t: Tid)
    requires t in Run(actions).threads && Run(actions).threads[t].Waits?
    ensures var s, o := Run(actions), Run(actions).threads[t].o;
            || Enabled(s, Wake(t))
            || (o in s.spawners && s.spawners[o] in s.threads
                && Spawning(s.threads[s.spawners[o]]) && s.threads[s.spawners[o]].o == o)
  {
    hide Run, Owned, KeysDisjoint;
    RunKeepsInv(actions);
  }

  lemma CommitRecords(s: State, t: Tid)
    requires Enabled(s, Commit(t))
    ensures var u, o := CommitStep(s, t), s.threads[t].o;
            && o in u.outcomes && u.outcomes == s.outcomes[o := u.outcomes[o]]
            && t in u.threads && u.threads == s.threads[t := u.threads[t]]
  {
    hide Own;
    if s.threads[t].GivesUp? {
    } else if s.disposed {
    }
  }

  lemma EnterRecords(s: State, t: Tid, key: Key, v: Tid)
    requires v in s.threads && v != t
    ensures var u := EnterStep(s, t, key);
            u.outcomes == s.outcomes && v in u.threads && u.threads[v] == s.threads[v]
  {
    if s.disposed {
    } else if key in s.broken {
    } else if key in s.running {
    } else if key in s.spawning {
    }
  }

  /** What an attempt came to, and what its spawner reported, never changes in a step. */
  lemma ReportStaysInStep(s: State, a: Action, t: Tid, o: Once)
    requires Attempts(s) && o in s.outcomes && t in s.threads && s.threads[t].Spawned?
    ensures var u := Step(s, a);
            && o in u.outcomes && u.outcomes[o] == s.outcomes[o]
            && t in u.threads && u.threads[t] == s.threads[t]
  {
    hide Own, CommitStep, EnterStep;
    if Enabled(s, a) {
      match a
      case Commit(v) =>
        CommitRecords(s, v);
      case Enter(v, key) =>
        EnterRecords(s, v, key, t);
      case _ =>
        hide Attempts;
    }
  }

  /** Nor in any continuation. */
  lemma {:induction false} ReportStays(s: State, more: seq<Action>, t: Tid, o: Once)
    requires Inv(s) && o in s.outcomes && t in s.threads && s.threads[t].Spawned?
    ensures var end := RunFrom(s, more);
            && Inv(end) && o in end.outcomes && end.outcomes[o] == s.outcomes[o]
            && t in end.threads && end.threads[t] == s.threads[t]
  {
    hide Step, KeysDisjoint, Attempts, Waiters, Owned;
    if more != [] {
      var before, a := RunFrom(s, more[..|more| - 1]), more[|more| - 1];
      ReportStays(s, more[..|more| - 1], t, o);
      ReportStaysInStep(before, a, t, o);
      StepKeepsInv(before, a);
    }
  }

  /** The end of an attempt, with its guard: a connected process is committed after the dispose. */
  lemma CommitReports(s: State, t: Tid)
    requires Enabled(s, Commit(t))
    ensures var u, o := Step(s, Commit(t)), s.threads[t].o;
            && o in u.outcomes && (u.outcomes[o] == WasDisposed <==> s.disposed && s.threads[t].Commits?)
            && t in u.threads && u.threads[t] == Spawned(o, SpawnerResult(u.outcomes[o]))
  {
    hide Own;
    if s.threads[t].GivesUp? {
    } else if s.disposed {
    }
  }

  /**
   A spawner commits its attempt, and at any time later a waiter has read it. The two report the
   same exactly unless a connected process met a service that was disposed by then: the waiter
   was given the server's id, the spawner nothing.
   */
  lemma WaiterAgreesIff(first: seq<Action>, t: Tid, later: seq<Action>, u: Tid)
    requires Enabled(Run(first), Commit(t))
    requires var end := Run(first + [Commit(t)] + later);
             u in end.threads && end.threads[u].Waited? && end.threads[u].o == Run(first).threads[t].o
    ensures var s, end := Run(first), Run(first + [Commit(t)] + later);
            && t in end.threads && end.threads[t].Spawned?
            && (end.threads[u].result == end.threads[t].result <==> !(s.disposed && s.threads[t].Commits?))
            && (s.disposed && s.threads[t].Commits? ==>
                  end.threads[u].result == ServerId && end.threads[t].result == Nothing)
  {
    hide Run, RunFrom, Step, KeysDisjoint, Attempts, Owned;
    var s := Run(first);
    OneMore(first, Commit(t));
    CommitReports(s, t);
    RunInParts(first + [Commit(t)], later);
    RunKeepsInv(first + [Commit(t)]);
    ReportStays(Step(s, Commit(t)), later, t, s.threads[t].o);
  }

  /** The two callers part company whenever the commit comes after the dispose. */
  lemma WaiterToldOfDeadServer(s: State, t: Tid, u: Tid)
    requires Inv(s) && s.disposed && t in s.threads && u in s.threads
    requires s.threads[t].Commits? && s.threads[u].Waits? && s.threads[u].o == s.threads[t].o
    ensures var v := Step(Step(s, Commit(t)), Wake(u));
            && v.threads[t].result == Nothing && v.threads[u].result == ServerId
            && Killed(v, s.threads[t].p) && v.running == map[]
  {
    hide Waiters, Attempts;
    CommitKeepsDisjoint(s, t);
  }

  /** Such a state is reached by two callers for one key and a dispose during the handshake. */
  lemma DisposeDuringHandshake(key: Key)
    ensures var s := Run([Enter(0, key), Enter(1, key), SpawnResult(0, true), HandshakeResult(0, true), Dispose]);
            && s.disposed && s.threads.Keys == {0, 1}
            && s.threads[0] == Commits(key, 0, 0) && s.threads[1] == Waits(key, 0)
  {
    hide RunFrom, Step;
    var actions := [Enter(0, key), Enter(1, key), SpawnResult(0, true), HandshakeResult(0, true), Dispose];
    assert actions[..1] == [] + [Enter(0, key)] && actions[..2] == actions[..1] + [Enter(1, key)];
    assert actions[..3] == actions[..2] + [SpawnResult(0, true)];
    assert actions[..4] == actions[..3] + [HandshakeResult(0, true)] && actions == actions[..4] + [Dispose];
    OneMore([], Enter(0, key));
    OneMore(actions[..1], Enter(1, key));
    OneMore(actions[..2], SpawnResult(0, true));
    OneMore(actions[..3], HandshakeResult(0, true));
    OneMore(actions[..4], Dispose);
    TwoEnter(key);
    SpawnAndDispose(Step(Step(START, Enter(0, key)), Enter(1, key)), key);
  }

  lemma TwoEnter(key: Key)
    ensures Run([]) == START
    ensures var s := Step(Step(START, Enter(0, key)), Enter(1, key));
            && !s.disposed && s.threads.Keys == {0, 1} && s.nextProc == 0 && s.procs == map[]
            && s.threads[0] == Spawns(key, 0) && s.threads[1] == Waits(key, 0)
  {
  }

  lemma SpawnAndDispose(s: State, key: Key)
    requires !s.disposed && s.threads.Keys == {0, 1} && s.nextProc == 0
    requires s.threads[0] == Spawns(key, 0) && s.threads[1] == Waits(key, 0)
    ensures var t := Step(Step(Step(s, SpawnResult(0, true)), HandshakeResult(0, true)), Dispose);
            && t.disposed && t.threads.Keys == {0, 1}
            && t.threads[0] == Commits(key, 0, 0) && t.threads[1] == Waits(key, 0)
  {
  }

  lemma OneMore(actions: seq<Action>, a: Action)
    ensures Run(actions + [a]) == Step(Run(actions), a)
  {
    assert (actions + [a])[..|actions|] == actions;
  }
}
