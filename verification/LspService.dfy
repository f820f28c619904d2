/**
 The language-server service object. Each method is one critical section of ensureOne or
 DisposeAll and is proved to take the step of LspSpawning.
 */
module LspService {
  import opened LspSpawning

  /** What the first critical section of ensureOne decides. */
  datatype Decision = Answer(result: Result) | WaitFor(o: Once) | SpawnAs(o: Once)

  datatype Started = NoProcess | Process(p: Proc)

  class Service {
    var disposed: bool
    var running: map<Key, Proc>
    var broken: set<Key>
    var spawning: map<Key, Once>
    /** The attempts that are over, and the next attempt to hand out. */
    var outcomes: map<Once, Outcome>
    var nextOnce: Once

    /** The fields are those of the protocol state `s`. */
    ghost predicate Shows(s: State)
      reads this
    {
      && disposed == s.disposed && running == s.running && broken == s.broken && spawning == s.spawning
      && outcomes == s.outcomes && nextOnce == s.nextOnce
    }

    constructor ()
      ensures Shows(START)
    {
      disposed, running, broken, spawning, outcomes, nextOnce := false, map[], {}, map[], map[], 0;
    }

    method Enter(key: Key, t: Tid, ghost s: State) returns (d: Decision)
      requires Shows(s) && t !in s.threads
      modifies this`spawning, this`nextOnce
      ensures Shows(Step(s, LspSpawning.Enter(t, key)))
      ensures var u := Step(s, LspSpawning.Enter(t, key));
              && t in u.threads
              && u.threads[t] == match d
                                 case Answer(r) => Refused(r)
                                 case WaitFor(o) => Waits(key, o)
                                 case SpawnAs(o) => Spawns(key, o)
      ensures d == Answer(Nothing) <==> disposed
      ensures d == Answer(Error) <==> !disposed && key in broken
      ensures d == Answer(ServerId) <==> !disposed && key !in broken && key in running
      ensures d.SpawnAs? ==> key !in old(spawning) && key in spawning
    {
      if disposed {
        return Answer(Nothing);
      }
      if key in broken {
        return Answer(Error);
      }
      if key in running {
        return Answer(ServerId);
      }
      if key in spawning {
        return WaitFor(spawning[key]);
      }
      var o := nextOnce;
      nextOnce := o + 1;
      spawning := spawning[key := o];
      return SpawnAs(o);
    }

    /**
     The end of an attempt: `started` is the connected process, if there is one. Returns what
     the spawner reports and the process that has to be killed.
     */
    method Commit(t: Tid, key: Key, o: Once, started: Started, ghost s: State)
      returns (result: Result, kill: Started)
      requires Shows(s) && Enabled(s, LspSpawning.Commit(t))
      requires s.threads[t] == match started
                               case NoProcess => GivesUp(key, o)
                               case Process(p) => Commits(key, o, p)
      modifies this
      ensures Shows(Step(s, LspSpawning.Commit(t)))
      ensures Step(s, LspSpawning.Commit(t)).threads[t] == Spawned(o, result)
      ensures kill == if s.disposed then started else NoProcess
      ensures kill.Process? ==> Killed(Step(s, LspSpawning.Commit(t)), kill.p)
    {
      spawning := spawning - {key};
      kill := NoProcess;
      var outcome: Outcome;
      if started.NoProcess? {
        broken := broken + {key};
        outcome := SpawnFailed;
      } else if disposed {
        outcome := WasDisposed;
        kill := started;
      } else {
        running := running[key := started.p];
        outcome := Installed;
      }
      outcomes := outcomes[o := outcome];
      result := if outcome.SpawnFailed? then Error else if outcome.WasDisposed? then Nothing else ServerId;
    }

    /** A waiter reads the attempt it waited for. */
    method Wake(t: Tid, o: Once, ghost s: State) returns (result: Result)
      requires Shows(s) && Enabled(s, LspSpawning.Wake(t)) && s.threads[t].o == o
      ensures Step(s, LspSpawning.Wake(t)).threads[t] == Waited(o, result)
    {
      if outcomes[o].SpawnFailed? {
        return Error;
      }
      return ServerId;
    }

    /** Marks the service disposed and returns the handles to kill; a second call has none. */
    method DisposeAll(ghost s: State) returns (handles: set<Proc>)
      requires Shows(s)
      modifies this`disposed, this`running
      ensures Shows(Step(s, Dispose))
      ensures handles == if old(disposed) then {} else Step(s, Dispose).disposing
    {
      if disposed {
        return {};
      }
      disposed := true;
      handles := running.Values;
      running := map[];
    }
  }
}
