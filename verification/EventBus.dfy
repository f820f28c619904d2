/** The bus objects: subscriber channels behind one lock, and the count of connected clients. */
module EventBus {
  import Fan = EventFanout
  import opened ConnectedClients

  /** The part that the instance bus and the global bus have in common. */
  class Bus<T(==)> {
    var subs: set<nat>
    var next: nat
    var chans: map<nat, Fan.Chan<T>>
    /** History, as are `since`, `fates` and `taken` of a channel: every event published. */
    var log: seq<T>

    ghost function View(): Fan.State<T>
      reads this
    {
      Fan.State(subs, next, chans, log)
    }

    /** The registered channels are the open ones. */
    ghost predicate Valid()
      reads this
    {
      subs <= chans.Keys && forall k | k in chans :: k < next && (chans[k].closed <==> k !in subs)
    }

    constructor ()
      ensures Valid() && View() == Fan.Start()
    {
      subs, next, chans, log := {}, 0, map[], [];
    }

    method Subscribe() returns (key: nat)
      requires Valid()
      modifies this
      ensures Valid() && View() == Fan.Subscribe(old(View()))
      ensures key in subs && key !in old(chans)
    {
      key := next;
      next := next + 1;
      chans := chans[key := Fan.Chan(|log|, [], [], [], false)];
      subs := subs + {key};
    }

    method Unsubscribe(key: nat)
      requires Valid()
      modifies this
      ensures Valid() && View() == Fan.Unsubscribe(old(View()), key)
      ensures subs == old(subs) - {key} && chans.Keys == old(chans).Keys && (key in chans ==> chans[key].closed)
    {
      if key in subs {
        assert !chans[key].closed;
        subs := subs - {key};
        chans := chans[key := chans[key].(closed := true)];
      }
    }

    method Publish(e: T)
      requires Valid()
      modifies this
      ensures Valid() && View() == Fan.Publish(old(View()), e)
    {
      var todo := subs;
      while todo != {}
        invariant todo <= subs && Valid()
        invariant subs == old(subs) && next == old(next) && log == old(log)
        invariant chans == Fan.Deliver(old(chans), subs - todo, e)
        decreases todo
      {
        var key :| key in todo;
        assert !chans[key].closed;
        ghost var done := subs - todo;
        todo := todo - {key};
        assert subs - todo == done + {key};
        chans := chans[key := Fan.Offer(chans[key], e)];
      }
      assert subs - todo == subs;
      log := log + [e];
    }

    method Take(key: nat) returns (e: T)
      requires Valid() && key in chans && chans[key].queue != []
      modifies this`chans
      ensures Valid() && View() == Fan.Take(old(View()), key)
      ensures chans.Keys == old(chans).Keys && [e] + chans[key].queue == old(chans)[key].queue
    {
      var c := chans[key];
      e := c.queue[0];
      chans := chans[key := c.(taken := c.taken + [e], queue := c.queue[1..])];
    }
  }

  /** The client counter; `released` holds the once-flag of each connection's release function. */
  class Clients {
    var clients: int
    var released: seq<bool>

    ghost predicate Valid()
      reads this
    {
      clients == Unreleased(released)
    }

    constructor ()
      ensures Valid() && released == []
    {
      clients, released := 0, [];
    }

    method Connect() returns (conn: nat)
      modifies this
      requires Valid()
      ensures Valid() && conn == |old(released)| && released == old(released) + [false]
    {
      conn := |released|;
      clients := clients + 1;
      released := released + [false];
    }

    method Release(conn: nat)
      requires Valid() && conn < |released|
      modifies this
      ensures Valid() && released == old(released)[conn := true]
    {
      if !released[conn] {
        ReleaseOne(released, conn);
        released := released[conn := true];
        clients := clients - 1;
      }
    }
  }
}

/** Counting the connections that have not been released. */
module ConnectedClients {

  function Unreleased(released: seq<bool>): nat {
    if released == [] then 0
    else Unreleased(released[..|released| - 1]) + if released[|released| - 1] then 0 else 1
  }

  lemma {:induction false} ReleaseOne(released: seq<bool>, conn: nat)
    requires conn < |released| && !released[conn]
    ensures Unreleased(released[conn := true]) == Unreleased(released) - 1
  {
    var n := |released| - 1;
    assert released[conn := true][..n] == if conn < n then released[..n][conn := true] else released[..n];
    if conn < n {
      ReleaseOne(released[..n], conn);
    }
  }

  /** Nobody is connected exactly when every release function has been called. */
  lemma {:induction false} NobodyConnectedIff(released: seq<bool>)
    ensures Unreleased(released) == 0 <==> forall k | 0 <= k < |released| :: released[k]
  {
    if released != [] {
      var n := |released| - 1;
      NobodyConnectedIff(released[..n]);
      assert forall k | 0 <= k < n :: released[..n][k] == released[k];
    }
  }
}
