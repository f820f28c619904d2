/**
 When the push relay lets a notification go out: never while a client is connected, and not
 for a while after it first sees that the last client has gone.
 */
module PushGrace {

  /** Five seconds, in nanoseconds. */
  const GRACE: int := 5_000_000_000

  datatype Option<T> = None | Some(value: T)

  /** An event off the bus, the clients connected when it is handled, and the two readings of the clock. */
  datatype Event = Event(clients: nat, now: int, later: int, want: bool)

  /** The variables of the relay's loop. */
  datatype State = State(clientsSeen: bool, lastDisconnect: Option<int>)

  const START := State(false, None)

  function Observe(s: State, e: Event): State {
    if e.clients > 0 then State(true, None)
    else if s.clientsSeen && s.lastDisconnect.None? then s.(lastDisconnect := Some(e.now))
    else s
  }

  predicate Dispatches(s: State, e: Event) {
    e.want && e.clients == 0 && !(s.lastDisconnect.Some? && e.later - s.lastDisconnect.value < GRACE)
  }

  function After(events: seq<Event>): State {
    if events == [] then START else Observe(After(events[..|events| - 1]), events[|events| - 1])
  }

  /** Whether event `k` is pushed. */
  predicate Pushed(events: seq<Event>, k: nat)
    requires k < |events|
  {
    Dispatches(After(events[..k + 1]), events[k])
  }

  method Run(events: seq<Event>) returns (pushed: seq<bool>)
    ensures |pushed| == |events| && forall k | 0 <= k < |events| :: pushed[k] <==> Pushed(events, k)
  {
    pushed := [];
    var lastDisconnect: Option<int> := None;
    var clientsSeen := false;
    for k := 0 to |events|
      invariant State(clientsSeen, lastDisconnect) == After(events[..k])
      invariant |pushed| == k && forall i | 0 <= i < k :: pushed[i] <==> Pushed(events, i)
    {
      assert events[..k + 1][..k] == events[..k];
      var e := events[k];
      if e.clients > 0 {
        clientsSeen := true;
        lastDisconnect := None;
      } else if clientsSeen && lastDisconnect.None? {
        lastDisconnect := Some(e.now);
      }
      var push := e.want && e.clients == 0;
      if push && lastDisconnect.Some? && e.later - lastDisconnect.value < GRACE {
        push := false;
      }
      pushed := pushed + [push];
    }
  }

  /** Event `j` is the first to see no client after one that saw some. */
  predicate SeesTheLastLeave(events: seq<Event>, j: nat) {
    0 < j < |events| && events[j].clients == 0 && events[j - 1].clients > 0
  }

  /** Event `j` is the latest before `n` to see the last client leave, and none came back since. */
  predicate LatestLeave(events: seq<Event>, j: nat, n: nat)
    requires n <= |events|
  {
    j < n && SeesTheLastLeave(events, j) && forall i | j <= i < n :: events[i].clients == 0
  }

  lemma {:induction false} LoopRemembers(events: seq<Event>, n: nat)
    requires n <= |events|
    ensures var s := After(events[..n]);
            && (s.clientsSeen <==> exists i :: 0 <= i < n && events[i].clients > 0)
            && (forall j: nat | LatestLeave(events, j, n) :: s.lastDisconnect == Some(events[j].now))
            && (s.lastDisconnect.Some? ==> exists j: nat :: LatestLeave(events, j, n))
            && (n > 0 && events[n - 1].clients > 0 ==> s.lastDisconnect.None?)
            && (s.clientsSeen && s.lastDisconnect.None? ==> n > 0 && events[n - 1].clients > 0)
  {
    if n > 0 {
      assert events[..n][..n - 1] == events[..n - 1];
      LoopRemembers(events, n - 1);
      var s, t := After(events[..n - 1]), After(events[..n]);
      if events[n - 1].clients == 0 {
        if s.clientsSeen && s.lastDisconnect.None? {
          assert LatestLeave(events, n - 1, n);
        } else if s.lastDisconnect.Some? {
          var j: nat :| LatestLeave(events, j, n - 1);
          assert LatestLeave(events, j, n);
        }
        forall j: nat | LatestLeave(events, j, n)
          ensures t.lastDisconnect == Some(events[j].now)
        {
          if j < n - 1 {
            assert LatestLeave(events, j, n - 1);
          } else {
            assert events[n - 2].clients > 0;
          }
        }
      }
    }
  }

  /**
   A wanted event is pushed exactly when no client is connected and the last leave the relay saw
   is long enough ago.
   */
  lemma PushedIff(events: seq<Event>, k: nat)
    requires k < |events|
    ensures Pushed(events, k) <==>
            && events[k].want && events[k].clients == 0
            && forall j: nat | LatestLeave(events, j, k + 1) :: events[k].later - events[j].now >= GRACE
  {
    LoopRemembers(events, k + 1);
    hide After;
    var s := After(events[..k + 1]);
    if s.lastDisconnect.Some? {
      var j: nat :| LatestLeave(events, j, k + 1);
    }
  }

  /** The clock does not go back. */
  predicate Steady(events: seq<Event>) {
    && (forall i | 0 <= i < |events| :: events[i].now <= events[i].later)
    && forall i, j | 0 <= i < j < |events| :: events[i].later <= events[j].now
  }

  /**
   The last client drops at time `drop`, before event `m`, and no client is back by event `k`,
   which is wanted and comes within the grace period of the drop. It is held back exactly when
   the event before the drop saw the client, or an earlier leave is still recent.
   */
  lemma HeldBackAfterDropIff(events: seq<Event>, m: nat, k: nat, drop: int)
    requires Steady(events) && m <= k < |events| && events[k].want
    requires forall i | m <= i <= k :: events[i].clients == 0 && events[i].now >= drop
    requires events[k].later - drop < GRACE
    ensures !Pushed(events, k) <==>
            || (m > 0 && events[m - 1].clients > 0)
            || exists j: nat :: LatestLeave(events, j, m) && events[k].later - events[j].now < GRACE
  {
    PushedIff(events, k);
    if m > 0 && events[m - 1].clients > 0 {
      assert LatestLeave(events, m, k + 1);
    } else {
      forall j: nat
        ensures LatestLeave(events, j, k + 1) <==> LatestLeave(events, j, m)
      {
        hide Pushed;
        assert j >= m ==> !SeesTheLastLeave(events, j) || j > k;
      }
      hide LatestLeave;
    }
  }

  /** Without an event while the client was connected, its drop holds nothing back. */
  lemma UnseenClientGivesNoGrace(drop: int)
    ensures Pushed([Event(0, drop, drop, true)], 0)
  {
    var events := [Event(0, drop, drop, true)];
    assert events[..1][..0] == [];
    assert After([]) == START;
    assert events[..1] == events;
  }
}
