/**
 The publish/subscribe fan-out that both the instance bus and the global bus are: what its
 operations do, and what every subscriber gets in every run of them.
 */
module EventFanout {

  const SUB_BUFFER: nat := 256

  /** What became of an event published while the subscriber was there. */
  datatype Fate = Queued | Lost

  /** `queue` and `closed` are the channel; the rest is history. */
  datatype Chan<T> = Chan(since: nat, fates: seq<Fate>, taken: seq<T>, queue: seq<T>, closed: bool)

  /** `log` is every event published. */
  datatype State<T> = State(subs: set<nat>, next: nat, chans: map<nat, Chan<T>>, log: seq<T>)

  /** A full channel drops the event. */
  function Offer<T>(c: Chan<T>, e: T): Chan<T> {
    if |c.queue| < SUB_BUFFER then c.(queue := c.queue + [e], fates := c.fates + [Queued])
    else c.(fates := c.fates + [Lost])
  }

  function Subscribe<T>(s: State<T>): State<T> {
    s.(subs := s.subs + {s.next}, next := s.next + 1,
       chans := s.chans[s.next := Chan(|s.log|, [], [], [], false)])
  }

  function Unsubscribe<T>(s: State<T>, key: nat): State<T> {
    if key in s.subs && key in s.chans then
      s.(subs := s.subs - {key}, chans := s.chans[key := s.chans[key].(closed := true)])
    else s
  }

  function Deliver<T>(chans: map<nat, Chan<T>>, subs: set<nat>, e: T): map<nat, Chan<T>> {
    map k | k in chans :: if k in subs then Offer(chans[k], e) else chans[k]
  }

  function Publish<T>(s: State<T>, e: T): State<T> {
    s.(chans := Deliver(s.chans, s.subs, e), log := s.log + [e])
  }

  function Take<T>(s: State<T>, key: nat): State<T> {
    if key in s.chans && s.chans[key].queue != [] then
      var c := s.chans[key];
      s.(chans := s.chans[key := c.(taken := c.taken + [c.queue[0]], queue := c.queue[1..])])
    else s
  }

  datatype Action<T> = DoSubscribe | DoUnsubscribe(key: nat) | DoPublish(e: T) | DoTake(key: nat)

  function Step<T>(s: State<T>, a: Action<T>): State<T> {
    match a
    case DoSubscribe => Subscribe(s)
    case DoUnsubscribe(key) => Unsubscribe(s, key)
    case DoPublish(e) => Publish(s, e)
    case DoTake(key) => Take(s, key)
  }

  function Start<T>(): State<T> {
    State({}, 0, map[], [])
  }

  function Run<T>(actions: seq<Action<T>>): State<T> {
    if actions == [] then Start()
    else Step(Run(actions[..|actions| - 1]), actions[|actions| - 1])
  }

  // ---------------------------------------------------------------------------
  // The invariant
  // ---------------------------------------------------------------------------

  /** The events that were queued. */
  function Kept<T>(events: seq<T>, fates: seq<Fate>): seq<T>
    requires |events| == |fates|
  {
    if events == [] then []
    else
      var n := |events| - 1;
      Kept(events[..n], fates[..n]) + if fates[n].Queued? then [events[n]] else []
  }

  predicate GotItsPart<T(==)>(c: Chan<T>, log: seq<T>) {
    && c.since + |c.fates| <= |log|
    && c.taken + c.queue == Kept(log[c.since..c.since + |c.fates|], c.fates)
    && |c.queue| <= SUB_BUFFER
  }

  predicate Inv<T(==)>(s: State<T>) {
    && s.subs <= s.chans.Keys
    && forall k | k in s.chans ::
         && k < s.next
         && (s.chans[k].closed <==> k !in s.subs)
         && GotItsPart(s.chans[k], s.log)
         && (k in s.subs ==> s.chans[k].since + |s.chans[k].fates| == |s.log|)
  }

  lemma OfferKeepsPart<T>(c: Chan<T>, log: seq<T>, e: T)
    requires GotItsPart(c, log) && c.since + |c.fates| == |log|
    ensures GotItsPart(Offer(c, e), log + [e]) && c.since + |Offer(c, e).fates| == |log + [e]|
  {
    var d := Offer(c, e);
    var before, part := log[c.since..], (log + [e])[c.since..];
    assert log[c.since..c.since + |c.fates|] == before;
    assert (log + [e])[c.since..c.since + |d.fates|] == part == before + [e];
    assert part[..|before|] == before && d.fates[..|before|] == c.fates;
    assert d.taken + d.queue == c.taken + c.queue + if |c.queue| < SUB_BUFFER then [e] else [];
  }

  lemma PastKeepsPart<T>(c: Chan<T>, log: seq<T>, e: T)
    requires GotItsPart(c, log)
    ensures GotItsPart(c, log + [e])
  {
    assert (log + [e])[c.since..c.since + |c.fates|] == log[c.since..c.since + |c.fates|];
  }

  lemma PublishKeepsInv<T>(s: State<T>, e: T)
    requires Inv(s)
    ensures Inv(Publish(s, e))
  {
    hide GotItsPart;
    forall k | k in s.chans
      ensures var c := Publish(s, e).chans[k];
              && (c.closed <==> s.chans[k].closed)
              && GotItsPart(c, s.log + [e]) && (k in s.subs ==> c.since + |c.fates| == |s.log + [e]|)
    {
      if k in s.subs {
        OfferKeepsPart(s.chans[k], s.log, e);
      } else {
        PastKeepsPart(s.chans[k], s.log, e);
      }
    }
  }

  lemma TakeKeepsInv<T>(s: State<T>, key: nat)
    requires Inv(s)
    ensures Inv(Take(s, key))
  {
    hide Kept;
    if key in s.chans && s.chans[key].queue != [] {
      var d := Take(s, key).chans[key];
      assert d.taken + d.queue == s.chans[key].taken + s.chans[key].queue;
      assert GotItsPart(d, s.log);
      hide GotItsPart;
      assert forall k | k in s.chans && k != key :: Take(s, key).chans[k] == s.chans[k];
    }
  }

  lemma SubscribeKeepsInv<T>(s: State<T>)
    requires Inv(s)
    ensures Inv(Subscribe(s))
  {
    assert s.log[|s.log|..|s.log|] == [];
    assert GotItsPart(Chan(|s.log|, [], [], [], false), s.log);
    hide GotItsPart;
  }

  lemma UnsubscribeKeepsInv<T>(s: State<T>, key: nat)
    requires Inv(s)
    ensures Inv(Unsubscribe(s, key))
  {
    if key in s.subs {
      var c := s.chans[key];
      assert GotItsPart(c, s.log);
      assert GotItsPart(c.(closed := true), s.log);
      hide GotItsPart;
    }
  }

  lemma StepKeepsInv<T>(s: State<T>, a: Action<T>)
    requires Inv(s)
    ensures Inv(Step(s, a))
  {
    hide Inv, Subscribe, Unsubscribe, Publish, Take;
    match a
    case DoSubscribe => SubscribeKeepsInv(s);
    case DoUnsubscribe(key) => UnsubscribeKeepsInv(s, key);
    case DoPublish(e) => PublishKeepsInv(s, e);
    case DoTake(key) => TakeKeepsInv(s, key);
  }

  lemma {:induction false} RunKeepsInv<T>(actions: seq<Action<T>>)
    ensures Inv(Run(actions))
  {
    hide Inv, Step;
    if actions == [] {
      StartInv<T>();
    } else {
      RunKeepsInv(actions[..|actions| - 1]);
      StepKeepsInv(Run(actions[..|actions| - 1]), actions[|actions| - 1]);
    }
  }

  lemma StartInv<T>()
    ensures Inv<T>(Start())
  {
  }

  // ---------------------------------------------------------------------------
  // What a subscriber can rely on
  // ---------------------------------------------------------------------------

  /**
   What a subscriber took and still has waiting is the events published since it subscribed,
   in order, without exactly those that found its channel full; while it is subscribed, none
   is unaccounted for.
   */
  lemma SubscriberGetsItsPart<T>(actions: seq<Action<T>>, key: nat)
    requires key in Run(actions).chans
    ensures var s, c := Run(actions), Run(actions).chans[key];
            && c.since + |c.fates| <= |s.log|
            && c.taken + c.queue == Kept(s.log[c.since..c.since + |c.fates|], c.fates)
            && |c.queue| <= SUB_BUFFER
            && (key in s.subs ==> c.since + |c.fates| == |s.log|)
            && (key in s.subs <==> !c.closed)
  {
    hide Run;
    RunKeepsInv(actions);
  }

  /** A closed channel stays closed and gets no further event; closing it again does nothing. */
  lemma ClosedIsFinal<T>(actions: seq<Action<T>>, a: Action<T>, key: nat)
    requires key in Run(actions).chans && Run(actions).chans[key].closed
    ensures var s, t := Run(actions), Step(Run(actions), a);
            && key in t.chans && t.chans[key].closed
            && t.chans[key].taken + t.chans[key].queue == s.chans[key].taken + s.chans[key].queue
            && Step(s, DoUnsubscribe(key)) == s
  {
    hide Run, GotItsPart;
    RunKeepsInv(actions);
  }
}
