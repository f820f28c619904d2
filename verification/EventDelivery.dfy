/**
 What subscribing, publishing, taking and unsubscribing come to, told by the actions of a run:
 which events were published, which of them a subscriber lost, and how long it stays subscribed.
 */
module EventDelivery {
  import opened EventFanout

  /** The events published in a run, in order. */
  function Published<T>(actions: seq<Action<T>>): seq<T> {
    if actions == [] then []
    else
      var n := |actions| - 1;
      Published(actions[..n]) + if actions[n].DoPublish? then [actions[n].e] else []
  }

  lemma {:induction false} LogIsPublished<T>(actions: seq<Action<T>>)
    ensures Run(actions).log == Published(actions)
  {
    if actions != [] {
      LogIsPublished(actions[..|actions| - 1]);
    }
  }

  lemma OneMore<T>(actions: seq<Action<T>>, a: Action<T>)
    ensures Run(actions + [a]) == Step(Run(actions), a)
  {
    assert (actions + [a])[..|actions|] == actions;
  }

  lemma OneFewer<T>(first: seq<Action<T>>, later: seq<Action<T>>)
    requires later != []
    ensures var n := |later| - 1;
            first + later == first + later[..n] + [later[n]]
  {
  }

  /** A new subscriber has a channel that nobody had, open and empty; the others keep theirs as they are. */
  lemma SubscribeOpens<T>(actions: seq<Action<T>>)
    ensures var s, t := Run(actions), Run(actions + [DoSubscribe]);
            && s.next !in s.chans && s.next in t.chans
            && t.chans == s.chans[s.next := t.chans[s.next]] && t.subs == s.subs + {s.next}
            && t.chans[s.next].taken == t.chans[s.next].queue == [] && t.chans[s.next].since == |Published(actions)|
  {
    OneMore(actions, DoSubscribe);
    RunKeepsInv(actions);
    LogIsPublished(actions);
    hide Run, GotItsPart, Published;
  }

  /** Where a subscriber's events begin never changes, and no fate is forgotten or revised. */
  predicate Extends<T>(c: Chan<T>, d: Chan<T>) {
    d.since == c.since && |c.fates| <= |d.fates| && d.fates[..|c.fates|] == c.fates
  }

  /** The channel that `key` has in `c` is the one it has in `d`, later. */
  predicate SameChannel<T>(c: map<nat, Chan<T>>, d: map<nat, Chan<T>>, key: nat) {
    key in c && key in d && Extends(c[key], d[key])
  }

  lemma NextStep<T>(s: State<T>, a: Action<T>, key: nat)
    requires Inv(s) && key in s.chans
    ensures SameChannel(s.chans, Step(s, a).chans, key)
    ensures key in Step(s, a).subs <==> key in s.subs && a != DoUnsubscribe(key)
  {
    hide GotItsPart;
  }

  lemma SameChannelLater<T>(c: map<nat, Chan<T>>, d: map<nat, Chan<T>>, e: map<nat, Chan<T>>, key: nat)
    requires SameChannel(c, d, key) && SameChannel(d, e, key)
    ensures SameChannel(c, e, key)
  {
    assert e[key].fates[..|c[key].fates|] == e[key].fates[..|d[key].fates|][..|c[key].fates|];
  }

  lemma {:induction false} StaysThere<T>(first: seq<Action<T>>, later: seq<Action<T>>, key: nat)
    requires key in Run(first).chans
    ensures SameChannel(Run(first).chans, Run(first + later).chans, key)
  {
    hide Run, Step, Inv, SameChannel;
    if later == [] {
      assert first + later == first;
      assert SameChannel(Run(first).chans, Run(first).chans, key) by {
        hide *;
        SameChannelNow(Run(first).chans, key);
      }
    } else {
      var n := |later| - 1;
      var s, t := Run(first), Run(first + later[..n]);
      OneFewer(first, later);
      OneMore(first + later[..n], later[n]);
      StaysThere(first, later[..n], key);
      RunKeepsInv(first + later[..n]);
      SameChannelIn(s.chans, t.chans, key);
      NextStep(t, later[n], key);
      SameChannelLater(s.chans, t.chans, Step(t, later[n]).chans, key);
    }
  }

  lemma SameChannelNow<T>(c: map<nat, Chan<T>>, key: nat)
    requires key in c
    ensures SameChannel(c, c, key)
  {
  }

  lemma SameChannelIn<T>(c: map<nat, Chan<T>>, d: map<nat, Chan<T>>, key: nat)
    requires SameChannel(c, d, key)
    ensures key in c && key in d && Extends(c[key], d[key])
  {
  }

  /** A subscriber stays one exactly until it unsubscribes. */
  lemma {:induction false} SubscribedIff<T>(first: seq<Action<T>>, later: seq<Action<T>>, key: nat)
    requires key in Run(first).subs
    ensures key in Run(first + later).subs <==> DoUnsubscribe(key) !in later
  {
    hide Run, Step, GotItsPart, SameChannel;
    if later == [] {
      assert first + later == first;
    } else {
      var n := |later| - 1;
      OneFewer(first, later);
      OneMore(first + later[..n], later[n]);
      SubscribedIff(first, later[..n], key);
      RunKeepsInv(first);
      StaysThere(first, later[..n], key);
      SameChannelIn(Run(first).chans, Run(first + later[..n]).chans, key);
      RunKeepsInv(first + later[..n]);
      NextStep(Run(first + later[..n]), later[n], key);
      hide Inv;
      assert later == later[..n] + [later[n]];
    }
  }

  /**
   Unsubscribing ends the subscription for good: the channel is closed with what it holds, and
   nobody else notices.
   */
  lemma UnsubscribeCloses<T>(first: seq<Action<T>>, key: nat, later: seq<Action<T>>)
    requires key in Run(first).subs
    ensures var s, t := Run(first), Run(first + [DoUnsubscribe(key)]);
            && key in s.chans && t.subs == s.subs - {key} && t.log == s.log
            && t.chans == s.chans[key := s.chans[key].(closed := true)]
    ensures key !in Run(first + [DoUnsubscribe(key)] + later).subs
  {
    var a := DoUnsubscribe(key);
    assert a in [a] + later && first + [a] + later == first + ([a] + later);
    SubscribedIff(first, [a] + later, key);
    OneMore(first, a);
    RunKeepsInv(first);
    hide Run, GotItsPart;
  }

  /**
   An event is lost to a subscriber exactly if 256 events wait for it when it is published;
   otherwise it goes to the end of the queue.
   */
  lemma LostIffFull<T>(first: seq<Action<T>>, e: T, later: seq<Action<T>>, key: nat)
    requires key in Run(first).subs && key in Run(first).chans
    ensures var c, d := Run(first).chans[key].queue, Run(first + [DoPublish(e)]).chans;
            key in d && d[key].queue == if |c| == 256 then c else c + [e]
    ensures var s, t := Run(first), Run(first + [DoPublish(e)] + later);
            var i := |Published(first)| - s.chans[key].since;
            && key in t.chans && 0 <= i < |t.chans[key].fates|
            && (t.chans[key].fates[i].Lost? <==> |s.chans[key].queue| == 256)
  {
    var a := DoPublish(e);
    RunKeepsInv(first);
    LogIsPublished(first);
    OneMore(first, a);
    var s, t := Run(first), Run(first + [a]);
    assert key in t.subs && key in t.chans && t.chans[key] == Offer(s.chans[key], e);
    StaysThere(first + [a], later, key);
    hide Run, Published, Kept;
    var i := |s.log| - s.chans[key].since;
    assert i == |s.chans[key].fates|;
    assert t.chans[key].fates[i].Lost? <==> |s.chans[key].queue| == 256;
  }

  /** Taking moves the event that waits longest, and nothing else. */
  lemma TakeGivesOldest<T>(actions: seq<Action<T>>, key: nat)
    requires key in Run(actions).chans && Run(actions).chans[key].queue != []
    ensures var s, t := Run(actions), Run(actions + [DoTake(key)]);
            && t.chans.Keys == s.chans.Keys && t.subs == s.subs && t.log == s.log
            && (forall k | k in s.chans && k != key :: t.chans[k] == s.chans[k])
            && var c, d := s.chans[key], t.chans[key];
               c.queue == [c.queue[0]] + d.queue && d.taken == c.taken + [c.queue[0]] && d.closed == c.closed
  {
    OneMore(actions, DoTake(key));
    hide Run;
  }
}
