/**
 Instance buses and the global bus together: a publish fans out on the instance bus under its
 lock, releases it, and then fans out on the global bus under that one's lock, so publishers
 interleave between the two.
 */
module EventForwarding {
  import Fan = EventFanout

  /** Where a publishing goroutine is; `Forwarding` is between the two critical sections. */
  datatype Thread<E> = Idle | Forwarding(bus: nat, event: E)

  /** The envelope on the global bus. */
  datatype Envelope<E> = Envelope(bus: nat, event: E)

  datatype State<E> = State(buses: map<nat, Fan.State<E>>, global: Fan.State<Envelope<E>>, threads: map<nat, Thread<E>>)

  datatype Action<E> =
    | NewBus(bus: nat)
    | OnBus(bus: nat, a: Fan.Action<E>)
    | OnGlobal(g: Fan.Action<Envelope<E>>)
    | PublishHere(thread: nat, bus: nat, event: E)
    | Forward(thread: nat)

  function At<E>(s: State<E>, thread: nat): Thread<E> {
    if thread in s.threads then s.threads[thread] else Idle
  }

  /** Subscribing, unsubscribing and receiving happen on any bus; publishing only through an instance bus. */
  function Step<E>(s: State<E>, a: Action<E>): State<E> {
    match a
    case NewBus(bus) =>
      if bus in s.buses then s else s.(buses := s.buses[bus := Fan.Start()])
    case OnBus(bus, act) =>
      if bus in s.buses && !act.DoPublish? then s.(buses := s.buses[bus := Fan.Step(s.buses[bus], act)]) else s
    case OnGlobal(act) =>
      if act.DoPublish? then s else s.(global := Fan.Step(s.global, act))
    case PublishHere(thread, bus, e) =>
      if bus in s.buses && At(s, thread).Idle? then
        s.(buses := s.buses[bus := Fan.Publish(s.buses[bus], e)],
           threads := s.threads[thread := Forwarding(bus, e)])
      else s
    case Forward(thread) =>
      match At(s, thread)
      case Idle => s
      case Forwarding(bus, e) =>
        s.(global := Fan.Publish(s.global, Envelope(bus, e)), threads := s.threads[thread := Idle])
  }

  function Start<E>(): State<E> {
    State(map[], Fan.Start(), map[])
  }

  function Run<E>(actions: seq<Action<E>>): State<E> {
    if actions == [] then Start()
    else Step(Run(actions[..|actions| - 1]), actions[|actions| - 1])
  }

  function Log<E>(s: State<E>, bus: nat): seq<E> {
    if bus in s.buses then s.buses[bus].log else []
  }

  /** What the global bus carried from one instance bus, in order. */
  function From<E>(log: seq<Envelope<E>>, bus: nat): seq<E> {
    if log == [] then []
    else
      var last := log[|log| - 1];
      From(log[..|log| - 1], bus) + if last.bus == bus then [last.event] else []
  }

  /** The publishers of `e` that have not reached the global bus. */
  function Pending<E(==)>(s: State<E>, bus: nat, e: E): set<nat> {
    set t | t in s.threads && s.threads[t] == Forwarding(bus, e)
  }

  // ---------------------------------------------------------------------------
  // Nothing is lost or duplicated between the buses
  // ---------------------------------------------------------------------------

  predicate Conserved<E(==)>(s: State<E>, bus: nat, e: E) {
    multiset(From(s.global.log, bus))[e] + |Pending(s, bus, e)| == multiset(Log(s, bus))[e]
  }

  lemma CountOneMore<E>(log: seq<E>, last: E, e: E)
    ensures multiset(log + [last])[e] == multiset(log)[e] + if last == e then 1 else 0
  {
  }

  lemma SameCounts<E>(a: multiset<E>, b: multiset<E>)
    requires forall e :: a[e] == b[e]
    ensures a == b
  {
    assert forall e | e in a :: e in b;
    assert a <= b && b <= a;
  }

  lemma FromOneMore<E>(log: seq<Envelope<E>>, last: Envelope<E>, bus: nat)
    ensures From(log + [last], bus) == From(log, bus) + if last.bus == bus then [last.event] else []
  {
    assert (log + [last])[..|log|] == log;
  }

  lemma PublishEffect<E>(s: State<E>, thread: nat, at: nat, event: E, bus: nat, e: E)
    requires at in s.buses && At(s, thread).Idle?
    ensures var t := Step(s, PublishHere(thread, at, event));
            && t.global == s.global
            && Log(t, bus) == Log(s, bus) + (if at == bus then [event] else [])
            && (if at == bus && event == e
                then Pending(t, bus, e) == Pending(s, bus, e) + {thread} && thread !in Pending(s, bus, e)
                else Pending(t, bus, e) == Pending(s, bus, e))
  {
    hide From, Fan.Deliver;
  }

  lemma PublishConserves<E>(s: State<E>, thread: nat, at: nat, event: E, bus: nat, e: E)
    requires at in s.buses && At(s, thread).Idle? && Conserved(s, bus, e)
    ensures Conserved(Step(s, PublishHere(thread, at, event)), bus, e)
  {
    PublishEffect(s, thread, at, event, bus, e);
    hide From, Step, Log, Pending;
    CountOneMore(Log(s, bus), event, e);
  }

  lemma ForwardEffect<E>(s: State<E>, thread: nat, bus: nat, e: E)
    requires At(s, thread).Forwarding?
    ensures var t, at := Step(s, Forward(thread)), At(s, thread);
            && t.buses == s.buses
            && t.global.log == s.global.log + [Envelope(at.bus, at.event)]
            && (if at.bus == bus && at.event == e
                then Pending(t, bus, e) == Pending(s, bus, e) - {thread} && thread in Pending(s, bus, e)
                else Pending(t, bus, e) == Pending(s, bus, e))
  {
    hide From, Fan.Deliver;
  }

  lemma ForwardConserves<E>(s: State<E>, thread: nat, bus: nat, e: E)
    requires At(s, thread).Forwarding? && Conserved(s, bus, e)
    ensures Conserved(Step(s, Forward(thread)), bus, e)
  {
    ForwardEffect(s, thread, bus, e);
    var at := At(s, thread);
    assert Log(Step(s, Forward(thread)), bus) == Log(s, bus);
    hide From, Step, Log, Pending, At;
    hide Fan.Publish, Fan.Deliver;
    FromOneMore(s.global.log, Envelope(at.bus, at.event), bus);
    CountOneMore(From(s.global.log, bus), at.event, e);
  }

  lemma OtherEffect<E>(s: State<E>, a: Action<E>, bus: nat)
    requires !a.PublishHere? && !a.Forward?
    ensures var t := Step(s, a);
            t.threads == s.threads && t.global.log == s.global.log && Log(t, bus) == Log(s, bus)
  {
    hide From, Fan.Offer, Fan.Deliver;
  }

  lemma StepConserves<E>(s: State<E>, a: Action<E>, bus: nat, e: E)
    requires Conserved(s, bus, e)
    ensures Conserved(Step(s, a), bus, e)
  {
    hide From;
    if a.PublishHere? {
      if a.bus in s.buses && At(s, a.thread).Idle? {
        PublishConserves(s, a.thread, a.bus, a.event, bus, e);
      }
    } else if a.Forward? {
      if At(s, a.thread).Forwarding? {
        ForwardConserves(s, a.thread, bus, e);
      }
    } else {
      OtherEffect(s, a, bus);
      hide Step, Log;
      assert Pending(Step(s, a), bus, e) == Pending(s, bus, e);
    }
  }

  lemma {:induction false} RunConserves<E>(actions: seq<Action<E>>, bus: nat, e: E)
    ensures Conserved(Run(actions), bus, e)
  {
    hide Step;
    if actions == [] {
      assert Pending<E>(Start(), bus, e) == {};
    } else {
      hide Conserved;
      RunConserves(actions[..|actions| - 1], bus, e);
      StepConserves(Run(actions[..|actions| - 1]), actions[|actions| - 1], bus, e);
    }
  }

  /**
   Once no publish of an instance is under way, the global bus has carried exactly the events
   that instance published, each as often; until then every missing one has its own publisher.
   */
  lemma EveryPublishIsForwardedOnce<E>(actions: seq<Action<E>>, bus: nat)
    ensures var s := Run(actions);
            && (forall e :: multiset(From(s.global.log, bus))[e] + |Pending(s, bus, e)| == multiset(Log(s, bus))[e])
            && ((forall t | t in s.threads :: s.threads[t].Forwarding? ==> s.threads[t].bus != bus) ==>
                multiset(From(s.global.log, bus)) == multiset(Log(s, bus)))
  {
    hide From, Run, Log;
    var s := Run(actions);
    forall e
      ensures multiset(From(s.global.log, bus))[e] + |Pending(s, bus, e)| == multiset(Log(s, bus))[e]
    {
      RunConserves(actions, bus, e);
    }
    if forall t | t in s.threads :: s.threads[t].Forwarding? ==> s.threads[t].bus != bus {
      forall e
        ensures multiset(From(s.global.log, bus))[e] == multiset(Log(s, bus))[e]
      {
        assert Pending(s, bus, e) == {};
      }
      SameCounts(multiset(From(s.global.log, bus)), multiset(Log(s, bus)));
    }
  }

  // ---------------------------------------------------------------------------
  // Order
  // ---------------------------------------------------------------------------

  predicate Publishing<E>(s: State<E>, bus: nat) {
    exists t :: t in s.threads && s.threads[t].Forwarding? && s.threads[t].bus == bus
  }

  /** Each publish on the bus starts after the one before it was forwarded. */
  predicate OneAtATime<E>(actions: seq<Action<E>>, bus: nat) {
    forall k | 0 <= k < |actions| && actions[k].PublishHere? && actions[k].bus == bus ::
      !Publishing(Run(actions[..k]), bus)
  }

  /** The forwards are the log so far, or all of it but the one event still under way. */
  predicate InOrder<E(==)>(s: State<E>, bus: nat) {
    if Publishing(s, bus) then
      && Log(s, bus) != []
      && From(s.global.log, bus) == Log(s, bus)[..|Log(s, bus)| - 1]
      && forall t | t in s.threads && s.threads[t].Forwarding? && s.threads[t].bus == bus ::
           && s.threads[t].event == Log(s, bus)[|Log(s, bus)| - 1]
           && forall u | u in s.threads && s.threads[u].Forwarding? && s.threads[u].bus == bus :: u == t
    else From(s.global.log, bus) == Log(s, bus)
  }

  lemma PublishKeepsOrder<E>(s: State<E>, thread: nat, at: nat, event: E, bus: nat)
    requires InOrder(s, bus) && (at == bus ==> !Publishing(s, bus))
    ensures InOrder(Step(s, PublishHere(thread, at, event)), bus)
  {
    hide From;
    var t := Step(s, PublishHere(thread, at, event));
    if at in s.buses && At(s, thread).Idle? {
      if at == bus {
        assert t.threads[thread].Forwarding?;
        assert Publishing(t, bus);
        assert Log(t, bus)[..|Log(t, bus)| - 1] == Log(s, bus);
      } else {
        assert forall u | u != thread && u in s.threads :: t.threads[u] == s.threads[u];
        assert Publishing(t, bus) <==> Publishing(s, bus) by {
          if Publishing(s, bus) {
            var u :| u in s.threads && s.threads[u].Forwarding? && s.threads[u].bus == bus;
            assert u in t.threads && t.threads[u].Forwarding?;
          }
        }
      }
    }
  }

  lemma ForwardKeepsOrder<E>(s: State<E>, thread: nat, bus: nat)
    requires InOrder(s, bus)
    ensures InOrder(Step(s, Forward(thread)), bus)
  {
    hide From;
    var t := Step(s, Forward(thread));
    if At(s, thread).Forwarding? {
      var at, event := s.threads[thread].bus, s.threads[thread].event;
      FromOneMore(s.global.log, Envelope(at, event), bus);
      assert forall u | u != thread && u in s.threads :: t.threads[u] == s.threads[u];
      if at == bus {
        assert Publishing(s, bus);
        assert !Publishing(t, bus);
        assert Log(s, bus) == Log(s, bus)[..|Log(s, bus)| - 1] + [event];
      } else {
        assert Publishing(t, bus) <==> Publishing(s, bus) by {
          if Publishing(s, bus) {
            var u :| u in s.threads && s.threads[u].Forwarding? && s.threads[u].bus == bus;
            assert u in t.threads && t.threads[u].Forwarding?;
          }
        }
      }
    }
  }

  lemma StepKeepsOrder<E>(s: State<E>, a: Action<E>, bus: nat)
    requires InOrder(s, bus)
    requires a.PublishHere? && a.bus == bus ==> !Publishing(s, bus)
    ensures InOrder(Step(s, a), bus)
  {
    hide From;
    if a.PublishHere? {
      PublishKeepsOrder(s, a.thread, a.bus, a.event, bus);
    } else if a.Forward? {
      ForwardKeepsOrder(s, a.thread, bus);
    } else {
      OtherEffect(s, a, bus);
      hide Step, Log;
      assert Publishing(Step(s, a), bus) == Publishing(s, bus);
    }
  }

  /** Where publishes do not overlap, the global bus carries an instance's events in the instance's order. */
  lemma {:induction false} SerialPublishersKeepOrder<E>(actions: seq<Action<E>>, bus: nat)
    requires OneAtATime(actions, bus)
    ensures InOrder(Run(actions), bus)
  {
    hide Step;
    if actions == [] {
      assert !Publishing<E>(Start(), bus);
    } else {
      hide InOrder, Publishing;
      var n := |actions| - 1;
      assert forall k | 0 <= k < n :: actions[..n][..k] == actions[..k];
      SerialPublishersKeepOrder(actions[..n], bus);
      StepKeepsOrder(Run(actions[..n]), actions[n], bus);
    }
  }

  lemma OverlapSteps<E>(s: State<E>, bus: nat, e: E, f: E, t: nat, u: nat)
    requires bus in s.buses && t != u && At(s, t).Idle? && At(s, u).Idle?
    ensures var s2 := Step(Step(s, PublishHere(t, bus, e)), PublishHere(u, bus, f));
            && s2.global == s.global && Log(s2, bus) == Log(s, bus) + [e] + [f]
            && At(s2, t) == Forwarding(bus, e) && At(s2, u) == Forwarding(bus, f)
            && At(Step(s2, Forward(u)), t) == Forwarding(bus, e)
            && Log(Step(Step(s2, Forward(u)), Forward(t)), bus) == Log(s2, bus)
  {
    hide From, Fan.Offer, Fan.Deliver;
    PublishEffect(s, t, bus, e, bus, e);
    PublishEffect(Step(s, PublishHere(t, bus, e)), u, bus, f, bus, e);
  }

  /** From a state in order, two overlapping publishes of different events can come out in either order. */
  lemma OverlapCanSwap<E>(s: State<E>, bus: nat, e: E, f: E, t: nat, u: nat)
    requires bus in s.buses && t != u && At(s, t).Idle? && At(s, u).Idle?
    requires From(s.global.log, bus) == Log(s, bus) && e != f
    ensures var r := Step(Step(Step(Step(s, PublishHere(t, bus, e)), PublishHere(u, bus, f)), Forward(u)), Forward(t));
            && Log(r, bus) == Log(s, bus) + [e, f]
            && From(r.global.log, bus) == Log(s, bus) + [f, e]
            && From(r.global.log, bus) != Log(r, bus)
  {
    hide From, Step, Log, Pending;
    var s1 := Step(s, PublishHere(t, bus, e));
    var s2 := Step(s1, PublishHere(u, bus, f));
    var s3 := Step(s2, Forward(u));
    OverlapSteps(s, bus, e, f, t, u);
    ForwardEffect(s2, u, bus, e);
    ForwardEffect(s3, t, bus, e);
    assert Log(s, bus) + [e] + [f] == Log(s, bus) + [e, f];
    FromOneMore(s.global.log, Envelope(bus, f), bus);
    FromOneMore(s.global.log + [Envelope(bus, f)], Envelope(bus, e), bus);
    var n := |Log(s, bus)|;
    assert (Log(s, bus) + [e, f])[n] == e && (Log(s, bus) + [f, e])[n] == f;
  }

  /** A run that swaps: two publishers on a new bus. */
  lemma SwapReached<E>(bus: nat, e: E, f: E)
    requires e != f
    ensures var s := Run([NewBus(bus), PublishHere(0, bus, e), PublishHere(1, bus, f), Forward(1), Forward(0)]);
            Log(s, bus) == [e, f] && From(s.global.log, bus) == [f, e]
  {
    var a: Action<E>, b, c := NewBus(bus), PublishHere(0, bus, e), PublishHere(1, bus, f);
    var d: Action<E>, g: Action<E> := Forward(1), Forward(0);
    assert [] + [a] == [a] && [a] + [b] == [a, b] && [a, b] + [c] == [a, b, c];
    assert [a, b, c] + [d] == [a, b, c, d] && [a, b, c, d] + [g] == [a, b, c, d, g];
    OneMore([], a);
    OneMore([a], b);
    OneMore([a, b], c);
    OneMore([a, b, c], d);
    OneMore([a, b, c, d], g);
    var s := Step(Start<E>(), a);
    assert bus in s.buses && At(s, 0).Idle? && At(s, 1).Idle? && Log(s, bus) == [] && From(s.global.log, bus) == [];
    hide Run, Step, Log, From;
    OverlapCanSwap(s, bus, e, f, 0, 1);
    assert [] + [e, f] == [e, f] && [] + [f, e] == [f, e];
  }

  lemma OneMore<E>(actions: seq<Action<E>>, a: Action<E>)
    ensures Run(actions + [a]) == Step(Run(actions), a)
  {
    assert (actions + [a])[..|actions|] == actions;
  }

  /** The events published on a bus in a run: by publishers that are not between the buses. */
  function Published<E>(actions: seq<Action<E>>, bus: nat): seq<E> {
    if actions == [] then []
    else
      var n := |actions| - 1;
      var s, a := Run(actions[..n]), actions[n];
      Published(actions[..n], bus) +
      if a.PublishHere? && a.bus == bus && bus in s.buses && At(s, a.thread).Idle? then [a.event] else []
  }

  /** The log of an instance bus is what was published on it, in order. */
  lemma {:induction false} LogIsPublished<E>(actions: seq<Action<E>>, bus: nat)
    ensures Log(Run(actions), bus) == Published(actions, bus)
  {
    if actions != [] {
      var n := |actions| - 1;
      LogIsPublished(actions[..n], bus);
      LogInStep(Run(actions[..n]), actions[n], bus);
      hide Step, Log;
    }
  }

  lemma LogInStep<E>(s: State<E>, a: Action<E>, bus: nat)
    ensures Log(Step(s, a), bus) ==
            Log(s, bus) + if a.PublishHere? && a.bus == bus && bus in s.buses && At(s, a.thread).Idle?
                          then [a.event] else []
  {
    hide Fan.Deliver;
    match a
    case NewBus(_) =>
    case OnBus(_, _) =>
    case OnGlobal(_) =>
    case PublishHere(_, _, _) =>
    case Forward(_) =>
  }

  /** The publishers of a bus that have not reached the global bus. */
  function AllPending<E>(s: State<E>, bus: nat): set<nat> {
    set t | t in s.threads && s.threads[t].Forwarding? && s.threads[t].bus == bus
  }

  function Members(order: seq<nat>): (all: set<nat>)
    ensures forall t :: t in all <==> t in order
  {
    set t | t in order
  }

  predicate NoneTwice(order: seq<nat>) {
    forall i, j | 0 <= i < j < |order| :: order[i] != order[j]
  }

  /** An order in which those publishers can go on: each of them once. */
  predicate OrderOf<E>(order: seq<nat>, s: State<E>, bus: nat) {
    NoneTwice(order) && Members(order) == AllPending(s, bus)
  }

  function ForwardAll<E>(s: State<E>, order: seq<nat>): State<E> {
    if order == [] then s else Step(ForwardAll(s, order[..|order| - 1]), Forward(order[|order| - 1]))
  }

  predicate EachPending<E>(order: seq<nat>, s: State<E>, bus: nat) {
    forall i | 0 <= i < |order| ::
      order[i] in s.threads && s.threads[order[i]].Forwarding? && s.threads[order[i]].bus == bus
  }

  function EventsOf<E>(s: State<E>, order: seq<nat>, bus: nat): seq<E>
    requires EachPending(order, s, bus)
  {
    seq(|order|, i requires 0 <= i < |order| => s.threads[order[i]].event)
  }

  lemma InOrderOf<E>(order: seq<nat>, s: State<E>, bus: nat)
    requires OrderOf(order, s, bus)
    ensures EachPending(order, s, bus)
    ensures forall t | t in AllPending(s, bus) :: t in order
  {
    assert forall i | 0 <= i < |order| :: order[i] in Members(order);
    assert forall t | t in AllPending(s, bus) :: t in Members(order);
  }

  /** Going on in some order appends the events in that order. */
  lemma {:induction false} ForwardAllEffect<E>(s: State<E>, order: seq<nat>, bus: nat)
    requires EachPending(order, s, bus) && NoneTwice(order)
    ensures var t := ForwardAll(s, order);
            && t.buses == s.buses
            && From(t.global.log, bus) == From(s.global.log, bus) + EventsOf(s, order, bus)
            && forall u | u !in order :: At(t, u) == At(s, u)
  {
    hide From, Step;
    if order == [] {
      assert From(s.global.log, bus) + [] == From(s.global.log, bus);
    } else {
      var n := |order| - 1;
      var init, last := order[..n], order[n];
      var mid := ForwardAll(s, init);
      ForwardAllEffect(s, init, bus);
      assert last !in init;
      assert At(mid, last) == s.threads[last];
      ForwardOne(mid, last, bus);
      assert EventsOf(s, order, bus) == EventsOf(s, init, bus) + [s.threads[last].event];
    }
  }

  lemma OthersStay<E>(s: State<E>, thread: nat)
    requires At(s, thread).Forwarding?
    ensures forall u | u != thread :: At(Step(s, Forward(thread)), u) == At(s, u)
  {
    hide Fan.Publish;
  }

  lemma ForwardOne<E>(s: State<E>, thread: nat, bus: nat)
    requires At(s, thread).Forwarding? && At(s, thread).bus == bus
    ensures var t := Step(s, Forward(thread));
            && t.buses == s.buses
            && From(t.global.log, bus) == From(s.global.log, bus) + [At(s, thread).event]
            && forall u | u != thread :: At(t, u) == At(s, u)
  {
    ForwardEffect(s, thread, bus, At(s, thread).event);
    FromOneMore(s.global.log, Envelope(bus, At(s, thread).event), bus);
    OthersStay(s, thread);
    hide *;
  }

  lemma OneMoreMember(order: seq<nat>, t: nat)
    requires NoneTwice(order) && t !in order
    ensures NoneTwice(order + [t]) && Members(order + [t]) == Members(order) + {t}
    ensures |Members(order + [t])| == |Members(order)| + 1
  {
    assert forall u :: u in Members(order + [t]) <==> u in Members(order) + {t};
  }

  lemma {:induction false} Enumeration(left: set<nat>) returns (order: seq<nat>)
    ensures NoneTwice(order) && Members(order) == left
  {
    if left == {} {
      order := [];
    } else {
      var t :| t in left;
      var rest := Enumeration(left - {t});
      assert t !in Members(rest);
      OneMoreMember(rest, t);
      order := rest + [t];
    }
  }

  /**
   Whatever the order in which its publishers go on, and with no further publish on it, the
   global bus ends with the instance's own order.
   */
  ghost predicate OrderCertain<E>(s: State<E>, bus: nat) {
    forall order | OrderOf(order, s, bus) :: From(ForwardAll(s, order).global.log, bus) == Log(s, bus)
  }

  predicate PendingAlike<E(==)>(s: State<E>, bus: nat) {
    forall t, u | t in AllPending(s, bus) && u in AllPending(s, bus) :: s.threads[t].event == s.threads[u].event
  }

  lemma CertainIsPrefix<E>(s: State<E>, bus: nat)
    requires OrderCertain(s, bus)
    ensures From(s.global.log, bus) <= Log(s, bus)
  {
    hide From, Log;
    var order := Enumeration(AllPending(s, bus));
    InOrderOf(order, s, bus);
    ForwardAllEffect(s, order, bus);
  }

  lemma CertainIsAlike<E>(s: State<E>, bus: nat, t: nat, u: nat)
    requires OrderCertain(s, bus) && t in AllPending(s, bus) && u in AllPending(s, bus)
    ensures s.threads[t].event == s.threads[u].event
  {
    hide From, Log;
    var order := Enumeration(AllPending(s, bus));
    InOrderOf(order, s, bus);
    var i: nat :| i < |order| && order[i] == t;
    var j: nat :| j < |order| && order[j] == u;
    var other := order[i := u][j := t];
    Exchanged(order, i, j);
    assert OrderOf(other, s, bus);
    InOrderOf(other, s, bus);
    ForwardAllEffect(s, order, bus);
    ForwardAllEffect(s, other, bus);
    var before, x, y := From(s.global.log, bus), EventsOf(s, order, bus), EventsOf(s, other, bus);
    assert before + x == before + y;
    assert (before + x)[|before| + i] == x[i] && (before + y)[|before| + i] == y[i];
    assert x[i] == s.threads[t].event && y[i] == s.threads[if i == j then t else u].event;
  }

  lemma Exchanged(order: seq<nat>, i: nat, j: nat)
    requires i < |order| && j < |order| && NoneTwice(order)
    ensures var other := order[i := order[j]][j := order[i]];
            Members(other) == Members(order) && NoneTwice(other)
  {
    var other := order[i := order[j]][j := order[i]];
    forall t
      ensures t in other <==> t in order
    {
      if t in order {
        var k :| 0 <= k < |order| && order[k] == t;
        assert other[if k == i then j else if k == j then i else k] == t;
      }
    }
    assert forall t :: t in Members(other) <==> t in Members(order);
  }

  lemma AlikeIsCertain<E>(s: State<E>, bus: nat, order: seq<nat>)
    requires forall e :: Conserved(s, bus, e)
    requires From(s.global.log, bus) <= Log(s, bus) && PendingAlike(s, bus) && OrderOf(order, s, bus)
    ensures From(ForwardAll(s, order).global.log, bus) == Log(s, bus)
  {
    InOrderOf(order, s, bus);
    ForwardAllEffect(s, order, bus);
    hide From, ForwardAll;
    var before, log := From(s.global.log, bus), Log(s, bus);
    assert log == before + log[|before|..];
    RestIsPending(s, bus, order, before, log[|before|..]);
  }

  lemma RestIsPending<E>(s: State<E>, bus: nat, order: seq<nat>, before: seq<E>, tail: seq<E>)
    requires forall e :: Conserved(s, bus, e)
    requires From(s.global.log, bus) == before && Log(s, bus) == before + tail
    requires PendingAlike(s, bus) && OrderOf(order, s, bus) && EachPending(order, s, bus)
    ensures EventsOf(s, order, bus) == tail
  {
    hide From, Log;
    forall e
      ensures multiset(tail)[e] == |Pending(s, bus, e)|
    {
      assert Conserved(s, bus, e);
      assert multiset(before + tail) == multiset(before) + multiset(tail);
    }
    hide Conserved;
    if order == [] {
      NonePending(s, bus);
      NothingIn(tail);
    } else {
      var e := s.threads[order[0]].event;
      assert order[0] in Members(order);
      AllCarry(s, bus, e);
      CountOfOrder(order);
      OnlyOne(tail, e);
      assert forall i | 0 <= i < |order| :: order[i] in Members(order);
    }
  }

  lemma NonePending<E>(s: State<E>, bus: nat)
    requires AllPending(s, bus) == {}
    ensures forall e :: Pending(s, bus, e) == {}
  {
    forall e
      ensures Pending(s, bus, e) == {}
    {
      assert Pending(s, bus, e) <= AllPending(s, bus);
    }
  }

  lemma AllCarry<E>(s: State<E>, bus: nat, e: E)
    requires forall t | t in AllPending(s, bus) :: s.threads[t].event == e
    ensures Pending(s, bus, e) == AllPending(s, bus)
    ensures forall f | f != e :: Pending(s, bus, f) == {}
  {
    assert forall f :: Pending(s, bus, f) <= AllPending(s, bus);
  }

  lemma NothingIn<E>(tail: seq<E>)
    requires forall e :: multiset(tail)[e] == 0
    ensures tail == []
  {
    SameCounts(multiset(tail), multiset{});
    assert |multiset(tail)| == |tail|;
  }

  lemma OnlyOne<E>(tail: seq<E>, e: E)
    requires forall f | f != e :: multiset(tail)[f] == 0
    ensures |tail| == multiset(tail)[e] && forall i | 0 <= i < |tail| :: tail[i] == e
  {
    forall i | 0 <= i < |tail|
      ensures tail[i] == e
    {
      assert tail[i] in multiset(tail);
    }
    AllSame(tail, e);
  }

  lemma {:induction false} AllSame<E>(tail: seq<E>, e: E)
    requires forall i | 0 <= i < |tail| :: tail[i] == e
    ensures multiset(tail)[e] == |tail|
  {
    if tail != [] {
      AllSame(tail[..|tail| - 1], e);
      assert tail == tail[..|tail| - 1] + [e];
    }
  }

  lemma {:induction false} CountOfOrder(order: seq<nat>)
    requires NoneTwice(order)
    ensures |Members(order)| == |order|
  {
    if order != [] {
      var n := |order| - 1;
      CountOfOrder(order[..n]);
      OneMoreMember(order[..n], order[n]);
      assert order == order[..n] + [order[n]];
    }
  }

  /**
   From any state of any run: the global bus is certain to end with an instance's events in the
   instance's order exactly when it has them in order so far and the publishers still on their
   way all carry the same event.
   */
  lemma OrderCertainIff<E>(actions: seq<Action<E>>, bus: nat)
    ensures var s := Run(actions);
            OrderCertain(s, bus) <==> From(s.global.log, bus) <= Log(s, bus) && PendingAlike(s, bus)
  {
    hide From, Log, Run, Conserved;
    var s := Run(actions);
    if OrderCertain(s, bus) {
      CertainIsPrefix(s, bus);
      forall t, u | t in AllPending(s, bus) && u in AllPending(s, bus)
        ensures s.threads[t].event == s.threads[u].event
      {
        CertainIsAlike(s, bus, t, u);
      }
    }
    if From(s.global.log, bus) <= Log(s, bus) && PendingAlike(s, bus) {
      forall e
        ensures Conserved(s, bus, e)
      {
        RunConserves(actions, bus, e);
      }
      forall order | OrderOf(order, s, bus)
        ensures From(ForwardAll(s, order).global.log, bus) == Log(s, bus)
      {
        AlikeIsCertain(s, bus, order);
      }
    }
  }
}
