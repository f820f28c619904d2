/**
 Which message every call of the plugin bridge comes back with, told by the actions of a run:
 the first response that finds its request registered, or else the error of the teardown.
 */
module RpcDelivery {
  import opened RpcConn

  datatype Option<T> = None | Some(value: T)

  /** The read loop gets a response for a registered request. */
  predicate Takes(s: State, id: nat) {
    s.reader.Reading? && id in s.pending
  }

  /** The body of the first response that finds the request of `id` registered. */
  function FirstAnswer(actions: seq<Action>, id: nat): Option<nat> {
    if actions == [] then None
    else
      var before, a := actions[..|actions| - 1], actions[|actions| - 1];
      if FirstAnswer(before, id).Some? then FirstAnswer(before, id)
      else if a.HostSends? && a.id == id && Takes(Run(before), id) then Some(a.body)
      else None
  }

  /** What the caller of `id` is owed. */
  function Owed(answer: Option<nat>, id: nat): Message {
    if answer.Some? then Answer(id, answer.value) else ClosedError(id)
  }

  /** Its message, wherever it is, is the one it is owed. */
  predicate GetsOwed(s: State, id: nat, answer: Option<nat>) {
    && (s.reader.Delivering? && s.reader.msg.id == id ==> answer.Some? && s.reader.msg == Owed(answer, id))
    && (s.reader.Failing? && id in s.reader.todo ==> answer.None?)
    && (id in s.slots && s.slots[id] != [] ==> s.slots[id] == [Owed(answer, id)])
    && (id in s.callers && s.callers[id].Returned? ==> s.callers[id].got == Owed(answer, id))
  }

  /** It is registered from its call to its answer, its leaving or the close. */
  predicate Registered(s: State, id: nat, answer: Option<nat>) {
    && (id in s.pending <==> id in s.callers && s.callers[id] != Left && answer.None? && !s.closed)
    && (id in s.callers && s.callers[id].Returned? && answer.None? ==> s.closed)
    && (id in s.slots && s.slots[id] != [] && answer.None? ==> s.closed)
    && (answer.Some? ==> id in s.callers)
  }

  predicate Settled(s: State, id: nat, answer: Option<nat>) {
    GetsOwed(s, id, answer) && Registered(s, id, answer)
  }

  /** The answer after one more action. */
  function Later(s: State, a: Action, id: nat, answer: Option<nat>): Option<nat> {
    if answer.Some? then answer
    else if a.HostSends? && a.id == id && Takes(s, id) then Some(a.body)
    else None
  }

  lemma GetsOwedInStep(s: State, a: Action, id: nat, answer: Option<nat>)
    requires Ids(s) && ClosedByReader(s) && Settled(s, id, answer) && Enabled(s, a)
    ensures GetsOwed(Apply(s, a), id, Later(s, a, id, answer))
  {
    match a
    case Call =>
    case WriteDone(_, _) =>
    case Cancel(_) =>
    case Receive(_) =>
    case Leave(_) =>
    case HostSends(_, _) =>
    case Push =>
    case StreamEnds =>
    case FailOne(_) =>
    case Finish =>
    case CloseBegins =>
    case CloseReturns(_) =>
  }

  lemma RegisteredInStep(s: State, a: Action, id: nat, answer: Option<nat>)
    requires Ids(s) && ClosedByReader(s) && Settled(s, id, answer) && Enabled(s, a)
    ensures Registered(Apply(s, a), id, Later(s, a, id, answer))
  {
    match a
    case Call =>
    case WriteDone(_, _) =>
    case Cancel(_) =>
    case Receive(_) =>
    case Leave(_) =>
    case HostSends(_, _) =>
    case Push =>
    case StreamEnds =>
    case FailOne(_) =>
    case Finish =>
    case CloseBegins =>
    case CloseReturns(_) =>
  }

  lemma {:induction false} SettledInRun(actions: seq<Action>, id: nat)
    ensures Settled(Run(actions), id, FirstAnswer(actions, id))
  {
    if actions != [] {
      hide Settled, Apply, Enabled, Ids, ClosedByReader, OneSender, SentOnce, OwnMessages, NoneForgotten, Closers;
      var before, a := actions[..|actions| - 1], actions[|actions| - 1];
      var s := Run(before);
      SettledInRun(before, id);
      RunKeepsInv(before);
      assert FirstAnswer(actions, id) == if Enabled(s, a) then Later(s, a, id, FirstAnswer(before, id))
                                         else FirstAnswer(before, id) by {
        if a.HostSends? && Takes(s, a.id) {
          AnswerNeedsReading(s, a);
        }
      }
      if Enabled(s, a) {
        GetsOwedInStep(s, a, id, FirstAnswer(before, id));
        RegisteredInStep(s, a, id, FirstAnswer(before, id));
        assert Settled(Apply(s, a), id, FirstAnswer(actions, id)) by {
          hide *;
          BothSettle(Apply(s, a), id, FirstAnswer(actions, id));
        }
      }
    }
  }

  lemma BothSettle(s: State, id: nat, answer: Option<nat>)
    requires GetsOwed(s, id, answer) && Registered(s, id, answer)
    ensures Settled(s, id, answer)
  {
  }

  lemma AnswerNeedsReading(s: State, a: Action)
    requires a.HostSends? && Takes(s, a.id)
    ensures Enabled(s, a)
  {
  }

  // ---------------------------------------------------------------------------
  // What callers get
  // ---------------------------------------------------------------------------

  /**
   A call comes back with the first response that finds its request registered, and with the
   error of the teardown exactly if there was none.
   */
  lemma ReturnsWhatItIsOwed(actions: seq<Action>, id: nat)
    requires id in Run(actions).callers && Run(actions).callers[id].Returned?
    ensures Run(actions).callers[id].got == match FirstAnswer(actions, id)
                                            case Some(body) => Answer(id, body)
                                            case None => ClosedError(id)
  {
    hide Run, FirstAnswer, Registered;
    SettledInRun(actions, id);
  }

  /** A request is registered exactly from its call to its answer, its caller's leaving, or the close. */
  lemma RegisteredIff(actions: seq<Action>, id: nat)
    ensures var s := Run(actions);
            id in s.pending <==>
              id in s.callers && s.callers[id] != Left && FirstAnswer(actions, id).None? && !s.closed
  {
    hide Run, FirstAnswer, GetsOwed;
    SettledInRun(actions, id);
  }

  lemma OneFewer(first: seq<Action>, later: seq<Action>)
    requires later != []
    ensures var n := |later| - 1;
            && (first + later)[..|first + later| - 1] == first + later[..n]
            && (first + later)[|first + later| - 1] == later[n]
  {
  }

  lemma {:induction false} FirstAnswerStays(first: seq<Action>, later: seq<Action>, id: nat)
    requires FirstAnswer(first, id).Some?
    ensures FirstAnswer(first + later, id) == FirstAnswer(first, id)
  {
    if later == [] {
      assert first + later == first;
    } else {
      OneFewer(first, later);
      FirstAnswerStays(first, later[..|later| - 1], id);
    }
  }

  /**
   A response for a registered request reaches its caller, however the run goes on: the caller
   returns with it, or finds it in its channel, or the read loop is about to send it.
   */
  lemma AnswerArrives(first: seq<Action>, id: nat, body: nat, later: seq<Action>)
    requires Run(first).reader.Reading? && id in Run(first).pending
    ensures var t := Run(first + [HostSends(id, body)] + later);
            && id in t.callers
            && match t.callers[id]
               case Returned(got) => got == Answer(id, body)
               case Waiting => || (Enabled(t, Receive(id)) && t.slots[id] == [Answer(id, body)])
                               || (Enabled(t, Push) && t.reader == Delivering(Answer(id, body)))
               case _ => true
  {
    var sent := first + [HostSends(id, body)];
    assert sent[..|first|] == first;
    SettledInRun(first, id);
    assert FirstAnswer(sent, id) == Some(body) by {
      hide Run;
    }
    FirstAnswerStays(sent, later, id);
    SettledInRun(sent + later, id);
    SendsNeverBlock(sent + later);
    RunKeepsInv(sent + later);
    hide Run, FirstAnswer, Ids, SentOnce, OneSender, ClosedByReader, OwnMessages, Closers;
  }

  /** The shortest way: the host sends, the read loop delivers, the caller returns. */
  lemma AnswerReturns(actions: seq<Action>, id: nat, body: nat)
    requires Run(actions).reader.Reading? && id in Run(actions).pending && At(Run(actions), id, Waiting)
    ensures var s := Step(Step(Step(Run(actions), HostSends(id, body)), Push), Receive(id));
            && At(s, id, Returned(Answer(id, body))) && s.reader.Reading?
            && id !in s.pending && s.pending == Run(actions).pending - {id}
  {
    RunKeepsInv(actions);
    hide Run, OwnMessages, Closers;
    var s := Run(actions);
    assert s.slots[id] == [];
    var t := Step(s, HostSends(id, body));
    assert t.reader == Delivering(Answer(id, body)) && t.pending == s.pending - {id};
    var u := Step(t, Push);
    assert u.slots[id] == [Answer(id, body)] && u.reader.Reading?;
  }

  // ---------------------------------------------------------------------------
  // Who leaves, and when the connection closes
  // ---------------------------------------------------------------------------

  lemma OneMore(actions: seq<Action>, a: Action)
    ensures Run(actions + [a]) == Step(Run(actions), a)
  {
    assert (actions + [a])[..|actions|] == actions;
  }

  lemma LeftInStep(s: State, a: Action, id: nat)
    requires Ids(s) && At(s, id, Left)
    ensures At(Step(s, a), id, Left)
  {
  }

  lemma {:induction false} LeftStays(first: seq<Action>, later: seq<Action>, id: nat)
    requires At(Run(first), id, Left)
    ensures At(Run(first + later), id, Left) && id !in Run(first + later).pending
  {
    hide Run, Step, Ids, ClosedByReader, OneSender, SentOnce, OwnMessages, NoneForgotten, Closers;
    if later == [] {
      assert first + later == first;
    } else {
      var before := first + later[..|later| - 1];
      assert first + later == before + [later[|later| - 1]];
      OneMore(before, later[|later| - 1]);
      LeftStays(first, later[..|later| - 1], id);
      RunKeepsInv(before);
      LeftInStep(Run(before), later[|later| - 1], id);
    }
    RegisteredIff(first + later, id);
  }

  /** A call whose write fails, or whose context is done, leaves and is registered no more, for good. */
  lemma CallLeaves(actions: seq<Action>, id: nat, a: Action, later: seq<Action>)
    requires a == WriteDone(id, false) || a == Cancel(id)
    requires Enabled(Run(actions), a)
    ensures var t := Run(actions + [a] + [Leave(id)] + later);
            At(t, id, Left) && id !in t.pending
  {
    OneMore(actions, a);
    OneMore(actions + [a], Leave(id));
    hide Run;
    assert At(Step(Step(Run(actions), a), Leave(id)), id, Left);
    LeftStays(actions + [a] + [Leave(id)], later, id);
  }

  /** The stream has ended while the read loop was reading. */
  ghost predicate StreamEnded(actions: seq<Action>) {
    exists k: nat :: k < |actions| && actions[k] == StreamEnds && Run(actions[..k]).reader.Reading?
  }

  lemma ClosedInStep(s: State, a: Action)
    requires ClosedByReader(s)
    ensures Step(s, a).closed <==> s.closed || (a.StreamEnds? && s.reader.Reading?)
  {
  }

  /** The connection is closed exactly if its stream has ended. */
  lemma {:induction false} ClosedIff(actions: seq<Action>)
    ensures Run(actions).closed <==> StreamEnded(actions)
  {
    if actions != [] {
      hide Step, Ids, ClosedByReader, OneSender, SentOnce, OwnMessages, NoneForgotten, Closers;
      var n := |actions| - 1;
      ClosedIff(actions[..n]);
      RunKeepsInv(actions[..n]);
      ClosedInStep(Run(actions[..n]), actions[n]);
      hide Run, Inv;
      assert forall k | 0 <= k <= n :: actions[..n][..k] == actions[..k];
      if StreamEnded(actions[..n]) {
        var k: nat :| k < n && actions[..n][k] == StreamEnds && Run(actions[..n][..k]).reader.Reading?;
        assert Run(actions[..k]).reader.Reading?;
      }
    }
  }
}
