/**
 The JSON-RPC multiplexer of the plugin bridge as a step system: any number of callers, one
 read loop that delivers responses and finally tears the connection down, and callers of
 Close. One step is one critical section, or one operation on a caller's channel.
 */
module RpcConn {

  /** What a caller can be sent: the host's response to its request, or the error of the teardown. */
  datatype Message = Answer(id: nat, body: nat) | ClosedError(id: nat)

  datatype Caller =
    | Writing
    | Waiting
    | Leaving            // its write failed or its context is done; it has not removed its entry yet
    | Left
    | Returned(got: Message)

  datatype Reader =
    | Reading
    | Delivering(msg: Message)   // the entry is removed, the message is not sent yet
    | Failing(todo: set<nat>)    // the teardown has taken these entries
    | Finished

  /** A call of Close: what it found, and whether it returned. */
  datatype Closer = Closer(already: bool, returned: bool)

  /**
   `nextID`, `pending` and `closed` are guarded by the mutex; `slots` are the channels, each
   of capacity one. `wire` is every response the host sent; `sends` counts the messages ever
   sent on each channel.
   */
  datatype State = State(
    nextID: nat, pending: set<nat>, closed: bool, slots: map<nat, seq<Message>>,
    callers: map<nat, Caller>, reader: Reader, closers: seq<Closer>,
    wire: set<Message>, sends: multiset<nat>)

  datatype Action =
    | Call
    | WriteDone(id: nat, ok: bool)
    | Cancel(id: nat)
    | Receive(id: nat)
    | Leave(id: nat)
    | HostSends(id: nat, body: nat)
    | Push
    | StreamEnds
    | FailOne(id: nat)
    | Finish
    | CloseBegins
    | CloseReturns(i: nat)

  predicate At(s: State, id: nat, c: Caller) {
    id in s.callers && s.callers[id] == c
  }

  /** A send on a full channel blocks, so the step is possible only while there is room. */
  predicate HasRoom(s: State, id: nat) {
    id in s.slots && s.slots[id] == []
  }

  predicate Enabled(s: State, a: Action) {
    match a
    case Call => !s.closed
    case WriteDone(id, ok) => At(s, id, Writing)
    case Cancel(id) => At(s, id, Waiting)
    case Receive(id) => At(s, id, Waiting) && id in s.slots && s.slots[id] != []
    case Leave(id) => At(s, id, Leaving)
    case HostSends(id, body) => s.reader.Reading?
    case Push => s.reader.Delivering? && HasRoom(s, s.reader.msg.id)
    case StreamEnds => s.reader.Reading? && !s.closed
    case FailOne(id) => s.reader.Failing? && id in s.reader.todo && HasRoom(s, id)
    case Finish => s.reader == Failing({})
    case CloseBegins => true
    case CloseReturns(i) =>
      i < |s.closers| && !s.closers[i].returned && (s.closers[i].already || s.reader.Finished?)
  }

  function SendOn(s: State, msg: Message): State {
    s.(slots := s.slots[msg.id := [msg]], sends := s.sends + multiset{msg.id})
  }

  function Apply(s: State, a: Action): State
    requires Enabled(s, a)
  {
    match a
    case Call =>
      var id := s.nextID + 1;
      s.(nextID := id, pending := s.pending + {id}, slots := s.slots[id := []], callers := s.callers[id := Writing])
    case WriteDone(id, ok) => s.(callers := s.callers[id := if ok then Waiting else Leaving])
    case Cancel(id) => s.(callers := s.callers[id := Leaving])
    case Receive(id) => s.(slots := s.slots[id := []], callers := s.callers[id := Returned(s.slots[id][0])])
    case Leave(id) => s.(pending := s.pending - {id}, callers := s.callers[id := Left])
    case HostSends(id, body) =>
      var t := s.(wire := s.wire + {Answer(id, body)});
      if id in s.pending then t.(pending := s.pending - {id}, reader := Delivering(Answer(id, body))) else t
    case Push => SendOn(s, s.reader.msg).(reader := Reading)
    case StreamEnds => s.(closed := true, pending := {}, reader := Failing(s.pending))
    case FailOne(id) => SendOn(s, ClosedError(id)).(reader := Failing(s.reader.todo - {id}))
    case Finish => s.(reader := Finished)
    case CloseBegins => s.(closers := s.closers + [Closer(s.closed, false)])
    case CloseReturns(i) => s.(closers := s.closers[i := s.closers[i].(returned := true)])
  }

  /** A step that is not possible does nothing. */
  function Step(s: State, a: Action): State {
    if Enabled(s, a) then Apply(s, a) else s
  }

  const START := State(0, {}, false, map[], map[], Reading, [], {}, multiset{})

  function RunFrom(s: State, actions: seq<Action>): State {
    if actions == [] then s
    else Step(RunFrom(s, actions[..|actions| - 1]), actions[|actions| - 1])
  }

  /** The state after any interleaving of callers, read loop and teardown. */
  function Run(actions: seq<Action>): State {
    RunFrom(START, actions)
  }

  // ---------------------------------------------------------------------------
  // The invariant
  // ---------------------------------------------------------------------------

  /** The read loop has taken the entry of `id` and not sent to it yet. */
  predicate InReadersHands(s: State, id: nat) {
    || (s.reader.Delivering? && s.reader.msg.id == id)
    || (s.reader.Failing? && id in s.reader.todo)
  }

  /** Ids are handed out in order, each with its own channel. */
  ghost predicate Ids(s: State) {
    && (forall id :: id in s.callers <==> 1 <= id <= s.nextID)
    && s.slots.Keys == s.callers.Keys
    && s.pending <= s.callers.Keys
    && (s.reader.Delivering? ==> s.reader.msg.id in s.callers)
    && (s.reader.Failing? ==> s.reader.todo <= s.callers.Keys)
  }

  /** Nobody is sent to twice. */
  ghost predicate SentOnce(s: State) {
    && (forall id :: s.sends[id] <= 1)
    && (forall id | id in s.slots && s.slots[id] != [] :: id in s.sends)
  }

  /** The right to send to a caller is in one place: its entry, the read loop's hands, or used up. */
  ghost predicate OneSender(s: State) {
    && (forall id | id in s.sends :: id in s.callers && id !in s.pending && !InReadersHands(s, id))
    && (forall id | id in s.pending :: !InReadersHands(s, id))
  }

  predicate ClosedByReader(s: State) {
    && (s.closed <==> s.reader.Failing? || s.reader.Finished?)
    && (s.closed ==> s.pending == {})
  }

  predicate Authentic(s: State, id: nat, m: Message) {
    m.id == id && (m.Answer? ==> m in s.wire) && (m.ClosedError? ==> s.closed)
  }

  /** A caller only ever sees a message for its own id, which the host sent or the teardown made. */
  ghost predicate OwnMessages(s: State) {
    OwnSlots(s) && OwnReturns(s) && (s.reader.Delivering? ==> Authentic(s, s.reader.msg.id, s.reader.msg))
  }

  ghost predicate OwnSlots(s: State) {
    forall id | id in s.slots :: |s.slots[id]| <= 1 && forall m | m in s.slots[id] :: Authentic(s, id, m)
  }

  predicate OwnReturns(s: State) {
    forall id | id in s.callers && s.callers[id].Returned? :: Authentic(s, id, s.callers[id].got)
  }

  /** A caller that still wants its answer has it, or someone is going to send to it. */
  predicate NoneForgotten(s: State) {
    forall id | id in s.callers && (s.callers[id].Writing? || s.callers[id].Waiting?) ::
      id in s.pending || InReadersHands(s, id) || (id in s.slots && s.slots[id] != [])
  }

  predicate Closers(s: State) {
    forall i | 0 <= i < |s.closers| :: s.closers[i].returned ==> s.closers[i].already || s.reader.Finished?
  }

  ghost predicate Inv(s: State) {
    && Ids(s) && ClosedByReader(s) && OneSender(s) && SentOnce(s)
    && OwnMessages(s) && NoneForgotten(s) && Closers(s)
  }

  lemma IdsKept(s: State, a: Action)
    requires Ids(s) && Enabled(s, a)
    ensures Ids(Apply(s, a))
  {
    match a
    case Call =>
    case WriteDone(_, _) =>
    case Cancel(_) =>
    case Receive(_) =>
    case Leave(_) =>
    case HostSends(_, _) =>
    case Push =>
    case StreamEnds =>
    case FailOne(_) =>
    case Finish =>
    case CloseBegins =>
    case CloseReturns(_) =>
  }

  lemma ClosedByReaderKept(s: State, a: Action)
    requires ClosedByReader(s) && Enabled(s, a)
    ensures ClosedByReader(Apply(s, a))
  {
  }

  /** Sending uses the right to send up. */
  lemma OneSenderKeptBySend(s: State, a: Action)
    requires Ids(s) && OneSender(s) && Enabled(s, a)
    requires a.Push? || a.FailOne?
    ensures OneSender(Apply(s, a))
  {
  }

  lemma OneSenderKept(s: State, a: Action)
    requires Ids(s) && ClosedByReader(s) && OneSender(s) && Enabled(s, a)
    ensures OneSender(Apply(s, a))
  {
    if a.Push? || a.FailOne? {
      OneSenderKeptBySend(s, a);
    } else {
      assert Apply(s, a).sends == s.sends;
    }
  }

  lemma SentOnceKeptBySend(s: State, a: Action)
    requires OneSender(s) && SentOnce(s) && Enabled(s, a)
    requires a.Push? || a.FailOne?
    ensures SentOnce(Apply(s, a))
  {
    var id := if a.Push? then s.reader.msg.id else a.id;
    assert InReadersHands(s, id);
    assert id !in s.sends;
  }

  lemma SentOnceKept(s: State, a: Action)
    requires OneSender(s) && SentOnce(s) && Enabled(s, a)
    ensures SentOnce(Apply(s, a))
  {
    if a.Push? || a.FailOne? {
      SentOnceKeptBySend(s, a);
    } else {
      hide OneSender;
      assert Apply(s, a).sends == s.sends;
    }
  }

  lemma OwnSlotsKept(s: State, a: Action)
    requires ClosedByReader(s) && OwnMessages(s) && Enabled(s, a)
    ensures OwnSlots(Apply(s, a))
  {
    hide OwnReturns;
    match a
    case Call =>
    case WriteDone(_, _) =>
    case Cancel(_) =>
    case Receive(_) =>
    case Leave(_) =>
    case HostSends(_, _) =>
    case Push =>
    case StreamEnds =>
    case FailOne(_) =>
    case Finish =>
    case CloseBegins =>
    case CloseReturns(_) =>
  }

  lemma OwnReturnsKept(s: State, a: Action)
    requires OwnMessages(s) && Enabled(s, a)
    ensures OwnReturns(Apply(s, a))
  {
    match a
    case Call =>
    case WriteDone(_, _) =>
    case Cancel(_) =>
    case Receive(id) =>
      assert s.slots[id][0] in s.slots[id];
    case Leave(_) =>
    case HostSends(_, _) =>
    case Push =>
    case StreamEnds =>
    case FailOne(_) =>
    case Finish =>
    case CloseBegins =>
    case CloseReturns(_) =>
  }

  lemma OwnMessagesKept(s: State, a: Action)
    requires Ids(s) && ClosedByReader(s) && OwnMessages(s) && Enabled(s, a)
    ensures OwnMessages(Apply(s, a))
  {
    OwnSlotsKept(s, a);
    OwnReturnsKept(s, a);
    hide OwnSlots, OwnReturns, Ids;
  }

  lemma NoneForgottenKept(s: State, a: Action)
    requires Ids(s) && NoneForgotten(s) && Enabled(s, a)
    ensures NoneForgotten(Apply(s, a))
  {
    match a
    case Call =>
    case WriteDone(_, _) =>
    case Cancel(_) =>
    case Receive(_) =>
    case Leave(_) =>
    case HostSends(_, _) =>
    case Push =>
    case StreamEnds =>
    case FailOne(_) =>
    case Finish =>
    case CloseBegins =>
    case CloseReturns(_) =>
  }

  lemma ClosersKept(s: State, a: Action)
    requires Closers(s) && Enabled(s, a)
    ensures Closers(Apply(s, a))
  {
  }

  lemma StepKeepsInv(s: State, a: Action)
    requires Inv(s)
    ensures Inv(Step(s, a))
  {
    hide Ids, ClosedByReader, OneSender, SentOnce, OwnMessages, NoneForgotten, Closers, Apply, Enabled;
    if Enabled(s, a) {
      IdsKept(s, a);
      ClosedByReaderKept(s, a);
      OneSenderKept(s, a);
      SentOnceKept(s, a);
      OwnMessagesKept(s, a);
      NoneForgottenKept(s, a);
      ClosersKept(s, a);
    }
  }

  lemma {:induction false} RunKeepsInv(actions: seq<Action>)
    ensures Inv(Run(actions))
  {
    hide Inv, Step;
    if actions == [] {
      StartInv();
    } else {
      RunKeepsInv(actions[..|actions| - 1]);
      StepKeepsInv(Run(actions[..|actions| - 1]), actions[|actions| - 1]);
    }
  }

  lemma StartInv()
    ensures Inv(START)
  {
  }

  // ---------------------------------------------------------------------------
  // What callers can rely on
  // ---------------------------------------------------------------------------

  /** Whatever a caller gets is for its own id, and a response among it was sent by the host. */
  lemma AnswersReachTheirCaller(actions: seq<Action>, id: nat)
    requires id in Run(actions).callers && Run(actions).callers[id].Returned?
    ensures var s := Run(actions);
            s.callers[id].got.id == id && (s.callers[id].got.Answer? ==> s.callers[id].got in s.wire)
  {
    hide Run, Ids, OneSender, SentOnce, ClosedByReader, NoneForgotten, Closers;
    RunKeepsInv(actions);
  }

  /** The channel of every caller is sent to at most once, so a send never finds it full. */
  lemma SendsNeverBlock(actions: seq<Action>)
    ensures var s := Run(actions);
            && (forall id :: s.sends[id] <= 1)
            && (s.reader.Delivering? ==> Enabled(s, Push))
            && (s.reader.Failing? ==> forall id | id in s.reader.todo :: Enabled(s, FailOne(id)))
            && (s.reader == Failing({}) ==> Enabled(s, Finish))
  {
    hide Run, NoneForgotten, Closers, OwnMessages;
    RunKeepsInv(actions);
    var s := Run(actions);
    assert forall id | InReadersHands(s, id) :: id in s.slots && id !in s.sends;
  }

  /** Once a caller was sent to, further responses with its id are dropped. */
  lemma SecondAnswerDropped(actions: seq<Action>, id: nat, body: nat)
    requires Run(actions).reader.Reading? && id in Run(actions).sends
    ensures Step(Run(actions), HostSends(id, body)) == Run(actions).(wire := Run(actions).wire + {Answer(id, body)})
  {
    hide Run, NoneForgotten, Closers, OwnMessages;
    RunKeepsInv(actions);
  }

  /** A new call gets an id nobody had before, and a channel of its own; none is accepted once closed. */
  lemma FreshIds(actions: seq<Action>)
    ensures var s, t := Run(actions), Step(Run(actions), Call);
            if s.closed then t == s
            else t.nextID !in s.callers && t.nextID !in s.slots && t.callers.Keys == s.callers.Keys + {t.nextID}
  {
    hide Run, NoneForgotten, Closers, OwnMessages, OneSender, SentOnce;
    RunKeepsInv(actions);
  }

  lemma StepAfterClose(s: State, a: Action)
    requires Inv(s) && s.closed
    ensures var t := Step(s, a);
            t.closed && t.nextID == s.nextID && t.callers.Keys == s.callers.Keys
            && (s.reader.Finished? ==> t.reader.Finished?)
  {
    hide NoneForgotten, Closers, OwnMessages, OneSender, SentOnce;
  }

  lemma {:induction false} RunAfterClose(s: State, more: seq<Action>)
    requires Inv(s) && s.closed
    ensures var t := RunFrom(s, more);
            Inv(t) && t.closed && t.nextID == s.nextID && t.callers.Keys == s.callers.Keys
            && (s.reader.Finished? ==> t.reader.Finished?)
  {
    hide Inv, Step;
    if more != [] {
      RunAfterClose(s, more[..|more| - 1]);
      StepAfterClose(RunFrom(s, more[..|more| - 1]), more[|more| - 1]);
      StepKeepsInv(RunFrom(s, more[..|more| - 1]), more[|more| - 1]);
    }
  }

  lemma {:induction false} RunInParts(first: seq<Action>, second: seq<Action>)
    ensures Run(first + second) == RunFrom(Run(first), second)
  {
    hide Step;
    if second == [] {
      assert first + second == first;
    } else {
      var all := first + second;
      assert all[..|all| - 1] == first + second[..|second| - 1];
      RunInParts(first, second[..|second| - 1]);
    }
  }

  /** No call registers after the close, in any continuation. */
  lemma NothingRegistersAfterClose(actions: seq<Action>, more: seq<Action>)
    requires Run(actions).closed
    ensures var s, t := Run(actions), Run(actions + more);
            t.closed && t.callers.Keys == s.callers.Keys && t.pending == {}
  {
    hide Run, Step, NoneForgotten, Closers, OwnMessages, OneSender, SentOnce, Ids;
    RunKeepsInv(actions);
    RunInParts(actions, more);
    RunAfterClose(Run(actions), more);
    RunKeepsInv(actions + more);
  }

  /** When the teardown is done, every call has left, has returned, or has a message to return with. */
  lemma NobodyWaitsForEver(actions: seq<Action>, id: nat)
    requires Run(actions).reader.Finished? && id in Run(actions).callers
    ensures var s := Run(actions);
            match s.callers[id]
            case Waiting => Enabled(s, Receive(id)) && Authentic(s, id, s.slots[id][0])
            case Writing => id in s.slots && s.slots[id] != []
            case _ => true
  {
    hide Run, Closers, OneSender, SentOnce;
    RunKeepsInv(actions);
    var s := Run(actions);
    if s.slots[id] != [] {
      assert s.slots[id][0] in s.slots[id];
    }
  }

  // ---------------------------------------------------------------------------
  // Close
  // ---------------------------------------------------------------------------

  predicate ClosersGrow(s: State, t: State) {
    |s.closers| <= |t.closers| && forall i | 0 <= i < |s.closers| :: t.closers[i].already == s.closers[i].already
  }

  lemma ClosersStayInStep(s: State, a: Action)
    ensures ClosersGrow(s, Step(s, a))
  {
  }

  lemma {:induction false} ClosersStay(s: State, more: seq<Action>)
    ensures ClosersGrow(s, RunFrom(s, more))
  {
    hide Step;
    if more != [] {
      ClosersStay(s, more[..|more| - 1]);
      ClosersStayInStep(RunFrom(s, more[..|more| - 1]), more[|more| - 1]);
    }
  }

  /** However the run goes on, the next call of Close returns only after the teardown is done. */
  ghost predicate CloseDrains(actions: seq<Action>) {
    forall more ::
      var t, i := Run(actions + [CloseBegins] + more), |Run(actions).closers|;
      i < |t.closers| && t.closers[i].returned ==> t.reader.Finished?
  }

  /**
   A caller of Close can rely on the pending requests being drained exactly when it does
   not come while the teardown is under way: then it returns at once.
   */
  lemma CloseDrainsIff(actions: seq<Action>)
    ensures CloseDrains(actions) <==> !Run(actions).closed || Run(actions).reader.Finished?
  {
    hide Run, Step, Inv;
    var s, begun := Run(actions), actions + [CloseBegins];
    var i := |s.closers|;
    RunKeepsInv(actions);
    OneMore(actions, CloseBegins);
    BeginOfClose(s);
    if !s.closed || s.reader.Finished? {
      forall more ensures var t := Run(begun + more); i < |t.closers| && t.closers[i].returned ==> t.reader.Finished? {
        RunInParts(begun, more);
        ClosersStay(Run(begun), more);
        RunKeepsInv(begun);
        RunKeepsInv(begun + more);
        var t := Run(begun + more);
        if s.closed {
          RunAfterClose(Run(begun), more);
        } else if t.closers[i].returned {
          ReturnedCloser(t, i);
        }
      }
    } else {
      OneMore(begun, CloseReturns(i));
      EarlyReturn(Run(begun), i);
      assert Run(actions + [CloseBegins] + [CloseReturns(i)]).closers[i].returned;
    }
  }

  /** A stream that has ended, its teardown under way: Close returns at once. */
  lemma CloseDuringTeardown()
    ensures !CloseDrains([StreamEnds])
  {
    CloseDrainsIff([StreamEnds]);
    assert [StreamEnds][..0] == [];
    assert Run([StreamEnds]) == Step(START, StreamEnds);
  }

  lemma OneMore(actions: seq<Action>, a: Action)
    ensures Run(actions + [a]) == Step(Run(actions), a)
  {
    assert (actions + [a])[..|actions|] == actions;
  }

  lemma BeginOfClose(s: State)
    ensures Step(s, CloseBegins) == s.(closers := s.closers + [Closer(s.closed, false)])
  {
  }

  lemma ReturnedCloser(s: State, i: nat)
    requires Inv(s) && i < |s.closers| && s.closers[i].returned && !s.closers[i].already
    ensures s.reader.Finished?
  {
  }

  lemma EarlyReturn(s: State, i: nat)
    requires i < |s.closers| && s.closers[i] == Closer(true, false)
    ensures var t := Step(s, CloseReturns(i));
            t.reader == s.reader && i < |t.closers| && t.closers[i].returned
  {
  }
}
