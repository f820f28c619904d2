/**
 The connection object of the plugin bridge. Each method is one critical section, or a
 critical section and the sends that follow it, and is proved to take the steps of RpcConn.
 */
module RpcClient {
  import opened RpcConn

  class Conn {
    var nextID: nat
    /** The registered requests; `slots` holds their channels, which outlive the registration. */
    var pending: set<nat>
    var slots: map<nat, seq<Message>>
    var closed: bool

    /** The fields are those of the protocol state `s`. */
    ghost predicate Shows(s: State)
      reads this
    {
      nextID == s.nextID && pending == s.pending && slots == s.slots && closed == s.closed
    }

    constructor ()
      ensures Shows(START)
    {
      nextID, pending, slots, closed := 0, {}, map[], false;
    }

    /** Registers a request; 0 is the answer of a closed connection. */
    method Register(ghost s: State) returns (id: nat)
      requires Shows(s)
      modifies this
      ensures Shows(Step(s, Call))
      ensures id == if s.closed then 0 else s.nextID + 1
    {
      if closed {
        return 0;
      }
      nextID := nextID + 1;
      id := nextID;
      slots := slots[id := []];
      pending := pending + {id};
    }

    /** The request failed to be written, or its context is done. */
    method Abandon(id: nat, ghost s: State)
      requires Shows(s) && At(s, id, Leaving)
      modifies this`pending
      ensures Shows(Step(s, Leave(id)))
    {
      pending := pending - {id};
    }

    method Send(msg: Message)
      requires msg.id in slots && slots[msg.id] == []
      modifies this`slots
      ensures slots == old(slots)[msg.id := [msg]]
    {
      slots := slots[msg.id := slots[msg.id] + [msg]];
      assert old(slots)[msg.id] + [msg] == [msg];
    }

    /** A response of the host goes to the channel it is for, if that is still registered. */
    method Deliver(id: nat, body: nat, ghost s: State)
      requires Shows(s) && Inv(s) && s.reader.Reading?
      modifies this
      ensures Shows(Step(Step(s, HostSends(id, body)), Push))
      ensures pending == old(pending) - {id}
      ensures slots == if id in old(pending) then old(slots)[id := [Answer(id, body)]] else old(slots)
    {
      hide OwnMessages, NoneForgotten, Closers;
      ghost var t := Step(s, HostSends(id, body));
      StepKeepsInv(s, HostSends(id, body));
      var ok := id in pending;
      if ok {
        pending := pending - {id};
      }
      assert Shows(t);
      if ok {
        assert InReadersHands(t, id);
        assert id !in t.sends;
        Send(Answer(id, body));
      }
    }

    /** Fails one of the entries the teardown has taken. */
    method FailEntry(id: nat, ghost s: State)
      requires Shows(s) && Inv(s) && s.reader.Failing? && id in s.reader.todo
      modifies this`slots
      ensures slots == old(slots)[id := [ClosedError(id)]]
      ensures var t := Step(s, FailOne(id));
              Shows(t) && Inv(t) && t.reader == Failing(s.reader.todo - {id})
    {
      hide OwnMessages, NoneForgotten, Closers;
      assert InReadersHands(s, id);
      assert id !in s.sends;
      Send(ClosedError(id));
      StepKeepsInv(s, FailOne(id));
    }

    /** Marks the connection closed and takes every entry. */
    method TakeAll(ghost s: State) returns (todo: set<nat>)
      requires Shows(s) && Inv(s) && s.reader.Reading?
      modifies this`closed, this`pending
      ensures closed && pending == {} && todo == old(pending) <= slots.Keys
      ensures var t := Step(s, StreamEnds);
              Shows(t) && Inv(t) && t.reader == Failing(todo)
    {
      hide OwnMessages, NoneForgotten, Closers, OneSender, SentOnce;
      StepKeepsInv(s, StreamEnds);
      closed := true;
      todo := pending;
      pending := {};
    }

    /** Fails every registered request, once. The steps taken are `steps`. */
    method Teardown(ghost s: State) returns (ghost steps: seq<Action>)
      requires Shows(s) && Inv(s) && s.reader.Reading?
      modifies this
      ensures Shows(RunFrom(s, steps)) && RunFrom(s, steps).reader.Finished?
      ensures closed && pending == {} && nextID == old(nextID)
      ensures slots == map id | id in old(slots) ::
                         if id in old(pending) then [ClosedError(id)] else old(slots)[id]
    {
      hide Inv, Step;
      var todo := TakeAll(s);
      ghost var t := Step(s, StreamEnds);
      steps := [StreamEnds];
      StepIsNext(s, [], StreamEnds);
      assert [] + [StreamEnds] == steps;
      while todo != {}
        invariant todo <= old(pending) <= slots.Keys && slots.Keys == old(slots).Keys
        invariant closed && pending == {} && nextID == old(nextID)
        invariant forall id | id in slots ::
                    slots[id] == if id in old(pending) - todo then [ClosedError(id)] else old(slots)[id]
        invariant Shows(t) && Inv(t) && t.reader == Failing(todo)
        invariant t == RunFrom(s, steps)
        decreases todo
      {
        var id :| id in todo;
        FailEntry(id, t);
        todo := todo - {id};
        StepIsNext(s, steps, FailOne(id));
        t, steps := Step(t, FailOne(id)), steps + [FailOne(id)];
      }
      StepIsNext(s, steps, Finish);
      FinishIsLast(t);
      steps := steps + [Finish];
    }
  }

  lemma FinishIsLast(s: State)
    requires s.reader == Failing({})
    ensures Step(s, Finish) == s.(reader := Finished)
  {
  }

  lemma StepIsNext(s: State, steps: seq<Action>, a: Action)
    ensures RunFrom(s, steps + [a]) == Step(RunFrom(s, steps), a)
  {
    assert (steps + [a])[..|steps|] == steps;
  }
}
