/**
 The single flight and the credential store as an object. Each method is proved to take the
 steps of OAuthRefresh.
 */
module OAuthAccess {
  import opened OAuthRefresh
  import opened OAuthOutcomes

  class Service {
    /** What OPENCODE_AUTH_CONTENT holds, if it is set. */
    const env: Option<Store>
    /** The credential file. */
    var store: Store
    /** The single flight: the calls under way, and the results of those that are over. */
    var calls: map<Provider, Flight>
    var results: map<Flight, Outcome>
    var nextFlight: Flight

    /** The fields are those of the protocol state `s`. */
    ghost predicate Shows(s: State)
      reads this
    {
      env == s.env && store == s.store && calls == s.calls && results == s.results && nextFlight == s.nextFlight
    }

    constructor (content: Option<Store>)
      ensures env == content && Shows(Start(content))
    {
      env := content;
      store, calls, results, nextFlight := map[], map[], map[], 0;
    }

    /** The credentials as they are read. */
    function Load(): (all: Store)
      reads this
    {
      if env.Some? then env.value else store
    }

    /** Joins the flight of `p`, or starts one. */
    method Enter(t: Tid, p: Provider, ghost s: State) returns (leads: bool, f: Flight)
      requires Shows(s) && Enabled(s, Do(t)) && s.threads[t].p == p
      modifies this`calls, this`nextFlight
      ensures Shows(Step(s, Do(t)))
      ensures Step(s, Do(t)).threads[t] == if leads then Leads(p, f, s.threads[t].seen) else Joined(p, f)
    {
      if p in calls {
        return false, calls[p];
      }
      f := nextFlight;
      nextFlight := f + 1;
      calls := calls[p := f];
      leads := true;
    }

    /** Forgets the flight, then gives its outcome to those who wait for it. */
    method Leave(t: Tid, p: Provider, f: Flight, out: Outcome, ghost s: State)
      requires Shows(s) && t in s.threads && s.threads[t] == Releases(p, f, out)
      modifies this`calls, this`results
      ensures Shows(Step(Step(s, Release(t)), Announce(t)))
      ensures Step(Step(s, Release(t)), Announce(t)).threads[t] == Led(f, out)
    {
      calls := calls - {p};
      results := results[f := out];
    }

    /** Exchanges the token `r` and stores what the server grants. */
    method ExchangeAndStore(t: Tid, p: Provider, f: Flight, r: Token, reply: Exchange, minted: Token, written: bool,
                            ghost s: State)
      returns (out: Outcome)
      requires Shows(s) && t in s.threads && s.threads[t] == Exchanges(p, f, r) && minted == s.nextToken
      modifies this`store
      ensures var u := Step(Step(s, Present(t, reply)), Persist(t, written));
              Shows(u) && t in u.threads && u.threads[t] == Releases(p, f, out)
      ensures reply.Granted? && written ==> out == Access(reply.access) && p in store && store[p].access == reply.access
      ensures !reply.Granted? || !written ==> store == old(store) && !out.Access?
    {
      ghost var s1 := Step(s, Present(t, reply));
      match reply
      case Rejected => out := NeedsReauth;
      case ReplyLost => out := NeedsReauth;
      case Crashed => out := Panicked;
      case Granted(access, rotates, expires, jwtExp) =>
        var refresh := if rotates then minted else r;
        assert s1.threads[t] == Persists(p, f, r, Record(access, Some(refresh), expires, jwtExp));
        assert Shows(s1);
        if written {
          store := Load()[p := Record(access, Some(refresh), expires, jwtExp)];
          out := Access(access);
        } else {
          out := PersistFailed;
        }
    }

    /**
     The function a flight runs: reads the record again, and exchanges and stores the token
     if that is still due. `reply` and `written` are what the server and the store do.
     */
    method Refresh(t: Tid, p: Provider, f: Flight, now: int, reply: Exchange, minted: Token, written: bool,
                   ghost s: State)
      returns (out: Outcome)
      requires Shows(s) && t in s.threads && s.threads[t].Leads? && s.threads[t].p == p && s.threads[t].f == f
      requires minted == s.nextToken
      modifies this`store
      ensures var u := Step(Step(Step(s, Reread(t, now)), Present(t, reply)), Persist(t, written));
              Shows(u) && t in u.threads && u.threads[t] == Releases(p, f, out)
      ensures Settled(old(Load()), p, now).Some? ==> out == Settled(old(Load()), p, now).value && store == old(store)
      ensures Settled(old(Load()), p, now).None? && reply.Granted? && written ==>
                out == Access(reply.access) && p in store && store[p].access == reply.access
    {
      ghost var u := Step(s, Reread(t, now));
      AfterReread(s, t, now);
      match Decide(Load(), p, now)
      case Return(o) =>
        NothingToDo(u, t, reply, written);
        out := o;
      case RefreshWith(r) =>
        hide Step;
        out := ExchangeAndStore(t, p, f, r, reply, minted, written, u);
    }
  }

  lemma AfterReread(s: State, t: Tid, now: int)
    requires Enabled(s, Reread(t, now))
    ensures var c, u := s.threads[t], Step(s, Reread(t, now));
            && u.env == s.env && u.store == s.store && u.calls == s.calls
            && u.results == s.results && u.nextFlight == s.nextFlight
            && u.nextToken == s.nextToken && t in u.threads
            && u.threads[t] == match Decide(Visible(s), c.p, now)
                               case Return(out) => Releases(c.p, c.f, out)
                               case RefreshWith(r) => Exchanges(c.p, c.f, r)
  {
  }

  lemma NothingToDo(s: State, t: Tid, reply: Exchange, written: bool)
    requires t in s.threads && s.threads[t].Releases?
    ensures Step(Step(s, Present(t, reply)), Persist(t, written)) == s
  {
  }
}
