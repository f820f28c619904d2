/**
 Which token or error every caller of Access comes back with, and what is stored, told by the
 actions of a run: the records that were read, the replies of the server and the writes.
 */
module OAuthOutcomes {
  import opened OAuthRefresh

  /** Two minutes from `now` the token is still good, as far as its record says. */
  predicate Good(r: Record, now: int) {
    r.expires != 0 && r.expires > now + 120_000 && (r.jwtExp.Some? ==> r.jwtExp.value > now + 120_000)
  }

  /** What a record that was read settles by itself. */
  function Settled(all: Store, p: Provider, now: int): Option<Outcome> {
    if p !in all then Some(NoToken)
    else if Good(all[p], now) then Some(Access(all[p].access))
    else if all[p].refresh.None? then Some(NeedsReauth)
    else None
  }

  /** A reply that ends the refresh, with what it comes to. */
  function Refused(x: Exchange): Option<Outcome> {
    match x
    case Rejected => Some(NeedsReauth)
    case ReplyLost => Some(NeedsReauth)
    case Crashed => Some(Panicked)
    case Granted(_, _, _, _) => None
  }

  /** What the server granted `t`, last. */
  function Grant(env: Option<Store>, actions: seq<Action>, t: Tid): Option<Exchange> {
    if actions == [] then None
    else
      var before, a := actions[..|actions| - 1], actions[|actions| - 1];
      if a.Present? && a.t == t && a.x.Granted? && Enabled(Run(env, before), a) then Some(a.x)
      else Grant(env, before, t)
  }

  /** What an action of `t` settles, if anything: by what is read, replied or written. */
  function SettledBy(s: State, a: Action, t: Tid, grant: Option<Exchange>): Option<Outcome> {
    if !Enabled(s, a) then None
    else
      match a
      case Call(u, p, now) => if u == t then Settled(Visible(s), p, now) else None
      case Reread(u, now) => if u == t then Settled(Visible(s), s.threads[t].p, now) else None
      case Present(u, x) => if u == t then Refused(x) else None
      case Persist(u, ok) =>
        if u != t then None
        else if ok && grant.Some? && grant.value.Granted? then Some(Access(grant.value.access))
        else Some(PersistFailed)
      case _ => None
  }

  /** What the call `t` comes to, as soon as that is settled. */
  function Verdict(env: Option<Store>, actions: seq<Action>, t: Tid): Option<Outcome> {
    if actions == [] then None
    else
      var before, a := actions[..|actions| - 1], actions[|actions| - 1];
      if Verdict(env, before, t).Some? then Verdict(env, before, t)
      else SettledBy(Run(env, before), a, t, Grant(env, before, t))
  }

  /** The record to be written is what was granted, with the token presented if none came back. */
  predicate IsGranted(rec: Record, x: Exchange, presented: Token) {
    && x.Granted? && rec.access == x.access && rec.expires == x.expires && rec.jwtExp == x.jwtExp
    && rec.refresh.Some? && (!x.rotates ==> rec.refresh.value == presented)
  }

  /** The call is where what it read and was told has brought it. */
  predicate Follows(s: State, t: Tid, grant: Option<Exchange>, verdict: Option<Outcome>) {
    if t !in s.threads then verdict.None?
    else
      match s.threads[t]
      case Direct(out) => verdict == Some(out)
      case Releases(_, _, out) => verdict == Some(out)
      case Announces(_, out) => verdict == Some(out)
      case Led(_, out) => verdict == Some(out)
      case Persists(_, _, r, rec) => verdict.None? && grant.Some? && IsGranted(rec, grant.value, r)
      case _ => verdict.None?
  }

  function NextGrant(s: State, a: Action, t: Tid, grant: Option<Exchange>): Option<Exchange> {
    if a.Present? && a.t == t && a.x.Granted? && Enabled(s, a) then Some(a.x) else grant
  }

  function NextVerdict(s: State, a: Action, t: Tid, grant: Option<Exchange>, verdict: Option<Outcome>): Option<Outcome>
  {
    if verdict.Some? then verdict else SettledBy(s, a, t, grant)
  }

  lemma CallFollows(s: State, a: Action, t: Tid, grant: Option<Exchange>, verdict: Option<Outcome>)
    requires Follows(s, t, grant, verdict) && a.Call? && Enabled(s, a)
    ensures Follows(CallStep(s, a.t, a.p, a.now), t, grant, NextVerdict(s, a, t, grant, verdict))
  {
    hide Visible;
  }

  lemma RereadFollows(s: State, a: Action, t: Tid, grant: Option<Exchange>, verdict: Option<Outcome>)
    requires Follows(s, t, grant, verdict) && a.Reread? && Enabled(s, a)
    ensures Follows(RereadStep(s, a.t, a.now), t, grant, NextVerdict(s, a, t, grant, verdict))
  {
    hide Visible;
  }

  lemma PresentFollows(s: State, a: Action, t: Tid, grant: Option<Exchange>, verdict: Option<Outcome>)
    requires Follows(s, t, grant, verdict) && a.Present? && Enabled(s, a)
    ensures Follows(PresentStep(s, a.t, a.x), t, NextGrant(s, a, t, grant), NextVerdict(s, a, t, grant, verdict))
  {
    if a.x.Granted? {
    } else if a.x.Rejected? {
    }
  }

  lemma PersistFollows(s: State, a: Action, t: Tid, grant: Option<Exchange>, verdict: Option<Outcome>)
    requires Follows(s, t, grant, verdict) && a.Persist? && Enabled(s, a)
    ensures Follows(PersistStep(s, a.t, a.ok), t, grant, NextVerdict(s, a, t, grant, verdict))
  {
    hide Visible;
    if a.t != t {
    } else if a.ok {
    }
  }

  lemma OtherFollows(s: State, a: Action, t: Tid, grant: Option<Exchange>, verdict: Option<Outcome>)
    requires Follows(s, t, grant, verdict) && Enabled(s, a)
    requires a.Do? || a.Release? || a.Announce? || a.Wake? || a.SignIn? || a.SignOut?
    ensures Follows(Apply(s, a), t, grant, NextVerdict(s, a, t, grant, verdict))
  {
    hide Visible;
    if a.Do? {
      if s.threads[a.t].p in s.calls {
      }
    } else if a.Release? {
    } else if a.Announce? {
    } else if a.Wake? {
    } else if a.SignIn? {
    }
  }

  lemma FollowsInStep(s: State, a: Action, t: Tid, grant: Option<Exchange>, verdict: Option<Outcome>)
    requires Follows(s, t, grant, verdict)
    ensures Follows(Step(s, a), t, NextGrant(s, a, t, grant), NextVerdict(s, a, t, grant, verdict))
  {
    hide Follows, CallStep, RereadStep, PresentStep, PersistStep;
    if Enabled(s, a) {
      if a.Present? {
        PresentFollows(s, a, t, grant, verdict);
      } else if a.Call? {
        CallFollows(s, a, t, grant, verdict);
      } else if a.Reread? {
        RereadFollows(s, a, t, grant, verdict);
      } else if a.Persist? {
        PersistFollows(s, a, t, grant, verdict);
      } else {
        OtherFollows(s, a, t, grant, verdict);
      }
    }
  }

  lemma {:induction false} FollowsInRun(env: Option<Store>, actions: seq<Action>, t: Tid)
    ensures Follows(Run(env, actions), t, Grant(env, actions, t), Verdict(env, actions, t))
  {
    if actions != [] {
      var before, a := actions[..|actions| - 1], actions[|actions| - 1];
      FollowsInRun(env, before, t);
      hide Follows, Step, Enabled, SettledBy;
      FollowsInStep(Run(env, before), a, t, Grant(env, before, t), Verdict(env, before, t));
    }
  }

  // ---------------------------------------------------------------------------
  // What callers come back with
  // ---------------------------------------------------------------------------

  /**
   A call that ends by itself, or leads a flight to its end, comes back with what the record it
   read, the server's reply and the write settled first.
   */
  lemma OutcomeIsVerdict(env: Option<Store>, actions: seq<Action>, t: Tid)
    requires t in Run(env, actions).threads
    requires Run(env, actions).threads[t].Direct? || Run(env, actions).threads[t].Led?
    ensures Verdict(env, actions, t) == Some(Run(env, actions).threads[t].out)
  {
    hide Run, Verdict, Grant;
    FollowsInRun(env, actions, t);
  }

  lemma OneMoreAction(env: Option<Store>, actions: seq<Action>, a: Action)
    ensures Run(env, actions + [a]) == Step(Run(env, actions), a)
  {
    OneMore(Start(env), actions, a);
  }

  lemma CallCases(s: State, t: Tid, p: Provider, now: int)
    requires t !in s.threads
    ensures var u, all := Step(s, Call(t, p, now)), Visible(s);
            && t in u.threads && u == s.(threads := s.threads[t := u.threads[t]])
            && (u.threads[t] == Direct(NoToken) <==> p !in all)
            && (u.threads[t].Direct? && u.threads[t].out.Access? <==> p in all && Good(all[p], now))
            && (p in all && Good(all[p], now) ==> u.threads[t] == Direct(Access(all[p].access)))
            && (u.threads[t] == Direct(NeedsReauth) <==> p in all && !Good(all[p], now) && all[p].refresh.None?)
            && (p in all && !Good(all[p], now) && all[p].refresh.Some? ==>
                  u.threads[t] == AtDo(p, all[p].refresh.value))
  {
    hide Visible;
  }

  /**
   A call comes back at once with the stored token exactly if that is still good for two minutes,
   without one exactly if none is stored, and with an error exactly if the stored one is due and
   cannot be refreshed; otherwise it goes on with the refresh token it read.
   */
  lemma CallAnswers(env: Option<Store>, actions: seq<Action>, t: Tid, p: Provider, now: int)
    requires t !in Run(env, actions).threads
    ensures var s, u := Run(env, actions), Run(env, actions + [Call(t, p, now)]);
            var all := Visible(s);
            && t in u.threads && u == s.(threads := s.threads[t := u.threads[t]])
            && (u.threads[t] == Direct(NoToken) <==> p !in all)
            && (u.threads[t].Direct? && u.threads[t].out.Access? <==> p in all && Good(all[p], now))
            && (p in all && Good(all[p], now) ==> u.threads[t] == Direct(Access(all[p].access)))
            && (u.threads[t] == Direct(NeedsReauth) <==> p in all && !Good(all[p], now) && all[p].refresh.None?)
            && (p in all && !Good(all[p], now) && all[p].refresh.Some? ==>
                  u.threads[t] == AtDo(p, all[p].refresh.value))
  {
    OneMoreAction(env, actions, Call(t, p, now));
    hide Run, Step, Visible, Good;
    CallCases(Run(env, actions), t, p, now);
  }

  /** The call `u` runs a flight of `p`. */
  predicate LeadsFlight(s: State, u: Tid, p: Provider) {
    u in s.threads && InFlight(s.threads[u]) && s.threads[u].p == p
  }

  lemma DoCases(s: State, t: Tid)
    requires Enabled(s, Do(t))
    ensures var u, p := Step(s, Do(t)), s.threads[t].p;
            && t in u.threads && u.threads == s.threads[t := u.threads[t]]
            && u.store == s.store && u.results == s.results
            && u.threads[t] == if p in s.calls then Joined(p, s.calls[p]) else Leads(p, s.nextFlight, s.threads[t].seen)
  {
    if s.threads[t].p in s.calls {
    }
  }

  lemma FlightsHaveLeaders(s: State, p: Provider)
    requires Flights(s)
    ensures p in s.calls <==> exists u :: LeadsFlight(s, u, p)
    ensures forall u | LeadsFlight(s, u, p) :: p in s.calls && s.calls[p] == s.threads[u].f
  {
    if p in s.calls {
      assert LeadsFlight(s, s.leaders[s.calls[p]], p);
    }
  }

  /** A call that has to refresh joins the flight that somebody leads for its provider, and leads one otherwise. */
  lemma JoinsIff(env: Option<Store>, actions: seq<Action>, t: Tid)
    requires Enabled(Run(env, actions), Do(t))
    ensures var s, u := Run(env, actions), Run(env, actions + [Do(t)]);
            var p := s.threads[t].p;
            && t in u.threads && u.threads == s.threads[t := u.threads[t]]
            && (u.threads[t].Joined? <==> exists v :: LeadsFlight(s, v, p))
            && (forall v | LeadsFlight(s, v, p) :: u.threads[t] == Joined(p, s.threads[v].f))
            && (!u.threads[t].Joined? ==> u.threads[t] == Leads(p, s.nextFlight, s.threads[t].seen)
                                          && s.nextFlight !in s.leaders)
  {
    OneMoreAction(env, actions, Do(t));
    RunKeepsInv(env, actions);
    var s := Run(env, actions);
    FlightsHaveLeaders(s, s.threads[t].p);
    assert s.nextFlight !in s.leaders;
    hide Run, Step, Flights, Waiters, Tokens, LeadsFlight;
    DoCases(s, t);
  }

  // ---------------------------------------------------------------------------
  // What waiters come back with
  // ---------------------------------------------------------------------------

  /** The result of every flight is what its leader's call came to. */
  ghost predicate ResultsAreVerdicts(env: Option<Store>, actions: seq<Action>) {
    var s := Run(env, actions);
    forall f | f in s.results :: f in s.leaders && Verdict(env, actions, s.leaders[f]) == Some(s.results[f])
  }

  lemma ResultsInStep(s: State, a: Action)
    requires Enabled(s, a)
    ensures Apply(s, a).results ==
            if a.Announce? then s.results[s.threads[a.t].f := s.threads[a.t].out] else s.results
  {
    hide Visible, Decide;
    if a.Do? {
      if s.threads[a.t].p in s.calls {
      }
    } else if a.Present? {
      if a.x.Granted? {
      } else if a.x.Rejected? {
      }
    } else if a.Persist? {
    } else if a.Call? || a.Reread? {
    } else if a.Announce? {
    }
  }

  lemma LeadersInStep(s: State, a: Action)
    requires Enabled(s, a) && !a.Do?
    ensures Apply(s, a).leaders == s.leaders
  {
    hide Visible, Decide;
    if a.Present? {
      if a.x.Granted? {
      } else if a.x.Rejected? {
      }
    } else if a.Persist? {
    } else if a.Call? || a.Reread? {
    }
  }

  lemma LeadersStay(s: State, a: Action, f: Flight)
    requires Flights(s) && f in s.leaders
    ensures f in Step(s, a).leaders && Step(s, a).leaders[f] == s.leaders[f]
  {
    hide Visible, Decide;
    if a.Do? {
      if Enabled(s, a) && s.threads[a.t].p in s.calls {
      }
    } else if Enabled(s, a) {
      LeadersInStep(s, a);
      hide Flights, Apply;
    }
  }

  lemma VerdictStays(env: Option<Store>, before: seq<Action>, a: Action, t: Tid)
    requires Verdict(env, before, t).Some?
    ensures Verdict(env, before + [a], t) == Verdict(env, before, t)
  {
    assert (before + [a])[..|before|] == before;
  }

  lemma AnnouncerLeads(s: State, t: Tid)
    requires Flights(s) && t in s.threads && s.threads[t].Announces?
    ensures s.threads[t].f in s.leaders && s.leaders[s.threads[t].f] == t
  {
  }

  lemma AnnouncerKnows(env: Option<Store>, actions: seq<Action>, t: Tid)
    requires t in Run(env, actions).threads && Run(env, actions).threads[t].Announces?
    ensures Verdict(env, actions, t) == Some(Run(env, actions).threads[t].out)
  {
    hide Run, Verdict, Grant;
    FollowsInRun(env, actions, t);
  }

  lemma {:induction false} ResultsHold(env: Option<Store>, actions: seq<Action>)
    ensures ResultsAreVerdicts(env, actions)
  {
    if actions != [] {
      var before, a := actions[..|actions| - 1], actions[|actions| - 1];
      var s, u := Run(env, before), Run(env, actions);
      ResultsHold(env, before);
      RunKeepsInv(env, before);
      assert actions == before + [a];
      OneMoreAction(env, before, a);
      if Enabled(s, a) {
        ResultsInStep(s, a);
      }
      assert u.results == if a.Announce? && Enabled(s, a)
                          then s.results[s.threads[a.t].f := s.threads[a.t].out] else s.results by {
        hide Apply;
      }
      hide Run, Step, Verdict, Waiters, Tokens;
      forall f | f in u.results
        ensures f in u.leaders && Verdict(env, actions, u.leaders[f]) == Some(u.results[f])
      {
        hide Flights;
        if f in s.results && u.results[f] == s.results[f] {
          LeadersStay(s, a, f);
          VerdictStays(env, before, a, s.leaders[f]);
        } else {
          AnnouncerLeads(s, a.t);
          LeadersStay(s, a, f);
          AnnouncerKnows(env, before, a.t);
          VerdictStays(env, before, a, a.t);
        }
      }
    }
  }

  /** A call that waited for a flight comes back with what the flight's leader came to. */
  lemma WaiterGetsVerdict(env: Option<Store>, actions: seq<Action>, t: Tid)
    requires t in Run(env, actions).threads && Run(env, actions).threads[t].Shared?
    ensures var s, f := Run(env, actions), Run(env, actions).threads[t].f;
            f in s.leaders && Verdict(env, actions, s.leaders[f]) == Some(s.threads[t].out)
  {
    ResultsHold(env, actions);
    RunKeepsInv(env, actions);
    hide Run, Verdict, Flights, Tokens;
  }

  // ---------------------------------------------------------------------------
  // What is stored
  // ---------------------------------------------------------------------------

  lemma PersistWrites(s: State, t: Tid, ok: bool)
    requires Enabled(s, Persist(t, ok))
    ensures var u := Step(s, Persist(t, ok));
            && u.store == (if ok then Visible(s)[s.threads[t].p := s.threads[t].rec] else s.store)
            && t in u.threads && u.threads == s.threads[t := u.threads[t]]
  {
    hide Visible;
  }

  /**
   A write that succeeds stores what the server granted, with the token that was presented if it
   sent none back, and leaves the other credentials as they are read.
   */
  lemma StoredIsGranted(env: Option<Store>, actions: seq<Action>, t: Tid, ok: bool)
    requires Enabled(Run(env, actions), Persist(t, ok))
    ensures var s, u := Run(env, actions), Run(env, actions + [Persist(t, ok)]);
            var p, grant := s.threads[t].p, Grant(env, actions, t);
            if ok then
              && p in u.store && u.store == Visible(s)[p := u.store[p]]
              && grant.Some? && IsGranted(u.store[p], grant.value, s.threads[t].r)
              && t in u.threads && u.threads[t] == Releases(p, s.threads[t].f, Access(grant.value.access))
            else u.store == s.store && t in u.threads && u.threads[t] == Releases(p, s.threads[t].f, PersistFailed)
  {
    OneMoreAction(env, actions, Persist(t, ok));
    FollowsInRun(env, actions, t);
    hide Run, Grant, Verdict, Visible;
    PersistWrites(Run(env, actions), t, ok);
  }

  /** Signing in stores the credential with a token nobody had, and signing out removes it; the others stay. */
  lemma SignInStores(env: Option<Store>, actions: seq<Action>, p: Provider, access: Token, expires: int,
                     jwtExp: Option<int>)
    ensures var s, u := Run(env, actions), Run(env, actions + [SignIn(p, access, expires, jwtExp)]);
            && u.store == Visible(s)[p := Record(access, Some(s.nextToken), expires, jwtExp)]
            && u.nextToken > s.nextToken && u.threads == s.threads && u.used == s.used
    ensures var s, u := Run(env, actions), Run(env, actions + [SignOut(p)]);
            && u.store == Visible(s) - {p} && u.threads == s.threads && u.used == s.used
  {
    OneMoreAction(env, actions, SignIn(p, access, expires, jwtExp));
    OneMoreAction(env, actions, SignOut(p));
    hide Run, Visible;
  }

  /** Presenting a token uses it up unless it is rejected, and is a replay exactly if it was used up before. */
  lemma PresentUses(env: Option<Store>, actions: seq<Action>, t: Tid, x: Exchange)
    requires Enabled(Run(env, actions), Present(t, x))
    ensures var s, u := Run(env, actions), Run(env, actions + [Present(t, x)]);
            var token := (s.threads[t].p, s.threads[t].r);
            && (forall y :: y in u.used <==> y in s.used || (y == token && !x.Rejected?))
            && (u.replayed <==> s.replayed || token in s.used)
            && u.store == s.store
  {
    OneMoreAction(env, actions, Present(t, x));
    hide Run, Visible;
    if x.Granted? {
    } else if x.Rejected? {
    }
  }
}
