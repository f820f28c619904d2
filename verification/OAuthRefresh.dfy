/**
 Access to a refreshable OAuth token as a step system: any number of callers of Access, the
 single flight that refreshes, sign-ins and sign-outs meanwhile, and an authorization server
 that may rotate refresh tokens (section 6 of RFC 6749). One step is one read or write of
 the credential store, one critical section of the flight, or one exchange with the server.
 */
module OAuthRefresh {

  type Provider = nat
  type Tid = nat      // a call of Access
  type Flight = nat
  type Token = nat

  datatype Option<T> = None | Some(value: T)

  const REFRESH_SKEW_MILLIS: int := 120_000

  /** A stored credential; `expires` 0 means unknown, `jwtExp` is the claim of a token that has one. */
  datatype Record = Record(access: Token, refresh: Option<Token>, expires: int, jwtExp: Option<int>)

  predicate NeedsRefresh(r: Record, now: int) {
    || r.expires == 0
    || r.expires <= now + REFRESH_SKEW_MILLIS
    || (r.jwtExp.Some? && r.jwtExp.value <= now + REFRESH_SKEW_MILLIS)
  }

  type Store = map<Provider, Record>

  datatype Outcome = Access(token: Token) | NoToken | NeedsReauth | PersistFailed | Panicked

  /** What the exchange of a refresh token comes to. Only a rejected token is not used up. */
  datatype Exchange =
    | Rejected
    | ReplyLost
    | Granted(access: Token, rotates: bool, expires: int, jwtExp: Option<int>)
    | Crashed

  datatype Thread =
    | AtDo(p: Provider, seen: Token)              // it decided to refresh on what it read
    | Leads(p: Provider, f: Flight, seen: Token)  // it runs the flight and has not read again yet
    | Exchanges(p: Provider, f: Flight, r: Token)
    | Persists(p: Provider, f: Flight, r: Token, rec: Record)
    | Releases(p: Provider, f: Flight, out: Outcome)
    | Announces(f: Flight, out: Outcome)          // released, the waiters are not woken yet
    | Joined(p: Provider, f: Flight)
    | Direct(out: Outcome)
    | Led(f: Flight, out: Outcome)
    | Shared(f: Flight, out: Outcome)

  /**
   `store` is the credential file and `env` the content of OPENCODE_AUTH_CONTENT, where that is
   set; `calls` are the flights under way, `results` the flights whose waiters were woken. The
   rest is history: who leads a flight, the tokens used up at the server, whether a used-up
   token was ever presented again, and whether something keeps a used-up token to be read.
   */
  datatype State = State(
    env: Option<Store>, store: Store, calls: map<Provider, Flight>, results: map<Flight, Outcome>,
    nextFlight: Flight, threads: map<Tid, Thread>, nextToken: Token,
    leaders: map<Flight, Tid>, used: set<(Provider, Token)>, replayed: bool, spoiled: bool)

  datatype Action =
    | Call(t: Tid, p: Provider, now: int)
    | Do(t: Tid)
    | Reread(t: Tid, now: int)
    | Present(t: Tid, x: Exchange)
    | Persist(t: Tid, ok: bool)
    | Release(t: Tid)
    | Announce(t: Tid)
    | Wake(t: Tid)
    | SignIn(p: Provider, access: Token, expires: int, jwtExp: Option<int>)
    | SignOut(p: Provider)

  predicate Enabled(s: State, a: Action) {
    match a
    case Call(t, p, now) => t !in s.threads
    case Do(t) => t in s.threads && s.threads[t].AtDo?
    case Reread(t, now) => t in s.threads && s.threads[t].Leads?
    case Present(t, x) => t in s.threads && s.threads[t].Exchanges?
    case Persist(t, ok) => t in s.threads && s.threads[t].Persists?
    case Release(t) => t in s.threads && s.threads[t].Releases?
    case Announce(t) => t in s.threads && s.threads[t].Announces?
    case Wake(t) => t in s.threads && s.threads[t].Joined? && s.threads[t].f in s.results
    case SignIn(p, access, expires, jwtExp) => true
    case SignOut(p) => true
  }

  /** What a caller does with the record it read: an outcome at once, or the token to refresh with. */
  datatype Decision = Return(out: Outcome) | RefreshWith(r: Token)

  function Decide(store: Store, p: Provider, now: int): Decision {
    if p !in store then Return(NoToken)
    else if !NeedsRefresh(store[p], now) then Return(Access(store[p].access))
    else if store[p].refresh.None? then Return(NeedsReauth)
    else RefreshWith(store[p].refresh.value)
  }

  /** Reads see the environment's content where it is set; writes go to the file all the same. */
  function Visible(s: State): Store {
    if s.env.Some? then s.env.value else s.store
  }

  /** The environment stays what it was. */
  predicate Keeps(s: State, t: State) {
    t.env == s.env
  }

  function CallStep(s: State, t: Tid, p: Provider, now: int): (next: State)
    ensures Keeps(s, next)
  {
    s.(threads := s.threads[t := match Decide(Visible(s), p, now)
                                 case Return(out) => Direct(out)
                                 case RefreshWith(r) => AtDo(p, r)])
  }

  function DoStep(s: State, t: Tid): (next: State)
    requires Enabled(s, Do(t))
    ensures Keeps(s, next)
  {
    var AtDo(p, seen) := s.threads[t];
    if p in s.calls then s.(threads := s.threads[t := Joined(p, s.calls[p])])
    else
      var f := s.nextFlight;
      s.(calls := s.calls[p := f], nextFlight := f + 1, leaders := s.leaders[f := t],
         threads := s.threads[t := Leads(p, f, seen)])
  }

  /** The decision is taken again, on the record as it is now. */
  function RereadStep(s: State, t: Tid, now: int): (next: State)
    requires Enabled(s, Reread(t, now))
    ensures Keeps(s, next)
  {
    var Leads(p, f, seen) := s.threads[t];
    s.(threads := s.threads[t := match Decide(Visible(s), p, now)
                                 case Return(out) => Releases(p, f, out)
                                 case RefreshWith(r) => Exchanges(p, f, r)])
  }

  function PresentStep(s: State, t: Tid, x: Exchange): (next: State)
    requires Enabled(s, Present(t, x))
    ensures Keeps(s, next)
  {
    var Exchanges(p, f, r) := s.threads[t];
    var u := s.(replayed := s.replayed || (p, r) in s.used);
    match x
    case Rejected => u.(threads := s.threads[t := Releases(p, f, NeedsReauth)])
    case ReplyLost =>
      u.(threads := s.threads[t := Releases(p, f, NeedsReauth)], used := s.used + {(p, r)}, spoiled := true)
    case Crashed =>
      u.(threads := s.threads[t := Releases(p, f, Panicked)], used := s.used + {(p, r)}, spoiled := true)
    case Granted(access, rotates, expires, jwtExp) =>
      // A reply without a refresh token keeps the old one.
      var kept := if rotates then s.nextToken else r;
      u.(threads := s.threads[t := Persists(p, f, r, Record(access, Some(kept), expires, jwtExp))],
         used := s.used + {(p, r)}, nextToken := s.nextToken + 1, spoiled := s.spoiled || !rotates)
  }

  function PersistStep(s: State, t: Tid, ok: bool): (next: State)
    requires Enabled(s, Persist(t, ok))
    ensures Keeps(s, next)
  {
    var Persists(p, f, r, rec) := s.threads[t];
    if ok then s.(store := Visible(s)[p := rec], threads := s.threads[t := Releases(p, f, Access(rec.access))])
    else s.(threads := s.threads[t := Releases(p, f, PersistFailed)], spoiled := true)
  }

  function ReleaseStep(s: State, t: Tid): (next: State)
    requires Enabled(s, Release(t))
    ensures Keeps(s, next)
  {
    var Releases(p, f, out) := s.threads[t];
    s.(calls := s.calls - {p}, threads := s.threads[t := Announces(f, out)])
  }

  function AnnounceStep(s: State, t: Tid): (next: State)
    requires Enabled(s, Announce(t))
    ensures Keeps(s, next)
  {
    var Announces(f, out) := s.threads[t];
    s.(results := s.results[f := out], threads := s.threads[t := Led(f, out)])
  }

  function WakeStep(s: State, t: Tid): (next: State)
    requires Enabled(s, Wake(t))
    ensures Keeps(s, next)
  {
    var f := s.threads[t].f;
    s.(threads := s.threads[t := Shared(f, s.results[f])])
  }

  function SignInStep(s: State, p: Provider, access: Token, expires: int, jwtExp: Option<int>): (next: State)
    ensures Keeps(s, next)
  {
    s.(store := Visible(s)[p := Record(access, Some(s.nextToken), expires, jwtExp)], nextToken := s.nextToken + 1)
  }

  function SignOutStep(s: State, p: Provider): (next: State)
    ensures Keeps(s, next)
  {
    s.(store := Visible(s) - {p})
  }

  function Apply(s: State, a: Action): State
    requires Enabled(s, a)
  {
    match a
    case Call(t, p, now) => CallStep(s, t, p, now)
    case Do(t) => DoStep(s, t)
    case Reread(t, now) => RereadStep(s, t, now)
    case Present(t, x) => PresentStep(s, t, x)
    case Persist(t, ok) => PersistStep(s, t, ok)
    case Release(t) => ReleaseStep(s, t)
    case Announce(t) => AnnounceStep(s, t)
    case Wake(t) => WakeStep(s, t)
    case SignIn(p, access, expires, jwtExp) => SignInStep(s, p, access, expires, jwtExp)
    case SignOut(p) => SignOutStep(s, p)
  }

  function Step(s: State, a: Action): State {
    if Enabled(s, a) then Apply(s, a) else s
  }

  /** Where the environment is set, what is read never changes, so a used-up token stays to be read. */
  function Start(env: Option<Store>): State {
    State(env, map[], map[], map[], 0, map[], 0, map[], {}, false, env.Some?)
  }

  function RunFrom(s: State, actions: seq<Action>): State {
    if actions == [] then s
    else Step(RunFrom(s, actions[..|actions| - 1]), actions[|actions| - 1])
  }

  function Run(env: Option<Store>, actions: seq<Action>): State {
    RunFrom(Start(env), actions)
  }

  // ---------------------------------------------------------------------------
  // The invariant
  // ---------------------------------------------------------------------------

  /** The thread is inside the function that the flight runs. */
  predicate InFlight(c: Thread) {
    c.Leads? || c.Exchanges? || c.Persists? || c.Releases?
  }

  /** Each flight under way has one leader, and each leader's flight is under way. */
  predicate Flights(s: State) {
    && (forall t | t in s.threads && InFlight(s.threads[t]) ::
          var c := s.threads[t];
          c.p in s.calls && s.calls[c.p] == c.f && c.f in s.leaders && s.leaders[c.f] == t)
    && (forall t | t in s.threads && s.threads[t].Announces? ::
          s.threads[t].f in s.leaders && s.leaders[s.threads[t].f] == t && s.threads[t].f !in s.results)
    && (forall p | p in s.calls ::
          var f := s.calls[p];
          && f in s.leaders && f !in s.results && s.leaders[f] in s.threads
          && InFlight(s.threads[s.leaders[f]])
          && s.threads[s.leaders[f]].p == p && s.threads[s.leaders[f]].f == f)
    && (forall f | f in s.leaders :: f < s.nextFlight)
    && (forall f | f in s.results :: f in s.leaders)
  }

  /** Every waiter waits for a flight whose result is there or will be announced, and got that result. */
  predicate Waiters(s: State) {
    forall t | t in s.threads ::
      match s.threads[t]
      case Joined(p, f) =>
        || f in s.results
        || (p in s.calls && s.calls[p] == f)
        || (f in s.leaders && s.leaders[f] in s.threads && s.threads[s.leaders[f]].Announces?
            && s.threads[s.leaders[f]].f == f)
      case Led(f, out) => f in s.results && s.results[f] == out
      case Shared(f, out) => f in s.results && s.results[f] == out
      case _ => true
  }

  /** The flight of `p` has used up the stored token and is about to replace it. */
  predicate Replacing(s: State, p: Provider, r: Token) {
    && p in s.calls && s.calls[p] in s.leaders && s.leaders[s.calls[p]] in s.threads
    && var c := s.threads[s.leaders[s.calls[p]]];
       c.Persists? && c.p == p && c.r == r
  }

  /** What is stored, or about to be stored or presented, is not used up. */
  predicate Fresh(s: State) {
    && s.env.None?
    && (forall x | x in s.used :: x.1 < s.nextToken)
    && (forall p | p in s.store && s.store[p].refresh.Some? ::
          var r := s.store[p].refresh.value;
          r < s.nextToken && ((p, r) in s.used ==> Replacing(s, p, r)))
    && (forall t | t in s.threads ::
          match s.threads[t]
          case Exchanges(p, f, r) => r < s.nextToken && (p, r) !in s.used
          case Persists(p, f, r, rec) =>
            rec.refresh.Some? && rec.refresh.value < s.nextToken && (p, rec.refresh.value) !in s.used
          case _ => true)
    && !s.replayed
  }

  predicate Tokens(s: State) {
    !s.spoiled ==> Fresh(s)
  }

  predicate Inv(s: State) {
    Flights(s) && Waiters(s) && Tokens(s)
  }

  lemma CallKeepsInv(s: State, t: Tid, p: Provider, now: int)
    requires Inv(s) && t !in s.threads
    ensures Inv(CallStep(s, t, p, now))
  {
  }

  /** A leader that moves on within its flight disturbs nobody. */
  lemma AdvanceKeepsFlights(s: State, u: State, t: Tid)
    requires Flights(s) && Waiters(s)
    requires t in s.threads && InFlight(s.threads[t]) && t in u.threads && InFlight(u.threads[t])
    requires u.threads[t].p == s.threads[t].p && u.threads[t].f == s.threads[t].f
    requires u.threads == s.threads[t := u.threads[t]]
    requires u.calls == s.calls && u.results == s.results && u.nextFlight == s.nextFlight && u.leaders == s.leaders
    ensures Flights(u) && Waiters(u)
  {
  }

  lemma JoinKeepsInv(s: State, t: Tid)
    requires Inv(s) && Enabled(s, Do(t)) && s.threads[t].p in s.calls
    ensures Inv(DoStep(s, t))
  {
  }

  lemma LeadKeepsFlights(s: State, t: Tid)
    requires Flights(s) && Enabled(s, Do(t)) && s.threads[t].p !in s.calls
    ensures Flights(DoStep(s, t))
  {
  }

  lemma LeadKeepsWaiters(s: State, t: Tid)
    requires Flights(s) && Waiters(s) && Enabled(s, Do(t)) && s.threads[t].p !in s.calls
    ensures Waiters(DoStep(s, t))
  {
  }

  lemma LeadKeepsTokens(s: State, t: Tid)
    requires Flights(s) && Tokens(s) && Enabled(s, Do(t)) && s.threads[t].p !in s.calls
    ensures Tokens(DoStep(s, t))
  {
  }

  lemma DoKeepsInv(s: State, t: Tid)
    requires Inv(s) && Enabled(s, Do(t))
    ensures Inv(DoStep(s, t))
  {
    hide Flights, Waiters, Tokens, DoStep;
    if s.threads[t].p in s.calls {
      JoinKeepsInv(s, t);
    } else {
      LeadKeepsFlights(s, t);
      LeadKeepsWaiters(s, t);
      LeadKeepsTokens(s, t);
    }
  }

  lemma RereadKeepsTokens(s: State, t: Tid, now: int)
    requires Flights(s) && Tokens(s) && Enabled(s, Reread(t, now))
    ensures Tokens(RereadStep(s, t, now))
  {
  }

  lemma PersistKeepsTokens(s: State, t: Tid, ok: bool)
    requires Flights(s) && Tokens(s) && Enabled(s, Persist(t, ok))
    ensures Tokens(PersistStep(s, t, ok))
  {
  }

  lemma RereadKeepsInv(s: State, t: Tid, now: int)
    requires Inv(s) && Enabled(s, Reread(t, now))
    ensures Inv(RereadStep(s, t, now))
  {
    RereadKeepsTokens(s, t, now);
    hide Flights, Waiters, Tokens;
    AdvanceKeepsFlights(s, RereadStep(s, t, now), t);
  }

  lemma PresentKeepsFlights(s: State, t: Tid, x: Exchange)
    requires Flights(s) && Waiters(s) && Enabled(s, Present(t, x))
    ensures Flights(PresentStep(s, t, x)) && Waiters(PresentStep(s, t, x))
  {
    hide Flights, Waiters;
    AdvanceKeepsFlights(s, PresentStep(s, t, x), t);
  }

  /** Only a granted token that rotates leaves the state unspoiled. */
  lemma GrantKeepsTokens(s: State, t: Tid, x: Exchange)
    requires Flights(s) && Tokens(s) && Enabled(s, Present(t, x)) && x.Granted?
    ensures Tokens(PresentStep(s, t, x))
  {
  }

  lemma PresentKeepsTokens(s: State, t: Tid, x: Exchange)
    requires Flights(s) && Tokens(s) && Enabled(s, Present(t, x))
    ensures Tokens(PresentStep(s, t, x))
  {
    if x.Granted? {
      GrantKeepsTokens(s, t, x);
    }
  }

  lemma PresentKeepsInv(s: State, t: Tid, x: Exchange)
    requires Inv(s) && Enabled(s, Present(t, x))
    ensures Inv(PresentStep(s, t, x))
  {
    hide Flights, Waiters, Tokens, PresentStep;
    PresentKeepsFlights(s, t, x);
    PresentKeepsTokens(s, t, x);
  }

  lemma PersistKeepsInv(s: State, t: Tid, ok: bool)
    requires Inv(s) && Enabled(s, Persist(t, ok))
    ensures Inv(PersistStep(s, t, ok))
  {
    PersistKeepsTokens(s, t, ok);
    hide Flights, Waiters, Tokens;
    AdvanceKeepsFlights(s, PersistStep(s, t, ok), t);
  }

  lemma ReleaseKeepsInv(s: State, t: Tid)
    requires Inv(s) && Enabled(s, Release(t))
    ensures Inv(ReleaseStep(s, t))
  {
    ReleaseKeepsTokens(s, t);
    ReleaseKeepsFlights(s, t);
    ReleaseKeepsWaiters(s, t);
    hide *;
    InvOf(ReleaseStep(s, t));
  }

  lemma InvOf(s: State)
    requires Flights(s) && Waiters(s) && Tokens(s)
    ensures Inv(s)
  {
    hide Flights, Waiters, Tokens;
  }

  lemma ReleaseKeepsTokens(s: State, t: Tid)
    requires Flights(s) && Tokens(s) && Enabled(s, Release(t))
    ensures Tokens(ReleaseStep(s, t))
  {
  }

  lemma ReleaseKeepsFlights(s: State, t: Tid)
    requires Flights(s) && Enabled(s, Release(t))
    ensures Flights(ReleaseStep(s, t))
  {
  }

  lemma ReleaseKeepsWaiters(s: State, t: Tid)
    requires Flights(s) && Waiters(s) && Enabled(s, Release(t))
    ensures Waiters(ReleaseStep(s, t))
  {
  }

  lemma AnnounceKeepsInv(s: State, t: Tid)
    requires Inv(s) && Enabled(s, Announce(t))
    ensures Inv(AnnounceStep(s, t))
  {
  }

  lemma WakeKeepsInv(s: State, t: Tid)
    requires Inv(s) && Enabled(s, Wake(t))
    ensures Inv(WakeStep(s, t))
  {
  }

  lemma SignInKeepsInv(s: State, p: Provider, access: Token, expires: int, jwtExp: Option<int>)
    requires Inv(s)
    ensures Inv(SignInStep(s, p, access, expires, jwtExp))
  {
    assert Flights(SignInStep(s, p, access, expires, jwtExp));
  }

  lemma SignOutKeepsInv(s: State, p: Provider)
    requires Inv(s)
    ensures Inv(SignOutStep(s, p))
  {
  }

  lemma StepKeepsInv(s: State, a: Action)
    requires Inv(s)
    ensures Inv(Step(s, a))
  {
    hide Inv, CallStep, DoStep, RereadStep, PresentStep, PersistStep, ReleaseStep, AnnounceStep, WakeStep, SignInStep;
    if Enabled(s, a) {
      match a
      case Call(t, p, now) => CallKeepsInv(s, t, p, now);
      case Do(t) => DoKeepsInv(s, t);
      case Reread(t, now) => RereadKeepsInv(s, t, now);
      case Present(t, x) => PresentKeepsInv(s, t, x);
      case Persist(t, ok) => PersistKeepsInv(s, t, ok);
      case Release(t) => ReleaseKeepsInv(s, t);
      case Announce(t) => AnnounceKeepsInv(s, t);
      case Wake(t) => WakeKeepsInv(s, t);
      case SignIn(p, access, expires, jwtExp) => SignInKeepsInv(s, p, access, expires, jwtExp);
      case SignOut(p) => SignOutKeepsInv(s, p);
    }
  }

  lemma {:induction false} RunKeepsInv(env: Option<Store>, actions: seq<Action>)
    ensures Inv(Run(env, actions))
  {
    hide Inv, Step;
    if actions == [] {
      StartInv(env);
    } else {
      RunKeepsInv(env, actions[..|actions| - 1]);
      StepKeepsInv(Run(env, actions[..|actions| - 1]), actions[|actions| - 1]);
    }
  }

  lemma StartInv(env: Option<Store>)
    ensures Inv(Start(env))
  {
  }

  // ---------------------------------------------------------------------------
  // The flight
  // ---------------------------------------------------------------------------

  /** At most one refresh function runs per provider. */
  lemma OneRefreshPerProvider(env: Option<Store>, actions: seq<Action>, t: Tid, u: Tid)
    requires var s := Run(env, actions);
             t in s.threads && u in s.threads && InFlight(s.threads[t]) && InFlight(s.threads[u])
             && s.threads[t].p == s.threads[u].p
    ensures t == u
  {
    hide Run, Waiters, Tokens;
    RunKeepsInv(env, actions);
  }

  /** Everyone who took part in a flight has the same outcome. */
  lemma FlightSharesOutcome(env: Option<Store>, actions: seq<Action>, t: Tid, u: Tid)
    requires var s := Run(env, actions);
             t in s.threads && u in s.threads && (s.threads[t].Led? || s.threads[t].Shared?) && s.threads[u].Shared?
             && s.threads[t].f == s.threads[u].f
    ensures Run(env, actions).threads[t].out == Run(env, actions).threads[u].out
  {
    hide Run, Flights, Tokens;
    RunKeepsInv(env, actions);
  }

  /** Who joined a flight can go on, or a live caller is in charge of it. */
  lemma NoWaiterForgotten(env: Option<Store>, actions: seq<Action>, t: Tid)
    requires t in Run(env, actions).threads && Run(env, actions).threads[t].Joined?
    ensures var s, f := Run(env, actions), Run(env, actions).threads[t].f;
            || Enabled(s, Wake(t))
            || (f in s.leaders && s.leaders[f] in s.threads
                && (InFlight(s.threads[s.leaders[f]]) || s.threads[s.leaders[f]].Announces?)
                && s.threads[s.leaders[f]].f == f)
  {
    hide Run, Tokens;
    RunKeepsInv(env, actions);
  }

  // ---------------------------------------------------------------------------
  // Refresh tokens
  // ---------------------------------------------------------------------------

  /** The server rotates, no reply is lost, no refresh crashes, and what is granted is stored. */
  predicate Benign(a: Action) {
    match a
    case Present(t, x) => x.Rejected? || (x.Granted? && x.rotates)
    case Persist(t, ok) => ok
    case _ => true
  }

  lemma BenignStep(s: State, a: Action)
    requires Benign(a) && !s.spoiled
    ensures !Step(s, a).spoiled
  {
    hide Decide;
  }

  lemma {:induction false} BenignRun(env: Option<Store>, actions: seq<Action>)
    requires env.None? && forall a | a in actions :: Benign(a)
    ensures !Run(env, actions).spoiled
  {
    hide Step;
    if actions != [] {
      BenignRun(env, actions[..|actions| - 1]);
      BenignStep(Run(env, actions[..|actions| - 1]), actions[|actions| - 1]);
    }
  }

  /**
   With a rotating server whose replies arrive, refreshes that do not crash, successful writes,
   and reads that see them, no refresh token is presented after it was used up.
   */
  lemma NoTokenReplayed(env: Option<Store>, actions: seq<Action>)
    requires env.None?
    requires forall a | a in actions :: Benign(a)
    ensures !Run(env, actions).replayed
  {
    hide Run, Flights, Waiters;
    BenignRun(env, actions);
    RunKeepsInv(env, actions);
  }

  /**
   The stored refresh token is used up after an exchange exactly when the reply was lost, the
   refresh crashed, the server did not rotate, or the write of the new token failed.
   */
  lemma UsedTokenStaysStoredIff(s: State, t: Tid, x: Exchange, ok: bool)
    requires Inv(s) && !s.spoiled && Enabled(s, Present(t, x))
    requires s.threads[t].p in s.store && s.store[s.threads[t].p].refresh == Some(s.threads[t].r)
    ensures var p := s.threads[t].p;
            var u := Step(Step(s, Present(t, x)), Persist(t, ok));
            && p in u.store && u.store[p].refresh.Some?
            && ((p, u.store[p].refresh.value) in u.used <==>
                  x.ReplyLost? || x.Crashed? || (x.Granted? && !(x.rotates && ok)))
  {
    hide Flights, Waiters;
    var p, f, r := s.threads[t].p, s.threads[t].f, s.threads[t].r;
    assert (p, r) !in s.used && (p, s.nextToken) !in s.used;
    var u := Step(s, Present(t, x));
    if x.Granted? {
      assert u.threads[t].Persists? && u.store == s.store && (p, r) in u.used;
      assert u.threads[t].rec.refresh == Some(if x.rotates then s.nextToken else r);
    } else {
      assert Step(u, Persist(t, ok)) == u && u.store == s.store;
    }
  }

  /** A used-up token that is read is presented again by the next caller who finds the record expiring. */
  lemma StoredUsedTokenIsReplayed(s: State, t: Tid, p: Provider, now: int)
    requires p in Visible(s) && Visible(s)[p].refresh.Some? && (p, Visible(s)[p].refresh.value) in s.used
    requires p !in s.calls && t !in s.threads && NeedsRefresh(Visible(s)[p], now)
    ensures RunFrom(s, [Call(t, p, now), Do(t), Reread(t, now), Present(t, Rejected)]).replayed
  {
    var actions := [Call(t, p, now), Do(t), Reread(t, now), Present(t, Rejected)];
    ComesToExchange(s, t, p, now);
    var s3 := Step(Step(Step(s, Call(t, p, now)), Do(t)), Reread(t, now));
    assert Step(s3, Present(t, Rejected)).replayed;
    hide Step;
    FourSteps(s, actions);
  }

  /** A caller that finds an expiring record and no flight comes to exchange the token it reads. */
  lemma ComesToExchange(s: State, t: Tid, p: Provider, now: int)
    requires p in Visible(s) && Visible(s)[p].refresh.Some? && p !in s.calls && t !in s.threads
    requires NeedsRefresh(Visible(s)[p], now)
    ensures var u := Step(Step(Step(s, Call(t, p, now)), Do(t)), Reread(t, now));
            && u == s.(calls := s.calls[p := s.nextFlight], nextFlight := s.nextFlight + 1,
                       leaders := s.leaders[s.nextFlight := t],
                       threads := s.threads[t := Exchanges(p, s.nextFlight, Visible(s)[p].refresh.value)])
  {
    var r := Visible(s)[p].refresh.value;
    var s1 := Step(s, Call(t, p, now));
    assert s1 == s.(threads := s.threads[t := AtDo(p, r)]);
    var s2 := Step(s1, Do(t));
    var f := s.nextFlight;
    assert s2.threads[t] == Leads(p, f, r);
    var s3 := Step(s2, Reread(t, now));
    assert s3.threads == s.threads[t := Exchanges(p, f, r)];
  }

  lemma FourSteps(s: State, actions: seq<Action>)
    requires |actions| == 4
    ensures RunFrom(s, actions) == Step(Step(Step(Step(s, actions[0]), actions[1]), actions[2]), actions[3])
  {
    hide Step;
    assert actions[..1][..0] == [] && RunFrom(s, actions[..1]) == Step(s, actions[0]);
    assert actions[..2][..1] == actions[..1] && RunFrom(s, actions[..2]) == Step(RunFrom(s, actions[..1]), actions[1]);
    assert actions[..3][..2] == actions[..2] && RunFrom(s, actions[..3]) == Step(RunFrom(s, actions[..2]), actions[2]);
  }

  /**
   The second read of the record is needed: a caller that decided to refresh while another
   flight was exchanging the same token comes to lead the next flight with a used-up token
   in hand, although nothing went wrong; the store has the new one.
   */
  lemma FirstReadIsStale(s: State, t: Tid, u: Tid, x: Exchange)
    requires Inv(s) && !s.spoiled && Enabled(s, Present(t, x)) && x.Granted? && x.rotates
    requires u in s.threads && s.threads[u] == AtDo(s.threads[t].p, s.threads[t].r)
    ensures var p, r := s.threads[t].p, s.threads[t].r;
            var v := Step(Step(Step(Step(s, Present(t, x)), Persist(t, true)), Release(t)), Do(u));
            && !v.spoiled && !v.replayed && (p, r) in v.used
            && v.threads[u].Leads? && v.threads[u].seen == r
            && p in v.store && v.store[p].refresh.Some? && (p, v.store[p].refresh.value) !in v.used
  {
    hide Flights, Waiters;
    var p, f, r := s.threads[t].p, s.threads[t].f, s.threads[t].r;
    assert t != u;
    var s1 := Step(s, Present(t, x));
    var rec := s1.threads[t].rec;
    assert s1.threads == s.threads[t := Persists(p, f, r, rec)] && !s1.spoiled && !s1.replayed && (p, r) in s1.used;
    assert rec.refresh == Some(s.nextToken) && (p, s.nextToken) !in s1.used;
    var s2 := Step(s1, Persist(t, true));
    assert s2.threads == s1.threads[t := Releases(p, f, Access(rec.access))] && s2.store == s1.store[p := rec];
    assert s2.used == s1.used && !s2.spoiled && !s2.replayed;
    var s3 := Step(s2, Release(t));
    assert p !in s3.calls && s3.threads[u] == AtDo(p, r) && s3.store == s2.store && s3.used == s1.used;
    assert !s3.spoiled && !s3.replayed;
  }

  /** Such a state is reached: two callers find an expired record, and one of them is exchanging its token. */
  lemma TwoCallersDecide(p: Provider, now: int)
    ensures var s := Run(None, [SignIn(p, 0, 0, None), Call(0, p, now), Call(1, p, now), Do(0), Reread(0, now)]);
            && Inv(s) && !s.spoiled && s.threads.Keys == {0, 1}
            && s.threads[0] == Exchanges(p, 0, 0) && s.threads[1] == AtDo(p, 0)
  {
    var actions := [SignIn(p, 0, 0, None), Call(0, p, now), Call(1, p, now), Do(0), Reread(0, now)];
    RunKeepsInv(None, actions);
    assert actions[1..] == [Call(0, p, now), Call(1, p, now), Do(0), Reread(0, now)];
    var s1 := Step(Start(None), SignIn(p, 0, 0, None));
    BothDecide(s1, p, now);
    hide Step, Inv;
    FiveSteps(None, actions);
  }

  lemma BothDecide(s: State, p: Provider, now: int)
    requires s == Start(None).(store := map[p := Record(0, Some(0), 0, None)], nextToken := 1)
    ensures var u := Step(Step(Step(Step(s, Call(0, p, now)), Call(1, p, now)), Do(0)), Reread(0, now));
            && !u.spoiled && u.threads.Keys == {0, 1}
            && u.threads[0] == Exchanges(p, 0, 0) && u.threads[1] == AtDo(p, 0)
  {
  }

  lemma FiveSteps(env: Option<Store>, actions: seq<Action>)
    requires |actions| == 5
    ensures var s := Step(Step(Step(Step(Start(env), actions[0]), actions[1]), actions[2]), actions[3]);
            Run(env, actions) == Step(s, actions[4])
  {
    hide Step;
    FourSteps(Start(env), actions[..4]);
    assert actions[..4][..4] == actions[..4];
  }

  // ---------------------------------------------------------------------------
  // Content from the environment
  // ---------------------------------------------------------------------------

  lemma OneMore(s: State, actions: seq<Action>, a: Action)
    ensures RunFrom(s, actions + [a]) == Step(RunFrom(s, actions), a)
  {
    assert (actions + [a])[..|actions|] == actions;
  }

  lemma {:induction false} RunInParts(s: State, first: seq<Action>, second: seq<Action>)
    ensures RunFrom(s, first + second) == RunFrom(RunFrom(s, first), second)
  {
    hide Step;
    if second == [] {
      assert first + second == first;
    } else {
      var init, last := second[..|second| - 1], second[|second| - 1];
      assert first + second == first + init + [last];
      RunInParts(s, first, init);
      OneMore(s, first + init, last);
    }
  }

  lemma EnvStaysInStep(s: State, a: Action)
    ensures Step(s, a).env == s.env
  {
    hide CallStep, DoStep, RereadStep, PresentStep, PersistStep, ReleaseStep, AnnounceStep, WakeStep;
    hide SignInStep, SignOutStep;
  }

  lemma {:induction false} EnvStays(s: State, actions: seq<Action>)
    ensures RunFrom(s, actions).env == s.env
  {
    hide Step;
    if actions != [] {
      EnvStays(s, actions[..|actions| - 1]);
      EnvStaysInStep(RunFrom(s, actions[..|actions| - 1]), actions[|actions| - 1]);
    }
  }

  /** Nothing goes wrong, and no clock reading is later than `latest`. */
  predicate BenignBy(actions: seq<Action>, latest: int) {
    forall a | a in actions ::
      Benign(a) && match a
                   case Call(t, p, now) => now <= latest
                   case Reread(t, now) => now <= latest
                   case _ => true
  }

  /** Nobody has a reason to refresh. */
  predicate NobodyRefreshes(s: State, content: Store) {
    && s.env == Some(content) && !s.replayed
    && forall t | t in s.threads ::
         var c := s.threads[t]; !c.AtDo? && !c.Leads? && !c.Exchanges? && !c.Persists?
  }

  /** The content has a record that can be refreshed and is due. */
  ghost predicate Due(content: Store, latest: int) {
    exists p :: p in content && content[p].refresh.Some? && NeedsRefresh(content[p], latest)
  }

  lemma NobodyRefreshesInStep(s: State, a: Action, content: Store, latest: int)
    requires NobodyRefreshes(s, content) && BenignBy([a], latest) && !Due(content, latest)
    ensures NobodyRefreshes(Step(s, a), content)
  {
    assert a in [a];
    if a.Call? {
      assert Decide(content, a.p, a.now).Return? by {
        assert a.p in content && content[a.p].refresh.Some? ==> !NeedsRefresh(content[a.p], latest);
      }
    }
  }

  lemma {:induction false} NobodyRefreshesInRun(content: Store, actions: seq<Action>, latest: int)
    requires BenignBy(actions, latest) && !Due(content, latest)
    ensures NobodyRefreshes(Run(Some(content), actions), content)
  {
    if actions != [] {
      hide Step, NobodyRefreshes, Due, Benign;
      var n := |actions| - 1;
      NobodyRefreshesInRun(content, actions[..n], latest);
      assert forall a | a in [actions[n]] :: a in actions;
      NobodyRefreshesInStep(Run(Some(content), actions[..n]), actions[n], content, latest);
    }
  }

  /** One access that refreshes, with everything granted and stored. */
  function GoodRefresh(t: Tid, p: Provider, now: int): seq<Action> {
    [Call(t, p, now), Do(t), Reread(t, now)] + [Present(t, Granted(0, true, 0, None)), Persist(t, true), Release(t)]
  }

  lemma GoodRefreshUses(s: State, t: Tid, p: Provider, now: int)
    requires p in Visible(s) && Visible(s)[p].refresh.Some? && NeedsRefresh(Visible(s)[p], now)
    requires p !in s.calls && t !in s.threads
    ensures var u := RunFrom(s, GoodRefresh(t, p, now));
            && u.env == s.env && (p, Visible(s)[p].refresh.value) in u.used
            && p !in u.calls && u.threads.Keys == s.threads.Keys + {t}
  {
    var x := Granted(0, true, 0, None);
    var a, b := [Call(t, p, now), Do(t), Reread(t, now)], [Present(t, x), Persist(t, true), Release(t)];
    ComesToExchange(s, t, p, now);
    ThreeSteps(s, a);
    var s3 := RunFrom(s, a);
    RunInParts(s, a, b);
    ThreeSteps(s3, b);
    RefreshGranted(s3, t, x);
    hide Step, Visible;
  }

  lemma ThreeSteps(s: State, actions: seq<Action>)
    requires |actions| == 3
    ensures RunFrom(s, actions) == Step(Step(Step(s, actions[0]), actions[1]), actions[2])
  {
    hide Step;
    assert actions[..1][..0] == [] && RunFrom(s, actions[..1]) == Step(s, actions[0]);
    assert actions[..2][..1] == actions[..1] && RunFrom(s, actions[..2]) == Step(RunFrom(s, actions[..1]), actions[1]);
  }

  lemma RefreshGranted(s: State, t: Tid, x: Exchange)
    requires t in s.threads && s.threads[t].Exchanges? && x.Granted?
    ensures var u := Step(Step(Step(s, Present(t, x)), Persist(t, true)), Release(t));
            && u.env == s.env && u.used == s.used + {(s.threads[t].p, s.threads[t].r)}
            && u.calls == s.calls - {s.threads[t].p} && u.threads.Keys == s.threads.Keys
  {
    hide Visible;
    var Exchanges(p, f, r) := s.threads[t];
    var s1 := Step(s, Present(t, x));
    assert s1.threads[t].Persists? && s1.threads[t].p == p;
    assert Step(s1, Persist(t, true)).threads[t].Releases?;
  }

  /**
   With content from the environment, some run in which nothing goes wrong presents a token
   again exactly when a record of it can be refreshed and is due by the latest clock reading.
   */
  lemma EnvironmentReplaysIff(content: Store, latest: int)
    ensures (exists actions :: BenignBy(actions, latest) && Run(Some(content), actions).replayed)
            <==> Due(content, latest)
  {
    if actions :| BenignBy(actions, latest) && Run(Some(content), actions).replayed {
      if !Due(content, latest) {
        NobodyRefreshesInRun(content, actions, latest);
      }
    }
    if Due(content, latest) {
      var p :| p in content && content[p].refresh.Some? && NeedsRefresh(content[p], latest);
      EnvironmentReplays(content, p, latest);
    }
  }

  /** Two good refreshes one after the other: the second presents the token the first used up. */
  lemma EnvironmentReplays(content: Store, p: Provider, now: int)
    requires p in content && content[p].refresh.Some? && NeedsRefresh(content[p], now)
    ensures var again := [Call(1, p, now), Do(1), Reread(1, now), Present(1, Rejected)];
            && BenignBy(GoodRefresh(0, p, now) + again, now)
            && Run(Some(content), GoodRefresh(0, p, now) + again).replayed
  {
    var again := [Call(1, p, now), Do(1), Reread(1, now), Present(1, Rejected)];
    var first := GoodRefresh(0, p, now);
    GoodRefreshUses(Start(Some(content)), 0, p, now);
    RunInParts(Start(Some(content)), first, again);
    StoredUsedTokenIsReplayed(RunFrom(Start(Some(content)), first), 1, p, now);
    hide RunFrom;
  }

  /** A refresh whose reply is lost. */
  function LostRefresh(t: Tid, p: Provider, now: int): seq<Action> {
    [Call(t, p, now), Do(t), Reread(t, now)] + [Present(t, ReplyLost), Release(t), Announce(t)]
  }

  lemma LostRefreshUses(s: State, t: Tid, p: Provider, now: int)
    requires p in Visible(s) && Visible(s)[p].refresh.Some? && NeedsRefresh(Visible(s)[p], now)
    requires p !in s.calls && t !in s.threads
    ensures var u := RunFrom(s, LostRefresh(t, p, now));
            && u.env == s.env && u.store == s.store && (p, Visible(s)[p].refresh.value) in u.used
            && p !in u.calls && u.threads.Keys == s.threads.Keys + {t}
  {
    var a, b := [Call(t, p, now), Do(t), Reread(t, now)], [Present(t, ReplyLost), Release(t), Announce(t)];
    ComesToExchange(s, t, p, now);
    ThreeSteps(s, a);
    var s3 := RunFrom(s, a);
    RunInParts(s, a, b);
    ThreeSteps(s3, b);
    ReplyIsLost(s3, t);
    hide Step, Visible;
  }

  lemma ReplyIsLost(s: State, t: Tid)
    requires t in s.threads && s.threads[t].Exchanges?
    ensures var u := Step(Step(Step(s, Present(t, ReplyLost)), Release(t)), Announce(t));
            && u.env == s.env && u.store == s.store && u.used == s.used + {(s.threads[t].p, s.threads[t].r)}
            && u.calls == s.calls - {s.threads[t].p} && u.threads.Keys == s.threads.Keys
  {
    hide Visible;
    var s1 := Step(s, Present(t, ReplyLost));
    assert s1.threads[t].Releases? && s1.threads[t].p == s.threads[t].p;
    assert Step(s1, Release(t)).threads[t].Announces?;
  }

  /** With the credentials in the file, a lost reply is enough. */
  lemma LostReplyReplays(p: Provider, now: int)
    ensures var again := [Call(1, p, now), Do(1), Reread(1, now), Present(1, Rejected)];
            Run(None, [SignIn(p, 0, 0, None)] + LostRefresh(0, p, now) + again).replayed
  {
    var signIn, again := SignIn(p, 0, 0, None), [Call(1, p, now), Do(1), Reread(1, now), Present(1, Rejected)];
    var s, lost := Start(None), LostRefresh(0, p, now);
    assert [] + [signIn] == [signIn];
    OneMore(s, [], signIn);
    var s1 := RunFrom(s, [signIn]);
    assert s1 == SignInStep(s, p, 0, 0, None);
    hide LostRefresh, Step, RunFrom;
    LostRefreshUses(s1, 0, p, now);
    RunInParts(s, [signIn], lost);
    RunInParts(s, [signIn] + lost, again);
    StoredUsedTokenIsReplayed(RunFrom(s1, lost), 1, p, now);
  }

  // ---------------------------------------------------------------------------
  // Signing out
  // ---------------------------------------------------------------------------

  predicate NoSignIn(actions: seq<Action>, p: Provider) {
    forall a | a in actions && a.SignIn? :: a.p != p
  }

  /** The call is about to present a token of `p`, or to store what it was granted for one. */
  predicate Storing(c: Thread, p: Provider) {
    (c.Exchanges? || c.Persists?) && c.p == p
  }

  predicate MayStore(s: State, p: Provider) {
    exists t :: t in s.threads && Storing(s.threads[t], p)
  }

  /** Only a sign-in brings a credential of `p` back. */
  predicate SignedOut(s: State, p: Provider) {
    p !in Visible(s) && (s.env.None? ==> !MayStore(s, p))
  }

  /** One call moves on, to where it does not store for `p`, and the store gains nothing for `p`. */
  predicate MovesOn(s: State, u: State, t: Tid, p: Provider) {
    && t in u.threads && u.threads == s.threads[t := u.threads[t]] && !Storing(u.threads[t], p)
    && (p in u.store ==> p in s.store)
  }

  lemma MoveKeepsSignedOut(s: State, u: State, t: Tid, p: Provider)
    requires SignedOut(s, p) && s.env.None? && u.env.None? && MovesOn(s, u, t, p)
    ensures SignedOut(u, p)
  {
  }

  lemma RereadMovesOn(s: State, t: Tid, now: int, p: Provider)
    requires SignedOut(s, p) && s.env.None? && Enabled(s, Reread(t, now))
    ensures MovesOn(s, RereadStep(s, t, now), t, p)
  {
  }

  lemma FlightMovesOn(s: State, a: Action, p: Provider)
    requires SignedOut(s, p) && s.env.None? && Enabled(s, a) && (a.Present? || a.Persist?)
    ensures MovesOn(s, Apply(s, a), a.t, p)
  {
    assert !Storing(s.threads[a.t], p);
    if a.Present? {
      if a.x.Granted? {
      } else if a.x.Rejected? {
      }
    } else if a.ok {
    }
  }

  lemma OtherMovesOn(s: State, a: Action, p: Provider)
    requires SignedOut(s, p) && s.env.None? && Enabled(s, a)
    requires a.Call? || a.Do? || a.Release? || a.Announce? || a.Wake?
    ensures MovesOn(s, Apply(s, a), a.t, p)
  {
    hide Decide, Visible;
    if a.Do? {
      if s.threads[a.t].p in s.calls {
      }
    }
  }

  lemma SignedOutInStep(s: State, a: Action, p: Provider)
    requires SignedOut(s, p) && !(a.SignIn? && a.p == p)
    ensures SignedOut(Step(s, a), p)
  {
    EnvStaysInStep(s, a);
    if s.env.None? && Enabled(s, a) {
      hide CallStep, DoStep, RereadStep, PresentStep, PersistStep, ReleaseStep, AnnounceStep, WakeStep;
      match a
      case SignIn(_, _, _, _) =>
      case SignOut(_) =>
      case Reread(t, now) =>
        RereadMovesOn(s, t, now, p);
        hide SignedOut;
        MoveKeepsSignedOut(s, Step(s, a), t, p);
      case _ =>
        if a.Present? || a.Persist? {
          FlightMovesOn(s, a, p);
        } else {
          OtherMovesOn(s, a, p);
        }
        hide SignedOut;
        MoveKeepsSignedOut(s, Step(s, a), a.t, p);
    }
  }

  lemma {:induction false} SignedOutStays(s: State, more: seq<Action>, p: Provider)
    requires SignedOut(s, p) && NoSignIn(more, p)
    ensures SignedOut(RunFrom(s, more), p)
  {
    hide Step, SignedOut;
    if more != [] {
      SignedOutStays(s, more[..|more| - 1], p);
      SignedOutInStep(RunFrom(s, more[..|more| - 1]), more[|more| - 1], p);
    }
  }

  /** However the run goes on, `p` has no credential to read until someone signs in to it. */
  ghost predicate SignOutIsFinal(env: Option<Store>, actions: seq<Action>, p: Provider) {
    forall more | NoSignIn(more, p) :: p !in Visible(Run(env, actions + [SignOut(p)] + more))
  }

  /**
   A sign-out is final exactly when no flight of the provider is between reading the token
   again and storing its successor, and the environment does not supply the credential.
   */
  lemma SignOutIsFinalIff(env: Option<Store>, actions: seq<Action>, p: Provider)
    ensures SignOutIsFinal(env, actions, p) <==>
            if env.Some? then p !in env.value else !MayStore(Run(env, actions), p)
  {
    var s, out := Run(env, actions), actions + [SignOut(p)];
    OneMore(Start(env), actions, SignOut(p));
    EnvStays(Start(env), actions);
    var u := Run(env, out);
    assert u == SignOutStep(s, p);
    hide Step, RunFrom;
    if if env.Some? then p !in env.value else !MayStore(s, p) {
      forall more | NoSignIn(more, p)
        ensures p !in Visible(Run(env, out + more))
      {
        RunInParts(Start(env), out, more);
        SignedOutStays(u, more, p);
      }
    } else if env.Some? {
      assert out + [] == out && NoSignIn([], p);
    } else {
      var t :| t in s.threads && Storing(s.threads[t], p);
      var more := FinishFlight(u, t);
      RunInParts(Start(env), out, more);
    }
  }

  lemma FinishFlight(s: State, t: Tid) returns (more: seq<Action>)
    requires s.env.None? && t in s.threads && (s.threads[t].Exchanges? || s.threads[t].Persists?)
    ensures NoSignIn(more, s.threads[t].p) && s.threads[t].p in Visible(RunFrom(s, more))
  {
    var x := Granted(0, true, 0, None);
    if s.threads[t].Persists? {
      more := [] + [Persist(t, true)];
      OneMore(s, [], Persist(t, true));
      Persisted(s, t);
    } else {
      more := [] + [Present(t, x)] + [Persist(t, true)];
      OneMore(s, [], Present(t, x));
      OneMore(s, [] + [Present(t, x)], Persist(t, true));
      GrantIsStoredNext(s, t, x);
      Persisted(Step(s, Present(t, x)), t);
    }
    hide Step;
  }

  lemma Persisted(s: State, t: Tid)
    requires s.env.None? && t in s.threads && s.threads[t].Persists?
    ensures s.threads[t].p in Visible(Step(s, Persist(t, true)))
  {
  }

  lemma GrantIsStoredNext(s: State, t: Tid, x: Exchange)
    requires t in s.threads && s.threads[t].Exchanges? && x.Granted?
    ensures var u := Step(s, Present(t, x));
            u.env == s.env && t in u.threads && u.threads[t].Persists? && u.threads[t].p == s.threads[t].p
  {
  }
}
