/**
  What each callback of a seat comes to (src/seat.c), by the seat's fields: what follows the end of
  an authentication, of a session and of a display server, and what a greeter's messages do.
 */
module SeatEvents {
  import opened Octets
  import opened Lists
  import Life = SessionLife
  import opened Seats
  import opened SeatSafety
  import opened SeatBehaviour
  import opened SeatRequests
  import GreeterDaemon
  import LoginMessages
  import ChildPipe

  /** One session's life takes an event, and that is all. */
  function Lives(s: Seat, x: SessionId, e: Life.Event): Seat
    requires x < |s.all|
  {
    s.(all := s.all[x := s.all[x].(life := Life.Step(s.all[x].life, e))])
  }

  function Starting(env: Env, x: SessionId): Life.Event {
    Life.Starts(if x in env.starts then env.starts[x] else Life.Forks(1, []))
  }

  predicate LoggedIn(s: Seat, x: SessionId) {
    x < |s.all| && s.all[x].life.authComplete && s.all[x].life.result == 0
  }

  /** A display server is told to stop, and that is all. */
  function ServerTold(s: Seat, d: Option<ServerId>): Seat {
    if d.Some? && d.value < |s.allServers| then s.(allServers := s.allServers[d.value := s.allServers[d.value].(stopping := true)]) else s
  }

  // ------------------------------------------------------------------ starting

  /**
    A session whose child starts waits for it. A greeter that does not start takes its display
    server down; any other session that does not start falls back to a greeter.
   */
  lemma StartFollows(s: Seat, env: Env, x: SessionId)
    requires x < |s.all|
    ensures var t := Lives(s, x, Starting(env, x));
            var ok := s.all[x].life.pid == 0 && t.all[x].life.pid > 0;
            StartSession(s, env, x) == if ok then t else if s.all[x].isGreeter then ServerTold(t, s.all[x].server) else FromFailed(t, env, x)
  {
    hide FromFailed, Life.OnStart;
  }

  /** A seat with a greeter that can be reset shows it in place of a session that failed, and stops that session. */
  lemma FailureShowsGreeter(s: Seat, env: Env, x: SessionId, g: SessionId) returns (u: Seat)
    requires Listed(s) && x < |s.all| && FirstWith(s, g, Resettables(s))
    ensures Shows(s.(log := s.log + [Reset(g)]), u, g) && |u.all| == |s.all| && FromFailed(s, env, x) == Lives(u, x, Life.Stops)
  {
    hide FindResettable, SetActive, Shows, Finds, StopSession;
    FindersFind(s, []);
    FirstOnly(s, g, FindResettable(s), Resettables(s));
    var a := s.(log := s.log + [Reset(g)]);
    SetActiveShows(a, g);
    u := SetActive(a, g);
    ShowsLength(a, u, g);
    StoppedOne(u, x);
  }

  lemma ShowsLength(s: Seat, t: Seat, x: SessionId)
    requires Shows(s, t, x)
    ensures |t.all| == |s.all| && t.sessions == s.sessions && t.toActivate == s.toActivate && t.active == Some(x)
    ensures forall y :: 0 <= y < |s.all| ==> t.all[y].life.username == s.all[y].life.username
  {
  }

  /** The session's display server may be shared. */
  predicate Shareable(s: Seat, d: Option<ServerId>) {
    s.config.share && d.Some? && d.value < |s.allServers| && s.allServers[d.value].canShare
  }

  /**
    Without one a greeter is made, awaited and started. Where the failed session's display server
    can be shared the greeter is put on it, and no server is made or stopped but for a greeter
    that does not start. The failed session is stopped.
   */
  lemma FailureSharesServer(s: Seat, env: Env, x: SessionId)
    requires Listed(s) && x < |s.all| && (forall y <- s.sessions :: !AliveResettable(s, y)) && Shareable(s, s.all[x].server)
    ensures var t, n, d := FromFailed(s, env, x), |s.all|, s.all[x].server;
            && |t.all| == n + 1 && t.all[..n] == s.all[x := s.all[x].(life := Life.Step(s.all[x].life, Life.Stops))]
            && t.all[n].isGreeter && t.all[n].server == d && t.all[n].life == Life.Step(Life.New(env.greeterUser, false).(argv := env.argv), Starting(env, n))
            && t.sessions == s.sessions + [n] && t.toActivate == Some(n) && t.active == s.active && t.log == s.log && t.stopping == s.stopping
            && t.servers == s.servers
            && t.allServers == if t.all[n].life.pid > 0 then s.allServers else s.allServers[d.value := s.allServers[d.value].(stopping := true)]
  {
    hide FindResettable, CreateGreeter, SetServer, StartGreeter, StopSession, FromFailed, Life.Step, Listed;
    ResettableFound(s);
    NoneFirst(s, FindResettable(s), Resettables(s));
    var n, d := |s.all|, s.all[x].server;
    FailureShares(s, env, x);
    GreeterMade(s, env);
    var t := CreateGreeter(s, env).(toActivate := Some(n));
    TakesServer(t, n, d);
    var u := SetServer(t, n, d);
    GreeterStarted(u, env, n);
    var v := StartGreeter(u, env, n);
    StoppedOne(v, x);
    assert v.all[..n] == s.all && StopSession(v, x).all[..n] == v.all[..n][x := StopSession(v, x).all[x]];
  }

  lemma FailureShares(s: Seat, env: Env, x: SessionId)
    requires x < |s.all| && FindResettable(s).None? && Shareable(s, s.all[x].server)
    ensures var n := |s.all|;
            FromFailed(s, env, x) == StopSession(StartGreeter(SetServer(CreateGreeter(s, env).(toActivate := Some(n)), n, s.all[x].server), env, n), x)
  {
    hide FindResettable, CreateGreeter, SetServer, GiveServer, StopSeat, StartGreeter, StopSession;
    GreeterMade(s, env);
    SharesMade(s, CreateGreeter(s, env).(toActivate := Some(|s.all|)), s.all[x].server);
  }

  lemma SharesMade(s: Seat, t: Seat, d: Option<ServerId>)
    requires t.config == s.config && t.allServers == s.allServers
    ensures CanShare(t, d) <==> Shareable(s, d)
  {
  }

  lemma GreeterStarted(s: Seat, env: Env, x: SessionId)
    requires x < |s.all|
    ensures var t := Lives(s, x, Starting(env, x));
            StartGreeter(s, env, x) == if s.all[x].life.pid == 0 && t.all[x].life.pid > 0 then t else ServerTold(t, s.all[x].server)
  {
    hide Life.OnStart;
  }

  /** Where it cannot be shared and no other server starts, the seat stops. */
  lemma FailureWithoutServer(s: Seat, env: Env, x: SessionId)
    requires Listed(s) && !s.stopping && x < |s.all| && (forall y <- s.sessions :: !AliveResettable(s, y)) && !Shareable(s, s.all[x].server)
    requires Factory(s, env, x) == None
    ensures var t := FromFailed(s, env, x); t.stopping && t.toActivate == Some(|s.all|) && t.sessions == s.sessions + [|s.all|]
  {
    hide FindResettable, CreateGreeter, GiveServer, StopSeat, StartGreeter, StopSession, Listed, FromFailed, Life.Step;
    ResettableFound(s);
    NoneFirst(s, FindResettable(s), Resettables(s));
    var n := |s.all|;
    GreeterMade(s, env);
    var t := CreateGreeter(s, env).(toActivate := Some(n));
    NoServerGiven(t, env, x);
    FailureStops(s, env, x);
    var u := StopSeat(GiveServer(t, env, x).seat);
    SeatTold(GiveServer(t, env, x).seat);
    GreeterStarted(u, env, n);
    StoppedOne(StartGreeter(u, env, n), x);
  }

  lemma FailureStops(s: Seat, env: Env, x: SessionId)
    requires x < |s.all| && FindResettable(s).None? && !Shareable(s, s.all[x].server)
    requires !GiveServer(CreateGreeter(s, env).(toActivate := Some(|s.all|)), env, x).ok
    ensures var n := |s.all|;
            var given := GiveServer(CreateGreeter(s, env).(toActivate := Some(n)), env, x);
            FromFailed(s, env, x) == StopSession(StartGreeter(StopSeat(given.seat), env, n), x)
  {
    hide FindResettable, CreateGreeter, GiveServer, StopSeat, StartGreeter, StopSession;
    GreeterMade(s, env);
    SharesMade(s, CreateGreeter(s, env).(toActivate := Some(|s.all|)), s.all[x].server);
  }

  lemma SeatTold(s: Seat)
    ensures StopSeat(s).stopping && StopSeat(s).sessions == s.sessions && StopSeat(s).toActivate == s.toActivate && |StopSeat(s).all| == |s.all|
  {
  }

  // ------------------------------------------------------------------ running

  /**
    A session that is run takes its command. If it is the one that is awaited it is shown, and
    nobody is awaited any more; otherwise what is active is named again. A session whose setup
    script fails has failed.
   */
  lemma RunFollows(s: Seat, env: Env, x: SessionId) returns (u: Seat)
    requires Listed(s) && x < |s.all|
    ensures x in env.scriptFails ==> RunSession(s, env, x) == FromFailed(s, env, x)
    ensures var t := Lives(s, x, Life.Runs(s.all[x].server.Some?, ChildPipe.CLEAN_STOP));
            x !in env.scriptFails ==>
              if s.toActivate == Some(x) then Shows(t, u, x) && RunSession(s, env, x) == u.(toActivate := None)
              else RunSession(s, env, x) == if s.active.Some? then t.(log := s.log + [Activated(s.active.value)]) else t
  {
    hide FromFailed, SetActive, Shows, Life.Step;
    var t := Lives(s, x, Life.Runs(s.all[x].server.Some?, ChildPipe.CLEAN_STOP));
    assert RunLife(s, x) == t;
    LivesListed(s, x, Life.Runs(s.all[x].server.Some?, ChildPipe.CLEAN_STOP));
    SetActiveShows(t, x);
    u := SetActive(t, x);
  }

  lemma LivesListed(s: Seat, x: SessionId, e: Life.Event)
    requires Listed(s) && x < |s.all|
    ensures Listed(Lives(s, x, e))
  {
    hide Life.Step;
  }

  /** A session that can go on is run if its user is authenticated and is started if not. */
  lemma GoesOn(s: Seat, env: Env, x: SessionId)
    ensures GoOn(s, env, x) == if LoggedIn(s, x) then RunSession(s, env, x) else StartSession(s, env, x)
  {
  }

  // ------------------------------------------------------------------ the end of an authentication

  /** A user who has another session is returned to it, and the new session is stopped without being run. */
  lemma LoginReturns(s: Seat, env: Env, x: SessionId, name: Text, y: SessionId) returns (u: Seat)
    requires Listed(s) && LoggedIn(s, x) && s.all[x].life.username == Some(name) && FirstWith(s, y, OtherUsers(s, name, x))
    ensures Shows(s, u, y) && |u.all| == |s.all| && AutoComplete(s, env, x) == Lives(u, x, Life.Stops)
  {
    hide FindUser, SetActive, StopSession, RunSession, FromFailed, Finds, Shows;
    OtherFindersFind(s, name, x, None, 0);
    FirstOnly(s, y, FindUser(s, Some(name), Some(x)), OtherUsers(s, name, x));
    SetActiveShows(s, y);
    u := SetActive(s, y);
    ShowsLength(s, u, y);
    StoppedOne(u, x);
  }

  /** Any other authenticated session is run; one that is not falls back to a greeter, unless it is the greeter, which is stopped. */
  lemma LoginFollows(s: Seat, env: Env, x: SessionId, name: Text)
    requires Listed(s) && x < |s.all| && s.all[x].life.username == Some(name) && forall y <- s.sessions :: !OtherUsers(s, name, x)(y)
    ensures LoggedIn(s, x) ==> AutoComplete(s, env, x) == RunSession(s, env, x)
    ensures !LoggedIn(s, x) && !s.all[x].isGreeter ==> AutoComplete(s, env, x) == FromFailed(s, env, x)
    ensures !LoggedIn(s, x) && s.all[x].isGreeter ==> AutoComplete(s, env, x) == Lives(s, x, Life.Stops)
  {
    hide FindUser, StopSession, RunSession, FromFailed, Finds;
    OtherFindersFind(s, name, x, None, 0);
    NoneFirst(s, FindUser(s, Some(name), Some(x)), OtherUsers(s, name, x));
    StoppedOne(s, x);
  }

  /** A switch to a user who has a session unlocks it, shows it, and stops the session that authenticated the user. */
  lemma SwitchReturns(s: Seat, env: Env, x: SessionId, name: Text, y: SessionId) returns (u: Seat)
    requires Listed(s) && LoggedIn(s, x) && s.all[x].life.username == Some(name) && FirstWith(s, y, OtherUsers(s, name, x))
    ensures Shows(s.(log := s.log + [Unlocked(y, Some(name))]), u, y) && |u.all| == |s.all| && SwitchComplete(s, env, x) == Lives(u, x, Life.Stops)
  {
    hide FindUser, SetActive, StopSession, GiveServer, CreateGreeter, Finds, Shows;
    OtherFindersFind(s, name, x, None, 0);
    FirstOnly(s, y, FindUser(s, Some(name), Some(x)), OtherUsers(s, name, x));
    var a := s.(log := s.log + [Unlocked(y, Some(name))]);
    NamedSo(s, y, OtherUsers(s, name, x), name);
    SetActiveShows(a, y);
    u := SetActive(a, y);
    ShowsLength(a, u, y);
    StoppedOne(u, x);
  }

  lemma NamedSo(s: Seat, y: SessionId, p: SessionId -> bool, name: Text)
    requires FirstWith(s, y, p) && forall z :: p(z) ==> AliveUser(s, z, name)
    ensures y < |s.all| && At(s, y).life.username == Some(name)
  {
  }

  /** A switch to a user without one awaits the new session, which is given a display server. */
  lemma SwitchAwaits(s: Seat, env: Env, x: SessionId, name: Text)
    requires Listed(s) && LoggedIn(s, x) && s.all[x].life.username == Some(name) && forall y <- s.sessions :: !OtherUsers(s, name, x)(y)
    ensures SwitchComplete(s, env, x) == GiveServer(s.(toActivate := Some(x)), env, x).seat
  {
    hide FindUser, StopSession, GiveServer, CreateGreeter, Finds;
    OtherFindersFind(s, name, x, None, 0);
    NoneFirst(s, FindUser(s, Some(name), Some(x)), OtherUsers(s, name, x));
  }

  /** A switch that fails stops its session and shows a greeter that can be reset. */
  lemma SwitchFails(s: Seat, env: Env, x: SessionId, g: SessionId)
    requires Listed(s) && x in s.sessions && !LoggedIn(s, x) && FirstWith(Lives(s, x, Life.Stops), g, Resettables(Lives(s, x, Life.Stops)))
    ensures Shows(Lives(s, x, Life.Stops).(log := s.log + [Reset(g)]), SwitchComplete(s, env, x), g)
  {
    hide FindResettable, SetActive, StopSession, GiveServer, CreateGreeter, Finds, Shows, Listed, FirstWith, Life.Step;
    MadeBefore(s, x);
    StoppedOne(s, x);
    LivesListed(s, x, Life.Stops);
    var t := Lives(s, x, Life.Stops);
    ResettableFound(t);
    FirstOnly(t, g, FindResettable(t), Resettables(t));
    var a := t.(log := t.log + [Reset(g)]);
    LogListed(t, a);
    SetActiveShows(a, g);
  }

  lemma MadeBefore(s: Seat, x: SessionId)
    requires Listed(s) && x in s.sessions
    ensures x < |s.all|
  {
  }

  lemma LogListed(s: Seat, t: Seat)
    requires Listed(s) && t == s.(log := t.log)
    ensures Listed(t)
  {
  }

  /** Without one it awaits a new greeter. */
  lemma SwitchFailsAnew(s: Seat, env: Env, x: SessionId) returns (ok: bool)
    requires Listed(s) && x in s.sessions && !LoggedIn(s, x) && forall g <- s.sessions :: !AliveResettable(Lives(s, x, Life.Stops), g)
    ensures AwaitsGreeter(Lives(s, x, Life.Stops), env, Outcome(SwitchComplete(s, env, x), ok))
  {
    hide FindResettable, StopSession, GiveServer, CreateGreeter, Finds, AwaitsGreeter, Listed, Life.Step, AliveResettable;
    MadeBefore(s, x);
    StoppedOne(s, x);
    LivesListed(s, x, Life.Stops);
    var t := Lives(s, x, Life.Stops);
    ResettableFound(t);
    NoneFirst(t, FindResettable(t), Resettables(t));
    GreeterAwaited(t, env);
    ok := GiveServer(CreateGreeter(t, env).(toActivate := Some(|t.all|)), env, |t.all|).ok;
  }

  /** Only a listed session's end of authentication concerns the seat, and one that a greeter asked for does not. */
  lemma CompletionHandled(s: Seat, env: Env, x: SessionId)
    ensures x !in s.sessions || (x < |s.all| && s.all[x].handler == ByGreeter) ==> OnComplete(s, env, x) == s
    ensures x in s.sessions && x < |s.all| && s.all[x].handler == Auto ==> OnComplete(s, env, x) == AutoComplete(s, env, x)
    ensures x in s.sessions && x < |s.all| && s.all[x].handler == Switch ==> OnComplete(s, env, x) == SwitchComplete(s, env, x)
  {
    hide AutoComplete, SwitchComplete;
  }

  // ------------------------------------------------------------------ the end of a session

  /** A session that leaves is off the list, and no longer active, next or awaited. */
  lemma Leaves(s: Seat, x: SessionId)
    requires Distinct(s.sessions)
    ensures var t := RemoveSession(s, x);
            && (forall y :: y in t.sessions <==> y in s.sessions && y != x)
            && t == s.(sessions := t.sessions, active := if s.active == Some(x) then None else s.active,
                       next := if s.next == Some(x) then None else s.next,
                       toActivate := if s.toActivate == Some(x) then None else s.toActivate)
  {
    WithoutFacts(s.sessions, x);
  }

  /** In a stopping seat that is all, and STOPPED if it was the last thing listed. */
  lemma LeavesStopping(s: Seat, env: Env, x: SessionId)
    requires s.stopping && !s.stopped
    ensures var t := RemoveSession(s, x);
            SessionStopped(s, env, x) ==
              if t.sessions == [] && t.servers == [] then t.(stopped := true, log := s.log + [SeatStopped(0, 0)]) else t
  {
  }

  /** A display server is needed by a listed session that is on it or on a server whose parent it is. */
  predicate Needed(s: Seat, d: ServerId) {
    exists x <- s.sessions :: x < |s.all| && s.all[x].server.Some?
      && (s.all[x].server.value == d
          || (s.all[x].server.value < |s.allServers| && s.allServers[s.all[x].server.value].parent == Some(d)))
  }

  /** Otherwise something follows, the session is announced as removed, and its display server is told to stop if nothing needs it. */
  lemma LeavesRunning(s: Seat, env: Env, x: SessionId)
    requires !s.stopping && x < |s.all|
    ensures var u := AfterStopped(RemoveSession(s, x), env, x);
            var t := u.(log := u.log + [Removed(x)]);
            var d := s.all[x].server;
            SessionStopped(s, env, x) ==
              if d.Some? && !(d.value < |u.allServers| && u.allServers[d.value].stopping) && d.value !in env.neverUnused && !Needed(u, d.value)
              then ServerTold(t, d) else t
  {
    hide AfterStopped, Without;
    var u := AfterStopped(RemoveSession(s, x), env, x);
    if s.all[x].server.Some? {
      NeededIs(u.(log := u.log + [Removed(x)]), s.all[x].server.value);
      NeededIs(u, s.all[x].server.value);
    }
  }

  lemma NeededIs(s: Seat, d: ServerId)
    ensures IsUsed(s, d) <==> Needed(s, d)
  {
    if IsUsed(s, d) {
      var x :| x in s.sessions && var e := At(s, x).server; e.Some? && (e.value == d || ServerAt(s, e.value).parent == Some(d));
      assert x < |s.all|;
    }
    if Needed(s, d) {
      var x :| x in s.sessions && x < |s.all| && s.all[x].server.Some?
        && (s.all[x].server.value == d
            || (s.all[x].server.value < |s.allServers| && s.allServers[s.all[x].server.value].parent == Some(d)));
      assert At(s, x) == s.all[x];
    }
  }

  /** The greeter has asked for a session to be started. */
  predicate AskedToStart(s: Seat, x: SessionId) {
    x < |s.all| && s.all[x].isGreeter && s.all[x].greeter < |s.greeters| && s.greeters[s.all[x].greeter].daemon.startSession
  }

  /**
    What follows a session: a greeter that was waiting to take a greeter's place goes on; a session
    on a server that it shares with the greeter that started it goes on; a greeter that leaves the
    last display server without having started anything ends the seat; after the session on the
    screen comes a greeter, or the end of the seat.
   */
  lemma WhatFollows(s: Seat, env: Env, x: SessionId)
    requires Listed(s) && x < |s.all|
    ensures var r := s.all[x];
            && (r.isGreeter && s.replacement.Some? ==> AfterStopped(s, env, x) == GoOn(s.(replacement := None), env, s.replacement.value))
            && (r.isGreeter && s.replacement.None? && AskedToStart(s, x) && Shareable(s, r.server) ==>
                  && (forall y: SessionId :: FirstWith(s, y, On(s, r.server)) ==> AfterStopped(s, env, x) == GoOn(s, env, y))
                  && ((forall y <- s.sessions :: !On(s, r.server)(y)) ==> AfterStopped(s, env, x) == s))
            && (r.isGreeter && s.replacement.None? && !AskedToStart(s, x) ==>
                  AfterStopped(s, env, x) == if r.server.Some? && s.servers == [r.server.value] then StopSeat(s) else s)
            && (r.isGreeter && s.replacement.None? && AskedToStart(s, x) && !Shareable(s, r.server) ==> AfterStopped(s, env, x) == s)
            && (!r.isGreeter ==> AfterStopped(s, env, x) == if env.visible == Some(x) then GreeterOrStop(s, env) else s)
  {
    hide GoOn, StopSeat, GreeterOrStop, FindOnServer, FirstWith;
    var d := s.all[x].server;
    SharesMade(s, s, d);
    FoundOnServer(s, d);
    var r, starts := At(s, x), At(s, x).isGreeter && GreeterAt(s, At(s, x).greeter).daemon.startSession;
    assert starts == AskedToStart(s, x);
  }

  lemma FoundOnServer(s: Seat, d: Option<ServerId>)
    requires Listed(s)
    ensures forall y: SessionId :: FirstWith(s, y, On(s, d)) ==> FindOnServer(s, d) == Some(y)
    ensures (forall y <- s.sessions :: !On(s, d)(y)) ==> FindOnServer(s, d) == None
  {
    hide Finds, FirstWith, FindOnServer;
    OtherFindersFind(s, [], 0, d, 0);
    forall y: SessionId | FirstWith(s, y, On(s, d)) ensures FindOnServer(s, d) == Some(y) {
      FirstOnly(s, y, FindOnServer(s, d), On(s, d));
    }
    if forall y <- s.sessions :: !On(s, d)(y) {
      NoneFirst(s, FindOnServer(s, d), On(s, d));
    }
  }

  /** The screen is left to a greeter, or the seat stops. */
  lemma GreeterElseStop(s: Seat, env: Env)
    ensures GreeterOrStop(s, env) == if SwitchToGreeter(s, env).ok then SwitchToGreeter(s, env).seat else StopSeat(SwitchToGreeter(s, env).seat)
  {
    hide SwitchToGreeter, StopSeat;
  }

  // ------------------------------------------------------------------ display servers

  /** A display server that has ended is off the list and has no process; the others stay as they are. */
  lemma ServerLeaves(s: Seat, d: ServerId)
    requires Listed(s) && d in s.servers
    ensures var t := RemoveServer(s, d);
            && d !in t.servers && (forall e :: e != d ==> (e in t.servers <==> e in s.servers))
            && t == s.(servers := t.servers, allServers := s.allServers[d := s.allServers[d].(launched := false)])
  {
    hide Without;
    WithoutFacts(s.servers, d);
    forall e: ServerId | e != d ensures e in Without(s.servers, d) <==> e in s.servers {
      if e in s.servers {
        WithoutOthers<ServerId>(s.servers, d, e);
      }
    }
  }

  /** Every living session on the server is told to stop, and no other. */
  ghost predicate ServersSessionsTold(s: Seat, t: Seat, d: ServerId) {
    && |t.all| == |s.all|
    && forall y :: 0 <= y < |s.all| ==>
         t.all[y] == if Alive(s, y) && s.all[y].server == Some(d) then s.all[y].(life := Life.Step(s.all[y].life, Life.Stops)) else s.all[y]
  }

  /** The greeter on the server never got as far as a child. */
  predicate GreeterFailed(s: Seat, x: SessionId, d: ServerId) {
    Alive(s, x) && s.all[x].server == Some(d) && s.all[x].isGreeter && s.all[x].life.pid == 0
  }

  /** Before the seat has started, or while it stops, that is all, and STOPPED if it stops and nothing is listed any more. */
  lemma ServerLeavesStopping(s: Seat, env: Env, d: ServerId)
    requires s.stopping || !s.started
    ensures var t := RemoveServer(s, d);
            ServerStopped(s, env, d) ==
              if s.stopping && !s.stopped && t.servers == [] && t.sessions == [] then t.(stopped := true, log := s.log + [SeatStopped(0, 0)]) else t
  {
  }

  /**
    Otherwise its sessions are told to stop. If one of them is a greeter that never ran and no
    server is left the seat stops; else, if nothing or a session of that server is on the screen,
    a greeter follows.
   */
  lemma ServerLeavesRunning(s: Seat, env: Env, d: ServerId) returns (t: Seat)
    requires Listed(s) && s.started && !s.stopping && d in s.servers
    ensures ServersSessionsTold(s, t, d) && t == RemoveServer(s, d).(all := t.all)
    ensures var failed := t.servers == [] && exists x <- s.sessions :: GreeterFailed(s, x, d);
            && (failed ==> ServerStopped(s, env, d) == StopSeat(t))
            && (!failed && (env.visible == None || (env.visible.value < |s.all| && s.all[env.visible.value].server == Some(d))) ==>
                  ServerStopped(s, env, d) == GreeterOrStop(t, env))
            && (!failed && env.visible.Some? && !(env.visible.value < |s.all| && s.all[env.visible.value].server == Some(d)) ==>
                  ServerStopped(s, env, d) == t)
  {
    hide StopWhere, StopSeat, GreeterOrStop, Without, Life.OnStop, Listed;
    var a := RemoveServer(s, d);
    t := StopWhere(a, LivingOn(s, d));
    StopWhereRest(a, LivingOn(s, d));
    forall y | 0 <= y < |s.all|
      ensures t.all[y].server == s.all[y].server
      ensures t.all[y] == if Alive(s, y) && s.all[y].server == Some(d) then s.all[y].(life := Life.Step(s.all[y].life, Life.Stops)) else s.all[y]
    {
      StopWhereAt(a, LivingOn(s, d), y);
    }
    SeatTold(t);
    FailedIs(s, d);
  }

  lemma FailedIs(s: Seat, d: ServerId)
    requires Listed(s)
    ensures (exists x <- s.sessions :: GreeterFailed(s, x, d)) <==>
              exists x <- s.sessions :: LivingOn(s, d)(x) && At(s, x).isGreeter && At(s, x).life.pid == 0
  {
    hide Distinct;
    forall x <- s.sessions ensures GreeterFailed(s, x, d) <==> LivingOn(s, d)(x) && At(s, x).isGreeter && At(s, x).life.pid == 0 {
    }
  }

  /** A display server that gets ready lets the first session go on that waits for it; without one, or if its script fails, it is told to stop. */
  lemma ServerReadies(s: Seat, env: Env, d: ServerId)
    requires Listed(s) && d < |s.allServers|
    ensures var t := s.(allServers := s.allServers[d := s.allServers[d].(ready := true)]);
            && (env.displayScriptFails ==> ServerReady(s, env, d) == ServerTold(t, Some(d)))
            && (!env.displayScriptFails && (forall y <- s.sessions :: !WaitingOn(s, d)(y)) ==> ServerReady(s, env, d) == ServerTold(t, Some(d)))
            && (!env.displayScriptFails ==> forall y: SessionId :: FirstWith(s, y, WaitingOn(s, d)) ==> ServerReady(s, env, d) == GoOn(t, env, y))
  {
    hide StopServer, GoOn, FindWaitingOnServer, FirstWith, Finds, Listed;
    var t := s.(allServers := s.allServers[d := s.allServers[d].(ready := true)]);
    assert Listed(t) && ServerTold(t, Some(d)) == StopServer(t, Some(d)) by { ReadyListed(s, d); }
    OtherFindersFind(t, [], 0, None, d);
    var found := FindWaitingOnServer(t, d);
    SameWaiting(s, t, d);
    if forall y <- s.sessions :: !WaitingOn(s, d)(y) {
      NoneFirst(t, found, WaitingOn(t, d));
    }
    forall y: SessionId | FirstWith(s, y, WaitingOn(s, d)) ensures found == Some(y) {
      FirstOnly(t, y, found, WaitingOn(t, d));
    }
  }

  lemma ReadyListed(s: Seat, d: ServerId)
    requires Listed(s) && d < |s.allServers|
    ensures var t := s.(allServers := s.allServers[d := s.allServers[d].(ready := true)]);
            Listed(t) && ServerTold(t, Some(d)) == StopServer(t, Some(d))
  {
  }

  lemma SameWaiting(s: Seat, t: Seat, d: ServerId)
    requires t.sessions == s.sessions && t.all == s.all
    ensures forall y :: WaitingOn(t, d)(y) == WaitingOn(s, d)(y)
    ensures forall y: SessionId :: FirstWith(s, y, WaitingOn(s, d)) == FirstWith(t, y, WaitingOn(t, d))
  {
  }

  // ------------------------------------------------------------------ children

  /** A report sets the session's record; the end of an authentication is noted and acted on. */
  lemma ReportFollows(s: Seat, env: Env, x: SessionId, r: ChildPipe.Report)
    requires x < |s.all|
    ensures !s.all[x].life.listening ==> OnChildReport(s, env, x, r) == s
    ensures s.all[x].life.listening && r.Asking? ==> OnChildReport(s, env, x, r) == Lives(s, x, Life.Reports(r))
    ensures s.all[x].life.listening && r.Done? ==>
              OnChildReport(s, env, x, r) == OnComplete(Lives(s, x, Life.Reports(r)).(log := s.log + [Reported(x, r.username, r.result)]), env, x)
  {
    hide OnComplete, Life.OnReport;
  }

  /** An exit in mid-authentication is first the end of that authentication; then a listed session has stopped. */
  lemma ExitFollows(s: Seat, env: Env, x: SessionId)
    requires x < |s.all|
    ensures s.all[x].life.pid <= 0 ==> OnChildExit(s, env, x) == s
    ensures s.all[x].life.pid > 0 ==>
              var t := Lives(s, x, Life.Exits);
              var u := if s.all[x].life.authStarted && !s.all[x].life.authComplete then OnComplete(t, env, x) else t;
              OnChildExit(s, env, x) == if x in u.sessions then SessionStopped(u, env, x) else u
  {
    hide OnComplete, SessionStopped, Life.OnExit;
  }

  // ------------------------------------------------------------------ greeters

  /** The session that a greeter holds is told to stop. */
  function HeldTold(s: Seat, g: GreeterId): Seat
    requires g < |s.greeters|
  {
    var held := s.greeters[g].daemon.session;
    if held.Some? && held.value < |s.all| then Lives(s, held.value, Life.Stops) else s
  }

  lemma HeldIs(s: Seat, g: GreeterId)
    requires g < |s.greeters|
    ensures StopHeld(s, g) == HeldTold(s, g)
  {
    hide Life.OnStop;
  }

  /** The display server of the seat's first greeter session; a greeter in a session has none to offer. */
  ghost predicate HostServer(s: Seat, g: GreeterId, server: Option<ServerId>)
    requires g < |s.greeters|
  {
    if s.greeters[g].inSession || forall y <- s.sessions :: !GreeterSessions(s)(y) then server == None
    else exists h: SessionId :: h < |s.all| && FirstWith(s, h, GreeterSessions(s)) && server == s.all[h].server
  }

  function NameOf(t: Option<Text>): Option<Text> {
    if t == Some([]) then None else t
  }

  /** A session is made for a greeter, on its display server, and its child is started. */
  lemma CreatedFor(s: Seat, env: Env, g: GreeterId, username: Option<Text>, isGuest: bool)
    requires Listed(s) && g < |s.greeters|
    ensures var t, n := CreateForGreeter(s, env, g, username, isGuest), |s.all|;
            && |t.all| == n + 1 && t.all[..n] == s.all && t == s.(all := t.all, sessions := s.sessions + [n])
            && var r := t.all[n];
               r.life == Life.Step(Life.New(username, isGuest), Starting(env, n)) && r.handler == ByGreeter && !r.isGreeter && HostServer(s, g, r.server)
  {
    hide GreeterSession, StartLife, ChildStarts, HostServer, Listed;
    var host := GreeterSession(s);
    var server := if GreeterAt(s, g).inSession || host.None? then None else At(s, host.value).server;
    HostIs(s, g);
    NewSessionStarts(s, env, NewRecord(username, isGuest, None, ByGreeter).(server := server));
  }

  lemma HostIs(s: Seat, g: GreeterId)
    requires Listed(s) && g < |s.greeters|
    ensures var host := GreeterSession(s);
            HostServer(s, g, if GreeterAt(s, g).inSession || host.None? then None else At(s, host.value).server)
  {
    hide GreeterSession, Finds, Listed, FirstWith;
    OtherFindersFind(s, [], 0, None, 0);
    var host := GreeterSession(s);
    FoundFirst(s, host, GreeterSessions(s));
    if host.Some? {
      GreeterListed(s, host.value);
    }
  }

  lemma GreeterListed(s: Seat, h: SessionId)
    requires FirstWith(s, h, GreeterSessions(s))
    ensures h < |s.all| && h in s.sessions && GreeterSessions(s)(h)
  {
  }

  /** What every message but a start does with the greeter's own state. */
  function DaemonSet(s: Seat, g: GreeterId, daemon: GreeterDaemon.State): Seat
    requires g < |s.greeters|
  {
    s.(greeters := s.greeters[g := s.greeters[g].(daemon := daemon)])
  }

  /**
    A user is to be authenticated: the session under way is told to stop, the user's living
    session, the active one aside, becomes the next one, and a session is made for the greeter,
    which holds it under the number of the message.
   */
  lemma UserMessage(s: Seat, env: Env, g: GreeterId, number: u32, username: Option<Text>) returns (v: Seat)
    requires Listed(s) && g < |s.greeters|
    ensures var t, n, d := GreeterMessage(s, env, g, LoginMessages.Authenticate(number, username)), |s.all|, s.greeters[g].daemon;
            && v == HeldTold(s, g).(next := v.next) && NextIs(HeldTold(s, g), g, NameOf(username), v.next)
            && t == DaemonSet(CreateForGreeter(v, env, g, NameOf(username), false), g,
                              d.(session := Some(n), number := number, guest := false, remote := None, activeUsername := NameOf(username)))
  {
    hide StopHeld, NameChanged, CreateForGreeter, GreeterDaemon.Handle;
    HeldIs(s, g);
    var a := StopHeld(s, g);
    v := NameChanged(a, g, NameOf(username));
    assert GreeterDaemon.NullIfEmpty(username) == NameOf(username);
    HeldListed(s, g);
    NextChanged(a, g, NameOf(username));
    GreeterDaemon.UserAnswered(s.greeters[g].daemon, number, username, World(s, env, g, Some(|s.all|)));
    MadeKeepsGreeters(v, env, g, NameOf(username), false);
  }

  lemma HeldListed(s: Seat, g: GreeterId)
    requires Listed(s) && g < |s.greeters|
    ensures Listed(HeldTold(s, g)) && HeldTold(s, g).greeters == s.greeters && |HeldTold(s, g).all| == |s.all|
  {
    hide Life.Step;
  }

  lemma MadeKeepsGreeters(s: Seat, env: Env, g: GreeterId, username: Option<Text>, isGuest: bool)
    ensures CreateForGreeter(s, env, g, username, isGuest).greeters == s.greeters
  {
    hide GreeterSession, Life.OnStart;
  }

  /** The next session is the first living one of the user but for the active one; a greeter in a session changes nothing. */
  ghost predicate NextIs(s: Seat, g: GreeterId, name: Option<Text>, next: Option<SessionId>)
    requires g < |s.greeters|
  {
    if s.greeters[g].inSession then next == s.next
    else if name == None then next == None
    else Finds(s, next, if s.active.Some? then OtherUsers(s, name.value, s.active.value) else Users(s, name.value))
  }

  lemma NextChanged(s: Seat, g: GreeterId, name: Option<Text>)
    requires Listed(s) && g < |s.greeters|
    ensures var t := NameChanged(s, g, name); t == s.(next := t.next) && NextIs(s, g, name, t.next)
  {
    hide FindUser, Finds, Listed, FirstWith;
    if name.None? {
      NobodyNamed(s);
    } else {
      UserFound(s, name.value, s.active);
    }
  }

  lemma NobodyNamed(s: Seat)
    ensures FindUser(s, None, s.active) == None
  {
  }

  /** A guest message, a cancellation and a remote login. */
  lemma OtherMessages(s: Seat, env: Env, g: GreeterId, number: u32, session: Option<Text>, username: Option<Text>)
    requires g < |s.greeters|
    ensures var d := s.greeters[g].daemon;
            && GreeterMessage(s, env, g, LoginMessages.AuthenticateAsGuest(number)) ==
                 DaemonSet(HeldTold(s, g), g, d.(guest := d.allowGuest, session := None, remote := None))
            && GreeterMessage(s, env, g, LoginMessages.CancelAuthentication) ==
                 (if d.session.None? then s else DaemonSet(HeldTold(s, g), g, d.(guest := false, session := None, remote := None)))
            && GreeterMessage(s, env, g, LoginMessages.AuthenticateRemote(number, session, username)) ==
                 if env.serviceKnown
                 then DaemonSet(CreateForGreeter(HeldTold(s, g), env, g, NameOf(username), true), g,
                                d.(guest := false, session := Some(|s.all|), number := number, remote := session))
                 else DaemonSet(HeldTold(s, g), g, d.(guest := false, session := None, remote := None))
  {
    hide StopHeld, CreateForGreeter, GreeterDaemon.Handle;
    HeldIs(s, g);
    var d, w := s.greeters[g].daemon, World(s, env, g, Some(|s.all|));
    GreeterDaemon.GuestAnswered(d, number, w);
    GreeterDaemon.CancelAnswered(d, w);
    GreeterDaemon.RemoteAnswered(d, number, session, username, w);
    assert GreeterDaemon.NullIfEmpty(username) == NameOf(username);
    HeldGreeters(s, g);
    MadeKeepsGreeters(HeldTold(s, g), env, g, NameOf(username), true);
    assert s.greeters[g := s.greeters[g].(daemon := d)] == s.greeters;
  }

  lemma HeldGreeters(s: Seat, g: GreeterId)
    requires g < |s.greeters|
    ensures HeldTold(s, g).greeters == s.greeters && |HeldTold(s, g).all| == |s.all| && (s.greeters[g].daemon.session.None? ==> HeldTold(s, g) == s)
  {
    hide Life.Step;
  }

  /** A start is acted on exactly for a guest who was let in or an authenticated session; then the greeter gives that session up. */
  lemma StartMessage(s: Seat, env: Env, g: GreeterId, name: Option<Text>)
    requires g < |s.greeters|
    ensures var d := s.greeters[g].daemon;
            var allowed := d.guest || (d.session.Some? && LoggedIn(s, d.session.value));
            var t := StartRequested(s, env, g).seat;
            GreeterMessage(s, env, g, LoginMessages.StartSession(name)) ==
              if !allowed then s
              else if g < |t.greeters| then DaemonSet(t, g, d.(startSession := true, session := if d.guest then d.session else None)) else t
  {
    hide StartRequested, GreeterDaemon.Handle;
    GreeterDaemon.StartAnswered(s.greeters[g].daemon, name, World(s, env, g, Some(|s.all|)));
  }

  /** A guest gets a new session, a user the one that was authenticated; without a session to run nothing happens. */
  lemma WhatIsStarted(s: Seat, env: Env, g: GreeterId)
    requires g < |s.greeters|
    ensures var d := s.greeters[g].daemon;
            && (!env.sessionConfigured || (!d.guest && d.session.None?) ==> StartRequested(s, env, g) == Outcome(s, false))
            && (env.sessionConfigured && d.guest ==>
                  StartRequested(s, env, g) ==
                    StartFor(s.(all := s.all + [Record(Life.New(None, true).(argv := env.argv), Auto, false, 0, None)], sessions := s.sessions + [|s.all|]),
                             env, g, |s.all|))
            && (env.sessionConfigured && !d.guest && d.session.Some? && d.session.value < |s.all| ==>
                  var x := d.session.value;
                  StartRequested(s, env, g) == StartFor(s.(all := s.all[x := s.all[x].(life := s.all[x].life.(argv := env.argv))]), env, g, x))
  {
    hide StartFor;
  }

  /**
    The session is awaited. If its user's first living session is another one, that one is unlocked
    and shown and the new one is told to stop.
   */
  lemma StartReturns(s: Seat, env: Env, g: GreeterId, x: SessionId, name: Text, y: SessionId) returns (u: Seat)
    requires Listed(s) && x < |s.all| && s.all[x].life.username == Some(name) && FirstWith(s, y, Users(s, name)) && y != x && x in s.sessions
    ensures StartFor(s, env, g, x) == Outcome(u, true)
    ensures var t := Lives(s, x, Life.Stops).(toActivate := Some(x)); Shows(t.(log := s.log + [Unlocked(y, Some(name))]), u, y)
  {
    hide FindUser, SetActive, StopSession, GiveServer, GreeterSession, SetServer, Finds, Shows, CanShare;
    var a := s.(toActivate := Some(x));
    assert Listed(a);
    FindersFind(a, name);
    assert Users(a, name)(y) && FirstWith(a, y, Users(a, name)) by { SameUsers(s, a, y, name); }
    FirstOnly(a, y, FindUser(a, Some(name), None), Users(a, name));
    StoppedOne(a, x);
    LivesListed(a, x, Life.Stops);
    NamedSo(s, y, Users(s, name), name);
    var b := Lives(a, x, Life.Stops);
    var c := b.(log := s.log + [Unlocked(y, Some(name))]);
    assert Unlock(b, y) == c;
    SetActiveShows(c, y);
    u := SetActive(c, y);
  }

  lemma SameUsers(s: Seat, t: Seat, y: SessionId, name: Text)
    requires t.all == s.all && t.sessions == s.sessions && FirstWith(s, y, Users(s, name))
    ensures FirstWith(t, y, Users(t, name)) && Users(t, name)(y)
  {
  }

  /**
    Otherwise it takes the display server of a greeter that cannot be reset, which is told to stop,
    if that server can be shared and is of the right kind; and is given one of its own if not.
   */
  lemma StartTakesServer(s: Seat, env: Env, g: GreeterId, x: SessionId) returns (t: Seat)
    requires Listed(s) && x < |s.all| && x in s.sessions && g < |s.greeters|
    requires s.all[x].life.username == None || forall y <- s.sessions :: y != x ==> !AliveUser(s, y, s.all[x].life.username.value)
    ensures t == s.(toActivate := Some(x))
    ensures forall h: SessionId :: FirstWith(s, h, GreeterSessions(s)) && h < |s.all| ==>
              StartFor(s, env, g, x) ==
                if !s.greeters[g].daemon.resettable && Shareable(s, s.all[h].server) && env.sameType
                then Outcome(StopSession(SetServer(t, x, s.all[h].server), h), true) else GiveServer(t, env, x)
    ensures (forall y <- s.sessions :: !GreeterSessions(s)(y)) ==> StartFor(s, env, g, x) == GiveServer(t, env, x)
  {
    hide FindUser, SetActive, StopSession, GiveServer, GreeterSession, SetServer, Finds, CanShare, FirstWith;
    t := s.(toActivate := Some(x));
    assert Listed(t);
    NobodyElsesSession(t, x);
    OtherFindersFind(t, [], 0, None, 0);
    var host := GreeterSession(t);
    FoundFirst(t, host, GreeterSessions(t));
    SameGreeters(s, t);
    forall h: SessionId | FirstWith(s, h, GreeterSessions(s)) ensures host == Some(h) {
      FirstOnly(t, h, host, GreeterSessions(t));
    }
    if host.Some? {
      GreeterHost(t, host.value);
      SharesMade(s, t, s.all[host.value].server);
    }
  }

  lemma GreeterHost(s: Seat, h: SessionId)
    requires FirstWith(s, h, GreeterSessions(s))
    ensures h < |s.all| && h in s.sessions && GreeterSessions(s)(h)
  {
    GreeterListed(s, h);
  }

  lemma SameGreeters(s: Seat, t: Seat)
    requires t.all == s.all && t.sessions == s.sessions
    ensures forall y :: GreeterSessions(t)(y) == GreeterSessions(s)(y)
    ensures forall h: SessionId :: FirstWith(s, h, GreeterSessions(s)) == FirstWith(t, h, GreeterSessions(t))
  {
  }

  /** No other living session is the user's. */
  lemma NobodyElsesSession(s: Seat, x: SessionId)
    requires Listed(s) && x < |s.all|
    requires s.all[x].life.username == None || forall y <- s.sessions :: y != x ==> !AliveUser(s, y, s.all[x].life.username.value)
    ensures var r := FindUser(s, At(s, x).life.username, None); r.Some? ==> r.value == x
  {
    hide Finds;
    match s.all[x].life.username {
      case None => FindersFind(s, []);
      case Some(name) =>
        FindersFind(s, name);
        FoundFirst(s, FindUser(s, Some(name), None), Users(s, name));
    }
  }

  // ------------------------------------------------------------------ the start of a seat

  /** A session is awaited with its display server; without one that starts, both are told to stop. */
  function Tried(s: Seat, env: Env, x: SessionId): Outcome {
    var o := GiveServer(s.(toActivate := Some(x)), env, x);
    if o.ok || x >= |o.seat.all| then o
    else Outcome(ServerTold(Lives(o.seat, x, Life.Stops), o.seat.all[x].server), false)
  }

  lemma TriedIs(s: Seat, env: Env, x: SessionId)
    requires x < |s.all|
    ensures ShowFirst(s, env, x) == Tried(s, env, x)
  {
    hide GiveServer, StopSession;
    GivenAll(s.(toActivate := Some(x)), env, x);
    var o := GiveServer(s.(toActivate := Some(x)), env, x);
    StoppedOne(o.seat, x);
  }

  /** The session that is to log in by itself, if there is one and it can be run. */
  function LoginRecord(env: Env, login: Autologin): Option<Record> {
    match login
    case NoAutologin => None
    case Guest => if env.sessionConfigured then Some(Record(Life.New(None, true).(argv := env.argv), Auto, false, 0, None)) else None
    case User(name) =>
      if env.sessionConfigured && env.userKnown then Some(Record(Life.New(Some(name), false).(argv := env.argv), Auto, false, 0, None)) else None
  }

  /** A greeter is made and tried; the seat has started if it gets a display server and stops if not. */
  function WithGreeter(s: Seat, env: Env): Outcome {
    Tried(CreateGreeter(s, env), env, |s.all|)
  }

  /**
    A seat starts with the automatic login if that is to be in front and gets its display server.
    Otherwise it starts with a greeter, and the login in the background gets its server after it.
    Without a greeter to fall back to it has not started.
   */
  lemma SeatStartsWith(s: Seat, env: Env, login: Autologin, inBackground: bool)
    ensures var x := |s.all|;
            var r := LoginRecord(env, login);
            var t := if r.Some? then s.(all := s.all + [r.value], sessions := s.sessions + [x]) else s;
            var front := r.Some? && !inBackground;
            var first := if front then Tried(t, env, x) else Outcome(t, false);
            && (first.ok ==> StartSeat(s, env, login, inBackground) == first.seat.(started := true))
            && (!first.ok && !env.greeterConfigured ==> StartSeat(s, env, login, inBackground) == first.seat)
            && (!first.ok && env.greeterConfigured ==>
                  var second := WithGreeter(first.seat, env);
                  && (!second.ok ==> StartSeat(s, env, login, inBackground) == StopSeat(second.seat))
                  && (second.ok ==>
                        StartSeat(s, env, login, inBackground) ==
                          (if r.Some? && inBackground then GiveServer(second.seat, env, x).seat else second.seat).(started := true)))
  {
    hide ShowFirst, CreateGreeter, GiveServer, StopSeat, Tried;
    var x, r := |s.all|, LoginRecord(env, login);
    var t := if r.Some? then s.(all := s.all + [r.value], sessions := s.sessions + [x]) else s;
    if r.Some? && !inBackground {
      TriedIs(t, env, x);
    }
    var first := if r.Some? && !inBackground then ShowFirst(t, env, x) else Outcome(t, false);
    GreeterMade(first.seat, env);
    TriedIs(CreateGreeter(first.seat, env), env, |first.seat.all|);
  }

  // ------------------------------------------------------------------ what reaches the seat

  /** A new seat: nothing listed, nobody shown or awaited, neither started nor stopping. */
  lemma BeginsEmpty(config: Config)
    ensures var s := Initial(config);
            && s.config == config && s.all == [] && s.allServers == [] && s.greeters == [] && s.sessions == [] && s.servers == [] && s.log == []
            && s.active == None && s.next == None && s.toActivate == None && s.replacement == None && !(s.started || s.stopping || s.stopped)
  {
  }

  /**
    Signals of what is listed reach the seat and no others: STOPPED of a session that was told to
    stop and has no child, READY of a listed display server, and STOPPED of one that was launched.
   */
  lemma SignalsReach(s: Seat, env: Env, x: SessionId, d: ServerId)
    requires Listed(s)
    ensures var e := StopDelivered(x);
            && (x in s.sessions && s.all[x].life.stopping && s.all[x].life.pid <= 0 ==> Next(s, env, e) == SessionStopped(s, env, x))
            && (x !in s.sessions || !s.all[x].life.stopping || s.all[x].life.pid > 0 ==> Next(s, env, e) == s)
    ensures d in s.servers ==> Next(s, env, ServerGetsReady(d)) == ServerReady(s, env, d)
    ensures d !in s.servers ==> Next(s, env, ServerGetsReady(d)) == s
    ensures d in s.servers && s.allServers[d].launched ==> Next(s, env, ServerStops(d)) == ServerStopped(s, env, d)
    ensures d !in s.servers || !s.allServers[d].launched ==> Next(s, env, ServerStops(d)) == s
    ensures d < |s.allServers| ==> Next(s, env, ServerLaunches(d)) == s.(allServers := s.allServers[d := s.allServers[d].(launched := true)])
  {
    hide SessionStopped, ServerReady, ServerStopped, OnChildReport, OnChildExit, GreeterMessage, StartSeat, StopSeat, SwitchToGreeter, SwitchToUser,
         SwitchToGuest, Lock;
  }

  /** A child that falls silent changes its own session only; its reports and exits are followed up. */
  lemma ChildrenReach(s: Seat, env: Env, x: SessionId, r: ChildPipe.Report, username: Option<Text>)
    ensures Next(s, env, ChildReports(x, r)) == OnChildReport(s, env, x, r) && Next(s, env, ChildExits(x)) == OnChildExit(s, env, x)
    ensures x < |s.all| ==>
              Next(s, env, ChildHangsUp(x)) == Lives(s, x, Life.HangsUp) && Next(s, env, ChildBreaksOff(x, username)) == Lives(s, x, Life.BreaksOff(username))
  {
    hide SessionStopped, ServerReady, ServerStopped, OnChildReport, OnChildExit, GreeterMessage, StartSeat, StopSeat, SwitchToGreeter, SwitchToUser,
         SwitchToGuest, Lock, Life.Step;
  }

  /** Requests are carried out; a listed session that is shown from outside is the active one; messages of known greeters are read. */
  lemma RequestsReach(s: Seat, env: Env, x: SessionId, g: GreeterId, r: LoginMessages.Request, name: Text, login: Autologin, inBackground: bool)
    ensures Next(s, env, StartsSeat(login, inBackground)) == StartSeat(s, env, login, inBackground) && Next(s, env, StopsSeat) == StopSeat(s)
    ensures Next(s, env, SwitchesToGreeter) == SwitchToGreeter(s, env).seat && Next(s, env, SwitchesToUser(name)) == SwitchToUser(s, env, name).seat
    ensures Next(s, env, SwitchesToGuest) == SwitchToGuest(s, env).seat && Next(s, env, Locks) == Lock(s, env).seat
    ensures Next(s, env, ActivatedOutside(x)) == if x in s.sessions then s.(active := Some(x)) else s
    ensures Next(s, env, Message(g, r)) == if g < |s.greeters| then GreeterMessage(s, env, g, r) else s
    ensures var t := Next(s, env, OpensGreeter);
            && t == s.(greeters := t.greeters) && |t.greeters| == |s.greeters| + 1 && t.greeters[..|s.greeters|] == s.greeters
            && t.greeters[|s.greeters|].inSession && t.greeters[|s.greeters|].daemon.allowGuest == s.config.allowGuest
            && !t.greeters[|s.greeters|].daemon.guest && t.greeters[|s.greeters|].daemon.session == None
  {
    hide SessionStopped, ServerReady, ServerStopped, OnChildReport, OnChildExit, GreeterMessage, StartSeat, StopSeat, SwitchToGreeter, SwitchToUser,
         SwitchToGuest, Lock;
  }
}
