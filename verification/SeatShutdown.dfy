/**
  How a seat stops (src/seat.c): once everything listed has been told to stop, each stop signal
  takes one session or display server off the lists until the seat emits STOPPED.
 */
module SeatShutdown {
  import opened Octets
  import opened Lists
  import Life = SessionLife
  import opened Seats
  import opened SeatSafety
  import opened SeatServers
  import GreeterDaemon
  import LoginMessages
  import ChildPipe

  ghost predicate AllStopping(s: Seat) {
    && (forall x <- s.sessions :: IsStopping(s, x))
    && (forall d <- s.servers :: ServerAt(s, d).stopping)
  }

  /**
    After `seat_real_stop` every listed session and display server is stopping. (A seat that has
    emitted STOPPED before it was stopped does not exist: `stopped` implies `stopping`.)
   */
  lemma StopSeatStopsAll(s: Seat)
    requires Listed(s) && !s.stopping && !s.stopped
    ensures var t := StopSeat(s);
            && t.stopping && AllStopping(t) && t.sessions == s.sessions && t.servers == s.servers
            && (t.stopped <==> s.sessions == [] && s.servers == [])
  {
    var t := CheckStopped(s.(stopping := true));
    if !t.stopped {
      var u := StopAllServers(t);
      var v := StopWhere(u, ListedIn(s));
      forall x <- v.sessions ensures IsStopping(v, x) {
        assert v.all[x] == u.all[x].(life := Life.OnStop(u.all[x].life));
      }
    }
  }

  // ------------------------------------------------------------------ draining

  /** The seat itself waits for this session's authentication. */
  predicate SeatAuthenticates(r: Record) {
    MidAuth(r.life) && !r.handler.ByGreeter?
  }

  ghost predicate Draining(s: Seat) {
    && Listed(s) && s.stopping && AllStopping(s)
    && (forall x <- s.sessions :: !SeatAuthenticates(At(s, x)))
    && (s.sessions == [] && s.servers == [] ==> s.stopped)
  }

  function Total(s: Seat): nat {
    |s.sessions| + |s.servers|
  }

  /** The seat has not emitted STOPPED with anything listed. */
  predicate StoppedEmpty(s: Seat) {
    s.stopped ==> Total(s) == 0
  }

  /** As many are taken off the lists, and a STOPPED that comes meanwhile comes with none left. */
  ghost predicate Drained(s: Seat, t: Seat, n: nat) {
    Draining(t) && Total(t) + n == Total(s) && (StoppedEmpty(s) ==> StoppedEmpty(t))
  }

  /**
    A stop leaves a seat that drains exactly when the seat is not in the middle of an
    authentication of its own.
   */
  lemma StopBeginsDraining(s: Seat)
    requires Listed(s) && !s.stopping && !s.stopped
    ensures Draining(StopSeat(s)) <==> forall x <- s.sessions :: !SeatAuthenticates(At(s, x))
    ensures Total(StopSeat(s)) == Total(s) && StoppedEmpty(StopSeat(s))
    ensures forall d <- s.servers :: ServerAt(StopSeat(s), d).launched == ServerAt(s, d).launched
  {
    hide Distinct;
    StopSeatStopsAll(s);
    var t := StopSeat(s);
    assert Listed(t);
    forall x <- s.sessions ensures SeatAuthenticates(At(t, x)) == SeatAuthenticates(At(s, x)) {
      assert t.all[x] == s.all[x].(life := Life.OnStop(s.all[x].life));
    }
  }

  /** A stop signal of something listed. */
  predicate IsStop(s: Seat, e: Event) {
    || (e.ChildExits? && e.session in s.sessions && At(s, e.session).life.pid > 0)
    || (e.StopDelivered? && HasStopped(s, e.session))
    || (e.ServerStops? && e.server in s.servers && ServerAt(s, e.server).launched)
  }

  /** A child or a display server makes itself heard; nobody asks for anything. */
  predicate IsSignal(e: Event) {
    e.ChildReports? || e.ChildBreaksOff? || e.ChildHangsUp? || e.ChildExits? || e.StopDelivered?
    || e.ServerLaunches? || e.ServerGetsReady? || e.ServerStops?
  }

  /** The end of an authentication that the seat itself acts on. */
  predicate Completes(s: Seat, e: Event) {
    e.ChildReports? && e.report.Done? && e.session in s.sessions && !At(s, e.session).handler.ByGreeter? && At(s, e.session).life.listening
  }

  /**
    Some stop signal can still come exactly while a session is listed or a display server that was
    launched. A server that waits for its compositor, or a compositor that did not start, has no
    process: `process_stop` returns without a word.
   */
  lemma SomethingStops(s: Seat)
    requires Draining(s)
    ensures (exists e :: IsStop(s, e)) <==> s.sessions != [] || exists d <- s.servers :: ServerAt(s, d).launched
  {
    if s.sessions != [] {
      var x := s.sessions[0];
      assert x in s.sessions;
      assert IsStop(s, ChildExits(x)) || IsStop(s, StopDelivered(x));
    } else if d :| d in s.servers && ServerAt(s, d).launched {
      assert IsStop(s, ServerStops(d));
    }
  }

  /** A session leaves a seat that is stopping. */
  lemma LeaveDrains(s: Seat, env: Env, x: SessionId)
    requires Listed(s) && s.stopping && AllStopping(s) && x in s.sessions
    requires forall y <- s.sessions :: y != x ==> !SeatAuthenticates(At(s, y))
    ensures Drained(s, SessionStopped(s, env, x), 1)
  {
    hide Distinct, Without, AfterStopped;
    WithoutFacts(s.sessions, x);
  }

  /** The child's exit alone changes its session's record only. */
  lemma Exited(s: Seat, x: SessionId)
    requires Listed(s) && AllStopping(s)
    ensures var t := Put(s, x, At(s, x).(life := Life.OnExit(At(s, x).life)));
            && Listed(t) && AllStopping(t) && t.stopping == s.stopping && t.stopped == s.stopped && |t.all| == |s.all|
            && t.sessions == s.sessions && t.servers == s.servers
            && (forall y :: y != x ==> At(t, y) == At(s, y))
            && At(t, x).handler == At(s, x).handler && At(t, x).isGreeter == At(s, x).isGreeter
            && (MidAuth(At(s, x).life) && At(s, x).life.pid > 0 && x < |s.all| ==> !IsAuthenticated(t, x))
  {
    hide Distinct;
    var t := Put(s, x, At(s, x).(life := Life.OnExit(At(s, x).life)));
    forall y <- t.sessions ensures IsStopping(t, y) {
      assert IsStopping(s, y);
    }
    forall d <- t.servers ensures ServerAt(t, d).stopping {
      assert ServerAt(s, d).stopping;
    }
  }

  lemma ExitDrains(s: Seat, env: Env, x: SessionId)
    requires Draining(s) && x in s.sessions && At(s, x).life.pid > 0
    ensures Drained(s, Next(s, env, ChildExits(x)), 1)
  {
    hide SessionStopped, Listed, AllStopping, Draining, Put, AutoComplete, SwitchComplete;
    DrainingFacts(s);
    var t := Put(s, x, At(s, x).(life := Life.OnExit(At(s, x).life)));
    Exited(s, x);
    LeaveDrains(t, env, x);
  }

  lemma DrainingFacts(s: Seat)
    requires Draining(s)
    ensures Listed(s) && s.stopping && AllStopping(s) && (forall y <- s.sessions :: !SeatAuthenticates(At(s, y)))
  {
  }

  lemma ServerStopDrains(s: Seat, env: Env, d: ServerId)
    requires Draining(s) && d in s.servers && ServerAt(s, d).launched
    ensures Drained(s, Next(s, env, ServerStops(d)), 1)
  {
    hide Distinct, Without, GreeterOrStop, OnChildReport, OnChildExit, SessionStopped, ServerReady, Put,
         StartSeat, StopSeat, SwitchToGreeter, SwitchToUser, SwitchToGuest, Lock, GreeterMessage;
    WithoutFacts(s.servers, d);
  }

  /** With no authentication of the seat under way and no new requests, each stop signal shrinks the lists by one. */
  lemma StopDrains(s: Seat, env: Env, e: Event)
    requires Draining(s) && IsStop(s, e)
    ensures Drained(s, Next(s, env, e), 1)
  {
    hide Next, Draining;
    DrainingFacts(s);
    match e {
      case ChildExits(x) => ExitDrains(s, env, x);
      case ServerStops(d) => ServerStopDrains(s, env, d);
      case StopDelivered(x) =>
        LeaveDrains(s, env, x);
        NextDelivered(s, env, x);
    }
  }

  lemma NextDelivered(s: Seat, env: Env, x: SessionId)
    requires HasStopped(s, x)
    ensures Next(s, env, StopDelivered(x)) == SessionStopped(s, env, x)
  {
    hide SessionStopped, OnChildReport, OnChildExit, ServerReady, ServerStopped, Put,
         StartSeat, StopSeat, SwitchToGreeter, SwitchToUser, SwitchToGuest, Lock, GreeterMessage;
  }

  lemma ReadyIdles(s: Seat, env: Env, d: ServerId)
    requires Draining(s)
    ensures Drained(s, Next(s, env, ServerGetsReady(d)), 0)
  {
    hide GoOn, Distinct, SeatAuthenticates, OnChildReport, OnChildExit, SessionStopped, ServerStopped, Put,
         StartSeat, StopSeat, SwitchToGreeter, SwitchToUser, SwitchToGuest, Lock, GreeterMessage;
    if d in s.servers {
      var t := s.(allServers := s.allServers[d := s.allServers[d].(ready := true)]);
      forall x <- t.sessions ensures IsStopping(t, x) {
        assert IsStopping(s, x);
      }
      assert FindWaitingOnServer(t, d).None?;
      forall x <- t.sessions ensures At(t, x) == At(s, x) {
      }
    }
  }

  lemma LaunchIdles(s: Seat, env: Env, d: ServerId)
    requires Draining(s)
    ensures Drained(s, Next(s, env, ServerLaunches(d)), 0)
  {
    hide Distinct, SeatAuthenticates, OnChildReport, OnChildExit, SessionStopped, ServerStopped, ServerReady, Put,
         StartSeat, StopSeat, SwitchToGreeter, SwitchToUser, SwitchToGuest, Lock, GreeterMessage;
    var t := Launch(s, d);
    forall x <- t.sessions ensures IsStopping(t, x) && At(t, x) == At(s, x) {
      assert IsStopping(s, x);
    }
  }

  lemma ReportIdles(s: Seat, env: Env, x: SessionId, r: ChildPipe.Report)
    requires Draining(s) && !Completes(s, ChildReports(x, r))
    ensures Drained(s, Next(s, env, ChildReports(x, r)), 0)
  {
    hide Distinct, OnChildExit, SessionStopped, ServerReady, ServerStopped, AutoComplete, SwitchComplete,
         StartSeat, StopSeat, SwitchToGreeter, SwitchToUser, SwitchToGuest, Lock, GreeterMessage;
    var t := Next(s, env, ChildReports(x, r));
    assert t.sessions == s.sessions && t.servers == s.servers;
    forall y <- t.sessions ensures IsStopping(t, y) && !SeatAuthenticates(At(t, y)) {
      assert IsStopping(s, y) && !SeatAuthenticates(At(s, y));
    }
  }

  /** A child that falls silent stops nothing. */
  lemma SilentIdles(s: Seat, env: Env, e: Event)
    requires Draining(s) && (e.ChildHangsUp? || e.ChildBreaksOff?)
    ensures var t := Next(s, env, e); Drained(s, t, 0) && t.servers == s.servers && t.allServers == s.allServers
  {
    hide Distinct, OnChildReport, OnChildExit, SessionStopped, ServerReady, ServerStopped,
         StartSeat, StopSeat, SwitchToGreeter, SwitchToUser, SwitchToGuest, Lock, GreeterMessage;
    var t := Next(s, env, e);
    assert t.sessions == s.sessions && t.servers == s.servers;
    forall y <- t.sessions ensures IsStopping(t, y) && !SeatAuthenticates(At(t, y)) {
      assert IsStopping(s, y) && !SeatAuthenticates(At(s, y));
    }
  }

  /** A signal of what is not there, or not listed, stops nothing. */
  lemma StrayIdles(s: Seat, env: Env, e: Event)
    requires Draining(s) && (e.ChildExits? || e.StopDelivered? || e.ServerStops?) && !IsStop(s, e)
    ensures var t := Next(s, env, e); Drained(s, t, 0) && t.servers == s.servers && t.allServers == s.allServers
  {
    hide Distinct, OnChildReport, SessionStopped, ServerReady, ServerStopped, AutoComplete, SwitchComplete, SeatAuthenticates,
         StartSeat, StopSeat, SwitchToGreeter, SwitchToUser, SwitchToGuest, Lock, GreeterMessage;
    if e.ChildExits? && At(s, e.session).life.pid > 0 {
      var t := Put(s, e.session, At(s, e.session).(life := Life.OnExit(At(s, e.session).life)));
      assert Next(s, env, e) == t;
      forall y <- t.sessions ensures IsStopping(t, y) && At(t, y) == At(s, y) {
        assert IsStopping(s, y);
      }
    } else {
      assert Next(s, env, e) == s;
    }
  }

  lemma SignalDrains(s: Seat, env: Env, e: Event)
    requires Draining(s) && IsSignal(e) && !Completes(s, e)
    ensures Drained(s, Next(s, env, e), if IsStop(s, e) then 1 else 0)
  {
    hide Next, Draining, IsStop;
    if IsStop(s, e) {
      StopDrains(s, env, e);
    } else if e.ServerGetsReady? {
      ReadyIdles(s, env, e.server);
    } else if e.ServerLaunches? {
      LaunchIdles(s, env, e.server);
    } else if e.ChildHangsUp? || e.ChildBreaksOff? {
      SilentIdles(s, env, e);
    } else if e.ChildExits? || e.StopDelivered? || e.ServerStops? {
      StrayIdles(s, env, e);
    } else {
      ReportIdles(s, env, e.session, e.report);
    }
  }

  /** Nothing but signals, none of them the end of an authentication that the seat itself acts on. */
  ghost predicate OnlySignals(s: Seat, hs: seq<Happening>)
    decreases |hs|
  {
    hs == [] || (IsSignal(hs[0].event) && !Completes(s, hs[0].event) && OnlySignals(Next(s, hs[0].env, hs[0].event), hs[1..]))
  }

  function Stops(s: Seat, hs: seq<Happening>): nat
    decreases |hs|
  {
    if hs == [] then 0
    else (if IsStop(s, hs[0].event) then 1 else 0) + Stops(Next(s, hs[0].env, hs[0].event), hs[1..])
  }

  /**
    From a seat whose everything is stopping, any run of signals, but for the end of an
    authentication that the seat itself acts on, takes off as many sessions and servers as it has
    stop signals, and once none is left the seat has stopped.
   */
  lemma {:induction false} Drains(s: Seat, hs: seq<Happening>)
    requires Draining(s) && OnlySignals(s, hs)
    ensures Drained(s, Run(s, hs), Stops(s, hs))
    ensures Stops(s, hs) == Total(s) ==> Run(s, hs).stopped
    ensures StoppedEmpty(s) && Run(s, hs).stopped ==> Stops(s, hs) == Total(s)
    decreases |hs|
  {
    hide Next, Draining, IsStop;
    if hs != [] {
      SignalDrains(s, hs[0].env, hs[0].event);
      Drains(Next(s, hs[0].env, hs[0].event), hs[1..]);
    }
    DrainedStopped(Run(s, hs));
  }

  lemma DrainedStopped(s: Seat)
    ensures Draining(s) && Total(s) == 0 ==> s.stopped
  {
  }

  /**
    From the stop to STOPPED. A seat that is stopped while it authenticates nobody itself emits
    STOPPED in a run of signals exactly when as many stop signals have come as sessions and
    display servers were listed when it was stopped.
   */
  lemma StopToStopped(s: Seat, env: Env, hs: seq<Happening>)
    requires Listed(s) && !s.stopping && !s.stopped && forall x <- s.sessions :: !SeatAuthenticates(At(s, x))
    requires OnlySignals(StopSeat(s), hs)
    ensures var t := Run(s, [Happening(env, StopsSeat)] + hs);
            && Total(t) + Stops(StopSeat(s), hs) == Total(s)
            && (t.stopped <==> Stops(StopSeat(s), hs) == Total(s))
  {
    hide Listed, StopSeat, Draining, SeatAuthenticates, OnlySignals, Stops;
    StopBeginsDraining(s);
    Drains(StopSeat(s), hs);
    var all := [Happening(env, StopsSeat)] + hs;
    assert all[1..] == hs && Next(s, env, StopsSeat) == StopSeat(s);
  }

  // ------------------------------------------------------------------ servers that were never launched

  predicate AllLaunched(s: Seat) {
    forall d <- s.servers :: ServerAt(s, d).launched
  }

  /** Only servers with a process leave the list, and no other server's process comes or goes. */
  ghost predicate LaunchedKept(s: Seat, t: Seat) {
    && (forall d <- t.servers :: d in s.servers && ServerAt(t, d).launched == ServerAt(s, d).launched)
    && (forall d <- s.servers :: !ServerAt(s, d).launched ==> d in t.servers)
  }

  lemma SameServers(s: Seat, t: Seat)
    requires t.servers == s.servers && t.allServers == s.allServers
    ensures LaunchedKept(s, t)
  {
  }

  lemma SessionStopServers(s: Seat, env: Env, x: SessionId)
    requires s.stopping
    ensures var t := SessionStopped(s, env, x); t.servers == s.servers && t.allServers == s.allServers
  {
    hide AfterStopped, Without;
  }

  lemma ExitServers(s: Seat, env: Env, x: SessionId)
    requires Draining(s) && x in s.sessions && At(s, x).life.pid > 0
    ensures var t := Next(s, env, ChildExits(x)); t.servers == s.servers && t.allServers == s.allServers
  {
    hide SessionStopped, AutoComplete, SwitchComplete, Listed, AllStopping;
    var t := Put(s, x, At(s, x).(life := Life.OnExit(At(s, x).life)));
    SessionStopServers(t, env, x);
  }

  lemma ReportServers(s: Seat, env: Env, x: SessionId, r: ChildPipe.Report)
    requires !Completes(s, ChildReports(x, r))
    ensures var t := Next(s, env, ChildReports(x, r)); t.servers == s.servers && t.allServers == s.allServers
  {
    hide AutoComplete, SwitchComplete;
  }

  lemma ReadyServers(s: Seat, env: Env, d: ServerId)
    requires Draining(s)
    ensures LaunchedKept(s, Next(s, env, ServerGetsReady(d)))
  {
    hide GoOn, Distinct, SeatAuthenticates;
    SameServers(s, s);
    if d in s.servers {
      var t := s.(allServers := s.allServers[d := s.allServers[d].(ready := true)]);
      forall x <- t.sessions ensures IsStopping(t, x) {
        assert IsStopping(s, x);
      }
      assert FindWaitingOnServer(t, d).None?;
    }
  }

  lemma StopServers(s: Seat, env: Env, d: ServerId)
    requires Draining(s) && d in s.servers && ServerAt(s, d).launched
    ensures LaunchedKept(s, Next(s, env, ServerStops(d)))
  {
    hide Without, GreeterOrStop, SeatAuthenticates;
    WithoutFacts(s.servers, d);
    forall e <- s.servers | e != d ensures e in Without(s.servers, d) {
      WithoutOthers<ServerId>(s.servers, d, e);
    }
  }

  lemma StopFacts(s: Seat, e: Event)
    requires IsStop(s, e)
    ensures e.ChildExits? ==> e.session in s.sessions && At(s, e.session).life.pid > 0
    ensures e.StopDelivered? ==> HasStopped(s, e.session)
    ensures e.ServerStops? ==> e.server in s.servers && ServerAt(s, e.server).launched
  {
  }

  lemma SignalServers(s: Seat, env: Env, e: Event)
    requires Draining(s) && IsSignal(e) && !Completes(s, e) && !e.ServerLaunches?
    ensures LaunchedKept(s, Next(s, env, e))
  {
    hide Next, Draining, LaunchedKept, SessionStopped, IsStop, Completes;
    DrainingFacts(s);
    if (e.ChildExits? || e.StopDelivered? || e.ServerStops?) && !IsStop(s, e) {
      StrayIdles(s, env, e);
      SameServers(s, Next(s, env, e));
      return;
    }
    if e.ChildExits? || e.StopDelivered? || e.ServerStops? {
      StopFacts(s, e);
    }
    match e {
      case ChildExits(x) =>
        ExitServers(s, env, x);
        SameServers(s, Next(s, env, e));
      case ChildReports(x, r) =>
        ReportServers(s, env, x, r);
        SameServers(s, Next(s, env, e));
      case StopDelivered(x) =>
        NextDelivered(s, env, x);
        SessionStopServers(s, env, x);
        SameServers(s, Next(s, env, e));
      case ChildHangsUp(x) =>
        SilentIdles(s, env, e);
        SameServers(s, Next(s, env, e));
      case ChildBreaksOff(x, u) =>
        SilentIdles(s, env, e);
        SameServers(s, Next(s, env, e));
      case ServerGetsReady(d) => ReadyServers(s, env, d);
      case ServerStops(d) => StopServers(s, env, d);
    }
  }

  ghost predicate NoneLaunches(hs: seq<Happening>) {
    forall h <- hs :: !h.event.ServerLaunches?
  }

  /** A display server without a process stays listed whatever else stops. */
  lemma {:induction false} UnlaunchedStays(s: Seat, hs: seq<Happening>, d: ServerId)
    requires Draining(s) && OnlySignals(s, hs) && NoneLaunches(hs) && d in s.servers && !ServerAt(s, d).launched
    ensures d in Run(s, hs).servers && NeverLaunched(s, hs, d)
    decreases |hs|
  {
    hide Next, Draining, IsStop;
    if hs != [] {
      var env, e := hs[0].env, hs[0].event;
      assert hs[0] in hs;
      SignalServers(s, env, e);
      SignalDrains(s, env, e);
      assert NoneLaunches(hs[1..]);
      UnlaunchedStays(Next(s, env, e), hs[1..], d);
    }
  }

  /** The stop signals that empty a seat all of whose servers have a process. */
  lemma {:induction false} SignalsThatEmpty(s: Seat) returns (hs: seq<Happening>)
    requires Draining(s) && AllLaunched(s)
    ensures OnlySignals(s, hs) && NoneLaunches(hs) && Total(Run(s, hs)) == 0
    decreases Total(s)
  {
    hide Next, Draining;
    hs := [];
    if Total(s) > 0 {
      SomethingStops(s);
      assert s.sessions == [] ==> s.servers[0] in s.servers;
      var e :| IsStop(s, e);
      var env := Plain([]);
      StopDrains(s, env, e);
      SignalServers(s, env, e);
      var rest := SignalsThatEmpty(Next(s, env, e));
      hs := [Happening(env, e)] + rest;
      assert hs[1..] == rest;
    }
  }

  /**
    A stopping seat can be emptied by signals, without a further launch, exactly when every
    display server that it lists has been launched. Otherwise it never emits STOPPED.
   */
  lemma DrainsExactly(s: Seat)
    requires Draining(s)
    ensures (exists hs :: OnlySignals(s, hs) && NoneLaunches(hs) && Total(Run(s, hs)) == 0) <==> AllLaunched(s)
    ensures StoppedEmpty(s) && !AllLaunched(s) ==> forall hs :: OnlySignals(s, hs) && NoneLaunches(hs) ==> !Run(s, hs).stopped
  {
    hide Draining, OnlySignals, NoneLaunches, Run;
    if AllLaunched(s) {
      var hs := SignalsThatEmpty(s);
    } else {
      var d :| d in s.servers && !ServerAt(s, d).launched;
      forall hs | OnlySignals(s, hs) && NoneLaunches(hs) ensures Total(Run(s, hs)) > 0 && (StoppedEmpty(s) ==> !Run(s, hs).stopped) {
        UnlaunchedStays(s, hs, d);
        Drains(s, hs);
      }
    }
  }

  lemma StartsWaiting(config: Config, env: Env)
    requires env.greeterConfigured && 0 in env.choices && env.choices[0].Fresh? && 0 in env.serverStarts && 0 !in env.launches
    ensures var s := Next(Initial(config), env, StartsSeat(NoAutologin, false));
            && s.started && Listed(s) && !s.stopping && !s.stopped && s.sessions == [0] && !MidAuth(At(s, 0).life)
            && s.servers == [0] && !ServerAt(s, 0).launched
  {
    var s := Initial(config);
    var t := CreateGreeter(s, env);
    assert t.all == [t.all[0]] && t.sessions == [0];
    var o := ShowFirst(t, env, 0);
    assert o.ok && o.seat.all == [t.all[0].(server := Some(0))] && o.seat.servers == [0];
    assert Next(s, env, StartsSeat(NoAutologin, false)) == o.seat.(started := true);
  }

  /**
    A seat whose greeter's display server waits for its compositor: whatever happens from then on,
    stops, requests and messages included, as long as that server is not launched the seat does
    not emit STOPPED.
   */
  lemma WaitingServerBlocksStop(config: Config, env: Env, hs: seq<Happening>)
    requires env.greeterConfigured && 0 in env.choices && env.choices[0].Fresh? && 0 in env.serverStarts && 0 !in env.launches
    requires NeverLaunched(Next(Initial(config), env, StartsSeat(NoAutologin, false)), hs, 0)
    ensures var s := Next(Initial(config), env, StartsSeat(NoAutologin, false));
            s.started && !ServerAt(s, 0).launched && 0 in Run(s, hs).servers && !Run(s, hs).stopped
  {
    hide Run, NeverLaunched, StartSeat, Next;
    StartsWaiting(config, env);
    NeverLaunchedStays(Next(Initial(config), env, StartsSeat(NoAutologin, false)), hs, 0);
  }

  /** The same after a stop and any signals: nothing but a launch could launch the server. */
  lemma WaitingServerStopped(config: Config, env: Env, hs: seq<Happening>)
    requires env.greeterConfigured && 0 in env.choices && env.choices[0].Fresh? && 0 in env.serverStarts && 0 !in env.launches
    requires OnlySignals(Next(Next(Initial(config), env, StartsSeat(NoAutologin, false)), env, StopsSeat), hs) && NoneLaunches(hs)
    ensures var s := Next(Initial(config), env, StartsSeat(NoAutologin, false));
            s.started && !Run(Next(s, env, StopsSeat), hs).stopped
  {
    hide Run, OnlySignals, NoneLaunches, StartSeat, StopSeat, Listed, Draining;
    StartsWaiting(config, env);
    var s := Next(Initial(config), env, StartsSeat(NoAutologin, false));
    assert 0 in s.servers;
    StopBeginsDraining(s);
    StopSeatStopsAll(s);
    DrainsExactly(StopSeat(s));
  }

  // ------------------------------------------------------------------ what breaks a shutdown

  /** The exit of this session in mid-authentication makes the seat start a greeter. */
  predicate StartsGreeter(r: Record) {
    MidAuth(r.life) && (r.handler.Switch? || (r.handler.Auto? && !r.isGreeter))
  }

  lemma NoResettable(s: Seat)
    requires AllStopping(s)
    ensures FindResettable(s).None?
  {
    hide IsResettable;
  }

  /** Nothing listed changes, and one session is no nearer to stopping. */
  ghost predicate Spares(s: Seat, t: Seat, g: SessionId) {
    t.sessions == s.sessions && t.stopping == s.stopping && |t.all| == |s.all| && IsStopping(t, g) == IsStopping(s, g)
  }

  lemma PutSpares(s: Seat, x: SessionId, r: Record, g: SessionId)
    requires x == g ==> r.life.stopping == At(s, g).life.stopping
    ensures Spares(s, Put(s, x, r), g)
  {
  }

  lemma GiveServerSpares(s: Seat, env: Env, x: SessionId, g: SessionId)
    ensures Spares(s, GiveServer(s, env, x).seat, g)
  {
    hide CreateServer, Put;
    var m := CreateServer(s, env, x);
    assert m.seat.all == s.all && m.seat.sessions == s.sessions && m.seat.stopping == s.stopping by { CreateServerSpares(s, env, x); }
    PutSpares(m.seat, x, At(m.seat, x).(server := m.server), g);
  }

  lemma CreateServerSpares(s: Seat, env: Env, x: SessionId)
    ensures var t := CreateServer(s, env, x).seat; t.all == s.all && t.sessions == s.sessions && t.stopping == s.stopping
  {
  }

  lemma StartGreeterSpares(s: Seat, env: Env, x: SessionId, g: SessionId)
    ensures Spares(s, StartGreeter(s, env, x), g)
  {
    hide Put;
    var r := At(s, x).(life := Life.OnStart(At(s, x).life, HowStarts(env, x)));
    PutSpares(s, x, r, g);
  }

  /** A new greeter in a stopping seat, whatever display server it gets, is listed and not stopping. */
  lemma NewGreeterUnstopped(s: Seat, env: Env)
    requires Listed(s) && s.stopping
    ensures var t := CreateGreeter(s, env).(toActivate := Some(|s.all|));
            |s.all| in t.sessions && !IsStopping(t, |s.all|) && t.stopping && Distinct(t.sessions) && |t.all| == |s.all| + 1
  {
    DistinctSnoc(s.sessions, |s.all|);
    var t := CreateGreeter(s, env);
    assert t.sessions[|s.sessions|] == |s.all|;
  }

  /** In a stopping seat a failed session is followed by a new greeter that nobody stops. */
  lemma FailedStartsGreeter(s: Seat, env: Env, x: SessionId)
    requires Listed(s) && s.stopping && AllStopping(s) && x in s.sessions
    ensures var t := FromFailed(s, env, x);
            |s.all| in t.sessions && !IsStopping(t, |s.all|) && t.stopping && Distinct(t.sessions)
  {
    hide FindResettable, CanShare, CreateGreeter, GiveServer, Put, StartGreeter, Distinct, AllStopping, IsStopping;
    NoResettable(s);
    var g := |s.all|;
    NewGreeterUnstopped(s, env);
    var t := CreateGreeter(s, env).(toActivate := Some(g));
    var d := At(s, x).server;
    var given := GiveServer(t, env, x);
    var u := if CanShare(t, d) then SetServer(t, g, d) else if given.ok then given.seat else StopSeat(given.seat);
    GiveServerSpares(t, env, x, g);
    PutSpares(t, g, At(t, g).(server := d), g);
    assert Spares(t, u, g);
    StartGreeterSpares(u, env, g, g);
    var v := StartGreeter(u, env, g);
    PutSpares(v, x, At(v, x).(life := Life.OnStop(At(v, x).life)), g);
  }

  lemma SwitchFailedStartsGreeter(s: Seat, env: Env, x: SessionId)
    requires Listed(s) && s.stopping && AllStopping(s) && x in s.sessions && !IsAuthenticated(s, x)
    ensures var t := SwitchComplete(s, env, x);
            |s.all| in t.sessions && !IsStopping(t, |s.all|) && t.stopping && Distinct(t.sessions)
  {
    hide FindResettable, IsResettable, CreateGreeter, GiveServer, Distinct, IsAuthenticated;
    var a := StopSession(s, x);
    assert Listed(a) && AllStopping(a);
    NoResettable(a);
    NewGreeterUnstopped(a, env);
    GiveServerSpares(CreateGreeter(a, env).(toActivate := Some(|a.all|)), env, |a.all|, |a.all|);
  }

  /**
    In a stopping seat whose everything is stopping, the exit of a listed child leaves everything
    stopping exactly when it does not end an authentication for which the seat starts a greeter.
   */
  lemma ExitKeepsStopping(s: Seat, env: Env, x: SessionId)
    requires Listed(s) && s.stopping && AllStopping(s) && x in s.sessions && At(s, x).life.pid > 0
    ensures AllStopping(Next(s, env, ChildExits(x))) <==> !StartsGreeter(At(s, x))
  {
    hide FromFailed, SwitchComplete, SessionStopped, Put, AllStopping, IsAuthenticated, Distinct;
    var t := Put(s, x, At(s, x).(life := Life.OnExit(At(s, x).life)));
    Exited(s, x);
    if StartsGreeter(At(s, x)) {
      var u := OnComplete(t, env, x);
      if At(s, x).handler.Switch? {
        SwitchFailedStartsGreeter(t, env, x);
      } else {
        FailedStartsGreeter(t, env, x);
      }
      StoppedKeepsOthers(u, env, x, |s.all|);
      assert Next(s, env, ChildExits(x)) == if x in u.sessions then SessionStopped(u, env, x) else u;
    } else if MidAuth(At(s, x).life) && At(s, x).handler.Auto? {
      var u := StopSession(t, x);
      assert OnComplete(t, env, x) == u;
      assert u.sessions == t.sessions && u.stopping && AllStopping(u) by { StopSessionStopping(t, x); }
      StoppedAllStopping(u, env, x);
    } else {
      StoppedAllStopping(t, env, x);
    }
  }

  lemma StopSessionStopping(s: Seat, x: SessionId)
    requires AllStopping(s)
    ensures var t := StopSession(s, x); AllStopping(t) && t.sessions == s.sessions && t.stopping == s.stopping
  {
    var t := StopSession(s, x);
    forall y <- t.sessions ensures IsStopping(t, y) {
      assert IsStopping(s, y);
    }
    forall d <- t.servers ensures ServerAt(t, d).stopping {
      assert ServerAt(s, d).stopping;
    }
  }

  lemma StoppedKeepsOthers(s: Seat, env: Env, x: SessionId, g: SessionId)
    requires s.stopping && g in s.sessions && !IsStopping(s, g) && g != x && Distinct(s.sessions)
    ensures !AllStopping(SessionStopped(s, env, x)) && !AllStopping(s)
  {
    WithoutFacts(s.sessions, x);
  }

  lemma StoppedAllStopping(s: Seat, env: Env, x: SessionId)
    requires s.stopping && AllStopping(s) && Distinct(s.sessions)
    ensures AllStopping(SessionStopped(s, env, x))
  {
    WithoutFacts(s.sessions, x);
  }

  lemma SwitchBegins(s: Seat, who: Text, alice: Text)
    requires AtGreeter(s, who) && s.config.canSwitch && alice != who
    ensures var t := Next(s, Plain(who), SwitchesToUser(alice));
            && Listed(t) && !t.stopping && !t.stopped && t.sessions == [0, 1] && |t.all| == 2
            && StartsGreeter(t.all[1]) && t.all[1].handler.Switch? && t.all[1].life.pid == 1
  {
    hide StartSeat, StopSeat, SwitchToGreeter, SwitchToGuest, Lock, GreeterMessage,
         OnChildReport, OnChildExit, SessionStopped, ServerReady, ServerStopped, FindUser;
    var env := Plain(who);
    NobodyElse(s, who, alice);
    var r := NewRecord(Some(alice), false, env.argv, Switch);
    assert Next(s, env, SwitchesToUser(alice)) == StartLife(AddSession(s, r), env, 1);
  }

  lemma NobodyElse(s: Seat, who: Text, alice: Text)
    requires AtGreeter(s, who) && alice != who
    ensures FindUser(s, Some(alice), None).None?
  {
  }

  /**
    A started seat is stopped while it authenticates a user for a switch. When that child dies,
    whatever the rest of the system answers then, the seat starts a greeter that nobody stops.
   */
  lemma SwitchSurvivesStop(config: Config, who: Text, alice: Text, env: Env)
    requires config.canSwitch && alice != who
    ensures var s := Next(Run(Initial(config), GreeterShown(who)), Plain(who), SwitchesToUser(alice));
            var t := Next(s, Plain(who), StopsSeat);
            var u := Next(t, env, ChildExits(1));
            && t.stopping && AllStopping(t) && t.sessions == [0, 1]
            && u.stopping && !u.stopped && !AllStopping(u)
  {
    hide Next, Run, Listed, AtGreeter, AllStopping, GreeterShown, StopSeat;
    var shown := Run(Initial(config), GreeterShown(who));
    GreeterShownIs(config, who);
    SwitchBegins(shown, who, alice);
    var s := Next(shown, Plain(who), SwitchesToUser(alice));
    SwitchStops(s, Plain(who));
    SwitchSurvivesLast(Next(s, Plain(who), StopsSeat), env);
  }

  lemma SwitchStops(s: Seat, env: Env)
    requires Listed(s) && !s.stopping && !s.stopped && s.sessions == [0, 1] && |s.all| == 2
    requires StartsGreeter(s.all[1]) && s.all[1].handler.Switch? && s.all[1].life.pid == 1
    ensures var t := Next(s, env, StopsSeat);
            && Listed(t) && t.stopping && !t.stopped && AllStopping(t) && t.sessions == [0, 1] && |t.all| == 2
            && StartsGreeter(t.all[1]) && t.all[1].handler.Switch? && t.all[1].life.pid == 1
  {
    StopSeatStopsAll(s);
    var t := Next(s, env, StopsSeat);
    assert t.all[1] == s.all[1].(life := Life.OnStop(s.all[1].life)) && Listed(t);
  }

  lemma SwitchSurvivesLast(t: Seat, env: Env)
    requires Listed(t) && t.stopping && !t.stopped && AllStopping(t) && t.sessions == [0, 1] && |t.all| == 2
    requires StartsGreeter(t.all[1]) && t.all[1].life.pid > 0 && t.all[1].handler.Switch?
    ensures var u := Next(t, env, ChildExits(1)); u.stopping && !u.stopped && !AllStopping(u)
  {
    hide SwitchComplete, Put, AllStopping, Distinct, SessionStopped, AutoComplete, Next, Listed;
    ExitKeepsStopping(t, env, 1);
    var a := Put(t, 1, At(t, 1).(life := Life.OnExit(At(t, 1).life)));
    Exited(t, 1);
    SwitchFailedStartsGreeter(a, env, 1);
    SwitchNotStopped(a, env, 1);
    var b := SwitchComplete(a, env, 1);
    assert OnComplete(a, env, 1) == b;
    LeaveOpen(b, env, 1, 2);
    ExitIs(t, env, 1);
  }

  lemma ExitIs(s: Seat, env: Env, x: SessionId)
    requires At(s, x).life.pid > 0 && MidAuth(At(s, x).life)
    ensures var u := OnComplete(Put(s, x, At(s, x).(life := Life.OnExit(At(s, x).life))), env, x);
            Next(s, env, ChildExits(x)) == if x in u.sessions then SessionStopped(u, env, x) else u
  {
    hide OnComplete, SessionStopped, Put;
  }

  /** A session leaves and another stays: the seat has not stopped. */
  lemma LeaveOpen(s: Seat, env: Env, x: SessionId, y: SessionId)
    requires s.stopping && !s.stopped && y in s.sessions && y != x
    ensures SessionStopped(s, env, x).stopping && !SessionStopped(s, env, x).stopped
  {
    hide AfterStopped;
    WithoutOthers<SessionId>(s.sessions, x, y);
  }

  lemma SwitchNotStopped(s: Seat, env: Env, x: SessionId)
    requires !IsAuthenticated(s, x) && AllStopping(s)
    ensures SwitchComplete(s, env, x).stopped == s.stopped
  {
    hide CreateServer, FindResettable, IsResettable;
    var a := StopSession(s, x);
    assert AllStopping(a) by { StopSessionStopping(s, x); }
    NoResettable(a);
    CreateServerNotStopped(CreateGreeter(a, env).(toActivate := Some(|a.all|)), env, |a.all|);
  }

  lemma CreateServerNotStopped(s: Seat, env: Env, x: SessionId)
    ensures CreateServer(s, env, x).seat.stopped == s.stopped
  {
  }
}
