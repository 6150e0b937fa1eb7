/**
  How a display server leaves a seat (src/seat.c): by its own STOPPED signal and in no other way.
  So a server that is never launched stays, and with it the seat, whatever else happens.
 */
module SeatServers {
  import opened Octets
  import opened Lists
  import Life = SessionLife
  import opened Seats
  import GreeterDaemon
  import LoginMessages
  import ChildPipe

  /** The server is listed by a seat that has not emitted STOPPED. */
  predicate Stays(s: Seat, d: ServerId) {
    d in s.servers && !s.stopped
  }

  // ------------------------------------------------------------------ what touches neither list nor signal

  /** The same servers are listed, and STOPPED was emitted before or not. */
  predicate SameList(s: Seat, t: Seat) {
    t.servers == s.servers && t.stopped == s.stopped
  }

  lemma SmallSame(s: Seat, x: SessionId, r: Record, e: Entry)
    ensures SameList(s, Put(s, x, r)) && SameList(s, Noted(s, e)) && SameList(s, AddSession(s, r))
  {
  }

  lemma StopSessionSame(s: Seat, x: SessionId)
    ensures SameList(s, StopSession(s, x))
  {
  }

  lemma StopServerSame(s: Seat, d: Option<ServerId>)
    ensures SameList(s, StopServer(s, d))
  {
  }

  lemma SetServerSame(s: Seat, x: SessionId, d: Option<ServerId>)
    ensures SameList(s, SetServer(s, x, d))
  {
  }

  lemma SetActiveSame(s: Seat, x: SessionId)
    ensures SameList(s, SetActive(s, x))
  {
    hide OtherGreeters, IsResettable, IsStopping;
  }

  lemma CreateGreeterSame(s: Seat, env: Env)
    ensures SameList(s, CreateGreeter(s, env))
  {
  }

  lemma StartLifeSame(s: Seat, env: Env, x: SessionId)
    ensures SameList(s, StartLife(s, env, x))
  {
    hide Life.OnStart;
  }

  lemma RunLifeSame(s: Seat, x: SessionId)
    ensures SameList(s, RunLife(s, x))
  {
    hide Life.Step;
  }

  lemma StartGreeterSame(s: Seat, env: Env, x: SessionId)
    ensures SameList(s, StartGreeter(s, env, x))
  {
    hide StartLife, StopServer, ChildStarts;
    StartLifeSame(s, env, x);
    var t := StartLife(s, env, x);
    StopServerSame(t, At(t, x).server);
  }

  // ------------------------------------------------------------------ making, stopping, going on

  lemma CreateServerStays(s: Seat, env: Env, x: SessionId, d: ServerId)
    requires Stays(s, d)
    ensures Stays(CreateServer(s, env, x).seat, d)
  {
  }

  lemma GiveServerStays(s: Seat, env: Env, x: SessionId, d: ServerId)
    requires Stays(s, d)
    ensures Stays(GiveServer(s, env, x).seat, d)
  {
    hide CreateServer, SetServer;
    var m := CreateServer(s, env, x);
    CreateServerStays(s, env, x, d);
    SetServerSame(m.seat, x, m.server);
  }

  /** A stop tells everything listed; nothing leaves. */
  lemma StopSeatStays(s: Seat, d: ServerId)
    requires Stays(s, d)
    ensures Stays(StopSeat(s), d)
  {
  }

  lemma FromFailedStays(s: Seat, env: Env, x: SessionId, d: ServerId)
    requires Stays(s, d)
    ensures Stays(FromFailed(s, env, x), d)
  {
    hide FindResettable, SetActive, StopSession, CreateGreeter, GiveServer, SetServer, StopSeat, StartGreeter, CanShare;
    var found := FindResettable(s);
    if found.Some? {
      var a := Noted(s, Reset(found.value));
      SetActiveSame(a, found.value);
      StopSessionSame(SetActive(a, found.value), x);
    } else {
      var g := |s.all|;
      var t := CreateGreeter(s, env).(toActivate := Some(g));
      CreateGreeterSame(s, env);
      var e := At(s, x).server;
      SetServerSame(t, g, e);
      var given := GiveServer(t, env, x);
      GiveServerStays(t, env, x, d);
      StopSeatStays(given.seat, d);
      var u := if CanShare(t, e) then SetServer(t, g, e) else if given.ok then given.seat else StopSeat(given.seat);
      StartGreeterSame(u, env, g);
      StopSessionSame(StartGreeter(u, env, g), x);
    }
  }

  lemma GoOnStays(s: Seat, env: Env, x: SessionId, d: ServerId)
    requires Stays(s, d)
    ensures Stays(GoOn(s, env, x), d) && Stays(RunSession(s, env, x), d)
  {
    hide FromFailed, SetActive, RunLife, StartLife, StartGreeter, ChildStarts, IsAuthenticated;
    FromFailedStays(s, env, x, d);
    RunLifeSame(s, x);
    SetActiveSame(RunLife(s, x), x);
    StartGreeterSame(s, env, x);
    StartLifeSame(s, env, x);
    FromFailedStays(StartLife(s, env, x), env, x, d);
  }

  // ------------------------------------------------------------------ callbacks

  lemma AutoCompleteStays(s: Seat, env: Env, x: SessionId, d: ServerId)
    requires Stays(s, d)
    ensures Stays(AutoComplete(s, env, x), d)
  {
    hide FindUser, SetActive, StopSession, RunSession, FromFailed, IsAuthenticated;
    var y := FindUser(s, At(s, x).life.username, Some(x));
    if y.Some? {
      SetActiveSame(s, y.value);
      StopSessionSame(SetActive(s, y.value), x);
    }
    GoOnStays(s, env, x, d);
    FromFailedStays(s, env, x, d);
    StopSessionSame(s, x);
  }

  /** A greeter is made, waited for and given a display server. */
  lemma NewGreeterStays(s: Seat, env: Env, d: ServerId)
    requires Stays(s, d)
    ensures Stays(GiveServer(CreateGreeter(s, env).(toActivate := Some(|s.all|)), env, |s.all|).seat, d)
  {
    hide CreateGreeter, GiveServer;
    CreateGreeterSame(s, env);
    GiveServerStays(CreateGreeter(s, env).(toActivate := Some(|s.all|)), env, |s.all|, d);
  }

  lemma ResetStays(s: Seat, x: SessionId, d: ServerId)
    requires Stays(s, d)
    ensures Stays(SetActive(Noted(s, Reset(x)), x), d)
  {
    hide SetActive;
    SetActiveSame(Noted(s, Reset(x)), x);
  }

  lemma SwitchCompleteStays(s: Seat, env: Env, x: SessionId, d: ServerId)
    requires Stays(s, d)
    ensures Stays(SwitchComplete(s, env, x), d)
  {
    hide FindUser, FindResettable, SetActive, StopSession, GiveServer, CreateGreeter, IsAuthenticated;
    if IsAuthenticated(s, x) {
      var y := FindUser(s, At(s, x).life.username, Some(x));
      if y.Some? {
        SetActiveSame(Unlock(s, y.value), y.value);
        StopSessionSame(SetActive(Unlock(s, y.value), y.value), x);
      } else {
        GiveServerStays(s.(toActivate := Some(x)), env, x, d);
      }
    } else {
      var t := StopSession(s, x);
      StopSessionSame(s, x);
      if FindResettable(t).Some? {
        ResetStays(t, FindResettable(t).value, d);
      }
      NewGreeterStays(t, env, d);
    }
  }

  lemma OnCompleteStays(s: Seat, env: Env, x: SessionId, d: ServerId)
    requires Stays(s, d)
    ensures Stays(OnComplete(s, env, x), d)
  {
    hide AutoComplete, SwitchComplete;
    AutoCompleteStays(s, env, x, d);
    SwitchCompleteStays(s, env, x, d);
  }

  lemma SwitchToGreeterStays(s: Seat, env: Env, d: ServerId)
    requires Stays(s, d)
    ensures Stays(SwitchToGreeter(s, env).seat, d)
  {
    hide FindGreeter, SetActive, CreateGreeter, CreateServer, GiveServer;
    if FindGreeter(s).Some? {
      SetActiveSame(s, FindGreeter(s).value);
    }
    CreateGreeterSame(s, env);
    NewGreeterStays(s, env, d);
  }

  lemma GreeterOrStopStays(s: Seat, env: Env, d: ServerId)
    requires Stays(s, d)
    ensures Stays(GreeterOrStop(s, env), d)
  {
    hide SwitchToGreeter, StopSeat;
    SwitchToGreeterStays(s, env, d);
    StopSeatStays(SwitchToGreeter(s, env).seat, d);
  }

  lemma AfterStoppedStays(s: Seat, env: Env, x: SessionId, d: ServerId)
    requires Stays(s, d)
    ensures Stays(AfterStopped(s, env, x), d)
  {
    hide GoOn, StopSeat, GreeterOrStop, CanShare, FindOnServer;
    if s.replacement.Some? {
      GoOnStays(s.(replacement := None), env, s.replacement.value, d);
    }
    var y := FindOnServer(s, At(s, x).server);
    if y.Some? {
      GoOnStays(s, env, y.value, d);
    }
    StopSeatStays(s, d);
    GreeterOrStopStays(s, env, d);
  }

  lemma SessionStoppedStays(s: Seat, env: Env, x: SessionId, d: ServerId)
    requires Stays(s, d)
    ensures Stays(SessionStopped(s, env, x), d)
  {
    hide AfterStopped, StopServer, IsUsed;
    var t := RemoveSession(s, x);
    AfterStoppedStays(t, env, x, d);
    StopServerSame(Noted(AfterStopped(t, env, x), Removed(x)), At(s, x).server);
  }

  /** The STOPPED of another server. */
  lemma ServerStoppedStays(s: Seat, env: Env, e: ServerId, d: ServerId)
    requires Stays(s, d) && e != d
    ensures Stays(ServerStopped(s, env, e), d)
  {
    hide StopWhere, StopSeat, GreeterOrStop, LivingOn, Without;
    var t := RemoveServer(s, e);
    assert Stays(t, d) by { WithoutOthers<ServerId>(s.servers, e, d); }
    var a := StopWhere(t, LivingOn(s, e));
    assert SameList(t, a) by { StopWhereSame(t, LivingOn(s, e)); }
    StopSeatStays(a, d);
    GreeterOrStopStays(a, env, d);
    GreeterOrStopStays(StopSeat(a), env, d);
  }

  lemma StopWhereSame(s: Seat, p: SessionId -> bool)
    ensures SameList(s, StopWhere(s, p))
  {
  }

  lemma ServerReadyStays(s: Seat, env: Env, e: ServerId, d: ServerId)
    requires Stays(s, d)
    ensures Stays(ServerReady(s, env, e), d)
  {
    hide StopServer, GoOn, FindWaitingOnServer;
    var t := if e < |s.allServers| then s.(allServers := s.allServers[e := s.allServers[e].(ready := true)]) else s;
    StopServerSame(t, Some(e));
    var x := FindWaitingOnServer(t, e);
    if x.Some? {
      GoOnStays(t, env, x.value, d);
    }
  }

  lemma StartForStays(s: Seat, env: Env, g: GreeterId, x: SessionId, d: ServerId)
    requires Stays(s, d)
    ensures Stays(StartFor(s, env, g, x).seat, d)
  {
    hide FindUser, StopSession, SetActive, GreeterSession, CanShare, SetServer, GiveServer;
    var t := s.(toActivate := Some(x));
    var existing := FindUser(t, At(t, x).life.username, None);
    if existing.Some? {
      StopSessionSame(t, x);
      SetActiveSame(Unlock(StopSession(t, x), existing.value), existing.value);
    }
    var host := GreeterSession(t);
    if host.Some? {
      var e := At(t, host.value).server;
      SetServerSame(t, x, e);
      StopSessionSame(SetServer(t, x, e), host.value);
    }
    GiveServerStays(t, env, x, d);
  }

  lemma StartRequestedStays(s: Seat, env: Env, g: GreeterId, d: ServerId)
    requires Stays(s, d)
    ensures Stays(StartRequested(s, env, g).seat, d)
  {
    hide StartFor;
    StartForStays(AddSession(s, NewRecord(None, true, env.argv, Auto)), env, g, |s.all|, d);
    var held := GreeterAt(s, g).daemon.session;
    if held.Some? {
      var x := held.value;
      StartForStays(Put(s, x, At(s, x).(life := At(s, x).life.(argv := env.argv))), env, g, x, d);
    }
  }

  lemma CreateForGreeterSame(s: Seat, env: Env, g: GreeterId, username: Option<Text>, isGuest: bool)
    ensures SameList(s, CreateForGreeter(s, env, g, username, isGuest))
  {
    hide GreeterSession, Life.OnStart;
  }

  lemma GreeterPartsSame(s: Seat, g: GreeterId, username: Option<Text>, daemon: GreeterDaemon.State)
    ensures SameList(s, StopHeld(s, g)) && SameList(s, NameChanged(s, g, username)) && SameList(s, SetDaemon(s, g, daemon))
  {
    hide FindUser, Life.OnStop;
  }

  lemma MessageStays(s: Seat, env: Env, g: GreeterId, r: LoginMessages.Request, d: ServerId)
    requires Stays(s, d)
    ensures Stays(GreeterMessage(s, env, g, r), d)
  {
    hide StopHeld, NameChanged, SetDaemon, CreateForGreeter, StartRequested, GreeterDaemon.Handle, GreeterDaemon.MayStart;
    var handled := GreeterDaemon.Handle(GreeterAt(s, g).daemon, r, World(s, env, g, Some(|s.all|))).state;
    var t := StopHeld(s, g);
    GreeterPartsSame(s, g, None, handled);
    GreeterPartsSame(t, g, None, handled);
    match r {
      case Authenticate(_, username) =>
        var name := GreeterDaemon.NullIfEmpty(username);
        GreeterPartsSame(t, g, name, handled);
        var u := NameChanged(t, g, name);
        CreateForGreeterSame(u, env, g, name, false);
        GreeterPartsSame(CreateForGreeter(u, env, g, name, false), g, None, handled);
      case AuthenticateRemote(_, _, username) =>
        var name := GreeterDaemon.NullIfEmpty(username);
        CreateForGreeterSame(t, env, g, name, true);
        GreeterPartsSame(CreateForGreeter(t, env, g, name, true), g, None, handled);
      case StartSession(_) =>
        StartRequestedStays(s, env, g, d);
        GreeterPartsSame(StartRequested(s, env, g).seat, g, None, handled);
      case _ =>
    }
  }

  // ------------------------------------------------------------------ requests

  lemma SwitchesStay(s: Seat, env: Env, username: Text, d: ServerId)
    requires Stays(s, d)
    ensures Stays(SwitchToUser(s, env, username).seat, d) && Stays(SwitchToGuest(s, env).seat, d)
  {
    hide FindUser, FindGuest, SetActive, GiveServer, StartLife, ChildStarts;
    StartLifeSame(AddSession(s, NewRecord(Some(username), false, env.argv, Switch)), env, |s.all|);
    if FindGuest(s).Some? {
      SetActiveSame(s, FindGuest(s).value);
    }
    GiveServerStays(AddSession(s, NewRecord(None, true, env.argv, Auto)).(toActivate := Some(|s.all|)), env, |s.all|, d);
  }

  lemma LockStays(s: Seat, env: Env, d: ServerId)
    requires Stays(s, d)
    ensures Stays(Lock(s, env).seat, d)
  {
    hide FindResettable, FindGreeter, SetActive, StopSession, CreateGreeter, SetServer, GiveServer;
    if FindResettable(s).Some? {
      ResetStays(s, FindResettable(s).value, d);
    } else {
      var before := FindGreeter(s);
      var g := |s.all|;
      if before.Some? {
        StopSessionSame(s, before.value);
      }
      var t := if before.Some? then StopSession(s, before.value) else s;
      CreateGreeterSame(t, env);
      var u := CreateGreeter(t, env).(toActivate := Some(g));
      if before.Some? {
        SetServerSame(u, g, At(s, before.value).server);
      }
      GiveServerStays(u, env, g, d);
    }
  }

  lemma ShowFirstStays(s: Seat, env: Env, x: SessionId, d: ServerId)
    requires Stays(s, d)
    ensures Stays(ShowFirst(s, env, x).seat, d)
  {
    hide GiveServer, StopSession, StopServer;
    var o := GiveServer(s.(toActivate := Some(x)), env, x);
    GiveServerStays(s.(toActivate := Some(x)), env, x, d);
    StopSessionSame(o.seat, x);
    StopServerSame(StopSession(o.seat, x), At(o.seat, x).server);
  }

  lemma StartSeatStays(s: Seat, env: Env, login: Autologin, inBackground: bool, d: ServerId)
    requires Stays(s, d)
    ensures Stays(StartSeat(s, env, login, inBackground), d)
  {
    hide ShowFirst, CreateGreeter, GiveServer, StopSeat;
    var x := |s.all|;
    var made := env.sessionConfigured && (login.Guest? || (login.User? && env.userKnown));
    var t := if !made then s
             else AddSession(s, if login.Guest? then NewRecord(None, true, env.argv, Auto)
                                else NewRecord(Some(login.name), false, env.argv, Auto));
    assert SameList(s, t);
    ShowFirstStays(t, env, x, d);
    var first := if made && !inBackground then ShowFirst(t, env, x) else Outcome(t, false);
    var g := |first.seat.all|;
    CreateGreeterSame(first.seat, env);
    var second := ShowFirst(CreateGreeter(first.seat, env), env, g);
    ShowFirstStays(CreateGreeter(first.seat, env), env, g, d);
    StopSeatStays(second.seat, d);
    GiveServerStays(second.seat, env, x, d);
  }

  // ------------------------------------------------------------------ every step, every run

  lemma ChildStays(s: Seat, env: Env, x: SessionId, r: ChildPipe.Report, d: ServerId)
    requires Stays(s, d)
    ensures Stays(OnChildReport(s, env, x, r), d) && Stays(OnChildExit(s, env, x), d)
  {
    hide OnComplete, SessionStopped, Life.OnReport, Life.OnExit;
    var life := At(s, x).life;
    var t := Put(s, x, At(s, x).(life := Life.OnReport(life, r)));
    if r.Done? {
      OnCompleteStays(Noted(t, Reported(x, r.username, r.result)), env, x, d);
    }
    var v := Put(s, x, At(s, x).(life := Life.OnExit(life)));
    OnCompleteStays(v, env, x, d);
    SessionStoppedStays(v, env, x, d);
    SessionStoppedStays(OnComplete(v, env, x), env, x, d);
  }

  /** The server's own STOPPED, which nothing but a launched one sends. */
  predicate Leaves(s: Seat, e: Event, d: ServerId) {
    e == ServerStops(d) && ServerAt(s, d).launched
  }

  /**
    Whatever happens other than a listed server's own STOPPED, the server stays listed and the
    seat does not emit STOPPED.
   */
  lemma NextStays(s: Seat, env: Env, e: Event, d: ServerId)
    requires Stays(s, d) && !Leaves(s, e, d)
    ensures Stays(Next(s, env, e), d)
  {
    hide StartSeat, StopSeat, SwitchToGreeter, SwitchToUser, SwitchToGuest, Lock, GreeterMessage,
         OnChildReport, OnChildExit, SessionStopped, ServerReady, ServerStopped, Life.Step, Stays, HasStopped;
    match e {
      case StartsSeat(login, inBackground) => StartSeatStays(s, env, login, inBackground, d);
      case StopsSeat => StopSeatStays(s, d);
      case SwitchesToGreeter => SwitchToGreeterStays(s, env, d);
      case SwitchesToUser(username) => SwitchesStay(s, env, username, d);
      case SwitchesToGuest => SwitchesStay(s, env, [], d);
      case Locks => LockStays(s, env, d);
      case Message(g, r) => MessageStays(s, env, g, r, d);
      case ChildReports(x, r) => ChildStays(s, env, x, r, d);
      case ChildExits(x) => ChildStays(s, env, x, ChildPipe.Done(None, 0, None), d);
      case StopDelivered(x) => SessionStoppedStays(s, env, x, d);
      case ServerGetsReady(f) => ServerReadyStays(s, env, f, d);
      case ServerStops(f) =>
        if f != d {
          ServerStoppedStays(s, env, f, d);
        }
      case _ =>
        var t := Next(s, env, e);
        assert SameList(s, t);
        SameStays(s, t, d);
    }
  }

  lemma SameStays(s: Seat, t: Seat, d: ServerId)
    requires SameList(s, t)
    ensures Stays(t, d) == Stays(s, d)
  {
  }

  /** No step of the run finds the server launched. */
  ghost predicate NeverLaunched(s: Seat, hs: seq<Happening>, d: ServerId)
    decreases |hs|
  {
    hs == [] || (!ServerAt(s, d).launched && NeverLaunched(Next(s, hs[0].env, hs[0].event), hs[1..], d))
  }

  /**
    In every run, requests and messages included, a listed display server that is never launched
    stays listed, and the seat does not emit STOPPED.
   */
  lemma {:induction false} NeverLaunchedStays(s: Seat, hs: seq<Happening>, d: ServerId)
    requires Stays(s, d) && NeverLaunched(s, hs, d)
    ensures Stays(Run(s, hs), d)
    decreases |hs|
  {
    hide Next, Stays;
    if hs != [] {
      NextStays(s, hs[0].env, hs[0].event, d);
      NeverLaunchedStays(Next(s, hs[0].env, hs[0].event), hs[1..], d);
    }
  }
}
