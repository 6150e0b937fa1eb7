/**
  The seat as an object (src/seat.c): its fields, and its callbacks and requests as methods that
  change them one after the other. Each method is proved to do what its function in Seats says;
  the main loop that calls them is thereby held to what every run keeps.
 */
module SeatCallbacks {
  import opened Octets
  import opened Lists
  import Life = SessionLife
  import opened Seats
  import opened SeatSafety
  import GreeterDaemon
  import LoginMessages
  import ChildPipe

  /** The records after those listed that pass a test were stopped. */
  ghost predicate StoppedUpTo(start: seq<Record>, all: seq<Record>, ids: seq<SessionId>, p: SessionId -> bool) {
    && |all| == |start|
    && forall y :: 0 <= y < |all| ==>
         all[y] == if y in ids && p(y) then start[y].(life := Life.OnStop(start[y].life)) else start[y]
  }

  lemma NoneStopped(all: seq<Record>, p: SessionId -> bool)
    ensures StoppedUpTo(all, all, [], p)
  {
    hide Life.OnStop;
  }

  lemma OneMoreStopped(start: Seat, all: seq<Record>, ids: seq<SessionId>, x: SessionId, p: SessionId -> bool)
    requires StoppedUpTo(start.all, all, ids, p)
    ensures var t := StopSession(start.(all := all), x);
            && t == start.(all := t.all)
            && (p(x) && x !in ids ==> StoppedUpTo(start.all, t.all, ids + [x], p))
            && (!p(x) || x in ids ==> StoppedUpTo(start.all, all, ids + [x], p))
  {
    hide Life.OnStop;
  }

  lemma StoppedAll(s: Seat, all: seq<Record>, ids: seq<SessionId>, p: SessionId -> bool)
    requires StoppedUpTo(s.all, all, ids, p) && forall y :: p(y) ==> y in ids
    ensures s.(all := all) == StopWhere(s, p)
  {
    hide Life.OnStop;
    assert all == StopWhere(s, p).all;
  }

  class SeatObject {
    const config: Config
    var all: seq<Record>
    var allServers: seq<Server>
    var greeters: seq<Greeter>
    var sessions: seq<SessionId>
    var servers: seq<ServerId>
    var active: Option<SessionId>
    var next: Option<SessionId>
    var toActivate: Option<SessionId>
    var replacement: Option<SessionId>
    var started: bool
    var stopping: bool
    var stopped: bool
    var log: seq<Entry>

    /** The fields as one value. */
    function View(): Seat
      reads this
    {
      Seat(config, all, allServers, greeters, sessions, servers, active, next, toActivate, replacement, started, stopping, stopped, log)
    }

    constructor (config: Config)
      ensures View() == Initial(config)
    {
      this.config := config;
      all, allServers, greeters, sessions, servers := [], [], [], [], [];
      active, next, toActivate, replacement := None, None, None, None;
      started, stopping, stopped, log := false, false, false, [];
    }

    // ---------------------------------------------------------------- small steps

    /** The loop of every `find_*` function. */
    method Find(p: SessionId -> bool) returns (r: Option<SessionId>)
      ensures r == First(sessions, p)
    {
      var i := 0;
      while i < |sessions|
        invariant 0 <= i <= |sessions|
        invariant First(sessions, p) == First(sessions[i..], p)
      {
        assert sessions[i..][0] == sessions[i] && sessions[i..][1..] == sessions[i + 1..];
        if p(sessions[i]) {
          return Some(sessions[i]);
        }
        i := i + 1;
      }
      return None;
    }

    method Note(e: Entry)
      modifies `log
      ensures View() == Noted(old(View()), e)
    {
      log := log + [e];
    }

    method SetRecord(x: SessionId, r: Record)
      modifies `all
      ensures View() == Put(old(View()), x, r)
    {
      if x < |all| {
        all := all[x := r];
      }
    }

    /** `session_stop`. */
    method StopOne(x: SessionId)
      modifies `all
      ensures View() == StopSession(old(View()), x)
    {
      var r := At(View(), x);
      SetRecord(x, r.(life := Life.OnStop(r.life)));
    }

    /** A loop over the seat's sessions that stops those which pass a test. */
    method StopThose(p: SessionId -> bool)
      requires forall y :: p(y) ==> y in sessions
      modifies `all
      ensures View() == StopWhere(old(View()), p)
    {
      hide StopSession, StoppedUpTo, StopWhere;
      ghost var start := View();
      assert StoppedUpTo(start.all, all, sessions[..0], p) by { NoneStopped(all, p); }
      for i := 0 to |sessions|
        invariant View() == start.(all := all) && StoppedUpTo(start.all, all, sessions[..i], p)
      {
        var x := sessions[i];
        assert sessions[..i + 1] == sessions[..i] + [x];
        OneMoreStopped(start, all, sessions[..i], x, p);
        if p(x) && x !in sessions[..i] {
          StopOne(x);
        }
      }
      assert sessions[..|sessions|] == sessions;
      StoppedAll(start, all, sessions, p);
    }

    /** `display_server_stop`. */
    method StopOneServer(d: Option<ServerId>)
      modifies `allServers
      ensures View() == StopServer(old(View()), d)
    {
      if d.Some? && d.value < |allServers| {
        allServers := allServers[d.value := allServers[d.value].(stopping := true)];
      }
    }

    method StopListedServers()
      modifies `allServers
      ensures View() == StopAllServers(old(View()))
    {
      ghost var start := View();
      for i := 0 to |servers|
        invariant View() == start.(allServers := allServers) && |allServers| == |start.allServers|
        invariant forall d :: 0 <= d < |allServers| ==>
                    allServers[d] == if d in servers[..i] then start.allServers[d].(stopping := true) else start.allServers[d]
      {
        StopOneServer(Some(servers[i]));
      }
      assert servers[..|servers|] == servers;
      assert allServers == StopAllServers(start).allServers;
    }

    // ---------------------------------------------------------------- activating and stopping

    method SetActiveSession(x: SessionId)
      modifies this
      ensures View() == SetActive(old(View()), x)
    {
      hide StopWhere;
      ghost var s := View();
      if active.Some? && active.value in sessions && active.value != x && !IsStopping(View(), active.value)
         && IsResettable(View(), active.value)
      {
        Note(Idled(active.value));
      }
      ghost var t := View();
      assert t == IdlePrevious(s, x);
      StopThose(OtherGreeters(View(), x));
      ghost var u := View();
      if active.Some? && active.value != x && !At(View(), active.value).isGreeter {
        Note(Locked(active.value));
      }
      assert View() == LockPrevious(u, x);
      Note(Activated(x));
      active := Some(x);
    }

    method CheckIfStopped()
      modifies `stopped, `log
      ensures View() == CheckStopped(old(View()))
    {
      if stopping && !stopped && |servers| == 0 && |sessions| == 0 {
        stopped := true;
        log := log + [SeatStopped(|sessions|, |servers|)];
      }
    }

    /** `seat_stop` and `seat_real_stop`. */
    method Stop()
      modifies this
      ensures View() == StopSeat(old(View()))
    {
      hide StopWhere, StopAllServers, CheckStopped;
      if stopping {
        return;
      }
      var everything := ListedIn(View());
      stopping := true;
      CheckIfStopped();
      if stopped {
        return;
      }
      StopListedServers();
      StopThose(everything);
    }

    // ---------------------------------------------------------------- making

    method AppendSession(r: Record) returns (x: SessionId)
      modifies `all, `sessions
      ensures x == |old(all)| && View() == AddSession(old(View()), r)
    {
      x := |all|;
      all := all + [r];
      sessions := sessions + [x];
    }

    method CreateGreeterSession(env: Env) returns (g: SessionId)
      modifies this
      ensures g == |old(all)| && View() == CreateGreeter(old(View()), env)
    {
      var r := NewRecord(env.greeterUser, false, env.argv, Auto).(isGreeter := true, greeter := |greeters|);
      greeters := greeters + [NewGreeter(View(), false)];
      g := AppendSession(r);
    }

    method CreateDisplayServer(env: Env, x: SessionId) returns (d: Option<ServerId>)
      modifies this
      ensures Made(View(), d) == CreateServer(old(View()), env, x)
    {
      if x !in env.choices {
        return None;
      }
      match env.choices[x] {
        case Fresh(canShare, parent) =>
          d := Some(|allServers|);
          allServers := allServers + [Server(false, false, canShare, parent, false)];
        case Existing(id) =>
          if id >= |allServers| {
            return None;
          }
          d := Some(id);
          if id in servers {
            return;
          }
      }
      servers := servers + [d.value];
    }

    /** `start_display_server`. */
    method StartDisplayServer(env: Env, d: Option<ServerId>) returns (ok: bool)
      modifies `allServers
      ensures View() == StartServer(old(View()), env, d) && ok == ServerStarts(old(View()), env, d)
    {
      if d.None? {
        return false;
      }
      if ServerAt(View(), d.value).ready {
        return true;
      }
      LaunchServer(d.value, d.value in env.launches);
      ok := d.value in env.serverStarts;
    }

    method LaunchServer(d: ServerId, launches: bool)
      modifies `allServers
      ensures View() == if launches then Launch(old(View()), d) else old(View())
    {
      if launches && d < |allServers| {
        allServers := allServers[d := allServers[d].(launched := true)];
      }
    }

    method GiveDisplayServer(env: Env, x: SessionId) returns (ok: bool)
      modifies this
      ensures Outcome(View(), ok) == GiveServer(old(View()), env, x)
    {
      hide CreateServer, Put, StartServer, ServerStarts;
      var d := CreateDisplayServer(env, x);
      SetRecord(x, At(View(), x).(server := d));
      ok := StartDisplayServer(env, d);
    }

    // ---------------------------------------------------------------- starting and running

    method StartChild(env: Env, x: SessionId) returns (ok: bool)
      modifies `all
      ensures View() == StartLife(old(View()), env, x) && ok == ChildStarts(old(View()), env, x)
    {
      hide Put;
      var r := At(View(), x);
      var life := Life.OnStart(r.life, HowStarts(env, x));
      ok := r.life.pid == 0 && life.pid > 0;
      SetRecord(x, r.(life := life));
    }

    method SwitchToGreeterFromFailedSession(env: Env, x: SessionId)
      modifies this
      ensures View() == FromFailed(old(View()), env, x)
    {
      hide LivingResettable, SetActive, StopSession, CreateGreeter, GiveServer, StopSeat, StartLife, ChildStarts, StopServer, Put, CanShare;
      var found := Find(LivingResettable(View()));
      if found.Some? {
        Note(Reset(found.value));
        SetActiveSession(found.value);
      } else {
        var shared := At(View(), x).server;
        var g := CreateGreeterSession(env);
        toActivate := Some(g);
        if CanShare(View(), shared) {
          SetRecord(g, At(View(), g).(server := shared));
        } else {
          var ok := GiveDisplayServer(env, x);
          if !ok {
            Stop();
          }
        }
        var ok := StartChild(env, g);
        if !ok {
          StopOneServer(At(View(), g).server);
        }
      }
      StopOne(x);
    }

    method StartSessionOf(env: Env, x: SessionId)
      modifies this
      ensures View() == StartSession(old(View()), env, x)
    {
      hide StartLife, ChildStarts, StopServer, FromFailed;
      var isGreeter := At(View(), x).isGreeter;
      var ok := StartChild(env, x);
      if ok {
        return;
      }
      if isGreeter {
        StopOneServer(At(View(), x).server);
        return;
      }
      SwitchToGreeterFromFailedSession(env, x);
    }

    method Run(env: Env, x: SessionId)
      modifies this
      ensures View() == RunSession(old(View()), env, x)
    {
      hide FromFailed, SetActive, Put;
      if x in env.scriptFails {
        SwitchToGreeterFromFailedSession(env, x);
        return;
      }
      var r := At(View(), x);
      SetRecord(x, r.(life := Life.Step(r.life, Life.Runs(r.server.Some?, COMMAND))));
      if toActivate == Some(x) {
        SetActiveSession(x);
        toActivate := None;
      } else if active.Some? {
        Note(Activated(active.value));
      }
    }

    /** What the source does wherever a session may go on: run it, or start its authentication. */
    method Continue(env: Env, x: SessionId)
      modifies this
      ensures View() == GoOn(old(View()), env, x)
    {
      hide RunSession, StartSession;
      if IsAuthenticated(View(), x) {
        Run(env, x);
      } else {
        StartSessionOf(env, x);
      }
    }

    // ---------------------------------------------------------------- callbacks of sessions

    method FindUserSession(username: Option<Text>, ignore: Option<SessionId>) returns (r: Option<SessionId>)
      ensures r == FindUser(View(), username, ignore)
    {
      if username.None? {
        return None;
      }
      r := Find(LivingUser(View(), username, ignore));
    }

    method SessionAuthenticationCompleteCb(env: Env, x: SessionId)
      modifies this
      ensures View() == AutoComplete(old(View()), env, x)
    {
      hide FindUser, SetActive, StopSession, RunSession, FromFailed;
      if IsAuthenticated(View(), x) {
        var y := FindUserSession(At(View(), x).life.username, Some(x));
        if y.Some? {
          SetActiveSession(y.value);
          StopOne(x);
        } else {
          Run(env, x);
        }
      } else if !At(View(), x).isGreeter {
        SwitchToGreeterFromFailedSession(env, x);
      } else {
        StopOne(x);
      }
    }

    method SwitchAuthenticationCompleteCb(env: Env, x: SessionId)
      modifies this
      ensures View() == SwitchComplete(old(View()), env, x)
    {
      hide FindUser, SetActive, StopSession, GiveServer, CreateGreeter, LivingResettable;
      if IsAuthenticated(View(), x) {
        var y := FindUserSession(At(View(), x).life.username, Some(x));
        if y.Some? {
          Note(Unlocked(y.value, At(View(), y.value).life.username));
          SetActiveSession(y.value);
          StopOne(x);
        } else {
          toActivate := Some(x);
          var _ := GiveDisplayServer(env, x);
        }
        return;
      }
      StopOne(x);
      var found := Find(LivingResettable(View()));
      if found.Some? {
        Note(Reset(found.value));
        SetActiveSession(found.value);
      } else {
        var g := CreateGreeterSession(env);
        toActivate := Some(g);
        var _ := GiveDisplayServer(env, g);
      }
    }

    method SwitchToGreeterRequest(env: Env) returns (ok: bool)
      modifies this
      ensures Outcome(View(), ok) == SwitchToGreeter(old(View()), env)
    {
      hide LivingGreeter, SetActive, CreateGreeter, CreateServer, Put, ServerStarts, StartServer;
      if !config.canSwitch && sessions != [] {
        return false;
      }
      var found := Find(LivingGreeter(View()));
      if found.Some? {
        SetActiveSession(found.value);
        return true;
      }
      if !env.greeterConfigured {
        return false;
      }
      var g := CreateGreeterSession(env);
      ghost var t := View();
      toActivate := Some(g);
      CreateServerPoints(t, env, g);
      var d := CreateDisplayServer(env, g);
      if d.None? {
        toActivate := None;
        return false;
      }
      SetRecord(g, At(View(), g).(server := d));
      ok := StartDisplayServer(env, d);
    }

    method GreeterOrStopSeat(env: Env)
      modifies this
      ensures View() == GreeterOrStop(old(View()), env)
    {
      hide SwitchToGreeter, StopSeat;
      var ok := SwitchToGreeterRequest(env);
      if !ok {
        Stop();
      }
    }

    method SessionStoppedCb(env: Env, x: SessionId)
      modifies this
      ensures View() == SessionStopped(old(View()), env, x)
    {
      hide AfterStopped, CheckStopped, StopServer, IsUsed;
      sessions := Remove(sessions, x);
      if active == Some(x) {
        active := None;
      }
      if next == Some(x) {
        next := None;
      }
      if toActivate == Some(x) {
        toActivate := None;
      }
      assert View() == RemoveSession(old(View()), x);
      var d := At(View(), x).server;
      if stopping {
        CheckIfStopped();
        return;
      }
      ReplaceStopped(env, x);
      Note(Removed(x));
      if d.Some? && !ServerAt(View(), d.value).stopping && d.value !in env.neverUnused && !IsUsed(View(), d.value) {
        StopOneServer(d);
      }
    }

    /** The middle of `session_stopped_cb`: what comes after the session that has stopped. */
    method ReplaceStopped(env: Env, x: SessionId)
      modifies this
      ensures View() == AfterStopped(old(View()), env, x)
    {
      hide GoOn, StopSeat, GreeterOrStop, CanShare, LivingWith;
      var r := At(View(), x);
      var starts := r.isGreeter && GreeterAt(View(), r.greeter).daemon.startSession;
      if r.isGreeter && replacement.Some? {
        var g := replacement.value;
        replacement := None;
        Continue(env, g);
      } else if r.isGreeter && CanShare(View(), r.server) && starts {
        var y := Find(LivingWith(View(), r.server));
        if y.Some? {
          Continue(env, y.value);
        }
      } else if r.isGreeter && !starts && |servers| == 1 && r.server == Some(servers[0]) {
        Stop();
      } else if !r.isGreeter && env.visible == Some(x) {
        GreeterOrStopSeat(env);
      }
    }

    // ---------------------------------------------------------------- callbacks of display servers

    /** Whether one of these sessions is a greeter that never got as far as a child. */
    method AnyFailedGreeter(before: Seat, hit: SessionId -> bool) returns (failed: bool)
      ensures failed == exists x <- before.sessions :: hit(x) && At(before, x).isGreeter && At(before, x).life.pid == 0
    {
      failed := false;
      for i := 0 to |before.sessions|
        invariant failed == exists x <- before.sessions[..i] :: hit(x) && At(before, x).isGreeter && At(before, x).life.pid == 0
      {
        var x := before.sessions[i];
        assert before.sessions[..i + 1] == before.sessions[..i] + [x];
        if hit(x) && At(before, x).isGreeter && At(before, x).life.pid == 0 {
          failed := true;
        }
      }
      assert before.sessions[..|before.sessions|] == before.sessions;
    }

    method DisplayServerStoppedCb(env: Env, d: ServerId)
      modifies this
      ensures View() == ServerStopped(old(View()), env, d)
    {
      hide CheckStopped, StopWhere, StopSeat, GreeterOrStop, LivingOn;
      var before, hit := View(), LivingOn(View(), d);
      servers := Remove(servers, d);
      if d < |allServers| {
        allServers := allServers[d := allServers[d].(launched := false)];
      }
      assert View() == RemoveServer(before, d);
      if stopping || !started {
        CheckIfStopped();
        return;
      }
      HitListed(before, d);
      StopThose(hit);
      StopWhereServers(RemoveServer(before, d), hit);
      var failed := AnyFailedGreeter(before, hit);
      if failed && |servers| == 0 {
        Stop();
      }
      if !stopping {
        if env.visible.None? || At(View(), env.visible.value).server == Some(d) {
          GreeterOrStopSeat(env);
        }
      }
    }

    method DisplayServerReadyCb(env: Env, d: ServerId)
      modifies this
      ensures View() == ServerReady(old(View()), env, d)
    {
      hide StopServer, GoOn, WaitingWith;
      if d < |allServers| {
        allServers := allServers[d := allServers[d].(ready := true)];
      }
      if env.displayScriptFails {
        StopOneServer(Some(d));
        return;
      }
      var x := Find(WaitingWith(View(), d));
      if x.Some? {
        Continue(env, x.value);
      } else {
        StopOneServer(Some(d));
      }
    }

    // ---------------------------------------------------------------- callbacks of greeters

    method StartSessionFor(env: Env, g: GreeterId, x: SessionId) returns (ok: bool)
      modifies this
      ensures Outcome(View(), ok) == StartFor(old(View()), env, g, x)
    {
      hide FindUser, StopSession, SetActive, AnyGreeter, CanShare, Put, GiveServer;
      toActivate := Some(x);
      var existing := FindUserSession(At(View(), x).life.username, None);
      if existing.Some? && existing.value != x {
        StopOne(x);
        Note(Unlocked(existing.value, At(View(), existing.value).life.username));
        SetActiveSession(existing.value);
        return true;
      }
      var host := Find(AnyGreeter(View()));
      if host.Some? {
        var d := At(View(), host.value).server;
        if !GreeterAt(View(), g).daemon.resettable && CanShare(View(), d) && env.sameType {
          SetRecord(x, At(View(), x).(server := d));
          StopOne(host.value);
          return true;
        }
      }
      ok := GiveDisplayServer(env, x);
    }

    method GreeterStartSessionCb(env: Env, g: GreeterId) returns (ok: bool)
      modifies this
      ensures Outcome(View(), ok) == StartRequested(old(View()), env, g)
    {
      hide StartFor, Put;
      var daemon := GreeterAt(View(), g).daemon;
      var x: SessionId;
      if daemon.guest {
        if !env.sessionConfigured {
          return false;
        }
        x := AppendSession(NewRecord(None, true, env.argv, Auto));
      } else {
        if daemon.session.None? {
          return false;
        }
        x := daemon.session.value;
        if !env.sessionConfigured {
          return false;
        }
        SetRecord(x, At(View(), x).(life := At(View(), x).life.(argv := env.argv)));
      }
      ok := StartSessionFor(env, g, x);
    }

    method SetGreeter(g: GreeterId, daemon: GreeterDaemon.State)
      modifies `greeters
      ensures View() == SetDaemon(old(View()), g, daemon)
    {
      if g < |greeters| {
        greeters := greeters[g := greeters[g].(daemon := daemon)];
      }
    }

    method StopHeldSession(g: GreeterId)
      modifies `all
      ensures View() == StopHeld(old(View()), g)
    {
      hide StopSession;
      var held := GreeterAt(View(), g).daemon.session;
      if held.Some? {
        StopOne(held.value);
      }
    }

    /** `greeter_active_username_changed_cb`. */
    method ActiveUsernameChangedCb(g: GreeterId, username: Option<Text>)
      modifies `next
      ensures View() == NameChanged(old(View()), g, username)
    {
      hide FindUser;
      if !GreeterAt(View(), g).inSession {
        next := FindUserSession(username, active);
      }
    }

    /** `greeter_create_session_cb`, and the start of the session that it makes. */
    method GreeterCreateSessionCb(env: Env, g: GreeterId, username: Option<Text>, isGuest: bool)
      modifies this
      ensures View() == CreateForGreeter(old(View()), env, g, username, isGuest)
    {
      hide AnyGreeter, StartLife;
      var host := Find(AnyGreeter(View()));
      var server := None;
      if !GreeterAt(View(), g).inSession && host.Some? {
        server := At(View(), host.value).server;
      }
      var x := AppendSession(NewRecord(username, isGuest, None, ByGreeter).(server := server));
      var _ := StartChild(env, x);
    }

    /** A message of a greeter: what the greeter makes of it, and what it asks of the seat. */
    method GreeterRead(env: Env, g: GreeterId, r: LoginMessages.Request)
      modifies this
      ensures View() == GreeterMessage(old(View()), env, g, r)
    {
      hide StopHeld, NameChanged, CreateForGreeter, SetDaemon, StartRequested, GreeterDaemon.Handle, GreeterDaemon.MayStart, World;
      var daemon := GreeterAt(View(), g).daemon;
      var handled := GreeterDaemon.Handle(daemon, r, World(View(), env, g, Some(|all|))).state;
      match r {
        case Authenticate(_, username) =>
          var name := GreeterDaemon.NullIfEmpty(username);
          StopHeldSession(g);
          ActiveUsernameChangedCb(g, name);
          GreeterCreateSessionCb(env, g, name, false);
        case AuthenticateAsGuest(_) =>
          StopHeldSession(g);
        case AuthenticateRemote(_, _, username) =>
          StopHeldSession(g);
          if env.serviceKnown {
            GreeterCreateSessionCb(env, g, GreeterDaemon.NullIfEmpty(username), true);
          }
        case CancelAuthentication =>
          StopHeldSession(g);
        case StartSession(_) =>
          if !GreeterDaemon.MayStart(daemon, World(View(), env, g, None)) {
            return;
          }
          var _ := GreeterStartSessionCb(env, g);
        case _ =>
      }
      SetGreeter(g, handled);
    }

    // ---------------------------------------------------------------- requests

    method SwitchToUserRequest(env: Env, username: Text) returns (ok: bool)
      modifies this
      ensures Outcome(View(), ok) == SwitchToUser(old(View()), env, username)
    {
      hide FindUser, StartLife, ChildStarts;
      if !config.canSwitch {
        return false;
      }
      var found := FindUserSession(Some(username), None);
      if found.Some? && found == active {
        return true;
      }
      if !env.userKnown || !env.sessionConfigured {
        return false;
      }
      var x := AppendSession(NewRecord(Some(username), false, env.argv, Switch));
      ok := StartChild(env, x);
    }

    method SwitchToGuestRequest(env: Env) returns (ok: bool)
      modifies this
      ensures Outcome(View(), ok) == SwitchToGuest(old(View()), env)
    {
      hide LivingGuest, SetActive, GiveServer;
      if !config.canSwitch || !config.allowGuest {
        return false;
      }
      var found := Find(LivingGuest(View()));
      if found.Some? {
        SetActiveSession(found.value);
        return true;
      }
      if !env.sessionConfigured {
        return false;
      }
      var x := AppendSession(NewRecord(None, true, env.argv, Auto));
      toActivate := Some(x);
      ok := GiveDisplayServer(env, x);
    }

    method LockRequest(env: Env) returns (ok: bool)
      modifies this
      ensures Outcome(View(), ok) == Lock(old(View()), env)
    {
      hide LivingResettable, LivingGreeter, SetActive, CreateGreeter, GiveServer;
      if !config.canSwitch {
        return false;
      }
      var found := Find(LivingResettable(View()));
      if found.Some? {
        Note(Reset(found.value));
        SetActiveSession(found.value);
        return true;
      }
      var before := Find(LivingGreeter(View()));
      var server := None;
      if before.Some? {
        server := At(View(), before.value).server;
        StopOne(before.value);
      }
      if !env.greeterConfigured {
        return false;
      }
      var g := CreateGreeterSession(env);
      toActivate := Some(g);
      if before.Some? {
        SetRecord(g, At(View(), g).(server := server));
        replacement := Some(g);
        return true;
      }
      ok := GiveDisplayServer(env, g);
    }

    method ShowFirstSession(env: Env, x: SessionId) returns (ok: bool)
      modifies this
      ensures Outcome(View(), ok) == ShowFirst(old(View()), env, x)
    {
      hide GiveServer, StopSession, StopServer;
      toActivate := Some(x);
      ok := GiveDisplayServer(env, x);
      if !ok {
        var d := At(View(), x).server;
        StopOne(x);
        StopOneServer(d);
      }
    }

    method StartRequest(env: Env, login: Autologin, inBackground: bool)
      modifies this
      ensures View() == StartSeat(old(View()), env, login, inBackground)
    {
      hide ShowFirst, CreateGreeter, GiveServer, StopSeat;
      var session: Option<SessionId> := None;
      if env.sessionConfigured && login.Guest? {
        var x := AppendSession(NewRecord(None, true, env.argv, Auto));
        session := Some(x);
      } else if env.sessionConfigured && login.User? && env.userKnown {
        var x := AppendSession(NewRecord(Some(login.name), false, env.argv, Auto));
        session := Some(x);
      }
      if session.Some? && !inBackground {
        var ok := ShowFirstSession(env, session.value);
        if ok {
          started := true;
          return;
        }
      }
      if !env.greeterConfigured {
        return;
      }
      var g := CreateGreeterSession(env);
      var ok := ShowFirstSession(env, g);
      if !ok {
        Stop();
        return;
      }
      if inBackground && session.Some? {
        var _ := GiveDisplayServer(env, session.value);
      }
      started := true;
    }

    // ---------------------------------------------------------------- children

    method AuthenticationCompleteCb(env: Env, x: SessionId)
      modifies this
      ensures View() == OnComplete(old(View()), env, x)
    {
      hide AutoComplete, SwitchComplete;
      if x !in sessions {
        return;
      }
      match At(View(), x).handler {
        case ByGreeter =>
        case Auto => SessionAuthenticationCompleteCb(env, x);
        case Switch => SwitchAuthenticationCompleteCb(env, x);
      }
    }

    method ChildReported(env: Env, x: SessionId, report: ChildPipe.Report)
      modifies this
      ensures View() == OnChildReport(old(View()), env, x, report)
    {
      hide OnComplete, Put, Life.OnReport;
      var r := At(View(), x);
      if !r.life.listening {
        return;
      }
      SetRecord(x, r.(life := Life.OnReport(r.life, report)));
      if report.Done? {
        Note(Reported(x, report.username, report.result));
        AuthenticationCompleteCb(env, x);
      }
    }

    method ChildExited(env: Env, x: SessionId)
      modifies this
      ensures View() == OnChildExit(old(View()), env, x)
    {
      hide OnComplete, Put, SessionStopped, Life.OnExit;
      var r := At(View(), x);
      if r.life.pid <= 0 {
        return;
      }
      SetRecord(x, r.(life := Life.OnExit(r.life)));
      if MidAuth(r.life) {
        AuthenticationCompleteCb(env, x);
      }
      if x in sessions {
        SessionStoppedCb(env, x);
      }
    }

    method ChildSilent(x: SessionId, e: Life.Event)
      modifies `all
      ensures View() == Put(old(View()), x, At(old(View()), x).(life := Life.Step(At(old(View()), x).life, e)))
    {
      var r := At(View(), x);
      SetRecord(x, r.(life := Life.Step(r.life, e)));
    }

    // ---------------------------------------------------------------- the main loop

    method HandleRequest(env: Env, e: Event)
      requires e.StartsSeat? || e.StopsSeat? || e.SwitchesToGreeter? || e.SwitchesToUser? || e.SwitchesToGuest? || e.Locks?
               || e.ActivatedOutside? || e.OpensGreeter? || e.Message?
      modifies this
      ensures View() == Next(old(View()), env, e)
    {
      hide StartSeat, StopSeat, SwitchToGreeter, SwitchToUser, SwitchToGuest, Lock, GreeterMessage,
           OnChildReport, OnChildExit, SessionStopped, ServerReady, ServerStopped, Put, Launch, Life.Step, HasStopped;
      match e {
        case StartsSeat(login, inBackground) => StartRequest(env, login, inBackground);
        case StopsSeat => Stop();
        case SwitchesToGreeter => var _ := SwitchToGreeterRequest(env);
        case SwitchesToUser(username) => var _ := SwitchToUserRequest(env, username);
        case SwitchesToGuest => var _ := SwitchToGuestRequest(env);
        case Locks => var _ := LockRequest(env);
        case ActivatedOutside(x) =>
          if x in sessions {
            active := Some(x);
          }
        case OpensGreeter => greeters := greeters + [NewGreeter(View(), true)];
        case Message(g, r) =>
          if g < |greeters| {
            GreeterRead(env, g, r);
          }
      }
    }

    method HandleSignal(env: Env, e: Event)
      requires e.ChildReports? || e.ChildBreaksOff? || e.ChildHangsUp? || e.ChildExits? || e.StopDelivered?
               || e.ServerLaunches? || e.ServerGetsReady? || e.ServerStops?
      modifies this
      ensures View() == Next(old(View()), env, e)
    {
      hide OnChildReport, OnChildExit, SessionStopped, ServerReady, ServerStopped, Put, Launch, Life.Step, HasStopped, ServerAt,
           StartSeat, StopSeat, SwitchToGreeter, SwitchToUser, SwitchToGuest, Lock, GreeterMessage, NewGreeter;
      match e {
        case ChildReports(x, r) => ChildReported(env, x, r);
        case ChildBreaksOff(x, u) => ChildSilent(x, Life.BreaksOff(u));
        case ChildHangsUp(x) => ChildSilent(x, Life.HangsUp);
        case ChildExits(x) => ChildExited(env, x);
        case StopDelivered(x) =>
          if HasStopped(View(), x) {
            SessionStoppedCb(env, x);
          }
        case ServerLaunches(d) => LaunchServer(d, true);
        case ServerGetsReady(d) =>
          if d in servers {
            DisplayServerReadyCb(env, d);
          }
        case ServerStops(d) =>
          if d in servers && ServerAt(View(), d).launched {
            DisplayServerStoppedCb(env, d);
          }
      }
    }

    /**
      Whatever happens, the object takes the step of the seat. It keeps that authenticated
      sessions were reported so, that unlocks were vouched for and that STOPPED comes once, and
      it points at listed sessions afterwards exactly unless a start came too late.
     */
    method Handle(env: Env, e: Event)
      modifies this
      ensures View() == Next(old(View()), env, e)
      ensures old(Honest(View())) ==> Honest(View())
      ensures old(Honest(View()) && Listed(View())) ==> (Listed(View()) <==> !LosesStart(old(View()), env, e))
    {
      hide Next, Honest, Listed, LosesStart;
      ghost var s := View();
      if Honest(s) {
        NextKeeps(s, env, e);
      }
      if e.ChildReports? || e.ChildBreaksOff? || e.ChildHangsUp? || e.ChildExits? || e.StopDelivered?
         || e.ServerLaunches? || e.ServerGetsReady? || e.ServerStops?
      {
        HandleSignal(env, e);
      } else {
        HandleRequest(env, e);
      }
    }

    /**
      The main loop on a new seat. Whatever happens, a session is unlocked only after another one
      with its username was reported PAM_SUCCESS, and the seat emits STOPPED at most once and with
      both its lists empty; while every start comes in time the seat points at listed sessions.
     */
    method Serve(hs: seq<Happening>)
      requires View() == Initial(config)
      modifies this
      ensures View() == Seats.Run(Initial(config), hs)
      ensures Vouched(log) && StoppedOnce(View())
      ensures StartsInTime(Initial(config), hs) ==> Listed(View())
    {
      hide Next, Honest, Listed, Seats.Run, StartsInTime;
      InitialHonest(config);
      assert View() == Seats.Run(Initial(config), hs[..0]) by { RunNone(Initial(config)); }
      for i := 0 to |hs|
        invariant View() == Seats.Run(Initial(config), hs[..i]) && Honest(View())
      {
        assert hs[..i + 1] == hs[..i] + [hs[i]];
        RunSnoc(Initial(config), hs[..i], hs[i]);
        Handle(hs[i].env, hs[i].event);
      }
      assert hs[..|hs|] == hs;
      HonestFacts(View());
      if StartsInTime(Initial(config), hs) {
        RunListed(Initial(config), hs);
      }
    }
  }

  lemma RunNone(s: Seat)
    ensures Seats.Run(s, []) == s
  {
  }

  lemma HonestFacts(s: Seat)
    requires Honest(s)
    ensures Vouched(s.log) && StoppedOnce(s)
  {
  }

  lemma CreateServerPoints(s: Seat, env: Env, g: SessionId)
    ensures CreateServer(s, env, g).server.None? <==> CreateServer(s.(toActivate := Some(g)), env, g).server.None?
    ensures CreateServer(s, env, g).server.None? ==> CreateServer(s.(toActivate := Some(g)), env, g).seat == s.(toActivate := Some(g))
  {
  }

  lemma HitListed(s: Seat, d: ServerId)
    ensures forall y :: LivingOn(s, d)(y) ==> y in s.sessions
  {
  }

  lemma StopWhereServers(s: Seat, p: SessionId -> bool)
    ensures StopWhere(s, p).servers == s.servers && StopWhere(s, p).stopping == s.stopping
  {
  }
}
