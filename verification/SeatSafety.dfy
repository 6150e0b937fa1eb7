/**
  What every run of a seat keeps: who may be unlocked, which sessions the seat points at, and
  when it says that it has stopped.
 */
module SeatSafety {
  import opened Octets
  import opened Lists
  import Life = SessionLife
  import opened Seats
  import GreeterDaemon
  import LoginMessages
  import ChildPipe

  // ------------------------------------------------------------------ the invariants

  /** Some other session with the same username was reported successful earlier. */
  ghost predicate VouchedAt(log: seq<Entry>, j: nat)
    requires j < |log|
  {
    log[j].Unlocked? ==>
      exists i :: 0 <= i < j && log[i].Reported? && log[i].result == Life.PAM_SUCCESS
                  && log[i].username == log[j].username && log[i].session != log[j].target
  }

  ghost predicate Vouched(log: seq<Entry>) {
    forall j :: 0 <= j < |log| ==> VouchedAt(log, j)
  }

  /** STOPPED is emitted at most once, and with nothing listed. */
  ghost predicate StoppedOnce(s: Seat) {
    && (s.stopped ==> s.stopping)
    && (forall e <- s.log :: e.SeatStopped? ==> e == SeatStopped(0, 0) && s.stopped)
    && (forall i, j :: 0 <= i < j < |s.log| && s.log[i].SeatStopped? ==> !s.log[j].SeatStopped?)
  }

  /** An authenticated session was reported so under the username that it has. */
  predicate Known(log: seq<Entry>, x: SessionId, life: Life.State) {
    Life.Settled(life) && (Life.Authenticated(life) ==> Reported(x, life.username, Life.PAM_SUCCESS) in log)
  }

  ghost predicate Honest(s: Seat) {
    && Vouched(s.log)
    && StoppedOnce(s)
    && (forall x :: 0 <= x < |s.all| ==> Known(s.log, x, s.all[x].life))
    && (s.replacement.Some? ==> s.replacement.value < |s.all| && !s.all[s.replacement.value].handler.ByGreeter?)
    && (forall g :: 0 <= g < |s.greeters| ==> Owned(s.all, s.greeters[g].daemon.session))
  }

  /** A greeter authenticates a session that was made for a greeter. */
  predicate Owned(all: seq<Record>, p: Option<SessionId>) {
    p.Some? ==> p.value < |all| && all[p.value].handler.ByGreeter?
  }

  predicate NoneOrIn(p: Option<SessionId>, ids: seq<SessionId>) {
    p.Some? ==> p.value in ids
  }

  ghost predicate Listed(s: Seat) {
    && Distinct(s.sessions) && Distinct(s.servers)
    && (forall x <- s.sessions :: x < |s.all|)
    && (forall d <- s.servers :: d < |s.allServers|)
    && NoneOrIn(s.active, s.sessions) && NoneOrIn(s.next, s.sessions) && NoneOrIn(s.toActivate, s.sessions)
  }

  /** A session made for a greeter is listed while its child runs or waits for its command block. */
  predicate Held(s: Seat, x: SessionId) {
    var r := At(s, x);
    r.handler.ByGreeter? && (r.life.pid > 0 || (Life.Authenticated(r.life) && !r.life.commandRun)) ==> x in s.sessions
  }

  ghost predicate Waiting(s: Seat) {
    forall x :: 0 <= x < |s.all| ==> Held(s, x)
  }

  /** Sessions stay of their kind. */
  ghost predicate SameKinds(s: Seat, t: Seat) {
    |s.all| <= |t.all| && forall i :: 0 <= i < |s.all| ==> t.all[i].handler == s.all[i].handler
  }

  ghost predicate Keeps(s: Seat, t: Seat) {
    Honest(s) ==>
      && Honest(t)
      && (Listed(s) ==> Listed(t))
      && (Waiting(s) ==> Waiting(t))
      && SameKinds(s, t)
  }

  // ------------------------------------------------------------------ quiet changes

  /** A record changes in nothing that the invariants look at. */
  predicate Quiet(r: Record, q: Record) {
    && q.handler == r.handler && q.isGreeter == r.isGreeter
    && q.life.username == r.life.username && q.life.pid == r.life.pid
    && q.life.authComplete == r.life.authComplete && q.life.result == r.life.result && q.life.listening == r.life.listening
    && (r.life.commandRun ==> q.life.commandRun)
  }

  predicate Harmless(e: Entry) {
    !e.Unlocked? && !e.SeatStopped?
  }

  /** Same lists, same pointers, quiet records. */
  ghost predicate Steady(s: Seat, t: Seat) {
    && t.sessions == s.sessions && t.active == s.active && t.next == s.next && t.toActivate == s.toActivate && t.replacement == s.replacement
    && |t.all| == |s.all| && (forall i :: 0 <= i < |s.all| ==> Quiet(s.all[i], t.all[i]))
  }

  ghost predicate Calm(s: Seat, t: Seat) {
    && Steady(s, t)
    && t.servers == s.servers && |t.allServers| == |s.allServers|
    && t.stopping == s.stopping && t.stopped == s.stopped && t.greeters == s.greeters
    && |s.log| <= |t.log| && t.log[..|s.log|] == s.log && (forall i :: |s.log| <= i < |t.log| ==> Harmless(t.log[i]))
  }

  lemma LogGrows(log: seq<Entry>, more: seq<Entry>)
    requires |log| <= |more| && more[..|log|] == log && forall i :: |log| <= i < |more| ==> Harmless(more[i])
    ensures Vouched(log) ==> Vouched(more)
    ensures forall e <- log :: e in more
  {
    forall e <- log ensures e in more {
      var i :| 0 <= i < |log| && log[i] == e;
      assert more[i] == more[..|log|][i];
    }
    if Vouched(log) {
      forall j | 0 <= j < |more| ensures VouchedAt(more, j) {
        if j < |log| {
          assert VouchedAt(log, j);
          assert forall i :: 0 <= i < |log| ==> more[i] == more[..|log|][i];
        }
      }
    }
  }

  lemma CalmStopped(s: Seat, t: Seat)
    requires Calm(s, t) && StoppedOnce(s)
    ensures StoppedOnce(t)
  {
    assert forall i :: 0 <= i < |s.log| ==> t.log[i] == t.log[..|s.log|][i];
    forall e <- t.log | e.SeatStopped? ensures e == SeatStopped(0, 0) && t.stopped {
      var i :| 0 <= i < |t.log| && t.log[i] == e;
      assert s.log[i] == e;
    }
  }

  lemma CalmKeeps(s: Seat, t: Seat)
    requires Calm(s, t)
    ensures Keeps(s, t)
  {
    LogGrows(s.log, t.log);
    if Honest(s) {
      CalmStopped(s, t);
      forall x | 0 <= x < |t.all| ensures Known(t.log, x, t.all[x].life) {
        assert Known(s.log, x, s.all[x].life) && Quiet(s.all[x], t.all[x]);
      }
    }
    if Waiting(s) {
      forall x | 0 <= x < |t.all| ensures Held(t, x) {
        assert Held(s, x) && Quiet(s.all[x], t.all[x]);
      }
      if s.replacement.Some? && s.replacement.value < |s.all| {
        assert Quiet(s.all[s.replacement.value], t.all[s.replacement.value]);
      }
    }
  }

  lemma CalmTwice(s: Seat, t: Seat, u: Seat)
    requires Calm(s, t) && Calm(t, u)
    ensures Calm(s, u)
  {
    forall i | 0 <= i < |s.all| ensures Quiet(s.all[i], u.all[i]) {
      assert Quiet(s.all[i], t.all[i]) && Quiet(t.all[i], u.all[i]);
    }
    assert u.log[..|s.log|] == u.log[..|t.log|][..|s.log|];
    forall i | |s.log| <= i < |u.log| ensures Harmless(u.log[i]) {
      if i < |t.log| {
        assert u.log[i] == u.log[..|t.log|][i];
      }
    }
  }

  lemma PutCalm(s: Seat, x: SessionId, r: Record)
    requires Quiet(At(s, x), r)
    ensures Calm(s, Put(s, x, r))
  {
  }

  lemma StopSessionCalm(s: Seat, x: SessionId)
    ensures Calm(s, StopSession(s, x))
  {
    PutCalm(s, x, At(s, x).(life := Life.OnStop(At(s, x).life)));
  }

  lemma StopWhereCalm(s: Seat, p: SessionId -> bool)
    ensures Calm(s, StopWhere(s, p))
  {
    var t := StopWhere(s, p);
    forall i | 0 <= i < |s.all| ensures Quiet(s.all[i], t.all[i]) {
      assert t.all[i] == if p(i) then s.all[i].(life := Life.OnStop(s.all[i].life)) else s.all[i];
    }
  }

  lemma SetServerCalm(s: Seat, x: SessionId, d: Option<ServerId>)
    ensures Calm(s, SetServer(s, x, d))
  {
    PutCalm(s, x, At(s, x).(server := d));
  }

  lemma StopServerCalm(s: Seat, d: Option<ServerId>)
    ensures Calm(s, StopServer(s, d))
  {
  }

  lemma RunLifeCalm(s: Seat, x: SessionId)
    ensures Calm(s, RunLife(s, x))
  {
    PutCalm(s, x, At(s, x).(life := Life.Step(At(s, x).life, Life.Runs(At(s, x).server.Some?, COMMAND))));
  }

  lemma NotedCalm(s: Seat, e: Entry)
    requires Harmless(e)
    ensures Calm(s, Noted(s, e))
  {
  }

  lemma KeepsTwice(s: Seat, t: Seat, u: Seat)
    requires Keeps(s, t) && Keeps(t, u)
    ensures Keeps(s, u)
  {
    hide Honest, Listed, Waiting;
    if Honest(s) {
      forall i | 0 <= i < |s.all| ensures u.all[i].handler == s.all[i].handler {
        assert t.all[i].handler == s.all[i].handler;
      }
    }
  }

  lemma SteadyTwice(s: Seat, t: Seat, u: Seat)
    requires Steady(s, t) && Steady(t, u)
    ensures Steady(s, u)
  {
    forall i | 0 <= i < |s.all| ensures Quiet(s.all[i], u.all[i]) {
      assert Quiet(s.all[i], t.all[i]) && Quiet(t.all[i], u.all[i]);
    }
  }

  // ------------------------------------------------------------------ pointers and lists

  /** Only pointers change, to sessions that are listed. */
  lemma PointKeeps(s: Seat, t: Seat)
    requires t == s.(active := t.active, next := t.next, toActivate := t.toActivate)
    ensures Honest(s) ==> Honest(t)
    ensures Waiting(s) ==> Waiting(t)
    ensures Listed(s) ==>
              (Listed(t) <==> NoneOrIn(t.active, s.sessions) && NoneOrIn(t.next, s.sessions) && NoneOrIn(t.toActivate, s.sessions))
    ensures SameKinds(s, t)
  {
    if Waiting(s) {
      forall x | 0 <= x < |t.all| ensures Held(t, x) {
        assert Held(s, x);
      }
    }
  }

  lemma SetActiveKeeps(s: Seat, x: SessionId)
    ensures var t := SetActive(s, x);
            && (Honest(s) ==> Honest(t) && (Waiting(s) ==> Waiting(t)) && SameKinds(s, t))
            && (Honest(s) && Listed(s) && x in s.sessions ==> Listed(t))
            && t.sessions == s.sessions && t.toActivate == s.toActivate && t.servers == s.servers
            && |t.all| == |s.all| && (forall i :: 0 <= i < |s.all| ==> Quiet(s.all[i], t.all[i]))
  {
    hide Honest, Listed, Waiting, StopWhere, Noted, Calm, Keeps, SameKinds, Steady, IdlePrevious, LockPrevious;
    var a := IdlePrevious(s, x);
    var b := StopWhere(a, OtherGreeters(a, x));
    var c := LockPrevious(b, x);
    var d := Noted(c, Activated(x));
    IdleLockCalm(s, x);
    StopWhereCalm(a, OtherGreeters(a, x));
    IdleLockCalm(b, x);
    NotedCalm(c, Activated(x));
    CalmTwice(s, a, b);
    CalmTwice(s, b, c);
    CalmTwice(s, c, d);
    CalmKeeps(s, d);
    CalmFacts(s, d);
    SteadyFacts(s, d);
    SetActiveLast(s, d, x);
  }

  lemma IdleLockCalm(s: Seat, x: SessionId)
    ensures Calm(s, IdlePrevious(s, x)) && Calm(s, LockPrevious(s, x))
  {
    hide IsResettable;
    SelfCalm(s);
    if s.active.Some? {
      NotedCalm(s, Idled(s.active.value));
      NotedCalm(s, Locked(s.active.value));
    }
  }

  lemma SelfCalm(s: Seat)
    ensures Calm(s, s)
  {
  }

  lemma CalmFacts(s: Seat, t: Seat)
    requires Calm(s, t)
    ensures Steady(s, t) && t.servers == s.servers && |t.all| == |s.all| && (forall i :: 0 <= i < |s.all| ==> Quiet(s.all[i], t.all[i]))
  {
  }

  lemma SetActiveLast(s: Seat, d: Seat, x: SessionId)
    requires Keeps(s, d) && Steady(s, d)
    ensures var t := d.(active := Some(x));
            && (Honest(s) ==> Honest(t) && (Waiting(s) ==> Waiting(t)) && SameKinds(s, t))
            && (Honest(s) && Listed(s) && x in s.sessions ==> Listed(t))
  {
    hide Honest, Waiting, Steady;
    assert d.sessions == s.sessions by { SteadyFacts(s, d); }
    PointKeeps(d, d.(active := Some(x)));
  }

  lemma SteadyFacts(s: Seat, t: Seat)
    requires Steady(s, t)
    ensures t.sessions == s.sessions && t.active == s.active && t.toActivate == s.toActivate && |t.all| == |s.all|
    ensures forall x :: At(t, x).handler == At(s, x).handler && At(t, x).life.username == At(s, x).life.username
                        && Life.Authenticated(At(t, x).life) == Life.Authenticated(At(s, x).life) && At(t, x).life.pid == At(s, x).life.pid
                        && At(t, x).isGreeter == At(s, x).isGreeter
  {
    forall x: SessionId ensures x < |s.all| ==> Quiet(s.all[x], t.all[x]) {
    }
  }

  /** A session that is neither started nor authenticated joins the list. */
  lemma AddSessionKeeps(s: Seat, r: Record)
    requires !r.life.authComplete && r.life.pid == 0
    ensures Keeps(s, AddSession(s, r)) && |s.all| in AddSession(s, r).sessions
    ensures At(AddSession(s, r), |s.all|) == r
  {
    var t := AddSession(s, r);
    if Listed(s) {
      DistinctSnoc(s.sessions, |s.all|);
    }
    assert |s.all| in t.sessions by {
      assert t.sessions[|s.sessions|] == |s.all|;
    }
    if Waiting(s) {
      forall x | 0 <= x < |t.all| ensures Held(t, x) {
        if x < |s.all| {
          assert Held(s, x);
        }
      }
    }
  }

  lemma CreateGreeterKeeps(s: Seat, env: Env)
    ensures Keeps(s, CreateGreeter(s, env)) && |s.all| in CreateGreeter(s, env).sessions
    ensures !Life.Authenticated(At(CreateGreeter(s, env), |s.all|).life) && At(CreateGreeter(s, env), |s.all|).handler.Auto?
    ensures At(CreateGreeter(s, env), |s.all|).isGreeter
  {
    hide Honest, Listed, Waiting;
    var t := s.(greeters := s.greeters + [NewGreeter(s, false)]);
    NewGreeterKeeps(s, false);
    var r := NewRecord(env.greeterUser, false, env.argv, Auto).(isGreeter := true, greeter := |s.greeters|);
    AddSessionKeeps(t, r);
    KeepsTwice(s, t, AddSession(t, r));
  }

  /** Only display servers change. */
  lemma ServersKeep(s: Seat, t: Seat)
    requires t == s.(allServers := t.allServers, servers := t.servers)
    requires Listed(s) ==> Distinct(t.servers) && forall d <- t.servers :: d < |t.allServers|
    ensures Keeps(s, t) && Steady(s, t)
  {
    if Waiting(s) {
      forall y | 0 <= y < |t.all| ensures Held(t, y) {
        assert Held(s, y);
      }
    }
  }

  lemma CreateServerKeeps(s: Seat, env: Env, x: SessionId)
    ensures Keeps(s, CreateServer(s, env, x).seat) && Steady(s, CreateServer(s, env, x).seat)
  {
    hide Honest, Waiting, Keeps, Steady, Distinct;
    var t := CreateServer(s, env, x).seat;
    if Listed(s) && t.servers != s.servers {
      DistinctSnoc(s.servers, t.servers[|s.servers|]);
    }
    ServersKeep(s, t);
  }

  lemma GiveServerKeeps(s: Seat, env: Env, x: SessionId)
    ensures Keeps(s, GiveServer(s, env, x).seat) && Steady(s, GiveServer(s, env, x).seat)
  {
    hide Honest, Listed, Waiting, CreateServer, SetServer, Quiet, StartServer, Keeps, Steady, Calm;
    var m := CreateServer(s, env, x);
    var t := SetServer(m.seat, x, m.server);
    CreateServerKeeps(s, env, x);
    SetServerCalm(m.seat, x, m.server);
    StartServerCalm(t, env, m.server);
    CalmTwice(m.seat, t, StartServer(t, env, m.server));
    CalmKeeps(m.seat, StartServer(t, env, m.server));
    CalmFacts(m.seat, StartServer(t, env, m.server));
    KeepsTwice(s, m.seat, StartServer(t, env, m.server));
    SteadyTwice(s, m.seat, StartServer(t, env, m.server));
  }

  lemma LaunchCalm(s: Seat, d: ServerId)
    ensures Calm(s, Launch(s, d))
  {
  }

  lemma StartServerCalm(s: Seat, env: Env, d: Option<ServerId>)
    ensures Calm(s, StartServer(s, env, d))
  {
    hide Calm, Launch;
    SelfCalm(s);
    if d.Some? {
      LaunchCalm(s, d.value);
    }
  }

  lemma CheckStoppedKeeps(s: Seat)
    ensures Keeps(s, CheckStopped(s)) && Steady(s, CheckStopped(s))
  {
    var t := CheckStopped(s);
    if t != s {
      assert t.log[..|s.log|] == s.log;
      if Honest(s) {
        forall j | 0 <= j < |t.log| ensures VouchedAt(t.log, j) {
          if j < |s.log| {
            assert VouchedAt(s.log, j);
            assert forall i :: 0 <= i < |s.log| ==> t.log[i] == s.log[i];
          }
        }
        forall x | 0 <= x < |t.all| ensures Known(t.log, x, t.all[x].life) {
          assert Known(s.log, x, s.all[x].life);
        }
      }
      if Waiting(s) {
        forall x | 0 <= x < |t.all| ensures Held(t, x) {
          assert Held(s, x);
        }
      }
    }
  }

  lemma BeginStopKeeps(s: Seat)
    ensures Keeps(s, s.(stopping := true)) && Steady(s, s.(stopping := true))
  {
    var t := s.(stopping := true);
    if Waiting(s) {
      forall x | 0 <= x < |t.all| ensures Held(t, x) {
        assert Held(s, x);
      }
    }
  }

  lemma StopSeatKeeps(s: Seat)
    ensures Keeps(s, StopSeat(s)) && Steady(s, StopSeat(s))
  {
    hide Honest, Listed, Waiting, CheckStopped, StopWhere, Quiet;
    if s.stopping {
      SelfCalm(s);
      CalmKeeps(s, s);
    } else {
      var a := s.(stopping := true);
      var t := CheckStopped(a);
      BeginStopKeeps(s);
      CheckStoppedKeeps(a);
      KeepsTwice(s, a, t);
      SteadyTwice(s, a, t);
      if !t.stopped {
        var u := StopAllServers(t);
        StopAllServersCalm(t);
        CalmKeeps(t, u);
        KeepsTwice(s, t, u);
        SteadyTwice(s, t, u);
        var v := StopWhere(u, ListedIn(s));
        StopWhereCalm(u, ListedIn(s));
        CalmKeeps(u, v);
        KeepsTwice(s, u, v);
        SteadyTwice(s, u, v);
        assert StopSeat(s) == v;
      }
    }
  }

  lemma StopAllServersCalm(s: Seat)
    ensures Calm(s, StopAllServers(s))
  {
    SelfCalm(s);
  }

  // ------------------------------------------------------------------ starting and running

  lemma SetActiveListed(s: Seat, x: SessionId)
    requires x in s.sessions
    ensures Keeps(s, SetActive(s, x)) && SetActive(s, x).sessions == s.sessions
  {
    hide Honest, Listed, Waiting, SetActive;
    SetActiveKeeps(s, x);
  }

  lemma FindersListed(s: Seat)
    ensures NoneOrIn(FindGreeter(s), s.sessions) && NoneOrIn(FindResettable(s), s.sessions) && NoneOrIn(FindGuest(s), s.sessions)
    ensures NoneOrIn(GreeterSession(s), s.sessions)
  {
    hide IsResettable;
  }

  lemma FindUserSound(s: Seat, username: Option<Text>, ignore: Option<SessionId>)
    ensures NoneOrIn(FindUser(s, username, ignore), s.sessions)
    ensures var r := FindUser(s, username, ignore);
            r.Some? ==> r != ignore && !IsStopping(s, r.value) && At(s, r.value).life.username == username && username.Some?
  {
  }

  lemma StopSessionKeeps(s: Seat, x: SessionId)
    ensures Keeps(s, StopSession(s, x)) && Steady(s, StopSession(s, x))
  {
    hide Keeps, Steady, StopSession;
    StopSessionCalm(s, x);
    CalmKeeps(s, StopSession(s, x));
    CalmFacts(s, StopSession(s, x));
  }

  lemma StopServerKeeps(s: Seat, d: Option<ServerId>)
    ensures Keeps(s, StopServer(s, d)) && Steady(s, StopServer(s, d))
  {
    hide Keeps, Steady, StopServer;
    StopServerCalm(s, d);
    CalmKeeps(s, StopServer(s, d));
    CalmFacts(s, StopServer(s, d));
  }

  lemma SetServerKeeps(s: Seat, x: SessionId, d: Option<ServerId>)
    ensures Keeps(s, SetServer(s, x, d)) && Steady(s, SetServer(s, x, d))
  {
    hide Keeps, Steady, SetServer;
    SetServerCalm(s, x, d);
    CalmKeeps(s, SetServer(s, x, d));
    CalmFacts(s, SetServer(s, x, d));
  }

  lemma NotedKeeps(s: Seat, e: Entry)
    requires Harmless(e)
    ensures Keeps(s, Noted(s, e)) && Steady(s, Noted(s, e))
  {
    hide Keeps, Steady, Noted;
    NotedCalm(s, e);
    CalmKeeps(s, Noted(s, e));
    CalmFacts(s, Noted(s, e));
  }

  lemma GreetersKeep(s: Seat, t: Seat)
    requires t == s.(greeters := t.greeters)
    requires Honest(s) ==> forall g :: 0 <= g < |t.greeters| ==> Owned(s.all, t.greeters[g].daemon.session)
    ensures Keeps(s, t) && Steady(s, t)
  {
    if Waiting(s) {
      forall x | 0 <= x < |t.all| ensures Held(t, x) {
        assert Held(s, x);
      }
    }
  }

  lemma SetDaemonKeeps(s: Seat, g: GreeterId, daemon: GreeterDaemon.State)
    requires Honest(s) ==> Owned(s.all, daemon.session)
    ensures Keeps(s, SetDaemon(s, g, daemon)) && Steady(s, SetDaemon(s, g, daemon))
  {
    hide Keeps, Steady, Vouched, StoppedOnce, Known;
    GreetersKeep(s, SetDaemon(s, g, daemon));
  }

  lemma NewGreeterKeeps(s: Seat, inSession: bool)
    ensures Keeps(s, s.(greeters := s.greeters + [NewGreeter(s, inSession)]))
  {
    hide Keeps, Steady, Vouched, StoppedOnce, Known;
    GreetersKeep(s, s.(greeters := s.greeters + [NewGreeter(s, inSession)]));
  }

  lemma SelfKeeps(s: Seat)
    ensures Keeps(s, s) && Steady(s, s)
  {
  }

  /** One record changes; the invariants hold if the new record meets them. */
  lemma PutKeeps(s: Seat, x: SessionId, r: Record)
    requires r.handler == At(s, x).handler
    requires Honest(s) ==> Known(s.log, x, r.life)
    requires Waiting(s) && r.handler.ByGreeter? && (r.life.pid > 0 || (Life.Authenticated(r.life) && !r.life.commandRun)) ==> x in s.sessions
    ensures Keeps(s, Put(s, x, r))
  {
    hide Known, Vouched, StoppedOnce;
    var t := Put(s, x, r);
    if Honest(s) {
      assert StoppedOnce(t) by { PutStoppedOnce(s, x, r); }
      forall y | 0 <= y < |t.all| ensures Known(t.log, y, t.all[y].life) {
        assert Known(s.log, y, s.all[y].life);
      }
    }
    if Waiting(s) {
      forall y | 0 <= y < |t.all| ensures Held(t, y) {
        assert Held(s, y);
      }
    }
  }

  lemma PutStoppedOnce(s: Seat, x: SessionId, r: Record)
    requires StoppedOnce(s)
    ensures StoppedOnce(Put(s, x, r))
  {
  }

  /** A session that is not authenticated may be started. */
  lemma StartLifeKeeps(s: Seat, env: Env, x: SessionId)
    requires !IsAuthenticated(s, x) && (x in s.sessions || !At(s, x).handler.ByGreeter?)
    ensures Keeps(s, StartLife(s, env, x))
  {
    hide Honest, Waiting, Keeps;
    PutKeeps(s, x, At(s, x).(life := Life.OnStart(At(s, x).life, HowStarts(env, x))));
  }

  lemma StartGreeterKeeps(s: Seat, env: Env, x: SessionId)
    requires !IsAuthenticated(s, x) && (x in s.sessions || !At(s, x).handler.ByGreeter?)
    ensures Keeps(s, StartGreeter(s, env, x))
  {
    hide Keeps, StartLife, StopServer, IsAuthenticated, ChildStarts;
    var t := StartLife(s, env, x);
    StartLifeKeeps(s, env, x);
    StopServerKeeps(t, At(t, x).server);
    KeepsTwice(s, t, StopServer(t, At(t, x).server));
  }

  /** The greeter that is made for a failed session, with a display server. */
  lemma GreeterMadeKeeps(s: Seat, env: Env, x: SessionId, u: Seat)
    requires var g := |s.all|;
             var t := CreateGreeter(s, env).(toActivate := Some(g));
             var given := GiveServer(t, env, x);
             u == SetServer(t, g, At(s, x).server) || u == given.seat || u == StopSeat(given.seat)
    ensures Keeps(s, u) && !IsAuthenticated(u, |s.all|) && |s.all| in u.sessions
  {
    hide Keeps, Steady, CreateGreeter, GiveServer, SetServer, StopSeat, IsAuthenticated;
    var g := |s.all|;
    var t := CreateGreeter(s, env).(toActivate := Some(g));
    GreeterToActivate(s, env);
    SetServerKeeps(t, g, At(s, x).server);
    SteadyAuthenticated(t, SetServer(t, g, At(s, x).server), g);
    KeepsTwice(s, t, SetServer(t, g, At(s, x).server));
    var v := GiveServer(t, env, x).seat;
    GiveServerKeeps(t, env, x);
    KeepsTwice(s, t, v);
    SteadyAuthenticated(t, v, g);
    StopSeatKeeps(v);
    KeepsTwice(s, v, StopSeat(v));
    SteadyAuthenticated(v, StopSeat(v), g);
  }

  lemma GreeterToActivate(s: Seat, env: Env)
    ensures var t := CreateGreeter(s, env).(toActivate := Some(|s.all|));
            Keeps(s, t) && !IsAuthenticated(t, |s.all|) && |s.all| in t.sessions && !At(t, |s.all|).handler.ByGreeter?
            && |s.all| < |t.all|
  {
    hide Honest, Waiting, CreateGreeter;
    var a := CreateGreeter(s, env);
    CreateGreeterKeeps(s, env);
    var t := a.(toActivate := Some(|s.all|));
    PointKeeps(a, t);
    KeepsTwice(s, a, t);
    assert |t.all| == |s.all| + 1 by { CreateGreeterGrows(s, env); }
  }

  lemma CreateGreeterGrows(s: Seat, env: Env)
    ensures |CreateGreeter(s, env).all| == |s.all| + 1
  {
  }

  lemma SteadyAuthenticated(s: Seat, t: Seat, x: SessionId)
    requires Steady(s, t)
    ensures IsAuthenticated(t, x) == IsAuthenticated(s, x) && t.sessions == s.sessions && At(t, x).handler == At(s, x).handler
    ensures At(t, x).life.username == At(s, x).life.username && t.toActivate == s.toActivate && t.active == s.active
  {
    SteadyFacts(s, t);
  }

  lemma FromFailedKeeps(s: Seat, env: Env, x: SessionId)
    ensures Keeps(s, FromFailed(s, env, x))
  {
    hide Keeps, Steady, SetActive, Noted, StopSession, CreateGreeter, GiveServer, SetServer, StopSeat, StartGreeter,
         FindResettable, CanShare, IsAuthenticated;
    FindersListed(s);
    var found := FindResettable(s);
    if found.Some? {
      var a := Noted(s, Reset(found.value));
      NotedKeeps(s, Reset(found.value));
      SteadyAuthenticated(s, a, x);
      SetActiveListed(a, found.value);
      KeepsTwice(s, a, SetActive(a, found.value));
      StopSessionKeeps(SetActive(a, found.value), x);
      KeepsTwice(s, SetActive(a, found.value), FromFailed(s, env, x));
    } else {
      var g := |s.all|;
      var t := CreateGreeter(s, env).(toActivate := Some(g));
      var d := At(s, x).server;
      var given := GiveServer(t, env, x);
      var u := if CanShare(t, d) then SetServer(t, g, d) else if given.ok then given.seat else StopSeat(given.seat);
      GreeterMadeKeeps(s, env, x, u);
      StartGreeterKeeps(u, env, g);
      KeepsTwice(s, u, StartGreeter(u, env, g));
      StopSessionKeeps(StartGreeter(u, env, g), x);
      KeepsTwice(s, StartGreeter(u, env, g), FromFailed(s, env, x));
    }
  }

  lemma StartSessionKeeps(s: Seat, env: Env, x: SessionId)
    requires !IsAuthenticated(s, x) && (x in s.sessions || !At(s, x).handler.ByGreeter?)
    ensures Keeps(s, StartSession(s, env, x))
  {
    hide Keeps, StartGreeter, StartLife, FromFailed, ChildStarts, IsAuthenticated;
    StartGreeterKeeps(s, env, x);
    StartLifeKeeps(s, env, x);
    FromFailedKeeps(StartLife(s, env, x), env, x);
    KeepsTwice(s, StartLife(s, env, x), FromFailed(StartLife(s, env, x), env, x));
  }

  /** The session runs and, if it was waited for, becomes active. */
  lemma RunSessionKeeps(s: Seat, env: Env, x: SessionId)
    ensures Keeps(s, RunSession(s, env, x))
  {
    hide Honest, Waiting, Listed, RunLife, FromFailed, SetActive, Noted;
    if x in env.scriptFails {
      FromFailedKeeps(s, env, x);
    } else {
      var t := RunLife(s, x);
      RunLifeCalm(s, x);
      CalmKeeps(s, t);
      if s.toActivate == Some(x) {
        SetActiveKeeps(t, x);
        var u := SetActive(t, x);
        assert u.sessions == t.sessions == s.sessions;
        var v := u.(toActivate := None);
        PointKeeps(u, v);
        if Honest(s) {
          ListedFacts(s);
          ListedFacts(u);
          assert SameKinds(s, v);
        }
      } else if s.active.Some? {
        NotedKeeps(t, Activated(s.active.value));
        KeepsTwice(s, t, Noted(t, Activated(s.active.value)));
      }
    }
  }

  lemma ListedFacts(s: Seat)
    ensures Listed(s) ==> NoneOrIn(s.active, s.sessions) && NoneOrIn(s.next, s.sessions) && NoneOrIn(s.toActivate, s.sessions)
  {
  }

  lemma GoOnKeeps(s: Seat, env: Env, x: SessionId)
    requires x in s.sessions || !At(s, x).handler.ByGreeter?
    ensures Keeps(s, GoOn(s, env, x))
  {
    hide Keeps, RunSession, StartSession, IsAuthenticated;
    RunSessionKeeps(s, env, x);
    if !IsAuthenticated(s, x) {
      StartSessionKeeps(s, env, x);
    }
  }

  // ------------------------------------------------------------------ callbacks of sessions

  /** An authenticated session vouches for another one of its user. */
  lemma UnlockKeeps(s: Seat, y: SessionId, x: SessionId)
    requires IsAuthenticated(s, x) && x != y && At(s, x).life.username == At(s, y).life.username
    ensures Keeps(s, Unlock(s, y)) && Steady(s, Unlock(s, y))
  {
    var t := Unlock(s, y);
    assert forall i :: 0 <= i < |s.log| ==> t.log[i] == s.log[i];
    if Honest(s) {
      var e := Reported(x, At(s, x).life.username, Life.PAM_SUCCESS);
      assert Known(s.log, x, s.all[x].life) && e in s.log;
      forall j | 0 <= j < |t.log| ensures VouchedAt(t.log, j) {
        if j < |s.log| {
          assert VouchedAt(s.log, j);
        } else {
          var i :| 0 <= i < |s.log| && s.log[i] == e;
          assert t.log[i] == e;
        }
      }
      forall z | 0 <= z < |t.all| ensures Known(t.log, z, t.all[z].life) {
        assert Known(s.log, z, s.all[z].life);
      }
    }
    if Waiting(s) {
      forall z | 0 <= z < |t.all| ensures Held(t, z) {
        assert Held(s, z);
      }
    }
  }

  lemma AutoCompleteKeeps(s: Seat, env: Env, x: SessionId)
    ensures Keeps(s, AutoComplete(s, env, x))
  {
    hide Keeps, Steady, SetActive, StopSession, RunSession, FromFailed, FindUser, IsAuthenticated;
    if IsAuthenticated(s, x) {
      var y := FindUser(s, At(s, x).life.username, Some(x));
      FindUserSound(s, At(s, x).life.username, Some(x));
      if y.Some? {
        SetActiveListed(s, y.value);
        StopSessionKeeps(SetActive(s, y.value), x);
        KeepsTwice(s, SetActive(s, y.value), StopSession(SetActive(s, y.value), x));
      } else {
        RunSessionKeeps(s, env, x);
      }
    } else {
      FromFailedKeeps(s, env, x);
      StopSessionKeeps(s, x);
    }
  }

  lemma ToActivateKeeps(s: Seat, x: SessionId)
    requires x in s.sessions
    ensures Keeps(s, s.(toActivate := Some(x)))
  {
    hide Honest, Waiting;
    PointKeeps(s, s.(toActivate := Some(x)));
  }

  lemma GreeterWithServerKeeps(s: Seat, env: Env)
    ensures Keeps(s, GiveServer(CreateGreeter(s, env).(toActivate := Some(|s.all|)), env, |s.all|).seat)
  {
    hide Keeps, CreateGreeter, GiveServer, Steady;
    var t := CreateGreeter(s, env).(toActivate := Some(|s.all|));
    GreeterToActivate(s, env);
    GiveServerKeeps(t, env, |s.all|);
    KeepsTwice(s, t, GiveServer(t, env, |s.all|).seat);
  }

  lemma ResetActiveKeeps(s: Seat, x: SessionId)
    requires x in s.sessions
    ensures Keeps(s, SetActive(Noted(s, Reset(x)), x))
  {
    hide Keeps, Steady, SetActive, Noted;
    var a := Noted(s, Reset(x));
    NotedKeeps(s, Reset(x));
    SteadyAuthenticated(s, a, x);
    SetActiveListed(a, x);
    KeepsTwice(s, a, SetActive(a, x));
  }

  lemma SwitchCompleteKeeps(s: Seat, env: Env, x: SessionId)
    requires x in s.sessions
    ensures Keeps(s, SwitchComplete(s, env, x))
  {
    hide Keeps, Steady, SetActive, StopSession, Unlock, GiveServer, CreateGreeter, FindUser, FindResettable, Noted, IsAuthenticated;
    if IsAuthenticated(s, x) {
      var y := FindUser(s, At(s, x).life.username, Some(x));
      FindUserSound(s, At(s, x).life.username, Some(x));
      if y.Some? {
        var a := Unlock(s, y.value);
        UnlockKeeps(s, y.value, x);
        SteadyAuthenticated(s, a, x);
        SetActiveListed(a, y.value);
        KeepsTwice(s, a, SetActive(a, y.value));
        StopSessionKeeps(SetActive(a, y.value), x);
        KeepsTwice(s, SetActive(a, y.value), StopSession(SetActive(a, y.value), x));
      } else {
        var a := s.(toActivate := Some(x));
        ToActivateKeeps(s, x);
        GiveServerKeeps(a, env, x);
        KeepsTwice(s, a, GiveServer(a, env, x).seat);
      }
    } else {
      var t := StopSession(s, x);
      StopSessionKeeps(s, x);
      FindersListed(t);
      if FindResettable(t).Some? {
        ResetActiveKeeps(t, FindResettable(t).value);
        KeepsTwice(s, t, SwitchComplete(s, env, x));
      } else {
        GreeterWithServerKeeps(t, env);
        KeepsTwice(s, t, SwitchComplete(s, env, x));
      }
    }
  }

  lemma OnCompleteKeeps(s: Seat, env: Env, x: SessionId)
    ensures Keeps(s, OnComplete(s, env, x))
    ensures At(s, x).handler.ByGreeter? ==> OnComplete(s, env, x) == s
  {
    hide Keeps, AutoComplete, SwitchComplete;
    SelfKeeps(s);
    AutoCompleteKeeps(s, env, x);
    if x in s.sessions {
      SwitchCompleteKeeps(s, env, x);
    }
  }

  /** No child of this session waits for a command block. */
  predicate MayLeave(r: Record) {
    r.handler.ByGreeter? ==> r.life.pid <= 0 && !(Life.Authenticated(r.life) && !r.life.commandRun)
  }

  /** Like `Keeps`, the waiting sessions only on a condition. */
  ghost predicate KeepsIf(s: Seat, t: Seat, w: bool) {
    Honest(s) ==>
      && Honest(t)
      && (Listed(s) ==> Listed(t))
      && (w && Waiting(s) ==> Waiting(t))
      && SameKinds(s, t)
  }

  lemma KeepsIfTwice(s: Seat, t: Seat, u: Seat, w: bool)
    requires KeepsIf(s, t, w) && KeepsIf(t, u, w)
    ensures KeepsIf(s, u, w)
  {
    hide Honest, Listed, Waiting;
    if Honest(s) {
      forall i | 0 <= i < |s.all| ensures u.all[i].handler == s.all[i].handler {
        assert t.all[i].handler == s.all[i].handler;
      }
    }
  }

  lemma KeepsIs(s: Seat, t: Seat, w: bool)
    requires Keeps(s, t)
    ensures KeepsIf(s, t, w)
  {
  }

  /** The session leaves the list and nothing points at it any more. */
  lemma RemoveKeeps(s: Seat, x: SessionId)
    ensures KeepsIf(s, RemoveSession(s, x), MayLeave(At(s, x)))
  {
    var t := RemoveSession(s, x);
    if Listed(s) {
      WithoutFacts(s.sessions, x);
    }
    if Waiting(s) && MayLeave(At(s, x)) {
      forall y | 0 <= y < |t.all| ensures Held(t, y) {
        assert Held(s, y) && t.sessions == Without(s.sessions, x) && At(t, y) == At(s, y);
        if y != x && y in s.sessions {
          WithoutOthers<SessionId>(s.sessions, x, y);
        }
      }
    }
  }

  lemma SwitchToGreeterKeeps(s: Seat, env: Env)
    ensures Keeps(s, SwitchToGreeter(s, env).seat)
  {
    hide Honest, Waiting, SetActive, CreateGreeter, GiveServer, FindGreeter, CreateServer;
    SelfKeeps(s);
    FindersListed(s);
    var found := FindGreeter(s);
    if found.Some? {
      SetActiveListed(s, found.value);
    }
    GreeterWithServerKeeps(s, env);
    CreateGreeterKeeps(s, env);
    var t := CreateGreeter(s, env);
    PointKeeps(t, t.(toActivate := None));
    KeepsTwice(s, t, t.(toActivate := None));
  }

  lemma GreeterOrStopKeeps(s: Seat, env: Env)
    ensures Keeps(s, GreeterOrStop(s, env))
  {
    hide Keeps, SwitchToGreeter, StopSeat;
    var t := SwitchToGreeter(s, env).seat;
    SwitchToGreeterKeeps(s, env);
    StopSeatKeeps(t);
    KeepsTwice(s, t, StopSeat(t));
  }

  /** The pending greeter is no longer pending; only the waiting invariant looked at it. */
  lemma NoReplacementKeeps(s: Seat)
    ensures Keeps(s, s.(replacement := None))
  {
    var t := s.(replacement := None);
    if Waiting(s) {
      forall x | 0 <= x < |t.all| ensures Held(t, x) {
        assert Held(s, x);
      }
    }
  }

  lemma AfterStoppedKeeps(s: Seat, env: Env, x: SessionId)
    ensures Keeps(s, AfterStopped(s, env, x))
  {
    hide Keeps, GoOn, StopSeat, GreeterOrStop, CanShare, FindOnServer, Honest;
    SelfKeeps(s);
    StopSeatKeeps(s);
    GreeterOrStopKeeps(s, env);
    FindOnServerListed(s, At(s, x).server);
    var y := FindOnServer(s, At(s, x).server);
    if y.Some? {
      GoOnKeeps(s, env, y.value);
    }
    if s.replacement.Some? {
      ReplacementGoesOn(s, env);
    }
  }

  lemma FindOnServerListed(s: Seat, d: Option<ServerId>)
    ensures NoneOrIn(FindOnServer(s, d), s.sessions)
  {
  }

  lemma ReplacementGoesOn(s: Seat, env: Env)
    requires s.replacement.Some?
    ensures Keeps(s, GoOn(s.(replacement := None), env, s.replacement.value))
  {
    hide GoOn, Vouched, Known, Listed, Waiting, StoppedOnce;
    var x, a := s.replacement.value, s.(replacement := None);
    NoReplacementKeeps(s);
    if Honest(s) {
      GoOnKeeps(a, env, x);
      KeepsTwice(s, a, GoOn(a, env, x));
    }
  }

  lemma SessionStoppedKeeps(s: Seat, env: Env, x: SessionId)
    ensures KeepsIf(s, SessionStopped(s, env, x), MayLeave(At(s, x)))
  {
    hide KeepsIf, Keeps, Steady, RemoveSession, CheckStopped, AfterStopped, Noted, StopServer, IsUsed, MayLeave;
    var w := MayLeave(At(s, x));
    var t := RemoveSession(s, x);
    RemoveKeeps(s, x);
    CheckStoppedKeeps(t);
    KeepsIs(t, CheckStopped(t), w);
    KeepsIfTwice(s, t, CheckStopped(t), w);
    var a := AfterStopped(t, env, x);
    AfterStoppedKeeps(t, env, x);
    var u := Noted(a, Removed(x));
    NotedKeeps(a, Removed(x));
    KeepsTwice(t, a, u);
    StopServerKeeps(u, At(s, x).server);
    KeepsTwice(t, u, StopServer(u, At(s, x).server));
    KeepsIs(t, u, w);
    KeepsIs(t, StopServer(u, At(s, x).server), w);
    KeepsIfTwice(s, t, u, w);
    KeepsIfTwice(s, t, StopServer(u, At(s, x).server), w);
  }

  // ------------------------------------------------------------------ callbacks of display servers

  lemma ServerRemovedKeeps(s: Seat, d: ServerId)
    ensures Keeps(s, RemoveServer(s, d))
  {
    hide Keeps, Distinct;
    if Listed(s) {
      WithoutFacts(s.servers, d);
    }
    ServersKeep(s, RemoveServer(s, d));
  }

  lemma ServerStoppedKeeps(s: Seat, env: Env, d: ServerId)
    ensures Keeps(s, ServerStopped(s, env, d))
  {
    hide Keeps, Calm, Steady, CheckStopped, StopWhere, StopSeat, GreeterOrStop, RemoveServer, LivingOn;
    var t := RemoveServer(s, d);
    ServerRemovedKeeps(s, d);
    CheckStoppedKeeps(t);
    KeepsTwice(s, t, CheckStopped(t));
    var a := StopWhere(t, LivingOn(s, d));
    StopWhereCalm(t, LivingOn(s, d));
    CalmKeeps(t, a);
    KeepsTwice(s, t, a);
    StopSeatKeeps(a);
    KeepsTwice(s, a, StopSeat(a));
    GreeterOrStopKeeps(a, env);
    KeepsTwice(s, a, GreeterOrStop(a, env));
    GreeterOrStopKeeps(StopSeat(a), env);
    KeepsTwice(s, StopSeat(a), GreeterOrStop(StopSeat(a), env));
  }

  lemma ServerReadyKeeps(s: Seat, env: Env, d: ServerId)
    ensures Keeps(s, ServerReady(s, env, d))
  {
    hide Keeps, Steady, StopServer, GoOn, FindWaitingOnServer, Listed;
    var t := if d < |s.allServers| then s.(allServers := s.allServers[d := s.allServers[d].(ready := true)]) else s;
    assert Keeps(s, t) by {
      ListedServers(s);
      ServersKeep(s, t);
    }
    StopServerKeeps(t, Some(d));
    KeepsTwice(s, t, StopServer(t, Some(d)));
    FindWaitingListed(t, d);
    var x := FindWaitingOnServer(t, d);
    if x.Some? {
      GoOnKeeps(t, env, x.value);
      KeepsTwice(s, t, GoOn(t, env, x.value));
    }
  }

  lemma ListedServers(s: Seat)
    ensures Listed(s) ==> Distinct(s.servers) && forall d <- s.servers :: d < |s.allServers|
  {
  }

  lemma FindWaitingListed(s: Seat, d: ServerId)
    ensures NoneOrIn(FindWaitingOnServer(s, d), s.sessions)
  {
  }

  // ------------------------------------------------------------------ callbacks of greeters

  lemma StopHeldKeeps(s: Seat, g: GreeterId)
    ensures Keeps(s, StopHeld(s, g))
  {
    hide Keeps, StopSession;
    SelfKeeps(s);
    if GreeterAt(s, g).daemon.session.Some? {
      StopSessionKeeps(s, GreeterAt(s, g).daemon.session.value);
    }
  }

  lemma NameChangedKeeps(s: Seat, g: GreeterId, username: Option<Text>)
    ensures Keeps(s, NameChanged(s, g, username))
  {
    hide Honest, Waiting, FindUser;
    FindUserSound(s, username, s.active);
    PointKeeps(s, NameChanged(s, g, username));
  }

  lemma CreateForGreeterKeeps(s: Seat, env: Env, g: GreeterId, username: Option<Text>, isGuest: bool)
    ensures Keeps(s, CreateForGreeter(s, env, g, username, isGuest))
  {
    hide Keeps, AddSession, StartLife, GreeterSession;
    var host := GreeterSession(s);
    var server := if GreeterAt(s, g).inSession || host.None? then None else At(s, host.value).server;
    var r := NewRecord(username, isGuest, None, ByGreeter).(server := server);
    var t := AddSession(s, r);
    AddSessionKeeps(s, r);
    StartLifeKeeps(t, env, |s.all|);
    KeepsTwice(s, t, StartLife(t, env, |s.all|));
  }

  /** What starting a session for a greeter does to the list and to the session waited for. */
  ghost predicate Awaits(s: Seat, t: Seat, x: SessionId) {
    t.sessions == s.sessions && t.toActivate == Some(x)
  }

  lemma StartForKeeps(s: Seat, env: Env, g: GreeterId, x: SessionId)
    requires IsAuthenticated(s, x) || At(s, x).life.username.None?
    ensures Keeps(s.(toActivate := Some(x)), StartFor(s, env, g, x).seat) && Awaits(s, StartFor(s, env, g, x).seat, x)
  {
    hide Keeps, Steady, StopSession, Unlock, SetActive, GiveServer, SetServer, FindUser, GreeterSession, CanShare, IsAuthenticated;
    var t := s.(toActivate := Some(x));
    assert IsAuthenticated(t, x) == IsAuthenticated(s, x) by { SameRecords(s, t, x); }
    var existing := FindUser(t, At(t, x).life.username, None);
    FindUserSound(t, At(t, x).life.username, None);
    if existing.Some? && existing.value != x {
      ReturnToKeeps(t, x, existing.value);
    } else {
      var host := GreeterSession(t);
      var d := if host.Some? then At(t, host.value).server else None;
      SetServerKeeps(t, x, d);
      var a := SetServer(t, x, d);
      SteadyAuthenticated(t, a, x);
      if host.Some? {
        StopSessionKeeps(a, host.value);
        SteadyAuthenticated(a, StopSession(a, host.value), x);
        KeepsTwice(t, a, StopSession(a, host.value));
      }
      GiveServerKeeps(t, env, x);
      SteadyAuthenticated(t, GiveServer(t, env, x).seat, x);
    }
  }

  lemma SameRecords(s: Seat, t: Seat, x: SessionId)
    requires t.all == s.all
    ensures IsAuthenticated(t, x) == IsAuthenticated(s, x)
  {
  }

  /** The existing session is unlocked on the word of the one that is given up. */
  lemma ReturnToKeeps(t: Seat, x: SessionId, y: SessionId)
    requires IsAuthenticated(t, x) && x != y && y in t.sessions && At(t, y).life.username == At(t, x).life.username
    ensures var u := SetActive(Unlock(StopSession(t, x), y), y);
            Keeps(t, u) && u.sessions == t.sessions && u.toActivate == t.toActivate
  {
    hide Keeps, Steady, StopSession, Unlock, SetActive, IsAuthenticated;
    var a := StopSession(t, x);
    StopSessionKeeps(t, x);
    SteadyAuthenticated(t, a, x);
    SteadyAuthenticated(t, a, y);
    var b := Unlock(a, y);
    UnlockKeeps(a, y, x);
    SteadyAuthenticated(a, b, x);
    KeepsTwice(t, a, b);
    SetActiveListed(b, y);
    SetActiveKeeps(b, y);
    KeepsTwice(t, b, SetActive(b, y));
  }

  /** The start-session message of a greeter whose authenticated session has left the seat. */
  predicate Loses(s: Seat, env: Env, g: GreeterId) {
    var daemon := GreeterAt(s, g).daemon;
    !daemon.guest && daemon.session.Some? && IsAuthenticated(s, daemon.session.value) && env.sessionConfigured
    && daemon.session.value !in s.sessions
  }

  lemma ToActivateAnything(s: Seat, x: SessionId)
    ensures var t := s.(toActivate := Some(x));
            && (Honest(s) ==> Honest(t)) && (Waiting(s) ==> Waiting(t)) && SameKinds(s, t)
            && (Listed(s) ==> (Listed(t) <==> x in s.sessions))
  {
    hide Honest, Waiting;
    PointKeeps(s, s.(toActivate := Some(x)));
  }

  lemma GuestStartKeeps(s: Seat, env: Env, g: GreeterId)
    ensures Keeps(s, StartFor(AddSession(s, NewRecord(None, true, env.argv, Auto)), env, g, |s.all|).seat)
  {
    hide Keeps, AddSession, StartFor, Awaits;
    var r := NewRecord(None, true, env.argv, Auto);
    var a := AddSession(s, r);
    AddSessionKeeps(s, r);
    ToActivateKeeps(a, |s.all|);
    StartForKeeps(a, env, g, |s.all|);
    KeepsTwice(s, a, a.(toActivate := Some(|s.all|)));
    KeepsTwice(s, a.(toActivate := Some(|s.all|)), StartFor(a, env, g, |s.all|).seat);
  }

  /** What the session that a greeter gave up leaves, whether it is listed or not. */
  lemma TakenStartKeeps(s: Seat, env: Env, g: GreeterId, x: SessionId)
    requires IsAuthenticated(s, x)
    ensures var t := StartFor(Put(s, x, At(s, x).(life := At(s, x).life.(argv := env.argv))), env, g, x).seat;
            && Awaits(s, t, x)
            && (Honest(s) ==> Honest(t) && (Waiting(s) ==> Waiting(t)) && SameKinds(s, t))
            && (Honest(s) && Listed(s) && x in s.sessions ==> Listed(t))
  {
    hide Honest, Listed, Waiting, SameKinds, StartFor, Put, Calm, Steady;
    var q := At(s, x).(life := At(s, x).life.(argv := env.argv));
    var a := Put(s, x, q);
    PutCalm(s, x, q);
    CalmKeeps(s, a);
    CalmFacts(s, a);
    SteadyAuthenticated(s, a, x);
    var b := a.(toActivate := Some(x));
    ToActivateAnything(a, x);
    StartForKeeps(a, env, g, x);
    var t := StartFor(a, env, g, x).seat;
    if Honest(s) {
      SameKindsTwice(s, a, b);
      SameKindsTwice(s, b, t);
    }
  }

  lemma SameKindsTwice(s: Seat, t: Seat, u: Seat)
    requires SameKinds(s, t) && SameKinds(t, u)
    ensures SameKinds(s, u)
  {
    forall i | 0 <= i < |s.all| ensures u.all[i].handler == s.all[i].handler {
      assert t.all[i].handler == s.all[i].handler;
    }
  }

  lemma StartRequestedKeeps(s: Seat, env: Env, g: GreeterId)
    requires GreeterDaemon.MayStart(GreeterAt(s, g).daemon, World(s, env, g, None))
    ensures var t := StartRequested(s, env, g).seat;
            && (Honest(s) ==> Honest(t) && (Waiting(s) ==> Waiting(t)) && SameKinds(s, t))
            && (Honest(s) && Listed(s) ==> (Listed(t) <==> !Loses(s, env, g)))
  {
    hide Honest, Waiting, SameKinds, StartFor, AddSession, Put;
    var daemon := GreeterAt(s, g).daemon;
    SelfKeeps(s);
    if daemon.guest {
      GuestStartKeeps(s, env, g);
    } else if env.sessionConfigured {
      TakenStartKeeps(s, env, g, daemon.session.value);
    }
  }

  /** The session that a greeter authenticates after a message. */
  lemma HandledSession(daemon: GreeterDaemon.State, r: LoginMessages.Request, w: GreeterDaemon.World)
    ensures var held := GreeterDaemon.Handle(daemon, r, w).state.session;
            || held.None? || held == daemon.session
            || (held == w.created && (r.Authenticate? || (r.AuthenticateRemote? && w.service)))
    ensures r.Authenticate? || r.AuthenticateRemote? ==>
              var held := GreeterDaemon.Handle(daemon, r, w).state.session;
              held.None? || (held == w.created && (r.AuthenticateRemote? ==> w.service))
  {
  }

  lemma OwnedLater(s: Seat, t: Seat, g: GreeterId)
    requires Keeps(s, t)
    ensures Honest(s) ==> Owned(t.all, GreeterAt(s, g).daemon.session)
  {
    hide Vouched, StoppedOnce, Known, Listed, Waiting;
  }

  lemma CreatedForGreeter(s: Seat, env: Env, g: GreeterId, username: Option<Text>, isGuest: bool)
    ensures Owned(CreateForGreeter(s, env, g, username, isGuest).all, Some(|s.all|))
  {
    hide GreeterSession;
  }

  lemma StopHeldLength(s: Seat, g: GreeterId)
    ensures |StopHeld(s, g).all| == |s.all|
  {
  }

  lemma MessageKeeps(s: Seat, env: Env, g: GreeterId, r: LoginMessages.Request)
    requires !r.StartSession?
    ensures Keeps(s, GreeterMessage(s, env, g, r))
  {
    hide Keeps, Honest, Steady, StopHeld, NameChanged, SetDaemon, CreateForGreeter, GreeterDaemon.Handle, Owned;
    var w := World(s, env, g, Some(|s.all|));
    var handled := GreeterDaemon.Handle(GreeterAt(s, g).daemon, r, w).state;
    HandledSession(GreeterAt(s, g).daemon, r, w);
    NoneOwned();
    var a := StopHeld(s, g);
    StopHeldKeeps(s, g);
    StopHeldLength(s, g);
    SelfKeeps(s);
    match r {
      case Authenticate(_, username) =>
        var name := GreeterDaemon.NullIfEmpty(username);
        var c := NameChanged(a, g, name);
        NameChangedKeeps(a, g, name);
        KeepsTwice(s, a, c);
        assert c.all == a.all by { NameChangedAll(a, g, name); }
        CreatedForGreeterKeeps(s, c, env, g, name, false, handled);
      case AuthenticateRemote(_, _, username) =>
        var name := GreeterDaemon.NullIfEmpty(username);
        if env.serviceKnown {
          CreatedForGreeterKeeps(s, a, env, g, name, true, handled);
        } else {
          SetDaemonKeeps(a, g, handled);
          KeepsTwice(s, a, SetDaemon(a, g, handled));
        }
      case _ =>
        OwnedLater(s, s, g);
        OwnedLater(s, a, g);
        HonestLater(s, a);
        SetDaemonKeeps(s, g, handled);
        if Honest(s) {
          SetDaemonKeeps(a, g, handled);
          KeepsTwice(s, a, SetDaemon(a, g, handled));
        } else {
          VacuousKeeps(s, SetDaemon(a, g, handled));
        }
    }
  }

  lemma VacuousKeeps(s: Seat, t: Seat)
    requires !Honest(s)
    ensures Keeps(s, t)
  {
    hide Honest;
  }

  lemma NoneOwned()
    ensures forall all :: Owned(all, None)
  {
  }

  lemma HonestLater(s: Seat, t: Seat)
    requires Keeps(s, t)
    ensures Honest(s) ==> Honest(t)
  {
    hide Honest;
  }

  lemma NameChangedAll(s: Seat, g: GreeterId, username: Option<Text>)
    ensures NameChanged(s, g, username).all == s.all
  {
  }

  lemma CreatedForGreeterKeeps(s: Seat, c: Seat, env: Env, g: GreeterId, name: Option<Text>, isGuest: bool, handled: GreeterDaemon.State)
    requires Keeps(s, c) && |c.all| == |s.all| && (handled.session.None? || handled.session == Some(|s.all|))
    ensures Keeps(s, SetDaemon(CreateForGreeter(c, env, g, name, isGuest), g, handled))
  {
    hide Keeps, Honest, Steady, SetDaemon, CreateForGreeter, Owned;
    var d := CreateForGreeter(c, env, g, name, isGuest);
    CreateForGreeterKeeps(c, env, g, name, isGuest);
    KeepsTwice(s, c, d);
    NoneOwned();
    CreatedForGreeter(c, env, g, name, isGuest);
    SetDaemonKeeps(d, g, handled);
    KeepsTwice(s, d, SetDaemon(d, g, handled));
  }

  /** The start-session message keeps the lists exactly when the session it starts has not left the seat. */
  lemma StartMessageKeeps(s: Seat, env: Env, g: GreeterId, name: Option<Text>)
    ensures var t := GreeterMessage(s, env, g, LoginMessages.StartSession(name));
            && (Honest(s) ==> Honest(t) && (Waiting(s) ==> Waiting(t)) && SameKinds(s, t))
            && (Honest(s) && Listed(s) ==> (Listed(t) <==> !Loses(s, env, g)))
  {
    hide Honest, Waiting, SameKinds, StartRequested, SetDaemon, GreeterDaemon.Handle, Steady;
    SelfKeeps(s);
    if GreeterDaemon.MayStart(GreeterAt(s, g).daemon, World(s, env, g, None)) {
      StartRequestedKeeps(s, env, g);
      var t := StartRequested(s, env, g).seat;
      var handled := GreeterDaemon.Handle(GreeterAt(s, g).daemon, LoginMessages.StartSession(name), World(s, env, g, Some(|s.all|))).state;
      SetDaemonListed(t, g, handled);
      if Honest(s) {
        HandledSession(GreeterAt(s, g).daemon, LoginMessages.StartSession(name), World(s, env, g, Some(|s.all|)));
        StillOwned(s, t, g);
        SetDaemonKeeps(t, g, handled);
        SameKindsTwice(s, t, SetDaemon(t, g, handled));
      }
    }
  }

  lemma StillOwned(s: Seat, t: Seat, g: GreeterId)
    requires Honest(s) && SameKinds(s, t)
    ensures Owned(t.all, GreeterAt(s, g).daemon.session)
  {
    hide Vouched, StoppedOnce, Known;
  }

  lemma SetDaemonListed(s: Seat, g: GreeterId, daemon: GreeterDaemon.State)
    ensures Listed(SetDaemon(s, g, daemon)) == Listed(s)
  {
  }

  // ------------------------------------------------------------------ requests

  lemma SwitchToUserKeeps(s: Seat, env: Env, username: Text)
    ensures Keeps(s, SwitchToUser(s, env, username).seat)
  {
    hide Keeps, AddSession, StartLife, ChildStarts, FindUser;
    SelfKeeps(s);
    var r := NewRecord(Some(username), false, env.argv, Switch);
    var t := AddSession(s, r);
    AddSessionKeeps(s, r);
    StartLifeKeeps(t, env, |s.all|);
    KeepsTwice(s, t, StartLife(t, env, |s.all|));
  }

  /** A session joins the list, is waited for and is given a display server. */
  lemma AddedWithServerKeeps(s: Seat, env: Env, r: Record)
    requires !r.life.authComplete && r.life.pid == 0
    ensures Keeps(s, GiveServer(AddSession(s, r).(toActivate := Some(|s.all|)), env, |s.all|).seat)
  {
    hide Keeps, Steady, AddSession, GiveServer;
    var a := AddSession(s, r);
    AddSessionKeeps(s, r);
    var b := a.(toActivate := Some(|s.all|));
    ToActivateKeeps(a, |s.all|);
    KeepsTwice(s, a, b);
    GiveServerKeeps(b, env, |s.all|);
    KeepsTwice(s, b, GiveServer(b, env, |s.all|).seat);
  }

  lemma SwitchToGuestKeeps(s: Seat, env: Env)
    ensures Keeps(s, SwitchToGuest(s, env).seat)
  {
    hide Keeps, AddSession, GiveServer, SetActive, FindGuest;
    SelfKeeps(s);
    FindersListed(s);
    if FindGuest(s).Some? {
      SetActiveListed(s, FindGuest(s).value);
    }
    AddedWithServerKeeps(s, env, NewRecord(None, true, env.argv, Auto));
  }

  lemma ReplacementKeeps(s: Seat, g: SessionId)
    requires g < |s.all| && !At(s, g).handler.ByGreeter?
    ensures Keeps(s, s.(replacement := Some(g)))
  {
    var t := s.(replacement := Some(g));
    if Waiting(s) {
      forall x | 0 <= x < |t.all| ensures Held(t, x) {
        assert Held(s, x);
      }
    }
  }

  lemma LockKeeps(s: Seat, env: Env)
    ensures Keeps(s, Lock(s, env).seat)
  {
    hide Keeps, Steady, SetActive, Noted, StopSession, CreateGreeter, SetServer, GiveServer, FindResettable, FindGreeter;
    SelfKeeps(s);
    FindersListed(s);
    if FindResettable(s).Some? {
      ResetActiveKeeps(s, FindResettable(s).value);
    } else {
      var before := FindGreeter(s);
      var t := if before.Some? then StopSession(s, before.value) else s;
      assert Keeps(s, t) && |t.all| == |s.all| by {
        if before.Some? {
          StopSessionKeeps(s, before.value);
          SteadyFacts(s, t);
        }
      }
      var g := |s.all|;
      GreeterWithServerKeeps(t, env);
      KeepsTwice(s, t, GiveServer(CreateGreeter(t, env).(toActivate := Some(g)), env, g).seat);
      if before.Some? {
        ReplaceKeeps(t, env, At(s, before.value).server);
        KeepsTwice(s, t, SetServer(CreateGreeter(t, env).(toActivate := Some(g)), g, At(s, before.value).server).(replacement := Some(g)));
      }
    }
  }

  lemma ReplaceKeeps(s: Seat, env: Env, d: Option<ServerId>)
    ensures Keeps(s, SetServer(CreateGreeter(s, env).(toActivate := Some(|s.all|)), |s.all|, d).(replacement := Some(|s.all|)))
  {
    hide Keeps, Steady, CreateGreeter, SetServer;
    var g := |s.all|;
    var u := CreateGreeter(s, env).(toActivate := Some(g));
    GreeterToActivate(s, env);
    var v := SetServer(u, g, d);
    SetServerKeeps(u, g, d);
    SteadyFacts(u, v);
    KeepsTwice(s, u, v);
    ReplacementKeeps(v, g);
    KeepsTwice(s, v, v.(replacement := Some(g)));
  }

  lemma ShowFirstKeeps(s: Seat, env: Env, x: SessionId)
    requires x in s.sessions
    ensures Keeps(s, ShowFirst(s, env, x).seat)
  {
    hide Keeps, Steady, GiveServer, StopSession, StopServer;
    var a := s.(toActivate := Some(x));
    ToActivateKeeps(s, x);
    var b := GiveServer(a, env, x).seat;
    GiveServerKeeps(a, env, x);
    KeepsTwice(s, a, b);
    var c := StopSession(b, x);
    StopSessionKeeps(b, x);
    KeepsTwice(s, b, c);
    StopServerKeeps(c, At(b, x).server);
    KeepsTwice(s, c, StopServer(c, At(b, x).server));
  }

  lemma StartedKeeps(s: Seat)
    ensures Keeps(s, s.(started := true))
  {
    var t := s.(started := true);
    if Waiting(s) {
      forall x | 0 <= x < |t.all| ensures Held(t, x) {
        assert Held(s, x);
      }
    }
  }

  lemma StartSeatKeeps(s: Seat, env: Env, login: Autologin, inBackground: bool)
    ensures Keeps(s, StartSeat(s, env, login, inBackground))
  {
    hide Keeps, Steady, AddSession, ShowFirst, CreateGreeter, GiveServer, StopSeat;
    var x := |s.all|;
    var made := env.sessionConfigured && (login.Guest? || (login.User? && env.userKnown));
    var r := if login.Guest? then NewRecord(None, true, env.argv, Auto)
             else NewRecord(if login.User? then Some(login.name) else None, false, env.argv, Auto);
    var t := if !made then s else AddSession(s, r);
    SelfKeeps(s);
    AddSessionKeeps(s, r);
    if made && !inBackground {
      ShowFirstKeeps(t, env, x);
      KeepsTwice(s, t, ShowFirst(t, env, x).seat);
    }
    var first := if made && !inBackground then ShowFirst(t, env, x) else Outcome(t, false);
    StartedKeeps(first.seat);
    KeepsTwice(s, first.seat, first.seat.(started := true));
    GreeterShownKeeps(first.seat, env);
    var g := |first.seat.all|;
    var second := ShowFirst(CreateGreeter(first.seat, env), env, g);
    KeepsTwice(s, first.seat, second.seat);
    StopSeatKeeps(second.seat);
    KeepsTwice(s, second.seat, StopSeat(second.seat));
    var u := if made && inBackground then GiveServer(second.seat, env, x).seat else second.seat;
    if made && inBackground {
      GiveServerKeeps(second.seat, env, x);
      KeepsTwice(s, second.seat, u);
    }
    StartedKeeps(u);
    KeepsTwice(s, u, u.(started := true));
  }

  lemma GreeterShownKeeps(s: Seat, env: Env)
    ensures Keeps(s, ShowFirst(CreateGreeter(s, env), env, |s.all|).seat)
  {
    hide Keeps, CreateGreeter, ShowFirst;
    CreateGreeterKeeps(s, env);
    ShowFirstKeeps(CreateGreeter(s, env), env, |s.all|);
    KeepsTwice(s, CreateGreeter(s, env), ShowFirst(CreateGreeter(s, env), env, |s.all|).seat);
  }

  // ------------------------------------------------------------------ children

  /** A child that has authenticated waits for its command block: it neither exits before nor speaks after it is gone. */
  predicate Patient(s: Seat, e: Event) {
    match e
    case ChildReports(x, r) => r.Done? && r.result == Life.PAM_SUCCESS ==> At(s, x).life.pid > 0
    case ChildExits(x) => !(IsAuthenticated(s, x) && !At(s, x).life.commandRun)
    case StopDelivered(x) => !(IsAuthenticated(s, x) && !At(s, x).life.commandRun)
    case _ => true
  }

  lemma ReportKeeps(s: Seat, x: SessionId, r: ChildPipe.Report)
    requires At(s, x).life.listening && r.Done?
    ensures var t := Noted(Put(s, x, At(s, x).(life := Life.OnReport(At(s, x).life, r))), Reported(x, r.username, r.result));
            KeepsIf(s, t, r.result == Life.PAM_SUCCESS ==> At(s, x).life.pid > 0)
  {
    var life := At(s, x).life;
    var t := Noted(Put(s, x, At(s, x).(life := Life.OnReport(life, r))), Reported(x, r.username, r.result));
    LogGrows(s.log, t.log);
    if Honest(s) {
      ReportStoppedOnce(s, t, Reported(x, r.username, r.result));
      assert Reported(x, r.username, r.result) == t.log[|s.log|];
      forall y | 0 <= y < |t.all| ensures Known(t.log, y, t.all[y].life) {
        assert Known(s.log, y, s.all[y].life);
      }
    }
    if Waiting(s) && (r.result == Life.PAM_SUCCESS ==> life.pid > 0) {
      forall y | 0 <= y < |t.all| ensures Held(t, y) {
        assert Held(s, y);
      }
    }
  }

  lemma ReportStoppedOnce(s: Seat, t: Seat, e: Entry)
    requires StoppedOnce(s) && t.log == s.log + [e] && !e.SeatStopped? && t.stopped == s.stopped && t.stopping == s.stopping
    ensures StoppedOnce(t)
  {
  }

  lemma OnChildReportKeeps(s: Seat, env: Env, x: SessionId, r: ChildPipe.Report)
    ensures KeepsIf(s, OnChildReport(s, env, x, r), Patient(s, ChildReports(x, r)))
  {
    hide Keeps, KeepsIf, OnComplete, Put, Noted;
    var w := Patient(s, ChildReports(x, r));
    SelfKeeps(s);
    KeepsIs(s, s, w);
    if At(s, x).life.listening {
      var t := Put(s, x, At(s, x).(life := Life.OnReport(At(s, x).life, r)));
      if r.Done? {
        ReportKeeps(s, x, r);
        var u := Noted(t, Reported(x, r.username, r.result));
        OnCompleteKeeps(u, env, x);
        KeepsIs(u, OnComplete(u, env, x), w);
        KeepsIfTwice(s, u, OnComplete(u, env, x), w);
      } else {
        AskingKeeps(s, x, r);
        KeepsIs(s, t, w);
      }
    }
  }

  lemma AskingKeeps(s: Seat, x: SessionId, r: ChildPipe.Report)
    requires At(s, x).life.listening && !r.Done?
    ensures Keeps(s, Put(s, x, At(s, x).(life := Life.OnReport(At(s, x).life, r))))
  {
    hide Keeps;
    PutUnauthenticated(s, x, At(s, x).(life := Life.OnReport(At(s, x).life, r)));
  }

  /** A listening session, which is not authenticated, changes without becoming so. */
  lemma PutUnauthenticated(s: Seat, x: SessionId, r: Record)
    requires At(s, x).life.listening && r.handler == At(s, x).handler
    requires r.life.authComplete == At(s, x).life.authComplete && r.life.result == At(s, x).life.result
    requires r.life.pid == At(s, x).life.pid && r.life.commandRun == At(s, x).life.commandRun
    ensures Keeps(s, Put(s, x, r))
  {
    if Honest(s) && x < |s.all| {
      assert Known(s.log, x, s.all[x].life);
      if Waiting(s) {
        assert Held(s, x);
      }
      PutKeeps(s, x, r);
    }
  }

  lemma SilentChildKeeps(s: Seat, x: SessionId, e: Life.Event)
    requires e.HangsUp? || e.BreaksOff?
    ensures Keeps(s, Put(s, x, At(s, x).(life := Life.Step(At(s, x).life, e))))
  {
    var r := At(s, x).(life := Life.Step(At(s, x).life, e));
    if At(s, x).life.listening {
      PutUnauthenticated(s, x, r);
    } else {
      PutCalm(s, x, r);
      CalmKeeps(s, Put(s, x, r));
    }
  }

  lemma ExitedKeeps(s: Seat, x: SessionId)
    requires At(s, x).life.pid > 0
    ensures var t := Put(s, x, At(s, x).(life := Life.OnExit(At(s, x).life)));
            && Keeps(s, t) && At(t, x).handler == At(s, x).handler && t.sessions == s.sessions
            && (Patient(s, ChildExits(x)) ==> MayLeave(At(t, x)))
  {
    hide Honest, Waiting, Keeps;
    var r := At(s, x).(life := Life.OnExit(At(s, x).life));
    if Honest(s) {
      KnownAt(s, x);
    }
    if Waiting(s) {
      HeldAt(s, x);
    }
    PutKeeps(s, x, r);
  }

  lemma KnownAt(s: Seat, x: SessionId)
    requires Honest(s)
    ensures x < |s.all| ==> Known(s.log, x, s.all[x].life)
  {
  }

  lemma HeldAt(s: Seat, x: SessionId)
    requires Waiting(s)
    ensures x < |s.all| ==> Held(s, x)
  {
  }

  lemma OnChildExitKeeps(s: Seat, env: Env, x: SessionId)
    ensures KeepsIf(s, OnChildExit(s, env, x), Patient(s, ChildExits(x)))
  {
    hide Honest, Listed, Waiting, OnComplete, SessionStopped, Put;
    var w := Patient(s, ChildExits(x));
    SelfKeeps(s);
    if At(s, x).life.pid > 0 {
      var t := Put(s, x, At(s, x).(life := Life.OnExit(At(s, x).life)));
      ExitedKeeps(s, x);
      OnCompleteKeeps(t, env, x);
      var u := if MidAuth(At(s, x).life) then OnComplete(t, env, x) else t;
      assert Keeps(t, u) by { SelfKeeps(t); }
      KeepsTwice(s, t, u);
      KeepsIs(s, u, w);
      if x in u.sessions {
        SessionStoppedKeeps(u, env, x);
        if Honest(s) && w {
          assert MayLeave(At(u, x)) by {
            if !At(s, x).handler.ByGreeter? {
              assert s.all[x].handler == u.all[x].handler;
            }
          }
        }
        KeepsWeaker(u, SessionStopped(u, env, x), MayLeave(At(u, x)), w, Honest(s));
        if Honest(s) {
          KeepsIfTwice(s, u, SessionStopped(u, env, x), w);
        }
      }
    }
  }

  lemma KeepsWeaker(s: Seat, t: Seat, a: bool, b: bool, c: bool)
    requires KeepsIf(s, t, a) && (c && b ==> a)
    ensures c ==> KeepsIf(s, t, b)
  {
    hide Honest, Listed, Waiting;
  }

  // ------------------------------------------------------------------ every step, every run

  /** The one step that may point at a session off the list. */
  predicate LosesStart(s: Seat, env: Env, e: Event) {
    e.Message? && e.request.StartSession? && e.greeter < |s.greeters| && Loses(s, env, e.greeter)
  }

  lemma RequestKeeps(s: Seat, env: Env, e: Event)
    requires e.StartsSeat? || e.StopsSeat? || e.SwitchesToGreeter? || e.SwitchesToUser? || e.SwitchesToGuest? || e.Locks?
             || e.ActivatedOutside? || e.OpensGreeter?
    ensures Keeps(s, Next(s, env, e))
  {
    hide Keeps, Steady, StartSeat, StopSeat, SwitchToGreeter, SwitchToUser, SwitchToGuest, Lock;
    SelfKeeps(s);
    match e {
      case StartsSeat(login, inBackground) => StartSeatKeeps(s, env, login, inBackground);
      case StopsSeat => StopSeatKeeps(s);
      case SwitchesToGreeter => SwitchToGreeterKeeps(s, env);
      case SwitchesToUser(name) => SwitchToUserKeeps(s, env, name);
      case SwitchesToGuest => SwitchToGuestKeeps(s, env);
      case Locks => LockKeeps(s, env);
      case ActivatedOutside(x) =>
        if x in s.sessions {
          ActivatedKeeps(s, x);
        }
      case OpensGreeter => NewGreeterKeeps(s, true);
    }
  }

  lemma ActivatedKeeps(s: Seat, x: SessionId)
    requires x in s.sessions
    ensures Keeps(s, s.(active := Some(x)))
  {
    hide Honest, Waiting;
    PointKeeps(s, s.(active := Some(x)));
  }

  lemma SignalKeeps(s: Seat, env: Env, e: Event)
    requires e.ChildReports? || e.ChildBreaksOff? || e.ChildHangsUp? || e.ChildExits? || e.StopDelivered? || e.ServerLaunches? || e.ServerGetsReady? || e.ServerStops?
    ensures KeepsIf(s, Next(s, env, e), Patient(s, e))
  {
    hide Keeps, KeepsIf, OnChildReport, OnChildExit, SessionStopped, ServerReady, ServerStopped, Put;
    var w := Patient(s, e);
    SelfKeeps(s);
    KeepsIs(s, s, w);
    match e {
      case ChildReports(x, r) => OnChildReportKeeps(s, env, x, r);
      case ChildBreaksOff(x, u) =>
        SilentChildKeeps(s, x, Life.BreaksOff(u));
        KeepsIs(s, Next(s, env, e), w);
      case ChildHangsUp(x) =>
        SilentChildKeeps(s, x, Life.HangsUp);
        KeepsIs(s, Next(s, env, e), w);
      case ChildExits(x) => OnChildExitKeeps(s, env, x);
      case StopDelivered(x) =>
        SessionStoppedKeeps(s, env, x);
        if HasStopped(s, x) {
          KeepsWeaker(s, SessionStopped(s, env, x), MayLeave(At(s, x)), w, true);
        }
      case ServerLaunches(d) =>
        LaunchCalm(s, d);
        CalmKeeps(s, Launch(s, d));
        KeepsIs(s, Launch(s, d), w);
      case ServerGetsReady(d) =>
        ServerReadyKeeps(s, env, d);
        KeepsIs(s, ServerReady(s, env, d), w);
      case ServerStops(d) =>
        ServerStoppedKeeps(s, env, d);
        KeepsIs(s, ServerStopped(s, env, d), w);
    }
  }

  /**
    Every step keeps what was vouched for; every step keeps the seat's pointers on its list
    except a start-session message for a session that has left the seat.
   */
  lemma NextKeeps(s: Seat, env: Env, e: Event)
    requires Honest(s)
    ensures Honest(Next(s, env, e))
    ensures Listed(s) ==> (Listed(Next(s, env, e)) <==> !LosesStart(s, env, e))
    ensures Waiting(s) && Patient(s, e) ==> Waiting(Next(s, env, e))
  {
    hide Honest, Listed, Waiting, SameKinds, GreeterMessage, Next, Loses;
    if e.Message? {
      NextMessage(s, env, e.greeter, e.request);
    } else if e.ChildReports? || e.ChildBreaksOff? || e.ChildHangsUp? || e.ChildExits? || e.StopDelivered? || e.ServerLaunches? || e.ServerGetsReady? || e.ServerStops? {
      SignalKeeps(s, env, e);
    } else {
      RequestKeeps(s, env, e);
    }
  }

  lemma NextMessage(s: Seat, env: Env, g: GreeterId, r: LoginMessages.Request)
    requires Honest(s)
    ensures var t := Next(s, env, Message(g, r));
            && Honest(t) && (Waiting(s) ==> Waiting(t))
            && (Listed(s) ==> (Listed(t) <==> !LosesStart(s, env, Message(g, r))))
  {
    hide Honest, Listed, Waiting, SameKinds, GreeterMessage, Loses;
    if g < |s.greeters| {
      if r.StartSession? {
        StartMessageKeeps(s, env, g, r.session);
      } else {
        MessageKeeps(s, env, g, r);
      }
    }
  }

  lemma InitialHonest(config: Config)
    ensures Honest(Initial(config)) && Listed(Initial(config)) && Waiting(Initial(config))
  {
  }

  lemma {:induction false} RunHonest(s: Seat, hs: seq<Happening>)
    requires Honest(s)
    ensures Honest(Run(s, hs))
    decreases |hs|
  {
    hide Honest, Next;
    if hs != [] {
      NextKeeps(s, hs[0].env, hs[0].event);
      RunHonest(Next(s, hs[0].env, hs[0].event), hs[1..]);
    }
  }

  /**
    In every run of greeter messages, switches, locks, exits and PAM results, a session is
    unlocked only after another session of the seat with the same username was reported
    PAM_SUCCESS by its own child.
   */
  lemma UnlockedOnlyIfVouched(config: Config, hs: seq<Happening>)
    ensures var log := Run(Initial(config), hs).log;
            forall j :: 0 <= j < |log| && log[j].Unlocked? ==>
              exists i :: 0 <= i < j && log[i].Reported? && log[i].result == Life.PAM_SUCCESS
                          && log[i].username == log[j].username && log[i].session != log[j].target
  {
    InitialHonest(config);
    RunHonest(Initial(config), hs);
    hide Run;
    var log := Run(Initial(config), hs).log;
    forall j | 0 <= j < |log| && log[j].Unlocked?
      ensures exists i :: 0 <= i < j && log[i].Reported? && log[i].result == Life.PAM_SUCCESS
                          && log[i].username == log[j].username && log[i].session != log[j].target
    {
      assert VouchedAt(log, j);
    }
  }

  /** In every run the seat emits STOPPED at most once, and only with both its lists empty. */
  lemma StoppedAtMostOnce(config: Config, hs: seq<Happening>)
    ensures var log := Run(Initial(config), hs).log;
            && (forall i, j :: 0 <= i < |log| && 0 <= j < |log| && log[i].SeatStopped? && log[j].SeatStopped? ==> i == j)
            && (forall i :: 0 <= i < |log| && log[i].SeatStopped? ==> log[i] == SeatStopped(0, 0))
  {
    InitialHonest(config);
    RunHonest(Initial(config), hs);
  }

  /** No start-session message of the run is for a session that was given its command block before. */
  ghost predicate StartsInTime(s: Seat, hs: seq<Happening>)
    decreases |hs|
  {
    hs == [] ||
    (var e := hs[0].event;
     && Patient(s, e)
     && (e.Message? && e.request.StartSession? ==>
           var held := GreeterAt(s, e.greeter).daemon.session; held.Some? ==> !At(s, held.value).life.commandRun)
     && StartsInTime(Next(s, hs[0].env, e), hs[1..]))
  }

  lemma InTimeIsListed(s: Seat, env: Env, e: Event)
    requires Honest(s) && Waiting(s)
    requires e.Message? && e.request.StartSession? ==>
               var held := GreeterAt(s, e.greeter).daemon.session; held.Some? ==> !At(s, held.value).life.commandRun
    ensures !LosesStart(s, env, e)
  {
    hide Vouched, StoppedOnce, Known;
    if e.Message? && e.greeter < |s.greeters| {
      var held := s.greeters[e.greeter].daemon.session;
      if held.Some? {
        assert Owned(s.all, held) && Held(s, held.value);
      }
    }
  }

  /**
    While authenticated children wait for their command block and no start-session message comes
    after its session was given one, the active, next and awaited session are always on the
    seat's list, and neither list has a duplicate.
   */
  lemma {:induction false} RunListed(s: Seat, hs: seq<Happening>)
    requires Honest(s) && Listed(s) && Waiting(s) && StartsInTime(s, hs)
    ensures Honest(Run(s, hs)) && Listed(Run(s, hs)) && Waiting(Run(s, hs))
    decreases |hs|
  {
    hide Honest, Listed, Waiting, Next, Patient, LosesStart;
    if hs != [] {
      var env, e := hs[0].env, hs[0].event;
      InTimeIsListed(s, env, e);
      NextKeeps(s, env, e);
      RunListed(Next(s, env, e), hs[1..]);
    }
  }

  // ------------------------------------------------------------------ a start that comes too late

  /** A machine on which every start succeeds and one display server is made, for the first session. */
  function Plain(greeterUser: Text): Env {
    Env(map[], {0}, {0}, {}, false, map[0 := Fresh(false, None)], true, true, true, true, false, None, {}, Some(greeterUser), Some([]))
  }

  function Success(username: Text): ChildPipe.Report {
    ChildPipe.Done(Some(username), Life.PAM_SUCCESS, None)
  }

  /** The seat is started, its display server gets ready, the greeter runs and connects. */
  function GreeterShown(greeterUser: Text): seq<Happening> {
    var env := Plain(greeterUser);
    [Happening(env, StartsSeat(NoAutologin, false)), Happening(env, ServerGetsReady(0)),
     Happening(env, ChildReports(0, Success(greeterUser))), Happening(env, Message(0, LoginMessages.Connect(None, false, 1)))]
  }

  /** A running greeter in front of an otherwise empty seat. */
  predicate AtGreeter(s: Seat, greeterUser: Text) {
    && s.sessions == [0] && s.servers == [0] && s.started && !s.stopping && !s.stopped
    && s.active == Some(0) && s.next == None && s.toActivate == None
    && |s.allServers| == 1 && s.allServers[0].ready && s.allServers[0].launched && !s.allServers[0].canShare
    && OneGreeter(s) && GreeterRecord(s, greeterUser)
    && s.all[0].life.pid == 1 && Life.Authenticated(s.all[0].life) && s.all[0].life.commandRun
  }

  predicate OneGreeter(s: Seat) {
    && |s.greeters| == 1 && s.greeters[0].daemon.session == None && !s.greeters[0].daemon.guest && !s.greeters[0].inSession
    && !s.greeters[0].daemon.resettable
  }

  predicate GreeterRecord(s: Seat, greeterUser: Text) {
    && |s.all| == 1
    && var r := s.all[0];
       r.isGreeter && r.greeter == 0 && r.handler.Auto? && r.server == Some(0) && r.life.username == Some(greeterUser)
       && !r.life.stopping && r.life.argv == Some([])
  }

  /** The greeter waits for its display server, or for its own authentication. */
  predicate GreeterWaits(s: Seat, greeterUser: Text, ready: bool) {
    && s.sessions == [0] && s.servers == [0] && s.started && !s.stopping && !s.stopped
    && s.active == None && s.next == None && s.toActivate == Some(0)
    && s.allServers == [Server(ready, false, false, None, true)]
    && OneGreeter(s) && GreeterRecord(s, greeterUser)
    && !Life.Authenticated(s.all[0].life) && !s.all[0].life.commandRun && !s.all[0].life.isGuest
    && (if ready then s.all[0].life.pid == 1 && s.all[0].life.listening else s.all[0].life.pid == 0)
  }

  lemma SeatStarts(config: Config, who: Text)
    ensures var t := Next(Initial(config), Plain(who), StartsSeat(NoAutologin, false)); GreeterWaits(t, who, false) && t.config == config
  {
    var s, env := Initial(config), Plain(who);
    var t := CreateGreeter(s, env);
    assert t.all == [t.all[0]] && t.sessions == [0] && OneGreeter(t);
    var o := ShowFirst(t, env, 0);
    assert o.ok && o.seat.all == [t.all[0].(server := Some(0))] && o.seat.servers == [0];
    assert Next(s, env, StartsSeat(NoAutologin, false)) == o.seat.(started := true);
  }

  lemma GreeterStarts(s: Seat, who: Text)
    requires GreeterWaits(s, who, false)
    ensures var t := Next(s, Plain(who), ServerGetsReady(0)); GreeterWaits(t, who, true) && t.config == s.config
  {
    var env := Plain(who);
    var t := s.(allServers := s.allServers[0 := s.allServers[0].(ready := true)]);
    assert FindWaitingOnServer(t, 0) == Some(0) by { assert WaitingWith(t, 0)(0); }
    assert Next(s, env, ServerGetsReady(0)) == StartLife(t, env, 0);
  }

  lemma GreeterRuns(s: Seat, who: Text)
    requires GreeterWaits(s, who, true)
    ensures var t := Next(s, Plain(who), ChildReports(0, Success(who))); AtGreeter(t, who) && t.config == s.config
  {
    var env, r := Plain(who), Success(who);
    var t := Noted(Put(s, 0, At(s, 0).(life := Life.OnReport(At(s, 0).life, r))), Reported(0, r.username, r.result));
    assert FindUser(t, Some(who), Some(0)).None?;
    var u := RunLife(t, 0);
    assert u.all[0].life.commandRun && Life.Authenticated(u.all[0].life);
    assert Next(s, env, ChildReports(0, r)) == SetActive(u, 0).(toActivate := None) by { hide SetActive, FindUser; }
    SetActiveAlone(u, 0);
  }

  /** The only session becomes active: nothing else changes. */
  lemma SetActiveAlone(s: Seat, x: SessionId)
    requires s.sessions == [x] && s.active == None
    ensures SetActive(s, x) == Noted(s, Activated(x)).(active := Some(x))
  {
    assert StopWhere(s, OtherGreeters(s, x)).all == s.all;
  }

  lemma GreeterConnects(s: Seat, who: Text)
    requires AtGreeter(s, who)
    ensures var t := Next(s, Plain(who), Message(0, LoginMessages.Connect(None, false, 1))); AtGreeter(t, who) && t.config == s.config
  {
  }

  lemma GreeterShownIs(config: Config, who: Text)
    ensures var t := Run(Initial(config), GreeterShown(who)); AtGreeter(t, who) && t.config == config
  {
    hide Next, AtGreeter, GreeterWaits;
    var env := Plain(who);
    SeatStarts(config, who);
    var a := Next(Initial(config), env, StartsSeat(NoAutologin, false));
    GreeterStarts(a, who);
    var b := Next(a, env, ServerGetsReady(0));
    GreeterRuns(b, who);
    var c := Next(b, env, ChildReports(0, Success(who)));
    GreeterConnects(c, who);
    FourSteps(Initial(config), GreeterShown(who));
  }

  /** The greeter has had its user authenticated in a second session, whose child waits for its command block. */
  predicate LoggedIn(s: Seat, alice: Text) {
    && s.sessions == [0, 1] && |s.all| == 2 && s.servers == [0] && |s.greeters| == 1
    && s.greeters[0].daemon.session == Some(1) && !s.greeters[0].daemon.guest
    && IsAuthenticated(s, 1) && s.all[1].life.username == Some(alice)
  }

  lemma AuthenticateAsks(s: Seat, who: Text, alice: Text)
    requires AtGreeter(s, who) && alice != []
    ensures var t := Next(s, Plain(who), Message(0, LoginMessages.Authenticate(1, Some(alice))));
            && t.sessions == [0, 1] && |t.all| == 2 && t.servers == [0] && !t.stopping && !t.stopped && t.all[0] == s.all[0]
            && |t.greeters| == 1 && t.greeters[0].daemon.session == Some(1) && !t.greeters[0].daemon.guest
            && t.all[1].life.listening && t.all[1].life.pid == 1 && t.all[1].handler.ByGreeter?
            && !t.all[1].life.commandRun && !t.all[1].life.stopping
  {
    hide FindUser, GreeterSession;
  }

  lemma UserLogsIn(s: Seat, who: Text, alice: Text)
    requires AtGreeter(s, who) && alice != []
    ensures var t := Next(Next(s, Plain(who), Message(0, LoginMessages.Authenticate(1, Some(alice)))), Plain(who), ChildReports(1, Success(alice)));
            && LoggedIn(t, alice) && !t.stopping && !t.stopped && t.all[0] == s.all[0]
            && t.all[1].life.pid == 1 && !t.all[1].life.commandRun && !t.all[1].life.stopping
  {
    AuthenticateAsks(s, who, alice);
    var a := Next(s, Plain(who), Message(0, LoginMessages.Authenticate(1, Some(alice))));
    hide GreeterMessage, AutoComplete, SwitchComplete;
    assert OnComplete(a, Plain(who), 1) == a;
  }

  lemma LoggedInStops(s: Seat, who: Text, alice: Text)
    requires LoggedIn(s, alice) && !s.stopping && !s.stopped && s.all[1].life.pid == 1 && !s.all[1].life.commandRun && !s.all[1].life.stopping
    requires s.all[0].life.pid == 1
    ensures var t := Next(s, Plain(who), StopsSeat);
            && LoggedIn(t, alice) && t.stopping && !t.stopped && t.all[1].life.pid == 1 && t.all[1].life.commandRun && t.all[0].life.pid == 1
  {
    var t := Next(s, Plain(who), StopsSeat);
    assert t.all[1].life == Life.OnStop(s.all[1].life) && t.all[0].life == Life.OnStop(s.all[0].life);
  }

  lemma LoggedInExits(s: Seat, who: Text, alice: Text)
    requires LoggedIn(s, alice) && s.stopping && !s.stopped && s.all[1].life.pid == 1
    ensures var t := Next(s, Plain(who), ChildExits(1));
            && t.sessions == [0] && !t.stopped && |t.all| == 2 && t.all[0] == s.all[0]
            && IsAuthenticated(t, 1) && |t.greeters| == 1 && t.greeters[0].daemon.session == Some(1) && !t.greeters[0].daemon.guest
  {
    hide AfterStopped;
    assert Without<SessionId>([0, 1], 1) == [0] by { assert [0, 1][1..] == [1]; }
  }

  /** A user logs in, the seat is stopped, and the user's child ends. */
  function LoginStopped(greeterUser: Text, alice: Text): seq<Happening> {
    var env := Plain(greeterUser);
    [Happening(env, Message(0, LoginMessages.Authenticate(1, Some(alice)))), Happening(env, ChildReports(1, Success(alice))),
     Happening(env, StopsSeat), Happening(env, ChildExits(1))]
  }

  lemma LoginStoppedIs(s: Seat, who: Text, alice: Text)
    requires AtGreeter(s, who) && alice != []
    ensures var t := Run(s, LoginStopped(who, alice));
            && t.sessions == [0] && |t.all| > 0 && t.all[0].life.pid == 1
            && IsAuthenticated(t, 1) && |t.greeters| == 1 && t.greeters[0].daemon.session == Some(1) && !t.greeters[0].daemon.guest
    ensures StartsInTime(s, LoginStopped(who, alice))
  {
    hide Next, Run, AtGreeter, IsAuthenticated, StartsInTime;
    var env, hs := Plain(who), LoginStopped(who, alice);
    AuthenticateAsks(s, who, alice);
    UserLogsIn(s, who, alice);
    var b := Next(Next(s, env, hs[0].event), env, hs[1].event);
    AtGreeterFacts(s, who);
    LoggedInStops(b, who, alice);
    var c := Next(b, env, hs[2].event);
    LoggedInExits(c, who, alice);
    FourSteps(s, hs);
    FourInTime(s, hs);
  }

  /**
    A run from a seat that is started to its shutdown, in which every authenticated child waits
    for its block. The start-session message comes from a greeter that is still alive after its
    user's session has left, and the seat then waits for a session that is not listed.
   */
  lemma StartTooLate(config: Config, greeterUser: Text, alice: Text)
    requires alice != []
    ensures var shown := Run(Initial(config), GreeterShown(greeterUser));
            var stopped := Run(shown, LoginStopped(greeterUser, alice));
            var late := Next(stopped, Plain(greeterUser), Message(0, LoginMessages.StartSession(None)));
            && AtGreeter(shown, greeterUser) && StartsInTime(shown, LoginStopped(greeterUser, alice))
            && |stopped.all| > 0 && stopped.all[0].life.pid > 0
            && stopped.sessions == [0] && late.toActivate == Some(1) && late.sessions == [0] && !Listed(late)
  {
    hide Next, Run, AtGreeter, IsAuthenticated, Listed, GreeterShown, LoginStopped, StartsInTime;
    GreeterShownIs(config, greeterUser);
    var shown := Run(Initial(config), GreeterShown(greeterUser));
    LoginStoppedIs(shown, greeterUser, alice);
    StartTooLateLast(Run(shown, LoginStopped(greeterUser, alice)), greeterUser);
  }

  lemma AtGreeterFacts(s: Seat, who: Text)
    requires AtGreeter(s, who)
    ensures |s.all| == 1 && s.all[0].life.pid == 1
  {
  }

  lemma FourSteps(s: Seat, hs: seq<Happening>)
    requires |hs| == 4
    ensures Run(s, hs) ==
              Next(Next(Next(Next(s, hs[0].env, hs[0].event), hs[1].env, hs[1].event), hs[2].env, hs[2].event), hs[3].env, hs[3].event)
  {
    hide Next;
    var a := Next(s, hs[0].env, hs[0].event);
    var b := Next(a, hs[1].env, hs[1].event);
    var c := Next(b, hs[2].env, hs[2].event);
    assert Run(a, hs[1..]) == Run(b, hs[2..]) by { assert hs[1..][1..] == hs[2..]; }
    assert Run(b, hs[2..]) == Run(c, hs[3..]) by { assert hs[2..][1..] == hs[3..]; }
    var last := hs[3..];
    assert last[0] == hs[3] && last[1..] == [];
    assert Run(c, last) == Run(Next(c, last[0].env, last[0].event), []);
  }

  /** Four steps none of which is a start-session message. */
  lemma FourInTime(s: Seat, hs: seq<Happening>)
    requires |hs| == 4 && forall i :: 0 <= i < 4 ==> !(hs[i].event.Message? && hs[i].event.request.StartSession?)
    requires var a := Next(s, hs[0].env, hs[0].event);
             var b := Next(a, hs[1].env, hs[1].event);
             var c := Next(b, hs[2].env, hs[2].event);
             Patient(s, hs[0].event) && Patient(a, hs[1].event) && Patient(b, hs[2].event) && Patient(c, hs[3].event)
    ensures StartsInTime(s, hs)
  {
    hide Next, Patient;
    var a := Next(s, hs[0].env, hs[0].event);
    var b := Next(a, hs[1].env, hs[1].event);
    var c := Next(b, hs[2].env, hs[2].event);
    assert hs[1..][1..] == hs[2..] && hs[2..][1..] == hs[3..];
    var last := hs[3..];
    assert last[0] == hs[3] && last[1..] == [];
    assert StartsInTime(Next(c, last[0].env, last[0].event), []);
    assert StartsInTime(c, last);
    assert StartsInTime(b, hs[2..]);
    assert StartsInTime(a, hs[1..]);
  }

  /** A run and one more step. */
  lemma {:induction false} RunSnoc(s: Seat, hs: seq<Happening>, h: Happening)
    ensures Run(s, hs + [h]) == Next(Run(s, hs), h.env, h.event)
    decreases |hs|
  {
    hide Next;
    if hs == [] {
      assert [] + [h] == [h] && [h][1..] == [];
      assert Run(s, [h]) == Run(Next(s, h.env, h.event), []);
    } else {
      assert (hs + [h])[0] == hs[0] && (hs + [h])[1..] == hs[1..] + [h];
      RunSnoc(Next(s, hs[0].env, hs[0].event), hs[1..], h);
    }
  }

  lemma StartTooLateLast(u: Seat, who: Text)
    requires u.sessions == [0] && IsAuthenticated(u, 1) && |u.greeters| == 1
    requires u.greeters[0].daemon.session == Some(1) && !u.greeters[0].daemon.guest
    ensures var v := Next(u, Plain(who), Message(0, LoginMessages.StartSession(None)));
            v.toActivate == Some(1) && v.sessions == [0] && !Listed(v)
  {
    hide StartFor, Put;
    var env := Plain(who);
    var a := Put(u, 1, At(u, 1).(life := At(u, 1).life.(argv := env.argv)));
    assert a.sessions == [0] && IsAuthenticated(a, 1) by {
      PutCalm(u, 1, At(u, 1).(life := At(u, 1).life.(argv := env.argv)));
      SteadyAuthenticated(u, a, 1);
    }
    StartForKeeps(a, env, 0, 1);
  }
}
