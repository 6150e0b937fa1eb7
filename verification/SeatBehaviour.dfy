/**
  What single seat operations achieve (src/seat.c), in terms of the sessions, servers and
  signals that they leave and not of the steps that they take.
 */
module SeatBehaviour {
  import opened Octets
  import opened Lists
  import Life = SessionLife
  import opened Seats
  import opened SeatSafety
  import GreeterDaemon
  import LoginMessages

  lemma StopWhereAt(s: Seat, p: SessionId -> bool, y: SessionId)
    ensures At(StopWhere(s, p), y) == if y < |s.all| && p(y) then At(s, y).(life := Life.OnStop(At(s, y).life)) else At(s, y)
  {
  }

  /** A user session gives way: it is locked. */
  predicate GivesWay(s: Seat, x: SessionId) {
    s.active.Some? && s.active.value != x && !At(s, s.active.value).isGreeter
  }

  /** A greeter that can be reset gives way: it idles. */
  predicate Idles(s: Seat, x: SessionId) {
    s.active.Some? && s.active.value in s.sessions && s.active.value != x && !IsStopping(s, s.active.value)
    && IsResettable(s, s.active.value)
  }

  /**
    Making a session active: it is the active one, every other listed greeter that cannot be
    reset is stopping, a user session that was active is locked, a greeter that can be reset
    idles instead, and no other session is touched.
   */
  lemma SetActiveEffects(s: Seat, x: SessionId)
    requires Listed(s)
    ensures var t := SetActive(s, x);
            && t.active == Some(x) && t.sessions == s.sessions && t.servers == s.servers && t.toActivate == s.toActivate && t.next == s.next
            && (forall y <- s.sessions :: y != x && At(s, y).isGreeter && !IsResettable(s, y) ==> IsStopping(t, y))
            && (forall y :: y !in s.sessions || y == x || !At(s, y).isGreeter || IsResettable(s, y) ==> At(t, y) == At(s, y))
            && (GivesWay(s, x) ==> t.log == s.log + [Locked(s.active.value), Activated(x)])
            && (Idles(s, x) ==> t.log == s.log + [Idled(s.active.value), Activated(x)])
            && (!GivesWay(s, x) && !Idles(s, x) ==> t.log == s.log + [Activated(x)])
  {
    hide SetActive, IsResettable, Idles, GivesWay;
    SetActiveSignals(s, x);
    forall y: SessionId ensures At(SetActive(s, x), y) ==
                       if OtherGreeters(s, x)(y) && y < |s.all| then At(s, y).(life := Life.OnStop(At(s, y).life)) else At(s, y)
    {
      SetActiveAt(s, x, y);
    }
  }

  lemma SetActiveAt(s: Seat, x: SessionId, y: SessionId)
    ensures At(SetActive(s, x), y) ==
              if OtherGreeters(s, x)(y) && y < |s.all| then At(s, y).(life := Life.OnStop(At(s, y).life)) else At(s, y)
  {
    hide Life.OnStop, StopWhere;
    var a := IdlePrevious(s, x);
    assert OtherGreeters(a, x)(y) == OtherGreeters(s, x)(y);
    StopWhereRest(a, OtherGreeters(a, x));
    StopWhereAt(a, OtherGreeters(a, x), y);
  }

  lemma SetActiveSignals(s: Seat, x: SessionId)
    ensures var t := SetActive(s, x);
            && t.active == Some(x) && t.sessions == s.sessions && t.servers == s.servers && t.toActivate == s.toActivate && t.next == s.next
            && (GivesWay(s, x) ==> t.log == s.log + [Locked(s.active.value), Activated(x)])
            && (Idles(s, x) ==> t.log == s.log + [Idled(s.active.value), Activated(x)])
            && (!GivesWay(s, x) && !Idles(s, x) ==> t.log == s.log + [Activated(x)])
  {
    hide StopWhere, Life.OnStop, OtherGreeters;
    var a := IdlePrevious(s, x);
    StopWhereRest(a, OtherGreeters(a, x));
    if s.active.Some? {
      StopWhereAt(a, OtherGreeters(a, x), s.active.value);
    }
    if Idles(s, x) {
      assert s.log + [Idled(s.active.value)] + [Activated(x)] == s.log + [Idled(s.active.value), Activated(x)];
    }
    if GivesWay(s, x) {
      assert s.log + [Locked(s.active.value)] + [Activated(x)] == s.log + [Locked(s.active.value), Activated(x)];
    }
  }

  lemma StopWhereRest(s: Seat, p: SessionId -> bool)
    ensures StopWhere(s, p) == s.(all := StopWhere(s, p).all) && |StopWhere(s, p).all| == |s.all|
  {
  }

  lemma StopSessionAt(s: Seat, x: SessionId, y: SessionId)
    ensures var t := StopSession(s, x);
            && t == s.(all := t.all) && |t.all| == |s.all|
            && (y != x ==> At(t, y) == At(s, y)) && (y == x && x < |s.all| ==> t.all[x].life.stopping)
            && At(t, y).isGreeter == At(s, y).isGreeter && At(t, y).life.username == At(s, y).life.username
  {
  }

  /**
    A greeter starts a session for a user who has one already: the new session is stopped, and
    the existing one is unlocked and made active; no display server is made for it.
   */
  lemma ReturnsToExisting(s: Seat, env: Env, g: GreeterId, x: SessionId, y: SessionId)
    requires Listed(s) && x < |s.all| && FindUser(s.(toActivate := Some(x)), At(s, x).life.username, None) == Some(y) && y != x
    requires !At(s, x).isGreeter
    ensures var o := StartFor(s, env, g, x);
            && o.ok && o.seat.active == Some(y) && IsStopping(o.seat, x)
            && o.seat.servers == s.servers && |o.seat.all| == |s.all|
            && |o.seat.log| > |s.log| && o.seat.log[|s.log|] == Unlocked(y, At(s, x).life.username)
            && o.seat.log[|o.seat.log| - 1] == Activated(y)
  {
    hide FindUser, SetActive, StopSession, IsResettable, Listed;
    var t := s.(toActivate := Some(x));
    FindUserSound(t, At(s, x).life.username, None);
    var a := StopSession(t, x);
    StopSessionAt(t, x, x);
    StopSessionAt(t, x, y);
    var b := Unlock(a, y);
    SetActiveOf(b, y, x);
  }

  /** What making a session active means for one that is no greeter. */
  lemma SetActiveOf(s: Seat, y: SessionId, x: SessionId)
    requires !At(s, x).isGreeter
    ensures var t := SetActive(s, y);
            && t.active == Some(y) && t.servers == s.servers && |t.all| == |s.all| && At(t, x) == At(s, x)
            && |t.log| > |s.log| && t.log[..|s.log|] == s.log && t.log[|t.log| - 1] == Activated(y)
  {
    hide StopWhere, Life.OnStop;
    var a := IdlePrevious(s, y);
    StopWhereRest(a, OtherGreeters(a, y));
    StopWhereAt(a, OtherGreeters(a, y), x);
  }

  /** When a failed session cannot share its display server, the new server goes to that session and not to the greeter. */
  lemma FailedSessionGetsServer(s: Seat, env: Env, x: SessionId)
    requires FindResettable(s).None? && x < |s.all| && !CanShare(s, At(s, x).server)
    requires x in env.choices && env.choices[x].Fresh? && |s.allServers| in env.serverStarts
    ensures var t := FromFailed(s, env, x);
            At(t, x).server == Some(|s.allServers|) && At(t, |s.all|).server == None && At(t, |s.all|).isGreeter && t.toActivate == Some(|s.all|)
  {
    hide FindResettable, Life.OnStop, Life.OnStart;
    var t := CreateGreeter(s, env).(toActivate := Some(|s.all|));
    assert t.all == s.all + [t.all[|s.all|]] && t.allServers == s.allServers;
    var given := GiveServer(t, env, x);
    assert given.ok && given.seat.all[x].server == Some(|s.allServers|) && given.seat.all[|s.all|] == t.all[|s.all|];
    assert CanShare(t, At(s, x).server) == CanShare(s, At(s, x).server);
  }

  /** Locking with a greeter that cannot be reset: it stops, and a new greeter waits for its display server. */
  lemma LockReplacesGreeter(s: Seat, env: Env, greeter: SessionId)
    requires s.config.canSwitch && env.greeterConfigured && FindResettable(s).None? && FindGreeter(s) == Some(greeter) && greeter < |s.all|
    ensures var o := Lock(s, env);
            && o.ok && IsStopping(o.seat, greeter) && o.seat.replacement == Some(|s.all|) && o.seat.toActivate == Some(|s.all|)
            && At(o.seat, |s.all|).isGreeter && At(o.seat, |s.all|).server == At(s, greeter).server && o.seat.servers == s.servers
  {
    hide FindResettable, FindGreeter, StopSession;
    StopSessionAt(s, greeter, greeter);
    StopSessionAt(s, greeter, |s.all|);
    assert IsStopping(StopSession(s, greeter), greeter);
  }
}
