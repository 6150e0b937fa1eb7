/**
  What each request to a seat comes to (src/seat.c), by the seat's fields: which session is shown,
  made, stopped, locked or given a display server, when a request is refused, and what stays.
 */
module SeatRequests {
  import opened Octets
  import opened Lists
  import Life = SessionLife
  import opened Seats
  import opened SeatSafety
  import opened SeatBehaviour
  import GreeterDaemon

  // ------------------------------------------------------------------ who is found

  /** A listed session that has not been told to stop. */
  predicate Alive(s: Seat, x: SessionId) {
    x in s.sessions && x < |s.all| && !s.all[x].life.stopping
  }

  predicate AliveGreeter(s: Seat, x: SessionId) {
    Alive(s, x) && s.all[x].isGreeter
  }

  /** A living greeter that said when it connected that it can be reset. */
  predicate AliveResettable(s: Seat, x: SessionId) {
    AliveGreeter(s, x) && s.all[x].greeter < |s.greeters| && s.greeters[s.all[x].greeter].daemon.resettable
  }

  predicate AliveUser(s: Seat, x: SessionId, name: Text) {
    Alive(s, x) && s.all[x].life.username == Some(name)
  }

  predicate AliveGuest(s: Seat, x: SessionId) {
    Alive(s, x) && s.all[x].life.isGuest
  }

  // The kinds, as tests on sessions.

  function Greeters(s: Seat): SessionId -> bool {
    (x: SessionId) => AliveGreeter(s, x)
  }

  function Resettables(s: Seat): SessionId -> bool {
    (x: SessionId) => AliveResettable(s, x)
  }

  function Users(s: Seat, name: Text): SessionId -> bool {
    (x: SessionId) => AliveUser(s, x, name)
  }

  function OtherUsers(s: Seat, name: Text, ignore: SessionId): SessionId -> bool {
    (x: SessionId) => x != ignore && AliveUser(s, x, name)
  }

  function Guests(s: Seat): SessionId -> bool {
    (x: SessionId) => AliveGuest(s, x)
  }

  function GreeterSessions(s: Seat): SessionId -> bool {
    (x: SessionId) => x < |s.all| && s.all[x].isGreeter
  }

  function On(s: Seat, d: Option<ServerId>): SessionId -> bool {
    (x: SessionId) => Alive(s, x) && s.all[x].server == d
  }

  function WaitingOn(s: Seat, d: ServerId): SessionId -> bool {
    (x: SessionId) => Alive(s, x) && s.all[x].server == Some(d) && !s.all[x].life.commandRun
  }

  /** It is listed at a place before which none passes the test. */
  ghost predicate FirstWith(s: Seat, x: SessionId, p: SessionId -> bool) {
    exists i :: 0 <= i < |s.sessions| && s.sessions[i] == x && p(x) && forall j :: 0 <= j < i ==> !p(s.sessions[j])
  }

  lemma {:induction false} FirstIs(ids: seq<nat>, p: nat -> bool, q: nat -> bool)
    requires forall x <- ids :: p(x) == q(x)
    ensures var r := First(ids, p);
            if r.None? then forall x <- ids :: !q(x)
            else exists i :: 0 <= i < |ids| && ids[i] == r.value && q(r.value) && forall j :: 0 <= j < i ==> !q(ids[j])
    decreases |ids|
  {
    if ids != [] {
      assert ids[0] in ids;
      if p(ids[0]) {
        assert First(ids, p) == Some(ids[0]);
      } else {
        FirstIs(ids[1..], p, q);
        var r := First(ids[1..], p);
        if r.Some? {
          var i :| 0 <= i < |ids[1..]| && ids[1..][i] == r.value && forall j :: 0 <= j < i ==> !q(ids[1..][j]);
          assert ids[i + 1] == r.value && q(r.value);
          forall j | 0 <= j < i + 1 ensures !q(ids[j]) {
            assert j > 0 ==> ids[j] == ids[1..][j - 1];
          }
        } else {
          assert ids == [ids[0]] + ids[1..];
        }
      }
    }
  }

  /** What the seat's searches find: the first listed session of the kind, or none exactly if there is none. */
  ghost predicate Finds(s: Seat, r: Option<SessionId>, p: SessionId -> bool) {
    if r.Some? then FirstWith(s, r.value, p) else forall x <- s.sessions :: !p(x)
  }

  lemma FindersFind(s: Seat, name: Text)
    requires Listed(s)
    ensures Finds(s, FindGreeter(s), Greeters(s))
    ensures Finds(s, FindResettable(s), Resettables(s))
    ensures Finds(s, FindGuest(s), Guests(s))
    ensures Finds(s, FindUser(s, Some(name), None), Users(s, name))
    ensures FindUser(s, None, None) == None
  {
    hide Listed, Finds, FindGreeter, FindResettable, FindGuest, First;
    GreeterFound(s);
    ResettableFound(s);
    GuestFound(s);
    UserFound(s, name, None);
  }

  /** A search with a test that agrees with another on the listed sessions finds the first of the other's kind. */
  lemma SearchFinds(s: Seat, p: SessionId -> bool, q: SessionId -> bool)
    requires forall x <- s.sessions :: p(x) == q(x)
    ensures Finds(s, First(s.sessions, p), q)
  {
    FirstIs(s.sessions, p, q);
  }

  lemma GreeterFound(s: Seat)
    requires Listed(s)
    ensures Finds(s, FindGreeter(s), Greeters(s))
  {
    hide Finds, Distinct, First;
    SearchFinds(s, LivingGreeter(s), Greeters(s));
  }

  lemma ResettableFound(s: Seat)
    requires Listed(s)
    ensures Finds(s, FindResettable(s), Resettables(s))
  {
    hide Finds, Distinct, First;
    SearchFinds(s, LivingResettable(s), Resettables(s));
  }

  lemma GuestFound(s: Seat)
    requires Listed(s)
    ensures Finds(s, FindGuest(s), Guests(s))
  {
    hide Finds, Distinct, First;
    SearchFinds(s, LivingGuest(s), Guests(s));
  }

  lemma UserFound(s: Seat, name: Text, ignore: Option<SessionId>)
    requires Listed(s)
    ensures Finds(s, FindUser(s, Some(name), ignore), if ignore.Some? then OtherUsers(s, name, ignore.value) else Users(s, name))
  {
    hide Finds, Distinct, First;
    SearchFinds(s, LivingUser(s, Some(name), ignore), if ignore.Some? then OtherUsers(s, name, ignore.value) else Users(s, name));
  }

  lemma OtherFindersFind(s: Seat, name: Text, ignore: SessionId, d: Option<ServerId>, e: ServerId)
    requires Listed(s)
    ensures Finds(s, FindUser(s, Some(name), Some(ignore)), OtherUsers(s, name, ignore))
    ensures Finds(s, GreeterSession(s), GreeterSessions(s))
    ensures Finds(s, FindOnServer(s, d), On(s, d))
    ensures Finds(s, FindWaitingOnServer(s, e), WaitingOn(s, e))
  {
    hide Listed, Finds, GreeterSession, FindOnServer, FindWaitingOnServer, First;
    UserFound(s, name, Some(ignore));
    HostFound(s);
    OnFound(s, d);
    WaitingFound(s, e);
  }

  lemma HostFound(s: Seat)
    requires Listed(s)
    ensures Finds(s, GreeterSession(s), GreeterSessions(s))
  {
    hide Finds, Distinct, First;
    SearchFinds(s, AnyGreeter(s), GreeterSessions(s));
  }

  lemma OnFound(s: Seat, d: Option<ServerId>)
    requires Listed(s)
    ensures Finds(s, FindOnServer(s, d), On(s, d))
  {
    hide Finds, Distinct, First;
    SearchFinds(s, LivingWith(s, d), On(s, d));
  }

  lemma WaitingFound(s: Seat, e: ServerId)
    requires Listed(s)
    ensures Finds(s, FindWaitingOnServer(s, e), WaitingOn(s, e))
  {
    hide Finds, Distinct, First;
    SearchFinds(s, WaitingWith(s, e), WaitingOn(s, e));
  }

  // ------------------------------------------------------------------ who is shown

  /** What showing a session says: a greeter that gives way idles, a user session is locked. */
  function Signals(s: Seat, x: SessionId): seq<Entry> {
    (if s.active.Some? && s.active.value != x && AliveResettable(s, s.active.value) then [Idled(s.active.value)] else [])
    + (if s.active.Some? && s.active.value < |s.all| && s.active.value != x && !s.all[s.active.value].isGreeter
       then [Locked(s.active.value)] else [])
    + [Activated(x)]
  }

  /** Every other living greeter that cannot be reset is told to stop; nobody else is. */
  ghost predicate GreetersStopped(s: Seat, t: Seat, x: SessionId) {
    && |t.all| == |s.all|
    && forall y :: 0 <= y < |s.all| ==>
         t.all[y] == if y != x && AliveGreeter(s, y) && !AliveResettable(s, y)
                     then s.all[y].(life := Life.Step(s.all[y].life, Life.Stops)) else s.all[y]
  }

  /** The session is shown, and that is all that happens. */
  ghost predicate Shows(s: Seat, t: Seat, x: SessionId) {
    && GreetersStopped(s, t, x)
    && t == s.(all := t.all, active := Some(x), log := s.log + Signals(s, x))
  }

  lemma SetActiveShows(s: Seat, x: SessionId)
    requires Listed(s)
    ensures Shows(s, SetActive(s, x), x)
  {
    hide SetActive, Signals;
    SetActiveRest(s, x);
    var t := SetActive(s, x);
    forall y | 0 <= y < |s.all|
      ensures t.all[y] == if y != x && AliveGreeter(s, y) && !AliveResettable(s, y)
                          then s.all[y].(life := Life.Step(s.all[y].life, Life.Stops)) else s.all[y]
    {
      hide Life.OnStop;
      SetActiveAt(s, x, y);
      assert OtherGreeters(s, x)(y) <==> y != x && AliveGreeter(s, y) && !AliveResettable(s, y);
    }
    SignalsAre(s, x);
  }

  lemma SetActiveRest(s: Seat, x: SessionId)
    ensures var t := SetActive(s, x); t == s.(all := t.all, active := Some(x), log := t.log) && |t.all| == |s.all|
  {
    hide StopWhere, OtherGreeters;
    var a := IdlePrevious(s, x);
    StopWhereRest(a, OtherGreeters(a, x));
  }

  lemma SignalsAre(s: Seat, x: SessionId)
    requires Listed(s)
    ensures SetActive(s, x).log == s.log + Signals(s, x)
  {
    hide Life.OnStop, StopWhere;
    var a := IdlePrevious(s, x);
    var b := StopWhere(a, OtherGreeters(a, x));
    StopWhereRest(a, OtherGreeters(a, x));
    if s.active.Some? {
      StopWhereAt(a, OtherGreeters(a, x), s.active.value);
    }
  }

  // ------------------------------------------------------------------ stop

  /** Exactly the listed sessions and display servers are told to stop. */
  ghost predicate EverybodyTold(s: Seat, t: Seat) {
    && |t.all| == |s.all| && |t.allServers| == |s.allServers|
    && (forall y :: 0 <= y < |s.all| ==>
          t.all[y] == if y in s.sessions then s.all[y].(life := Life.Step(s.all[y].life, Life.Stops)) else s.all[y])
    && (forall d :: 0 <= d < |s.allServers| ==>
          t.allServers[d] == if d in s.servers then s.allServers[d].(stopping := true) else s.allServers[d])
  }

  /** The first stop of a seat with something listed tells it to stop; without, the seat has stopped. A second stop does nothing. */
  lemma SeatStopTells(s: Seat)
    requires !s.stopped
    ensures var t := StopSeat(s);
            && (s.stopping ==> t == s)
            && (!s.stopping && s.sessions == [] && s.servers == [] ==>
                  t == s.(stopping := true, stopped := true, log := s.log + [SeatStopped(0, 0)]))
            && (!s.stopping && !(s.sessions == [] && s.servers == []) ==>
                  EverybodyTold(s, t) && t == s.(stopping := true, all := t.all, allServers := t.allServers))
  {
    hide Life.OnStop;
  }

  // ------------------------------------------------------------------ who is given a display server

  /** What the seat's factory makes of a session's request. */
  function Factory(s: Seat, env: Env, x: SessionId): Option<ServerId> {
    if x !in env.choices then None
    else match env.choices[x]
      case Fresh(_, _) => Some(|s.allServers|)
      case Existing(d) => if d < |s.allServers| then Some(d) else None
  }

  /** The server as it is before it is started: one that exists, or a new one. */
  function Before(s: Seat, env: Env, x: SessionId, d: ServerId): Server
    requires Factory(s, env, x) == Some(d)
  {
    if d < |s.allServers| then s.allServers[d] else Server(false, false, env.choices[x].canShare, env.choices[x].parent, false)
  }

  /** Without a server from the factory the session has none, and that is all. */
  lemma NoServerGiven(s: Seat, env: Env, x: SessionId)
    requires x < |s.all| && Factory(s, env, x) == None
    ensures GiveServer(s, env, x) == Outcome(s.(all := s.all[x := s.all[x].(server := None)]), false)
  {
  }

  /**
    A session gets the display server that the factory has for it, which is listed, and a start of
    it is tried unless it is ready. Success is that it is ready or starts.
   */
  lemma ServerGiven(s: Seat, env: Env, x: SessionId, d: ServerId)
    requires x < |s.all| && Factory(s, env, x) == Some(d)
    ensures var o, was := GiveServer(s, env, x), Before(s, env, x, d);
            && (o.ok <==> was.ready || d in env.serverStarts)
            && o.seat == s.(all := s.all[x := s.all[x].(server := Some(d))],
                            servers := if d in s.servers && d < |s.allServers| then s.servers else s.servers + [d],
                            allServers := Known(s, was, d)[d := was.(launched := was.launched || (!was.ready && d in env.launches))])
  {
    hide SetServer, StartServer;
    var m := CreateServer(s, env, x);
    ServerMade(s, env, x, d);
    ServerTaken(m.seat, env, x, d);
  }

  /** All servers, the new one included. */
  function Known(s: Seat, was: Server, d: ServerId): (r: seq<Server>)
    requires d <= |s.allServers|
    ensures d < |r|
  {
    if d < |s.allServers| then s.allServers else s.allServers + [was]
  }

  lemma ServerMade(s: Seat, env: Env, x: SessionId, d: ServerId)
    requires Factory(s, env, x) == Some(d)
    ensures var m, was := CreateServer(s, env, x), Before(s, env, x, d);
            && m.server == Some(d) && Known(s, was, d)[d] == was
            && m.seat == s.(servers := if d in s.servers && d < |s.allServers| then s.servers else s.servers + [d], allServers := Known(s, was, d))
  {
  }

  lemma ServerTaken(s: Seat, env: Env, x: SessionId, d: ServerId)
    requires x < |s.all| && d < |s.allServers|
    ensures var t, was := SetServer(s, x, Some(d)), s.allServers[d];
            && (ServerStarts(t, env, Some(d)) <==> was.ready || d in env.serverStarts)
            && StartServer(t, env, Some(d)) ==
                 s.(all := s.all[x := s.all[x].(server := Some(d))],
                    allServers := s.allServers[d := was.(launched := was.launched || (!was.ready && d in env.launches))])
  {
    assert s.allServers[d := s.allServers[d]] == s.allServers;
  }

  /** The record of a session that is made, by what it is made for. */
  predicate IsFresh(r: Record, username: Option<Text>, isGuest: bool, argv: Option<seq<Option<Text>>>, handler: Handler) {
    && r.life == Life.New(username, isGuest).(argv := argv) && r.handler == handler && r.server == None
  }

  /** A greeter's session: its user, and a daemon side that knows nothing yet and lets guests in as the seat does. */
  lemma GreeterMade(s: Seat, env: Env)
    ensures var t := CreateGreeter(s, env);
            && t == s.(all := t.all, greeters := t.greeters, sessions := s.sessions + [|s.all|])
            && |t.all| == |s.all| + 1 && t.all[..|s.all|] == s.all
            && IsFresh(t.all[|s.all|], env.greeterUser, false, env.argv, Auto)
            && t.all[|s.all|].isGreeter && t.all[|s.all|].greeter == |s.greeters|
            && |t.greeters| == |s.greeters| + 1 && t.greeters[..|s.greeters|] == s.greeters
            && var g := t.greeters[|s.greeters|];
               !g.inSession && g.daemon.allowGuest == s.config.allowGuest && !g.daemon.guest && g.daemon.session == None && !g.daemon.resettable
               && !g.daemon.startSession
  {
  }

  // ------------------------------------------------------------------ lock

  /** Without switching nothing can be locked, and nothing changes. */
  lemma LockRefused(s: Seat, env: Env)
    requires !s.config.canSwitch
    ensures Lock(s, env) == Outcome(s, false)
  {
  }

  /**
    A seat with a greeter that can be reset shows it: the greeter is reset and active, and a user
    session that was active is locked.
   */
  lemma LockShowsGreeter(s: Seat, env: Env, g: SessionId)
    requires Listed(s) && s.config.canSwitch && FirstWith(s, g, Resettables(s))
    ensures var o := Lock(s, env);
            && o.ok && Shows(s.(log := s.log + [Reset(g)]), o.seat, g) && o.seat.active == Some(g)
            && (s.active.Some? && s.active.value != g && s.active.value < |s.all| && !s.all[s.active.value].isGreeter ==>
                  Locked(s.active.value) in o.seat.log)
  {
    hide SetActive, FindResettable, Shows, Finds;
    FindersFind(s, []);
    FirstOnly(s, g, FindResettable(s), Resettables(s));
    var a := s.(log := s.log + [Reset(g)]);
    SetActiveShows(a, g);
    ShowsLocks(a, SetActive(a, g), g);
  }

  lemma ShowsLocks(s: Seat, t: Seat, x: SessionId)
    requires Shows(s, t, x)
    ensures t.active == Some(x) && (s.active.Some? && s.active.value != x && s.active.value < |s.all| && !s.all[s.active.value].isGreeter ==>
                  Locked(s.active.value) in t.log)
  {
    if s.active.Some? && s.active.value != x && s.active.value < |s.all| && !s.all[s.active.value].isGreeter {
      assert t.log == s.log + ([Locked(s.active.value)] + [Activated(x)]);
      assert t.log[|s.log|] == Locked(s.active.value);
    }
  }

  /** There is one first session of a kind. */
  lemma FirstOnly(s: Seat, x: SessionId, r: Option<SessionId>, p: SessionId -> bool)
    requires FirstWith(s, x, p) && Finds(s, r, p)
    ensures r == Some(x)
  {
  }

  /**
    A seat without a living greeter makes one, waits for it and gives it a display server; nothing
    is locked or shown until then. Without a greeter configured nothing happens.
   */
  lemma LockMakesGreeter(s: Seat, env: Env)
    requires Listed(s) && s.config.canSwitch && forall x <- s.sessions :: !AliveGreeter(s, x)
    ensures !env.greeterConfigured ==> Lock(s, env) == Outcome(s, false)
    ensures env.greeterConfigured ==> AwaitsGreeter(s, env, Lock(s, env))
  {
    hide FindResettable, FindGreeter, Finds, AwaitsGreeter;
    NoGreeterFound(s);
    GreeterAwaited(s, env);
  }

  lemma NoGreeterFound(s: Seat)
    requires Listed(s) && forall x <- s.sessions :: !AliveGreeter(s, x)
    ensures FindResettable(s).None? && FindGreeter(s).None?
  {
    FindersFind(s, []);
  }

  /** A new greeter is listed, awaited and given its display server; nothing is shown, stopped or said. */
  ghost predicate AwaitsGreeter(s: Seat, env: Env, o: Outcome) {
    var t, g := o.seat, |s.all|;
    && |t.all| == |s.all| + 1 && t.all[..g] == s.all && t.all[g].isGreeter && t.all[g].life.username == env.greeterUser
    && !t.all[g].life.stopping && t.sessions == s.sessions + [g] && t.toActivate == Some(g)
    && t.all[g].server == Factory(s, env, g)
    && (o.ok <==> t.all[g].server.Some? && (ServerAt(s, t.all[g].server.value).ready || t.all[g].server.value in env.serverStarts))
    && t.active == s.active && t.next == s.next && t.replacement == s.replacement && t.log == s.log && t.stopping == s.stopping
  }

  lemma GreeterAwaited(s: Seat, env: Env)
    ensures AwaitsGreeter(s, env, GiveServer(CreateGreeter(s, env).(toActivate := Some(|s.all|)), env, |s.all|))
  {
    hide CreateGreeter, GiveServer;
    GreeterMade(s, env);
    var t := CreateGreeter(s, env).(toActivate := Some(|s.all|));
    GivenAll(t, env, |s.all|);
  }

  /** What a session that is given a display server or none has in common. */
  lemma GivenAll(s: Seat, env: Env, x: SessionId)
    requires x < |s.all|
    ensures var o := GiveServer(s, env, x);
            && o.seat == s.(all := s.all[x := s.all[x].(server := Factory(s, env, x))], servers := o.seat.servers, allServers := o.seat.allServers)
            && (o.ok <==> Factory(s, env, x).Some?
                          && (ServerAt(s, Factory(s, env, x).value).ready || Factory(s, env, x).value in env.serverStarts))
  {
    hide GiveServer;
    match Factory(s, env, x) {
      case None => NoServerGiven(s, env, x);
      case Some(d) => ServerGiven(s, env, x, d);
    }
  }

  /** A greeter that cannot be reset is stopped even if no new one is configured. */
  lemma LockStopsGreeter(s: Seat, env: Env, g: SessionId)
    requires Listed(s) && s.config.canSwitch && FirstWith(s, g, Greeters(s)) && forall x <- s.sessions :: !AliveResettable(s, x)
    ensures !env.greeterConfigured ==> Lock(s, env) == Outcome(s.(all := s.all[g := s.all[g].(life := Life.Step(s.all[g].life, Life.Stops))]), false)
    ensures env.greeterConfigured ==>
              var o, n := Lock(s, env), |s.all|;
              && o.ok && |o.seat.all| == n + 1 && o.seat.all[..n] == s.all[g := s.all[g].(life := Life.Step(s.all[g].life, Life.Stops))]
              && o.seat.all[n].isGreeter && o.seat.all[n].server == s.all[g].server && !o.seat.all[n].life.stopping
              && o.seat.sessions == s.sessions + [n] && o.seat.toActivate == Some(n) && o.seat.replacement == Some(n)
              && o.seat.active == s.active && o.seat.log == s.log && o.seat.servers == s.servers && o.seat.allServers == s.allServers
  {
    hide FindResettable, FindGreeter, Finds, StopSession, CreateGreeter, SetServer;
    FindersFind(s, []);
    FirstOnly(s, g, FindGreeter(s), Greeters(s));
    assert FindResettable(s).None? by { NoneFirst(s, FindResettable(s), Resettables(s)); }
    StoppedOne(s, g);
    LockStops(s, env, g);
    if env.greeterConfigured {
      GreeterReplaces(StopSession(s, g), env, s.all[g].server);
    }
  }

  lemma LockStops(s: Seat, env: Env, g: SessionId)
    requires s.config.canSwitch && FindResettable(s).None? && FindGreeter(s) == Some(g) && g < |s.all|
    ensures var t := StopSession(s, g);
            var u := SetServer(CreateGreeter(t, env).(toActivate := Some(|s.all|)), |s.all|, s.all[g].server).(replacement := Some(|s.all|));
            Lock(s, env) == if env.greeterConfigured then Outcome(u, true) else Outcome(t, false)
  {
    hide FindResettable, FindGreeter, StopSession, CreateGreeter, SetServer, GiveServer;
  }

  lemma GreeterReplaces(s: Seat, env: Env, d: Option<ServerId>)
    ensures var n := |s.all|;
            var t := SetServer(CreateGreeter(s, env).(toActivate := Some(n)), n, d).(replacement := Some(n));
            && |t.all| == n + 1 && t.all[..n] == s.all && t.all[n].isGreeter && t.all[n].server == d && !t.all[n].life.stopping
            && t.sessions == s.sessions + [n] && t.toActivate == Some(n) && t.replacement == Some(n)
            && t.active == s.active && t.log == s.log && t.servers == s.servers && t.allServers == s.allServers
  {
    hide CreateGreeter, SetServer;
    GreeterMade(s, env);
    var u := CreateGreeter(s, env).(toActivate := Some(|s.all|));
    TakesServer(u, |s.all|, d);
    assert u.all[|s.all| := u.all[|s.all|].(server := d)][..|s.all|] == u.all[..|s.all|];
  }

  lemma StoppedOne(s: Seat, x: SessionId)
    requires x < |s.all|
    ensures StopSession(s, x) == s.(all := s.all[x := s.all[x].(life := Life.Step(s.all[x].life, Life.Stops))])
  {
    hide Life.OnStop;
  }

  lemma TakesServer(s: Seat, x: SessionId, d: Option<ServerId>)
    requires x < |s.all|
    ensures SetServer(s, x, d) == s.(all := s.all[x := s.all[x].(server := d)])
  {
  }

  lemma NoneFirst(s: Seat, r: Option<SessionId>, p: SessionId -> bool)
    requires Finds(s, r, p) && forall x <- s.sessions :: !p(x)
    ensures r == None
  {
  }

  // ------------------------------------------------------------------ switch to a greeter

  /** Without switching only an empty seat is given a greeter. */
  lemma GreeterRefused(s: Seat, env: Env)
    requires !s.config.canSwitch && s.sessions != []
    ensures SwitchToGreeter(s, env) == Outcome(s, false)
  {
  }

  /** A living greeter is shown. */
  lemma GreeterShows(s: Seat, env: Env, g: SessionId)
    requires Listed(s) && s.config.canSwitch && FirstWith(s, g, Greeters(s))
    ensures SwitchToGreeter(s, env).ok && Shows(s, SwitchToGreeter(s, env).seat, g)
  {
    hide SetActive, FindGreeter, Shows, Finds;
    FindersFind(s, []);
    FirstOnly(s, g, FindGreeter(s), Greeters(s));
    SetActiveShows(s, g);
  }

  /**
    Otherwise a greeter is made, awaited and given a display server. Without a greeter configured
    nothing happens; without a display server the greeter is listed and nobody waits for it.
   */
  lemma GreeterIsMade(s: Seat, env: Env)
    requires Listed(s) && (s.config.canSwitch || s.sessions == []) && forall x <- s.sessions :: !AliveGreeter(s, x)
    ensures !env.greeterConfigured ==> SwitchToGreeter(s, env) == Outcome(s, false)
    ensures env.greeterConfigured && Factory(s, env, |s.all|).Some? ==> AwaitsGreeter(s, env, SwitchToGreeter(s, env))
    ensures env.greeterConfigured && Factory(s, env, |s.all|).None? ==>
              var o := SwitchToGreeter(s, env);
              !o.ok && o.seat.toActivate == None && o.seat.sessions == s.sessions + [|s.all|] && |o.seat.all| == |s.all| + 1
              && o.seat.all[..|s.all|] == s.all && o.seat.all[|s.all|].isGreeter && o.seat.all[|s.all|].server == None
              && o.seat.active == s.active && o.seat.log == s.log && o.seat.servers == s.servers && o.seat.allServers == s.allServers
  {
    hide FindGreeter, Finds, AwaitsGreeter, CreateGreeter, GiveServer;
    NoGreeterFound(s);
    GreeterAwaited(s, env);
    GreeterMade(s, env);
    assert CreateServer(CreateGreeter(s, env), env, |s.all|).server == Factory(s, env, |s.all|);
  }

  // ------------------------------------------------------------------ switch to a user

  /** Refused without switching, for a user that does not exist, and without a session to run; then nothing changes. */
  lemma UserRefused(s: Seat, env: Env, name: Text)
    requires Listed(s) && !(s.active.Some? && FirstWith(s, s.active.value, Users(s, name)))
    requires !s.config.canSwitch || !env.userKnown || !env.sessionConfigured
    ensures SwitchToUser(s, env, name) == Outcome(s, false)
  {
    hide FindUser, Finds;
    FindersFind(s, name);
    FoundFirst(s, FindUser(s, Some(name), None), Users(s, name));
  }

  lemma FoundFirst(s: Seat, r: Option<SessionId>, p: SessionId -> bool)
    requires Finds(s, r, p)
    ensures r.Some? ==> FirstWith(s, r.value, p)
    ensures r.None? ==> forall x <- s.sessions :: !p(x)
  {
  }

  /** The user's session is active already: nothing to do. */
  lemma UserActive(s: Seat, env: Env, name: Text)
    requires Listed(s) && s.config.canSwitch && s.active.Some? && FirstWith(s, s.active.value, Users(s, name))
    ensures SwitchToUser(s, env, name) == Outcome(s, true)
  {
    hide FindUser, Finds;
    FindersFind(s, name);
    FirstOnly(s, s.active.value, FindUser(s, Some(name), None), Users(s, name));
  }

  /**
    Otherwise a session is made in which the user is to authenticate, under the handler that
    unlocks afterwards. Nothing is shown, unlocked or stopped; success is that its child starts.
   */
  lemma UserAsked(s: Seat, env: Env, name: Text)
    requires Listed(s) && s.config.canSwitch && env.userKnown && env.sessionConfigured
    requires !(s.active.Some? && FirstWith(s, s.active.value, Users(s, name)))
    ensures var o, n := SwitchToUser(s, env, name), |s.all|;
            var how := if n in env.starts then env.starts[n] else Life.Forks(1, []);
            var life := Life.Step(Life.New(Some(name), false).(argv := env.argv), Life.Starts(how));
            && o.seat == s.(all := s.all + [Record(life, Switch, false, 0, None)], sessions := s.sessions + [n])
            && (o.ok <==> life.pid > 0)
  {
    hide FindUser, Finds, StartLife, ChildStarts;
    FindersFind(s, name);
    FoundFirst(s, FindUser(s, Some(name), None), Users(s, name));
    NewSessionStarts(s, env, NewRecord(Some(name), false, env.argv, Switch));
  }

  /** A new session whose child is started at once. */
  lemma NewSessionStarts(s: Seat, env: Env, r: Record)
    requires r.life.pid == 0
    ensures var n := |s.all|;
            var how := if n in env.starts then env.starts[n] else Life.Forks(1, []);
            var life := Life.Step(r.life, Life.Starts(how));
            && StartLife(AddSession(s, r), env, n) == s.(all := s.all + [r.(life := life)], sessions := s.sessions + [n])
            && (ChildStarts(AddSession(s, r), env, n) <==> life.pid > 0)
  {
    hide Life.OnStart;
    var t := AddSession(s, r);
    assert forall q: Record :: (s.all + [r])[|s.all| := q] == s.all + [q];
  }

  // ------------------------------------------------------------------ switch to the guest

  /** Refused without switching or without guests; then nothing changes. */
  lemma GuestRefused(s: Seat, env: Env)
    requires !s.config.canSwitch || !s.config.allowGuest
    ensures SwitchToGuest(s, env) == Outcome(s, false)
  {
  }

  /** A living guest session is shown. */
  lemma GuestShows(s: Seat, env: Env, x: SessionId)
    requires Listed(s) && s.config.canSwitch && s.config.allowGuest && FirstWith(s, x, Guests(s))
    ensures SwitchToGuest(s, env).ok && Shows(s, SwitchToGuest(s, env).seat, x)
  {
    hide SetActive, FindGuest, Shows, Finds;
    FindersFind(s, []);
    FirstOnly(s, x, FindGuest(s), Guests(s));
    SetActiveShows(s, x);
  }

  /** Otherwise a guest session is made, awaited and given a display server; without a session to run nothing happens. */
  lemma GuestIsMade(s: Seat, env: Env)
    requires Listed(s) && s.config.canSwitch && s.config.allowGuest && forall x <- s.sessions :: !AliveGuest(s, x)
    ensures !env.sessionConfigured ==> SwitchToGuest(s, env) == Outcome(s, false)
    ensures env.sessionConfigured ==> AwaitsSession(s, env, SwitchToGuest(s, env), None, true)
  {
    hide FindGuest, Finds, GiveServer, AwaitsSession;
    FindersFind(s, []);
    NoneFirst(s, FindGuest(s), Guests(s));
    SessionAwaited(s, env, None, true);
  }

  /** A new session is listed, awaited and given its display server; nothing is shown, stopped or said. */
  ghost predicate AwaitsSession(s: Seat, env: Env, o: Outcome, username: Option<Text>, isGuest: bool) {
    var t, n := o.seat, |s.all|;
    && t.all == s.all + [Record(Life.New(username, isGuest).(argv := env.argv), Auto, false, 0, Factory(s, env, n))]
    && t.sessions == s.sessions + [n] && t.toActivate == Some(n)
    && (o.ok <==> Factory(s, env, n).Some?
                  && (ServerAt(s, Factory(s, env, n).value).ready || Factory(s, env, n).value in env.serverStarts))
    && t.active == s.active && t.next == s.next && t.replacement == s.replacement && t.log == s.log && t.stopping == s.stopping
  }

  lemma SessionAwaited(s: Seat, env: Env, username: Option<Text>, isGuest: bool)
    ensures AwaitsSession(s, env, GiveServer(AddSession(s, NewRecord(username, isGuest, env.argv, Auto)).(toActivate := Some(|s.all|)), env, |s.all|),
                          username, isGuest)
  {
    hide GiveServer;
    GivenAll(AddSession(s, NewRecord(username, isGuest, env.argv, Auto)).(toActivate := Some(|s.all|)), env, |s.all|);
  }
}
