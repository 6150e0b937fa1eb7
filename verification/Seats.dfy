/**
  The seat (src/seat.c): sessions and display servers that come and go, which session is active,
  switching, locking, unlocking and shutdown. Sessions, servers and greeters are numbered in the
  order in which they are made; a record outlives its place in the seat's lists.

  Each callback is one step. A STOPPED or READY signal that the source may deliver from inside
  another call is delivered as a step of its own.
 */
module Seats {
  import opened Octets
  import opened Lists
  import opened SessionLife
  import LoginMessages
  import GreeterDaemon
  import ChildPipe

  type SessionId = nat
  type ServerId = nat
  type GreeterId = nat

  /** Who acts when a session's authentication completes. */
  datatype Handler =
    | Auto        // session_authentication_complete_cb
    | Switch      // switch_authentication_complete_cb
    | ByGreeter   // the greeter that asked for the session

  datatype Record = Record(life: State, handler: Handler, isGreeter: bool, greeter: GreeterId, server: Option<ServerId>)

  /** `launched`: its process runs or its end has yet to be signalled, so STOPPED can come from it. */
  datatype Server = Server(ready: bool, stopping: bool, canShare: bool, parent: Option<ServerId>, launched: bool)

  datatype Greeter = Greeter(daemon: GreeterDaemon.State, inSession: bool)

  /** What the seat did that others can see, oldest first. */
  datatype Entry =
    | Reported(session: SessionId, username: Option<Text>, result: i32)
    | Unlocked(target: SessionId, username: Option<Text>)
    | Locked(target: SessionId)
    | Activated(target: SessionId)
    | Idled(target: SessionId)
    | Reset(target: SessionId)
    | Removed(target: SessionId)
    | SeatStopped(nSessions: nat, nServers: nat)

  datatype Config = Config(canSwitch: bool, share: bool, allowGuest: bool)

  datatype Seat = Seat(
    config: Config,
    all: seq<Record>,           // every session made so far
    allServers: seq<Server>,
    greeters: seq<Greeter>,
    sessions: seq<SessionId>,
    servers: seq<ServerId>,
    active: Option<SessionId>,
    next: Option<SessionId>,
    toActivate: Option<SessionId>,
    replacement: Option<SessionId>,
    started: bool,
    stopping: bool,
    stopped: bool,
    log: seq<Entry>)

  /** A display server from the seat's factory: a new one, or one that exists already. */
  datatype Choice = Fresh(canShare: bool, parent: Option<ServerId>) | Existing(id: ServerId)

  /** What the rest of the system answers during one step. */
  datatype Env = Env(
    starts: map<SessionId, Start>,       // how a session's child starts
    serverStarts: set<ServerId>,         // display servers whose start succeeds
    launches: set<ServerId>,             // those that launch a process then, or signal that it failed
    scriptFails: set<SessionId>,         // sessions whose setup script fails
    displayScriptFails: bool,
    choices: map<SessionId, Choice>,     // the display server made for a session; none: NULL
    greeterConfigured: bool,
    sessionConfigured: bool,
    userKnown: bool,
    serviceKnown: bool,
    sameType: bool,                      // greeter's server and session are of one type
    visible: Option<SessionId>,          // seat_get_active_session
    neverUnused: set<ServerId>,          // servers that the seat's class counts as used anyway
    greeterUser: Option<Text>,
    argv: Option<seq<Option<Text>>>)

  datatype Outcome = Outcome(seat: Seat, ok: bool)

  const NOBODY := Record(New(None, false), Auto, false, 0, None)
  const NO_SERVER := Server(false, true, false, None, false)
  const COMMAND := ChildPipe.CLEAN_STOP

  // ------------------------------------------------------------------ records

  function At(s: Seat, x: SessionId): Record {
    if x < |s.all| then s.all[x] else NOBODY
  }

  function ServerAt(s: Seat, d: ServerId): Server {
    if d < |s.allServers| then s.allServers[d] else NO_SERVER
  }

  function GreeterAt(s: Seat, g: GreeterId): Greeter {
    if g < |s.greeters| then s.greeters[g]
    else Greeter(GreeterDaemon.State(false, false, None, 0, None, None, false, false, []), false)
  }

  function Put(s: Seat, x: SessionId, r: Record): Seat {
    if x < |s.all| then s.(all := s.all[x := r]) else s
  }

  predicate IsStopping(s: Seat, x: SessionId) {
    At(s, x).life.stopping
  }

  predicate IsAuthenticated(s: Seat, x: SessionId) {
    Authenticated(At(s, x).life)
  }

  predicate IsResettable(s: Seat, x: SessionId) {
    At(s, x).isGreeter && GreeterAt(s, At(s, x).greeter).daemon.resettable
  }

  function Noted(s: Seat, e: Entry): Seat {
    s.(log := s.log + [e])
  }

  function StopSession(s: Seat, x: SessionId): Seat {
    var r := At(s, x);
    Put(s, x, r.(life := OnStop(r.life)))
  }

  /** Every session that passes a test is stopped. */
  function StopWhere(s: Seat, p: SessionId -> bool): Seat {
    s.(all := seq(|s.all|, i requires 0 <= i < |s.all| => if p(i) then s.all[i].(life := OnStop(s.all[i].life)) else s.all[i]))
  }

  function SetServer(s: Seat, x: SessionId, d: Option<ServerId>): Seat {
    Put(s, x, At(s, x).(server := d))
  }

  function StopServer(s: Seat, d: Option<ServerId>): Seat {
    if d.Some? && d.value < |s.allServers|
    then s.(allServers := s.allServers[d.value := s.allServers[d.value].(stopping := true)]) else s
  }

  function StopAllServers(s: Seat): Seat {
    s.(allServers := seq(|s.allServers|, i requires 0 <= i < |s.allServers| =>
        if i in s.servers then s.allServers[i].(stopping := true) else s.allServers[i]))
  }

  // ------------------------------------------------------------------ finding

  function First(ids: seq<nat>, p: nat -> bool): (r: Option<nat>)
    ensures r.Some? ==> r.value in ids && p(r.value)
    ensures r.None? ==> forall x <- ids :: !p(x)
  {
    if ids == [] then None else if p(ids[0]) then Some(ids[0]) else First(ids[1..], p)
  }

  // The tests that the loops over the sessions make.

  function LivingGreeter(s: Seat): SessionId -> bool {
    (x: SessionId) => !IsStopping(s, x) && At(s, x).isGreeter
  }

  function LivingResettable(s: Seat): SessionId -> bool {
    (x: SessionId) => !IsStopping(s, x) && IsResettable(s, x)
  }

  function LivingUser(s: Seat, username: Option<Text>, ignore: Option<SessionId>): SessionId -> bool {
    (x: SessionId) => Some(x) != ignore && !IsStopping(s, x) && At(s, x).life.username == username
  }

  function LivingGuest(s: Seat): SessionId -> bool {
    (x: SessionId) => !IsStopping(s, x) && At(s, x).life.isGuest
  }

  function AnyGreeter(s: Seat): SessionId -> bool {
    (x: SessionId) => At(s, x).isGreeter
  }

  function LivingWith(s: Seat, d: Option<ServerId>): SessionId -> bool {
    (x: SessionId) => At(s, x).server == d && !IsStopping(s, x)
  }

  function WaitingWith(s: Seat, d: ServerId): SessionId -> bool {
    (x: SessionId) => At(s, x).server == Some(d) && !IsStopping(s, x) && !At(s, x).life.commandRun
  }

  function OtherGreeters(s: Seat, x: SessionId): SessionId -> bool {
    (y: SessionId) => y in s.sessions && y != x && !IsStopping(s, y) && At(s, y).isGreeter && !IsResettable(s, y)
  }

  function LivingOn(s: Seat, d: ServerId): SessionId -> bool {
    (x: SessionId) => x in s.sessions && At(s, x).server == Some(d) && !IsStopping(s, x)
  }

  function ListedIn(s: Seat): SessionId -> bool {
    (x: SessionId) => x in s.sessions
  }

  function FindGreeter(s: Seat): Option<SessionId> {
    First(s.sessions, LivingGreeter(s))
  }

  function FindResettable(s: Seat): Option<SessionId> {
    First(s.sessions, LivingResettable(s))
  }

  function FindUser(s: Seat, username: Option<Text>, ignore: Option<SessionId>): Option<SessionId> {
    if username.None? then None else First(s.sessions, LivingUser(s, username, ignore))
  }

  function FindGuest(s: Seat): Option<SessionId> {
    First(s.sessions, LivingGuest(s))
  }

  /** `get_greeter_session`: whatever the greeter, the first greeter session of the seat. */
  function GreeterSession(s: Seat): Option<SessionId> {
    First(s.sessions, AnyGreeter(s))
  }

  function FindOnServer(s: Seat, d: Option<ServerId>): Option<SessionId> {
    First(s.sessions, LivingWith(s, d))
  }

  function FindWaitingOnServer(s: Seat, d: ServerId): Option<SessionId> {
    First(s.sessions, WaitingWith(s, d))
  }

  predicate CanShare(s: Seat, d: Option<ServerId>) {
    s.config.share && d.Some? && ServerAt(s, d.value).canShare
  }

  predicate IsUsed(s: Seat, d: ServerId) {
    exists x <- s.sessions :: var e := At(s, x).server; e.Some? && (e.value == d || ServerAt(s, e.value).parent == Some(d))
  }

  // ------------------------------------------------------------------ making

  function AddSession(s: Seat, r: Record): Seat {
    s.(all := s.all + [r], sessions := s.sessions + [|s.all|])
  }

  function NewRecord(username: Option<Text>, isGuest: bool, argv: Option<seq<Option<Text>>>, handler: Handler): Record {
    Record(New(username, isGuest).(argv := argv), handler, false, 0, None)
  }

  /** `create_greeter_session`; the new session is the last one. */
  function CreateGreeter(s: Seat, env: Env): Seat {
    var r := NewRecord(env.greeterUser, false, env.argv, Auto).(isGreeter := true, greeter := |s.greeters|);
    AddSession(s.(greeters := s.greeters + [NewGreeter(s, false)]), r)
  }

  function NewGreeter(s: Seat, inSession: bool): Greeter {
    Greeter(GreeterDaemon.State(s.config.allowGuest, false, None, 0, None, None, false, false, []), inSession)
  }

  datatype Made = Made(seat: Seat, server: Option<ServerId>)

  /** `create_display_server`: what the factory returns is listed unless it is already. */
  function CreateServer(s: Seat, env: Env, x: SessionId): Made {
    if x !in env.choices then Made(s, None)
    else match env.choices[x]
      case Fresh(canShare, parent) =>
        var d := |s.allServers|;
        Made(s.(allServers := s.allServers + [Server(false, false, canShare, parent, false)], servers := s.servers + [d]), Some(d))
      case Existing(d) =>
        if d >= |s.allServers| then Made(s, None)
        else Made(if d in s.servers then s else s.(servers := s.servers + [d]), Some(d))
  }

  /** `start_display_server`: ready already, or started now. */
  predicate ServerStarts(s: Seat, env: Env, d: Option<ServerId>) {
    d.Some? && (ServerAt(s, d.value).ready || d.value in env.serverStarts)
  }

  function Launch(s: Seat, d: ServerId): Seat {
    if d < |s.allServers| then s.(allServers := s.allServers[d := s.allServers[d].(launched := true)]) else s
  }

  /**
    A display server that is not ready is started. One that waits for its compositor, and a
    compositor that fails to start, launch nothing and signal nothing.
   */
  function StartServer(s: Seat, env: Env, d: Option<ServerId>): Seat {
    if d.Some? && !ServerAt(s, d.value).ready && d.value in env.launches then Launch(s, d.value) else s
  }

  /** A display server is made for a session and started. */
  function GiveServer(s: Seat, env: Env, x: SessionId): Outcome {
    var m := CreateServer(s, env, x);
    var t := SetServer(m.seat, x, m.server);
    Outcome(StartServer(t, env, m.server), ServerStarts(t, env, m.server))
  }

  // ------------------------------------------------------------------ activating and stopping

  function IdlePrevious(s: Seat, x: SessionId): Seat {
    if s.active.Some? && s.active.value in s.sessions && s.active.value != x && !IsStopping(s, s.active.value)
       && IsResettable(s, s.active.value)
    then Noted(s, Idled(s.active.value)) else s
  }

  function LockPrevious(s: Seat, x: SessionId): Seat {
    if s.active.Some? && s.active.value != x && !At(s, s.active.value).isGreeter then Noted(s, Locked(s.active.value)) else s
  }

  /**
    `seat_set_active_session`: the previous greeter idles if it can be reset, every other
    greeter is stopped, a previous user session is locked.
   */
  function SetActive(s: Seat, x: SessionId): Seat {
    var t := IdlePrevious(s, x);
    var u := LockPrevious(StopWhere(t, OtherGreeters(t, x)), x);
    Noted(u, Activated(x)).(active := Some(x))
  }

  function CheckStopped(s: Seat): Seat {
    if s.stopping && !s.stopped && s.servers == [] && s.sessions == []
    then Noted(s, SeatStopped(|s.sessions|, |s.servers|)).(stopped := true) else s
  }

  /** `seat_stop` with `seat_real_stop`. */
  function StopSeat(s: Seat): Seat {
    if s.stopping then s
    else
      var t := CheckStopped(s.(stopping := true));
      if t.stopped then t else StopWhere(StopAllServers(t), ListedIn(s))
  }

  // ------------------------------------------------------------------ starting and running

  function HowStarts(env: Env, x: SessionId): Start {
    if x in env.starts then env.starts[x] else Forks(1, [])
  }

  function StartLife(s: Seat, env: Env, x: SessionId): Seat {
    Put(s, x, At(s, x).(life := OnStart(At(s, x).life, HowStarts(env, x))))
  }

  /** What `session_start` returns. */
  predicate ChildStarts(s: Seat, env: Env, x: SessionId) {
    At(s, x).life.pid == 0 && OnStart(At(s, x).life, HowStarts(env, x)).pid > 0
  }

  function StartGreeter(s: Seat, env: Env, x: SessionId): Seat {
    var t := StartLife(s, env, x);
    if ChildStarts(s, env, x) then t else StopServer(t, At(t, x).server)
  }

  /** `switch_to_greeter_from_failed_session`: a new display server goes to the failed session. */
  function FromFailed(s: Seat, env: Env, x: SessionId): Seat {
    var found := FindResettable(s);
    if found.Some? then StopSession(SetActive(Noted(s, Reset(found.value)), found.value), x)
    else
      var g := |s.all|;
      var t := CreateGreeter(s, env).(toActivate := Some(g));
      var d := At(s, x).server;
      var given := GiveServer(t, env, x);
      var u := if CanShare(t, d) then SetServer(t, g, d) else if given.ok then given.seat else StopSeat(given.seat);
      StopSession(StartGreeter(u, env, g), x)
  }

  function StartSession(s: Seat, env: Env, x: SessionId): Seat {
    if At(s, x).isGreeter then StartGreeter(s, env, x)
    else if ChildStarts(s, env, x) then StartLife(s, env, x)
    else FromFailed(StartLife(s, env, x), env, x)
  }

  function RunLife(s: Seat, x: SessionId): Seat {
    Put(s, x, At(s, x).(life := Step(At(s, x).life, Runs(At(s, x).server.Some?, COMMAND))))
  }

  function RunSession(s: Seat, env: Env, x: SessionId): Seat {
    if x in env.scriptFails then FromFailed(s, env, x)
    else
      var t := RunLife(s, x);
      if s.toActivate == Some(x) then SetActive(t, x).(toActivate := None)
      else if s.active.Some? then Noted(t, Activated(s.active.value)) else t
  }

  /** A session that was waiting for a greeter or a display server goes on. */
  function GoOn(s: Seat, env: Env, x: SessionId): Seat {
    if IsAuthenticated(s, x) then RunSession(s, env, x) else StartSession(s, env, x)
  }

  // ------------------------------------------------------------------ callbacks of sessions

  function AutoComplete(s: Seat, env: Env, x: SessionId): Seat {
    if IsAuthenticated(s, x) then
      var y := FindUser(s, At(s, x).life.username, Some(x));
      if y.Some? then StopSession(SetActive(s, y.value), x) else RunSession(s, env, x)
    else if !At(s, x).isGreeter then FromFailed(s, env, x)
    else StopSession(s, x)
  }

  function Unlock(s: Seat, x: SessionId): Seat {
    Noted(s, Unlocked(x, At(s, x).life.username))
  }

  function SwitchComplete(s: Seat, env: Env, x: SessionId): Seat {
    if IsAuthenticated(s, x) then
      var y := FindUser(s, At(s, x).life.username, Some(x));
      if y.Some? then StopSession(SetActive(Unlock(s, y.value), y.value), x)
      else GiveServer(s.(toActivate := Some(x)), env, x).seat
    else
      var t := StopSession(s, x);
      var found := FindResettable(t);
      if found.Some? then SetActive(Noted(t, Reset(found.value)), found.value)
      else
        var g := |t.all|;
        GiveServer(CreateGreeter(t, env).(toActivate := Some(g)), env, g).seat
  }

  /** AUTHENTICATION_COMPLETE; the seat has let go of a session that is off its list. */
  function OnComplete(s: Seat, env: Env, x: SessionId): Seat {
    if x !in s.sessions || At(s, x).handler.ByGreeter? then s
    else if At(s, x).handler.Auto? then AutoComplete(s, env, x)
    else SwitchComplete(s, env, x)
  }

  function Unless(p: Option<SessionId>, x: SessionId): Option<SessionId> {
    if p == Some(x) then None else p
  }

  function RemoveSession(s: Seat, x: SessionId): Seat {
    s.(sessions := Without(s.sessions, x), active := Unless(s.active, x), next := Unless(s.next, x),
       toActivate := Unless(s.toActivate, x))
  }

  /** `seat_switch_to_greeter`. */
  function SwitchToGreeter(s: Seat, env: Env): Outcome {
    if !s.config.canSwitch && s.sessions != [] then Outcome(s, false)
    else
      var found := FindGreeter(s);
      if found.Some? then Outcome(SetActive(s, found.value), true)
      else if !env.greeterConfigured then Outcome(s, false)
      else
        var g := |s.all|;
        var t := CreateGreeter(s, env);
        if CreateServer(t, env, g).server.None? then Outcome(t.(toActivate := None), false)
        else GiveServer(t.(toActivate := Some(g)), env, g)
  }

  function GreeterOrStop(s: Seat, env: Env): Seat {
    var o := SwitchToGreeter(s, env);
    if o.ok then o.seat else StopSeat(o.seat)
  }

  function AfterStopped(s: Seat, env: Env, x: SessionId): Seat {
    var r := At(s, x);
    var starts := r.isGreeter && GreeterAt(s, r.greeter).daemon.startSession;
    if r.isGreeter && s.replacement.Some? then GoOn(s.(replacement := None), env, s.replacement.value)
    else if CanShare(s, r.server) && starts then
      var y := FindOnServer(s, r.server);
      if y.Some? then GoOn(s, env, y.value) else s
    else if r.isGreeter && !starts && r.server.Some? && s.servers == [r.server.value] then StopSeat(s)
    else if !r.isGreeter && env.visible == Some(x) then GreeterOrStop(s, env)
    else s
  }

  /** `session_stopped_cb`. */
  function SessionStopped(s: Seat, env: Env, x: SessionId): Seat {
    var t := RemoveSession(s, x);
    if s.stopping then CheckStopped(t)
    else
      var u := Noted(AfterStopped(t, env, x), Removed(x));
      var d := At(s, x).server;
      if d.Some? && !ServerAt(u, d.value).stopping && d.value !in env.neverUnused && !IsUsed(u, d.value)
      then StopServer(u, d) else u
  }

  // ------------------------------------------------------------------ callbacks of display servers

  /** The display server has ended and leaves the list. */
  function RemoveServer(s: Seat, d: ServerId): Seat {
    s.(servers := Without(s.servers, d),
       allServers := if d < |s.allServers| then s.allServers[d := s.allServers[d].(launched := false)] else s.allServers)
  }

  /** `display_server_stopped_cb`. */
  function ServerStopped(s: Seat, env: Env, d: ServerId): Seat {
    var t := RemoveServer(s, d);
    if s.stopping || !s.started then CheckStopped(t)
    else
      var stopped := StopWhere(t, LivingOn(s, d));
      var failed := exists x <- s.sessions :: LivingOn(s, d)(x) && At(s, x).isGreeter && At(s, x).life.pid == 0;
      var u := if failed && t.servers == [] then StopSeat(stopped) else stopped;
      if u.stopping then u
      else if env.visible.None? || At(u, env.visible.value).server == Some(d) then GreeterOrStop(u, env)
      else u
  }

  /** `display_server_ready_cb`. */
  function ServerReady(s: Seat, env: Env, d: ServerId): Seat {
    var t := if d < |s.allServers| then s.(allServers := s.allServers[d := s.allServers[d].(ready := true)]) else s;
    if env.displayScriptFails then StopServer(t, Some(d))
    else
      var x := FindWaitingOnServer(t, d);
      if x.Some? then GoOn(t, env, x.value) else StopServer(t, Some(d))
  }

  // ------------------------------------------------------------------ callbacks of greeters

  function SetDaemon(s: Seat, g: GreeterId, daemon: GreeterDaemon.State): Seat {
    if g < |s.greeters| then s.(greeters := s.greeters[g := s.greeters[g].(daemon := daemon)]) else s
  }

  function World(s: Seat, env: Env, g: GreeterId, created: Option<SessionId>): GreeterDaemon.World {
    var held := GreeterAt(s, g).daemon.session;
    GreeterDaemon.World(created, env.serviceKnown, held.Some? && IsAuthenticated(s, held.value), false, None, None)
  }

  /** `reset_session` stops the session that the greeter was authenticating. */
  function StopHeld(s: Seat, g: GreeterId): Seat {
    var held := GreeterAt(s, g).daemon.session;
    if held.Some? then StopSession(s, held.value) else s
  }

  function NameChanged(s: Seat, g: GreeterId, username: Option<Text>): Seat {
    if GreeterAt(s, g).inSession then s else s.(next := FindUser(s, username, s.active))
  }

  /** CREATE_SESSION and `session_start` for a greeter; the new session is the last one. */
  function CreateForGreeter(s: Seat, env: Env, g: GreeterId, username: Option<Text>, isGuest: bool): Seat {
    var host := GreeterSession(s);
    var server := if GreeterAt(s, g).inSession || host.None? then None else At(s, host.value).server;
    StartLife(AddSession(s, NewRecord(username, isGuest, None, ByGreeter).(server := server)), env, |s.all|)
  }

  /** `greeter_start_session_cb` on a guest session or on the session that the greeter gave up. */
  function StartFor(s: Seat, env: Env, g: GreeterId, x: SessionId): Outcome {
    var t := s.(toActivate := Some(x));
    var existing := FindUser(t, At(t, x).life.username, None);
    if existing.Some? && existing.value != x then
      Outcome(SetActive(Unlock(StopSession(t, x), existing.value), existing.value), true)
    else
      var host := GreeterSession(t);
      var d := if host.Some? then At(t, host.value).server else None;
      if host.Some? && !GreeterAt(t, g).daemon.resettable && CanShare(t, d) && env.sameType
      then Outcome(StopSession(SetServer(t, x, d), host.value), true)
      else GiveServer(t, env, x)
  }

  function StartRequested(s: Seat, env: Env, g: GreeterId): Outcome {
    var daemon := GreeterAt(s, g).daemon;
    if daemon.guest then
      if !env.sessionConfigured then Outcome(s, false)
      else StartFor(AddSession(s, NewRecord(None, true, env.argv, Auto)), env, g, |s.all|)
    else if daemon.session.None? || !env.sessionConfigured then Outcome(s, false)
    else
      var x := daemon.session.value;
      StartFor(Put(s, x, At(s, x).(life := At(s, x).life.(argv := env.argv))), env, g, x)
  }

  function GreeterMessage(s: Seat, env: Env, g: GreeterId, r: LoginMessages.Request): Seat {
    var daemon := GreeterAt(s, g).daemon;
    var handled := GreeterDaemon.Handle(daemon, r, World(s, env, g, Some(|s.all|))).state;
    match r
    case Authenticate(_, username) =>
      var name := GreeterDaemon.NullIfEmpty(username);
      SetDaemon(CreateForGreeter(NameChanged(StopHeld(s, g), g, name), env, g, name, false), g, handled)
    case AuthenticateAsGuest(_) => SetDaemon(StopHeld(s, g), g, handled)
    case AuthenticateRemote(_, _, username) =>
      var t := StopHeld(s, g);
      SetDaemon(if env.serviceKnown then CreateForGreeter(t, env, g, GreeterDaemon.NullIfEmpty(username), true) else t, g, handled)
    case CancelAuthentication => SetDaemon(StopHeld(s, g), g, handled)
    case StartSession(_) =>
      if GreeterDaemon.MayStart(daemon, World(s, env, g, None))
      then SetDaemon(StartRequested(s, env, g).seat, g, handled) else s
    case _ => SetDaemon(s, g, handled)
  }

  // ------------------------------------------------------------------ requests

  function SwitchToUser(s: Seat, env: Env, username: Text): Outcome {
    if !s.config.canSwitch then Outcome(s, false)
    else
      var found := FindUser(s, Some(username), None);
      if found.Some? && found == s.active then Outcome(s, true)
      else if !env.userKnown || !env.sessionConfigured then Outcome(s, false)
      else
        var x := |s.all|;
        var t := AddSession(s, NewRecord(Some(username), false, env.argv, Switch));
        Outcome(StartLife(t, env, x), ChildStarts(t, env, x))
  }

  function SwitchToGuest(s: Seat, env: Env): Outcome {
    if !s.config.canSwitch || !s.config.allowGuest then Outcome(s, false)
    else
      var found := FindGuest(s);
      if found.Some? then Outcome(SetActive(s, found.value), true)
      else if !env.sessionConfigured then Outcome(s, false)
      else
        var x := |s.all|;
        GiveServer(AddSession(s, NewRecord(None, true, env.argv, Auto)).(toActivate := Some(x)), env, x)
  }

  /** `seat_lock`. */
  function Lock(s: Seat, env: Env): Outcome {
    if !s.config.canSwitch then Outcome(s, false)
    else
      var found := FindResettable(s);
      if found.Some? then Outcome(SetActive(Noted(s, Reset(found.value)), found.value), true)
      else
        var before := FindGreeter(s);
        var t := if before.Some? then StopSession(s, before.value) else s;
        if !env.greeterConfigured then Outcome(t, false)
        else
          var g := |s.all|;
          var u := CreateGreeter(t, env).(toActivate := Some(g));
          if before.Some? then Outcome(SetServer(u, g, At(s, before.value).server).(replacement := Some(g)), true)
          else GiveServer(u, env, g)
  }

  datatype Autologin = NoAutologin | User(name: Text) | Guest

  /** A session is shown first, or given up with its server. */
  function ShowFirst(s: Seat, env: Env, x: SessionId): Outcome {
    var o := GiveServer(s.(toActivate := Some(x)), env, x);
    if o.ok then o else Outcome(StopServer(StopSession(o.seat, x), At(o.seat, x).server), false)
  }

  /** `seat_start` with `seat_real_start`. */
  function StartSeat(s: Seat, env: Env, login: Autologin, inBackground: bool): Seat {
    var x := |s.all|;
    var made := env.sessionConfigured && (login.Guest? || (login.User? && env.userKnown));
    var t := if !made then s
             else AddSession(s, if login.Guest? then NewRecord(None, true, env.argv, Auto)
                                else NewRecord(Some(login.name), false, env.argv, Auto));
    var first := if made && !inBackground then ShowFirst(t, env, x) else Outcome(t, false);
    if first.ok then first.seat.(started := true)
    else if !env.greeterConfigured then first.seat
    else
      var g := |first.seat.all|;
      var second := ShowFirst(CreateGreeter(first.seat, env), env, g);
      if !second.ok then StopSeat(second.seat)
      else (if made && inBackground then GiveServer(second.seat, env, x).seat else second.seat).(started := true)
  }

  // ------------------------------------------------------------------ steps

  datatype Event =
    | StartsSeat(login: Autologin, inBackground: bool)
    | StopsSeat
    | SwitchesToGreeter
    | SwitchesToUser(name: Text)
    | SwitchesToGuest
    | Locks
    | ActivatedOutside(session: SessionId)
    | OpensGreeter                                        // an in-session greeter
    | Message(greeter: GreeterId, request: LoginMessages.Request)
    | ChildReports(session: SessionId, report: ChildPipe.Report)
    | ChildBreaksOff(session: SessionId, username: Option<Text>)
    | ChildHangsUp(session: SessionId)
    | ChildExits(session: SessionId)
    | StopDelivered(session: SessionId)                   // STOPPED of a session without a child
    | ServerLaunches(server: ServerId)                    // its compositor is ready at last
    | ServerGetsReady(server: ServerId)
    | ServerStops(server: ServerId)

  function OnChildReport(s: Seat, env: Env, x: SessionId, r: ChildPipe.Report): Seat {
    var life := At(s, x).life;
    if !life.listening then s
    else
      var t := Put(s, x, At(s, x).(life := OnReport(life, r)));
      if r.Done? then OnComplete(Noted(t, Reported(x, r.username, r.result)), env, x) else t
  }

  function OnChildExit(s: Seat, env: Env, x: SessionId): Seat {
    var life := At(s, x).life;
    if life.pid <= 0 then s
    else
      var t := Put(s, x, At(s, x).(life := OnExit(life)));
      var u := if MidAuth(life) then OnComplete(t, env, x) else t;
      if x in u.sessions then SessionStopped(u, env, x) else u
  }

  /** The child has not reported how its authentication ended. */
  predicate MidAuth(life: State) {
    life.authStarted && !life.authComplete
  }

  predicate HasStopped(s: Seat, x: SessionId) {
    x in s.sessions && IsStopping(s, x) && At(s, x).life.pid <= 0
  }

  function Next(s: Seat, env: Env, e: Event): (t: Seat) {
    match e
    case StartsSeat(login, inBackground) => StartSeat(s, env, login, inBackground)
    case StopsSeat => StopSeat(s)
    case SwitchesToGreeter => SwitchToGreeter(s, env).seat
    case SwitchesToUser(username) => SwitchToUser(s, env, username).seat
    case SwitchesToGuest => SwitchToGuest(s, env).seat
    case Locks => Lock(s, env).seat
    case ActivatedOutside(x) => if x in s.sessions then s.(active := Some(x)) else s
    case OpensGreeter => s.(greeters := s.greeters + [NewGreeter(s, true)])
    case Message(g, r) => if g < |s.greeters| then GreeterMessage(s, env, g, r) else s
    case ChildReports(x, r) => OnChildReport(s, env, x, r)
    case ChildBreaksOff(x, u) => Put(s, x, At(s, x).(life := Step(At(s, x).life, BreaksOff(u))))
    case ChildHangsUp(x) => Put(s, x, At(s, x).(life := Step(At(s, x).life, HangsUp)))
    case ChildExits(x) => OnChildExit(s, env, x)
    case StopDelivered(x) => if HasStopped(s, x) then SessionStopped(s, env, x) else s
    case ServerLaunches(d) => Launch(s, d)
    case ServerGetsReady(d) => if d in s.servers then ServerReady(s, env, d) else s
    case ServerStops(d) => if d in s.servers && ServerAt(s, d).launched then ServerStopped(s, env, d) else s
  }

  datatype Happening = Happening(env: Env, event: Event)

  function Run(s: Seat, hs: seq<Happening>): (t: Seat)
    decreases |hs|
  {
    if hs == [] then s else Run(Next(s, hs[0].env, hs[0].event), hs[1..])
  }

  function Initial(config: Config): Seat {
    Seat(config, [], [], [], [], [], None, None, None, None, false, false, false, [])
  }
}
