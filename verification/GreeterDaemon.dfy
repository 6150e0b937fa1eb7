/**
  The daemon's side of one greeter (src/greeter.c): who is being authenticated, what may be
  started, and what is answered. The seat's signal handlers and PAM are inputs.
 */
module GreeterDaemon {
  import opened Octets
  import opened LoginMessages

  type SessionId = nat

  const PAM_SUCCESS: u32 := 0
  const PAM_SYSTEM_ERR: u32 := 4
  const PAM_USER_UNKNOWN: u32 := 10
  const API_VERSION: u32 := 1

  datatype State = State(
    allowGuest: bool,
    guest: bool,                // a guest login has been granted
    session: Option<SessionId>, // the session that PAM works on for the greeter
    number: u32,                // the attempt number of that session
    remote: Option<Text>,
    activeUsername: Option<Text>,
    resettable: bool,
    startSession: bool,
    hints: seq<Hint>)

  /** What the rest of the daemon answers while one message is handled. */
  datatype World = World(
    created: Option<SessionId>, // the CREATE_SESSION signal
    service: bool,              // the remote session names a PAM service
    authenticated: bool,        // session_get_is_authenticated of the authentication session
    started: bool,              // the START_SESSION signal
    dir: Option<Text>,          // the shared data directory
    version: Option<Text>)

  datatype Result = Result(state: State, replies: seq<Reply>)

  function NullIfEmpty(t: Option<Text>): Option<Text> {
    if OrEmpty(t) == [] then None else t
  }

  function ResetSession(g: State): State {
    g.(remote := None, session := None, guest := false)
  }

  function Handle(g: State, r: Request, w: World): (result: Result) {
    match r
    case Connect(_, resettable, api) =>
      Result(g.(resettable := resettable),
             [if api == 0 then Connected(w.version, g.hints)
              else ConnectedV2(if api <= API_VERSION then api else API_VERSION, w.version, g.hints)])
    case Authenticate(number, username) =>
      Result(ResetSession(g).(activeUsername := NullIfEmpty(username), number := number, session := w.created),
             if w.created.None? then [EndAuthentication(number, Some([]), PAM_USER_UNKNOWN)] else [])
    case AuthenticateAsGuest(number) =>
      Result(ResetSession(g).(guest := g.allowGuest),
             [EndAuthentication(number, Some([]), if g.allowGuest then PAM_SUCCESS else PAM_USER_UNKNOWN)])
    case AuthenticateRemote(number, session, _) =>
      if !w.service then Result(ResetSession(g), [EndAuthentication(number, Some([]), PAM_SYSTEM_ERR)])
      else
        Result(ResetSession(g).(number := number, remote := session, session := w.created),
               if w.created.None? then [EndAuthentication(number, Some([]), PAM_USER_UNKNOWN)] else [])
    case StartSession(_) =>
      if MayStart(g, w) then
        // The seat's handler takes the authentication session unless the guest account logs in.
        Result(g.(startSession := true, session := if g.guest then g.session else None),
               [SessionResult(if w.started then 0 else 1)])
      else Result(g, [SessionResult(1)])
    case CancelAuthentication => Result(if g.session.None? then g else ResetSession(g), [])
    case EnsureSharedDir(_) => Result(g, [SharedDirResult(w.dir)])
    case ContinueAuthentication(_) => Result(g, [])
    case SetLanguage(_) => Result(g, [])
  }

  predicate MayStart(g: State, w: World) {
    g.guest || (g.session.Some? && w.authenticated)
  }

  /** `authentication_complete_cb`: a success for a user without an account is reported as unknown. */
  function ReportedResult(result: u32, known: bool): u32 {
    if result == PAM_SUCCESS && !known then PAM_USER_UNKNOWN else result
  }

  /** The greeter object: its handlers, with their assignments in the order of the source. */
  class Greeter {
    const allowGuest: bool
    var guest: bool
    var session: Option<SessionId>
    var number: u32
    var remote: Option<Text>
    var activeUsername: Option<Text>
    var resettable: bool
    var startSession: bool
    var hints: seq<Hint>
    var sent: seq<Reply>

    ghost function View(): State
      reads this
    {
      State(allowGuest, guest, session, number, remote, activeUsername, resettable, startSession, hints)
    }

    constructor (allowGuest: bool, hints: seq<Hint>)
      ensures View() == State(allowGuest, false, None, 0, None, None, false, false, hints) && sent == []
    {
      this.allowGuest, this.hints := allowGuest, hints;
      guest, session, number, remote, activeUsername := false, None, 0, None, None;
      resettable, startSession, sent := false, false, [];
    }

    method ClearSession()
      modifies this
      ensures View() == ResetSession(old(View())) && sent == old(sent)
    {
      remote := None;
      if session.Some? {
        session := None;
      }
      guest := false;
    }

    method SendEndAuthentication(n: u32, result: u32)
      modifies `sent
      ensures sent == old(sent) + [EndAuthentication(n, Some([]), result)]
    {
      sent := sent + [EndAuthentication(n, Some([]), result)];
    }

    method HandleAuthenticate(n: u32, username: Option<Text>, w: World)
      modifies this
      ensures var r := Handle(old(View()), Authenticate(n, username), w);
              View() == r.state && sent == old(sent) + r.replies
    {
      var name := username;
      if OrEmpty(name) == [] {
        name := None;
      }
      ClearSession();
      activeUsername := name;
      number := n;
      session := w.created;
      if session.None? {
        SendEndAuthentication(n, PAM_USER_UNKNOWN);
      }
    }

    method HandleAuthenticateAsGuest(n: u32, w: World)
      modifies this
      ensures var r := Handle(old(View()), AuthenticateAsGuest(n), w);
              View() == r.state && sent == old(sent) + r.replies
    {
      ClearSession();
      if !allowGuest {
        SendEndAuthentication(n, PAM_USER_UNKNOWN);
        return;
      }
      guest := true;
      SendEndAuthentication(n, PAM_SUCCESS);
    }

    method HandleAuthenticateRemote(n: u32, name: Option<Text>, username: Option<Text>, w: World)
      modifies this
      ensures var r := Handle(old(View()), AuthenticateRemote(n, name, username), w);
              View() == r.state && sent == old(sent) + r.replies
    {
      ClearSession();
      if !w.service {
        SendEndAuthentication(n, PAM_SYSTEM_ERR);
        return;
      }
      number := n;
      remote := name;
      session := w.created;
      if session.None? {
        SendEndAuthentication(n, PAM_USER_UNKNOWN);
      }
    }

    method HandleCancelAuthentication(w: World)
      modifies this
      ensures View() == Handle(old(View()), CancelAuthentication, w).state && sent == old(sent)
    {
      if session.None? {
        return;
      }
      ClearSession();
    }

    method TakeAuthenticationSession() returns (taken: Option<SessionId>)
      modifies `session
      ensures taken == old(session) && session == None
    {
      taken := session;
      session := None;
    }

    method HandleStartSession(name: Option<Text>, w: World) returns (taken: Option<SessionId>)
      modifies this
      ensures var r := Handle(old(View()), StartSession(name), w);
              View() == r.state && sent == old(sent) + r.replies
      ensures taken == if MayStart(old(View()), w) && !old(guest) then old(session) else None
    {
      taken := None;
      var result := false;
      if guest || (session.Some? && w.authenticated) {
        startSession := true;
        if !guest {
          taken := TakeAuthenticationSession();
        }
        result := w.started;
      }
      sent := sent + [SessionResult(if result then 0 else 1)];
    }
  }

  // ------------------------------------------------------------------ what is answered

  /** A guest is told of success exactly where guests are allowed; either way what was under way is dropped. */
  lemma GuestAnswered(g: State, n: u32, w: World)
    ensures var r := Handle(g, AuthenticateAsGuest(n), w);
            && (EndAuthentication(n, Some([]), 0) in r.replies <==> g.allowGuest)
            && (EndAuthentication(n, Some([]), 10) in r.replies <==> !g.allowGuest)
            && |r.replies| == 1 && r.state == g.(guest := g.allowGuest, session := None, remote := None)
  {
  }

  /** A user is answered at once only if no session could be made, and then as unknown. */
  lemma UserAnswered(g: State, n: u32, username: Option<Text>, w: World)
    ensures var r := Handle(g, Authenticate(n, username), w);
            && (if w.created.Some? then r.replies == [] else r.replies == [EndAuthentication(n, Some([]), 10)])
            && r.state == g.(session := w.created, number := n, guest := false, remote := None, activeUsername := r.state.activeUsername)
            && (if username == None || username == Some([]) then r.state.activeUsername == None else r.state.activeUsername == username)
  {
  }

  /** A remote login without a PAM service is a system error and leaves the number as it was. */
  lemma RemoteAnswered(g: State, n: u32, name: Option<Text>, username: Option<Text>, w: World)
    ensures var r := Handle(g, AuthenticateRemote(n, name, username), w);
            && (w.service && w.created.Some? ==> r.replies == [])
            && (w.service && w.created.None? ==> r.replies == [EndAuthentication(n, Some([]), 10)])
            && (!w.service ==> r.replies == [EndAuthentication(n, Some([]), 4)])
            && r.state == if w.service then g.(session := w.created, number := n, guest := false, remote := name)
                          else g.(session := None, guest := false, remote := None)
  {
  }

  /**
    A start is answered with success exactly when the guest was let in or the session is
    authenticated, and the seat then starts it. The session is given up unless the guest logs in.
   */
  lemma StartAnswered(g: State, name: Option<Text>, w: World)
    ensures var r := Handle(g, StartSession(name), w);
            var allowed := g.guest || (g.session.Some? && w.authenticated);
            && |r.replies| == 1 && (r.replies[0] == SessionResult(0) <==> allowed && w.started)
            && (r.replies[0] == SessionResult(1) <==> !(allowed && w.started))
            && (!allowed ==> r.state == g)
            && (allowed ==> r.state == g.(startSession := true, session := if g.guest then g.session else None))
  {
  }

  /** The version in common is agreed on; an old greeter gets the old reply. Nothing is under way afterwards that was not before. */
  lemma ConnectAnswered(g: State, version: Option<Text>, resettable: bool, api: u32, w: World)
    ensures var r := Handle(g, Connect(version, resettable, api), w);
            && r.state == g.(resettable := resettable) && |r.replies| == 1
            && (api == 0 <==> r.replies[0] == Connected(w.version, g.hints))
            && (api > 0 ==> r.replies[0] == ConnectedV2(1, w.version, g.hints))
  {
  }

  /** A cancellation drops the session, and with it everything; no reply. */
  lemma CancelAnswered(g: State, w: World)
    ensures var r := Handle(g, CancelAuthentication, w);
            && r.replies == [] && r.state.session == None
            && r.state == if g.session.None? then g else g.(session := None, guest := false, remote := None)
  {
  }

  /** No other message touches what the greeter authenticates, and only the shared directory's is answered. */
  lemma OthersAnswered(g: State, r: Request, w: World)
    requires r.EnsureSharedDir? || r.ContinueAuthentication? || r.SetLanguage?
    ensures Handle(g, r, w) == Result(g, if r.EnsureSharedDir? then [SharedDirResult(w.dir)] else [])
  {
  }

  /** PAM's result reaches the greeter as it is, but a success without an account as an unknown user. */
  lemma ReportedIs(result: u32, known: bool)
    ensures ReportedResult(result, known) == 0 <==> result == 0 && known
    ensures result != 0 || known ==> ReportedResult(result, known) == result
    ensures result == 0 && !known ==> ReportedResult(result, known) == 10
  {
  }

  // ------------------------------------------------------------------ every run

  datatype Event = Event(request: Request, world: World)

  function Run(g: State, events: seq<Event>): (end: State)
    decreases |events|
  {
    if events == [] then g else Run(Handle(g, events[0].request, events[0].world).state, events[1..])
  }

  /** A guest success and an authentication session are never held together. */
  predicate Exclusive(g: State) {
    !(g.guest && g.session.Some?) && (g.guest ==> g.allowGuest)
  }

  lemma {:induction false} RunExclusive(g: State, events: seq<Event>)
    requires Exclusive(g)
    ensures Exclusive(Run(g, events)) && Run(g, events).allowGuest == g.allowGuest
    decreases |events|
  {
    if events != [] {
      var next := Handle(g, events[0].request, events[0].world).state;
      assert Exclusive(next) && next.allowGuest == g.allowGuest;
      RunExclusive(next, events[1..]);
    }
  }

  /** A non-guest start-session message that is answered with success. */
  predicate Spends(g: State, e: Event) {
    e.request.StartSession? && !g.guest && SessionResult(0) in Handle(g, e.request, e.world).replies
  }

  function Spent(g: State, events: seq<Event>): nat
    decreases |events|
  {
    if events == [] then 0
    else (if Spends(g, events[0]) then 1 else 0) + Spent(Handle(g, events[0].request, events[0].world).state, events[1..])
  }

  /** A message that makes an authentication session. */
  predicate Authenticates(e: Event) {
    e.request.Authenticate? || e.request.AuthenticateRemote?
  }

  function Attempts(events: seq<Event>): nat {
    if events == [] then 0 else (if Authenticates(events[0]) then 1 else 0) + Attempts(events[1..])
  }

  /**
    A PAM success is spent at most once: over any run the non-guest starts that succeed are at
    most the authentications requested, plus one that was already held.
   */
  lemma {:induction false} SpentOnce(g: State, events: seq<Event>)
    ensures Spent(g, events) <= (if g.session.Some? then 1 else 0) + Attempts(events)
    ensures (forall e <- events :: !Authenticates(e)) ==> Spent(g, events) <= 1
    decreases |events|
  {
    if events != [] {
      SpentOnce(Handle(g, events[0].request, events[0].world).state, events[1..]);
      if forall e <- events :: !Authenticates(e) {
        NoAttempts(events);
      }
    }
  }

  lemma {:induction false} NoAttempts(events: seq<Event>)
    requires forall e <- events :: !Authenticates(e)
    ensures Attempts(events) == 0
    decreases |events|
  {
    if events != [] {
      assert events[0] in events;
      NoAttempts(events[1..]);
    }
  }
}
