/**
  The login protocol between the greeter library and the daemon over two FIFO channels
  (liblightdm-gobject/greeter.c, src/greeter.c).

  Each message in a channel carries a tag that is not on the wire: the attempt or the request
  of the library call that it belongs to. The code never looks at a tag; the theorems say that
  what the code does by sequence number and by queue position agrees with the tags.
 */
module LoginProtocol {
  import opened Octets
  import opened LoginMessages
  import opened GreeterDaemon

  // ------------------------------------------------------------------ the library

  datatype Library = Library(
    connected: bool,
    number: u32,              // authenticate_sequence_number
    inAuthentication: bool,
    isAuthenticated: bool,
    cancelling: bool,
    user: Option<Text>,
    waiting: nat,             // n_responses_waiting
    received: seq<Text>,      // responses_received
    startQueue: seq<nat>,     // start_session_requests
    dirQueue: seq<nat>)       // ensure_shared_data_dir_requests

  predicate IsPrompt(m: PamMessage) {
    m.style == 1 || m.style == 2
  }

  function CountPrompts(ms: seq<PamMessage>): (n: nat)
    ensures n <= |ms|
  {
    if ms == [] then 0 else CountPrompts(ms[..|ms| - 1]) + if IsPrompt(ms[|ms| - 1]) then 1 else 0
  }

  /** What the three authenticate calls have in common. */
  function BeginAttempt(l: Library, user: Option<Text>): Library {
    l.(cancelling := false, number := (l.number as int + 1) % U32, inAuthentication := true, isAuthenticated := false, user := user)
  }

  function OnPrompt(l: Library, number: u32, username: Option<Text>, messages: seq<PamMessage>): Library {
    if number != l.number || l.cancelling then l
    else l.(user := NullIfEmpty(username), received := [], waiting := CountPrompts(messages))
  }

  function OnEnd(l: Library, number: u32, username: Option<Text>, result: u32): Library {
    if number != l.number then l
    else l.(user := NullIfEmpty(username), cancelling := false, isAuthenticated := result == 0, inAuthentication := false)
  }

  /** The part of the library that an authentication decides. */
  datatype Authentication = Authentication(inAuthentication: bool, isAuthenticated: bool, cancelling: bool,
    user: Option<Text>, waiting: nat, received: seq<Text>)

  function Auth(l: Library): Authentication {
    Authentication(l.inAuthentication, l.isAuthenticated, l.cancelling, l.user, l.waiting, l.received)
  }

  /** Which library call completed with which answer. */
  datatype Completion = Completion(request: nat, answer: nat)

  /** The greeter object of the library. */
  class LightDMGreeter {
    var connected: bool
    var number: u32
    var inAuthentication: bool
    var isAuthenticated: bool
    var cancelling: bool
    var user: Option<Text>
    var waiting: nat
    var received: seq<Text>
    var startQueue: seq<nat>
    var dirQueue: seq<nat>
    var next: nat               // which request the next one is

    ghost function View(): Library
      reads this
    {
      Library(connected, number, inAuthentication, isAuthenticated, cancelling, user, waiting, received, startQueue, dirQueue)
    }

    /** `lightdm_greeter_authenticate`, `_as_guest` and `_remote`: what is sent, if anything is. */
    method Authenticate(username: Option<Text>, keep: bool) returns (attempt: Option<u32>)
      modifies this
      ensures attempt == if old(connected) then Some(View().number) else None
      ensures View() == if old(connected) then BeginAttempt(old(View()), if keep then username else None) else old(View())
    {
      if !connected {
        return None;
      }
      cancelling := false;
      number := if number as int + 1 == U32 then 0 else number + 1;
      inAuthentication := true;
      isAuthenticated := false;
      user := if keep then username else None;
      return Some(number);
    }

    method HandlePromptAuthentication(n: u32, username: Option<Text>, messages: seq<PamMessage>)
      modifies this
      ensures View() == OnPrompt(old(View()), n, username, messages)
    {
      if n != number {
        return;
      }
      if cancelling {
        return;
      }
      user := if OrEmpty(username) == [] then None else username;
      received := [];
      waiting := 0;
      for i := 0 to |messages|
        invariant View() == old(View()).(user := NullIfEmpty(username), received := [], waiting := CountPrompts(messages[..i]))
      {
        assert messages[..i + 1][..i] == messages[..i];
        if messages[i].style == 1 || messages[i].style == 2 {
          waiting := waiting + 1;
        }
      }
      assert messages[..|messages|] == messages;
    }

    method HandleEndAuthentication(n: u32, username: Option<Text>, result: u32)
      modifies this
      ensures View() == OnEnd(old(View()), n, username, result)
    {
      if n != number {
        return;
      }
      user := if OrEmpty(username) == [] then None else username;
      cancelling := false;
      isAuthenticated := result == 0;
      inAuthentication := false;
    }

    /**
      `lightdm_greeter_respond`: the answers gather until no prompt is waiting, and then go out
      together in one message. A message that does not fit leaves them gathered.
     */
    method Respond(response: Text) returns (ok: bool, message: Option<seq<octet>>)
      requires Sane(RequestFields(ContinueAuthentication(received + [response])))
      modifies `waiting, `received
      ensures !connected || old(waiting) == 0 ==> !ok && message == None && waiting == old(waiting) && received == old(received)
      ensures connected && old(waiting) > 0 ==> waiting == old(waiting) - 1
      ensures connected && old(waiting) > 1 ==> ok && message == None && received == old(received) + [response]
      ensures connected && old(waiting) == 1 ==>
                var r := ContinueAuthentication(old(received) + [response]);
                && (ok <==> 8 + Size(RequestFields(r)) < MAX_MESSAGE_LENGTH)
                && (ok ==> message == Some(Encoded(Packet(RequestId(r), RequestFields(r)))) && received == [])
                && (!ok ==> message == None && received == r.secrets)
    {
      message := None;
      if !connected || waiting == 0 {
        return false, None;
      }
      waiting := waiting - 1;
      received := received + [response];
      ok := true;
      if waiting == 0 {
        var octets: seq<octet>;
        ok, octets := Build(ContinueAuthentication(received));
        if !ok {
          return;
        }
        message := Some(octets);
        received := [];
      }
    }

    /**
      `handle_session_result`: the oldest start-session request takes the answer. While the queues
      list what is under way that is the very request which the daemon has answered.
     */
    method HandleSessionResult(answer: nat, ghost s: System) returns (done: Option<Completion>)
      requires s.library == View() && s.down != [] && s.down[0].reply.SessionResult? && s.down[0].tag == answer
      modifies `startQueue
      ensures View() == Step(s, LibraryRead).library
      ensures Step(s, LibraryRead).completed == s.completed + if done.Some? then [done.value] else []
      ensures Aligned(s) ==> done == Some(Completion(answer, answer))
    {
      if Aligned(s) {
        AnsweredFirst(s);
      }
      done := None;
      if startQueue != [] {
        done := Some(Completion(startQueue[0], answer));
        startQueue := startQueue[1..];
      }
    }

    /**
      `lightdm_greeter_start_session`: queued before it is sent, so that a failed send, and
      nothing else, puts the queue out of step with what is under way.
     */
    method StartSession(name: Option<Text>, sent: bool, ghost s: System) returns (message: Option<Request>)
      requires s.library == View() && s.requests == next
      modifies `startQueue, `next
      ensures View() == Step(s, LibraryStart(name, false, sent)).library && next == s.requests + 1
      ensures message == if sent then Some(LoginMessages.StartSession(name)) else None
      ensures Aligned(s) ==> (Aligned(Step(s, LibraryStart(name, false, sent))) <==> message.Some?)
    {
      if Aligned(s) {
        RequestAligned(s, LibraryStart(name, false, sent));
      }
      startQueue := startQueue + [next];
      next := next + 1;
      message := if sent then Some(LoginMessages.StartSession(name)) else None;
    }

    /** `lightdm_greeter_start_session_sync`: queued once it is sent, so the queue is never out of step. */
    method StartSessionSync(name: Option<Text>, sent: bool, ghost s: System) returns (message: Option<Request>)
      requires s.library == View() && s.requests == next
      modifies `startQueue, `next
      ensures View() == Step(s, LibraryStart(name, true, sent)).library && next == s.requests + 1
      ensures message == if sent then Some(LoginMessages.StartSession(name)) else None
      ensures Aligned(s) ==> Aligned(Step(s, LibraryStart(name, true, sent)))
    {
      if Aligned(s) {
        RequestAligned(s, LibraryStart(name, true, sent));
      }
      var request := next;
      next := next + 1;
      if !sent {
        return None;
      }
      startQueue := startQueue + [request];
      message := Some(LoginMessages.StartSession(name));
    }
  }

  // ------------------------------------------------------------------ both parties

  datatype Up = Up(request: Request, tag: nat)
  datatype Down = Down(reply: Reply, tag: nat)

  datatype System = System(
    library: Library,
    attempts: nat,            // authenticate calls so far
    daemon: State,
    sessionTag: nat,          // the attempt that made the daemon's session
    up: seq<Up>,
    down: seq<Down>,
    reported: seq<Down>,      // everything the daemon has written
    completed: seq<Completion>,
    requests: nat)            // start-session and shared-directory calls so far

  datatype Event =
    | LibraryConnect
    | LibraryAuthenticate(username: Option<Text>, sent: bool)
    | LibraryGuest(sent: bool)
    | LibraryRemote(session: Option<Text>, username: Option<Text>, sent: bool)
    | LibraryContinue(secrets: seq<Text>, sent: bool)
    | LibraryCancel(sent: bool)
    | LibraryStart(name: Option<Text>, sync: bool, sent: bool)
    | LibraryEnsureDir(name: Option<Text>, sync: bool, sent: bool)
    | LibraryRead
    | DaemonRead(world: World)
    | DaemonPrompt(username: Option<Text>, messages: seq<PamMessage>)
    | DaemonComplete(username: Option<Text>, result: u32, known: bool)
    | DaemonIdle
    | DaemonReset(hints: seq<Hint>)

  function Send(s: System, r: Request, tag: nat, sent: bool): System {
    if sent then s.(up := s.up + [Up(r, tag)]) else s
  }

  function Report(s: System, r: Reply, tag: nat): System {
    s.(down := s.down + [Down(r, tag)], reported := s.reported + [Down(r, tag)])
  }

  function BeginSystemAttempt(s: System, user: Option<Text>): System {
    s.(library := BeginAttempt(s.library, user), attempts := s.attempts + 1)
  }

  /** The daemon reads the oldest message; each of its handlers writes at most one reply. */
  function DaemonReads(s: System, w: World): System
    requires s.up != []
  {
    var m := s.up[0];
    var r := Handle(s.daemon, m.request, w);
    var t := s.(up := s.up[1..], daemon := r.state,
                sessionTag := if m.request.Authenticate? || m.request.AuthenticateRemote? then m.tag else s.sessionTag);
    if r.replies == [] then t else Report(t, r.replies[0], m.tag)
  }

  function LibraryReads(s: System): System
    requires s.down != []
  {
    var m := s.down[0];
    var t := s.(down := s.down[1..]);
    var l := s.library;
    match m.reply
    case Connected(_, _) => t.(library := l.(connected := true))
    case ConnectedV2(_, _, _) => t.(library := l.(connected := true))
    case PromptAuthentication(n, u, ms) => t.(library := OnPrompt(l, n, u, ms))
    case EndAuthentication(n, u, c) => t.(library := OnEnd(l, n, u, c))
    case SessionResult(_) =>
      if l.startQueue == [] then t
      else t.(library := l.(startQueue := l.startQueue[1..]), completed := s.completed + [Completion(l.startQueue[0], m.tag)])
    case SharedDirResult(_) =>
      if l.dirQueue == [] then t
      else t.(library := l.(dirQueue := l.dirQueue[1..]), completed := s.completed + [Completion(l.dirQueue[0], m.tag)])
    case Idle => t
    case Reset(_) => t
  }

  function Step(s: System, e: Event): System {
    var l := s.library;
    match e
    case LibraryConnect => Send(s, Connect(None, false, 1), 0, true)
    case LibraryAuthenticate(username, sent) =>
      if !l.connected then s
      else var t := BeginSystemAttempt(s, username); Send(t, Authenticate(t.library.number, username), t.attempts, sent)
    case LibraryGuest(sent) =>
      if !l.connected then s
      else var t := BeginSystemAttempt(s, None); Send(t, AuthenticateAsGuest(t.library.number), t.attempts, sent)
    case LibraryRemote(session, username, sent) =>
      if !l.connected then s
      else var t := BeginSystemAttempt(s, None); Send(t, AuthenticateRemote(t.library.number, session, username), t.attempts, sent)
    case LibraryContinue(secrets, sent) => if !l.connected then s else Send(s, ContinueAuthentication(secrets), 0, sent)
    case LibraryCancel(sent) =>
      if !l.connected then s else Send(s.(library := l.(cancelling := true)), CancelAuthentication, 0, sent)
    case LibraryStart(name, sync, sent) =>
      var t := if sync && !sent then s else s.(library := l.(startQueue := l.startQueue + [s.requests]));
      Send(t.(requests := s.requests + 1), StartSession(name), s.requests, sent)
    case LibraryEnsureDir(name, sync, sent) =>
      var t := if sync && !sent then s else s.(library := l.(dirQueue := l.dirQueue + [s.requests]));
      Send(t.(requests := s.requests + 1), EnsureSharedDir(name), s.requests, sent)
    case LibraryRead => if s.down == [] then s else LibraryReads(s)
    case DaemonRead(w) => if s.up == [] then s else DaemonReads(s, w)
    case DaemonPrompt(u, ms) =>
      if s.daemon.session.None? then s else Report(s, PromptAuthentication(s.daemon.number, u, ms), s.sessionTag)
    case DaemonComplete(u, c, known) =>
      if s.daemon.session.None? then s
      else Report(s, EndAuthentication(s.daemon.number, u, ReportedResult(c, known)), s.sessionTag)
    case DaemonIdle => Report(s, Idle, 0)
    case DaemonReset(hints) => Report(s.(daemon := s.daemon.(hints := hints)), Reset(hints), 0)
  }

  function Run(s: System, events: seq<Event>): (t: System)
    decreases |events|
  {
    if events == [] then s else Run(Step(s, events[0]), events[1..])
  }

  function Start(allowGuest: bool, hints: seq<Hint>): System {
    System(Library(false, 0, false, false, false, None, 0, [], [], []), 0,
           State(allowGuest, false, None, 0, None, None, false, false, hints), 0, [], [], [], [], 0)
  }

  // ------------------------------------------------------------------ attempts

  /** The number in an authenticate message is the one of its attempt. */
  predicate UpNumbered(m: Up, attempts: nat) {
    match m.request
    case Authenticate(n, _) => n == m.tag % U32 && 1 <= m.tag <= attempts
    case AuthenticateAsGuest(n) => n == m.tag % U32 && 1 <= m.tag <= attempts
    case AuthenticateRemote(n, _, _) => n == m.tag % U32 && 1 <= m.tag <= attempts
    case _ => true
  }

  predicate DownNumbered(m: Down, attempts: nat) {
    match m.reply
    case PromptAuthentication(n, _, _) => n == m.tag % U32 && 1 <= m.tag <= attempts
    case EndAuthentication(n, _, _) => n == m.tag % U32 && 1 <= m.tag <= attempts
    case _ => true
  }

  /** Some reply of the daemon reported success for this attempt. */
  ghost predicate SuccessReported(s: System, attempt: nat) {
    exists m <- s.reported :: m.reply.EndAuthentication? && m.reply.result == 0 && m.tag == attempt
  }

  ghost predicate Numbered(s: System) {
    && s.library.number == s.attempts % U32
    && (s.daemon.session.Some? ==> s.daemon.number == s.sessionTag % U32 && 1 <= s.sessionTag <= s.attempts)
    && (forall m <- s.up :: UpNumbered(m, s.attempts))
    && (forall m <- s.reported :: DownNumbered(m, s.attempts))
    && (forall m <- s.down :: m in s.reported)
  }

  /** The library counts itself authenticated only on the word of the daemon for this attempt. */
  ghost predicate Trusted(s: System) {
    s.library.isAuthenticated ==> SuccessReported(s, s.attempts)
  }

  /** What the two theorems use of a handler: its one reply, and the number of its session. */
  lemma HandleReplies(g: State, r: Request, w: World)
    ensures var h := Handle(g, r, w);
            && |h.replies| <= 1
            && (forall p <- h.replies :: !p.PromptAuthentication?)
            && (forall p <- h.replies :: p.EndAuthentication? ==>
                  (r.Authenticate? || r.AuthenticateAsGuest? || r.AuthenticateRemote?) && p.number == r.number)
            && (r.StartSession? <==> |h.replies| == 1 && h.replies[0].SessionResult?)
            && (r.EnsureSharedDir? <==> |h.replies| == 1 && h.replies[0].SharedDirResult?)
            && (h.state.session.Some? ==>
                  if r.Authenticate? || r.AuthenticateRemote? then h.state.number == r.number
                  else g.session.Some? && h.state.number == g.number)
  {
  }

  lemma SendNumbered(s: System, r: Request, tag: nat, sent: bool)
    requires Numbered(s) && UpNumbered(Up(r, tag), s.attempts)
    ensures Numbered(Send(s, r, tag, sent))
  {
  }

  lemma BeginNumbered(s: System, user: Option<Text>)
    requires Numbered(s)
    ensures Numbered(BeginSystemAttempt(s, user))
  {
    hide UpNumbered, DownNumbered;
    forall m <- s.up ensures UpNumbered(m, s.attempts + 1) {
      UpLater(m, s.attempts);
    }
    forall m <- s.reported ensures DownNumbered(m, s.attempts + 1) {
      DownLater(m, s.attempts);
    }
  }

  lemma UpLater(m: Up, attempts: nat)
    requires UpNumbered(m, attempts)
    ensures UpNumbered(m, attempts + 1)
  {
  }

  lemma DownLater(m: Down, attempts: nat)
    requires DownNumbered(m, attempts)
    ensures DownNumbered(m, attempts + 1)
  {
  }

  lemma DaemonReadsNumbered(s: System, w: World)
    requires Numbered(s) && s.up != []
    ensures Numbered(DaemonReads(s, w)) && DaemonReads(s, w).attempts == s.attempts
    ensures s.reported <= DaemonReads(s, w).reported
  {
    hide Handle;
    assert s.up[0] in s.up;
    HandleReplies(s.daemon, s.up[0].request, w);
  }

  lemma StepNumbered(s: System, e: Event)
    requires Numbered(s)
    ensures Numbered(Step(s, e)) && s.attempts <= Step(s, e).attempts <= s.attempts + 1
    ensures s.reported <= Step(s, e).reported
  {
    hide DaemonReads, UpNumbered, DownNumbered, Handle;
    if e.LibraryAuthenticate? || e.LibraryGuest? || e.LibraryRemote? {
      AttemptNumbered(s, e);
    } else if e.DaemonRead? {
      if s.up != [] {
        DaemonReadsNumbered(s, e.world);
      }
    } else if e.DaemonPrompt? || e.DaemonComplete? || e.DaemonIdle? || e.DaemonReset? {
      ReportStepNumbered(s, e);
    } else if e.LibraryRead? {
    } else {
      OtherSendNumbered(s, e);
    }
  }

  lemma AttemptNumbered(s: System, e: Event)
    requires Numbered(s) && (e.LibraryAuthenticate? || e.LibraryGuest? || e.LibraryRemote?)
    ensures Numbered(Step(s, e)) && s.attempts <= Step(s, e).attempts <= s.attempts + 1 && Step(s, e).reported == s.reported
  {
    if s.library.connected {
      var user := if e.LibraryAuthenticate? then e.username else None;
      BeginNumbered(s, user);
      var t := BeginSystemAttempt(s, user);
      var r := match e
        case LibraryAuthenticate(username, _) => Authenticate(t.library.number, username)
        case LibraryRemote(session, username, _) => AuthenticateRemote(t.library.number, session, username)
        case _ => AuthenticateAsGuest(t.library.number);
      SendNumbered(t, r, t.attempts, e.sent);
    }
  }

  lemma OtherSendNumbered(s: System, e: Event)
    requires Numbered(s)
    requires e.LibraryConnect? || e.LibraryContinue? || e.LibraryCancel? || e.LibraryStart? || e.LibraryEnsureDir?
    ensures Numbered(Step(s, e)) && Step(s, e).attempts == s.attempts && Step(s, e).reported == s.reported
  {
  }

  lemma ReportStepNumbered(s: System, e: Event)
    requires Numbered(s) && (e.DaemonPrompt? || e.DaemonComplete? || e.DaemonIdle? || e.DaemonReset?)
    ensures Numbered(Step(s, e)) && Step(s, e).attempts == s.attempts && s.reported <= Step(s, e).reported
  {
  }

  /** Only a reply with the library's number makes it count itself authenticated. */
  lemma BecomesAuthenticated(s: System, e: Event)
    requires Step(s, e).library.isAuthenticated && (!s.library.isAuthenticated || Step(s, e).attempts != s.attempts)
    ensures e.LibraryRead? && s.down != [] && s.down[0].reply.EndAuthentication? && s.down[0].reply.result == 0
    ensures s.down[0].reply.number == s.library.number && Step(s, e).attempts == s.attempts && Step(s, e).reported == s.reported
  {
    hide Handle;
  }

  lemma StepTrusted(s: System, e: Event)
    requires Numbered(s) && Trusted(s) && Step(s, e).attempts <= U32
    ensures Trusted(Step(s, e))
  {
    hide Step;
    StepNumbered(s, e);
    var t := Step(s, e);
    if t.library.isAuthenticated {
      if s.library.isAuthenticated && t.attempts == s.attempts {
        var m :| m in s.reported && m.reply.EndAuthentication? && m.reply.result == 0 && m.tag == s.attempts;
        assert m in t.reported;
      } else {
        BecomesAuthenticated(s, e);
        var m := s.down[0];
        assert m in s.down && m in t.reported;
      }
    }
  }

  /**
    Over FIFO channels and up to 2^32 attempts, a library that counts itself authenticated
    has been told so by the daemon about its current attempt.
   */
  lemma {:induction false} RunTrusted(s: System, events: seq<Event>)
    requires Numbered(s) && Trusted(s) && Run(s, events).attempts <= U32
    ensures Numbered(Run(s, events)) && Trusted(Run(s, events)) && s.attempts <= Run(s, events).attempts
    decreases |events|
  {
    if events != [] {
      StepNumbered(s, events[0]);
      var t := Step(s, events[0]);
      if t.attempts <= U32 {
        StepTrusted(s, events[0]);
        RunTrusted(t, events[1..]);
      } else {
        RunNumbered(t, events[1..]);
      }
    }
  }

  lemma {:induction false} RunNumbered(s: System, events: seq<Event>)
    requires Numbered(s)
    ensures Numbered(Run(s, events)) && s.attempts <= Run(s, events).attempts
    decreases |events|
  {
    if events != [] {
      StepNumbered(s, events[0]);
      RunNumbered(Step(s, events[0]), events[1..]);
    }
  }

  /** A reply to a superseded attempt, however late, changes nothing about the authentication. */
  lemma LateReplyIgnored(s: System)
    requires Numbered(s) && s.attempts <= U32 && s.down != []
    requires s.down[0].reply.PromptAuthentication? || s.down[0].reply.EndAuthentication?
    requires s.down[0].tag != s.attempts
    ensures Auth(Step(s, LibraryRead).library) == Auth(s.library)
  {
    assert s.down[0] in s.down;
  }

  lemma {:induction false} RunAppend(s: System, xs: seq<Event>, ys: seq<Event>)
    ensures Run(s, xs + ys) == Run(Run(s, xs), ys)
    decreases |xs|
  {
    if xs == [] {
      assert xs + ys == ys;
    } else {
      assert (xs + ys)[1..] == xs[1..] + ys;
      RunAppend(Step(s, xs[0]), xs[1..], ys);
    }
  }

  // ------------------------------------------------------------------ on whose word

  predicate IsSuccess(m: Down, attempt: nat) {
    m.reply.EndAuthentication? && m.reply.result == 0 && m.tag == attempt
  }

  /**
    The daemon has a reason to report success for an attempt: it lets guests in and reads a guest
    attempt, or PAM reports success to the session of the attempt for a user that exists.
   */
  predicate Warranted(s: System, e: Event, attempt: nat) {
    || (e.DaemonRead? && s.up != [] && s.up[0].request.AuthenticateAsGuest? && s.daemon.allowGuest && attempt == s.up[0].tag)
    || (e.DaemonComplete? && e.result == 0 && e.known && s.daemon.session.Some? && attempt == s.sessionTag)
  }

  /** A step writes a success for an attempt exactly when there is a reason, and at most one reply. */
  lemma StepWarranted(s: System, e: Event, attempt: nat)
    ensures var t := Step(s, e);
            && s.reported <= t.reported && |t.reported| <= |s.reported| + 1 && t.daemon.allowGuest == s.daemon.allowGuest
            && ((|t.reported| > |s.reported| && IsSuccess(t.reported[|s.reported|], attempt)) <==> Warranted(s, e, attempt))
  {
    hide Handle, ReportedResult;
    if e.DaemonRead? && s.up != [] {
      ReadAnswers(s.daemon, s.up[0].request, e.world);
    } else if e.DaemonComplete? {
      ReportedIs(e.result, e.known);
    }
  }

  /** What a handler writes about the end of an authentication. */
  lemma ReadAnswers(g: State, r: Request, w: World)
    ensures var h := Handle(g, r, w);
            && h.state.allowGuest == g.allowGuest && |h.replies| <= 1
            && ((|h.replies| == 1 && h.replies[0].EndAuthentication? && h.replies[0].result == 0) <==>
                  r.AuthenticateAsGuest? && g.allowGuest)
  {
    match r {
      case AuthenticateAsGuest(n) => GuestAnswered(g, n, w);
      case _ =>
    }
  }

  /** A success for an attempt is reported after a run exactly if it was before or some step had a reason. */
  lemma {:induction false} RunWarranted(s: System, events: seq<Event>, attempt: nat)
    ensures var t := Run(s, events);
            && s.reported <= t.reported
            && (SuccessReported(t, attempt) <==>
                  SuccessReported(s, attempt) || exists k :: 0 <= k < |events| && Warranted(Run(s, events[..k]), events[k], attempt))
    decreases |events|
  {
    hide Step, Warranted, Run;
    if events == [] {
      assert Run(s, []) == s by { RunNothing(s); }
    } else {
      var n := |events| - 1;
      var u, e := Run(s, events[..n]), events[n];
      RunWarranted(s, events[..n], attempt);
      RunAppend(s, events[..n], [e]);
      assert events == events[..n] + [e];
      RunOne(u, e);
      StepWarranted(u, e, attempt);
      OneMore(u, Step(u, e), attempt);
      forall k | 0 <= k < n ensures events[..n][..k] == events[..k] {
      }
      if exists k :: 0 <= k < |events| && Warranted(Run(s, events[..k]), events[k], attempt) {
        var k :| 0 <= k < |events| && Warranted(Run(s, events[..k]), events[k], attempt);
        if k < n {
          assert Warranted(Run(s, events[..n][..k]), events[..n][k], attempt);
        }
      }
      if k :| 0 <= k < n && Warranted(Run(s, events[..n][..k]), events[..n][k], attempt) {
        assert Warranted(Run(s, events[..k]), events[k], attempt);
      }
    }
  }

  lemma RunNothing(s: System)
    ensures Run(s, []) == s
  {
  }

  lemma RunOne(s: System, e: Event)
    ensures Run(s, [e]) == Step(s, e)
  {
    hide Step;
    assert [e][1..] == [];
    assert Run(s, [e]) == Run(Step(s, e), []);
  }

  lemma OneMore(s: System, t: System, attempt: nat)
    requires s.reported <= t.reported && |t.reported| <= |s.reported| + 1
    ensures SuccessReported(t, attempt) <==>
              SuccessReported(s, attempt) || (|t.reported| > |s.reported| && IsSuccess(t.reported[|s.reported|], attempt))
  {
    if m :| m in s.reported && m.reply.EndAuthentication? && m.reply.result == 0 && m.tag == attempt {
      assert m in t.reported;
    }
    if m :| m in t.reported && m.reply.EndAuthentication? && m.reply.result == 0 && m.tag == attempt {
      var i :| 0 <= i < |t.reported| && t.reported[i] == m;
      assert i < |s.reported| ==> s.reported[i] == m;
    }
  }

  /**
    In every run with at most 2^32 attempts the library counts itself authenticated only if, for
    its current attempt, the daemon read a guest attempt that it allows or PAM reported success for
    a user that exists.
   */
  lemma AuthenticatedOnlyIfWarranted(allowGuest: bool, hints: seq<Hint>, events: seq<Event>)
    requires Run(Start(allowGuest, hints), events).attempts <= U32
    ensures var t := Run(Start(allowGuest, hints), events);
            t.library.isAuthenticated ==>
              exists k :: 0 <= k < |events| && Warranted(Run(Start(allowGuest, hints), events[..k]), events[k], t.attempts)
  {
    hide Run, Warranted;
    var s := Start(allowGuest, hints);
    RunTrusted(s, events);
    RunWarranted(s, events, Run(s, events).attempts);
  }

  // ------------------------------------------------------------------ a login that nothing disturbs

  /** The library is connected and neither channel holds anything. */
  predicate Quiet(s: System) {
    s.library.connected && s.up == [] && s.down == []
  }

  /** The library begins an attempt: its next number goes out and the last result is forgotten. */
  lemma AttemptSent(s: System, e: Event)
    requires Quiet(s) && (e.LibraryAuthenticate? || e.LibraryGuest? || e.LibraryRemote?)
    ensures var t := Step(s, e);
            var n := if s.library.number as int + 1 == 0x1_0000_0000 then 0 else s.library.number + 1;
            && t.library == s.library.(number := n, inAuthentication := true, isAuthenticated := false, cancelling := false,
                                       user := if e.LibraryAuthenticate? then e.username else None)
            && t.up == (if !e.sent then [] else match e
                         case LibraryAuthenticate(username, _) => [Up(Authenticate(n, username), s.attempts + 1)]
                         case LibraryRemote(session, username, _) => [Up(AuthenticateRemote(n, session, username), s.attempts + 1)]
                         case _ => [Up(AuthenticateAsGuest(n), s.attempts + 1)])
            && t == s.(library := t.library, up := t.up, attempts := s.attempts + 1)
  {
  }

  /** A reply with the current number ends the attempt: authenticated exactly on result 0. */
  lemma EndDecides(s: System, n: u32, u: Option<Text>, c: u32, tag: nat)
    requires s.down == [Down(EndAuthentication(n, u, c), tag)] && n == s.library.number
    ensures var t := Step(s, LibraryRead);
            && t.library == s.library.(inAuthentication := false, isAuthenticated := c == 0, cancelling := false, user := t.library.user)
            && (if u == None || u == Some([]) then t.library.user == None else t.library.user == u)
            && t == s.(library := t.library, down := [])
  {
  }

  /** A prompt with the current number, unless the attempt is being cancelled, awaits one answer for each prompt in it. */
  lemma PromptAsks(s: System, n: u32, u: Option<Text>, ms: seq<PamMessage>, tag: nat)
    requires s.down == [Down(PromptAuthentication(n, u, ms), tag)] && n == s.library.number
    ensures var t := Step(s, LibraryRead);
            && t == s.(library := t.library, down := [])
            && (s.library.cancelling ==> t.library == s.library)
            && (!s.library.cancelling ==>
                  && t.library == s.library.(user := t.library.user, received := [], waiting := CountPrompts(ms))
                  && (if u == None || u == Some([]) then t.library.user == None else t.library.user == u))
  {
  }

  /** A cancellation goes out and makes the library deaf to further prompts of the attempt. */
  lemma CancelSent(s: System)
    requires Quiet(s)
    ensures Step(s, LibraryCancel(true)) == s.(library := s.library.(cancelling := true), up := [Up(CancelAuthentication, 0)])
    ensures forall n, u, ms, tag ::
              var t := Step(s, LibraryCancel(true)).(down := [Down(PromptAuthentication(n, u, ms), tag)]);
              Step(t, LibraryRead).library == t.library
  {
  }

  /** The daemon's session reports what PAM asks and how it ends, under the number and attempt that it was made for. */
  lemma DaemonTells(s: System, u: Option<Text>, ms: seq<PamMessage>, c: u32, known: bool)
    requires Quiet(s)
    ensures s.daemon.session.None? ==> Step(s, DaemonPrompt(u, ms)) == s && Step(s, DaemonComplete(u, c, known)) == s
    ensures s.daemon.session.Some? ==>
              && Step(s, DaemonPrompt(u, ms)).down == [Down(PromptAuthentication(s.daemon.number, u, ms), s.sessionTag)]
              && Step(s, DaemonComplete(u, c, known)).down ==
                   [Down(EndAuthentication(s.daemon.number, u, if c == 0 && !known then 10 else c), s.sessionTag)]
    ensures var t := Step(s, DaemonPrompt(u, ms)); t == s.(down := t.down, reported := s.reported + t.down)
    ensures var t := Step(s, DaemonComplete(u, c, known)); t == s.(down := t.down, reported := s.reported + t.down)
  {
  }

  /** The library counts as prompts exactly the messages of style 1, PAM_PROMPT_ECHO_OFF, and 2, PAM_PROMPT_ECHO_ON. */
  lemma {:induction false} CountPromptsIs(ms: seq<PamMessage>)
    ensures CountPrompts(ms) == |set i | 0 <= i < |ms| && (ms[i].style == 1 || ms[i].style == 2)|
    decreases |ms|
  {
    if ms != [] {
      var n := |ms| - 1;
      CountPromptsIs(ms[..n]);
      var before := set i | 0 <= i < n && (ms[..n][i].style == 1 || ms[..n][i].style == 2);
      var all := set i | 0 <= i < |ms| && (ms[i].style == 1 || ms[i].style == 2);
      if ms[n].style == 1 || ms[n].style == 2 {
        assert all == before + {n} && n !in before;
      } else {
        assert all == before;
      }
    }
  }

  /** A library that is not connected begins, continues and cancels nothing. */
  lemma Unconnected(s: System, e: Event)
    requires !s.library.connected && (e.LibraryAuthenticate? || e.LibraryGuest? || e.LibraryRemote? || e.LibraryContinue? || e.LibraryCancel?)
    ensures Step(s, e) == s
  {
  }

  /** It is connected by the answer to its connect message, of either version, and by nothing else. */
  lemma Connects(s: System, w: World)
    requires s.up == [] && s.down == []
    ensures Step(Step(Step(s, LibraryConnect), DaemonRead(w)), LibraryRead).library == s.library.(connected := true)
    ensures forall m: Down ::
              var t := Step(s.(down := [m]), LibraryRead);
              t.library.connected <==> s.library.connected || m.reply.Connected? || m.reply.ConnectedV2?
  {
    hide Handle;
    ConnectAnswered(s.daemon, None, false, 1, w);
  }

  /** A reset replaces the daemon's hints and sends them; idling is just announced; every request takes the next number. */
  lemma SmallSteps(s: System, hints: seq<Hint>, name: Option<Text>, sync: bool, sent: bool)
    ensures var t := Step(s, DaemonReset(hints));
            t.daemon == s.daemon.(hints := hints) && t.down == s.down + [Down(Reset(hints), 0)] && t.library == s.library && t.up == s.up
    ensures var t := Step(s, DaemonIdle); t.daemon == s.daemon && t.down == s.down + [Down(Idle, 0)] && t.library == s.library && t.up == s.up
    ensures Step(s, LibraryStart(name, sync, sent)).requests == s.requests + 1
    ensures Step(s, LibraryEnsureDir(name, sync, sent)).requests == s.requests + 1
  {
  }

  /** The conversation of one attempt, message by message. */
  function Login(user: Option<Text>, ms: seq<PamMessage>, secrets: seq<Text>, c: u32, known: bool, w: World): seq<Event> {
    [LibraryAuthenticate(user, true), DaemonRead(w), DaemonPrompt(user, ms), LibraryRead,
     LibraryContinue(secrets, true), DaemonRead(w), DaemonComplete(user, c, known), LibraryRead]
  }

  lemma DaemonTakes(s: System, n: u32, user: Option<Text>, w: World, tag: nat)
    requires s.up == [Up(Authenticate(n, user), tag)] && s.down == [] && w.created.Some?
    ensures var t := Step(s, DaemonRead(w));
            && t.daemon == s.daemon.(session := w.created, number := n, guest := false, remote := None, activeUsername := t.daemon.activeUsername)
            && t == s.(up := [], daemon := t.daemon, sessionTag := tag)
  {
    hide Handle;
    UserAnswered(s.daemon, n, user, w);
  }

  lemma ContinueTaken(s: System, secrets: seq<Text>, w: World)
    requires Quiet(s)
    ensures Step(Step(s, LibraryContinue(secrets, true)), DaemonRead(w)) == s
    ensures Step(s, LibraryContinue(secrets, true)).up == [Up(ContinueAuthentication(secrets), 0)]
  {
    hide Handle;
    OthersAnswered(s.daemon, ContinueAuthentication(secrets), w);
  }

  lemma FirstHalf(s: System, user: Option<Text>, ms: seq<PamMessage>, w: World)
    requires Quiet(s) && w.created.Some?
    ensures var t := Step(Step(Step(Step(s, LibraryAuthenticate(user, true)), DaemonRead(w)), DaemonPrompt(user, ms)), LibraryRead);
            && Quiet(t) && t.library.inAuthentication && !t.library.isAuthenticated && t.library.waiting == CountPrompts(ms)
            && t.daemon.session == w.created && t.daemon.number == t.library.number && t.attempts == s.attempts + 1
            && t.sessionTag == t.attempts
  {
    hide Step;
    var a := Step(s, LibraryAuthenticate(user, true));
    AttemptSent(s, LibraryAuthenticate(user, true));
    var b := Step(a, DaemonRead(w));
    DaemonTakes(a, a.library.number, user, w, a.attempts);
    var c := Step(b, DaemonPrompt(user, ms));
    DaemonTells(b, user, ms, 0, true);
    PromptAsks(c, b.daemon.number, user, ms, b.sessionTag);
  }

  /**
    From any quiet state: a login that nothing disturbs ends with the library authenticated if and
    only if PAM reports success and the user exists, having asked for as many answers as there
    were prompts.
   */
  lemma UndisturbedLogin(s: System, user: Option<Text>, ms: seq<PamMessage>, secrets: seq<Text>, c: u32, known: bool, w: World)
    requires Quiet(s) && w.created.Some?
    ensures var half := Run(s, Login(user, ms, secrets, c, known, w)[..4]);
            var t := Run(s, Login(user, ms, secrets, c, known, w));
            && half.library.waiting == CountPrompts(ms) && half.library.inAuthentication && !half.library.isAuthenticated
            && Quiet(t) && (t.library.isAuthenticated <==> c == 0 && known) && !t.library.inAuthentication
            && t.daemon.session == w.created && t.attempts == s.attempts + 1
            && (if user == None || user == Some([]) then t.library.user == None else t.library.user == user)
  {
    hide Step, Quiet;
    var es := Login(user, ms, secrets, c, known, w);
    FirstHalf(s, user, ms, w);
    var half := Step(Step(Step(Step(s, es[0]), es[1]), es[2]), es[3]);
    FourSteps(s, es[..4]);
    ContinueTaken(half, secrets, w);
    SecondHalf(half, user, c, known, w);
    FourSteps(half, es[4..]);
    assert es == es[..4] + es[4..];
    RunAppend(s, es[..4], es[4..]);
  }

  lemma SecondHalf(s: System, user: Option<Text>, c: u32, known: bool, w: World)
    requires Quiet(s) && s.daemon.session == w.created && w.created.Some? && s.daemon.number == s.library.number
    ensures var t := Step(Step(s, DaemonComplete(user, c, known)), LibraryRead);
            && Quiet(t) && (t.library.isAuthenticated <==> c == 0 && known) && !t.library.inAuthentication
            && t.daemon.session == w.created && t.attempts == s.attempts
            && (if user == None || user == Some([]) then t.library.user == None else t.library.user == user)
  {
    hide Step;
    var a := Step(s, DaemonComplete(user, c, known));
    DaemonTells(s, user, [], c, known);
    EndDecides(a, s.daemon.number, user, if c == 0 && !known then 10 else c, s.sessionTag);
  }

  lemma FourSteps(s: System, es: seq<Event>)
    requires |es| == 4
    ensures Run(s, es) == Step(Step(Step(Step(s, es[0]), es[1]), es[2]), es[3])
  {
    hide Step;
    var a := Step(s, es[0]);
    var b := Step(a, es[1]);
    var c := Step(b, es[2]);
    assert Run(a, es[1..]) == Run(b, es[2..]) by { assert es[1..][1..] == es[2..]; }
    assert Run(b, es[2..]) == Run(c, es[3..]) by { assert es[2..][1..] == es[3..]; }
    assert es[3..] == [es[3]];
    RunOne(c, es[3]);
  }

  /** A guest login that nothing disturbs succeeds exactly where guests are allowed. */
  lemma UndisturbedGuest(s: System, w: World)
    requires Quiet(s)
    ensures var t := Step(Step(Step(s, LibraryGuest(true)), DaemonRead(w)), LibraryRead);
            && Quiet(t) && (t.library.isAuthenticated <==> s.daemon.allowGuest) && (t.daemon.guest <==> s.daemon.allowGuest)
            && !t.library.inAuthentication && t.library.user == None && t.daemon.session == None
  {
    hide Step, Handle;
    var a := Step(s, LibraryGuest(true));
    AttemptSent(s, LibraryGuest(true));
    var n := a.library.number;
    GuestRead(a, n, w);
    var b := Step(a, DaemonRead(w));
    EndDecides(b, n, Some([]), if s.daemon.allowGuest then 0 else 10, a.attempts);
  }

  lemma GuestRead(s: System, n: u32, w: World)
    requires s.up == [Up(AuthenticateAsGuest(n), s.attempts)] && s.down == []
    ensures var t := Step(s, DaemonRead(w));
            && t.up == [] && t.library == s.library && t.attempts == s.attempts
            && t.down == [Down(EndAuthentication(n, Some([]), if s.daemon.allowGuest then 0 else 10), s.attempts)]
            && t.daemon == s.daemon.(guest := s.daemon.allowGuest, session := None, remote := None)
  {
    hide Handle;
    GuestAnswered(s.daemon, n, w);
    var r := Handle(s.daemon, AuthenticateAsGuest(n), w);
    assert r.replies[0] in r.replies;
    assert r.replies == [EndAuthentication(n, Some([]), if s.daemon.allowGuest then 0 else 10)];
  }

  /** A request for a session or a shared directory that is sent is completed by its own answer. */
  lemma UndisturbedRequests(s: System, name: Option<Text>, sync: bool, w: World)
    requires Quiet(s) && s.library.startQueue == [] && s.library.dirQueue == []
    ensures var t := Step(Step(Step(s, LibraryStart(name, sync, true)), DaemonRead(w)), LibraryRead);
            Quiet(t) && t.library == s.library && t.completed == s.completed + [Completion(s.requests, s.requests)]
    ensures var t := Step(Step(Step(s, LibraryEnsureDir(name, sync, true)), DaemonRead(w)), LibraryRead);
            Quiet(t) && t.library == s.library && t.completed == s.completed + [Completion(s.requests, s.requests)]
  {
    hide Handle;
    StartAnswered(s.daemon, name, w);
    OthersAnswered(s.daemon, EnsureSharedDir(name), w);
  }

  // Past 2^32 attempts the number comes round again and a stale reply is believed.

  function GuestAttempts(n: nat): seq<Event> {
    seq(n, _ => LibraryGuest(false))
  }

  lemma UnsentAttempt(s: System)
    requires s.library.connected
    ensures var t := Step(s, LibraryGuest(false));
            && t.library.connected && t.attempts == s.attempts + 1 && t.down == s.down && t.reported == s.reported
            && !t.library.isAuthenticated && t.library.number == (s.library.number + 1) % U32
  {
  }

  lemma NextNumber(a: nat)
    ensures (a % U32 + 1) % U32 == (a + 1) % U32
  {
  }

  lemma {:induction false} UnsentAttempts(s: System, n: nat)
    requires s.library.connected
    ensures var t := Run(s, GuestAttempts(n));
            && t.library.connected && t.attempts == s.attempts + n && t.down == s.down && t.reported == s.reported
            && (n > 0 ==> !t.library.isAuthenticated) && (s.library.number == s.attempts % U32 ==> t.library.number == t.attempts % U32)
    decreases n
  {
    hide Step;
    if n > 0 {
      assert GuestAttempts(n)[1..] == GuestAttempts(n - 1);
      UnsentAttempt(s);
      NextNumber(s.attempts);
      UnsentAttempts(Step(s, LibraryGuest(false)), n - 1);
    }
  }

  /** The bound is exact: one run with 2^32 + 1 attempts ends authenticated on a stale reply. */
  lemma WrapAroundBelieved(w: World)
    ensures var early := [LibraryConnect, DaemonRead(w), LibraryRead, LibraryGuest(true), DaemonRead(w)];
            var s := Run(Start(true, []), early + GuestAttempts(U32) + [LibraryRead]);
            s.attempts == U32 + 1 && s.library.isAuthenticated && !SuccessReported(s, s.attempts)
  {
    var early := [LibraryConnect, DaemonRead(w), LibraryRead, LibraryGuest(true), DaemonRead(w)];
    EarlyRun(w);
    var s := Run(Start(true, []), early);
    hide Step, Start;
    UnsentAttempts(s, U32);
    var t := Run(s, GuestAttempts(U32));
    RunAppend(Start(true, []), early, GuestAttempts(U32));
    RunAppend(Start(true, []), early + GuestAttempts(U32), [LibraryRead]);
    StaleRead(t);
  }

  lemma StaleRead(t: System)
    requires t.down != [] && t.down[0].reply.EndAuthentication? && t.down[0].reply.number == t.library.number
    requires t.down[0].reply.result == 0
    ensures var u := Run(t, [LibraryRead]);
            u.library.isAuthenticated && u.attempts == t.attempts && u.reported == t.reported
  {
    assert Run(t, [LibraryRead]) == Run(Step(t, LibraryRead), [LibraryRead][1..]);
  }

  /** The two halves of the start: connecting, and a guest attempt that is granted. */
  lemma EarlyConnect(w: World)
    ensures var s := Step(Step(Step(Start(true, []), LibraryConnect), DaemonRead(w)), LibraryRead);
            && s.library == Start(true, []).library.(connected := true) && s.attempts == 0 && s.up == [] && s.down == []
            && s.daemon.allowGuest && s.daemon.session.None? && s.requests == 0
            && |s.reported| == 1 && s.reported[0].reply.ConnectedV2?
  {
    var s0 := Start(true, []);
    var s1 := Step(s0, LibraryConnect);
    assert s1.up == [Up(Connect(None, false, 1), 0)];
    var s2 := Step(s1, DaemonRead(w));
    assert s2.down == [Down(ConnectedV2(1, w.version, []), 0)] && s2.up == [];
  }

  lemma EarlyGuest(s: System, w: World)
    requires s.library == Start(true, []).library.(connected := true) && s.attempts == 0 && s.up == [] && s.down == [] && s.daemon.allowGuest
    ensures var t := Step(Step(s, LibraryGuest(true)), DaemonRead(w));
            && t.library.connected && t.attempts == 1 && t.library.number == 1
            && t.down == [Down(EndAuthentication(1, Some([]), 0), 1)] && t.reported == s.reported + t.down
  {
    var t := Step(s, LibraryGuest(true));
    assert t.up == [Up(AuthenticateAsGuest(1), 1)];
  }

  /** Connected, one guest attempt granted, its reply still under way. */
  lemma EarlyRun(w: World)
    ensures var early := [LibraryConnect, DaemonRead(w), LibraryRead, LibraryGuest(true), DaemonRead(w)];
            var s := Run(Start(true, []), early);
            && s.library.connected && s.attempts == 1 && s.library.number == 1
            && s.down == [Down(EndAuthentication(1, Some([]), 0), 1)]
            && |s.reported| == 2 && s.reported[0].reply.ConnectedV2? && s.reported[1] == s.down[0]
  {
    var early := [LibraryConnect, DaemonRead(w), LibraryRead, LibraryGuest(true), DaemonRead(w)];
    var s0 := Start(true, []);
    EarlyConnect(w);
    hide Step, Start;
    var s1 := Step(s0, early[0]);
    var s2 := Step(s1, early[1]);
    var s3 := Step(s2, early[2]);
    EarlyGuest(s3, w);
    var s4 := Step(s3, early[3]);
    var s5 := Step(s4, early[4]);
    assert Run(s0, early) == Run(s1, early[1..]) && early[1..][1..] == early[2..];
    assert Run(s1, early[1..]) == Run(s2, early[2..]) && early[2..][1..] == early[3..];
    assert Run(s2, early[2..]) == Run(s3, early[3..]) && early[3..][1..] == early[4..];
    assert Run(s3, early[3..]) == Run(s4, early[4..]) && early[4..][1..] == [];
    assert Run(s4, early[4..]) == s5;
  }

  // ------------------------------------------------------------------ requests

  function StartUp(m: Up): seq<nat> {
    if m.request.StartSession? then [m.tag] else []
  }

  function StartDown(m: Down): seq<nat> {
    if m.reply.SessionResult? then [m.tag] else []
  }

  function DirUp(m: Up): seq<nat> {
    if m.request.EnsureSharedDir? then [m.tag] else []
  }

  function DirDown(m: Down): seq<nat> {
    if m.reply.SharedDirResult? then [m.tag] else []
  }

  /** The queues list exactly the answers under way and then the requests under way. */
  ghost predicate Aligned(s: System) {
    && s.library.startQueue == Cat(StartDown, s.down) + Cat(StartUp, s.up)
    && s.library.dirQueue == Cat(DirDown, s.down) + Cat(DirUp, s.up)
  }

  /** An asynchronous request whose send failed: it stays queued. */
  predicate LeavesOrphan(e: Event) {
    || (e.LibraryStart? && !e.sync && !e.sent)
    || (e.LibraryEnsureDir? && !e.sync && !e.sent)
  }

  lemma SendAligned(s: System, r: Request, tag: nat)
    ensures Cat(StartUp, Send(s, r, tag, true).up) == Cat(StartUp, s.up) + StartUp(Up(r, tag))
    ensures Cat(DirUp, Send(s, r, tag, true).up) == Cat(DirUp, s.up) + DirUp(Up(r, tag))
  {
    hide Cat;
    CatSnoc(StartUp, s.up, Up(r, tag));
    CatSnoc(DirUp, s.up, Up(r, tag));
  }

  lemma ReportAligned(s: System, r: Reply, tag: nat)
    ensures Cat(StartDown, Report(s, r, tag).down) == Cat(StartDown, s.down) + StartDown(Down(r, tag))
    ensures Cat(DirDown, Report(s, r, tag).down) == Cat(DirDown, s.down) + DirDown(Down(r, tag))
  {
    hide Cat;
    CatSnoc(StartDown, s.down, Down(r, tag));
    CatSnoc(DirDown, s.down, Down(r, tag));
  }

  /** The daemon's answer takes the place of the request that it answers. */
  lemma DaemonReadsAligned(s: System, w: World)
    requires Aligned(s) && s.up != []
    ensures Aligned(DaemonReads(s, w)) && DaemonReads(s, w).completed == s.completed
  {
    hide Handle, Cat;
    var m := s.up[0];
    HandleReplies(s.daemon, m.request, w);
    var r := Handle(s.daemon, m.request, w);
    CatHead(StartUp, s.up);
    CatHead(DirUp, s.up);
    var starts, dirs := Cat(StartUp, s.up[1..]), Cat(DirUp, s.up[1..]);
    var downStarts, downDirs := Cat(StartDown, s.down), Cat(DirDown, s.down);
    assert s.library.startQueue == downStarts + (StartUp(m) + starts) == (downStarts + StartUp(m)) + starts;
    assert s.library.dirQueue == downDirs + (DirUp(m) + dirs) == (downDirs + DirUp(m)) + dirs;
    var t := s.(up := s.up[1..], daemon := r.state,
                sessionTag := if m.request.Authenticate? || m.request.AuthenticateRemote? then m.tag else s.sessionTag);
    if r.replies == [] {
      assert StartUp(m) == [] && DirUp(m) == [];
      assert downStarts + [] == downStarts && downDirs + [] == downDirs;
    } else {
      ReportAligned(t, r.replies[0], m.tag);
      assert StartDown(Down(r.replies[0], m.tag)) == StartUp(m) && DirDown(Down(r.replies[0], m.tag)) == DirUp(m);
    }
  }

  lemma OnReplyQueues(l: Library, r: Reply)
    ensures r.PromptAuthentication? ==> var k := OnPrompt(l, r.number, r.username, r.messages);
                                        k.startQueue == l.startQueue && k.dirQueue == l.dirQueue
    ensures r.EndAuthentication? ==> var k := OnEnd(l, r.number, r.username, r.result);
                                     k.startQueue == l.startQueue && k.dirQueue == l.dirQueue
  {
  }

  /** The answer that comes next is for the request that heads the queue. */
  lemma AnsweredFirst(s: System)
    requires Aligned(s) && s.down != [] && s.down[0].reply.SessionResult?
    ensures s.library.startQueue != [] && s.library.startQueue[0] == s.down[0].tag
  {
    hide Cat;
    CatHead(StartDown, s.down);
    assert s.library.startQueue == [s.down[0].tag] + (Cat(StartDown, s.down[1..]) + Cat(StartUp, s.up));
  }

  lemma LibraryReadsAligned(s: System)
    requires Aligned(s) && s.down != []
    ensures Aligned(LibraryReads(s)) && s.completed <= LibraryReads(s).completed
    ensures forall c <- LibraryReads(s).completed[|s.completed|..] :: c.request == c.answer
  {
    hide Cat, OnPrompt, OnEnd;
    var m, t := s.down[0], LibraryReads(s);
    var starts, dirs := Cat(StartDown, s.down[1..]), Cat(DirDown, s.down[1..]);
    CatHead(StartDown, s.down);
    CatHead(DirDown, s.down);
    OnReplyQueues(s.library, m.reply);
    if m.reply.SessionResult? {
      assert s.library.startQueue == [m.tag] + (starts + Cat(StartUp, s.up));
    } else if m.reply.SharedDirResult? {
      assert s.library.dirQueue == [m.tag] + (dirs + Cat(DirUp, s.up));
    } else {
      assert t.library.startQueue == s.library.startQueue && t.library.dirQueue == s.library.dirQueue;
    }
  }

  /** The queues stay aligned exactly when no send of an asynchronous request fails. */
  lemma StepAligned(s: System, e: Event)
    requires Aligned(s)
    ensures Aligned(Step(s, e)) <==> !LeavesOrphan(e)
    ensures s.completed <= Step(s, e).completed
    ensures forall c <- Step(s, e).completed[|s.completed|..] :: c.request == c.answer
  {
    hide Aligned, DaemonReads, LibraryReads;
    if e.DaemonRead? {
      if s.up != [] {
        DaemonReadsAligned(s, e.world);
      }
    } else if e.LibraryRead? {
      if s.down != [] {
        LibraryReadsAligned(s);
      }
    } else if e.LibraryStart? || e.LibraryEnsureDir? {
      RequestAligned(s, e);
    } else if e.DaemonPrompt? || e.DaemonComplete? || e.DaemonIdle? || e.DaemonReset? {
      QuietReportAligned(s, e);
    } else {
      OtherAligned(s, e);
    }
  }

  lemma RequestAligned(s: System, e: Event)
    requires Aligned(s) && (e.LibraryStart? || e.LibraryEnsureDir?)
    ensures Aligned(Step(s, e)) <==> !LeavesOrphan(e)
    ensures Step(s, e).completed == s.completed
  {
    hide Cat;
    var r := if e.LibraryStart? then StartSession(e.name) else EnsureSharedDir(e.name);
    SendAligned(s, r, s.requests);
    var starts, dirs := Cat(StartUp, s.up), Cat(DirUp, s.up);
    assert starts + [] == starts && dirs + [] == dirs;
    assert Cat(StartDown, s.down) + starts + StartUp(Up(r, s.requests)) == Cat(StartDown, s.down) + (starts + StartUp(Up(r, s.requests)));
    assert Cat(DirDown, s.down) + dirs + DirUp(Up(r, s.requests)) == Cat(DirDown, s.down) + (dirs + DirUp(Up(r, s.requests)));
    if LeavesOrphan(e) {
      assert |Step(s, e).library.startQueue| + |Step(s, e).library.dirQueue| == |s.library.startQueue| + |s.library.dirQueue| + 1;
    }
  }

  lemma OtherAligned(s: System, e: Event)
    requires Aligned(s)
    requires e.LibraryConnect? || e.LibraryAuthenticate? || e.LibraryGuest? || e.LibraryRemote? || e.LibraryContinue? || e.LibraryCancel?
    ensures Aligned(Step(s, e)) && Step(s, e).completed == s.completed
  {
    hide Cat;
    var t := Step(s, e);
    assert Cat(StartUp, s.up) + [] == Cat(StartUp, s.up) && Cat(DirUp, s.up) + [] == Cat(DirUp, s.up);
    if |t.up| > |s.up| {
      var m := t.up[|s.up|];
      assert t.up == Send(s, m.request, m.tag, true).up;
      SendAligned(s, m.request, m.tag);
    }
  }

  lemma QuietReportAligned(s: System, e: Event)
    requires Aligned(s) && (e.DaemonPrompt? || e.DaemonComplete? || e.DaemonIdle? || e.DaemonReset?)
    ensures Aligned(Step(s, e)) && Step(s, e).completed == s.completed
  {
    hide Cat;
    var t := Step(s, e);
    assert Cat(StartDown, s.down) + [] == Cat(StartDown, s.down) && Cat(DirDown, s.down) + [] == Cat(DirDown, s.down);
    if |t.down| > |s.down| {
      var m := t.down[|s.down|];
      assert t.down == Report(s, m.reply, m.tag).down;
      ReportAligned(s, m.reply, m.tag);
    }
  }

  /**
    While all sends succeed, every start-session and shared-directory request is completed by
    the daemon's answer to that same request, in any interleaving.
   */
  lemma {:induction false} RunMatched(s: System, events: seq<Event>)
    requires Aligned(s) && (forall c <- s.completed :: c.request == c.answer)
    requires forall e <- events :: !LeavesOrphan(e)
    ensures Aligned(Run(s, events)) && forall c <- Run(s, events).completed :: c.request == c.answer
    decreases |events|
  {
    if events != [] {
      StepAligned(s, events[0]);
      var t := Step(s, events[0]);
      assert t.completed == s.completed + t.completed[|s.completed|..];
      RunMatched(t, events[1..]);
    }
  }

  /**
    An asynchronous request whose send failed does take a later answer: the second request is
    answered, and the first is completed with it.
   */
  lemma OrphanTakesAnswer(s: System, name: Option<Text>, w: World)
    requires Aligned(s) && s.up == [] && s.down == []
    ensures var orphaned := Run(s, [LibraryStart(name, false, false), LibraryStart(name, false, true), DaemonRead(w), LibraryRead]);
            && orphaned.completed == s.completed + [Completion(s.requests, s.requests + 1)]
            && orphaned.library.startQueue == [s.requests + 1]
  {
    var e := [LibraryStart(name, false, false), LibraryStart(name, false, true), DaemonRead(w), LibraryRead];
    hide Step, Aligned;
    var a := Step(s, e[0]);
    var b := Step(a, e[1]);
    OrphanQueued(s, name);
    var c := Step(b, e[2]);
    OrphanAnswered(b, w);
    var d := Step(c, e[3]);
    OrphanCompleted(c);
    assert Run(s, e) == Run(a, e[1..]) && e[1..][1..] == e[2..];
    assert Run(a, e[1..]) == Run(b, e[2..]) && e[2..][1..] == e[3..];
    assert Run(b, e[2..]) == Run(c, e[3..]) && e[3..][1..] == [];
    assert Run(c, e[3..]) == d;
  }

  lemma OrphanQueued(s: System, name: Option<Text>)
    requires Aligned(s) && s.up == [] && s.down == []
    ensures var t := Step(Step(s, LibraryStart(name, false, false)), LibraryStart(name, false, true));
            && t.library.startQueue == [s.requests, s.requests + 1] && t.up == [Up(StartSession(name), s.requests + 1)]
            && t.down == [] && t.completed == s.completed
  {
    assert s.library.startQueue == [] + [];
  }

  lemma OrphanCompleted(s: System)
    requires |s.down| == 1 && s.down[0].reply.SessionResult? && s.library.startQueue != []
    ensures var t := Step(s, LibraryRead);
            t.completed == s.completed + [Completion(s.library.startQueue[0], s.down[0].tag)] && t.library.startQueue == s.library.startQueue[1..]
  {
  }

  lemma OrphanAnswered(s: System, w: World)
    requires |s.up| == 1 && s.up[0].request.StartSession? && s.down == []
    ensures var t := Step(s, DaemonRead(w));
            |t.down| == 1 && t.down[0].reply.SessionResult? && t.down[0].tag == s.up[0].tag && t.library == s.library && t.completed == s.completed
  {
    hide Handle;
    HandleReplies(s.daemon, s.up[0].request, w);
  }
}
