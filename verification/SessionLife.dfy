/**
  The life of a session object in the daemon (src/session.c): started, heard from, run or
  stopped, and watched until its child exits. PAM, fork and the display server are inputs.
 */
module SessionLife {
  import opened Octets
  import ChildPipe

  type i32 = ChildPipe.i32

  const PAM_SUCCESS: i32 := 0
  const PAM_CONV_ERR: i32 := 19

  /** What a session has written, heard and emitted, oldest first. */
  datatype Entry =
    | WroteConfig
    | WroteCommand(command: ChildPipe.Command)
    | WroteCleanStop
    | Heard(report: ChildPipe.Report)
    | Messages
    | AuthenticationComplete
    | Terminated
    | Stopped(exited: bool)

  datatype State = State(
    pid: int,                     // 0: no child, -1: the fork failed
    listening: bool,              // from_child_watch
    username: Option<Text>,
    isGuest: bool,
    authStarted: bool,
    authComplete: bool,
    result: i32,
    argv: Option<seq<Option<Text>>>,
    commandRun: bool,
    stopping: bool,
    log: seq<Entry>)

  datatype Start = PipeFails | GuestFails | ForkFails(guestName: Text) | Forks(child: int, guestName: Text)

  datatype Event =
    | Starts(how: Start)
    | Reports(report: ChildPipe.Report)
    | HangsUp                             // G_IO_HUP alone
    | BreaksOff(username: Option<Text>)   // nothing after the username
    | Exits
    | SetArgv(argv: seq<Option<Text>>)
    | Runs(hasServer: bool, command: ChildPipe.Command)
    | Stops

  predicate Authenticated(s: State) {
    s.authComplete && s.result == PAM_SUCCESS
  }

  function Log(s: State, e: Entry): State {
    s.(log := s.log + [e])
  }

  function OnStart(s: State, how: Start): State {
    if s.pid != 0 || how.PipeFails? then s
    else
      var t := s.(listening := true);
      var guest := s.isGuest && s.username.None?;
      if how.GuestFails? then if guest then t else t.(pid := -1)
      else
        var u := t.(username := if guest then Some(how.guestName) else s.username);
        if how.ForkFails? || how.child <= 0 then u.(pid := -1)
        else Log(u.(pid := how.child, authStarted := true), WroteConfig)
  }

  function OnReport(s: State, r: ChildPipe.Report): State {
    if !s.listening then s
    else
      var t := Log(s.(username := r.username), Heard(r));
      if r.Asking? then Log(t, Messages)
      else Log(t.(authComplete := true, result := r.result, listening := false), AuthenticationComplete)
  }

  function OnExit(s: State): State {
    if s.pid <= 0 then s
    else
      var t := s.(pid := 0);
      var u := if s.authStarted && !s.authComplete
               then Log(t.(authComplete := true, result := PAM_CONV_ERR), AuthenticationComplete) else t;
      Log(u, Stopped(true))
  }

  predicate CanRun(s: State, hasServer: bool) {
    hasServer && !s.commandRun && Authenticated(s) && s.argv.Some? && s.pid != 0
  }

  function OnStop(s: State): State {
    if s.stopping then s
    else
      var t := s.(stopping := true);
      if Authenticated(s) && !s.commandRun then Log(t.(commandRun := true), WroteCleanStop)
      else Log(t, if s.pid > 0 then Terminated else Stopped(false))
  }

  function Step(s: State, e: Event): State {
    match e
    case Starts(how) => OnStart(s, how)
    case Reports(r) => OnReport(s, r)
    case HangsUp => s.(listening := false)
    case BreaksOff(u) => if s.listening then s.(username := u, listening := false) else s
    case Exits => OnExit(s)
    case SetArgv(argv) => s.(argv := Some(argv))
    case Runs(hasServer, c) =>
      if CanRun(s, hasServer) then Log(s.(commandRun := true), WroteCommand(c.(argv := s.argv.value))) else s
    case Stops => OnStop(s)
  }

  function Run(s: State, events: seq<Event>): (t: State)
    decreases |events|
  {
    if events == [] then s else Run(Step(s, events[0]), events[1..])
  }

  function New(username: Option<Text>, isGuest: bool): State {
    State(0, false, username, isGuest, false, false, 0, None, false, false, [])
  }

  // ------------------------------------------------------------------ the object

  class Session {
    var pid: int
    var listening: bool
    var username: Option<Text>
    var isGuest: bool
    var authStarted: bool
    var authComplete: bool
    var result: i32
    var argv: Option<seq<Option<Text>>>
    var commandRun: bool
    var stopping: bool
    var log: seq<Entry>

    ghost function View(): State
      reads this
    {
      State(pid, listening, username, isGuest, authStarted, authComplete, result, argv, commandRun, stopping, log)
    }

    constructor (username: Option<Text>, isGuest: bool)
      ensures View() == New(username, isGuest)
    {
      pid, listening, this.username, this.isGuest := 0, false, username, isGuest;
      authStarted, authComplete, result, argv := false, false, 0, None;
      commandRun, stopping, log := false, false, [];
    }

    predicate IsAuthenticated()
      reads this
    {
      authComplete && result == PAM_SUCCESS
    }

    method RealStart(how: Start) returns (ok: bool)
      modifies this
      ensures View() == Step(old(View()), Starts(how))
      ensures ok ==> pid > 0 && log == old(log) + [WroteConfig]
    {
      if pid != 0 {
        return false;
      }
      if how.PipeFails? {
        return false;
      }
      listening := true;
      if isGuest && username == None {
        if how.GuestFails? {
          return false;
        }
        username := Some(how.guestName);
      }
      pid := if how.Forks? && how.child > 0 then how.child else -1;
      if pid < 0 {
        return false;
      }
      authStarted := true;
      log := log + [WroteConfig];
      return true;
    }

    method FromChildCb(r: ChildPipe.Report)
      requires listening
      modifies this
      ensures View() == Step(old(View()), Reports(r))
    {
      log := log + [Heard(r)];
      if r.username != username {
        username := r.username;
      }
      if r.Done? {
        authComplete := true;
        result := r.result;
        listening := false;
        log := log + [AuthenticationComplete];
      } else {
        log := log + [Messages];
      }
    }

    method WatchCb()
      requires pid > 0
      modifies this
      ensures View() == Step(old(View()), Exits)
    {
      pid := 0;
      if authStarted && !authComplete {
        authComplete := true;
        result := PAM_CONV_ERR;
        log := log + [AuthenticationComplete];
      }
      log := log + [Stopped(true)];
    }

    method RealRun(hasServer: bool, c: ChildPipe.Command)
      modifies this
      ensures View() == Step(old(View()), Runs(hasServer, c))
    {
      if !hasServer {
        return;
      }
      if commandRun || !IsAuthenticated() || argv == None || pid == 0 {
        return;
      }
      commandRun := true;
      log := log + [WroteCommand(c.(argv := argv.value))];
    }

    method Stop()
      modifies this
      ensures View() == Step(old(View()), Stops)
    {
      if stopping {
        return;
      }
      stopping := true;
      if IsAuthenticated() && !commandRun {
        commandRun := true;
        log := log + [WroteCleanStop];
        return;
      }
      RealStop();
    }

    method RealStop()
      modifies `log
      ensures log == old(log) + [if pid > 0 then Terminated else Stopped(false)]
    {
      if pid > 0 {
        log := log + [Terminated];
      } else {
        log := log + [Stopped(false)];
      }
    }
  }

  // ------------------------------------------------------------------ what each call does

  /**
    A command is written exactly to the child of an authenticated session, guest or not, that has
    a display server and arguments and was sent no block before; it carries those arguments.
   */
  lemma RunWrites(s: State, hasServer: bool, c: ChildPipe.Command)
    ensures var t := Step(s, Runs(hasServer, c));
            if hasServer && s.authComplete && s.result == 0 && !s.commandRun && s.argv.Some? && s.pid != 0
            then t == s.(commandRun := true, log := s.log + [WroteCommand(c.(argv := s.argv.value))])
            else t == s
  {
  }

  /**
    The first stop leaves exactly one mark: the empty block for an authenticated child that was
    sent none, a termination for any other child, STOPPED without a child. A second does nothing.
   */
  lemma StopMarks(s: State)
    ensures var t := Step(s, Stops);
            && t.stopping && (s.stopping ==> t == s) && Step(t, Stops) == t
            && (!s.stopping ==>
                  && |t.log| == |s.log| + 1
                  && (t.log == s.log + [WroteCleanStop] <==> s.authComplete && s.result == 0 && !s.commandRun)
                  && (t.log == s.log + [Terminated] <==> s.pid > 0 && (s.commandRun || !s.authComplete || s.result != 0))
                  && (t.log == s.log + [Stopped(false)] <==> s.pid <= 0 && (s.commandRun || !s.authComplete || s.result != 0))
                  && t == s.(stopping := true, log := t.log, commandRun := s.commandRun || t.log == s.log + [WroteCleanStop]))
  {
    if !s.stopping {
      var t := Step(s, Stops);
      assert t.log[|s.log|] == t.log[|t.log| - 1];
    }
  }

  /**
    A start gives the session a child exactly if it had none, the pipe and the fork succeed and,
    for a guest without a name, the guest account was made; the child then has its configuration.
   */
  lemma StartForks(s: State, how: Start)
    ensures var t := Step(s, Starts(how));
            var guest := s.isGuest && s.username == None;
            && (how.Forks? && how.child > 0 && s.pid == 0 ==>
                  t == s.(pid := how.child, listening := true, authStarted := true, log := s.log + [WroteConfig],
                          username := if guest then Some(how.guestName) else s.username))
            && (s.pid == 0 && !(how.Forks? && how.child > 0) ==>
                  && t.log == s.log && t.authStarted == s.authStarted && (t.listening <==> s.listening || !how.PipeFails?)
                  && (t.pid == 0 <==> how.PipeFails? || (how.GuestFails? && guest)) && t.pid <= 0
                  && t == s.(pid := t.pid, listening := t.listening, username := t.username))
            && (s.pid != 0 ==> t == s)
  {
  }

  /** A report sets the username; a result also completes the authentication and ends the listening. */
  lemma ReportTells(s: State, r: ChildPipe.Report)
    ensures var t := Step(s, Reports(r));
            && (!s.listening ==> t == s)
            && (s.listening && r.Asking? ==> t == s.(username := r.username, log := s.log + [Heard(r), Messages]))
            && (s.listening && r.Done? ==>
                  t == s.(username := r.username, authComplete := true, result := r.result, listening := false,
                          log := s.log + [Heard(r), AuthenticationComplete]))
  {
    assert s.log + [Heard(r)] + [Messages] == s.log + [Heard(r), Messages];
    assert s.log + [Heard(r)] + [AuthenticationComplete] == s.log + [Heard(r), AuthenticationComplete];
  }

  /** A pipe that closes ends the listening; a username that came before it did is kept. */
  lemma SilenceTells(s: State, username: Option<Text>)
    ensures Step(s, HangsUp) == s.(listening := false)
    ensures s.listening ==> Step(s, BreaksOff(username)) == s.(username := username, listening := false)
    ensures !s.listening ==> Step(s, BreaksOff(username)) == s
  {
  }

  /** An exit ends with STOPPED; one in mid-authentication is first a conversation error. */
  lemma ExitTells(s: State)
    requires s.pid > 0
    ensures var t := Step(s, Exits);
            var midway := s.authStarted && !s.authComplete;
            && (midway ==> t == s.(pid := 0, authComplete := true, result := 19, log := s.log + [AuthenticationComplete, Stopped(true)]))
            && (!midway ==> t == s.(pid := 0, log := s.log + [Stopped(true)]))
  {
    assert s.log + [AuthenticationComplete] + [Stopped(true)] == s.log + [AuthenticationComplete, Stopped(true)];
  }

  /** A new session has no child, has heard, written and emitted nothing, and is neither authenticated nor stopping. */
  lemma NewIsIdle(username: Option<Text>, isGuest: bool)
    ensures var s := New(username, isGuest);
            && s.pid == 0 && s.argv == None && s.log == [] && s.username == username && s.isGuest == isGuest
            && !(s.listening || s.authStarted || s.authComplete || s.commandRun || s.stopping)
  {
  }

  /** A session that goes well: whoever it is for, its child reports success, is sent the command and exits. */
  lemma GoesWell(username: Option<Text>, isGuest: bool, child: int, name: Text, argv: seq<Option<Text>>, c: ChildPipe.Command)
    requires child > 0
    ensures var done := ChildPipe.Done(Some(name), 0, None);
            var t := Run(New(username, isGuest), [Starts(Forks(child, name)), SetArgv(argv), Reports(done), Runs(true, c), Exits]);
            && Authenticated(t) && t.username == Some(name) && t.commandRun && t.pid == 0
            && t.log == [WroteConfig, Heard(done), AuthenticationComplete, WroteCommand(c.(argv := argv)), Stopped(true)]
  {
    hide Step;
    var done := ChildPipe.Done(Some(name), 0, None);
    var es := [Starts(Forks(child, name)), SetArgv(argv), Reports(done), Runs(true, c), Exits];
    var s := New(username, isGuest);
    var s1 := Step(s, es[0]);
    StartForks(s, Forks(child, name));
    var s2 := Step(s1, es[1]);
    assert s2 == s1.(argv := Some(argv)) by { ArgvSet(s1, argv); }
    var s3 := Step(s2, es[2]);
    ReportTells(s2, done);
    var s4 := Step(s3, es[3]);
    RunWrites(s3, true, c);
    var s5 := Step(s4, es[4]);
    ExitTells(s4);
    FiveSteps(s, es);
  }

  lemma ArgvSet(s: State, argv: seq<Option<Text>>)
    ensures Step(s, SetArgv(argv)) == s.(argv := Some(argv))
  {
  }

  lemma FiveSteps(s: State, es: seq<Event>)
    requires |es| == 5
    ensures Run(s, es) == Step(Step(Step(Step(Step(s, es[0]), es[1]), es[2]), es[3]), es[4])
  {
    hide Step;
    var a := Step(s, es[0]);
    var b := Step(a, es[1]);
    var c := Step(b, es[2]);
    var d := Step(c, es[3]);
    assert Run(a, es[1..]) == Run(b, es[2..]) by { assert es[1..][1..] == es[2..]; }
    assert Run(b, es[2..]) == Run(c, es[3..]) by { assert es[2..][1..] == es[3..]; }
    assert Run(c, es[3..]) == Run(d, es[4..]) by { assert es[3..][1..] == es[4..]; }
    var last := es[4..];
    assert last[0] == es[4] && last[1..] == [];
    assert Run(d, last) == Run(Step(d, last[0]), []);
  }

  // ------------------------------------------------------------------ every run

  predicate IsBlock(e: Entry) {
    e.WroteCommand? || e.WroteCleanStop?
  }

  predicate IsSuccess(e: Entry) {
    e.Heard? && e.report.Done? && e.report.result == PAM_SUCCESS
  }

  /** Every entry of a kind has one of another kind before it. */
  ghost predicate Preceded(log: seq<Entry>, later: Entry -> bool, earlier: Entry -> bool) {
    forall j :: 0 <= j < |log| && later(log[j]) ==> exists i :: 0 <= i < j && earlier(log[i])
  }

  /** The command blocks in a log. */
  function Blocks(log: seq<Entry>): (n: nat) {
    if log == [] then 0 else Blocks(log[..|log| - 1]) + if IsBlock(log[|log| - 1]) then 1 else 0
  }

  predicate IsExit(e: Entry) {
    e == Stopped(true)
  }

  predicate IsCompletion(e: Entry) {
    e == AuthenticationComplete
  }

  ghost predicate Inv(s: State) {
    && (s.pid > 0 ==> s.authStarted)
    && Blocks(s.log) == (if s.commandRun then 1 else 0)
    && (Authenticated(s) ==> exists e <- s.log :: IsSuccess(e))
    && (s.authComplete ==> AuthenticationComplete in s.log)
    && Preceded(s.log, IsBlock, IsSuccess)
    && Preceded(s.log, IsExit, IsCompletion)
  }

  lemma BlocksLog(s: State, e: Entry)
    ensures Blocks(Log(s, e).log) == Blocks(s.log) + if IsBlock(e) then 1 else 0
  {
    assert (s.log + [e])[..|s.log|] == s.log;
  }

  lemma PrecededLog(log: seq<Entry>, e: Entry, later: Entry -> bool, earlier: Entry -> bool)
    requires Preceded(log, later, earlier)
    requires later(e) ==> exists x <- log :: earlier(x)
    ensures Preceded(log + [e], later, earlier)
  {
    var all := log + [e];
    forall j | 0 <= j < |all| && later(all[j]) ensures exists i :: 0 <= i < j && earlier(all[i]) {
      if j < |log| {
        assert later(log[j]);
        var i :| 0 <= i < j && earlier(log[i]);
        assert all[i] == log[i];
      } else {
        var x :| x in log && earlier(x);
        var i :| 0 <= i < |log| && log[i] == x;
        assert all[i] == x;
      }
    }
  }

  /** One more entry keeps the two orders if what it needs is there already. */
  lemma LogKeeps(s: State, e: Entry)
    requires Preceded(s.log, IsBlock, IsSuccess) && Preceded(s.log, IsExit, IsCompletion)
    requires IsBlock(e) ==> exists x <- s.log :: IsSuccess(x)
    requires IsExit(e) ==> AuthenticationComplete in s.log
    ensures Preceded(Log(s, e).log, IsBlock, IsSuccess) && Preceded(Log(s, e).log, IsExit, IsCompletion)
    ensures Blocks(Log(s, e).log) == Blocks(s.log) + if IsBlock(e) then 1 else 0
    ensures forall x <- s.log :: x in Log(s, e).log
    ensures e in Log(s, e).log
  {
    BlocksLog(s, e);
    PrecededLog(s.log, e, IsBlock, IsSuccess);
    assert IsExit(e) ==> exists x <- s.log :: IsCompletion(x) by {
      if IsExit(e) {
        assert IsCompletion(AuthenticationComplete);
      }
    }
    PrecededLog(s.log, e, IsExit, IsCompletion);
  }

  lemma StartKeepsInv(s: State, how: Start)
    requires Inv(s)
    ensures Inv(OnStart(s, how))
  {
    hide Preceded, Blocks;
    LogKeeps(s, WroteConfig);
  }

  lemma ReportKeepsInv(s: State, r: ChildPipe.Report)
    requires Inv(s)
    ensures Inv(OnReport(s, r))
  {
    hide Preceded, Blocks;
    var t := Log(s, Heard(r));
    LogKeeps(s, Heard(r));
    LogKeeps(t, Messages);
    LogKeeps(t, AuthenticationComplete);
    if s.listening {
      if r.Done? {
        assert OnReport(s, r).log == Log(t, AuthenticationComplete).log;
        assert r.result == PAM_SUCCESS ==> IsSuccess(Heard(r));
      } else {
        assert OnReport(s, r).log == Log(t, Messages).log;
      }
    }
  }

  lemma ExitKeepsInv(s: State)
    requires Inv(s)
    ensures Inv(OnExit(s))
  {
    hide Preceded, Blocks;
    if s.pid > 0 {
      if s.authComplete {
        LogKeeps(s, Stopped(true));
      } else {
        LogKeeps(s, AuthenticationComplete);
        LogKeeps(Log(s, AuthenticationComplete), Stopped(true));
        assert OnExit(s).log == Log(Log(s, AuthenticationComplete), Stopped(true)).log;
      }
    }
  }

  lemma BlockKeepsInv(s: State, e: Event)
    requires Inv(s) && (e.Runs? || e.Stops?)
    ensures Inv(Step(s, e))
  {
    hide Preceded, Blocks;
    var t := Step(s, e);
    if |t.log| > |s.log| {
      var x := t.log[|s.log|];
      assert t.log == Log(s, x).log;
      LogKeeps(s, x);
    }
  }

  lemma StepKeepsInv(s: State, e: Event)
    requires Inv(s)
    ensures Inv(Step(s, e))
  {
    hide OnStart, OnReport, OnExit, OnStop;
    match e {
      case Starts(how) => StartKeepsInv(s, how);
      case Reports(r) => ReportKeepsInv(s, r);
      case Exits => ExitKeepsInv(s);
      case Runs(_, _) => BlockKeepsInv(s, e);
      case Stops => BlockKeepsInv(s, e);
      case _ =>
    }
  }

  lemma {:induction false} RunKeepsInv(s: State, events: seq<Event>)
    requires Inv(s)
    ensures Inv(Run(s, events))
    decreases |events|
  {
    if events != [] {
      StepKeepsInv(s, events[0]);
      RunKeepsInv(Step(s, events[0]), events[1..]);
    }
  }

  lemma {:induction false} BlocksApart(log: seq<Entry>, i: nat, j: nat)
    requires i < j < |log| && IsBlock(log[i]) && IsBlock(log[j])
    ensures Blocks(log) >= 2
    decreases |log|
  {
    var n := |log| - 1;
    if j < n {
      BlocksApart(log[..n], i, j);
    } else {
      OneBlock(log[..n], i);
    }
  }

  lemma {:induction false} OneBlock(log: seq<Entry>, i: nat)
    requires i < |log| && IsBlock(log[i])
    ensures Blocks(log) >= 1
    decreases |log|
  {
    if i < |log| - 1 {
      OneBlock(log[..|log| - 1], i);
    }
  }

  /**
    In every run the child gets at most one command block, from a run or from a clean stop and
    never from both, after it reported success; and STOPPED on the exit path comes after the
    authentication was declared complete.
   */
  lemma OneCommandBlock(username: Option<Text>, isGuest: bool, events: seq<Event>)
    ensures var log := Run(New(username, isGuest), events).log;
            && (forall i, j :: 0 <= i < |log| && 0 <= j < |log| && IsBlock(log[i]) && IsBlock(log[j]) ==> i == j)
            && (forall j :: 0 <= j < |log| && IsBlock(log[j]) ==> exists i :: 0 <= i < j && IsSuccess(log[i]))
            && (forall j :: 0 <= j < |log| && log[j] == Stopped(true) ==> exists i :: 0 <= i < j && log[i] == AuthenticationComplete)
  {
    var s := Run(New(username, isGuest), events);
    RunKeepsInv(New(username, isGuest), events);
    hide Run;
    forall i, j | 0 <= i < |s.log| && 0 <= j < |s.log| && IsBlock(s.log[i]) && IsBlock(s.log[j]) ensures i == j {
      if i < j {
        BlocksApart(s.log, i, j);
      } else if j < i {
        BlocksApart(s.log, j, i);
      }
    }
    forall j | 0 <= j < |s.log| && s.log[j] == Stopped(true)
      ensures exists i :: 0 <= i < j && s.log[i] == AuthenticationComplete
    {
      assert IsExit(s.log[j]);
      var i :| 0 <= i < j && IsCompletion(s.log[i]);
    }
  }

  // ------------------------------------------------------------------ once authenticated

  /** An authenticated session no longer listens to its child. */
  predicate Settled(s: State) {
    Authenticated(s) ==> !s.listening
  }

  /** The call of `session_start` on an authenticated session that has no child any more. */
  predicate Restarts(s: State, e: Event) {
    e.Starts? && !e.how.PipeFails? && s.pid == 0 && Authenticated(s)
  }

  /** Nothing but a restart makes an authenticated session listen again. */
  lemma StaysSettled(s: State, e: Event)
    requires Settled(s)
    ensures Settled(Step(s, e)) <==> !Restarts(s, e)
    ensures Authenticated(s) && !Restarts(s, e) ==> Authenticated(Step(s, e)) && Step(s, e).username == s.username
  {
  }

  /** No event of the run restarts the session. */
  ghost predicate NeverRestarts(s: State, events: seq<Event>)
    decreases |events|
  {
    events == [] || (!Restarts(s, events[0]) && NeverRestarts(Step(s, events[0]), events[1..]))
  }

  /** Once authenticated, a session stays so with the same username, in every run that does not restart it. */
  lemma {:induction false} StaysAuthenticated(s: State, events: seq<Event>)
    requires Settled(s) && Authenticated(s) && NeverRestarts(s, events)
    ensures Authenticated(Run(s, events)) && Run(s, events).username == s.username
    decreases |events|
  {
    if events != [] {
      StaysSettled(s, events[0]);
      StaysAuthenticated(Step(s, events[0]), events[1..]);
    }
  }

  /** A session that is restarted stays authenticated while its new child names another user. */
  lemma RestartChangesUser(alice: Text, mallory: Text)
    requires alice != mallory
    ensures var s := Run(New(Some(alice), false), [Starts(Forks(1, [])), Reports(ChildPipe.Done(Some(alice), 0, None)), Exits]);
            var t := Run(s, [Starts(Forks(2, [])), Reports(ChildPipe.Asking(Some(mallory), []))]);
            Authenticated(s) && s.username == Some(alice) && Authenticated(t) && t.username == Some(mallory)
  {
    var done, ask := Reports(ChildPipe.Done(Some(alice), 0, None)), Reports(ChildPipe.Asking(Some(mallory), []));
    var first, second := [Starts(Forks(1, [])), done, Exits], [Starts(Forks(2, [])), ask];
    var s0 := New(Some(alice), false);
    var s1 := Step(s0, first[0]);
    var s2 := Step(s1, done);
    var s3 := Step(s2, Exits);
    assert first[1..] == [done, Exits] && first[1..][1..] == [Exits] && second[1..] == [ask];
    assert Run(s0, first) == Run(s1, [done, Exits]) == Run(s2, [Exits]) == Run(s3, [Exits][1..]) == s3;
    var t := Step(s3, second[0]);
    assert Run(s3, second) == Run(t, [ask]) == Run(Step(t, ask), [ask][1..]) == Step(t, ask);
  }
}
