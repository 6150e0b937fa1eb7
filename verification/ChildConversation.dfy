/**
  The whole conversation of the daemon with a session child (src/session.c,
  src/session-child.c), both programs in turn over their two pipes.
 */
module ChildConversation {
  import opened Octets
  import opened ChildPipe

  // ------------------------------------------------------------------ the child's readers

  method TakeSize(p: Pipe) returns (v: nat)
    modifies p
    ensures Read(v, p.octets) == ReadSize(old(p.octets))
  {
    var b := p.ReadData(8);
    v := FromLe(b);
  }

  method TakeShort(p: Pipe) returns (v: nat)
    modifies p
    ensures Read(v, p.octets) == ReadShort(old(p.octets))
  {
    var b := p.ReadData(2);
    v := FromLe(b);
  }

  /** `read_xauth`. */
  method TakeAuthority(p: Pipe) returns (a: Option<Authority>)
    modifies p
    ensures Read(a, p.octets) == ReadAuthority(old(p.octets))
  {
    hide ReadString, ReadSize, ReadShort, Take;
    var name := p.ReadText();
    if name.None? {
      return None;
    }
    var family := TakeShort(p);
    var addressLength := TakeSize(p);
    var address := p.ReadData(addressLength);
    var number := p.ReadText();
    var dataLength := TakeSize(p);
    var data := p.ReadData(dataLength);
    a := Some(Authority(name.value, family % U16, address, number, data));
  }

  /** What `session_child_run` reads before it starts PAM. */
  method TakeConfig(p: Pipe) returns (c: Config)
    modifies p
    ensures Read(c, p.octets) == ReadConfig(old(p.octets))
  {
    hide ReadString, ReadInt, ReadAuthority;
    var _ := p.ReadAnInt();
    var service := p.ReadText();
    var username := p.ReadText();
    var doAuthenticate := p.ReadAnInt();
    var isInteractive := p.ReadAnInt();
    var _ := p.ReadText();
    var tty := p.ReadText();
    var remoteHost := p.ReadText();
    var xdisplay := p.ReadText();
    var authority := TakeAuthority(p);
    c := Config(service, username, doAuthenticate != 0, isInteractive != 0, tty, remoteHost, xdisplay, authority);
  }

  /** The loops over the environment and the arguments. */
  method TakeStrings(p: Pipe, n: nat) returns (ts: seq<Option<Text>>)
    modifies p
    ensures Read(ts, p.octets) == ReadStrings(old(p.octets), n)
  {
    hide ReadString;
    ghost var start := p.octets;
    ts := [];
    for i := 0 to n
      invariant var all := ReadStrings(start, n); var left := ReadStrings(p.octets, n - i);
                all.value == ts + left.value && all.rest == left.rest
    {
      var t := p.ReadText();
      ts := ts + [t];
    }
    assert ts + [] == ts;
  }

  /** The command block, which the child reads once it has reported success. */
  method TakeCommand(p: Pipe) returns (c: Command)
    modifies p
    ensures Read(c, p.octets) == ReadCommand(old(p.octets))
  {
    hide ReadString, ReadInt, ReadSize, ReadAuthority, ReadStrings;
    var log := p.ReadText();
    var logMode := p.ReadAnInt();
    var tty := p.ReadText();
    var authorityFile := p.ReadText();
    var xdisplay := p.ReadText();
    var authority := TakeAuthority(p);
    var envLength := TakeSize(p);
    var env := TakeStrings(p, envLength);
    var argc := TakeSize(p);
    var argv := TakeStrings(p, argc);
    c := Command(log, AsInt(logMode), tty, authorityFile, xdisplay, authority, env, argv);
  }

  method TakeIdentifiers(p: Pipe) returns (i: Identifiers)
    modifies p
    ensures Read(i, p.octets) == ReadIdentifiers(old(p.octets))
  {
    hide ReadString;
    var login1 := p.ReadText();
    var consoleKit := p.ReadText();
    i := Identifiers(login1, consoleKit);
  }

  // ------------------------------------------------------------------ one exchange each

  method SayConfig(p: Pipe, c: Config) returns (heard: Config)
    requires ConfigFits(c) && p.octets == []
    modifies p
    ensures heard == c && p.octets == []
  {
    hide Encoded, ConfigItems, ReadConfig, ConfigFits;
    p.WriteAll(ConfigItems(c));
    ConfigBack(c, []);
    Alone(ConfigItems(c));
    heard := TakeConfig(p);
  }

  method SayReport(p: Pipe, r: Report) returns (heard: Report)
    requires ReportFits(r) && p.octets == []
    modifies p
    ensures heard == r && p.octets == []
  {
    hide Encoded, ReportItems, ReadReport, ReportFits;
    p.WriteAll(ReportItems(r));
    ReportBack(r, []);
    Alone(ReportItems(r));
    heard := FromChildRead(p);
  }

  method SayAnswer(p: Pipe, a: Answer, n: nat) returns (heard: Answer)
    requires AnswerFits(a) && (a.Responses? ==> |a.responses| == n) && p.octets == []
    modifies p
    ensures heard == a && p.octets == []
  {
    hide Encoded, AnswerItems, ReadAnswer, AnswerFits;
    p.WriteAll(AnswerItems(a));
    AnswerBack(a, n, []);
    Alone(AnswerItems(a));
    heard := PamConvReadAnswer(p, n);
  }

  method SayCommand(p: Pipe, c: Command) returns (heard: Command)
    requires CommandFits(c) && p.octets == []
    modifies p
    ensures heard == c && p.octets == []
  {
    hide Encoded, CommandItems, ReadCommand, CommandFits;
    p.WriteAll(CommandItems(c));
    CommandBack(c, []);
    Alone(CommandItems(c));
    heard := TakeCommand(p);
  }

  method SayIdentifiers(p: Pipe, i: Identifiers) returns (heard: Identifiers)
    requires Short?(i.login1) && Short?(i.consoleKit) && p.octets == []
    modifies p
    ensures heard == i && p.octets == []
  {
    hide Encoded, IdentifierItems, ReadIdentifiers;
    p.WriteAll(IdentifierItems(i));
    IdentifiersBack(i, []);
    Alone(IdentifierItems(i));
    heard := TakeIdentifiers(p);
  }

  lemma Alone(items: seq<Item>)
    ensures items + [] == items && Encoded([]) == [] && [] + Encoded(items) == Encoded(items)
  {
  }

  // ------------------------------------------------------------------ the whole conversation

  /** The messages of one PAM round and what the daemon answers. */
  datatype Round = Round(username: Option<Text>, messages: seq<Message>, answer: Answer)

  predicate RoundFits(r: Round) {
    ReportFits(Asking(r.username, r.messages)) && AnswerFits(r.answer) && (r.answer.Responses? ==> |r.answer.responses| == |r.messages|)
  }

  /** What each side has understood of the other, and what is left in the pipes. */
  datatype Understood = Understood(config: Config, rounds: seq<Round>, result: Report,
    command: Option<Command>, identifiers: Option<Identifiers>, left: seq<octet>)

  /**
    Configuration, any number of PAM rounds, the result, and after a success the command block
    and, unless it was the empty block of a clean stop, the session identifiers. Each side
    decodes exactly what the other wrote and no octet is left over.
   */
  method Converse(config: Config, rounds: seq<Round>, username: Option<Text>, result: i32, text: Option<Text>,
                  command: Command, identifiers: Identifiers)
    returns (u: Understood)
    requires ConfigFits(config) && (forall r <- rounds :: RoundFits(r)) && ReportFits(Done(username, result, text))
    requires CommandFits(command) && Short?(identifiers.login1) && Short?(identifiers.consoleKit)
    ensures u.config == config && u.rounds == rounds && u.result == Done(username, result, text) && u.left == []
    ensures u.command == if username.Some? && result == 0 then Some(command) else None
    ensures u.identifiers == if username.Some? && result == 0 && command.argv != [] then Some(identifiers) else None
  {
    hide ConfigFits, ReportFits, AnswerFits, CommandFits;
    var toChild := new Pipe();
    var fromChild := new Pipe();
    var heardConfig := SayConfig(toChild, config);
    var heardRounds: seq<Round> := [];
    for i := 0 to |rounds|
      invariant toChild.octets == [] && fromChild.octets == [] && heardRounds == rounds[..i]
    {
      var r := rounds[i];
      assert r in rounds && RoundFits(r);
      var asked := SayReport(fromChild, Asking(r.username, r.messages));
      var answered := SayAnswer(toChild, r.answer, |r.messages|);
      heardRounds := heardRounds + [Round(asked.username, asked.messages, answered)];
    }
    assert rounds[..|rounds|] == rounds;
    var done := SayReport(fromChild, Done(username, result, text));
    var heardCommand, heardIdentifiers := None, None;
    // The child stops here unless it has a user and was authenticated. The daemon looks at the
    // result alone: what it might still write to a child that has ended is read by nobody.
    if done.username.Some? && done.result == 0 {
      var c := SayCommand(toChild, command);
      heardCommand := Some(c);
      if c.argv != [] {
        var i := SayIdentifiers(fromChild, identifiers);
        heardIdentifiers := Some(i);
      }
    }
    u := Understood(heardConfig, heardRounds, done, heardCommand, heardIdentifiers, toChild.octets + fromChild.octets);
  }

  /** A clean stop: the child finds nothing to run and writes nothing back. */
  method CleanStop(config: Config, username: Text, identifiers: Identifiers) returns (u: Understood)
    requires ConfigFits(config) && |username| <= MAX_STRING_LENGTH && Short?(identifiers.login1) && Short?(identifiers.consoleKit)
    ensures u.command == Some(CLEAN_STOP) && u.identifiers == None && u.left == []
  {
    u := Converse(config, [], Some(username), 0, None, CLEAN_STOP, identifiers);
  }
}
