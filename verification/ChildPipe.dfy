/**
  The conversation between the daemon and a session child over two pipes, protocol version 3
  (src/session.c, src/session-child.c): configuration, rounds of PAM messages, the result, the
  command block, the session identifiers. Integers are written as they lie in memory; the
  layout here is little-endian with 4-octet int and 8-octet gsize.
 */
module ChildPipe {
  import opened Octets

  const MAX_STRING_LENGTH := 65535
  const VERSION: i32 := 3

  type i32 = x: int | -0x8000_0000 <= x < 0x8000_0000
  const U64 := 0x1_0000_0000_0000_0000

  // ------------------------------------------------------------------ native integers

  function Le(width: nat, v: nat): (b: seq<octet>)
    ensures |b| == width
  {
    if width == 0 then [] else [v % 256] + Le(width - 1, v / 256)
  }

  function FromLe(b: seq<octet>): (v: nat) {
    if b == [] then 0 else b[0] as int + 256 * FromLe(b[1..])
  }

  function Pow256(n: nat): nat {
    if n == 0 then 1 else 256 * Pow256(n - 1)
  }

  lemma {:induction false} LeRoundTrip(width: nat, v: nat)
    requires v < Pow256(width)
    ensures FromLe(Le(width, v)) == v
  {
    if width > 0 {
      LeRoundTrip(width - 1, v / 256);
      assert Le(width, v)[1..] == Le(width - 1, v / 256);
    }
  }

  lemma Widths()
    ensures Pow256(2) == U16 && Pow256(4) == U32 && Pow256(8) == U64
  {
    assert Pow256(2) == 256 * Pow256(1) && Pow256(1) == 256;
    assert Pow256(4) == 256 * Pow256(3) && Pow256(3) == 256 * Pow256(2);
    assert Pow256(6) == 256 * Pow256(5) && Pow256(5) == 256 * Pow256(4);
    assert Pow256(8) == 256 * Pow256(7) && Pow256(7) == 256 * Pow256(6);
  }

  /** A two's complement int. */
  function IntOctets(v: i32): (b: seq<octet>)
    ensures |b| == 4
  {
    Le(4, if v < 0 then v as int + U32 else v)
  }

  function FromInt(b: seq<octet>): (v: int) {
    var n := FromLe(b);
    if n >= 0x8000_0000 then n - U32 else n
  }

  // ------------------------------------------------------------------ items

  /** One write: `write_data` of an int, a gsize, a guint16 or a block, or `write_string`. */
  datatype Item = Int(number: i32) | Size(size: nat) | Short(short: u16) | Block(block: seq<octet>) | Str(text: Option<Text>)

  function ItemOctets(x: Item): (b: seq<octet>) {
    match x
    case Int(v) => IntOctets(v)
    case Size(v) => Le(8, v)
    case Short(v) => Le(2, v)
    case Block(b) => b
    case Str(t) => if t.None? then IntOctets(-1) else IntOctets(if |t.value| < 0x8000_0000 then |t.value| else -1) + t.value
  }

  function Encoded(items: seq<Item>): (b: seq<octet>) {
    Cat(ItemOctets, items)
  }

  datatype Read<+T> = Read(value: T, rest: seq<octet>)

  /** `read` of `n` octets; a pipe that holds fewer is not met (the writer has written them). */
  function Take(p: seq<octet>, n: nat): (r: Read<seq<octet>>) {
    if n <= |p| then Read(p[..n], p[n..]) else Read(p, [])
  }

  function ReadInt(p: seq<octet>): (r: Read<int>) {
    var b := Take(p, 4);
    Read(FromInt(b.value), b.rest)
  }

  function ReadSize(p: seq<octet>): (r: Read<nat>) {
    var b := Take(p, 8);
    Read(FromLe(b.value), b.rest)
  }

  function ReadShort(p: seq<octet>): (r: Read<nat>) {
    var b := Take(p, 2);
    Read(FromLe(b.value), b.rest)
  }

  /** `read_string`, the same on both sides: negative is NULL, and so is a length past the limit. */
  function ReadString(p: seq<octet>): (r: Read<Option<Text>>) {
    var length := ReadInt(p);
    if length.value < 0 || length.value > MAX_STRING_LENGTH then Read(None, length.rest)
    else
      var b := Take(length.rest, length.value);
      Read(Some(b.value), b.rest)
  }

  predicate Short?(t: Option<Text>) {
    t.Some? ==> |t.value| <= MAX_STRING_LENGTH
  }

  lemma TakeAll(b: seq<octet>, tail: seq<octet>)
    ensures Take(b + tail, |b|) == Read(b, tail)
  {
    assert (b + tail)[..|b|] == b && (b + tail)[|b|..] == tail;
  }

  lemma IntBack(v: i32, tail: seq<octet>)
    ensures ReadInt(IntOctets(v) + tail) == Read(v, tail)
  {
    hide Le, FromLe, Take;
    Widths();
    LeRoundTrip(4, if v < 0 then v as int + U32 else v);
    TakeAll(IntOctets(v), tail);
  }

  /** A reader before some written items reads the first and stands before the others. */
  lemma ItemAt(items: seq<Item>)
    requires items != []
    ensures items[0].Int? ==> ReadInt(Encoded(items)) == Read(items[0].number, Encoded(items[1..]))
    ensures items[0].Size? && items[0].size < U64 ==> ReadSize(Encoded(items)) == Read(items[0].size, Encoded(items[1..]))
    ensures items[0].Short? ==> ReadShort(Encoded(items)) == Read(items[0].short, Encoded(items[1..]))
    ensures items[0].Block? ==> Take(Encoded(items), |items[0].block|) == Read(items[0].block, Encoded(items[1..]))
    ensures items[0].Str? && Short?(items[0].text) ==> ReadString(Encoded(items)) == Read(items[0].text, Encoded(items[1..]))
  {
    hide Le, FromLe, IntOctets, FromInt, Take, ReadInt;
    var x, tail := items[0], Encoded(items[1..]);
    assert Encoded(items) == ItemOctets(x) + tail;
    Widths();
    match x {
      case Int(v) => IntBack(v, tail);
      case Size(v) =>
        if v < U64 {
          LeRoundTrip(8, v);
        }
        TakeAll(Le(8, v), tail);
      case Short(v) =>
        LeRoundTrip(2, v);
        TakeAll(Le(2, v), tail);
      case Block(b) => TakeAll(b, tail);
      case Str(t) =>
        if t.None? {
          IntBack(-1, tail);
        } else if Short?(t) {
          assert IntOctets(|t.value|) + t.value + tail == IntOctets(|t.value|) + (t.value + tail);
          IntBack(|t.value|, t.value + tail);
          TakeAll(t.value, tail);
        }
    }
  }

  /** The limit is exact: a longer string is read as NULL and its octets stay in the pipe. */
  lemma LongStringLost(t: Text, tail: seq<octet>)
    requires MAX_STRING_LENGTH < |t| < 0x8000_0000
    ensures ReadString(ItemOctets(Str(Some(t))) + tail) == Read(None, t + tail)
  {
    hide Le, FromLe, IntOctets, FromInt, Take, ReadInt;
    assert IntOctets(|t|) + t + tail == IntOctets(|t|) + (t + tail);
    IntBack(|t|, t + tail);
  }

  // ------------------------------------------------------------------ what is said

  datatype Authority = Authority(name: Text, family: u16, address: seq<octet>, number: Option<Text>, data: seq<octet>)

  datatype Config = Config(service: Option<Text>, username: Option<Text>, doAuthenticate: bool, isInteractive: bool,
    tty: Option<Text>, remoteHost: Option<Text>, xdisplay: Option<Text>, authority: Option<Authority>)

  datatype Message = Message(style: i32, text: Option<Text>)

  /** What a child writes while and after it authenticates. */
  datatype Report =
    | Asking(username: Option<Text>, messages: seq<Message>)
    | Done(username: Option<Text>, result: i32, text: Option<Text>)

  datatype Response = Response(text: Option<Text>, code: i32)

  /** What the daemon answers to messages: one response each, or an error. */
  datatype Answer = Responses(responses: seq<Response>) | Failure(error: i32)

  datatype Command = Command(log: Option<Text>, logMode: i32, tty: Option<Text>, authorityFile: Option<Text>,
    xdisplay: Option<Text>, authority: Option<Authority>, env: seq<Option<Text>>, argv: seq<Option<Text>>)

  /** The block that `session_stop` writes to an authenticated child that has nothing to run. */
  const CLEAN_STOP := Command(None, -1, None, None, None, None, [], [])

  datatype Identifiers = Identifiers(login1: Option<Text>, consoleKit: Option<Text>)

  predicate AuthorityFits(a: Option<Authority>) {
    a.Some? ==> |a.value.name| <= MAX_STRING_LENGTH && Short?(a.value.number) && |a.value.address| < U64 && |a.value.data| < U64
  }

  predicate ConfigFits(c: Config) {
    && Short?(c.service) && Short?(c.username) && Short?(c.tty) && Short?(c.remoteHost) && Short?(c.xdisplay)
    && AuthorityFits(c.authority)
  }

  predicate AllShort(ts: seq<Option<Text>>) {
    forall t <- ts :: Short?(t)
  }

  predicate CommandFits(c: Command) {
    && Short?(c.log) && Short?(c.tty) && Short?(c.authorityFile) && Short?(c.xdisplay) && AuthorityFits(c.authority)
    && AllShort(c.env) && AllShort(c.argv) && |c.env| < U64 && |c.argv| < U64
  }

  predicate ReportFits(r: Report) {
    && Short?(r.username)
    && (r.Asking? ==> |r.messages| < 0x8000_0000 && forall m <- r.messages :: Short?(m.text))
    && (r.Done? ==> Short?(r.text))
  }

  predicate AnswerFits(a: Answer) {
    match a
    case Responses(rs) => forall r <- rs :: Short?(r.text)
    case Failure(e) => e != 0
  }

  function Bool(b: bool): Item {
    Int(if b then 1 else 0)
  }

  function AuthorityItems(a: Option<Authority>): seq<Item> {
    if a.None? then [Str(None)]
    else [Str(Some(a.value.name)), Short(a.value.family), Size(|a.value.address|), Block(a.value.address),
          Str(a.value.number), Size(|a.value.data|), Block(a.value.data)]
  }

  function ConfigItems(c: Config): seq<Item> {
    [Int(VERSION), Str(c.service), Str(c.username), Bool(c.doAuthenticate), Bool(c.isInteractive), Str(None),
     Str(c.tty), Str(c.remoteHost), Str(c.xdisplay)] + AuthorityItems(c.authority)
  }

  function MessageItems(m: Message): seq<Item> {
    [Int(m.style), Str(m.text)]
  }

  function ResponseItems(r: Response): seq<Item> {
    [Str(r.text), Int(r.code)]
  }

  function StrItems(t: Option<Text>): seq<Item> {
    [Str(t)]
  }

  function ReportItems(r: Report): seq<Item>
    requires ReportFits(r)
  {
    match r
    case Asking(u, ms) => [Str(u), Int(0), Int(|ms|)] + Cat(MessageItems, ms)
    case Done(u, c, t) => [Str(u), Int(1), Int(c), Str(t)]
  }

  function AnswerItems(a: Answer): seq<Item> {
    match a
    case Responses(rs) => [Int(0)] + Cat(ResponseItems, rs)
    case Failure(e) => [Int(e)]
  }

  function CommandItems(c: Command): seq<Item> {
    [Str(c.log), Int(c.logMode), Str(c.tty), Str(c.authorityFile), Str(c.xdisplay)] + AuthorityItems(c.authority)
    + ([Size(|c.env|)] + Cat(StrItems, c.env)) + ([Size(|c.argv|)] + Cat(StrItems, c.argv))
  }

  function IdentifierItems(i: Identifiers): seq<Item> {
    [Str(i.login1), Str(i.consoleKit)]
  }

  // ------------------------------------------------------------------ what is heard

  function ReadAuthority(p: seq<octet>): (r: Read<Option<Authority>>) {
    var name := ReadString(p);
    if name.value.None? then Read(None, name.rest)
    else
      var family := ReadShort(name.rest);
      var addressLength := ReadSize(family.rest);
      var address := Take(addressLength.rest, addressLength.value);
      var number := ReadString(address.rest);
      var dataLength := ReadSize(number.rest);
      var data := Take(dataLength.rest, dataLength.value);
      Read(Some(Authority(name.value.value, family.value % U16, address.value, number.value, data.value)), data.rest)
  }

  /** What the child reads before it starts PAM. */
  function ReadConfig(p: seq<octet>): (r: Read<Config>) {
    var version := ReadInt(p);
    var service := ReadString(version.rest);
    var username := ReadString(service.rest);
    var doAuthenticate := ReadInt(username.rest);
    var isInteractive := ReadInt(doAuthenticate.rest);
    var unused := ReadString(isInteractive.rest);
    var tty := ReadString(unused.rest);
    var remoteHost := ReadString(tty.rest);
    var xdisplay := ReadString(remoteHost.rest);
    var authority := ReadAuthority(xdisplay.rest);
    Read(Config(service.value, username.value, doAuthenticate.value != 0, isInteractive.value != 0,
                tty.value, remoteHost.value, xdisplay.value, authority.value), authority.rest)
  }

  function AsInt(v: int): i32 {
    if -0x8000_0000 <= v < 0x8000_0000 then v else 0
  }

  function ReadMessages(p: seq<octet>, n: nat): (r: Read<seq<Message>>)
    decreases n
  {
    if n == 0 then Read([], p)
    else
      var style := ReadInt(p);
      var text := ReadString(style.rest);
      var others := ReadMessages(text.rest, n - 1);
      Read([Message(AsInt(style.value), text.value)] + others.value, others.rest)
  }

  /** What `from_child_cb` reads. */
  function ReadReport(p: seq<octet>): (r: Read<Report>) {
    var username := ReadString(p);
    var complete := ReadInt(username.rest);
    if complete.value != 0 then
      var result := ReadInt(complete.rest);
      var text := ReadString(result.rest);
      Read(Done(username.value, AsInt(result.value), text.value), text.rest)
    else
      var n := ReadInt(complete.rest);
      var messages := ReadMessages(n.rest, if n.value < 0 then 0 else n.value);
      Read(Asking(username.value, messages.value), messages.rest)
  }

  function ReadResponses(p: seq<octet>, n: nat): (r: Read<seq<Response>>)
    decreases n
  {
    if n == 0 then Read([], p)
    else
      var text := ReadString(p);
      var code := ReadInt(text.rest);
      var others := ReadResponses(code.rest, n - 1);
      Read([Response(text.value, AsInt(code.value))] + others.value, others.rest)
  }

  /** What `pam_conv_cb` reads after it wrote `n` messages. */
  function ReadAnswer(p: seq<octet>, n: nat): (r: Read<Answer>) {
    var error := ReadInt(p);
    if error.value != 0 then Read(Failure(AsInt(error.value)), error.rest)
    else
      var responses := ReadResponses(error.rest, n);
      Read(Responses(responses.value), responses.rest)
  }

  function ReadStrings(p: seq<octet>, n: nat): (r: Read<seq<Option<Text>>>)
    decreases n
  {
    if n == 0 then Read([], p)
    else
      var first := ReadString(p);
      var others := ReadStrings(first.rest, n - 1);
      Read([first.value] + others.value, others.rest)
  }

  /** What the child reads after it reported success. */
  function ReadCommand(p: seq<octet>): (r: Read<Command>) {
    var log := ReadString(p);
    var logMode := ReadInt(log.rest);
    var tty := ReadString(logMode.rest);
    var authorityFile := ReadString(tty.rest);
    var xdisplay := ReadString(authorityFile.rest);
    var authority := ReadAuthority(xdisplay.rest);
    var envLength := ReadSize(authority.rest);
    var env := ReadStrings(envLength.rest, envLength.value);
    var argc := ReadSize(env.rest);
    var argv := ReadStrings(argc.rest, argc.value);
    Read(Command(log.value, AsInt(logMode.value), tty.value, authorityFile.value, xdisplay.value, authority.value,
                 env.value, argv.value), argv.rest)
  }

  function ReadIdentifiers(p: seq<octet>): (r: Read<Identifiers>) {
    var login1 := ReadString(p);
    var consoleKit := ReadString(login1.rest);
    Read(Identifiers(login1.value, consoleKit.value), consoleKit.rest)
  }

  // ------------------------------------------------------------------ lockstep

  lemma AuthorityBack(a: Option<Authority>, more: seq<Item>)
    requires AuthorityFits(a)
    ensures ReadAuthority(Encoded(AuthorityItems(a) + more)) == Read(a, Encoded(more))
  {
    hide Encoded, ReadString, ReadShort, ReadSize, Take;
    var items := AuthorityItems(a) + more;
    ItemAt(items);
    if a.Some? {
      ItemAt(items[1..]);
      ItemAt(items[2..]);
      ItemAt(items[3..]);
      ItemAt(items[4..]);
      ItemAt(items[5..]);
      ItemAt(items[6..]);
      Slices(items, 6);
      assert items[7..] == more;
    } else {
      assert items[1..] == more;
    }
  }

  lemma {:induction false} Slices(items: seq<Item>, n: nat)
    requires n < |items|
    ensures forall i :: 0 <= i <= n ==> items[i..][1..] == items[i + 1..]
  {
  }

  lemma ConfigBack(c: Config, more: seq<Item>)
    requires ConfigFits(c)
    ensures ReadConfig(Encoded(ConfigItems(c) + more)) == Read(c, Encoded(more))
  {
    hide Encoded, ReadString, ReadInt, ReadAuthority;
    var items := ConfigItems(c) + more;
    ItemAt(items);
    ItemAt(items[1..]);
    ItemAt(items[2..]);
    ItemAt(items[3..]);
    ItemAt(items[4..]);
    ItemAt(items[5..]);
    ItemAt(items[6..]);
    ItemAt(items[7..]);
    ItemAt(items[8..]);
    Slices(items, 8);
    assert items[9..] == AuthorityItems(c.authority) + more;
    AuthorityBack(c.authority, more);
  }

  lemma {:induction false} MessagesBack(ms: seq<Message>, more: seq<Item>)
    requires forall m <- ms :: Short?(m.text)
    ensures ReadMessages(Encoded(Cat(MessageItems, ms) + more), |ms|) == Read(ms, Encoded(more))
    decreases |ms|
  {
    hide Encoded, ReadString, ReadInt;
    var items := Cat(MessageItems, ms) + more;
    if ms == [] {
      assert items == more;
    } else {
      ItemAt(items);
      ItemAt(items[1..]);
      assert items[1..][1..] == Cat(MessageItems, ms[1..]) + more;
      MessagesBack(ms[1..], more);
      assert [ms[0]] + ms[1..] == ms;
    }
  }

  lemma {:induction false} ResponsesBack(rs: seq<Response>, more: seq<Item>)
    requires forall r <- rs :: Short?(r.text)
    ensures ReadResponses(Encoded(Cat(ResponseItems, rs) + more), |rs|) == Read(rs, Encoded(more))
    decreases |rs|
  {
    hide Encoded, ReadString, ReadInt;
    var items := Cat(ResponseItems, rs) + more;
    if rs == [] {
      assert items == more;
    } else {
      ItemAt(items);
      ItemAt(items[1..]);
      assert items[1..][1..] == Cat(ResponseItems, rs[1..]) + more;
      ResponsesBack(rs[1..], more);
      assert [rs[0]] + rs[1..] == rs;
    }
  }

  lemma {:induction false} StringsBack(ts: seq<Option<Text>>, more: seq<Item>)
    requires AllShort(ts)
    ensures ReadStrings(Encoded(Cat(StrItems, ts) + more), |ts|) == Read(ts, Encoded(more))
    decreases |ts|
  {
    hide Encoded, ReadString;
    var items := Cat(StrItems, ts) + more;
    if ts == [] {
      assert items == more;
    } else {
      ItemAt(items);
      assert items[1..] == Cat(StrItems, ts[1..]) + more;
      StringsBack(ts[1..], more);
      assert [ts[0]] + ts[1..] == ts;
    }
  }

  lemma ReportBack(r: Report, more: seq<Item>)
    requires ReportFits(r)
    ensures ReadReport(Encoded(ReportItems(r) + more)) == Read(r, Encoded(more))
  {
    hide Encoded, ReadString, ReadInt, Cat, MessageItems, ReadMessages;
    var items := ReportItems(r) + more;
    ItemAt(items);
    ItemAt(items[1..]);
    ItemAt(items[2..]);
    Slices(items, 2);
    assert items[0] == Str(r.username) && items[1..][0] == items[1] && items[2..][0] == items[2];
    match r {
      case Asking(u, ms) =>
        assert items[1] == Int(0) && items[2] == Int(|ms|);
        assert items[3..] == Cat(MessageItems, ms) + more;
        MessagesBack(ms, more);
      case Done(u, c, t) =>
        assert items[1] == Int(1) && items[2] == Int(c) && items[3..][0] == Str(t);
        ItemAt(items[3..]);
        Slices(items, 3);
        assert items[4..] == more;
    }
  }

  lemma AnswerBack(a: Answer, n: nat, more: seq<Item>)
    requires AnswerFits(a) && (a.Responses? ==> |a.responses| == n)
    ensures ReadAnswer(Encoded(AnswerItems(a) + more), n) == Read(a, Encoded(more))
  {
    hide Encoded, ReadInt;
    var items := AnswerItems(a) + more;
    ItemAt(items);
    match a {
      case Responses(rs) =>
        assert items[1..] == Cat(ResponseItems, rs) + more;
        ResponsesBack(rs, more);
      case Failure(e) => assert items[1..] == more;
    }
  }

  lemma CommandBack(c: Command, more: seq<Item>)
    requires CommandFits(c)
    ensures ReadCommand(Encoded(CommandItems(c) + more)) == Read(c, Encoded(more))
  {
    hide Encoded, ReadString, ReadInt, ReadSize, ReadAuthority, ReadStrings, Cat, AuthorityItems, StrItems;
    var items := CommandItems(c) + more;
    ItemAt(items);
    ItemAt(items[1..]);
    ItemAt(items[2..]);
    ItemAt(items[3..]);
    ItemAt(items[4..]);
    Slices(items, 4);
    var argv := [Size(|c.argv|)] + Cat(StrItems, c.argv) + more;
    var env := [Size(|c.env|)] + Cat(StrItems, c.env) + argv;
    assert items[5..] == AuthorityItems(c.authority) + env;
    AuthorityBack(c.authority, env);
    ItemAt(env);
    assert env[1..] == Cat(StrItems, c.env) + argv;
    StringsBack(c.env, argv);
    ItemAt(argv);
    assert argv[1..] == Cat(StrItems, c.argv) + more;
    StringsBack(c.argv, more);
  }

  lemma IdentifiersBack(i: Identifiers, more: seq<Item>)
    requires Short?(i.login1) && Short?(i.consoleKit)
    ensures ReadIdentifiers(Encoded(IdentifierItems(i) + more)) == Read(i, Encoded(more))
  {
    hide Encoded, ReadString;
    var items := IdentifierItems(i) + more;
    ItemAt(items);
    ItemAt(items[1..]);
    assert items[1..][1..] == more;
  }

  /** The clean-stop block is read as a command with nothing to run. */
  lemma CleanStopIsEmptyCommand(more: seq<Item>)
    ensures ReadCommand(Encoded(CommandItems(CLEAN_STOP) + more)) == Read(CLEAN_STOP, Encoded(more))
    ensures CLEAN_STOP.argv == []
  {
    CommandBack(CLEAN_STOP, more);
  }

  // ------------------------------------------------------------------ the two programs

  class Pipe {
    var octets: seq<octet>

    constructor ()
      ensures octets == []
    {
      octets := [];
    }

    /** `write_data` and `write_string`. */
    method Write(x: Item)
      modifies this
      ensures octets == old(octets) + ItemOctets(x)
    {
      match x {
        case Int(v) => octets := octets + IntOctets(v);
        case Size(v) => octets := octets + Le(8, v);
        case Short(v) => octets := octets + Le(2, v);
        case Block(b) => octets := octets + b;
        case Str(t) =>
          var length: i32 := if t.Some? && |t.value| < 0x8000_0000 then |t.value| else -1;
          octets := octets + IntOctets(length);
          if t.Some? {
            octets := octets + t.value;
          }
      }
    }

    method WriteAll(items: seq<Item>)
      modifies this
      ensures octets == old(octets) + Encoded(items)
    {
      assert items[..0] == [];
      for i := 0 to |items|
        invariant octets == old(octets) + Encoded(items[..i])
      {
        assert items[..i] + [items[i]] == items[..i + 1];
        CatSnoc(ItemOctets, items[..i], items[i]);
        Write(items[i]);
      }
      assert items[..|items|] == items;
    }

    method ReadData(n: nat) returns (b: seq<octet>)
      modifies this
      ensures Read(b, octets) == Take(old(octets), n)
    {
      b := if n <= |octets| then octets[..n] else octets;
      octets := if n <= |octets| then octets[n..] else [];
    }

    method ReadAnInt() returns (v: int)
      modifies this
      ensures Read(v, octets) == ReadInt(old(octets))
    {
      var b := ReadData(4);
      v := FromInt(b);
    }

    method ReadText() returns (t: Option<Text>)
      modifies this
      ensures Read(t, octets) == ReadString(old(octets))
    {
      var length := ReadAnInt();
      if length < 0 {
        return None;
      }
      if length > MAX_STRING_LENGTH {
        return None;
      }
      var b := ReadData(length);
      t := Some(b);
    }
  }

  /** One more response at the end of an answer. */
  lemma AnswerSnoc(rs: seq<Response>, r: Response)
    ensures Encoded(AnswerItems(Responses(rs + [r]))) == Encoded(AnswerItems(Responses(rs))) + ItemOctets(Str(r.text)) + ItemOctets(Int(r.code))
  {
    hide ItemOctets;
    var before := AnswerItems(Responses(rs));
    CatSnoc(ResponseItems, rs, r);
    assert AnswerItems(Responses(rs + [r])) == before + [Str(r.text)] + [Int(r.code)];
    CatSnoc(ItemOctets, before, Str(r.text));
    CatSnoc(ItemOctets, before + [Str(r.text)], Int(r.code));
  }

  lemma NoResponses()
    ensures Encoded(AnswerItems(Responses([]))) == ItemOctets(Int(0))
  {
    CatSnoc(ItemOctets, [], Int(0));
    assert AnswerItems(Responses([])) == [] + [Int(0)];
  }

  /** `session_respond`: success, then every response with its code. */
  method SessionRespond(toChild: Pipe, responses: seq<Response>)
    modifies toChild
    ensures toChild.octets == old(toChild.octets) + Encoded(AnswerItems(Responses(responses)))
  {
    hide ItemOctets, Encoded, AnswerItems;
    ghost var start := toChild.octets;
    toChild.Write(Int(0));
    NoResponses();
    assert responses[..0] == [];
    for i := 0 to |responses|
      invariant toChild.octets == start + Encoded(AnswerItems(Responses(responses[..i])))
    {
      var r := responses[i];
      AnswerSnoc(responses[..i], r);
      assert responses[..i] + [r] == responses[..i + 1];
      toChild.Write(Str(r.text));
      toChild.Write(Int(r.code));
    }
    assert responses[..|responses|] == responses;
  }

  /** What `from_child_cb` takes from the pipe. */
  method FromChildRead(fromChild: Pipe) returns (r: Report)
    modifies fromChild
    ensures Read(r, fromChild.octets) == ReadReport(old(fromChild.octets))
  {
    hide ReadInt, ReadString;
    var username := fromChild.ReadText();
    var complete := fromChild.ReadAnInt();
    if complete != 0 {
      var result := fromChild.ReadAnInt();
      var text := fromChild.ReadText();
      return Done(username, AsInt(result), text);
    }
    var length := fromChild.ReadAnInt();
    ghost var body := fromChild.octets;
    var n := if length < 0 then 0 else length;
    var messages := [];
    for i := 0 to n
      invariant var all := ReadMessages(body, n); var left := ReadMessages(fromChild.octets, n - i);
                all.value == messages + left.value && all.rest == left.rest
    {
      var style := fromChild.ReadAnInt();
      var text := fromChild.ReadText();
      messages := messages + [Message(AsInt(style), text)];
    }
    assert messages + [] == messages;
    r := Asking(username, messages);
  }

  /** The end of `pam_conv_cb`: the child takes an answer to its `n` messages from the pipe. */
  method PamConvReadAnswer(fromDaemon: Pipe, n: nat) returns (a: Answer)
    modifies fromDaemon
    ensures Read(a, fromDaemon.octets) == ReadAnswer(old(fromDaemon.octets), n)
  {
    hide ReadInt, ReadString;
    ghost var start := fromDaemon.octets;
    var error := fromDaemon.ReadAnInt();
    if error != 0 {
      return Failure(AsInt(error));
    }
    ghost var body := fromDaemon.octets;
    var responses := [];
    for i := 0 to n
      invariant var all := ReadResponses(body, n); var left := ReadResponses(fromDaemon.octets, n - i);
                all.value == responses + left.value && all.rest == left.rest
    {
      var text := fromDaemon.ReadText();
      var code := fromDaemon.ReadAnInt();
      responses := responses + [Response(text, AsInt(code))];
    }
    assert responses + [] == responses;
    a := Responses(responses);
  }
}
