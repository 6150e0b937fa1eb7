/**
  The messages between a greeter and the daemon: how the library and the daemon write them
  into a 1024-octet buffer and how each side reads what the other wrote
  (liblightdm-gobject/greeter.c, src/greeter.c).
 */
module LoginMessages {
  import opened Octets
  import Framing

  const MAX_MESSAGE_LENGTH := 1024
  const MAX_SECRETS := 536870911 // (G_MAXUINT32 - 1) / sizeof (gchar *)

  /** A pointer that may be NULL is written like the empty string. */
  function OrEmpty(t: Option<Text>): Text {
    if t.Some? then t.value else []
  }

  /** One `write_int` or `write_string`. */
  datatype Field = I(number: u32) | S(text: Option<Text>)

  function FieldOctets(x: Field): (b: seq<octet>)
    ensures |b| == FieldSize(x)
  {
    if x.I? then Be32(x.number) else Be32(|OrEmpty(x.text)| % U32) + OrEmpty(x.text)
  }

  function FieldSize(x: Field): nat {
    if x.I? then 4 else 4 + |OrEmpty(x.text)|
  }

  /** What `int_length` and `string_length` add up to. */
  function Size(fields: seq<Field>): nat {
    if fields == [] then 0 else FieldSize(fields[0]) + Size(fields[1..])
  }

  function Encoded(fields: seq<Field>): (b: seq<octet>)
  {
    Cat(FieldOctets, fields)
  }

  lemma {:induction false} EncodedSize(fields: seq<Field>)
    ensures |Encoded(fields)| == Size(fields)
  {
    if fields != [] {
      EncodedSize(fields[1..]);
    }
  }

  lemma SizeSplit(xs: seq<Field>, ys: seq<Field>)
    ensures Size(xs + ys) == Size(xs) + Size(ys)
  {
    CatAppend(FieldOctets, xs, ys);
    EncodedSize(xs);
    EncodedSize(ys);
    EncodedSize(xs + ys);
  }

  // ------------------------------------------------------------------ messages

  datatype Request =
    | Connect(version: Option<Text>, resettable: bool, api: u32)
    | Authenticate(number: u32, username: Option<Text>)
    | AuthenticateAsGuest(number: u32)
    | ContinueAuthentication(secrets: seq<Text>)
    | StartSession(session: Option<Text>)
    | CancelAuthentication
    | SetLanguage(language: Option<Text>)
    | AuthenticateRemote(number: u32, session: Option<Text>, username: Option<Text>)
    | EnsureSharedDir(username: Option<Text>)

  datatype PamMessage = PamMessage(style: u32, text: Option<Text>)

  type Hint = (Text, Option<Text>)

  datatype Reply =
    | Connected(version: Option<Text>, hints: seq<Hint>)
    | PromptAuthentication(number: u32, username: Option<Text>, messages: seq<PamMessage>)
    | EndAuthentication(number: u32, username: Option<Text>, result: u32)
    | SessionResult(code: u32)
    | SharedDirResult(dir: Option<Text>)
    | Idle
    | Reset(hints: seq<Hint>)
    | ConnectedV2(api: u32, version: Option<Text>, hints: seq<Hint>)

  function RequestId(r: Request): u32 {
    match r
    case Connect(_, _, _) => 0
    case Authenticate(_, _) => 1
    case AuthenticateAsGuest(_) => 2
    case ContinueAuthentication(_) => 3
    case StartSession(_) => 4
    case CancelAuthentication => 5
    case SetLanguage(_) => 6
    case AuthenticateRemote(_, _, _) => 7
    case EnsureSharedDir(_) => 8
  }

  function ReplyId(r: Reply): u32 {
    match r
    case Connected(_, _) => 0
    case PromptAuthentication(_, _, _) => 1
    case EndAuthentication(_, _, _) => 2
    case SessionResult(_) => 3
    case SharedDirResult(_) => 4
    case Idle => 5
    case Reset(_) => 6
    case ConnectedV2(_, _, _) => 7
  }

  function Texts(ts: seq<Text>): seq<Field> {
    if ts == [] then [] else [S(Some(ts[0]))] + Texts(ts[1..])
  }

  function Hints(hs: seq<Hint>): seq<Field> {
    if hs == [] then [] else [S(Some(hs[0].0)), S(hs[0].1)] + Hints(hs[1..])
  }

  function Prompts(ms: seq<PamMessage>): seq<Field> {
    if ms == [] then [] else [I(ms[0].style), S(ms[0].text)] + Prompts(ms[1..])
  }

  /** The writes of each library sender after the header, in order. */
  function RequestFields(r: Request): seq<Field> {
    match r
    case Connect(version, resettable, api) => [S(version), I(if resettable then 1 else 0), I(api)]
    case Authenticate(number, username) => [I(number), S(username)]
    case AuthenticateAsGuest(number) => [I(number)]
    case ContinueAuthentication(secrets) => [I(|secrets| % U32)] + Texts(secrets)
    case StartSession(session) => [S(session)]
    case CancelAuthentication => []
    case SetLanguage(language) => [S(language)]
    case AuthenticateRemote(number, session, username) => [I(number), S(session), S(username)]
    case EnsureSharedDir(username) => [S(username)]
  }

  /** The writes of each daemon sender after the header, in order. */
  function ReplyFields(r: Reply): seq<Field> {
    match r
    case Connected(version, hints) => [S(version)] + Hints(hints)
    case PromptAuthentication(number, username, messages) => [I(number), S(username), I(|messages| % U32)] + Prompts(messages)
    case EndAuthentication(number, username, result) => [I(number), S(username), I(result)]
    case SessionResult(code) => [I(code)]
    case SharedDirResult(dir) => [S(dir)]
    case Idle => []
    case Reset(hints) => Hints(hints)
    case ConnectedV2(api, version, hints) => [I(api), S(version), I(|hints| % U32)] + Hints(hints)
  }

  /** Header and payload together, as the writes that make them. */
  function Packet(id: u32, fields: seq<Field>): seq<Field> {
    [I(id), I(Size(fields) % U32)] + fields
  }

  /** The payload length fits a signed 32-bit integer, so no length in the message wraps. */
  predicate Sane(fields: seq<Field>) {
    Size(fields) < 0x8000_0000
  }

  /** The octets of a whole message, and that its declared length is its real one. */
  lemma PacketComplete(id: u32, fields: seq<Field>)
    requires Sane(fields)
    ensures Size(Packet(id, fields)) == 8 + Size(fields)
    ensures Encoded(Packet(id, fields)) == Be32(id) + Be32(Size(fields)) + Encoded(fields)
    ensures Encoded(Packet(id, fields))[4..8] == Be32(Size(fields))
    ensures Framing.Complete(Framing.Login, Encoded(Packet(id, fields)))
  {
    var p := Packet(id, fields);
    assert p[1..] == [I(Size(fields))] + fields && p[1..][1..] == fields;
    var m := Encoded(p);
    assert Encoded(p[1..]) == FieldOctets(p[1]) + Encoded(fields);
    assert m == FieldOctets(p[0]) + Encoded(p[1..]);
    EncodedSize(fields);
    assert m[4..8] == Be32(Size(fields));
    Be32RoundTrip(Size(fields));
  }

  // ------------------------------------------------------------------ writing

  /** The message buffer of a sender with the offset it advances. */
  class Buffer {
    const data: array<octet>
    var offset: nat

    ghost predicate Valid()
      reads this, data
    {
      data.Length == MAX_MESSAGE_LENGTH && offset < MAX_MESSAGE_LENGTH
    }

    ghost function Contents(): seq<octet>
      requires Valid()
      reads this, data
    {
      data[..offset]
    }

    constructor ()
      ensures Valid() && fresh(data) && Contents() == []
    {
      data := new octet[MAX_MESSAGE_LENGTH](_ => 0);
      offset := 0;
    }

    /** `memcpy` at the offset. */
    method Copy(b: seq<octet>)
      requires Valid() && offset + |b| < MAX_MESSAGE_LENGTH
      modifies this, data
      ensures Valid() && Contents() == old(Contents()) + b
    {
      for i := 0 to |b|
        invariant offset == old(offset)
        invariant data[..offset + i] == old(data[..offset]) + b[..i]
      {
        data[offset + i] := b[i];
      }
      offset := offset + |b|;
    }

    method WriteInt(v: u32) returns (ok: bool)
      requires Valid()
      modifies this, data
      ensures Valid() && ok == (old(offset) + 4 < MAX_MESSAGE_LENGTH)
      ensures Contents() == if ok then old(Contents()) + Be32(v) else old(Contents())
    {
      if offset + 4 >= MAX_MESSAGE_LENGTH {
        return false;
      }
      Copy(Be32(v));
      return true;
    }

    /** The library's `write_int` or `write_string`: it reports what does not fit. */
    method Write(x: Field) returns (ok: bool)
      requires Valid()
      modifies this, data
      ensures Valid() && ok == (old(offset) + FieldSize(x) < MAX_MESSAGE_LENGTH)
      ensures ok ==> Contents() == old(Contents()) + FieldOctets(x)
    {
      hide Be32;
      match x {
        case I(v) => ok := WriteInt(v);
        case S(t) =>
          var value := OrEmpty(t);
          ok := WriteInt(|value| % U32);
          if !ok {
            return;
          }
          if offset + |value| >= MAX_MESSAGE_LENGTH {
            return false;
          }
          Copy(value);
          assert Contents() == old(Contents()) + Be32(|value| % U32) + value;
      }
    }

    /** The daemon's `write_int` or `write_string`: what does not fit is left out in silence. */
    method WriteOrDrop(x: Field)
      requires Valid()
      modifies this, data
      ensures Valid() && Contents() == AfterWrite(old(Contents()), x)
    {
      hide Be32;
      match x {
        case I(v) => var _ := WriteInt(v);
        case S(t) =>
          var value := OrEmpty(t);
          var _ := WriteInt(|value| % U32);
          if offset + |value| >= MAX_MESSAGE_LENGTH {
            return;
          }
          if |value| > 0 {
            Copy(value);
          }
      }
    }
  }

  /**
    What the daemon's writers leave of a buffer: an integer that does not fit is dropped, and so
    is a text that does not, each without regard to the other.
   */
  function AfterWrite(c: seq<octet>, x: Field): (d: seq<octet>) {
    if x.I? then AfterInt(c, x.number)
    else
      var d := AfterInt(c, |OrEmpty(x.text)| % U32);
      if |d| + |OrEmpty(x.text)| >= MAX_MESSAGE_LENGTH then d else d + OrEmpty(x.text)
  }

  function AfterInt(c: seq<octet>, v: u32): (d: seq<octet>) {
    if |c| + 4 >= MAX_MESSAGE_LENGTH then c else c + Be32(v)
  }

  function AfterWrites(c: seq<octet>, fields: seq<Field>): (d: seq<octet>) {
    if fields == [] then c else AfterWrite(AfterWrites(c, fields[..|fields| - 1]), fields[|fields| - 1])
  }

  lemma AfterWriteFits(c: seq<octet>, x: Field)
    requires |c| < MAX_MESSAGE_LENGTH
    ensures c <= AfterWrite(c, x) && |AfterWrite(c, x)| < MAX_MESSAGE_LENGTH
    ensures |c| + FieldSize(x) < MAX_MESSAGE_LENGTH ==> AfterWrite(c, x) == c + FieldOctets(x)
  {
    hide Be32;
    if x.S? {
      assert c + Be32(|OrEmpty(x.text)| % U32) + OrEmpty(x.text) == c + (Be32(|OrEmpty(x.text)| % U32) + OrEmpty(x.text));
    }
  }

  /** Nothing written is lost, the buffer is never filled to its end, and fields that fit are written whole. */
  lemma {:induction false} AfterWritesFit(c: seq<octet>, fields: seq<Field>)
    requires |c| < MAX_MESSAGE_LENGTH
    ensures c <= AfterWrites(c, fields) && |AfterWrites(c, fields)| < MAX_MESSAGE_LENGTH
    ensures |c| + Size(fields) < MAX_MESSAGE_LENGTH ==> AfterWrites(c, fields) == c + Encoded(fields)
    decreases |fields|
  {
    hide AfterWrite, FieldOctets;
    if fields != [] {
      var n := |fields| - 1;
      AfterWritesFit(c, fields[..n]);
      var d := AfterWrites(c, fields[..n]);
      AfterWriteFits(d, fields[n]);
      assert fields[..n] + [fields[n]] == fields;
      CatSnoc(FieldOctets, fields[..n], fields[n]);
      EncodedSize(fields[..n]);
      EncodedSize(fields);
    }
  }

  /**
    A library sender: header and fields written in order, stopping at the first that does not
    fit. It builds its message exactly when header and payload are under 1024 octets, and then
    the length declared is the real one, so the malformed branch of `send_message` is dead.
   */
  method Build(r: Request) returns (ok: bool, message: seq<octet>)
    requires Sane(RequestFields(r))
    ensures ok <==> 8 + Size(RequestFields(r)) < MAX_MESSAGE_LENGTH
    ensures ok ==> message == Encoded(Packet(RequestId(r), RequestFields(r)))
    ensures ok ==> Framing.Complete(Framing.Login, message)
  {
    hide FieldOctets, Be32, FromBe32, RequestFields;
    var fields := RequestFields(r);
    PacketComplete(RequestId(r), fields);
    var packet := Packet(RequestId(r), fields);
    var buffer := new Buffer();
    assert packet[..0] == [];
    for i := 0 to |packet|
      invariant buffer.Valid() && fresh(buffer.data)
      invariant buffer.Contents() == Encoded(packet[..i])
    {
      assert packet[..i] + [packet[i]] == packet[..i + 1] && packet == packet[..i + 1] + packet[i + 1..];
      CatSnoc(FieldOctets, packet[..i], packet[i]);
      EncodedSize(packet[..i + 1]);
      SizeSplit(packet[..i + 1], packet[i + 1..]);
      var written := buffer.Write(packet[i]);
      if !written {
        return false, [];
      }
    }
    assert packet[..|packet|] == packet;
    message := buffer.data[..buffer.offset];
    // `send_message` compares the stated length with the length of what was built.
    Be32RoundTrip(Size(fields));
    EncodedSize(packet);
    if 8 + FromBe32(message[4..8]) != |message| {
      assert false;
    }
    ok := true;
  }

  /** The daemon's writes in order, none of them checked. */
  method WriteUnchecked(buffer: Buffer, fields: seq<Field>)
    requires buffer.Valid()
    modifies buffer, buffer.data
    ensures buffer.Valid() && buffer.Contents() == AfterWrites(old(buffer.Contents()), fields)
  {
    hide AfterWrite;
    ghost var start := buffer.Contents();
    for i := 0 to |fields|
      invariant buffer.Valid() && buffer.Contents() == AfterWrites(start, fields[..i])
    {
      assert fields[..i + 1][..i] == fields[..i];
      buffer.WriteOrDrop(fields[i]);
    }
    assert fields[..|fields|] == fields;
  }

  /**
    A daemon sender. Under the bound it writes the whole message; past it the header promises
    more than was written.
   */
  method BuildReply(r: Reply) returns (message: seq<octet>)
    requires Sane(ReplyFields(r))
    ensures message == AfterWrites([], Packet(ReplyId(r), ReplyFields(r)))
    ensures 8 + Size(ReplyFields(r)) < MAX_MESSAGE_LENGTH ==>
              message == Encoded(Packet(ReplyId(r), ReplyFields(r)))
    ensures Framing.Complete(Framing.Login, message) <==> 8 + Size(ReplyFields(r)) < MAX_MESSAGE_LENGTH
  {
    hide AfterWrites, Encoded, Packet, ReplyFields;
    var buffer := new Buffer();
    WriteUnchecked(buffer, Packet(ReplyId(r), ReplyFields(r)));
    message := buffer.data[..buffer.offset];
    UncheckedPacket(ReplyId(r), ReplyFields(r));
  }

  /** The header is always there, with the length that was meant; the payload is there if it fits. */
  lemma UncheckedPacket(id: u32, fields: seq<Field>)
    requires Sane(fields)
    ensures var m := AfterWrites([], Packet(id, fields));
            && Be32(id) + Be32(Size(fields)) <= m && |m| < MAX_MESSAGE_LENGTH
            && (8 + Size(fields) < MAX_MESSAGE_LENGTH ==> m == Encoded(Packet(id, fields)))
            && (Framing.Complete(Framing.Login, m) <==> 8 + Size(fields) < MAX_MESSAGE_LENGTH)
  {
    hide AfterWrites, Be32, FromBe32;
    var p, m := Packet(id, fields), AfterWrites([], Packet(id, fields));
    var header := [I(id), I(Size(fields))];
    AfterWritesFit([], p);
    AfterWritesAppend([], header, fields);
    assert p == header + fields;
    HeaderWritten(id, Size(fields));
    AfterWritesFit(Be32(id) + Be32(Size(fields)), fields);
    PacketComplete(id, fields);
    Be32RoundTrip(Size(fields));
    assert m[4..8] == (Be32(id) + Be32(Size(fields)))[4..8] == Be32(Size(fields));
  }

  lemma HeaderWritten(id: u32, size: u32)
    ensures AfterWrites([], [I(id), I(size)]) == Be32(id) + Be32(size)
  {
    hide Be32;
    var header := [I(id), I(size)];
    assert header[..1] == [I(id)] && [I(id)][..0] == [];
    assert AfterWrites([], header[..1]) == AfterWrite(AfterWrites([], []), I(id)) == [] + Be32(id);
  }

  lemma {:induction false} AfterWritesAppend(c: seq<octet>, xs: seq<Field>, ys: seq<Field>)
    ensures AfterWrites(c, xs + ys) == AfterWrites(AfterWrites(c, xs), ys)
    decreases |ys|
  {
    hide AfterWrite;
    if ys == [] {
      assert xs + ys == xs;
    } else {
      var n := |ys| - 1;
      assert (xs + ys)[..|xs| + n] == xs + ys[..n];
      AfterWritesAppend(c, xs, ys[..n]);
    }
  }

  // ------------------------------------------------------------------ reading

  /** A value read, and the octets of the message after it (`offset` is what has gone before). */
  datatype Read<+T> = Read(value: T, rest: seq<octet>)

  /** `read_int`: 0, and no progress, when fewer than four octets are left. */
  function ReadInt(m: seq<octet>): (r: Read<u32>) {
    if |m| < 4 then Read(0, m) else Read(FromBe32(m[..4]), m[4..])
  }

  /** `read_string`: the empty string when the text is not all there. */
  function ReadString(m: seq<octet>): (r: Read<Text>) {
    var length := ReadInt(m);
    if |length.rest| < length.value then Read([], length.rest)
    else Read(length.rest[..length.value], length.rest[length.value..])
  }

  /** `n` strings in a row. */
  function ReadStrings(m: seq<octet>, n: nat): (r: Read<seq<Text>>)
    decreases n
  {
    if n == 0 then Read([], m)
    else
      var first := ReadString(m);
      var others := ReadStrings(first.rest, n - 1);
      Read([first.value] + others.value, others.rest)
  }

  /** `n` pairs of a style and a text. */
  function ReadPrompts(m: seq<octet>, n: nat): (r: Read<seq<PamMessage>>)
    decreases n
  {
    if n == 0 then Read([], m)
    else
      var style := ReadInt(m);
      var text := ReadString(style.rest);
      var others := ReadPrompts(text.rest, n - 1);
      Read([PamMessage(style.value, Some(text.value))] + others.value, others.rest)
  }

  /** What the daemon makes of a whole message from the greeter; nothing of an unknown one. */
  function DecodeRequest(m: seq<octet>): (r: Option<Request>) {
    var id := ReadInt(m);
    var length := ReadInt(id.rest);
    DecodeRequestPayload(id.value, length.rest)
  }

  function DecodeRequestPayload(id: u32, m: seq<octet>): (r: Option<Request>) {
    match id
    case 0 =>
      var version := ReadString(m);
      var resettable := if version.rest != [] then ReadInt(version.rest) else Read(0, []);
      var api := if resettable.rest != [] then ReadInt(resettable.rest) else Read(0, []);
      Some(Connect(Some(version.value), resettable.value != 0, api.value))
    case 1 =>
      var number := ReadInt(m);
      Some(Authenticate(number.value, Some(ReadString(number.rest).value)))
    case 2 => Some(AuthenticateAsGuest(ReadInt(m).value))
    case 3 =>
      var n := ReadInt(m);
      if n.value > MAX_SECRETS then None
      else Some(ContinueAuthentication(ReadStrings(n.rest, n.value).value))
    case 4 => Some(StartSession(Some(ReadString(m).value)))
    case 5 => Some(CancelAuthentication)
    case 6 => Some(SetLanguage(Some(ReadString(m).value)))
    case 7 =>
      var number := ReadInt(m);
      var session := ReadString(number.rest);
      Some(AuthenticateRemote(number.value, Some(session.value), Some(ReadString(session.rest).value)))
    case 8 => Some(EnsureSharedDir(Some(ReadString(m).value)))
    case _ => None
  }

  /** A sender's message as it arrives: NULL has become the empty string. */
  function Received(r: Request): Request {
    match r
    case Connect(v, b, a) => Connect(Some(OrEmpty(v)), b, a)
    case Authenticate(n, u) => Authenticate(n, Some(OrEmpty(u)))
    case StartSession(t) => StartSession(Some(OrEmpty(t)))
    case SetLanguage(t) => SetLanguage(Some(OrEmpty(t)))
    case AuthenticateRemote(n, t, u) => AuthenticateRemote(n, Some(OrEmpty(t)), Some(OrEmpty(u)))
    case EnsureSharedDir(u) => EnsureSharedDir(Some(OrEmpty(u)))
    case _ => r
  }

  lemma IntAt(v: u32, tail: seq<octet>)
    ensures ReadInt(Be32(v) + tail) == Read(v, tail)
  {
    var m := Be32(v) + tail;
    assert m[..4] == Be32(v) && m[4..] == tail;
    Be32RoundTrip(v);
  }

  lemma StringAt(t: Text, tail: seq<octet>)
    requires |t| < U32
    ensures ReadString(Be32(|t|) + t + tail) == Read(t, tail)
  {
    assert Be32(|t|) + t + tail == Be32(|t|) + (t + tail);
    IntAt(|t|, t + tail);
    assert (t + tail)[..|t|] == t && (t + tail)[|t|..] == tail;
  }

  /** A reader before some written fields reads the first and stands before the others. */
  lemma FieldAt(fields: seq<Field>)
    requires fields != [] && Sane(fields)
    ensures Sane(fields[1..])
    ensures fields[0].I? ==> ReadInt(Encoded(fields)) == Read(fields[0].number, Encoded(fields[1..]))
    ensures fields[0].S? ==> ReadString(Encoded(fields)) == Read(OrEmpty(fields[0].text), Encoded(fields[1..]))
  {
    hide Be32, ReadInt, ReadString;
    if fields[0].I? {
      IntAt(fields[0].number, Encoded(fields[1..]));
    } else {
      StringAt(OrEmpty(fields[0].text), Encoded(fields[1..]));
    }
  }

  lemma {:induction false} StringsAt(texts: seq<Text>)
    requires Sane(Texts(texts))
    ensures ReadStrings(Encoded(Texts(texts)), |texts|) == Read(texts, [])
    decreases |texts|
  {
    hide FieldOctets, FieldSize, ReadString;
    if texts != [] {
      FieldAt(Texts(texts));
      assert Texts(texts)[1..] == Texts(texts[1..]);
      StringsAt(texts[1..]);
      assert [texts[0]] + texts[1..] == texts;
    }
  }

  lemma {:induction false} TextsCount(texts: seq<Text>)
    ensures 4 * |texts| <= Size(Texts(texts))
  {
    if texts != [] {
      TextsCount(texts[1..]);
    }
  }

  lemma {:induction false} PromptsAt(ms: seq<PamMessage>)
    requires Sane(Prompts(ms))
    ensures ReadPrompts(Encoded(Prompts(ms)), |ms|) == Read(ReceivedPrompts(ms), [])
    decreases |ms|
  {
    hide FieldOctets, FieldSize, ReadString, ReadInt;
    if ms != [] {
      FieldAt(Prompts(ms));
      FieldAt(Prompts(ms)[1..]);
      assert Prompts(ms)[1..][1..] == Prompts(ms[1..]);
      PromptsAt(ms[1..]);
    }
  }

  function ReceivedPrompts(ms: seq<PamMessage>): seq<PamMessage> {
    if ms == [] then [] else [PamMessage(ms[0].style, Some(OrEmpty(ms[0].text)))] + ReceivedPrompts(ms[1..])
  }

  /** The header of a whole message, and the payload after it. */
  lemma HeaderAt(id: u32, fields: seq<Field>)
    requires Sane(fields)
    ensures var m := ReadInt(Encoded(Packet(id, fields)));
            m.value == id && ReadInt(m.rest) == Read(Size(fields), Encoded(fields))
  {
    PacketComplete(id, fields);
    assert Encoded(Packet(id, fields)) == Be32(id) + (Be32(Size(fields)) + Encoded(fields));
    IntAt(id, Be32(Size(fields)) + Encoded(fields));
    IntAt(Size(fields), Encoded(fields));
  }

  /** The daemon decodes every message that a library sender can build to the same fields. */
  lemma RequestRoundTrip(r: Request)
    requires Sane(RequestFields(r))
    ensures DecodeRequest(Encoded(Packet(RequestId(r), RequestFields(r)))) == Some(Received(r))
  {
    hide FieldOctets, ReadString, ReadInt;
    var fields := RequestFields(r);
    HeaderAt(RequestId(r), fields);
    if fields != [] {
      FieldAt(fields);
    }
    if |fields| > 1 && !r.ContinueAuthentication? {
      FieldAt(fields[1..]);
      assert fields[1..][0] == fields[1];
    }
    match r {
      case ContinueAuthentication(secrets) =>
        assert fields[1..] == Texts(secrets);
        TextsCount(secrets);
        StringsAt(secrets);
      case Connect(v, b, a) =>
        assert fields[1..][1..] == [I(a)] && fields[1..] == [fields[1], I(a)];
        EncodedSize(fields[1..]);
        EncodedSize([I(a)]);
        assert FieldSize(I(a)) == 4 == FieldSize(fields[1]);
        FieldAt([I(a)]);
      case AuthenticateRemote(n, t, u) =>
        assert fields[1..][1..] == [S(u)];
        FieldAt([S(u)]);
      case _ =>
    }
  }

  /** Texts that are not NULL arrive as they are, and what has arrived is written again as the same octets. */
  lemma ReceivedSame(r: Request)
    ensures Encoded(Packet(RequestId(Received(r)), RequestFields(Received(r)))) == Encoded(Packet(RequestId(r), RequestFields(r)))
    ensures Received(Received(r)) == Received(r)
  {
    hide FieldOctets, Cat;
    NullSame();
    SameFields(RequestFields(Received(r)), RequestFields(r));
    SameFields(Packet(RequestId(Received(r)), RequestFields(Received(r))), Packet(RequestId(r), RequestFields(r)));
    EncodedSize(RequestFields(Received(r)));
    EncodedSize(RequestFields(r));
  }

  lemma NullSame()
    ensures forall t :: FieldOctets(S(Some(OrEmpty(t)))) == FieldOctets(S(t))
  {
  }

  /** Fields that are written alike, one by one. */
  lemma {:induction false} SameFields(xs: seq<Field>, ys: seq<Field>)
    ensures |xs| == |ys| && (forall i :: 0 <= i < |xs| ==> FieldOctets(xs[i]) == FieldOctets(ys[i])) ==> Encoded(xs) == Encoded(ys)
    decreases |xs|
  {
    hide FieldOctets;
    if |xs| == |ys| && xs != [] && forall i :: 0 <= i < |xs| ==> FieldOctets(xs[i]) == FieldOctets(ys[i]) {
      assert FieldOctets(xs[0]) == FieldOctets(ys[0]);
      forall i | 0 <= i < |xs| - 1 ensures FieldOctets(xs[1..][i]) == FieldOctets(ys[1..][i]) {
        assert xs[1..][i] == xs[i + 1] && ys[1..][i] == ys[i + 1];
      }
      SameFields(xs[1..], ys[1..]);
    }
  }

  /** An old greeter's connect message may end after the version or after the reset flag; what is missing is zero. */
  lemma OldGreeters(version: Text, resettable: bool)
    requires |version| < U32
    ensures DecodeRequestPayload(0, Be32(|version|) + version) == Some(Connect(Some(version), false, 0))
    ensures DecodeRequestPayload(0, Be32(|version|) + version + Be32(if resettable then 1 else 0)) == Some(Connect(Some(version), resettable, 0))
  {
    hide ReadString, Be32;
    StringAt(version, []);
    assert Be32(|version|) + version + [] == Be32(|version|) + version;
    var flag := if resettable then 1 else 0;
    StringAt(version, Be32(flag));
    IntAt(flag, []);
    assert Be32(flag) + [] == Be32(flag);
  }

  /** A message that claims more answers than there can be pointers to, and one of no known kind, are dropped. */
  lemma DroppedRequests(id: u32, n: u32, m: seq<octet>)
    ensures n > 536870911 ==> DecodeRequestPayload(3, Be32(n) + m) == None
    ensures id > 8 ==> DecodeRequestPayload(id, m) == None
  {
    hide Be32;
    IntAt(n, m);
  }

  // ------------------------------------------------------------------ the library's half

  /** `n` names and values. */
  function ReadHints(m: seq<octet>, n: nat): (r: Read<seq<Hint>>)
    decreases n
  {
    if n == 0 then Read([], m)
    else
      var name := ReadString(m);
      var value := ReadString(name.rest);
      var others := ReadHints(value.rest, n - 1);
      Read([(name.value, Some(value.value))] + others.value, others.rest)
  }

  /**
    Names and values while octets are left. A string read makes no progress on one to three
    octets, and then the loop never ends: None.
   */
  function ReadHintsToEnd(m: seq<octet>): (r: Option<seq<Hint>>)
    decreases |m|
  {
    if m == [] then Some([])
    else
      var name := ReadString(m);
      var value := ReadString(name.rest);
      if |value.rest| >= |m| then None
      else
        var others := ReadHintsToEnd(value.rest);
        if others.None? then None else Some([(name.value, Some(value.value))] + others.value)
  }

  /** What the library makes of a whole message from the daemon. */
  function DecodeReply(m: seq<octet>): (r: Option<Reply>) {
    var id := ReadInt(m);
    var length := ReadInt(id.rest);
    DecodeReplyPayload(id.value, length.rest)
  }

  function DecodeReplyPayload(id: u32, m: seq<octet>): (r: Option<Reply>) {
    match id
    case 0 =>
      var version := ReadString(m);
      var hints := ReadHintsToEnd(version.rest);
      if hints.None? then None else Some(Connected(Some(version.value), hints.value))
    case 1 =>
      var number := ReadInt(m);
      var username := ReadString(number.rest);
      var n := ReadInt(username.rest);
      Some(PromptAuthentication(number.value, Some(username.value), ReadPrompts(n.rest, n.value).value))
    case 2 =>
      var number := ReadInt(m);
      var username := ReadString(number.rest);
      Some(EndAuthentication(number.value, Some(username.value), ReadInt(username.rest).value))
    case 3 => Some(SessionResult(ReadInt(m).value))
    case 4 => Some(SharedDirResult(Some(ReadString(m).value)))
    case 5 => Some(Idle)
    case 6 =>
      var hints := ReadHintsToEnd(m);
      if hints.None? then None else Some(Reset(hints.value))
    case 7 =>
      var api := ReadInt(m);
      var version := ReadString(api.rest);
      var n := ReadInt(version.rest);
      Some(ConnectedV2(api.value, Some(version.value), ReadHints(n.rest, n.value).value))
    case _ => None
  }

  function ReceivedHints(hs: seq<Hint>): seq<Hint> {
    if hs == [] then [] else [(hs[0].0, Some(OrEmpty(hs[0].1)))] + ReceivedHints(hs[1..])
  }

  function ReceivedReply(r: Reply): Reply {
    match r
    case Connected(v, hs) => Connected(Some(OrEmpty(v)), ReceivedHints(hs))
    case PromptAuthentication(n, u, ms) => PromptAuthentication(n, Some(OrEmpty(u)), ReceivedPrompts(ms))
    case EndAuthentication(n, u, c) => EndAuthentication(n, Some(OrEmpty(u)), c)
    case SharedDirResult(d) => SharedDirResult(Some(OrEmpty(d)))
    case Reset(hs) => Reset(ReceivedHints(hs))
    case ConnectedV2(a, v, hs) => ConnectedV2(a, Some(OrEmpty(v)), ReceivedHints(hs))
    case _ => r
  }

  lemma {:induction false} HintsAt(hs: seq<Hint>)
    requires Sane(Hints(hs))
    ensures ReadHints(Encoded(Hints(hs)), |hs|) == Read(ReceivedHints(hs), [])
    ensures ReadHintsToEnd(Encoded(Hints(hs))) == Some(ReceivedHints(hs))
    decreases |hs|
  {
    hide FieldOctets, ReadString;
    EncodedSize(Hints(hs));
    if hs != [] {
      FieldAt(Hints(hs));
      FieldAt(Hints(hs)[1..]);
      assert Hints(hs)[1..][1..] == Hints(hs[1..]);
      EncodedSize(Hints(hs[1..]));
      HintsAt(hs[1..]);
    }
  }

  lemma ConnectedBack(r: Reply)
    requires Sane(ReplyFields(r)) && (r.Connected? || r.ConnectedV2? || r.Reset?)
    ensures DecodeReplyPayload(ReplyId(r), Encoded(ReplyFields(r))) == Some(ReceivedReply(r))
  {
    hide FieldOctets, ReadString, ReadInt, Encoded, ReadHints, ReadHintsToEnd, Hints, ReceivedHints;
    var fields := ReplyFields(r);
    match r {
      case Reset(hs) => HintsAt(hs);
      case Connected(v, hs) =>
        FieldAt(fields);
        assert fields[1..] == Hints(hs);
        HintsAt(hs);
      case ConnectedV2(a, v, hs) =>
        FieldAt(fields);
        FieldAt(fields[1..]);
        assert fields[1..][0] == S(v) && fields[1..][1..] == [I(|hs| % U32)] + Hints(hs);
        FieldAt(fields[1..][1..]);
        assert fields[1..][1..][1..] == Hints(hs);
        HintsCount(hs);
        HintsAt(hs);
    }
  }

  lemma AuthenticationBack(r: Reply)
    requires Sane(ReplyFields(r)) && (r.PromptAuthentication? || r.EndAuthentication?)
    ensures DecodeReplyPayload(ReplyId(r), Encoded(ReplyFields(r))) == Some(ReceivedReply(r))
  {
    hide FieldOctets, ReadString, ReadInt, Encoded, ReadPrompts, Prompts, ReceivedPrompts;
    var fields := ReplyFields(r);
    FieldAt(fields);
    FieldAt(fields[1..]);
    match r {
      case PromptAuthentication(n, u, ms) =>
        assert fields[1..][0] == S(u) && fields[1..][1..] == [I(|ms| % U32)] + Prompts(ms);
        FieldAt(fields[1..][1..]);
        assert fields[1..][1..][1..] == Prompts(ms);
        PromptsCount(ms);
        PromptsAt(ms);
      case EndAuthentication(n, u, c) =>
        assert fields[1..][0] == S(u) && fields[1..][1..] == [I(c)];
        FieldAt([I(c)]);
    }
  }

  /** The library decodes every message that the daemon wrote whole to the same fields. */
  lemma ReplyRoundTrip(r: Reply)
    requires Sane(ReplyFields(r))
    ensures DecodeReply(Encoded(Packet(ReplyId(r), ReplyFields(r)))) == Some(ReceivedReply(r))
  {
    hide FieldOctets, ReadString, ReadInt, Encoded, Packet;
    HeaderAt(ReplyId(r), ReplyFields(r));
    if r.Connected? || r.ConnectedV2? || r.Reset? {
      ConnectedBack(r);
    } else if r.PromptAuthentication? || r.EndAuthentication? {
      AuthenticationBack(r);
    } else if r.SessionResult? || r.SharedDirResult? {
      FieldAt(ReplyFields(r));
    }
  }

  lemma {:induction false} HintsCount(hs: seq<Hint>)
    ensures |hs| <= Size(Hints(hs))
  {
    if hs != [] {
      HintsCount(hs[1..]);
      assert Hints(hs)[1..][1..] == Hints(hs[1..]);
    }
  }

  lemma {:induction false} PromptsCount(ms: seq<PamMessage>)
    ensures |ms| <= Size(Prompts(ms))
  {
    if ms != [] {
      PromptsCount(ms[1..]);
      assert Prompts(ms)[1..][1..] == Prompts(ms[1..]);
    }
  }

  /** `hs` lists the daemon's hash table, each key once, in whatever order the table is walked. */
  ghost predicate Walks(hs: seq<Hint>, table: map<Text, Option<Text>>) {
    && (forall i, j :: 0 <= i < j < |hs| ==> hs[i].0 != hs[j].0)
    && (forall h <- hs :: h.0 in table && table[h.0] == h.1)
    && (forall k <- table :: (k, table[k]) in hs)
  }

  /** The hash table that inserting the pairs in order leaves. */
  function Inserted(table: map<Text, Text>, hs: seq<Hint>): map<Text, Text>
    decreases |hs|
  {
    if hs == [] then table else Inserted(table[hs[0].0 := OrEmpty(hs[0].1)], hs[1..])
  }

  lemma {:induction false} InsertedAll(table: map<Text, Text>, hs: seq<Hint>)
    requires forall i, j :: 0 <= i < j < |hs| ==> hs[i].0 != hs[j].0
    ensures forall k :: k in Inserted(table, hs) <==> k in table || exists h <- hs :: h.0 == k
    ensures forall h <- hs :: Inserted(table, hs)[h.0] == OrEmpty(h.1)
    ensures forall k <- table :: (forall h <- hs :: h.0 != k) ==> Inserted(table, hs)[k] == table[k]
    decreases |hs|
  {
    if hs != [] {
      var next := table[hs[0].0 := OrEmpty(hs[0].1)];
      InsertedAll(next, hs[1..]);
      assert hs == [hs[0]] + hs[1..];
      forall h <- hs[1..] ensures h.0 != hs[0].0 {
        var i :| 0 <= i < |hs[1..]| && hs[1..][i] == h;
        assert hs[i + 1] == h;
      }
    }
  }

  /** The library's hint table and the two handlers that fill it. */
  class HintTable {
    var hints: map<Text, Text>

    constructor ()
      ensures hints == map[]
    {
      hints := map[];
    }

    /** The loop of `handle_connected` at version 2, which counts. */
    method InsertCounted(payload: seq<octet>, n: nat)
      modifies this
      ensures hints == Inserted(old(hints), ReadHints(payload, n).value)
    {
      var rest := payload;
      for i := 0 to n
        invariant Inserted(hints, ReadHints(rest, n - i).value) == Inserted(old(hints), ReadHints(payload, n).value)
      {
        var name := ReadString(rest);
        var value := ReadString(name.rest);
        ghost var others := ReadHints(value.rest, n - i - 1).value;
        assert ([(name.value, Some(value.value))] + others)[1..] == others;
        hints := hints[name.value := value.value];
        rest := value.rest;
      }
    }

    /**
      The loop of `handle_reset` and of `handle_connected` at version 0, which runs to the end.
      A turn that makes no progress is repeated for ever; here the method then stops and says so.
     */
    method InsertToEnd(payload: seq<octet>) returns (ends: bool)
      modifies this
      ensures ends <==> !Stalls(payload)
      ensures ends ==> ReadHintsToEnd(payload).Some? && hints == Inserted(old(hints), ReadHintsToEnd(payload).value)
      ensures !ends ==> [] in hints && hints[[]] == []
    {
      hide Stalls, ReadString;
      StallsExactly(payload);
      var rest := payload;
      while rest != []
        invariant ReadHintsToEnd(rest).Some? == ReadHintsToEnd(payload).Some?
        invariant ReadHintsToEnd(rest).Some? ==>
                    Inserted(hints, ReadHintsToEnd(rest).value) == Inserted(old(hints), ReadHintsToEnd(payload).value)
        decreases |rest|
      {
        var name := ReadString(rest);
        var value := ReadString(name.rest);
        ghost var others := ReadHintsToEnd(value.rest);
        assert others.Some? ==> ([(name.value, Some(value.value))] + others.value)[1..] == others.value;
        hints := hints[name.value := value.value];
        StringProgress(rest);
        StringProgress(name.rest);
        if |value.rest| == |rest| {
          return false;
        }
        rest := value.rest;
      }
      return true;
    }

    method HandleReset(payload: seq<octet>) returns (ends: bool)
      modifies this
      ensures ends <==> !Stalls(payload)
      ensures ends ==> ReadHintsToEnd(payload).Some? && hints == Inserted(map[], ReadHintsToEnd(payload).value)
      ensures !ends ==> [] in hints && hints[[]] == []
    {
      hints := map[];
      ends := InsertToEnd(payload);
    }
  }

  /** Reading a string takes its length off, unless that is not all there; then it takes nothing and is empty. */
  lemma StringProgress(m: seq<octet>)
    ensures |m| >= 4 ==> |ReadString(m).rest| <= |m| - 4
    ensures |m| < 4 ==> ReadString(m) == Read([], m)
  {
  }

  // ------------------------------------------------------------------ a loop that does not end

  /** After some of its hints one to three octets are left of the payload. */
  ghost predicate Stalls(m: seq<octet>) {
    exists n: nat :: 0 < |ReadHints(m, n).rest| < 4
  }

  /** The octets after one name and value. */
  function AfterPair(m: seq<octet>): seq<octet> {
    ReadString(ReadString(m).rest).rest
  }

  lemma PairProgress(m: seq<octet>)
    ensures |m| >= 4 ==> |AfterPair(m)| <= |m| - 4
    ensures |m| < 4 ==> AfterPair(m) == m
    ensures ReadHintsToEnd(m).None? <==> m != [] && (|m| < 4 || ReadHintsToEnd(AfterPair(m)).None?)
    ensures forall n: nat :: n > 0 ==> ReadHints(m, n).rest == ReadHints(AfterPair(m), n - 1).rest
  {
    hide ReadString;
    StringProgress(m);
    StringProgress(ReadString(m).rest);
  }

  lemma {:induction false} NothingLeft(n: nat)
    ensures ReadHints([], n).rest == []
  {
    if n > 0 {
      NothingLeft(n - 1);
      PairProgress([]);
    }
  }

  lemma StallsLater(m: seq<octet>)
    requires |m| >= 4
    ensures Stalls(m) <==> Stalls(AfterPair(m))
  {
    hide ReadHints, ReadHintsToEnd, AfterPair;
    PairProgress(m);
    ReadNone(m);
    if Stalls(AfterPair(m)) {
      var n: nat :| 0 < |ReadHints(AfterPair(m), n).rest| < 4;
      assert ReadHints(m, n + 1).rest == ReadHints(AfterPair(m), n).rest;
    }
    if Stalls(m) {
      var n: nat :| 0 < |ReadHints(m, n).rest| < 4;
      assert n > 0;
      assert ReadHints(AfterPair(m), n - 1).rest == ReadHints(m, n).rest;
    }
  }

  lemma ReadNone(m: seq<octet>)
    ensures ReadHints(m, 0).rest == m
  {
  }

  /** The loop fails to end exactly when one to three octets are left after some number of hints. */
  lemma {:induction false} StallsExactly(m: seq<octet>)
    ensures ReadHintsToEnd(m).None? <==> Stalls(m)
    decreases |m|
  {
    hide ReadHints, ReadHintsToEnd, AfterPair;
    PairProgress(m);
    ReadNone(m);
    if m == [] {
      forall n: nat ensures ReadHints(m, n).rest == [] {
        NothingLeft(n);
      }
    } else if |m| >= 4 {
      StallsLater(m);
      StallsExactly(AfterPair(m));
    }
  }

  lemma {:induction false} InsertedReceived(table: map<Text, Text>, hs: seq<Hint>)
    ensures Inserted(table, ReceivedHints(hs)) == Inserted(table, hs)
    decreases |hs|
  {
    if hs != [] {
      assert ReceivedHints(hs)[1..] == ReceivedHints(hs[1..]);
      InsertedReceived(table[hs[0].0 := OrEmpty(hs[0].1)], hs[1..]);
    }
  }

  /**
    RESET, CONNECTED and CONNECTED_V2 rebuild the daemon's hint table exactly, in any hash
    order, NULL arriving as "".
   */
  lemma HintsRebuilt(hs: seq<Hint>, table: map<Text, Option<Text>>, r: Reply)
    requires Walks(hs, table) && Sane(ReplyFields(r))
    requires r.Reset? || r.Connected? || r.ConnectedV2?
    requires r.hints == hs
    ensures var got := DecodeReply(Encoded(Packet(ReplyId(r), ReplyFields(r))));
            && got.Some? && (got.value.Reset? || got.value.Connected? || got.value.ConnectedV2?)
            && Inserted(map[], got.value.hints) == map k | k in table :: OrEmpty(table[k])
  {
    hide DecodeReply, ReplyFields, Encoded, Packet, Inserted, Walks, ReceivedHints;
    ReplyRoundTrip(r);
    InsertedReceived(map[], hs);
    WalkedInserted(hs, table);
  }

  /** What has arrived of a reply is written again as the same octets. */
  lemma ReceivedReplySame(r: Reply)
    ensures Encoded(Packet(ReplyId(ReceivedReply(r)), ReplyFields(ReceivedReply(r)))) == Encoded(Packet(ReplyId(r), ReplyFields(r)))
  {
    hide WrittenAlike, Encoded, Packet;
    RepliesAlike(r);
    PacketSame(ReplyId(r), ReplyFields(ReceivedReply(r)), ReplyFields(r));
  }

  lemma RepliesAlike(r: Reply)
    ensures WrittenAlike(ReplyFields(ReceivedReply(r)), ReplyFields(r)) && ReplyId(ReceivedReply(r)) == ReplyId(r)
  {
    hide FieldOctets, WrittenAlike, Hints, Prompts, ReceivedHints, ReceivedPrompts;
    NullSame();
    match r {
      case Connected(v, hs) =>
        HintsSame(hs);
        AlikeAfter([S(Some(OrEmpty(v)))], [S(v)], Hints(ReceivedHints(hs)), Hints(hs));
      case ConnectedV2(a, v, hs) =>
        HintsSame(hs);
        AlikeAfter([I(a), S(Some(OrEmpty(v))), I(|hs| % U32)], [I(a), S(v), I(|hs| % U32)], Hints(ReceivedHints(hs)), Hints(hs));
      case Reset(hs) => HintsSame(hs);
      case PromptAuthentication(n, u, ms) =>
        PromptsSame(ms);
        AlikeAfter([I(n), S(Some(OrEmpty(u))), I(|ms| % U32)], [I(n), S(u), I(|ms| % U32)], Prompts(ReceivedPrompts(ms)), Prompts(ms));
      case _ => ShortAlike(r);
    }
  }

  lemma ShortAlike(r: Reply)
    requires r.EndAuthentication? || r.SessionResult? || r.SharedDirResult? || r.Idle?
    ensures WrittenAlike(ReplyFields(ReceivedReply(r)), ReplyFields(r))
  {
    hide FieldOctets;
    NullSame();
  }

  /** Up to three fields in front of the rest. */
  lemma AlikeAfter(xs: seq<Field>, ys: seq<Field>, more: seq<Field>, rest: seq<Field>)
    requires |xs| == |ys| <= 3 && WrittenAlike(more, rest)
    requires forall i :: 0 <= i < |xs| ==> FieldOctets(xs[i]) == FieldOctets(ys[i])
    ensures WrittenAlike(xs + more, ys + rest)
  {
    hide FieldOctets;
  }

  lemma PacketSame(id: u32, xs: seq<Field>, ys: seq<Field>)
    requires WrittenAlike(xs, ys)
    ensures Encoded(Packet(id, xs)) == Encoded(Packet(id, ys))
  {
    hide FieldOctets, Encoded, Size;
    SameFields(xs, ys);
    EncodedSize(xs);
    EncodedSize(ys);
    SameFields(Packet(id, xs), Packet(id, ys));
  }

  ghost predicate WrittenAlike(xs: seq<Field>, ys: seq<Field>) {
    |xs| == |ys| && forall i :: 0 <= i < |xs| ==> FieldOctets(xs[i]) == FieldOctets(ys[i])
  }

  lemma {:induction false} HintsSame(hs: seq<Hint>)
    ensures WrittenAlike(Hints(ReceivedHints(hs)), Hints(hs)) && |ReceivedHints(hs)| == |hs|
    decreases |hs|
  {
    hide FieldOctets;
    NullSame();
    if hs != [] {
      HintsSame(hs[1..]);
      assert ReceivedHints(hs)[1..] == ReceivedHints(hs[1..]);
    }
  }

  lemma {:induction false} PromptsSame(ms: seq<PamMessage>)
    ensures WrittenAlike(Prompts(ReceivedPrompts(ms)), Prompts(ms)) && |ReceivedPrompts(ms)| == |ms|
    decreases |ms|
  {
    hide FieldOctets;
    NullSame();
    if ms != [] {
      PromptsSame(ms[1..]);
      assert ReceivedPrompts(ms)[1..] == ReceivedPrompts(ms[1..]);
    }
  }

  /** Inserting what a walk lists makes the table again, with NULL as "". */
  lemma WalkedInserted(hs: seq<Hint>, table: map<Text, Option<Text>>)
    requires Walks(hs, table)
    ensures Inserted(map[], hs) == map k | k in table :: OrEmpty(table[k])
  {
    hide Inserted;
    InsertedAll(map[], hs);
    var got := Inserted(map[], hs);
    forall k ensures k in got <==> k in table {
      if k in table {
        assert (k, table[k]) in hs;
      }
    }
    forall k <- table ensures got[k] == OrEmpty(table[k]) {
      assert (k, table[k]) in hs;
    }
  }

  // A daemon can send such a payload.

  lemma {:induction false} HintsSnoc(hs: seq<Hint>, h: Hint)
    ensures Hints(hs + [h]) == Hints(hs) + [S(Some(h.0)), S(h.1)]
    decreases |hs|
  {
    if hs == [] {
      assert hs + [h] == [h] && Hints([h][1..]) == [];
    } else {
      assert (hs + [h])[0] == hs[0] && (hs + [h])[1..] == hs[1..] + [h];
      HintsSnoc(hs[1..], h);
    }
  }

  lemma TextRead(text: Option<Text>, tail: seq<octet>)
    requires |OrEmpty(text)| < U32
    ensures ReadString(FieldOctets(S(text)) + tail).rest == tail
  {
    hide ReadString, Be32;
    StringAt(OrEmpty(text), tail);
  }

  /** Whole hints in front do not help. */
  lemma {:induction false} StallsAfter(hs: seq<Hint>, tail: seq<octet>)
    requires Sane(Hints(hs)) && Stalls(tail)
    ensures Stalls(Encoded(Hints(hs)) + tail)
    decreases |hs|
  {
    hide FieldOctets, ReadString, Stalls;
    if hs == [] {
      assert Encoded(Hints(hs)) + tail == tail;
    } else {
      var a, b := S(Some(hs[0].0)), S(hs[0].1);
      var fields := Hints(hs);
      assert fields == [a, b] + Hints(hs[1..]) && fields[1..] == [b] + Hints(hs[1..]) && fields[1..][1..] == Hints(hs[1..]);
      assert Size(fields) == FieldSize(a) + FieldSize(b) + Size(Hints(hs[1..]));
      var rest := Encoded(Hints(hs[1..])) + tail;
      assert Encoded(fields) == FieldOctets(a) + Encoded(fields[1..]);
      assert Encoded(fields[1..]) == FieldOctets(b) + Encoded(Hints(hs[1..]));
      var m := Encoded(fields) + tail;
      assert m == FieldOctets(a) + (FieldOctets(b) + rest);
      TextRead(Some(hs[0].0), FieldOctets(b) + rest);
      TextRead(hs[0].1, rest);
      assert AfterPair(m) == rest;
      StallsAfter(hs[1..], tail);
      assert |FieldOctets(a)| >= 4 by { FieldLength(a); }
      StallsLater(m);
    }
  }

  lemma FieldLength(x: Field)
    ensures |FieldOctets(x)| == FieldSize(x)
  {
  }

  /** Some hints, and one more whose value's text just fits without its length. */
  predicate LengthLost(hs: seq<Hint>, name: Text, value: Text) {
    8 + Size(Hints(hs)) + 4 + |name| == 1020 && |value| == 3 && 0 !in value
  }

  /**
    What the daemon writes of a RESET with these hints is short of what its header promises: the
    library makes one message of it with the head of the IDLE that follows, and never ends
    reading its hints.
   */
  ghost predicate SwallowsAndStalls(hints: seq<Hint>) {
    var fields := ReplyFields(Reset(hints));
    var idle := Encoded(Packet(ReplyId(Idle), []));
    && Sane(fields) && Framing.Complete(Framing.Login, idle)
    && var reset := AfterWrites([], Packet(ReplyId(Reset(hints)), fields));
       var message := reset + idle[..4];
       && |message| >= 8 && Framing.Feed(Framing.Login, [], message) == Framing.Fed([], [message])
       && Stalls(message[8..])
  }

  /**
    Where the last hint that is walked leaves no room for its value's length but for its three
    octets, a RESET promises four octets more than were written. They are taken from the message
    that follows, an IDLE, and after the hints three octets are left over.
   */
  lemma ResetCanStall(hs: seq<Hint>, name: Text, value: Text)
    requires LengthLost(hs, name, value)
    ensures SwallowsAndStalls(hs + [(name, Some(value))])
  {
    hide Be32, FromBe32, Framing.Feed, Framing.Complete, Stalls, Encoded, Hints, Size, AfterWrites, AfterWrite;
    HintsSnoc(hs, (name, Some(value)));
    IdleMessage();
    UncheckedReset(hs, name, value);
    EncodedSize(Hints(hs));
    var tail := Be32(|name|) + name + (value + Be32(5));
    ShortMessage(Encoded(Hints(hs)), Be32(|name|) + name, value);
    ThreeLeft(name, value);
    StallsAfter(hs, tail);
  }

  /** The octets of the message that the library makes. */
  lemma ShortMessage(front: seq<octet>, name: seq<octet>, value: Text)
    requires |front| + |name| == 1012 && |value| == 3
    ensures var message := Be32(6) + Be32(1019) + front + name + value + Be32(5);
            Framing.Feed(Framing.Login, [], message) == Framing.Fed([], [message]) && message[8..] == front + (name + (value + Be32(5)))
  {
    hide Be32, FromBe32, Framing.Feed;
    var message := Be32(6) + Be32(1019) + front + name + value + Be32(5);
    assert message[4..8] == Be32(1019);
    Be32RoundTrip(1019);
    Framing.FeedMessage(Framing.Login, message);
  }

  lemma IdleMessage()
    ensures var idle := Encoded(Packet(5, []));
            Framing.Complete(Framing.Login, idle) && |idle| >= 4 && idle[..4] == Be32(5)
  {
    hide Be32;
    PacketComplete(5, []);
  }

  lemma ResetSize(hs: seq<Hint>, name: Text, value: Text)
    requires LengthLost(hs, name, value)
    ensures Size(Hints(hs) + [S(Some(name)), S(Some(value))]) == 1019
    ensures Size(Hints(hs) + [S(Some(name))]) == 1012
    ensures Encoded(Hints(hs) + [S(Some(name))]) == Encoded(Hints(hs)) + (Be32(|name|) + name)
  {
    hide Be32, Encoded, Hints, Size;
    var front, last := Hints(hs) + [S(Some(name))], [S(Some(value))];
    assert Hints(hs) + [S(Some(name)), S(Some(value))] == front + last;
    SizeSplit(front, last);
    SizeSplit(Hints(hs), [S(Some(name))]);
    OneField(S(Some(name)));
    OneField(S(Some(value)));
    EncodedSplit(Hints(hs), [S(Some(name))]);
  }

  /** The last value's length is dropped and its text is not. */
  lemma LastValue(c: seq<octet>, value: Text)
    requires |c| == 1020 && |value| == 3
    ensures AfterWrites(c, [S(Some(value))]) == c + value
  {
    hide Be32;
    assert [S(Some(value))][..0] == [];
    assert AfterWrites(c, [S(Some(value))]) == AfterWrite(AfterWrites(c, []), S(Some(value)));
  }

  lemma UncheckedReset(hs: seq<Hint>, name: Text, value: Text)
    requires LengthLost(hs, name, value)
    ensures var fields := Hints(hs) + [S(Some(name)), S(Some(value))];
            && Size(fields) == 1019
            && AfterWrites([], Packet(6, fields)) == Be32(6) + Be32(1019) + Encoded(Hints(hs)) + (Be32(|name|) + name) + value
  {
    hide Be32, Encoded, Hints, Size, AfterWrites, AfterWrite;
    var front, last := Hints(hs) + [S(Some(name))], [S(Some(value))];
    var fields := Hints(hs) + [S(Some(name)), S(Some(value))];
    ResetSize(hs, name, value);
    var header := Be32(6) + Be32(1019);
    HeaderWritten(6, 1019);
    AfterWritesAppend([], [I(6), I(1019)], fields);
    assert Packet(6, fields) == [I(6), I(1019)] + fields;
    assert fields == front + last;
    AfterWritesAppend(header, front, last);
    AfterWritesFit(header, front);
    EncodedSize(front);
    LastValue(header + Encoded(front), value);
  }

  lemma OneField(x: Field)
    ensures Size([x]) == FieldSize(x) && Encoded([x]) == FieldOctets(x)
  {
    assert [x][1..] == [];
    assert Size([x]) == FieldSize(x) + Size([]);
    assert Encoded([x]) == FieldOctets(x) + Encoded([]);
  }

  lemma EncodedSplit(xs: seq<Field>, ys: seq<Field>)
    ensures Encoded(xs + ys) == Encoded(xs) + Encoded(ys)
  {
    CatAppend(FieldOctets, xs, ys);
  }

  lemma ThreeLeft(name: Text, value: Text)
    requires |name| < 1020 && |value| == 3 && 0 !in value
    ensures Stalls(Be32(|name|) + name + (value + Be32(5)))
  {
    var tail := value + Be32(5);
    StringAt(name, tail);
    assert value[0] in value;
    assert tail[..4] == [value[0], value[1], value[2], 0];
    assert FromBe32(tail[..4]) > 3;
    assert ReadString(tail) == Read([], tail[4..]);
    var m := Be32(|name|) + name + tail;
    assert ReadHints(m, 1).rest == ReadHints(tail[4..], 0).rest == tail[4..];
  }

  // The hints that a seat sets before it resets a greeter.

  function Ascii(s: string): Text {
    seq(|s|, i requires 0 <= i < |s| => (s[i] as int) % 256)
  }

  function TrueFalse(b: bool): Option<Text> {
    Some(Ascii(if b then "true" else "false"))
  }

  /** `set_greeter_hints`. */
  function GreeterHints(session: Text, hideUsers: bool, manual: bool, remote: bool, guest: bool): seq<Hint> {
    [(Ascii("default-session"), Some(session)), (Ascii("hide-users"), TrueFalse(hideUsers)),
     (Ascii("show-manual-login"), TrueFalse(manual)), (Ascii("show-remote-login"), TrueFalse(remote)),
     (Ascii("has-guest-account"), TrueFalse(guest))]
  }

  function One(b: bool): nat {
    if b then 1 else 0
  }

  lemma GreeterHintsSize(session: Text, hideUsers: bool, manual: bool, remote: bool, guest: bool)
    ensures Size(Hints(GreeterHints(session, hideUsers, manual, remote, guest)))
            == 136 + |session| - One(hideUsers) - One(manual) - One(remote) - One(guest)
  {
    var hs := GreeterHints(session, hideUsers, manual, remote, guest);
    var b, c, d, e := hs[1..], hs[2..], hs[3..], hs[4..];
    assert b[1..] == c && c[1..] == d && d[1..] == e;
    HintsSize(hs);
    HintsSize(b);
    HintsSize(c);
    HintsSize(d);
    HintsSize(e);
    NoHints(e[1..]);
  }

  lemma NoHints(hs: seq<Hint>)
    ensures hs == [] ==> Size(Hints(hs)) == 0
  {
  }

  lemma HintsSize(hs: seq<Hint>)
    requires hs != []
    ensures Size(Hints(hs)) == 8 + |hs[0].0| + |OrEmpty(hs[0].1)| + Size(Hints(hs[1..]))
  {
    var fields := Hints(hs);
    assert fields[1..] == [S(hs[0].1)] + Hints(hs[1..]) && fields[1..][1..] == Hints(hs[1..]);
  }

  /** The letters in which names of the same length differ. */
  lemma NamesDiffer()
    ensures Ascii("show-manual-login") != Ascii("show-remote-login")
    ensures Ascii("show-manual-login") != Ascii("has-guest-account")
    ensures Ascii("show-remote-login") != Ascii("has-guest-account")
  {
    assert Ascii("show-manual-login")[5] == 'm' as int % 256 && Ascii("show-remote-login")[5] == 'r' as int % 256;
    assert Ascii("has-guest-account")[0] == 'h' as int % 256;
    assert Ascii("show-manual-login")[0] == 's' as int % 256 && Ascii("show-remote-login")[0] == 's' as int % 256;
  }

  /**
    The seat's own hints reach it: a session fails for a user with a name of three octets, the
    configured session's name is long enough, and the hint with the user's name is walked last.
   */
  lemma SeatCanStall(session: Text, hideUsers: bool, manual: bool, remote: bool, guest: bool, user: Text)
    requires |session| == 861 + One(hideUsers) + One(manual) + One(remote) + One(guest) && |user| == 3 && 0 !in user
    ensures var hints := GreeterHints(session, hideUsers, manual, remote, guest) + [(Ascii("select-user"), Some(user))];
            && (forall i, j :: 0 <= i < j < |hints| ==> hints[i].0 != hints[j].0)
            && SwallowsAndStalls(hints)
  {
    hide SwallowsAndStalls, Size, Hints, Ascii;
    AsciiLengths();
    NamesDiffer();
    GreeterHintsSize(session, hideUsers, manual, remote, guest);
    ResetCanStall(GreeterHints(session, hideUsers, manual, remote, guest), Ascii("select-user"), user);
  }

  lemma AsciiLengths()
    ensures |Ascii("default-session")| == 15 && |Ascii("hide-users")| == 10 && |Ascii("select-user")| == 11
    ensures |Ascii("show-manual-login")| == |Ascii("show-remote-login")| == |Ascii("has-guest-account")| == 17
  {
  }
}
