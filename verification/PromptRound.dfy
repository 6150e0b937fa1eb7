/**
  One round of a PAM conversation, from the messages that PAM hands to the session child to the
  responses that it gets back: child, daemon, greeter library and the way home
  (src/session-child.c, src/session.c, src/greeter.c, liblightdm-gobject/greeter.c).
 */
module PromptRound {
  import opened Octets
  import opened LoginMessages
  import opened LoginProtocol
  import ChildPipe

  const PAM_CONV_ERR: ChildPipe.i32 := 19

  type Message = ChildPipe.Message
  type Response = ChildPipe.Response

  /** An int that `write_int` takes as a guint32. */
  function Unsigned(v: ChildPipe.i32): u32 {
    if v < 0 then v as int + U32 else v
  }

  /** The messages as the daemon writes them for the greeter. */
  function Wire(ms: seq<Message>): (w: seq<PamMessage>)
    ensures |w| == |ms|
  {
    seq(|ms|, i requires 0 <= i < |ms| => PamMessage(Unsigned(ms[i].style), ms[i].text))
  }

  function CountAsked(ms: seq<Message>): nat {
    CountPrompts(Wire(ms))
  }

  predicate Asks(m: Message) {
    m.style == 1 || m.style == 2
  }

  /** One response per message: a prompt takes the answer whose number is that of the prompts before it. */
  ghost predicate Slotted(ms: seq<Message>, answers: seq<Text>, responses: seq<Response>) {
    && |responses| == |ms|
    && |answers| == CountAsked(ms)
    && forall i :: 0 <= i < |ms| ==>
         var j := CountAsked(ms[..i]);
         if Asks(ms[i]) then j < |answers| && responses[i] == ChildPipe.Response(Some(answers[j]), 0)
         else responses[i] == ChildPipe.Response(None, 0)
  }

  lemma CountStep(ms: seq<Message>, i: nat)
    requires i < |ms|
    ensures CountAsked(ms[..i + 1]) == CountAsked(ms[..i]) + if Asks(ms[i]) then 1 else 0
  {
    var w := Wire(ms[..i + 1]);
    assert w[..|w| - 1] == Wire(ms[..i]);
  }

  lemma {:induction false} CountGrows(ms: seq<Message>, i: nat, k: nat)
    requires i <= k <= |ms|
    ensures CountAsked(ms[..i]) <= CountAsked(ms[..k])
    decreases k
  {
    if i < k {
      CountGrows(ms, i, k - 1);
      CountStep(ms, k - 1);
    }
  }

  /** Every answer is used, and by one prompt only: the prompts and the answers correspond in order. */
  lemma {:induction false} EachAnswerOnce(ms: seq<Message>, j: nat)
    requires j < CountAsked(ms)
    ensures exists i :: 0 <= i < |ms| && Asks(ms[i]) && CountAsked(ms[..i]) == j
    ensures forall i, k :: 0 <= i < k < |ms| && Asks(ms[i]) ==> CountAsked(ms[..i]) < CountAsked(ms[..k])
    decreases |ms|
  {
    assert ms[..|ms|] == ms;
    var n := |ms| - 1;
    CountStep(ms, n);
    if j < CountAsked(ms[..n]) {
      EachAnswerOnce(ms[..n], j);
      var i :| 0 <= i < n && Asks(ms[..n][i]) && CountAsked(ms[..n][..i]) == j;
      assert ms[..n][..i] == ms[..i];
      assert Asks(ms[i]) && CountAsked(ms[..i]) == j;
    } else {
      assert Asks(ms[n]) && CountAsked(ms[..n]) == j;
    }
    forall i, k | 0 <= i < k < |ms| && Asks(ms[i]) ensures CountAsked(ms[..i]) < CountAsked(ms[..k]) {
      CountStep(ms, i);
      CountGrows(ms, i + 1, k);
    }
  }

  /** Only the styles decide how many prompts there are, so NULL texts arriving as "" change nothing. */
  lemma {:induction false} CountReceived(ms: seq<PamMessage>)
    ensures |ReceivedPrompts(ms)| == |ms|
    ensures forall i :: 0 <= i < |ms| ==> ReceivedPrompts(ms)[i].style == ms[i].style
    ensures CountPrompts(ReceivedPrompts(ms)) == CountPrompts(ms)
  {
    ReceivedStyles(ms);
    SameStyles(ReceivedPrompts(ms), ms);
  }

  lemma {:induction false} ReceivedStyles(ms: seq<PamMessage>)
    ensures |ReceivedPrompts(ms)| == |ms|
    ensures forall i :: 0 <= i < |ms| ==> ReceivedPrompts(ms)[i].style == ms[i].style
  {
    if ms != [] {
      ReceivedStyles(ms[1..]);
    }
  }

  lemma {:induction false} SameStyles(a: seq<PamMessage>, b: seq<PamMessage>)
    requires |a| == |b| && forall i :: 0 <= i < |a| ==> a[i].style == b[i].style
    ensures CountPrompts(a) == CountPrompts(b)
    decreases |a|
  {
    if a != [] {
      SameStyles(a[..|a| - 1], b[..|b| - 1]);
    }
  }

  /** The loop that deals the secrets out to the prompts. */
  method Deal(ms: seq<Message>, secrets: seq<Text>) returns (responses: seq<Response>)
    requires |secrets| == CountAsked(ms)
    ensures Slotted(ms, secrets, responses)
  {
    responses := [];
    var j := 0;
    assert ms[..|ms|] == ms;
    for i := 0 to |ms|
      invariant |responses| == i && j == CountAsked(ms[..i]) <= |secrets|
      invariant forall k :: 0 <= k < i ==>
                  var before := CountAsked(ms[..k]);
                  if Asks(ms[k]) then before < |secrets| && responses[k] == ChildPipe.Response(Some(secrets[before]), 0)
                  else responses[k] == ChildPipe.Response(None, 0)
    {
      hide CountAsked;
      CountStep(ms, i);
      CountGrows(ms, i + 1, |ms|);
      if ms[i].style == 1 || ms[i].style == 2 {
        responses := responses + [ChildPipe.Response(Some(secrets[j]), 0)];
        j := j + 1;
      } else {
        responses := responses + [ChildPipe.Response(None, 0)];
      }
    }
  }

  /** The daemon's session object while PAM talks, and the greeter's handlers that answer through it. */
  class AuthenticationSession {
    var messages: seq<Message>
    var username: Option<Text>
    const toChild: ChildPipe.Pipe

    constructor (toChild: ChildPipe.Pipe)
      ensures messages == [] && username == None && this.toChild == toChild
    {
      messages, username, this.toChild := [], None, toChild;
    }

    /** `from_child_cb` on a batch of messages. */
    method FromChild(fromChild: ChildPipe.Pipe, ghost u: Option<Text>, ghost ms: seq<Message>)
      requires ChildPipe.ReportFits(ChildPipe.Asking(u, ms))
      requires fromChild.octets == ChildPipe.Encoded(ChildPipe.ReportItems(ChildPipe.Asking(u, ms)))
      modifies this, fromChild
      ensures messages == ms && username == u && fromChild.octets == []
    {
      hide ChildPipe.ReadReport, ChildPipe.ReportItems, ChildPipe.ReportFits;
      ghost var items := ChildPipe.ReportItems(ChildPipe.Asking(u, ms));
      ChildPipe.ReportBack(ChildPipe.Asking(u, ms), []);
      assert items + [] == items;
      assert ChildPipe.Encoded([]) == [];
      var report := ChildPipe.FromChildRead(fromChild);
      username, messages := report.username, report.messages;
    }

    /** `session_respond`, which also forgets the messages that were answered. */
    method Respond(responses: seq<Response>)
      requires |responses| == |messages|
      modifies `messages, toChild
      ensures messages == []
      ensures toChild.octets == old(toChild.octets) + ChildPipe.Encoded(ChildPipe.AnswerItems(ChildPipe.Responses(responses)))
    {
      ChildPipe.SessionRespond(toChild, responses);
      messages := [];
    }

    /** `pam_messages_cb`: the greeter is told, and a batch without prompts is answered at once with NULLs. */
    method PamMessages(number: u32) returns (message: seq<octet>)
      requires Sane(ReplyFields(PromptAuthentication(number, username, Wire(messages))))
      modifies `messages, toChild
      ensures var fields := ReplyFields(PromptAuthentication(number, old(username), Wire(old(messages))));
              8 + Size(fields) < MAX_MESSAGE_LENGTH ==> message == Encoded(Packet(1, fields))
      ensures CountAsked(old(messages)) > 0 ==> messages == old(messages) && toChild.octets == old(toChild.octets)
      ensures CountAsked(old(messages)) == 0 ==>
                messages == [] &&
                exists responses :: Slotted(old(messages), [], responses) &&
                  toChild.octets == old(toChild.octets) + ChildPipe.Encoded(ChildPipe.AnswerItems(ChildPipe.Responses(responses)))
    {
      message := BuildReply(PromptAuthentication(number, username, Wire(messages)));
      var prompts := CountAskedLoop();
      if prompts == 0 {
        ghost var ms := messages;
        var responses := seq(|messages|, _ => ChildPipe.Response(None, 0));
        forall i | 0 <= i < |ms| ensures !Asks(ms[i]) {
          CountStep(ms, i);
          CountGrows(ms, i + 1, |ms|);
          assert ms[..|ms|] == ms;
        }
        assert Slotted(ms, [], responses);
        Respond(responses);
      }
    }

    /** The loop that both handlers count prompts with. */
    method CountAskedLoop() returns (n: nat)
      ensures n == CountAsked(messages)
    {
      n := 0;
      for i := 0 to |messages|
        invariant n == CountAsked(messages[..i])
      {
        CountStep(messages, i);
        if messages[i].style == 1 || messages[i].style == 2 {
          n := n + 1;
        }
      }
      assert messages[..|messages|] == messages;
    }

    /**
      `handle_continue_authentication`: the right number of secrets is dealt out to the prompts
      in order; any other number fails the conversation.
     */
    method HandleContinue(secrets: seq<Text>)
      modifies `messages, toChild
      ensures |secrets| != CountAsked(old(messages)) ==>
                messages == old(messages) &&
                toChild.octets == old(toChild.octets) + ChildPipe.Encoded(ChildPipe.AnswerItems(ChildPipe.Failure(PAM_CONV_ERR)))
      ensures |secrets| == CountAsked(old(messages)) ==>
                messages == [] &&
                exists responses :: Slotted(old(messages), secrets, responses) &&
                  toChild.octets == old(toChild.octets) + ChildPipe.Encoded(ChildPipe.AnswerItems(ChildPipe.Responses(responses)))
    {
      var prompts := CountAskedLoop();
      if |secrets| != prompts {
        toChild.WriteAll([ChildPipe.Int(PAM_CONV_ERR)]);
        return;
      }
      var responses := Deal(messages, secrets);
      Respond(responses);
    }
  }

  // ------------------------------------------------------------------ the whole round

  lemma {:induction false} TextsPrefix(ts: seq<Text>, n: nat)
    requires n <= |ts|
    ensures Size(Texts(ts[..n])) <= Size(Texts(ts))
  {
    if n > 0 {
      assert ts[..n][1..] == ts[1..][..n - 1];
      TextsPrefix(ts[1..], n - 1);
    }
  }

  lemma PrefixSane(ts: seq<Text>, n: nat)
    requires n <= |ts| && Sane(RequestFields(ContinueAuthentication(ts)))
    ensures Sane(RequestFields(ContinueAuthentication(ts[..n])))
  {
    hide Texts;
    TextsPrefix(ts, n);
    SizeSplit([I(|ts| % U32)], Texts(ts));
    SizeSplit([I(n % U32)], Texts(ts[..n]));
  }

  /** The greeter answers its prompts one by one; only the last answer sends a message. */
  method RespondAll(library: LightDMGreeter, answers: seq<Text>) returns (message: Option<seq<octet>>)
    requires library.connected && library.received == [] && library.waiting == |answers| > 0
    requires Sane(RequestFields(ContinueAuthentication(answers)))
    modifies library
    ensures library.waiting == 0 && library.number == old(library.number)
    ensures var fields := RequestFields(ContinueAuthentication(answers));
            if 8 + Size(fields) < MAX_MESSAGE_LENGTH then message == Some(Encoded(Packet(3, fields))) && library.received == []
            else message == None && library.received == answers
  {
    hide RequestFields, Encoded, Packet;
    message := None;
    for i := 0 to |answers|
      invariant library.connected && library.waiting == |answers| - i && library.number == old(library.number)
      invariant i < |answers| ==> library.received == answers[..i] && message == None
      invariant i == |answers| ==>
                  var fields := RequestFields(ContinueAuthentication(answers));
                  if 8 + Size(fields) < MAX_MESSAGE_LENGTH then message == Some(Encoded(Packet(3, fields))) && library.received == []
                  else message == None && library.received == answers
    {
      PrefixSane(answers, i + 1);
      assert answers[..i] + [answers[i]] == answers[..i + 1];
      assert answers[..|answers|] == answers;
      var _, sent := library.Respond(answers[i]);
      message := sent;
    }
  }

  lemma {:induction false} PromptsShort(ms: seq<Message>)
    requires Size(Prompts(Wire(ms))) <= ChildPipe.MAX_STRING_LENGTH
    ensures forall m <- ms :: ChildPipe.Short?(m.text)
    decreases |ms|
  {
    if ms != [] {
      assert Wire(ms)[1..] == Wire(ms[1..]);
      assert Prompts(Wire(ms))[1..][1..] == Prompts(Wire(ms[1..]));
      PromptsShort(ms[1..]);
      assert ms == [ms[0]] + ms[1..];
    }
  }

  lemma {:induction false} TextsShort(ts: seq<Text>)
    requires Size(Texts(ts)) <= ChildPipe.MAX_STRING_LENGTH
    ensures forall t <- ts :: |t| <= ChildPipe.MAX_STRING_LENGTH
    decreases |ts|
  {
    if ts != [] {
      assert Texts(ts)[1..] == Texts(ts[1..]);
      TextsShort(ts[1..]);
      assert ts == [ts[0]] + ts[1..];
    }
  }

  /** Whatever fits a prompt message also fits the pipe from the child. */
  lemma PromptFitsPipe(number: u32, username: Option<Text>, ms: seq<Message>)
    requires 8 + Size(ReplyFields(PromptAuthentication(number, username, Wire(ms)))) < MAX_MESSAGE_LENGTH
    ensures ChildPipe.ReportFits(ChildPipe.Asking(username, ms))
  {
    var head := [I(number), S(username), I(|ms| % U32)];
    SizeSplit(head, Prompts(Wire(ms)));
    assert head[1..] == [S(username), I(|ms| % U32)];
    PromptsCount(Wire(ms));
    PromptsShort(ms);
  }

  lemma SlotsShort(ms: seq<Message>, answers: seq<Text>, responses: seq<Response>)
    requires Slotted(ms, answers, responses) && forall t <- answers :: |t| <= ChildPipe.MAX_STRING_LENGTH
    ensures ChildPipe.AnswerFits(ChildPipe.Responses(responses))
  {
    forall r <- responses ensures ChildPipe.Short?(r.text) {
      var i :| 0 <= i < |responses| && responses[i] == r;
      assert Asks(ms[i]) || !Asks(ms[i]);
    }
  }

  /** The child takes its answer from a pipe that holds nothing else. */
  method TakeAnswer(fromDaemon: ChildPipe.Pipe, ms: seq<Message>, answers: seq<Text>, ghost responses: seq<Response>)
    returns (a: ChildPipe.Answer)
    requires Slotted(ms, answers, responses) && forall t <- answers :: |t| <= ChildPipe.MAX_STRING_LENGTH
    requires fromDaemon.octets == ChildPipe.Encoded(ChildPipe.AnswerItems(ChildPipe.Responses(responses)))
    modifies fromDaemon
    ensures a == ChildPipe.Responses(responses) && fromDaemon.octets == []
  {
    hide ChildPipe.ReadAnswer, ChildPipe.AnswerItems;
    SlotsShort(ms, answers, responses);
    ghost var items := ChildPipe.AnswerItems(ChildPipe.Responses(responses));
    ChildPipe.AnswerBack(ChildPipe.Responses(responses), |ms|, []);
    assert items + [] == items;
    assert ChildPipe.Encoded([]) == [];
    a := ChildPipe.PamConvReadAnswer(fromDaemon, |ms|);
  }

  /**
    One whole round, when both messages fit and the greeter answers after it has handled the
    whole prompt message: PAM gets one response per message, the j-th answer in the slot of the
    j-th prompt and NULL in every other slot, and nothing is left in either pipe.
   */
  method Round(library: LightDMGreeter, session: AuthenticationSession, fromChild: ChildPipe.Pipe,
               username: Option<Text>, ms: seq<Message>, answers: seq<Text>)
    returns (a: ChildPipe.Answer)
    requires fromChild != session.toChild && fromChild.octets == [] && session.toChild.octets == []
    requires library.connected && !library.cancelling
    requires 8 + Size(ReplyFields(PromptAuthentication(library.number, username, Wire(ms)))) < MAX_MESSAGE_LENGTH
    requires |answers| == CountAsked(ms)
    requires 8 + Size(RequestFields(ContinueAuthentication(answers))) < MAX_MESSAGE_LENGTH
    modifies library, session, fromChild, session.toChild
    ensures a.Responses? && Slotted(ms, answers, a.responses)
    ensures fromChild.octets == [] && session.toChild.octets == [] && session.messages == []
    ensures library.waiting == 0 && library.received == []
  {
    hide ReplyFields, RequestFields, Encoded, Packet, DecodeRequest, DecodeReply, ChildPipe.Encoded, ChildPipe.ReportItems,
         ChildPipe.AnswerItems, Slotted, ReceivedPrompts, CountPrompts;
    var number := library.number;
    PromptFitsPipe(number, username, ms);
    AnswersShort(answers);
    fromChild.WriteAll(ChildPipe.ReportItems(ChildPipe.Asking(username, ms)));
    session.FromChild(fromChild, username, ms);
    var prompt := session.PamMessages(number);
    ReplyRoundTrip(PromptAuthentication(number, username, Wire(ms)));
    var heard := DecodeReply(prompt).value;
    library.HandlePromptAuthentication(heard.number, heard.username, heard.messages);
    CountReceived(Wire(ms));
    if library.waiting == 0 {
      ghost var responses :| Slotted(ms, [], responses) &&
        session.toChild.octets == ChildPipe.Encoded(ChildPipe.AnswerItems(ChildPipe.Responses(responses)));
      assert answers == [];
      a := TakeAnswer(session.toChild, ms, [], responses);
    } else {
      var message := RespondAll(library, answers);
      RequestRoundTrip(ContinueAuthentication(answers));
      var secrets := DecodeRequest(message.value).value.secrets;
      session.HandleContinue(secrets);
      ghost var responses :| Slotted(ms, answers, responses) &&
        session.toChild.octets == ChildPipe.Encoded(ChildPipe.AnswerItems(ChildPipe.Responses(responses)));
      a := TakeAnswer(session.toChild, ms, answers, responses);
    }
  }

  lemma AnswersShort(answers: seq<Text>)
    requires 8 + Size(RequestFields(ContinueAuthentication(answers))) < MAX_MESSAGE_LENGTH
    ensures forall t <- answers :: |t| <= ChildPipe.MAX_STRING_LENGTH
  {
    SizeSplit([I(|answers| % U32)], Texts(answers));
    TextsShort(answers);
  }
}
