# LightDM: a verified model of its protocols and state machines

LightDM is a daemon that runs seats. A seat owns sessions and display servers; greeters log
users in over a binary protocol, and every session has a child process that talks to PAM and
reports back through a pipe. This project models those parts in Dafny and proves what every
run of them keeps: which session may be unlocked and on whose word, that a greeter never counts
itself authenticated on a stale reply, that a command is sent to a child at most once, that
framing does not depend on how a stream is cut, that the two ends of each pipe stay in step,
that VTs and display numbers are never shared, that seats and the display manager come to a
stop, and that the files and lists LightDM keeps agree with simple specifications.

`dafny verify dfyconfig.toml` checks everything. Strings are octet sequences without NUL.

How a part is modelled: the pure specification is a set of functions over a state value, with
the theorems as lemmas over all inputs, all steps or all runs; where the program changes fields
in place there is a class whose methods make those changes and are proved to yield the
specification's next state.

| file | part of LightDM |
|---|---|
| `Octets.dfy`, `Lists.dfy` | octets, fixed-width integers, text order; lists without duplicates |
| `Framing.dfy`, `LoginMessages.dfy` | message framing and the messages between greeter and daemon |
| `GreeterDaemon.dfy`, `LoginProtocol.dfy` | the daemon's greeter object; both parties over two FIFO channels |
| `ChildPipe.dfy`, `ChildConversation.dfy`, `PromptRound.dfy` | the daemon/child pipe, the whole conversation on it, one PAM round end to end |
| `SessionLife.dfy` | the life of a session object |
| `Seats.dfy`, `SeatCallbacks.dfy` | the seat: specification, object |
| `SeatSafety.dfy`, `SeatServers.dfy`, `SeatShutdown.dfy` | what every run of a seat keeps, its servers, its shutdown |
| `SeatBehaviour.dfy`, `SeatRequests.dfy`, `SeatEvents.dfy` | what single operations, requests and callbacks come to |
| `Manager.dfy` | the display manager over its seats |
| `Vts.dfy` | virtual terminals, display numbers, boot splash |
| `XAuthority.dfy` | Xauthority files |
| `UserList.dfy`, `UserWrappers.dfy` | the user list and the library's mirror of it |
| `Configuration.dfy` | layered configuration and seat properties |

## Where the code does not do what one would expect

The model follows the code. These are proved, each with a run or an input and, where there is
one, the exact condition.

- A start-session message for an authenticated session that was cleanly stopped and has left the
  seat makes the seat wait for a session that is not on its list (`SeatSafety.StartTooLate`;
  exactly then: `SeatSafety.NextKeeps`).
- A session that dies in mid-authentication makes the seat start a greeter even while the seat is
  stopping (`SeatShutdown.SwitchSurvivesStop`; exactly when: `SeatShutdown.ExitKeepsStopping`).
- A listed display server that has not launched a process, such as an Xmir that waits for its
  compositor, keeps the seat from ever emitting STOPPED, in every run in which it is not launched
  after all (`SeatServers.NeverLaunchedStays`, `SeatShutdown.WaitingServerBlocksStop`); a stopping
  seat can be emptied by signals exactly when it lists no such server
  (`SeatShutdown.DrainsExactly`).
- A session object started again after its child has exited would stay authenticated under
  another user's name (`SessionLife.RestartChangesUser`; exactly then: `SessionLife.StaysSettled`).
  No run of the seat does that (`SeatSafety.RunHonest`).
- After more than 2^32 attempts the library believes a stale reply
  (`LoginProtocol.WrapAroundBelieved`); up to that many it never does (`LoginProtocol.RunTrusted`).
- An asynchronous start-session request whose send fails stays queued and takes the answer to a
  later one (`LoginProtocol.OrphanTakesAnswer`; exactly such a send breaks the queues:
  `LoginProtocol.StepAligned`).
- The library's loop over the hints of a RESET never ends exactly when some number of pairs leaves
  one to three octets (`LoginMessages.StallsExactly`). The daemon can send such a message: its
  writers drop a field that does not fit, and the header then promises more than was written, so
  the head of the next message is taken for hints (`LoginMessages.ResetCanStall`). The hints that
  a seat sets do it when the configured session has a long enough name
  (`LoginMessages.SeatCanStall`).
- An Xauthority file is not truncated: it reads back as the new list followed by what the old file
  still holds past it (`XAuthority.FileReadsBack`), so removing the last record leaves the file as
  it was (`XAuthority.RemoveLastLeavesFile`). REMOVE without a match adds the record
  (`XAuthority.EditChanges`).
- When a failed session's display server cannot be shared, the new one that is made "for greeter"
  is given to the failed session (`SeatBehaviour.FailedSessionGetsServer`).
- A compositor that fails to start keeps its VT until it is finalized, where an X server gives it
  back at once (`Vts.FailedCompositorKeepsVt`).
- A password reload can leave the library's wrapper list in another order than the common list:
  after a new display name (`UserWrappers.ReloadReorders`), but also after one user was deleted
  and another added (`UserWrappers.DeleteAndAddReorders`). The lists agree by position exactly
  when the kept users stand in their old order and none of the removed ones stood ahead of a kept
  user that now precedes a new one (`UserWrappers.ReloadMirrors`).

## Model

| member | source | states |
|---|---|---|
| `Framing.FeedAppend` | src/greeter.c:806-868 | the messages cut out of a stream and the octets kept back do not depend on where the input is split |
| `Framing.FeedStream` | src/greeter.c:806-868 | a stream of well-formed messages is cut into exactly those messages with nothing kept back |
| `Framing.Reader.GetMessageLength` | src/greeter.c:755-770 | the length the header declares, header included |
| `Framing.Reader.DaemonReadCb` | src/greeter.c:806-868 | one call advances the stream by what it took, keeps `n_read` within the buffer and hands out the message that became whole |
| `Framing.Reader.LibraryReceive` | liblightdm-gobject/greeter.c:830-901 | the same for the library, blocking (always a whole message, read in portions of any size) or not |
| `Framing.Reader.CompositorReadCb` | src/unity-system-compositor.c:235-320 | the same for the compositor's 2-octet lengths and its buffer that is reallocated on every call |
| `Framing.Reader.Dispatch` | src/greeter.c:806-868 | over any pieces the callbacks hand out the messages that the whole stream holds |
| `Framing.ReadStream` | liblightdm-gobject/greeter.c:904-923 | for every split of a stream of well-formed messages, daemon, library and compositor dispatch exactly the messages written |
| `LoginMessages.PacketComplete` | liblightdm-gobject/greeter.c:513-564 | header and fields make a message whose declared length is its real one |
| `LoginMessages.Buffer.WriteInt` | liblightdm-gobject/greeter.c:371-386 | four big-endian octets, or nothing and a failure when the offset would reach 1024 |
| `LoginMessages.Buffer.Write` | liblightdm-gobject/greeter.c:389-407 | a field is written whole exactly when it ends before octet 1024 |
| `LoginMessages.Buffer.WriteOrDrop` | src/greeter.c:260-287 | the octets after an unchecked write, whether the field fits, its length fits without its text, or nothing fits; `LoginMessages.UncheckedPacket` and `LoginMessages.ResetCanStall` say what becomes of a whole message |
| `LoginMessages.Build` | liblightdm-gobject/greeter.c:926-963 | a sender succeeds if and only if header plus payload is under 1024 octets, and then the message is complete, so the malformed branch of `send_message` is dead |
| `LoginMessages.BuildReply` | src/greeter.c:306-349 | the octets of every daemon message, complete if and only if it is under 1024 octets; past that its header promises more than was written |
| `LoginMessages.UncheckedPacket` | src/greeter.c:260-287 | unchecked writing always yields the header of the full message and under 1024 octets, and the whole message if and only if that fits |
| `LoginMessages.RequestRoundTrip` | src/greeter.c:868-947 | the daemon decodes every message a sender can build to the same fields, NULL arriving as "" |
| `LoginMessages.ReplyRoundTrip` | liblightdm-gobject/greeter.c:792-827 | the library decodes every message the daemon wrote whole to the same fields |
| `LoginMessages.ReceivedSame` | src/greeter.c:868-947 | what the daemon decoded is written again as the same octets, so nothing but the NULLs was lost |
| `LoginMessages.ReceivedReplySame` | liblightdm-gobject/greeter.c:792-827 | the same for what the library decoded |
| `LoginMessages.OldGreeters` | src/greeter.c:869-880 | a connect message that ends after the version or after the reset flag is read with what is missing as zero |
| `LoginMessages.DroppedRequests` | src/greeter.c:868-947 | a message that claims more answers than there can be pointers, and one of an unknown kind, are dropped |
| `LoginMessages.HintTable.InsertCounted` | liblightdm-gobject/greeter.c:567-601 | the counting loop inserts exactly the pairs the message holds |
| `LoginMessages.HintTable.HandleReset` | liblightdm-gobject/greeter.c:726-744 | for every payload: the loop ends if and only if no number of pairs leaves one to three octets; the old table is then replaced by the message's pairs in order, and otherwise the loop comes back to the same octets with an empty name inserted |
| `LoginMessages.HintsRebuilt` | src/greeter.c:413-434 | CONNECTED, CONNECTED_V2 and RESET rebuild the daemon's hint table exactly, whatever order the table is walked in |
| `LoginMessages.StallsExactly` | liblightdm-gobject/greeter.c:726-744 | the loop over the hints never ends if and only if some number of pairs leaves one to three octets |
| `LoginMessages.ResetCanStall` | src/greeter.c:413-434 | with any hints in front, a last hint whose value's length no longer fits but whose three octets do makes a RESET that swallows the head of the IDLE after it, and the library's loop never ends |
| `LoginMessages.SeatCanStall` | src/seat.c:523-555 | the hints that a seat sets for a failed session do so: default-session with a configured name of 861 octets and one more for every true, the four booleans, and select-user with a name of three octets walked last |
| `GreeterDaemon.Greeter.ClearSession` | src/greeter.c:457-469 | remote session, authentication session and guest success are all dropped |
| `GreeterDaemon.Greeter.HandleAuthenticate` | src/greeter.c:472-521 | the attempt's number and session replace the old ones; no session is answered at once as unknown |
| `GreeterDaemon.Greeter.HandleAuthenticateAsGuest` | src/greeter.c:524-539 | guest success exactly when guests are allowed, answered at once |
| `GreeterDaemon.Greeter.HandleAuthenticateRemote` | src/greeter.c:567-608 | as for a user, but without a PAM service only the old session is dropped |
| `GreeterDaemon.Greeter.HandleCancelAuthentication` | src/greeter.c:658-666 | without a session nothing changes, not even a guest success; no reply is sent |
| `GreeterDaemon.Greeter.TakeAuthenticationSession` | src/greeter.c:960-970 | the session is handed over and forgotten |
| `GreeterDaemon.Greeter.HandleStartSession` | src/greeter.c:669-703 | a start is let through only for a guest success or an authenticated session, which it uses up |
| `GreeterDaemon.GuestAnswered` | src/greeter.c:524-539 | a guest is told of success if and only if guests are allowed, and as unknown otherwise; what was under way is dropped |
| `GreeterDaemon.UserAnswered` | src/greeter.c:472-521 | a user is answered at once only if no session could be made, and then as unknown; the attempt's number and session replace the old ones and an empty name is no name |
| `GreeterDaemon.RemoteAnswered` | src/greeter.c:567-608 | a remote login without a PAM service is a system error, without a session an unknown user |
| `GreeterDaemon.StartAnswered` | src/greeter.c:669-703 | success if and only if the guest was let in or the session is authenticated and the seat starts it; the session is given up unless the guest logs in |
| `GreeterDaemon.ConnectAnswered` | src/greeter.c:306-349 | the version in common is agreed on, an old greeter gets the old reply, and nothing else changes |
| `GreeterDaemon.CancelAnswered` | src/greeter.c:658-666 | no session is held afterwards, and without one before nothing changes |
| `GreeterDaemon.ReportedIs` | src/greeter.c:437-455 | PAM's result is passed on as it is, but a success without an account as an unknown user |
| `GreeterDaemon.RunExclusive` | src/greeter.c:457-539 | in every run a guest success and an authentication session are never held together and guest success implies allow_guest |
| `GreeterDaemon.SpentOnce` | src/greeter.c:669-703 | in every run the non-guest starts answered with success are at most the authentications asked for plus one already held; without a new one, at most one |
| `LoginProtocol.LightDMGreeter.Authenticate` | liblightdm-gobject/greeter.c:1322-1351 | every attempt takes the next 32-bit number and forgets the last result |
| `LoginProtocol.LightDMGreeter.HandlePromptAuthentication` | liblightdm-gobject/greeter.c:626-684 | a prompt of another attempt, or while cancelling, is ignored; otherwise as many answers are awaited as there are prompts |
| `LoginProtocol.LightDMGreeter.HandleEndAuthentication` | liblightdm-gobject/greeter.c:687-717 | only the reply with the current number decides whether the library is authenticated |
| `LoginProtocol.LightDMGreeter.Respond` | liblightdm-gobject/greeter.c:1459-1498 | answers gather until none is awaited and then go out in one message; one that does not fit leaves them gathered |
| `LoginProtocol.LightDMGreeter.HandleSessionResult` | liblightdm-gobject/greeter.c:747-765 | while the request queues match what is under way, the answer completes the very request that it answers |
| `LoginProtocol.LightDMGreeter.StartSession` | liblightdm-gobject/greeter.c:1611-1635 | an asynchronous request is queued whether or not it was sent, so the queues still match what is under way if and only if it was |
| `LoginProtocol.LightDMGreeter.StartSessionSync` | liblightdm-gobject/greeter.c:1659-1683 | a synchronous request is queued only when it was sent, so the queues never fall out of step |
| `LoginProtocol.StepTrusted` | liblightdm-gobject/greeter.c:687-717 | no step of either party or channel, up to attempt 2^32, makes the library count itself authenticated without the daemon's success for its current attempt |
| `LoginProtocol.RunTrusted` | src/greeter.c:437-608 | in every run with at most 2^32 attempts, an authenticated library has been told so by the daemon for exactly its current attempt |
| `LoginProtocol.StepWarranted` | src/greeter.c:437-455 | a step writes a success for an attempt if and only if it reads a guest attempt that is allowed or PAM reports success for a user that exists to the attempt's session |
| `LoginProtocol.RunWarranted` | src/greeter.c:437-539 | in every run a success for an attempt is reported if and only if it was before or some step had such a reason |
| `LoginProtocol.AuthenticatedOnlyIfWarranted` | liblightdm-gobject/greeter.c:687-717 | in every run with at most 2^32 attempts an authenticated library has for its current attempt an allowed guest login or PAM's success for a user that exists |
| `LoginProtocol.UndisturbedLogin` | liblightdm-gobject/greeter.c:1322-1351 | from any quiet state a login that nothing disturbs ends authenticated if and only if PAM succeeds and the user exists, with one answer asked for each prompt |
| `LoginProtocol.UndisturbedGuest` | liblightdm-gobject/greeter.c:1354-1390 | a guest login that nothing disturbs ends authenticated if and only if guests are allowed |
| `LoginProtocol.UndisturbedRequests` | liblightdm-gobject/greeter.c:747-789 | a start-session or shared-directory request that is sent is completed by its own answer |
| `LoginProtocol.EndDecides` | liblightdm-gobject/greeter.c:687-717 | the reply with the current number ends the attempt, authenticated if and only if its result is 0 |
| `LoginProtocol.PromptAsks` | liblightdm-gobject/greeter.c:626-684 | a prompt with the current number awaits one answer for each prompt in it, unless the attempt is being cancelled |
| `LoginProtocol.CountPromptsIs` | liblightdm-gobject/greeter.c:660-682 | the prompts are exactly the messages of the two styles that ask for input |
| `LoginProtocol.CancelSent` | liblightdm-gobject/greeter.c:1510-1524 | a cancellation is sent and makes the library deaf to further prompts of the attempt |
| `LoginProtocol.Connects` | liblightdm-gobject/greeter.c:567-623 | the library is connected by the answer to its connect message and by nothing else |
| `LoginProtocol.Unconnected` | liblightdm-gobject/greeter.c:1322-1446 | a library that is not connected begins, continues and cancels nothing |
| `LoginProtocol.LateReplyIgnored` | liblightdm-gobject/greeter.c:626-717 | up to 2^32 attempts a reply to a superseded attempt, however late, changes nothing about the authentication |
| `LoginProtocol.WrapAroundBelieved` | liblightdm-gobject/greeter.c:1322-1446 | the bound is exact: a run with 2^32 + 1 attempts ends authenticated on a stale reply |
| `LoginProtocol.StepAligned` | liblightdm-gobject/greeter.c:1611-1624 | the request queues match what is under way after a step if and only if it is not an asynchronous request whose send failed |
| `LoginProtocol.OrphanTakesAnswer` | liblightdm-gobject/greeter.c:747-765 | after an asynchronous request whose send failed, the answer to the next request completes the failed one, and the next one stays queued |
| `LoginProtocol.RunMatched` | liblightdm-gobject/greeter.c:747-789 | while all sends succeed every start-session and shared-directory request is completed by the answer to that same request |
| `PromptRound.EachAnswerOnce` | src/greeter.c:637-648 | prompts and answers correspond one to one and in order |
| `PromptRound.Deal` | src/greeter.c:637-648 | the loop gives the slot of the j-th prompt the j-th secret and every other slot NULL |
| `PromptRound.AuthenticationSession.FromChild` | src/session.c:453-515 | a batch of PAM messages comes out of the pipe as it went in |
| `PromptRound.AuthenticationSession.PamMessages` | src/greeter.c:352-389 | the greeter is told of every batch, and one without prompts is answered at once with all NULLs |
| `PromptRound.AuthenticationSession.HandleContinue` | src/greeter.c:611-655 | the right number of secrets is dealt out to the prompts; any other number fails the conversation with PAM_CONV_ERR |
| `PromptRound.AuthenticationSession.Respond` | src/session.c:650-668 | the answer is written and the messages are forgotten |
| `PromptRound.RespondAll` | liblightdm-gobject/greeter.c:1459-1498 | answering prompt by prompt sends one message with all answers in order |
| `PromptRound.Round` | src/session-child.c:103-158 | from PAM's messages through child, daemon, greeter and back: one response per message, each answer in its slot, both pipes empty |
| `ChildPipe.LongStringLost` | src/session-child.c:76-94 | the limit is exact: a string over 65535 octets is read as NULL and its octets stay in the pipe |
| `ChildPipe.AuthorityBack` | src/session-child.c:171-193 | the X authority record is read as it was written, absent or not |
| `ChildPipe.ConfigBack` | src/session.c:608-621 | the configuration is read as it was written, NULL apart from "" |
| `ChildPipe.ReportBack` | src/session.c:453-515 | messages and results are read as they were written |
| `ChildPipe.AnswerBack` | src/session-child.c:140-158 | responses, or the error, are read as they were written |
| `ChildPipe.CommandBack` | src/session-child.c:455-484 | the command block is read as it was written |
| `ChildPipe.IdentifiersBack` | src/session.c:814-815 | the two session identifiers are read as they were written |
| `ChildPipe.CleanStopIsEmptyCommand` | src/session.c:872-885 | the clean-stop block is read as a command with no arguments |
| `ChildPipe.Pipe.Write` | src/session.c:350-363 | one write puts exactly the item's octets at the end of the pipe |
| `ChildPipe.Pipe.ReadText` | src/session.c:396-414 | NULL for a negative or too long length, otherwise that many octets |
| `ChildPipe.SessionRespond` | src/session.c:650-659 | success and then every response with its code |
| `ChildPipe.FromChildRead` | src/session.c:453-511 | what the callback takes from the pipe is the next report, its loop over the messages included |
| `ChildPipe.PamConvReadAnswer` | src/session-child.c:140-158 | what the conversation function takes from the pipe is the next answer |
| `ChildConversation.TakeConfig` | src/session-child.c:282-294 | the child's reads take the next configuration from the pipe |
| `ChildConversation.TakeCommand` | src/session-child.c:455-484 | the child's reads take the next command block from the pipe, loops over environment and arguments included |
| `ChildConversation.Converse` | src/session-child.c:434-492 | configuration, any number of PAM rounds, result, command block and identifiers: each side decodes exactly what the other wrote and no octet is left |
| `ChildConversation.CleanStop` | src/session.c:872-885 | after a clean stop the child has found nothing to run and has written nothing back |
| `SessionLife.Session.RealStart` | src/session.c:542-626 | a child is started only without one; a failed fork leaves pid -1 and a failed guest account leaves the watch |
| `SessionLife.Session.FromChildCb` | src/session.c:453-518 | a report sets the username, and a result ends the listening and completes the authentication |
| `SessionLife.Session.WatchCb` | src/session.c:417-450 | an exit in mid-authentication first completes it as a failure, then STOPPED is emitted |
| `SessionLife.Session.RealRun` | src/session.c:730-816 | a command is written only to an authenticated child that was sent none |
| `SessionLife.Session.Stop` | src/session.c:858-889 | an authenticated child without a command gets the empty block, any other is terminated |
| `SessionLife.RunWrites` | src/session.c:730-816 | a command is written if and only if the session, guest or not, is authenticated, has a child, arguments and a server and was sent no block; it carries those arguments |
| `SessionLife.StopMarks` | src/session.c:858-904 | the first stop leaves exactly one mark, the empty block, a termination or STOPPED, each under its exact condition; a second leaves none |
| `SessionLife.StartForks` | src/session.c:542-626 | a child and its configuration if and only if there was no child and pipe, guest account and fork succeed; what each failure leaves |
| `SessionLife.ReportTells` | src/session.c:453-518 | what a report changes and emits; one that is not listened to nothing |
| `SessionLife.ExitTells` | src/session.c:417-450 | STOPPED after an exit, and a conversation error before it if and only if the authentication was under way |
| `SessionLife.GoesWell` | src/session.c:542-816 | for every user and guest: started, authenticated, run and ended, with exactly that written and emitted |
| `SessionLife.OneCommandBlock` | src/session.c:730-889 | in every run the child gets at most one command block, from a run or a clean stop, after it reported success; STOPPED on the exit path follows completion |
| `SessionLife.StaysSettled` | src/session.c:542-560 | an authenticated session goes on not listening, with its result and username, if and only if it is not restarted |
| `SessionLife.StaysAuthenticated` | src/session.c:694-698 | once authenticated a session stays so with the same username in every run that does not restart it |
| `SessionLife.RestartChangesUser` | src/session.c:542-560 | a restarted session stays authenticated while its new child names another user |
| `SeatCallbacks.SeatObject.SetActiveSession` | src/seat.c:228-272 | the loop over the greeters and the assignments after it leave the state whose effects `SeatBehaviour.SetActiveEffects` states |
| `SeatCallbacks.SeatObject.Stop` | src/seat.c:1586-1596 | stopping is set once, and everything listed is told to stop |
| `SeatCallbacks.SeatObject.CheckIfStopped` | src/seat.c:413-424 | STOPPED exactly when stopping, not yet stopped and both lists are empty |
| `SeatCallbacks.SeatObject.Find` | src/seat.c:658-675 | the first listed session that passes the test |
| `SeatCallbacks.SeatObject.SwitchToGreeterFromFailedSession` | src/seat.c:535-585 | an existing resettable greeter is reused, else one is made and started; the failed session is stopped |
| `SeatCallbacks.SeatObject.StartSessionOf` | src/seat.c:588-612 | a greeter that does not start takes its display server down, any other session falls back to a greeter |
| `SeatCallbacks.SeatObject.Run` | src/seat.c:615-655 | the session is run and becomes active if it was waited for |
| `SeatCallbacks.SeatObject.SessionAuthenticationCompleteCb` | src/seat.c:689-716 | an existing session of the user, else the session itself, else a greeter |
| `SeatCallbacks.SeatObject.SessionStoppedCb` | src/seat.c:719-829 | the session leaves the list and every pointer, and what comes after it follows |
| `SeatCallbacks.SeatObject.DisplayServerStoppedCb` | src/seat.c:427-488 | the server leaves the list, its sessions are stopped, a greeter or the end of the seat follows |
| `SeatCallbacks.SeatObject.DisplayServerReadyCb` | src/seat.c:1276-1308 | the session that waits for the server goes on, or the server is stopped |
| `SeatCallbacks.SeatObject.GreeterStartSessionCb` | src/seat.c:1072-1181 | the guest session or the authenticated session is started, or its user's existing session is returned to |
| `SeatCallbacks.SeatObject.SwitchAuthenticationCompleteCb` | src/seat.c:1378-1441 | an existing session is unlocked and shown, or a display server is made; a failure leads to a greeter |
| `SeatCallbacks.SeatObject.SwitchToGreeterRequest` | src/seat.c:1344-1375 | a living greeter is shown or one is made; without switching only in an empty seat |
| `SeatCallbacks.SeatObject.SwitchToUserRequest` | src/seat.c:1444-1465 | a session is made to authenticate the user, unless that user is active already |
| `SeatCallbacks.SeatObject.SwitchToGuestRequest` | src/seat.c:1481-1509 | a living guest session is shown or one is made |
| `SeatCallbacks.SeatObject.LockRequest` | src/seat.c:1512-1583 | a resettable greeter is shown, else one replaces the living greeter or gets a server |
| `SeatCallbacks.SeatObject.StartRequest` | src/seat.c:1611-1701 | the automatic login, in front or in the background, or a greeter |
| `SeatCallbacks.SeatObject.GreeterRead` | src/greeter.c:868-947 | a greeter's message is handled and what it asks of the seat is done, the sessions it stops, makes and starts included |
| `SeatCallbacks.SeatObject.ActiveUsernameChangedCb` | src/seat.c:678-686 | the next session is the named user's, unless the greeter runs in a session |
| `SeatCallbacks.SeatObject.Handle` | src/seat.c:858-871 | whatever happens, the object takes the step of the seat, keeps that authenticated sessions were reported so and unlocks vouched for, and points at listed sessions afterwards unless, and only unless, a start came too late |
| `SeatCallbacks.SeatObject.Serve` | src/lightdm.c:917-917 | the main loop on a new seat, whatever happens: unlocks are vouched for, STOPPED comes at most once and with nothing listed, and while starts come in time the seat points at listed sessions |
| `SeatBehaviour.SetActiveEffects` | src/seat.c:228-272 | the session is active, other greeters that cannot be reset are stopping, the previous user session is locked or the previous greeter idles, no other session is touched |
| `SeatBehaviour.ReturnsToExisting` | src/seat.c:1137-1147 | an existing session of the user is unlocked and active, the new one is stopping, no server is made |
| `SeatBehaviour.FailedSessionGetsServer` | src/seat.c:564-579 | a new display server goes to the failed session and not to the greeter |
| `SeatBehaviour.LockReplacesGreeter` | src/seat.c:1534-1580 | a greeter that cannot be reset stops and the new one waits for its display server |
| `SeatRequests.FindersFind` | src/seat.c:497-521 | each search finds the first listed session of its kind that was not told to stop, and none if and only if there is none |
| `SeatRequests.OtherFindersFind` | src/seat.c:658-675 | the same for the searches with a session to ignore, by display server and for any greeter session |
| `SeatRequests.SetActiveShows` | src/seat.c:228-272 | showing a session: who idles, who is locked, which greeters are told to stop, and that nothing else happens |
| `SeatRequests.SeatStopTells` | src/seat.c:1783-1817 | the first stop tells exactly the listed sessions and servers, or with none listed is STOPPED; a second does nothing |
| `SeatRequests.ServerGiven` | src/seat.c:1311-1342 | a session gets the factory's server, which is listed once and started unless it is ready; success if and only if it is ready or starts |
| `SeatRequests.GreeterMade` | src/seat.c:1184-1228 | a greeter's session and its daemon side as they begin |
| `SeatRequests.LockShowsGreeter` | src/seat.c:1512-1583 | with a greeter that can be reset: it is reset and active, and a user session that was active is locked |
| `SeatRequests.LockStopsGreeter` | src/seat.c:1534-1580 | with a greeter that cannot: it is told to stop, and a new one on its server is awaited and waits to take its place, if one is configured |
| `SeatRequests.LockMakesGreeter` | src/seat.c:1534-1583 | without a greeter: one is made, awaited and given a display server, and nothing is shown or locked until then |
| `SeatRequests.GreeterShows` | src/seat.c:1344-1375 | a switch to the greeter shows the first living one |
| `SeatRequests.GreeterIsMade` | src/seat.c:1344-1375 | without one it is made, awaited and given a display server; what is left if there is none to give |
| `SeatRequests.UserRefused` | src/seat.c:1444-1465 | refused without switching, without such a user and without a session to run, and then nothing changes |
| `SeatRequests.UserAsked` | src/seat.c:1444-1465 | otherwise a session is made and started in which the user is to authenticate, and nothing is shown, unlocked or stopped |
| `SeatRequests.GuestShows` | src/seat.c:1481-1509 | a living guest session is shown |
| `SeatRequests.GuestIsMade` | src/seat.c:1481-1509 | without one it is made, awaited and given a display server |
| `SeatEvents.StartFollows` | src/seat.c:588-612 | a greeter that does not start takes its server down, any other session falls back to a greeter |
| `SeatEvents.FailureShowsGreeter` | src/seat.c:535-585 | after a failure a greeter that can be reset is reset and shown, and the failed session is told to stop |
| `SeatEvents.FailureSharesServer` | src/seat.c:546-585 | without one a greeter is made, put on the failed session's shareable server, awaited and started; only if it does not start is that server told to stop |
| `SeatEvents.FailureWithoutServer` | src/seat.c:564-579 | without a server to share and without another one the seat stops |
| `SeatEvents.RunFollows` | src/seat.c:615-655 | a session that is run takes its command and is shown if and only if it was awaited; a failing script is a failure |
| `SeatEvents.LoginReturns` | src/seat.c:689-716 | a user who has another session is returned to it and the new one is told to stop without being run |
| `SeatEvents.LoginFollows` | src/seat.c:689-716 | any other authenticated session is run, one that is not falls back to a greeter, a greeter that is not is told to stop |
| `SeatEvents.SwitchReturns` | src/seat.c:1378-1398 | a switch to a user with a session unlocks and shows it and stops the one that authenticated |
| `SeatEvents.SwitchFails` | src/seat.c:1399-1441 | a switch that fails stops its session, and resets and shows a greeter that can be reset |
| `SeatEvents.SwitchFailsAnew` | src/seat.c:1407-1441 | without one a new greeter is awaited and given a display server |
| `SeatEvents.LeavesStopping` | src/seat.c:719-752 | in a stopping seat a session that ends leaves, and STOPPED comes if and only if it was the last thing listed |
| `SeatEvents.LeavesRunning` | src/seat.c:719-829 | otherwise its removal is announced after what follows it, and its server is told to stop if and only if nothing needs it |
| `SeatEvents.WhatFollows` | src/seat.c:754-815 | what follows a greeter with and without a replacement, a greeter that started a session, the last greeter, and the session on the screen |
| `SeatEvents.ServerLeavesRunning` | src/seat.c:427-488 | the sessions on a server that ends, and no others, are told to stop; the seat stops, a greeter follows or nothing does, each under its exact condition |
| `SeatEvents.ServerReadies` | src/seat.c:1276-1308 | a server that gets ready lets the first session go on that waits for it, and is told to stop without one or if its script fails |
| `SeatEvents.ReportFollows` | src/seat.c:689-716 | a child's report sets its record, and a result is noted and acted on |
| `SeatEvents.ExitFollows` | src/session.c:417-450 | a child's exit is first the end of an authentication under way, then the end of a listed session |
| `SeatEvents.UserMessage` | src/greeter.c:472-521 | the session under way is told to stop, the user's living session is the next one, and a started session is made on the greeter's server and held under the message's number |
| `SeatEvents.OtherMessages` | src/greeter.c:524-666 | what guest, cancel and remote messages do to the session under way and the greeter |
| `SeatEvents.StartMessage` | src/greeter.c:669-703 | a start is acted on if and only if the guest was let in or the session is authenticated |
| `SeatEvents.StartReturns` | src/seat.c:1137-1147 | a user whose first living session is another one is returned to it, unlocked, and the new one is told to stop |
| `SeatEvents.StartTakesServer` | src/seat.c:1149-1181 | otherwise the session takes the server of a greeter that cannot be reset, which is told to stop, if and only if it can be shared and is of the right kind, and is given its own if not |
| `SeatEvents.SeatStartsWith` | src/seat.c:1611-1701 | a seat starts with the automatic login in front, or a greeter and the login behind it; when it has not started and when it stops |
| `SeatEvents.SignalsReach` | src/seat.c:1311-1329 | only signals of what is listed reach the seat: STOPPED of a session that was told to stop and has no child, READY of a listed server, STOPPED of a launched one |
| `SeatSafety.UnlockedOnlyIfVouched` | src/seat.c:1137-1147 | in every run a session is unlocked only after another session of the seat with the same username was reported PAM_SUCCESS by its own child |
| `SeatSafety.NextKeeps` | src/seat.c:719-829 | every step keeps active, next and awaited session on a duplicate-free list, except, if and only if, a start-session message for an authenticated session that has left the seat |
| `SeatSafety.RunHonest` | src/seat.c:588-612 | in every run no authenticated session listens to a child again, and each was reported successful under the username it has |
| `SeatSafety.StartMessageKeeps` | src/seat.c:1133-1135 | the exact condition on the start-session message |
| `SeatSafety.RunListed` | src/seat.c:858-871 | while authenticated children wait for their block and no start comes after its session was given one, the pointers are on the list in every run |
| `SeatSafety.StartTooLate` | src/seat.c:1133-1135 | a run from a seat that is started: the greeter logs a user in, the seat is stopped, the user's child ends, and the start-session message of the greeter, which is still alive, makes the seat wait for a session that is not listed |
| `SeatSafety.StoppedAtMostOnce` | src/seat.c:413-424 | in every run STOPPED is emitted at most once and only with both lists empty |
| `SeatServers.NextStays` | src/seat.c:427-488 | whatever happens other than a listed server's own STOPPED, the server stays listed and the seat does not emit STOPPED |
| `SeatServers.NeverLaunchedStays` | src/process.c:309-325 | in every run, requests and messages included, a listed display server that is never launched stays listed and the seat does not emit STOPPED |
| `SeatShutdown.StopSeatStopsAll` | src/seat.c:1783-1817 | after a stop every listed session and server is stopping, and the seat has stopped if and only if nothing is listed |
| `SeatShutdown.StopBeginsDraining` | src/seat.c:1586-1596 | a stop leaves a seat that only drains if and only if the seat itself authenticates nobody |
| `SeatShutdown.SomethingStops` | src/process.c:309-325 | some stop signal can still come if and only if a session is listed or a display server that was launched |
| `SeatShutdown.StopDrains` | src/seat.c:719-752 | in a draining seat each stop signal takes exactly one session or server off the lists |
| `SeatShutdown.Drains` | src/seat.c:413-444 | in every run of signals, the end of an authentication that the seat acts on excepted, as many leave as stop signals come, and a seat that had not stopped with something listed has stopped if and only if that was all of them |
| `SeatShutdown.StopToStopped` | src/seat.c:1783-1817 | from the stop to STOPPED: in every such run the seat emits it if and only if as many stop signals have come as sessions and servers were listed when it was stopped |
| `SeatShutdown.DrainsExactly` | src/process.c:309-325 | a draining seat can be emptied by signals without a further launch if and only if every listed display server was launched; otherwise no such run ends in STOPPED |
| `SeatShutdown.WaitingServerBlocksStop` | src/x-server-xmir.c:109-127 | a seat whose greeter's server waits for its compositor does not emit STOPPED in any run, requests included, that never launches that server |
| `SeatShutdown.WaitingServerStopped` | src/process.c:309-325 | stopped, it does not emit STOPPED in any run of signals without a launch |
| `SeatShutdown.ExitKeepsStopping` | src/seat.c:706-710 | an exit leaves everything stopping if and only if it does not end an authentication for which the seat starts a greeter |
| `SeatShutdown.SwitchSurvivesStop` | src/seat.c:1407-1441 | a started seat that is stopped while it authenticates a user for a switch starts a greeter when that child dies, whatever the rest of the system answers |
| `Manager.DisplayManager.CheckIfStopped` | src/display-manager.c:74-84 | STOPPED exactly when stopping, not yet stopped and without seats |
| `Manager.DisplayManager.SeatStoppedCb` | src/display-manager.c:87-98 | the seat leaves; unless stopping its removal is announced before the check |
| `Manager.DisplayManager.AddSeat` | src/display-manager.c:101-116 | no seat is taken while stopping, nor one that does not start |
| `Manager.DisplayManager.StopManager` | src/display-manager.c:133-153 | every seat of the copied list is told, and those that stop at once are gone at once |
| `Manager.DisplayManager.SeatRemovedCb` | src/lightdm.c:220-263 | the next creatable type is tried, else a required seat stops the manager from inside the handler |
| `Manager.NextTypes` | src/lightdm.c:225-243 | the types to try next are a shorter tail that starts with the first creatable one |
| `Manager.StopTells` | src/display-manager.c:133-153 | a stop tells every seat; those that stop at once are gone, the others stay in order, and STOPPED comes at once if and only if none stays |
| `Manager.StoppedSeatReplaced` | src/lightdm.c:220-263 | a seat that stops by itself is replaced by one with its first other creatable type and those behind it; with none, a required seat makes the manager fail and stop and any other is just gone |
| `Manager.StoppedSeatGone` | src/display-manager.c:87-98 | in a stopping manager the seat is gone, and STOPPED comes if and only if it was the last |
| `Manager.AddTakes` | src/display-manager.c:101-116 | a seat is taken and announced if and only if the manager is not stopping and the seat starts |
| `Manager.ManagerStops` | src/display-manager.c:74-153 | in every run STOPPED comes at most once and without seats, and a stopping manager has told every seat and has stopped exactly when it has none |
| `Manager.ManagerDrains` | src/display-manager.c:87-153 | a stopping manager loses a seat with every stop signal and gains none, whatever else is asked |
| `Vts.LeastFreeFacts` | src/vt.c:138-148 | the number found is free and every lower one from the minimum is taken |
| `Vts.LeastFreeOnly` | src/vt.c:138-148 | no other number has both properties |
| `Vts.Tables.GetUnused` | src/vt.c:138-148 | the loop ends with the least free number, at most minimum plus list length |
| `Vts.Tables.GetUnusedDisplayNumber` | src/x-server-local.c:156-165 | the least number that neither a managed server nor a lock file holds, then recorded |
| `Vts.Tables.SetServerVt` | src/x-server-local.c:196-209 | an old reference is dropped and a positive VT is referenced |
| `Vts.Tables.StoppedCb` | src/x-server-local.c:361-384 | the VT and, for an X server, the display number are released |
| `Vts.Tables.FinalizeServer` | src/x-server-local.c:545-566 | a reference that is still held is released |
| `Vts.Tables.StartProcess` | src/x-server-local.c:416-533 | a start that fails gives an X server's VT and number back at once and leaves a compositor's with it |
| `Vts.Tables.GetServerVt` | src/seat-local.c:145-171 | the splash's VT when it can be had, else the least free one, and none off seat0 |
| `Vts.ChoicesGood` | src/seat-unity.c:134-158 | whatever VT a local or Unity seat chooses is free and the splash is off afterwards |
| `Vts.SplashGivesWay` | src/seat-local.c:145-171 | the splash gives its VT if and only if it is shown on one not below the minimum, and is off either way |
| `Vts.GetVtIs` | src/seat-local.c:145-171 | on seat0 the splash's VT if that can be had, else by root the least free one from the minimum on, never one below it; off seat0 none |
| `Vts.UnityVtIs` | src/seat-unity.c:134-158 | the same with multi-seat support, and VT 0 without |
| `Vts.MadeLocal` | src/seat-local.c:201-302 | a server of the kind on the chosen VT, with a reference to it and, for X, the least number that no server and no lock file has |
| `Vts.MadeUnity` | src/seat-unity.c:134-168 | a compositor on the chosen VT, or nothing without one |
| `Vts.VtChanges` | src/x-server-local.c:196-209 | the VT that was held goes back and the new one is taken, and no other |
| `Vts.GivesBack` | src/x-server-local.c:361-384 | what a stopped, a failed and a finalized server give back, and that nothing else changes |
| `Vts.NoSharing` | src/unity-system-compositor.c:114-127 | in every run the used list is the multiset of referenced VTs, no two servers share a VT or an unreleased display number, each number is released at most once, a server whose `stopped_cb` has run or that was finalized holds no VT, and the splash's VT is taken only while no VT is used |
| `Vts.FailedCompositorKeepsVt` | src/unity-system-compositor.c:364-441 | a compositor that fails to start keeps its VT, which nobody else is given, until it is finalized |
| `XAuthority.ReadBackExact` | src/x-authority.c:179-188 | a 16-bit number is read exactly if and only if its low octet is under 0x80 or its high octet is 0xFF |
| `XAuthority.ParseOne` | src/x-authority.c:263-272 | a record that parses consumes at least ten octets |
| `XAuthority.PrintedParses` | src/x-authority.c:179-331 | records whose lengths are read exactly come back in order whatever follows, each with its family as read and its strings up to a NUL |
| `XAuthority.RoundTripExactly` | src/x-authority.c:179-331 | among such lists exactly those come back unchanged whose families are read exactly and whose strings hold no NUL |
| `XAuthority.RoundTrip` | src/x-authority.c:245-331 | printing then parsing gives any list of representable records back, followed by whatever parses after it |
| `XAuthority.EditChanges` | src/x-authority.c:284-303 | REPLACE changes only the first match's data, REMOVE takes only it away, and without a match both append |
| `XAuthority.EditByFields` | src/x-authority.c:284-303 | by family, address and number: a list for other displays has the record appended; else the first record for the display, and no other, gets the new data or is taken away |
| `XAuthority.WhatIsEdited` | src/x-authority.c:240-256 | SET writes the one record whatever the file held, the other modes edit what it held |
| `XAuthority.MisreadIs` | src/x-authority.c:179-188 | a number that is not read exactly comes back with its high octet all ones |
| `XAuthority.ReplaceIdempotent` | src/x-authority.c:289-302 | replacing twice is replacing once |
| `XAuthority.RemoveRestores` | src/x-authority.c:289-302 | REMOVE after REPLACE restores a list that did not match |
| `XAuthority.ReadAndEdit` | src/x-authority.c:256-302 | the loop that reads and edits at once yields the edited list |
| `XAuthority.Write` | src/x-authority.c:240-331 | the file holds the printed list, then whatever the old file had past it |
| `XAuthority.FileReadsBack` | src/x-authority.c:304-331 | the file reads back as the new list followed by what parses of the old file past it, so as the new list if and only if that is no shorter or nothing parses there |
| `XAuthority.ReplaceReadsBack` | src/x-authority.c:240-331 | a REPLACE that is no shorter is read back as the edited list |
| `XAuthority.RemoveLastLeavesFile` | src/x-authority.c:304-306 | removing the last record leaves the file as it was |
| `UserList.LoadAllFaithful` | common/user-list.c:345-406 | for every old list and distinct names: one object per shown entry, the old one for a known name, sorted by display name, with exactly the new objects, in their order, and the changed ones reported |
| `UserList.ReloadByFields` | common/user-list.c:228-314 | every entry is shown by a listed object with its name, home, shell, image and the gecos text before the first comma, in display order; a kept object is reported changed if and only if one of the four differed before |
| `UserList.ShownIs` | common/user-list.c:352-372 | exactly the entries with a user id not below the minimum, no hidden shell and no hidden name are shown, in their order |
| `UserList.NoticesAre` | common/user-list.c:408-443 | additions first, then changes, then removals, each in the order of its list |
| `Octets.LeqIs` | common/user-list.c:221-226 | one text comes no later than another if and only if it begins it or is smaller in the first octet in which they differ |
| `UserList.InsertSortedFacts` | common/user-list.c:222-226 | a sorted insert keeps order and distinctness and adds just the element |
| `UserList.CommonUserList.LoadPasswdFile` | common/user-list.c:319-443 | the reload establishes all that and notifies the added, the changed and exactly the removed |
| `UserWrappers.NextAgree` | common/user-list.c:610-690 | every AccountsService event keeps wrapper list and common list equal position by position, and a change names the right wrapper |
| `UserWrappers.AddedIs` | common/user-list.c:633-656 | an added user is listed, wrapped and announced unless its path is known or it is a system account, and nothing is said before the list was asked for |
| `UserWrappers.AddedInOrder` | common/user-list.c:633-656 | a list in display order stays so when a user is added |
| `UserWrappers.DeletedIs` | common/user-list.c:659-690 | the user of a deleted path leaves both lists and is announced; any other path changes nothing |
| `UserWrappers.ChangedIs` | common/user-list.c:459-478 | a change replaces the properties, moves nobody and is announced with the user's own wrapper |
| `UserWrappers.WrappersMirror` | liblightdm-gobject/user.c:153-213 | after every run the wrapper list is the common list |
| `UserWrappers.LightDMUserList.constructor` | liblightdm-gobject/user.c:191-213 | prepending and reversing wraps the list in order |
| `UserWrappers.LightDMUserList.AddedCb` | liblightdm-gobject/user.c:153-160 | the wrapper goes to the index of its common user |
| `UserWrappers.LightDMUserList.ChangedCb` | liblightdm-gobject/user.c:163-169 | with equal lists the signal names the user's wrapper |
| `UserWrappers.LightDMUserList.RemovedCb` | liblightdm-gobject/user.c:172-188 | the wrapper of the user goes |
| `UserWrappers.ReloadSameSet` | common/user-list.c:405-443 | after a whole password reload the two lists hold the same users |
| `UserWrappers.ReloadMirrors` | liblightdm-gobject/user.c:153-188 | after a reload of equal lists they are equal position by position if and only if the kept users keep their order and no removed user stood ahead of a kept one that now precedes a new one |
| `UserWrappers.ReloadReorders` | liblightdm-gobject/user.c:163-169 | a reload that gives a user another display name leaves the lists in different orders |
| `UserWrappers.DeleteAndAddReorders` | common/user-list.c:405-443 | a reload in which one user was deleted and one added, and nobody renamed, leaves the lists in different orders |
| `Configuration.Config.LoadFromFile` | common/configuration.c:48-110 | the nested loops make the file's assignments in order, [SeatDefaults] as [Seat:*] |
| `Configuration.Config.LoadDirectory` | common/configuration.c:132-168 | the .conf files of a directory are loaded in order of their names |
| `Configuration.Config.LoadDirectories` | common/configuration.c:171-181 | directories are loaded from the last to the first |
| `Configuration.Config.LoadStandard` | common/configuration.c:184-225 | the four sources are loaded in the source's order, so from an empty store every key ends with the value and source of the assignment that decides it |
| `Configuration.DirectoryOrderIrrelevant` | common/configuration.c:147-150 | the order in which a directory is listed makes no difference |
| `Configuration.LoadsExactly` | common/configuration.c:132-168 | of a directory exactly the files named *.conf are loaded, in order of their names |
| `Configuration.FileAssigns` | common/configuration.c:48-110 | a file assigns exactly what its groups say, each key under its group and with the file as its source |
| `Configuration.GroupsSeen` | common/configuration.c:94-105 | the key file knows exactly the groups that were assigned to |
| `Configuration.JoinedInjective` | common/configuration.c:258-262 | two keys never share a source entry |
| `Configuration.LastWins` | common/configuration.c:101-105 | for every sequence of assignments each key's value and recorded source are those of its last assignment, and a key never assigned has neither |
| `Configuration.EarlierDirectoryWins` | common/configuration.c:171-181 | the first directory in order of preference that sets a key wins, as section 3 (Environment variables) of the XDG Base Directory Specification asks |
| `Configuration.StandardPrecedence` | common/configuration.c:184-225 | the last assignment to a key in load order is the main file's, else its directory's, else the configuration directories', else the data directories' |
| `Configuration.StandardPlain` | common/configuration.c:48-110 | what parsed files assign never has a group name that could be confused in a source entry |
| `Configuration.StandardDecides` | common/configuration.c:184-225 | for every set of parsed files: the stored value and source of a key are those of the main file, else of its directory, else of the configuration directories, else of the data directories |
| `Configuration.DefaultsAreAny` | common/configuration.c:61-67 | for every set of files no assignment is to [SeatDefaults], so none of its keys ever has a value |
| `Configuration.DefaultsDecide` | common/configuration.c:61-67 | what a file ends with under [SeatDefaults] is the value of [Seat:*], over all that was loaded or said before |
| `Configuration.GetSections` | src/lightdm.c:119-136 | [Seat:*] first and then every matching seat section in order |
| `Configuration.SectionsExactly` | src/lightdm.c:119-136 | the sections are exactly [Seat:*], first, and the other seat groups whose glob matches, in their order |
| `Configuration.SetSeatProperties` | src/lightdm.c:139-157 | each section overwrites those before it |
| `Configuration.LastPairWins` | src/lightdm.c:139-157 | a key has the value of its last pair in the last section that has it, and none if and only if no section has it |
| `Configuration.SearchIsOverwrite` | src/lightdm.c:392-401 | the backward search finds exactly what forward overwriting leaves |
| `Configuration.FindType` | src/lightdm.c:392-401 | the search loop finds what the seat's table will hold |
| `Configuration.SeatTrue` | src/seat.c:158-171 | the seat's reader of booleans computes the configuration's answer |
| `Configuration.TrueIs` | src/seat.c:158-171 | true are exactly the strings "true" followed by nothing but white space |
| `Configuration.BooleansAgree` | common/configuration.c:307-319 | the two readers agree on every string |

## Left out

- D-Bus, logind, ConsoleKit, AccountsService, PAM, fork and exec, signals, utmp, audit, VT ioctls and xcb: their results and events are inputs of the steps.
- XDMCP and VNC servers, the Qt bindings, logging, locale and layout lists, session and .dmrc file loading, command lines and environment variables: no hard property.
- Memory ownership and reference counts: sessions, servers, greeters and users are numbered and their records kept.
- Signal delivery from inside another call: a seat's STOPPED and READY signals are steps of their own, also where the source emits them at once (a session without a child, a display server that is ready already); the display manager's nested calls are modelled as they are.
- A greeter that cannot be created where the seat does not check for it (src/seat.c:546-550 and src/seat.c:1416-1420): the model always creates one there; the source would dereference NULL.
- Subclasses of the seat and of the display server: which server a seat makes, whether its start succeeds and launches a process, which session is seen as active and which server they count as used are inputs; their own stop functions are not modelled.
- Greeter hints other than as an arbitrary table, and the idle callback that tells a greeter to idle, which is only logged.
- Payload lengths beyond a signed 32-bit integer, display numbers beyond 32 bits and partial reads on the daemon/child pipe; the pipe's native layout is taken as little-endian with 4-octet int and 8-octet gsize.
- LoginProtocol.RunTrusted: its channels carry decoded messages, as if each fitted its buffer; that fitting messages decode to the same fields and that framing loses none is proved in LoginMessages and Framing.
- SeatSafety.RunListed: assumes that an authenticated child neither exits before its command block nor is heard after it is gone, and that no start-session message comes after its session was given a block; without the second the property is false.
- SeatShutdown.Drains: covers every signal of children and display servers but one, the result that a listed session reports while the seat itself acts on it, which may start a greeter; requests and greeter messages are not signals. What holds with those too is in SeatServers.NeverLaunchedStays.
- LoginMessages.SeatCanStall: the order in which GLib walks a hash table is not modelled; the hint with the user's name is taken to come last.
- XAuthority.RoundTripExactly: asks for lengths that are read exactly; after a misread length the octets that follow can by chance parse to the same records, so no condition on single records is exact there. For one 16-bit number the condition is exact without that.
- UserList.LoadAllFaithful: asks for distinct names among the shown entries; with a repeated name the object would be listed twice and might move after it was placed. The forwarding of a user's own change signal by the list is not modelled for password users.
- Vts.NoSharing: a Unity seat without multi-seat support runs on VT 0, which is never referenced; the display number of an X server that is finalized before its process stops is never released; a compositor that failed to start holds its VT until it is finalized.
- Configuration: GKeyFile parsing, escapes and glob matching are GLib's; unknown and deprecated keys only give messages.
