# IPK25-CHAT client core in Dafny

This project models the protocol core of the IPK25-CHAT client. The client
talks to a chat server over one of two transports.

- **UDP**: binary datagrams. Each has a one-byte type and a 16-bit big-endian
  message ID. Variable fields end with a NUL byte. Every message except
  CONFIRM must be confirmed; the sender retransmits on a timer, and the
  receiver keeps a bitset of the IDs it has already confirmed so that a
  message delivered twice is shown once.
- **TCP**: text lines ending in `\r\n`. They are read from a byte stream into
  a buffer and cut off one complete message at a time.

Both clients run the same finite-state machine:

- START goes to AUTH when the user sends /auth.
- AUTH goes to OPEN on a positive REPLY.
- OPEN goes to JOIN on /join.
- JOIN goes back to OPEN on any REPLY.

Each client has one handler per event: standard input, the socket, the timer
and SIGINT.

Modules:

- `Protocol`: the message-type codes, the FSM states, the user commands and
  the limits shared by both clients.
- `ClientException`: the exception the clients throw, and the completion of a
  handler (a return code or a thrown exception).
- `Seqs`: small sequence lemmas used by the proofs.
- `UdpCodec`: the UDP wire format.
  - the builders, as encoding functions;
  - the ID and reference-ID readers, and the field splitter;
  - the length checks;
  - the round-trip lemmas.
- `UdpClient`: the UDP client as a class.
  - Its fields are those of `Udp_client`: the state, the outstanding message
    and its ID, the retransmission budget, the waiting flags, and the
    confirmed-ID bitset (an `array<bool>` of 65536 entries).
  - Each event handler is a method.
- `TcpCodec`: the TCP line builders, the case-insensitive type classifier and
  the REPLY reader.
- `TcpFraming`: cutting the stream into `\r\n`-terminated messages.
  `Frames` is the reference definition. Lemmas show that delivering the
  stream in any chunking yields the same messages.
- `TcpClient`: the TCP client as a class. It holds the receive buffer, and
  each event handler is a method.

Effects are recorded in fields:

- what the client sends is appended to `sent`;
- what it prints for the user is appended to `shown`;
- the timer is a `Timer` value;
- standard input being watched is `stdinEnabled`.

The UDP handler contracts name three shared states:

- the ERR waiting state (`ErrPending`): an ERR under the next ID is the
  outstanding message, only its confirmation is awaited, the confirmation
  timer runs and standard input is paused, as `sendErrMsg` leaves them;
- the BYE waiting state (`ByePending`): the same for a BYE, with the full
  retransmission budget, as `sendByeMsgToServer` leaves them;
- `OutstandingKept`: the outstanding message, its ID, the waits, the timer and
  standard input are as they were.

Inputs are parameters:

- a standard-input event (`StdinEvent`): hang-up, error, a line that sends
  nothing, or a command to send;
- a received datagram or TCP chunk, or a receive failure.

The regular expressions that validate names and contents are not modelled as
regexes. Each is a predicate carried by a grammar value that is given to the
constructor.

Where the code and the protocol description disagree, the model follows the
code. The exception is the two defects listed under "## Findings": the UDP
client class uses their corrected versions, and "## Left out" names the
methods where it therefore differs from the code. Cases where the model
follows the code:

- A UDP REPLY that arrives again after it was accepted is not confirmed
  again. After a negative REPLY to /auth the client is still in AUTH with the
  reply flag cleared, so the code ignores it. After a positive REPLY to
  /auth, or any REPLY to /join, the client is in OPEN, which takes no REPLY,
  so the code answers it with an ERR (`ProcessInOpenState`).
- The TCP client enters JOIN on /join from any state. `TcpStep` allows it.
- The TCP classifier reads the type from the head of the whole receive
  buffer, not from the single message (src/tcp-client.cpp:105).
  `TcpFraming.TypeOfBufferHead` proves that the two agree, because the buffer
  always starts with that message.

One C++ function is split into several methods so that each proof stays
small:

- TCP `processMessageFromServer` becomes `ProcessMessageFromServer` (a
  summary) and `DispatchByType` (the per-type outcomes).
- TCP `processSocketEvent` becomes `ProcessSocketEvent`, `DispatchBuffered`
  (the loop) and `ProcessFirstMessage` (one pass of the loop).
- UDP `processMessageFromServer` becomes `ProcessMessageFromServer` and one
  method per state (`ProcessInAuthState`, `ProcessInOpenState`,
  `ProcessInJoinState`).
- The UDP handling of a CONFIRM that matches is `ConfirmOutstanding`.
- The UDP handling of a REPLY that is accepted is `AcceptReply`.

## Model

| member | source | states |
|---|---|---|
| Protocol.Code | include/protocol-msg-type.h:13-24 | the wire codes of the message types; a type other than UNKNOWN has a code below 256, and UNKNOWN does not |
| Protocol.TypeOfByte | include/protocol-msg-type.h:13-24 | a byte decodes to a known type exactly when it is that type's code; no type has the code of a byte that decodes to nothing |
| Protocol.CodeByte | include/protocol-msg-type.h:15-22 | the byte written for a type is its code |
| Protocol.CodesDistinct | include/protocol-msg-type.h:13-24 | no two types share a code |
| Protocol.TypeOfCodeByte | include/protocol-msg-type.h:13-24 | decoding the byte written for a type gives the type back |
| Protocol.StartNeverReentered | include/fsm.h:13-19 | a run that starts outside START, and whose steps enter START only from START, never reaches START |
| Protocol.CommandWord | include/client.h:66 | each user command starts with '/' and has at least five characters |
| Protocol.Command.Word | include/client.h:66 | /auth and /join are the command words of AUTH and JOIN; a plain message has no command word |
| ClientException.Exception.What | src/exception.cpp:16-19 | the text reported is exactly the explanation given |
| ClientException.Exception.IsSigintOrEofReceived | src/exception.cpp:21-24 | an exception means a clean exit (SIGINT or end of input) exactly when its text is empty |
| ClientException.WhatRoundTrip | src/exception.cpp:9-19 | constructing an exception from a text and asking for its text gives that text back |
| ClientException.CleanExitIffEmpty | src/exception.cpp:21-24 | an exception built from a text is a clean exit iff the text is empty |
| UdpCodec.MsgIdBytes | src/udp-client.cpp:516-520 | the ID is written as two bytes, high byte first |
| UdpCodec.WithMsgId | src/udp-client.cpp:516-520 | appending an ID keeps the message and adds its two big-endian bytes |
| UdpCodec.NextMsgId | src/udp-client.cpp:195 | the message counter is incremented, and wraps from 65535 to 0 as a 16-bit value |
| UdpCodec.PrevMsgId | src/udp-client.cpp:575 | the ID before a counter value, modulo 2^16: incrementing it gives the value back |
| UdpCodec.GetMsgId | src/udp-client.cpp:492-497 | the ID read is the one whose big-endian bytes follow the type byte |
| UdpCodec.GetRefMsgId | src/udp-client.cpp:500-505 | the reference ID read is the one whose big-endian bytes are bytes 4 and 5 of a REPLY |
| UdpCodec.IndexOfNul | src/udp-client.cpp:306-308 | the first NUL in a field area, if any; nothing before it is NUL |
| UdpCodec.SplitJoinFields | src/udp-client.cpp:522-558 | splitting NUL-terminated fields that hold no NUL gives back the fields |
| UdpCodec.IndexOfFirstTerminator | src/udp-client.cpp:306-308 | a field with no NUL is ended by the NUL that follows it |
| UdpCodec.JoinSplitFields | src/udp-client.cpp:306-308 | whatever splits into fields is those fields joined, and none of them holds a NUL |
| UdpCodec.EncodeAuth | src/udp-client.cpp:530-536 | the AUTH builder; its layout and round trip are stated by UdpCodec.AuthLayout and UdpCodec.AuthRoundTrip |
| UdpCodec.EncodeJoin | src/udp-client.cpp:538-543 | the JOIN builder; its layout and round trip are stated by UdpCodec.JoinLayout and UdpCodec.JoinRoundTrip |
| UdpCodec.EncodeMsg | src/udp-client.cpp:545-550 | the MSG builder; its layout, round trip and accepted length are stated by UdpCodec.MsgLayout, UdpCodec.MsgRoundTrip and UdpCodec.EncodedLengthsAccepted |
| UdpCodec.EncodeErr | src/udp-client.cpp:522-528 | the ERR builder; its layout, round trip and accepted length are stated by UdpCodec.ErrLayout, UdpCodec.ErrRoundTrip and UdpCodec.EncodedLengthsAccepted |
| UdpCodec.EncodeBye | src/udp-client.cpp:552-558 | the BYE builder; its layout, round trip and accepted length are stated by UdpCodec.ByeLayout, UdpCodec.ByeRoundTrip and UdpCodec.EncodedLengthsAccepted |
| UdpCodec.EncodeConfirm | src/udp-client.cpp:466-470 | the CONFIRM builder; its layout and round trip are stated by UdpCodec.ConfirmLayout and UdpCodec.ConfirmRoundTrip |
| UdpCodec.AuthLayout | src/udp-client.cpp:530-536 | AUTH is its type, its ID, then username, display name and secret, each NUL-terminated |
| UdpCodec.JoinLayout | src/udp-client.cpp:538-543 | JOIN is its type, its ID, then channel ID and display name, each NUL-terminated |
| UdpCodec.MsgLayout | src/udp-client.cpp:545-550 | MSG is its type, its ID, then display name and content, each NUL-terminated |
| UdpCodec.ErrLayout | src/udp-client.cpp:522-528 | ERR is its type, its ID, then display name and content, each NUL-terminated |
| UdpCodec.ByeLayout | src/udp-client.cpp:552-558 | BYE is its type, its ID, then the NUL-terminated display name |
| UdpCodec.ConfirmLayout | src/udp-client.cpp:466-470 | CONFIRM is its type and the reference ID, three bytes |
| UdpCodec.TwoFields | src/udp-client.cpp:538-550 | two fields are written as each field followed by a NUL |
| UdpCodec.MsgIdRoundTrip | src/udp-client.cpp:492-497 | reading the ID of a message that has an ID appended gives that ID |
| UdpCodec.HeaderRoundTrip | src/udp-client.cpp:492-497 | a header built from a type and an ID is read back as that type and ID |
| UdpCodec.MsgIdBytesInjective | src/udp-client.cpp:516-520 | distinct IDs are written as distinct bytes |
| UdpCodec.AuthRoundTrip | src/udp-client.cpp:530-536 | an AUTH whose fields hold no NUL decodes to its type, its ID and its three fields |
| UdpCodec.JoinRoundTrip | src/udp-client.cpp:538-543 | a JOIN decodes to its type, its ID and its two fields |
| UdpCodec.MsgRoundTrip | src/udp-client.cpp:545-550 | a MSG decodes to its type, its ID and its two fields |
| UdpCodec.ErrRoundTrip | src/udp-client.cpp:522-528 | an ERR decodes to its type, its ID and its two fields |
| UdpCodec.ByeRoundTrip | src/udp-client.cpp:552-558 | a BYE decodes to its type, its ID and the display name |
| UdpCodec.ConfirmRoundTrip | src/udp-client.cpp:466-470 | a CONFIRM decodes to its type and its reference ID |
| UdpCodec.IsValidConfirmMsgLength | src/udp-client.cpp:260-263 | a CONFIRM is exactly 3 bytes |
| UdpCodec.IsValidPingMsgLength | src/udp-client.cpp:351-354 | a PING is exactly 3 bytes |
| UdpCodec.IsValidByeMsgLength | src/udp-client.cpp:379-383 | a BYE is 5 to 24 bytes |
| UdpCodec.IsValidMsgMsgLength | src/udp-client.cpp:332-338 | a MSG is 7 to 60025 bytes |
| UdpCodec.IsValidErrMsgLength | src/udp-client.cpp:417-423 | an ERR is 7 to 60025 bytes |
| UdpCodec.IsValidReplyMsgLength | src/udp-client.cpp:603-608 | a REPLY is 8 to 60007 bytes |
| UdpCodec.IsValidReplyMsgResult | src/udp-client.cpp:610-613 | a REPLY result byte is 0 or 1 |
| UdpCodec.EncodedLengthsAccepted | src/udp-client.cpp:332-338 | every MSG, ERR and BYE the client builds within the name and content limits passes the receiver's length check |
| UdpCodec.MaxMsgSizeIsLongestReply | include/udp-client.h:47-48 | the size limit is 60007, the longest REPLY the length check accepts |
| UdpCodec.DatagramTooLongAsWritten | src/udp-client.cpp:137 | as written, a datagram is refused when it is longer than 60007 bytes |
| UdpCodec.DatagramTooLong | src/udp-client.cpp:137 | corrected: a datagram is refused only when no length check could accept it, and then it is longer than the longest valid message |
| UdpCodec.LongestMsgRefusedAsWritten | src/udp-client.cpp:137 | the longest MSG the client can build is 60025 bytes; the MSG check accepts it, the size check as written refuses it, the corrected one does not |
| UdpCodec.ValidLengthsNeverTooLong | src/udp-client.cpp:137 | with the correction, no length that some check accepts is refused, the longest one included |
| UdpCodec.RefMatchesAsWritten | src/udp-client.cpp:575 | as written, a REPLY matches when its reference is the counter minus one in int arithmetic, so never when the counter is 0 |
| UdpCodec.RefMatches | src/udp-client.cpp:575 | corrected: a REPLY matches exactly when the counter follows its reference, modulo 2^16 |
| UdpCodec.NextIdInjective | src/udp-client.cpp:195 | two IDs whose successors agree are equal |
| UdpCodec.WrappedReplyRefusedAsWritten | src/udp-client.cpp:575 | the request with ID 65535 is answered with reference 65535 after the counter wraps to 0; the written check refuses the answer, the corrected one accepts it |
| UdpCodec.RefMatchesAfterConfirm | src/udp-client.cpp:575 | after a confirmation advances the counter, the corrected check matches exactly the request's ID, and agrees with the written check unless the counter wrapped |
| UdpClient.Ascii | src/udp-client.cpp:522-528 | a text of the client is sent as the same characters, one byte each |
| UdpClient.TypeByte | src/udp-client.cpp:25 | the type byte is the first byte of the datagram, or 0 when it is empty |
| UdpClient.UdpStartNeverReentered | src/udp-client.cpp:182-238 | under the UDP client's state changes, a run that leaves START never returns to it |
| UdpClient.IsValidConfirmMsg | src/udp-client.cpp:148-152 | a CONFIRM is valid when its type byte is CONFIRM and it is 3 bytes long; UdpClient.UdpClient.ProcessServerConfirmMsg states what each outcome does |
| UdpClient.IsValidByeMsg | src/udp-client.cpp:356-365 | a BYE is valid when its length check passes, its type byte is BYE and its body is a valid display name; UdpClient.UdpClient.ProcessServerByeMsg returns 0 exactly for such a BYE |
| UdpClient.IsValidErrMsg | src/udp-client.cpp:385-403 | an ERR is valid when its length check passes, its type byte is ERR and its body is a valid name and content; UdpClient.UdpClient.ProcessServerErrMsg returns 1 exactly for such an ERR |
| UdpClient.IsValidMsgMsg | src/udp-client.cpp:297-319 | a MSG is valid when its length check passes, its type byte is MSG and its body is a valid name and content; UdpClient.UdpClient.ProcessServerMsgMsg shows such a MSG once per ID |
| UdpClient.IsValidReplyMsg | src/udp-client.cpp:615-627 | a REPLY is valid when its length check passes, its type byte is REPLY, its result byte is 0 or 1 and its content is printable; UdpClient.UdpClient.ProcessServerReplyMsg refuses any other REPLY with an ERR |
| UdpClient.UdpClient.AnswersRequest | src/udp-client.cpp:575 | a valid REPLY answers the request while a reply is awaited and its reference is the ID before the counter (corrected check, see Findings); UdpClient.UdpClient.AcceptReply is the effect |
| UdpClient.UdpClient.constructor | include/udp-client.h:327-330 | a new client is in START with ID 0, the full retransmission budget, no outstanding message, nothing sent or shown, standard input watched, the timer stopped and no ID confirmed |
| UdpClient.UdpClient.BuildAuthMsg | src/udp-client.cpp:530-536 | the outstanding message becomes the AUTH encoding under the current ID, not yet sent |
| UdpClient.UdpClient.BuildJoinMsg | src/udp-client.cpp:538-543 | the outstanding message becomes the JOIN encoding, not yet sent |
| UdpClient.UdpClient.BuildMsgMsg | src/udp-client.cpp:545-550 | the outstanding message becomes the MSG encoding, not yet sent |
| UdpClient.UdpClient.BuildErrMsg | src/udp-client.cpp:522-528 | the ID advances (mod 2^16) and the outstanding message becomes the ERR encoding under it |
| UdpClient.UdpClient.BuildByeMsg | src/udp-client.cpp:552-558 | the ID advances (mod 2^16) and the outstanding message becomes the BYE encoding under it |
| UdpClient.UdpClient.BuildUserMsgToServer | include/client.h:131 | the outstanding message becomes the encoding of the user's command |
| UdpClient.UdpClient.SendMsgToServer | src/udp-client.cpp:507-514 | the outstanding message is appended to what was sent and counted as sent once more |
| UdpClient.UdpClient.SendConfirmMsg | src/udp-client.cpp:466-477 | a CONFIRM of the reference is sent, and that ID alone is added to the confirmed set |
| UdpClient.UdpClient.SendErrMsg | src/udp-client.cpp:248-258 | an ERR with the next ID and the text is sent and becomes the outstanding message; standard input is no longer watched, the confirmation timer runs, and the client waits for a confirmation, not a reply; the retransmission budget is untouched, as in the code |
| UdpClient.UdpClient.SendByeMsgToServer | src/udp-client.cpp:479-489 | a BYE with the next ID is sent; the client waits for its confirmation only, with the full retransmission budget and the timer running |
| UdpClient.UdpClient.SigintHandler | src/udp-client.cpp:265-268 | SIGINT sends a BYE under the next ID; the client then waits for its confirmation only, with the full retransmission budget, the confirmation timer running and standard input paused; the state, the display name and the confirmed set are untouched |
| UdpClient.UdpClient.SendUserCommand | src/udp-client.cpp:447-463 | a command is sent under the current ID; /auth sets the display name and moves START to AUTH; the client waits for a confirmation, and for a reply after /auth or /join |
| UdpClient.UdpClient.AwaitConfirmation | src/udp-client.cpp:455-463 | after a command is sent, AUTH is entered from START on /auth, standard input is no longer watched, and the confirmation timer runs |
| UdpClient.UdpClient.ProcessStdinEvent | src/udp-client.cpp:425-464 | a hang-up sends a BYE and leaves the same waiting state as SIGINT; an input error throws and, like a line that sends nothing, changes no field; a command is sent as above under the current ID, with the BYE wait and the budget untouched |
| UdpClient.UdpClient.ProcessTimerEvent | src/udp-client.cpp:270-295 | while a confirmation is awaited, the message is resent (same message, ID, waits and standard input; one less retransmission; timer re-armed) while the budget lasts, then the client throws and nothing changes; a missing reply sends an ERR and leaves the ERR waiting state, with the budget untouched; otherwise the client throws and nothing changes; no message is sent more than 1 + the budget times |
| UdpClient.UdpClient.ConfirmOutstanding | src/udp-client.cpp:182-238 | a confirmed AUTH (in AUTH) or JOIN (in OPEN) advances the ID, restores the budget and starts the reply wait, and JOIN enters JOIN; a confirmed MSG re-enables standard input; nothing else changes the flags |
| UdpClient.UdpClient.ProcessServerConfirmMsg | src/udp-client.cpp:154-246 | a malformed CONFIRM sends an ERR under the next ID and leaves the ERR waiting state (only a confirmation awaited, confirmation timer armed, standard input paused); one for another ID changes nothing; one for the outstanding ID ends the session (code 0 for BYE, 1 for ERR); for an AUTH in AUTH or a JOIN in OPEN it advances the ID, restores the budget, starts the reply wait and arms the reply timer; for a MSG in OPEN it advances the ID, restores the budget, stops the timer and re-enables standard input; any other matching CONFIRM changes nothing; only a confirmed JOIN changes the state |
| UdpClient.UdpClient.AcceptReply | src/udp-client.cpp:575-597 | an answering REPLY is confirmed, shown unless its ID was already confirmed, and moves JOIN, or AUTH when it is positive, to OPEN; the reply wait ends and standard input is watched again |
| UdpClient.UdpClient.ProcessServerReplyMsg | src/udp-client.cpp:560-600 | a REPLY outside AUTH and JOIN, or a malformed one, sends an ERR and leaves the ERR waiting state, showing and confirming nothing; one that does not answer the request sends, shows and confirms nothing and keeps the outstanding message, its ID, the waits, the timer and standard input; one that answers it is accepted as above, keeping the outstanding message and its ID; in AUTH a valid REPLY fixes the server address |
| UdpClient.UdpClient.ProcessServerMsgMsg | src/udp-client.cpp:321-330 | a valid MSG is confirmed, its ID alone is added to the confirmed set, it is shown once per ID, and the outstanding message, its ID, the waits, the timer and standard input are kept; an invalid one sends an ERR, leaves the ERR waiting state and confirms nothing |
| UdpClient.UdpClient.ProcessServerPingMsg | src/udp-client.cpp:340-349 | a PING of valid length is confirmed and its ID alone is added to the confirmed set, keeping the outstanding message, its ID, the waits, the timer and standard input; otherwise an ERR is sent and the ERR waiting state is left; nothing is shown |
| UdpClient.UdpClient.ProcessServerByeMsg | src/udp-client.cpp:367-377 | the code is 0 exactly for a valid BYE, which is confirmed, its ID alone added to the confirmed set, with the outstanding message and the waits kept; otherwise an ERR is sent, the ERR waiting state is left and the code is 2 |
| UdpClient.UdpClient.ProcessServerErrMsg | src/udp-client.cpp:405-415 | the code is 1 exactly for a valid ERR, which is printed (appended to `shown`) and confirmed, its ID alone added to the confirmed set, with the outstanding message and the waits kept; otherwise an ERR is sent, the ERR waiting state is left, nothing is shown and the code is 2 |
| UdpClient.UdpClient.ProcessInAuthState | src/udp-client.cpp:49-67 | in AUTH, only a positive answering REPLY enters OPEN; codes 0 and 1 only come from the confirmation of the client's BYE or ERR; types other than CONFIRM, REPLY and PING are refused with an ERR |
| UdpClient.UdpClient.ProcessInOpenState | src/udp-client.cpp:69-88 | in OPEN, only a confirmed JOIN enters JOIN; types other than CONFIRM, MSG and PING are refused with an ERR |
| UdpClient.UdpClient.ProcessInJoinState | src/udp-client.cpp:90-113 | in JOIN, only an answering REPLY enters OPEN; types other than CONFIRM, MSG, PING and REPLY are refused with an ERR |
| UdpClient.UdpClient.ProcessMessageFromServer | src/udp-client.cpp:23-121 | BYE and ERR are handled in every state, with code 0 or 1 exactly when valid; every state change is one the protocol allows, caused by the message named; in START only CONFIRM is taken besides BYE and ERR |
| UdpClient.UdpClient.ProcessSocketEvent | src/udp-client.cpp:123-146 | a receive failure or a datagram no check could accept sends an ERR with code 2; any other datagram is dispatched |
| UdpClient.RedeliveredMsgShownOnce | src/udp-client.cpp:321-330 | a MSG delivered twice is confirmed twice and shown once |
| UdpClient.RetransmissionBudgetRunsOut | src/udp-client.cpp:270-295 | with the default budget of 3, three timer expiries each resend the message and the fourth throws, so it was sent four times in all |
| TcpCodec.MaxMsgSizeIsLongestMsgLine | include/tcp-client.h:36-37 | every MSG line within the limits fits the size limit, and the longest one fills it |
| TcpCodec.UpperChar | src/tcp-client.cpp:308-309 | lower-case ASCII letters are upper-cased, every other character is kept |
| TcpCodec.Upper | src/tcp-client.cpp:307-309 | upper-casing a line upper-cases each of its characters |
| TcpCodec.UpperIdempotent | src/tcp-client.cpp:307-309 | upper-casing twice is upper-casing once |
| TcpCodec.UpperPrefix | src/tcp-client.cpp:306-309 | upper-casing the first n characters is the first n of the upper-cased line |
| TcpCodec.UpperAppend | src/tcp-client.cpp:307-309 | upper-casing distributes over concatenation |
| TcpCodec.GetServerMsgType | src/tcp-client.cpp:303-318 | a line is classified as MSG, ERR, BYE, REPLY or UNKNOWN, and as UNKNOWN when shorter than 3 characters |
| TcpCodec.PrefixWindow | src/tcp-client.cpp:306-313 | testing a word on the first five upper-cased characters is testing it on the whole line, ignoring case |
| TcpCodec.ClassifierByPrefix | src/tcp-client.cpp:303-318 | each type is recognised by its case-insensitive prefix, tried in the order MSG, ERR, BYE, REPLY |
| TcpCodec.ClassifierIgnoresCase | src/tcp-client.cpp:303-318 | upper-casing a line does not change its type |
| TcpCodec.BuiltLinesClassify | src/tcp-client.cpp:320-343 | the MSG, ERR and BYE lines the client builds are classified as MSG, ERR and BYE |
| TcpCodec.JoinLine | src/tcp-client.cpp:320-323 | the JOIN line builder; TcpFraming.LineIsFrame states it is one complete message |
| TcpCodec.MsgLine | src/tcp-client.cpp:325-328 | the MSG line builder; TcpCodec.BuiltLinesClassify and TcpCodec.MaxMsgSizeIsLongestMsgLine state its type and size |
| TcpCodec.AuthLine | src/tcp-client.cpp:330-333 | the AUTH line builder; TcpFraming.LineIsFrame states it is one complete message |
| TcpCodec.ErrLine | src/tcp-client.cpp:335-338 | the ERR line builder; TcpCodec.BuiltLinesClassify states it is classified as ERR |
| TcpCodec.ByeLine | src/tcp-client.cpp:340-343 | the BYE line builder; TcpCodec.BuiltLinesClassify states it is classified as BYE |
| TcpCodec.CommandLine | include/client.h:131 | the line of a user command, chosen by its command word; TcpClient.TcpClient.SendUserCommand sends it |
| TcpCodec.ParseReply | src/tcp-client.cpp:82-86 | the REPLY reader: a head `REPLY OK IS ` or `REPLY NOK IS ` in any case, content, terminator; TcpCodec.ReplyRoundTrip and TcpCodec.ParsedReplyIsReplyText give both directions of its round trip |
| TcpCodec.ReplyRoundTrip | src/tcp-client.cpp:345-349 | a REPLY line is read back as the status and content it was written with |
| TcpCodec.ReplyHeadClassifies | src/tcp-client.cpp:312-313 | a line starting with either REPLY head, in any case, is classified as REPLY |
| TcpCodec.ParseReplyShape | src/tcp-client.cpp:345-349 | a line read as a REPLY is its head, in any case, then the content, then the terminator |
| TcpCodec.ParsedReplyIsReplyText | src/tcp-client.cpp:85 | every line read as a REPLY is, up to case, the REPLY text of what was read, and is classified as REPLY |
| TcpFraming.Frames | src/tcp-client.cpp:199-218 | the reference framing of a buffer: messages cut at each first terminator, and the rest; TcpFraming.FramesSound states its soundness, and TcpClient.TcpClient.DispatchBuffered is proved against it |
| TcpFraming.Deliver | src/tcp-client.cpp:182-219 | delivering chunks one after another, cutting complete messages after each; TcpFraming.DeliverIsFrames ties it to TcpFraming.Frames |
| TcpFraming.FindCrlf | src/tcp-client.cpp:199 | the first position of a terminator, or none when the buffer holds none |
| TcpFraming.FindCrlfFrom | src/tcp-client.cpp:199 | the first terminator at or after a position, or none |
| TcpFraming.FindCrlfIsFirst | src/tcp-client.cpp:199 | a terminator with none before it is the one found |
| TcpFraming.FirstMessageIsFrame | src/tcp-client.cpp:201 | the message cut off ends with the first terminator and holds no earlier one |
| TcpFraming.ConcatAppend | src/tcp-client.cpp:195 | concatenating two runs of messages is concatenating each |
| TcpFraming.FramesConcat | src/tcp-client.cpp:195-219 | the messages cut off, followed by what stays buffered, are the buffer |
| TcpFraming.FramesRest | src/tcp-client.cpp:199 | what stays buffered holds no terminator |
| TcpFraming.FramesEach | src/tcp-client.cpp:201 | each message cut off ends with its first terminator |
| TcpFraming.FramesStep | src/tcp-client.cpp:199-218 | cutting off the first message and framing the remainder frames the buffer |
| TcpFraming.CutStep | src/tcp-client.cpp:199-218 | one pass of the loop keeps the messages cut so far plus the framing of the buffer equal to the framing of the stream |
| TcpFraming.FramesOfPartial | src/tcp-client.cpp:199 | a buffer without a terminator yields no message and stays buffered |
| TcpFraming.FramesSound | src/tcp-client.cpp:195-219 | the framing gives the buffer back, its messages each end with their first terminator, and the remainder holds none |
| TcpFraming.FramesOfFrameThen | src/tcp-client.cpp:201-218 | a complete message followed by more bytes is cut off first |
| TcpFraming.FramesAppend | src/tcp-client.cpp:195-219 | appending received bytes never changes the messages already complete |
| TcpFraming.DeliverIsFrames | src/tcp-client.cpp:182-219 | however the stream arrives in chunks, the messages cut off and the bytes left are those of the whole stream |
| TcpFraming.ChunkingIrrelevant | python-scripts/test-tcp-stream.py:26-33 | two chunkings of the same stream deliver the same messages |
| TcpFraming.LongPartialOnlyGrowsTooLong | src/tcp-client.cpp:221-225 | a remainder of MAX_MSG_SIZE bytes without a terminator can only complete into a message over the limit |
| TcpFraming.TypeOfBufferHead | src/tcp-client.cpp:105 | classifying the buffer that starts with a message classifies that message |
| TcpFraming.PrefixOfFrameThen | src/tcp-client.cpp:105 | a type word prefixes a complete message followed by more bytes iff it prefixes the message |
| TcpFraming.LineIsFrame | src/tcp-client.cpp:320-343 | a line the client builds, ended by the terminator, is one complete message |
| TcpFraming.FramesOfMessages | python-scripts/test-tcp-stream.py:28 | back-to-back complete messages are cut off one by one and leave nothing buffered |
| TcpClient.ServerStepTransitive | src/tcp-client.cpp:87-90 | two received messages change the state at most as one does |
| TcpClient.TcpStartNeverReentered | src/tcp-client.cpp:45-61 | under the TCP client's state changes, a run that leaves START never returns to it |
| TcpClient.TcpClient.constructor | include/client.h:61-68 | a new client is in START under the default display name, with nothing buffered, sent or shown, standard input watched and the timer stopped |
| TcpClient.TcpClient.BuildJoinMsg | src/tcp-client.cpp:320-323 | the outgoing line becomes the JOIN line |
| TcpClient.TcpClient.BuildMsgMsg | src/tcp-client.cpp:325-328 | the outgoing line becomes the MSG line |
| TcpClient.TcpClient.BuildAuthMsg | src/tcp-client.cpp:330-333 | the outgoing line becomes the AUTH line |
| TcpClient.TcpClient.BuildErrMsg | src/tcp-client.cpp:335-338 | the outgoing line becomes the ERR line |
| TcpClient.TcpClient.BuildByeMsg | src/tcp-client.cpp:340-343 | the outgoing line becomes the BYE line |
| TcpClient.TcpClient.BuildUserMsgToServer | include/client.h:131 | the outgoing line becomes the line of the user's command |
| TcpClient.TcpClient.SendMsgToServer | src/tcp-client.cpp:294-300 | the outgoing line is appended to what was sent |
| TcpClient.TcpClient.SendByeMsgToServer | src/tcp-client.cpp:288-292 | a BYE line is sent |
| TcpClient.TcpClient.SendErrMsgAndTerminate | src/tcp-client.cpp:246-251 | an ERR line with the text is sent and the exception thrown carries the text; it is a clean exit iff the text is empty |
| TcpClient.TcpClient.SigintHandler | src/tcp-client.cpp:230-234 | SIGINT sends a BYE and ends the client cleanly |
| TcpClient.TcpClient.ProcessTimerEvent | src/tcp-client.cpp:236-244 | while a reply is awaited the client sends an ERR and ends; otherwise it throws without sending; never a clean exit |
| TcpClient.TcpClient.SendUserCommand | src/tcp-client.cpp:45-68 | a command is sent; /auth sets the display name and moves START to AUTH; /join enters JOIN; the client waits for a reply after /auth or /join |
| TcpClient.TcpClient.ProcessStdinEvent | src/tcp-client.cpp:23-69 | a hang-up sends a BYE and ends cleanly; an input error throws and, like a line that sends nothing, changes no field; a command is sent as above |
| TcpClient.TcpClient.ProcessServerReplyMsg | src/tcp-client.cpp:71-100 | a REPLY outside AUTH and JOIN, unexpected or malformed ends the client with an ERR; otherwise it is shown, the reply wait ends, and JOIN, or AUTH when positive, enters OPEN |
| TcpClient.TcpClient.ProcessServerMsgMsg | src/tcp-client.cpp:253-264 | a valid MSG is shown; an invalid one ends the client with an ERR |
| TcpClient.TcpClient.ProcessServerErrMsg | src/tcp-client.cpp:266-277 | a valid ERR is printed (appended to `shown`) without sending; an invalid one ends the client with an ERR and shows nothing |
| TcpClient.TcpClient.ProcessServerByeMsg | src/tcp-client.cpp:279-286 | a valid BYE ends the session without sending; an invalid one ends the client with an ERR |
| TcpClient.TcpClient.ProcessMessageFromServer | src/tcp-client.cpp:103-177 | code 0 only for a valid BYE, 1 only for a valid ERR, 2 keeps the client running; an exception is never a clean exit; only the allowed state changes happen |
| TcpClient.TcpClient.DispatchByType | src/tcp-client.cpp:105-176 | per type: UNKNOWN ends the client; BYE and ERR return 0 and 1 when valid, and a valid ERR is shown; a valid MSG in OPEN or JOIN returns 2 and is shown, and an invalid one ends the client; MSG and REPLY are refused with the state's text where the state does not take them; a state change comes only from an accepted REPLY |
| TcpClient.TcpClient.ProcessSocketEvent | src/tcp-client.cpp:180-228 | a receive failure ends the client; a closed connection returns 0 and changes nothing; otherwise the messages handled are a prefix of the framing of the buffer plus the data, all of them when the session goes on, and a code below 2 comes from a BYE or an ERR |
| TcpClient.TcpClient.DispatchBuffered | src/tcp-client.cpp:195-219 | the loop handles a prefix of the framing of the buffer, and all of it, each message within the limit, when the session goes on, leaving the remainder buffered |
| TcpClient.TcpClient.ProcessFirstMessage | src/tcp-client.cpp:199-218 | the first complete message is cut off; one over the limit ends the client; otherwise it is dispatched and removed from the buffer when the session goes on |

## Left out

- Sockets, epoll, timerfd and signals are not modelled. Their events are parameters of the handler methods, and the event loop of `Client::run` is not part of this model.
- A failing `send()` or `sendto()` (a thrown exception) and a failing `connect()` are not modelled. Sending always succeeds.
- The regular expressions for names, channel IDs, secrets and contents, and the name and content length checks, are predicates of a grammar value. Their exact character classes are not modelled.
- `parseUserInput`, `processNonMsgToServer`, `canSendMessageType` and the /help and /rename commands are not modelled. One standard-input event stands for what they decide: a hang-up, an error, a line that sends nothing, or a command to send. client.cpp is not part of this model.
- Console output is recorded as the `shown` log: server MSG, ERR and REPLY messages the client prints (`outputIncomingMsg`, `printErrFromServer`, `outputIncomingReply`), with the received message as the entry rather than the formatted text. The client's own error text printed by UDP `sendErrMsg` (src/udp-client.cpp:251) and the exception text printed by main.cpp are not recorded; the ERR sent to the server and the exception carry the same text.
- main.cpp and the argument parsing of args.h are not modelled. The timeout and retransmission count are constructor parameters.
- UDP `recvfrom` reads at most MAX_MSG_SIZE + 1 bytes. The model receives the whole datagram, so a datagram of 60008 to 60025 bytes reaches the corrected length check intact. The corrected receive path would also need a larger receive buffer.
- UdpClient.UdpClient.ProcessServerReplyMsg: uses the corrected reference check (UdpCodec.RefMatches). The code (src/udp-client.cpp:575) ignores a REPLY to request 65535 once the counter has wrapped to 0: nothing is confirmed or shown, the state stays, and the reply timer later sends an ERR. The model accepts that REPLY. The same holds for UdpClient.UdpClient.ProcessInAuthState, UdpClient.UdpClient.ProcessInJoinState and UdpClient.UdpClient.ProcessMessageFromServer, which call it.
- UdpClient.UdpClient.AnswersRequest: is the corrected check, not the one at src/udp-client.cpp:575; see the line above.
- The TCP "Invalid client's FSM state" default branch (src/tcp-client.cpp:172-173) cannot be reached, because the state type has four values. It is left out of the match.
- TcpClient.TcpClient.ProcessMessageFromServer: states only the summary outcomes. The per-type outcomes are in TcpClient.TcpClient.DispatchByType, which it calls.
- UdpClient.UdpClient.ProcessSocketEvent: uses the corrected size limit (UdpCodec.DatagramTooLong, 60025 bytes), where the code refuses every datagram over 60007 bytes (src/udp-client.cpp:137). A datagram of 60008 to 60025 bytes is refused with an ERR by the code and dispatched by the model. For an accepted datagram the method does not restate the per-type outcomes of UdpClient.UdpClient.ProcessMessageFromServer, which it calls.

## Findings

| source | as written | input that shows it | evidently intended | confidence | as-written member | corrected member |
|---|---|---|---|---|---|---|
| src/udp-client.cpp:575 | `m_msg_to_server_id - 1 == getRefMsgId(reply)` is evaluated in int after promotion, so when the counter has wrapped to 0 the left side is -1 | request sent with ID 65535, confirmed (counter wraps to 0), then a REPLY with reference 65535 | the reference equals the ID before the counter modulo 2^16, so the REPLY answers the request | not executed | UdpCodec.RefMatchesAsWritten, UdpCodec.WrappedReplyRefusedAsWritten | UdpCodec.RefMatches, UdpCodec.RefMatchesAfterConfirm |
| include/udp-client.h:47-48 | the datagram size limit is the longest REPLY (60007 bytes), and src/udp-client.cpp:137 refuses anything longer | a MSG with a 20-character display name and 60000-character content: 60025 bytes, accepted by the MSG length check at src/udp-client.cpp:332-338 | no datagram that a length check accepts is refused; the limit is the longest MSG or ERR (60025 bytes) | not executed | UdpCodec.DatagramTooLongAsWritten, UdpCodec.LongestMsgRefusedAsWritten | UdpCodec.DatagramTooLong, UdpCodec.ValidLengthsNeverTooLong |
