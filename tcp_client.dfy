/**
 * The TCP variant of the IPK25-CHAT client: the line it is about to send, the
 * receive buffer that the framing loop cuts messages off, the wait for a
 * REPLY, and the finite-state machine. Each event handler of the client is a
 * method; a handler that throws returns the exception instead. Lines handed
 * to the socket are appended to `sent`, lines shown to the user to `shown`.
 */
module TcpClient {
  import opened Protocol
  import opened ClientException
  import opened Seqs
  import opened TcpCodec
  import opened TcpFraming

  /** The field-syntax checks the client delegates to case-insensitive
      regular expressions over character classes it does not define here,
      together with the display-name and content length checks applied to
      their captures: a whole MSG, ERR or BYE line, and the content of a
      REPLY. */
  datatype TcpGrammar = TcpGrammar(
    msgLine: string -> bool,
    errLine: string -> bool,
    byeLine: string -> bool,
    replyContent: string -> bool)

  /** A REPLY line the client accepts: `REPLY OK|NOK IS content` in any case,
      with a content of the right syntax and length. */
  predicate IsValidReply(g: TcpGrammar, line: string) {
    ParseReply(line).Some? && g.replyContent(ParseReply(line).value.content)
  }

  /** What one read from the socket amounts to; an empty chunk is the
      server closing the connection. */
  datatype TcpRecv = RecvFailed | Received(data: string)

  /** The types a state takes besides BYE and ERR, which every state takes:
      none in START, REPLY in AUTH, MSG in OPEN, both in JOIN. */
  predicate Accepts(s: FsmState, t: MsgType) {
    || (s == AuthState && t == Reply)
    || (s == OpenState && t == Msg)
    || (s == JoinState && (t == Reply || t == Msg))
  }

  /** The state changes a received message can make: AUTH or JOIN to OPEN. */
  predicate ServerStep(s: FsmState, t: FsmState) {
    s == t || ((s == AuthState || s == JoinState) && t == OpenState)
  }

  /** The state changes the TCP client can make: START to AUTH, AUTH or JOIN
      to OPEN, and any state to JOIN when the user sends /join. */
  predicate TcpStep(s: FsmState, t: FsmState) {
    ServerStep(s, t) || (s == StartState && t == AuthState) || t == JoinState
  }

  /** Two messages in a row change the state at most as one does. */
  lemma ServerStepTransitive(a: FsmState, b: FsmState, c: FsmState)
    requires ServerStep(a, b) && ServerStep(b, c)
    ensures ServerStep(a, c)
  {
  }

  /** Once left, START is never entered again, whatever the sequence of steps. */
  lemma TcpStartNeverReentered(states: seq<FsmState>)
    requires |states| >= 1 && states[0] != StartState
    requires forall i :: 0 <= i < |states| - 1 ==> TcpStep(states[i], states[i + 1])
    ensures forall i :: 0 <= i < |states| ==> states[i] != StartState
  {
    StartNeverReentered(states);
  }

  /** Texts of the exceptions the client throws and of the ERR lines it sends. */
  const REPLY_IN_UNEXPECTED_STATE: string := "received a REPLY message in unexpected state."
  const MALFORMED_REPLY: string := "received a malformed REPLY message from the server."
  const REPLY_NOT_EXPECTED: string := "didn't expect any reply message from the server."
  const UNKNOWN_TYPE: string := "only messages of types BYE, ERR, MSG and REPLY are expected to be received"
    + " from the server."
  const UNEXPECTED_IN_START: string := "only messages of types BYE and ERR are expected to be received"
    + " from the server in the client's START state."
  const UNEXPECTED_IN_AUTH: string := "only messages of types BYE, ERR and REPLY are expected to be received"
    + " from the server in the client's AUTH state."
  const UNEXPECTED_IN_OPEN: string := "only messages of types BYE, ERR and MSG are expected to be received"
    + " from the server in the client's OPEN state."
  const UNEXPECTED_IN_JOIN: string := "only messages of types BYE, ERR, MSG and REPLY are expected to be received"
    + " from the server in the client's JOIN state."
  const RECV_FAILED: string := "couldn't receive a message from the server: recv() has failed."
  const TOO_LONG: string := "too long message from server."
  const REPLY_TIMED_OUT: string := "waited too long for the server's reply."
  const TIMER_NOT_EXPECTED: string := "timer event, but waiting_for_reply is false."
  const MALFORMED_MSG: string := "received a malformed MSG message from the server."
  const MALFORMED_ERR: string := "received a malformed ERR message from the server."
  const MALFORMED_BYE: string := "received a malformed BYE message from the server."

  /** The text a state refuses an unexpected MSG or REPLY with. */
  function UnexpectedIn(s: FsmState): string {
    match s
    case StartState => UNEXPECTED_IN_START
    case AuthState => UNEXPECTED_IN_AUTH
    case OpenState => UNEXPECTED_IN_OPEN
    case JoinState => UNEXPECTED_IN_JOIN
  }

  class TcpClient {
    /** Field-syntax checks of received lines. */
    const grammar: TcpGrammar

    var state: FsmState
    var displayName: string
    var waitingForReply: bool
    /** The last line built for the server. */
    var msgToServer: string
    /** What was received and not yet cut off as a message. */
    var buffer: string
    /** Lines handed to the socket, in order. */
    var sent: seq<string>
    /** Server MSG, ERR and REPLY lines shown to the user, in order. */
    var shown: seq<string>
    var stdinEnabled: bool
    var timer: Timer
    /** Every message cut off the stream and dispatched, in order. */
    ghost var dispatched: seq<string>

    /** Standard input is paused exactly while a REPLY is awaited, and the
        reply timer runs exactly then. */
    predicate WaitValid()
      reads this
    {
      && stdinEnabled == !waitingForReply
      && timer == (if waitingForReply then Armed(REPLY_WAIT_MS) else Stopped)
    }

    /** Between events the buffer holds only the start of a message, shorter
        than the longest line accepted. */
    ghost predicate Valid()
      reads this
    {
      WaitValid() && NoCrlf(buffer) && |buffer| < MAX_MSG_SIZE
    }

    /** The client has sent an ERR with `text` and throws `e` with that text. */
    predicate Terminated(sent0: seq<string>, e: Exception, text: string)
      reads this
    {
      e == Exception(text) && msgToServer == ErrLine(displayName, text) && sent == sent0 + [msgToServer]
    }

    constructor (grammar: TcpGrammar)
      ensures Valid()
      ensures this.grammar == grammar
      ensures state == INITIAL_STATE && displayName == DEFAULT_DISPLAY_NAME && !waitingForReply
      ensures msgToServer == [] && buffer == [] && sent == [] && shown == [] && dispatched == []
      ensures stdinEnabled && timer == Stopped
    {
      this.grammar := grammar;
      state := INITIAL_STATE;
      displayName := DEFAULT_DISPLAY_NAME;
      waitingForReply := false;
      msgToServer, buffer := [], [];
      sent, shown, dispatched := [], [], [];
      stdinEnabled, timer := true, Stopped;
    }

    // Builders of the line to send.

    method BuildJoinMsg(channelId: string)
      modifies this`msgToServer
      ensures msgToServer == JoinLine(channelId, displayName)
    {
      msgToServer := JoinLine(channelId, displayName);
    }

    method BuildMsgMsg(content: string)
      modifies this`msgToServer
      ensures msgToServer == MsgLine(displayName, content)
    {
      msgToServer := MsgLine(displayName, content);
    }

    method BuildAuthMsg(username: string, secret: string)
      modifies this`msgToServer
      ensures msgToServer == AuthLine(username, displayName, secret)
    {
      msgToServer := AuthLine(username, displayName, secret);
    }

    method BuildErrMsg(content: string)
      modifies this`msgToServer
      ensures msgToServer == ErrLine(displayName, content)
    {
      msgToServer := ErrLine(displayName, content);
    }

    method BuildByeMsg()
      modifies this`msgToServer
      ensures msgToServer == ByeLine(displayName)
    {
      msgToServer := ByeLine(displayName);
    }

    /** Builds the line for a command the user sends. */
    method BuildUserMsgToServer(cmd: Command<string>)
      modifies this`msgToServer
      ensures msgToServer == CommandLine(cmd, displayName)
    {
      match cmd
      case AuthCmd(username, secret, _) => BuildAuthMsg(username, secret);
      case JoinCmd(channelId) => BuildJoinMsg(channelId);
      case MsgCmd(content) => BuildMsgMsg(content);
    }

    /** Hands the line to the socket. */
    method SendMsgToServer()
      modifies this`sent
      ensures sent == old(sent) + [msgToServer]
    {
      sent := sent + [msgToServer];
    }

    method SendByeMsgToServer()
      modifies this`msgToServer, this`sent
      ensures msgToServer == ByeLine(displayName) && sent == old(sent) + [msgToServer]
    {
      BuildByeMsg();
      SendMsgToServer();
    }

    /** Reports an error to the server and throws it; the thrown text is not
        empty, so the termination is not a clean exit. */
    method SendErrMsgAndTerminate(text: string) returns (e: Exception)
      modifies this`msgToServer, this`sent
      ensures Terminated(old(sent), e, text)
      ensures e.IsSigintOrEofReceived() <==> text == []
    {
      BuildErrMsg(text);
      SendMsgToServer();
      e := Exception(text);
    }

    /** SIGINT: say goodbye and exit cleanly. */
    method SigintHandler() returns (e: Exception)
      modifies this`msgToServer, this`sent
      ensures msgToServer == ByeLine(displayName) && sent == old(sent) + [msgToServer]
      ensures e.IsSigintOrEofReceived()
    {
      SendByeMsgToServer();
      e := Exception([]);
    }

    /** The reply timer expired: always ends the client, with an ERR to the
        server when a reply was awaited. */
    method ProcessTimerEvent() returns (e: Exception)
      modifies this`msgToServer, this`sent
      ensures waitingForReply ==> Terminated(old(sent), e, REPLY_TIMED_OUT)
      ensures !waitingForReply ==> e == Exception(TIMER_NOT_EXPECTED) && sent == old(sent)
      ensures !e.IsSigintOrEofReceived()
    {
      if waitingForReply {
        e := SendErrMsgAndTerminate(REPLY_TIMED_OUT);
        return;
      }
      e := Exception(TIMER_NOT_EXPECTED);
    }

    /** Sends a command typed by the user: /auth first takes its display
        name, /join enters JOIN before its line is built, /auth in START then
        enters AUTH, and both wait for the REPLY with standard input paused. */
    method SendUserCommand(cmd: Command<string>)
      requires WaitValid() && stdinEnabled
      modifies this`displayName, this`state, this`msgToServer, this`sent, this`stdinEnabled, this`timer,
        this`waitingForReply
      ensures WaitValid() && TcpStep(old(state), state)
      ensures displayName == (if cmd.AuthCmd? then cmd.displayName else old(displayName))
      ensures msgToServer == CommandLine(cmd, displayName) && sent == old(sent) + [msgToServer]
      ensures state == (if cmd.JoinCmd? then JoinState
                        else if cmd.AuthCmd? && old(state) == StartState then AuthState
                        else old(state))
      ensures waitingForReply == cmd.ExpectsReply()
    {
      if cmd.AuthCmd? {
        displayName := cmd.displayName;
      }
      if cmd.JoinCmd? {
        state := JoinState;
      }
      BuildUserMsgToServer(cmd);
      SendMsgToServer();
      if cmd.AuthCmd? && state == StartState {
        state := AuthState;
      }
      if cmd.ExpectsReply() {
        stdinEnabled := false;
        timer := Armed(REPLY_WAIT_MS);
        waitingForReply := true;
      }
    }

    /** A line (or a hang-up, or an error) on standard input. A hang-up says
        goodbye and exits cleanly; an error exits with failure. Standard
        input is read only while its events are enabled. */
    method ProcessStdinEvent(ev: StdinEvent<string>) returns (thrown: Option<Exception>)
      requires WaitValid() && stdinEnabled
      modifies this`displayName, this`state, this`msgToServer, this`sent, this`stdinEnabled, this`timer,
        this`waitingForReply
      ensures WaitValid() && TcpStep(old(state), state)
      ensures thrown.Some? <==> ev.Hangup? || ev.StdinError?
      ensures ev.Hangup? ==>
        && thrown.value.IsSigintOrEofReceived()
        && msgToServer == ByeLine(displayName) && sent == old(sent) + [msgToServer]
      ensures ev.StdinError? ==> thrown.value == Exception(STDIN_ERROR) && sent == old(sent)
      ensures !ev.Send? ==> state == old(state) && !waitingForReply
      ensures ev.Skipped? ==> sent == old(sent)
      ensures ev.Skipped? || ev.StdinError? ==> unchanged(this)
      ensures ev.Send? ==>
        && displayName == (if ev.cmd.AuthCmd? then ev.cmd.displayName else old(displayName))
        && msgToServer == CommandLine(ev.cmd, displayName) && sent == old(sent) + [msgToServer]
        && state == (if ev.cmd.JoinCmd? then JoinState
                     else if ev.cmd.AuthCmd? && old(state) == StartState then AuthState
                     else old(state))
        && waitingForReply == ev.cmd.ExpectsReply()
    {
      match ev
      case Hangup =>
        SendByeMsgToServer();
        return Some(Exception([]));
      case StdinError =>
        return Some(Exception(STDIN_ERROR));
      case Skipped =>
        return None;
      case Send(cmd) =>
        SendUserCommand(cmd);
        return None;
    }

    /** A REPLY from the server: taken only in AUTH or JOIN while a reply is
        awaited and only when well formed; it is shown, and OPEN is entered
        from JOIN, or from AUTH when the status is OK. Anything else ends the
        client with an ERR. */
    method ProcessServerReplyMsg(line: string) returns (thrown: Option<Exception>)
      requires WaitValid()
      modifies this`state, this`msgToServer, this`sent, this`shown, this`stdinEnabled, this`timer,
        this`waitingForReply
      ensures ServerStep(old(state), state)
      ensures old(state) != AuthState && old(state) != JoinState ==>
        thrown.Some? && Terminated(old(sent), thrown.value, REPLY_IN_UNEXPECTED_STATE)
      ensures (old(state) == AuthState || old(state) == JoinState) && !old(waitingForReply) ==>
        thrown.Some? && Terminated(old(sent), thrown.value, REPLY_NOT_EXPECTED)
      ensures (old(state) == AuthState || old(state) == JoinState) && old(waitingForReply)
              && !IsValidReply(grammar, line) ==>
        thrown.Some? && Terminated(old(sent), thrown.value, MALFORMED_REPLY)
      ensures thrown.None? <==>
        (old(state) == AuthState || old(state) == JoinState) && old(waitingForReply) && IsValidReply(grammar, line)
      ensures thrown.None? ==>
        && WaitValid() && !waitingForReply && sent == old(sent) && shown == old(shown) + [line]
        && state == (if old(state) == JoinState || ParseReply(line).value.positive then OpenState else old(state))
      ensures thrown.Some? ==> state == old(state) && shown == old(shown)
    {
      if state != AuthState && state != JoinState {
        var e := SendErrMsgAndTerminate(REPLY_IN_UNEXPECTED_STATE);
        return Some(e);
      }
      if waitingForReply {
        var r := ParseReply(line);
        if r.Some? && grammar.replyContent(r.value.content) {
          timer := Stopped;
          shown := shown + [line];
          if state == JoinState || r.value.positive {
            state := OpenState;
          }
          waitingForReply := false;
          stdinEnabled := true;
          return None;
        }
        var e := SendErrMsgAndTerminate(MALFORMED_REPLY);
        return Some(e);
      }
      var e := SendErrMsgAndTerminate(REPLY_NOT_EXPECTED);
      return Some(e);
    }

    /** A MSG from the server is shown when well formed. */
    method ProcessServerMsgMsg(line: string) returns (thrown: Option<Exception>)
      modifies this`msgToServer, this`sent, this`shown
      ensures thrown.None? <==> grammar.msgLine(line)
      ensures thrown.None? ==> shown == old(shown) + [line] && sent == old(sent)
      ensures thrown.Some? ==> shown == old(shown) && Terminated(old(sent), thrown.value, MALFORMED_MSG)
    {
      if grammar.msgLine(line) {
        shown := shown + [line];
        return None;
      }
      var e := SendErrMsgAndTerminate(MALFORMED_MSG);
      return Some(e);
    }

    /** An ERR from the server is printed when well formed. */
    method ProcessServerErrMsg(line: string) returns (thrown: Option<Exception>)
      modifies this`msgToServer, this`sent, this`shown
      ensures thrown.None? <==> grammar.errLine(line)
      ensures thrown.None? ==> shown == old(shown) + [line] && sent == old(sent)
      ensures thrown.Some? ==> shown == old(shown) && Terminated(old(sent), thrown.value, MALFORMED_ERR)
    {
      if grammar.errLine(line) {
        shown := shown + [line];
        return None;
      }
      var e := SendErrMsgAndTerminate(MALFORMED_ERR);
      return Some(e);
    }

    /** A BYE from the server is only checked. */
    method ProcessServerByeMsg(line: string) returns (thrown: Option<Exception>)
      modifies this`msgToServer, this`sent
      ensures thrown.None? <==> grammar.byeLine(line)
      ensures thrown.None? ==> sent == old(sent)
      ensures thrown.Some? ==> Terminated(old(sent), thrown.value, MALFORMED_BYE)
    {
      if !grammar.byeLine(line) {
        var e := SendErrMsgAndTerminate(MALFORMED_BYE);
        return Some(e);
      }
      return None;
    }

    /** Dispatch of one message cut off the head of the buffer. Its type is
        read from the buffer, which starts with the message, so it is the
        type of the message itself; BYE ends the session successfully (0),
        ERR with an error (1), MSG and REPLY that the client takes let it go
        on (2), and every exception is preceded by an ERR line with its
        (non-empty) text. */
    method ProcessMessageFromServer(msg: string) returns (c: Completion)
      requires WaitValid() && IsFrame(msg) && StartsWith(buffer, msg)
      modifies this`state, this`msgToServer, this`sent, this`shown, this`stdinEnabled, this`timer,
        this`waitingForReply
      ensures ServerStep(old(state), state)
      ensures c.Returned? ==> c.code in {0, 1, 2} && sent == old(sent)
      ensures c.Raised? ==> Terminated(old(sent), c.e, c.e.What()) && !c.e.IsSigintOrEofReceived()
      ensures c == Returned(0) ==> GetServerMsgType(msg) == Bye && grammar.byeLine(msg)
      ensures c == Returned(1) ==> GetServerMsgType(msg) == Err && grammar.errLine(msg)
      ensures c == Returned(2) ==> WaitValid()
    {
      var t := GetServerMsgType(buffer);
      assert buffer == msg + buffer[|msg|..];
      TypeOfBufferHead(msg, buffer[|msg|..]);
      c := DispatchByType(t, msg);
    }

    /** The switch on the type of a server message: BYE ends the session
        successfully (0) and ERR with an error (1), in every state; MSG and
        REPLY go to their handlers in the states that take them (2), and
        anything else ends the client with an ERR. */
    method DispatchByType(t: MsgType, msg: string) returns (c: Completion)
      requires WaitValid() && t == GetServerMsgType(msg)
      modifies this`state, this`msgToServer, this`sent, this`shown, this`stdinEnabled, this`timer,
        this`waitingForReply
      ensures ServerStep(old(state), state)
      ensures c.Returned? ==> c.code in {0, 1, 2} && sent == old(sent)
      ensures c.Raised? ==> Terminated(old(sent), c.e, c.e.What()) && state == old(state)
      ensures c.Raised? ==> !c.e.IsSigintOrEofReceived()
      ensures c == Returned(0) ==> t == Bye && grammar.byeLine(msg)
      ensures c == Returned(1) ==> t == Err && grammar.errLine(msg)
      ensures c == Returned(2) ==> WaitValid()
      ensures t == Unknown ==> c == Raised(Exception(UNKNOWN_TYPE))
      ensures t == Bye ==> c == (if grammar.byeLine(msg) then Returned(0) else Raised(Exception(MALFORMED_BYE)))
      ensures t == Err ==> c == (if grammar.errLine(msg) then Returned(1) else Raised(Exception(MALFORMED_ERR)))
      ensures t == Err && c == Returned(1) ==> shown == old(shown) + [msg]
      ensures (t == Msg || t == Reply) && !Accepts(old(state), t) ==>
        c == Raised(Exception(UnexpectedIn(old(state))))
      ensures t == Msg && Accepts(old(state), Msg) ==>
        && c == (if grammar.msgLine(msg) then Returned(2) else Raised(Exception(MALFORMED_MSG)))
        && (c == Returned(2) ==> shown == old(shown) + [msg] && state == old(state))
      ensures t == Reply && Accepts(old(state), Reply) ==>
        && (c == Returned(2) <==> old(waitingForReply) && IsValidReply(grammar, msg))
        && (c == Returned(2) ==> shown == old(shown) + [msg] && !waitingForReply)
      ensures state != old(state) ==>
        && t == Reply && c == Returned(2) && state == OpenState
        && (old(state) == JoinState || ParseReply(msg).value.positive)
    {
      if t == Unknown {
        var e := SendErrMsgAndTerminate(UNKNOWN_TYPE);
        return Raised(e);
      }
      if t == Bye {
        var thrown := ProcessServerByeMsg(msg);
        if thrown.Some? {
          return Raised(thrown.value);
        }
        return Returned(0);
      }
      if t == Err {
        var thrown := ProcessServerErrMsg(msg);
        if thrown.Some? {
          return Raised(thrown.value);
        }
        return Returned(1);
      }
      if !Accepts(state, t) {
        var e := SendErrMsgAndTerminate(UnexpectedIn(state));
        return Raised(e);
      }
      var thrown: Option<Exception>;
      if t == Reply {
        thrown := ProcessServerReplyMsg(msg);
      } else {
        thrown := ProcessServerMsgMsg(msg);
      }
      if thrown.Some? {
        return Raised(thrown.value);
      }
      return Returned(2);
    }

    /** One read from the socket. A failed read ends the client with an ERR
        and an empty read (the server closed the connection) ends it
        successfully. Otherwise the chunk is appended to the buffer and the
        buffered messages are dispatched; a remainder that reaches
        MAX_MSG_SIZE ends the client with an ERR. When the session goes on, the
        messages dispatched are exactly those framed from the old buffer
        followed by the chunk, and what is left buffered is the rest. */
    method ProcessSocketEvent(r: TcpRecv) returns (c: Completion)
      requires Valid()
      modifies this`state, this`msgToServer, this`sent, this`shown, this`stdinEnabled, this`timer,
        this`waitingForReply, this`buffer, this`dispatched
      ensures ServerStep(old(state), state)
      ensures c.Returned? ==> c.code in {0, 1, 2} && sent == old(sent)
      ensures c.Raised? ==> Terminated(old(sent), c.e, c.e.What()) && !c.e.IsSigintOrEofReceived()
      ensures r.RecvFailed? ==> c == Raised(Exception(RECV_FAILED))
      ensures r == Received([]) ==> c == Returned(0) && unchanged(this)
      ensures r.Received? ==>
        var f := Frames(old(buffer) + r.data);
        && |old(dispatched)| <= |dispatched|
        && dispatched[..|old(dispatched)|] == old(dispatched)
        && IsPrefix(dispatched[|old(dispatched)|..], f.messages)
        && (c == Returned(2) ==>
             && Valid() && dispatched == old(dispatched) + f.messages && buffer == f.rest
             && forall i :: 0 <= i < |f.messages| ==> |f.messages[i]| <= MAX_MSG_SIZE)
      ensures c.Returned? && c.code < 2 && r != Received([]) ==>
        && r.Received? && |dispatched| > |old(dispatched)|
        && GetServerMsgType(dispatched[|dispatched| - 1]) == (if c.code == 0 then Bye else Err)
    {
      if r.RecvFailed? {
        var e := SendErrMsgAndTerminate(RECV_FAILED);
        return Raised(e);
      }
      if r.data == [] {
        return Returned(0);
      }
      buffer := buffer + r.data;
      ghost var cut;
      c, cut := DispatchBuffered();
      dispatched := dispatched + cut;
      DropAppend(old(dispatched), cut);
      if c == Returned(2) && |buffer| >= MAX_MSG_SIZE {
        var e := SendErrMsgAndTerminate(TOO_LONG);
        return Raised(e);
      }
    }

    /** The loop over the buffer: the first message is handled again and
        again until no terminator is left or a message ends the session. The
        messages handled are a prefix of the framing of the buffer, and all
        of them when the session goes on. */
    method DispatchBuffered() returns (c: Completion, ghost cut: seq<string>)
      requires WaitValid()
      modifies this`state, this`msgToServer, this`sent, this`shown, this`stdinEnabled, this`timer,
        this`waitingForReply, this`buffer
      ensures ServerStep(old(state), state)
      ensures c.Returned? ==> c.code in {0, 1, 2} && sent == old(sent)
      ensures c.Raised? ==> Terminated(old(sent), c.e, c.e.What()) && !c.e.IsSigintOrEofReceived()
      ensures IsPrefix(cut, Frames(old(buffer)).messages)
      ensures c == Returned(2) ==>
        && WaitValid() && NoCrlf(buffer)
        && cut == Frames(old(buffer)).messages && buffer == Frames(old(buffer)).rest
        && forall i :: 0 <= i < |cut| ==> |cut[i]| <= MAX_MSG_SIZE
      ensures c.Returned? && c.code < 2 ==>
        |cut| > 0 && GetServerMsgType(cut[|cut| - 1]) == (if c.code == 0 then Bye else Err)
    {
      ghost var stream := buffer;
      cut := [];
      c := Returned(2);
      while FindCrlf(buffer).Some?
        invariant c == Returned(2) && WaitValid() && ServerStep(old(state), state) && sent == old(sent)
        invariant Frames(stream) == Split(cut + Frames(buffer).messages, Frames(buffer).rest)
        invariant forall i :: 0 <= i < |cut| ==> |cut[i]| <= MAX_MSG_SIZE
        decreases |buffer|
      {
        ghost var b := buffer;
        var single;
        c, single := ProcessFirstMessage();
        if |single| > MAX_MSG_SIZE {
          PrefixOfAppend(cut, Frames(b).messages);
          return;
        }
        CutStep(stream, cut, b, FindCrlf(b).value);
        cut := cut + [single];
        if c != Returned(2) {
          PrefixOfAppend(cut, Frames(b[|single|..]).messages);
          return;
        }
      }
      FramesOfPartial(buffer);
      AppendEmpty(cut);
      PrefixOfAppend(cut, []);
    }

    /** One turn of the loop: the message up to the first terminator is cut
        off the buffer; a message longer than MAX_MSG_SIZE ends the client
        with an ERR, any other is dispatched, and it leaves the buffer only
        when the session goes on. */
    method ProcessFirstMessage() returns (c: Completion, single: string)
      requires WaitValid() && FindCrlf(buffer).Some?
      modifies this`state, this`msgToServer, this`sent, this`shown, this`stdinEnabled, this`timer,
        this`waitingForReply, this`buffer
      ensures single == old(buffer)[..FindCrlf(old(buffer)).value + BYTES_IN_END_OF_MESSAGE]
      ensures ServerStep(old(state), state)
      ensures c.Returned? ==> c.code in {0, 1, 2} && sent == old(sent)
      ensures c.Raised? ==> Terminated(old(sent), c.e, c.e.What()) && !c.e.IsSigintOrEofReceived()
      ensures |single| > MAX_MSG_SIZE ==> c == Raised(Exception(TOO_LONG))
      ensures c == Returned(2) ==> WaitValid() && buffer == old(buffer)[|single|..]
      ensures c.Returned? && c.code < 2 ==> GetServerMsgType(single) == (if c.code == 0 then Bye else Err)
    {
      var end := FindCrlf(buffer).value;
      single := buffer[..end + BYTES_IN_END_OF_MESSAGE];
      if |single| > MAX_MSG_SIZE {
        var e := SendErrMsgAndTerminate(TOO_LONG);
        return Raised(e), single;
      }
      FirstMessageIsFrame(buffer, end);
      c := ProcessMessageFromServer(single);
      if c == Returned(2) {
        buffer := buffer[end + BYTES_IN_END_OF_MESSAGE..];
      }
    }
  }
}
