/**
 * The UDP variant of the IPK25-CHAT client: the message it is about to send
 * and its 16-bit ID counter, the confirmation and reply waits with their
 * retransmission budget, the bitset of server message IDs already confirmed,
 * and the finite-state machine START -> AUTH -> OPEN <-> JOIN. Each event
 * handler of the client is a method; sends are appended to `sent`, the log
 * of datagrams handed to the socket.
 */
module UdpClient {
  import opened Protocol
  import opened UdpCodec
  import opened ClientException

  /** The field-syntax checks the client delegates to regular expressions
      over character classes it does not define here, together with the
      display-name and content length checks applied to their captures:
      the body of a BYE (name NUL), of a MSG or ERR (name NUL content NUL)
      and the content of a REPLY (content NUL). */
  datatype UdpGrammar = UdpGrammar(
    byeBody: seq<byte> -> bool,
    textBody: seq<byte> -> bool,
    replyContent: seq<byte> -> bool)

  /** The bytes of a text written in the source as a C string. */
  function Ascii(s: string): (r: seq<byte>)
    ensures |r| == |s| && forall i :: 0 <= i < |s| ==> r[i] as int == s[i] as int % 256
  {
    seq(|s|, i requires 0 <= i < |s| => (s[i] as int % 256) as byte)
  }

  /** The datagram that carries a user command, with the sender's display
      name (for /auth, the one the command sets). */
  function EncodeCommand(id: u16, cmd: Command<seq<byte>>, displayName: seq<byte>): seq<byte>
  {
    match cmd
    case AuthCmd(username, secret, _) => EncodeAuth(id, username, displayName, secret)
    case JoinCmd(channelId) => EncodeJoin(id, channelId, displayName)
    case MsgCmd(content) => EncodeMsg(id, displayName, content)
  }

  /** The byte at index 0 of a received or stored message; an empty string
      yields its terminating NUL there. */
  function TypeByte(msg: seq<byte>): (b: byte)
    ensures |msg| > 0 ==> b == msg[0]
    ensures |msg| == 0 ==> b == 0
  {
    if |msg| == 0 then 0 else msg[0]
  }

  /** A received message is of type `t` when its first byte is t's code. */
  predicate IsOfType(msg: seq<byte>, t: MsgType)
    requires t != Unknown
  {
    TypeByte(msg) == CodeByte(t)
  }

  predicate IsValidConfirmMsg(msg: seq<byte>) {
    IsOfType(msg, Confirm) && IsValidConfirmMsgLength(|msg|)
  }

  predicate IsValidByeMsg(g: UdpGrammar, msg: seq<byte>) {
    IsValidByeMsgLength(|msg|) && IsOfType(msg, Bye) && g.byeBody(msg[BYTES_IN_MSG_HEADER..])
  }

  predicate IsValidErrMsg(g: UdpGrammar, msg: seq<byte>) {
    IsValidErrMsgLength(|msg|) && IsOfType(msg, Err) && g.textBody(msg[BYTES_IN_MSG_HEADER..])
  }

  predicate IsValidMsgMsg(g: UdpGrammar, msg: seq<byte>) {
    IsValidMsgMsgLength(|msg|) && IsOfType(msg, Msg) && g.textBody(msg[BYTES_IN_MSG_HEADER..])
  }

  predicate IsValidReplyMsg(g: UdpGrammar, msg: seq<byte>) {
    && IsValidReplyMsgLength(|msg|) && IsOfType(msg, Reply)
    && IsValidReplyMsgResult(msg[BYTES_IN_MSG_HEADER])
    && g.replyContent(msg[BYTES_IN_MSG_HEADER + BYTES_IN_REPLY_RESULT + BYTES_IN_MSG_ID..])
  }

  /** The state changes the UDP client can make: START to AUTH, AUTH to OPEN,
      OPEN to JOIN and JOIN to OPEN. */
  predicate UdpStep(s: FsmState, t: FsmState) {
    || s == t
    || (s == StartState && t == AuthState)
    || (s == AuthState && t == OpenState)
    || (s == OpenState && t == JoinState)
    || (s == JoinState && t == OpenState)
  }

  /** Once left, START is never entered again, whatever the sequence of steps. */
  lemma UdpStartNeverReentered(states: seq<FsmState>)
    requires |states| >= 1 && states[0] != StartState
    requires forall i :: 0 <= i < |states| - 1 ==> UdpStep(states[i], states[i + 1])
    ensures forall i :: 0 <= i < |states| ==> states[i] != StartState
  {
    StartNeverReentered(states);
  }

  /** Texts of the exceptions the client throws and of the ERR messages it sends. */
  const RETRANSMISSIONS_EXCEEDED: string := "exceeded udp max retransmission number."
  const REPLY_TIMED_OUT: string := "ERROR: waited too long for the server's reply."
  const TIMER_NOT_EXPECTED: string := "timer event, but m_is_waiting_for_confirm and m_is_waiting_for_reply are false."
  const MALFORMED_CONFIRM: string := "ERROR: received a malformed CONFIRM message from the server."
  const REPLY_IN_UNEXPECTED_STATE: string := "ERROR: received a REPLY message in unexpected state."
  const MALFORMED_REPLY: string := "ERROR: received a malformed REPLY message from the server."
  const MALFORMED_MSG: string := "ERROR: received a malformed MSG message from the server."
  const MALFORMED_PING: string := "ERROR: received a malformed PING message from the server."
  const MALFORMED_BYE: string := "ERROR: received a malformed BYE message from the server."
  const MALFORMED_ERR: string := "ERROR: received a malformed ERR message from the server."
  const UNEXPECTED_IN_AUTH: string := "ERROR: only messages of types BYE, ERR, CONFIRM, PING and REPLY are expected to be received"
    + " from the server in the client's AUTH state."
  const UNEXPECTED_IN_OPEN: string := "ERROR: only messages of types BYE, ERR, CONFIRM, PING, JOIN and MSG are expected to be received"
    + " from the server in the client's OPEN state."
  const UNEXPECTED_IN_JOIN: string := "ERROR: only messages of types BYE, ERR, CONFIRM, PING, REPLY and MSG are expected to be received"
    + " from the server in the client's JOIN state."
  const UNEXPECTED_IN_START: string := "ERROR: only messages of types BYE, ERR or CONFIRM are expected to be received"
    + " from the server in the client's START state."
  const RECV_FAILED: string := "ERROR: couldn't receive a message from the server: recv() has failed."
  const DATAGRAM_TOO_LONG: string := "ERROR: too long message from server."

  /** What a datagram read from the socket amounts to. */
  datatype RecvResult = RecvFailed | Datagram(bytes: seq<byte>, from: Addr)

  /** A socket address, compared only for equality. */
  type Addr = nat

  const MAX_SERVER_MSG_ID := 0xFFFF

  class UdpClient {
    /** Field-syntax checks of received messages. */
    const grammar: UdpGrammar
    /** The configured retransmission budget and confirmation timeout (ms). */
    const maxRetransmissions: nat
    const confirmTimeoutMs: nat
    /** One slot per 16-bit ID: the server messages this client has confirmed. */
    const confirmed: array<bool>

    var state: FsmState
    var displayName: seq<byte>
    var waitingForReply: bool
    var waitingForConfirm: bool
    var waitingForByeConfirm: bool
    var allowedRetransmissions: nat
    var msgToServerId: u16
    /** The last message built for the server, kept for retransmission. */
    var msgToServer: seq<byte>
    /** Datagrams handed to the socket, in order. */
    var sent: seq<seq<byte>>
    /** Server MSG, ERR and REPLY messages shown to the user, in order. */
    var shown: seq<seq<byte>>
    var stdinEnabled: bool
    var timer: Timer
    /** Where messages to the server go; rebound to the sender of the REPLY
        received in AUTH (the server answers from a dynamic port). */
    var serverAddr: Addr
    /** How many times the current `msgToServer` has been sent. */
    ghost var timesSent: nat

    /** The type byte of the outstanding message. */
    function OutType(): byte
      reads this
    {
      TypeByte(msgToServer)
    }

    ghost predicate Valid()
      reads this
    {
      && confirmed.Length == MAX_SERVER_MSG_ID + 1
      && maxRetransmissions < 256
      && allowedRetransmissions <= maxRetransmissions
      && timesSent <= 1 + maxRetransmissions
      && ((waitingForConfirm || waitingForByeConfirm) ==>
            timesSent + allowedRetransmissions <= 1 + maxRetransmissions)
      && (waitingForByeConfirm ==>
            (OutType() == CodeByte(Bye) || OutType() == CodeByte(Err)) && !waitingForReply && !stdinEnabled)
    }

    /** The state an ERR report leaves: an ERR with `text` under the ID after
        `id` is outstanding, only its confirmation is awaited, on the
        confirmation timer, and standard input is paused. */
    predicate ErrPending(id: u16, text: string)
      reads this
    {
      && msgToServerId == NextMsgId(id)
      && msgToServer == EncodeErr(msgToServerId, displayName, Ascii(text))
      && waitingForConfirm && !waitingForReply
      && !stdinEnabled && timer == Armed(confirmTimeoutMs)
    }

    /** The state a goodbye leaves: a BYE under the ID after `id` is
        outstanding, only its confirmation is awaited, with the full
        retransmission budget and on the confirmation timer, and standard
        input is paused. */
    predicate ByePending(id: u16)
      reads this
    {
      && msgToServerId == NextMsgId(id)
      && msgToServer == EncodeBye(msgToServerId, displayName)
      && !waitingForConfirm && !waitingForReply && waitingForByeConfirm
      && allowedRetransmissions == maxRetransmissions
      && !stdinEnabled && timer == Armed(confirmTimeoutMs)
    }

    /** The outstanding message, its ID, the waits, the timer and standard
        input are as they were. */
    twostate predicate OutstandingKept()
      reads this
    {
      && msgToServer == old(msgToServer) && msgToServerId == old(msgToServerId)
      && waitingForConfirm == old(waitingForConfirm) && waitingForReply == old(waitingForReply)
      && stdinEnabled == old(stdinEnabled) && timer == old(timer)
    }

    constructor (grammar: UdpGrammar, maxRetransmissions: nat, confirmTimeoutMs: nat, serverAddr: Addr)
      requires maxRetransmissions < 256
      ensures Valid() && fresh(confirmed)
      ensures this.grammar == grammar && this.maxRetransmissions == maxRetransmissions
      ensures this.confirmTimeoutMs == confirmTimeoutMs && this.serverAddr == serverAddr
      ensures state == INITIAL_STATE && displayName == Ascii(DEFAULT_DISPLAY_NAME)
      ensures msgToServerId == 0 && allowedRetransmissions == maxRetransmissions
      ensures !waitingForReply && !waitingForConfirm && !waitingForByeConfirm
      ensures msgToServer == [] && sent == [] && shown == []
      ensures stdinEnabled && timer == Stopped
      ensures forall i :: 0 <= i < confirmed.Length ==> !confirmed[i]
    {
      this.grammar := grammar;
      this.maxRetransmissions := maxRetransmissions;
      this.confirmTimeoutMs := confirmTimeoutMs;
      this.serverAddr := serverAddr;
      confirmed := new bool[MAX_SERVER_MSG_ID + 1](_ => false);
      state := INITIAL_STATE;
      displayName := Ascii(DEFAULT_DISPLAY_NAME);
      waitingForReply, waitingForConfirm, waitingForByeConfirm := false, false, false;
      allowedRetransmissions := maxRetransmissions;
      msgToServerId := 0;
      msgToServer, sent, shown := [], [], [];
      stdinEnabled, timer := true, Stopped;
      timesSent := 0;
    }

    // Builders. AUTH, JOIN and MSG carry the current ID; ERR and BYE first
    // advance the counter and carry the new ID.

    method BuildAuthMsg(username: seq<byte>, secret: seq<byte>)
      modifies this`msgToServer, this`timesSent
      ensures msgToServer == EncodeAuth(msgToServerId, username, displayName, secret) && timesSent == 0
    {
      msgToServer := EncodeAuth(msgToServerId, username, displayName, secret);
      timesSent := 0;
    }

    method BuildJoinMsg(channelId: seq<byte>)
      modifies this`msgToServer, this`timesSent
      ensures msgToServer == EncodeJoin(msgToServerId, channelId, displayName) && timesSent == 0
    {
      msgToServer := EncodeJoin(msgToServerId, channelId, displayName);
      timesSent := 0;
    }

    method BuildMsgMsg(content: seq<byte>)
      modifies this`msgToServer, this`timesSent
      ensures msgToServer == EncodeMsg(msgToServerId, displayName, content) && timesSent == 0
    {
      msgToServer := EncodeMsg(msgToServerId, displayName, content);
      timesSent := 0;
    }

    method BuildErrMsg(content: seq<byte>)
      modifies this`msgToServer, this`msgToServerId, this`timesSent
      ensures msgToServerId == NextMsgId(old(msgToServerId))
      ensures msgToServer == EncodeErr(msgToServerId, displayName, content) && timesSent == 0
    {
      msgToServerId := NextMsgId(msgToServerId);
      msgToServer := EncodeErr(msgToServerId, displayName, content);
      timesSent := 0;
    }

    method BuildByeMsg()
      modifies this`msgToServer, this`msgToServerId, this`timesSent
      ensures msgToServerId == NextMsgId(old(msgToServerId))
      ensures msgToServer == EncodeBye(msgToServerId, displayName) && timesSent == 0
    {
      msgToServerId := NextMsgId(msgToServerId);
      msgToServer := EncodeBye(msgToServerId, displayName);
      timesSent := 0;
    }

    /** Builds the message for a command the user sends. */
    method BuildUserMsgToServer(cmd: Command<seq<byte>>)
      modifies this`msgToServer, this`timesSent
      ensures msgToServer == EncodeCommand(msgToServerId, cmd, displayName) && timesSent == 0
    {
      match cmd
      case AuthCmd(username, secret, _) => BuildAuthMsg(username, secret);
      case JoinCmd(channelId) => BuildJoinMsg(channelId);
      case MsgCmd(content) => BuildMsgMsg(content);
    }

    /** Hands the outstanding message to the socket. */
    method SendMsgToServer()
      modifies this`sent, this`timesSent
      ensures sent == old(sent) + [msgToServer] && timesSent == old(timesSent) + 1
    {
      sent := sent + [msgToServer];
      timesSent := timesSent + 1;
    }

    /** Confirms a server message and records its ID as confirmed. */
    method SendConfirmMsg(refId: u16)
      requires Valid()
      modifies this`sent, confirmed
      ensures Valid()
      ensures sent == old(sent) + [EncodeConfirm(refId)]
      ensures forall i :: 0 <= i < confirmed.Length ==> confirmed[i] == (i == refId || old(confirmed[i]))
    {
      sent := sent + [EncodeConfirm(refId)];
      confirmed[refId] := true;
    }

    /** Reports an error to the server and waits for its confirmation. */
    method SendErrMsg(text: string)
      requires Valid()
      modifies this`msgToServer, this`msgToServerId, this`timesSent, this`sent, this`stdinEnabled,
        this`timer, this`waitingForConfirm, this`waitingForReply
      ensures Valid() && ErrPending(old(msgToServerId), text)
      ensures sent == old(sent) + [msgToServer] && timesSent == 1
    {
      BuildErrMsg(Ascii(text));
      SendMsgToServer();
      stdinEnabled := false;
      timer := Armed(confirmTimeoutMs);
      waitingForConfirm := true;
      waitingForReply := false;
    }

    /** Says goodbye to the server and waits for the BYE to be confirmed, with
      a fresh retransmission budget. */
    method SendByeMsgToServer()
      requires Valid()
      modifies this`msgToServer, this`msgToServerId, this`timesSent, this`sent, this`stdinEnabled,
        this`timer, this`waitingForConfirm, this`waitingForReply, this`waitingForByeConfirm,
        this`allowedRetransmissions
      ensures Valid() && ByePending(old(msgToServerId))
      ensures sent == old(sent) + [msgToServer] && timesSent == 1
    {
      BuildByeMsg();
      SendMsgToServer();
      stdinEnabled := false;
      timer := Armed(confirmTimeoutMs);
      waitingForConfirm := false;
      waitingForReply := false;
      waitingForByeConfirm := true;
      allowedRetransmissions := maxRetransmissions;
    }

    /** SIGINT: say goodbye. */
    method SigintHandler()
      requires Valid()
      modifies this`msgToServer, this`msgToServerId, this`timesSent, this`sent, this`stdinEnabled,
        this`timer, this`waitingForConfirm, this`waitingForReply, this`waitingForByeConfirm,
        this`allowedRetransmissions
      ensures Valid() && ByePending(old(msgToServerId))
      ensures sent == old(sent) + [msgToServer]
    {
      SendByeMsgToServer();
    }

    /** Sends a command typed by the user and waits for its confirmation
        (and, for /auth and /join, for the REPLY); /auth in START enters AUTH. */
    method SendUserCommand(cmd: Command<seq<byte>>)
      requires Valid() && stdinEnabled
      modifies this`displayName, this`msgToServer, this`timesSent, this`sent, this`state, this`stdinEnabled,
        this`waitingForConfirm, this`waitingForReply, this`timer
      ensures Valid()
      ensures displayName == (if cmd.AuthCmd? then cmd.displayName else old(displayName))
      ensures msgToServer == EncodeCommand(msgToServerId, cmd, displayName)
      ensures sent == old(sent) + [msgToServer]
      ensures state == (if cmd.AuthCmd? && old(state) == StartState then AuthState else old(state))
      ensures waitingForConfirm && waitingForReply == cmd.ExpectsReply()
      ensures !stdinEnabled && timer == Armed(confirmTimeoutMs)
    {
      if cmd.AuthCmd? {
        displayName := cmd.displayName;
      }
      BuildUserMsgToServer(cmd);
      SendMsgToServer();
      AwaitConfirmation(cmd);
    }

    /** After a user command went out: /auth in START enters AUTH, standard
        input pauses and the confirmation timer runs. */
    method AwaitConfirmation(cmd: Command<seq<byte>>)
      modifies this`state, this`stdinEnabled, this`waitingForConfirm, this`waitingForReply, this`timer
      ensures state == (if cmd.AuthCmd? && old(state) == StartState then AuthState else old(state))
      ensures waitingForConfirm && waitingForReply == cmd.ExpectsReply()
      ensures !stdinEnabled && timer == Armed(confirmTimeoutMs)
    {
      if cmd.AuthCmd? && state == StartState {
        state := AuthState;
      }
      stdinEnabled := false;
      waitingForConfirm := true;
      waitingForReply := cmd.ExpectsReply();
      timer := Armed(confirmTimeoutMs);
    }

    /** A line (or a hang-up, or an error) on standard input. Standard input
        is read only while its events are enabled. */
    method ProcessStdinEvent(ev: StdinEvent<seq<byte>>) returns (thrown: Option<Exception>)
      requires Valid() && stdinEnabled
      modifies this`displayName, this`state, this`msgToServer, this`msgToServerId, this`timesSent, this`sent, this`stdinEnabled,
        this`timer, this`waitingForConfirm, this`waitingForReply, this`waitingForByeConfirm,
        this`allowedRetransmissions
      ensures Valid() && UdpStep(old(state), state)
      ensures thrown.Some? <==> ev.StdinError?
      ensures thrown.Some? ==> thrown.value == Exception(STDIN_ERROR)
      ensures ev.Hangup? ==>
        && ByePending(old(msgToServerId)) && sent == old(sent) + [msgToServer]
        && state == old(state) && displayName == old(displayName)
      ensures ev.StdinError? || ev.Skipped? ==> unchanged(this)
      ensures ev.Send? ==>
        && msgToServerId == old(msgToServerId) && waitingForByeConfirm == old(waitingForByeConfirm)
        && allowedRetransmissions == old(allowedRetransmissions)
        && displayName == (if ev.cmd.AuthCmd? then ev.cmd.displayName else old(displayName))
        && msgToServer == EncodeCommand(msgToServerId, ev.cmd, displayName)
        && sent == old(sent) + [msgToServer]
        && state == (if ev.cmd.AuthCmd? && old(state) == StartState then AuthState else old(state))
        && waitingForConfirm && waitingForReply == ev.cmd.ExpectsReply()
        && !stdinEnabled && timer == Armed(confirmTimeoutMs)
    {
      match ev
      case Hangup =>
        SendByeMsgToServer();
        return None;
      case StdinError =>
        return Some(Exception(STDIN_ERROR));
      case Skipped =>
        return None;
      case Send(cmd) =>
        SendUserCommand(cmd);
        return None;
    }

    /** The confirmation or reply timer expired: retransmit while the budget
        lasts, give up on a missing reply with an ERR. */
    method ProcessTimerEvent() returns (thrown: Option<Exception>)
      requires Valid()
      modifies this`msgToServer, this`msgToServerId, this`timesSent, this`sent, this`stdinEnabled,
        this`timer, this`waitingForConfirm, this`waitingForReply, this`allowedRetransmissions
      ensures Valid() && state == old(state)
      ensures old(waitingForConfirm || waitingForByeConfirm) ==>
        if old(allowedRetransmissions) == 0 then
          thrown == Some(Exception(RETRANSMISSIONS_EXCEEDED)) && unchanged(this)
        else
          && thrown.None? && sent == old(sent) + [old(msgToServer)] && msgToServer == old(msgToServer)
          && msgToServerId == old(msgToServerId) && waitingForReply == old(waitingForReply)
          && waitingForConfirm == old(waitingForConfirm) && stdinEnabled == old(stdinEnabled)
          && allowedRetransmissions == old(allowedRetransmissions) - 1
          && timesSent == old(timesSent) + 1 && timer == Armed(confirmTimeoutMs)
      ensures !old(waitingForConfirm || waitingForByeConfirm) && old(waitingForReply) ==>
        && thrown.None? && ErrPending(old(msgToServerId), REPLY_TIMED_OUT)
        && sent == old(sent) + [msgToServer] && allowedRetransmissions == old(allowedRetransmissions)
      ensures !old(waitingForConfirm || waitingForByeConfirm || waitingForReply) ==>
        thrown == Some(Exception(TIMER_NOT_EXPECTED)) && unchanged(this)
      ensures timesSent <= 1 + maxRetransmissions
    {
      if waitingForConfirm || waitingForByeConfirm {
        if allowedRetransmissions == 0 {
          return Some(Exception(RETRANSMISSIONS_EXCEEDED));
        }
        SendMsgToServer();
        timer := Armed(confirmTimeoutMs);
        allowedRetransmissions := allowedRetransmissions - 1;
        return None;
      } else if waitingForReply {
        SendErrMsg(REPLY_TIMED_OUT);
        return None;
      }
      return Some(Exception(TIMER_NOT_EXPECTED));
    }

    /** The server confirmed the outstanding message, which is neither a BYE
        nor an ERR: a confirmed AUTH (in AUTH) or JOIN (in OPEN) starts the
        wait for the REPLY, a confirmed MSG (in OPEN) re-enables standard
        input; each of these advances the message ID and restores the
        retransmission budget. Nothing else changes anything. */
    method ConfirmOutstanding()
      requires Valid() && OutType() != CodeByte(Bye) && OutType() != CodeByte(Err)
      modifies this`waitingForConfirm, this`waitingForReply, this`allowedRetransmissions, this`msgToServerId,
        this`timer, this`stdinEnabled, this`state
      ensures Valid()
      ensures state == (if old(state) == OpenState && OutType() == CodeByte(Join) then JoinState else old(state))
      ensures (old(state) == AuthState && OutType() == CodeByte(Auth)) || (old(state) == OpenState && OutType() == CodeByte(Join)) ==>
        && !waitingForConfirm && waitingForReply && allowedRetransmissions == maxRetransmissions
        && msgToServerId == NextMsgId(old(msgToServerId)) && timer == Armed(REPLY_WAIT_MS)
        && stdinEnabled == old(stdinEnabled)
      ensures old(state) == OpenState && OutType() == CodeByte(Msg) ==>
        && !waitingForConfirm && waitingForReply == old(waitingForReply) && allowedRetransmissions == maxRetransmissions
        && msgToServerId == NextMsgId(old(msgToServerId)) && timer == Stopped && stdinEnabled
      ensures !(old(state) == AuthState && OutType() == CodeByte(Auth))
              && !(old(state) == OpenState && (OutType() == CodeByte(Join) || OutType() == CodeByte(Msg))) ==>
        && waitingForConfirm == old(waitingForConfirm) && waitingForReply == old(waitingForReply)
        && allowedRetransmissions == old(allowedRetransmissions) && msgToServerId == old(msgToServerId)
        && timer == old(timer) && stdinEnabled == old(stdinEnabled)
    {
      match state
      case StartState =>
      case AuthState =>
        if OutType() == CodeByte(Auth) {
          waitingForConfirm := false;
          waitingForReply := true;
          allowedRetransmissions := maxRetransmissions;
          msgToServerId := NextMsgId(msgToServerId);
          timer := Armed(REPLY_WAIT_MS);
        }
      case OpenState =>
        if OutType() == CodeByte(Msg) {
          timer := Stopped;
          waitingForConfirm := false;
          allowedRetransmissions := maxRetransmissions;
          msgToServerId := NextMsgId(msgToServerId);
          stdinEnabled := true;
        } else if OutType() == CodeByte(Join) {
          waitingForConfirm := false;
          waitingForReply := true;
          allowedRetransmissions := maxRetransmissions;
          msgToServerId := NextMsgId(msgToServerId);
          state := JoinState;
          timer := Armed(REPLY_WAIT_MS);
        }
      case JoinState =>
    }

    /** A CONFIRM from the server. Only one that refers to the outstanding
        message has an effect: for a BYE the session ends successfully (0),
        for an ERR with an error (1); otherwise it keeps running (2). */
    method ProcessServerConfirmMsg(msg: seq<byte>) returns (code: nat)
      requires Valid()
      modifies this`msgToServer, this`msgToServerId, this`timesSent, this`sent, this`stdinEnabled,
        this`timer, this`waitingForConfirm, this`waitingForReply,
        this`allowedRetransmissions, this`state
      ensures Valid() && UdpStep(old(state), state)
      ensures code in {0, 1, 2}
      ensures !IsValidConfirmMsg(msg) ==>
        && code == 2 && state == old(state) && sent == old(sent) + [msgToServer]
        && ErrPending(old(msgToServerId), MALFORMED_CONFIRM) && allowedRetransmissions == old(allowedRetransmissions)
      ensures IsValidConfirmMsg(msg) && GetMsgId(msg) != old(msgToServerId) ==> code == 2 && unchanged(this)
      ensures IsValidConfirmMsg(msg) && GetMsgId(msg) == old(msgToServerId) ==>
        && sent == old(sent) && msgToServer == old(msgToServer)
        && (code == 0 <==> old(OutType()) == CodeByte(Bye))
        && (code == 1 <==> old(OutType()) == CodeByte(Err))
      ensures code != 2 ==> unchanged(this)
      ensures state != old(state) ==>
        && old(state) == OpenState && state == JoinState
        && IsValidConfirmMsg(msg) && GetMsgId(msg) == old(msgToServerId)
        && old(OutType()) == CodeByte(Join)
      ensures IsValidConfirmMsg(msg) && GetMsgId(msg) == old(msgToServerId)
              && ((old(state) == AuthState && OutType() == CodeByte(Auth))
                  || (old(state) == OpenState && OutType() == CodeByte(Join))) ==>
        && code == 2 && !waitingForConfirm && waitingForReply && allowedRetransmissions == maxRetransmissions
        && msgToServerId == NextMsgId(old(msgToServerId)) && timer == Armed(REPLY_WAIT_MS)
        && stdinEnabled == old(stdinEnabled)
      ensures IsValidConfirmMsg(msg) && GetMsgId(msg) == old(msgToServerId)
              && old(state) == OpenState && OutType() == CodeByte(Msg) ==>
        && code == 2 && !waitingForConfirm && waitingForReply == old(waitingForReply)
        && allowedRetransmissions == maxRetransmissions
        && msgToServerId == NextMsgId(old(msgToServerId)) && timer == Stopped && stdinEnabled
      ensures IsValidConfirmMsg(msg) && GetMsgId(msg) == old(msgToServerId)
              && !(old(state) == AuthState && OutType() == CodeByte(Auth))
              && !(old(state) == OpenState && (OutType() == CodeByte(Join) || OutType() == CodeByte(Msg))) ==>
        unchanged(this)
    {
      if IsValidConfirmMsg(msg) {
        if GetMsgId(msg) == msgToServerId {
          if OutType() == CodeByte(Bye) {
            return 0;
          }
          if OutType() == CodeByte(Err) {
            return 1;
          }
          ConfirmOutstanding();
        }
        return 2;
      }
      SendErrMsg(MALFORMED_CONFIRM);
      return 2;
    }

    /** Whether a REPLY answers the outstanding request (with the corrected
        16-bit comparison of the reference ID). */
    predicate AnswersRequest(msg: seq<byte>)
      reads this
    {
      && IsValidReplyMsg(grammar, msg) && waitingForReply
      && RefMatches(msgToServerId, GetRefMsgId(msg))
    }

    /** Takes a REPLY that answers the outstanding request: stops the timer,
        shows it unless its ID was confirmed before, confirms it, and enters
        OPEN from JOIN, or from AUTH when the result is positive. */
    method AcceptReply(msg: seq<byte>)
      requires Valid() && AnswersRequest(msg) && (state == AuthState || state == JoinState)
      modifies this`timer, this`shown, this`sent, this`state, this`waitingForReply, this`stdinEnabled, confirmed
      ensures Valid()
      ensures sent == old(sent) + [EncodeConfirm(GetMsgId(msg))]
      ensures forall i :: 0 <= i < confirmed.Length ==> confirmed[i] == (i == GetMsgId(msg) || old(confirmed[i]))
      ensures shown == (if old(confirmed[GetMsgId(msg)]) then old(shown) else old(shown) + [msg])
      ensures state == (if old(state) == JoinState || msg[BYTES_IN_MSG_HEADER] != 0 then OpenState else old(state))
      ensures !waitingForReply && stdinEnabled && timer == Stopped
    {
      timer := Stopped;
      var replyMsgId := GetMsgId(msg);
      if !confirmed[replyMsgId] {
        shown := shown + [msg];
      }
      SendConfirmMsg(replyMsgId);
      if state == JoinState || msg[BYTES_IN_MSG_HEADER] != 0 {
        state := OpenState;
      }
      waitingForReply := false;
      stdinEnabled := true;
    }

    /** A REPLY from the server: accepted only in AUTH or JOIN, only while a
        reply is awaited, and only when it refers to the request. */
    method ProcessServerReplyMsg(msg: seq<byte>, from: Addr)
      requires Valid()
      modifies this`msgToServer, this`msgToServerId, this`timesSent, this`sent, this`stdinEnabled,
        this`timer, this`waitingForConfirm, this`waitingForReply, this`shown, this`state, this`serverAddr, confirmed
      ensures Valid() && UdpStep(old(state), state)
      ensures old(state) != AuthState && old(state) != JoinState ==>
        && state == old(state) && sent == old(sent) + [msgToServer]
        && ErrPending(old(msgToServerId), REPLY_IN_UNEXPECTED_STATE) && shown == old(shown) && unchanged(confirmed)
      ensures (old(state) == AuthState || old(state) == JoinState) && !IsValidReplyMsg(grammar, msg) ==>
        && state == old(state) && sent == old(sent) + [msgToServer]
        && ErrPending(old(msgToServerId), MALFORMED_REPLY) && shown == old(shown) && unchanged(confirmed)
      ensures (old(state) == AuthState || old(state) == JoinState) && IsValidReplyMsg(grammar, msg)
              && !old(AnswersRequest(msg)) ==>
        && sent == old(sent) && shown == old(shown) && state == old(state)
        && OutstandingKept() && unchanged(confirmed)
      ensures (old(state) == AuthState || old(state) == JoinState) && old(AnswersRequest(msg)) ==>
        && sent == old(sent) + [EncodeConfirm(GetMsgId(msg))]
        && confirmed[GetMsgId(msg)]
        && shown == (if old(confirmed[GetMsgId(msg)]) then old(shown) else old(shown) + [msg])
        && state == (if old(state) == JoinState || msg[BYTES_IN_MSG_HEADER] != 0 then OpenState else old(state))
        && !waitingForReply && stdinEnabled && timer == Stopped
        && msgToServer == old(msgToServer) && msgToServerId == old(msgToServerId)
        && waitingForConfirm == old(waitingForConfirm)
      ensures serverAddr == (if old(state) == AuthState && IsValidReplyMsg(grammar, msg) then from else old(serverAddr))
    {
      if state != AuthState && state != JoinState {
        SendErrMsg(REPLY_IN_UNEXPECTED_STATE);
        return;
      }
      if IsValidReplyMsg(grammar, msg) {
        if state == AuthState {
          serverAddr := from;
        }
        if waitingForReply && RefMatches(msgToServerId, GetRefMsgId(msg)) {
          AcceptReply(msg);
        }
        return;
      }
      SendErrMsg(MALFORMED_REPLY);
    }

    /** A MSG from the server: confirmed every time, shown only the first time
        its ID is seen. */
    method ProcessServerMsgMsg(msg: seq<byte>)
      requires Valid()
      modifies this`msgToServer, this`msgToServerId, this`timesSent, this`sent, this`stdinEnabled,
        this`timer, this`waitingForConfirm, this`waitingForReply, this`shown, confirmed
      ensures Valid() && state == old(state)
      ensures IsValidMsgMsg(grammar, msg) ==>
        && sent == old(sent) + [EncodeConfirm(GetMsgId(msg))]
        && (forall i :: 0 <= i < confirmed.Length ==> confirmed[i] == (i == GetMsgId(msg) || old(confirmed[i])))
        && shown == (if old(confirmed[GetMsgId(msg)]) then old(shown) else old(shown) + [msg])
        && OutstandingKept()
      ensures !IsValidMsgMsg(grammar, msg) ==>
        && sent == old(sent) + [msgToServer] && shown == old(shown)
        && ErrPending(old(msgToServerId), MALFORMED_MSG) && unchanged(confirmed)
    {
      if IsValidMsgMsg(grammar, msg) {
        var id := GetMsgId(msg);
        if !confirmed[id] {
          shown := shown + [msg];
        }
        SendConfirmMsg(id);
        return;
      }
      SendErrMsg(MALFORMED_MSG);
    }

    /** A PING is only confirmed. */
    method ProcessServerPingMsg(msg: seq<byte>)
      requires Valid()
      modifies this`msgToServer, this`msgToServerId, this`timesSent, this`sent, this`stdinEnabled,
        this`timer, this`waitingForConfirm, this`waitingForReply, confirmed
      ensures Valid()
      ensures IsValidPingMsgLength(|msg|) ==>
        && sent == old(sent) + [EncodeConfirm(GetMsgId(msg))]
        && (forall i :: 0 <= i < confirmed.Length ==> confirmed[i] == (i == GetMsgId(msg) || old(confirmed[i])))
        && OutstandingKept()
      ensures !IsValidPingMsgLength(|msg|) ==>
        && sent == old(sent) + [msgToServer]
        && ErrPending(old(msgToServerId), MALFORMED_PING) && unchanged(confirmed)
    {
      if IsValidPingMsgLength(|msg|) {
        SendConfirmMsg(GetMsgId(msg));
        return;
      }
      SendErrMsg(MALFORMED_PING);
    }

    /** A BYE from the server ends the session successfully once confirmed. */
    method ProcessServerByeMsg(msg: seq<byte>) returns (code: nat)
      requires Valid()
      modifies this`msgToServer, this`msgToServerId, this`timesSent, this`sent, this`stdinEnabled,
        this`timer, this`waitingForConfirm, this`waitingForReply, confirmed
      ensures Valid()
      ensures code == 0 <==> IsValidByeMsg(grammar, msg)
      ensures code != 0 ==> code == 2
      ensures code == 0 ==>
        && sent == old(sent) + [EncodeConfirm(GetMsgId(msg))]
        && (forall i :: 0 <= i < confirmed.Length ==> confirmed[i] == (i == GetMsgId(msg) || old(confirmed[i])))
        && OutstandingKept()
      ensures code == 2 ==>
        && sent == old(sent) + [msgToServer]
        && ErrPending(old(msgToServerId), MALFORMED_BYE) && unchanged(confirmed)
    {
      if IsValidByeMsg(grammar, msg) {
        SendConfirmMsg(GetMsgId(msg));
        return 0;
      }
      SendErrMsg(MALFORMED_BYE);
      return 2;
    }

    /** An ERR from the server is printed and ends the session with failure
        once confirmed. */
    method ProcessServerErrMsg(msg: seq<byte>) returns (code: nat)
      requires Valid()
      modifies this`msgToServer, this`msgToServerId, this`timesSent, this`sent, this`stdinEnabled,
        this`timer, this`waitingForConfirm, this`waitingForReply, this`shown, confirmed
      ensures Valid()
      ensures shown == (if code == 1 then old(shown) + [msg] else old(shown))
      ensures code == 1 <==> IsValidErrMsg(grammar, msg)
      ensures code != 1 ==> code == 2
      ensures code == 1 ==>
        && sent == old(sent) + [EncodeConfirm(GetMsgId(msg))]
        && (forall i :: 0 <= i < confirmed.Length ==> confirmed[i] == (i == GetMsgId(msg) || old(confirmed[i])))
        && OutstandingKept()
      ensures code == 2 ==>
        && sent == old(sent) + [msgToServer]
        && ErrPending(old(msgToServerId), MALFORMED_ERR) && unchanged(confirmed)
    {
      if IsValidErrMsg(grammar, msg) {
        shown := shown + [msg];
        SendConfirmMsg(GetMsgId(msg));
        return 1;
      }
      SendErrMsg(MALFORMED_ERR);
      return 2;
    }

    /** What the client does with a CONFIRM, a REPLY, a MSG or a PING that
        reaches it in AUTH, OPEN or JOIN; any other type is refused with an ERR. */
    method ProcessInAuthState(msg: seq<byte>, from: Addr) returns (code: nat)
      requires Valid() && state == AuthState
      modifies this, confirmed
      ensures Valid() && UdpStep(old(state), state)
      ensures code in {0, 1, 2}
      ensures code == 0 ==> IsValidConfirmMsg(msg) && GetMsgId(msg) == old(msgToServerId) && old(OutType()) == CodeByte(Bye)
      ensures code == 1 ==> IsValidConfirmMsg(msg) && GetMsgId(msg) == old(msgToServerId) && old(OutType()) == CodeByte(Err)
      ensures state == OpenState ==> IsOfType(msg, Reply) && old(AnswersRequest(msg)) && msg[BYTES_IN_MSG_HEADER] == 1
      ensures !IsOfType(msg, Confirm) && !IsOfType(msg, Reply) && !IsOfType(msg, Ping) ==>
        && state == AuthState && sent == old(sent) + [msgToServer] && OutType() == CodeByte(Err)
    {
      var t := TypeByte(msg);
      if t == CodeByte(Confirm) {
        code := ProcessServerConfirmMsg(msg);
        return;
      } else if t == CodeByte(Reply) {
        ProcessServerReplyMsg(msg, from);
      } else if t == CodeByte(Ping) {
        ProcessServerPingMsg(msg);
      } else {
        SendErrMsg(UNEXPECTED_IN_AUTH);
      }
      return 2;
    }

    method ProcessInOpenState(msg: seq<byte>) returns (code: nat)
      requires Valid() && state == OpenState
      modifies this, confirmed
      ensures Valid() && UdpStep(old(state), state)
      ensures code in {0, 1, 2}
      ensures code == 0 ==> IsValidConfirmMsg(msg) && GetMsgId(msg) == old(msgToServerId) && old(OutType()) == CodeByte(Bye)
      ensures code == 1 ==> IsValidConfirmMsg(msg) && GetMsgId(msg) == old(msgToServerId) && old(OutType()) == CodeByte(Err)
      ensures state == JoinState ==>
        IsValidConfirmMsg(msg) && GetMsgId(msg) == old(msgToServerId) && old(OutType()) == CodeByte(Join)
      ensures !IsOfType(msg, Confirm) && !IsOfType(msg, Msg) && !IsOfType(msg, Ping) ==>
        && state == OpenState && sent == old(sent) + [msgToServer] && OutType() == CodeByte(Err)
    {
      var t := TypeByte(msg);
      if t == CodeByte(Confirm) {
        code := ProcessServerConfirmMsg(msg);
        return;
      } else if t == CodeByte(Msg) {
        ProcessServerMsgMsg(msg);
      } else if t == CodeByte(Ping) {
        ProcessServerPingMsg(msg);
      } else {
        SendErrMsg(UNEXPECTED_IN_OPEN);
      }
      return 2;
    }

    method ProcessInJoinState(msg: seq<byte>, from: Addr) returns (code: nat)
      requires Valid() && state == JoinState
      modifies this, confirmed
      ensures Valid() && UdpStep(old(state), state)
      ensures code in {0, 1, 2}
      ensures code == 0 ==> IsValidConfirmMsg(msg) && GetMsgId(msg) == old(msgToServerId) && old(OutType()) == CodeByte(Bye)
      ensures code == 1 ==> IsValidConfirmMsg(msg) && GetMsgId(msg) == old(msgToServerId) && old(OutType()) == CodeByte(Err)
      ensures state == OpenState ==> IsOfType(msg, Reply) && old(AnswersRequest(msg))
      ensures !IsOfType(msg, Confirm) && !IsOfType(msg, Msg) && !IsOfType(msg, Ping) && !IsOfType(msg, Reply) ==>
        && state == JoinState && sent == old(sent) + [msgToServer] && OutType() == CodeByte(Err)
    {
      var t := TypeByte(msg);
      if t == CodeByte(Msg) {
        ProcessServerMsgMsg(msg);
      } else if t == CodeByte(Ping) {
        ProcessServerPingMsg(msg);
      } else if t == CodeByte(Reply) {
        ProcessServerReplyMsg(msg, from);
      } else if t == CodeByte(Confirm) {
        code := ProcessServerConfirmMsg(msg);
        return;
      } else {
        SendErrMsg(UNEXPECTED_IN_JOIN);
      }
      return 2;
    }

    /** Dispatch of one received datagram: BYE and ERR in every state, the
        other types according to the state. Exit code 0 ends the session
        successfully, 1 with an error, 2 keeps it running. */
    method ProcessMessageFromServer(msg: seq<byte>, from: Addr) returns (code: nat)
      requires Valid()
      modifies this, confirmed
      ensures Valid() && UdpStep(old(state), state)
      ensures code in {0, 1, 2}
      ensures IsOfType(msg, Bye) ==> (code == 0 <==> IsValidByeMsg(grammar, msg)) && state == old(state)
      ensures IsOfType(msg, Err) ==> (code == 1 <==> IsValidErrMsg(grammar, msg)) && state == old(state)
      ensures code == 0 ==>
        || IsValidByeMsg(grammar, msg)
        || (IsValidConfirmMsg(msg) && GetMsgId(msg) == old(msgToServerId) && old(OutType()) == CodeByte(Bye))
      ensures code == 1 ==>
        || IsValidErrMsg(grammar, msg)
        || (IsValidConfirmMsg(msg) && GetMsgId(msg) == old(msgToServerId) && old(OutType()) == CodeByte(Err))
      ensures old(state) == StartState && !IsOfType(msg, Bye) && !IsOfType(msg, Err) && !IsOfType(msg, Confirm) ==>
        && code == 2 && state == StartState && sent == old(sent) + [msgToServer]
        && OutType() == CodeByte(Err)
      ensures old(state) == AuthState && state == OpenState ==>
        IsOfType(msg, Reply) && old(AnswersRequest(msg)) && msg[BYTES_IN_MSG_HEADER] == 1
      ensures old(state) == JoinState && state == OpenState ==>
        IsOfType(msg, Reply) && old(AnswersRequest(msg))
      ensures old(state) == OpenState && state == JoinState ==>
        IsValidConfirmMsg(msg) && GetMsgId(msg) == old(msgToServerId) && old(OutType()) == CodeByte(Join)
    {
      var t := TypeByte(msg);
      if t == CodeByte(Bye) {
        code := ProcessServerByeMsg(msg);
        return;
      }
      if t == CodeByte(Err) {
        code := ProcessServerErrMsg(msg);
        return;
      }
      match state
      case StartState =>
        if t == CodeByte(Confirm) {
          code := ProcessServerConfirmMsg(msg);
          return;
        }
        SendErrMsg(UNEXPECTED_IN_START);
        code := 2;
      case AuthState =>
        code := ProcessInAuthState(msg, from);
      case OpenState =>
        code := ProcessInOpenState(msg);
      case JoinState =>
        code := ProcessInJoinState(msg, from);
    }

    /** One datagram read from the socket (corrected size limit). */
    method ProcessSocketEvent(r: RecvResult) returns (code: nat)
      requires Valid()
      modifies this, confirmed
      ensures Valid() && UdpStep(old(state), state)
      ensures code in {0, 1, 2}
      ensures r.RecvFailed? || (r.Datagram? && DatagramTooLong(|r.bytes|)) ==>
        code == 2 && state == old(state) && sent == old(sent) + [msgToServer] && OutType() == CodeByte(Err)
    {
      match r
      case RecvFailed =>
        SendErrMsg(RECV_FAILED);
        return 2;
      case Datagram(bytes, from) =>
        if DatagramTooLong(|bytes|) {
          SendErrMsg(DATAGRAM_TOO_LONG);
          return 2;
        }
        code := ProcessMessageFromServer(bytes, from);
    }
  }

  /** A server MSG delivered twice (its confirmation was lost) is confirmed
      both times and shown once. */
  method RedeliveredMsgShownOnce(c: UdpClient, msg: seq<byte>)
    requires c.Valid() && IsValidMsgMsg(c.grammar, msg)
    requires !c.confirmed[GetMsgId(msg)]
    modifies c, c.confirmed
    ensures c.shown == old(c.shown) + [msg]
    ensures c.sent == old(c.sent) + [EncodeConfirm(GetMsgId(msg)), EncodeConfirm(GetMsgId(msg))]
  {
    c.ProcessServerMsgMsg(msg);
    c.ProcessServerMsgMsg(msg);
  }

  /** The same message is sent at most 1 + maxRetransmissions times: with the
      default budget of 3, the timer expires three times with a resend each,
      and the fourth expiry throws. */
  method RetransmissionBudgetRunsOut(c: UdpClient) returns (thrown: Option<Exception>)
    requires c.Valid() && c.waitingForConfirm && c.timesSent == 1
    requires c.allowedRetransmissions == c.maxRetransmissions == DEFAULT_UDP_MAX_RETRANSMISSIONS
    modifies c, c.confirmed
    ensures thrown == Some(Exception(RETRANSMISSIONS_EXCEEDED))
    ensures c.sent == old(c.sent) + [old(c.msgToServer), old(c.msgToServer), old(c.msgToServer)]
    ensures c.timesSent == 1 + c.maxRetransmissions
  {
    thrown := c.ProcessTimerEvent();
    thrown := c.ProcessTimerEvent();
    thrown := c.ProcessTimerEvent();
    thrown := c.ProcessTimerEvent();
  }
}
