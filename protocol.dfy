/**
 * Shared vocabulary of the IPK25-CHAT client: the message types and their
 * one-byte wire codes, the client's finite-state machine, the protocol's
 * length limits, the user command table and the user input events that the
 * TCP and UDP clients react to.
 */
module Protocol {

  /** The usual optional value. */
  datatype Option<+T> = None | Some(value: T)

  /** One octet, as carried in a UDP datagram. */
  newtype byte = x: int | 0 <= x < 256

  /** A 16-bit unsigned message ID. */
  type u16 = x: int | 0 <= x < 0x1_0000

  /** Message types of the protocol; Unknown is the classifier's "none of these". */
  datatype MsgType = Confirm | Reply | Auth | Join | Msg | Ping | Err | Bye | Unknown

  /** The enumerator value of each type: the wire code, and 0x100 for Unknown,
      which follows 0xFF in the enumeration. */
  function Code(t: MsgType): (c: nat)
    ensures t != Unknown <==> c < 256
  {
    match t
    case Confirm => 0x00
    case Reply => 0x01
    case Auth => 0x02
    case Join => 0x03
    case Msg => 0x04
    case Ping => 0xFD
    case Err => 0xFE
    case Bye => 0xFF
    case Unknown => 0x100
  }

  /** Reading a received type byte as a message type (the cast of the first
      byte of a datagram to the enumeration): the type whose code it is, or
      None when no type has that code. */
  function TypeOfByte(b: byte): (r: Option<MsgType>)
    ensures r.Some? ==> Code(r.value) == b as int && r.value != Unknown
    ensures r.None? ==> forall t: MsgType :: Code(t) != b as int
  {
    if b == 0x00 then Some(Confirm)
    else if b == 0x01 then Some(Reply)
    else if b == 0x02 then Some(Auth)
    else if b == 0x03 then Some(Join)
    else if b == 0x04 then Some(Msg)
    else if b == 0xFD then Some(Ping)
    else if b == 0xFE then Some(Err)
    else if b == 0xFF then Some(Bye)
    else None
  }

  /** The wire code of a type that has one, as a byte. */
  function CodeByte(t: MsgType): (b: byte)
    requires t != Unknown
    ensures b as int == Code(t)
  {
    Code(t) as byte
  }

  /** The eight wire codes are pairwise distinct. */
  lemma CodesDistinct(t: MsgType, u: MsgType)
    ensures Code(t) == Code(u) ==> t == u
  {
  }

  /** Decoding the code of a type gives the type back. */
  lemma {:induction false} TypeOfCodeByte(t: MsgType)
    requires t != Unknown
    ensures TypeOfByte(CodeByte(t)) == Some(t)
  {
    match t
    case Confirm =>
    case Reply =>
    case Auth =>
    case Join =>
    case Msg =>
    case Ping =>
    case Err =>
    case Bye =>
  }

  /** The states of the client's finite-state machine. */
  datatype FsmState = StartState | AuthState | OpenState | JoinState

  /** Once a run of states has left START, it never comes back, provided no
      single step enters START from another state. */
  lemma {:induction false} StartNeverReentered(states: seq<FsmState>)
    requires |states| >= 1 && states[0] != StartState
    requires forall i :: 0 <= i < |states| - 1 ==> (states[i + 1] == StartState ==> states[i] == StartState)
    ensures forall i :: 0 <= i < |states| ==> states[i] != StartState
  {
    if |states| > 1 {
      assert states[1] != StartState;
      StartNeverReentered(states[1..]);
      forall i | 1 <= i < |states|
        ensures states[i] != StartState
      {
        assert states[i] == states[1..][i - 1];
      }
    }
  }

  /** Protocol length limits. */
  const MSG_CONTENT_MAX_LENGTH := 60000
  const DISPLAY_NAME_MAX_LENGTH := 20
  const USERNAME_MAX_LENGTH := 20
  const CHANNEL_ID_MAX_LENGTH := 20
  const USER_SECRET_MAX_LENGTH := 128

  /** How long a client waits for a REPLY, in seconds, and as armed on the timer, in ms. */
  const MAX_REPLY_WAIT_TIME := 5
  const REPLY_WAIT_MS := MAX_REPLY_WAIT_TIME * 1000

  /** Defaults of the UDP command-line options: retransmissions and confirmation timeout (ms). */
  const DEFAULT_UDP_MAX_RETRANSMISSIONS := 3
  const DEFAULT_UDP_CONFIRM_TIMEOUT_MS := 250

  /** What a new client starts with. */
  const INITIAL_STATE := StartState
  const DEFAULT_DISPLAY_NAME := "unknown"

  /** The user command table, in its declared order. */
  const USER_COMMANDS: seq<string> := ["/auth", "/help", "/join", "/rename"]

  /** Index of the command that authenticates, and of the one that joins a channel. */
  const AUTH_COMMAND_INDEX := 0
  const JOIN_COMMAND_INDEX := 2

  /** The word that opens a user command, looked up in the table. */
  function CommandWord(i: nat): (w: string)
    requires i < |USER_COMMANDS|
    ensures |w| >= 5 && w[0] == '/'
  {
    USER_COMMANDS[i]
  }

  /** A user command that is sent to the server, already split into its
      arguments (`/auth username secret displayname`, `/join channel`, or a
      chat message). */
  datatype Command<S> =
    | AuthCmd(username: S, secret: S, displayName: S)
    | JoinCmd(channelId: S)
    | MsgCmd(content: S)
  {
    /** The command-table word that introduces this command, if any. */
    function Word(): (w: Option<string>)
      ensures AuthCmd? ==> w == Some("/auth")
      ensures JoinCmd? ==> w == Some("/join")
      ensures MsgCmd? <==> w.None?
    {
      match this
      case AuthCmd(_, _, _) => Some(CommandWord(AUTH_COMMAND_INDEX))
      case JoinCmd(_) => Some(CommandWord(JOIN_COMMAND_INDEX))
      case MsgCmd(_) => None
    }

    /** Whether sending this command makes the client wait for a REPLY. */
    predicate ExpectsReply() {
      AuthCmd? || JoinCmd?
    }
  }

  /** What one readiness event on standard input amounts to. `Skipped` stands
      for an empty line, /help, or a command the client refuses to send in its
      state; `Send` carries a command that goes to the server. /rename, which
      changes the display name without sending, has no event here. */
  datatype StdinEvent<S> = Hangup | StdinError | Skipped | Send(cmd: Command<S>)

  /** A timer that is stopped or armed to expire after some milliseconds. */
  datatype Timer = Stopped | Armed(ms: nat)
}
