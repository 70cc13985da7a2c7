/**
 * The binary wire format of the UDP variant of IPK25-CHAT, as the client
 * writes and reads it: a one-byte type, a 16-bit message ID in network byte
 * order, then variable-length fields each terminated by a NUL byte. Also the
 * per-type length checks the client applies to what it receives.
 */
module UdpCodec {
  import opened Protocol

  /** Sizes of the header parts and the field terminator. */
  const BYTES_IN_MSG_ID := 2
  const VARIABLE_LENGTH_DATA_TERMINATOR: byte := 0
  const TERMINATOR_SIZE := 1
  const BYTES_IN_PROTOCOL_MSG_TYPE := 1
  const BYTES_IN_REPLY_RESULT := 1
  const BYTES_IN_MSG_HEADER := BYTES_IN_PROTOCOL_MSG_TYPE + BYTES_IN_MSG_ID
  const MIN_VARIABLE_DATA_LENGTH := 1

  /** The largest datagram the client accepts: header, result byte, reference
      ID, the longest content and its terminator. */
  const MAX_MSG_SIZE := BYTES_IN_MSG_HEADER + BYTES_IN_REPLY_RESULT + BYTES_IN_MSG_ID
                        + MSG_CONTENT_MAX_LENGTH + TERMINATOR_SIZE

  /** A field that contains no terminator byte. */
  predicate NulFree(s: seq<byte>) {
    forall i :: 0 <= i < |s| ==> s[i] != VARIABLE_LENGTH_DATA_TERMINATOR
  }

  /** The two bytes of a message ID in network byte order (most significant first). */
  function MsgIdBytes(id: u16): (r: seq<byte>)
    ensures |r| == BYTES_IN_MSG_ID
    ensures r[0] as int * 256 + r[1] as int == id
  {
    [(id / 256) as byte, (id % 256) as byte]
  }

  /** The ID that follows `id` on a 16-bit counter. */
  function NextMsgId(id: u16): (r: u16)
    ensures id < 0xFFFF ==> r == id + 1
    ensures id == 0xFFFF ==> r == 0
  {
    (id + 1) % 0x1_0000
  }

  /** The ID that precedes `id` on a 16-bit counter. */
  function PrevMsgId(id: u16): (r: u16)
    ensures NextMsgId(r) == id
  {
    (id + 0xFFFF) % 0x1_0000
  }

  /** Appends a message ID to a message under construction. */
  function WithMsgId(msg: seq<byte>, id: u16): (r: seq<byte>)
    ensures |r| == |msg| + BYTES_IN_MSG_ID && r[..|msg|] == msg
    ensures r[|msg|] as int * 256 + r[|msg| + 1] as int == id
  {
    msg + MsgIdBytes(id)
  }

  /** The message ID of a message: bytes 1 and 2, most significant first. */
  function GetMsgId(msg: seq<byte>): (id: u16)
    requires |msg| >= BYTES_IN_MSG_HEADER
    ensures MsgIdBytes(id) == msg[BYTES_IN_PROTOCOL_MSG_TYPE..BYTES_IN_MSG_HEADER]
  {
    var id := msg[1] as int * 256 + msg[2] as int;
    assert id / 256 == msg[1] as int && id % 256 == msg[2] as int;
    id
  }

  /** The reference ID of a REPLY: bytes 4 and 5, after the header and the result byte. */
  function GetRefMsgId(msg: seq<byte>): (id: u16)
    requires |msg| >= BYTES_IN_MSG_HEADER + BYTES_IN_REPLY_RESULT + BYTES_IN_MSG_ID
    ensures MsgIdBytes(id) == msg[4..6]
  {
    var id := msg[4] as int * 256 + msg[5] as int;
    assert id / 256 == msg[4] as int && id % 256 == msg[5] as int;
    id
  }

  /** Fields each followed by the terminator, one after the other. */
  function JoinFields(fields: seq<seq<byte>>): (r: seq<byte>)
  {
    if fields == [] then [] else fields[0] + [VARIABLE_LENGTH_DATA_TERMINATOR] + JoinFields(fields[1..])
  }

  /** The position of the first terminator, if there is one. */
  function IndexOfNul(s: seq<byte>): (r: Option<nat>)
    ensures r.Some? ==> r.value < |s| && s[r.value] == VARIABLE_LENGTH_DATA_TERMINATOR && NulFree(s[..r.value])
    ensures r.None? ==> NulFree(s)
  {
    if s == [] then None
    else if s[0] == VARIABLE_LENGTH_DATA_TERMINATOR then Some(0)
    else match IndexOfNul(s[1..])
      case None => None
      case Some(i) =>
        assert s[..i + 1] == [s[0]] + s[1..][..i];
        Some(i + 1)
  }

  /** Splits a run of terminated fields into the fields; None when the last
      bytes are not terminated. */
  function SplitFields(s: seq<byte>): (r: Option<seq<seq<byte>>>)
    decreases |s|
  {
    if s == [] then Some([])
    else match IndexOfNul(s)
      case None => None
      case Some(i) =>
        match SplitFields(s[i + 1..])
        case None => None
        case Some(rest) => Some([s[..i]] + rest)
  }

  /** Splitting joined NUL-free fields gives the fields back. */
  lemma {:induction false} SplitJoinFields(fields: seq<seq<byte>>)
    requires forall k :: 0 <= k < |fields| ==> NulFree(fields[k])
    ensures SplitFields(JoinFields(fields)) == Some(fields)
  {
    if fields != [] {
      var f := fields[0];
      var s := JoinFields(fields);
      assert s == f + [VARIABLE_LENGTH_DATA_TERMINATOR] + JoinFields(fields[1..]);
      IndexOfFirstTerminator(f, JoinFields(fields[1..]));
      assert s[|f| + 1..] == JoinFields(fields[1..]);
      assert s[..|f|] == f;
      SplitJoinFields(fields[1..]);
      assert [f] + fields[1..] == fields;
    }
  }

  /** The first terminator of `f + [NUL] + t` is the one after `f` when `f` has none. */
  lemma {:induction false} IndexOfFirstTerminator(f: seq<byte>, t: seq<byte>)
    requires NulFree(f)
    ensures IndexOfNul(f + [VARIABLE_LENGTH_DATA_TERMINATOR] + t) == Some(|f|)
  {
    var s := f + [VARIABLE_LENGTH_DATA_TERMINATOR] + t;
    if f != [] {
      assert s[1..] == f[1..] + [VARIABLE_LENGTH_DATA_TERMINATOR] + t;
      IndexOfFirstTerminator(f[1..], t);
    }
  }

  /** Conversely, whatever splits into fields is exactly those fields joined,
      and each field is NUL-free. */
  lemma {:induction false} JoinSplitFields(s: seq<byte>, fields: seq<seq<byte>>)
    requires SplitFields(s) == Some(fields)
    ensures JoinFields(fields) == s
    ensures forall k :: 0 <= k < |fields| ==> NulFree(fields[k])
    decreases |s|
  {
    if s != [] {
      var i := IndexOfNul(s).value;
      var rest := SplitFields(s[i + 1..]).value;
      JoinSplitFields(s[i + 1..], rest);
      assert fields == [s[..i]] + rest;
      assert fields[1..] == rest;
      assert s == s[..i] + [VARIABLE_LENGTH_DATA_TERMINATOR] + s[i + 1..];
    }
  }

  // Encoders, one per message type the client sends. Each writes the type
  // byte and the big-endian ID, then appends the fields in order, each
  // followed by a NUL.

  /** AUTH = [0x02][id][username NUL displayname NUL secret NUL]. */
  function EncodeAuth(id: u16, username: seq<byte>, displayName: seq<byte>, secret: seq<byte>): seq<byte>
  {
    WithMsgId([CodeByte(Auth)], id) + username + [VARIABLE_LENGTH_DATA_TERMINATOR]
      + displayName + [VARIABLE_LENGTH_DATA_TERMINATOR] + secret + [VARIABLE_LENGTH_DATA_TERMINATOR]
  }

  /** JOIN = [0x03][id][channel NUL displayname NUL]. */
  function EncodeJoin(id: u16, channelId: seq<byte>, displayName: seq<byte>): seq<byte>
  {
    WithMsgId([CodeByte(Join)], id) + channelId + [VARIABLE_LENGTH_DATA_TERMINATOR]
      + displayName + [VARIABLE_LENGTH_DATA_TERMINATOR]
  }

  /** MSG = [0x04][id][displayname NUL content NUL]. */
  function EncodeMsg(id: u16, displayName: seq<byte>, content: seq<byte>): seq<byte>
  {
    WithMsgId([CodeByte(Msg)], id) + displayName + [VARIABLE_LENGTH_DATA_TERMINATOR]
      + content + [VARIABLE_LENGTH_DATA_TERMINATOR]
  }

  /** ERR = [0xFE][id][displayname NUL content NUL]. */
  function EncodeErr(id: u16, displayName: seq<byte>, content: seq<byte>): seq<byte>
  {
    WithMsgId([CodeByte(Err)], id) + displayName + [VARIABLE_LENGTH_DATA_TERMINATOR]
      + content + [VARIABLE_LENGTH_DATA_TERMINATOR]
  }

  /** BYE = [0xFF][id][displayname NUL]. */
  function EncodeBye(id: u16, displayName: seq<byte>): seq<byte>
  {
    WithMsgId([CodeByte(Bye)], id) + displayName + [VARIABLE_LENGTH_DATA_TERMINATOR]
  }

  /** CONFIRM = [0x00][ref id]. */
  function EncodeConfirm(refId: u16): seq<byte>
  {
    WithMsgId([CodeByte(Confirm)], refId)
  }

  /** The layout of AUTH: its header, then its three fields each followed by a NUL. */
  lemma {:induction false} AuthLayout(id: u16, username: seq<byte>, displayName: seq<byte>, secret: seq<byte>)
    ensures var r := EncodeAuth(id, username, displayName, secret);
      && |r| >= BYTES_IN_MSG_HEADER
      && r[..BYTES_IN_MSG_HEADER] == [CodeByte(Auth)] + MsgIdBytes(id)
      && r[BYTES_IN_MSG_HEADER..] == JoinFields([username, displayName, secret])
  {
    assert JoinFields([secret]) == secret + [VARIABLE_LENGTH_DATA_TERMINATOR] by {
      assert [secret][1..] == [];
    }
    assert [username, displayName, secret][1..] == [displayName, secret];
    assert [displayName, secret][1..] == [secret];
  }

  /** The layout of JOIN: its header, then its two fields each followed by a NUL. */
  lemma {:induction false} JoinLayout(id: u16, channelId: seq<byte>, displayName: seq<byte>)
    ensures var r := EncodeJoin(id, channelId, displayName);
      && |r| >= BYTES_IN_MSG_HEADER
      && r[..BYTES_IN_MSG_HEADER] == [CodeByte(Join)] + MsgIdBytes(id)
      && r[BYTES_IN_MSG_HEADER..] == JoinFields([channelId, displayName])
  {
    TwoFields(channelId, displayName);
  }

  /** The layout of MSG: its header, then its two fields each followed by a NUL. */
  lemma {:induction false} MsgLayout(id: u16, displayName: seq<byte>, content: seq<byte>)
    ensures var r := EncodeMsg(id, displayName, content);
      && |r| >= BYTES_IN_MSG_HEADER
      && r[..BYTES_IN_MSG_HEADER] == [CodeByte(Msg)] + MsgIdBytes(id)
      && r[BYTES_IN_MSG_HEADER..] == JoinFields([displayName, content])
  {
    TwoFields(displayName, content);
  }

  /** The layout of ERR: its header, then its two fields each followed by a NUL. */
  lemma {:induction false} ErrLayout(id: u16, displayName: seq<byte>, content: seq<byte>)
    ensures var r := EncodeErr(id, displayName, content);
      && |r| >= BYTES_IN_MSG_HEADER
      && r[..BYTES_IN_MSG_HEADER] == [CodeByte(Err)] + MsgIdBytes(id)
      && r[BYTES_IN_MSG_HEADER..] == JoinFields([displayName, content])
  {
    TwoFields(displayName, content);
  }

  /** The layout of BYE: its header, then the display name followed by a NUL. */
  lemma {:induction false} ByeLayout(id: u16, displayName: seq<byte>)
    ensures var r := EncodeBye(id, displayName);
      && |r| >= BYTES_IN_MSG_HEADER
      && r[..BYTES_IN_MSG_HEADER] == [CodeByte(Bye)] + MsgIdBytes(id)
      && r[BYTES_IN_MSG_HEADER..] == JoinFields([displayName])
  {
    assert [displayName][1..] == [];
  }

  /** The layout of CONFIRM: a header and nothing else. */
  lemma {:induction false} ConfirmLayout(refId: u16)
    ensures var r := EncodeConfirm(refId);
      && |r| == BYTES_IN_MSG_HEADER
      && r[..BYTES_IN_MSG_HEADER] == [CodeByte(Confirm)] + MsgIdBytes(refId)
  {
  }

  lemma TwoFields(a: seq<byte>, b: seq<byte>)
    ensures JoinFields([a, b]) == a + [VARIABLE_LENGTH_DATA_TERMINATOR] + b + [VARIABLE_LENGTH_DATA_TERMINATOR]
  {
    assert [a, b][1..] == [b];
    assert [b][1..] == [];
    assert JoinFields([b]) == b + [VARIABLE_LENGTH_DATA_TERMINATOR] + JoinFields([]);
  }

  /** Reading back the ID that was written after a type byte gives that ID. */
  lemma MsgIdRoundTrip(t: byte, id: u16, rest: seq<byte>)
    ensures GetMsgId(WithMsgId([t], id) + rest) == id
  {
    var m := WithMsgId([t], id) + rest;
    assert MsgIdBytes(GetMsgId(m)) == m[1..3] == MsgIdBytes(id);
  }

  /** A message header decodes to the type and ID it was written with. */
  lemma HeaderRoundTrip(msg: seq<byte>, t: MsgType, id: u16)
    requires t != Unknown
    requires |msg| >= BYTES_IN_MSG_HEADER && msg[..BYTES_IN_MSG_HEADER] == [CodeByte(t)] + MsgIdBytes(id)
    ensures TypeOfByte(msg[0]) == Some(t)
    ensures GetMsgId(msg) == id
  {
    assert msg[0] == msg[..BYTES_IN_MSG_HEADER][0];
    TypeOfCodeByte(t);
    MsgIdBytesInjective(GetMsgId(msg), id);
  }

  lemma MsgIdBytesInjective(a: u16, b: u16)
    requires MsgIdBytes(a) == MsgIdBytes(b)
    ensures a == b
  {
  }

  /** An AUTH message decodes to its type, ID and its three fields. */
  lemma {:induction false} AuthRoundTrip(id: u16, username: seq<byte>, displayName: seq<byte>, secret: seq<byte>)
    requires NulFree(username) && NulFree(displayName) && NulFree(secret)
    ensures var m := EncodeAuth(id, username, displayName, secret);
      TypeOfByte(m[0]) == Some(Auth) && GetMsgId(m) == id
      && SplitFields(m[BYTES_IN_MSG_HEADER..]) == Some([username, displayName, secret])
  {
    var m := EncodeAuth(id, username, displayName, secret);
    AuthLayout(id, username, displayName, secret);
    HeaderRoundTrip(m, Auth, id);
    SplitJoinFields([username, displayName, secret]);
  }

  /** A JOIN message decodes to its type, ID and its two fields. */
  lemma {:induction false} JoinRoundTrip(id: u16, channelId: seq<byte>, displayName: seq<byte>)
    requires NulFree(channelId) && NulFree(displayName)
    ensures var m := EncodeJoin(id, channelId, displayName);
      TypeOfByte(m[0]) == Some(Join) && GetMsgId(m) == id
      && SplitFields(m[BYTES_IN_MSG_HEADER..]) == Some([channelId, displayName])
  {
    var m := EncodeJoin(id, channelId, displayName);
    JoinLayout(id, channelId, displayName);
    HeaderRoundTrip(m, Join, id);
    SplitJoinFields([channelId, displayName]);
  }

  /** A MSG message decodes to its type, ID and its two fields. */
  lemma {:induction false} MsgRoundTrip(id: u16, displayName: seq<byte>, content: seq<byte>)
    requires NulFree(displayName) && NulFree(content)
    ensures var m := EncodeMsg(id, displayName, content);
      TypeOfByte(m[0]) == Some(Msg) && GetMsgId(m) == id
      && SplitFields(m[BYTES_IN_MSG_HEADER..]) == Some([displayName, content])
  {
    var m := EncodeMsg(id, displayName, content);
    MsgLayout(id, displayName, content);
    HeaderRoundTrip(m, Msg, id);
    SplitJoinFields([displayName, content]);
  }

  /** An ERR message decodes to its type, ID and its two fields. */
  lemma {:induction false} ErrRoundTrip(id: u16, displayName: seq<byte>, content: seq<byte>)
    requires NulFree(displayName) && NulFree(content)
    ensures var m := EncodeErr(id, displayName, content);
      TypeOfByte(m[0]) == Some(Err) && GetMsgId(m) == id
      && SplitFields(m[BYTES_IN_MSG_HEADER..]) == Some([displayName, content])
  {
    var m := EncodeErr(id, displayName, content);
    ErrLayout(id, displayName, content);
    HeaderRoundTrip(m, Err, id);
    SplitJoinFields([displayName, content]);
  }

  /** A BYE message decodes to its type, ID and its one field. */
  lemma {:induction false} ByeRoundTrip(id: u16, displayName: seq<byte>)
    requires NulFree(displayName)
    ensures var m := EncodeBye(id, displayName);
      TypeOfByte(m[0]) == Some(Bye) && GetMsgId(m) == id
      && SplitFields(m[BYTES_IN_MSG_HEADER..]) == Some([displayName])
  {
    var m := EncodeBye(id, displayName);
    ByeLayout(id, displayName);
    HeaderRoundTrip(m, Bye, id);
    SplitJoinFields([displayName]);
  }

  /** A CONFIRM decodes to its type and the ID it refers to. */
  lemma ConfirmRoundTrip(refId: u16)
    ensures TypeOfByte(EncodeConfirm(refId)[0]) == Some(Confirm) && GetMsgId(EncodeConfirm(refId)) == refId
  {
    ConfirmLayout(refId);
    HeaderRoundTrip(EncodeConfirm(refId), Confirm, refId);
  }

  // Length checks on received messages. Each bound is the sum of the header,
  // the shortest (one byte) or longest field contents and their terminators.

  function IsValidConfirmMsgLength(n: nat): (ok: bool)
    ensures ok <==> n == 3
  {
    n == BYTES_IN_MSG_HEADER
  }

  function IsValidPingMsgLength(n: nat): (ok: bool)
    ensures ok <==> n == 3
  {
    n == BYTES_IN_MSG_HEADER
  }

  function IsValidByeMsgLength(n: nat): (ok: bool)
    ensures ok <==> 5 <= n <= 24
  {
    && n >= BYTES_IN_MSG_HEADER + MIN_VARIABLE_DATA_LENGTH + TERMINATOR_SIZE
    && n <= BYTES_IN_MSG_HEADER + DISPLAY_NAME_MAX_LENGTH + TERMINATOR_SIZE
  }

  function IsValidMsgMsgLength(n: nat): (ok: bool)
    ensures ok <==> 7 <= n <= 60025
  {
    && n >= BYTES_IN_MSG_HEADER + MIN_VARIABLE_DATA_LENGTH + TERMINATOR_SIZE + MIN_VARIABLE_DATA_LENGTH + TERMINATOR_SIZE
    && n <= BYTES_IN_MSG_HEADER + DISPLAY_NAME_MAX_LENGTH + TERMINATOR_SIZE + MSG_CONTENT_MAX_LENGTH + TERMINATOR_SIZE
  }

  function IsValidErrMsgLength(n: nat): (ok: bool)
    ensures ok <==> 7 <= n <= 60025
  {
    && n >= BYTES_IN_MSG_HEADER + MIN_VARIABLE_DATA_LENGTH + TERMINATOR_SIZE + MIN_VARIABLE_DATA_LENGTH + TERMINATOR_SIZE
    && n <= BYTES_IN_MSG_HEADER + DISPLAY_NAME_MAX_LENGTH + TERMINATOR_SIZE + MSG_CONTENT_MAX_LENGTH + TERMINATOR_SIZE
  }

  function IsValidReplyMsgLength(n: nat): (ok: bool)
    ensures ok <==> 8 <= n <= 60007
  {
    && n >= BYTES_IN_MSG_HEADER + BYTES_IN_REPLY_RESULT + BYTES_IN_MSG_ID + MIN_VARIABLE_DATA_LENGTH + TERMINATOR_SIZE
    && n <= BYTES_IN_PROTOCOL_MSG_TYPE + BYTES_IN_MSG_ID + BYTES_IN_REPLY_RESULT + BYTES_IN_MSG_ID
            + MSG_CONTENT_MAX_LENGTH + TERMINATOR_SIZE
  }

  /** The REPLY result byte is 0 (negative) or 1 (positive). */
  function IsValidReplyMsgResult(b: byte): (ok: bool)
    ensures ok <==> b as int in {0, 1}
  {
    b == 0 || b == 1
  }

  /** Every message the client can build with fields of protocol length passes
      the length check for its type. */
  lemma EncodedLengthsAccepted(id: u16, displayName: seq<byte>, content: seq<byte>)
    requires 1 <= |displayName| <= DISPLAY_NAME_MAX_LENGTH
    requires 1 <= |content| <= MSG_CONTENT_MAX_LENGTH
    ensures IsValidMsgMsgLength(|EncodeMsg(id, displayName, content)|)
    ensures IsValidErrMsgLength(|EncodeErr(id, displayName, content)|)
    ensures IsValidByeMsgLength(|EncodeBye(id, displayName)|)
  {
    TwoFields(displayName, content);
    assert [displayName][1..] == [];
  }

  /** The header is a one-byte type plus a two-byte ID, and MAX_MSG_SIZE is
      exactly the longest REPLY the client accepts. */
  lemma MaxMsgSizeIsLongestReply()
    ensures BYTES_IN_MSG_HEADER == 3
    ensures MAX_MSG_SIZE == 60007
    ensures IsValidReplyMsgLength(MAX_MSG_SIZE) && !IsValidReplyMsgLength(MAX_MSG_SIZE + 1)
  {
  }

  // Datagram size check of processSocketEvent.

  /** As written: a datagram longer than MAX_MSG_SIZE is refused. */
  function DatagramTooLongAsWritten(n: nat): (tooLong: bool)
    ensures tooLong <==> n > 60007
  {
    n > MAX_MSG_SIZE
  }

  /** The longest datagram any of the length checks accepts (a MSG or an ERR
      with the longest display name and content). */
  const MAX_DATAGRAM_SIZE := BYTES_IN_MSG_HEADER + DISPLAY_NAME_MAX_LENGTH + TERMINATOR_SIZE
                             + MSG_CONTENT_MAX_LENGTH + TERMINATOR_SIZE

  /** Some length check accepts a message of `n` bytes. */
  predicate SomeLengthCheckAccepts(n: nat) {
    || IsValidConfirmMsgLength(n) || IsValidPingMsgLength(n) || IsValidByeMsgLength(n)
    || IsValidMsgMsgLength(n) || IsValidErrMsgLength(n) || IsValidReplyMsgLength(n)
  }

  /** Corrected: a datagram is refused only when no message of that length could be valid. */
  function DatagramTooLong(n: nat): (tooLong: bool)
    ensures tooLong <==> !SomeLengthCheckAccepts(n) && n > MAX_MSG_SIZE
    ensures tooLong ==> n > MAX_DATAGRAM_SIZE
  {
    n > MAX_DATAGRAM_SIZE
  }

  /** As written, the longest MSG the client can itself produce, and that the
      MSG length check accepts, is refused as too long when it arrives. */
  lemma LongestMsgRefusedAsWritten(id: u16, displayName: seq<byte>, content: seq<byte>)
    requires |displayName| == DISPLAY_NAME_MAX_LENGTH && |content| == MSG_CONTENT_MAX_LENGTH
    ensures var n := |EncodeMsg(id, displayName, content)|;
      n == 60025 && IsValidMsgMsgLength(n) && DatagramTooLongAsWritten(n) && !DatagramTooLong(n)
  {
    TwoFields(displayName, content);
  }

  /** With the correction, no datagram whose length some check accepts is refused,
      and the largest such length is accepted. */
  lemma ValidLengthsNeverTooLong(n: nat)
    ensures SomeLengthCheckAccepts(n) ==> !DatagramTooLong(n)
    ensures SomeLengthCheckAccepts(MAX_DATAGRAM_SIZE) && !DatagramTooLong(MAX_DATAGRAM_SIZE)
  {
  }

  // Matching a REPLY to the request it answers.

  /** As written, `m_msg_to_server_id - 1 == ref` is evaluated on int after
      integer promotion, so with the counter at 0 the left side is -1. */
  function RefMatchesAsWritten(msgToServerId: u16, refId: u16): (ok: bool)
    ensures msgToServerId != 0 ==> (ok <==> refId == msgToServerId - 1)
    ensures msgToServerId == 0 ==> !ok
  {
    msgToServerId as int - 1 == refId as int
  }

  /** Corrected: the reference must be the ID before the counter, modulo 2^16. */
  function RefMatches(msgToServerId: u16, refId: u16): (ok: bool)
    ensures ok <==> NextMsgId(refId) == msgToServerId
  {
    NextIdInjective(refId, PrevMsgId(msgToServerId));
    refId == PrevMsgId(msgToServerId)
  }

  lemma NextIdInjective(a: u16, b: u16)
    ensures NextMsgId(a) == NextMsgId(b) ==> a == b
  {
  }

  /** The request sent with ID 0xFFFF is answered with reference 0xFFFF; after
      its confirmation the counter has wrapped to 0, and the written check
      refuses the answer while the corrected one accepts it. */
  lemma WrappedReplyRefusedAsWritten()
    ensures NextMsgId(0xFFFF) == 0
    ensures !RefMatchesAsWritten(NextMsgId(0xFFFF), 0xFFFF)
    ensures RefMatches(NextMsgId(0xFFFF), 0xFFFF)
  {
  }

  /** With the correction, a REPLY that refers to the request is matched after
      the request's confirmation advanced the counter, for every ID; and the
      two checks agree whenever the counter is not 0. */
  lemma RefMatchesAfterConfirm(requestId: u16, refId: u16)
    ensures RefMatches(NextMsgId(requestId), refId) <==> refId == requestId
    ensures NextMsgId(requestId) != 0 ==>
      (RefMatches(NextMsgId(requestId), refId) <==> RefMatchesAsWritten(NextMsgId(requestId), refId))
  {
    NextIdInjective(refId, requestId);
  }
}
